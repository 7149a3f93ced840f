/** Where a history may be folded, and the fold (pkg/agent/compaction.go). */
module Fold {
  import opened Messages

  const DEFAULT_KEEP_RECENT: int := 6

  function LeadingSystem(ms: seq<Message>): (n: nat)
    ensures n <= |ms|
    ensures forall i :: 0 <= i < n ==> ms[i].role.System?
    ensures n < |ms| ==> !ms[n].role.System?
  {
    if ms == [] || !ms[0].role.System? then 0 else 1 + LeadingSystem(ms[1..])
  }

  /** leadingSystemCount. */
  method LeadingSystemCount(ms: seq<Message>) returns (n: nat)
    ensures n == LeadingSystem(ms)
  {
    for i := 0 to |ms|
      invariant forall k :: 0 <= k < i ==> ms[k].role.System?
    {
      if !ms[i].role.System? {
        return i;
      }
    }
    return |ms|;
  }

  /** The run starts with a goal: a user message right after the system messages. */
  predicate HasGoal(ms: seq<Message>) {
    LeadingSystem(ms) < |ms| && ms[LeadingSystem(ms)].role.User?
  }

  /** protectedHeadEnd: the system messages and the goal. */
  function HeadEnd(ms: seq<Message>): (h: nat)
    ensures h <= |ms|
    ensures forall i :: 0 <= i < h ==> ms[i].role.System? || ms[i].role.User?
  {
    LeadingSystem(ms) + if HasGoal(ms) then 1 else 0
  }

  /** Walk back from `start` to a message the tail may begin with. */
  function SafeStart(ms: seq<Message>, headEnd: nat, start: nat): (s: nat)
    requires headEnd <= start <= |ms|
    ensures headEnd <= s <= start
    ensures headEnd < s < |ms| ==> !ms[s].role.Tool? && !ms[s].role.System?
    ensures forall k :: s < k <= start && k < |ms| ==> ms[k].role.Tool? || ms[k].role.System?
  {
    if headEnd < start < |ms| && (ms[start].role.Tool? || ms[start].role.System?)
    then SafeStart(ms, headEnd, start - 1) else start
  }

  function KeepRecent(keepRecent: int): (k: int)
    ensures k > 0
  {
    if keepRecent <= 0 then DEFAULT_KEEP_RECENT else keepRecent
  }

  function TailStart(ms: seq<Message>, headEnd: nat, keepRecent: int): (s: nat)
    requires headEnd <= |ms| && keepRecent >= 0
    ensures headEnd <= s <= |ms|
    ensures headEnd < s < |ms| ==> !ms[s].role.Tool? && !ms[s].role.System?
  {
    SafeStart(ms, headEnd, if |ms| - keepRecent < headEnd then headEnd else |ms| - keepRecent)
  }

  /** pickTailStart. */
  method PickTailStart(ms: seq<Message>, headEnd: nat, keepRecent: int) returns (start: int)
    requires headEnd <= |ms| && keepRecent >= 0
    ensures start == TailStart(ms, headEnd, keepRecent)
  {
    start := |ms| - keepRecent;
    if start < headEnd {
      start := headEnd;
    }
    ghost var first := start;
    while headEnd < start < |ms|
      invariant headEnd <= start <= first
      invariant SafeStart(ms, headEnd, start) == SafeStart(ms, headEnd, first)
      decreases start
    {
      var m := ms[start];
      if m.role.Tool? || m.role.System? {
        start := start - 1;
        continue;
      }
      break;
    }
    if start < headEnd {
      start := headEnd;
    }
  }

  /** What compaction may fold: ms[headEnd..tailStart]. */
  function Bounds(ms: seq<Message>, keepRecent: int): (b: (nat, nat))
    ensures b.0 == HeadEnd(ms) && b.0 <= b.1 <= |ms|
    ensures b.0 < b.1 ==> b.1 < |ms| && !ms[b.1].role.Tool? && !ms[b.1].role.System?
  {
    (HeadEnd(ms), TailStart(ms, HeadEnd(ms), KeepRecent(keepRecent)))
  }

  /** compactionBounds. */
  method CompactionBounds(ms: seq<Message>, keepRecent: int) returns (headEnd: nat, tailStart: nat)
    ensures (headEnd, tailStart) == Bounds(ms, keepRecent)
  {
    hide SafeStart;
    headEnd := LeadingSystemCount(ms);
    if headEnd < |ms| && ms[headEnd].role.User? {
      headEnd := headEnd + 1;
    }
    tailStart := PickTailStart(ms, headEnd, KeepRecent(keepRecent));
  }

  /** The head is the leading system messages and a user message right behind them. The
      tail is the newest `keepRecent` messages (6 when not set), without the head, moved
      back over tool results and system messages and no further. */
  lemma BoundsMeaning(ms: seq<Message>, keepRecent: int)
    ensures var (h, t) := Bounds(ms, keepRecent);
      var newest := |ms| - if keepRecent <= 0 then 6 else keepRecent;
      var from := if newest < h then h else newest;
      && h <= t <= from <= |ms|
      && (forall k :: t < k <= from && k < |ms| ==> ms[k].role.Tool? || ms[k].role.System?)
      && (t == h || t == |ms| || !(ms[t].role.Tool? || ms[t].role.System?))
    ensures var h := Bounds(ms, keepRecent).0;
      exists n :: 0 <= n <= h && (forall i :: 0 <= i < n ==> ms[i].role.System?)
        && (n < |ms| ==> !ms[n].role.System?)
        && h == if n < |ms| && ms[n].role.User? then n + 1 else n
  {
    var n := LeadingSystem(ms);
    assert forall i :: 0 <= i < n ==> ms[i].role.System?;
  }

  /** The summary stands in as a user turn; its wording is a parameter. */
  function SummaryTurn(text: string): Message {
    Message(User, text, "", [], [], "")
  }

  /** foldHistory. */
  function Folded(ms: seq<Message>, headEnd: nat, tailStart: nat, text: string): (r: seq<Message>)
    requires headEnd <= tailStart <= |ms|
    ensures |r| == headEnd + 1 + |ms| - tailStart
  {
    ms[..headEnd] + [SummaryTurn(text)] + ms[tailStart..]
  }

  lemma HeadFixesHeadEnd(a: seq<Message>, b: seq<Message>)
    requires HasGoal(a) && HeadEnd(a) <= |b| && b[..HeadEnd(a)] == a[..HeadEnd(a)]
    ensures HasGoal(b) && HeadEnd(b) == HeadEnd(a)
  {
    var n := LeadingSystem(a);
    assert b[n] == b[..n + 1][n] == a[..n + 1][n] == a[n];
    assert forall i :: 0 <= i < n ==> b[i] == b[..n + 1][i] == a[..n + 1][i] == a[i];
    var k := LeadingSystem(b);
    if k < n {
      assert false;
    } else if n < k {
      assert false;
    }
  }

  /** Folding the middle away keeps the goal in place when there is one. With no
      goal the summary itself becomes the protected head. */
  lemma FoldKeepsHead(ms: seq<Message>, keepRecent: int, text: string)
    requires Bounds(ms, keepRecent).0 < Bounds(ms, keepRecent).1
    ensures var (h, t) := Bounds(ms, keepRecent);
      var out := Folded(ms, h, t, text);
      && out[..h] == ms[..h]
      && HasGoal(out)
      && (HeadEnd(out) == h <==> HasGoal(ms))
      && (!HasGoal(ms) ==> HeadEnd(out) == h + 1)
  {
    var (h, t) := Bounds(ms, keepRecent);
    var out := Folded(ms, h, t, text);
    assert out[..h] == ms[..h];
    if HasGoal(ms) {
      HeadFixesHeadEnd(ms, out);
    } else {
      assert forall i :: 0 <= i < h ==> out[i] == out[..h][i] == ms[..h][i] == ms[i];
      assert out[h] == SummaryTurn(text);
      var k := LeadingSystem(out);
      if k < h {
        assert false;
      } else if h < k {
        assert false;
      }
    }
  }

  lemma {:induction false} NoRoundsInHead(ms: seq<Message>)
    requires forall i :: 0 <= i < |ms| ==> ms[i].role.System? || ms[i].role.User?
    ensures Rounds(ms) == [] && WellPaired(ms)
  {
    if ms != [] {
      NoRoundsInHead(ms[1..]);
    }
  }

  /** The messages before the tail of a fold: the head and the summary turn. */
  lemma FoldTop(ms: seq<Message>, headEnd: nat, text: string)
    requires headEnd == HeadEnd(ms)
    ensures var top := ms[..headEnd] + [SummaryTurn(text)];
      Rounds(top) == [] && WellPaired(top)
  {
    var top := ms[..headEnd] + [SummaryTurn(text)];
    assert forall i :: 0 <= i < headEnd ==> top[i] == ms[i];
    NoRoundsInHead(top);
  }

  /** A fold drops whole rounds, oldest first, and leaves every other call with
      exactly the results it had: pairing survives. */
  lemma FoldKeepsPairing(ms: seq<Message>, keepRecent: int, text: string)
    requires WellPaired(ms) && Bounds(ms, keepRecent).0 < Bounds(ms, keepRecent).1
    ensures var (h, t) := Bounds(ms, keepRecent);
      var out := Folded(ms, h, t, text);
      && WellPaired(out)
      && Rounds(ms) == Rounds(ms[..t]) + Rounds(out)
  {
    var (h, t) := Bounds(ms, keepRecent);
    var top := ms[..h] + [SummaryTurn(text)];
    var tail := ms[t..];
    FoldTop(ms, h, text);
    assert ms == ms[..t] + tail;
    PairedSplit(ms[..t], tail);
    PairedSplit(top, tail);
    RoundsSplit(ms[..t], tail);
    RoundsSplit(top, tail);
  }

  /** Three messages of which none is a goal: the summary of the first two is what the
      next compaction protects. */
  lemma SummaryBecomesHead(text: string)
    ensures var ms := [Message(Assistant, "a", "", [], [], ""), Message(Assistant, "b", "", [], [], ""),
                       Message(Assistant, "c", "", [], [], "")];
      && !HasGoal(ms) && Bounds(ms, 1) == (0, 2)
      && var out := Folded(ms, 0, 2, text); HeadEnd(out) == 1 && out[0] == SummaryTurn(text)
  {
    var ms := [Message(Assistant, "a", "", [], [], ""), Message(Assistant, "b", "", [], [], ""),
               Message(Assistant, "c", "", [], [], "")];
    assert LeadingSystem(ms) == 0;
    assert SafeStart(ms, 0, 2) == 2;
    FoldKeepsHead(ms, 1, text);
  }
}
