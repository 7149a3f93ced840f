/** Compaction's model-free half (pkg/agent/compaction_clip.go): old tool results
    become stubs, oversized ones keep their head and tail. */
module Clip {
  import opened Messages
  import Text

  const CLIP_MIN_CHARS: nat := 800
  const CLIP_OVERSIZE_CHARS: nat := 12000
  const TRIM_KEEP_CHARS: nat := 2000
  const STUB_MARKER: string := "[clipped tool result]"
  /** Longest note a trim leaves where the middle was: fixed words and two 64-bit numbers. */
  const NOTICE_CHARS: nat := 400

  /** The words of a compaction: what a stub says after its marker, and the note
      between the head and the tail of a trimmed result (bytes left out, bytes in all). */
  datatype Wording = Wording(stub: (ToolCall, string) -> string, notice: (nat, nat) -> string) {
    ghost predicate Brief() {
      forall elided, total :: |notice(elided, total)| <= NOTICE_CHARS
    }
  }

  /** Index of the leftmost round opener with fewer than `keep` openers after it. */
  function RoundBoundary(ms: seq<Message>, keep: int): (b: nat)
    ensures b <= |ms|
    ensures b < |ms| && keep > 0 ==> OpensRound(ms[b])
  {
    if keep <= 0 then |ms|
    else if ms == [] then 0
    else if OpensRound(ms[0]) && RoundCount(ms[1..]) < keep then 0
    else 1 + RoundBoundary(ms[1..], keep)
  }

  /** What the boundary means: exactly the newest `keep` rounds are behind it. */
  lemma {:induction false} BoundaryCutsNewestRounds(ms: seq<Message>, keep: int)
    requires keep > 0
    ensures RoundCount(ms[RoundBoundary(ms, keep)..]) == if RoundCount(ms) < keep then RoundCount(ms) else keep
  {
    if ms != [] {
      BoundaryCutsNewestRounds(ms[1..], keep);
      if !(OpensRound(ms[0]) && RoundCount(ms[1..]) < keep) {
        assert ms[RoundBoundary(ms, keep)..] == ms[1..][RoundBoundary(ms[1..], keep)..];
      } else {
        assert ms[0..] == ms;
      }
    }
  }

  lemma {:induction false} BoundaryFromSuffix(ms: seq<Message>, keep: int, i: nat)
    requires keep > 0 && i <= |ms| && RoundCount(ms[i..]) >= keep
    ensures RoundBoundary(ms, keep) == i + RoundBoundary(ms[i..], keep)
  {
    if i == 0 {
      assert ms[0..] == ms;
    } else {
      assert ms[1..][i - 1..] == ms[i..];
      BoundaryFromSuffix(ms[1..], keep, i - 1);
      RoundCountSuffix(ms[1..], i - 1);
    }
  }

  lemma {:induction false} RoundCountSuffix(ms: seq<Message>, i: nat)
    requires i <= |ms|
    ensures RoundCount(ms[i..]) <= RoundCount(ms)
  {
    if i == 0 {
      assert ms[0..] == ms;
    } else {
      assert ms[1..][i - 1..] == ms[i..];
      RoundCountSuffix(ms[1..], i - 1);
    }
  }

  lemma {:induction false} ShapeKeepsBoundary(a: seq<Message>, b: seq<Message>, keep: int)
    requires SameShape(a, b)
    ensures RoundBoundary(a, keep) == RoundBoundary(b, keep)
  {
    if keep > 0 && a != [] {
      ShapeKeepsBoundary(a[1..], b[1..], keep);
      ShapeKeepsRounds(a[1..], b[1..]);
    }
  }

  lemma BoundaryStep(ms: seq<Message>, keep: int, i: nat)
    requires keep > 0 && i < |ms|
    ensures RoundCount(ms[i..]) == RoundCount(ms[i + 1..]) + if OpensRound(ms[i]) then 1 else 0
    ensures RoundBoundary(ms[i..], keep) ==
            if OpensRound(ms[i]) && RoundCount(ms[i + 1..]) < keep then 0 else 1 + RoundBoundary(ms[i + 1..], keep)
  {
    assert ms[i..][1..] == ms[i + 1..];
  }

  /** The backward scan of toolRoundBoundary. */
  method ToolRoundBoundary(ms: seq<Message>, keep: int) returns (boundary: nat)
    ensures boundary == RoundBoundary(ms, keep)
  {
    boundary := |ms|;
    if keep <= 0 {
      return;
    }
    var rounds := 0;
    var i := |ms|;
    while i > 0
      invariant 0 <= i <= |ms|
      invariant rounds == RoundCount(ms[i..]) <= keep
      invariant boundary == i + RoundBoundary(ms[i..], keep)
    {
      BoundaryStep(ms, keep, i - 1);
      if OpensRound(ms[i - 1]) {
        if rounds == keep {
          BoundaryFromSuffix(ms, keep, i);
          return;
        }
        rounds := rounds + 1;
        boundary := i - 1;
      }
      i := i - 1;
    }
    assert ms[0..] == ms;
  }

  /** The calls made before an index, by id; a repeated id keeps its last call. */
  function CallTable(ms: seq<Message>): map<string, ToolCall> {
    if ms == [] then map[] else NoteCalls(CallTable(ms[..|ms| - 1]), ms[|ms| - 1].calls)
  }

  function NoteCalls(table: map<string, ToolCall>, calls: seq<ToolCall>): map<string, ToolCall> {
    if calls == [] then table
    else
      var last := calls[|calls| - 1];
      var before := NoteCalls(table, calls[..|calls| - 1]);
      if last.id == "" then before else before[last.id := last]
  }

  /** Every call made, in message and call order. */
  function AllCalls(ms: seq<Message>): seq<ToolCall> {
    if ms == [] then [] else AllCalls(ms[..|ms| - 1]) + ms[|ms| - 1].calls
  }

  ghost predicate HasCall(calls: seq<ToolCall>, id: string) {
    exists k :: 0 <= k < |calls| && calls[k].id == id
  }

  /** `call` is the last of the calls that carry the id. */
  ghost predicate LastWith(calls: seq<ToolCall>, id: string, call: ToolCall) {
    exists k :: 0 <= k < |calls| && calls[k] == call && call.id == id && !HasCall(calls[k + 1..], id)
  }

  lemma {:induction false} NotesAppend(table: map<string, ToolCall>, a: seq<ToolCall>, b: seq<ToolCall>)
    ensures NoteCalls(NoteCalls(table, a), b) == NoteCalls(table, a + b)
  {
    if b == [] {
      assert a + b == a;
    } else {
      NotesAppend(table, a, b[..|b| - 1]);
      assert (a + b)[..|a + b| - 1] == a + b[..|b| - 1];
    }
  }

  lemma {:induction false} TableOfAllCalls(ms: seq<Message>)
    ensures CallTable(ms) == NoteCalls(map[], AllCalls(ms))
  {
    if ms != [] {
      TableOfAllCalls(ms[..|ms| - 1]);
      NotesAppend(map[], AllCalls(ms[..|ms| - 1]), ms[|ms| - 1].calls);
    }
  }

  lemma {:induction false} NotesHold(calls: seq<ToolCall>, id: string)
    ensures id in NoteCalls(map[], calls) <==> id != "" && HasCall(calls, id)
    ensures id in NoteCalls(map[], calls) ==> LastWith(calls, id, NoteCalls(map[], calls)[id])
  {
    if calls != [] {
      var n := |calls| - 1;
      var front, last := calls[..n], calls[n];
      NotesHold(front, id);
      assert HasCall(calls, id) <==> HasCall(front, id) || last.id == id by {
        assert forall k :: 0 <= k < n ==> calls[k] == front[k];
      }
      if last.id == id {
        assert calls[n + 1..] == [];
      } else if id in NoteCalls(map[], front) {
        LaterOther(front, last, id, NoteCalls(map[], front)[id]);
        assert front + [last] == calls;
      }
    }
  }

  lemma LaterOther(front: seq<ToolCall>, last: ToolCall, id: string, call: ToolCall)
    requires LastWith(front, id, call) && last.id != id
    ensures LastWith(front + [last], id, call)
  {
    var k :| 0 <= k < |front| && front[k] == call && call.id == id && !HasCall(front[k + 1..], id);
    var all := front + [last];
    assert all[k + 1..] == front[k + 1..] + [last] && all[k] == call;
    assert !HasCall(all[k + 1..], id);
  }

  /** An id is in the table exactly when some call carries it and it is not empty, and
      its entry is the last such call in message and call order. */
  lemma CallTableHolds(ms: seq<Message>, id: string)
    ensures id in CallTable(ms) <==> id != "" && HasCall(AllCalls(ms), id)
    ensures id in CallTable(ms) ==> LastWith(AllCalls(ms), id, CallTable(ms)[id])
  {
    TableOfAllCalls(ms);
    NotesHold(AllCalls(ms), id);
  }

  predicate Clippable(m: Message) {
    m.role.Tool? && m.parts == [] && |m.content| >= CLIP_MIN_CHARS && !(STUB_MARKER <= m.content)
  }

  predicate Trimmable(m: Message, capChars: int) {
    m.role.Tool? && m.parts == [] && |m.content| > capChars && !(STUB_MARKER <= m.content)
  }

  /** Which results a pass rewrites. */
  datatype Pick = ToStub | ToTrim(capChars: int) {
    predicate Picks(m: Message) {
      match this
      case ToStub => Clippable(m)
      case ToTrim(capChars) => Trimmable(m, capChars)
    }
  }

  function Stub(table: map<string, ToolCall>, m: Message, w: Wording): (r: Message)
    ensures STUB_MARKER <= r.content
  {
    var call := if m.callId in table then table[m.callId] else ToolCall("", "", "");
    m.(content := STUB_MARKER + w.stub(call, m.content))
  }

  /** A history after clipping everything in [protectEnd, boundary). */
  function Clipped(ms: seq<Message>, protectEnd: nat, keepRounds: int, w: Wording): (r: seq<Message>)
    ensures |r| == |ms|
  {
    var boundary := RoundBoundary(ms, keepRounds);
    seq(|ms|, i requires 0 <= i < |ms| =>
      if keepRounds >= 0 && protectEnd <= i < boundary && Clippable(ms[i])
      then Stub(CallTable(ms[..boundary]), ms[i], w) else ms[i])
  }

  /** How many messages in [lo, hi) are picked. */
  function Hits(ms: seq<Message>, lo: nat, hi: nat, pick: Pick): (n: nat)
    requires hi <= |ms|
  {
    if hi <= lo then 0 else Hits(ms, lo, hi - 1, pick) + if pick.Picks(ms[hi - 1]) then 1 else 0
  }

  lemma {:induction false} NoHits(ms: seq<Message>, lo: nat, hi: nat, pick: Pick)
    requires hi <= |ms|
    ensures Hits(ms, lo, hi, pick) == 0 <==> forall i :: lo <= i < hi ==> !pick.Picks(ms[i])
  {
    if lo < hi {
      NoHits(ms, lo, hi - 1, pick);
    }
  }

  /** The call-id map built by the first loop of clipOldToolResults. */
  method BuildCallTable(ms: seq<Message>) returns (table: map<string, ToolCall>)
    ensures table == CallTable(ms)
    ensures forall id :: id in table <==> id != "" && HasCall(AllCalls(ms), id)
    ensures forall id :: id in table ==> LastWith(AllCalls(ms), id, table[id])
  {
    hide HasCall, LastWith, AllCalls;
    table := map[];
    for i := 0 to |ms|
      invariant table == CallTable(ms[..i])
    {
      var calls := ms[i].calls;
      ghost var before := table;
      for j := 0 to |calls|
        invariant table == NoteCalls(before, calls[..j])
      {
        assert calls[..j + 1][..j] == calls[..j];
        if calls[j].id != "" {
          table := table[calls[j].id := calls[j]];
        }
      }
      assert calls[..|calls|] == calls;
      assert ms[..i + 1][..i] == ms[..i];
    }
    assert ms[..|ms|] == ms;
    forall id
      ensures id in table <==> id != "" && HasCall(AllCalls(ms), id)
      ensures id in table ==> LastWith(AllCalls(ms), id, table[id])
    {
      CallTableHolds(ms, id);
    }
  }

  lemma ClipMarks(ms: seq<Message>, protectEnd: nat, keepRounds: int, w: Wording)
    ensures var out := Clipped(ms, protectEnd, keepRounds, w);
      forall i :: 0 <= i < |ms| ==>
        (out[i] != ms[i] <==> keepRounds >= 0 && protectEnd <= i < RoundBoundary(ms, keepRounds) && Clippable(ms[i]))
  {
  }

  lemma ClippedAt(ms: seq<Message>, protectEnd: nat, keepRounds: int, w: Wording, i: nat)
    requires keepRounds >= 0 && protectEnd <= i < RoundBoundary(ms, keepRounds)
    ensures Clipped(ms, protectEnd, keepRounds, w)[i] ==
      if Clippable(ms[i]) then Stub(CallTable(ms[..RoundBoundary(ms, keepRounds)]), ms[i], w) else ms[i]
  {
  }

  lemma ClippedElsewhere(ms: seq<Message>, protectEnd: nat, keepRounds: int, w: Wording)
    ensures forall i :: 0 <= i < |ms| && !(keepRounds >= 0 && protectEnd <= i < RoundBoundary(ms, keepRounds)) ==>
      Clipped(ms, protectEnd, keepRounds, w)[i] == ms[i]
  {
  }

  /** What becomes of one message when old results are clipped: a tool result of 800 bytes
      or more, without parts and not clipped before, that stands after the head and before
      the rounds to keep, keeps everything but its text, which becomes the marker and a
      stub made from the last call before those rounds that carries its id (none if no
      call does) and the old text. Every other message stays. */
  lemma ClippedMeaning(ms: seq<Message>, protectEnd: nat, keepRounds: int, w: Wording, i: nat)
    requires i < |ms|
    ensures var out := Clipped(ms, protectEnd, keepRounds, w);
      var boundary := RoundBoundary(ms, keepRounds);
      if keepRounds >= 0 && protectEnd <= i < boundary && ms[i].role.Tool? && ms[i].parts == []
         && |ms[i].content| >= 800 && !("[clipped tool result]" <= ms[i].content)
      then exists call :: CallFor(ms[..boundary], ms[i].callId, call)
             && out[i] == ms[i].(content := "[clipped tool result]" + w.stub(call, ms[i].content))
      else out[i] == ms[i]
  {
    var boundary := RoundBoundary(ms, keepRounds);
    var table := CallTable(ms[..boundary]);
    CallTableHolds(ms[..boundary], ms[i].callId);
    hide RoundBoundary, CallTable, HasCall, LastWith, AllCalls;
    var call := if ms[i].callId in table then table[ms[i].callId] else ToolCall("", "", "");
    assert CallFor(ms[..boundary], ms[i].callId, call);
  }

  /** The last call that carries the id; an empty one if there is none. */
  ghost predicate CallFor(ms: seq<Message>, id: string, call: ToolCall) {
    if id != "" && HasCall(AllCalls(ms), id) then LastWith(AllCalls(ms), id, call) else call == ToolCall("", "", "")
  }

  /** clipOldToolResults: copies the history at the first rewrite, never writes its input. */
  method ClipOldToolResults(ms: seq<Message>, protectEnd: nat, keepRounds: int, w: Wording)
    returns (out: seq<Message>, clipped: nat)
    requires protectEnd <= |ms|
    ensures out == Clipped(ms, protectEnd, keepRounds, w)
    ensures clipped == if keepRounds < 0 then 0 else Hits(ms, protectEnd, RoundBoundary(ms, keepRounds), ToStub)
    ensures clipped == 0 <==> out == ms
  {
    hide HasCall, LastWith, AllCalls, CallTable, RoundBoundary, Clipped, Stub, Clippable;
    out, clipped := ms, 0;
    ghost var want := Clipped(ms, protectEnd, keepRounds, w);
    ClippedElsewhere(ms, protectEnd, keepRounds, w);
    if keepRounds >= 0 {
      var boundary := ToolRoundBoundary(ms, keepRounds);
      var table := BuildCallTable(ms[..boundary]);
      var i := protectEnd;
      while i < boundary
        invariant protectEnd <= i && (i <= boundary || i == protectEnd)
        invariant |out| == |ms|
        invariant forall j :: 0 <= j < i ==> out[j] == want[j]
        invariant forall j :: i <= j < |ms| ==> out[j] == ms[j]
        invariant clipped == Hits(ms, protectEnd, i, ToStub)
      {
        var m := ms[i];
        ClippedAt(ms, protectEnd, keepRounds, w, i);
        if Clippable(m) {
          out := out[i := Stub(table, m, w)];
          clipped := clipped + 1;
        }
        i := i + 1;
      }
    }
    assert out == want;
    ClipMarks(ms, protectEnd, keepRounds, w);
    NoHits(ms, protectEnd, RoundBoundary(ms, keepRounds), ToStub);
  }

  function HeadTail(s: string, keep: nat, w: Wording): string {
    if |s| <= 2 * keep then s else
      var head := Text.Truncated(s, keep);
      var tail := s[Text.RuneSkip(s, |s| - keep)..];
      head + "\n" + w.notice(|s| - |head| - |tail|, |s|) + tail
  }

  /** A byte in the middle of a rune. */
  predicate Continues(b: char) {
    0x80 <= b as int < 0xC0
  }

  /** t is s with everything from i to j replaced by a line and a notice of how much that
      was; i is the last place at or before `keep` that splits no rune, and j the first
      such place at or after the last `keep` bytes begin. */
  ghost predicate CutOut(s: string, keep: nat, w: Wording, t: string, i: nat, j: nat) {
    && i <= keep && |s| - keep <= j && i < j <= |s|
    && (i > 0 ==> !Continues(s[i])) && (forall k :: i < k <= keep && k < |s| ==> Continues(s[k]))
    && (j < |s| ==> !Continues(s[j])) && (forall k :: |s| - keep <= k < j && 0 <= k ==> Continues(s[k]))
    && t == s[..i] + "\n" + w.notice(j - i, |s|) + s[j..]
  }

  lemma HeadTailMeaning(s: string, keep: nat, w: Wording)
    ensures |s| <= 2 * keep ==> HeadTail(s, keep, w) == s
    ensures |s| > 2 * keep ==> exists i: nat, j: nat :: CutOut(s, keep, w, HeadTail(s, keep, w), i, j)
  {
    if |s| > 2 * keep {
      var i, j := Text.RuneCut(s, keep), Text.RuneSkip(s, |s| - keep);
      assert |s| - |s[..i]| - |s[j..]| == j - i;
      assert CutOut(s, keep, w, HeadTail(s, keep, w), i, j);
    }
  }

  /** trimHeadTail. */
  method TrimHeadTail(s: string, keep: nat, w: Wording) returns (t: string)
    ensures t == HeadTail(s, keep, w)
    ensures |s| <= 2 * keep ==> t == s
    ensures |s| > 2 * keep ==> exists i: nat, j: nat :: CutOut(s, keep, w, t, i, j)
  {
    HeadTailMeaning(s, keep, w);
    hide CutOut;
    if |s| <= 2 * keep {
      return s;
    }
    var head := Text.TruncateRunes(s, keep);
    var tailStart := |s| - keep;
    while tailStart < |s| && !Text.RuneStart(s[tailStart])
      invariant 0 <= tailStart <= |s|
      invariant Text.RuneSkip(s, tailStart) == Text.RuneSkip(s, |s| - keep)
    {
      tailStart := tailStart + 1;
    }
    var tail := s[tailStart..];
    t := head + "\n" + w.notice(|s| - |head| - |tail|, |s|) + tail;
  }

  function TrimOne(m: Message, capChars: int, w: Wording): Message {
    if Trimmable(m, capChars) then m.(content := HeadTail(m.content, TRIM_KEEP_CHARS, w)) else m
  }

  function Trimmed(ms: seq<Message>, protectEnd: nat, keepNewest: int, capChars: int, w: Wording): (r: seq<Message>)
    ensures |r| == |ms|
  {
    var boundary := RoundBoundary(ms, if keepNewest < 1 then 1 else keepNewest);
    seq(|ms|, i requires 0 <= i < |ms| =>
      if capChars > 0 && protectEnd <= i < boundary then TrimOne(ms[i], capChars, w) else ms[i])
  }

  /** What becomes of one message when oversized results are trimmed: a tool result longer
      than the cap, without parts and not clipped, that stands after the head and before
      the newest rounds, keeps everything but its text, which keeps 2000 bytes or a little
      less at either end. Every other message stays. */
  lemma TrimmedMeaning(ms: seq<Message>, protectEnd: nat, keepNewest: int, capChars: int, w: Wording, i: nat)
    requires i < |ms|
    ensures var out := Trimmed(ms, protectEnd, keepNewest, capChars, w);
      var boundary := RoundBoundary(ms, if keepNewest < 1 then 1 else keepNewest);
      if capChars > 0 && protectEnd <= i < boundary && ms[i].role.Tool? && ms[i].parts == []
         && |ms[i].content| > capChars && !("[clipped tool result]" <= ms[i].content)
      then && out[i] == ms[i].(content := out[i].content)
           && (|ms[i].content| <= 4000 ==> out[i] == ms[i])
           && (|ms[i].content| > 4000 ==>
                exists a: nat, b: nat :: CutOut(ms[i].content, 2000, w, out[i].content, a, b))
      else out[i] == ms[i]
  {
    HeadTailMeaning(ms[i].content, 2000, w);
    hide HeadTail, CutOut, RoundBoundary;
  }

  /** A trimmed text is short, is not its original and does not pass for a stub. */
  lemma TrimShortens(s: string, w: Wording)
    requires w.Brief() && CLIP_OVERSIZE_CHARS < |s| && !(STUB_MARKER <= s)
    ensures |HeadTail(s, TRIM_KEEP_CHARS, w)| <= CLIP_OVERSIZE_CHARS
    ensures !(STUB_MARKER <= HeadTail(s, TRIM_KEEP_CHARS, w))
  {
    var head := Text.Truncated(s, TRIM_KEEP_CHARS);
    var tail := s[Text.RuneSkip(s, |s| - TRIM_KEEP_CHARS)..];
    var t := HeadTail(s, TRIM_KEEP_CHARS, w);
    assert head < t && t[|head|] == '\n';
    assert forall k :: 0 <= k < |STUB_MARKER| ==> STUB_MARKER[k] != '\n';
    assert |head| >= |STUB_MARKER| ==> t[..|STUB_MARKER|] == s[..|STUB_MARKER|];
  }

  method TrimMessage(m: Message, capChars: int, w: Wording) returns (r: Message)
    requires Trimmable(m, capChars)
    ensures r == TrimOne(m, capChars, w)
  {
    var text := TrimHeadTail(m.content, TRIM_KEEP_CHARS, w);
    r := m.(content := text);
  }

  /** trimOversizedToolResults. */
  method TrimOversizedToolResults(ms: seq<Message>, protectEnd: nat, keepNewest: int, capChars: int, w: Wording)
    returns (out: seq<Message>, trimmed: nat)
    requires protectEnd <= |ms|
    ensures out == Trimmed(ms, protectEnd, keepNewest, capChars, w)
    ensures trimmed == TrimHits(ms, protectEnd, keepNewest, capChars)
  {
    hide HeadTail, RoundBoundary;
    out, trimmed := ms, 0;
    if capChars <= 0 {
      assert out == Trimmed(ms, protectEnd, keepNewest, capChars, w);
      return;
    }
    var boundary := ToolRoundBoundary(ms, if keepNewest < 1 then 1 else keepNewest);
    var i := protectEnd;
    while i < boundary
      invariant protectEnd <= i && (i <= boundary || i == protectEnd)
      invariant |out| == |ms|
      invariant forall j :: protectEnd <= j < i ==> out[j] == TrimOne(ms[j], capChars, w)
      invariant out[..protectEnd] == ms[..protectEnd] && out[i..] == ms[i..]
      invariant trimmed == Hits(ms, protectEnd, i, ToTrim(capChars))
    {
      var m := ms[i];
      if Trimmable(m, capChars) {
        var cut := TrimMessage(m, capChars, w);
        out := out[i := cut];
        trimmed := trimmed + 1;
      }
      i := i + 1;
    }
    TrimmedPointwise(ms, out, protectEnd, i, protectEnd, keepNewest, capChars, w);
  }

  lemma TrimmedPointwise(ms: seq<Message>, out: seq<Message>, lo: nat, hi: nat, protectEnd: nat, keepNewest: int,
                         capChars: int, w: Wording)
    requires |out| == |ms| && capChars > 0 && lo <= hi <= |ms| && lo == protectEnd
    requires var boundary := RoundBoundary(ms, if keepNewest < 1 then 1 else keepNewest);
      hi == if boundary < lo then lo else boundary
    requires forall j :: lo <= j < hi ==> out[j] == TrimOne(ms[j], capChars, w)
    requires out[..lo] == ms[..lo] && out[hi..] == ms[hi..]
    ensures out == Trimmed(ms, protectEnd, keepNewest, capChars, w)
  {
    var want := Trimmed(ms, protectEnd, keepNewest, capChars, w);
    forall j | 0 <= j < |ms| ensures out[j] == want[j] {
      if j < lo {
        assert out[j] == out[..lo][j] == ms[..lo][j];
      } else if j >= hi {
        assert out[j] == out[hi..][j - hi] == ms[hi..][j - hi];
      }
    }
  }

  function TrimHits(ms: seq<Message>, protectEnd: nat, keepNewest: int, capChars: int): nat {
    if capChars <= 0 then 0
    else Hits(ms, protectEnd, RoundBoundary(ms, if keepNewest < 1 then 1 else keepNewest), ToTrim(capChars))
  }

  /** Clip then trim, as a compaction round runs them (compaction_round.go:158-161). */
  function Reduced(ms: seq<Message>, protectEnd: nat, keepRounds: int, w: Wording): (r: seq<Message>)
    ensures |r| == |ms|
  {
    if keepRounds < 0 then ms
    else Trimmed(Clipped(ms, protectEnd, keepRounds, w), protectEnd, 1, CLIP_OVERSIZE_CHARS, w)
  }

  /** Clipping and trimming touch the text of tool results and nothing else: the
      goal, every role, call id and tool call stay, and so do the results of the
      newest `keepRounds` rounds (for clipping) or of the newest round (for both). */
  lemma ReducedTouchesOnlyOldResults(ms: seq<Message>, protectEnd: nat, keepRounds: int, w: Wording)
    ensures var out := Reduced(ms, protectEnd, keepRounds, w);
      && SameShape(ms, out)
      && RoundBoundary(out, keepRounds) == RoundBoundary(ms, keepRounds)
      && (forall i :: 0 <= i < |ms| && out[i] != ms[i] ==>
            && protectEnd <= i && ms[i].role.Tool? && ms[i].parts == []
            && !(STUB_MARKER <= ms[i].content)
            && (i < RoundBoundary(ms, 1) || (keepRounds == 0 && STUB_MARKER <= out[i].content))
            && (i >= RoundBoundary(ms, keepRounds) ==> |ms[i].content| > CLIP_OVERSIZE_CHARS))
  {
    var out := Reduced(ms, protectEnd, keepRounds, w);
    var mid := Clipped(ms, protectEnd, keepRounds, w);
    ShapeKeepsBoundary(ms, mid, 1);
    ShapeKeepsBoundary(ms, out, keepRounds);
    if keepRounds > 0 {
      BoundaryMonotone(ms, 1, keepRounds);
    }
  }

  lemma {:induction false} BoundaryMonotone(ms: seq<Message>, few: int, many: int)
    requires 0 < few <= many
    ensures RoundBoundary(ms, many) <= RoundBoundary(ms, few)
  {
    if ms != [] {
      BoundaryMonotone(ms[1..], few, many);
    }
  }

  /** A second compaction of an unchanged history rewrites nothing, so the prompt
      is byte-stable from then on. */
  lemma ReducedIdempotent(ms: seq<Message>, protectEnd: nat, keepRounds: int, w: Wording)
    requires w.Brief()
    ensures var out := Reduced(ms, protectEnd, keepRounds, w);
      Reduced(out, protectEnd, keepRounds, w) == out
  {
    var mid := Clipped(ms, protectEnd, keepRounds, w);
    var out := Reduced(ms, protectEnd, keepRounds, w);
    hide HeadTail, RoundBoundary;
    if keepRounds >= 0 {
      ReducedTouchesOnlyOldResults(ms, protectEnd, keepRounds, w);
      ShapeKeepsBoundary(ms, mid, 1);
      ShapeKeepsBoundary(ms, mid, keepRounds);
      ShapeKeepsBoundary(ms, out, 1);
      forall i | protectEnd <= i < |ms| && i < RoundBoundary(ms, keepRounds) ensures !Clippable(out[i]) {
        assert Trimmable(mid[i], CLIP_OVERSIZE_CHARS) ==> Clippable(mid[i]);
        assert !Clippable(mid[i]);
      }
      assert Clipped(out, protectEnd, keepRounds, w) == out;
      forall i | protectEnd <= i < |ms| && i < RoundBoundary(ms, 1) ensures !Trimmable(out[i], CLIP_OVERSIZE_CHARS) {
        if Trimmable(mid[i], CLIP_OVERSIZE_CHARS) {
          assert mid[i] == ms[i];
          TrimShortens(mid[i].content, w);
        }
      }
      assert Trimmed(out, protectEnd, 1, CLIP_OVERSIZE_CHARS, w) == out;
    }
  }

  /** Whether a round reduced anything is exactly whether the history changed. */
  lemma ReducedChanges(ms: seq<Message>, protectEnd: nat, keepRounds: int, w: Wording)
    requires w.Brief() && keepRounds >= 0
    ensures var mid := Clipped(ms, protectEnd, keepRounds, w);
      var out := Reduced(ms, protectEnd, keepRounds, w);
      && (Hits(ms, protectEnd, RoundBoundary(ms, keepRounds), ToStub) == 0 <==> mid == ms)
      && (TrimHits(mid, protectEnd, 1, CLIP_OVERSIZE_CHARS) == 0 <==> out == mid)
  {
    NoHits(ms, protectEnd, RoundBoundary(ms, keepRounds), ToStub);
    NoHits(Clipped(ms, protectEnd, keepRounds, w), protectEnd,
           RoundBoundary(Clipped(ms, protectEnd, keepRounds, w), 1), ToTrim(CLIP_OVERSIZE_CHARS));
    var mid := Clipped(ms, protectEnd, keepRounds, w);
    var out := Reduced(ms, protectEnd, keepRounds, w);
    forall i | protectEnd <= i < RoundBoundary(mid, 1) && Trimmable(mid[i], CLIP_OVERSIZE_CHARS)
      ensures out[i] != mid[i]
    {
      assert mid[i] == ms[i];
      TrimShortens(mid[i].content, w);
    }
  }
}
