/** The part of the history a turn sends (pkg/agent/loop_context.go:246-264). */
module HistoryWindow {
  import opened Messages

  const RECENT_WINDOW: nat := 6
  const OLDER_LIMIT: nat := 12
  const KEEP: nat := RECENT_WINDOW + OLDER_LIMIT
  const STEP: nat := 40

  /** How many steps the window's start has moved. */
  function StepsMoved(n: nat): nat {
    if n <= KEEP then 0 else (n - KEEP) / STEP
  }

  /** The first message at or after `start` that is not a tool result. */
  function SkipResults(ms: seq<Message>, start: nat): (s: nat)
    requires start <= |ms|
    ensures start <= s <= |ms|
    ensures s < |ms| ==> !ms[s].role.Tool?
    ensures forall k :: start <= k < s ==> ms[k].role.Tool?
    decreases |ms| - start
  {
    if start < |ms| && ms[start].role.Tool? then SkipResults(ms, start + 1) else start
  }

  function WindowStart(ms: seq<Message>): (s: nat)
    ensures s <= |ms|
  {
    if |ms| <= KEEP then 0 else SkipResults(ms, StepsMoved(|ms|) * STEP)
  }

  /** stableHistoryWindow. */
  method StableHistoryWindow(ms: seq<Message>) returns (out: seq<Message>)
    ensures out == ms[WindowStart(ms)..]
  {
    if |ms| <= KEEP {
      return ms;
    }
    var start := (|ms| - KEEP) / STEP * STEP;
    ghost var first := start;
    while start < |ms| && ms[start].role.Tool?
      invariant first <= start <= |ms|
      invariant SkipResults(ms, start) == SkipResults(ms, first)
    {
      start := start + 1;
    }
    out := ms[start..];
  }

  /** Where the window starts: nowhere but at the front up to 18 messages; then at the last
      multiple of 40 that leaves 18, or behind the results the cut would land on. */
  lemma WindowMeaning(ms: seq<Message>) returns (step: nat)
    ensures |ms| <= 18 ==> ms[WindowStart(ms)..] == ms
    ensures |ms| > 18 ==>
      && step % 40 == 0 && step <= |ms| - 18 < step + 40 && step <= WindowStart(ms)
      && (forall k :: step <= k < WindowStart(ms) ==> ms[k].role == Tool)
      && (WindowStart(ms) < |ms| ==> ms[WindowStart(ms)].role != Tool)
  {
    step := StepsMoved(|ms|) * STEP;
  }

  /** A window of a well-paired history starts on no tool result and pairs by itself. */
  lemma WindowPairs(ms: seq<Message>)
    requires WellPaired(ms)
    ensures var w := ms[WindowStart(ms)..];
      WellPaired(w) && (w != [] ==> !w[0].role.Tool?)
  {
    var s := WindowStart(ms);
    assert ms == ms[..s] + ms[s..];
    if ms != [] {
      PairedStart(ms);
    }
    PairedSplit(ms[..s], ms[s..]);
  }

  /** Between two steps a longer history only extends the window: the provider's
      cached prefix holds. */
  lemma WindowExtends(ms: seq<Message>, more: seq<Message>)
    requires WellPaired(ms + more) && StepsMoved(|ms|) == StepsMoved(|ms + more|)
    ensures ms[WindowStart(ms)..] <= (ms + more)[WindowStart(ms + more)..]
  {
    var all := ms + more;
    var s, s' := WindowStart(ms), WindowStart(all);
    if |ms| <= KEEP {
      if all != [] {
        PairedStart(all);
      }
    } else if s < |ms| {
      assert all[s] == ms[s];
      assert s' == s by {
        SkipSame(ms, more, StepsMoved(|ms|) * STEP);
      }
    }
  }

  lemma {:induction false} SkipSame(ms: seq<Message>, more: seq<Message>, start: nat)
    requires start <= |ms| && SkipResults(ms, start) < |ms|
    ensures SkipResults(ms + more, start) == SkipResults(ms, start)
    decreases |ms| - start
  {
    if ms[start].role.Tool? {
      SkipSame(ms, more, start + 1);
    }
  }

  /** What is cut past the step is only results of the one round the step landed in. */
  lemma SkippedBelongToOneRound(ms: seq<Message>, i: nat, j: nat)
    requires WellPaired(ms)
    requires StepsMoved(|ms|) * STEP <= i < WindowStart(ms) && StepsMoved(|ms|) * STEP <= j < WindowStart(ms)
    ensures ms[i].role.Tool? && Owner(ms, i) == Owner(ms, j) < StepsMoved(|ms|) * STEP
    ensures Owner(ms, i) >= 0 && ms[i].callId in CallIds(ms[Owner(ms, i)].calls)
  {
    assert Answers(ms, i) && Answers(ms, j);
    if i < j {
      OwnerUnique(ms, j, Owner(ms, i));
    } else {
      OwnerUnique(ms, i, Owner(ms, j));
    }
  }

  /** The window is meant to keep at least the last KEEP messages. It does exactly when
      not every message from the step up to there is a tool result. */
  lemma WindowKeepsRecent(ms: seq<Message>)
    requires |ms| > KEEP
    ensures |ms[WindowStart(ms)..]| >= KEEP <==>
            exists k :: StepsMoved(|ms|) * STEP <= k <= |ms| - KEEP && !ms[k].role.Tool?
  {
    var s := WindowStart(ms);
    if s <= |ms| - KEEP {
      assert !ms[s].role.Tool?;
    }
  }

  function Id(k: nat): (id: string)
    ensures |id| == k
  {
    seq(k, _ => 'c')
  }

  /** n calls in one message, and one result for each. */
  function Calls(n: nat): (calls: seq<ToolCall>)
    ensures |calls| == n && forall k :: 0 <= k < n ==> calls[k] == ToolCall(Id(k), "scan", "")
  {
    seq(n, k requires 0 <= k < n => ToolCall(Id(k), "scan", ""))
  }

  function OneRound(n: nat): (ms: seq<Message>)
    ensures |ms| == n + 1 && ms[0] == Message(Assistant, "", "", [], Calls(n), "")
    ensures forall k :: 1 <= k <= n ==> ms[k] == Message(Tool, "", "", [], [], Id(k - 1))
  {
    [Message(Assistant, "", "", [], Calls(n), "")]
    + seq(n, k requires 0 <= k < n => Message(Tool, "", "", [], [], Id(k)))
  }

  lemma OneRoundPairs(n: nat)
    requires n > 0
    ensures WellPaired(OneRound(n))
    ensures forall i, j :: 0 <= i < j < n ==> Calls(n)[i].id != Calls(n)[j].id
  {
    var ms := OneRound(n);
    hide Id, Calls, OneRound, CallIds;
    forall i | 0 <= i < |ms| && ms[i].role.Tool? ensures Answers(ms, i) {
      OwnerUnique(ms, i, 0);
      assert CallIds(ms[0].calls)[i - 1] == Id(i - 1);
    }
    forall i, j | 0 <= i < j < n ensures Calls(n)[i].id != Calls(n)[j].id {
      assert |Calls(n)[i].id| == i && |Calls(n)[j].id| == j;
    }
  }

  /** One round of 57 calls, each with its own id and its own result, is well paired, and
      at 58 messages nothing of it is sent. */
  lemma WindowCanBeEmpty()
    ensures var ms := OneRound(57);
      && WellPaired(ms) && |ms| == 58
      && (forall i, j :: 0 <= i < j < 57 ==> Calls(57)[i].id != Calls(57)[j].id)
      && ms[WindowStart(ms)..] == []
  {
    hide Id, Calls, OneRound, WellPaired, SkipResults;
    OneRoundPairs(57);
    SkipsAll(OneRound(57), STEP);
  }

  lemma {:induction false} SkipsAll(ms: seq<Message>, start: nat)
    requires start <= |ms| && forall k :: start <= k < |ms| ==> ms[k].role.Tool?
    ensures SkipResults(ms, start) == |ms|
    decreases |ms| - start
  {
    if start < |ms| {
      SkipsAll(ms, start + 1);
    }
  }
}
