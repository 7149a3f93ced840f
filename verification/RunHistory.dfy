/** The history of a whole run: text turns, tool rounds, usage reports and compaction
    rounds in any order (pkg/agent/loop_context.go:318-364, pkg/agent/runtime.go:640-662). */
module RunHistory {
  import opened Messages
  import opened Anchor
  import opened Compaction
  import opened CompactionFacts
  import Fold

  datatype ToolResult = ToolResult(callId: string, text: string)

  /** A tool result as the message the model reads. */
  function ResultMessage(r: ToolResult): Message {
    Message(Tool, r.text, "", [], [], r.callId)
  }

  function ResultMessages(results: seq<ToolResult>): (ms: seq<Message>)
    ensures |ms| == |results| && forall i :: 0 <= i < |ms| ==> ms[i] == ResultMessage(results[i])
  {
    seq(|results|, i requires 0 <= i < |results| => ResultMessage(results[i]))
  }

  function ResultIds(results: seq<ToolResult>): (ids: seq<string>)
    ensures |ids| == |results| && forall i :: 0 <= i < |ids| ==> ids[i] == results[i].callId
  {
    seq(|results|, i requires 0 <= i < |results| => results[i].callId)
  }

  /** appendToolRoundToMessages, for text results. */
  method AppendToolRound(ms: seq<Message>, call: Message, results: seq<ToolResult>) returns (out: seq<Message>)
    ensures out == ms + [call] + ResultMessages(results)
    ensures |out| == |ms| + 1 + |results| && out[..|ms|] == ms && out[|ms|] == call
    ensures forall i :: 0 <= i < |results| ==>
      var m := out[|ms| + 1 + i];
      m.role == Tool && m.content == results[i].text && m.callId == results[i].callId && m.calls == [] && m.parts == []
  {
    out := ms + [call];
    for i := 0 to |results|
      invariant out == ms + [call] + ResultMessages(results)[..i]
    {
      out := out + [ResultMessage(results[i])];
    }
  }

  datatype Event =
    | Text(m: Message)
    | ToolUse(call: Message, results: seq<ToolResult>)
    | Report(promptTokens: int, overhead: int)
    | Compact(round: int, reply: Reply, fallback: string)
  {
    /** A text turn makes and answers no call; a tool turn's results answer its own calls. */
    ghost predicate Valid() {
      match this
      case Text(m) => !m.role.Tool? && !OpensRound(m)
      case ToolUse(call, results) =>
        OpensRound(call) && forall i :: 0 <= i < |results| ==> results[i].callId in CallIds(call.calls)
      case Report(_, _) => true
      case Compact(_, _, _) => true
    }
  }

  /** `log` remembers every tool round the run has had; the code keeps only `ms`. */
  datatype Run = Run(t: Tracker, ms: seq<Message>, log: seq<ToolRound>)

  function Step(env: Env, s: Run, ev: Event): Run {
    match ev
    case Text(m) => s.(ms := s.ms + [m])
    case ToolUse(call, results) =>
      s.(ms := s.ms + [call] + ResultMessages(results),
         log := s.log + [ToolRound(call.calls, ResultIds(results))])
    case Report(promptTokens, overhead) =>
      s.(t := Reported(s.t, promptTokens, s.ms).(overhead := overhead))
    case Compact(round, reply, fallback) =>
      var o := CompactionRound(env, s.t, s.ms, round, reply, fallback);
      s.(t := o.t, ms := o.out)
  }

  function Steps(env: Env, s: Run, events: seq<Event>): Run {
    if events == [] then s else Step(env, Steps(env, s, events[..|events| - 1]), events[|events| - 1])
  }

  lemma {:induction false} AllResults(ms: seq<Message>)
    requires forall i :: 0 <= i < |ms| ==> ms[i].role.Tool?
    ensures |LeadingResults(ms)| == |ms| && Rounds(ms) == []
    ensures forall i :: 0 <= i < |ms| ==> LeadingResults(ms)[i] == ms[i].callId
  {
    if ms != [] {
      AllResults(ms[1..]);
    }
  }

  lemma RoundBlock(call: Message, results: seq<ToolResult>)
    requires Event.ToolUse(call, results).Valid()
    ensures var block := [call] + ResultMessages(results);
      WellPaired(block) && Rounds(block) == [ToolRound(call.calls, ResultIds(results))]
  {
    var answers := ResultMessages(results);
    var block := [call] + answers;
    AllResults(answers);
    assert block[1..] == answers;
    assert LeadingResults(answers) == ResultIds(results);
    forall i | 0 <= i < |block| && block[i].role.Tool? ensures Answers(block, i) {
      OwnerUnique(block, i, 0);
      assert block[i] == answers[i - 1];
    }
  }

  /** What every reachable history keeps: results stand with their calls, and its tool
      rounds are the newest rounds of the run, none with a result missing or moved. */
  ghost predicate Inv(s: Run) {
    WellPaired(s.ms) && IsSuffix(Rounds(s.ms), s.log)
  }

  lemma AppendKeeps(ms: seq<Message>, more: seq<Message>, rounds: seq<ToolRound>, log: seq<ToolRound>)
    requires WellPaired(ms) && IsSuffix(Rounds(ms), log)
    requires more != [] && !more[0].role.Tool? && WellPaired(more) && Rounds(more) == rounds
    ensures WellPaired(ms + more) && IsSuffix(Rounds(ms + more), log + rounds)
  {
    hide WellPaired, Rounds;
    PairedSplit(ms, more);
    RoundsSplit(ms, more);
  }

  lemma StepKeepsInv(env: Env, s: Run, ev: Event)
    requires Inv(s) && ev.Valid()
    ensures Inv(Step(env, s, ev))
  {
    hide CompactionRound, Rounds, WellPaired;
    match ev {
      case Text(m) =>
        TextBlock(m);
        AppendKeeps(s.ms, [m], [], s.log);
        assert s.log + [] == s.log;
      case ToolUse(call, results) =>
        RoundBlock(call, results);
        AppendKeeps(s.ms, [call] + ResultMessages(results), [ToolRound(call.calls, ResultIds(results))], s.log);
        assert s.ms + [call] + ResultMessages(results) == s.ms + ([call] + ResultMessages(results));
      case Report(_, _) =>
      case Compact(round, reply, fallback) =>
        RoundKeepsHistory(env, s.t, s.ms, round, reply, fallback);
    }
  }

  lemma TextBlock(m: Message)
    requires !m.role.Tool? && !OpensRound(m)
    ensures WellPaired([m]) && Rounds([m]) == []
  {
    assert [m][1..] == [];
  }

  /** Over any interleaving of turns, reports and compactions on any path, pairing
      holds and no round of the history has lost or gained a result. */
  lemma {:induction false} EveryReachableHistoryPairs(env: Env, s: Run, events: seq<Event>)
    requires Inv(s) && forall i :: 0 <= i < |events| ==> events[i].Valid()
    ensures Inv(Steps(env, s, events))
  {
    if events != [] {
      var n := |events| - 1;
      EveryReachableHistoryPairs(env, s, events[..n]);
      StepKeepsInv(env, Steps(env, s, events[..n]), events[n]);
    }
  }

  lemma {:induction false} RoundsCounted(ms: seq<Message>)
    ensures |Rounds(ms)| == RoundCount(ms)
  {
    if ms != [] {
      RoundsCounted(ms[1..]);
    }
  }

  /** The round a message opens is found as many rounds from the end as the history
      holds from that message on. */
  lemma {:induction false} RoundAt(ms: seq<Message>, i: nat)
    requires i < |ms| && OpensRound(ms[i])
    ensures 0 < RoundCount(ms[i..]) <= |Rounds(ms)|
    ensures Rounds(ms)[|Rounds(ms)| - RoundCount(ms[i..])] == ToolRound(ms[i].calls, LeadingResults(ms[i + 1..]))
  {
    RoundsCounted(ms);
    if i == 0 {
      assert ms[0..] == ms;
    } else {
      RoundAt(ms[1..], i - 1);
      assert ms[1..][i - 1..] == ms[i..] && ms[1..][i..] == ms[i + 1..];
    }
  }

  /** No answered call loses its result, whether or not its whole round was answered:
      every message of a reachable history that makes calls is followed by results with
      exactly the ids its round had when it came in, in that order. */
  lemma NoAnsweredCallLosesItsResult(env: Env, s: Run, events: seq<Event>, i: nat)
    requires Inv(s) && forall k :: 0 <= k < |events| ==> events[k].Valid()
    requires i < |Steps(env, s, events).ms| && OpensRound(Steps(env, s, events).ms[i])
    ensures var (ms, log) := (Steps(env, s, events).ms, Steps(env, s, events).log);
      && 0 < RoundCount(ms[i..]) <= |log|
      && log[|log| - RoundCount(ms[i..])] == ToolRound(ms[i].calls, LeadingResults(ms[i + 1..]))
  {
    hide Steps, Rounds, RoundCount, WellPaired, LeadingResults;
    EveryReachableHistoryPairs(env, s, events);
    RoundAt(Steps(env, s, events).ms, i);
  }

  lemma StepKeepsGoal(env: Env, s: Run, ev: Event)
    requires Fold.HasGoal(s.ms) && ev.Valid()
    ensures var s' := Step(env, s, ev);
      var h := Fold.HeadEnd(s.ms);
      Fold.HasGoal(s'.ms) && Fold.HeadEnd(s'.ms) == h && h <= |s'.ms| && s'.ms[..h] == s.ms[..h]
  {
    hide CompactionRound;
    var s' := Step(env, s, ev);
    if ev.Compact? {
      RoundKeepsHistory(env, s.t, s.ms, ev.round, ev.reply, ev.fallback);
    } else {
      Fold.HeadFixesHeadEnd(s.ms, s'.ms);
    }
  }

  /** The system messages and the goal stay where and what they were for the whole run. */
  lemma {:induction false} GoalIsProtected(env: Env, s: Run, events: seq<Event>)
    requires Fold.HasGoal(s.ms) && forall i :: 0 <= i < |events| ==> events[i].Valid()
    ensures var s' := Steps(env, s, events);
      var h := Fold.HeadEnd(s.ms);
      Fold.HasGoal(s'.ms) && Fold.HeadEnd(s'.ms) == h && h <= |s'.ms| && s'.ms[..h] == s.ms[..h]
  {
    if events != [] {
      var n := |events| - 1;
      GoalIsProtected(env, s, events[..n]);
      StepKeepsGoal(env, Steps(env, s, events[..n]), events[n]);
    }
  }
}
