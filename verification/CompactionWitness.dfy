/** The path on which a compaction round changes what the history measures without
    changing the history (compaction_round.go:165 and 216): it may measure less, and it
    may measure more. */
module CompactionWitness {
  import opened Messages
  import opened Anchor
  import opened Compaction
  import Clip
  import Fold
  import RunHistory
  import Text

  function Log(): (s: string)
    ensures |s| == 12001 && forall i :: 0 <= i < |s| ==> s[i] == 'x'
  {
    seq(12001, i => 'x')
  }

  function Call(id: string): Message {
    Message(Assistant, "", "", [], [ToolCall(id, "bash", "")], "")
  }

  function Result(id: string, content: string): Message {
    Message(Tool, content, "", [], [], id)
  }

  const GOAL := Message(User, "fix the build", "", [], [], "")
  const FIRST := Call("a")
  const SECOND := Call("b")
  const SHORT := Result("b", "ok")

  /** A goal, a round whose result is one oversized log, and the newest round. */
  function History(): seq<Message> {
    [GOAL, FIRST, Result("a", Log()), SECOND, SHORT]
  }

  const ENV := Env(
    Config(2, 0, 1, false),
    Estimator(s => |s|, c => 0),
    Clip.Wording((call, content) => "", (elided, total) => ""))

  const START := Tracker(0, 0, 0, 0, At(20000, 5, SignatureOf(SHORT)), 0)

  lemma Rounds2(m: Message)
    ensures RoundCount([SHORT]) == 0 && RoundCount([SECOND, SHORT]) == 1
    ensures m.role.Tool? ==> RoundCount([m, SECOND, SHORT]) == 1
  {
    assert [SHORT][1..] == [] && [SECOND, SHORT][1..] == [SHORT] && [m, SECOND, SHORT][1..] == [SECOND, SHORT];
  }

  lemma Boundaries(m: Message)
    requires m.role.Tool?
    ensures var ms := [GOAL, FIRST, m, SECOND, SHORT];
      Clip.RoundBoundary(ms, 4) == 1 && Clip.RoundBoundary(ms, 1) == 3 && Fold.HeadEnd(ms) == 1
      && Fold.Bounds(ms, 2) == (1, 3)
  {
    var ms := [GOAL, FIRST, m, SECOND, SHORT];
    Rounds2(m);
    var a, b, c := ms[1..], ms[2..], ms[3..];
    assert a == [FIRST, m, SECOND, SHORT] && a[1..] == b == [m, SECOND, SHORT] && b[1..] == c == [SECOND, SHORT];
    assert c[1..] == [SHORT];
    assert Clip.RoundBoundary(c, 1) == 0;
    assert Clip.RoundBoundary(b, 1) == 1;
    assert Clip.RoundBoundary(a, 1) == 2;
    assert Fold.LeadingSystem(ms) == 0;
  }

  lemma TrimmedLog()
    ensures |Clip.HeadTail(Log(), 2000, ENV.w)| == 4001
  {
    var s := Log();
    assert Text.RuneCut(s, 2000) == 2000 && Text.RuneSkip(s, 10001) == 10001;
  }

  lemma WorkingHistory()
    ensures var ms := History();
      var cut := Result("a", Clip.HeadTail(Log(), 2000, ENV.w));
      && Clip.Clipped(ms, 1, 4, ENV.w) == ms
      && Clip.Hits(ms, 1, 1, Clip.ToStub) == 0
      && Clip.Trimmed(ms, 1, 1, 12000, ENV.w) == [GOAL, FIRST, cut, SECOND, SHORT]
      && Clip.TrimHits(ms, 1, 1, 12000) == 1
  {
    var ms := History();
    hide Clip.HeadTail, Text.Truncated;
    Boundaries(ms[2]);
    hide Clip.RoundBoundary;
    assert Clip.Clipped(ms, 1, 4, ENV.w) == ms;
    assert Log()[0] == 'x';
    assert Clip.Trimmable(ms[2], 12000) && !Clip.Trimmable(ms[1], 12000);
    assert Clip.Hits(ms, 1, 2, Clip.ToTrim(12000)) == 0;
    assert Clip.Hits(ms, 1, 3, Clip.ToTrim(12000)) == 1;
    TrimmedAll(ms);
  }

  lemma TrimmedAll(ms: seq<Message>)
    requires ms == History() && Clip.RoundBoundary(ms, 1) == 3
    requires Clip.Trimmable(ms[2], 12000) && !Clip.Trimmable(ms[1], 12000)
    ensures Clip.Trimmed(ms, 1, 1, 12000, ENV.w)
            == [GOAL, FIRST, Result("a", Clip.HeadTail(Log(), 2000, ENV.w)), SECOND, SHORT]
  {
    hide Clip.HeadTail, Clip.RoundBoundary, Clip.Trimmable;
    var out := Clip.Trimmed(ms, 1, 1, 12000, ENV.w);
    assert out[0] == GOAL && out[1] == FIRST && out[3] == SECOND && out[4] == SHORT;
    assert out[2] == Result("a", Clip.HeadTail(Log(), 2000, ENV.w));
  }

  function Cut(): Message {
    Result("a", Clip.HeadTail(Log(), 2000, ENV.w))
  }

  function Working(): seq<Message> {
    [GOAL, FIRST, Cut(), SECOND, SHORT]
  }

  /** What a round makes of the history before it asks the summariser. */
  lemma ReducedWitness(t: Tracker)
    ensures Reduce(ENV, t, History()) ==
      Reduction(t.(anchor := Shifted(ENV.e, t.anchor, History(), Working())), Working(), 0, 1)
  {
    WorkingHistory();
    Boundaries(History()[2]);
    hide Clip.HeadTail, Clip.RoundBoundary, Clip.Clipped, Clip.Trimmed, Clip.Hits, Clip.TrimHits, Fold.HeadEnd, Shifted;
  }

  lemma RemovedWitness(n: nat)
    requires 3 <= n <= 5
    ensures |Cut().content| == 4001
    ensures Removed(ENV.e, History(), Working(), n) == 8000
  {
    TrimmedLog();
    hide Clip.HeadTail;
    var ms, working := History(), Working();
    assert Removed(ENV.e, ms, working, 0) == 0;
    assert Removed(ENV.e, ms, working, 1) == 0;
    assert Removed(ENV.e, ms, working, 2) == 0;
    assert ms[2].content != working[2].content;
    assert Removed(ENV.e, ms, working, 3) == 8000;
    assert Removed(ENV.e, ms, working, 4) == 8000;
  }

  /** The middle of the working history is its first round, and it is worth folding. */
  lemma WitnessFoldable(t: Tracker)
    requires 0 < Size(ENV, t, Working()) <= 40000
    ensures Foldable(ENV, t, Working())
  {
    RemovedWitness(5);
    hide Clip.HeadTail, Clip.RoundBoundary;
    Boundaries(Cut());
    hide Fold.Bounds, Cut;
    var middle := Working()[1..3];
    assert middle == [FIRST, Cut()] && middle[..1] == [FIRST] && [FIRST][..0] == [];
    assert Estimate(ENV.e, [FIRST]) == MessageTokens(ENV.e, FIRST);
    assert MessageTokens(ENV.e, Cut()) >= 4001;
  }

  lemma FirstFailureGivesUp(env: Env, red: Reduction, ms: seq<Message>, before: int, round: int, fallback: string)
    requires Foldable(env, red.t, red.working) && Size(env, red.t, red.working) >= env.cfg.threshold
    requires red.t.failures == 0 && red.clipped == 0
    ensures Decide(env, red, ms, before, round, Failure, fallback)
            == Outcome(red.t.(summaryCalls := red.t.summaryCalls + 1, failures := 1), ms, false, Nothing)
  {
    hide Foldable, Size, Finish, FoldAway;
  }

  /** The summariser's first failure, with something trimmed and nothing clipped:
      the round reports no change and returns the history untouched, yet the same
      history now measures 8000 tokens less. */
  lemma TrimOnlyFailureUnderreports()
    ensures var o := CompactionRound(ENV, START, History(), 1, Failure, "");
      && !o.ok && o.out == History()
      && Size(ENV, START, History()) == 20000
      && Size(ENV, o.t, History()) == 12000
  {
    hide Reduce, Foldable, Decide, Measured, History, Working;
    ReducedWitness(START);
    ShiftedWhole();
    var t := START.(anchor := At(12000, 5, SignatureOf(SHORT)));
    WholeHistoryAnchored(20000);
    WholeHistoryAnchored(12000);
    WitnessFoldable(t);
    FirstFailureGivesUp(ENV, Reduction(t, Working(), 0, 1), History(), Size(ENV, START, History()), 1, "");
  }

  lemma ShiftedWhole()
    ensures Shifted(ENV.e, START.anchor, History(), Working()) == At(12000, 5, SignatureOf(SHORT))
  {
    hide Removed, Cut, Log;
    RemovedWitness(5);
  }

  lemma WholeHistoryAnchored(prompt: int)
    ensures Measured(ENV.e, At(prompt, 5, SignatureOf(SHORT)), 0, History()) == prompt
    ensures Measured(ENV.e, At(prompt, 5, SignatureOf(SHORT)), 0, Working()) == prompt
  {
    hide Cut, Log;
    assert History()[5..] == [] && Working()[5..] == [];
  }

  // ------------------------------------------------ the anchor lost

  /** The usual order of things: the provider reports while the oversized result is the
      last message it saw, then the next round is appended, then compaction is tried. */
  const TURNS := [
    RunHistory.ToolUse(FIRST, [RunHistory.ToolResult("a", Log())]),
    RunHistory.Report(13000, 3000),
    RunHistory.ToolUse(SECOND, [RunHistory.ToolResult("b", "ok")])]

  function Begin(): RunHistory.Run {
    RunHistory.Run(Tracker(0, 0, 0, 0, Dropped, 0), [GOAL], [])
  }

  const ANCHORED := Tracker(0, 0, 0, 0, At(13000, 3, SignatureOf(Result("a", Log()))), 3000)

  lemma Turns()
    ensures var s := RunHistory.Steps(ENV, Begin(), TURNS);
      s.t == ANCHORED && s.ms == History()
    ensures forall i :: 0 <= i < |TURNS| ==> TURNS[i].Valid()
  {
    hide CompactionRound, Log;
    var s1 := RunHistory.Step(ENV, Begin(), TURNS[0]);
    assert TURNS[..3] == TURNS && TURNS[..3][..2] == TURNS[..2];
    assert TURNS[..2][..1] == TURNS[..1] && TURNS[..1][..0] == [];
    assert RunHistory.Steps(ENV, Begin(), []) == Begin();
    assert RunHistory.Steps(ENV, Begin(), TURNS[..1]) == s1;
    assert s1.ms == [GOAL, FIRST, Result("a", Log())];
    var s2 := RunHistory.Step(ENV, s1, TURNS[1]);
    assert RunHistory.Steps(ENV, Begin(), TURNS[..2]) == s2 && s2.t == ANCHORED;
    var s3 := RunHistory.Step(ENV, s2, TURNS[2]);
    assert RunHistory.Steps(ENV, Begin(), TURNS) == s3;
    assert s3.ms == History();
    assert CallIds(FIRST.calls)[0] == "a" && CallIds(SECOND.calls)[0] == "b";
  }

  /** The round that follows returns the history untouched, but trims the anchored message
      in between: the anchor is lost and the same history measures 2041 tokens more. */
  lemma TrimOnlyFailureLosesTheAnchor()
    ensures var s := RunHistory.Steps(ENV, Begin(), TURNS);
      var o := CompactionRound(ENV, s.t, s.ms, 1, Failure, "");
      && !o.ok && o.out == s.ms
      && Size(ENV, s.t, s.ms) == 13024
      && Size(ENV, o.t, s.ms) == 15065
  {
    hide Reduce, Foldable, Decide, Measured, History, Working, RunHistory.Steps, Shifted;
    Turns();
    ReducedWitness(ANCHORED);
    AnchorLost();
    var t := ANCHORED.(anchor := At(5000, 3, SignatureOf(Cut())));
    WitnessFoldable(t);
    FirstFailureGivesUp(ENV, Reduction(t, Working(), 0, 1), History(), Size(ENV, ANCHORED, History()), 1, "");
  }

  lemma AnchorLost()
    ensures Shifted(ENV.e, ANCHORED.anchor, History(), Working()) == At(5000, 3, SignatureOf(Cut()))
    ensures Measured(ENV.e, ANCHORED.anchor, 3000, History()) == 13024
    ensures Measured(ENV.e, At(5000, 3, SignatureOf(Cut())), 3000, Working()) == 5024
    ensures Measured(ENV.e, At(5000, 3, SignatureOf(Cut())), 3000, History()) == 15065
  {
    hide Removed, Cut, Estimate;
    RemovedWitness(3);
    HistoryTokens();
    assert History()[3..] == [SECOND, SHORT] && Working()[3..] == [SECOND, SHORT];
  }

  lemma HistoryTokens()
    ensures Estimate(ENV.e, [SECOND, SHORT]) == 24
    ensures Estimate(ENV.e, History()) == 12065
  {
    var front, back := [GOAL, FIRST, Result("a", Log())], [SECOND, SHORT];
    assert back[..1] == [SECOND] && [SECOND][..0] == [];
    assert Estimate(ENV.e, [SECOND]) == MessageTokens(ENV.e, SECOND) == 13;
    assert front[..2] == [GOAL, FIRST] && front[..2][..1] == [GOAL] && front[..1][..0] == [];
    assert [GOAL][..0] == [] && [GOAL, FIRST][..1] == [GOAL];
    assert Estimate(ENV.e, [GOAL]) == MessageTokens(ENV.e, GOAL) == 18;
    assert Estimate(ENV.e, [GOAL, FIRST]) == 31;
    assert Estimate(ENV.e, front) == 31 + MessageTokens(ENV.e, Result("a", Log()));
    EstimateSplit(ENV.e, front, back);
    assert front + back == History();
  }
}
