/** One compaction round and the tracker that decides when the summariser may be
    called (pkg/agent/compaction_round.go, pkg/agent/compaction_anchor.go:126-158). */
module Compaction {
  import opened Messages
  import opened Anchor
  import Clip
  import Fold

  const DEFAULT_THRESHOLD: nat := 60000
  const DEFAULT_CLIP_AFTER_ROUNDS: int := 4
  const FAILURES_BEFORE_FALLBACK: nat := 2
  const COOLDOWN_ROUNDS: nat := 5

  datatype Config = Config(keepRecent: int, clipAfterRounds: int, threshold: nat, disabled: bool) {
    function ClipAfter(): int {
      if clipAfterRounds != 0 then clipAfterRounds else DEFAULT_CLIP_AFTER_ROUNDS
    }
  }

  /** What a run fixes: its settings, the tokenizer, the words of stubs and notices. */
  datatype Env = Env(cfg: Config, e: Estimator, w: Clip.Wording)

  /** compactionTracker, with the anchor and the overhead kept beside it on Runtime. */
  datatype Tracker = Tracker(
    failures: nat,
    cooldownUntil: int,
    summaryCalls: nat,
    backoffUntil: int,
    anchor: Anchor,
    overhead: int)

  function Size(env: Env, t: Tracker, ms: seq<Message>): int {
    Measured(env.e, t.anchor, t.overhead, ms)
  }

  /** shouldAutoCompact; `diminishing` is the loop's budget signal. */
  predicate ShouldCompact(env: Env, t: Tracker, ms: seq<Message>, diminishing: bool) {
    && !env.cfg.disabled
    && ms != []
    && !(t.backoffUntil > 0 && Size(env, t, ms) < t.backoffUntil)
    && (Size(env, t, ms) >= env.cfg.threshold || diminishing)
  }

  // ------------------------------------------------ reduce: clip, then trim

  datatype Reduction = Reduction(t: Tracker, working: seq<Message>, clipped: nat, trimmed: nat)

  function Reduce(env: Env, t: Tracker, ms: seq<Message>): (r: Reduction)
    ensures |r.working| == |ms|
  {
    var keep := env.cfg.ClipAfter();
    var head := Fold.HeadEnd(ms);
    if keep < 0 then Reduction(t, ms, 0, 0)
    else
      var mid := Clip.Clipped(ms, head, keep, env.w);
      var clipped := Clip.Hits(ms, head, Clip.RoundBoundary(ms, keep), Clip.ToStub);
      var midHead := Fold.HeadEnd(mid);
      var working := Clip.Trimmed(mid, midHead, 1, Clip.CLIP_OVERSIZE_CHARS, env.w);
      var trimmed := Clip.TrimHits(mid, midHead, 1, Clip.CLIP_OVERSIZE_CHARS);
      var t' := if clipped + trimmed > 0 then t.(anchor := Shifted(env.e, t.anchor, ms, working)) else t;
      Reduction(t', working, clipped, trimmed)
  }

  // ------------------------------------------------ ask: summary, fallback or nothing

  datatype Reply = Summary(text: string) | Failure

  datatype Verdict = UseSummary(text: string) | UseFallback | GiveUp

  predicate CoolingDown(t: Tracker, round: int) {
    t.failures >= FAILURES_BEFORE_FALLBACK && round < t.cooldownUntil
  }

  function Ask(t: Tracker, round: int, reply: Reply): (r: (Tracker, Verdict)) {
    if CoolingDown(t, round) then (t, UseFallback)
    else
      var asked := t.(summaryCalls := t.summaryCalls + 1);
      match reply
      case Summary(text) => (asked.(failures := 0), UseSummary(text))
      case Failure =>
        var failed := asked.(failures := t.failures + 1);
        if failed.failures < FAILURES_BEFORE_FALLBACK then (failed, GiveUp)
        else (failed.(cooldownUntil := round + COOLDOWN_ROUNDS), UseFallback)
  }

  // ------------------------------------------------ the round

  /** int(compactionBackoffShare * threshold). */
  function BackoffShare(env: Env): nat {
    env.cfg.threshold / 10
  }

  /** A step that frees less than a tenth of the context made no progress. */
  predicate NoProgress(before: int, after: int) {
    before > 0 && 10 * (before - after) < before
  }

  /** finishCompaction: no progress arms the backoff, progress clears it. */
  function Finish(env: Env, t: Tracker, before: int, after: seq<Message>): Tracker {
    var left := Size(env, t, after);
    t.(backoffUntil := if NoProgress(before, left) then left + BackoffShare(env) else 0)
  }

  /** Worth folding: two messages or more, and at least a tenth of the context. */
  predicate Foldable(env: Env, t: Tracker, working: seq<Message>) {
    var (h, s) := Fold.Bounds(working, env.cfg.keepRecent);
    s - h >= 2 && 10 * Estimate(env.e, working[h..s]) >= Size(env, t, working)
  }

  datatype Mode = ByClip | BySummary | ByFallback | Nothing

  datatype Outcome = Outcome(t: Tracker, out: seq<Message>, ok: bool, mode: Mode)

  function FoldAway(env: Env, t: Tracker, before: int, working: seq<Message>, text: string, mode: Mode): Outcome
  {
    var (h, s) := Fold.Bounds(working, env.cfg.keepRecent);
    var out := Fold.Folded(working, h, s, text);
    Outcome(Finish(env, t.(anchor := Dropped), before, out), out, true, mode)
  }

  /** Steps 2 and 3 of a round: summarise, fall back, or keep the history. */
  function SummariseOrFallBack(
    env: Env, red: Reduction, ms: seq<Message>, before: int, round: int, reply: Reply, fallback: string): Outcome
  {
    var (asked, verdict) := Ask(red.t, round, reply);
    match verdict
    case UseSummary(text) => FoldAway(env, asked, before, red.working, text, BySummary)
    case UseFallback => FoldAway(env, asked, before, red.working, fallback, ByFallback)
    case GiveUp =>
      if red.clipped > 0 then Outcome(Finish(env, asked, before, red.working), red.working, true, ByClip)
      else Outcome(asked, ms, false, Nothing)
  }

  /** A round once the history has been reduced. */
  function Decide(
    env: Env, red: Reduction, ms: seq<Message>, before: int, round: int, reply: Reply, fallback: string): Outcome
  {
    var reduced := red.clipped + red.trimmed > 0;
    if reduced && Size(env, red.t, red.working) < env.cfg.threshold then
      Outcome(Finish(env, red.t, before, red.working), red.working, true, ByClip)
    else if Foldable(env, red.t, red.working) then
      SummariseOrFallBack(env, red, ms, before, round, reply, fallback)
    else if reduced then
      Outcome(Finish(env, red.t, before, red.working), red.working, true, ByClip)
    else
      Outcome(red.t.(backoffUntil := before + BackoffShare(env)), ms, false, Nothing)
  }

  /** runCompactionRound. */
  function CompactionRound(env: Env, t: Tracker, ms: seq<Message>, round: int, reply: Reply,
      fallback: string): Outcome {
    Decide(env, Reduce(env, t, ms), ms, Size(env, t, ms), round, reply, fallback)
  }

  class Runtime {
    const env: Env
    var failures: nat
    var cooldownUntil: int
    var summaryCalls: nat
    var backoffUntil: int
    var anchor: Anchor
    var overhead: int

    constructor (env: Env)
      ensures this.env == env && State() == Tracker(0, 0, 0, 0, Dropped, 0)
    {
      this.env := env;
      failures, cooldownUntil, summaryCalls, backoffUntil := 0, 0, 0, 0;
      anchor, overhead := Dropped, 0;
    }

    function State(): Tracker
      reads this
    {
      Tracker(failures, cooldownUntil, summaryCalls, backoffUntil, anchor, overhead)
    }

    /** shiftAnchorForClip. */
    method ShiftAnchorForClip(before: seq<Message>, after: seq<Message>)
      modifies this`anchor
      ensures State() == old(State()).(anchor := Shifted(env.e, old(anchor), before, after))
    {
      if anchor.Dropped? || |before| != |after| || !Covers(anchor, before) {
        anchor := Dropped;
        return;
      }
      var removed := 0;
      for i := 0 to anchor.count
        invariant removed == Removed(env.e, before, after, i)
      {
        if before[i].content != after[i].content {
          removed := removed + env.e.text(before[i].content) - env.e.text(after[i].content);
        }
      }
      var prompt := anchor.prompt - removed;
      anchor := if prompt <= 0 then Dropped
                else At(prompt, anchor.count, SignatureOf(after[anchor.count - 1]));
    }

    /** noteReportedUsage: a report of nothing leaves the anchor alone. */
    method NoteReportedUsage(promptTokens: int, ms: seq<Message>)
      modifies this`anchor
      ensures State() == Reported(old(State()), promptTokens, ms)
    {
      if promptTokens > 0 {
        anchor := NewAnchor(promptTokens, ms);
      }
    }

    method ReduceHistory(ms: seq<Message>) returns (working: seq<Message>, clipped: nat, trimmed: nat)
      modifies this`anchor
      ensures Reduction(State(), working, clipped, trimmed) == Reduce(env, old(State()), ms)
      ensures clipped + trimmed == 0 ==> State() == old(State())
    {
      working, clipped, trimmed := ms, 0, 0;
      var keep := env.cfg.ClipAfter();
      if keep >= 0 {
        working, clipped := Clip.ClipOldToolResults(working, Fold.HeadEnd(working), keep, env.w);
        working, trimmed := Clip.TrimOversizedToolResults(
          working, Fold.HeadEnd(working), 1, Clip.CLIP_OVERSIZE_CHARS, env.w);
        if clipped + trimmed > 0 {
          ShiftAnchorForClip(ms, working);
        }
      }
    }

    method AskSummariser(round: int, reply: Reply) returns (verdict: Verdict)
      modifies this`summaryCalls, this`failures, this`cooldownUntil
      ensures (State(), verdict) == Ask(old(State()), round, reply)
    {
      if failures >= FAILURES_BEFORE_FALLBACK && round < cooldownUntil {
        return UseFallback;
      }
      summaryCalls := summaryCalls + 1;
      match reply
      case Summary(text) =>
        failures := 0;
        return UseSummary(text);
      case Failure =>
        failures := failures + 1;
        if failures < FAILURES_BEFORE_FALLBACK {
          return GiveUp;
        }
        cooldownUntil := round + COOLDOWN_ROUNDS;
        return UseFallback;
    }

    method FinishCompaction(before: int, after: seq<Message>)
      modifies this`backoffUntil
      ensures State() == Finish(env, old(State()), before, after)
    {
      var left := Size(env, State(), after);
      if NoProgress(before, left) {
        backoffUntil := left + BackoffShare(env);
      } else {
        backoffUntil := 0;
      }
    }

    method FoldMiddle(before: int, working: seq<Message>, text: string, ghost mode: Mode)
      returns (out: seq<Message>)
      modifies this`anchor, this`backoffUntil
      ensures Outcome(State(), out, true, mode) == FoldAway(env, old(State()), before, working, text, mode)
    {
      var headEnd, tailStart := Fold.CompactionBounds(working, env.cfg.keepRecent);
      out := working[..headEnd] + [Fold.SummaryTurn(text)] + working[tailStart..];
      anchor := Dropped;
      FinishCompaction(before, out);
    }

    method SummariseHistory(
      ms: seq<Message>, working: seq<Message>, ghost clips: (nat, nat), clipped: nat,
      before: int, round: int, reply: Reply, fallback: string)
      returns (out: seq<Message>, ok: bool, mode: Mode)
      requires clips.0 == clipped
      modifies this
      ensures Outcome(State(), out, ok, mode) ==
              SummariseOrFallBack(env, Reduction(old(State()), working, clipped, clips.1), ms, before, round, reply,
                                  fallback)
    {
      var verdict := AskSummariser(round, reply);
      match verdict
      case UseSummary(text) =>
        out := FoldMiddle(before, working, text, BySummary);
        return out, true, BySummary;
      case UseFallback =>
        out := FoldMiddle(before, working, fallback, ByFallback);
        return out, true, ByFallback;
      case GiveUp =>
        if clipped > 0 {
          FinishCompaction(before, working);
          return working, true, ByClip;
        }
        return ms, false, Nothing;
    }

    method RunCompactionRound(ms: seq<Message>, round: int, reply: Reply, fallback: string)
      returns (out: seq<Message>, ok: bool, mode: Mode)
      modifies this
      ensures Outcome(State(), out, ok, mode) == CompactionRound(env, old(State()), ms, round, reply, fallback)
    {
      hide Reduce, SummariseOrFallBack, Foldable, Finish, Measured, BackoffShare;
      var before := Size(env, State(), ms);
      var working, clipped, trimmed := ReduceHistory(ms);
      var reduced := clipped + trimmed > 0;
      if reduced && Size(env, State(), working) < env.cfg.threshold {
        FinishCompaction(before, working);
        return working, true, ByClip;
      }
      if Foldable(env, State(), working) {
        out, ok, mode := SummariseHistory(ms, working, (clipped, trimmed), clipped, before, round, reply, fallback);
        return;
      }
      if reduced {
        FinishCompaction(before, working);
        return working, true, ByClip;
      }
      backoffUntil := Size(env, State(), ms) + BackoffShare(env);
      return ms, false, Nothing;
    }
  }

  /** noteReportedUsage. */
  function Reported(t: Tracker, promptTokens: int, ms: seq<Message>): Tracker {
    if promptTokens > 0 then t.(anchor := NewAnchor(promptTokens, ms)) else t
  }
}
