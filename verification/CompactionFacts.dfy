/** What compaction rounds keep, promise and bound. */
module CompactionFacts {
  import opened Messages
  import opened Anchor
  import opened Compaction
  import Clip
  import Fold

  // ------------------------------------------------ one round and the history

  /** Clipping and trimming do not move the head, so a round reduces as one
      Clip.Reduced at the head of the history it was given. */
  lemma ReduceIsReduced(env: Env, t: Tracker, ms: seq<Message>)
    ensures Reduce(env, t, ms).working == Clip.Reduced(ms, Fold.HeadEnd(ms), env.cfg.ClipAfter(), env.w)
  {
    var h := Fold.HeadEnd(ms);
    var keep := env.cfg.ClipAfter();
    if keep >= 0 {
      var mid := Clip.Clipped(ms, h, keep, env.w);
      ShapeKeepsHeadEnd(ms, mid);
    }
  }

  /** Reducing is clipping and then trimming what is longer than 12000 outside the newest
      round, behind the same head; the anchor moves when either changed something. */
  lemma ReduceSteps(env: Env, t: Tracker, ms: seq<Message>)
    ensures var red := Reduce(env, t, ms);
      var h := Fold.HeadEnd(ms);
      var keep := env.cfg.ClipAfter();
      var mid := if keep < 0 then ms else Clip.Clipped(ms, h, keep, env.w);
      && red.working == (if keep < 0 then ms else Clip.Trimmed(mid, h, 1, 12000, env.w))
      && (red.clipped == 0 <==> mid == ms)
      && red.t.anchor == (if red.clipped + red.trimmed > 0 then Shifted(env.e, t.anchor, ms, red.working) else t.anchor)
    ensures env.w.Brief() ==>
      var red := Reduce(env, t, ms);
      var keep := env.cfg.ClipAfter();
      var mid := if keep < 0 then ms else Clip.Clipped(ms, Fold.HeadEnd(ms), keep, env.w);
      red.trimmed == 0 <==> red.working == mid
  {
    var h := Fold.HeadEnd(ms);
    var keep := env.cfg.ClipAfter();
    if keep >= 0 {
      var mid := Clip.Clipped(ms, h, keep, env.w);
      ShapeKeepsHeadEnd(ms, mid);
      Clip.NoHits(ms, h, Clip.RoundBoundary(ms, keep), Clip.ToStub);
      Clip.ClipMarks(ms, h, keep, env.w);
      hide Clip.Clipped, Clip.Trimmed, Clip.RoundBoundary, Clip.TrimHits;
      if env.w.Brief() {
        Clip.ReducedChanges(ms, h, keep, env.w);
      }
    }
  }

  lemma {:induction false} ShapeKeepsHeadEnd(a: seq<Message>, b: seq<Message>)
    requires SameShape(a, b)
    ensures Fold.LeadingSystem(a) == Fold.LeadingSystem(b)
    ensures Fold.HeadEnd(a) == Fold.HeadEnd(b) && (Fold.HasGoal(a) <==> Fold.HasGoal(b))
  {
    if a != [] && a[0].role.System? {
      ShapeKeepsHeadEnd(a[1..], b[1..]);
    }
  }

  lemma ReduceKeeps(env: Env, t: Tracker, ms: seq<Message>)
    ensures var red := Reduce(env, t, ms);
      && SameShape(ms, red.working)
      && red.working[..Fold.HeadEnd(ms)] == ms[..Fold.HeadEnd(ms)]
      && Fold.HeadEnd(red.working) == Fold.HeadEnd(ms)
      && (Fold.HasGoal(ms) <==> Fold.HasGoal(red.working))
  {
    var red := Reduce(env, t, ms);
    ReduceIsReduced(env, t, ms);
    Clip.ReducedTouchesOnlyOldResults(ms, Fold.HeadEnd(ms), env.cfg.ClipAfter(), env.w);
    ShapeKeepsHeadEnd(ms, red.working);
  }

  /** Asking touches the three summariser counters and no other part of the tracker. */
  lemma AskOnlyCounts(t: Tracker, round: int, reply: Reply)
    ensures var (asked, verdict) := Ask(t, round, reply);
      && asked.anchor == t.anchor && asked.overhead == t.overhead && asked.backoffUntil == t.backoffUntil
      && (verdict.UseSummary? ==> reply.Summary? && verdict.text == reply.text)
      && (verdict.GiveUp? <==> t.failures == 0 && reply.Failure? && !CoolingDown(t, round))
      && (verdict.UseSummary? ||
          (&& asked.summaryCalls == t.summaryCalls && asked.failures == t.failures
           && asked.cooldownUntil == t.cooldownUntil) ||
          (&& asked.summaryCalls == t.summaryCalls + 1 && asked.failures == t.failures + 1
           && (t.failures < 2 || round >= t.cooldownUntil)
           && (asked.failures >= 2 ==> asked.cooldownUntil == round + 5)))
  {
  }

  /** A decision by its mode: what it returns, and what it does to the tracker. */
  lemma DecideShapes(env: Env, red: Reduction, ms: seq<Message>, before: int, round: int, reply: Reply,
      fallback: string)
    ensures var o := Decide(env, red, ms, before, round, reply, fallback);
      var (h, s) := Fold.Bounds(red.working, env.cfg.keepRecent);
      match o.mode
      case Nothing => !o.ok && o.out == ms && red.clipped == 0
        && o.t.anchor == red.t.anchor && o.t.overhead == red.t.overhead
      case ByClip => o.ok && o.out == red.working && red.clipped + red.trimmed > 0
        && o.t.anchor == red.t.anchor && o.t.overhead == red.t.overhead
      case BySummary => o.ok && s - h >= 2 && reply.Summary? && o.out == Fold.Folded(red.working, h, s, reply.text)
      case ByFallback => o.ok && s - h >= 2 && o.out == Fold.Folded(red.working, h, s, fallback)
  {
    AskOnlyCounts(red.t, round, reply);
  }

  lemma DecideCounters(env: Env, red: Reduction, ms: seq<Message>, before: int, round: int, reply: Reply,
      fallback: string)
    ensures var o := Decide(env, red, ms, before, round, reply, fallback);
      var asked := Ask(red.t, round, reply).0;
      || (&& o.t.summaryCalls == red.t.summaryCalls && o.t.failures == red.t.failures
          && o.t.cooldownUntil == red.t.cooldownUntil && !o.mode.BySummary?)
      || (&& o.t.summaryCalls == asked.summaryCalls && o.t.failures == asked.failures
          && o.t.cooldownUntil == asked.cooldownUntil
          && (o.mode.BySummary? <==> Ask(red.t, round, reply).1.UseSummary?))
  {
    hide Fold.Bounds, Foldable, NoProgress, BackoffShare, Measured, Ask;
  }

  lemma DecideBackoff(env: Env, red: Reduction, ms: seq<Message>, before: int, round: int, reply: Reply,
      fallback: string)
    ensures var o := Decide(env, red, ms, before, round, reply, fallback);
      var left := Size(env, o.t, o.out);
      o.ok ==> o.t.backoffUntil == if NoProgress(before, left) then left + BackoffShare(env) else 0
  {
    hide Fold.Bounds, Foldable, NoProgress, BackoffShare, Measured;
    AskOnlyCounts(red.t, round, reply);
  }

  /** The three things a round can return. */
  lemma RoundShapes(env: Env, t: Tracker, ms: seq<Message>, round: int, reply: Reply, fallback: string)
    ensures var o := CompactionRound(env, t, ms, round, reply, fallback);
      var red := Reduce(env, t, ms);
      var (h, s) := Fold.Bounds(red.working, env.cfg.keepRecent);
      match o.mode
      case Nothing => !o.ok && o.out == ms
      case ByClip => o.ok && o.out == red.working && red.clipped + red.trimmed > 0
      case BySummary => o.ok && s - h >= 2 && reply.Summary? && o.out == Fold.Folded(red.working, h, s, reply.text)
      case ByFallback => o.ok && s - h >= 2 && o.out == Fold.Folded(red.working, h, s, fallback)
  {
    DecideShapes(env, Reduce(env, t, ms), ms, Size(env, t, ms), round, reply, fallback);
  }

  ghost predicate IsSuffix(a: seq<ToolRound>, b: seq<ToolRound>) {
    |a| <= |b| && a == b[|b| - |a|..]
  }

  /** Whatever path a round takes, it keeps call/result pairing, keeps the goal
      where and what it was, and the tool rounds it leaves are the newest ones, each
      with the very calls and result ids it had. */
  lemma RoundKeepsHistory(env: Env, t: Tracker, ms: seq<Message>, round: int, reply: Reply, fallback: string)
    ensures var o := CompactionRound(env, t, ms, round, reply, fallback);
      && (WellPaired(ms) ==> WellPaired(o.out) && IsSuffix(Rounds(o.out), Rounds(ms)))
      && (Fold.HasGoal(ms) ==>
            && Fold.HasGoal(o.out)
            && Fold.HeadEnd(o.out) == Fold.HeadEnd(ms) <= |o.out|
            && o.out[..Fold.HeadEnd(ms)] == ms[..Fold.HeadEnd(ms)])
  {
    var o := CompactionRound(env, t, ms, round, reply, fallback);
    var red := Reduce(env, t, ms);
    RoundShapes(env, t, ms, round, reply, fallback);
    ReduceKeeps(env, t, ms);
    ShapeKeepsRounds(ms, red.working);
    if WellPaired(ms) {
      ShapeKeepsPairing(ms, red.working);
    }
    if o.mode.BySummary? || o.mode.ByFallback? {
      var text := if o.mode.BySummary? then reply.text else fallback;
      FoldedKeepsHistory(ms, red.working, env.cfg.keepRecent, text);
    }
  }

  lemma FoldedKeepsHistory(ms: seq<Message>, working: seq<Message>, keepRecent: int, text: string)
    requires Fold.Bounds(working, keepRecent).0 < Fold.Bounds(working, keepRecent).1
    requires Fold.HeadEnd(working) == Fold.HeadEnd(ms) && |ms| == |working|
    requires working[..Fold.HeadEnd(ms)] == ms[..Fold.HeadEnd(ms)]
    requires Fold.HasGoal(ms) <==> Fold.HasGoal(working)
    requires Rounds(ms) == Rounds(working) && (WellPaired(ms) ==> WellPaired(working))
    ensures var (h, s) := Fold.Bounds(working, keepRecent);
      var out := Fold.Folded(working, h, s, text);
      && (WellPaired(ms) ==> WellPaired(out) && IsSuffix(Rounds(out), Rounds(ms)))
      && (Fold.HasGoal(ms) ==>
            && Fold.HasGoal(out)
            && Fold.HeadEnd(out) == Fold.HeadEnd(ms) <= |out|
            && out[..Fold.HeadEnd(ms)] == ms[..Fold.HeadEnd(ms)])
  {
    Fold.FoldKeepsHead(working, keepRecent, text);
    if WellPaired(working) {
      Fold.FoldKeepsPairing(working, keepRecent, text);
    }
  }

  /** Folding always shortens; clipping never changes the length; only a failed
      first attempt, or having nothing to do, leaves the history alone. */
  lemma RoundLength(env: Env, t: Tracker, ms: seq<Message>, round: int, reply: Reply, fallback: string)
    ensures var o := CompactionRound(env, t, ms, round, reply, fallback);
      && (o.mode.BySummary? || o.mode.ByFallback? <==> |o.out| < |ms|)
      && |o.out| <= |ms|
  {
    RoundShapes(env, t, ms, round, reply, fallback);
  }

  /** A run can shrink its context whether or not a model helps: after one failure
      every round with a middle worth folding returns a shorter history, or a
      clipped one already under the threshold. */
  lemma StillShrinks(env: Env, t: Tracker, ms: seq<Message>, round: int, reply: Reply, fallback: string)
    requires Foldable(env, Reduce(env, t, ms).t, Reduce(env, t, ms).working)
    ensures var o := CompactionRound(env, t, ms, round, reply, fallback);
      var red := Reduce(env, t, ms);
      || |o.out| < |ms|
      || (o.mode.ByClip? && Size(env, o.t, o.out) < env.cfg.threshold)
      || (t.failures == 0 && reply.Failure? && (o.ok <==> red.clipped > 0) && |o.out| == |ms|)
    ensures t.failures >= 1 ==>
      var o := CompactionRound(env, t, ms, round, reply, fallback);
      o.ok && (|o.out| < |ms| || (o.mode.ByClip? && Size(env, o.t, o.out) < env.cfg.threshold))
  {
    hide Reduce, Clip.Reduced;
    ReduceMovesOnlyAnchor(env, t, ms);
    DecideShrinks(env, Reduce(env, t, ms), ms, Size(env, t, ms), round, reply, fallback);
  }

  lemma DecideShrinks(
    env: Env, red: Reduction, ms: seq<Message>, before: int, round: int, reply: Reply, fallback: string)
    requires Foldable(env, red.t, red.working) && |red.working| == |ms|
    ensures var o := Decide(env, red, ms, before, round, reply, fallback);
      || (o.ok && |o.out| < |ms|)
      || (o.ok && o.mode.ByClip? && Size(env, o.t, o.out) < env.cfg.threshold)
      || (red.t.failures == 0 && reply.Failure? && (o.ok <==> red.clipped > 0) && |o.out| == |ms|)
  {
    hide Measured, NoProgress, BackoffShare, Estimate;
  }

  /** What a fold leaves, and when: the reduced history's head as it stands, one user
      message that says exactly what the summariser (the mechanical fallback) said, and
      the reduced history's tail from where the newest messages start. */
  lemma FoldSays(env: Env, t: Tracker, ms: seq<Message>, round: int, reply: Reply, fallback: string)
    ensures var o := CompactionRound(env, t, ms, round, reply, fallback);
      var keepRounds := if env.cfg.clipAfterRounds == 0 then 4 else env.cfg.clipAfterRounds;
      var working := Clip.Reduced(ms, Fold.HeadEnd(ms), keepRounds, env.w);
      var (h, s) := Fold.Bounds(working, env.cfg.keepRecent);
      o.mode.BySummary? || o.mode.ByFallback? ==>
        && s - h >= 2 && |o.out| == h + 1 + (|working| - s)
        && o.out[..h] == working[..h] && o.out[h + 1..] == working[s..]
        && o.out[h].role == User && o.out[h].calls == [] && o.out[h].parts == []
        && o.out[h].callId == "" && o.out[h].reasoning == ""
        && (o.mode.BySummary? ==> reply.Summary? && o.out[h].content == reply.text)
        && (o.mode.ByFallback? ==> o.out[h].content == fallback)
  {
    hide Reduce, Clip.Reduced, CompactionRound, Fold.Bounds, Fold.HeadEnd;
    ReduceIsReduced(env, t, ms);
    RoundShapes(env, t, ms, round, reply, fallback);
    var working := Clip.Reduced(ms, Fold.HeadEnd(ms), env.cfg.ClipAfter(), env.w);
    var (h, s) := Fold.Bounds(working, env.cfg.keepRecent);
    FoldParts(working, h, s, if reply.Summary? then reply.text else "");
    FoldParts(working, h, s, fallback);
  }

  lemma FoldParts(working: seq<Message>, h: nat, s: nat, text: string)
    requires h <= s <= |working|
    ensures var out := Fold.Folded(working, h, s, text);
      && out[..h] == working[..h] && out[h + 1..] == working[s..]
      && out[h].role == User && out[h].content == text && out[h].calls == [] && out[h].parts == []
      && out[h].callId == "" && out[h].reasoning == ""
  {
  }

  /** Which way a round goes, on what it finds after clipping and trimming. */
  lemma RoundModes(env: Env, t: Tracker, ms: seq<Message>, round: int, reply: Reply, fallback: string)
    ensures var o := CompactionRound(env, t, ms, round, reply, fallback);
      var red := Reduce(env, t, ms);
      var size := Size(env, red.t, red.working);
      var (h, s) := Fold.Bounds(red.working, env.cfg.keepRecent);
      var small := red.clipped + red.trimmed > 0 && size < env.cfg.threshold;
      var fold := s - h >= 2 && 10 * Estimate(env.e, red.working[h..s]) >= size;
      var cooling := t.failures >= 2 && round < t.cooldownUntil;
      var stays := if fold then !cooling && reply.Failure? && t.failures == 0 else red.trimmed == 0;
      && (o.mode.BySummary? <==> !small && fold && !cooling && reply.Summary?)
      && (o.mode.ByFallback? <==> !small && fold && (cooling || (reply.Failure? && t.failures >= 1)))
      && (o.mode.Nothing? <==> !small && red.clipped == 0 && stays)
      && (o.ok <==> !o.mode.Nothing?)
  {
    hide Reduce, Estimate, Fold.Bounds, Finish, Measured;
    ReduceMovesOnlyAnchor(env, t, ms);
  }

  /** And what it does to the counters. A written summary forgives every failure; a failed
      one is counted, and from the second on the summariser rests for five rounds. */
  lemma RoundCounts(env: Env, t: Tracker, ms: seq<Message>, round: int, reply: Reply, fallback: string)
    ensures var o := CompactionRound(env, t, ms, round, reply, fallback);
      && (o.mode.BySummary? ==>
           o.t.failures == 0 && o.t.summaryCalls == t.summaryCalls + 1 && o.t.cooldownUntil == t.cooldownUntil)
      && (o.mode.ByFallback? && t.failures >= 2 && round < t.cooldownUntil ==>
           o.t.failures == t.failures && o.t.summaryCalls == t.summaryCalls && o.t.cooldownUntil == t.cooldownUntil)
      && (o.mode.ByFallback? && !(t.failures >= 2 && round < t.cooldownUntil) ==>
           o.t.failures == t.failures + 1 && o.t.summaryCalls == t.summaryCalls + 1 && o.t.cooldownUntil == round + 5)
      && (o.mode.BySummary? || o.mode.ByFallback? ==> o.t.anchor == Dropped)
      && o.t.overhead == t.overhead
  {
    hide Reduce, Foldable, Fold.Bounds, Measured, BackoffShare, NoProgress;
    ReduceMovesOnlyAnchor(env, t, ms);
  }

  /** A compaction made progress when it freed a tenth or more of what was measured; only
      then is the next one free to start at once. */
  lemma ProgressClears(env: Env, t: Tracker, ms: seq<Message>, round: int, reply: Reply, fallback: string)
    ensures var o := CompactionRound(env, t, ms, round, reply, fallback);
      var before := Size(env, t, ms);
      var left := Size(env, o.t, o.out);
      && (o.ok && before > 0 && 10 * (before - left) < before ==> o.t.backoffUntil == left + env.cfg.threshold / 10)
      && (o.ok && !(before > 0 && 10 * (before - left) < before) ==> o.t.backoffUntil == 0)
  {
    hide Decide, Reduce, Measured;
    DecideBackoff(env, Reduce(env, t, ms), ms, Size(env, t, ms), round, reply, fallback);
  }

  /** When a round is due at all. */
  lemma DueIff(env: Env, t: Tracker, ms: seq<Message>, diminishing: bool)
    ensures var tokens := Size(env, t, ms);
      ShouldCompact(env, t, ms, diminishing) <==>
        && !env.cfg.disabled && ms != []
        && (t.backoffUntil <= 0 || tokens >= t.backoffUntil)
        && (tokens >= env.cfg.threshold || diminishing)
  {
  }

  // ------------------------------------------------ measured size

  /** A round that ends by clipping measures the clipped history at what the old one
      measured less what the estimator says was removed, unless the anchor was lost. */
  lemma ClipMeasuresExactly(env: Env, t: Tracker, ms: seq<Message>, round: int, reply: Reply, fallback: string)
    requires CompactionRound(env, t, ms, round, reply, fallback).mode.ByClip?
    ensures var o := CompactionRound(env, t, ms, round, reply, fallback);
      && o.t.anchor == Shifted(env.e, t.anchor, ms, o.out)
      && (o.t.anchor.At? || !Covers(t.anchor, ms) ==>
            Size(env, o.t, o.out) == Size(env, t, ms) - (Estimate(env.e, ms) - Estimate(env.e, o.out)))
  {
    hide Decide;
    var red := Reduce(env, t, ms);
    DecideShapes(env, red, ms, Size(env, t, ms), round, reply, fallback);
    ReduceKeeps(env, t, ms);
    hide Fold.Bounds, Clip.Clipped, Clip.Trimmed, Clip.Hits, Clip.TrimHits, Estimate, Removed;
    ShiftIsExact(env.e, t.anchor, t.overhead, ms, red.working);
  }

  /** A round returns the history it was given exactly when nothing was clipped and
      either nothing was trimmed and there is no middle worth folding, or there is one,
      trimming did not get under the threshold, and the summariser failed for the first
      time. */
  lemma ReturnsUnchangedIff(env: Env, t: Tracker, ms: seq<Message>, round: int, reply: Reply, fallback: string)
    ensures var o := CompactionRound(env, t, ms, round, reply, fallback);
      var red := Reduce(env, t, ms);
      !o.ok <==> red.clipped == 0 && KeepsHistory(env, t, red, reply)
  {
    hide Reduce, Decide;
    ReduceMovesOnlyAnchor(env, t, ms);
    DecidesUnchanged(env, Reduce(env, t, ms), ms, Size(env, t, ms), round, reply, fallback);
  }

  predicate KeepsHistory(env: Env, t: Tracker, red: Reduction, reply: Reply) {
    if Foldable(env, red.t, red.working) then
      && t.failures == 0 && reply.Failure?
      && (red.trimmed == 0 || Size(env, red.t, red.working) >= env.cfg.threshold)
    else red.trimmed == 0
  }

  lemma ReduceMovesOnlyAnchor(env: Env, t: Tracker, ms: seq<Message>)
    ensures var red := Reduce(env, t, ms);
      && red.t == t.(anchor := red.t.anchor)
      && (red.clipped + red.trimmed == 0 ==> red.t == t)
  {
  }

  lemma DecidesUnchanged(
    env: Env, red: Reduction, ms: seq<Message>, before: int, round: int, reply: Reply, fallback: string)
    ensures var o := Decide(env, red, ms, before, round, reply, fallback);
      && (!o.ok <==> red.clipped == 0 && KeepsHistory(env, red.t, red, reply))
      && (!o.ok && o.t.summaryCalls == red.t.summaryCalls ==>
           && red.clipped + red.trimmed == 0 && o.out == ms
           && o.t == red.t.(backoffUntil := before + BackoffShare(env)))
  {
    hide Foldable, Fold.Bounds, Finish, Measured, BackoffShare;
  }

  /** What such a round leaves in the tracker. */
  lemma UnchangedTracker(env: Env, t: Tracker, ms: seq<Message>, round: int, reply: Reply, fallback: string)
    requires !CompactionRound(env, t, ms, round, reply, fallback).ok
    ensures var o := CompactionRound(env, t, ms, round, reply, fallback);
      var red := Reduce(env, t, ms);
      && red.clipped == 0 && o.out == ms && o.t.overhead == t.overhead && SameShape(ms, red.working)
      && o.t.anchor == if red.trimmed == 0 then t.anchor else Shifted(env.e, t.anchor, ms, red.working)
  {
    hide Decide;
    DecideShapes(env, Reduce(env, t, ms), ms, Size(env, t, ms), round, reply, fallback);
    ReduceKeeps(env, t, ms);
  }

  /** The anchor survives the shift and still covers the history it was shifted away
      from: its count stays above zero and its last message kept its length. */
  predicate StillAnchored(e: Estimator, a: Anchor, ms: seq<Message>, working: seq<Message>)
    requires Covers(a, ms) && |working| == |ms|
  {
    a.prompt > Removed(e, ms, working, a.count) && |working[a.count - 1].content| == |ms[a.count - 1].content|
  }

  lemma ShiftedAway(e: Estimator, a: Anchor, overhead: int, ms: seq<Message>, working: seq<Message>)
    requires SameShape(ms, working)
    ensures var a' := Shifted(e, a, ms, working);
      Measured(e, a', overhead, ms) ==
        if !Covers(a, ms) then Measured(e, a, overhead, ms)
        else if StillAnchored(e, a, ms, working) then Measured(e, a, overhead, ms) - Removed(e, ms, working, a.count)
        else Estimate(e, ms) + overhead
    ensures Shifted(e, a, ms, working) == a <==>
      a.Dropped? || (Covers(a, ms) && StillAnchored(e, a, ms, working) && Removed(e, ms, working, a.count) == 0)
  {
    hide Removed, Estimate;
  }

  /** A round that changes nothing should leave the measured size alone. When it trimmed,
      the anchor has already been moved to a history that is then thrown away. What that
      does to the size depends on the anchor: one that covered nothing changes nothing;
      one that still covers the history measures it too small by what the trim would have
      removed before its count; one that is lost leaves the estimate plus the overhead,
      which may be more or less. */
  lemma UnchangedHistorySize(env: Env, t: Tracker, ms: seq<Message>, round: int, reply: Reply, fallback: string)
    requires !CompactionRound(env, t, ms, round, reply, fallback).ok
    ensures var o := CompactionRound(env, t, ms, round, reply, fallback);
      var red := Reduce(env, t, ms);
      && |red.working| == |ms|
      && Size(env, o.t, ms) ==
          if red.trimmed == 0 || !Covers(t.anchor, ms) then Size(env, t, ms)
          else if StillAnchored(env.e, t.anchor, ms, red.working)
          then Size(env, t, ms) - Removed(env.e, ms, red.working, t.anchor.count)
          else Estimate(env.e, ms) + t.overhead
  {
    hide CompactionRound, Reduce, Removed, Estimate, StillAnchored, Shifted;
    var red := Reduce(env, t, ms);
    UnchangedTracker(env, t, ms, round, reply, fallback);
    ShiftedAway(env.e, t.anchor, t.overhead, ms, red.working);
  }

  /** So the size is left alone exactly when nothing was trimmed, or no anchor covered
      the history, or the anchor still covers it and nothing was removed before its
      count, or it is lost and had reported just what the estimate and the overhead say. */
  lemma SizeLeftAloneIff(env: Env, t: Tracker, ms: seq<Message>, round: int, reply: Reply, fallback: string)
    requires !CompactionRound(env, t, ms, round, reply, fallback).ok
    ensures var o := CompactionRound(env, t, ms, round, reply, fallback);
      var red := Reduce(env, t, ms);
      && |red.working| == |ms|
      && (Size(env, o.t, ms) == Size(env, t, ms) <==>
          || red.trimmed == 0
          || !Covers(t.anchor, ms)
          || (if StillAnchored(env.e, t.anchor, ms, red.working)
              then Removed(env.e, ms, red.working, t.anchor.count) == 0
              else t.anchor.prompt == Estimate(env.e, ms[..t.anchor.count]) + t.overhead))
  {
    hide CompactionRound, Reduce, Removed, Estimate, StillAnchored;
    UnchangedHistorySize(env, t, ms, round, reply, fallback);
    if Covers(t.anchor, ms) {
      var n := t.anchor.count;
      EstimateSplit(env.e, ms[..n], ms[n..]);
      assert ms[..n] + ms[n..] == ms;
    }
  }

  /** And the anchor is left alone exactly when nothing was trimmed, there was none, or it
      covers the history, nothing was removed before its count and its last message was
      not trimmed. (Every anchor a report or a shift makes has a count above zero.) */
  lemma AnchorLeftAloneIff(env: Env, t: Tracker, ms: seq<Message>, round: int, reply: Reply, fallback: string)
    requires !CompactionRound(env, t, ms, round, reply, fallback).ok && env.w.Brief()
    ensures var o := CompactionRound(env, t, ms, round, reply, fallback);
      var red := Reduce(env, t, ms);
      var a := t.anchor;
      && |red.working| == |ms|
      && (o.t.anchor == a <==>
          || red.trimmed == 0 || a.Dropped?
          || (&& Covers(a, ms) && a.prompt > 0 && Removed(env.e, ms, red.working, a.count) == 0
              && red.working[a.count - 1] == ms[a.count - 1]))
  {
    hide CompactionRound, Reduce, Removed, Estimate, Shifted;
    var red := Reduce(env, t, ms);
    UnchangedTracker(env, t, ms, round, reply, fallback);
    ShiftedAway(env.e, t.anchor, t.overhead, ms, red.working);
    if Covers(t.anchor, ms) {
      LengthTellsTrim(env, t, ms, t.anchor.count - 1);
    }
  }

  /** Where nothing is clipped, a message keeps its length exactly when it is not trimmed. */
  lemma LengthTellsTrim(env: Env, t: Tracker, ms: seq<Message>, i: nat)
    requires Reduce(env, t, ms).clipped == 0 && env.w.Brief() && i < |ms|
    ensures var working := Reduce(env, t, ms).working;
      |working[i].content| == |ms[i].content| <==> working[i] == ms[i]
  {
    hide Clip.HeadTail, Clip.RoundBoundary, Shifted;
    var h := Fold.HeadEnd(ms);
    if env.cfg.ClipAfter() >= 0 {
      Clip.NoHits(ms, h, Clip.RoundBoundary(ms, env.cfg.ClipAfter()), Clip.ToStub);
      if Clip.Trimmable(ms[i], Clip.CLIP_OVERSIZE_CHARS) {
        Clip.TrimShortens(ms[i].content, env.w);
      }
    }
  }

  // ------------------------------------------------ backoff

  /** A compaction that freed too little, or that found nothing to reduce and nothing to
      fold, is not tried again until the context has grown a tenth of the threshold past
      what it left. */
  lemma BackoffHolds(env: Env, t: Tracker, ms: seq<Message>, round: int, reply: Reply, fallback: string,
                     later: seq<Message>, diminishing: bool, anchor: Anchor, overhead: int)
    ensures var o := CompactionRound(env, t, ms, round, reply, fallback);
      var left := Size(env, o.t, o.out);
      var next := o.t.(anchor := anchor, overhead := overhead);
      (if o.ok then NoProgress(Size(env, t, ms), left) else o.t.summaryCalls == t.summaryCalls)
      && left + BackoffShare(env) > 0
      && ShouldCompact(env, next, later, diminishing) ==>
        Size(env, next, later) >= left + env.cfg.threshold / 10
  {
    hide Decide, Reduce, Measured;
    DecideBackoff(env, Reduce(env, t, ms), ms, Size(env, t, ms), round, reply, fallback);
    UnaskedBackoff(env, t, ms, round, reply, fallback);
  }

  lemma UnaskedBackoff(env: Env, t: Tracker, ms: seq<Message>, round: int, reply: Reply, fallback: string)
    ensures var o := CompactionRound(env, t, ms, round, reply, fallback);
      !o.ok && o.t.summaryCalls == t.summaryCalls ==>
        o.t.backoffUntil == Size(env, t, ms) + BackoffShare(env) && Size(env, o.t, o.out) == Size(env, t, ms)
  {
    hide Reduce, Decide, Measured, BackoffShare;
    ReduceMovesOnlyAnchor(env, t, ms);
    DecidesUnchanged(env, Reduce(env, t, ms), ms, Size(env, t, ms), round, reply, fallback);
  }

  // ------------------------------------------------ summariser calls over a run

  /** One round of a run, with whatever the provider reported since the last one. */
  datatype Attempt = Attempt(
    ms: seq<Message>, round: int, reply: Reply, fallback: string, anchor: Anchor, overhead: int)

  function Attempted(env: Env, t: Tracker, a: Attempt): Outcome {
    CompactionRound(env, t.(anchor := a.anchor, overhead := a.overhead), a.ms, a.round, a.reply, a.fallback)
  }

  function RunAttempts(env: Env, t: Tracker, attempts: seq<Attempt>): Tracker {
    if attempts == [] then t
    else Attempted(env, RunAttempts(env, t, attempts[..|attempts| - 1]), attempts[|attempts| - 1]).t
  }

  /** No round of the stretch ended in a written summary. */
  ghost predicate NoSummary(env: Env, t: Tracker, attempts: seq<Attempt>) {
    forall k :: 0 <= k < |attempts| ==>
      !Attempted(env, RunAttempts(env, t, attempts[..k]), attempts[k]).mode.BySummary?
  }

  ghost predicate RoundsAscend(attempts: seq<Attempt>) {
    forall i, j :: 0 <= i < j < |attempts| ==> attempts[i].round <= attempts[j].round
  }

  /** What a round that wrote no summary did to the counters. */
  lemma AttemptCounters(env: Env, t: Tracker, a: Attempt)
    requires !Attempted(env, t, a).mode.BySummary?
    ensures var t' := Attempted(env, t, a).t;
      || (t'.summaryCalls == t.summaryCalls && t'.failures == t.failures && t'.cooldownUntil == t.cooldownUntil)
      || (&& t'.summaryCalls == t.summaryCalls + 1 && t'.failures == t.failures + 1
          && (t.failures < 2 || a.round >= t.cooldownUntil)
          && (t'.failures >= 2 ==> t'.cooldownUntil == a.round + 5))
  {
    hide Decide;
    var t0 := t.(anchor := a.anchor, overhead := a.overhead);
    var red := Reduce(env, t0, a.ms);
    DecideCounters(env, red, a.ms, Size(env, t0, a.ms), a.round, a.reply, a.fallback);
    AskOnlyCounts(red.t, a.round, a.reply);
  }

  lemma StretchPrefix(env: Env, t: Tracker, attempts: seq<Attempt>)
    requires attempts != [] && RoundsAscend(attempts) && NoSummary(env, t, attempts)
    ensures RoundsAscend(attempts[..|attempts| - 1]) && NoSummary(env, t, attempts[..|attempts| - 1])
  {
    hide Attempted, RunAttempts;
    var prefix := attempts[..|attempts| - 1];
    forall k | 0 <= k < |prefix|
      ensures !Attempted(env, RunAttempts(env, t, prefix[..k]), prefix[k]).mode.BySummary?
    {
      assert prefix[..k] == attempts[..k];
    }
  }

  lemma {:induction false} CallsAreSpaced(env: Env, t: Tracker, attempts: seq<Attempt>)
    requires attempts != [] && RoundsAscend(attempts) && NoSummary(env, t, attempts)
    ensures var t' := RunAttempts(env, t, attempts);
      var calls := t'.summaryCalls - t.summaryCalls;
      var first := attempts[0].round;
      && 0 <= calls && 5 * (calls - 2) <= attempts[|attempts| - 1].round - first
      && (calls >= 1 ==> t'.failures >= 1)
      && (calls >= 2 ==> t'.failures >= 2 && t'.cooldownUntil >= first + 5 * (calls - 1))
  {
    hide Attempted, CompactionRound;
    var n := |attempts| - 1;
    var before := RunAttempts(env, t, attempts[..n]);
    assert attempts[..n + 1] == attempts;
    AttemptCounters(env, before, attempts[n]);
    if n == 0 {
      assert before == t;
    } else {
      StretchPrefix(env, t, attempts);
      CallsAreSpaced(env, t, attempts[..n]);
      assert attempts[n - 1].round <= attempts[n].round;
    }
  }

  /** A summariser that keeps failing is not asked every round: over any stretch
      without a written summary it is called at most twice, and once more for every
      five rounds the stretch spans, whatever state the stretch starts in. */
  lemma FailingSummariserIsRarelyCalled(env: Env, t: Tracker, attempts: seq<Attempt>)
    requires attempts != [] && RoundsAscend(attempts) && NoSummary(env, t, attempts)
    ensures RunAttempts(env, t, attempts).summaryCalls - t.summaryCalls
            <= 2 + (attempts[|attempts| - 1].round - attempts[0].round) / 5
  {
    CallsAreSpaced(env, t, attempts);
    assert 0 <= attempts[|attempts| - 1].round - attempts[0].round by {
      if |attempts| > 1 {
        assert attempts[0].round <= attempts[|attempts| - 1].round;
      }
    }
  }
}
