/** Running one task across many segments (pkg/agent/long_run.go). A segment's run,
    the clock and the plan are decided outside; times are nanoseconds. */
module LongRun {
  import opened Options
  import Text

  // ------------------------------------------------ configuration

  const RETRY_MAX_BACKOFF: int := 1_800_000_000_000
  const DEFAULT_RETRY_BACKOFF: int := 300_000_000_000

  datatype Config = Config(
    maxSegments: int,
    maxConsecutiveFailures: int,
    allowIncompletePlan: bool,
    maxDuration: int,
    maxTotalTokens: int,
    maxUnproductive: int,
    retryBackoff: int)
  {
    /** resolved: every limit that is not given gets its default. */
    function Resolved(): (c: Config)
      ensures c.maxSegments > 0 && c.maxConsecutiveFailures > 0 && c.maxUnproductive > 0 && c.retryBackoff > 0
      ensures c.maxTotalTokens == maxTotalTokens && c.maxDuration == maxDuration
      ensures retryBackoff < Text.INT64_LIMIT ==> c.retryBackoff < Text.INT64_LIMIT
    {
      this.(maxSegments := if maxSegments <= 0 then 20 else maxSegments,
            maxConsecutiveFailures := if maxConsecutiveFailures <= 0 then 3 else maxConsecutiveFailures,
            maxUnproductive := if maxUnproductive <= 0 then 3 else maxUnproductive,
            retryBackoff := if retryBackoff <= 0 then DEFAULT_RETRY_BACKOFF else retryBackoff)
    }
  }

  // ------------------------------------------------ waiting after a failure

  function Pow2(k: nat): (p: nat)
    ensures p >= 1
  {
    if k == 0 then 1 else 2 * Pow2(k - 1)
  }

  /** The wait after n failures in a row: doubling from the base, capped. */
  function RetryDelay(base: int, n: int): int {
    var doubled := base * Pow2(if n < 1 then 0 else n - 1);
    if doubled > RETRY_MAX_BACKOFF then RETRY_MAX_BACKOFF else doubled
  }

  lemma Doubling(base: int, k: nat)
    requires base > 0
    ensures base * Pow2(k + 1) == 2 * (base * Pow2(k)) > base * Pow2(k) >= base
  {
  }

  lemma {:induction false} StaysAbove(base: int, k: nat, m: nat)
    requires base > 0 && k <= m
    ensures base * Pow2(k) <= base * Pow2(m)
  {
    if k < m {
      StaysAbove(base, k, m - 1);
      Doubling(base, m - 1);
    }
  }

  /** Go's doubling of a positive int64. */
  function Twice(d: int): int {
    if 2 * d < Text.INT64_LIMIT then 2 * d else 2 * d - 2 * Text.INT64_LIMIT
  }

  /** segmentRetryDelay. The loop stops doubling at the cap, so although each step may
      wrap around, none does: the result is the delay of unbounded arithmetic. */
  method SegmentRetryDelay(base: int, consecutiveFailures: int) returns (d: int)
    requires 0 < base < Text.INT64_LIMIT
    ensures d == RetryDelay(base, consecutiveFailures)
  {
    var n := if consecutiveFailures < 1 then 1 else consecutiveFailures;
    d := base;
    var i := 1;
    while i < n && d < RETRY_MAX_BACKOFF
      invariant 1 <= i <= n && d == base * Pow2(i - 1)
      invariant d <= 2 * RETRY_MAX_BACKOFF || d == base
    {
      Doubling(base, i - 1);
      d := Twice(d);
      i := i + 1;
    }
    StaysAbove(base, i - 1, n - 1);
    if d > RETRY_MAX_BACKOFF {
      d := RETRY_MAX_BACKOFF;
    }
  }

  // ------------------------------------------------ token accounting

  /** domain.TokenUsage as a value. */
  datatype Tokens = Tokens(prompt: int, completion: int, cached: int, cacheWrite: int) {
    function Plus(t: Tokens): Tokens {
      Tokens(prompt + t.prompt, completion + t.completion, cached + t.cached, cacheWrite + t.cacheWrite)
    }

    function Billed(): int {
      prompt + completion
    }
  }

  /** domain.TokenUsage as the object segments and totals point to. */
  class Usage {
    var prompt: int
    var completion: int
    var cached: int
    var cacheWrite: int

    function Value(): Tokens
      reads this
    {
      Tokens(prompt, completion, cached, cacheWrite)
    }

    constructor (t: Tokens)
      ensures Value() == t
    {
      prompt, completion, cached, cacheWrite := t.prompt, t.completion, t.cached, t.cacheWrite;
    }
  }

  function ValueOf(u: Usage?): Option<Tokens>
    reads u
  {
    if u == null then None else Some(u.Value())
  }

  function Sum(a: Option<Tokens>, b: Option<Tokens>): Option<Tokens> {
    if b.None? then a else if a.None? then b else Some(a.value.Plus(b.value))
  }

  /** addUsage: the first report is copied, later ones are added to the copy. */
  method AddUsage(total: Usage?, seg: Usage?) returns (r: Usage?)
    modifies if total == null then {} else {total}
    ensures ValueOf(r) == Sum(old(ValueOf(total)), old(ValueOf(seg)))
    ensures r == null <==> total == null && seg == null
    ensures total != null && seg != null ==>
      && r.prompt == old(total.prompt) + old(seg.prompt) && r.completion == old(total.completion) + old(seg.completion)
      && r.cached == old(total.cached) + old(seg.cached) && r.cacheWrite == old(total.cacheWrite) + old(seg.cacheWrite)
    ensures total == null && seg != null ==> r != null && r.Value() == old(seg.Value())
    ensures r == total || (total == null && fresh(r))
    ensures seg == null && total != null ==> unchanged(total)
  {
    if seg == null {
      return total;
    }
    if total == null {
      r := new Usage(seg.Value());
      return;
    }
    var add := seg.Value();
    total.prompt := total.prompt + add.prompt;
    total.completion := total.completion + add.completion;
    total.cached := total.cached + add.cached;
    total.cacheWrite := total.cacheWrite + add.cacheWrite;
    return total;
  }

  /** Field-wise sum of what the segments reported; nothing when none reported. */
  function Total(reported: seq<Option<Tokens>>): Option<Tokens> {
    if reported == [] then None else Sum(Total(reported[..|reported| - 1]), reported[|reported| - 1])
  }

  function Billed(t: Option<Tokens>): int {
    if t.None? then 0 else t.value.Billed()
  }

  /** segmentTokenBudget: what is left, when there is a cap and something is. */
  function TokenBudget(maxTotalTokens: int, used: Option<Tokens>): Option<int> {
    if maxTotalTokens <= 0 || maxTotalTokens - Billed(used) <= 0 then None
    else Some(maxTotalTokens - Billed(used))
  }

  // ------------------------------------------------ segments

  datatype StopReason = Concluded | MaxTurns | MaxBudgetTokens | LintExhausted | OtherReason(name: string)

  datatype Result = Result(
    success: bool, blocked: bool, cancelled: bool, stopReason: StopReason,
    toolsUsed: seq<string>, usage: Usage?, text: string, error: string)

  /** Everything decided outside one turn of the loop: cancellation and time elapsed at
      the top, whether the wait was cut off, what the run returned, cancellation after
      it, and whether the plan then has an unfinished step. */
  datatype Turn = Turn(
    cancelledBefore: bool, elapsed: nat, waitCut: bool,
    result: Option<Result>, err: Option<string>,
    cancelledAfter: bool, planOpen: bool)
  {
    predicate Failed() {
      err.Some? || result.None? || (!result.value.success && !result.value.blocked)
    }

    predicate Cancelled() {
      cancelledAfter || (result.Some? && result.value.cancelled)
    }

    function Tools(): seq<string> {
      if result.Some? then result.value.toolsUsed else []
    }

    function UsageRef(): Usage? {
      if result.Some? then result.value.usage else null
    }

    /** segmentRejectedOnOpenPlan. */
    predicate RejectedOnOpenPlan(cfg: Config) {
      result.Some? && result.value.stopReason.LintExhausted? && !cfg.allowIncompletePlan && planOpen
    }

    /** segmentFinishedTheTask. */
    predicate FinishedTheTask(cfg: Config) {
      result.Some? && result.value.success && !result.value.stopReason.MaxTurns?
      && (cfg.allowIncompletePlan || !planOpen)
    }
  }

  datatype Segment = Segment(
    index: nat, stopReason: StopReason, text: string, error: string, productive: bool, waited: int)

  datatype Stop =
    | Finished | SegmentBudget | Failing | CancelledStop | BlockedStop | TimeLimit | TokenLimit | Unproductive

  /** segmentChangedSomething; which tools change state is the registry's to say. */
  predicate Changes(tools: seq<string>, changesState: string -> bool) {
    exists i :: 0 <= i < |tools| && changesState(tools[i])
  }

  predicate Productive(t: Turn, changesState: string -> bool) {
    Changes(t.Tools(), changesState)
  }

  // ------------------------------------------------ what the counters mean

  /** Length of the run of failed segments a history ends with. */
  function TrailingFailures(h: seq<Turn>): (n: nat)
    ensures n <= |h|
    ensures forall i :: |h| - n <= i < |h| ==> h[i].Failed()
    ensures n < |h| ==> !h[|h| - n - 1].Failed()
  {
    if h == [] || !h[|h| - 1].Failed() then 0 else 1 + TrailingFailures(h[..|h| - 1])
  }

  /** One past the last segment that neither failed nor changed nothing. */
  function LastProgress(h: seq<Turn>, changesState: string -> bool): (p: nat)
    ensures p <= |h|
    ensures p > 0 ==> !h[p - 1].Failed() && Productive(h[p - 1], changesState)
    ensures forall i :: p <= i < |h| && !h[i].Failed() ==> !Productive(h[i], changesState)
  {
    if h == [] || (!h[|h| - 1].Failed() && Productive(h[|h| - 1], changesState)) then |h|
    else LastProgress(h[..|h| - 1], changesState)
  }

  function Sound(h: seq<Turn>): nat {
    if h == [] then 0 else Sound(h[..|h| - 1]) + if h[|h| - 1].Failed() then 0 else 1
  }

  /** Segments since then that ended without failing and without changing anything. */
  function IdleSegments(h: seq<Turn>, changesState: string -> bool): nat {
    Sound(h[LastProgress(h, changesState)..])
  }

  lemma IdleStep(h: seq<Turn>, t: Turn, changesState: string -> bool)
    ensures IdleSegments(h + [t], changesState) ==
            if t.Failed() then IdleSegments(h, changesState)
            else if Productive(t, changesState) then 0
            else IdleSegments(h, changesState) + 1
  {
    var all := h + [t];
    var p := LastProgress(all, changesState);
    assert all[..|h|] == h;
    if t.Failed() || !Productive(t, changesState) {
      assert p == LastProgress(h, changesState);
      assert all[p..][..|all[p..]| - 1] == h[p..];
    } else {
      assert all[p..] == [];
    }
  }

  // ------------------------------------------------ why a run stops

  /** What the segment just run decides. */
  function Verdict(h: seq<Turn>, cfg: Config, changesState: string -> bool): Option<Stop>
    requires |h| > 0
  {
    var t := h[|h| - 1];
    if t.Cancelled() then Some(CancelledStop)
    else if t.Failed() then
      if TrailingFailures(h) >= cfg.maxConsecutiveFailures then Some(Failing) else None
    else if t.result.value.stopReason.MaxBudgetTokens? then Some(TokenLimit)
    else if t.result.value.blocked && !t.result.value.stopReason.MaxTurns? && !t.RejectedOnOpenPlan(cfg) then
      Some(BlockedStop)
    else if t.FinishedTheTask(cfg) then Some(Finished)
    else if IdleSegments(h, changesState) >= cfg.maxUnproductive then Some(Unproductive)
    else None
  }

  /** How long the loop waits before the next segment. */
  function Wait(h: seq<Turn>, t: Turn, cfg: Config): (w: int)
    ensures w >= 0
  {
    var n := TrailingFailures(h);
    if n == 0 then 0
    else
      var delay := RetryDelay(cfg.retryBackoff, n);
      var left := cfg.maxDuration - t.elapsed;
      var clipped := if cfg.maxDuration > 0 && left < delay then left else delay;
      if clipped > 0 then clipped else 0
  }

  /** What is decided before a segment starts. */
  function Gate(h: seq<Turn>, t: Turn, cfg: Config, used: Option<Tokens>): Option<Stop> {
    if t.cancelledBefore then Some(CancelledStop)
    else if cfg.maxDuration > 0 && t.elapsed >= cfg.maxDuration then Some(TimeLimit)
    else if cfg.maxTotalTokens > 0 && TokenBudget(cfg.maxTotalTokens, used).None? then Some(TokenLimit)
    else if Wait(h, t, cfg) > 0 && t.waitCut then Some(CancelledStop)
    else None
  }

  /** A run of n segments that stopped for `stop`: no earlier moment gave a reason to. */
  ghost predicate StopsRight(
    turns: seq<Turn>, n: nat, stop: Stop, cfg: Config, changesState: string -> bool, reported: seq<Option<Tokens>>)
    requires n <= cfg.maxSegments <= |turns| && |reported| == |turns|
  {
    && (forall k :: 0 < k < n ==> Verdict(turns[..k], cfg, changesState).None?)
    && (forall k :: 0 <= k < n ==> Gate(turns[..k], turns[k], cfg, Total(reported[..k])).None?)
    && if n > 0 && Verdict(turns[..n], cfg, changesState).Some?
       then Verdict(turns[..n], cfg, changesState) == Some(stop)
       else if n < cfg.maxSegments then Gate(turns[..n], turns[n], cfg, Total(reported[..n])) == Some(stop)
       else stop == SegmentBudget
  }

  // ------------------------------------------------ the code

  /** The switch after a segment, on the counters. */
  method Judge(h: seq<Turn>, t: Turn, productive: bool, failures: int, unproductive: int, cfg: Config,
      changesState: string -> bool)
    returns (failures': int, unproductive': int, stop: Option<Stop>)
    requires failures == TrailingFailures(h) && unproductive == IdleSegments(h, changesState)
    requires productive == Productive(t, changesState)
    ensures stop == Verdict(h + [t], cfg, changesState)
    ensures stop.None? ==> failures' == TrailingFailures(h + [t])
    ensures stop.None? ==> unproductive' == IdleSegments(h + [t], changesState)
  {
    assert (h + [t])[..|h|] == h;
    IdleStep(h, t, changesState);
    hide IdleSegments, Productive;
    failures', unproductive', stop := failures, unproductive, None;
    if t.Cancelled() {
      stop := Some(CancelledStop);
    } else if t.err.Some? || t.result.None? || (!t.result.value.success && !t.result.value.blocked) {
      failures' := failures' + 1;
      if failures' >= cfg.maxConsecutiveFailures {
        stop := Some(Failing);
      }
    } else if t.result.value.stopReason.MaxBudgetTokens? {
      stop := Some(TokenLimit);
    } else if t.result.value.blocked && !t.result.value.stopReason.MaxTurns? && !t.RejectedOnOpenPlan(cfg) {
      stop := Some(BlockedStop);
    } else {
      failures' := 0;
      unproductive' := if productive then 0 else unproductive' + 1;
      if t.FinishedTheTask(cfg) {
        stop := Some(Finished);
      } else if unproductive' >= cfg.maxUnproductive {
        stop := Some(Unproductive);
      }
    }
  }

  /** The checks and the wait before a segment. */
  method Prepare(h: seq<Turn>, t: Turn, failures: int, total: Usage?, cfg: Config)
    returns (stop: Option<Stop>, waited: int)
    requires failures == TrailingFailures(h) && 0 < cfg.retryBackoff < Text.INT64_LIMIT
    ensures stop == Gate(h, t, cfg, ValueOf(total))
    ensures stop.None? ==> waited == Wait(h, t, cfg)
  {
    waited := 0;
    if t.cancelledBefore {
      return Some(CancelledStop), 0;
    }
    if cfg.maxDuration > 0 && t.elapsed >= cfg.maxDuration {
      return Some(TimeLimit), 0;
    }
    if cfg.maxTotalTokens > 0 && TokenBudget(cfg.maxTotalTokens, ValueOf(total)).None? {
      return Some(TokenLimit), 0;
    }
    if failures > 0 {
      var delay := SegmentRetryDelay(cfg.retryBackoff, failures);
      if cfg.maxDuration > 0 {
        var left := cfg.maxDuration - t.elapsed;
        if left < delay {
          delay := left;
        }
      }
      if delay > 0 {
        if t.waitCut {
          return Some(CancelledStop), 0;
        }
        waited := delay;
      }
    }
    stop := None;
  }

  /** segmentChangedSomething. */
  method ChangedSomething(tools: seq<string>, changesState: string -> bool) returns (b: bool)
    ensures b == Changes(tools, changesState)
  {
    for i := 0 to |tools|
      invariant forall k :: 0 <= k < i ==> !changesState(tools[k])
    {
      if changesState(tools[i]) {
        return true;
      }
    }
    return false;
  }

  function SegmentOf(k: nat, t: Turn, waited: int, changesState: string -> bool): Segment {
    var error := if t.result.Some? then t.result.value.error else "";
    Segment(k,
            if t.result.Some? then t.result.value.stopReason else OtherReason(""),
            if t.result.Some? then t.result.value.text else "",
            if t.err.Some? && error == "" then t.err.value else error,
            Productive(t, changesState),
            waited)
  }

  function NameSet(names: seq<string>): set<string> {
    set name | name in names
  }

  /** Every tool the segments of a history used. */
  function ToolsBefore(h: seq<Turn>): set<string> {
    if h == [] then {} else ToolsBefore(h[..|h| - 1]) + NameSet(h[|h| - 1].Tools())
  }

  /** What a segment is started with: the tokens it may use and the tools already used. */
  datatype Handed = Handed(budget: Option<int>, prior: set<string>, waited: int)

  function HandedTo(h: seq<Turn>, t: Turn, cfg: Config, used: Option<Tokens>): Handed {
    Handed(TokenBudget(cfg.maxTotalTokens, used), ToolsBefore(h), Wait(h, t, cfg))
  }

  lemma TotalStep(reported: seq<Option<Tokens>>, i: nat)
    requires i < |reported|
    ensures Total(reported[..i + 1]) == Sum(Total(reported[..i]), reported[i])
  {
    assert reported[..i + 1][..i] == reported[..i];
  }

  lemma ToolsStep(turns: seq<Turn>, i: nat)
    requires i < |turns|
    ensures ToolsBefore(turns[..i + 1]) == ToolsBefore(turns[..i]) + NameSet(turns[i].Tools())
  {
    assert turns[..i + 1][..i] == turns[..i];
  }

  /** Each segment was recorded as it went, and was handed what was left at its start. */
  ghost predicate Recorded(turns: seq<Turn>, cfg: Config, changesState: string -> bool, reported: seq<Option<Tokens>>,
                           segments: seq<Segment>, handed: seq<Handed>)
  {
    && |segments| == |handed| <= |turns| == |reported|
    && forall k :: 0 <= k < |segments| ==>
      && handed[k] == HandedTo(turns[..k], turns[k], cfg, Total(reported[..k]))
      && segments[k] == SegmentOf(k, turns[k], handed[k].waited, changesState)
  }

  /** No reason to stop has come up in the first n segments or before any of them. */
  ghost predicate NoReasonYet(turns: seq<Turn>, n: nat, cfg: Config, changesState: string -> bool,
      reported: seq<Option<Tokens>>)
  {
    && n <= |turns| == |reported|
    && (forall k :: 0 < k <= n ==> Verdict(turns[..k], cfg, changesState).None?)
    && (forall k :: 0 <= k < n ==> Gate(turns[..k], turns[k], cfg, Total(reported[..k])).None?)
  }

  lemma StopsAtVerdict(turns: seq<Turn>, n: nat, stop: Stop, cfg: Config, changesState: string -> bool,
      reported: seq<Option<Tokens>>)
    requires n < cfg.maxSegments <= |turns| && NoReasonYet(turns, n, cfg, changesState, reported)
    requires Gate(turns[..n], turns[n], cfg, Total(reported[..n])).None?
    requires Verdict(turns[..n + 1], cfg, changesState) == Some(stop)
    ensures StopsRight(turns, n + 1, stop, cfg, changesState, reported)
  {
    hide Verdict, Gate;
  }

  lemma StopsAtGate(turns: seq<Turn>, n: nat, stop: Stop, cfg: Config, changesState: string -> bool,
      reported: seq<Option<Tokens>>)
    requires n < cfg.maxSegments <= |turns| && NoReasonYet(turns, n, cfg, changesState, reported)
    requires Gate(turns[..n], turns[n], cfg, Total(reported[..n])) == Some(stop)
    ensures StopsRight(turns, n, stop, cfg, changesState, reported)
  {
    hide Verdict, Gate;
  }

  lemma StopsAtBudget(turns: seq<Turn>, n: nat, cfg: Config, changesState: string -> bool,
      reported: seq<Option<Tokens>>)
    requires n == cfg.maxSegments <= |turns| && NoReasonYet(turns, n, cfg, changesState, reported)
    ensures StopsRight(turns, n, SegmentBudget, cfg, changesState, reported)
  {
    hide Verdict, Gate;
  }

  lemma GoesOn(turns: seq<Turn>, n: nat, cfg: Config, changesState: string -> bool, reported: seq<Option<Tokens>>)
    requires n < |turns| && NoReasonYet(turns, n, cfg, changesState, reported)
    requires Gate(turns[..n], turns[n], cfg, Total(reported[..n])).None?
    requires Verdict(turns[..n + 1], cfg, changesState).None?
    ensures NoReasonYet(turns, n + 1, cfg, changesState, reported)
  {
    hide Verdict, Gate;
  }

  /** One pass of the loop up to the record of its segment. */
  method RunOne(cfg: Config, turns: seq<Turn>, i: nat, changesState: string -> bool,
      ghost reported: seq<Option<Tokens>>, total: Usage?, toolsUsed: set<string>, waited: int)
    returns (seg: Segment, hand: Handed, total': Usage?, toolsUsed': set<string>, productive: bool)
    requires i < |turns| == |reported| && ValueOf(turns[i].UsageRef()) == reported[i]
    requires toolsUsed == ToolsBefore(turns[..i]) && ValueOf(total) == Total(reported[..i])
    requires waited == Wait(turns[..i], turns[i], cfg)
    modifies if total == null then {} else {total}
    ensures hand == HandedTo(turns[..i], turns[i], cfg, Total(reported[..i]))
    ensures seg == SegmentOf(i, turns[i], waited, changesState)
    ensures productive == Productive(turns[i], changesState)
    ensures toolsUsed' == ToolsBefore(turns[..i + 1]) && ValueOf(total') == Total(reported[..i + 1])
    ensures total' == total || (total == null && fresh(total'))
  {
    hide Wait, TokenBudget, Total, Sum, ToolsBefore;
    var t := turns[i];
    hand := Handed(TokenBudget(cfg.maxTotalTokens, ValueOf(total)), toolsUsed, waited);
    productive := ChangedSomething(t.Tools(), changesState);
    toolsUsed' := toolsUsed + NameSet(t.Tools());
    ToolsStep(turns, i);
    TotalStep(reported, i);
    total' := AddUsage(total, t.UsageRef());
    seg := SegmentOf(i, t, waited, changesState);
  }

  /** runSegments. `reported` names what each turn's usage object holds at the start, so
      that the result can say those objects were read and never written. */
  method RunSegments(config: Config, turns: seq<Turn>, changesState: string -> bool,
      ghost reported: seq<Option<Tokens>>)
    returns (segments: seq<Segment>, stop: Stop, text: string, total: Usage?, handed: seq<Handed>)
    requires config.Resolved().maxSegments <= |turns| == |reported| && config.retryBackoff < Text.INT64_LIMIT
    requires forall k :: 0 <= k < |turns| ==> ValueOf(turns[k].UsageRef()) == reported[k]
    ensures |segments| <= config.Resolved().maxSegments
    ensures StopsRight(turns, |segments|, stop, config.Resolved(), changesState, reported)
    ensures Recorded(turns, config.Resolved(), changesState, reported, segments, handed)
    ensures ValueOf(total) == Total(reported[..|segments|])
    ensures text == if segments == [] then "" else segments[|segments| - 1].text
    ensures total == null || fresh(total)
    ensures forall k :: 0 <= k < |turns| ==> ValueOf(turns[k].UsageRef()) == reported[k]
  {
    hide Verdict, Gate, Wait, TokenBudget, Total, TrailingFailures, IdleSegments, Productive, ToolsBefore;
    hide StopsRight, NoReasonYet, HandedTo, SegmentOf, Recorded, Config.Resolved, Sum, NameSet, RetryDelay;
    hide Turn.Failed, Turn.Cancelled, Turn.Tools;
    var cfg := config.Resolved();
    segments, handed, text, total := [], [], "", null;
    var failures, unproductive := 0, 0;
    var toolsUsed: set<string> := {};
    NothingYet(turns, reported, cfg, changesState);
    var i := 0;
    while i < cfg.maxSegments
      invariant 0 <= i <= cfg.maxSegments && |segments| == i
      invariant failures == TrailingFailures(turns[..i]) && unproductive == IdleSegments(turns[..i], changesState)
      invariant toolsUsed == ToolsBefore(turns[..i])
      invariant (total == null || fresh(total)) && ValueOf(total) == Total(reported[..i])
      invariant NoReasonYet(turns, i, cfg, changesState, reported)
      invariant Recorded(turns, cfg, changesState, reported, segments, handed)
      invariant text == if segments == [] then "" else segments[|segments| - 1].text
    {
      var gate, waited := Prepare(turns[..i], turns[i], failures, total, cfg);
      if gate.Some? {
        StopsAtGate(turns, i, gate.value, cfg, changesState, reported);
        return segments, gate.value, text, total, handed;
      }
      var seg, hand, productive;
      seg, hand, total, toolsUsed, productive :=
        RunOne(cfg, turns, i, changesState, reported, total, toolsUsed, waited);
      RecordOne(turns, cfg, changesState, reported, segments, handed, seg, hand, waited);
      segments, handed, text := segments + [seg], handed + [hand], seg.text;
      var verdict;
      assert turns[..i + 1] == turns[..i] + [turns[i]];
      failures, unproductive, verdict :=
        Judge(turns[..i], turns[i], productive, failures, unproductive, cfg, changesState);
      if verdict.Some? {
        StopsAtVerdict(turns, i, verdict.value, cfg, changesState, reported);
        return segments, verdict.value, text, total, handed;
      }
      GoesOn(turns, i, cfg, changesState, reported);
      i := i + 1;
    }
    StopsAtBudget(turns, i, cfg, changesState, reported);
    return segments, SegmentBudget, text, total, handed;
  }

  lemma RecordOne(turns: seq<Turn>, cfg: Config, changesState: string -> bool, reported: seq<Option<Tokens>>,
                  segments: seq<Segment>, handed: seq<Handed>, seg: Segment, hand: Handed, waited: int)
    requires Recorded(turns, cfg, changesState, reported, segments, handed)
    requires var n := |segments|;
      && n < |turns|
      && waited == Wait(turns[..n], turns[n], cfg)
      && hand == HandedTo(turns[..n], turns[n], cfg, Total(reported[..n]))
      && seg == SegmentOf(n, turns[n], waited, changesState)
    ensures Recorded(turns, cfg, changesState, reported, segments + [seg], handed + [hand])
  {
    hide SegmentOf, Wait, Total, TokenBudget, ToolsBefore;
  }

  lemma NothingYet(turns: seq<Turn>, reported: seq<Option<Tokens>>, cfg: Config, changesState: string -> bool)
    requires |turns| == |reported|
    ensures TrailingFailures(turns[..0]) == 0 && IdleSegments(turns[..0], changesState) == 0
    ensures ToolsBefore(turns[..0]) == {} && Total(reported[..0]).None?
    ensures NoReasonYet(turns, 0, cfg, changesState, reported)
    ensures Recorded(turns, cfg, changesState, reported, [], [])
  {
  }

  // ------------------------------------------------ what a run's result means

  /** Only "finished" means done, and it means it: the last segment succeeded, it ended
      neither for its rounds nor for its tokens, and no plan step was open. */
  lemma FinishedMeansDone(
    turns: seq<Turn>, n: nat, cfg: Config, changesState: string -> bool, reported: seq<Option<Tokens>>)
    requires n <= cfg.maxSegments <= |turns| == |reported|
    requires StopsRight(turns, n, Finished, cfg, changesState, reported)
    ensures n > 0
    ensures var last := turns[n - 1];
      && !last.Failed() && !last.Cancelled()
      && last.result.value.success
      && !last.result.value.stopReason.MaxTurns? && !last.result.value.stopReason.MaxBudgetTokens?
      && (cfg.allowIncompletePlan || !last.planOpen)
  {
    hide TrailingFailures, IdleSegments, Wait, TokenBudget, Total;
  }

  /** "Consecutive failures" stops the run at the first moment that many segments in a
      row have failed, and nothing but those failed at its end. */
  lemma FailingMeansInARow(
    turns: seq<Turn>, n: nat, cfg: Config, changesState: string -> bool, reported: seq<Option<Tokens>>)
    requires n <= cfg.maxSegments <= |turns| == |reported| && cfg.maxConsecutiveFailures > 0
    requires StopsRight(turns, n, Failing, cfg, changesState, reported)
    ensures n >= cfg.maxConsecutiveFailures
    ensures forall k :: n - cfg.maxConsecutiveFailures <= k < n ==> turns[k].Failed()
    ensures n > cfg.maxConsecutiveFailures ==> !turns[n - cfg.maxConsecutiveFailures - 1].Failed()
  {
    hide *;
    FailingAtTheEnd(turns, n, cfg, changesState, reported);
    TrailingOneLess(turns, n);
    var f := TrailingFailures(turns[..n]);
    assert forall k :: n - f <= k < n ==> turns[..n][k] == turns[k];
    if n > 1 {
      NoEarlierFailing(turns, n, cfg, changesState, reported);
    }
  }

  lemma FailingAtTheEnd(
    turns: seq<Turn>, n: nat, cfg: Config, changesState: string -> bool, reported: seq<Option<Tokens>>)
    requires n <= cfg.maxSegments <= |turns| == |reported|
    requires StopsRight(turns, n, Failing, cfg, changesState, reported)
    ensures n > 0 && TrailingFailures(turns[..n]) >= cfg.maxConsecutiveFailures
    ensures n > 1 ==> Verdict(turns[..n - 1], cfg, changesState).None?
  {
    hide IdleSegments, Wait, TokenBudget, Total, TrailingFailures;
  }

  lemma TrailingOneLess(turns: seq<Turn>, n: nat)
    requires 0 < n <= |turns|
    requires TrailingFailures(turns[..n]) > 0
    ensures TrailingFailures(turns[..n]) == 1 + TrailingFailures(turns[..n - 1])
    ensures TrailingFailures(turns[..n]) > 1 ==> n > 1 && turns[n - 2].Failed()
  {
    assert turns[..n][..n - 1] == turns[..n - 1];
    var f := TrailingFailures(turns[..n]);
    assert f > 1 ==> turns[..n][n - 2] == turns[n - 2];
  }

  lemma NoEarlierFailing(
    turns: seq<Turn>, n: nat, cfg: Config, changesState: string -> bool, reported: seq<Option<Tokens>>)
    requires 1 < n <= cfg.maxSegments <= |turns| == |reported|
    requires Verdict(turns[..n - 1], cfg, changesState).None?
    ensures turns[n - 2].Failed() ==> TrailingFailures(turns[..n - 1]) < cfg.maxConsecutiveFailures
  {
    hide IdleSegments, TrailingFailures;
    assert turns[..n - 1][n - 2] == turns[n - 2];
  }

  /** Segment k kept to the tokens it was handed. */
  predicate KeepsBudget(cfg: Config, reported: seq<Option<Tokens>>, k: nat)
    requires k < |reported|
  {
    var budget := TokenBudget(cfg.maxTotalTokens, Total(reported[..k]));
    budget.Some? ==> Billed(reported[k]) <= budget.value
  }

  /** A task is billed what its segments reported, no segment starts once the cap is
      reached, and each is handed exactly what is left; so if every segment of a run
      keeps to what it was handed, the task keeps to its cap. */
  lemma TokensWithinCap(turns: seq<Turn>, n: nat, stop: Stop, cfg: Config, changesState: string -> bool,
      reported: seq<Option<Tokens>>)
    requires n <= cfg.maxSegments <= |turns| == |reported| && cfg.maxTotalTokens > 0
    requires StopsRight(turns, n, stop, cfg, changesState, reported)
    ensures forall k :: 0 <= k < n ==>
      TokenBudget(cfg.maxTotalTokens, Total(reported[..k])) == Some(cfg.maxTotalTokens - Billed(Total(reported[..k])))
    ensures (forall k :: 0 <= k < n ==> KeepsBudget(cfg, reported, k)) ==>
      Billed(Total(reported[..n])) <= cfg.maxTotalTokens
  {
    hide Verdict, Gate, Total, TokenBudget, KeepsBudget;
    forall k | 0 <= k < n
      ensures TokenBudget(cfg.maxTotalTokens, Total(reported[..k]))
              == Some(cfg.maxTotalTokens - Billed(Total(reported[..k])))
    {
      assert Gate(turns[..k], turns[k], cfg, Total(reported[..k])).None?;
      PassesWithTokens(turns[..k], turns[k], cfg, Total(reported[..k]));
    }
    if forall k :: 0 <= k < n ==> KeepsBudget(cfg, reported, k) {
      StaysInBudget(n, cfg, reported);
    }
  }

  lemma PassesWithTokens(h: seq<Turn>, t: Turn, cfg: Config, used: Option<Tokens>)
    requires cfg.maxTotalTokens > 0 && Gate(h, t, cfg, used).None?
    ensures TokenBudget(cfg.maxTotalTokens, used) == Some(cfg.maxTotalTokens - Billed(used))
  {
    hide Wait;
  }

  lemma {:induction false} StaysInBudget(n: nat, cfg: Config, reported: seq<Option<Tokens>>)
    requires n <= |reported| && cfg.maxTotalTokens > 0
    requires forall k :: 0 <= k < n ==> KeepsBudget(cfg, reported, k)
    requires forall k :: 0 <= k < n ==>
      TokenBudget(cfg.maxTotalTokens, Total(reported[..k])) == Some(cfg.maxTotalTokens - Billed(Total(reported[..k])))
    ensures Billed(Total(reported[..n])) <= cfg.maxTotalTokens
  {
    hide Total, TokenBudget;
    if n > 0 {
      StaysInBudget(n - 1, cfg, reported);
      assert KeepsBudget(cfg, reported, n - 1);
      TotalStep(reported, n - 1);
    } else {
      NoTotal(reported);
    }
  }

  lemma NoTotal(reported: seq<Option<Tokens>>)
    ensures Total(reported[..0]).None?
  {
  }

  /** MaxDuration is meant to keep segments from starting once the task has run that
      long. With a wait before it, a segment starts in time exactly when the wait it
      needs is shorter than the time left: a clipped wait ends on the limit itself. */
  lemma StartsWithinDuration(h: seq<Turn>, t: Turn, cfg: Config)
    requires cfg.maxDuration > 0 && t.elapsed < cfg.maxDuration
    ensures t.elapsed + Wait(h, t, cfg) < cfg.maxDuration <==>
            TrailingFailures(h) == 0 || RetryDelay(cfg.retryBackoff, TrailingFailures(h)) < cfg.maxDuration - t.elapsed
    ensures t.elapsed + Wait(h, t, cfg) <= cfg.maxDuration
  {
  }

  /** One failed segment, a base wait of 30 and 5 of 10 left: the next one starts at 10. */
  lemma StartsOnTheLimit()
    ensures var t := Turn(false, 5, false, None, Some("offline"), false, false);
      var cfg := Config(0, 0, false, 10, 0, 0, 30).Resolved();
      && t.elapsed < cfg.maxDuration && TrailingFailures([t]) == 1
      && Gate([t], t, cfg, None).None?
      && t.elapsed + Wait([t], t, cfg) == cfg.maxDuration
  {
    var t := Turn(false, 5, false, None, Some("offline"), false, false);
    assert TrailingFailures([]) == 0 && [t][..0] == [];
    assert TrailingFailures([t]) == 1;
    assert Pow2(0) == 1;
  }

  // ------------------------------------------------ the same in the words of a segment's result

  /** The wait starts at the base and doubles with each further failure, up to 30 minutes. */
  lemma RetryDelayDoubles(base: int, n: nat)
    requires base > 0
    ensures RetryDelay(base, 1) == if base > 1_800_000_000_000 then 1_800_000_000_000 else base
    ensures n >= 1 ==>
      var d := RetryDelay(base, n);
      RetryDelay(base, n + 1) == if 2 * d > 1_800_000_000_000 then 1_800_000_000_000 else 2 * d
  {
    assert Pow2(0) == 1;
    if n >= 1 {
      Doubling(base, n - 1);
    }
  }

  /** Limits that are not given: 20 segments, 3 failures in a row, 3 unproductive ones, a
      first wait of 5 minutes. The others are off. */
  lemma DefaultLimits(cfg: Config)
    ensures var c := cfg.Resolved();
      && c.maxSegments == (if cfg.maxSegments > 0 then cfg.maxSegments else 20)
      && c.maxConsecutiveFailures == (if cfg.maxConsecutiveFailures > 0 then cfg.maxConsecutiveFailures else 3)
      && c.maxUnproductive == (if cfg.maxUnproductive > 0 then cfg.maxUnproductive else 3)
      && c.retryBackoff == (if cfg.retryBackoff > 0 then cfg.retryBackoff else 300_000_000_000)
      && c.allowIncompletePlan == cfg.allowIncompletePlan
  {
  }

  /** A segment fails with an error, without a result, or with one that neither succeeded
      nor was blocked. Failures in a row are counted, and any other segment ends the row.
      An unproductive segment is one that did not fail and used no tool that changes
      state; failures between unproductive segments do not count and do not reset. */
  lemma CountersByFields(h: seq<Turn>, t: Turn, changesState: string -> bool)
    ensures TrailingFailures([]) == 0 && IdleSegments([], changesState) == 0
    ensures var failed := t.err.Some? || t.result.None? || !(t.result.value.success || t.result.value.blocked);
      && TrailingFailures(h + [t]) == (if failed then TrailingFailures(h) + 1 else 0)
      && IdleSegments(h + [t], changesState) ==
          if failed then IdleSegments(h, changesState)
          else if exists i :: 0 <= i < |t.result.value.toolsUsed| && changesState(t.result.value.toolsUsed[i]) then 0
          else IdleSegments(h, changesState) + 1
  {
    assert (h + [t])[..|h|] == h;
    IdleStep(h, t, changesState);
    hide IdleSegments;
    assert IdleSegments([], changesState) == 0 by {
      NoIdle(changesState);
    }
  }

  lemma NoIdle(changesState: string -> bool)
    ensures IdleSegments([], changesState) == 0
  {
  }

  /** What the segment just run decides, on the fields of its result. */
  lemma VerdictByFields(h: seq<Turn>, cfg: Config, changesState: string -> bool)
    requires |h| > 0
    ensures var t := h[|h| - 1];
      var v := Verdict(h, cfg, changesState);
      var cancelled := t.cancelledAfter || (t.result.Some? && t.result.value.cancelled);
      var failed := t.err.Some? || t.result.None? || !(t.result.value.success || t.result.value.blocked);
      && (v == Some(CancelledStop) <==> cancelled)
      && (v == Some(Failing) <==> !cancelled && failed && TrailingFailures(h) >= cfg.maxConsecutiveFailures)
      && (v == Some(TokenLimit) <==> !cancelled && !failed && t.result.value.stopReason == MaxBudgetTokens)
      && (v == Some(BlockedStop) <==> !cancelled && !failed && BlockedForGood(t.result.value, t.planOpen, cfg))
      && (v == Some(Finished) <==>
           && !cancelled && !failed && !BlockedForGood(t.result.value, t.planOpen, cfg)
           && DoneForGood(t.result.value, t.planOpen, cfg))
      && (v == Some(Unproductive) <==>
           && !cancelled && !failed && t.result.value.stopReason != MaxBudgetTokens
           && !BlockedForGood(t.result.value, t.planOpen, cfg) && !DoneForGood(t.result.value, t.planOpen, cfg)
           && IdleSegments(h, changesState) >= cfg.maxUnproductive)
      && v != Some(TimeLimit) && v != Some(SegmentBudget)
  {
    hide TrailingFailures, IdleSegments;
  }

  /** A considered refusal: blocked, neither out of tokens nor out of rounds, and not just
      a final check turning down an answer given with the plan open. */
  predicate BlockedForGood(r: Result, planOpen: bool, cfg: Config) {
    && r.blocked && r.stopReason != MaxBudgetTokens && r.stopReason != MaxTurns
    && (r.stopReason == LintExhausted ==> cfg.allowIncompletePlan || !planOpen)
  }

  /** Success, neither out of tokens nor out of rounds, with no plan step open unless that
      is allowed. */
  predicate DoneForGood(r: Result, planOpen: bool, cfg: Config) {
    && r.success && r.stopReason != MaxBudgetTokens && r.stopReason != MaxTurns
    && (cfg.allowIncompletePlan || !planOpen)
  }

  /** What is decided before a segment starts, and the wait before it. */
  lemma GateByFields(h: seq<Turn>, t: Turn, cfg: Config, used: Option<Tokens>)
    ensures var g := Gate(h, t, cfg, used);
      var billed := if used.None? then 0 else used.value.prompt + used.value.completion;
      var late := cfg.maxDuration > 0 && t.elapsed >= cfg.maxDuration;
      var spent := cfg.maxTotalTokens > 0 && billed >= cfg.maxTotalTokens;
      && (g == Some(CancelledStop) <==> t.cancelledBefore || (!late && !spent && Wait(h, t, cfg) > 0 && t.waitCut))
      && (g == Some(TimeLimit) <==> !t.cancelledBefore && late)
      && (g == Some(TokenLimit) <==> !t.cancelledBefore && !late && spent)
      && (g.Some? ==> g.value in {CancelledStop, TimeLimit, TokenLimit})
      && TokenBudget(cfg.maxTotalTokens, used) ==
          (if cfg.maxTotalTokens > 0 && !spent then Some(cfg.maxTotalTokens - billed) else None)
    ensures TrailingFailures(h) == 0 ==> Wait(h, t, cfg) == 0
    ensures TrailingFailures(h) > 0 ==>
      var delay := RetryDelay(cfg.retryBackoff, TrailingFailures(h));
      var left := cfg.maxDuration - t.elapsed;
      && (cfg.maxDuration <= 0 || delay <= left ==> Wait(h, t, cfg) == if delay > 0 then delay else 0)
      && (cfg.maxDuration > 0 && 0 <= left < delay ==> Wait(h, t, cfg) == left)
  {
    hide TrailingFailures, RetryDelay;
  }

  /** Why a run stopped, read off the last segment's result. The stops that only a segment
      can bring about come exactly when it did. */
  lemma StopByFields(turns: seq<Turn>, n: nat, stop: Stop, cfg: Config, changesState: string -> bool,
      reported: seq<Option<Tokens>>)
    requires n <= cfg.maxSegments <= |turns| == |reported|
    requires StopsRight(turns, n, stop, cfg, changesState, reported)
    ensures n == 0 ==> stop in {CancelledStop, TimeLimit, TokenLimit, SegmentBudget}
    ensures n > 0 ==>
      var t := turns[n - 1];
      var cancelled := t.cancelledAfter || (t.result.Some? && t.result.value.cancelled);
      var failed := t.err.Some? || t.result.None? || !(t.result.value.success || t.result.value.blocked);
      && (stop == BlockedStop <==>
           && !cancelled && !failed && t.result.value.blocked
           && t.result.value.stopReason != MaxBudgetTokens && t.result.value.stopReason != MaxTurns
           && (t.result.value.stopReason == LintExhausted ==> cfg.allowIncompletePlan || !t.planOpen))
      && (stop == Failing <==> !cancelled && failed && TrailingFailures(turns[..n]) >= cfg.maxConsecutiveFailures)
      && (stop == Finished <==>
           && !cancelled && !failed && !BlockedForGood(t.result.value, t.planOpen, cfg)
           && DoneForGood(t.result.value, t.planOpen, cfg))
      && (stop == Unproductive <==>
           && !cancelled && !failed && t.result.value.stopReason != MaxBudgetTokens
           && !BlockedForGood(t.result.value, t.planOpen, cfg) && !DoneForGood(t.result.value, t.planOpen, cfg)
           && IdleSegments(turns[..n], changesState) >= cfg.maxUnproductive)
      && (stop == TimeLimit <==>
           && Undecided(turns, n, cfg, changesState)
           && Gate(turns[..n], turns[n], cfg, Total(reported[..n])) == Some(TimeLimit))
      && (stop == SegmentBudget <==> n == cfg.maxSegments && Verdict(turns[..n], cfg, changesState).None?)
      && (stop == TokenLimit <==>
           || (!cancelled && !failed && t.result.value.stopReason == MaxBudgetTokens)
           || (&& Undecided(turns, n, cfg, changesState)
               && Gate(turns[..n], turns[n], cfg, Total(reported[..n])) == Some(TokenLimit)))
      && (stop == CancelledStop <==>
           || cancelled
           || (&& Undecided(turns, n, cfg, changesState)
               && Gate(turns[..n], turns[n], cfg, Total(reported[..n])) == Some(CancelledStop)))
  {
    hide Gate, Verdict, Total, TrailingFailures, IdleSegments, DoneForGood;
    if n > 0 {
      assert turns[..n][n - 1] == turns[n - 1];
      VerdictByFields(turns[..n], cfg, changesState);
    }
    if n < cfg.maxSegments {
      GateByFields(turns[..n], turns[n], cfg, Total(reported[..n]));
    }
  }

  /** The last segment gave no reason to stop, and there may be another. */
  predicate Undecided(turns: seq<Turn>, n: nat, cfg: Config, changesState: string -> bool)
    requires 0 < n <= |turns|
  {
    n < cfg.maxSegments && n < |turns| && Verdict(turns[..n], cfg, changesState).None?
  }

  /** A tool is known to have been used before exactly when some segment's result names it. */
  lemma {:induction false} ToolsByFields(h: seq<Turn>, name: string)
    ensures name in ToolsBefore(h) <==>
      exists i :: 0 <= i < |h| && h[i].result.Some? && name in h[i].result.value.toolsUsed
  {
    if h != [] {
      var n := |h| - 1;
      ToolsByFields(h[..n], name);
      assert forall i :: 0 <= i < n ==> h[..n][i] == h[i];
    }
  }

  /** What a run keeps of each segment, and what it started it with. */
  lemma RecordsByFields(turns: seq<Turn>, cfg: Config, changesState: string -> bool, reported: seq<Option<Tokens>>,
      segments: seq<Segment>, handed: seq<Handed>, k: nat)
    requires Recorded(turns, cfg, changesState, reported, segments, handed) && k < |segments|
    ensures var t := turns[k];
      var s := segments[k];
      && s.index == k && s.waited == handed[k].waited == Wait(turns[..k], t, cfg)
      && handed[k].budget == TokenBudget(cfg.maxTotalTokens, Total(reported[..k]))
      && handed[k].prior == ToolsBefore(turns[..k])
      && (t.result.Some? ==> s.text == t.result.value.text && s.stopReason == t.result.value.stopReason)
      && (t.result.None? ==> s.text == "" && !s.productive)
      && (t.result.Some? && t.result.value.error != "" ==> s.error == t.result.value.error)
      && ((t.result.None? || t.result.value.error == "") ==> s.error == (if t.err.Some? then t.err.value else ""))
      && (t.result.Some? ==> (s.productive <==>
           exists i :: 0 <= i < |t.result.value.toolsUsed| && changesState(t.result.value.toolsUsed[i])))
  {
    hide Wait, TokenBudget, Total, ToolsBefore;
  }

  /** A total adds up field by field; segments that report nothing add nothing. */
  lemma TotalByFields(reported: seq<Option<Tokens>>, next: Option<Tokens>)
    ensures Total([]).None?
    ensures next.None? ==> Total(reported + [next]) == Total(reported)
    ensures next.Some? && Total(reported).None? ==> Total(reported + [next]) == next
    ensures next.Some? && Total(reported).Some? ==>
      var a, b := Total(reported).value, next.value;
      Total(reported + [next]) == Some(Tokens(
        a.prompt + b.prompt, a.completion + b.completion, a.cached + b.cached, a.cacheWrite + b.cacheWrite))
  {
    assert (reported + [next])[..|reported|] == reported;
  }
}
