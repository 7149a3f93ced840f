/** The compaction threshold of a model's context window (pkg/agent/compaction.go:53-95).
    Shares are exact here: float rounding is not modelled. */
module Threshold {

  const WINDOW_FLOOR: int := 64000

  /** The output reserve, at most a quarter of the window. */
  function Reserve(window: int, maxOutput: int): (r: int)
    requires window > 0
  {
    var out := if maxOutput < 0 then 0 else maxOutput;
    if out > window / 4 then window / 4 else out
  }

  /** CompactionThresholdForWindow; 0 when the window is unknown. */
  function ForWindow(window: int, maxOutput: int): (t: int) {
    if window <= 0 then 0
    else
      var usable := (window - Reserve(window, maxOutput)) as real;
      var small := usable * 0.8;
      var least := if small < WINDOW_FLOOR as real then small else WINDOW_FLOOR as real;
      var half := usable * 0.5;
      (if half < least then least else half).Floor
  }

  /** A smaller window never compacts later than a larger one. */
  lemma RisesWithWindow(small: int, large: int, maxOutput: int)
    requires small <= large
    ensures ForWindow(small, maxOutput) <= ForWindow(large, maxOutput)
  {
    if 0 < small {
      assert small - Reserve(small, maxOutput) <= large - Reserve(large, maxOutput);
    }
  }

  /** The reserve is what the model may answer, up to a quarter of the window. */
  lemma ReserveMeaning(window: int, maxOutput: int)
    requires window > 0
    ensures var reserve := Reserve(window, maxOutput);
      && (maxOutput <= 0 ==> reserve == 0)
      && (0 < maxOutput && 4 * maxOutput <= window ==> reserve == maxOutput)
      && (4 * maxOutput > window ==> 4 * reserve <= window < 4 * (reserve + 1))
  {
  }

  /** What the threshold is: half of the usable window once that is 64k or more, 64k from
      where 80% of it reaches that, and 80% of it below; nothing for an unknown window. */
  lemma ThresholdByWindow(window: int, maxOutput: int)
    ensures window <= 0 ==> ForWindow(window, maxOutput) == 0
    ensures window > 0 ==>
      var usable := window - Reserve(window, maxOutput);
      var t := ForWindow(window, maxOutput);
      && (usable >= 128000 ==> 2 * t <= usable < 2 * (t + 1))
      && (80000 <= usable < 128000 ==> t == 64000)
      && (usable < 80000 ==> 10 * t <= 8 * usable < 10 * (t + 1))
  {
    if window > 0 {
      var usable := window - Reserve(window, maxOutput);
      hide Reserve;
      if usable < 80000 {
        assert ForWindow(window, maxOutput) == (usable as real * 0.8).Floor;
      } else if usable < 128000 {
        assert ForWindow(window, maxOutput) == 64000;
      } else {
        assert ForWindow(window, maxOutput) == (usable as real * 0.5).Floor;
      }
    }
  }

  /** At most 80% of the usable window, so the reserve is always free; and never below
      64k when 80% of the usable window reaches that. */
  lemma LeavesTheReserve(window: int, maxOutput: int)
    requires window > 0
    ensures var usable := window - Reserve(window, maxOutput);
      var t := ForWindow(window, maxOutput);
      && 0 <= t && 10 * t <= 8 * usable && t + Reserve(window, maxOutput) <= window
      && (8 * usable >= 10 * WINDOW_FLOOR ==> t >= WINDOW_FLOOR)
      && (8 * usable < 10 * WINDOW_FLOOR ==> 10 * (t + 1) > 8 * usable)
  {
  }
}
