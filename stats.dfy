/**
 * The hero statistics and skill bars: the width a skill bar is given when it
 * comes into view, and the one-shot start of the counter animations.
 */
module Stats {
  import opened Wrappers

  /** `Math.max(0, Math.min(100, level))` on integer levels. */
  function Clamp(level: int): (w: int)
    ensures 0 <= w <= 100
    ensures 0 <= level <= 100 ==> w == level
    ensures level < 0 ==> w == 0
    ensures level > 100 ==> w == 100
  {
    if level < 0 then 0 else if level > 100 then 100 else level
  }

  /** Clamping a clamped width changes nothing. */
  lemma ClampIdempotent(level: int)
    ensures Clamp(Clamp(level)) == Clamp(level)
  {
  }

  /** A higher level never gives a narrower bar. */
  lemma ClampMonotone(a: int, b: int)
    requires a <= b
    ensures Clamp(a) <= Clamp(b)
  {
  }

  /**
   * The width percentage of a skill bar from its `data-level`: `None` stands
   * for an absent or empty attribute, which `|| 0` turns into 0.
   */
  function BarWidth(level: Option<int>): (w: int)
    ensures 0 <= w <= 100
    ensures level.None? ==> w == 0
    ensures level.Some? && 0 <= level.value <= 100 ==> w == level.value
    ensures level.Some? ==> w == Clamp(level.value)
  {
    Clamp(level.GetOr(0))
  }

  /** The counter trigger: the `countersStarted` flag and the observer on the hero card. */
  class CounterTrigger {
    var started: bool          // countersStarted
    var observing: bool        // the observer is still connected
    var launched: seq<seq<int>>  // the target lists of every count-up launch so far

    /** The animations have been launched at most once, and exactly once when the flag is set. */
    ghost predicate OneShot()
      reads this
    {
      && |launched| <= 1
      && (started <==> |launched| == 1)
      && (started ==> !observing)
    }

    constructor ()
      ensures OneShot() && !started && observing && launched == []
    {
      started := false;
      observing := true;
      launched := [];
    }

    /**
     * The observer callback, given each entry's `isIntersecting` and the
     * counters' targets: on the first visible notification, set the flag,
     * launch every counter and disconnect; otherwise do nothing.
     */
    method OnEntries(entries: seq<bool>, targets: seq<int>)
      requires OneShot()
      modifies this
      ensures OneShot()
      ensures (exists i :: 0 <= i < |entries| && entries[i]) && !old(started) ==>
        started && launched == [targets] && !observing
      ensures !(exists i :: 0 <= i < |entries| && entries[i]) || old(started) ==> unchanged(this)
    {
      var visible := exists i :: 0 <= i < |entries| && entries[i];
      if !visible || started {
        return;
      }
      started := true;
      launched := launched + [targets];  // animateCounter for each counter
      observing := false;                // disconnect
    }
  }

  /** However many notifications follow the first launch, the counters are never launched again. */
  method RepeatedTriggers(c: CounterTrigger, entries: seq<bool>, targets: seq<int>, more: seq<bool>)
    requires c.OneShot() && !c.started
    requires exists i :: 0 <= i < |entries| && entries[i]
    modifies c
    ensures c.OneShot() && c.launched == [targets]
  {
    c.OnEntries(entries, targets);
    c.OnEntries(more, targets);
    c.OnEntries(entries, []);
  }
}
