/**
 * Per-node animation state of the multi-line-to-square rotating view.
 *
 * A node rests at scale 0 or 1.  A start request from rest picks the
 * direction toward the other end; every update then steps the scale by
 * `UpdateValue(scale, dir, Lines, Lines)`; once the scale has travelled more
 * than one unit from where it rested, it snaps to the other end, the node
 * goes idle and one settle event carries the new resting scale.
 *
 * The source's callbacks are modelled as results: `update` reports the value
 * it would pass to its settle callback, `startUpdating` whether it would call
 * its start callback.
 */
module NodeAnimation {
  import opened ScaleMath

  datatype Option<T> = None | Some(value: T)

  /** The three fields of a State, as a value. */
  datatype StateValue = StateValue(scale: real, dir: real, prevScale: real)

  /** What one `update` does: the new fields and the settle callback's argument, if it fires. */
  datatype Tick = Tick(state: StateValue, settled: Option<real>)

  /** What one `startUpdating` does: the new fields and whether the start callback fires. */
  datatype Start = Start(state: StateValue, started: bool)

  /**
   * The node invariant: at rest at 0 or 1, or travelling from `prevScale` toward
   * the other end with `scale` in [0, 1].  It holds of the default
   * State(0, 0, 0) and both operations preserve it, so it holds of every state
   * they reach (which is narrower still: there the distance travelled is a
   * multiple of StepSize).
   */
  predicate Valid(v: StateValue) {
    (v.prevScale == 0.0 || v.prevScale == 1.0) &&
    (v.dir == 0.0 ==> v.scale == v.prevScale) &&
    (v.dir != 0.0 ==> v.dir == 1.0 - 2.0 * v.prevScale && 0.0 <= v.scale <= 1.0)
  }

  /** `State.update`. */
  function Advance(v: StateValue): (t: Tick)
    ensures t.settled.None? ==>
              t.state == v.(scale := v.scale + UpdateValue(v.scale, v.dir, Lines, Lines))
    ensures t.settled.Some? <==>
              Abs(v.scale + UpdateValue(v.scale, v.dir, Lines, Lines) - v.prevScale) > 1.0
    ensures t.settled.Some? ==>
              t.state.dir == 0.0 && t.state.scale == t.state.prevScale == t.settled.value
    ensures v.dir == 0.0 && v.scale == v.prevScale ==> t == Tick(v, None)
    ensures Valid(v) ==> Valid(t.state) && Abs(t.state.scale - t.state.prevScale) <= 1.0
    ensures Valid(v) && t.settled.Some? ==> v.dir != 0.0 && t.settled.value == 1.0 - v.prevScale
  {
    var stepped := v.scale + UpdateValue(v.scale, v.dir, Lines, Lines);
    if Abs(stepped - v.prevScale) > 1.0 then
      var target := v.prevScale + v.dir;
      Tick(StateValue(target, 0.0, target), Some(target))
    else
      Tick(v.(scale := stepped), None)
  }

  /** `State.startUpdating`. */
  function Begin(v: StateValue): (r: Start)
    ensures r.started <==> v.dir == 0.0
    ensures r.state.scale == v.scale && r.state.prevScale == v.prevScale
    ensures !r.started ==> r.state == v
    ensures r.started ==> r.state.dir == 1.0 - 2.0 * v.prevScale
    ensures Valid(v) && r.started && v.prevScale == 0.0 ==> r.state.dir == 1.0
    ensures Valid(v) && r.started && v.prevScale == 1.0 ==> r.state.dir == -1.0
    ensures Valid(v) ==> Valid(r.state)
  {
    if v.dir == 0.0 then Start(v.(dir := 1.0 - 2.0 * v.prevScale), true)
    else Start(v, false)
  }

  /** The states and the settle events that `k` successive updates produce. */
  datatype Trace = Trace(state: StateValue, settles: seq<real>)

  ghost function Run(v: StateValue, k: nat): (r: Trace)
    ensures Valid(v) ==> Valid(r.state)
    ensures |r.settles| <= k
    decreases k
  {
    if k == 0 then Trace(v, [])
    else
      var t := Advance(v);
      var rest := Run(t.state, k - 1);
      Trace(rest.state, (if t.settled.Some? then [t.settled.value] else []) + rest.settles)
  }

  /** The distance one update moves a node: 1/80 of a unit. */
  const StepSize: real := 0.0125

  /** The step is `scGap / lines`, so it follows the source's two constants. */
  lemma StepSizeValue()
    ensures StepSize == ScGap / (Lines as real)
  {
  }

  /** How far an animating node has moved from its resting scale. */
  ghost function Travelled(v: StateValue): (d: real)
    requires Valid(v) && v.dir != 0.0
    ensures 0.0 <= d <= 1.0
    ensures d == Abs(v.scale - v.prevScale)
  {
    if v.prevScale == 0.0 then v.scale else 1.0 - v.scale
  }

  /** The number of updates an animating node still needs until it settles. */
  ghost function TicksLeft(v: StateValue): (n: nat)
    requires Valid(v) && v.dir != 0.0
    ensures n >= 1
  {
    ((1.0 - Travelled(v)) / StepSize).Floor + 1
  }

  /** One update of an animating node that does not settle moves it by exactly one StepSize. */
  lemma AdvanceMovesOneStep(v: StateValue)
    requires Valid(v) && v.dir != 0.0
    ensures Advance(v).settled.None? <==> Travelled(v) + StepSize <= 1.0
    ensures Advance(v).settled.None? ==>
              Advance(v).state.dir == v.dir && Travelled(Advance(v).state) == Travelled(v) + StepSize
  {
    var u := UpdateValue(v.scale, v.dir, Lines, Lines);
    if v.prevScale == 0.0 {
      assert u == StepSize;
      assert Abs(v.scale + u - v.prevScale) == Travelled(v) + StepSize;
    } else {
      assert u == -StepSize;
      assert Abs(v.scale + u - v.prevScale) == Travelled(v) + StepSize;
    }
  }

  lemma FloorStepsDown(y: real)
    ensures (y - 1.0).Floor == y.Floor - 1
  {
  }

  /** An idle node stays put, however many updates arrive. */
  lemma {:induction false} IdleStaysIdle(v: StateValue, k: nat)
    requires Valid(v) && v.dir == 0.0
    ensures Run(v, k) == Trace(v, [])
    decreases k
  {
    if k > 0 {
      assert Advance(v) == Tick(v, None);
      IdleStaysIdle(v, k - 1);
    }
  }

  /** An update that does not settle uses up exactly one of the remaining ticks. */
  lemma StepCountsDown(v: StateValue)
    requires Valid(v) && v.dir != 0.0 && Advance(v).settled.None?
    ensures Advance(v).state.dir == v.dir && Advance(v).state.prevScale == v.prevScale
    ensures TicksLeft(Advance(v).state) == TicksLeft(v) - 1
  {
    AdvanceMovesOneStep(v);
    var t := Advance(v);
    FloorStepsDown((1.0 - Travelled(v)) / StepSize);
    assert (1.0 - Travelled(t.state)) / StepSize == (1.0 - Travelled(v)) / StepSize - 1.0;
  }

  /** With more than one tick left, the next update does not settle. */
  lemma NotLastTick(v: StateValue)
    requires Valid(v) && v.dir != 0.0 && TicksLeft(v) > 1
    ensures Advance(v).settled.None?
  {
    AdvanceMovesOneStep(v);
    assert (1.0 - Travelled(v)) / StepSize >= 1.0;
  }

  /** Before its last tick an animating node reports no settle and keeps its direction. */
  lemma {:induction false} QuietBeforeSettle(v: StateValue, k: nat)
    requires Valid(v) && v.dir != 0.0
    requires k < TicksLeft(v)
    ensures Run(v, k).settles == []
    ensures Run(v, k).state.dir == v.dir && Run(v, k).state.prevScale == v.prevScale
    decreases k
  {
    if k > 0 {
      NotLastTick(v);
      StepCountsDown(v);
      QuietBeforeSettle(Advance(v).state, k - 1);
    }
  }

  /**
   * Every animating node settles after exactly TicksLeft updates: it reports
   * one settle event, carrying the other resting scale, and is idle there.
   */
  lemma {:induction false} SettlesAfterTicksLeft(v: StateValue)
    requires Valid(v) && v.dir != 0.0
    ensures var p := 1.0 - v.prevScale;
            Run(v, TicksLeft(v)) == Trace(StateValue(p, 0.0, p), [p])
    decreases TicksLeft(v)
  {
    var t := Advance(v);
    var p := 1.0 - v.prevScale;
    if t.settled.Some? {
      if TicksLeft(v) > 1 {
        NotLastTick(v);
      }
      assert TicksLeft(v) == 1;
      assert Run(t.state, 0) == Trace(t.state, []);
      assert Run(v, 1) == Trace(t.state, [p]);
    } else {
      StepCountsDown(v);
      SettlesAfterTicksLeft(t.state);
      assert Run(v, TicksLeft(v)) == Run(t.state, TicksLeft(t.state));
    }
  }

  /** The state a start request from rest `v` produces: heading away from `v.prevScale`. */
  function Started(v: StateValue): StateValue
  {
    v.(dir := 1.0 - 2.0 * v.prevScale)
  }

  /**
   * From rest, a start request succeeds and the node then needs 81 updates
   * (80 steps of 1/80 reach a distance of exactly 1, which is not yet an
   * overshoot): the first 80 report nothing, and after the 81st the node has
   * settled once, at the other resting scale.
   */
  lemma StartThenSettle(v: StateValue)
    requires Valid(v) && v.dir == 0.0
    ensures Begin(v) == Start(Started(v), true)
    ensures TicksLeft(Started(v)) == 81
    ensures forall k :: 0 <= k < TicksLeft(Started(v)) ==> Run(Started(v), k).settles == []
    ensures var p := 1.0 - v.prevScale;
            Run(Started(v), TicksLeft(Started(v))) == Trace(StateValue(p, 0.0, p), [p])
  {
    // Each fact is proved on its own: a query that knows the count is the
    // literal 81 lets the solver unfold Run 81 times.
    FreshStartTicks(v);
    FreshStartQuiet(v);
    FreshStartSettles(v);
  }

  /** A start from rest succeeds, and the started node needs 81 updates. */
  lemma FreshStartTicks(v: StateValue)
    requires Valid(v) && v.dir == 0.0
    ensures Begin(v) == Start(Started(v), true)
    ensures TicksLeft(Started(v)) == 81
  {
    var s := Started(v);
    assert Travelled(s) == 0.0;
    assert (1.0 - Travelled(s)) / StepSize == 80.0;
  }

  /** After a start from rest, no update before the last one reports a settle. */
  lemma FreshStartQuiet(v: StateValue)
    requires Valid(v) && v.dir == 0.0
    ensures forall k :: 0 <= k < TicksLeft(Started(v)) ==> Run(Started(v), k).settles == []
  {
    forall k | 0 <= k < TicksLeft(Started(v))
      ensures Run(Started(v), k).settles == []
    {
      QuietBeforeSettle(Started(v), k);
    }
  }

  /** After a start from rest, the last update settles the node at the other end. */
  lemma FreshStartSettles(v: StateValue)
    requires Valid(v) && v.dir == 0.0
    ensures var p := 1.0 - v.prevScale;
            Run(Started(v), TicksLeft(Started(v))) == Trace(StateValue(p, 0.0, p), [p])
  {
    SettlesAfterTicksLeft(Started(v));
  }

  /** The data class `State`: three mutable fields and two operations. */
  class State {
    var scale: real
    var dir: real
    var prevScale: real

    /** The primary constructor, with the source's default of 0 for every field. */
    constructor (scale: real := 0.0, dir: real := 0.0, prevScale: real := 0.0)
      ensures Value() == StateValue(scale, dir, prevScale)
    {
      this.scale := scale;
      this.dir := dir;
      this.prevScale := prevScale;
    }

    function Value(): StateValue
      reads this
    {
      StateValue(scale, dir, prevScale)
    }

    /** Steps the scale; returns the settle callback's argument when it overshoots. */
    method Update() returns (settled: Option<real>)
      modifies this
      ensures Tick(Value(), settled) == Advance(old(Value()))
      ensures var stepped := old(scale) + UpdateValue(old(scale), old(dir), Lines, Lines);
              if Abs(stepped - old(prevScale)) > 1.0 then
                scale == old(prevScale) + old(dir) && dir == 0.0 && prevScale == scale &&
                settled == Some(prevScale)
              else
                scale == stepped && dir == old(dir) && prevScale == old(prevScale) &&
                settled == None
      ensures Valid(old(Value())) ==> Valid(Value())
    {
      scale := scale + UpdateValue(scale, dir, Lines, Lines);
      settled := None;
      if Abs(scale - prevScale) > 1.0 {
        scale := prevScale + dir;
        dir := 0.0;
        prevScale := scale;
        settled := Some(prevScale);
      }
    }

    /** Starts an animation from rest; returns whether the start callback fires. */
    method StartUpdating() returns (started: bool)
      modifies this
      ensures Start(Value(), started) == Begin(old(Value()))
      ensures started <==> old(dir) == 0.0
      ensures scale == old(scale) && prevScale == old(prevScale)
      ensures dir == if started then 1.0 - 2.0 * old(prevScale) else old(dir)
      ensures Valid(old(Value())) ==> Valid(Value())
    {
      started := dir == 0.0;
      if started {
        dir := 1.0 - 2.0 * prevScale;
      }
    }
  }

  /** The default State(0, 0, 0) is a valid resting state. */
  lemma DefaultIsValid()
    ensures Valid(StateValue(0.0, 0.0, 0.0))
  {
  }
}
