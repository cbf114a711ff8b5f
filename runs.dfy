/** Runs of consecutive animation frames with no key press in between, and what
    holds over any number of them: an idle machine stays idle, background
    changes are spaced by more than the interval, and the phase only moves
    forward through the cycle until the cycle ends. */
module Runs {
  import opened Phases
  import opened Timer

  /** The state after running the frames in order. */
  function Run(t: TimerState, ticks: seq<Tick>): TimerState
    decreases |ticks|
  {
    if |ticks| == 0 then t else Run(Frame(t, ticks[0]), ticks[1..])
  }

  /** The phase after each of the frames. */
  function States(t: TimerState, ticks: seq<Tick>): (ss: seq<Phase>)
    ensures |ss| == |ticks|
    decreases |ticks|
  {
    if |ticks| == 0 then [] else [Frame(t, ticks[0]).state] + States(Frame(t, ticks[0]), ticks[1..])
  }

  /** The clock readings of the frames that changed the background colour, in order. */
  function FireTimes(t: TimerState, ticks: seq<Tick>): seq<int>
    decreases |ticks|
  {
    if |ticks| == 0 then []
    else
      var u := Update(t, ticks[0].now);
      (if Fires(u, ticks[0].now) then [ticks[0].now] else []) + FireTimes(Frame(t, ticks[0]), ticks[1..])
  }

  lemma {:induction false} RunKeepsValid(t: TimerState, ticks: seq<Tick>)
    requires Valid(t)
    ensures Valid(Run(t, ticks))
    decreases |ticks|
  {
    if |ticks| > 0 {
      RunKeepsValid(Frame(t, ticks[0]), ticks[1..]);
    }
  }

  /** An idle machine is unchanged by any number of frames. */
  lemma {:induction false} IdleRunIsNoOp(t: TimerState, ticks: seq<Tick>)
    requires t.state == Idle
    ensures Run(t, ticks) == t
    decreases |ticks|
  {
    if |ticks| > 0 {
      IdleFrameIsNoOp(t, ticks[0]);
      IdleRunIsNoOp(Frame(t, ticks[0]), ticks[1..]);
    }
  }

  /** After a reset, any number of frames keeps the machine idle, unrotated and white. */
  lemma ResetThenRun(t: TimerState, ticks: seq<Tick>)
    requires Valid(t)
    ensures Run(Reset(t), ticks).state == Idle
    ensures Run(Reset(t), ticks).rotation == 0.0
    ensures Run(Reset(t), ticks).background == White
  {
    IdleRunIsNoOp(Reset(t), ticks);
  }

  /** Each time comes more than the colour change interval after `from` and
      after every earlier time in the list. */
  predicate SpacedAfter(fs: seq<int>, from: int) {
    (forall i :: 0 <= i < |fs| ==> fs[i] - from > ColorChangeInterval) &&
    (forall i, j :: 0 <= i < j < |fs| ==> fs[j] - fs[i] > ColorChangeInterval)
  }

  lemma SpacedCons(n: int, from: int, rest: seq<int>)
    requires n - from > ColorChangeInterval && SpacedAfter(rest, n)
    ensures SpacedAfter([n] + rest, from)
  {
    var fs := [n] + rest;
    forall i | 0 <= i < |fs|
      ensures fs[i] - from > ColorChangeInterval
    {
      if i > 0 {
        assert fs[i] == rest[i - 1];
      }
    }
    forall i, j | 0 <= i < j < |fs|
      ensures fs[j] - fs[i] > ColorChangeInterval
    {
      assert fs[j] == rest[j - 1];
      if i > 0 {
        assert fs[i] == rest[i - 1];
      }
    }
  }

  /** Every background change in a run comes more than the interval after the
      previous one, and the first more than the interval after the last change
      before the run. */
  lemma {:induction false} FireTimesSpaced(t: TimerState, ticks: seq<Tick>)
    ensures SpacedAfter(FireTimes(t, ticks), t.lastColorChange)
    decreases |ticks|
  {
    if |ticks| > 0 {
      var now := ticks[0].now;
      var t' := Frame(t, ticks[0]);
      FrameBookkeeping(t, ticks[0]);
      FireTimesSpaced(t', ticks[1..]);
      var rest := FireTimes(t', ticks[1..]);
      if Fires(Update(t, now), now) {
        assert FireTimes(t, ticks) == [now] + rest;
        SpacedCons(now, t.lastColorChange, rest);
      } else {
        assert FireTimes(t, ticks) == rest;
      }
    }
  }

  /** The last change time after a run is that of the run's last background
      change, or the one before the run if none fired. */
  lemma {:induction false} RunLastColorChange(t: TimerState, ticks: seq<Tick>)
    ensures var fs := FireTimes(t, ticks);
      Run(t, ticks).lastColorChange == if |fs| == 0 then t.lastColorChange else fs[|fs| - 1]
    decreases |ticks|
  {
    if |ticks| > 0 {
      var now := ticks[0].now;
      var t' := Frame(t, ticks[0]);
      FrameBookkeeping(t, ticks[0]);
      RunLastColorChange(t', ticks[1..]);
      var rest := FireTimes(t', ticks[1..]);
      if Fires(Update(t, now), now) {
        assert FireTimes(t, ticks) == [now] + rest;
      } else {
        assert FireTimes(t, ticks) == rest;
      }
    }
  }

  /** Phase order along a run: idle comes after everything (a cycle ends by
      resetting), and otherwise phases are ordered by their place in the cycle. */
  predicate NotBefore(a: Phase, b: Phase) {
    b == Idle || (a != Idle && Ordinal(a) <= Ordinal(b))
  }

  lemma NotBeforeTransitive(a: Phase, b: Phase, c: Phase)
    requires NotBefore(a, b) && NotBefore(b, c)
    ensures NotBefore(a, c)
  {
  }

  /** A running cycle's phase is no later than the phase its elapsed time at `time` calls for. */
  predicate InCycle(t: TimerState, time: int) {
    t.state != Idle ==>
      time - t.cycleStart < CycleDuration() && Ordinal(t.state) <= Ordinal(PhaseAt(time - t.cycleStart))
  }

  /** A freshly started cycle is in step with its start time. */
  lemma StartInCycle(t: TimerState, now: int)
    ensures InCycle(Start(t, now), now)
  {
  }

  /** One frame no earlier than `time` keeps the machine in step and never moves the phase backwards. */
  lemma FrameInCycle(t: TimerState, time: int, tick: Tick)
    requires InCycle(t, time) && time <= tick.now
    ensures InCycle(Frame(t, tick), tick.now)
    ensures NotBefore(t.state, Frame(t, tick).state)
  {
    FrameBookkeeping(t, tick);
    if t.state != Idle && tick.now - t.cycleStart < CycleDuration() {
      PhaseAtMonotone(time - t.cycleStart, tick.now - t.cycleStart);
    }
  }

  predicate NonDecreasing(ticks: seq<Tick>) {
    forall i, j :: 0 <= i < j < |ticks| ==> ticks[i].now <= ticks[j].now
  }

  /** For frames with non-decreasing clock readings, the phase never moves
      backwards through the cycle, and once idle (the cycle has ended) it stays
      idle; in particular it leaves the final spin only for idle. */
  lemma {:induction false} RunPhasesOrdered(t: TimerState, time: int, ticks: seq<Tick>)
    requires InCycle(t, time)
    requires NonDecreasing(ticks)
    requires forall i :: 0 <= i < |ticks| ==> time <= ticks[i].now
    ensures var ss := States(t, ticks);
      forall i :: 0 <= i < |ss| ==> NotBefore(t.state, ss[i])
    ensures var ss := States(t, ticks);
      forall i, j :: 0 <= i < j < |ss| ==> NotBefore(ss[i], ss[j])
    decreases |ticks|
  {
    if |ticks| > 0 {
      var t' := Frame(t, ticks[0]);
      FrameInCycle(t, time, ticks[0]);
      RunPhasesOrdered(t', ticks[0].now, ticks[1..]);
      var ss := States(t, ticks);
      assert ss == [t'.state] + States(t', ticks[1..]);
      forall i | 0 <= i < |ss|
        ensures NotBefore(t.state, ss[i])
      {
        if i > 0 {
          NotBeforeTransitive(t.state, t'.state, ss[i]);
        }
      }
      forall i, j | 0 <= i < j < |ss|
        ensures NotBefore(ss[i], ss[j])
      {
        if i > 0 {
          assert ss[i] == States(t', ticks[1..])[i - 1];
        }
      }
    }
  }
}
