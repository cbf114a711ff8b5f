/** The timed rotation state machine as values: a snapshot of everything the
    animation loop, the reset/start routines and the toggle key read and write,
    and one function per operation giving the snapshot after it. The class in
    module App updates its fields in place and is specified by these. */
module Timer {
  import opened Phases

  /** A scene background: a hexadecimal RGB code or three channels in [0, 1). */
  datatype Color = Hex(code: int) | Channels(r: real, g: real, b: real)

  const White: Color := Hex(0xFFFFFF)

  /** One animation frame's inputs: the frame's clock reading and the random
      colour it would install if a background change fires. */
  datatype Tick = Tick(now: int, color: Color)

  datatype TimerState = TimerState(
    state: Phase,          // the current phase
    cycleStart: int,       // clock reading when the running cycle began, 0 when idle
    lastColorChange: int,  // clock reading of the last background change
    rotation: real,        // Y rotation of the model, meaningful only when hasModel
    background: Color,
    hasModel: bool,        // whether the 3D model has been loaded
    audioPlaying: bool     // whether playback was started more recently than paused
  )

  /** What the machine keeps true between operations: without a model there is no
      rotation; an idle machine has rotation 0, a white background, a cleared
      cycle start and stopped audio; audio plays while a cycle runs. */
  predicate Valid(t: TimerState) {
    (!t.hasModel ==> t.rotation == 0.0) &&
    (t.state == Idle ==> t.rotation == 0.0 && t.cycleStart == 0 && t.background == White && !t.audioPlaying) &&
    (t.state != Idle ==> t.audioPlaying)
  }

  /** The state before any event: the module-level initial values and the white scene background. */
  function Initial(hasModel: bool): (t: TimerState)
    ensures Valid(t) && t.state == Idle && t.hasModel == hasModel && t.lastColorChange == 0
  {
    TimerState(Idle, 0, 0, 0.0, White, hasModel, false)
  }

  /** Back to idle: rotation 0 (if there is a model), white background, audio
      stopped and rewound, cycle start cleared. The last colour change time is kept. */
  function Reset(t: TimerState): (r: TimerState)
    ensures Valid(t) ==> Valid(r)
  {
    t.(state := Idle,
       rotation := if t.hasModel then 0.0 else t.rotation,
       background := White,
       audioPlaying := false,
       cycleStart := 0)
  }

  /** Begin a cycle at clock reading `now`, with audio playing from the start. */
  function Start(t: TimerState, now: int): (r: TimerState)
    ensures Valid(t) ==> Valid(r)
  {
    t.(cycleStart := now, state := ExtremeFast, audioPlaying := true)
  }

  /** The phase change at clock reading `now`: nothing while idle, a reset once
      the whole cycle has elapsed, otherwise the phase for the elapsed time,
      with the rotation forced to 0 on landing in a pause. */
  function Update(t: TimerState, now: int): (r: TimerState)
    ensures Valid(t) ==> Valid(r)
  {
    if t.state == Idle then t
    else
      var elapsed := now - t.cycleStart;
      if elapsed >= CycleDuration() then Reset(t)
      else
        var p := PhaseAt(elapsed);
        t.(state := p, rotation := if IsPause(p) && t.hasModel then 0.0 else t.rotation)
  }

  /** Whether a frame at `now` changes the background, judged after the phase update. */
  predicate Fires(u: TimerState, now: int) {
    u.state == FinalSpin && now - u.lastColorChange > ColorChangeInterval
  }

  /** One animation frame: the phase update, then a background change at most
      once per interval in the final spin, then the current phase's speed
      added to the rotation. */
  function Frame(t: TimerState, tick: Tick): (r: TimerState)
    ensures Valid(t) ==> Valid(r)
  {
    var u := Update(t, tick.now);
    var c := if Fires(u, tick.now) then u.(background := tick.color, lastColorChange := tick.now) else u;
    if c.hasModel then c.(rotation := c.rotation + Speed(c.state)) else c
  }

  /** The key that toggles the animation, in either case. */
  predicate IsToggleKey(key: string) {
    key == "r" || key == "R"
  }

  /** A key press at clock reading `now`: the toggle key starts a cycle when
      idle and resets otherwise; every other key is ignored. */
  function KeyDown(t: TimerState, key: string, now: int): (r: TimerState)
    ensures Valid(t) ==> Valid(r)
  {
    if IsToggleKey(key) then
      if t.state == Idle then Start(t, now) else Reset(t)
    else t
  }

  /** A frame's phase, cycle start and last change time, in terms of the phase update alone. */
  lemma FrameBookkeeping(t: TimerState, tick: Tick)
    ensures Frame(t, tick).state == Update(t, tick.now).state
    ensures Frame(t, tick).cycleStart == Update(t, tick.now).cycleStart
    ensures Update(t, tick.now).lastColorChange == t.lastColorChange
    ensures Frame(t, tick).lastColorChange ==
      if Fires(Update(t, tick.now), tick.now) then tick.now else t.lastColorChange
  {
  }

  /** A running cycle whose full duration has elapsed resets to the idle state. */
  lemma UpdatePastCycleResets(t: TimerState, now: int)
    requires t.state != Idle && now - t.cycleStart >= 45000
    ensures Update(t, now).state == Idle
    ensures t.hasModel ==> Update(t, now).rotation == 0.0
    ensures Update(t, now).background == White && Update(t, now).cycleStart == 0
    ensures !Update(t, now).audioPlaying
    ensures Update(t, now).lastColorChange == t.lastColorChange
  {
  }

  /** While idle, a frame changes nothing at all, whatever its time and colour. */
  lemma IdleFrameIsNoOp(t: TimerState, tick: Tick)
    requires t.state == Idle
    ensures Frame(t, tick) == t
  {
  }

  /** Within a running cycle, a frame moves the machine to the phase whose window holds the elapsed time. */
  lemma FrameFollowsWindows(t: TimerState, tick: Tick)
    requires t.state != Idle && 0 <= tick.now - t.cycleStart < CycleDuration()
    ensures var p := Frame(t, tick).state;
      p != Idle && WindowStart(p) <= tick.now - t.cycleStart < WindowEnd(p)
  {
  }

  /** A frame that lands in a pause leaves the rotation at exactly 0, whatever had accumulated. */
  lemma PauseZeroesRotation(t: TimerState, tick: Tick)
    requires Valid(t)
    requires IsPause(Frame(t, tick).state)
    ensures Frame(t, tick).rotation == 0.0
  {
  }

  /** In a spinning phase of a running cycle, a frame adds exactly that phase's speed to the rotation. */
  lemma SpinAccumulates(t: TimerState, tick: Tick)
    requires t.hasModel && t.state != Idle
    requires Frame(t, tick).state != Idle && !IsPause(Frame(t, tick).state)
    ensures Frame(t, tick).rotation == t.rotation + Speed(Frame(t, tick).state)
    ensures Frame(t, tick).rotation > t.rotation
  {
  }

  /** Starting a cycle and running a frame at the same instant gives the first phase at speed 0.6. */
  lemma StartThenFrame(t: TimerState, now: int, color: Color)
    requires Valid(t) && t.state == Idle
    ensures Frame(Start(t, now), Tick(now, color)).state == ExtremeFast
    ensures t.hasModel ==> Frame(Start(t, now), Tick(now, color)).rotation == 0.6
  {
  }

  /** The background changes only through a colour change in the final spin or
      through the reset at the end of the cycle; the last change time moves
      exactly when a change fires, and then by more than the interval. */
  lemma BackgroundChanges(t: TimerState, tick: Tick)
    ensures var r := Frame(t, tick);
      r.background != t.background ==>
        (r.state == FinalSpin && r.background == tick.color) || (r.state == Idle && r.background == White)
    ensures var r := Frame(t, tick);
      r.lastColorChange != t.lastColorChange <==>
        (r.state == FinalSpin && tick.now - t.lastColorChange > ColorChangeInterval)
    ensures var r := Frame(t, tick);
      r.lastColorChange != t.lastColorChange ==>
        r.lastColorChange == tick.now && r.background == tick.color
    ensures var r := Frame(t, tick);
      r.background != t.background && r.state != Idle ==>
        tick.now - t.lastColorChange > ColorChangeInterval && r.lastColorChange == tick.now
  {
  }

  /** The toggle key starts a cycle from idle, touching nothing but the phase,
      the cycle start and the audio; from any other phase it resets, keeping
      the last colour change time. Other keys leave the state untouched. */
  lemma KeyToggles(t: TimerState, key: string, now: int)
    ensures IsToggleKey(key) && t.state == Idle ==>
      KeyDown(t, key, now) == t.(state := ExtremeFast, cycleStart := now, audioPlaying := true)
    ensures IsToggleKey(key) && t.state != Idle ==>
      KeyDown(t, key, now).state == Idle && KeyDown(t, key, now).cycleStart == 0
      && KeyDown(t, key, now).background == White && !KeyDown(t, key, now).audioPlaying
      && KeyDown(t, key, now).lastColorChange == t.lastColorChange
      && (t.hasModel ==> KeyDown(t, key, now).rotation == 0.0)
      && KeyDown(t, key, now).hasModel == t.hasModel
    ensures !IsToggleKey(key) ==> KeyDown(t, key, now) == t
  {
  }

  /** Pressing the toggle key twice from idle puts everything back exactly as it was. */
  lemma ToggleTwiceFromIdle(t: TimerState, now1: int, now2: int)
    requires Valid(t) && t.state == Idle
    ensures KeyDown(KeyDown(t, "r", now1), "R", now2) == t
  {
  }
}
