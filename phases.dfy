/** The rotation phases of the spinning-cat animation and the fixed timing
    table that drives them: a rotation speed per animation frame and a
    duration in milliseconds for each phase. */
module Phases {

  datatype Phase = Idle | ExtremeFast | Pause1 | MediumFast | Pause2 | FinalSpin

  /** Radians added to the model's Y rotation on every animation frame. */
  function Speed(p: Phase): real {
    match p
    case Idle => 0.0
    case ExtremeFast => 0.6
    case Pause1 => 0.0
    case MediumFast => 0.2
    case Pause2 => 0.0
    case FinalSpin => 0.8
  }

  /** How long the phase lasts within a cycle, in milliseconds. */
  function Duration(p: Phase): nat {
    match p
    case Idle => 0
    case ExtremeFast => 2000
    case Pause1 => 1000
    case MediumFast => 2000
    case Pause2 => 1000
    case FinalSpin => 39000
  }

  /** Minimum spacing, in milliseconds, between two background colour changes. */
  const ColorChangeInterval: int := 100

  predicate IsPause(p: Phase) {
    p == Pause1 || p == Pause2
  }

  /** The non-idle phases in the order one cycle runs through them. */
  const CycleOrder: seq<Phase> := [ExtremeFast, Pause1, MediumFast, Pause2, FinalSpin]

  /** Position of a phase in the cycle, counting from 1; idle stands before the cycle, at 0. */
  function Ordinal(p: Phase): (n: nat)
    ensures n <= |CycleOrder|
    ensures n == 0 <==> p == Idle
    ensures p != Idle ==> CycleOrder[n - 1] == p
  {
    match p
    case Idle => 0
    case ExtremeFast => 1
    case Pause1 => 2
    case MediumFast => 3
    case Pause2 => 4
    case FinalSpin => 5
  }

  /** Time from the start of a cycle to the end of its first i phases. */
  function Offset(i: nat): nat
    requires i <= |CycleOrder|
  {
    if i == 0 then 0 else Offset(i - 1) + Duration(CycleOrder[i - 1])
  }

  /** The half-open window [WindowStart(p), WindowEnd(p)) of elapsed cycle time that belongs to p. */
  function WindowStart(p: Phase): nat
    requires p != Idle
  {
    Offset(Ordinal(p) - 1)
  }

  function WindowEnd(p: Phase): nat
    requires p != Idle
  {
    Offset(Ordinal(p))
  }

  /** The cumulative offsets of the cycle, phase by phase. */
  lemma {:induction false} OffsetValues()
    ensures Offset(1) == 2000 && Offset(2) == 3000 && Offset(3) == 5000
    ensures Offset(4) == 6000 && Offset(5) == 45000
  {
    assert Offset(1) == 2000;
    assert Offset(2) == 3000;
    assert Offset(3) == 5000;
    assert Offset(4) == 6000;
  }

  /** Length of a full cycle, summed over the five non-idle phases. */
  function CycleDuration(): (d: nat)
    ensures d == Offset(|CycleOrder|)
    ensures d == 45000
  {
    OffsetValues();
    Duration(ExtremeFast) + Duration(Pause1) + Duration(MediumFast) + Duration(Pause2) + Duration(FinalSpin)
  }

  /** The phase an active cycle is in once `elapsed` milliseconds have passed
      since it started: the first phase whose cumulative end lies beyond
      `elapsed`. A time before the cycle start falls into the first phase. */
  function PhaseAt(elapsed: int): (p: Phase)
    requires elapsed < CycleDuration()
    ensures p != Idle
    ensures elapsed >= 0 ==> WindowStart(p) <= elapsed < WindowEnd(p)
    ensures elapsed < 0 ==> p == ExtremeFast
  {
    if elapsed < Duration(ExtremeFast) then ExtremeFast
    else if elapsed < Duration(ExtremeFast) + Duration(Pause1) then Pause1
    else if elapsed < Duration(ExtremeFast) + Duration(Pause1) + Duration(MediumFast) then MediumFast
    else if elapsed < Duration(ExtremeFast) + Duration(Pause1) + Duration(MediumFast) + Duration(Pause2) then Pause2
    else FinalSpin
  }

  /** Cumulative offsets never decrease along the cycle. */
  lemma {:induction false} OffsetMonotone(i: nat, j: nat)
    requires i <= j <= |CycleOrder|
    ensures Offset(i) <= Offset(j)
    decreases j - i
  {
    if i < j {
      OffsetMonotone(i, j - 1);
    }
  }

  /** The windows of two different phases do not overlap. */
  lemma WindowsDisjoint(p: Phase, q: Phase)
    requires p != Idle && q != Idle && p != q
    ensures WindowEnd(p) <= WindowStart(q) || WindowEnd(q) <= WindowStart(p)
  {
    if Ordinal(p) < Ordinal(q) {
      OffsetMonotone(Ordinal(p), Ordinal(q) - 1);
    } else {
      OffsetMonotone(Ordinal(q), Ordinal(p) - 1);
    }
  }

  /** Within a cycle, a phase is chosen exactly when the elapsed time lies in its
      half-open window: the windows partition [0, CycleDuration()). */
  lemma PhaseAtWindow(elapsed: int, p: Phase)
    requires 0 <= elapsed < CycleDuration()
    requires p != Idle
    ensures PhaseAt(elapsed) == p <==> WindowStart(p) <= elapsed < WindowEnd(p)
  {
    var q := PhaseAt(elapsed);
    if q != p {
      WindowsDisjoint(p, q);
    }
  }

  /** The windows spelled out in milliseconds. */
  lemma PhaseWindows(elapsed: int)
    requires 0 <= elapsed < CycleDuration()
    ensures PhaseAt(elapsed) == ExtremeFast <==> elapsed < 2000
    ensures PhaseAt(elapsed) == Pause1 <==> 2000 <= elapsed < 3000
    ensures PhaseAt(elapsed) == MediumFast <==> 3000 <= elapsed < 5000
    ensures PhaseAt(elapsed) == Pause2 <==> 5000 <= elapsed < 6000
    ensures PhaseAt(elapsed) == FinalSpin <==> 6000 <= elapsed < 45000
  {
  }

  /** As elapsed time grows within a cycle, the phase never moves backwards. */
  lemma PhaseAtMonotone(e1: int, e2: int)
    requires e1 <= e2 < CycleDuration()
    ensures Ordinal(PhaseAt(e1)) <= Ordinal(PhaseAt(e2))
  {
    if e1 >= 0 {
      var p, q := PhaseAt(e1), PhaseAt(e2);
      if Ordinal(q) < Ordinal(p) {
        OffsetMonotone(Ordinal(q), Ordinal(p) - 1);
      }
    }
  }
}
