/** The page's mutable state and its event handlers: the animation frame, the
    reset and start routines, the toggle key and the mouse drag, each changing
    the fields in place. Every timer-related method is specified by the
    matching function of module Timer applied to the snapshot of the fields. */
module App {
  import opened Phases
  import opened Timer
  import opened Drag

  class Viewer {
    var rotationState: Phase
    var cycleStartTime: int
    var lastColorChange: int
    var rotationY: real
    var background: Color
    const hasModel: bool
    ghost var audioPlaying: bool
    var dragging: bool
    var position: Vec
    var dragOffset: Vec

    /** The timer fields as one value. */
    ghost function Snapshot(): TimerState
      reads this
    {
      TimerState(rotationState, cycleStartTime, lastColorChange, rotationY, background, hasModel, audioPlaying)
    }

    /** The timer invariant, and a drag can only be under way on a loaded model. */
    ghost predicate Valid()
      reads this
    {
      Timer.Valid(Snapshot()) && (dragging ==> hasModel)
    }

    predicate DragUnchanged(oldDragging: bool, oldPosition: Vec, oldOffset: Vec)
      reads this
    {
      dragging == oldDragging && position == oldPosition && dragOffset == oldOffset
    }

    /** The page as loaded: idle, white background, no drag under way. */
    constructor (modelLoaded: bool)
      ensures Valid()
      ensures Snapshot() == Initial(modelLoaded)
      ensures !dragging && position == Origin && dragOffset == Origin
    {
      rotationState := Idle;
      cycleStartTime := 0;
      lastColorChange := 0;
      rotationY := 0.0;
      background := White;
      hasModel := modelLoaded;
      audioPlaying := false;
      dragging := false;
      position := Origin;
      dragOffset := Origin;
    }

    method ResetPattern()
      requires Valid()
      modifies this
      ensures Valid()
      ensures Snapshot() == Reset(old(Snapshot()))
      ensures rotationState == Idle && rotationY == 0.0 && background == White && cycleStartTime == 0
      ensures lastColorChange == old(lastColorChange)
      ensures DragUnchanged(old(dragging), old(position), old(dragOffset))
    {
      if hasModel {
        rotationY := 0.0;
      }
      rotationState := Idle;
      background := White;
      audioPlaying := false;
      cycleStartTime := 0;
    }

    /** `now` is the clock reading taken when the cycle starts. */
    method StartPattern(now: int)
      requires Valid()
      modifies this
      ensures Valid()
      ensures Snapshot() == Start(old(Snapshot()), now)
      ensures rotationState == ExtremeFast && cycleStartTime == now
      ensures DragUnchanged(old(dragging), old(position), old(dragOffset))
    {
      cycleStartTime := now;
      rotationState := ExtremeFast;
      audioPlaying := true;
    }

    method UpdateRotationState(now: int)
      requires Valid()
      modifies this
      ensures Valid()
      ensures Snapshot() == Update(old(Snapshot()), now)
      ensures old(rotationState) != Idle && now - old(cycleStartTime) < CycleDuration() ==>
        rotationState == PhaseAt(now - old(cycleStartTime))
      ensures DragUnchanged(old(dragging), old(position), old(dragOffset))
    {
      if rotationState == Idle {
        return;
      }
      var elapsedInCycle := now - cycleStartTime;
      if elapsedInCycle >= CycleDuration() {
        ResetPattern();
        return;
      }
      rotationState := PhaseAt(elapsedInCycle);
      if IsPause(rotationState) && hasModel {
        rotationY := 0.0;
      }
    }

    /** One animation frame at clock reading `now`; `randomColor` is the colour
        the frame installs if a background change fires. */
    method Animate(now: int, randomColor: Color)
      requires Valid()
      modifies this
      ensures Valid()
      ensures Snapshot() == Frame(old(Snapshot()), Tick(now, randomColor))
      ensures IsPause(rotationState) ==> rotationY == 0.0
      ensures lastColorChange != old(lastColorChange) ==>
        rotationState == FinalSpin && lastColorChange == now && background == randomColor
        && lastColorChange - old(lastColorChange) > ColorChangeInterval
      ensures DragUnchanged(old(dragging), old(position), old(dragOffset))
    {
      UpdateRotationState(now);
      if rotationState == FinalSpin && now - lastColorChange > ColorChangeInterval {
        background := randomColor;
        lastColorChange := now;
      }
      if hasModel {
        rotationY := rotationY + Speed(rotationState);
      }
    }

    /** A key press at clock reading `now`. */
    method KeyDown(key: string, now: int)
      requires Valid()
      modifies this
      ensures Valid()
      ensures Snapshot() == Timer.KeyDown(old(Snapshot()), key, now)
      ensures DragUnchanged(old(dragging), old(position), old(dragOffset))
    {
      if IsToggleKey(key) {
        if rotationState == Idle {
          StartPattern(now);
        } else {
          ResetPattern();
        }
      }
    }

    /** A mouse press whose ray meets the model's hierarchy first at `hit`, if
        at all. Without a loaded model the press changes nothing. */
    method MouseDown(hit: Hit)
      requires Valid()
      modifies this
      ensures Valid()
      ensures Snapshot() == old(Snapshot()) && position == old(position)
      ensures hasModel && hit.HitAt? ==> dragging && dragOffset == Sub(hit.point, position)
      ensures !(hasModel && hit.HitAt?) ==> dragging == old(dragging) && dragOffset == old(dragOffset)
    {
      if !hasModel {
        return;
      }
      if hit.HitAt? {
        dragging := true;
        dragOffset := Sub(hit.point, position);
      }
    }

    /** A mouse move whose ray meets the plane z = 0 at `onPlane`, if at all. */
    method MouseMove(onPlane: Hit)
      requires Valid()
      modifies this
      ensures Valid()
      ensures Snapshot() == old(Snapshot()) && dragging == old(dragging) && dragOffset == old(dragOffset)
      ensures dragging ==> position == Sub(PlanePoint(onPlane), dragOffset)
      ensures !dragging ==> position == old(position)
    {
      if !dragging {
        return;
      }
      var intersectPoint := PlanePoint(onPlane);
      position := Sub(intersectPoint, dragOffset);
    }

    method MouseUp()
      requires Valid()
      modifies this
      ensures Valid()
      ensures !dragging
      ensures Snapshot() == old(Snapshot()) && position == old(position) && dragOffset == old(dragOffset)
    {
      dragging := false;
    }
  }
}
