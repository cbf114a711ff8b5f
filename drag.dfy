/** The geometry of dragging the model: world-space vectors and the point a
    ray cast reports, if any. The ray casting itself belongs to the 3D engine
    and enters the model only through its result. */
module Drag {

  datatype Vec = Vec(x: real, y: real, z: real)

  const Origin: Vec := Vec(0.0, 0.0, 0.0)

  function Add(a: Vec, b: Vec): Vec {
    Vec(a.x + b.x, a.y + b.y, a.z + b.z)
  }

  function Sub(a: Vec, b: Vec): Vec {
    Vec(a.x - b.x, a.y - b.y, a.z - b.z)
  }

  /** The nearest point where a ray met its target, or a miss. */
  datatype Hit = Miss | HitAt(point: Vec)

  /** The point a plane intersection leaves in its target vector: the
      intersection, or the freshly allocated zero vector when the ray misses. */
  function PlanePoint(h: Hit): Vec {
    match h
    case Miss => Origin
    case HitAt(q) => q
  }

  /** Grabbing the model at `grab` (a point on its surface) records the offset
      grab - position; a move whose ray meets the plane z = 0 at `pointer` then
      places the model at pointer - offset, which is the old position shifted by
      pointer - grab. The two points come from different targets (the model's
      surface, the plane), so for the same pixel they differ whenever the grab
      point lies off the plane: the first move then shifts the model, in
      particular along z. Only a grab point on the plane moves it nowhere. */
  lemma FollowsPointer(position: Vec, grab: Vec, pointer: Vec)
    ensures Sub(pointer, Sub(grab, position)) == Add(position, Sub(pointer, grab))
    ensures pointer == grab ==> Sub(pointer, Sub(grab, position)) == position
    ensures pointer.z == 0.0 ==> Sub(pointer, Sub(grab, position)).z == position.z - grab.z
    ensures pointer.z == 0.0 && grab.z != 0.0 ==> Sub(pointer, Sub(grab, position)) != position
  {
  }
}
