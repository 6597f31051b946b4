/** The attractors of the space-colonisation algorithm (class `Point`). */
module Attractors {
  import opened Vectors

  /** An attractor: a fixed position and the flag set once a segment captures it. */
  datatype Point = Point(pos: Vec3, reached: bool)

  function Abs(r: real): real
  {
    if r < 0.0 then -r else r
  }

  /**
   * The volume `random.uniform` draws attractors from: x and z between -area and
   * area (in either order, as `uniform` accepts), y between 0 and 40.
   */
  predicate InSpawnVolume(p: Vec3, area: real)
  {
    InBox(p, Vec3(-Abs(area), 0.0, -Abs(area)), Vec3(Abs(area), 40.0, Abs(area)))
  }

  /** `Point.__init__`: an unreached attractor at the drawn position `sample`. */
  function NewPoint(area: real, sample: Vec3): (p: Point)
    requires InSpawnVolume(sample, area)
    ensures !p.reached && p.pos == sample
    ensures -Abs(area) <= p.pos.x <= Abs(area) && 0.0 <= p.pos.y <= 40.0 && -Abs(area) <= p.pos.z <= Abs(area)
  {
    Point(sample, false)
  }
}
