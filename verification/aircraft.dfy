/** The aircraft entity: its record, its construction and its one-tick kinematics. */
module Aircrafts {
  import opened Geometry
  import opened Settings

  /** The target an aircraft flies to. */
  datatype Goal = Goal(position: Vec)

  /**
   * One aircraft. `conflictIdSet` holds the ids of the intruders currently
   * closer than the minimum separation; `reward` is overwritten every tick.
   */
  datatype Aircraft = Aircraft(
    id: nat,
    position: Vec,
    speed: real,
    heading: real,
    velocity: Vec,
    goal: Goal,
    conflictIdSet: set<nat>,
    reward: real)

  /**
   * The constructor. The velocity is computed from the requested heading,
   * and only afterwards is the heading replaced by the bearing to the goal.
   */
  function NewAircraft(id: nat, position: Vec, speed: real, heading: real, goalPos: Vec, num: Numerics): (a: Aircraft)
    ensures a.id == id && a.position == position && a.speed == speed && a.goal == Goal(goalPos)
    ensures a.heading == num.bearing(Minus(goalPos, position))
    ensures a.velocity == num.polar(speed, heading)
    ensures a.conflictIdSet == {} && a.reward == 0.0
  {
    Aircraft(id, position, speed, num.bearing(Minus(goalPos, position)), num.polar(speed, heading),
             Goal(goalPos), {}, 0.0)
  }

  /** Whatever heading is requested, a new aircraft points at its goal. */
  lemma HeadingOverride(id: nat, position: Vec, speed: real, h1: real, h2: real, goalPos: Vec, num: Numerics)
    ensures NewAircraft(id, position, speed, h1, goalPos, num).heading
         == NewAircraft(id, position, speed, h2, goalPos, num).heading
         == num.bearing(Minus(goalPos, position))
  {
  }

  /** max(lo, min(v, hi)): the projection of the speed onto the configured range. */
  function SoftClamp(v: real, lo: real, hi: real): (r: real)
    ensures lo <= hi ==> lo <= r <= hi
    ensures lo <= v <= hi ==> r == v
    ensures v < lo ==> r == lo
    ensures lo <= hi < v ==> r == hi
    ensures hi < lo ==> r == lo
  {
    var m := if v <= hi then v else hi;
    if lo >= m then lo else m
  }

  /** Projecting twice projects once. */
  lemma SoftClampIdempotent(v: real, lo: real, hi: real)
    ensures SoftClamp(SoftClamp(v, lo, hi), lo, hi) == SoftClamp(v, lo, hi)
  {
  }

  /** The heading change for action `a`: 0 turns left, 1 holds, 2 turns right. */
  function HeadingDelta(a: int, dHeading: real): (r: real)
    ensures a == 1 ==> r == 0.0
    ensures a == 0 ==> r == -dHeading
    ensures a == 2 ==> r == dHeading
  {
    (a - 1) as real * dHeading
  }

  /** Mirrored actions turn by opposite amounts. */
  lemma HeadingDeltaMirrors(a: int, dHeading: real)
    ensures HeadingDelta(2 - a, dHeading) == -HeadingDelta(a, dHeading)
  {
  }

  /**
   * One tick: clamp the speed, perturb it by `noise` (no clamp afterwards),
   * turn, recompute the velocity from speed and heading, and move by it.
   */
  function StepAircraft(ac: Aircraft, a: int, noise: real, cfg: Config, num: Numerics): (r: Aircraft)
    ensures r.id == ac.id && r.goal == ac.goal
    ensures r.conflictIdSet == ac.conflictIdSet && r.reward == ac.reward
    ensures r.speed - noise == SoftClamp(ac.speed, cfg.minSpeed, cfg.maxSpeed)
    ensures cfg.minSpeed <= cfg.maxSpeed ==> cfg.minSpeed + noise <= r.speed <= cfg.maxSpeed + noise
    ensures r.heading - ac.heading == HeadingDelta(a, cfg.dHeading)
    ensures r.velocity == num.polar(r.speed, r.heading)
    ensures Minus(r.position, ac.position) == r.velocity
  {
    var speed := SoftClamp(ac.speed, cfg.minSpeed, cfg.maxSpeed) + noise;
    var heading := ac.heading + HeadingDelta(a, cfg.dHeading);
    var velocity := num.polar(speed, heading);
    ac.(speed := speed, heading := heading, velocity := velocity, position := Plus(ac.position, velocity))
  }
}
