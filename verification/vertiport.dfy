/** Vertiports: fixed take-off points, each with a countdown clock for the next spawn. */
module Vertiports {
  import opened Geometry

  /** `clockCounter` counts ticks since the last successful spawn; `timeNextAircraft` is the threshold. */
  datatype VertiPort = VertiPort(id: nat, position: Vec, clockCounter: nat, timeNextAircraft: real)

  /** numpy's uniform(lo, hi) given its unit draw u in [0, 1). */
  function Uniform(lo: real, hi: real, u: real): (r: real)
    requires 0.0 <= u < 1.0
    ensures lo <= hi ==> lo <= r <= hi
    ensures lo < hi ==> r < hi
    ensures u == 0.0 ==> r == lo
  {
    UnitScale(lo, hi, u);
    lo + (hi - lo) * u
  }

  /** Scaling a non-negative span by a unit draw stays within it. */
  lemma UnitScale(lo: real, hi: real, u: real)
    requires 0.0 <= u < 1.0
    ensures lo <= hi ==> lo <= lo + (hi - lo) * u <= hi
    ensures lo < hi ==> lo + (hi - lo) * u < hi
  {
    var d := hi - lo;
    if d >= 0.0 {
      assert 0.0 <= d * u;
      var w := 1.0 - u;
      assert d * w == d - d * u;
      assert d * w >= 0.0;
      if d > 0.0 {
        assert w > 0.0;
        assert d * w > 0.0;
      }
    }
  }

  /** The constructor: the clock starts at 0 and the first threshold is drawn from [0, 60). */
  function NewVertiPort(id: nat, position: Vec, u: real): (v: VertiPort)
    requires 0.0 <= u < 1.0
    ensures v.id == id && v.position == position && v.clockCounter == 0
    ensures 0.0 <= v.timeNextAircraft < 60.0
  {
    VertiPort(id, position, 0, Uniform(0.0, 60.0, u))
  }

  /** Advances the clock by one tick; nothing else changes. */
  function Tick(v: VertiPort): (r: VertiPort)
    ensures r.clockCounter == v.clockCounter + 1
    ensures r.(clockCounter := v.clockCounter) == v
  {
    v.(clockCounter := v.clockCounter + 1)
  }

  /** After a successful spawn: a fresh threshold from the configured bounds, and the clock back at 0. */
  function GenerateInterval(v: VertiPort, lower: real, upper: real, u: real): (r: VertiPort)
    requires 0.0 <= u < 1.0
    ensures r.clockCounter == 0
    ensures lower <= upper ==> lower <= r.timeNextAircraft <= upper
    ensures lower < upper ==> r.timeNextAircraft < upper
    ensures r.id == v.id && r.position == v.position
  {
    v.(timeNextAircraft := Uniform(lower, upper, u), clockCounter := 0)
  }

  /** The clock has reached the threshold. */
  predicate Due(v: VertiPort) {
    v.clockCounter as real >= v.timeNextAircraft
  }

  /** The vertiport after n ticks with no spawn in between. */
  function Ticks(v: VertiPort, n: nat): VertiPort
    decreases n
  {
    if n == 0 then v else Tick(Ticks(v, n - 1))
  }

  /**
   * n ticks add n to the clock and keep the threshold, so a vertiport
   * becomes due exactly once its clock has counted up to the threshold,
   * and stays due from then on until a spawn resets it.
   */
  lemma {:induction false} DueAfterTicks(v: VertiPort, n: nat)
    ensures Ticks(v, n) == v.(clockCounter := v.clockCounter + n)
    ensures Due(Ticks(v, n)) <==> (v.clockCounter + n) as real >= v.timeNextAircraft
    ensures Due(v) ==> Due(Ticks(v, n))
    decreases n
  {
    if n > 0 {
      DueAfterTicks(v, n - 1);
    }
  }

  /** The indices 0 .. n-1 other than `self`, in increasing order: the destinations a spawn may pick. */
  function Destinations(n: nat, self: nat): (r: seq<nat>)
    ensures forall e: nat :: e in r <==> e < n && e != self
    ensures forall i, j :: 0 <= i < j < |r| ==> r[i] < r[j]
    ensures self < n ==> |r| == n - 1
    ensures self >= n ==> |r| == n
  {
    if n == 0 then []
    else
      var prefix := Destinations(n - 1, self);
      assert forall i :: 0 <= i < |prefix| ==> prefix[i] in prefix;
      if n - 1 == self then prefix else prefix + [n - 1]
  }

  /** The vertiport at index i has id i, as the environment builds them. */
  predicate PortsIndexed(vps: seq<VertiPort>) {
    forall i :: 0 <= i < |vps| ==> vps[i].id == i
  }
}
