/** Distances from one aircraft to all the others in the registry. */
module Proximity {
  import opened Geometry
  import opened Sequences
  import opened Aircrafts
  import opened AircraftDict

  /** The minimum distance reported when there is no other aircraft. */
  const Sentinel: real := 9999.0

  /** The other aircraft's ids and their distances, in registry order. */
  datatype Distances = Distances(ids: seq<nat>, dists: seq<real>)

  /**
   * Distances from `ac` to every registered aircraft whose id differs from
   * `ac.id`, paired with those ids.
   */
  function DistToAllAircraft(r: Registry, ac: Aircraft, metric: (Vec, Vec) -> real): (d: Distances)
    ensures |d.ids| == |d.dists|
    ensures d.ids == Without(Ids(r), {ac.id})
    ensures forall k :: 0 <= k < |d.ids| ==>
              && GetAircraftById(r, d.ids[k]).Some?
              && d.dists[k] == metric(ac.position, GetAircraftById(r, d.ids[k]).value.position)
  {
    if |r| == 0 then Distances([], [])
    else
      var t := Tail(r);
      HeadNotInTail(r);
      var rest := DistToAllAircraft(t, ac, metric);
      if r[0].id == ac.id then rest
      else Distances([r[0].id] + rest.ids, [metric(ac.position, r[0].position)] + rest.dists)
  }

  /**
   * numpy's min over the distances, or the sentinel when there are none:
   * a lower bound that is attained.
   */
  function MinDist(ds: seq<real>): (m: real)
    ensures |ds| == 0 ==> m == Sentinel
    ensures |ds| > 0 ==> m in ds
    ensures forall k :: 0 <= k < |ds| ==> m <= ds[k]
  {
    if |ds| == 0 then Sentinel
    else if |ds| == 1 then ds[0]
    else
      var rest := MinDist(ds[1..]);
      if ds[0] <= rest then ds[0] else rest
  }

  /** The minimum exceeds a threshold exactly when every distance (or the sentinel) does. */
  lemma MinDistAbove(ds: seq<real>, t: real)
    ensures MinDist(ds) > t <==> (forall k :: 0 <= k < |ds| ==> ds[k] > t) && (|ds| == 0 ==> Sentinel > t)
  {
  }

  /**
   * Distances read only ids and positions: two registries that agree on
   * those give the same distances.
   */
  lemma {:induction false} DistancesReadPositions(r1: Registry, r2: Registry, ac: Aircraft, metric: (Vec, Vec) -> real)
    requires |r1| == |r2|
    requires forall k :: 0 <= k < |r1| ==> r1[k].id == r2[k].id && r1[k].position == r2[k].position
    ensures DistToAllAircraft(r1, ac, metric) == DistToAllAircraft(r2, ac, metric)
  {
    if |r1| > 0 {
      DistancesReadPositions(Tail(r1), Tail(r2), ac, metric);
    }
  }
}
