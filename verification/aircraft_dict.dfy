/** The registry of live aircraft: an insertion-ordered dictionary keyed by aircraft id. */
module AircraftDict {
  import opened Results
  import opened Sequences
  import opened Aircrafts

  /** The keys of the dictionary, in insertion order. */
  function Ids(r: seq<Aircraft>): (ids: seq<nat>)
    ensures |ids| == |r|
    ensures forall k {:trigger ids[k]} :: 0 <= k < |r| ==> ids[k] == r[k].id
  {
    seq(|r|, k requires 0 <= k < |r| => r[k].id)
  }

  /** Each entry's id is its key; stated separately so that it is brought in only where a proof asks. */
  lemma IdsIndex(r: seq<Aircraft>)
    ensures forall k :: 0 <= k < |r| ==> Ids(r)[k] == r[k].id
  {
  }

  /** A registry holds each id at most once; its sequence order is the insertion order. */
  type Registry = r: seq<Aircraft> | Distinct(Ids(r)) witness []

  /** Every suffix of a registry is a registry. */
  lemma TailIsRegistry(r: Registry)
    requires |r| > 0
    ensures Distinct(Ids(r[1..]))
    ensures Ids(r[1..]) == Ids(r)[1..]
  {
    assert Ids(r[1..]) == Ids(r)[1..];
  }

  function Tail(r: Registry): (t: Registry)
    requires |r| > 0
    ensures t == r[1..]
  {
    TailIsRegistry(r);
    r[1..]
  }

  /** Lookup by id; None where the dictionary would raise KeyError. */
  function GetAircraftById(r: Registry, id: nat): (o: Option<Aircraft>)
    ensures o.Some? <==> id in Ids(r)
    ensures o.Some? ==> o.value in r && o.value.id == id
    ensures forall k :: 0 <= k < |r| && r[k].id == id ==> o == Some(r[k])
  {
    IdsIndex(r);
    if |r| == 0 then None
    else if r[0].id == id then Some(r[0])
    else
      var o := GetAircraftById(Tail(r), id);
      assert forall k :: 1 <= k < |r| ==> r[k] == Tail(r)[k - 1];
      o
  }

  /** Adding to the end leaves the lookups of the other ids as they were. */
  lemma {:induction false} GetAfterAppend(r: Registry, a: Aircraft, id: nat)
    requires a.id !in Ids(r)
    requires Distinct(Ids(r + [a]))
    requires id != a.id
    ensures GetAircraftById(r + [a], id) == GetAircraftById(r, id)
  {
    IdsIndex(r);
    if |r| > 0 && r[0].id != id {
      assert Tail(r + [a]) == Tail(r) + [a];
      GetAfterAppend(Tail(r), a, id);
    }
  }

  /**
   * Insertion. An id already present is the assertion failure of the source;
   * otherwise the aircraft becomes the last entry and no other entry changes.
   */
  function Add(r: Registry, a: Aircraft): (res: Result<Registry, Error>)
    ensures res.Failure? <==> a.id in Ids(r)
    ensures res.Failure? ==> res.error == IdAlreadyInDict(a.id)
    ensures res.Success? ==> Ids(res.value) == Ids(r) + [a.id]
    ensures res.Success? ==> GetAircraftById(res.value, a.id) == Some(a)
    ensures res.Success? ==> forall id :: id != a.id ==> GetAircraftById(res.value, id) == GetAircraftById(r, id)
  {
    if a.id in Ids(r) then Failure(IdAlreadyInDict(a.id))
    else
      assert Ids(r + [a]) == Ids(r) + [a.id];
      var r': Registry := r + [a];
      assert forall id :: id != a.id ==> GetAircraftById(r', id) == GetAircraftById(r, id) by {
        forall id | id != a.id {
          GetAfterAppend(r, a, id);
        }
      }
      Success(r')
  }

  /**
   * Deletion by id. An absent id leaves the registry unchanged; a present one
   * is deleted and every other entry keeps its place in the order.
   */
  function Remove(r: Registry, id: nat): (r': Registry)
    ensures id !in Ids(r) ==> r' == r
    ensures Ids(r') == Without(Ids(r), {id})
    ensures forall a :: a in r' <==> a in r && a.id != id
  {
    if |r| == 0 then []
    else
      var t := Tail(r);
      HeadNotInTail(r);
      if r[0].id == id then
        WithoutNothing(Ids(t), {id});
        t
      else
        var rest := Remove(t, id);
        Prepend(r[0], rest);
        assert r == [r[0]] + t;
        [r[0]] + rest
  }

  /** An aircraft whose id is new may be put in front of a registry. */
  lemma Prepend(a: Aircraft, r: Registry)
    requires a.id !in Ids(r)
    ensures Ids([a] + r) == [a.id] + Ids(r)
    ensures Distinct(Ids([a] + r))
  {
    assert Ids([a] + r) == [a.id] + Ids(r);
  }

  /** The first entry's id does not occur again. */
  lemma HeadNotInTail(r: Registry)
    requires |r| > 0
    ensures Ids(r) == [r[0].id] + Ids(r[1..])
    ensures r[0].id !in Ids(r[1..])
    ensures forall a :: a in r[1..] ==> a.id != r[0].id
  {
    TailIsRegistry(r);
    IdsIndex(r);
    forall a | a in r[1..] ensures a.id != r[0].id {
      var k :| 0 <= k < |r[1..]| && r[1..][k] == a;
      assert Ids(r)[k + 1] == a.id;
    }
  }

  /** Removes each listed id in turn, as the apply phase of the scoring pass does. */
  function RemoveAll(r: Registry, ids: seq<nat>): (r': Registry)
    ensures Ids(r') == Without(Ids(r), Elements(ids))
    ensures forall a :: a in r' <==> a in r && a.id !in ids
    decreases |ids|
  {
    if |ids| == 0 then
      assert (Elements(ids)) == {};
      WithoutNothing(Ids(r), {});
      r
    else
      var r' := RemoveAll(Remove(r, ids[0]), ids[1..]);
      RemoveAllStep(r, ids);
      r'
  }

  lemma RemoveAllStep(r: Registry, ids: seq<nat>)
    requires |ids| > 0
    ensures Without(Without(Ids(r), {ids[0]}), Elements(ids[1..])) == Without(Ids(r), Elements(ids))
  {
    var rest := Elements(ids[1..]);
    WithoutTwice(Ids(r), {ids[0]}, rest);
    assert (Elements(ids)) == {ids[0]} + rest by {
      assert ids == [ids[0]] + ids[1..];
    }
  }

  /** Two registries with the same id order and the same entries are equal. */
  lemma SameIdsSameEntries(r1: Registry, r2: Registry)
    requires Ids(r1) == Ids(r2)
    requires forall a :: a in r1 <==> a in r2
    ensures r1 == r2
  {
    forall k | 0 <= k < |r1| ensures r1[k] == r2[k] {
      assert r1[k] in r2;
      var j :| 0 <= j < |r2| && r2[j] == r1[k];
      assert Ids(r2)[j] == Ids(r2)[k];
    }
  }

  /**
   * Remove's contract pins its result: a registry with the remaining ids in
   * order and exactly the entries of the other ids is Remove's result.
   */
  lemma RemoveDetermined(r: Registry, id: nat, r': Registry)
    requires Ids(r') == Without(Ids(r), {id})
    requires forall a :: a in r' <==> a in r && a.id != id
    ensures r' == Remove(r, id)
  {
    SameIdsSameEntries(r', Remove(r, id));
  }

  /** Overwrites the entry at index k with a new state of the same aircraft; order and keys stay. */
  function Replace(r: Registry, k: nat, a: Aircraft): (r': Registry)
    requires k < |r| && a.id == r[k].id
    ensures Ids(r') == Ids(r)
    ensures |r'| == |r| && r'[k] == a
    ensures forall j :: 0 <= j < |r| && j != k ==> r'[j] == r[j]
  {
    assert Ids(r[k := a]) == Ids(r);
    r[k := a]
  }
}
