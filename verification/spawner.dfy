/** The spawn block of a tick: every vertiport's clock, destination choice and admission test. */
module Spawner {
  import opened Results
  import opened Geometry
  import opened Settings
  import opened Aircrafts
  import opened AircraftDict
  import opened Vertiports
  import opened Proximity

  /**
   * The random draws one vertiport consumes when it fires: the index
   * random.choice takes into the list of other vertiports, the heading
   * requested of the constructor, and the unit draw of the new interval.
   */
  datatype SpawnDraw = SpawnDraw(pick: nat, heading: real, interval: real)

  /** The draws lie where the random sources put them, given `n` vertiports. */
  predicate DrawFits(d: SpawnDraw, n: nat) {
    0.0 <= d.interval < 1.0 && (n > 1 ==> d.pick < n - 1)
  }

  predicate DrawsFit(ds: seq<SpawnDraw>, n: nat) {
    |ds| == n && forall j :: 0 <= j < |ds| ==> DrawFits(ds[j], n)
  }

  /** The state the spawn block reads and writes. */
  datatype SpawnState = SpawnState(registry: Registry, idTracker: nat, vertiports: seq<VertiPort>)

  /** Every registered id was handed out by the id tracker already. */
  predicate Fresh(s: SpawnState) {
    forall id :: id in Ids(s.registry) ==> id < s.idTracker
  }

  /** The destination index random.choice returns among the indices other than `self`. */
  function Destination(n: nat, self: nat, pick: nat): (dest: nat)
    requires self < n && pick < n - 1
    ensures dest < n && dest != self
  {
    assert Destinations(n, self)[pick] in Destinations(n, self);
    Destinations(n, self)[pick]
  }

  /** Every other vertiport can be drawn as the destination. */
  lemma EveryOtherPortIsReachable(n: nat, self: nat, e: nat)
    requires self < n && e < n && e != self
    ensures exists pick: nat :: pick < n - 1 && Destination(n, self, pick) == e
  {
    var ds := Destinations(n, self);
    assert e in ds;
    var pick :| 0 <= pick < |ds| && ds[pick] == e;
    assert Destination(n, self, pick) == e;
  }

  /** The aircraft vertiport `i` would launch: at the vertiport, bound for the drawn destination. */
  function Candidate(s: SpawnState, i: nat, d: SpawnDraw, cfg: Config, num: Numerics): (a: Aircraft)
    requires i < |s.vertiports| && 1 < |s.vertiports|
    requires PortsIndexed(s.vertiports) && DrawFits(d, |s.vertiports|)
  {
    var vp := s.vertiports[i];
    var dest := Destination(|s.vertiports|, vp.id, d.pick);
    NewAircraft(s.idTracker, vp.position, cfg.initSpeed, d.heading, s.vertiports[dest].position, num)
  }

  /** A candidate leaves from its own vertiport and is bound for a different one. */
  lemma CandidateGoesElsewhere(s: SpawnState, i: nat, d: SpawnDraw, cfg: Config, num: Numerics)
    requires i < |s.vertiports| && 1 < |s.vertiports|
    requires PortsIndexed(s.vertiports) && DrawFits(d, |s.vertiports|)
    ensures var a := Candidate(s, i, d, cfg, num);
            && a.id == s.idTracker
            && a.position == s.vertiports[i].position
            && exists dest :: 0 <= dest < |s.vertiports| && dest != i && a.goal.position == s.vertiports[dest].position
  {
    var dest := Destination(|s.vertiports|, s.vertiports[i].id, d.pick);
    assert Candidate(s, i, d, cfg, num).goal.position == s.vertiports[dest].position;
  }

  /** The admission test: the candidate is farther than three separations from every live aircraft. */
  predicate Admissible(r: Registry, cand: Aircraft, cfg: Config, num: Numerics) {
    MinDist(DistToAllAircraft(r, cand, num.metric).dists) > 3.0 * cfg.minimumSeparation
  }

  /** After this tick's increment the clock is due, and the episode still accepts spawns. */
  predicate Fires(vp: VertiPort, nearEnd: bool) {
    Due(Tick(vp)) && !nearEnd
  }

  /** Vertiport `i`'s share of the spawn block. */
  function SpawnAt(s: SpawnState, i: nat, d: SpawnDraw, nearEnd: bool, cfg: Config, num: Numerics)
    : (res: Result<SpawnState, Error>)
    requires i < |s.vertiports| && PortsIndexed(s.vertiports) && DrawFits(d, |s.vertiports|)
    // Not due, or near the end: only the clock moves.
    ensures !Fires(s.vertiports[i], nearEnd) ==>
              res == Success(s.(vertiports := s.vertiports[i := Tick(s.vertiports[i])]))
    // Due with no other vertiport: random.choice of an empty list raises.
    ensures Fires(s.vertiports[i], nearEnd) && |s.vertiports| == 1 ==>
              res == Failure(EmptyDestinationChoice)
    // Due but too close to traffic: rejected, the clock keeps running and is retried next tick.
    ensures Fires(s.vertiports[i], nearEnd) && |s.vertiports| > 1
            && !Admissible(s.registry, Candidate(s, i, d, cfg, num), cfg, num) ==>
              res == Success(s.(vertiports := s.vertiports[i := Tick(s.vertiports[i])]))
    // Admitted but the id is taken: the registry's assertion fails.
    ensures Fires(s.vertiports[i], nearEnd) && |s.vertiports| > 1
            && Admissible(s.registry, Candidate(s, i, d, cfg, num), cfg, num)
            && s.idTracker in Ids(s.registry) ==>
              res == Failure(IdAlreadyInDict(s.idTracker))
    // Admitted and the id is free: launched (see Launch).
    ensures Fires(s.vertiports[i], nearEnd) && |s.vertiports| > 1
            && Admissible(s.registry, Candidate(s, i, d, cfg, num), cfg, num) ==>
              res == Launch(s, i, Candidate(s, i, d, cfg, num), d.interval, cfg)
    // Whatever happens, the vertiports keep their ids and positions and the others are untouched.
    ensures res.Success? ==>
              && |res.value.vertiports| == |s.vertiports|
              && res.value.vertiports[i].id == s.vertiports[i].id
              && res.value.vertiports[i].position == s.vertiports[i].position
              && forall j :: 0 <= j < |s.vertiports| && j != i ==> res.value.vertiports[j] == s.vertiports[j]
  {
    var ticked := s.(vertiports := s.vertiports[i := Tick(s.vertiports[i])]);
    if !Fires(s.vertiports[i], nearEnd) then Success(ticked)
    else if |s.vertiports| == 1 then Failure(EmptyDestinationChoice)
    else
      var cand := Candidate(s, i, d, cfg, num);
      if !Admissible(s.registry, cand, cfg, num) then Success(ticked)
      else Launch(s, i, cand, d.interval, cfg)
  }

  /**
   * Registers an admitted candidate: appended under the tracker's id, the
   * tracker goes up by one, and vertiport `i`'s clock is reset with a new
   * threshold drawn from the configured bounds.
   */
  function Launch(s: SpawnState, i: nat, cand: Aircraft, u: real, cfg: Config): (res: Result<SpawnState, Error>)
    requires i < |s.vertiports| && 0.0 <= u < 1.0
    requires cand.id == s.idTracker
    ensures res.Failure? <==> cand.id in Ids(s.registry)
    ensures res.Failure? ==> res.error == IdAlreadyInDict(cand.id)
    ensures res.Success? ==>
              && res.value.registry == s.registry + [cand]
              && Ids(res.value.registry) == Ids(s.registry) + [cand.id]
              && res.value.idTracker == s.idTracker + 1
              && |res.value.vertiports| == |s.vertiports|
              && res.value.vertiports[i].clockCounter == 0
              && res.value.vertiports[i].id == s.vertiports[i].id
              && res.value.vertiports[i].position == s.vertiports[i].position
              && (cfg.timeIntervalLower <= cfg.timeIntervalUpper ==>
                    cfg.timeIntervalLower <= res.value.vertiports[i].timeNextAircraft <= cfg.timeIntervalUpper)
              && forall j :: 0 <= j < |s.vertiports| && j != i ==> res.value.vertiports[j] == s.vertiports[j]
  {
    match Add(s.registry, cand)
    case Failure(e) => Failure(e)
    case Success(r) =>
      assert r == s.registry + [cand] by {
        assert Ids(r) == Ids(s.registry + [cand]);
      }
      var vp := GenerateInterval(Tick(s.vertiports[i]), cfg.timeIntervalLower, cfg.timeIntervalUpper, u);
      Success(SpawnState(r, s.idTracker + 1, s.vertiports[i := vp]))
  }

  /** The consecutive ids lo, lo + 1, ..., hi - 1. */
  function IdRange(lo: nat, hi: nat): (r: seq<nat>)
    ensures |r| == if hi <= lo then 0 else hi - lo
    ensures forall k :: 0 <= k < |r| ==> r[k] == lo + k
  {
    if hi <= lo then [] else IdRange(lo, hi - 1) + [hi - 1]
  }

  /**
   * The whole spawn block: vertiports i, i + 1, ... take their turn in list
   * order, each seeing the aircraft the earlier ones admitted. Aircraft
   * already registered keep their places; new ones are appended with
   * consecutive ids from the tracker, at most one per vertiport.
   */
  function SpawnPhase(s: SpawnState, i: nat, draws: seq<SpawnDraw>, nearEnd: bool, cfg: Config, num: Numerics)
    : (res: Result<SpawnState, Error>)
    requires i <= |s.vertiports| && PortsIndexed(s.vertiports) && DrawsFit(draws, |s.vertiports|)
    ensures res.Success? ==>
              && |res.value.vertiports| == |s.vertiports|
              && PortsIndexed(res.value.vertiports)
              && (forall j :: 0 <= j < |s.vertiports| ==> res.value.vertiports[j].position == s.vertiports[j].position)
              && (forall j :: 0 <= j < i ==> res.value.vertiports[j] == s.vertiports[j])
              && s.idTracker <= res.value.idTracker <= s.idTracker + (|s.vertiports| - i)
              && |s.registry| <= |res.value.registry|
              && res.value.registry[..|s.registry|] == s.registry
              && Ids(res.value.registry) == Ids(s.registry) + IdRange(s.idTracker, res.value.idTracker)
    decreases |s.vertiports| - i
  {
    if i == |s.vertiports| then
      assert s.registry[..|s.registry|] == s.registry;
      Success(s)
    else
      match SpawnAt(s, i, draws[i], nearEnd, cfg, num)
      case Failure(e) => Failure(e)
      case Success(s1) =>
        SpawnAtStep(s, i, draws[i], nearEnd, cfg, num);
        var res := SpawnPhase(s1, i + 1, draws, nearEnd, cfg, num);
        if res.Success? then
          PhaseCompose(s, s1, res.value, i);
          res
        else res
  }

  /** What a successful turn of vertiport `i` changes: its own record, and at most one appended aircraft. */
  lemma SpawnAtStep(s: SpawnState, i: nat, d: SpawnDraw, nearEnd: bool, cfg: Config, num: Numerics)
    requires i < |s.vertiports| && PortsIndexed(s.vertiports) && DrawFits(d, |s.vertiports|)
    requires SpawnAt(s, i, d, nearEnd, cfg, num).Success?
    ensures var s1 := SpawnAt(s, i, d, nearEnd, cfg, num).value;
            && |s1.vertiports| == |s.vertiports| && PortsIndexed(s1.vertiports)
            && (forall j :: 0 <= j < |s.vertiports| ==> s1.vertiports[j].position == s.vertiports[j].position)
            && (forall j :: 0 <= j < |s.vertiports| && j != i ==> s1.vertiports[j] == s.vertiports[j])
            && StepsTracker(s, s1)
  {
    SpawnAtRegistry(s, i, d, nearEnd, cfg, num);
  }

  /** A successful turn leaves the registry alone or appends the one aircraft it launched. */
  lemma SpawnAtRegistry(s: SpawnState, i: nat, d: SpawnDraw, nearEnd: bool, cfg: Config, num: Numerics)
    requires i < |s.vertiports| && PortsIndexed(s.vertiports) && DrawFits(d, |s.vertiports|)
    requires SpawnAt(s, i, d, nearEnd, cfg, num).Success?
    ensures StepsTracker(s, SpawnAt(s, i, d, nearEnd, cfg, num).value)
  {
    var s1 := SpawnAt(s, i, d, nearEnd, cfg, num).value;
    if s1.registry != s.registry {
      assert s1.registry[..|s.registry|] == s.registry;
    }
  }

  /** The registry is unchanged, or it gained one aircraft under the tracker's id and the tracker moved on. */
  predicate StepsTracker(s: SpawnState, s1: SpawnState) {
    || (s1.registry == s.registry && s1.idTracker == s.idTracker)
    || (&& |s1.registry| == |s.registry| + 1
        && s1.registry[..|s.registry|] == s.registry
        && Ids(s1.registry) == Ids(s.registry) + [s.idTracker]
        && s1.idTracker == s.idTracker + 1)
  }

  /** A turn of vertiport `i` followed by the turns of the rest composes as the block promises. */
  lemma PhaseCompose(s: SpawnState, s1: SpawnState, s2: SpawnState, i: nat)
    requires i < |s.vertiports| && |s1.vertiports| == |s.vertiports|
    requires forall j :: 0 <= j < |s.vertiports| ==> s1.vertiports[j].position == s.vertiports[j].position
    requires forall j :: 0 <= j < |s.vertiports| && j != i ==> s1.vertiports[j] == s.vertiports[j]
    requires StepsTracker(s, s1)
    requires && |s2.vertiports| == |s1.vertiports|
             && PortsIndexed(s2.vertiports)
             && (forall j :: 0 <= j < |s1.vertiports| ==> s2.vertiports[j].position == s1.vertiports[j].position)
             && (forall j :: 0 <= j < i + 1 ==> s2.vertiports[j] == s1.vertiports[j])
             && s1.idTracker <= s2.idTracker <= s1.idTracker + (|s1.vertiports| - (i + 1))
             && |s1.registry| <= |s2.registry|
             && s2.registry[..|s1.registry|] == s1.registry
             && Ids(s2.registry) == Ids(s1.registry) + IdRange(s1.idTracker, s2.idTracker)
    ensures && |s2.vertiports| == |s.vertiports|
            && (forall j :: 0 <= j < |s.vertiports| ==> s2.vertiports[j].position == s.vertiports[j].position)
            && (forall j :: 0 <= j < i ==> s2.vertiports[j] == s.vertiports[j])
            && s.idTracker <= s2.idTracker <= s.idTracker + (|s.vertiports| - i)
            && |s.registry| <= |s2.registry|
            && s2.registry[..|s.registry|] == s.registry
            && Ids(s2.registry) == Ids(s.registry) + IdRange(s.idTracker, s2.idTracker)
  {
    SpawnStepCompose(s, s1, s2);
  }

  /** One vertiport's turn followed by the rest composes as the block promises. */
  lemma SpawnStepCompose(s: SpawnState, s1: SpawnState, s2: SpawnState)
    requires StepsTracker(s, s1)
    requires |s1.registry| <= |s2.registry| && s2.registry[..|s1.registry|] == s1.registry
    requires Ids(s2.registry) == Ids(s1.registry) + IdRange(s1.idTracker, s2.idTracker)
    requires s1.idTracker <= s2.idTracker
    ensures |s.registry| <= |s2.registry| && s2.registry[..|s.registry|] == s.registry
    ensures Ids(s2.registry) == Ids(s.registry) + IdRange(s.idTracker, s2.idTracker)
  {
    if s1.idTracker == s.idTracker + 1 {
      assert [s.idTracker] + IdRange(s.idTracker + 1, s2.idTracker) == IdRange(s.idTracker, s2.idTracker);
    }
  }

  /**
   * With ids handed out only by the tracker, the registry's assertion never
   * fires: the one way the spawn block fails is a lone vertiport having
   * nowhere to send its aircraft, and afterwards ids are still fresh.
   */
  lemma {:induction false} SpawnPhaseKeepsIdsFresh(s: SpawnState, i: nat, draws: seq<SpawnDraw>, nearEnd: bool, cfg: Config, num: Numerics)
    requires i <= |s.vertiports| && PortsIndexed(s.vertiports) && DrawsFit(draws, |s.vertiports|)
    requires Fresh(s)
    ensures var res := SpawnPhase(s, i, draws, nearEnd, cfg, num);
            && (res.Failure? ==> |s.vertiports| == 1 && res.error == EmptyDestinationChoice)
            && (res.Success? ==> Fresh(res.value))
    decreases |s.vertiports| - i
  {
    if i < |s.vertiports| {
      SpawnAtKeepsIdsFresh(s, i, draws[i], nearEnd, cfg, num);
      var r1 := SpawnAt(s, i, draws[i], nearEnd, cfg, num);
      if r1.Success? {
        SpawnAtStep(s, i, draws[i], nearEnd, cfg, num);
        SpawnPhaseKeepsIdsFresh(r1.value, i + 1, draws, nearEnd, cfg, num);
      }
    }
  }

  /** One vertiport's turn: with fresh ids it fails only for want of a destination, and keeps ids fresh. */
  lemma SpawnAtKeepsIdsFresh(s: SpawnState, i: nat, d: SpawnDraw, nearEnd: bool, cfg: Config, num: Numerics)
    requires i < |s.vertiports| && PortsIndexed(s.vertiports) && DrawFits(d, |s.vertiports|)
    requires Fresh(s)
    ensures var r := SpawnAt(s, i, d, nearEnd, cfg, num);
            && (r.Failure? ==> |s.vertiports| == 1 && r.error == EmptyDestinationChoice)
            && (r.Success? ==> Fresh(r.value))
  {
    var r := SpawnAt(s, i, d, nearEnd, cfg, num);
    if r.Success? {
      var s1 := r.value;
      forall id | id in Ids(s1.registry) ensures id < s1.idTracker {
        if s1.registry != s.registry {
          assert Ids(s1.registry) == Ids(s.registry) + [s.idTracker];
        }
      }
    } else {
      assert s.idTracker !in Ids(s.registry);
    }
  }

  /**
   * Over one spawn block each vertiport's clock either advances by exactly
   * one with its threshold kept, or restarts at zero with a threshold drawn
   * from the configured bounds.
   */
  lemma {:induction false} SpawnPhaseClocks(s: SpawnState, i: nat, draws: seq<SpawnDraw>, nearEnd: bool, cfg: Config, num: Numerics)
    requires i <= |s.vertiports| && PortsIndexed(s.vertiports) && DrawsFit(draws, |s.vertiports|)
    ensures var res := SpawnPhase(s, i, draws, nearEnd, cfg, num);
            res.Success? ==> forall j :: i <= j < |s.vertiports| ==> ClockMoved(s.vertiports[j], res.value.vertiports[j], cfg)
    decreases |s.vertiports| - i
  {
    if i < |s.vertiports| {
      PhaseUnfold(s, i, draws, nearEnd, cfg, num);
      var r1 := SpawnAt(s, i, draws[i], nearEnd, cfg, num);
      if r1.Success? {
        SpawnPhaseClocks(r1.value, i + 1, draws, nearEnd, cfg, num);
        var r2 := SpawnPhase(r1.value, i + 1, draws, nearEnd, cfg, num);
        if r2.Success? {
          ClocksCompose(s, r1.value, r2.value, i, cfg);
        }
      }
    }
  }

  /**
   * One turn of the block, unfolded: the block from i fails when vertiport
   * i's turn fails, and otherwise continues from the state that turn left,
   * in which only vertiport i moved its clock, restarting it exactly when
   * it launched.
   */
  lemma PhaseUnfold(s: SpawnState, i: nat, draws: seq<SpawnDraw>, nearEnd: bool, cfg: Config, num: Numerics)
    requires i < |s.vertiports| && PortsIndexed(s.vertiports) && DrawsFit(draws, |s.vertiports|)
    ensures var r1 := SpawnAt(s, i, draws[i], nearEnd, cfg, num);
            r1.Failure? ==> SpawnPhase(s, i, draws, nearEnd, cfg, num).Failure?
    ensures var r1 := SpawnAt(s, i, draws[i], nearEnd, cfg, num);
            r1.Success? ==>
              && |r1.value.vertiports| == |s.vertiports| && PortsIndexed(r1.value.vertiports)
              && SpawnPhase(s, i, draws, nearEnd, cfg, num) == SpawnPhase(r1.value, i + 1, draws, nearEnd, cfg, num)
              && ClockMoved(s.vertiports[i], r1.value.vertiports[i], cfg)
              && (forall j :: 0 <= j < |s.vertiports| && j != i ==> r1.value.vertiports[j] == s.vertiports[j])
              && (r1.value.idTracker == s.idTracker || r1.value.idTracker == s.idTracker + 1)
              && (r1.value.vertiports[i].clockCounter == 0 <==> r1.value.idTracker == s.idTracker + 1)
  {
    var r1 := SpawnAt(s, i, draws[i], nearEnd, cfg, num);
    if r1.Success? {
      SpawnAtStep(s, i, draws[i], nearEnd, cfg, num);
      SpawnAtLaunches(s, i, draws[i], nearEnd, cfg, num);
    }
  }

  /** Vertiport i's turn followed by the turns of the rest moves every clock from i on. */
  lemma ClocksCompose(s: SpawnState, s1: SpawnState, s2: SpawnState, i: nat, cfg: Config)
    requires i < |s.vertiports| && |s1.vertiports| == |s.vertiports| && |s2.vertiports| == |s.vertiports|
    requires ClockMoved(s.vertiports[i], s1.vertiports[i], cfg)
    requires forall j :: 0 <= j < |s.vertiports| && j != i ==> s1.vertiports[j] == s.vertiports[j]
    requires forall j :: 0 <= j < i + 1 ==> s2.vertiports[j] == s1.vertiports[j]
    requires forall j :: i + 1 <= j < |s1.vertiports| ==> ClockMoved(s1.vertiports[j], s2.vertiports[j], cfg)
    ensures forall j :: i <= j < |s.vertiports| ==> ClockMoved(s.vertiports[j], s2.vertiports[j], cfg)
  {
    assert s2.vertiports[i] == s1.vertiports[i];
  }

  /**
   * The restarted clocks of a spawn block are exactly as many as the
   * aircraft it launched: a clock is back at zero only at a vertiport that
   * launched, and every launching vertiport restarts its clock.
   */
  lemma {:induction false} SpawnPhaseRestarts(s: SpawnState, i: nat, draws: seq<SpawnDraw>, nearEnd: bool, cfg: Config, num: Numerics)
    requires i <= |s.vertiports| && PortsIndexed(s.vertiports) && DrawsFit(draws, |s.vertiports|)
    ensures var res := SpawnPhase(s, i, draws, nearEnd, cfg, num);
            res.Success? ==> res.value.idTracker == s.idTracker + Restarts(res.value.vertiports, i)
    decreases |s.vertiports| - i
  {
    if i == |s.vertiports| {
      PhaseEnd(s, i, draws, nearEnd, cfg, num);
    } else {
      var r1 := SpawnAt(s, i, draws[i], nearEnd, cfg, num);
      if r1.Success? {
        SpawnAtStep(s, i, draws[i], nearEnd, cfg, num);
        SpawnPhaseRestarts(r1.value, i + 1, draws, nearEnd, cfg, num);
      }
      RestartsStep(s, i, draws, nearEnd, cfg, num);
    }
  }

  /** Vertiport i's turn followed by the turns of the rest keeps the restart count. */
  lemma RestartsStep(s: SpawnState, i: nat, draws: seq<SpawnDraw>, nearEnd: bool, cfg: Config, num: Numerics)
    requires i < |s.vertiports| && PortsIndexed(s.vertiports) && DrawsFit(draws, |s.vertiports|)
    requires var r1 := SpawnAt(s, i, draws[i], nearEnd, cfg, num);
             r1.Success? && |r1.value.vertiports| == |s.vertiports| && PortsIndexed(r1.value.vertiports) ==>
               var r2 := SpawnPhase(r1.value, i + 1, draws, nearEnd, cfg, num);
               r2.Success? ==> r2.value.idTracker == r1.value.idTracker + Restarts(r2.value.vertiports, i + 1)
    ensures var res := SpawnPhase(s, i, draws, nearEnd, cfg, num);
            res.Success? ==> res.value.idTracker == s.idTracker + Restarts(res.value.vertiports, i)
  {
    PhaseUnfold(s, i, draws, nearEnd, cfg, num);
    var r1 := SpawnAt(s, i, draws[i], nearEnd, cfg, num);
    if r1.Success? {
      var r2 := SpawnPhase(r1.value, i + 1, draws, nearEnd, cfg, num);
      if r2.Success? {
        RestartedStep(r2.value.vertiports, i);
        assert r2.value.vertiports[i] == r1.value.vertiports[i];
      }
    }
  }

  /** The count from i is the count from i + 1, plus one when vertiport i's clock is at zero. */
  lemma RestartedStep(vps: seq<VertiPort>, i: nat)
    requires i < |vps|
    ensures Restarts(vps, i) == (if vps[i].clockCounter == 0 then 1 else 0) + Restarts(vps, i + 1)
  {
    if vps[i].clockCounter == 0 {
      assert Restarted(vps, i) == Restarted(vps, i + 1) + {i};
    } else {
      assert Restarted(vps, i) == Restarted(vps, i + 1);
    }
  }

  /** Past the last vertiport the block changes nothing and no clock is counted. */
  lemma PhaseEnd(s: SpawnState, i: nat, draws: seq<SpawnDraw>, nearEnd: bool, cfg: Config, num: Numerics)
    requires i == |s.vertiports| && PortsIndexed(s.vertiports) && DrawsFit(draws, |s.vertiports|)
    ensures SpawnPhase(s, i, draws, nearEnd, cfg, num) == Success(s)
    ensures Restarts(s.vertiports, i) == 0
  {
    assert Restarted(s.vertiports, i) == {};
  }

  /**
   * A vertiport's turn restarts its clock exactly when it launches an
   * aircraft: a rejected or not-yet-due vertiport keeps counting.
   */
  lemma SpawnAtLaunches(s: SpawnState, i: nat, d: SpawnDraw, nearEnd: bool, cfg: Config, num: Numerics)
    requires i < |s.vertiports| && PortsIndexed(s.vertiports) && DrawFits(d, |s.vertiports|)
    requires SpawnAt(s, i, d, nearEnd, cfg, num).Success?
    ensures var s1 := SpawnAt(s, i, d, nearEnd, cfg, num).value;
            && (s1.idTracker == s.idTracker || s1.idTracker == s.idTracker + 1)
            && (s1.vertiports[i].clockCounter == 0 <==> s1.idTracker == s.idTracker + 1)
            && (s1.vertiports[i].clockCounter == 0 <==> |s1.registry| == |s.registry| + 1)
  {
    SpawnAtRegistry(s, i, d, nearEnd, cfg, num);
  }

  /** The vertiports from index i on whose clock is at zero. */
  function Restarted(vps: seq<VertiPort>, i: nat): set<nat> {
    set j | i <= j < |vps| && vps[j].clockCounter == 0
  }

  /** How many of the vertiports from index i on have a clock at zero. */
  function Restarts(vps: seq<VertiPort>, i: nat): nat {
    |Restarted(vps, i)|
  }

  /** Vertiport `v` became `v'` in one tick: its clock advanced by one, or it launched and restarted. */
  predicate ClockMoved(v: VertiPort, v': VertiPort, cfg: Config) {
    || v' == Tick(v)
    || (&& v'.clockCounter == 0 && v'.id == v.id && v'.position == v.position
        && (cfg.timeIntervalLower <= cfg.timeIntervalUpper ==>
              cfg.timeIntervalLower <= v'.timeNextAircraft <= cfg.timeIntervalUpper))
  }
}
