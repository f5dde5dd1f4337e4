/**
 * The environment: its state between ticks, reset, the observation it
 * hands to the agent, and one tick (move every aircraft, run the spawn
 * block, score).
 */
module Environment {
  import opened Results
  import opened Geometry
  import opened Settings
  import opened Sequences
  import opened Aircrafts
  import opened AircraftDict
  import opened Vertiports
  import opened Proximity
  import opened Spawner
  import opened Scoring

  /** The state the environment keeps between ticks. */
  datatype Env = Env(registry: Registry, vertiports: seq<VertiPort>, idTracker: nat, counters: Counters)

  /** Vertiport i has id i, and every live id was handed out by the tracker. */
  predicate Valid(e: Env) {
    PortsIndexed(e.vertiports) && forall id :: id in Ids(e.registry) ==> id < e.idTracker
  }

  /**
   * The vertiports of the configuration, in order: vertiport i has id i,
   * sits at the i-th location, starts its clock at zero and draws its
   * first threshold from `us[i]`.
   */
  function LoadVertiports(locs: seq<Vec>, us: seq<real>): (vps: seq<VertiPort>)
    requires |us| == |locs| && forall k :: 0 <= k < |us| ==> 0.0 <= us[k] < 1.0
    ensures |vps| == |locs| && PortsIndexed(vps)
    ensures forall k :: 0 <= k < |vps| ==>
              && vps[k].position == locs[k]
              && vps[k].clockCounter == 0
              && 0.0 <= vps[k].timeNextAircraft < 60.0
  {
    seq(|locs|, k requires 0 <= k < |locs| => NewVertiPort(k, locs[k], us[k]))
  }

  /**
   * A new episode: no aircraft, counters and id tracker at zero, and the
   * empty observation; the vertiports keep their clocks.
   */
  function Reset(e: Env): (r: (Env, Observation))
    ensures r.0.registry == [] && r.0.idTracker == 0 && r.0.counters == Counters(0, 0, 0)
    ensures r.0.vertiports == e.vertiports
    ensures PortsIndexed(e.vertiports) ==> Valid(r.0)
    ensures r.1 == GetOb(r.0.registry) && r.1 == Observation([], [])
  {
    var e' := Env([], e.vertiports, 0, Counters(0, 0, 0));
    (e', GetOb(e'.registry))
  }

  /** What the agent sees: one row of eight numbers per live aircraft, and the ids, in registry order. */
  datatype Observation = Observation(rows: seq<seq<real>>, ids: seq<nat>)

  /** One aircraft's row: position, velocity, speed, heading and goal. */
  function Row(ac: Aircraft): (row: seq<real>)
    ensures |row| == 8
  {
    [ac.position.x, ac.position.y, ac.velocity.x, ac.velocity.y, ac.speed, ac.heading,
     ac.goal.position.x, ac.goal.position.y]
  }

  /** What an observation row tells about an aircraft. */
  datatype View = View(position: Vec, velocity: Vec, speed: real, heading: real, goal: Vec)

  /** Reads a row back. */
  function ReadRow(row: seq<real>): (v: View)
    requires |row| == 8
  {
    View(Vec(row[0], row[1]), Vec(row[2], row[3]), row[4], row[5], Vec(row[6], row[7]))
  }

  /** The observation of the registry. */
  function GetOb(r: Registry): (ob: Observation)
    ensures |ob.rows| == |r| && ob.ids == Ids(r)
    ensures forall k :: 0 <= k < |r| ==> |ob.rows[k]| == 8
    ensures forall k :: 0 <= k < |r| ==>
              ReadRow(ob.rows[k]) == View(r[k].position, r[k].velocity, r[k].speed, r[k].heading, r[k].goal.position)
  {
    Observation(seq(|r|, k requires 0 <= k < |r| => Row(r[k])), Ids(r))
  }

  /** Adding an aircraft adds its row and its id at the end and leaves the other rows alone. */
  lemma GetObAfterAdd(r: Registry, a: Aircraft)
    requires Add(r, a).Success?
    ensures GetOb(Add(r, a).value).rows == GetOb(r).rows + [Row(a)]
    ensures GetOb(Add(r, a).value).ids == GetOb(r).ids + [a.id]
  {
    var r' := Add(r, a).value;
    assert r' == r + [a] by {
      assert Ids(r') == Ids(r + [a]);
    }
  }

  /** The action for aircraft `id`: the one given for it, and 1 (hold the heading) when none is. */
  function ActionFor(actions: map<nat, int>, id: nat): (a: int)
    ensures id in actions ==> a == actions[id]
    ensures id !in actions ==> a == 1
  {
    if id in actions then actions[id] else 1
  }

  /**
   * The first loop of a tick: every live aircraft steps with its action
   * and its own speed noise; the registry keeps its ids and order.
   */
  function MoveAll(r: Registry, actions: map<nat, int>, noise: seq<real>, cfg: Config, num: Numerics): (r': Registry)
    requires |noise| == |r|
    ensures Ids(r') == Ids(r)
    ensures forall k :: 0 <= k < |r| ==> r'[k] == StepAircraft(r[k], ActionFor(actions, r[k].id), noise[k], cfg, num)
  {
    var moved := seq(|r|, k requires 0 <= k < |r| => StepAircraft(r[k], ActionFor(actions, r[k].id), noise[k], cfg, num));
    assert Ids(moved) == Ids(r);
    moved
  }

  /** An aircraft without an action keeps its heading. */
  lemma NoActionHoldsHeading(r: Registry, actions: map<nat, int>, noise: seq<real>, cfg: Config, num: Numerics, k: nat)
    requires |noise| == |r| && k < |r| && r[k].id !in actions
    ensures MoveAll(r, actions, noise, cfg, num)[k].heading == r[k].heading
  {
  }

  /** What a tick hands back: the new state, the observation, the reward, the terminal flag and the info list. */
  datatype TickResult = TickResult(env: Env, ob: Observation, reward: real, terminal: bool, info: seq<real>)

  /** The registry a tick scores: every aircraft moved, then the spawn block run over it. */
  function Spawned(e: Env, actions: map<nat, int>, noise: seq<real>, draws: seq<SpawnDraw>, nearEnd: bool,
                   cfg: Config, num: Numerics): Result<SpawnState, Error>
    requires |noise| == |e.registry| && PortsIndexed(e.vertiports) && DrawsFit(draws, |e.vertiports|)
  {
    SpawnPhase(SpawnState(MoveAll(e.registry, actions, noise, cfg, num), e.idTracker, e.vertiports),
               0, draws, nearEnd, cfg, num)
  }

  /**
   * One tick. The speed noise of the aircraft and the draws of the
   * vertiports are parameters. The tick fails only where the source
   * raises. On success the reward and counters are those of the scoring
   * pass over the moved and spawned registry, the observation is that of
   * the registry left after removals, ids are never handed out twice and
   * the episode never terminates.
   */
  method Step(e: Env, actions: map<nat, int>, noise: seq<real>, draws: seq<SpawnDraw>, nearEnd: bool,
              cfg: Config, num: Numerics)
    returns (res: Result<TickResult, Error>)
    requires |noise| == |e.registry| && PortsIndexed(e.vertiports) && DrawsFit(draws, |e.vertiports|)
    ensures res.Failure? <==> Spawned(e, actions, noise, draws, nearEnd, cfg, num).Failure?
    ensures res.Failure? && Valid(e) ==> |e.vertiports| == 1 && res.error == EmptyDestinationChoice
    ensures res.Success? ==> Scores(e, Spawned(e, actions, noise, draws, nearEnd, cfg, num).value, res.value, cfg, num)
    ensures res.Success? ==> e.idTracker <= res.value.env.idTracker
    ensures res.Success? && Valid(e) ==> Valid(res.value.env)
  {
    var moved := MoveAll(e.registry, actions, noise, cfg, num);
    var spawned := SpawnPhase(SpawnState(moved, e.idTracker, e.vertiports), 0, draws, nearEnd, cfg, num);
    if Valid(e) {
      StepKeepsIdsFresh(e, moved, draws, nearEnd, cfg, num);
    }
    if spawned.Failure? {
      return Failure(spawned.error);
    }
    var o := ScoreTick(e, spawned.value, cfg, num);
    res := Success(o);
  }

  /**
   * The scoring part of a tick over the spawned state `s`: the reward and
   * counters are those of the scoring pass, the ended aircraft are gone,
   * the others remain in order with their new conflict sets and rewards,
   * info holds every aircraft's minimum distance, the observation is that
   * of the registry left, and the episode does not terminate.
   */
  predicate Scores(e: Env, s: SpawnState, o: TickResult, cfg: Config, num: Numerics) {
    var vs := Verdicts(s.registry, cfg, num);
    && o.terminal == false
    && o.reward == SumRewards(vs, cfg)
    && o.env.counters == Counters(e.counters.conflicts + TotalEntered(vs),
                                  e.counters.goals + CountOutcome(vs, GoalReached),
                                  e.counters.nmacs + CountOutcome(vs, NearMiss))
    && Ids(o.env.registry) == Without(Ids(s.registry), Marked(s.registry, vs, |s.registry|))
    && (forall k :: 0 <= k < |s.registry| && !Ends(vs[k].outcome) ==> Stamp(s.registry[k], vs[k], cfg) in o.env.registry)
    && |o.info| == |s.registry|
    && (forall k :: 0 <= k < |s.registry| ==> o.info[k] == vs[k].minDist)
    && o.env.vertiports == s.vertiports
    && o.env.idTracker == s.idTracker
    && o.ob == GetOb(o.env.registry)
  }

  /** The scoring pass and the observation, after the spawn block produced `s`. */
  method ScoreTick(e: Env, s: SpawnState, cfg: Config, num: Numerics) returns (o: TickResult)
    ensures Scores(e, s, o, cfg, num)
    ensures Fresh(s) && PortsIndexed(s.vertiports) ==> Valid(o.env)
  {
    var reg', counters', reward, terminal, info := TerminalReward(s.registry, e.counters, cfg, num);
    var e' := Env(reg', s.vertiports, s.idTracker, counters');
    InfoIsMinDist(s.registry, info, cfg, num);
    if Fresh(s) {
      RemovalKeepsIdsFresh(s.registry, reg', Marked(s.registry, Verdicts(s.registry, cfg, num), |s.registry|), s.idTracker);
    }
    o := TickResult(e', GetOb(reg'), reward, terminal, info);
  }

  /** The info list of the scoring pass is the list of the judgements' minimum distances. */
  lemma InfoIsMinDist(reg: Registry, info: seq<real>, cfg: Config, num: Numerics)
    requires |info| == |reg|
    requires forall k :: 0 <= k < |reg| ==> info[k] == MinDist(DistToAllAircraft(reg, reg[k], num.metric).dists)
    ensures forall k :: 0 <= k < |reg| ==> info[k] == Verdicts(reg, cfg, num)[k].minDist
  {
  }

  /** Moving keeps the ids, so the spawn block starts from fresh ids and keeps them fresh. */
  lemma StepKeepsIdsFresh(e: Env, moved: Registry, draws: seq<SpawnDraw>, nearEnd: bool, cfg: Config, num: Numerics)
    requires Valid(e) && Ids(moved) == Ids(e.registry) && DrawsFit(draws, |e.vertiports|)
    ensures var res := SpawnPhase(SpawnState(moved, e.idTracker, e.vertiports), 0, draws, nearEnd, cfg, num);
            && (res.Failure? ==> |e.vertiports| == 1 && res.error == EmptyDestinationChoice)
            && (res.Success? ==> Fresh(res.value) && PortsIndexed(res.value.vertiports))
  {
    SpawnPhaseKeepsIdsFresh(SpawnState(moved, e.idTracker, e.vertiports), 0, draws, nearEnd, cfg, num);
  }

  /** Removing ids cannot make a registry's ids stale. */
  lemma RemovalKeepsIdsFresh(r: Registry, r': Registry, gone: set<nat>, tracker: nat)
    requires forall id :: id in Ids(r) ==> id < tracker
    requires Ids(r') == Without(Ids(r), gone)
    ensures forall id :: id in Ids(r') ==> id < tracker
  {
  }
}
