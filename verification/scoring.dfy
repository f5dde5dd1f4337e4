/**
 * The conflict and reward engine: each live aircraft is judged against the
 * registry as it stood when the pass began, and the aircraft that ended are
 * removed only once every aircraft has been scored.
 */
module Scoring {
  import opened Geometry
  import opened Settings
  import opened Sequences
  import opened Aircrafts
  import opened AircraftDict
  import opened Proximity

  /** A new conflict-id set, how many ids entered it, and whether any intruder is too close. */
  datatype ConflictUpdate = ConflictUpdate(ids: set<nat>, entered: nat, conflict: bool)

  /**
   * One aircraft's scan of its intruders: an intruder at or beyond the
   * separation leaves the set, a closer one joins it, and the conflict
   * counter goes up only for ids that were not in the set already. The
   * three results of the single loop of the source are computed by
   * ScanSet, ScanCount and AnyClose below.
   */
  function UpdateConflictSet(s: set<nat>, ids: seq<nat>, dists: seq<real>, sep: real): (u: ConflictUpdate)
    requires |ids| == |dists| && Distinct(ids)
    ensures forall k :: 0 <= k < |ids| ==> (ids[k] in u.ids <==> dists[k] < sep)
    ensures forall x :: x !in ids ==> (x in u.ids <==> x in s)
    ensures u.entered == |u.ids - s|
    ensures u.conflict <==> exists k :: 0 <= k < |dists| && dists[k] < sep
  {
    ConflictUpdate(ScanSet(s, ids, dists, sep), ScanCount(s, ids, dists, sep), AnyClose(dists, sep))
  }

  /** The conflict set after the scan: each scanned id is in it exactly when its intruder is too close. */
  function ScanSet(s: set<nat>, ids: seq<nat>, dists: seq<real>, sep: real): (t: set<nat>)
    requires |ids| == |dists| && Distinct(ids)
    ensures forall k :: 0 <= k < |ids| ==> (ids[k] in t <==> dists[k] < sep)
    ensures forall x :: x !in ids ==> (x in t <==> x in s)
    decreases |ids|
  {
    if |ids| == 0 then s
    else
      DistinctTail(ids);
      TailFacts(ids);
      TailFacts(dists);
      ScanSet(if dists[0] >= sep then s - {ids[0]} else s + {ids[0]}, ids[1..], dists[1..], sep)
  }

  /** The number of ids the scan adds: one for each close intruder not already in the set. */
  function ScanCount(s: set<nat>, ids: seq<nat>, dists: seq<real>, sep: real): (n: nat)
    requires |ids| == |dists| && Distinct(ids)
    ensures n == |ScanSet(s, ids, dists, sep) - s|
    decreases |ids|
  {
    if |ids| == 0 then 0
    else
      var id := ids[0];
      var s1 := if dists[0] >= sep then s - {id} else s + {id};
      DistinctTail(ids);
      EnteredStep(s, s1, ScanSet(s1, ids[1..], dists[1..], sep), id, dists[0] < sep);
      (if dists[0] < sep && id !in s then 1 else 0) + ScanCount(s1, ids[1..], dists[1..], sep)
  }

  /** Whether some intruder is closer than the separation. */
  function AnyClose(dists: seq<real>, sep: real): (b: bool)
    ensures b <==> exists k :: 0 <= k < |dists| && dists[k] < sep
    decreases |dists|
  {
    if |dists| == 0 then false
    else
      TailFacts(dists);
      dists[0] < sep || AnyClose(dists[1..], sep)
  }

  /** The counting step of UpdateConflictSet: only a newly entered id adds to the count. */
  lemma EnteredStep(s: set<nat>, s1: set<nat>, t: set<nat>, id: nat, close: bool)
    requires s1 == if close then s + {id} else s - {id}
    requires id in t <==> id in s1
    requires forall x :: x != id ==> (x in s1 <==> x in s)
    ensures |t - s| == (if close && id !in s then 1 else 0) + |t - s1|
  {
    if !close {
      assert t - s == t - s1;
    } else if id !in s {
      assert t - s == (t - s1) + {id};
    } else {
      assert s1 == s;
    }
  }

  /**
   * A conflict that persists is counted once: scanning the same distances
   * again from the updated set changes nothing and counts nothing.
   */
  lemma SustainedConflictCountedOnce(s: set<nat>, ids: seq<nat>, dists: seq<real>, sep: real)
    requires |ids| == |dists| && Distinct(ids)
    ensures var u1 := UpdateConflictSet(s, ids, dists, sep);
            var u2 := UpdateConflictSet(u1.ids, ids, dists, sep);
            u2.ids == u1.ids && u2.entered == 0
  {
    var u1 := UpdateConflictSet(s, ids, dists, sep);
    var u2 := UpdateConflictSet(u1.ids, ids, dists, sep);
    assert forall x :: x in u2.ids <==> x in u1.ids by {
      forall x ensures x in u2.ids <==> x in u1.ids {
        if x in ids {
          var k :| 0 <= k < |ids| && ids[k] == x;
        }
      }
    }
    assert u2.ids - u1.ids == {};
  }

  /** How one aircraft's tick ends, in the order the checks are made. */
  datatype Outcome = NearMiss | OutOfBounds | GoalReached | Nominal | InConflict

  /** The outcomes that take the aircraft out of the registry. */
  predicate Ends(o: Outcome) {
    o.NearMiss? || o.OutOfBounds? || o.GoalReached?
  }

  /**
   * First match wins: a near miss, else leaving the world, else reaching
   * the goal, else a conflict-free tick; an aircraft in conflict that
   * matches none of these is InConflict.
   */
  function Classify(minDist: real, inBounds: bool, distGoal: real, conflict: bool, cfg: Config): (o: Outcome)
    ensures o.NearMiss? <==> minDist < cfg.nmacDist
    ensures o.OutOfBounds? <==> minDist >= cfg.nmacDist && !inBounds
    ensures o.GoalReached? <==> minDist >= cfg.nmacDist && inBounds && distGoal < cfg.goalRadius
    ensures o.Nominal? <==> minDist >= cfg.nmacDist && inBounds && distGoal >= cfg.goalRadius && !conflict
    ensures o.InConflict? <==> minDist >= cfg.nmacDist && inBounds && distGoal >= cfg.goalRadius && conflict
  {
    if minDist < cfg.nmacDist then NearMiss
    else if !inBounds then OutOfBounds
    else if distGoal < cfg.goalRadius then GoalReached
    else if !conflict then Nominal
    else InConflict
  }

  /** A near miss at the goal is scored as a near miss, and the aircraft still ends. */
  lemma NearMissOutranksGoal(minDist: real, inBounds: bool, distGoal: real, conflict: bool, cfg: Config)
    requires minDist < cfg.nmacDist && distGoal < cfg.goalRadius
    ensures Classify(minDist, inBounds, distGoal, conflict, cfg) == NearMiss
    ensures Ends(Classify(minDist, inBounds, distGoal, conflict, cfg))
  {
  }

  /** The reward each outcome carries. */
  function RewardOf(o: Outcome, cfg: Config): real {
    match o
    case NearMiss => cfg.nmacPenalty
    case OutOfBounds => cfg.wallPenalty
    case GoalReached => cfg.goalReward
    case Nominal => cfg.stepPenalty
    case InConflict => cfg.conflictPenalty
  }

  /** One aircraft's judgement: its minimum distance, its outcome and its conflict-set update. */
  datatype Verdict = Verdict(minDist: real, outcome: Outcome, update: ConflictUpdate)

  /** The judgement of `ac` against the registry `snap`. */
  function Judge(snap: Registry, ac: Aircraft, cfg: Config, num: Numerics): (v: Verdict)
    ensures v.outcome == Classify(v.minDist, InBounds(ac.position, cfg.windowWidth, cfg.windowHeight),
                                  num.metric(ac.position, ac.goal.position), v.update.conflict, cfg)
  {
    var d := DistToAllAircraft(snap, ac, num.metric);
    var m := MinDist(d.dists);
    var u := UpdateConflictSet(ac.conflictIdSet, d.ids, d.dists, cfg.minimumSeparation);
    var inBounds := InBounds(ac.position, cfg.windowWidth, cfg.windowHeight);
    Verdict(m, Classify(m, inBounds, num.metric(ac.position, ac.goal.position), u.conflict, cfg), u)
  }

  /** Every live aircraft's judgement against the same snapshot, in registry order. */
  function Verdicts(snap: Registry, cfg: Config, num: Numerics): (vs: seq<Verdict>)
    ensures |vs| == |snap|
  {
    seq(|snap|, k requires 0 <= k < |snap| => Judge(snap, snap[k], cfg, num))
  }

  /** The aircraft as the pass leaves it: its new conflict set and this tick's reward. */
  function Stamp(ac: Aircraft, v: Verdict, cfg: Config): Aircraft {
    ac.(conflictIdSet := v.update.ids, reward := RewardOf(v.outcome, cfg))
  }

  /** The sum of the rewards. */
  function SumRewards(vs: seq<Verdict>, cfg: Config): real {
    if |vs| == 0 then 0.0 else SumRewards(vs[..|vs| - 1], cfg) + RewardOf(vs[|vs| - 1].outcome, cfg)
  }

  /** The total number of newly entered conflicts. */
  function TotalEntered(vs: seq<Verdict>): nat {
    if |vs| == 0 then 0 else TotalEntered(vs[..|vs| - 1]) + vs[|vs| - 1].update.entered
  }

  /** How many judgements have outcome `o`. */
  function CountOutcome(vs: seq<Verdict>, o: Outcome): nat {
    if |vs| == 0 then 0 else CountOutcome(vs[..|vs| - 1], o) + (if vs[|vs| - 1].outcome == o then 1 else 0)
  }

  /** The ids among the first n aircraft whose judgement ends them. */
  function Marked(snap: Registry, vs: seq<Verdict>, n: nat): set<nat>
    requires |vs| == |snap| && n <= |snap|
  {
    set j | 0 <= j < n && Ends(vs[j].outcome) :: snap[j].id
  }

  /** The episode's running counters. */
  datatype Counters = Counters(conflicts: nat, goals: nat, nmacs: nat)

  /**
   * The body of the scoring loop for one aircraft `ac` of the live registry:
   * its judgement, its updated record, the removal list and the counters.
   * An ended aircraft is listed for removal (after a near miss even if it
   * is listed already, as the source does).
   */
  method ScoreAircraft(live: Registry, ac: Aircraft, toRemove: seq<nat>, cnt: Counters, cfg: Config, num: Numerics)
    returns (ac': Aircraft, minDist: real, toRemove': seq<nat>, cnt': Counters)
    ensures var v := Judge(live, ac, cfg, num);
            && minDist == v.minDist
            && ac' == Stamp(ac, v, cfg)
            && toRemove' == (if v.outcome == NearMiss || (Ends(v.outcome) && ac.id !in toRemove)
                             then toRemove + [ac.id] else toRemove)
            && cnt' == Counters(cnt.conflicts + v.update.entered,
                                cnt.goals + (if v.outcome == GoalReached then 1 else 0),
                                cnt.nmacs + (if v.outcome == NearMiss then 1 else 0))
  {
    var v := Judge(live, ac, cfg, num);
    minDist := v.minDist;
    var inBounds := InBounds(ac.position, cfg.windowWidth, cfg.windowHeight);
    var distGoal := num.metric(ac.position, ac.goal.position);
    var rew;
    rew, toRemove', cnt' := Settle(ac.id, ac.reward, minDist, inBounds, distGoal, v.update.conflict, toRemove,
                                   cnt.(conflicts := cnt.conflicts + v.update.entered), cfg);
    ac' := ac.(conflictIdSet := v.update.ids, reward := rew);
  }

  /**
   * The outcome chain for one aircraft, as the source writes it: a conflict
   * first sets the conflict penalty, then the first matching check
   * overwrites the reward, lists the aircraft for removal and counts it.
   */
  method Settle(id: nat, oldReward: real, minDist: real, inBounds: bool, distGoal: real, conflict: bool,
                toRemove: seq<nat>, cnt: Counters, cfg: Config)
    returns (reward: real, toRemove': seq<nat>, cnt': Counters)
    ensures reward == RewardOf(Classify(minDist, inBounds, distGoal, conflict, cfg), cfg)
    ensures var o := Classify(minDist, inBounds, distGoal, conflict, cfg);
            toRemove' == if o == NearMiss || (Ends(o) && id !in toRemove) then toRemove + [id] else toRemove
    ensures cnt' == Counters(
              cnt.conflicts,
              cnt.goals + (if Classify(minDist, inBounds, distGoal, conflict, cfg) == GoalReached then 1 else 0),
              cnt.nmacs + (if Classify(minDist, inBounds, distGoal, conflict, cfg) == NearMiss then 1 else 0))
  {
    cnt' := cnt;
    toRemove' := toRemove;
    reward := oldReward;
    if conflict {
      reward := cfg.conflictPenalty;
    }
    if minDist < cfg.nmacDist {
      reward := cfg.nmacPenalty;
      toRemove' := toRemove' + [id];
      cnt' := cnt'.(nmacs := cnt'.nmacs + 1);
    } else if !inBounds {
      reward := cfg.wallPenalty;
      if id !in toRemove' {
        toRemove' := toRemove' + [id];
      }
    } else if distGoal < cfg.goalRadius {
      reward := cfg.goalReward;
      cnt' := cnt'.(goals := cnt'.goals + 1);
      if id !in toRemove' {
        toRemove' := toRemove' + [id];
      }
    } else if !conflict {
      reward := cfg.stepPenalty;
    }
  }

  /** The state the scoring loop carries: the live registry, the removal list, the counters, the reward so far and the info list. */
  datatype Pass = Pass(work: Registry, toRemove: seq<nat>, cnt: Counters, reward: real, info: seq<real>)

  /**
   * The loop invariant after k aircraft: those are stamped with their
   * judgements against the snapshot and the rest are untouched; the
   * aggregates cover exactly the first k judgements.
   */
  predicate Scored(reg: Registry, vs: seq<Verdict>, k: nat, c: Counters, p: Pass, cfg: Config)
    requires |vs| == |reg| && k <= |reg|
  {
    && |p.work| == |reg| && Ids(p.work) == Ids(reg)
    && (forall j :: k <= j < |reg| ==> p.work[j] == reg[j])
    && (forall j :: 0 <= j < k ==> p.work[j] == Stamp(reg[j], vs[j], cfg))
    && |p.info| == k && (forall j :: 0 <= j < k ==> p.info[j] == vs[j].minDist)
    && p.reward == SumRewards(vs[..k], cfg)
    && p.cnt == Counters(c.conflicts + TotalEntered(vs[..k]),
                         c.goals + CountOutcome(vs[..k], GoalReached),
                         c.nmacs + CountOutcome(vs[..k], NearMiss))
    && Elements(p.toRemove) == Marked(reg, vs, k)
    && Distinct(p.toRemove)
  }

  /**
   * The scoring pass: the loop of the source over the live registry, which
   * it updates in place while reading it. Every aircraft ends up judged as
   * against the registry at the start of the pass.
   */
  method ScorePass(reg: Registry, c: Counters, cfg: Config, num: Numerics) returns (p: Pass)
    ensures Scored(reg, Verdicts(reg, cfg, num), |reg|, c, p, cfg)
  {
    ghost var vs := Verdicts(reg, cfg, num);
    p := Pass(reg, [], c, 0.0, []);
    MarkedNone(reg, vs);
    var k := 0;
    while k < |reg|
      invariant k <= |reg|
      invariant Scored(reg, vs, k, c, p, cfg)
    {
      JudgeLive(reg, vs, k, c, p, cfg, num);
      NextScored(reg, vs, k, c, p, cfg);
      p := ScoreNext(k, p, cfg, num);
      k := k + 1;
    }
  }

  /**
   * One iteration of the loop, as a function of the judgement `v` of the
   * k-th live aircraft: its record is stamped, its reward added, its
   * minimum distance recorded, the counters bumped, and, if it ended, its id
   * listed for removal (after a near miss even if listed already).
   */
  function Advance(p: Pass, k: nat, v: Verdict, cfg: Config): Pass
    requires k < |p.work|
  {
    var ac := p.work[k];
    Pass(Replace(p.work, k, Stamp(ac, v, cfg)),
         if v.outcome == NearMiss || (Ends(v.outcome) && ac.id !in p.toRemove) then p.toRemove + [ac.id] else p.toRemove,
         Counters(p.cnt.conflicts + v.update.entered,
                  p.cnt.goals + (if v.outcome == GoalReached then 1 else 0),
                  p.cnt.nmacs + (if v.outcome == NearMiss then 1 else 0)),
         p.reward + RewardOf(v.outcome, cfg),
         p.info + [v.minDist])
  }

  /** One iteration of the scoring loop: the k-th aircraft is scored against the live registry. */
  method ScoreNext(k: nat, p: Pass, cfg: Config, num: Numerics) returns (p': Pass)
    requires k < |p.work|
    ensures p' == Advance(p, k, Judge(p.work, p.work[k], cfg, num), cfg)
  {
    var ac := p.work[k];
    var ac', minDist, toRemove', cnt' := ScoreAircraft(p.work, ac, p.toRemove, p.cnt, cfg, num);
    p' := Pass(Replace(p.work, k, ac'), toRemove', cnt', p.reward + ac'.reward, p.info + [minDist]);
  }

  /** The k-th aircraft's judgement, folded into the loop state, extends the invariant by one aircraft. */
  lemma NextScored(reg: Registry, vs: seq<Verdict>, k: nat, c: Counters, p: Pass, cfg: Config)
    requires |vs| == |reg| && k < |reg| && Scored(reg, vs, k, c, p, cfg)
    ensures Scored(reg, vs, k + 1, c, Advance(p, k, vs[k], cfg), cfg)
  {
    var p' := Advance(p, k, vs[k], cfg);
    PrefixStep(reg, vs, k, cfg);
    RemovalListStep(reg, vs, k, p.toRemove, p'.toRemove);
    WorkStep(reg, vs, k, p.work, Stamp(reg[k], vs[k], cfg), p'.work, cfg);
  }

  /**
   * The scoring pass followed by the apply pass. The tick reward is the sum
   * of the per-aircraft rewards, each judged against the registry at the
   * start of the pass; `info` holds one minimum distance per aircraft, in
   * registry order; exactly the ended aircraft are removed and the others
   * keep their order and carry their new conflict sets and rewards; the
   * terminal flag is always false.
   */
  method TerminalReward(reg: Registry, c: Counters, cfg: Config, num: Numerics)
    returns (reg': Registry, c': Counters, reward: real, terminal: bool, info: seq<real>)
    ensures terminal == false
    ensures |info| == |reg|
    ensures forall k :: 0 <= k < |reg| ==> info[k] == MinDist(DistToAllAircraft(reg, reg[k], num.metric).dists)
    ensures reward == SumRewards(Verdicts(reg, cfg, num), cfg)
    ensures c' == Counters(c.conflicts + TotalEntered(Verdicts(reg, cfg, num)),
                           c.goals + CountOutcome(Verdicts(reg, cfg, num), GoalReached),
                           c.nmacs + CountOutcome(Verdicts(reg, cfg, num), NearMiss))
    ensures Ids(reg') == Without(Ids(reg), Marked(reg, Verdicts(reg, cfg, num), |reg|))
    ensures forall k :: 0 <= k < |reg| && !Ends(Verdicts(reg, cfg, num)[k].outcome) ==>
              Stamp(reg[k], Verdicts(reg, cfg, num)[k], cfg) in reg'
  {
    var p := ScorePass(reg, c, cfg, num);
    reg' := RemoveAll(p.work, p.toRemove);
    c', reward, info := p.cnt, p.reward, p.info;
    PassComplete(reg, Verdicts(reg, cfg, num), c, p, cfg);
    ApplyPhase(reg, Verdicts(reg, cfg, num), p.work, p.toRemove, reg', cfg);
    terminal := false;
  }

  /**
   * Midway through the pass the live registry differs from the snapshot
   * only in conflict sets and rewards, so judging the next aircraft against
   * it gives its judgement against the snapshot.
   */
  lemma JudgeLive(reg: Registry, vs: seq<Verdict>, k: nat, c: Counters, p: Pass, cfg: Config, num: Numerics)
    requires vs == Verdicts(reg, cfg, num)
    requires k < |reg| && Scored(reg, vs, k, c, p, cfg)
    ensures k < |p.work| && Judge(p.work, p.work[k], cfg, num) == vs[k]
  {
    assert forall j :: 0 <= j < |reg| ==> p.work[j].id == reg[j].id && p.work[j].position == reg[j].position;
    DistancesReadPositions(p.work, reg, p.work[k], num.metric);
  }

  /** Writing the k-th record back extends the stamped prefix by one. */
  lemma WorkStep(reg: Registry, vs: seq<Verdict>, k: nat, work: Registry, ac': Aircraft, work': Registry, cfg: Config)
    requires |vs| == |reg| && |work| == |reg| && k < |reg| && Ids(work) == Ids(reg)
    requires forall j :: k <= j < |reg| ==> work[j] == reg[j]
    requires forall j :: 0 <= j < k ==> work[j] == Stamp(reg[j], vs[j], cfg)
    requires ac' == Stamp(reg[k], vs[k], cfg)
    requires ac'.id == work[k].id && work' == Replace(work, k, ac')
    ensures |work'| == |reg| && Ids(work') == Ids(reg)
    ensures forall j :: k + 1 <= j < |reg| ==> work'[j] == reg[j]
    ensures forall j :: 0 <= j < k + 1 ==> work'[j] == Stamp(reg[j], vs[j], cfg)
  {
  }

  /** The running aggregates grow by the k-th judgement. */
  lemma PrefixStep(reg: Registry, vs: seq<Verdict>, k: nat, cfg: Config)
    requires |vs| == |reg| && k < |reg|
    ensures SumRewards(vs[..k + 1], cfg) == SumRewards(vs[..k], cfg) + RewardOf(vs[k].outcome, cfg)
    ensures TotalEntered(vs[..k + 1]) == TotalEntered(vs[..k]) + vs[k].update.entered
    ensures CountOutcome(vs[..k + 1], GoalReached) == CountOutcome(vs[..k], GoalReached) + (if vs[k].outcome == GoalReached then 1 else 0)
    ensures CountOutcome(vs[..k + 1], NearMiss) == CountOutcome(vs[..k], NearMiss) + (if vs[k].outcome == NearMiss then 1 else 0)
  {
    assert vs[..k + 1][..k] == vs[..k];
  }

  /** Once every aircraft is scored, the aggregates cover every judgement. */
  lemma PassComplete(reg: Registry, vs: seq<Verdict>, c: Counters, p: Pass, cfg: Config)
    requires |vs| == |reg| && Scored(reg, vs, |reg|, c, p, cfg)
    ensures p.reward == SumRewards(vs, cfg)
    ensures p.cnt == Counters(c.conflicts + TotalEntered(vs), c.goals + CountOutcome(vs, GoalReached),
                              c.nmacs + CountOutcome(vs, NearMiss))
  {
    assert vs[..|reg|] == vs;
  }

  /** Before the pass nothing is marked. */
  lemma MarkedNone(reg: Registry, vs: seq<Verdict>)
    requires |vs| == |reg|
    ensures Marked(reg, vs, 0) == {} == Elements([])
  {
  }

  /** The marked ids grow by the k-th aircraft's id when it ends, and did not hold it before. */
  lemma MarkedStep(reg: Registry, vs: seq<Verdict>, k: nat)
    requires |vs| == |reg| && k < |reg|
    ensures Marked(reg, vs, k + 1) == Marked(reg, vs, k) + (if Ends(vs[k].outcome) then {reg[k].id} else {})
    ensures reg[k].id !in Marked(reg, vs, k)
  {
    IdsIndex(reg);
  }

  /** The removal list gains the k-th aircraft exactly when its judgement ends it. */
  lemma RemovalListStep(reg: Registry, vs: seq<Verdict>, k: nat, toRemove: seq<nat>, toRemove': seq<nat>)
    requires |vs| == |reg| && k < |reg|
    requires Elements(toRemove) == Marked(reg, vs, k)
    requires toRemove' == if vs[k].outcome == NearMiss || (Ends(vs[k].outcome) && reg[k].id !in toRemove)
                          then toRemove + [reg[k].id] else toRemove
    ensures Elements(toRemove') == Marked(reg, vs, k + 1)
    ensures Distinct(toRemove) ==> Distinct(toRemove')
  {
    MarkedStep(reg, vs, k);
    if toRemove' != toRemove {
      assert Elements(toRemove') == Elements(toRemove) + {reg[k].id};
      assert reg[k].id !in toRemove;
    }
  }

  /** The apply pass removes exactly the ended aircraft and keeps the others' final records. */
  lemma ApplyPhase(reg: Registry, vs: seq<Verdict>, work: Registry, toRemove: seq<nat>, reg': Registry, cfg: Config)
    requires |vs| == |reg| && |work| == |reg| && Ids(work) == Ids(reg)
    requires forall j :: 0 <= j < |reg| ==> work[j] == Stamp(reg[j], vs[j], cfg)
    requires Elements(toRemove) == Marked(reg, vs, |reg|)
    requires reg' == RemoveAll(work, toRemove)
    ensures Ids(reg') == Without(Ids(reg), Marked(reg, vs, |reg|))
    ensures forall k :: 0 <= k < |reg| && !Ends(vs[k].outcome) ==> Stamp(reg[k], vs[k], cfg) in reg'
  {
    forall k | 0 <= k < |reg| && !Ends(vs[k].outcome) ensures Stamp(reg[k], vs[k], cfg) in reg' {
      NotMarked(reg, vs, k);
      assert work[k] in work && work[k].id == reg[k].id;
      assert work[k].id !in Elements(toRemove);
    }
  }

  /** An aircraft that did not end is not marked: ids are distinct, so no ended aircraft shares its id. */
  lemma NotMarked(reg: Registry, vs: seq<Verdict>, k: nat)
    requires |vs| == |reg| && k < |reg| && !Ends(vs[k].outcome)
    ensures reg[k].id !in Marked(reg, vs, |reg|)
  {
    IdsIndex(reg);
  }

  /**
   * A close pair is counted from both sides: when two aircraft with empty
   * conflict sets come closer than the separation, the conflict counter
   * goes up by two, and each aircraft's set then holds the other.
   */
  lemma PairConflictCountedTwice(reg: Registry, cfg: Config, num: Numerics)
    requires |reg| == 2 && reg[0].conflictIdSet == {} && reg[1].conflictIdSet == {}
    requires num.metric(reg[0].position, reg[1].position) < cfg.minimumSeparation
    requires num.metric(reg[1].position, reg[0].position) < cfg.minimumSeparation
    ensures TotalEntered(Verdicts(reg, cfg, num)) == 2
    ensures Verdicts(reg, cfg, num)[0].update.ids == {reg[1].id}
    ensures Verdicts(reg, cfg, num)[1].update.ids == {reg[0].id}
  {
    var vs := Verdicts(reg, cfg, num);
    IdsIndex(reg);
    assert Ids(reg) == [reg[0].id, reg[1].id];
    assert Without(Ids(reg), {reg[0].id}) == [reg[1].id];
    assert Without(Ids(reg), {reg[1].id}) == [reg[0].id];
    assert vs[0].update.ids == {reg[1].id};
    assert vs[1].update.ids == {reg[0].id};
    assert vs[0].update.entered == 1 && vs[1].update.entered == 1;
    assert vs[..1][..0] == [] && vs[..1][0] == vs[0];
    assert TotalEntered(vs[..1]) == 1;
    assert vs[..|vs| - 1] == vs[..1];
  }
}
