# Multi-aircraft vertiport environment: a Dafny model of the per-tick bookkeeping

This project models the core of `MultiAircraftVertiportEnv.py`. That file is a
gym environment in which aircraft take off from vertiports, fly to another
vertiport and are rewarded or penalised each tick. The model covers the
bookkeeping of one tick:

- the registry of live aircraft (`AircraftDict`, an insertion-ordered map keyed by id);
- the vertiport clocks and the spawn block of `MultiAircraftEnv.step`:
  - destination choice;
  - the admission test against the 9999 sentinel;
  - id hand-out;
  - clock reset;
- the conflict and reward engine `_terminal_reward`:
  - conflict-set hysteresis;
  - first-match outcome priority;
  - scoring against the registry as it was when the pass began;
  - deferred removal;
- the observation `_get_ob`;
- the speed soft-clamp and the heading update of `Aircraft.step`.

Everything is real-valued, and each tick is a pure function of the state and the draws.

The floating-point numerics are supplied from outside. A `Numerics` record holds the
distance `metric`, the `polar` map `(s, h) -> (s cos h, s sin h)` and the `bearing`
(atan2). The random draws are parameters:

- the speed noise of each aircraft;
- for each vertiport, the index `random.choice` picks, the requested heading and the
  unit draw `u` of `np.random.uniform`, modelled as `lo + (hi - lo) * u` with `u` in [0, 1).

Modules, one per file:

| module | file | covers |
|---|---|---|
| `Results` | results.dfy | `Option`, `Result`, the error cases |
| `Geometry` | geometry.dfy | vectors, `Numerics`, the inclusive box test |
| `Settings` | settings.dfy | the configuration constants as a record |
| `Sequences` | sequences.dfy | distinctness, `Elements`, order-preserving `Without` |
| `Aircrafts` | aircraft.dfy | the aircraft record, constructor, soft-clamp, heading update, kinematic step |
| `AircraftDict` | aircraft_dict.dfy | the registry: add, remove, lookup |
| `Vertiports` | vertiport.dfy | vertiport record, clock tick, interval draw, destination list |
| `Proximity` | proximity.dfy | `dist_to_all_aircraft`, the minimum with its 9999 sentinel |
| `Spawner` | spawner.dfy | the spawn block |
| `Scoring` | scoring.dfy | `_terminal_reward` |
| `Environment` | environment.dfy | reset, `_get_ob`, one tick |

`Scoring.ScorePass` is a loop, as the source writes it. It reads and writes the live
registry, and its loop invariant `Scored` proves that every aircraft is judged as if
against the snapshot taken at the start of the pass. The function `Judge` does that
judging.

Behaviour of the code the model keeps, including where the code's own docstrings
promise otherwise:

- the class docstring (MultiAircraftVertiportEnv.py:22-23) describes the actions as
  +1, 0 or -1, but the code validates nothing: any integer action turns the aircraft
  by `(a - 1) * d_heading`;
- the docstring of `_terminal_reward` (MultiAircraftVertiportEnv.py:159-170) promises
  termination on a near miss or when every aircraft is removed, but the method always
  returns `False` (MultiAircraftVertiportEnv.py:233), so a tick never terminates;
- `reset` rebuilds the registry, the id tracker and the counters, but leaves the vertiport
  clocks and thresholds as they were;
- the constructor computes the velocity from the requested heading, and only then
  replaces the heading with the bearing to the goal;
- after a near miss the aircraft is appended to the removal list without the
  membership test the other branches make. Each aircraft is visited once, so it is
  still listed at most once; `Scoring.Scored` keeps the list distinct.

## Model

| member | source | states |
|---|---|---|
| AircraftDict.Add | MultiAircraftVertiportEnv.py:332-334 | Fails, with the id, exactly when the id is already registered. Otherwise the id is appended at the end of the key order, the lookup of the new id yields the aircraft, and every other lookup is unchanged. |
| AircraftDict.Remove | MultiAircraftVertiportEnv.py:336-340 | An absent id leaves the registry unchanged. Otherwise exactly that id leaves the key order, the other keys keep their relative order, and the entries left are exactly those with a different id. |
| AircraftDict.RemoveDetermined | MultiAircraftVertiportEnv.py:336-340 | Any registry holding the remaining ids in their order and exactly the entries with another id is the result of `Remove`, so its contract determines deletion completely. |
| AircraftDict.GetAircraftById | MultiAircraftVertiportEnv.py:342-343 | Yields an aircraft exactly when the id is registered (None where the dictionary raises KeyError), and that aircraft is the entry stored under the id. |
| AircraftDict.GetAfterAppend | MultiAircraftVertiportEnv.py:332-334 | Appending a new aircraft does not change the lookup of any other id. |
| AircraftDict.RemoveAll | MultiAircraftVertiportEnv.py:228-229 | Removing a list of ids one by one leaves the key order with exactly those ids taken out and the rest in order. |
| AircraftDict.Replace | MultiAircraftVertiportEnv.py:184-223 | Updating one aircraft's record in place keeps every key and every other entry. |
| Sequences.WithoutTwice | MultiAircraftVertiportEnv.py:228-229 | Removing one set of ids and then another is removing their union. |
| Vertiports.NewVertiPort | MultiAircraftVertiportEnv.py:426-430 | A new vertiport keeps its id and position, its clock starts at 0, and its first threshold lies in [0, 60). |
| Vertiports.DueAfterTicks | MultiAircraftVertiportEnv.py:438-439 | n ticks add n to the clock and keep the threshold, so a vertiport becomes due exactly when its clock reaches the threshold, and once due it stays due until a spawn resets it. |
| Vertiports.GenerateInterval | MultiAircraftVertiportEnv.py:433-435 | The clock is reset to 0 and the new threshold lies in [lower, upper] (strictly below upper when lower < upper); id and position are kept. |
| Vertiports.Uniform | MultiAircraftVertiportEnv.py:430 | numpy's uniform draw stays in its bounds and yields lo on a zero unit draw. |
| Vertiports.Destinations | MultiAircraftVertiportEnv.py:138 | The candidate list holds exactly the indices below n other than the vertiport's own, in increasing order, n - 1 of them. |
| Spawner.Destination | MultiAircraftVertiportEnv.py:138 | The drawn destination is a valid vertiport index different from the source. |
| Spawner.EveryOtherPortIsReachable | MultiAircraftVertiportEnv.py:138 | Every other vertiport is the destination for some draw. |
| Spawner.CandidateGoesElsewhere | MultiAircraftVertiportEnv.py:137-145 | The candidate gets the tracker's id and starts at its own vertiport, and its goal is the position of a different vertiport. |
| Spawner.SpawnAt | MultiAircraftVertiportEnv.py:135-152 | Not due or near the end: only the clock moves. Due with no other vertiport: `random.choice` fails. Due but the minimum distance (9999 if alone) is not above 3 separations: only the clock moves. Admitted: launched. The other vertiports never change. |
| Spawner.Launch | MultiAircraftVertiportEnv.py:148-152 | Fails exactly when the id is taken. Otherwise the candidate is appended under the tracker's id, the tracker goes up by one, and the vertiport's clock restarts at 0 with a threshold in the configured bounds. |
| Spawner.SpawnPhase | MultiAircraftVertiportEnv.py:135-152 | Over all vertiports in order, the registered aircraft keep their places. New aircraft are appended with consecutive ids from the tracker, at most one per vertiport, and vertiports keep their ids and positions. |
| Spawner.SpawnPhaseKeepsIdsFresh | MultiAircraftVertiportEnv.py:135-152 | When every live id is below the tracker, the block fails only for a lone vertiport (empty `random.choice`), never on the registry's assertion, and ids stay below the tracker. |
| Spawner.SpawnPhaseClocks | MultiAircraftVertiportEnv.py:136-152 | Each vertiport's clock either advances by exactly one with its threshold kept, or restarts at 0 with a threshold in the configured bounds. |
| Spawner.SpawnPhaseRestarts | MultiAircraftVertiportEnv.py:136-152 | The number of vertiports whose clock restarted equals the number of aircraft launched, that is, the id tracker's increase. So a clock restarts only with a launch, and a rejected candidate does not reset it. |
| Spawner.SpawnAtLaunches | MultiAircraftVertiportEnv.py:136-152 | A vertiport's turn restarts its clock exactly when it launches an aircraft, which is exactly when the registry grows by one and the tracker by one. A rejected or not yet due vertiport keeps counting. |
| Proximity.DistToAllAircraft | MultiAircraftVertiportEnv.py:275-283 | One distance for every other registered aircraft, in registry order, each the metric to the aircraft stored under that id. The aircraft's own id is skipped. |
| Proximity.MinDist | MultiAircraftVertiportEnv.py:147 | With no distances the result is the 9999 sentinel; otherwise it is one of the distances and no larger than any. |
| Proximity.MinDistAbove | MultiAircraftVertiportEnv.py:147-148 | The admission test passes exactly when every distance, or the sentinel when there are none, exceeds the threshold. |
| Proximity.DistancesReadPositions | MultiAircraftVertiportEnv.py:275-283 | Distances depend only on ids and positions, so rewriting conflict sets and rewards during the pass does not change them. |
| Scoring.UpdateConflictSet | MultiAircraftVertiportEnv.py:182-196 | Each scanned intruder is in the new set exactly when it is closer than the separation, ids not scanned keep their membership, the count is the number of ids that entered, and the conflict flag is set exactly when some intruder is too close. |
| Scoring.ScanCount | MultiAircraftVertiportEnv.py:190-193 | Counting one for each close intruder not already in the set counts exactly the ids that entered. |
| Scoring.SustainedConflictCountedOnce | MultiAircraftVertiportEnv.py:186-196 | Scanning the same distances again from the updated set changes nothing and counts nothing. |
| Scoring.PairConflictCountedTwice | MultiAircraftVertiportEnv.py:186-196 | Two aircraft with empty sets that come too close add two to the counter, and each aircraft's set then holds the other. |
| Scoring.Classify | MultiAircraftVertiportEnv.py:199-223 | First match wins: a near miss, else out of bounds, else at the goal, else a conflict-free tick; what is left is in conflict. Each outcome holds exactly under its condition. |
| Scoring.NearMissOutranksGoal | MultiAircraftVertiportEnv.py:199-214 | A near miss at the goal is scored as a near miss and still ends the aircraft. |
| Scoring.Settle | MultiAircraftVertiportEnv.py:196-223 | The if-chain of the source gives the reward of the classified outcome and bumps the goal and near-miss counters by that outcome. It lists the aircraft for removal after a near miss, and after leaving the box or reaching the goal when not yet listed. |
| Scoring.ScoreAircraft | MultiAircraftVertiportEnv.py:175-226 | One aircraft's turn: the minimum distance, the new conflict set and reward, the removal list and the counters agree with its judgement against the registry it reads. |
| Scoring.ScoreNext | MultiAircraftVertiportEnv.py:175-226 | One loop iteration over the live registry is `Advance` with the judgement of the k-th live aircraft. |
| Scoring.NextScored | MultiAircraftVertiportEnv.py:175-226 | Folding the k-th snapshot judgement into the loop state extends the invariant by one aircraft: stamped prefix, untouched suffix, partial sums and counts, marked ids, no duplicate in the removal list. |
| Scoring.JudgeLive | MultiAircraftVertiportEnv.py:175-196 | Midway through the pass the live registry judges the next aircraft exactly as the snapshot does. |
| Scoring.ScorePass | MultiAircraftVertiportEnv.py:171-226 | After the loop every aircraft carries its snapshot judgement's conflict set and reward, and the info list holds one minimum distance per aircraft in order. The reward and counters are the sums over all judgements, and the removal list holds exactly the ended aircraft, each once. |
| Scoring.TerminalReward | MultiAircraftVertiportEnv.py:171-233 | The terminal flag is always false, and the reward is the sum of the per-aircraft rewards on the snapshot. The info list holds each aircraft's minimum distance in registry order, and the counters grow by the entered conflicts, goals and near misses. Exactly the ended aircraft are removed, and the others stay in order with their new records. |
| Scoring.ApplyPhase | MultiAircraftVertiportEnv.py:228-229 | Removing the listed aircraft after the pass leaves exactly the aircraft that did not end, in order, with their new records. |
| Scoring.PassComplete | MultiAircraftVertiportEnv.py:226 | Once every aircraft is scored, the running reward and counters are the totals over all judgements. |
| Aircrafts.HeadingOverride | MultiAircraftVertiportEnv.py:391-399 | The requested heading does not affect the new aircraft's heading. |
| Aircrafts.SoftClamp | MultiAircraftVertiportEnv.py:415 | `max(lo, min(v, hi))`: within [lo, hi] when lo <= hi, the identity inside it, lo below it, hi above it, and lo whenever hi < lo. |
| Aircrafts.SoftClampIdempotent | MultiAircraftVertiportEnv.py:415 | Clamping twice is clamping once. |
| Aircrafts.HeadingDelta | MultiAircraftVertiportEnv.py:417 | Action 1 holds the heading, 0 turns by minus d_heading, 2 by plus d_heading. |
| Aircrafts.HeadingDeltaMirrors | MultiAircraftVertiportEnv.py:417 | Actions a and 2 - a turn by opposite amounts. |
| Aircrafts.StepAircraft | MultiAircraftVertiportEnv.py:414-422 | The new speed is the clamped old speed plus the noise, and the heading moves by the action's delta. The velocity is recomputed from the new speed and heading, and the position advances by it. Id, goal, conflict set and reward are kept. |
| Environment.LoadVertiports | MultiAircraftVertiportEnv.py:68-71 | Vertiport i has id i, sits at the i-th location, and starts with clock 0 and a threshold in [0, 60). |
| Environment.Reset | MultiAircraftVertiportEnv.py:73-82 | No aircraft, counters and id tracker at zero, and vertiports untouched. The returned observation is that of the empty registry: no rows and no ids. |
| Environment.GetOb | MultiAircraftVertiportEnv.py:109-125 | One row of eight per live aircraft in registry order, and the ids in the same order. Reading a row back gives that aircraft's position, velocity, speed, heading and goal. |
| Environment.GetObAfterAdd | MultiAircraftVertiportEnv.py:109-125 | After a successful add the observation gains the new aircraft's row and id at the end, and the other rows are unchanged. |
| Environment.MoveAll | MultiAircraftVertiportEnv.py:129-133 | Every live aircraft steps with its own action and noise, and the registry keeps its ids and order. |
| Environment.NoActionHoldsHeading | MultiAircraftVertiportEnv.py:129-133 | An aircraft missing from the action map keeps its heading. |
| Environment.Step | MultiAircraftVertiportEnv.py:127-156 | The tick fails only when the spawn block fails, and then, with fresh ids, only for a lone due vertiport. Otherwise the reward, counters and info list are those of the scoring pass over the moved and spawned registry. Exactly the ended aircraft are removed and the others keep their new records, and the observation is that of the registry left. The terminal flag is false, and the tracker never goes down, so ids are never handed out twice. |
| Environment.ScoreTick | MultiAircraftVertiportEnv.py:154-156 | Scoring after the spawn block gives the pass's reward, counters and per-aircraft minimum distances. It removes exactly the ended aircraft, keeps the others with their new records, returns the observation of what is left, and keeps ids below the tracker. |

## Left out

- Rendering, `close`, image loading and colours: user interface and I/O.
- Gym spaces, `seed` and `build_observation_space`: wrappers over gym and numpy. The
  box test `position_range.contains` is kept as the inclusive predicate `Geometry.InBounds`.
- Loading `Config` and `config_vertiport`: that module is not part of this model. Its
  constants are the fields of `Settings.Config`.
- The floating-point numerics:
  - `sqrt` in `metric`, `cos`/`sin` in the velocity and `atan2` in the constructor are
    abstract functions in `Numerics`;
  - positions and speeds are reals;
  - float32 rounding and NaN are not modelled.
- Randomness: the Gaussian speed noise, `random.choice`, and the uniform heading and
  interval draws are parameters. `random_pos`, `random_speed` and `random_heading` are
  not modelled.
- `pressure_reset` and `AircraftList`: they fill a list the tick never reads.
- The gym `info` of `step` is the list of minimum distances. The observation is returned
  as rows of eight reals, not as a float array.
- Object identity: the removal list holds aircraft objects in the source. The model holds
  their ids, which is the same because ids are distinct in the registry.
- Environment.Step: on a failure the model returns only the error. When `random.choice([])` or the
  registry's assertion raises, the source has already moved every aircraft and run the earlier
  vertiports' turns (ticks and admissions) on its mutable state. The model does not expose that
  partial state, because the exception abandons the tick and the caller gets no result from it.
