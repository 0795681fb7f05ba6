# Slay the Spire RL adapter: a verified model

This project models the Python layer that places the Slay the Spire
simulator behind a Gymnasium environment for an Ironclad agent. The layer
has four parts:

- **Observation encoder** (`Observation`). It turns the engine's property
  bundle into a 72-entry vector with a fixed layout:
  - 9 player features;
  - 5 monster slots of 5 features each;
  - 10 hand slots of 3 features each;
  - 8 global features.

  Missing keys become 0. Maximum HP is clamped to at least 1. Extra monsters
  and cards are dropped and empty slots are zero-padded. A bundle the engine
  cannot produce encodes as the all-zero vector.
- **Reward shaper** (`Reward`). It adds up seven independent components
  (`hp_loss`, `strength_gain`, `kill`, `damage`, `gold`, `floor_climb`,
  `deck_thin`) computed from two consecutive vectors. It also returns a
  breakdown of the components that fired, in the order they are computed.
- **Map path optimizer** (`MapEvaluator`). It scores room types with
  weights that depend on the HP ratio and on gold. A memoized backward
  search over the layered map then picks the next node with the best
  reachable path score.
- **Step controller** (`StsEnv.Env`):
  - checks each action against the current screen and charges 0.1 for an
    invalid one;
  - otherwise re-encodes the observation and adds the shaped reward;
  - applies the death penalty (−10) and the act-clear bonus (+20);
  - truncates the episode after 2000 steps.

The engine is not modelled. What a step reads from it is an `Engine` value:
the screen, the hand and energy, whether the card play raises, the random
target draw, and the state after the call. The engine call the step makes
is returned as an `EngineCall`.

Float32 arithmetic is modelled with reals (`real`).

Encoder, shaper and optimizer are functions specified index by index, entry
by entry and node by node. The imperative loops of the source are methods
proved equal to those functions:
- `GetObservation` builds the vector by appending;
- `CalculateRationalReward` accumulates the reward and the breakdown;
- `MaxFutureScore` runs the memoized search;
- `EvaluatePath` scans the candidates.

The environment is a class whose `Step` updates the step counter and the
stored previous observation.

Facts about the code and its callers that the model records:
- The training and test scripts call `action_masks`, at
  train_ppo.py:33, test_env.py:29 and logic_audit_test.py:26. The
  environment does not define it, so the model has no action mask.
- The callers read the info keys `floor` and `hp_percent`, at
  enjoy_ppo.py:44-45, test_env.py:45 and train_ppo.py:26-29. `step` never
  sets them; its info holds either the error flag or the reward breakdown
  (`StsEnv.Info`).
- The shaper reads index 69 as "deck size / 50", but the encoder stores the
  corruption flag there. `Reward.DeckThinReadsCorruptionFlag` shows the
  result: losing Corruption earns +25 as "deck_thin".
- With no candidate, `evaluate_path` returns a bare 0. The map handler
  unpacks two values, so that unpacking raises. This is
  `MapEvaluator.Choice.NoCandidate` together with `StsEnv.UnpackMapChoice`
  and `StsEnv.MapTarget`, which fails on floor 14 whatever the map.

## Model

| member | source | states |
|---|---|---|
| Observation.PlayerLayout | observation.py:30-46 | entry 0 is the HP ratio and entries 1-8 are block, energy, strength, dexterity, vulnerable, weak, frail and artifact, in that order |
| Observation.AppendMonsters | observation.py:48-71 | the monster loop appends exactly the 25 monster-slot entries of the layout and keeps what was before |
| Observation.AppendHand | observation.py:73-88 | the hand loop appends exactly the 30 hand-slot entries of the layout and keeps what was before |
| Observation.GetObservation | observation.py:28-107 | the appended vector equals the index-wise encoding `Encode`, which always has 72 entries |
| Observation.Flag | observation.py:68 | a boolean key encodes as exactly 1.0 or 0.0, and as 1.0 iff the key is present and true |
| Observation.Denominator | observation.py:32-33 | the HP denominator is at least 1; it is max_hp when positive, else 1 (including when absent) |
| Observation.RaisedIsAllZero | observation.py:21-26 | when fetching the bundle raises, every one of the 72 entries is 0 |
| Observation.PlayerHpRatio | observation.py:31-34 | entry 0 times the clamped max_hp is cur_hp, so there is no division by zero; a missing cur_hp gives 0 |
| Observation.MissingScalarsAreZero | observation.py:36-46 | every missing scalar key (player stats, piles, floor, gold, monster and card fields) encodes as 0 |
| Observation.MonsterSlotLayout | observation.py:48-71 | monster slot i is at 9+5i..9+5i+4 with the monster's five features; slots past the list are zero |
| Observation.MonsterHpRatio | observation.py:53-56 | a monster's HP feature divides by a max_hp clamped to at least 1 |
| Observation.ExtraMonstersIgnored | observation.py:50-52 | monsters past the fifth do not change the vector |
| Observation.AliveFlagsBinary | observation.py:67-71 | every monster alive entry is 0.0 or 1.0, padded slots included |
| Observation.HandSlotLayout | observation.py:73-88 | hand slot i is at 34+3i..34+3i+2 with id, cost and upgraded; slots past the hand are zero |
| Observation.ExtraCardsIgnored | observation.py:75-77 | cards past the tenth do not change the vector |
| Observation.GlobalLayout | observation.py:90-105 | entries 64-68 are the pile sizes and floor over 50 and gold over 1000; entries 69-71 are 1.0 iff the corruption, dark embrace or dead branch flag is true |
| Reward.CalculateRationalReward | reward.py:21-147 | the breakdown is exactly the components that fire, in computation order; the reward is the sum of their values |
| Reward.ScalingAndOffense | reward.py:70-106 | the strength, kill and damage blocks extend the breakdown by exactly the ones of those components that fire, and the reward by their values |
| Reward.LongTermGrowth | reward.py:108-130 | the gold and floor-climb blocks extend the breakdown and the reward in the same way |
| Reward.DeckThinning | reward.py:132-145 | the deck-thinning block completes the breakdown and its total |
| Reward.Term | reward.py:32-145 | hp_loss is strictly negative when it fires; every other component is strictly positive when it fires |
| Reward.AliveCount | reward.py:82-83 | the alive count over n slots is at most n |
| Reward.HpSum | reward.py:95-96 | the sum of the monster HP entries lies between 0 and the number of slots when each entry is a ratio in [0, 1] |
| Reward.BreakdownEntries | reward.py:42-145 | an entry is in the breakdown iff its component's trigger holds, with exactly that value |
| Reward.BreakdownKeysDistinct | reward.py:22-145 | no key appears twice in the breakdown dictionary |
| Reward.NoChangeNoReward | reward.py:26-145 | two vectors that agree on HP, strength, monster slots, gold, floor and index 69 give an empty breakdown and reward 0 |
| Reward.HpLossPresentIff | reward.py:26-43 | hp_loss is present iff HP fell, and then its value is 5 × the (negative) HP difference |
| Reward.RewardNonNegativeUnlessHpDrops | reward.py:32-145 | without an HP drop every entry is positive and the reward is non-negative |
| Reward.GrowthTerms | reward.py:70-130 | strength_gain, damage, gold and floor_climb each fire iff their quantity grew (or monster HP fell), with coefficients 0.2, 2, 10 and 50 |
| Reward.KillTermBounds | reward.py:80-90 | kill fires iff fewer monsters are alive; its value is the number killed, between 1 and 5 |
| Reward.DeckThinReadsCorruptionFlag | reward.py:132-145 | losing only the corruption flag (index 69) yields exactly one deck_thin entry worth 25 |
| MapEvaluator.RoomWeights | map_evaluator.py:179-203 | the weight table: panic below 0.3, cautious below 0.5, base otherwise; more than 250 gold adds 3 to the shop weight |
| MapEvaluator.ScoreNode | map_evaluator.py:176-219 | every node score lies in [−5, 8] |
| MapEvaluator.BaseScores | map_evaluator.py:176-219 | without HP or gold adjustment: elite 5, rest 2, shop 1, monster −0.5, event 0.5, treasure 2, others 0 |
| MapEvaluator.AdjustedScores | map_evaluator.py:190-217 | panic and cautious scores, the gold bonus on shops; event and treasure are unaffected |
| MapEvaluator.EliteMonotone | map_evaluator.py:191-199 | the elite score never decreases as the HP ratio grows |
| MapEvaluator.FirstWithX | map_evaluator.py:140-144 | the search finds a floor node with that x, or reports that none has it |
| MapEvaluator.FirstWithXIsFirst | map_evaluator.py:140-144 | the node found is the first of the floor at that x: every node before it has a different x |
| MapEvaluator.HpRatio | map_evaluator.py:187 | the HP ratio times max_hp is cur_hp |
| MapEvaluator.StatsOf | map_evaluator.py:186-188 | the optimizer's standing: an HP ratio that times max_hp is cur_hp, and the engine's gold |
| MapEvaluator.FindNode | map_evaluator.py:140-144 | the break-on-first-match loop returns the node the search function finds, the first with that x |
| MapEvaluator.MaxFutureScore | map_evaluator.py:129-174 | the memoized search returns the unmemoized future value, returns a stored value unchanged, and only adds sound entries |
| MapEvaluator.ScanChildren | map_evaluator.py:154-169 | the loop over the children returns the running maximum from the sentinel, recursing through the memoized search, and keeps the memo sound |
| MapEvaluator.ChildValueOf | map_evaluator.py:157-167 | a child resolves iff a next-floor node sits at its x, and its value is that node's score plus its future |
| MapEvaluator.FutureIsBestOver | map_evaluator.py:154-171 | when some child resolves, the future value is the running maximum over the children and one child attains it |
| MapEvaluator.FutureZeroCases | map_evaluator.py:145-171 | the future value is 0 for a missing node, the last floor, no children, or no child that resolves |
| MapEvaluator.FutureIsMax | map_evaluator.py:154-170 | otherwise the future value is the maximum, over resolving children, of the child's score plus its future |
| MapEvaluator.BestOverIsMax | map_evaluator.py:157-169 | the running maximum bounds every child value and is attained by one (or stays at its start) |
| MapEvaluator.FutureBounds | map_evaluator.py:154-171 | the future value from floor y lies between −5 and 8 per remaining floor, so the −9999 sentinel never survives |
| MapEvaluator.PathScoreDfs | map_evaluator.py:89-127 | the node score plus its future unless on floor 14 or childless; the memo stays sound |
| MapEvaluator.PathScoreBounds | map_evaluator.py:89-127 | every path score lies in [−75, 120], above the −9999 starting best |
| MapEvaluator.Candidates | map_evaluator.py:29-62 | every candidate is a node of the floor after the current one; before the first move the candidates are floor 0 exactly; otherwise the candidates are exactly the next-floor nodes whose x is a child of the current node |
| MapEvaluator.AllWithX | map_evaluator.py:60-62 | a node is among the matches iff it belongs to the floor and has that x |
| MapEvaluator.ChildNodes | map_evaluator.py:56-62 | a node is gathered iff it belongs to the next floor and its x is among the children |
| MapEvaluator.GatherCandidates | map_evaluator.py:29-62 | the gathering loops return exactly the candidate list |
| MapEvaluator.AppendNodesAtX | map_evaluator.py:59-62 | the inner loop appends every node of the floor at that x, in floor order, duplicates kept |
| MapEvaluator.ScoreCandidates | map_evaluator.py:68-87 | the scoring loop returns the x and score of the first candidate with the strictly greatest path score |
| MapEvaluator.NoCandidateCases | map_evaluator.py:47-66 | on floor 14 or beyond, or when the current node is not found, there is no candidate |
| MapEvaluator.EvaluatePath | map_evaluator.py:21-87 | no candidate iff the candidate list is empty; otherwise the x and score of the first candidate with the strictly greatest path score |
| StsEnv.Accepted | sts_env.py:85-142 | validity per screen: in battle, a filled, affordable, non-raising card slot or end turn, and never a negative action or one from 11 up; outside battle, any action from 11 up |
| StsEnv.Env.Dispatch | sts_env.py:82-142 | the action handling accepts exactly what the validity table accepts and makes the engine call of the action table |
| StsEnv.Target | sts_env.py:100-105 | the target is 0 when no monster is alive, otherwise a member of the alive list, and each member can be drawn |
| StsEnv.RestOption | sts_env.py:223-228 | for positive max_hp, rest (0) iff 2·cur_hp < max_hp, smith (1) otherwise |
| StsEnv.TerminalReward | sts_env.py:160-166 | the terminal term is −10 iff HP ≤ 0 (death takes precedence), +20 iff HP > 0 and the floor is above 16, and 0 otherwise |
| StsEnv.UnpackMapChoice | sts_env.py:192 | the unpacking fails exactly when the optimizer found no candidate, and otherwise yields the chosen x |
| StsEnv.HalfRatio | sts_env.py:225 | the ratio test "below 0.5" is the same as the integer test 2·cur_hp < max_hp |
| StsEnv.MapTarget | sts_env.py:190-192 | the map handler's x: none (a raise) iff max_hp is 0 or there is no candidate, so always none from floor 14 on; otherwise the x of the first best-scoring candidate |
| StsEnv.AliveSlotsSpec | sts_env.py:173-184 | the alive list is exactly the slots whose flag exceeds 0.5, ascending, as many as the shaper's alive count |
| StsEnv.Env.AliveMonsters | sts_env.py:173-184 | the loop returns the alive list of the stored observation |
| StsEnv.Env.constructor | sts_env.py:56-69 | a fresh environment has step count 0 and the encoded initial observation |
| StsEnv.Env.Reset | sts_env.py:56-69 | the step count restarts at 0 and the returned observation is the stored one |
| StsEnv.Env.Step | sts_env.py:71-171 | see below |

`StsEnv.Env.Step` states:
- the step count grows by one;
- the episode is truncated iff the count reaches 2000;
- it is terminated iff HP ≤ 0 or the floor is above 16;
- the engine call follows the action table;
- an invalid action:
  - leaves the stored observation unchanged;
  - reports "Invalid Action";
  - pays −0.1 plus the terminal term;
- a valid action:
  - stores the new encoding;
  - reports the breakdown;
  - pays its total plus the terminal term.

## Left out

- The game engine and its mutators are outside the model:
  - `play_card`, `end_turn`, `choose_map_node`, the reward, Neow, campfire,
    treasure, event and card-select calls;
  - the engine's screen transitions.

  A step takes the engine's answers as an `Engine` input and returns the
  call it makes.
- Randomness. The random target draw is the `targetPick` input. The game
  seed drawn by `reset` is not modelled.
- Float32 rounding and the Gymnasium space bounds (−5 to 500) are not
  modelled; arithmetic is on reals.
- Console output of the encoder's fallback is not modelled.
- `_handle_non_combat` is not modelled, except:
  - the rest-site rule (`StsEnv.RestOption`);
  - the map handler's unpacking (`StsEnv.UnpackMapChoice`).

  Its fallbacks that swallow exceptions are not modelled either.
- StsEnv.Env.Step: does not model exceptions that escape the step. The
  step treats every action from 11 up outside battle as accepted. The
  engine calls, reads and expressions that can raise without being caught
  include:
  - the reads of the screen, hand, card cost and energy (sts_env.py:79-80
    and 89-95) and of cur_hp and floor_num (sts_env.py:161 and 164);
  - `end_turn` (sts_env.py:122);
  - building the optimizer (sts_env.py:191), which calls `get_map_info`
    and reads its nodes (map_evaluator.py:7-8);
  - `evaluate_path` (sts_env.py:192), which reads the current x and y
    (map_evaluator.py:26-27) and divides by max_hp
    (map_evaluator.py:187), and the two-value unpacking of a bare 0
    (sts_env.py:192); `StsEnv.MapTarget` models the last two;
  - `get_rewards`, `regain_control`, `pick_reward_card` and `claim_reward`
    (sts_env.py:201-217);
  - the Neow fallback `regain_control` (sts_env.py:221);
  - the division `cur_hp / max_hp` when max_hp is 0 (sts_env.py:225);
  - `choose_campfire_option` (sts_env.py:226 and :228);
  - `choose_treasure_open`, `choose_event_option` and `choose_card_option`
    (sts_env.py:245-249).
- MapEvaluator.HpRatio: a `max_hp` of 0 raises in the source. Here it is a
  precondition, as it is for `MapEvaluator.StatsOf` and
  `StsEnv.RestOption`. The optimizer itself takes the standing as a given
  `Stats` value; `StsEnv.MapTarget` builds it with `StatsOf` and shows a
  max_hp of 0 as the raise.
- MapEvaluator.EvaluatePath: assumes a map with at least 15 floors, each
  node on the floor its y names, and a current y of at least −1.
  - The memo is threaded through one evaluation rather than kept as an
    instance field. The source builds a fresh evaluator for each decision,
    so nothing is lost.
  - The unused `depth` argument and the commented-out logging are dropped.
- StsEnv.Env.constructor: models `__init__` followed by `reset`. Before the
  first `reset` the source's stored observation is `None`.
- `action_masks` is called by the scripts but not defined by the
  environment, and the `floor` and `hp_percent` info keys the scripts read
  are never set; neither exists in the model.
- Reward.CalculateRationalReward: the incoming-damage sum over alive
  monsters is computed but never used, so it does not appear in the
  contract.
- Training, evaluation and test scripts are not part of this model.
