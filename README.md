# Turn-decision engine of a territory-conquest game agent

This project models and proves properties of the decision engine in
`src/logic/strategy.rs`. Each turn the agent gets a snapshot of the game:
bases in 3D space, attack actions already in flight, and the configuration
(level table, grace period, death rate). It answers with a list of attack
orders. The engine:

1. splits the bases into ours, other players' and unclaimed (`filter_bases`);
2. computes the survivors of a source/destination pair (`survivors`). A
   fixed garrison of 5 stays home, and the force loses `death_rate` troops
   per unit of distance beyond `grace_period`;
3. scores every candidate target (other players' bases followed by unclaimed
   ones) by the survivors summed over all our bases. It keeps the first
   candidate with the greatest score, if that score is above 0; a later
   candidate replaces the held one only on a strictly greater score
   (`best_target_base`);
4. sends one order from every one of our bases whose survivors against that
   target are positive, carrying exactly those survivors (`attack`, `decide`).

Modules, one per component of the file:

- `Models` (models.dfy): the snapshot records and the output order.
- `Geometry` (geometry.dfy): `euclid` and `get_base_distance`.
- `Classify` (classify.dfy): `filter_bases`.
- `Attrition` (attrition.dfy): `get_base_level`, `survivors`, the small
  helpers and `get_total_attacking_bits`.
- `Selection` (selection.dfy): `best_target_base`.
- `OrderGeneration` (orders.dfy): `attack`.
- `Decide` (decide.dfy): `decide`, plus two worked snapshots.

The loops of the source are methods with `while` loops:
`Classify.FilterBases`, `Attrition.GetTotalAttackingBits`,
`Selection.BestTargetBase` with its inner summing loop
`Selection.SumOverOurBases`, and `OrderGeneration.Attack`. Each is proved
equal to a recursive specification function. `Decide.Decide` calls these
methods and is proved equal to `Decide.Decision`. The lemmas are proved
about those functions.

The model inputs are plain values. The Rust definitions under
`src/models/` are not reproduced; the records in models.dfy carry only the
fields `strategy.rs` reads.

## Model

| member | source | states |
|---|---|---|
| `Geometry.FloorSqrt` | src/logic/strategy.rs:13 | the square root truncated to an integer: `r*r <= n < (r+1)*(r+1)` |
| `Geometry.FloorSqrtUnique` | src/logic/strategy.rs:13 | that bracket fixes the root: any `r` with `r*r <= n < (r+1)*(r+1)` is the floor square root |
| `Geometry.Euclid` | src/logic/strategy.rs:9-14 | the distance is the truncated square root of the sum of squared per-axis differences |
| `Geometry.BaseDistance` | src/logic/strategy.rs:16-25 | the distance between two bases brackets their squared coordinate distance the same way |
| `Geometry.BaseDistanceSymmetric` | src/logic/strategy.rs:16-25 | distance does not depend on which base is the source |
| `Geometry.BaseDistanceSamePosition` | src/logic/strategy.rs:9-14 | bases at the same position are at distance 0 |
| `Geometry.BaseDistanceExact` | src/logic/strategy.rs:9-14 | when the squared distance is a perfect square `k*k`, the distance is exactly `k` |
| `Attrition.GetBaseLevel` | src/logic/strategy.rs:27-29 | the level table is indexed by the base's level; an in-range level is required because the source panics otherwise |
| `Attrition.GetMinDefenders` | src/logic/strategy.rs:52-61 | always returns the fixed garrison 5, whatever the enemy bases and player count |
| `Attrition.Deaths` | src/logic/strategy.rs:64-68 | no travel loss within the grace period or with a zero death rate |
| `Attrition.Available` | src/logic/strategy.rs:81 | the sendable force is `population - 5`, clamped at 0: never negative, never above the population, 0 when population is at most 5 |
| `Attrition.Survivors` | src/logic/strategy.rs:63-84 | survivors never exceed the population; they are at most 0 when population is at most 5; positive survivors leave the garrison of 5 at home; within the grace period they equal the available force; requires a valid level because of the lookup at line 72 |
| `Attrition.DeathsMonotone` | src/logic/strategy.rs:67-68 | for a fixed non-negative death rate, travel loss never decreases as distance grows |
| `Attrition.DeathsStep` | src/logic/strategy.rs:68 | beyond the grace period, each extra unit of distance costs exactly `death_rate` troops |
| `Attrition.SurvivorsDecreaseWithDistance` | src/logic/strategy.rs:63-81 | a farther destination never gets more survivors from the same source |
| `Attrition.DefendersAtTime` | src/logic/strategy.rs:86-89 | defenders at arrival are never fewer than the population, and equal it at time 0 |
| `Attrition.DefendersGrowWithTime` | src/logic/strategy.rs:86-89 | a later arrival time never faces fewer defenders |
| `Attrition.AttackDecision` | src/logic/strategy.rs:91-98 | the decision is positive exactly when the attackers outnumber the defenders at arrival |
| `Attrition.IncomingBits` | src/logic/strategy.rs:139-147 | the running sum of `amount` over the actions aimed at the uid is 0 when no action is aimed at it |
| `Attrition.Targeting` | src/logic/strategy.rs:141-145 | an action is selected exactly when it is one of the in-flight actions and is aimed at the base's uid; no more actions than the input |
| `Attrition.GetTotalAttackingBits` | src/logic/strategy.rs:137-148 | the loop's result is the sum of `amount` over exactly the actions whose `dest` is the base's uid (0 for no actions) |
| `Attrition.IncomingBitsIsTotalOfTargeting` | src/logic/strategy.rs:139-147 | the running sum equals the total amount of the filtered list of actions aimed at the base |
| `Attrition.IncomingBitsZeroIff` | src/logic/strategy.rs:139-147 | the total is 0 exactly when every action aimed at the base carries nothing |
| `Attrition.IncomingBitsAppend` | src/logic/strategy.rs:141-145 | the total over two lists of actions is the sum of their totals |
| `Classify.SideOf` | src/logic/strategy.rs:40-46 | ours iff `player == our_player`; empty iff `player == 0` and not ours; other iff neither |
| `Classify.Select` | src/logic/strategy.rs:39-47 | every base of a list belongs on that list's side, and no list is longer than the input |
| `Classify.FilterBases` | src/logic/strategy.rs:31-50 | the loop builds the three lists; together they hold exactly the input bases (as multisets) |
| `Classify.SelectPartition` | src/logic/strategy.rs:39-47 | every input base lands in exactly one list: the multisets add up to the input and the lengths to its length |
| `Classify.MultisetStep` | src/logic/strategy.rs:41-45 | pushing one base onto one of the three lists keeps the three-way split of the bases seen so far |
| `Classify.SelectMembership` | src/logic/strategy.rs:39-47 | a base is on a list iff it is an input base classified on that side |
| `Classify.SelectAppend` | src/logic/strategy.rs:39-47 | each list keeps input order: splitting the input splits each list the same way |
| `Classify.SelectDisjoint` | src/logic/strategy.rs:40-46 | no base is on two lists |
| `Classify.PlayerZeroHasNoEmpty` | src/logic/strategy.rs:40-43 | with acting player 0 the ownership test runs first, so no base is classified as unclaimed |
| `Selection.PositiveSumHasContributor` | src/logic/strategy.rs:116-127 | a positive summed score needs at least one of our bases with positive survivors |
| `Selection.SumSurvivors` | src/logic/strategy.rs:116-127 | the survivors of our bases summed for one target, starting from 0: the sum over no bases is 0 (a positive sum needs a contributor, by `Selection.PositiveSumHasContributor`) |
| `Selection.Scores` | src/logic/strategy.rs:115-127 | one score per candidate, in order: the survivors summed over our bases |
| `Selection.FirstMax` | src/logic/strategy.rs:112-132 | none iff no score is positive; otherwise a positive score at least every other, and strictly above every earlier one, so the first seen wins a tie |
| `Selection.BestTarget` | src/logic/strategy.rs:105-135 | a chosen target is one of the candidates and its summed survivors are positive |
| `Selection.SumOverOurBases` | src/logic/strategy.rs:116-127 | the inner loop returns the survivors summed over all our bases |
| `Selection.SumSurvivorsSnoc` | src/logic/strategy.rs:119 | one more base of ours adds its survivors to the running sum |
| `Selection.ScoresSnoc` | src/logic/strategy.rs:115-127 | one more candidate appends its summed score |
| `Selection.ScanStep` | src/logic/strategy.rs:128-131 | the held target is replaced only by a strictly greater score, and the held score follows |
| `Selection.BestTargetBase` | src/logic/strategy.rs:105-135 | the loops return the candidate that the first-maximum scan picks over the summed scores |
| `Selection.NoTargetIff` | src/logic/strategy.rs:112-134 | no target iff every candidate's summed survivors are at most 0 |
| `Selection.ChosenTargetIsFirstMaximum` | src/logic/strategy.rs:112-134 | a chosen target is a candidate with a positive score that no candidate beats, and every earlier candidate scores strictly less |
| `Selection.NoOwnedBasesNoTarget` | src/logic/strategy.rs:113-131 | with no bases of ours every score is 0, so no target is chosen |
| `Selection.BestTargetSingle` | src/logic/strategy.rs:112-134 | with one base of ours and one candidate, the candidate is chosen exactly when that base's survivors against it are positive |
| `OrderGeneration.Contributors` | src/logic/strategy.rs:160-162 | the bases that send troops have valid levels and positive survivors |
| `OrderGeneration.Orders` | src/logic/strategy.rs:160-171 | at most one order per base of ours; each order is aimed at the target and sends a positive amount |
| `OrderGeneration.AttackOrders` | src/logic/strategy.rs:150-175 | no orders without a target; otherwise every order carries a positive amount and is aimed at the chosen target |
| `OrderGeneration.Attack` | src/logic/strategy.rs:150-175 | the loop emits the orders against the chosen target; none when no target is chosen; every amount is positive |
| `OrderGeneration.OrdersSnoc` | src/logic/strategy.rs:160-170 | one more base of ours appends its order exactly when its survivors are positive |
| `OrderGeneration.OrdersMatchContributors` | src/logic/strategy.rs:160-171 | exactly one order per base with positive survivors, in the order of our bases, each from that base's uid and carrying its survivors |
| `OrderGeneration.ContributorMembership` | src/logic/strategy.rs:160-162 | a base sends troops iff it is one of ours with positive survivors; bases with non-positive survivors emit nothing |
| `OrderGeneration.OrdersEmptyIff` | src/logic/strategy.rs:160-171 | no order is emitted iff none of our bases has positive survivors |
| `OrderGeneration.OrdersAppend` | src/logic/strategy.rs:160-171 | orders follow the order of our bases: splitting our bases splits the orders the same way |
| `OrderGeneration.OrderedAmountCoversScore` | src/logic/strategy.rs:160-171 | the troops sent are at least the target's summed score |
| `OrderGeneration.ChosenTargetIsAttacked` | src/logic/strategy.rs:159-171 | whenever a target is chosen at least one order is sent |
| `OrderGeneration.OrdersSingle` | src/logic/strategy.rs:160-170 | one base of ours sends one order carrying its survivors when they are positive, and nothing otherwise |
| `OrderGeneration.AttackOrdersSingle` | src/logic/strategy.rs:150-175 | one base of ours against one candidate: one order carrying the survivors when they are positive, and nothing otherwise |
| `Decide.CandidatePoolIsNotOwned` | src/logic/strategy.rs:184-188 | the candidate pool (other followed by empty) holds exactly the bases the acting player does not own |
| `Decide.OurBasesAreOwned` | src/logic/strategy.rs:184 | our bases are exactly the snapshot's bases owned by the acting player |
| `Decide.ReadyForAttack` | src/logic/strategy.rs:178-188 | a snapshot whose owned bases have valid levels (or that has no candidate) meets what the scan and the order loop need |
| `Decide.Decision` | src/logic/strategy.rs:178-188 | every order of the decision carries a positive amount, and all orders share one destination |
| `Decide.Decide` | src/logic/strategy.rs:178-195 | returns the orders of `attack` over the pool `other ++ empty` and our bases; every amount is positive |
| `Decide.NoOwnedBasesNoOrders` | src/logic/strategy.rs:178-188 | with no owned bases the result is empty |
| `Decide.NoPositiveScoreNoOrders` | src/logic/strategy.rs:178-188 | if no candidate scores above 0 the result is empty |
| `Decide.OrdersAreSound` | src/logic/strategy.rs:178-188 | every order sends a positive amount from a base the acting player owns to a base it does not own, and all orders share one destination |
| `Decide.OneOwnedOneUnclaimed` | src/logic/strategy.rs:184-188 | a snapshot of one owned base then one unclaimed base yields exactly those as our bases and as the pool |
| `Decide.SingleCandidateDuel` | src/logic/strategy.rs:150-175 | with one base of ours and one candidate, the result is one order carrying the survivors when positive, else nothing |
| `Decide.ScenarioWithinGracePeriod` | src/logic/strategy.rs:178-188 | population 20 at distance 5 within grace period 10: one order of 15 troops |
| `Decide.ScenarioBeyondGracePeriod` | src/logic/strategy.rs:178-188 | population 20 at distance 20, grace period 10, death rate 2: survivors are -5 and nothing is sent |

## Left out

- Geometry.Euclid: the source takes the square root in 32-bit floating point and truncates it. The model uses the exact integer floor square root. For large squared distances the float result can differ from the exact floor, and this model does not capture that.
- Geometry.Euclid: `(x1 - x2).abs()` and `dx * dx + dy * dy + dz * dz` are `i32` arithmetic in the source. `x1 - x2` already overflows for far-apart coordinates, and the squared sum overflows as soon as it exceeds 2^31 - 1 (for example at 32768 on two axes, or 30000 on all three). The model uses unbounded integers.
- Attrition.Survivors: `population as i32`, `grace_period as i32`, `death_rate as i32` and `distance as i32` wrap in the source for values at or above 2^31. `(distance - grace_period) * death_rate` can overflow `i32`. The model uses unbounded integers.
- Attrition.Survivors: the source also takes `enemy_bases`, `actions` and `remaining_players`, and computes the in-flight total (line 70). The active formula (line 81) reads none of them, so the model leaves them out. It keeps the level lookup of line 72, because an out-of-range level panics.
- Attrition.DefendersAtTime: `population + dest_time * spawn_rate` is `u32` arithmetic in the source and can overflow. The model does not model that.
- Attrition.AttackDecision: the `as i32` casts on both operands are not modelled.
- Attrition.GetTotalAttackingBits: `amount as i32` and the `i32` running sum can wrap in the source. The model does not model that.
- Selection.BestTargetBase: the summed survivors are `i32` in the source and could overflow with many bases. The model uses unbounded integers. The inner loop over our bases is its own method, `Selection.SumOverOurBases`.
- Selection.BestTargetBase, OrderGeneration.Attack: the source passes `actions`, `remaining_players` and the candidate list on to `survivors`, which ignores them. The model drops these arguments.
- `population_average` (src/logic/strategy.rs:100-103) is unused and divides by zero on an empty slice. It is not modelled.
- The commented-out alternative policies (src/logic/strategy.rs:53-59, 73-80, 185, 187-194) are inactive. Only the active formula of line 81 is modelled.
- The unit test at src/logic/strategy.rs:202-208 expects one default order from a default snapshot. The code returns an empty list there: a default snapshot has no candidate bases. The test is not modelled as a property.
- src/main.rs (an HTTP listener with an empty handler) and src/models/progress.rs (a record that the engine does not use) are not part of this model. Neither are serialization, ownership, cloning or lifetimes.
