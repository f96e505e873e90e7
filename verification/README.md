# Terminal tower-defence strategies: MOMOS and NOOB

This project models the per-turn decision core of two bots for a two-sided
tower-defence game on a 28 by 28 diamond grid: `MOMOS/algo_strategy.py` and
`NOOB_check/algo_strategy.py`. It also proves properties of that model.

Each turn, a strategy does four things:
- It scores candidate spawn cells by the turret damage along the path a unit
  would take from each one (the *risk*).
- It picks the least risky cell and sends scouts or demolishers from it.
- It builds and upgrades turrets from fixed layouts.
- It reinforces the cells around the places where the opponent broke through.

MOMOS also keeps a persistent *dome* mode. Its health check switches the mode
and, when the mode changes, clears the whole board.

The host engine (`gamelib`) is a value `Game.Host`. It holds oracles that
answer as functions of the attempts issued so far in the turn:
- the board snapshot: paths to the edge, the attackers of a cell, occupancy,
  and upgraded turrets;
- the MP reading;
- how many units an attempt placed;
- whether a cell is inside the arena;
- the turn number and both health values.

The class `Game.TurnState` is the host's game state for one turn. It records
every `attempt_spawn`, `attempt_upgrade` and `attempt_remove` in its `trace`.

Each strategy is specified in two layers:
- **Functions.** These take the host, the trace so far and the strategy's
  session. They return the attempts a call makes (`MomosStrategy.Turn`,
  `NoobStrategy.Turn` and the functions below them).
- **Class methods.** The methods of `MomosStrategy.MomosAlgo` and
  `NoobStrategy.NoobAlgo` follow the Python control flow: the same loops, the
  same early exits and the same calls. Each is proved to append exactly what
  its function says.

The properties are lemmas over those functions.

Modules:
- `Game`: cells, unit kinds, attempts, the host, and the per-turn game state.
- `Seqs`: `min`, `list.index`, reversal.
- `PathCost`: the risk of a path, and the per-turn-count estimate.
- `Breach`: the breach filter of `on_action_frame`.
- `MomosSelector` and `NoobSelector`: the two `least_damage_spawn_location` variants.
- `MomosPlan`: `reinforce_location`, `layer1`, and the budget-gated loops of MOMOS.
- `MomosStrategy` and `NoobStrategy`: the turn, the offence, the cadence, and the class.

Edge cases the source handles in its own way, and how the model keeps them:
- **Unreachable start cells.** A cell with no path scores 0. The MOMOS scan
  stops at the first zero score, so it stops at such a cell just as it stops
  at any other zero-risk cell.
- **Empty candidate list.** The MOMOS selector hands the list back unchanged
  (`Selection.Unchanged`).
- **Every NOOB risk is 0.** The NOOB selector returns `None`. `send_scouts`
  then unpacks it, which raises, so no fallback runs. The model turns this
  into a turn that fails (`None`) before it is submitted.

## Model

| member | source | states |
|---|---|---|
| Game.TurnState.constructor | MOMOS/algo_strategy.py:99 | A turn's game state starts with the host given and no attempts issued. |
| Game.Affordable | MOMOS/algo_strategy.py:207 | Holds when the budget check passes: the MP reading is not below the turret's MP cost. |
| Game.TurnState.Board | MOMOS/algo_strategy.py:359 | Computes the board the host shows after the attempts issued so far, which `find_path_to_edge` and `get_attackers` read. |
| Game.TurnState.Mp | MOMOS/algo_strategy.py:207 | Computes `get_resource(MP)` after the attempts issued so far. |
| Game.TurnState.Attempt | MOMOS/algo_strategy.py:109-111 | An attempt is appended to the trace, and its result is the host's count of units placed for that attempt against the earlier attempts. |
| Seqs.MinOf | MOMOS/algo_strategy.py:373 | `min(damages)` is an element of the list and no element is smaller. |
| Seqs.FirstIndex | MOMOS/algo_strategy.py:373 | `damages.index(v)` points at `v`, and no earlier element equals `v`. |
| Seqs.FirstIndexUnique | MOMOS/algo_strategy.py:373 | An index holding `v` with no earlier `v` is the index `list.index` returns. |
| Seqs.Reverse | MOMOS/algo_strategy.py:205 | `l[::-1]` has the same length, with element `i` taken from position `len - 1 - i`. |
| PathCost.Hit | MOMOS/algo_strategy.py:364-365 | Computes what one attacker adds to a path cell's damage: its `damage_i` when it is a turret, 0 otherwise. |
| PathCost.TurretDamage | MOMOS/algo_strategy.py:363-365 | Computes the sum of `damage_i` over the turret attackers of one path cell, in the order the host lists them. |
| PathCost.PathRisk | MOMOS/algo_strategy.py:361-365 | Computes the turret damage summed over every cell of a path, front to back. |
| PathCost.Risk | MOMOS/algo_strategy.py:358-366 | Computes a candidate's risk: the turret damage along its path to the edge, and 0 when the host finds no path. |
| PathCost.CountRisk | NOOB_check/algo_strategy.py:287-291 | Computes the NOOB estimate along a path: for each cell, the number of attackers of any type times the configured turret damage. |
| PathCost.Risks | MOMOS/algo_strategy.py:358-366 | The damages list has one score per candidate, in candidate order, and each is that candidate's risk. |
| PathCost.TurretDamageOnlyTurrets | MOMOS/algo_strategy.py:363-365 | Only attackers of the turret type count: dropping every other attacker leaves the damage unchanged. |
| PathCost.PathRiskAppend | MOMOS/algo_strategy.py:362-365 | The risk of a path is the sum of the risks of its parts. |
| PathCost.PathRiskNonNegative | MOMOS/algo_strategy.py:362-365 | With no turret of negative damage, a path's risk is never negative. |
| PathCost.TurretDamageNonNegative | MOMOS/algo_strategy.py:363-365 | With no turret of negative damage, the damage from any attackers of a cell is never negative. |
| PathCost.RiskNonNegative | MOMOS/algo_strategy.py:358-366 | With no turret of negative damage, a candidate's risk is never negative. |
| PathCost.CountRiskMatchesPathRisk | NOOB_check/algo_strategy.py:283-292 | When every attacker along the path is a turret of the configured damage, the count-times-damage estimate equals the summed turret damage. |
| PathCost.UniformTurretDamage | NOOB_check/algo_strategy.py:290-291 | The damage of `n` turrets of equal damage `d` is `n * d`. |
| PathCost.PathDamage | MOMOS/algo_strategy.py:361-365 | The inner loops add `damage_i` for every turret attacker of every path cell, which is exactly the path's risk. |
| Breach.OpponentBreaches | MOMOS/algo_strategy.py:484-491 | Computes the locations recorded from a batch of breach events: those whose owner flag is not 1, in arrival order. |
| Breach.OpponentBreachesAppend | MOMOS/algo_strategy.py:484-491 | Breaches are recorded event by event, so two batches recorded in turn give the record of their concatenation, in arrival order. |
| Breach.OpponentBreachesExact | MOMOS/algo_strategy.py:484-491 | A location is recorded exactly when some event at it has an owner flag other than 1, and no more locations are recorded than there are events. |
| Breach.OneOfTwoRecorded | NOOB_check/algo_strategy.py:347-354 | Of an opponent breach and an own breach, only the opponent's location is recorded. |
| MomosSelector.Choice | MOMOS/algo_strategy.py:354-373 | Computes the MOMOS pick: an empty list comes back unchanged, otherwise the first zero-risk candidate, otherwise the first candidate of least risk, each paired with its risk. |
| MomosSelector.Evaluated | MOMOS/algo_strategy.py:358-368 | Computes how many candidates the scan scores: up to and including the first zero-risk one, or all of them. |
| MomosSelector.LeastDamage | MOMOS/algo_strategy.py:344-373 | The scan returns the first zero-risk candidate at once, after scoring only the candidates up to it. Without one, it returns the first candidate of least risk. An empty list comes back unchanged, and a non-empty list always yields a pick among the options. |
| MomosSelector.ChoicePicksOption | MOMOS/algo_strategy.py:355-373 | A non-empty candidate list always yields a pick, and the pick is one of the candidates. |
| MomosSelector.ChoiceFirstSafe | MOMOS/algo_strategy.py:367-368 | A zero-risk candidate with no earlier zero-risk candidate is returned with risk 0, after exactly that many evaluations. |
| MomosSelector.ChoiceLeastRisk | MOMOS/algo_strategy.py:373 | Without a zero-risk candidate every candidate is scored. The pick has the least risk of all, and every earlier candidate has a strictly higher risk. |
| MomosSelector.ChoiceIsLeastWhenNonNegative | MOMOS/algo_strategy.py:358-373 | With no negative damage, the early return never picks worse than a full scan would. |
| MomosSelector.SafeSecondCandidateWins | MOMOS/algo_strategy.py:358-368 | For `[[7,6],[8,5]]`, where only `[8,5]` is safe, the scan picks `[8,5]` after two evaluations. |
| MomosSelector.SafeFirstCandidateShortCircuits | MOMOS/algo_strategy.py:367-368 | For `[[8,5],[7,6]]`, where `[8,5]` is safe, the scan picks `[8,5]` after one evaluation. |
| MomosSelector.ParallelChoice | MOMOS/algo_strategy.py:44-52 | Computes the pair the parallel variant returns: the first candidate of least risk with its risk, and nothing for an empty list, where `min` raises. |
| MomosSelector.ComputeDamage | MOMOS/algo_strategy.py:27-42 | `compute_damage` pairs the location with its risk. |
| MomosSelector.ReduceMin | MOMOS/algo_strategy.py:50 | `min(results, key=score)` returns the first pair of least score. An empty list has no answer, where `min` raises. |
| MomosSelector.LeastDamageParallel | MOMOS/algo_strategy.py:44-52 | The fan-out, run in order, followed by the reduction returns the first candidate of least risk, paired with that risk. |
| MomosSelector.ParallelMatchesSequential | MOMOS/algo_strategy.py:44-52 | The parallel and sequential selectors agree whenever no candidate is risk-free or no damage is negative. |
| MomosSelector.ParallelNoWorse | MOMOS/algo_strategy.py:44-52 | The parallel variant's score is never higher than the sequential scan's. |
| MomosPlan.ShiftX | MOMOS/algo_strategy.py:278-281 | Computes the column shift: columns 3..13 move right by 2, other columns below 25 move left by 2, and columns from 25 up stay. |
| MomosPlan.ShiftY | MOMOS/algo_strategy.py:283-286 | The row shift never leaves a row below 5, and leaves rows from 10 up unchanged. |
| MomosPlan.Neighbours | MOMOS/algo_strategy.py:288-294 | Computes the neighbour list of the shifted point: two rows up, two columns toward the middle, one row down only in columns 9..17, then the point itself. |
| MomosPlan.NeighboursShape | MOMOS/algo_strategy.py:288-294 | The neighbour list is `[i,j+2]`, then `[i+2,j]` (or `[i-2,j]` past column 13), then `[i,j-1]` only for columns 9..17, then the shifted point itself. Its cells are distinct, and each lies in row 4 or higher. |
| MomosPlan.ShiftLeavesBoardOnlyAtLeftEdge | MOMOS/algo_strategy.py:278-281 | On the board's columns, the column shift goes negative exactly for columns 0 and 1, and never past column 27. |
| MomosPlan.FillAttempts | MOMOS/algo_strategy.py:298-304 | Computes the fill loop: per neighbour in order, stop when MP is below the turret cost, skip a neighbour on the path, otherwise attempt one turret there. |
| MomosPlan.FillPlacesOffPathTurrets | MOMOS/algo_strategy.py:298-304 | The fill spawns single turrets only, only on neighbours, never on a cell of the egress path, and at most one per neighbour. |
| MomosPlan.Considered | MOMOS/algo_strategy.py:299-301 | The fill reaches at most the whole neighbour list. |
| MomosPlan.FillIsBudgetedPrefix | MOMOS/algo_strategy.py:299-304 | The fill is the off-path neighbours of a prefix of the list, in list order. When it stops early, the budget check has just failed. |
| MomosPlan.FillChecksPassed | MOMOS/algo_strategy.py:299-301 | Before every neighbour the fill reaches, the budget check passed. |
| MomosPlan.ReinforceAttempts | MOMOS/algo_strategy.py:273-304 | Computes what `reinforce_location` attempts: nothing without a non-empty path from the last spawn location, otherwise the fill over the neighbours against that path. |
| MomosPlan.ReinforceShape | MOMOS/algo_strategy.py:273-304 | Reinforcing attempts at most four single-turret spawns, each on a neighbour off the path from the last spawn location, and none at all without that path. |
| MomosPlan.GatedWalk | MOMOS/algo_strategy.py:183-209 | Computes the loop shape shared by `build_reactive_defense` and both `layer1` loops: per item in order, stop when MP is below the turret cost, otherwise run the job against the attempts so far. |
| MomosPlan.WalkStep | MOMOS/algo_strategy.py:206-209 | When the budget check passes, the gated loop runs the job on the head item and continues from the trace that leaves. |
| MomosPlan.WalkHalt | MOMOS/algo_strategy.py:207-208 | The gated loop attempts nothing once the budget check fails or the items run out. |
| MomosPlan.WalkReached | MOMOS/algo_strategy.py:206-209 | A gated loop reaches at most all of its items. |
| MomosPlan.WalkStopsOnlyWhenBroke | MOMOS/algo_strategy.py:207-208 | A gated loop that stops before the end does so because the budget check failed. |
| MomosPlan.WalkVisitsReached | MOMOS/algo_strategy.py:185-197 | Every item the loop reaches gets its job's attempts. |
| MomosPlan.WalkKeeps | MOMOS/algo_strategy.py:183-209 | A property of every attempt a job makes holds of every attempt the gated loop makes. |
| MomosPlan.WalkLength | MOMOS/algo_strategy.py:206-209 | A gated loop makes at most the per-item bound times the item count attempts. |
| MomosPlan.ReactiveAttempts | MOMOS/algo_strategy.py:204-209 | Computes what `build_reactive_defense` attempts: the gated walk reinforcing around each breach of the list it is given. |
| MomosPlan.ReactivePlacesTurrets | MOMOS/algo_strategy.py:204-209 | Reactive defence attempts only single-turret spawns, at most four per breach. |
| MomosPlan.NewestBreachFirst | MOMOS/algo_strategy.py:205-209 | The most recent breach is reinforced first, and the older ones follow from the trace that leaves. |
| MomosPlan.SpawnRemoveAttempts | MOMOS/algo_strategy.py:109-113 | Computes what `attempt_spwan_remove` attempts: the spawn, then the removal of that cell only when the spawn placed a unit. |
| MomosPlan.LayerEntryAttempts | MOMOS/algo_strategy.py:184-197 | Computes one `layer1` entry: a reinforcement when the cell is empty after turn 0, then its turret, spawned and removed in the second list. |
| MomosPlan.LayerAttempts | MOMOS/algo_strategy.py:183-197 | Computes one `layer1` loop: the gated walk of its entries. |
| MomosPlan.LayerEntryShape | MOMOS/algo_strategy.py:187-197 | A `layer1` entry always attempts a turret on its own cell. Apart from single turrets it attempts only the removal of that cell, and only in the spawn-then-remove loop. |
| MomosPlan.LayerIsBudgetedPrefix | MOMOS/algo_strategy.py:183-197 | Every layer cell the loop reaches gets a turret attempt. When the loop stops early, the budget check has failed. |
| MomosPlan.LayerPlacesTurrets | MOMOS/algo_strategy.py:183-197 | A layer loop attempts single turrets, and removals only of its own cells and only in the spawn-then-remove loop. |
| MomosPlan.Layer1Attempts | MOMOS/algo_strategy.py:178-197 | Computes what `layer1` attempts: the first list, then the second list with spawn and remove. |
| MomosPlan.Layer1Shape | MOMOS/algo_strategy.py:178-197 | `layer1` attempts single turrets, plus removals of inner-layer cells. |
| MomosStrategy.ScoutTurn | MOMOS/algo_strategy.py:146-158 | Holds on the normal-mode scout turns: every turn before 10, odd turns to 14, turns `1 (mod 3)` to 29, then turns `1 (mod 4)`. |
| MomosStrategy.ScoutWithinFiveTurns | MOMOS/algo_strategy.py:146-158 | In normal mode, scouts go out on at least one of any five consecutive turns. |
| MomosStrategy.LateCadence | MOMOS/algo_strategy.py:156-158 | From turn 30 on, scout turns are exactly four apart. |
| MomosStrategy.QuietStretch | MOMOS/algo_strategy.py:152-158 | Turns 29 to 32 send no scouts, between scout turns 28 and 33. |
| MomosStrategy.EnterDome | MOMOS/algo_strategy.py:170 | Holds when the emergency test fires: the enemy leads by more than 8 while my health is below 16, or the enemy is below 6, or I am below 11. |
| MomosStrategy.ModeStep | MOMOS/algo_strategy.py:170-175 | The emergency test enters dome mode and clears the board. A mode change always clears the board, and a clear happens only in or into dome mode. Outside the emergency, a lead above 7 in dome mode leaves it and clears the board, and any other turn keeps the mode without clearing. |
| MomosStrategy.ModeSettles | MOMOS/algo_strategy.py:170-175 | With the health values unchanged, a second health check keeps the mode: it does not oscillate. |
| MomosStrategy.SendScoutsStep | MOMOS/algo_strategy.py:310-336 | Computes `send_scouts`: one 1000-scout spawn at the selector's pick over the reversed options, and the last spawn location moves there only when units were placed. |
| MomosStrategy.SuicidalStep | MOMOS/algo_strategy.py:245-267 | Computes `sucidal_scouts` and `sucidal_scouts1`: supports along the diagonal, their upgrade, then two 1000-scout spawns, each remembered when placed. |
| MomosStrategy.DomeStep | MOMOS/algo_strategy.py:138-144 | Computes the dome offence: the left diagonal when the selector picks `[13,0]` from `[13,0],[14,0]`, otherwise the right one. |
| MomosStrategy.OffenceStep | MOMOS/algo_strategy.py:138-158 | Computes the offence: the dome offence in dome mode, else `send_scouts` on a scout turn, else nothing. |
| MomosStrategy.OffenceShape | MOMOS/algo_strategy.py:138-158 | The offence never removes. Off-cadence in normal mode it does nothing. On a scout turn it is one 1000-scout spawn at one of the scout candidates. |
| MomosStrategy.ScoutOptionsReversed | MOMOS/algo_strategy.py:315-316 | The candidates are scanned from `[17,3]` back to `[7,6]`. |
| MomosStrategy.OffenceMovesLastOnlyOnPlacement | MOMOS/algo_strategy.py:250-267 | The last spawn location changes only to a cell where this offence's scout spawn placed units. |
| MomosStrategy.DomeLane | MOMOS/algo_strategy.py:138-144 | Dome mode uses one of the two support diagonals. It takes the left one exactly when `[13,0]` is risk-free, or `[14,0]` is risky and `[13,0]` is no riskier. |
| MomosStrategy.SupportAttempts | MOMOS/algo_strategy.py:116-127 | Every support cell gets a one-unit support spawn, plus an upgrade when asked. Nothing else is attempted. |
| MomosStrategy.Sweep | MOMOS/algo_strategy.py:239-243 | The sweep makes one attempt per grid cell. |
| MomosStrategy.SweepCoversGrid | MOMOS/algo_strategy.py:239-243 | Every cell of the 28 by 28 grid gets a removal. |
| MomosStrategy.SweepOnlyRemoves | MOMOS/algo_strategy.py:239-243 | The sweep attempts nothing but single-cell removals. |
| MomosStrategy.DefenceAttempts | MOMOS/algo_strategy.py:163-166 | Computes the defence: reactive defence over the breaches newest first, the two support calls, then `layer1`, each against the attempts before it. |
| MomosStrategy.DefenceShape | MOMOS/algo_strategy.py:163-166 | The defence sends no scouts, and removes only inner-layer cells. |
| MomosStrategy.Turn | MOMOS/algo_strategy.py:131-175 | Computes `starter_strategy`: the offence, the defence from the offence's last spawn location, then the sweep when the mode step clears, with the new mode and last spawn location. |
| MomosStrategy.TurnSweepsOnlyOnModeChange | MOMOS/algo_strategy.py:131-175 | The turn's new mode is the health check's. A clear ends the turn with the full sweep. Any removal outside the inner layer happens only when the board is cleared. |
| MomosStrategy.TurnFollowsCadence | MOMOS/algo_strategy.py:146-166 | In normal mode a turn off the cadence sends no scouts. A scout turn sends exactly one scout spawn, first in the turn and at a scout candidate. |
| MomosStrategy.TurnMovesLastOnlyOnPlacement | MOMOS/algo_strategy.py:131-175 | Across a turn, the last spawn location changes only to a cell where a scout spawn of that turn placed units. |
| MomosStrategy.HealthDeficitEntersDome | MOMOS/algo_strategy.py:170-172 | At health 10 against 20 the turn enters dome mode and ends with the full board sweep. |
| MomosStrategy.MomosAlgo.constructor | MOMOS/algo_strategy.py:81-89 | A new strategy is in normal mode, with last spawn `[13,0]` and no breaches. |
| MomosStrategy.MomosAlgo.OnTurn | MOMOS/algo_strategy.py:91-106 | A turn submits exactly the turn's attempts and moves to the turn's session. |
| MomosStrategy.MomosAlgo.StarterStrategy | MOMOS/algo_strategy.py:131-175 | The method appends exactly the turn's attempts and leaves the turn's session. |
| MomosStrategy.MomosAlgo.Defence | MOMOS/algo_strategy.py:163-166 | Reactive defence, supports and `layer1` append exactly the defence attempts. |
| MomosStrategy.MomosAlgo.HealthCheck | MOMOS/algo_strategy.py:170-175 | The mode becomes the health check's, and the sweep is appended exactly when it clears. |
| MomosStrategy.MomosAlgo.Offence | MOMOS/algo_strategy.py:138-158 | The offence appends its attempts and moves the last spawn location as the offence step says. |
| MomosStrategy.MomosAlgo.AttemptSpawnRemove | MOMOS/algo_strategy.py:109-113 | A removal follows the spawn exactly when the spawn placed a unit, and the result says whether it did. |
| MomosStrategy.MomosAlgo.SetSupports | MOMOS/algo_strategy.py:116-120 | Supports at `[1,12]` and `[2,11]`, each upgraded. |
| MomosStrategy.MomosAlgo.SetSupports1 | MOMOS/algo_strategy.py:122-127 | A support at `[3,10]`, upgraded only after turn 0. |
| MomosStrategy.MomosAlgo.SupportLoop | MOMOS/algo_strategy.py:118-127 | The shared support loop appends its support attempts. |
| MomosStrategy.MomosAlgo.Layer1 | MOMOS/algo_strategy.py:178-197 | The two layer loops append exactly the `layer1` attempts. |
| MomosStrategy.MomosAlgo.LayerLoop | MOMOS/algo_strategy.py:183-197 | One budget-gated layer loop appends exactly its attempts. |
| MomosStrategy.MomosAlgo.LayerEntry | MOMOS/algo_strategy.py:184-197 | One layer entry: reinforce an empty cell after turn 0, then spawn (and remove, in the second loop). |
| MomosStrategy.MomosAlgo.BuildReactiveDefense | MOMOS/algo_strategy.py:204-209 | The breaches, newest first, are reinforced until the budget check fails. |
| MomosStrategy.MomosAlgo.Reinforce | MOMOS/algo_strategy.py:273-304 | Reinforcing appends exactly the budgeted off-path fill around the shifted point. |
| MomosStrategy.MomosAlgo.SendScouts | MOMOS/algo_strategy.py:310-336 | Scouts go to the least-risk reversed candidate, and the last spawn moves there only when units were placed. |
| MomosStrategy.MomosAlgo.SuicidalScouts | MOMOS/algo_strategy.py:245-255 | The left diagonal of supports and its upgrade, then scouts at `[14,0]` and `[15,1]`, each remembered when placed. |
| MomosStrategy.MomosAlgo.SuicidalScouts1 | MOMOS/algo_strategy.py:257-267 | The right diagonal of supports and its upgrade, then scouts at `[13,0]` and `[12,1]`, each remembered when placed. |
| MomosStrategy.MomosAlgo.RemoveAll | MOMOS/algo_strategy.py:239-243 | The whole 28 by 28 sweep of removals is appended. |
| MomosStrategy.MomosAlgo.OnActionFrame | MOMOS/algo_strategy.py:473-493 | Opponent breaches are appended to the record, in order. |
| NoobSelector.AllZero | NOOB_check/algo_strategy.py:315 | Holds when every score is 0, the test `not any(damages)`. |
| NoobSelector.Choice | NOOB_check/algo_strategy.py:300-318 | Computes the NOOB pick: an empty list comes back unchanged, `None` when every risk is 0, otherwise the first candidate of least risk with its risk. |
| NoobSelector.LeastDamage | NOOB_check/algo_strategy.py:294-318 | Every candidate is scored, with no early exit. An empty list comes back unchanged. When every score is 0 the answer is `None`. Otherwise it is the first minimum. |
| NoobSelector.NoPickIffAllZero | NOOB_check/algo_strategy.py:315-316 | For a non-empty list the answer is `None` exactly when every candidate's risk is 0. |
| NoobSelector.NoPathNoPick | NOOB_check/algo_strategy.py:306-316 | When no candidate has a path, the answer is `None`. |
| NoobSelector.PickIsFirstLeast | NOOB_check/algo_strategy.py:318 | A pick is the first candidate of least risk, and some candidate's risk is not 0. |
| NoobSelector.AgreesWithMomos | NOOB_check/algo_strategy.py:294-318 | With no negative damage and some nonzero risk, the NOOB and MOMOS selectors make the same choice. |
| NoobSelector.Estimate | NOOB_check/algo_strategy.py:283-292 | Computes the estimate for one location: the attacker count along its path times the turret damage, and 0 with no path. |
| NoobSelector.DamageEstimate | NOOB_check/algo_strategy.py:283-292 | The estimate adds attacker count times turret damage for each path cell, and is 0 with no path. |
| NoobSelector.CountRiskNonNegative | NOOB_check/algo_strategy.py:288-291 | With non-negative turret damage, the estimate is never negative. |
| NoobSelector.EstimateAgreesWithRisk | NOOB_check/algo_strategy.py:283-292 | The estimate is 0 with no path and never negative. It equals the selector's risk when every attacker is a turret of the configured damage. |
| NoobStrategy.ReinforceNeighbours | NOOB_check/algo_strategy.py:222-225 | The list starts with `[i+1,j]` and `[i-1,j]`. It holds `[i,j-1]` exactly for columns 9..17, and nothing else, so it has three cells there and two otherwise. |
| NoobStrategy.Buildable | NOOB_check/algo_strategy.py:227-228 | Holds for a neighbour that is not one of the illegal cells and lies in the arena. |
| NoobStrategy.TurretPairs | NOOB_check/algo_strategy.py:226-230 | Computes the reinforcement loop: a turret and its upgrade on every neighbour that is not an illegal cell and is in the arena, in order. |
| NoobStrategy.ReinforceAttempts | NOOB_check/algo_strategy.py:220-230 | Computes what `reinforce_location` attempts: the turret pairs over the neighbours of the point. |
| NoobStrategy.TurretPairsShape | NOOB_check/algo_strategy.py:226-230 | Every buildable neighbour gets a turret spawn immediately followed by its upgrade. Nothing else is attempted, and illegal and off-arena cells are skipped. |
| NoobStrategy.NeighbourExamples | NOOB_check/algo_strategy.py:188-192 | The neighbours of `[13,13]`, `[4,12]`, `[23,12]` and `[1,12]`, as the reactive defence uses them. |
| NoobStrategy.IllegalNeverBuilt | NOOB_check/algo_strategy.py:221-227 | No turret is spawned or upgraded on `[0,13]`, `[1,13]`, `[26,13]` or `[27,13]`. |
| NoobStrategy.BreachSide | NOOB_check/algo_strategy.py:187-191 | Computes the side point a breach reinforces: `[4,12]` for a breach left of column 14, `[23,12]` otherwise. |
| NoobStrategy.BreachBlock | NOOB_check/algo_strategy.py:187-192 | Computes what one recorded breach triggers: reinforcement around its side point, then around `[13,13]`. |
| NoobStrategy.ReactiveAttempts | NOOB_check/algo_strategy.py:185-192 | Computes `build_reactive_defense`: one block per recorded breach, oldest first, with no budget check. |
| NoobStrategy.ReactiveAppend | NOOB_check/algo_strategy.py:186-192 | Breaches are handled one after another, in recorded order. |
| NoobStrategy.NewestBreachLast | NOOB_check/algo_strategy.py:186-192 | The most recent breach is reinforced last. |
| NoobStrategy.BreachBlockCells | NOOB_check/algo_strategy.py:187-192 | A breach reinforces around its side's point (`[4,12]` or `[23,12]`) and then around `[13,13]`. |
| NoobStrategy.ReactiveFortifies | NOOB_check/algo_strategy.py:185-192 | Reactive defence only spawns single turrets and upgrades. |
| NoobStrategy.LayerEntryAttempts | NOOB_check/algo_strategy.py:175-179 | Computes one `layer1` entry: reinforcement when the cell is empty after turn 0, then a turret there and its upgrade. |
| NoobStrategy.LayerAttempts | NOOB_check/algo_strategy.py:171-179 | Computes the `layer1` loop over its cells, each entry seeing the board its predecessors left. |
| NoobStrategy.LayerEntryShape | NOOB_check/algo_strategy.py:175-179 | A layer entry only fortifies, and always attempts the turret and its upgrade on its own cell. |
| NoobStrategy.LayerShape | NOOB_check/algo_strategy.py:171-179 | `layer1` only fortifies, and attempts a turret and an upgrade on every layer cell. |
| NoobStrategy.UpgradedIn | NOOB_check/algo_strategy.py:86-100 | Holds when some watched cell holds an upgraded turret. |
| NoobStrategy.Lane | NOOB_check/algo_strategy.py:103-105 | Computes one lane attack: 1000 demolishers on the lane, a one-unit support beside it, and its upgrade. |
| NoobStrategy.LeftRightAttempts | NOOB_check/algo_strategy.py:82-120 | Computes `left_right`: the left lane when the left watch area has no upgraded turret, else the right lane when the right one has none, else the selector's lane (left when it has no answer), each with its support and upgrade. |
| NoobStrategy.LeftRightLane | NOOB_check/algo_strategy.py:82-120 | The demolishers always go down one of the two lanes. They take the right lane exactly when the left watch area holds an upgraded turret, and either the right one does not or the right lane is strictly less risky. |
| NoobStrategy.Surroundings | NOOB_check/algo_strategy.py:275 | Computes the five probe cells around a spawn location. |
| NoobStrategy.Probes | NOOB_check/algo_strategy.py:276-279 | Computes the probes: a one-unit support spawn and its removal on every in-arena cell, in order. |
| NoobStrategy.ProbesOnly | NOOB_check/algo_strategy.py:276-279 | Probes touch only in-arena cells of the list, as one-unit support spawns and single-cell removals, at most two per cell. |
| NoobStrategy.ProbesCover | NOOB_check/algo_strategy.py:276-279 | Every in-arena cell of the list gets a one-unit support spawn and a removal. |
| NoobStrategy.ProbesPaired | NOOB_check/algo_strategy.py:278-279 | Every probe spawn is followed at once by the removal of its cell, and every removal comes right after the support spawn on its cell. |
| NoobStrategy.ProbesShape | NOOB_check/algo_strategy.py:275-279 | Probes touch only in-arena cells of the list, with one-unit supports and removals. Every in-arena cell gets a support spawn and a removal, and each spawn is removed by the very next attempt. |
| NoobStrategy.SendScoutsAttempts | NOOB_check/algo_strategy.py:258-281 | Computes `send_scouts`: probes around the selector's pick and a 1000-scout spawn there, or a failure (`None`) when the selector answers `None`. |
| NoobStrategy.SendScoutsRaises | NOOB_check/algo_strategy.py:265-268 | `send_scouts` fails exactly when every candidate's risk is 0. |
| NoobStrategy.BurstShape | NOOB_check/algo_strategy.py:273-281 | The burst ends with the 1000-scout spawn. Before it come only non-scout attempts on the surrounding cells. |
| NoobStrategy.SendScoutsOutcome | NOOB_check/algo_strategy.py:258-281 | A successful `send_scouts` sends 1000 scouts from a least-risk candidate, after probes on that candidate's surroundings only. |
| NoobStrategy.FindLocationAttempts | NOOB_check/algo_strategy.py:124-140 | Computes `find_location`: `send_scouts` without an answer, `left_right` when the least risk exceeds 400, otherwise `send_scouts`. |
| NoobStrategy.FindLocationRoutes | NOOB_check/algo_strategy.py:124-140 | A least risk above 400 switches to the demolisher lanes. Otherwise the scouts are sent. It fails exactly when `send_scouts` would. |
| NoobStrategy.ScoutTurn | NOOB_check/algo_strategy.py:151-166 | Holds on the scout turns: turns from 3 that are `1 (mod 3)` before turn 30, then `1 (mod 4)`. |
| NoobStrategy.ScoutSpacing | NOOB_check/algo_strategy.py:155-166 | Two scout turns are at least three turns apart. |
| NoobStrategy.ScoutWithinFiveTurns | NOOB_check/algo_strategy.py:155-166 | From turn 3 on, any five consecutive turns include a scout turn. |
| NoobStrategy.QuietStretches | NOOB_check/algo_strategy.py:151-166 | No scouts up to turn 3. Turn 4 is the first scout turn. Between scout turns 28 and 33 there are none. |
| NoobStrategy.TurnFailsOnlyWhenBlind | NOOB_check/algo_strategy.py:142-169 | A turn fails exactly on a scout turn where every candidate's risk is 0. |
| NoobStrategy.DefenceShape | NOOB_check/algo_strategy.py:168-169 | The defence only fortifies, and covers every layer cell with a turret and an upgrade. |
| NoobStrategy.TurnDefends | NOOB_check/algo_strategy.py:142-169 | A completed turn attempts a turret and an upgrade on every layer cell, and everything after the offence only fortifies. |
| NoobStrategy.OffenceAttempts | NOOB_check/algo_strategy.py:151-166 | Computes the offence: nothing before turn 2, `left_right` on turn 2, `send_scouts` on a scout turn, nothing otherwise. |
| NoobStrategy.DefenceAttempts | NOOB_check/algo_strategy.py:168-169 | Computes the defence: `layer1`, then the reactive defence over the recorded breaches. |
| NoobStrategy.Turn | NOOB_check/algo_strategy.py:142-169 | Computes `starter_strategy`: a failure when the offence fails, otherwise the offence followed by the defence. |
| NoobStrategy.LeftRightSendsNoScouts | NOOB_check/algo_strategy.py:102-120 | The lane attack spawns no scouts. |
| NoobStrategy.OffenceScouts | NOOB_check/algo_strategy.py:151-166 | Off the cadence the offence sends no scouts. On it, the offence's last attempt is the scout spawn at a candidate, and there is no other scout spawn. |
| NoobStrategy.TurnOffCadence | NOOB_check/algo_strategy.py:151-169 | A turn off the cadence sends no scouts. |
| NoobStrategy.TurnOnCadence | NOOB_check/algo_strategy.py:155-169 | A completed scout turn has exactly one scout spawn, at a candidate. |
| NoobStrategy.NoobAlgo.constructor | NOOB_check/algo_strategy.py:50-57 | A new strategy has no breaches, no health history, and last enemy health -1. |
| NoobStrategy.NoobAlgo.OnTurn | NOOB_check/algo_strategy.py:59-76 | A turn submits the turn's attempts, or none when it fails. The enemy health is always logged, and the last enemy health is updated only when the turn completes. |
| NoobStrategy.NoobAlgo.StarterStrategy | NOOB_check/algo_strategy.py:142-169 | The method succeeds exactly when the turn does, and then appends exactly the turn's attempts. |
| NoobStrategy.NoobAlgo.Offence | NOOB_check/algo_strategy.py:151-166 | The method succeeds exactly when the offence does, and then appends exactly its attempts. |
| NoobStrategy.NoobAlgo.BuildDefences | NOOB_check/algo_strategy.py:195-207 | The method appends the `layer1` attempts. |
| NoobStrategy.NoobAlgo.Layer1 | NOOB_check/algo_strategy.py:171-183 | Each layer cell in order: reinforce it after turn 0 when empty, then spawn and upgrade a turret. |
| NoobStrategy.NoobAlgo.LayerEntry | NOOB_check/algo_strategy.py:175-179 | One layer entry appends exactly its attempts. |
| NoobStrategy.NoobAlgo.BuildReactiveDefense | NOOB_check/algo_strategy.py:185-192 | Every breach in recorded order reinforces its side's point and `[13,13]`. |
| NoobStrategy.NoobAlgo.Reinforce | NOOB_check/algo_strategy.py:220-230 | The method appends the turret-and-upgrade pairs over the neighbours. |
| NoobStrategy.NoobAlgo.PairsLoop | NOOB_check/algo_strategy.py:226-230 | Illegal cells are skipped, and each in-arena cell gets a turret spawn and an upgrade. |
| NoobStrategy.NoobAlgo.LeftRight | NOOB_check/algo_strategy.py:82-120 | The two upgraded-turret scans, then the lane attack, append exactly the lane attempts. |
| NoobStrategy.NoobAlgo.SendScouts | NOOB_check/algo_strategy.py:258-281 | The method succeeds exactly when a pick exists, and then appends the burst. On failure it appends nothing. |
| NoobStrategy.NoobAlgo.ProbeAround | NOOB_check/algo_strategy.py:275-279 | Support-and-remove probes go on the in-arena surroundings of the pick. |
| NoobStrategy.NoobAlgo.FindLocation | NOOB_check/algo_strategy.py:124-140 | The method succeeds exactly when the route does, and then appends its attempts. |
| NoobStrategy.NoobAlgo.OnActionFrame | NOOB_check/algo_strategy.py:336-356 | Opponent breaches are appended to the record, in order. |
| NoobStrategy.FindUpgradedTurret | NOOB_check/algo_strategy.py:86-100 | The scan reports `True` exactly when some watched cell holds an upgraded turret. |

## Left out

- The game engine (`gamelib`) is not part of this model. Pathfinding, attacker lookup, the board, the MP pool and attempt placement are oracles of `Game.Host`.
- Configuration parsing in `on_game_start` is left out. The unit shorthands are the `UnitKind` constructors. The turret MP cost and `damage_i` are `Host` fields.
- JSON parsing of action frames is left out. `on_action_frame` receives already-parsed breach events (location and owner flag).
- Random seeding, `debug_write` and `submit_turn` are left out. A turn's submission is the attempts it returns.
- The Pool fan-out of `least_damage_spawn_location_parallel` runs in order here. Worker scheduling does not affect the reduction, which is modelled.
- Floating-point MP, damage and health are modelled as exact reals, with no rounding.
- `restall_low_health` is left out in both files. In NOOB, `build_defences` calls it, so `NoobStrategy.NoobAlgo.BuildDefences` states only the `layer1` attempts. Its per-unit health readings are not part of the host snapshot modelled here.
- `stall_with_interceptors` (random deployment), `reset_with_temporary_supports`, `detect_enemy_unit` and `filter_blocked_locations` are left out. No modelled operation calls them.
- Unused locals and fields are not modelled:
  - MOMOS `illegal_locs` in `reinforce_location` and the three lists in `build_defences`;
  - NOOB `wall_locations` and the three lists in `build_defences`;
  - `enemyMP`, `enemyMPallin` and `turns`;
  - NOOB `last_spawning_loc`.
- The MOMOS `if not damages: return None, None` is not modelled. A non-empty option list always fills `damages`, so it cannot be reached.
- The MOMOS `send_scouts` fallback spawn at `[13,0]` is not modelled. The option list is a non-empty constant and the selector always picks from it, as `MomosSelector.ChoicePicksOption` proves.
- The NOOB `send_scouts` fallback (the demolisher and scout spawn when no location is found) is not modelled. When the selector returns `None`, the unpacking raises first, and a picked cell is never falsy.
- A NOOB turn that raises is modelled as a turn result of `None`. That means no submission and no `enemy_HP_last` update. The exception's propagation beyond the turn is not modelled.
- NOOB `find_location` is not called by the turn; its calls are commented out. It is modelled as its own operation.
- MOMOS `starter_strategy` is modelled by methods `Offence`, `Defence` and `HealthCheck` that run in the source's order. `StarterStrategy` calls them and is proved to make the whole turn's attempts.
- NoobStrategy.NoobAlgo.BuildDefences: does not include `restall_low_health`'s removals and reinforcements, because unit health is outside the modelled host.
