# Computer player, options screen and packed resource value

This project is a Dafny model of three parts of a Settlers II remake. It
models their decision rules and proves properties about them.

* **The "JH" computer player** (`AIPlayerJH`).
  - The difficulty level sets how often the player attacks and builds.
  - Every game tick runs a fixed schedule: initialisation, a defeat test, event handling and periodic routines.
  - The player classifies map nodes, keeps a reachability map filled by a breadth-first flood fill over its own road network, and spreads goods between warehouses by blocking and unblocking them.
  - It picks at most one land attack per round and prunes roads that are no longer used.
  - A handful of small calculators decide military settings, shipbuilding and granite production.
  - The world is read through snapshots passed in as parameters. The player's orders to the world are returned as `Command` sequences, or appended to a log of `Step`s.
* **The options screen.** Video-mode aspect ratios, the ordering and filtering of the fullscreen mode list, and how slider positions, combo-box selections and on/off groups turn into stored settings.
* **The packed `Resource` value.** A resource type plus a 4-bit amount in one byte, as the game-type tests pin it down.

Modules:

| module | file | models |
|---|---|---|
| `Wrappers` | wrappers.dfy | `Option` and `Result` |
| `Arith` | arith.dfy | nonlinear arithmetic facts shared by the proofs |
| `GameTypes` | resource.dfy | the `Resource` byte |
| `VideoModes` | video_modes.dfy | aspect ratios and the mode ordering |
| `DskOptions` | dsk_options.dfy | the settings the options screen writes |
| `AITypes` | ai_types.dfy | levels, directions, commands |
| `AIPlayer` | ai_player.dfy | the player object and its tick |
| `NodeResources` | node_resource.dfy | node classification and resource density |
| `Reachability` | reachability.dfy | the flood fill over an `array<Node>` |
| `Distribution` | distribution.dfy | warehouse blocking |
| `Attack` | attack.dfy | land-attack target selection |
| `Roads` | roads.dfy | circle search and road pruning |
| `Calculators` | calculators.dfy | sea ids, ships, granite mines, military setting |

Source paths below are relative to the repository root.

## Model

| member | source | states |
|---|---|---|
| AITypes.LevelCadence | libs/s25main/ai/aijh/AIPlayerJH.cpp:174-189 | Easy, Medium and Hard give (attack, build) intervals of (2500,1000), (750,400) and (100,200). Any other level fails with "Invalid AI level!". |
| AITypes.HarderLevelsActMoreOften | libs/s25main/ai/aijh/AIPlayerJH.cpp:174-189 | Every valid level has positive intervals. Both intervals strictly decrease from Easy to Medium to Hard. |
| AITypes.Reverse | libs/s25main/ai/aijh/AIPlayerJH.cpp:1860 | The reverse direction (adding 3 modulo 6) differs from the direction, and reversing it again gives the direction back. |
| AIPlayer.AIPlayerJH.constructor | libs/s25main/ai/aijh/AIPlayerJH.cpp:163-189 | A new player stores its id, level and the level's intervals, has an init counter of 0, an empty event queue and no routine run yet. It takes its defeat flag from the player it controls. |
| AIPlayer.AIPlayerJH.Create | libs/s25main/ai/aijh/AIPlayerJH.cpp:174-189 | Creation fails, with the constructor's error message, exactly when the level is invalid. Otherwise it yields a fresh player in its initial state. |
| AIPlayer.AIPlayerJH.TestDefeat | libs/s25main/ai/aijh/AIPlayerJH.cpp:388-399 | Reports defeat exactly when the init counter is at least 10 and no storehouse is left. Defeat latches the flag and emits a surrender and a "You win" chat; otherwise nothing changes. |
| AIPlayer.AIPlayerJH.ExecuteAIJob | libs/s25main/ai/aijh/AIPlayerJH.cpp:700-714 | Removes the first min(10, n) queued events and handles them in order. Then it hands the construction coordinator the quota given by `JobSteps`. |
| AIPlayer.JobStepsBounded | libs/s25main/ai/aijh/AIPlayerJH.cpp:700-714 | The job step handles exactly min(10, n) events. Its construction quota is at most 40, and equals storehouses plus military buildings when that sum is at most 40. |
| AIPlayer.HandledSteps | libs/s25main/ai/aijh/AIPlayerJH.cpp:701-707 | One handling step per event, in queue order. |
| AIPlayer.HandledStepsAppend | libs/s25main/ai/aijh/AIPlayerJH.cpp:701-707 | Handling one more event appends exactly that event's step. |
| AIPlayer.AIPlayerJH.RunGF | libs/s25main/ai/aijh/AIPlayerJH.cpp:218-308 | One tick appends exactly `TickSteps` to the log. It advances the init counter as `NextInitCount` says, latches defeat, consumes events only on working ticks, and keeps the level invariant. |
| AIPlayer.AIPlayerJH.Work | libs/s25main/ai/aijh/AIPlayerJH.cpp:241-307 | A working tick runs three parts in order: the pre-job routines, the job step, then the periodic routines for that tick. |
| AIPlayer.NextInitCount | libs/s25main/ai/aijh/AIPlayerJH.cpp:225-234 | The init counter never grows past 10. It grows by one per live tick while below 10. |
| AIPlayer.TickStepsWorking | libs/s25main/ai/aijh/AIPlayerJH.cpp:241-307 | A live, initialised player with a storehouse runs the full working schedule. |
| AIPlayer.DefeatedPlayerIsIdle | libs/s25main/ai/aijh/AIPlayerJH.cpp:220-221 | Once defeated, a tick does nothing. |
| AIPlayer.AttackScheduleIff | libs/s25main/ai/aijh/AIPlayerJH.cpp:259-263 | `TryToAttack` runs in a tick exactly when the player is live, initialised and owns a storehouse, and (gf + 17·id) mod attackInterval is 0. |
| AIPlayer.EasyNeverUpgrades | libs/s25main/ai/aijh/AIPlayerJH.cpp:264-267 | The easy level never runs the military upgrade optimisation. |
| AIPlayer.NotScheduledBeforeJobs | libs/s25main/ai/aijh/AIPlayerJH.cpp:241-257 | No periodic routine runs before or during the job step. |
| AIPlayer.PeriodicStepsAttackAndUpgrade | libs/s25main/ai/aijh/AIPlayerJH.cpp:259-267 | In the periodic part of a tick, `TryToAttack` runs exactly when its condition holds, and so does `MilUpgradeOptim`. |
| AIPlayer.SawmillStepsOnlyBurn | libs/s25main/ai/aijh/AIPlayerJH.cpp:286-300 | The sawmill check dispatches nothing but burn orders. |
| AIPlayer.SawmillSteps | libs/s25main/ai/aijh/AIPlayerJH.cpp:290-299 | One burn order per chosen sawmill, in the chosen order. |
| AIPlayer.ScheduleIsPeriodic | libs/s25main/ai/aijh/AIPlayerJH.cpp:259-307 | A routine due at tick gf is due again at gf + period. Two distinct due ticks are at least one period apart. |
| AIPlayer.SawmillsToBurn | libs/s25main/ai/aijh/AIPlayerJH.cpp:286-300 | The loop burns exactly the sawmills of `BurnPlan`. |
| AIPlayer.BurnPlanFromKeepsThree | libs/s25main/ai/aijh/AIPlayerJH.cpp:289-299 | From position i on, only idle sawmills are burned, in increasing order, and at least three sawmills are left. An idle sawmill is spared only when exactly three are left. |
| AIPlayer.BurnPlanKeepsThree | libs/s25main/ai/aijh/AIPlayerJH.cpp:286-300 | With three or fewer sawmills none is burned. Otherwise only idle ones are burned, in order, and at least three remain. An idle sawmill survives only because exactly three are left. |
| NodeResources.CalcResource | libs/s25main/ai/aijh/AIPlayerJH.cpp:514-545 | Nothing below and nothing on top gives Plantspace only on a free, vital node, otherwise Nothing. A surface resource alone decides the class. Below plus wood or stones gives Multiple; below plus blocked gives Nothing; below alone gives the sub-surface class. |
| NodeResources.ClassificationSources | libs/s25main/ai/aijh/AIPlayerJH.cpp:514-545 | Plant space only comes from an empty, free, vital node. Multiple needs something below plus wood or stones. No node is classified Borderland. |
| NodeResources.CountMatching | libs/s25main/ai/aijh/AIPlayerJH.cpp:1038 | The count is at most the number of nodes. It is all of them exactly when every node matches, and 0 exactly when none does. |
| NodeResources.CountMatchingAppend | libs/s25main/ai/aijh/AIPlayerJH.cpp:1038 | Counting over two stretches of nodes adds up. |
| NodeResources.GetDensity | libs/s25main/ai/aijh/AIPlayerJH.cpp:1025-1040 | The density r is the matching share in whole percent, rounded down: r·n ≤ 100·count < (r+1)·n. It is at most 100, and exactly 100 iff every node matches. |
| NodeResources.PercentBounds | libs/s25main/ai/aijh/AIPlayerJH.cpp:1039 | c·100/n is at most 100, equals 100 iff c = n, and is 0 when c = 0. |
| NodeResources.DensityMonotone | libs/s25main/ai/aijh/AIPlayerJH.cpp:1025-1040 | If every node of one class also counts for another, the first class's density is no larger. |
| NodeResources.CountMonotone | libs/s25main/ai/aijh/AIPlayerJH.cpp:1038 | The same inclusion holds for the counts. |
| NodeResources.UnlimitedNeedsAddon | libs/s25main/ai/aijh/AIPlayerJH.cpp:137-149 | Without add-ons no resource is unlimited. Only gold, iron ore, coal, granite and fish can be. Enabling more add-ons never makes a resource limited again. |
| Reachability.Visit | libs/s25main/ai/aijh/AIPlayerJH.cpp:581-598 | Checking one neighbour keeps the map's size (`PenaltyDefersMarking` says what changes). |
| Reachability.PenaltyDefersMarking | libs/s25main/ai/aijh/AIPlayerJH.cpp:588-597 | A passable, unreached neighbour is marked exactly when its failed penalty is 0. Otherwise the penalty drops by one. No other node changes. |
| Reachability.VisitKeepsFillStep | libs/s25main/ai/aijh/AIPlayerJH.cpp:581-598 | A check never clears a mark, never marks an impassable node and never lowers a penalty below its start. |
| Reachability.VisitUnreached | libs/s25main/ai/aijh/AIPlayerJH.cpp:590-593 | A push removes exactly the pushed node from the unreached set, and that node was unreached before. Without a push the set is unchanged. |
| Reachability.VisitSettles | libs/s25main/ai/aijh/AIPlayerJH.cpp:584-597 | After a check, a passable neighbour is reachable or has a lower penalty than at the start. |
| Reachability.VisitKeepsQueueTree | libs/s25main/ai/aijh/AIPlayerJH.cpp:590-594 | A check keeps the queue a breadth-first tree: marked, linked to an earlier entry, duplicate-free and covering every newly marked node. |
| Reachability.CheckNeighbour | libs/s25main/ai/aijh/AIPlayerJH.cpp:581-598 | The array becomes `Visit` of its old contents. The node is pushed exactly when `Pushes` holds. |
| Reachability.CheckNeighbours | libs/s25main/ai/aijh/AIPlayerJH.cpp:579-599 | Checking all neighbours of one entry only appends to the queue and keeps the fill and tree invariants. Every passable neighbour of the entry is then settled. Each push removes one node from the unreached set. |
| Reachability.IterativeReachableNodeChecker | libs/s25main/ai/aijh/AIPlayerJH.cpp:568-602 | Draining the queue terminates. Afterwards the visited sequence extends the starting queue as a duplicate-free breadth-first tree, and every passable neighbour of a visited node is reachable or had its penalty lowered. |
| Reachability.ResetAll | libs/s25main/ai/aijh/AIPlayerJH.cpp:552-563 | Each node is marked exactly when it holds one of the player's flags, and its penalty is cleared. |
| Reachability.ResetPoints | libs/s25main/ai/aijh/AIPlayerJH.cpp:608-617 | Each given point is marked exactly when it holds one of the player's flags. No other node changes. |
| Reachability.FlagsAmong | libs/s25main/ai/aijh/AIPlayerJH.cpp:608-617 | The queue seeds are exactly the given points that hold the player's flags. |
| Reachability.EntryReaches | libs/s25main/ai/aijh/AIPlayerJH.cpp:590-594 | Every queue entry lies at the end of a road walk (passable neighbour after passable neighbour) from one of the starting entries. |
| Reachability.FillReaches | libs/s25main/ai/aijh/AIPlayerJH.cpp:568-602 | Every queue entry, and so every node the fill marked, lies at the end of a road walk from a starting entry. |
| Reachability.ClosedContainsWalks | libs/s25main/ai/aijh/AIPlayerJH.cpp:568-602 | A reachable set closed under roads holds the end of every road walk that starts inside it. |
| Reachability.InitFillReaches | libs/s25main/ai/aijh/AIPlayerJH.cpp:547-602 | After the fill from all own flags with no penalty pending, a node is reachable exactly when a road walk leads to it from an own flag. |
| Reachability.ResetAllNodes | libs/s25main/ai/aijh/AIPlayerJH.cpp:552-563 | The map becomes `ResetAll` of the old map, and the queue lists exactly the own flags. |
| Reachability.ResetPointNodes | libs/s25main/ai/aijh/AIPlayerJH.cpp:608-617 | The map becomes `ResetPoints` of the old map, and the queue is `FlagsAmong` the points. |
| Reachability.FillWithoutPenaltiesCloses | libs/s25main/ai/aijh/AIPlayerJH.cpp:547-602 | When no penalty is pending, the fill leaves the reachable set closed: every passable neighbour of a reachable node is reachable. |
| Reachability.FillIsSupported | libs/s25main/ai/aijh/AIPlayerJH.cpp:568-602 | Every node the fill marks is a passable neighbour of a reachable node. |
| Reachability.InitReachableNodes | libs/s25main/ai/aijh/AIPlayerJH.cpp:547-566 | After the reset and the fill, all penalties are 0, and a node is reachable exactly when a road walk leads to it from one of the player's flags. The reachable set is closed under passable neighbours and supported. |
| Reachability.UpdateReachableNodes | libs/s25main/ai/aijh/AIPlayerJH.cpp:604-619 | The fill starts from the reset map with exactly the own flags among the points. Its queue is a breadth-first tree from them, and every passable neighbour of a queued node ends reachable or with a lowered penalty. Every newly marked node lies on a road walk from one of those flags. Own flags among the points are reachable, and marks outside the points are never cleared. |
| Reachability.SameMarks | libs/s25main/ai/aijh/AIPlayerJH.cpp:627-636 | Rewriting the other node fields does not affect closure or support of the reachable set. |
| Reachability.InitNodes | libs/s25main/ai/aijh/AIPlayerJH.cpp:621-637 | The new map has one node per world node. Each node gets the world's building quality, ownership and border flag, its `CalcResource` class, no farm mark and a penalty of 0. A node is reachable exactly when a road walk leads to it from an own flag. |
| Reachability.ReportAll | libs/s25main/ai/aijh/AIPlayerJH.cpp:627-636 | Every node gets what the game reports of it and no farm mark; its mark and penalty stay. |
| Reachability.UpdateNodesAround | libs/s25main/ai/aijh/AIPlayerJH.cpp:639-651 | Points in the radius get fresh building quality, ownership and border data. The fill from the own flags among them has the same breadth-first queue, settled neighbours and road-walk origin as in `UpdateReachableNodes`. Other nodes keep every field except the fill's effect on their mark and penalty, and keep their marks. Classes and farm marks never change. |
| Reachability.RefreshReports | libs/s25main/ai/aijh/AIPlayerJH.cpp:643-650 | Each point in the list gets the building quality, ownership and border the game reports. No other field and no other node changes. |
| Reachability.SameFill | libs/s25main/ai/aijh/AIPlayerJH.cpp:643-650 | Changing only reported fields keeps the fill's queue tree and settled neighbours. |
| Distribution.GroupByReachability | libs/s25main/ai/aijh/AIPlayerJH.cpp:748-765 | Each warehouse joins the first group whose first member it is connected to, or opens a new group. The groups partition the warehouses in order, without repetition. |
| Distribution.JoinGroup | libs/s25main/ai/aijh/AIPlayerJH.cpp:755-759 | Adding the next warehouse to the first connected group keeps the first-fit grouping. |
| Distribution.OpenGroup | libs/s25main/ai/aijh/AIPlayerJH.cpp:763-764 | Opening a new group for a warehouse connected to no group's head keeps the first-fit grouping. |
| Distribution.TogglesFlip | libs/s25main/ai/aijh/AIPlayerJH.cpp:783-807 | Each toggle concerns a listed warehouse whose current stop setting differs from the wanted one. |
| Distribution.TogglesReachTarget | libs/s25main/ai/aijh/AIPlayerJH.cpp:783-807 | After the toggles, each listed warehouse is stopped exactly when `Wanted` says so. |
| Distribution.TogglesSnoc | libs/s25main/ai/aijh/AIPlayerJH.cpp:783-807 | Handling one more member appends exactly that member's toggle. |
| Distribution.ApplyFromStart | libs/s25main/ai/aijh/AIPlayerJH.cpp:783-807 | For a listed warehouse, the toggles land on the wanted setting only when started from its current one; from the other start the setting stays. |
| Distribution.UngroupedUntouched | libs/s25main/ai/aijh/AIPlayerJH.cpp:768-809 | A warehouse in no group is never toggled. |
| Distribution.GroupedReachTarget | libs/s25main/ai/aijh/AIPlayerJH.cpp:768-809 | A grouped warehouse ends stopped exactly when its group is not all above the limit and its own stock is above the limit. |
| Distribution.BlockGroup | libs/s25main/ai/aijh/AIPlayerJH.cpp:770-808 | The per-group loops issue exactly `GroupCommands`. |
| Distribution.DistributeGoodsByBlocking | libs/s25main/ai/aijh/AIPlayerJH.cpp:730-810 | With harbors at least half the storehouses, every stopped warehouse is unblocked. Otherwise the warehouses are grouped first-fit and the commands are those of every group in turn. |
| Distribution.FlipsListedFlipsOne | libs/s25main/ai/aijh/AIPlayerJH.cpp:739-741 | Every toggle inverts the stop setting of one existing warehouse. |
| Distribution.AllGroupsFlip | libs/s25main/ai/aijh/AIPlayerJH.cpp:768-809 | The same holds across all groups. |
| Distribution.BlockingOutcome | libs/s25main/ai/aijh/AIPlayerJH.cpp:733-809 | On sea maps nothing ends blocked. Otherwise every warehouse is placed in a group and ends blocked exactly when its group is not all above the limit and it is. Every command inverts a setting that differed. |
| Attack.AddSighting | libs/s25main/ai/aijh/AIPlayerJH.cpp:1558-1573 | The list gains the sighted target exactly when it is eligible and new. Undefended HQs and harbors stay in the prefix, all others after it, and the list stays duplicate-free. An undefended new target goes to the front of the list, and any other new target to the end. |
| Attack.CollectTargets | libs/s25main/ai/aijh/AIPlayerJH.cpp:1533-1575 | The list holds exactly the eligible targets seen from scanned, non-inland buildings, each once. Undefended HQs and harbors come first, and the priority count is their number. |
| Attack.ShuffleFrom | libs/s25main/ai/aijh/AIPlayerJH.cpp:1577-1579 | The shuffle keeps the prefix and the multiset of targets. The tail is drawn from the old tail. |
| Attack.TailPermuted | libs/s25main/ai/aijh/AIPlayerJH.cpp:1577-1579 | A permutation that keeps the prefix draws its tail from the old tail. |
| Attack.SupportNeedsContributor | libs/s25main/ai/aijh/AIPlayerJH.cpp:1589-1603 | The attacker count is positive iff some own, military, not-attacked building nearby contributes soldiers. |
| Attack.FirstQualifying | libs/s25main/ai/aijh/AIPlayerJH.cpp:1582-1617 | The first target with attackers that passes the Hard filter, and no earlier one does. None is returned iff no target qualifies. |
| Attack.FirstIsUnique | libs/s25main/ai/aijh/AIPlayerJH.cpp:1582-1617 | A qualifying target preceded only by non-qualifying ones is the chosen one. |
| Attack.ChooseTarget | libs/s25main/ai/aijh/AIPlayerJH.cpp:1580-1617 | The loop issues the attack order for `FirstQualifying`, or nothing. |
| Attack.ChoiceOutcome | libs/s25main/ai/aijh/AIPlayerJH.cpp:1580-1617 | At most one attack is ordered, and none iff no collected target qualifies. An order sends a positive number of soldiers, strong ones first, at a qualifying target. A qualifying undefended HQ or harbor wins over the shuffled rest. |
| Attack.TryToAttack | libs/s25main/ai/aijh/AIPlayerJH.cpp:1531-1618 | Collection, prefix-keeping shuffle and choice together. At most one attack is ordered, none iff nothing qualifies, and a qualifying priority target is preferred. |
| Roads.CircleSound | libs/s25main/ai/aijh/AIPlayerJH.cpp:1833-1867 | Unless the search is already back at the start, success means a trail of at most maxlen roads back to the start. The trail never leaves a flag by the excluded direction, into a building, or back along the road it arrived by. The flags it passes are distinct, differ from the start and avoid the flags met before. |
| Roads.CircleDirsSound | libs/s25main/ai/aijh/AIPlayerJH.cpp:1841-1865 | The same trail exists when the loop over directions succeeds. |
| Roads.CircleFromStart | libs/s25main/ai/aijh/AIPlayerJH.cpp:1944 | A circle found from a flag is a closed trail through it of one to maxlen roads that passes no flag twice and never turns back along a road. |
| Roads.TrailOne | libs/s25main/ai/aijh/AIPlayerJH.cpp:1853-1862 | One road from the current flag to the start, in a direction not skipped, is a trail. |
| Roads.TrailCons | libs/s25main/ai/aijh/AIPlayerJH.cpp:1856-1862 | A road to a flag not met before, followed by a trail from there that starts in a direction other than straight back, is a trail from the current flag. |
| Roads.TrailAvoidsFewer | libs/s25main/ai/aijh/AIPlayerJH.cpp:1857-1859 | A trail that avoids a longer list of met flags avoids the shorter one. |
| Roads.IsFlagPartofCircle | libs/s25main/ai/aijh/AIPlayerJH.cpp:1833-1867 | The recursive search with its growing list of visited flags answers exactly `Circle`. |
| Roads.ScanFrom | libs/s25main/ai/aijh/AIPlayerJH.cpp:1914-1936 | The scan stops at a building flag exactly when north-west is still to come, is not excluded and holds a building or site. |
| Roads.ScanFromFindsRoads | libs/s25main/ai/aijh/AIPlayerJH.cpp:1914-1936 | Otherwise the directions found are, in increasing order, exactly the non-excluded ones with a road. |
| Roads.ScanRoads | libs/s25main/ai/aijh/AIPlayerJH.cpp:1914-1936 | The full scan reports a building flag iff north-west is not excluded and blocked. Every direction it lists has a road. |
| Roads.ScanStep | libs/s25main/ai/aijh/AIPlayerJH.cpp:1928-1935 | One more direction of the scan adds its road, if any, after those already seen. |
| Roads.CountRoads | libs/s25main/ai/aijh/AIPlayerJH.cpp:1911-1936 | The counting loop reports the building flag as `ScanRoads` does. Otherwise it counts the roads and returns the first two directions. |
| Roads.Prune | libs/s25main/ai/aijh/AIPlayerJH.cpp:1907-1973 | Reconnection is requested only for a building flag, without destroying anything, and always for one. Only flag and road destructions are ordered. |
| Roads.PruneDecision | libs/s25main/ai/aijh/AIPlayerJH.cpp:1937-1958 | More than two roads destroy nothing. Two roads destroy something only for a first flag, with circles allowed, on a circle of at most 10 roads that reuses no road and passes no flag twice. The first order destroys the start flag, or with `keepstartflag` its first road. |
| Roads.RemoveUnusedRoad | libs/s25main/ai/aijh/AIPlayerJH.cpp:1907-1973 | The recursive pruning, cascading to both neighbours, returns exactly `Prune`. |
| Calculators.RemoveAll | libs/s25main/ai/aijh/AIPlayerJH.cpp:2354 | Removing an id drops every copy and keeps the rest, preserving distinctness. |
| Calculators.CountSeaId | libs/s25main/ai/aijh/AIPlayerJH.cpp:2343-2357 | Counting one more id keeps the lists: ids seen twice or more are valid, ids seen once are one-time, both lists stay distinct. |
| Calculators.DistinctCard | libs/s25main/ai/aijh/AIPlayerJH.cpp:2360 | A list without repetitions has as many distinct ids as entries. |
| Calculators.GetNumAIRelevantSeaIds | libs/s25main/ai/aijh/AIPlayerJH.cpp:2335-2361 | The result is the number of non-zero sea ids met at least twice across all harbor points and directions. |
| Calculators.WantMoreShips | libs/s25main/ai/aijh/AIPlayerJH.cpp:1335-1345 | No relevant sea means no more ships. One sea: more ships iff ships ≤ harbor points. Several seas: more ships iff ships < min(7, 3·shipyards). |
| Calculators.HandleShipBuilt | libs/s25main/ai/aijh/AIPlayerJH.cpp:1331-1363 | While ships are wanted, or when no shipyard is nearer than 12, nothing happens. Otherwise exactly the first closest shipyard has its production stopped. |
| Calculators.GraniteWantedMonotone | libs/s25main/ai/aijh/AIPlayerJH.cpp:1521-1522 | Fewer stones or more storehouses never switch granite production off. |
| Calculators.EnabledAfterUntouched | libs/s25main/ai/aijh/AIPlayerJH.cpp:1523-1528 | Orders about other buildings do not change a mine's production. |
| Calculators.CheckGranitMine | libs/s25main/ai/aijh/AIPlayerJH.cpp:1518-1529 | Each order switches a mine whose production setting differs from the wanted one. With distinct mines, every mine ends producing exactly when stones are wanted. |
| Calculators.SettingFrom | libs/s25main/ai/aijh/AIPlayerJH.cpp:2500-2512 | The setting is at least 4. A setting above 4 is affordable, and no higher setting up to the start is. |
| Calculators.SettingMonotone | libs/s25main/ai/aijh/AIPlayerJH.cpp:2500-2512 | More soldiers never give a lower setting. |
| Calculators.CalcMilSettings | libs/s25main/ai/aijh/AIPlayerJH.cpp:2465-2513 | The result lies in 4..8 and equals `SettingFrom(8, …)` over the needs of all buildings (`Needs`, built with `AddNeed`) and the soldiers of all ranks. |
| Calculators.AddInland | libs/s25main/ai/aijh/AIPlayerJH.cpp:2491-2492 | Each of the five inland sums grows by the building's troops for that setting. |
| VideoModes.Gcd | libs/s25main/desktops/dskOptions.cpp:110 | The gcd is 0 only for two zeros. Otherwise it divides both sides, and every common divisor divides it. |
| VideoModes.ReducedKeepsProportion | libs/s25main/desktops/dskOptions.cpp:110-111 | Dividing both sides by a common divisor keeps the proportion. |
| VideoModes.AspectRatio | libs/s25main/desktops/dskOptions.cpp:101-119 | 1360x1024 is 4:3, and 1360x768 and 1366x768 are 16:9. Every other mode keeps its proportion. The result is a non-degenerate ratio. |
| VideoModes.WideRatiosAreScaled | libs/s25main/desktops/dskOptions.cpp:113-116 | A mode reducing to 8:5 is shown as 16:10, and one reducing to 5:3 as 15:9. |
| VideoModes.CommonDivisorsOfRemainder | libs/s25main/desktops/dskOptions.cpp:110 | Every common divisor of two numbers divides the remainder of one by the other. |
| VideoModes.ReducedCoprime | libs/s25main/desktops/dskOptions.cpp:110-111 | Dividing both sides by their gcd leaves no common divisor but 1. |
| VideoModes.AspectRatioLowest | libs/s25main/desktops/dskOptions.cpp:107-119 | Outside the conventional modes and the 16:10 and 15:9 cases, the ratio shown is in lowest terms. |
| VideoModes.CmpIrreflexive | libs/s25main/desktops/dskOptions.cpp:626-647 | No mode sorts before itself. |
| VideoModes.CmpAsymmetric | libs/s25main/desktops/dskOptions.cpp:626-647 | Two modes never sort before each other. |
| VideoModes.CmpTransitive | libs/s25main/desktops/dskOptions.cpp:626-647 | The ordering is transitive. |
| VideoModes.CmpTotal | libs/s25main/desktops/dskOptions.cpp:626-647 | Of two different modes one sorts first, so the ordering is a strict total order. |
| VideoModes.KeptModes | libs/s25main/desktops/dskOptions.cpp:654 | Exactly the modes not below 800x600 in both sides remain, with their multiplicities. |
| VideoModes.Insert | libs/s25main/desktops/dskOptions.cpp:656 | Insertion adds one copy of the mode. |
| VideoModes.InsertKeepsSorted | libs/s25main/desktops/dskOptions.cpp:656 | Inserting into a sorted list keeps it sorted. |
| VideoModes.SortModes | libs/s25main/desktops/dskOptions.cpp:656 | The result is a permutation of the input, and every mode in it still has a ratio. |
| VideoModes.SortModesSorted | libs/s25main/desktops/dskOptions.cpp:656 | The result of the sort is in the order `CmpVideoModes` defines. |
| VideoModes.SortedHeadsAgree | libs/s25main/desktops/dskOptions.cpp:656 | Two sorted permutations of one list start with the same mode. |
| VideoModes.TailsAgree | libs/s25main/desktops/dskOptions.cpp:656 | Two permutations with equal heads have permuted tails. |
| VideoModes.SortedIsUnique | libs/s25main/desktops/dskOptions.cpp:656 | Any two sorted permutations of one list are equal, so the sorted mode list is fully determined. |
| DskOptions.Options.LoadVideoModes | libs/s25main/desktops/dskOptions.cpp:649-657 | The mode list becomes exactly the listed modes not below 800x600 in both sides, with multiplicities, sorted by the mode ordering. |
| DskOptions.SliderToVolume | libs/s25main/desktops/dskOptions.cpp:429 | The volume fits in a byte, and a position in 0..100 maps to position·255/100. |
| DskOptions.SliderToVolumeMonotone | libs/s25main/desktops/dskOptions.cpp:428-434 | Within 0..100 the volume grows with the slider, from 0 to 255. |
| DskOptions.Options.MsgGroupProgressChange | libs/s25main/desktops/dskOptions.cpp:423-437 | The effects or music slider sets exactly that volume. Other controls and settings groups stay unchanged. |
| DskOptions.ProxyForSelection | libs/s25main/desktops/dskOptions.cpp:456-461 | Selections 0, 1 and 2 give None, Socks4 and Socks5. Any other keeps the current type. |
| DskOptions.FramerateForSelection | libs/s25main/desktops/dskOptions.cpp:481-489 | With VSync, selection 0 is 0 and k > 0 is the (k-1)th refresh rate. Without VSync, k is the k-th refresh rate. |
| DskOptions.Options.MsgGroupComboSelectItem | libs/s25main/desktops/dskOptions.cpp:439-496 | Covers the proxy type, resolution, framerate and driver names. Choosing Socks4 turns IPv6 off, and IPv6 is never turned on. Every setting outside the chosen control's field is unchanged. |
| DskOptions.Options.MsgGroupOptionGroupChange | libs/s25main/desktops/dskOptions.cpp:498-527 | Each on/off group sets its flag to (selection == 1). The debug-data group stores the raw selection. Nothing else changes. |
| GameTypes.TypeCode | tests/s25Main/simple/testGameTypes.cpp:86-99 | Each type has a code below 7, and only Nothing has code 0. |
| GameTypes.TypeOfCode | tests/s25Main/simple/testGameTypes.cpp:86-99 | Decoding a code gives the type with that code. |
| GameTypes.StoredAmount | tests/s25Main/simple/testGameTypes.cpp:76-83 | Amounts up to 15 are stored exactly, and larger ones as a smaller amount. |
| GameTypes.Pack | tests/s25Main/simple/testGameTypes.cpp:86-99 | A packed byte is valid, decodes to its type, and holds the stored amount (0 for Nothing). |
| GameTypes.Validate | tests/s25Main/simple/testGameTypes.cpp:100-103 | Validation keeps valid bytes and turns any other into the empty value. |
| GameTypes.PackRoundTrip | tests/s25Main/simple/testGameTypes.cpp:86-99 | Packing, converting to a byte and back keeps the type, and keeps the amount except for Nothing. |
| GameTypes.ValidValueIsPacked | tests/s25Main/simple/testGameTypes.cpp:51-54 | Every valid byte is the packing of its own type and amount. |
| GameTypes.OutOfRangeByteIsEmpty | tests/s25Main/simple/testGameTypes.cpp:100-103 | The byte 0xFF reads as Nothing with amount 0. |
| GameTypes.Resource.Default | tests/s25Main/simple/testGameTypes.cpp:28-32 | A default resource is Nothing with amount 0. |
| GameTypes.Resource.constructor | tests/s25Main/simple/testGameTypes.cpp:33-42 | A resource built from a type and amount has that type and amount, except Nothing, which has amount 0. |
| GameTypes.Resource.FromValue | tests/s25Main/simple/testGameTypes.cpp:51-54 | A resource built from a byte holds the validated byte. |
| GameTypes.Resource.GetType | tests/s25Main/simple/testGameTypes.cpp:65-69 | A Nothing resource has amount 0. |
| GameTypes.Resource.GetAmount | tests/s25Main/simple/testGameTypes.cpp:76-83 | The amount fits in four bits. |
| GameTypes.Resource.Has | tests/s25Main/simple/testGameTypes.cpp:59-64 | `has(t)` holds iff the type is t, t is not Nothing and the amount is positive. |
| GameTypes.Resource.SetType | tests/s25Main/simple/testGameTypes.cpp:43-46 | The type becomes t. The amount is kept, or becomes 0 for Nothing. |
| GameTypes.Resource.SetAmount | tests/s25Main/simple/testGameTypes.cpp:47-83 | The type is kept. The amount becomes the stored amount, or stays 0 for Nothing. |
| GameTypes.ResourceValuesScenario | tests/s25Main/simple/testGameTypes.cpp:26-84 | Running the calls of the value tests in order, every intermediate check holds. At the end the first resource is Nothing with amount 0, and the second is Iron with an amount below 17. |

## Left out

- The world is not modelled: map, game world, inventories, pathfinding (`FindPathOnRoads`, `LookForMilitaryBuildings`, `CalcDistance`) and soldier strength. Their answers are parameters: tile snapshots, a connectivity matrix, sightings with precomputed distances, helper lists with precomputed strengths.
- Commands to the world (`aii.*`) are returned `Command` values or `Step`s in a log; their effect on the world is not modelled.
- Randomness is not modelled as a generator. The skip test `rand() % n > 40` in `TryToAttack` is a sequence of arbitrary draws. `std::shuffle` is a Fisher–Yates pass over arbitrary draws, with a missing draw counted as 0.
- Notification subscriptions (AIPlayerJH.cpp:191-212) are an `events` queue that callers may fill. The event handlers themselves and `EventJob` are steps in the log.
- `AIConstruction`, `BuildingPlanner`, `AIResourceMap` and the job classes are outside this model. Their calls (`ExecuteJobs`, `Update`, `UpdateBuildingsWanted`, `ConstructionsExecuted`) appear only as log steps.
- The routines `RunGF` dispatches are logged steps, not modelled further, except the sawmill burning, `TryToAttack`, `CheckGranitMine` and `ExecuteAIJob`. This covers `PlanNewBuildings`, `AdjustSettings`, `MilUpgradeOptim`, `TrySeaAttack`, `CheckExpeditions`, `CheckForester` and `CheckForUnconnectedBuildingSites`.
- `DistributeMaxRankSoldiersByBlocking` and the other `AIPlayerJH` members not named above are not part of this model.
- Chat text (the greeting at tick 100 and "You win") becomes a log step; no translation is modelled. `SaveResourceMapsToFile` (file I/O) is left out.
- The refresh of outdated building qualities at the start of a tick (AIPlayerJH.cpp:241-247) is one log step.
- `AIResource.h` and `Resource.h` are not part of this model.
  - The byte layout of `Resource` is chosen as type·16 + amount. The tests only fix the observable behaviour, which the model proves.
  - The result of setting amount 17 is only required to be below 17; the model stores it modulo 16.
- `BASE_ATTACKING_DISTANCE` and `Settings::SCREEN_REFRESH_RATES` are not part of this model. The first is the `attackDistance` parameter; the second is the `refreshRates` field of the options screen.
- The Hard-level filter follows the code (AIPlayerJH.cpp:1611): a military target is skipped when the attackers are no stronger, or when it has no troops.
- Roads.RemoveUnusedRoad: the recursion carries a `fuel` bound, and fuel 0 returns `None` without pruning.
  - Destroy orders are carried out later, so the flags and roads stay in place while the cascade runs. A cascade can therefore come back round a ring of roads to a flag it has already ordered destroyed. Two flags joined by two roads show this: started at either flag as a first flag with circles allowed and no building beside either flag, `Prune` is `None` for every fuel.
  - The source stops such a cascade at a flag with a building or building site to its north-west, unless that direction is excluded (AIPlayerJH.cpp:1916-1927). Every caller that allows circles starts at a building's flag with north-west excluded (AIPlayerJH.cpp:296, 1318, 1435). A cascade that comes back round stops at that still-standing building. The callers at AIPlayerJH.cpp:1169 and 1876 pass `allowcircle = false`, so a flag with two roads ends their call at once.
  - The model does not derive from these starting conditions that the cascade is finite. The fuel bound stands in for that argument. While fuel lasts, `Prune` takes the source's branches step for step.
  - The callers pass `fuel` as a parameter; no bound on the graph size is derived.
- Roads.CircleFromStart: only the direction from a found circle to a real circle is proved. The search can miss a circle. A flag met in a branch that failed stays in the frame's list of met flags, so later branches of the same frame skip it.
- Calculators.CalcMilSettings: the soldier counts are unbounded; the unsigned wrap-around of the C++ sums is not modelled. `numShouldStayConnected` and the upgrade building index come in as parameters.
- Calculators.HandleShipBuilt: distances from each shipyard to the new ship are given, not computed. The harbor-point count is the number of rows of sea ids.
- DskOptions.Options.MsgGroupComboSelectItem: the language combo box is left out, because it calls the translation system and rebuilds the whole screen. Enabling the IPv6 button and calling the drivers are user-interface effects and are not modelled.
- DskOptions.Options.MsgGroupOptionGroupChange: starting and stopping the music player and mouse warping are driver calls and are not modelled.
- The construction of the options screen's controls, the button and message-box handlers, port validation and `SETTINGS.Save` are user-interface code outside this model.
- The `NationSpecificJobBobs` test checks sprite constants, not behaviour, and is left out.
