/**
 * The per-player computer opponent's tick handler: the initialisation
 * counter, the defeat latch, the bounded draining of the event queue and
 * the tick-modulo schedule that staggers expensive routines between
 * players.  The routines it dispatches are recorded in a log; the ones with
 * decision logic of their own are modelled in the other AI modules.
 */
module AIPlayer {
  import opened Wrappers
  import opened AITypes
  import opened Arith

  /** The five notification kinds that become events. */
  datatype EventKind = BuildingEvent | ExpeditionEvent | ResourceEvent | RoadEvent | ShipEvent

  datatype AIEvent = AIEvent(kind: EventKind, pos: Pos)

  /** The routines the tick handler dispatches to. */
  datatype Routine =
    | InitStoreAndMilitaryLists | InitDistribution | GreetingChat | RefreshOutdatedBQ
    | PlannerUpdate | ConstructionsExecuted | UpdateBuildingsWanted
    | TryToAttack | MilUpgradeOptim | TrySeaAttack
    | CheckExpeditions | CheckForester | CheckGranitMine | AdjustSettings
    | BurnSawmill(index: nat)
    | CheckForUnconnectedBuildingSites | PlanNewBuildings

  /** One entry of the player's activity log. */
  datatype Step =
    | Called(routine: Routine)
    | HandledEvent(event: AIEvent)
    | ExecuteJobs(quota: nat)
    | Surrender
    | ChatYouWin

  /** What one tick reads from the world. */
  datatype TickWorld = TickWorld(
    numStorehouses: nat,
    numMilitaryBuildings: nat,
    hasOutdatedBQ: bool,
    seaAttackEnabled: bool,
    sawmills: seq<Sawmill>)

  /** What the sawmill check reads of one sawmill. */
  datatype Sawmill = Sawmill(productivity: nat, hasWorker: bool, numWares: nat, hasOrderedWares: bool)

  /** A sawmill that works for nothing: no productivity, a worker, no
      boards in stock and none ordered. */
  predicate IsIdleSawmill(s: Sawmill) {
    s.productivity < 1 && s.hasWorker && s.numWares < 1 && !s.hasOrderedWares
  }

  /** The burn choice from index i on, with `burns` sawmills already
      chosen. */
  function BurnPlanFrom(sawmills: seq<Sawmill>, i: nat, burns: nat): seq<nat>
    decreases |sawmills| - i
  {
    if i >= |sawmills| then []
    else if IsIdleSawmill(sawmills[i]) && |sawmills| - burns > 3 then [i] + BurnPlanFrom(sawmills, i + 1, burns + 1)
    else BurnPlanFrom(sawmills, i + 1, burns)
  }

  /** The sawmills the periodic check burns down. */
  function BurnPlan(sawmills: seq<Sawmill>): seq<nat> {
    if |sawmills| > 3 then BurnPlanFrom(sawmills, 0, 0) else []
  }

  /** Every chosen index from `lo` on names an idle sawmill. */
  predicate OnlyIdleFrom(sawmills: seq<Sawmill>, r: seq<nat>, lo: nat) {
    forall k :: 0 <= k < |r| ==> lo <= r[k] < |sawmills| && IsIdleSawmill(sawmills[r[k]])
  }

  /** The chosen indices are in increasing list order. */
  predicate Increasing(r: seq<nat>) {
    forall k, l :: 0 <= k < l < |r| ==> r[k] < r[l]
  }

  /** An idle sawmill from `lo` on that was not chosen was spared only
      because `left` (exactly three) sawmills remain, and comes after every
      chosen one. */
  predicate SparedOnlyAtThree(sawmills: seq<Sawmill>, r: seq<nat>, lo: nat, left: int) {
    forall j :: lo <= j < |sawmills| && IsIdleSawmill(sawmills[j]) && j !in r ==>
      left == 3 && forall k :: 0 <= k < |r| ==> r[k] < j
  }

  /** Once only three sawmills would be left, nothing more is burned. */
  lemma {:induction false} BurnPlanFromNone(sawmills: seq<Sawmill>, i: nat, burns: nat)
    requires |sawmills| - burns <= 3
    ensures BurnPlanFrom(sawmills, i, burns) == []
    decreases |sawmills| - i
  {
    if i < |sawmills| {
      BurnPlanFromNone(sawmills, i + 1, burns);
    }
  }

  lemma {:induction false} BurnPlanFromIdle(sawmills: seq<Sawmill>, i: nat, burns: nat)
    ensures OnlyIdleFrom(sawmills, BurnPlanFrom(sawmills, i, burns), i)
    decreases |sawmills| - i
  {
    if i < |sawmills| {
      if IsIdleSawmill(sawmills[i]) && |sawmills| - burns > 3 {
        BurnPlanFromIdle(sawmills, i + 1, burns + 1);
        var tail := BurnPlanFrom(sawmills, i + 1, burns + 1);
        var r := BurnPlanFrom(sawmills, i, burns);
        assert r == [i] + tail;
        forall k | 0 <= k < |r|
          ensures i <= r[k] < |sawmills| && IsIdleSawmill(sawmills[r[k]])
        {
          if k > 0 {
            assert r[k] == tail[k - 1];
          }
        }
      } else {
        BurnPlanFromIdle(sawmills, i + 1, burns);
      }
    }
  }

  lemma {:induction false} BurnPlanFromIncreasing(sawmills: seq<Sawmill>, i: nat, burns: nat)
    ensures Increasing(BurnPlanFrom(sawmills, i, burns))
    decreases |sawmills| - i
  {
    if i < |sawmills| {
      if IsIdleSawmill(sawmills[i]) && |sawmills| - burns > 3 {
        BurnPlanFromIncreasing(sawmills, i + 1, burns + 1);
        BurnPlanFromIdle(sawmills, i + 1, burns + 1);
        var tail := BurnPlanFrom(sawmills, i + 1, burns + 1);
        var r := BurnPlanFrom(sawmills, i, burns);
        assert r == [i] + tail;
        forall k, l | 0 <= k < l < |r|
          ensures r[k] < r[l]
        {
          assert r[l] == tail[l - 1];
          if k > 0 {
            assert r[k] == tail[k - 1];
          }
        }
      } else {
        BurnPlanFromIncreasing(sawmills, i + 1, burns);
      }
    }
  }

  lemma {:induction false} BurnPlanFromBound(sawmills: seq<Sawmill>, i: nat, burns: nat)
    requires |sawmills| - burns >= 3
    ensures |sawmills| - burns - |BurnPlanFrom(sawmills, i, burns)| >= 3
    decreases |sawmills| - i
  {
    if i < |sawmills| {
      var b := if IsIdleSawmill(sawmills[i]) && |sawmills| - burns > 3 then burns + 1 else burns;
      BurnPlanFromBound(sawmills, i + 1, b);
    }
  }

  /** The idle sawmill j, not chosen, was spared because exactly three
      remain, after every chosen one. */
  lemma {:induction false} BurnPlanFromSpares(sawmills: seq<Sawmill>, i: nat, burns: nat, j: nat)
    requires |sawmills| - burns >= 3
    requires i <= j < |sawmills| && IsIdleSawmill(sawmills[j])
    requires j !in BurnPlanFrom(sawmills, i, burns)
    ensures |sawmills| - burns - |BurnPlanFrom(sawmills, i, burns)| == 3
    ensures forall k :: 0 <= k < |BurnPlanFrom(sawmills, i, burns)| ==> BurnPlanFrom(sawmills, i, burns)[k] < j
    decreases |sawmills| - i
  {
    if i == j {
      BurnPlanFromNone(sawmills, i + 1, burns);
    } else if IsIdleSawmill(sawmills[i]) && |sawmills| - burns > 3 {
      BurnPlanFromSpares(sawmills, i + 1, burns + 1, j);
      var tail := BurnPlanFrom(sawmills, i + 1, burns + 1);
      var r := BurnPlanFrom(sawmills, i, burns);
      assert r == [i] + tail;
      forall k | 0 <= k < |r|
        ensures r[k] < j
      {
        if k > 0 {
          assert r[k] == tail[k - 1];
        }
      }
    } else {
      BurnPlanFromSpares(sawmills, i + 1, burns, j);
    }
  }

  /** What the burn choice promises: only idle sawmills, in list order,
      never fewer than three sawmills left standing, and an idle sawmill is
      spared only once exactly three would remain, and only after every
      burned one. */
  lemma BurnPlanFromKeepsThree(sawmills: seq<Sawmill>, i: nat, burns: nat)
    requires i <= |sawmills| && |sawmills| - burns >= 3
    ensures OnlyIdleFrom(sawmills, BurnPlanFrom(sawmills, i, burns), i)
    ensures Increasing(BurnPlanFrom(sawmills, i, burns))
    ensures |sawmills| - burns - |BurnPlanFrom(sawmills, i, burns)| >= 3
    ensures SparedOnlyAtThree(sawmills, BurnPlanFrom(sawmills, i, burns), i,
                              |sawmills| - burns - |BurnPlanFrom(sawmills, i, burns)|)
  {
    BurnPlanFromIdle(sawmills, i, burns);
    BurnPlanFromIncreasing(sawmills, i, burns);
    BurnPlanFromBound(sawmills, i, burns);
    var r := BurnPlanFrom(sawmills, i, burns);
    forall j | i <= j < |sawmills| && IsIdleSawmill(sawmills[j]) && j !in r
      ensures |sawmills| - burns - |r| == 3 && forall k :: 0 <= k < |r| ==> r[k] < j
    {
      BurnPlanFromSpares(sawmills, i, burns, j);
    }
  }

  lemma BurnPlanKeepsThree(sawmills: seq<Sawmill>)
    ensures OnlyIdleFrom(sawmills, BurnPlan(sawmills), 0)
    ensures Increasing(BurnPlan(sawmills))
    ensures |sawmills| <= 3 ==> BurnPlan(sawmills) == []
    ensures |sawmills| > 3 ==> |sawmills| - |BurnPlan(sawmills)| >= 3
    ensures |sawmills| > 3 ==> SparedOnlyAtThree(sawmills, BurnPlan(sawmills), 0, |sawmills| - |BurnPlan(sawmills)|)
  {
    if |sawmills| > 3 {
      BurnPlanFromKeepsThree(sawmills, 0, 0);
    }
  }

  /** The loop over the sawmill list that picks the ones to burn. */
  method SawmillsToBurn(sawmills: seq<Sawmill>) returns (burned: seq<nat>)
    ensures burned == BurnPlan(sawmills)
  {
    burned := [];
    if |sawmills| > 3 {
      var burns := 0;
      for i := 0 to |sawmills|
        invariant burns == |burned|
        invariant burned + BurnPlanFrom(sawmills, i, burns) == BurnPlanFrom(sawmills, 0, 0)
      {
        if IsIdleSawmill(sawmills[i]) && |sawmills| - burns > 3 {
          burned := burned + [i];
          burns := burns + 1;
        }
      }
    }
  }

  function Min(a: nat, b: nat): nat {
    if a < b then a else b
  }

  /** The log entries for handling a run of events in queue order. */
  function HandledSteps(es: seq<AIEvent>): (r: seq<Step>)
    ensures |r| == |es|
    ensures forall i :: 0 <= i < |es| ==> r[i] == HandledEvent(es[i])
  {
    if es == [] then [] else [HandledEvent(es[0])] + HandledSteps(es[1..])
  }

  /** What ExecuteAIJob does with a queue: it handles the first ten events
      at most and then runs up to min(40, #storehouses + #military
      buildings) construction and connection jobs. */
  function JobSteps(events: seq<AIEvent>, numStorehouses: nat, numMilitaryBuildings: nat): seq<Step> {
    HandledSteps(events[..Min(10, |events|)]) + [ExecuteJobs(Min(40, numStorehouses + numMilitaryBuildings))]
  }

  function SawmillSteps(burned: seq<nat>): (r: seq<Step>)
    ensures |r| == |burned|
    ensures forall i :: 0 <= i < |r| ==> r[i] == Called(BurnSawmill(burned[i]))
  {
    if burned == [] then [] else [Called(BurnSawmill(burned[0]))] + SawmillSteps(burned[1..])
  }

  function If(cond: bool, steps: seq<Step>): seq<Step> {
    if cond then steps else []
  }

  /** True in the ticks in which a routine with the given period runs for
      the player: (gf + offset) % period == 0. */
  predicate Due(gf: nat, offset: nat, period: nat)
    requires period > 0
  {
    (gf + offset) % period == 0
  }

  /** What a working tick dispatches before it drains the event queue. */
  function PreJobSteps(gf: nat, gfIsNwf: bool, world: TickWorld): seq<Step> {
    If(gf == 100 && world.numMilitaryBuildings == 0 && world.numStorehouses < 2, [Called(GreetingChat)])
    + If(world.hasOutdatedBQ, [Called(RefreshOutdatedBQ)])
    + [Called(PlannerUpdate)]
    + If(gfIsNwf, [Called(ConstructionsExecuted)])
    + If(gf % 100 == 0, [Called(UpdateBuildingsWanted)])
  }

  /** The periodic routines in dispatch order, given which of them are due
      in this tick. */
  function PeriodicSteps(attack: bool, upgrade: bool, seaAttack: bool, expeditions: bool,
                         settings: bool, build: bool, burned: seq<nat>): seq<Step>
  {
    If(attack, [Called(TryToAttack)])
    + If(upgrade, [Called(MilUpgradeOptim)])
    + If(seaAttack, [Called(TrySeaAttack)])
    + If(expeditions, [Called(CheckExpeditions), Called(CheckForester), Called(CheckGranitMine)])
    + If(settings, [Called(AdjustSettings)] + SawmillSteps(burned))
    + If(build, [Called(CheckForUnconnectedBuildingSites), Called(PlanNewBuildings)])
  }

  /** What a working tick dispatches after it drained the event queue: the
      routines whose period has come round for this player. */
  function PostJobSteps(playerId: nat, level: Level, cadence: Cadence, gf: nat,
                        world: TickWorld, burned: seq<nat>): seq<Step>
    requires cadence.attackInterval > 0 && cadence.buildInterval > 0
  {
    PeriodicSteps(
      Due(gf, playerId * 17, cadence.attackInterval),
      Due(gf, playerId * 17, 73) && level != Easy,
      Due(gf, 41 + playerId * 17, cadence.attackInterval) && world.seaAttackEnabled,
      Due(gf, playerId * 13, 1500),
      Due(gf, playerId * 11, 150),
      Due(gf, playerId * 7, cadence.buildInterval),
      burned)
  }

  /** Everything a tick after the initialisation phase dispatches, in order,
      given the events queued and the sawmills chosen for burning. */
  function WorkSteps(playerId: nat, level: Level, cadence: Cadence, gf: nat, gfIsNwf: bool,
                     world: TickWorld, events: seq<AIEvent>, burned: seq<nat>): seq<Step>
    requires cadence.attackInterval > 0 && cadence.buildInterval > 0
  {
    PreJobSteps(gf, gfIsNwf, world)
    + JobSteps(events, world.numStorehouses, world.numMilitaryBuildings)
    + PostJobSteps(playerId, level, cadence, gf, world, burned)
  }

  /** The log of one tick, given the counter and latch before it. */
  function TickSteps(playerId: nat, level: Level, cadence: Cadence, initCount: nat, defeated: bool,
                     gf: nat, gfIsNwf: bool, world: TickWorld, events: seq<AIEvent>): seq<Step>
    requires cadence.attackInterval > 0 && cadence.buildInterval > 0
  {
    if defeated then []
    else if initCount >= 10 && world.numStorehouses == 0 then [Surrender, ChatYouWin]
    else if initCount < 10 then
      If(initCount == 0, [Called(InitStoreAndMilitaryLists), Called(InitDistribution)])
    else WorkSteps(playerId, level, cadence, gf, gfIsNwf, world, events, BurnPlan(world.sawmills))
  }

  /** The initialisation counter after a tick: it counts the first ten live
      ticks and then stays at ten. */
  function NextInitCount(initCount: nat, defeated: bool, numStorehouses: nat): (n: nat)
    ensures n <= 10 || n == initCount
    ensures initCount < 10 && !defeated ==> n == initCount + 1
  {
    if defeated || (initCount >= 10 && numStorehouses == 0) then initCount
    else if initCount < 10 then initCount + 1
    else initCount
  }

  class AIPlayerJH {
    const playerId: nat
    const level: Level
    const cadence: Cadence
    /** Counts the first ten ticks; work only starts after them. */
    var isInitGfCompleted: nat
    var defeated: bool
    /** The event queue filled by the notification subscriptions. */
    var events: seq<AIEvent>
    /** The routines dispatched and commands sent so far. */
    var log: seq<Step>

    ghost predicate Valid()
      reads this
    {
      LevelCadence(level) == Success(cadence) && cadence.attackInterval > 0 && cadence.buildInterval > 0
    }

    constructor (playerId: nat, level: Level, cadence: Cadence, alreadyDefeated: bool)
      requires LevelCadence(level) == Success(cadence)
      ensures Valid()
      ensures this.playerId == playerId && this.level == level && this.cadence == cadence
      ensures isInitGfCompleted == 0 && defeated == alreadyDefeated && events == [] && log == []
    {
      HarderLevelsActMoreOften();
      this.playerId := playerId;
      this.level := level;
      this.cadence := cadence;
      isInitGfCompleted := 0;
      defeated := alreadyDefeated;
      events := [];
      log := [];
    }

    /** Creating a player: an invalid level is refused with the error the
        constructor throws. */
    static method Create(playerId: nat, level: Level, alreadyDefeated: bool) returns (r: Result<AIPlayerJH, string>)
      ensures r.Failure? <==> level.OutOfRange?
      ensures r.Failure? ==> r.error == "Invalid AI level!"
      ensures r.Success? ==> fresh(r.value) && r.value.Valid() && r.value.level == level
      ensures r.Success? ==> r.value.playerId == playerId && r.value.defeated == alreadyDefeated
      ensures r.Success? ==> r.value.isInitGfCompleted == 0 && r.value.events == [] && r.value.log == []
    {
      var cadence := LevelCadence(level);
      if cadence.Failure? {
        return Failure(cadence.error);
      }
      var player := new AIPlayerJH(playerId, level, cadence.value, alreadyDefeated);
      return Success(player);
    }

    /** Surrenders once the initialisation is over and no storehouse is
        left. */
    method TestDefeat(numStorehouses: nat) returns (lost: bool)
      modifies this`defeated, this`log
      ensures lost <==> old(isInitGfCompleted) >= 10 && numStorehouses == 0
      ensures defeated == (old(defeated) || lost)
      ensures log == old(log) + If(lost, [Surrender, ChatYouWin])
    {
      lost := isInitGfCompleted >= 10 && numStorehouses == 0;
      if lost {
        defeated := true;
        log := log + [Surrender, ChatYouWin];
      }
    }

    /** Handles at most ten queued events, then lets the construction
        coordinator run its jobs under the construction quota. */
    method ExecuteAIJob(numStorehouses: nat, numMilitaryBuildings: nat)
      modifies this`events, this`log
      ensures events == old(events)[Min(10, |old(events)|)..]
      ensures log == old(log) + JobSteps(old(events), numStorehouses, numMilitaryBuildings)
    {
      ghost var queued := events;
      ghost var log0 := log;
      var quota := 10;
      while |events| > 0 && quota > 0
        invariant 0 <= quota <= 10
        invariant 10 - quota <= |queued| && events == queued[10 - quota..]
        invariant log == log0 + HandledSteps(queued[..10 - quota])
      {
        quota := quota - 1;
        var event := events[0];
        events := events[1..];
        assert queued[..10 - quota] == queued[..10 - quota - 1] + [event];
        HandledStepsAppend(queued[..10 - quota - 1], event);
        log := log + [HandledEvent(event)];
      }
      assert 10 - quota == Min(10, |queued|);
      quota := numStorehouses + numMilitaryBuildings;
      if quota > 40 {
        quota := 40;
      }
      log := log + [ExecuteJobs(quota)];
    }

    /** One game tick. */
    method RunGF(gf: nat, gfIsNwf: bool, world: TickWorld)
      requires Valid()
      modifies this`isInitGfCompleted, this`defeated, this`events, this`log
      ensures Valid()
      ensures isInitGfCompleted == NextInitCount(old(isInitGfCompleted), old(defeated), world.numStorehouses)
      ensures defeated == (old(defeated) || (old(isInitGfCompleted) >= 10 && world.numStorehouses == 0))
      ensures events == if !old(defeated) && old(isInitGfCompleted) >= 10 && world.numStorehouses > 0
                        then old(events)[Min(10, |old(events)|)..] else old(events)
      ensures log == old(log) + TickSteps(playerId, level, cadence, old(isInitGfCompleted), old(defeated),
                                          gf, gfIsNwf, world, old(events))
    {
      if defeated {
        assert log == old(log) + TickSteps(playerId, level, cadence, old(isInitGfCompleted), old(defeated),
                                           gf, gfIsNwf, world, old(events));
        return;
      }
      var lost := TestDefeat(world.numStorehouses);
      if lost {
        assert log == old(log) + TickSteps(playerId, level, cadence, old(isInitGfCompleted), old(defeated),
                                           gf, gfIsNwf, world, old(events));
        return;
      }
      if isInitGfCompleted == 0 {
        log := log + [Called(InitStoreAndMilitaryLists), Called(InitDistribution)];
      }
      if isInitGfCompleted < 10 {
        isInitGfCompleted := isInitGfCompleted + 1;
        assert log == old(log) + TickSteps(playerId, level, cadence, old(isInitGfCompleted), old(defeated),
                                           gf, gfIsNwf, world, old(events));
        return;
      }
      assert log == old(log);
      var burned := SawmillsToBurn(world.sawmills);
      Work(gf, gfIsNwf, world, burned);
      TickStepsWorking(playerId, level, cadence, old(isInitGfCompleted), old(defeated), gf, gfIsNwf, world, old(events));
      AppendAssoc(old(log), PreJobSteps(gf, gfIsNwf, world),
                  JobSteps(old(events), world.numStorehouses, world.numMilitaryBuildings),
                  PostJobSteps(playerId, level, cadence, gf, world, burned));
      assert log == old(log) + TickSteps(playerId, level, cadence, old(isInitGfCompleted), old(defeated),
                                         gf, gfIsNwf, world, old(events));
    }

    /** The part of a tick that runs once the initialisation is over and
        the player is still alive. */
    method Work(gf: nat, gfIsNwf: bool, world: TickWorld, burned: seq<nat>)
      requires Valid()
      modifies this`events, this`log
      ensures events == old(events)[Min(10, |old(events)|)..]
      ensures log == old(log) + PreJobSteps(gf, gfIsNwf, world)
                    + JobSteps(old(events), world.numStorehouses, world.numMilitaryBuildings)
                    + PostJobSteps(playerId, level, cadence, gf, world, burned)
    {
      log := log + PreJobSteps(gf, gfIsNwf, world);
      ExecuteAIJob(world.numStorehouses, world.numMilitaryBuildings);
      log := log + PostJobSteps(playerId, level, cadence, gf, world, burned);
    }
  }

  lemma TickStepsWorking(playerId: nat, level: Level, cadence: Cadence, initCount: nat, defeated: bool,
                         gf: nat, gfIsNwf: bool, world: TickWorld, events: seq<AIEvent>)
    requires cadence.attackInterval > 0 && cadence.buildInterval > 0
    requires !defeated && initCount >= 10 && world.numStorehouses > 0
    ensures TickSteps(playerId, level, cadence, initCount, defeated, gf, gfIsNwf, world, events)
            == PreJobSteps(gf, gfIsNwf, world)
               + JobSteps(events, world.numStorehouses, world.numMilitaryBuildings)
               + PostJobSteps(playerId, level, cadence, gf, world, BurnPlan(world.sawmills))
  {
  }

  /** The player does nothing once it is defeated. */
  lemma DefeatedPlayerIsIdle(playerId: nat, level: Level, cadence: Cadence, initCount: nat,
                             gf: nat, gfIsNwf: bool, world: TickWorld, events: seq<AIEvent>)
    requires cadence.attackInterval > 0 && cadence.buildInterval > 0
    ensures TickSteps(playerId, level, cadence, initCount, true, gf, gfIsNwf, world, events) == []
  {
  }

  /** The routines that only the tick-modulo schedule starts. */
  predicate Scheduled(r: Routine) {
    || r.TryToAttack? || r.MilUpgradeOptim? || r.TrySeaAttack?
    || r.CheckExpeditions? || r.CheckForester? || r.CheckGranitMine? || r.AdjustSettings?
    || r.CheckForUnconnectedBuildingSites? || r.PlanNewBuildings?
  }

  lemma NotScheduledBeforeJobs(gf: nat, gfIsNwf: bool, world: TickWorld, events: seq<AIEvent>, r: Routine)
    requires Scheduled(r)
    ensures Called(r) !in PreJobSteps(gf, gfIsNwf, world)
    ensures Called(r) !in JobSteps(events, world.numStorehouses, world.numMilitaryBuildings)
  {
  }

  lemma SawmillStepsOnlyBurn(burned: seq<nat>, r: Routine)
    requires !r.BurnSawmill?
    ensures Called(r) !in SawmillSteps(burned)
  {
  }

  /** Sawmill burning and the routines after it are neither an attack nor
      an upgrade optimisation. */
  lemma LaterPeriodicSteps(seaAttack: bool, expeditions: bool, settings: bool, build: bool, burned: seq<nat>)
    ensures var rest := If(seaAttack, [Called(TrySeaAttack)])
      + If(expeditions, [Called(CheckExpeditions), Called(CheckForester), Called(CheckGranitMine)])
      + If(settings, [Called(AdjustSettings)] + SawmillSteps(burned))
      + If(build, [Called(CheckForUnconnectedBuildingSites), Called(PlanNewBuildings)]);
      Called(TryToAttack) !in rest && Called(MilUpgradeOptim) !in rest
  {
    SawmillStepsOnlyBurn(burned, TryToAttack);
    SawmillStepsOnlyBurn(burned, MilUpgradeOptim);
  }

  /** The periodic routines try an attack exactly when the attack is due,
      and optimise military upgrades exactly when that is due. */
  lemma PeriodicStepsAttackAndUpgrade(attack: bool, upgrade: bool, seaAttack: bool,
                                      expeditions: bool, settings: bool, build: bool, burned: seq<nat>)
    ensures Called(TryToAttack) in PeriodicSteps(attack, upgrade, seaAttack, expeditions, settings, build, burned)
            <==> attack
    ensures Called(MilUpgradeOptim) in PeriodicSteps(attack, upgrade, seaAttack, expeditions, settings, build, burned)
            <==> upgrade
  {
    LaterPeriodicSteps(seaAttack, expeditions, settings, build, burned);
  }

  /** An attack is tried in a tick exactly when the player is alive, past
      its first ten ticks, still owns a storehouse, and the tick plus
      17 times its id is a multiple of its level's attack interval. */
  lemma AttackScheduleIff(playerId: nat, level: Level, cadence: Cadence, initCount: nat, defeated: bool,
                          gf: nat, gfIsNwf: bool, world: TickWorld, events: seq<AIEvent>)
    requires cadence.attackInterval > 0 && cadence.buildInterval > 0
    ensures Called(TryToAttack) in TickSteps(playerId, level, cadence, initCount, defeated, gf, gfIsNwf, world, events)
            <==> !defeated && initCount >= 10 && world.numStorehouses > 0
                 && (gf + playerId * 17) % cadence.attackInterval == 0
  {
    if !defeated && initCount >= 10 && world.numStorehouses > 0 {
      TickStepsWorking(playerId, level, cadence, initCount, defeated, gf, gfIsNwf, world, events);
      NotScheduledBeforeJobs(gf, gfIsNwf, world, events, TryToAttack);
      PeriodicStepsAttackAndUpgrade(
        Due(gf, playerId * 17, cadence.attackInterval),
        Due(gf, playerId * 17, 73) && level != Easy,
        Due(gf, 41 + playerId * 17, cadence.attackInterval) && world.seaAttackEnabled,
        Due(gf, playerId * 13, 1500), Due(gf, playerId * 11, 150), Due(gf, playerId * 7, cadence.buildInterval),
        BurnPlan(world.sawmills));
    }
  }

  /** The easy level never optimises its military upgrades. */
  lemma EasyNeverUpgrades(playerId: nat, cadence: Cadence, initCount: nat, defeated: bool,
                          gf: nat, gfIsNwf: bool, world: TickWorld, events: seq<AIEvent>)
    requires cadence.attackInterval > 0 && cadence.buildInterval > 0
    ensures Called(MilUpgradeOptim) !in TickSteps(playerId, Easy, cadence, initCount, defeated, gf, gfIsNwf, world, events)
  {
    if !defeated && initCount >= 10 && world.numStorehouses > 0 {
      TickStepsWorking(playerId, Easy, cadence, initCount, defeated, gf, gfIsNwf, world, events);
      NotScheduledBeforeJobs(gf, gfIsNwf, world, events, MilUpgradeOptim);
      PeriodicStepsAttackAndUpgrade(
        Due(gf, playerId * 17, cadence.attackInterval), false,
        Due(gf, 41 + playerId * 17, cadence.attackInterval) && world.seaAttackEnabled,
        Due(gf, playerId * 13, 1500), Due(gf, playerId * 11, 150), Due(gf, playerId * 7, cadence.buildInterval),
        BurnPlan(world.sawmills));
    }
  }

  /** Two ticks in which the same scheduled routine runs are at least one
      period apart, and the routine runs again exactly one period later. */
  lemma ScheduleIsPeriodic(gf1: nat, gf2: nat, offset: nat, period: nat)
    requires period > 0
    requires Due(gf1, offset, period)
    ensures Due(gf1 + period, offset, period)
    ensures Due(gf2, offset, period) && gf1 < gf2 ==> gf2 - gf1 >= period
  {
    var q1 := (gf1 + offset) / period;
    assert gf1 + offset == q1 * period;
    assert gf1 + period + offset == (q1 + 1) * period;
    MultipleMod(q1 + 1, period);
    if Due(gf2, offset, period) && gf1 < gf2 {
      var q2 := (gf2 + offset) / period;
      assert gf2 + offset == q2 * period;
      assert gf2 - gf1 == (q2 - q1) * period;
      if q2 - q1 < 1 {
        MulMonotone(q2, q1, period);
      } else {
        MulAtLeast(q2 - q1, period);
      }
    }
  }

  /** The job step handles the first min(10, n) queued events in order and
      grants at most 40 construction jobs. */
  lemma JobStepsBounded(events: seq<AIEvent>, numStorehouses: nat, numMilitaryBuildings: nat)
    ensures var steps := JobSteps(events, numStorehouses, numMilitaryBuildings);
      && |steps| == Min(10, |events|) + 1
      && (forall i :: 0 <= i < |steps| - 1 ==> steps[i] == HandledEvent(events[i]))
      && steps[|steps| - 1].ExecuteJobs?
      && steps[|steps| - 1].quota <= 40
      && (numStorehouses + numMilitaryBuildings <= 40 ==> steps[|steps| - 1].quota == numStorehouses + numMilitaryBuildings)
  {
  }

  lemma AppendAssoc<T>(a: seq<T>, b: seq<T>, c: seq<T>, d: seq<T>)
    ensures a + b + c + d == a + (b + c + d)
  {
  }

  lemma HandledStepsAppend(es: seq<AIEvent>, e: AIEvent)
    ensures HandledSteps(es + [e]) == HandledSteps(es) + [HandledEvent(e)]
  {
  }
}
