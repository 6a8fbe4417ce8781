/**
 * Small counting decisions of the computer player: how many seas matter
 * for seafaring, whether a newly built ship should stop its shipyard,
 * whether granite mines should work, and which military setting the
 * inland buildings can afford.
 */
module Calculators {
  import opened Wrappers
  import opened AITypes
  import opened Arith

  // ---------------------------------------------------------------------
  // Seas with at least two harbors

  /** The sea ids of all harbor points, point after point. */
  function Flatten(rows: seq<seq<nat>>): seq<nat> {
    if rows == [] then [] else Flatten(rows[..|rows| - 1]) + rows[|rows| - 1]
  }

  /** The seas the player cares about: non-zero sea ids met at least twice
      among the harbor points' neighbouring seas. */
  ghost function RelevantSeas(seaIds: seq<seq<nat>>): set<nat> {
    var seen := multiset(Flatten(seaIds));
    set s | s in seen && s != 0 && seen[s] >= 2
  }

  predicate Distinct(s: seq<nat>) {
    forall i, j :: 0 <= i < j < |s| ==> s[i] != s[j]
  }

  /** std::list::remove: drops every entry equal to x. */
  function RemoveAll(s: seq<nat>, x: nat): (r: seq<nat>)
    ensures forall y :: y in r <==> y in s && y != x
    ensures Distinct(s) ==> Distinct(r)
  {
    if s == [] then []
    else if s[0] == x then RemoveAll(s[1..], x)
    else
      var rest := RemoveAll(s[1..], x);
      assert Distinct(s) ==> s[0] !in s[1..];
      [s[0]] + rest
  }

  /** The two lists of the sea count: ids met at least twice, and ids met
      exactly once so far; each lists an id at most once. */
  ghost predicate SeaLists(valid: seq<nat>, oneTime: seq<nat>, seen: multiset<nat>) {
    && Distinct(valid) && Distinct(oneTime)
    && (forall s :: s in valid <==> s != 0 && seen[s] >= 2)
    && (forall s :: s in oneTime <==> s != 0 && seen[s] == 1)
  }

  /** One sea id met: a first sighting goes to the once-seen list, a
      second moves it to the valid list, later ones change nothing; id 0
      (no sea) is ignored. */
  method CountSeaId(valid: seq<nat>, oneTime: seq<nat>, ghost seen: multiset<nat>, seaId: nat)
    returns (valid': seq<nat>, oneTime': seq<nat>)
    requires SeaLists(valid, oneTime, seen)
    ensures SeaLists(valid', oneTime', seen + multiset{seaId})
  {
    valid', oneTime' := valid, oneTime;
    if seaId == 0 {
      return;
    }
    if seaId !in valid {
      if seaId !in oneTime {
        oneTime' := oneTime + [seaId];
      } else {
        oneTime' := RemoveAll(oneTime, seaId);
        valid' := valid + [seaId];
      }
    }
  }

  /** The entries of a list, as a set. */
  function ToSet(s: seq<nat>): (r: set<nat>)
    ensures forall y :: y in r <==> y in s
  {
    if s == [] then {} else ToSet(s[..|s| - 1]) + {s[|s| - 1]}
  }

  /** A list without repetitions has as many entries as its set. */
  lemma {:induction false} DistinctCard(s: seq<nat>)
    requires Distinct(s)
    ensures |ToSet(s)| == |s|
  {
    if s != [] {
      var init := s[..|s| - 1];
      assert Distinct(init);
      DistinctCard(init);
      assert s[|s| - 1] !in ToSet(init);
    }
  }

  /** GetNumAIRelevantSeaIds: walks the six neighbouring sea ids of every
      harbor point, moving an id from the once-seen list to the valid list
      on its second sighting; the count is the number of valid ids. */
  method GetNumAIRelevantSeaIds(seaIds: seq<seq<nat>>) returns (n: nat)
    ensures n == |RelevantSeas(seaIds)|
  {
    var valid: seq<nat> := [];
    var oneTime: seq<nat> := [];
    ghost var seen: multiset<nat> := multiset{};
    for i := 0 to |seaIds|
      invariant seen == multiset(Flatten(seaIds[..i]))
      invariant SeaLists(valid, oneTime, seen)
    {
      assert seaIds[..i + 1][..i] == seaIds[..i];
      for dir := 0 to |seaIds[i]|
        invariant seen == multiset(Flatten(seaIds[..i]) + seaIds[i][..dir])
        invariant SeaLists(valid, oneTime, seen)
      {
        var seaId := seaIds[i][dir];
        assert Flatten(seaIds[..i]) + seaIds[i][..dir + 1] == (Flatten(seaIds[..i]) + seaIds[i][..dir]) + [seaId];
        valid, oneTime := CountSeaId(valid, oneTime, seen, seaId);
        seen := seen + multiset{seaId};
      }
      assert seaIds[i][..|seaIds[i]|] == seaIds[i];
    }
    assert seaIds[..|seaIds|] == seaIds;
    assert ToSet(valid) == RelevantSeas(seaIds);
    DistinctCard(valid);
    n := |valid|;
  }

  // ---------------------------------------------------------------------
  // A new ship

  /** A shipyard and its distance to the new ship. */
  datatype Shipyard = Shipyard(pos: Pos, distance: nat)

  /** Only shipyards closer than this can have built the ship. */
  const MAX_SHIPYARD_DISTANCE: nat := 12

  /** Whether more ships are wanted: none without a relevant sea; with one
      sea, while there are no more ships than harbor points; with several,
      while there are fewer than three per shipyard and at most seven. */
  function WantMoreShips(numRelevantSeas: nat, numShips: nat, numHarborPoints: nat, numShipyards: nat): (want: bool)
    ensures want ==> numRelevantSeas > 0
    ensures numRelevantSeas == 1 ==> (want <==> numShips <= numHarborPoints)
    ensures numRelevantSeas >= 2 ==> (want <==> numShips < 7 && numShips < 3 * numShipyards)
  {
    if numRelevantSeas == 0 then false
    else if numRelevantSeas == 1 then numShips <= numHarborPoints
    else
      var wantedShipCt := if 3 * numShipyards < 7 then 3 * numShipyards else 7;
      numShips < wantedShipCt
  }

  /** Shipyard k is the first of the closest shipyards, and closer than
      MAX_SHIPYARD_DISTANCE. */
  predicate ClosestShipyard(shipyards: seq<Shipyard>, k: nat) {
    && k < |shipyards|
    && shipyards[k].distance < MAX_SHIPYARD_DISTANCE
    && (forall j :: 0 <= j < |shipyards| ==> shipyards[k].distance <= shipyards[j].distance)
    && (forall j :: 0 <= j < k ==> shipyards[k].distance < shipyards[j].distance)
  }

  /** HandleShipBuilt: when no more ships are wanted, production stops at
      the closest shipyard near the ship, if there is one. */
  method HandleShipBuilt(seaIds: seq<seq<nat>>, numShips: nat, shipyards: seq<Shipyard>) returns (cmds: seq<Command>)
    ensures WantMoreShips(|RelevantSeas(seaIds)|, numShips, |seaIds|, |shipyards|) ==> cmds == []
    ensures (forall j :: 0 <= j < |shipyards| ==> shipyards[j].distance >= MAX_SHIPYARD_DISTANCE) ==> cmds == []
    ensures cmds != [] ==> exists k: nat :: ClosestShipyard(shipyards, k) && cmds == [SetProductionEnabled(shipyards[k].pos, false)]
    ensures (!WantMoreShips(|RelevantSeas(seaIds)|, numShips, |seaIds|, |shipyards|)
              && exists j :: 0 <= j < |shipyards| && shipyards[j].distance < MAX_SHIPYARD_DISTANCE) ==> cmds != []
  {
    var numRelevantSeas := GetNumAIRelevantSeaIds(seaIds);
    var wantMoreShips := WantMoreShips(numRelevantSeas, numShips, |seaIds|, |shipyards|);
    cmds := [];
    if !wantMoreShips {
      var mindist := MAX_SHIPYARD_DISTANCE;
      var creating: Option<nat> := None;
      for j := 0 to |shipyards|
        invariant mindist <= MAX_SHIPYARD_DISTANCE
        invariant creating.None? <==> forall l :: 0 <= l < j ==> shipyards[l].distance >= MAX_SHIPYARD_DISTANCE
        invariant creating.None? ==> mindist == MAX_SHIPYARD_DISTANCE
        invariant creating.Some? ==> creating.value < j && shipyards[creating.value].distance == mindist
        invariant forall l :: 0 <= l < j ==> mindist <= shipyards[l].distance
        invariant creating.Some? ==> forall l :: 0 <= l < creating.value ==> mindist < shipyards[l].distance
      {
        if shipyards[j].distance < mindist {
          mindist := shipyards[j].distance;
          creating := Some(j);
        }
      }
      if creating.Some? {
        assert ClosestShipyard(shipyards, creating.value);
        cmds := [SetProductionEnabled(shipyards[creating.value].pos, false)];
      }
    }
  }

  // ---------------------------------------------------------------------
  // Granite mines

  /** A granite mine and whether its production is stopped. */
  datatype Mine = Mine(pos: Pos, productionDisabled: bool)

  /** Granite mines work unless the stock holds at least 100 stones and at
      least 15 per warehouse. */
  function GraniteWanted(stones: nat, numStorehouses: nat): bool {
    stones < 100 || stones < 15 * numStorehouses
  }

  /** Fewer stones, or more warehouses, never stop mines that would work
      otherwise. */
  lemma GraniteWantedMonotone(stones1: nat, stones2: nat, whs1: nat, whs2: nat)
    requires stones1 <= stones2 && whs2 <= whs1
    ensures GraniteWanted(stones2, whs2) ==> GraniteWanted(stones1, whs1)
  {
    assert 15 * whs2 <= 15 * whs1;
  }

  /** Whether the building at pos produces after the orders: the last order
      for it wins, and without one it keeps its setting. */
  function EnabledAfter(enabled: bool, pos: Pos, cmds: seq<Command>): bool {
    if cmds == [] then enabled
    else
      var last := cmds[|cmds| - 1];
      if last.SetProductionEnabled? && last.building == pos then last.enabled
      else EnabledAfter(enabled, pos, cmds[..|cmds| - 1])
  }

  /** Without an order for it, a building keeps its setting. */
  lemma {:induction false} EnabledAfterUntouched(enabled: bool, pos: Pos, cmds: seq<Command>)
    requires forall c :: c in cmds ==> !(c.SetProductionEnabled? && c.building == pos)
    ensures EnabledAfter(enabled, pos, cmds) == enabled
  {
    if cmds != [] {
      assert cmds[|cmds| - 1] in cmds;
      assert forall c :: c in cmds[..|cmds| - 1] ==> c in cmds;
      EnabledAfterUntouched(enabled, pos, cmds[..|cmds| - 1]);
    }
  }

  /** Order c switches a mine whose setting differs from the wanted one. */
  ghost predicate SwitchesMismatched(mines: seq<Mine>, wanted: bool, c: Command) {
    exists j :: 0 <= j < |mines| && mines[j].productionDisabled == wanted && c == SetProductionEnabled(mines[j].pos, wanted)
  }

  predicate DistinctMines(mines: seq<Mine>) {
    forall i, j :: 0 <= i < j < |mines| ==> mines[i].pos != mines[j].pos
  }

  /** CheckGranitMine: switches every mine whose setting differs from what
      the stock calls for, and no other. */
  method CheckGranitMine(stones: nat, numStorehouses: nat, mines: seq<Mine>) returns (cmds: seq<Command>)
    ensures forall c :: c in cmds ==> SwitchesMismatched(mines, GraniteWanted(stones, numStorehouses), c)
    ensures DistinctMines(mines) ==> forall j :: 0 <= j < |mines| ==>
              EnabledAfter(!mines[j].productionDisabled, mines[j].pos, cmds) == GraniteWanted(stones, numStorehouses)
  {
    var enableProduction := stones < 100 || stones < 15 * numStorehouses;
    cmds := [];
    for k := 0 to |mines|
      invariant forall c :: c in cmds ==> SwitchesMismatched(mines, enableProduction, c)
      invariant forall c :: c in cmds ==> exists j :: 0 <= j < k && c.SetProductionEnabled? && c.building == mines[j].pos
      invariant DistinctMines(mines) ==> forall j :: 0 <= j < k ==>
                  EnabledAfter(!mines[j].productionDisabled, mines[j].pos, cmds) == enableProduction
    {
      var mine := mines[k];
      if mine.productionDisabled == enableProduction {
        var c := SetProductionEnabled(mine.pos, enableProduction);
        assert SwitchesMismatched(mines, enableProduction, c);
        assert (cmds + [c])[..|cmds|] == cmds;
        if DistinctMines(mines) {
          forall j | 0 <= j < k
            ensures EnabledAfter(!mines[j].productionDisabled, mines[j].pos, cmds + [c])
                    == EnabledAfter(!mines[j].productionDisabled, mines[j].pos, cmds)
          {
            assert mines[j].pos != mine.pos;
          }
        }
        cmds := cmds + [c];
      } else if DistinctMines(mines) {
        forall c | c in cmds
          ensures !(c.SetProductionEnabled? && c.building == mine.pos)
        {
          var j :| 0 <= j < k && c.SetProductionEnabled? && c.building == mines[j].pos;
        }
        EnabledAfterUntouched(!mine.productionDisabled, mine.pos, cmds);
      }
    }
    if DistinctMines(mines) {
      forall j | 0 <= j < |mines|
        ensures EnabledAfter(!mines[j].productionDisabled, mines[j].pos, cmds) == enableProduction
      {
      }
    }
  }

  // ---------------------------------------------------------------------
  // The inland military setting

  /** How far a military building is from the frontier. */
  datatype Frontier = Far | Mid | Harbor | Near

  /** A military building: its distance to the frontier and the troops it
      needs at the inland settings 4, 5, 6, 7 and 8 (`troopsAt[s - 4]`). */
  datatype MilBuilding = MilBuilding(frontier: Frontier, troopsAt: seq<nat>)

  predicate FiveSettings(buildings: seq<MilBuilding>) {
    forall k :: 0 <= k < |buildings| ==> |buildings[k].troopsAt| == 5
  }

  /** How a building's troops are counted: fully (at setting 8), per
      inland setting, or as one soldier. */
  datatype Need = FullNeed | InlandNeed | OneSoldier

  /** The count of building number `count` among `total`: front, harbor and
      interior buildings that must stay connected need their full crew,
      one-bar inland buildings depend on the setting, the others hold one
      soldier. */
  function NeedOf(b: MilBuilding, count: nat, total: nat, numShouldStayConnected: nat, upgradeIndex: int): Need {
    if b.frontier == Near || b.frontier == Harbor
       || (b.frontier == Far && (total < count + numShouldStayConnected || count == upgradeIndex)) then FullNeed
    else if b.frontier == Mid then InlandNeed
    else OneSoldier
  }

  /** Fixed troops and inland troops per setting needed by the first
      buildings of the list. */
  function Needs(buildings: seq<MilBuilding>, total: nat, numShouldStayConnected: nat, upgradeIndex: int): (r: (nat, seq<nat>))
    requires FiveSettings(buildings)
    ensures |r.1| == 5
  {
    if buildings == [] then (0, [0, 0, 0, 0, 0])
    else
      var init := buildings[..|buildings| - 1];
      var b := buildings[|buildings| - 1];
      AddNeed(Needs(init, total, numShouldStayConnected, upgradeIndex), b,
              NeedOf(b, |init|, total, numShouldStayConnected, upgradeIndex))
  }

  /** Adds one building's troops to the fixed and inland counts. */
  function AddNeed(acc: (nat, seq<nat>), b: MilBuilding, need: Need): (r: (nat, seq<nat>))
    requires |acc.1| == 5 && |b.troopsAt| == 5
    ensures |r.1| == 5
  {
    match need
    case FullNeed => (acc.0 + b.troopsAt[4], acc.1)
    case InlandNeed => (acc.0, seq(5, i requires 0 <= i < 5 => acc.1[i] + b.troopsAt[i]))
    case OneSoldier => (acc.0 + 1, acc.1)
  }

  /** Whether setting s can be afforded: the troops it needs stay below
      10/11 of the soldiers, or below all soldiers if the current inland
      setting is at least s. */
  predicate Affordable(s: nat, fixed: nat, inland: seq<nat>, numSoldiers: nat, currentInland: nat)
    requires 4 <= s <= 8 && |inland| == 5
  {
    fixed + inland[s - 4] < numSoldiers * 10 / 11 || (currentInland >= s && fixed + inland[s - 4] < numSoldiers)
  }

  /** The highest affordable setting from s down to 5, or 4 when none is. */
  function SettingFrom(s: nat, fixed: nat, inland: seq<nat>, numSoldiers: nat, currentInland: nat): (r: nat)
    requires s <= 8 && |inland| == 5
    ensures 4 <= r && (r <= s || r == 4)
    ensures r > 4 ==> Affordable(r, fixed, inland, numSoldiers, currentInland)
    ensures forall t :: r < t <= s && t > 4 ==> !Affordable(t, fixed, inland, numSoldiers, currentInland)
  {
    if s <= 4 then 4
    else if Affordable(s, fixed, inland, numSoldiers, currentInland) then s
    else SettingFrom(s - 1, fixed, inland, numSoldiers, currentInland)
  }

  /** More soldiers never lower the chosen setting. */
  lemma {:induction false} SettingMonotone(s: nat, fixed: nat, inland: seq<nat>, n1: nat, n2: nat, currentInland: nat)
    requires s <= 8 && |inland| == 5 && n1 <= n2
    ensures SettingFrom(s, fixed, inland, n1, currentInland) <= SettingFrom(s, fixed, inland, n2, currentInland)
  {
    if s > 4 {
      if Affordable(s, fixed, inland, n1, currentInland) {
        DivMonotone(n1 * 10, n2 * 10, 11);
        assert Affordable(s, fixed, inland, n2, currentInland);
      } else {
        SettingMonotone(s - 1, fixed, inland, n1, n2, currentInland);
      }
    }
  }

  /** Sum of the soldiers of every rank. */
  function Sum(s: seq<nat>): nat {
    if s == [] then 0 else Sum(s[..|s| - 1]) + s[|s| - 1]
  }

  /** CalcMilSettings: adds up the soldiers, the troops fixed by the
      buildings and the inland troops per setting (in a five-entry array),
      then lowers the setting from 8 until it is affordable or 4. */
  method CalcMilSettings(soldiersByRank: seq<nat>, buildings: seq<MilBuilding>, numShouldStayConnected: nat,
                         upgradeIndex: int, currentInland: nat) returns (r: nat)
    requires FiveSettings(buildings)
    ensures 4 <= r <= 8
    ensures var (fixed, inland) := Needs(buildings, |buildings|, numShouldStayConnected, upgradeIndex);
            r == SettingFrom(8, fixed, inland, Sum(soldiersByRank), currentInland)
  {
    var inlandTroops := new nat[5](_ => 0);
    var numSoldiers := 0;
    for k := 0 to |soldiersByRank|
      invariant numSoldiers == Sum(soldiersByRank[..k])
    {
      assert soldiersByRank[..k + 1][..k] == soldiersByRank[..k];
      numSoldiers := numSoldiers + soldiersByRank[k];
    }
    assert soldiersByRank[..|soldiersByRank|] == soldiersByRank;
    var soldierInUseFixed := 0;
    var count := 0;
    assert inlandTroops[..] == [0, 0, 0, 0, 0];
    while count < |buildings|
      invariant count <= |buildings|
      invariant (soldierInUseFixed, inlandTroops[..]) == Needs(buildings[..count], |buildings|, numShouldStayConnected, upgradeIndex)
    {
      assert buildings[..count + 1][..count] == buildings[..count];
      var milBld := buildings[count];
      ghost var acc := (soldierInUseFixed, inlandTroops[..]);
      ghost var need := NeedOf(milBld, count, |buildings|, numShouldStayConnected, upgradeIndex);
      if milBld.frontier == Near || milBld.frontier == Harbor
         || (milBld.frontier == Far && (|buildings| < count + numShouldStayConnected || count == upgradeIndex)) {
        assert need == FullNeed;
        soldierInUseFixed := soldierInUseFixed + milBld.troopsAt[4];
      } else if milBld.frontier == Mid {
        assert need == InlandNeed;
        AddInland(inlandTroops, milBld.troopsAt);
        assert forall j :: 0 <= j < 5 ==> inlandTroops[..][j] == AddNeed(acc, milBld, need).1[j];
        assert inlandTroops[..] == AddNeed(acc, milBld, need).1;
      } else {
        assert need == OneSoldier;
        soldierInUseFixed := soldierInUseFixed + 1;
      }
      assert (soldierInUseFixed, inlandTroops[..]) == AddNeed(acc, milBld, need);
      count := count + 1;
    }
    assert buildings[..|buildings|] == buildings;
    ghost var inland := inlandTroops[..];
    r := 8;
    while r > 4
      invariant 4 <= r <= 8
      invariant SettingFrom(8, soldierInUseFixed, inland, numSoldiers, currentInland)
                == SettingFrom(r, soldierInUseFixed, inland, numSoldiers, currentInland)
    {
      if soldierInUseFixed + inlandTroops[r - 4] < numSoldiers * 10 / 11
         || (currentInland >= r && soldierInUseFixed + inlandTroops[r - 4] < numSoldiers) {
        break;
      }
      r := r - 1;
    }
  }

  /** The inner loop over the five settings of a one-bar inland building. */
  method AddInland(inlandTroops: array<nat>, troopsAt: seq<nat>)
    requires inlandTroops.Length == 5 && |troopsAt| == 5
    modifies inlandTroops
    ensures forall j :: 0 <= j < 5 ==> inlandTroops[j] == old(inlandTroops[j]) + troopsAt[j]
  {
    for i := 0 to 5
      invariant forall j :: 0 <= j < i ==> inlandTroops[j] == old(inlandTroops[j]) + troopsAt[j]
      invariant forall j :: i <= j < 5 ==> inlandTroops[j] == old(inlandTroops[j])
    {
      inlandTroops[i] := inlandTroops[i] + troopsAt[i];
    }
  }
}
