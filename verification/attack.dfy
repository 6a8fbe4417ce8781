/**
 * How the computer player picks a land attack: its military buildings near
 * the frontier look for enemy buildings in range, headquarters and harbors
 * without defenders go to the front of the list, the rest is shuffled, and
 * the first target that own soldiers can reach (and, on the hard level,
 * beat) is attacked.  At most one attack is ordered per call.
 */
module Attack {
  import opened Wrappers
  import opened AITypes

  /** Roughly how many own buildings are scanned per call. */
  const SCAN_LIMIT: nat := 40

  /** An own or foreign military building near a target, as far as the
      attack decision reads it. */
  datatype Helper = Helper(player: nat, isMilitary: bool, underAttack: bool, attackers: nat, strength: nat)

  /** An enemy military building.  `id` tells buildings apart; `attackable`
      and `visible` are what the player knows of its owner and its node;
      `nearby` lists the military buildings around its position. */
  datatype Target = Target(id: nat, pos: Pos, isMilitary: bool, newBuilt: bool, defendersAvailable: bool,
                           attackable: bool, visible: bool, strength: nat, troops: nat, nearby: seq<Helper>)

  /** A target seen from an own building, at the given distance. */
  datatype Sighting = Sighting(target: Target, distance: nat)

  /** An own military building: whether it lies far from the frontier and
      the enemy buildings it sees. */
  datatype OwnBuilding = OwnBuilding(inland: bool, sightings: seq<Sighting>)

  /** A headquarters or harbor with nobody to defend it. */
  predicate Undefended(t: Target) {
    !t.isMilitary && !t.defendersAvailable
  }

  /** A sighting that may become a target: not a freshly built military
      building, closer than the attack distance, of an attackable player and
      on a visible node. */
  predicate Eligible(s: Sighting, attackDistance: nat) {
    && !(s.target.isMilitary && s.target.newBuilt)
    && s.distance < attackDistance
    && s.target.attackable
    && s.target.visible
  }

  /** Whether building b is looked at: its random draw does not skip it and
      it is not inland. */
  predicate Scanned(buildings: seq<OwnBuilding>, draws: seq<nat>, b: nat) {
    && b < |buildings| && b < |draws|
    && draws[b] % |buildings| <= SCAN_LIMIT
    && !buildings[b].inland
  }

  /** Target t was seen eligibly from some scanned building. */
  ghost predicate Found(buildings: seq<OwnBuilding>, draws: seq<nat>, attackDistance: nat, t: Target) {
    exists b: nat, s :: Scanned(buildings, draws, b) && 0 <= s < |buildings[b].sightings|
      && buildings[b].sightings[s].target == t && Eligible(buildings[b].sightings[s], attackDistance)
  }

  /** What collecting targets achieves: the first `priority` entries are the
      undefended ones, the others are not; no target is listed twice; every
      listed target was found, and every target found is listed. */
  ghost predicate Collected(buildings: seq<OwnBuilding>, draws: seq<nat>, attackDistance: nat,
                            targets: seq<Target>, priority: nat) {
    && priority <= |targets|
    && (forall k :: 0 <= k < priority ==> Undefended(targets[k]))
    && (forall k :: priority <= k < |targets| ==> !Undefended(targets[k]))
    && (forall k, l :: 0 <= k < l < |targets| ==> targets[k] != targets[l])
    && (forall t :: t in targets ==> Found(buildings, draws, attackDistance, t))
    && (forall b: nat, s :: (Scanned(buildings, draws, b) && 0 <= s < |buildings[b].sightings|
          && Eligible(buildings[b].sightings[s], attackDistance)) ==> buildings[b].sightings[s].target in targets)
  }

  /** Adds one sighting to the list: skipped if listed already or not
      eligible, put in front if undefended, appended otherwise. */
  method AddSighting(targets: seq<Target>, priority: nat, s: Sighting, attackDistance: nat)
    returns (targets': seq<Target>, priority': nat)
    requires priority <= |targets|
    requires forall k :: 0 <= k < priority ==> Undefended(targets[k])
    requires forall k :: priority <= k < |targets| ==> !Undefended(targets[k])
    requires forall k, l :: 0 <= k < l < |targets| ==> targets[k] != targets[l]
    ensures priority' <= |targets'|
    ensures forall k :: 0 <= k < priority' ==> Undefended(targets'[k])
    ensures forall k :: priority' <= k < |targets'| ==> !Undefended(targets'[k])
    ensures forall k, l :: 0 <= k < l < |targets'| ==> targets'[k] != targets'[l]
    ensures forall t :: t in targets' <==> t in targets || (t == s.target && Eligible(s, attackDistance))
    ensures s.target in targets || !Eligible(s, attackDistance) ==> targets' == targets && priority' == priority
    ensures s.target !in targets && Eligible(s, attackDistance) && Undefended(s.target) ==>
              targets' == [s.target] + targets && priority' == priority + 1
    ensures s.target !in targets && Eligible(s, attackDistance) && !Undefended(s.target) ==>
              targets' == targets + [s.target] && priority' == priority
  {
    targets', priority' := targets, priority;
    if s.target in targets {
      return;
    }
    if !Eligible(s, attackDistance) {
      return;
    }
    if Undefended(s.target) {
      targets' := [s.target] + targets;
      priority' := priority + 1;
    } else {
      targets' := targets + [s.target];
    }
  }

  /** Scans the own military buildings, each unless its draw skips it (a
      draw modulo the number of buildings above SCAN_LIMIT) or it is inland,
      and gathers the enemy buildings they see. */
  method CollectTargets(buildings: seq<OwnBuilding>, draws: seq<nat>, attackDistance: nat)
    returns (targets: seq<Target>, priority: nat)
    requires |draws| == |buildings|
    ensures Collected(buildings, draws, attackDistance, targets, priority)
  {
    targets, priority := [], 0;
    for b := 0 to |buildings|
      invariant priority <= |targets|
      invariant forall k :: 0 <= k < priority ==> Undefended(targets[k])
      invariant forall k :: priority <= k < |targets| ==> !Undefended(targets[k])
      invariant forall k, l :: 0 <= k < l < |targets| ==> targets[k] != targets[l]
      invariant forall t :: t in targets ==> Found(buildings, draws, attackDistance, t)
      invariant forall b': nat, s :: (b' < b && Scanned(buildings, draws, b') && 0 <= s < |buildings[b'].sightings|
                  && Eligible(buildings[b'].sightings[s], attackDistance)) ==> buildings[b'].sightings[s].target in targets
    {
      if draws[b] % |buildings| > SCAN_LIMIT {
        continue;
      }
      if buildings[b].inland {
        continue;
      }
      var sightings := buildings[b].sightings;
      for s := 0 to |sightings|
        invariant priority <= |targets|
        invariant forall k :: 0 <= k < priority ==> Undefended(targets[k])
        invariant forall k :: priority <= k < |targets| ==> !Undefended(targets[k])
        invariant forall k, l :: 0 <= k < l < |targets| ==> targets[k] != targets[l]
        invariant forall t :: t in targets ==> Found(buildings, draws, attackDistance, t)
        invariant forall b': nat, s' :: (b' < b && Scanned(buildings, draws, b') && 0 <= s' < |buildings[b'].sightings|
                    && Eligible(buildings[b'].sightings[s'], attackDistance)) ==> buildings[b'].sightings[s'].target in targets
        invariant forall s' :: 0 <= s' < s && Eligible(sightings[s'], attackDistance) ==> sightings[s'].target in targets
      {
        ghost var before := targets;
        targets, priority := AddSighting(targets, priority, sightings[s], attackDistance);
        forall t | t in targets
          ensures Found(buildings, draws, attackDistance, t)
        {
          if t !in before {
            assert Scanned(buildings, draws, b) && buildings[b].sightings[s].target == t;
          }
        }
      }
    }
  }

  /** Shuffles the entries from `from` on, as std::shuffle does, with the
      random choices given as draws: Fisher-Yates swaps each position i,
      from the back, with one chosen among `from`..i. */
  method ShuffleFrom(s: seq<Target>, from: nat, draws: seq<nat>) returns (r: seq<Target>)
    requires from <= |s|
    ensures |r| == |s| && r[..from] == s[..from]
    ensures multiset(r) == multiset(s)
    ensures forall k :: from <= k < |r| ==> r[k] in s[from..]
  {
    r := s;
    var i := |s|;
    while i > from + 1
      invariant from <= i <= |s| || i == |s| <= from + 1
      invariant |r| == |s| && r[..from] == s[..from]
      invariant multiset(r) == multiset(s)
    {
      i := i - 1;
      var draw := if i < |draws| then draws[i] else 0;
      var j := from + draw % (i - from + 1);
      r := r[i := r[j]][j := r[i]];
    }
    TailPermuted(s, r, from);
  }

  /** A permutation that keeps a prefix only moves the entries behind it. */
  lemma TailPermuted(s: seq<Target>, r: seq<Target>, from: nat)
    requires from <= |s| == |r| && r[..from] == s[..from] && multiset(r) == multiset(s)
    ensures forall k :: from <= k < |r| ==> r[k] in s[from..]
  {
    var head, tail, moved := s[..from], s[from..], r[from..];
    assert s == head + tail;
    assert r == head + moved;
    assert multiset(r) == multiset(head) + multiset(moved);
    assert multiset(s) == multiset(head) + multiset(tail);
    forall x ensures multiset(moved)[x] == multiset(tail)[x] {
      assert multiset(r)[x] == multiset(head)[x] + multiset(moved)[x];
      assert multiset(s)[x] == multiset(head)[x] + multiset(tail)[x];
    }
    assert multiset(moved) == multiset(tail);
    forall k | from <= k < |r|
      ensures r[k] in tail
    {
      assert r[k] == moved[k - from];
      assert r[k] in multiset(moved);
    }
  }

  /** Soldiers and strength own buildings around a target can send: only
      own military buildings that are not under attack contribute. */
  function Support(helpers: seq<Helper>, playerId: nat): (r: (nat, nat))
  {
    if helpers == [] then (0, 0)
    else
      var (count, strength) := Support(helpers[..|helpers| - 1], playerId);
      var h := helpers[|helpers| - 1];
      if h.player == playerId && h.isMilitary && !h.underAttack then (count + h.attackers, strength + h.strength)
      else (count, strength)
  }

  /** An own, free military building with soldiers to spare. */
  predicate Contributes(h: Helper, playerId: nat) {
    h.player == playerId && h.isMilitary && !h.underAttack && h.attackers > 0
  }

  /** Soldiers are available exactly when some own free military building
      nearby offers some. */
  lemma {:induction false} SupportNeedsContributor(helpers: seq<Helper>, playerId: nat)
    ensures Support(helpers, playerId).0 > 0 <==> exists h :: h in helpers && Contributes(h, playerId)
  {
    if helpers != [] {
      var init := helpers[..|helpers| - 1];
      var last := helpers[|helpers| - 1];
      SupportNeedsContributor(init, playerId);
      assert helpers == init + [last];
      assert forall h :: h in helpers <==> h in init || h == last;
      var before := Support(init, playerId);
      if last.player == playerId && last.isMilitary && !last.underAttack {
        assert Support(helpers, playerId).0 == before.0 + last.attackers;
        if last.attackers > 0 {
          assert Contributes(last, playerId);
        }
      } else {
        assert Support(helpers, playerId).0 == before.0;
      }
    }
  }

  /** A target is attacked when soldiers are available and, on the hard
      level, a military target has troops and is weaker than the attackers. */
  predicate Qualifies(t: Target, level: Level, playerId: nat) {
    var (count, strength) := Support(t.nearby, playerId);
    count > 0 && !(level == Hard && t.isMilitary && (strength <= t.strength || t.troops == 0))
  }

  /** The attack order for a target. */
  function AttackOrder(t: Target, playerId: nat): Command {
    Attack(t.pos, Support(t.nearby, playerId).0, true)
  }

  /** The index of the first qualifying target, if there is one. */
  function FirstQualifying(targets: seq<Target>, level: Level, playerId: nat): (r: Option<nat>)
    ensures r.Some? ==> r.value < |targets| && Qualifies(targets[r.value], level, playerId)
    ensures r.Some? ==> forall k :: 0 <= k < r.value ==> !Qualifies(targets[k], level, playerId)
    ensures r.None? <==> forall k :: 0 <= k < |targets| ==> !Qualifies(targets[k], level, playerId)
  {
    if targets == [] then None
    else if Qualifies(targets[0], level, playerId) then Some(0)
    else
      match FirstQualifying(targets[1..], level, playerId)
      case None => None
      case Some(k) => Some(k + 1)
  }

  /** The order issued for a choice: none, or one attack on the target. */
  function OrderFor(targets: seq<Target>, choice: Option<nat>, playerId: nat): seq<Command>
    requires choice.Some? ==> choice.value < |targets|
  {
    match choice
    case None => []
    case Some(k) => [AttackOrder(targets[k], playerId)]
  }

  /** Walks the targets in order, adds up the soldiers and strength of the
      own buildings around each, and attacks the first one that qualifies. */
  method ChooseTarget(targets: seq<Target>, level: Level, playerId: nat) returns (cmds: seq<Command>)
    ensures cmds == OrderFor(targets, FirstQualifying(targets, level, playerId), playerId)
  {
    for k := 0 to |targets|
      invariant forall l :: 0 <= l < k ==> !Qualifies(targets[l], level, playerId)
    {
      var target := targets[k];
      var attackersCount, attackersStrength := 0, 0;
      for h := 0 to |target.nearby|
        invariant (attackersCount, attackersStrength) == Support(target.nearby[..h], playerId)
      {
        assert target.nearby[..h + 1][..h] == target.nearby[..h];
        var other := target.nearby[h];
        if other.player == playerId {
          if !other.isMilitary || other.underAttack {
            continue;
          }
          attackersStrength := attackersStrength + other.strength;
          attackersCount := attackersCount + other.attackers;
        }
      }
      assert target.nearby[..|target.nearby|] == target.nearby;
      if attackersCount == 0 {
        continue;
      }
      if level == Hard && target.isMilitary {
        if attackersStrength <= target.strength || target.troops == 0 {
          continue;
        }
      }
      assert FirstQualifying(targets, level, playerId) == Some(k) by {
        FirstIsUnique(targets, level, playerId, k);
      }
      return [Attack(target.pos, attackersCount, true)];
    }
    return [];
  }

  /** The first qualifying index is determined by the qualifying test. */
  lemma FirstIsUnique(targets: seq<Target>, level: Level, playerId: nat, k: nat)
    requires k < |targets| && Qualifies(targets[k], level, playerId)
    requires forall l :: 0 <= l < k ==> !Qualifies(targets[l], level, playerId)
    ensures FirstQualifying(targets, level, playerId) == Some(k)
  {
    var r := FirstQualifying(targets, level, playerId);
    assert r.Some?;
    if r.value < k {
    } else if r.value > k {
    }
  }

  /** What the choice among shuffled targets guarantees: at most one order;
      no order exactly when no collected target qualifies; an order attacks
      a qualifying collected target with all soldiers available around it;
      and a qualifying undefended target is preferred to every shuffled one. */
  lemma {:induction false} ChoiceOutcome(collected: seq<Target>, priority: nat, order: seq<Target>,
                                         level: Level, playerId: nat, cmds: seq<Command>)
    requires priority <= |collected|
    requires |order| == |collected| && order[..priority] == collected[..priority]
    requires multiset(order) == multiset(collected)
    requires cmds == OrderFor(order, FirstQualifying(order, level, playerId), playerId)
    ensures |cmds| <= 1
    ensures cmds == [] <==> forall t :: t in collected ==> !Qualifies(t, level, playerId)
    ensures cmds != [] ==> exists t :: t in collected && Qualifies(t, level, playerId) && cmds == [AttackOrder(t, playerId)]
    ensures cmds != [] ==> cmds[0].Attack? && cmds[0].soldiers > 0 && cmds[0].strongSoldiers
    ensures FirstQualifying(collected[..priority], level, playerId).Some? ==>
              cmds == [AttackOrder(collected[FirstQualifying(collected[..priority], level, playerId).value], playerId)]
  {
    var choice := FirstQualifying(order, level, playerId);
    assert forall t :: t in order <==> t in multiset(order);
    assert forall t :: t in collected <==> t in multiset(collected);
    if choice.Some? {
      var t := order[choice.value];
      assert t in collected;
    }
    var head := FirstQualifying(collected[..priority], level, playerId);
    if head.Some? {
      var k := head.value;
      assert order[k] == collected[..priority][k];
      forall l | 0 <= l < k
        ensures !Qualifies(order[l], level, playerId)
      {
        assert order[l] == collected[..priority][l];
      }
      FirstIsUnique(order, level, playerId, k);
    }
  }

  /** One attack decision: collect, shuffle behind the undefended targets,
      choose. */
  method TryToAttack(buildings: seq<OwnBuilding>, scanDraws: seq<nat>, shuffleDraws: seq<nat>,
                     attackDistance: nat, level: Level, playerId: nat)
    returns (cmds: seq<Command>, ghost collected: seq<Target>, ghost priority: nat, ghost order: seq<Target>)
    requires |scanDraws| == |buildings|
    ensures Collected(buildings, scanDraws, attackDistance, collected, priority)
    ensures |order| == |collected| && order[..priority] == collected[..priority]
    ensures multiset(order) == multiset(collected)
    ensures cmds == OrderFor(order, FirstQualifying(order, level, playerId), playerId)
    ensures |cmds| <= 1
    ensures cmds == [] <==> forall t :: t in collected ==> !Qualifies(t, level, playerId)
    ensures FirstQualifying(collected[..priority], level, playerId).Some? ==>
              cmds == [AttackOrder(collected[FirstQualifying(collected[..priority], level, playerId).value], playerId)]
  {
    var targets, prio := CollectTargets(buildings, scanDraws, attackDistance);
    collected, priority := targets, prio;
    targets := ShuffleFrom(targets, prio, shuffleDraws);
    order := targets;
    cmds := ChooseTarget(targets, level, playerId);
    ChoiceOutcome(collected, priority, order, level, playerId, cmds);
  }
}
