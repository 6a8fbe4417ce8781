/**
 * How the computer player spreads one kind of good over its warehouses by
 * blocking deliveries of it: warehouses are grouped by road connection,
 * and within each group the ones that already hold more than a limit stop
 * taking the good while any other in the group still needs it.
 */
module Distribution {
  import opened AITypes

  /** What the player reads of one warehouse for the good in question. */
  datatype Warehouse = Warehouse(pos: Pos, wares: nat, stopped: bool)

  /** Whether warehouse a can reach warehouse b over roads. */
  predicate Conn(connected: seq<seq<bool>>, a: nat, b: nat) {
    a < |connected| && b < |connected[a]| && connected[a][b]
  }

  /** Every warehouse stands on its own node. */
  predicate DistinctPositions(whs: seq<Warehouse>) {
    forall i, j :: 0 <= i < j < |whs| ==> whs[i].pos != whs[j].pos
  }

  /** Index i lies in group g at position k. */
  predicate InGroup(groups: seq<seq<nat>>, g: nat, k: nat, i: nat) {
    g < |groups| && k < |groups[g]| && groups[g][k] == i
  }

  /** Index i lies in some group. */
  ghost predicate Placed(groups: seq<seq<nat>>, i: nat) {
    exists g, k :: InGroup(groups, g, k, i)
  }

  /** `groups` is what first-fit grouping of warehouses 0..n-1 produces:
      every warehouse sits in exactly one group, groups list their members
      in order, and a warehouse joins the first earlier group whose first
      member it is connected to, or opens a new group if there is none. */
  ghost predicate FirstFitGroups(n: nat, connected: seq<seq<bool>>, groups: seq<seq<nat>>) {
    && GroupsWellFormed(n, groups)
    && (forall i :: 0 <= i < n ==> Placed(groups, i))
    && GroupsUnique(groups)
    && (forall g, k :: 0 <= g < |groups| && 0 < k < |groups[g]| ==>
          groups[g][0] < groups[g][k] && Conn(connected, groups[g][k], groups[g][0]))
    && (forall g, k, h :: 0 <= h < g < |groups| && 0 <= k < |groups[g]| ==>
          !Conn(connected, groups[g][k], groups[h][0]))
  }

  /** Groups are non-empty and hold indices below n. */
  predicate GroupsWellFormed(n: nat, groups: seq<seq<nat>>) {
    && (forall g :: 0 <= g < |groups| ==> |groups[g]| > 0)
    && (forall g, k :: 0 <= g < |groups| && 0 <= k < |groups[g]| ==> groups[g][k] < n)
  }

  /** No index sits in two places. */
  ghost predicate GroupsUnique(groups: seq<seq<nat>>) {
    forall g1, k1, g2, k2, i :: InGroup(groups, g1, k1, i) && InGroup(groups, g2, k2, i) ==> g1 == g2 && k1 == k2
  }

  lemma JoinGroup(n: nat, connected: seq<seq<bool>>, groups: seq<seq<nat>>, j: nat)
    requires FirstFitGroups(n, connected, groups)
    requires j < |groups| && Conn(connected, n, groups[j][0])
    requires forall h :: 0 <= h < j ==> !Conn(connected, n, groups[h][0])
    ensures FirstFitGroups(n + 1, connected, groups[j := groups[j] + [n]])
  {
    var gs := groups[j := groups[j] + [n]];
    assert forall g, k :: InGroup(groups, g, k, n) ==> false;
    forall i | 0 <= i < n + 1
      ensures Placed(gs, i)
    {
      if i == n {
        assert InGroup(gs, j, |groups[j]|, i);
      } else {
        assert Placed(groups, i);
        var g, k :| InGroup(groups, g, k, i);
        assert InGroup(gs, g, k, i);
      }
    }
    forall g1, k1, g2, k2, i | InGroup(gs, g1, k1, i) && InGroup(gs, g2, k2, i)
      ensures g1 == g2 && k1 == k2
    {
      if i != n {
        assert InGroup(groups, g1, k1, i) && InGroup(groups, g2, k2, i);
      }
    }
  }

  lemma OpenGroup(n: nat, connected: seq<seq<bool>>, groups: seq<seq<nat>>)
    requires FirstFitGroups(n, connected, groups)
    requires forall h :: 0 <= h < |groups| ==> !Conn(connected, n, groups[h][0])
    ensures FirstFitGroups(n + 1, connected, groups + [[n]])
  {
    var gs := groups + [[n]];
    assert forall g, k :: InGroup(groups, g, k, n) ==> false;
    forall i | 0 <= i < n + 1
      ensures Placed(gs, i)
    {
      if i == n {
        assert InGroup(gs, |groups|, 0, i);
      } else {
        assert Placed(groups, i);
        var g, k :| InGroup(groups, g, k, i);
        assert InGroup(gs, g, k, i);
      }
    }
    forall g1, k1, g2, k2, i | InGroup(gs, g1, k1, i) && InGroup(gs, g2, k2, i)
      ensures g1 == g2 && k1 == k2
    {
      if i != n {
        assert InGroup(groups, g1, k1, i) && InGroup(groups, g2, k2, i);
      }
    }
  }

  /** Sorts warehouses 0..n-1 into groups connected by road, each joining
      the first group whose first member it can reach. */
  method GroupByReachability(n: nat, connected: seq<seq<bool>>) returns (groups: seq<seq<nat>>)
    ensures FirstFitGroups(n, connected, groups)
  {
    groups := [];
    for i := 0 to n
      invariant FirstFitGroups(i, connected, groups)
    {
      var found := false;
      var j := 0;
      while j < |groups| && !found
        invariant j <= |groups|
        invariant forall h :: 0 <= h < j ==> !Conn(connected, i, groups[h][0])
        invariant found ==> j < |groups| && Conn(connected, i, groups[j][0])
        decreases |groups| - j, if found then 0 else 1
      {
        if i < |connected| && groups[j][0] < |connected[i]| && connected[i][groups[j][0]] {
          found := true;
        } else {
          j := j + 1;
        }
      }
      if found {
        JoinGroup(i, connected, groups, j);
        groups := groups[j := groups[j] + [i]];
      } else {
        OpenGroup(i, connected, groups);
        groups := groups + [[i]];
      }
    }
  }

  /** Every warehouse of the group holds more than the limit. */
  predicate AllAboveLimit(whs: seq<Warehouse>, group: seq<nat>, limit: nat) {
    forall k :: 0 <= k < |group| && group[k] < |whs| ==> whs[group[k]].wares > limit
  }

  /** The command that brings a warehouse to the wanted setting, if it is
      not there already. */
  function ToggleTo(wh: Warehouse, stop: bool): seq<Command> {
    if wh.stopped != stop then [SetGoodStop(wh.pos, stop)] else []
  }

  /** The setting each listed warehouse should end with: stopped exactly
      when `someNeedy` holds and it has more than the limit. */
  function Toggles(whs: seq<Warehouse>, members: seq<nat>, limit: nat, someNeedy: bool): seq<Command>
    requires forall k :: 0 <= k < |members| ==> members[k] < |whs|
  {
    if members == [] then []
    else
      var wh := whs[members[0]];
      ToggleTo(wh, someNeedy && wh.wares > limit) + Toggles(whs, members[1..], limit, someNeedy)
  }

  /** The commands for one connected group. */
  function GroupCommands(whs: seq<Warehouse>, group: seq<nat>, limit: nat): seq<Command>
    requires forall k :: 0 <= k < |group| ==> group[k] < |whs|
  {
    Toggles(whs, group, limit, !AllAboveLimit(whs, group, limit))
  }

  /** The commands for all groups, group after group. */
  function AllGroupCommands(whs: seq<Warehouse>, groups: seq<seq<nat>>, limit: nat): seq<Command>
    requires GroupsWellFormed(|whs|, groups)
  {
    if groups == [] then []
    else AllGroupCommands(whs, groups[..|groups| - 1], limit) + GroupCommands(whs, groups[|groups| - 1], limit)
  }

  function Range(n: nat): (r: seq<nat>)
    ensures |r| == n && forall k :: 0 <= k < n ==> r[k] == k
  {
    if n == 0 then [] else Range(n - 1) + [n - 1]
  }

  /** The setting a warehouse on `pos` ends with once the commands are
      carried out, starting from `stopped`. */
  function Apply(stopped: bool, pos: Pos, cmds: seq<Command>): bool
    decreases |cmds|
  {
    if cmds == [] then stopped
    else
      var c := cmds[0];
      Apply(if c.SetGoodStop? && c.warehouse == pos then c.stop else stopped, pos, cmds[1..])
  }

  lemma {:induction false} ApplyAppend(stopped: bool, pos: Pos, a: seq<Command>, b: seq<Command>)
    ensures Apply(stopped, pos, a + b) == Apply(Apply(stopped, pos, a), pos, b)
    decreases |a|
  {
    if a == [] {
      assert a + b == b;
    } else {
      assert (a + b)[1..] == a[1..] + b;
      var c := a[0];
      ApplyAppend(if c.SetGoodStop? && c.warehouse == pos then c.stop else stopped, pos, a[1..], b);
    }
  }

  /** Commands that never name `pos` leave its setting alone. */
  lemma {:induction false} ApplyUntouched(stopped: bool, pos: Pos, cmds: seq<Command>)
    requires forall k :: 0 <= k < |cmds| ==> !(cmds[k].SetGoodStop? && cmds[k].warehouse == pos)
    ensures Apply(stopped, pos, cmds) == stopped
  {
    if cmds != [] {
      ApplyUntouched(stopped, pos, cmds[1..]);
    }
  }

  /** The setting a listed warehouse should end with. */
  predicate Wanted(wh: Warehouse, limit: nat, someNeedy: bool) {
    someNeedy && wh.wares > limit
  }

  /** c flips the setting of one listed warehouse whose setting is not the
      wanted one. */
  ghost predicate FlipsListed(whs: seq<Warehouse>, members: seq<nat>, limit: nat, someNeedy: bool, c: Command)
    requires forall k :: 0 <= k < |members| ==> members[k] < |whs|
  {
    exists k :: 0 <= k < |members|
      && c == SetGoodStop(whs[members[k]].pos, !whs[members[k]].stopped)
      && whs[members[k]].stopped != Wanted(whs[members[k]], limit, someNeedy)
  }

  /** Every toggle command names a listed warehouse and flips its setting
      to the wanted one. */
  lemma {:induction false} TogglesFlip(whs: seq<Warehouse>, members: seq<nat>, limit: nat, someNeedy: bool)
    requires forall k :: 0 <= k < |members| ==> members[k] < |whs|
    ensures forall c :: c in Toggles(whs, members, limit, someNeedy) ==> FlipsListed(whs, members, limit, someNeedy, c)
  {
    if members != [] {
      TogglesFlip(whs, members[1..], limit, someNeedy);
      forall c | c in Toggles(whs, members, limit, someNeedy)
        ensures FlipsListed(whs, members, limit, someNeedy, c)
      {
        if c in ToggleTo(whs[members[0]], someNeedy && whs[members[0]].wares > limit) {
          assert members[0] == members[0];
        } else {
          assert FlipsListed(whs, members[1..], limit, someNeedy, c);
          var k :| 0 <= k < |members[1..]|
            && c == SetGoodStop(whs[members[1..][k]].pos, !whs[members[1..][k]].stopped)
            && whs[members[1..][k]].stopped != Wanted(whs[members[1..][k]], limit, someNeedy);
          assert members[1..][k] == members[k + 1];
        }
      }
    }
  }

  /** The toggles of the listed warehouses never name the position of an
      unlisted one. */
  lemma NoToggleOfUnlisted(whs: seq<Warehouse>, members: seq<nat>, limit: nat, someNeedy: bool, i: nat)
    requires forall k :: 0 <= k < |members| ==> members[k] < |whs|
    requires DistinctPositions(whs) && i < |whs| && i !in members
    ensures forall k :: 0 <= k < |Toggles(whs, members, limit, someNeedy)| ==>
              !(Toggles(whs, members, limit, someNeedy)[k].SetGoodStop?
                && Toggles(whs, members, limit, someNeedy)[k].warehouse == whs[i].pos)
  {
    var cmds := Toggles(whs, members, limit, someNeedy);
    TogglesFlip(whs, members, limit, someNeedy);
    forall k | 0 <= k < |cmds|
      ensures !(cmds[k].SetGoodStop? && cmds[k].warehouse == whs[i].pos)
    {
      assert cmds[k] in cmds;
      assert FlipsListed(whs, members, limit, someNeedy, cmds[k]);
      var l :| 0 <= l < |members| && cmds[k] == SetGoodStop(whs[members[l]].pos, !whs[members[l]].stopped)
        && whs[members[l]].stopped != Wanted(whs[members[l]], limit, someNeedy);
      assert members[l] != i;
    }
  }

  /** A listed warehouse ends with the wanted setting; an unlisted one
      (on another node) is left alone. */
  lemma {:induction false} TogglesReachTarget(whs: seq<Warehouse>, members: seq<nat>, limit: nat, someNeedy: bool, i: nat)
    requires forall k :: 0 <= k < |members| ==> members[k] < |whs|
    requires DistinctPositions(whs) && i < |whs|
    requires forall k, l :: 0 <= k < l < |members| ==> members[k] != members[l]
    ensures Apply(whs[i].stopped, whs[i].pos, Toggles(whs, members, limit, someNeedy))
            == if i in members then someNeedy && whs[i].wares > limit else whs[i].stopped
  {
    if members != [] {
      var m := members[0];
      var head := ToggleTo(whs[m], someNeedy && whs[m].wares > limit);
      var tail := Toggles(whs, members[1..], limit, someNeedy);
      ApplyAppend(whs[i].stopped, whs[i].pos, head, tail);
      if i == m {
        assert i !in members[1..];
        NoToggleOfUnlisted(whs, members[1..], limit, someNeedy, i);
        ApplyUntouched(Apply(whs[i].stopped, whs[i].pos, head), whs[i].pos, tail);
      } else {
        assert i in members <==> i in members[1..];
        TogglesReachTarget(whs, members[1..], limit, someNeedy, i);
      }
    }
  }

  lemma {:induction false} TogglesSnoc(whs: seq<Warehouse>, members: seq<nat>, m: nat, limit: nat, someNeedy: bool)
    requires forall k :: 0 <= k < |members| ==> members[k] < |whs|
    requires m < |whs|
    ensures Toggles(whs, members + [m], limit, someNeedy)
            == Toggles(whs, members, limit, someNeedy) + ToggleTo(whs[m], someNeedy && whs[m].wares > limit)
  {
    if members == [] {
      assert members + [m] == [m];
    } else {
      assert (members + [m])[1..] == members[1..] + [m];
      TogglesSnoc(whs, members[1..], m, limit, someNeedy);
    }
  }

  /** Dropping the last group keeps the groups well formed and unique,
      and leaves every other placement where it was. */
  lemma DropLastGroup(n: nat, groups: seq<seq<nat>>)
    requires groups != [] && GroupsWellFormed(n, groups) && GroupsUnique(groups)
    ensures GroupsWellFormed(n, groups[..|groups| - 1]) && GroupsUnique(groups[..|groups| - 1])
    ensures forall g: nat, k: nat, i: nat :: InGroup(groups[..|groups| - 1], g, k, i) <==> g < |groups| - 1 && InGroup(groups, g, k, i)
  {
    var init := groups[..|groups| - 1];
    forall g1: nat, k1: nat, g2: nat, k2: nat, j: nat | InGroup(init, g1, k1, j) && InGroup(init, g2, k2, j)
      ensures g1 == g2 && k1 == k2
    {
      assert InGroup(groups, g1, k1, j) && InGroup(groups, g2, k2, j);
    }
  }

  /** A group of unique groups lists each member once. */
  lemma UniqueMembers(groups: seq<seq<nat>>, g: nat)
    requires GroupsUnique(groups) && g < |groups|
    ensures forall k, l :: 0 <= k < l < |groups[g]| ==> groups[g][k] != groups[g][l]
  {
    forall k, l | 0 <= k < l < |groups[g]|
      ensures groups[g][k] != groups[g][l]
    {
      if groups[g][k] == groups[g][l] {
        assert InGroup(groups, g, k, groups[g][k]) && InGroup(groups, g, l, groups[g][k]);
      }
    }
  }

  /** A warehouse in no group keeps its setting through all group commands. */
  lemma {:induction false} UngroupedUntouched(whs: seq<Warehouse>, groups: seq<seq<nat>>, limit: nat, i: nat, start: bool)
    requires GroupsWellFormed(|whs|, groups) && GroupsUnique(groups)
    requires DistinctPositions(whs) && i < |whs|
    requires forall g :: 0 <= g < |groups| ==> i !in groups[g]
    ensures Apply(start, whs[i].pos, AllGroupCommands(whs, groups, limit)) == start
    decreases |groups|
  {
    if groups != [] {
      var n := |groups| - 1;
      var init := groups[..n];
      DropLastGroup(|whs|, groups);
      UngroupedUntouched(whs, init, limit, i, start);
      ApplyAppend(start, whs[i].pos, AllGroupCommands(whs, init, limit), GroupCommands(whs, groups[n], limit));
      UniqueMembers(groups, n);
      ApplyFromStart(whs, groups[n], limit, !AllAboveLimit(whs, groups[n], limit), i, start);
    }
  }

  /** Within a group: a warehouse ends stopped exactly when some warehouse
      of its group is at or below the limit and it is above it. */
  lemma {:induction false} GroupedReachTarget(whs: seq<Warehouse>, groups: seq<seq<nat>>, limit: nat, i: nat, g: nat)
    requires GroupsWellFormed(|whs|, groups) && GroupsUnique(groups)
    requires DistinctPositions(whs) && i < |whs|
    requires g < |groups| && i in groups[g]
    ensures Apply(whs[i].stopped, whs[i].pos, AllGroupCommands(whs, groups, limit))
            == Wanted(whs[i], limit, !AllAboveLimit(whs, groups[g], limit))
    decreases |groups|
  {
    var n := |groups| - 1;
    var init := groups[..n];
    var last := groups[n];
    var k :| 0 <= k < |groups[g]| && groups[g][k] == i;
    DropLastGroup(|whs|, groups);
    ApplyAppend(whs[i].stopped, whs[i].pos, AllGroupCommands(whs, init, limit), GroupCommands(whs, last, limit));
    UniqueMembers(groups, n);
    var before := Apply(whs[i].stopped, whs[i].pos, AllGroupCommands(whs, init, limit));
    if g == n {
      forall h | 0 <= h < |init|
        ensures i !in init[h]
      {
        if i in init[h] {
          var l :| 0 <= l < |init[h]| && init[h][l] == i;
          assert InGroup(groups, h, l, i) && InGroup(groups, g, k, i);
        }
      }
      UngroupedUntouched(whs, init, limit, i, whs[i].stopped);
      ApplyFromStart(whs, last, limit, !AllAboveLimit(whs, last, limit), i, before);
    } else {
      assert InGroup(init, g, k, i);
      GroupedReachTarget(whs, init, limit, i, g);
      if i in last {
        var l :| 0 <= l < |last| && last[l] == i;
        assert InGroup(groups, n, l, i) && InGroup(groups, g, k, i);
      }
      ApplyFromStart(whs, last, limit, !AllAboveLimit(whs, last, limit), i, before);
    }
  }

  /** TogglesReachTarget from an arbitrary starting setting: an unlisted
      warehouse keeps it, a listed one whose start is its own setting ends
      with the wanted one. */
  lemma ApplyFromStart(whs: seq<Warehouse>, members: seq<nat>, limit: nat, someNeedy: bool, i: nat, start: bool)
    requires forall k :: 0 <= k < |members| ==> members[k] < |whs|
    requires DistinctPositions(whs) && i < |whs|
    requires forall k, l :: 0 <= k < l < |members| ==> members[k] != members[l]
    requires i in members ==> start == whs[i].stopped
    ensures Apply(start, whs[i].pos, Toggles(whs, members, limit, someNeedy))
            == if i in members then Wanted(whs[i], limit, someNeedy) else start
  {
    var cmds := Toggles(whs, members, limit, someNeedy);
    if i in members {
      TogglesReachTarget(whs, members, limit, someNeedy, i);
    } else {
      TogglesFlip(whs, members, limit, someNeedy);
      forall k | 0 <= k < |cmds|
        ensures !(cmds[k].SetGoodStop? && cmds[k].warehouse == whs[i].pos)
      {
        assert cmds[k] in cmds;
        assert FlipsListed(whs, members, limit, someNeedy, cmds[k]);
        var l :| 0 <= l < |members| && cmds[k] == SetGoodStop(whs[members[l]].pos, !whs[members[l]].stopped)
          && whs[members[l]].stopped != Wanted(whs[members[l]], limit, someNeedy);
        assert members[l] != i;
      }
      ApplyUntouched(start, whs[i].pos, cmds);
    }
  }

  /** The commands for one group, issued as the two loops over the group do:
      first the test whether every warehouse is above the limit, then one
      toggle per warehouse whose setting is not the wanted one. */
  method BlockGroup(whs: seq<Warehouse>, group: seq<nat>, limit: nat) returns (cmds: seq<Command>)
    requires forall k :: 0 <= k < |group| ==> group[k] < |whs|
    ensures cmds == GroupCommands(whs, group, limit)
  {
    var allAbove := true;
    var j := 0;
    while j < |group| && allAbove
      invariant j <= |group|
      invariant allAbove <==> forall m :: 0 <= m < j ==> whs[group[m]].wares > limit
      invariant !allAbove ==> !AllAboveLimit(whs, group, limit)
    {
      if whs[group[j]].wares <= limit {
        allAbove := false;
      }
      j := j + 1;
    }
    assert allAbove == AllAboveLimit(whs, group, limit);
    cmds := [];
    for k := 0 to |group|
      invariant cmds == Toggles(whs, group[..k], limit, !allAbove)
    {
      var wh := whs[group[k]];
      TogglesSnoc(whs, group[..k], group[k], limit, !allAbove);
      assert group[..k + 1] == group[..k] + [group[k]];
      if allAbove {
        if wh.stopped {
          cmds := cmds + [SetGoodStop(wh.pos, false)];
        }
      } else if wh.wares <= limit {
        if wh.stopped {
          cmds := cmds + [SetGoodStop(wh.pos, false)];
        }
      } else {
        if !wh.stopped {
          cmds := cmds + [SetGoodStop(wh.pos, true)];
        }
      }
    }
    assert group[..|group|] == group;
  }

  /** Spreads one good over the warehouses by blocking and unblocking it.
      With at least half as many harbors as warehouses every warehouse is
      unblocked; otherwise each road-connected group is balanced on its
      own. */
  method DistributeGoodsByBlocking(whs: seq<Warehouse>, numHarbors: nat, connected: seq<seq<bool>>, limit: nat)
    returns (cmds: seq<Command>, ghost groups: seq<seq<nat>>)
    ensures numHarbors >= |whs| / 2 ==> cmds == Toggles(whs, Range(|whs|), limit, false)
    ensures numHarbors < |whs| / 2 ==>
              FirstFitGroups(|whs|, connected, groups) && cmds == AllGroupCommands(whs, groups, limit)
  {
    if numHarbors >= |whs| / 2 {
      cmds := [];
      groups := [];
      for i := 0 to |whs|
        invariant cmds == Toggles(whs, Range(i), limit, false)
      {
        TogglesSnoc(whs, Range(i), i, limit, false);
        if whs[i].stopped {
          cmds := cmds + [SetGoodStop(whs[i].pos, false)];
        }
      }
      return;
    }
    var found := GroupByReachability(|whs|, connected);
    groups := found;
    cmds := [];
    for g := 0 to |found|
      invariant cmds == AllGroupCommands(whs, found[..g], limit)
    {
      var groupCmds := BlockGroup(whs, found[g], limit);
      assert found[..g + 1][..g] == found[..g];
      cmds := cmds + groupCmds;
    }
    assert found[..|found|] == found;
  }

  /** Command c switches some warehouse away from its current setting. */
  ghost predicate FlipsOne(whs: seq<Warehouse>, c: Command) {
    exists j :: 0 <= j < |whs| && c == SetGoodStop(whs[j].pos, !whs[j].stopped)
  }

  lemma FlipsListedFlipsOne(whs: seq<Warehouse>, members: seq<nat>, limit: nat, someNeedy: bool)
    requires forall k :: 0 <= k < |members| ==> members[k] < |whs|
    ensures forall c :: c in Toggles(whs, members, limit, someNeedy) ==> FlipsOne(whs, c)
  {
    TogglesFlip(whs, members, limit, someNeedy);
    forall c | c in Toggles(whs, members, limit, someNeedy)
      ensures FlipsOne(whs, c)
    {
      assert FlipsListed(whs, members, limit, someNeedy, c);
      var k :| 0 <= k < |members| && c == SetGoodStop(whs[members[k]].pos, !whs[members[k]].stopped)
        && whs[members[k]].stopped != Wanted(whs[members[k]], limit, someNeedy);
      assert members[k] < |whs|;
    }
  }

  /** Every command of every group switches some warehouse. */
  lemma {:induction false} AllGroupsFlip(whs: seq<Warehouse>, groups: seq<seq<nat>>, limit: nat)
    requires GroupsWellFormed(|whs|, groups)
    ensures forall c :: c in AllGroupCommands(whs, groups, limit) ==> FlipsOne(whs, c)
    decreases |groups|
  {
    if groups != [] {
      var n := |groups| - 1;
      assert GroupsWellFormed(|whs|, groups[..n]);
      AllGroupsFlip(whs, groups[..n], limit);
      FlipsListedFlipsOne(whs, groups[n], limit, !AllAboveLimit(whs, groups[n], limit));
    }
  }

  /** What the blocking achieves, warehouse by warehouse: on a sea map no
      warehouse ends blocked; otherwise a warehouse ends blocked exactly
      when some warehouse of its road-connected group is at or below the
      limit and it is above it.  Every command flips one warehouse away
      from a setting it should not keep. */
  lemma BlockingOutcome(whs: seq<Warehouse>, numHarbors: nat, connected: seq<seq<bool>>, limit: nat,
                        cmds: seq<Command>, groups: seq<seq<nat>>)
    requires DistinctPositions(whs)
    requires numHarbors >= |whs| / 2 ==> cmds == Toggles(whs, Range(|whs|), limit, false)
    requires numHarbors < |whs| / 2 ==>
               FirstFitGroups(|whs|, connected, groups) && cmds == AllGroupCommands(whs, groups, limit)
    ensures numHarbors >= |whs| / 2 ==> forall i :: 0 <= i < |whs| ==> !Apply(whs[i].stopped, whs[i].pos, cmds)
    ensures numHarbors < |whs| / 2 ==> forall i: nat, g: nat, k: nat :: 0 <= i < |whs| && InGroup(groups, g, k, i) ==>
              Apply(whs[i].stopped, whs[i].pos, cmds) == (!AllAboveLimit(whs, groups[g], limit) && whs[i].wares > limit)
    ensures numHarbors < |whs| / 2 ==> forall i :: 0 <= i < |whs| ==> Placed(groups, i)
    ensures forall c :: c in cmds ==> FlipsOne(whs, c)
  {
    if numHarbors >= |whs| / 2 {
      forall i | 0 <= i < |whs|
        ensures !Apply(whs[i].stopped, whs[i].pos, cmds)
      {
        assert Range(|whs|)[i] == i;
        TogglesReachTarget(whs, Range(|whs|), limit, false, i);
      }
      FlipsListedFlipsOne(whs, Range(|whs|), limit, false);
    } else {
      AllGroupsFlip(whs, groups, limit);
      forall i | 0 <= i < |whs|
        ensures forall g: nat, k: nat :: InGroup(groups, g, k, i) ==>
          Apply(whs[i].stopped, whs[i].pos, cmds) == (!AllAboveLimit(whs, groups[g], limit) && whs[i].wares > limit)
      {
        forall g: nat, k: nat | InGroup(groups, g, k, i)
          ensures Apply(whs[i].stopped, whs[i].pos, cmds) == (!AllAboveLimit(whs, groups[g], limit) && whs[i].wares > limit)
        {
          GroupedReachTarget(whs, groups, limit, i, g);
        }
      }
    }
  }
}
