/**
 * How the computer player prunes roads it no longer needs: a flag with
 * few roads is destroyed (or, for a flag that must stay, its road), and the
 * pruning cascades along the roads to the neighbouring flags.  A flag with
 * two roads is only removed when it lies on a short circle of roads, found
 * by a bounded depth-first search.  Destroy orders are carried out by the
 * game later, so the flag graph does not change while pruning runs.
 */
module Roads {
  import opened Wrappers
  import opened AITypes

  /** A road leaving a flag: the flag at its other end, and the direction
      the road reports for that end (the direction back is that plus 3). */
  datatype Road = Road(other: nat, otherDir: Direction)

  /** The flag graph: `routes[f][d]` is the road leaving flag f in direction
      d, and `buildingNW[f]` tells whether a building or building site
      stands north-west of flag f.  Flags are identified by number. */
  datatype FlagGraph = FlagGraph(routes: seq<seq<Option<Road>>>, buildingNW: seq<bool>)

  /** The road leaving flag f in direction d, if any. */
  function Route(g: FlagGraph, f: nat, d: nat): Option<Road> {
    if f < |g.routes| && d < |g.routes[f]| then g.routes[f][d] else None
  }

  /** Flag f belongs to a building or building site. */
  predicate NWBlocked(g: FlagGraph, f: nat) {
    f < |g.buildingNW| && g.buildingNW[f]
  }

  /** Direction d is skipped when looking along roads from flag f: it is
      excluded, or it leads into the building of the flag. */
  predicate Skipped(g: FlagGraph, f: nat, d: Direction, exclude: Option<Direction>) {
    exclude == Some(d) || (d == NORTH_WEST && NWBlocked(g, f))
  }

  // ---------------------------------------------------------------------
  // Searching for a circle of roads

  /** The bounded search of IsFlagPartofCircle: from `cur`, follow roads
      in direction order, never back along the road just taken, never to a
      flag met already in this frame or the frames that led here, and
      succeed on reaching `start` again after at least one step. */
  function Circle(g: FlagGraph, start: nat, maxlen: nat, cur: nat, exclude: Option<Direction>, oldFlags: seq<nat>): bool
    decreases maxlen, 7
  {
    if oldFlags != [] && start == cur then true
    else if maxlen < 1 then false
    else CircleDirs(g, start, maxlen, cur, exclude, oldFlags, 0)
  }

  /** The loop over directions d, d+1, ..5 of one search frame; flags met
      are added to `oldFlags` for the rest of the frame. */
  function CircleDirs(g: FlagGraph, start: nat, maxlen: nat, cur: nat, exclude: Option<Direction>,
                      oldFlags: seq<nat>, d: nat): bool
    requires maxlen >= 1 && d <= 6
    decreases maxlen, 6 - d
  {
    if d == 6 then false
    else if Skipped(g, cur, d, exclude) then CircleDirs(g, start, maxlen, cur, exclude, oldFlags, d + 1)
    else match Route(g, cur, d)
      case None => CircleDirs(g, start, maxlen, cur, exclude, oldFlags, d + 1)
      case Some(road) =>
        if road.other in oldFlags then CircleDirs(g, start, maxlen, cur, exclude, oldFlags, d + 1)
        else
          var flags := oldFlags + [road.other];
          Circle(g, start, maxlen - 1, road.other, Some(Reverse(road.otherDir)), flags)
          || CircleDirs(g, start, maxlen, cur, exclude, flags, d + 1)
  }

  /** The way step i of a trail may not take: the excluded direction at
      the first step, and afterwards the way back along the road the trail
      just arrived by. */
  function Barred(g: FlagGraph, flags: seq<nat>, dirs: seq<Direction>, exclude: Option<Direction>, i: nat): Option<Direction>
    requires i < |dirs| && |flags| == |dirs| + 1
  {
    if i == 0 then exclude
    else match Route(g, flags[i - 1], dirs[i - 1])
      case Some(road) => Some(Reverse(road.otherDir))
      case None => None
  }

  /** Step i of a trail leaves flags[i] in direction dirs[i], neither barred
      nor into the flag's building, along a road that ends at flags[i + 1]. */
  ghost predicate TrailStep(g: FlagGraph, flags: seq<nat>, dirs: seq<Direction>, exclude: Option<Direction>, i: nat)
    requires i < |dirs| && |flags| == |dirs| + 1
  {
    && !Skipped(g, flags[i], dirs[i], Barred(g, flags, dirs, exclude, i))
    && Route(g, flags[i], dirs[i]).Some?
    && Route(g, flags[i], dirs[i]).value.other == flags[i + 1]
  }

  /** A trail of one to maxlen roads from cur back to start: no step turns
      back along the road it arrived by, and the flags passed on the way
      are distinct, differ from start and avoid the flags in `avoid`. */
  ghost predicate Trail(g: FlagGraph, flags: seq<nat>, dirs: seq<Direction>, cur: nat, start: nat,
                        exclude: Option<Direction>, maxlen: nat, avoid: seq<nat>)
  {
    && 1 <= |dirs| <= maxlen && |flags| == |dirs| + 1
    && flags[0] == cur && flags[|dirs|] == start
    && (forall i :: 0 <= i < |dirs| ==> TrailStep(g, flags, dirs, exclude, i))
    && (forall i :: 0 < i < |dirs| ==> flags[i] != start && flags[i] !in avoid)
    && (forall i, j :: 0 < i < j < |dirs| ==> flags[i] != flags[j])
  }

  /** The flag lies on a circle of one to maxlen roads: a trail leads from
      it back to it without reusing a road at any flag or passing a flag
      twice. */
  ghost predicate OnCircle(g: FlagGraph, flag: nat, maxlen: nat) {
    exists flags, dirs :: Trail(g, flags, dirs, flag, flag, None, maxlen, [])
  }

  /** A single road from cur that ends at start is a trail. */
  lemma TrailOne(g: FlagGraph, cur: nat, start: nat, exclude: Option<Direction>, maxlen: nat, avoid: seq<nat>, d: Direction)
    requires maxlen >= 1 && !Skipped(g, cur, d, exclude)
    requires Route(g, cur, d).Some? && Route(g, cur, d).value.other == start
    ensures Trail(g, [cur, start], [d], cur, start, exclude, maxlen, avoid)
  {
    assert TrailStep(g, [cur, start], [d], exclude, 0);
  }

  /** A road from cur to a flag not met before, followed by a trail from
      there that does not go straight back and avoids that flag, is a
      trail from cur. */
  lemma TrailCons(g: FlagGraph, flags: seq<nat>, dirs: seq<Direction>, cur: nat, start: nat,
                  exclude: Option<Direction>, maxlen: nat, avoid: seq<nat>, d: Direction, road: Road)
    requires maxlen >= 1 && !Skipped(g, cur, d, exclude) && Route(g, cur, d) == Some(road)
    requires road.other !in avoid && road.other != start
    requires Trail(g, flags, dirs, road.other, start, Some(Reverse(road.otherDir)), maxlen - 1, avoid + [road.other])
    ensures Trail(g, [cur] + flags, [d] + dirs, cur, start, exclude, maxlen, avoid)
  {
    var fl := [cur] + flags;
    var ds := [d] + dirs;
    var back := Some(Reverse(road.otherDir));
    forall i | 0 <= i < |ds|
      ensures TrailStep(g, fl, ds, exclude, i)
    {
      if i > 0 {
        assert fl[i] == flags[i - 1] && ds[i] == dirs[i - 1] && fl[i + 1] == flags[i];
        assert TrailStep(g, flags, dirs, back, i - 1);
        if i > 1 {
          assert fl[i - 1] == flags[i - 2] && ds[i - 1] == dirs[i - 2];
        }
        assert Barred(g, fl, ds, exclude, i) == Barred(g, flags, dirs, back, i - 1);
      }
    }
    forall i | 0 < i < |ds|
      ensures fl[i] != start && fl[i] !in avoid
    {
      assert fl[i] == flags[i - 1];
    }
    forall i, j | 0 < i < j < |ds|
      ensures fl[i] != fl[j]
    {
      assert fl[i] == flags[i - 1] && fl[j] == flags[j - 1];
      if i == 1 {
        assert flags[j - 1] !in avoid + [road.other];
      }
    }
  }

  /** A trail that avoids more flags avoids fewer. */
  lemma TrailAvoidsFewer(g: FlagGraph, flags: seq<nat>, dirs: seq<Direction>, cur: nat, start: nat,
                         exclude: Option<Direction>, maxlen: nat, avoid: seq<nat>, x: nat)
    requires Trail(g, flags, dirs, cur, start, exclude, maxlen, avoid + [x])
    ensures Trail(g, flags, dirs, cur, start, exclude, maxlen, avoid)
  {
    forall i | 0 < i < |dirs|
      ensures flags[i] !in avoid
    {
      assert flags[i] !in avoid + [x];
    }
  }

  /** A successful search has found a trail back to the start that avoids
      the flags met before, unless it is already back at the start. */
  lemma {:induction false} CircleSound(g: FlagGraph, start: nat, maxlen: nat, cur: nat, exclude: Option<Direction>, oldFlags: seq<nat>)
    requires Circle(g, start, maxlen, cur, exclude, oldFlags)
    ensures (oldFlags != [] && start == cur) || exists flags, dirs :: Trail(g, flags, dirs, cur, start, exclude, maxlen, oldFlags)
    decreases maxlen, 7
  {
    if !(oldFlags != [] && start == cur) {
      CircleDirsSound(g, start, maxlen, cur, exclude, oldFlags, 0);
    }
  }

  lemma {:induction false} CircleDirsSound(g: FlagGraph, start: nat, maxlen: nat, cur: nat, exclude: Option<Direction>,
                                           oldFlags: seq<nat>, d: nat)
    requires maxlen >= 1 && d <= 6
    requires CircleDirs(g, start, maxlen, cur, exclude, oldFlags, d)
    ensures exists flags, dirs :: Trail(g, flags, dirs, cur, start, exclude, maxlen, oldFlags)
    decreases maxlen, 6 - d
  {
    if Skipped(g, cur, d, exclude) || Route(g, cur, d).None? || Route(g, cur, d).value.other in oldFlags {
      CircleDirsSound(g, start, maxlen, cur, exclude, oldFlags, d + 1);
    } else {
      var dir: Direction := d;
      var road := Route(g, cur, dir).value;
      var flags := oldFlags + [road.other];
      if Circle(g, start, maxlen - 1, road.other, Some(Reverse(road.otherDir)), flags) {
        if road.other == start {
          TrailOne(g, cur, start, exclude, maxlen, oldFlags, dir);
        } else {
          CircleSound(g, start, maxlen - 1, road.other, Some(Reverse(road.otherDir)), flags);
          var fl, ds :| Trail(g, fl, ds, road.other, start, Some(Reverse(road.otherDir)), maxlen - 1, flags);
          TrailCons(g, fl, ds, cur, start, exclude, maxlen, oldFlags, dir, road);
        }
      } else {
        CircleDirsSound(g, start, maxlen, cur, exclude, flags, d + 1);
        var fl, ds :| Trail(g, fl, ds, cur, start, exclude, maxlen, flags);
        TrailAvoidsFewer(g, fl, ds, cur, start, exclude, maxlen, oldFlags, road.other);
      }
    }
  }

  /** A flag lies on a circle of at most maxlen roads when the search says so. */
  lemma CircleFromStart(g: FlagGraph, flag: nat, maxlen: nat)
    requires Circle(g, flag, maxlen, flag, None, [])
    ensures OnCircle(g, flag, maxlen)
  {
    CircleSound(g, flag, maxlen, flag, None, []);
  }

  /** IsFlagPartofCircle, with the loop over the six directions and the
      frame's own copy of the flags met so far. */
  method IsFlagPartofCircle(g: FlagGraph, start: nat, maxlen: nat, cur: nat, exclude: Option<Direction>, oldFlags: seq<nat>)
    returns (found: bool)
    ensures found == Circle(g, start, maxlen, cur, exclude, oldFlags)
    decreases maxlen
  {
    if oldFlags != [] && start == cur {
      return true;
    }
    if maxlen < 1 {
      return false;
    }
    var flags := oldFlags;
    for d := 0 to 6
      invariant CircleDirs(g, start, maxlen, cur, exclude, oldFlags, 0) == CircleDirs(g, start, maxlen, cur, exclude, flags, d)
    {
      var testDir: Direction := d;
      if exclude == Some(testDir) {
        continue;
      }
      if testDir == NORTH_WEST && NWBlocked(g, cur) {
        continue;
      }
      var route := Route(g, cur, testDir);
      if route.Some? {
        var flag := route.value.other;
        if flag !in flags {
          flags := flags + [flag];
          var revDir := Reverse(route.value.otherDir);
          var onCircle := IsFlagPartofCircle(g, start, maxlen - 1, flag, Some(revDir), flags);
          if onCircle {
            return true;
          }
        }
      }
    }
    return false;
  }

  // ---------------------------------------------------------------------
  // Counting the roads of a flag

  /** What the count of roads finds: the flag belongs to a building, or
      these are the directions (in order) in which roads leave it. */
  datatype Scan = BuildingFlag | Roads(dirs: seq<Direction>)

  /** The count over directions d..5. */
  function ScanFrom(g: FlagGraph, flag: nat, exclude: Option<Direction>, d: nat): (r: Scan)
    requires d <= 6
    ensures r.BuildingFlag? <==> d <= NORTH_WEST && exclude != Some(NORTH_WEST) && NWBlocked(g, flag)
    decreases 6 - d
  {
    if d == 6 then Roads([])
    else if exclude == Some(d) then ScanFrom(g, flag, exclude, d + 1)
    else if d == NORTH_WEST && NWBlocked(g, flag) then BuildingFlag
    else
      var rest := ScanFrom(g, flag, exclude, d + 1);
      if Route(g, flag, d).Some? && rest.Roads? then Roads([d] + rest.dirs) else rest
  }

  /** dirs lists, in increasing order, exactly the directions from d on
      that are not excluded and have a road. */
  predicate ExactlyTheRoads(g: FlagGraph, flag: nat, exclude: Option<Direction>, d: nat, dirs: seq<Direction>) {
    && IncreasingFrom(dirs, d)
    && (forall e: Direction :: e in dirs <==> e >= d && exclude != Some(e) && Route(g, flag, e).Some?)
  }

  /** Every direction in dirs is at least d, and they increase. */
  predicate IncreasingFrom(dirs: seq<Direction>, d: nat) {
    && (forall k :: 0 <= k < |dirs| ==> dirs[k] >= d)
    && (forall k, l :: 0 <= k < l < |dirs| ==> dirs[k] < dirs[l])
  }

  lemma ConsIncreasing(d: Direction, rest: seq<Direction>)
    requires IncreasingFrom(rest, d + 1)
    ensures IncreasingFrom([d] + rest, d)
  {
    var dirs := [d] + rest;
    forall k, l | 0 <= k < l < |dirs|
      ensures dirs[k] < dirs[l]
    {
      assert dirs[l] == rest[l - 1];
      if k > 0 {
        assert dirs[k] == rest[k - 1];
      }
    }
  }

  /** The directions counted are at least d and increasing. */
  lemma {:induction false} ScanFromOrdered(g: FlagGraph, flag: nat, exclude: Option<Direction>, d: nat)
    requires d <= 6 && ScanFrom(g, flag, exclude, d).Roads?
    ensures IncreasingFrom(ScanFrom(g, flag, exclude, d).dirs, d)
    decreases 6 - d
  {
    if d < 6 {
      var rest := ScanFrom(g, flag, exclude, d + 1);
      assert rest.Roads?;
      ScanFromOrdered(g, flag, exclude, d + 1);
      if exclude == Some(d as Direction) || Route(g, flag, d).None? {
        assert ScanFrom(g, flag, exclude, d).dirs == rest.dirs;
      } else {
        assert ScanFrom(g, flag, exclude, d).dirs == [d as Direction] + rest.dirs;
        ConsIncreasing(d, rest.dirs);
      }
    }
  }

  /** A direction is counted exactly when it is at least d, not excluded,
      and has a road. */
  lemma {:induction false} ScanFromMembership(g: FlagGraph, flag: nat, exclude: Option<Direction>, d: nat, e: Direction)
    requires d <= 6 && ScanFrom(g, flag, exclude, d).Roads?
    ensures e in ScanFrom(g, flag, exclude, d).dirs <==> e >= d && exclude != Some(e) && Route(g, flag, e).Some?
    decreases 6 - d
  {
    if d < 6 {
      var rest := ScanFrom(g, flag, exclude, d + 1);
      assert rest.Roads?;
      ScanFromMembership(g, flag, exclude, d + 1, e);
      if exclude == Some(d as Direction) || Route(g, flag, d).None? {
        assert ScanFrom(g, flag, exclude, d).dirs == rest.dirs;
      } else {
        assert ScanFrom(g, flag, exclude, d).dirs == [d as Direction] + rest.dirs;
      }
    }
  }

  /** The directions counted are, in increasing order, exactly those from d
      on that are not excluded and have a road. */
  lemma ScanFromFindsRoads(g: FlagGraph, flag: nat, exclude: Option<Direction>, d: nat)
    requires d <= 6 && ScanFrom(g, flag, exclude, d).Roads?
    ensures ExactlyTheRoads(g, flag, exclude, d, ScanFrom(g, flag, exclude, d).dirs)
  {
    ScanFromOrdered(g, flag, exclude, d);
    forall e: Direction
      ensures e in ScanFrom(g, flag, exclude, d).dirs <==> e >= d && exclude != Some(e) && Route(g, flag, e).Some?
    {
      ScanFromMembership(g, flag, exclude, d, e);
    }
  }

  /** The road count of RemoveUnusedRoad: every direction but the excluded
      one, stopping at a building north-west of the flag. */
  function ScanRoads(g: FlagGraph, flag: nat, exclude: Option<Direction>): (r: Scan)
    ensures r.BuildingFlag? <==> exclude != Some(NORTH_WEST) && NWBlocked(g, flag)
    ensures r.Roads? ==> forall k :: 0 <= k < |r.dirs| ==> Route(g, flag, r.dirs[k]).Some?
  {
    var r := ScanFrom(g, flag, exclude, 0);
    if r.Roads? then
      ScanFromFindsRoads(g, flag, exclude, 0);
      r
    else r
  }

  /** The directions found so far put in front of the count of the rest. */
  function Prepend(seen: seq<Direction>, rest: Scan): Scan {
    if rest.BuildingFlag? then BuildingFlag else Roads(seen + rest.dirs)
  }

  /** One step of the counting loop over direction d when it does not stop
      at the building. */
  lemma ScanStep(g: FlagGraph, flag: nat, exclude: Option<Direction>, d: nat, seen: seq<Direction>)
    requires d < 6 && !(exclude != Some(d as Direction) && d == NORTH_WEST && NWBlocked(g, flag))
    ensures Prepend(seen, ScanFrom(g, flag, exclude, d))
            == Prepend(if exclude != Some(d as Direction) && Route(g, flag, d).Some? then seen + [d as Direction] else seen,
                       ScanFrom(g, flag, exclude, d + 1))
  {
    var rest := ScanFrom(g, flag, exclude, d + 1);
    if rest.Roads? {
      assert (seen + [d as Direction]) + rest.dirs == seen + ([d as Direction] + rest.dirs);
    }
  }

  /** The counting loop: the number of roads and the first two directions
      with a road, or `building` when the loop stops at the building. */
  method CountRoads(g: FlagGraph, flag: nat, exclude: Option<Direction>)
    returns (building: bool, finds: nat, foundDir: Option<Direction>, foundDir2: Option<Direction>)
    ensures building <==> ScanRoads(g, flag, exclude).BuildingFlag?
    ensures !building ==> finds == |ScanRoads(g, flag, exclude).dirs|
    ensures !building ==> foundDir == Nth(ScanRoads(g, flag, exclude).dirs, 0)
    ensures !building ==> foundDir2 == Nth(ScanRoads(g, flag, exclude).dirs, 1)
  {
    finds, foundDir, foundDir2 := 0, None, None;
    ghost var seen: seq<Direction> := [];
    for d := 0 to 6
      invariant ScanRoads(g, flag, exclude) == Prepend(seen, ScanFrom(g, flag, exclude, d))
      invariant finds == |seen| && foundDir == Nth(seen, 0) && foundDir2 == Nth(seen, 1)
    {
      var dir: Direction := d;
      if exclude == Some(dir) {
        ScanStep(g, flag, exclude, d, seen);
        continue;
      }
      if dir == NORTH_WEST && NWBlocked(g, flag) {
        return true, finds, foundDir, foundDir2;
      }
      ScanStep(g, flag, exclude, d, seen);
      if Route(g, flag, dir).Some? {
        finds := finds + 1;
        if finds == 1 {
          foundDir := Some(dir);
        } else if finds == 2 {
          foundDir2 := Some(dir);
        }
        NthAppend(seen, dir);
        seen := seen + [dir];
      }
    }
    assert seen + [] == seen;
    building := false;
  }

  /** The i-th direction of dirs, if there is one. */
  function Nth(dirs: seq<Direction>, i: nat): Option<Direction> {
    if i < |dirs| then Some(dirs[i]) else None
  }

  /** Appending a direction fills in the first empty place and keeps the
      ones before. */
  lemma NthAppend(dirs: seq<Direction>, d: Direction)
    ensures forall i: nat :: i < |dirs| ==> Nth(dirs + [d], i) == Nth(dirs, i)
    ensures Nth(dirs + [d], |dirs|) == Some(d)
    ensures forall i: nat :: i > |dirs| ==> Nth(dirs + [d], i) == None
  {
  }

  // ---------------------------------------------------------------------
  // Pruning

  /** The outcome of RemoveUnusedRoad: its result (true asks the caller to
      reconnect a building flag) and the destroy orders it issued. */
  datatype Pruning = Pruning(reconnect: bool, cmds: seq<Command>)

  /** The order that removes the start flag, or only its first road when
      the flag is to be kept. */
  function KillOrders(flag: nat, dirs: seq<Direction>, keepstartflag: bool): seq<Command> {
    if keepstartflag then (if |dirs| > 0 then [DestroyRoad(flag, dirs[0])] else [])
    else [DestroyFlag(flag)]
  }

  /** Whether the flag, with its roads counted, is destroyed: at most one
      road, or two roads when circles are allowed, the flag is where the
      pruning started, and it lies on a circle of at most 10 roads. */
  predicate Removable(g: FlagGraph, flag: nat, dirs: seq<Direction>, firstflag: bool, allowcircle: bool) {
    |dirs| <= 1 || (|dirs| == 2 && allowcircle && Circle(g, flag, 10, flag, None, []) && firstflag)
  }

  /** RemoveUnusedRoad, cascading to the neighbours at the far end of the
      (at most two) roads.  Nothing bounds the cascade but the fuel: None
      means the fuel ran out. */
  function Prune(g: FlagGraph, flag: nat, exclude: Option<Direction>, firstflag: bool, allowcircle: bool,
                 keepstartflag: bool, fuel: nat): (r: Option<Pruning>)
    ensures r.Some? && r.value.reconnect ==> ScanRoads(g, flag, exclude).BuildingFlag? && r.value.cmds == []
    ensures fuel > 0 && ScanRoads(g, flag, exclude).BuildingFlag? ==> r == Some(Pruning(true, []))
    ensures r.Some? ==> forall c :: c in r.value.cmds ==> c.DestroyFlag? || c.DestroyRoad?
    decreases fuel
  {
    if fuel == 0 then None
    else match ScanRoads(g, flag, exclude)
      case BuildingFlag => Some(Pruning(true, []))
      case Roads(dirs) =>
        if !Removable(g, flag, dirs, firstflag, allowcircle) then Some(Pruning(false, []))
        else
          var kill := KillOrders(flag, dirs, keepstartflag);
          if dirs == [] then Some(Pruning(false, kill))
          else
            var road1 := Route(g, flag, dirs[0]).value;
            match Prune(g, road1.other, Some(Reverse(road1.otherDir)), false, true, false, fuel - 1)
            case None => None
            case Some(first) =>
              if |dirs| == 1 then Some(Pruning(false, kill + first.cmds))
              else
                var road2 := Route(g, flag, dirs[1]).value;
                match Prune(g, road2.other, Some(Reverse(road2.otherDir)), false, true, false, fuel - 1)
                case None => None
                case Some(second) => Some(Pruning(false, kill + first.cmds + second.cmds))
  }

  /** What one call decides about its own flag: a flag with more than two
      roads, or with two roads not on a short circle, is kept and nothing
      is destroyed; a destroyed flag with two roads lies on a circle of at
      most 10 roads and is where the pruning started; the first order is
      the destruction of the flag, or of its road when the flag is kept. */
  lemma {:induction false} PruneDecision(g: FlagGraph, flag: nat, exclude: Option<Direction>, firstflag: bool,
                                         allowcircle: bool, keepstartflag: bool, fuel: nat)
    requires fuel > 0 && ScanRoads(g, flag, exclude).Roads?
    ensures var dirs := ScanRoads(g, flag, exclude).dirs;
            var r := Prune(g, flag, exclude, firstflag, allowcircle, keepstartflag, fuel);
            && (|dirs| > 2 ==> r == Some(Pruning(false, [])))
            && (|dirs| == 2 && (!allowcircle || !firstflag) ==> r == Some(Pruning(false, [])))
            && (r.Some? && r.value.cmds != [] && |dirs| == 2 ==>
                  firstflag && allowcircle && OnCircle(g, flag, 10))
            && (r.Some? && Removable(g, flag, dirs, firstflag, allowcircle) && !keepstartflag ==>
                  r.value.cmds[0] == DestroyFlag(flag))
            && (r.Some? && Removable(g, flag, dirs, firstflag, allowcircle) && keepstartflag && dirs != [] ==>
                  r.value.cmds[0] == DestroyRoad(flag, dirs[0]))
  {
    var dirs := ScanRoads(g, flag, exclude).dirs;
    var r := Prune(g, flag, exclude, firstflag, allowcircle, keepstartflag, fuel);
    if r.Some? && r.value.cmds != [] && |dirs| == 2 {
      assert Removable(g, flag, dirs, firstflag, allowcircle);
      CircleFromStart(g, flag, 10);
    }
  }

  /** RemoveUnusedRoad: count the roads, decide, issue the destroy order and
      cascade to the neighbours, with a fuel bound on the cascade. */
  method RemoveUnusedRoad(g: FlagGraph, flag: nat, exclude: Option<Direction>, firstflag: bool, allowcircle: bool,
                          keepstartflag: bool, fuel: nat)
    returns (r: Option<Pruning>)
    ensures r == Prune(g, flag, exclude, firstflag, allowcircle, keepstartflag, fuel)
    decreases fuel
  {
    if fuel == 0 {
      return None;
    }
    var building, finds, foundDir, foundDir2 := CountRoads(g, flag, exclude);
    if building {
      return Some(Pruning(true, []));
    }
    ghost var dirs := ScanRoads(g, flag, exclude).dirs;
    if finds > 2 {
      return Some(Pruning(false, []));
    } else if finds == 2 {
      if allowcircle {
        var onCircle := IsFlagPartofCircle(g, flag, 10, flag, None, []);
        if !onCircle {
          return Some(Pruning(false, []));
        }
        if !firstflag {
          return Some(Pruning(false, []));
        }
      } else {
        return Some(Pruning(false, []));
      }
    }
    var cmds: seq<Command>;
    if keepstartflag {
      cmds := if foundDir.Some? then [DestroyRoad(flag, foundDir.value)] else [];
    } else {
      cmds := [DestroyFlag(flag)];
    }
    if foundDir.None? {
      return Some(Pruning(false, cmds));
    }
    var road1 := Route(g, flag, foundDir.value).value;
    var first := RemoveUnusedRoad(g, road1.other, Some(Reverse(road1.otherDir)), false, true, false, fuel - 1);
    if first.None? {
      return None;
    }
    cmds := cmds + first.value.cmds;
    if foundDir2.Some? {
      var road2 := Route(g, flag, foundDir2.value).value;
      var second := RemoveUnusedRoad(g, road2.other, Some(Reverse(road2.otherDir)), false, true, false, fuel - 1);
      if second.None? {
        return None;
      }
      cmds := cmds + second.value.cmds;
    }
    return Some(Pruning(false, cmds));
  }
}
