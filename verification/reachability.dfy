/**
 * The computer player's map of nodes and the flood fill that marks which
 * nodes its road network can reach: a breadth-first search from its own
 * flags over passable nodes, where a node with a positive retry penalty
 * is not marked but has its penalty counted down.
 */
module Reachability {
  import opened NodeResources

  /** What the player remembers about one map node. */
  datatype Node = Node(
    bq: nat,
    res: NodeResource,
    reachable: bool,
    failedPenalty: nat,
    owned: bool,
    border: bool,
    farmed: bool)

  const DEFAULT_NODE := Node(0, Nothing, false, 0, false, false, false)

  /** What the player reads of the world, per node index. */
  datatype World = World(
    neighbours: seq<seq<nat>>,  // the adjacent nodes
    passable: seq<bool>,        // whether a road may be built over the node
    ownFlag: seq<bool>,         // whether one of the player's flags stands there
    bq: seq<nat>,               // the building quality the game reports
    tiles: seq<Tile>,           // what lies in and on the node
    owned: seq<bool>,           // whether the node is in the player's territory
    border: seq<bool>)          // whether the node lies on that territory's border

  predicate WorldFits(w: World, n: nat) {
    && |w.neighbours| == n && |w.passable| == n && |w.ownFlag| == n
    && |w.bq| == n && |w.tiles| == n && |w.owned| == n && |w.border| == n
    && forall i, j :: 0 <= i < n && 0 <= j < |w.neighbours[i]| ==> w.neighbours[i][j] < n
  }

  /** The nodes not yet marked reachable. */
  ghost function Unreached(s: seq<Node>): set<nat> {
    set i | 0 <= i < |s| && !s[i].reachable
  }

  /** How the flood fill may change the map: it never clears a mark, only
      counts penalties down, and only on passable nodes that were not
      reachable; it marks only passable nodes whose penalty has run out;
      nothing else about a node changes. */
  ghost predicate FillStep(s0: seq<Node>, s: seq<Node>, passable: seq<bool>)
    requires |s0| == |s| == |passable|
  {
    forall i :: 0 <= i < |s| ==>
      && (s0[i].reachable ==> s[i].reachable)
      && s[i].failedPenalty <= s0[i].failedPenalty
      && (s[i].failedPenalty < s0[i].failedPenalty ==> passable[i] && !s0[i].reachable)
      && (s[i].reachable && !s0[i].reachable ==> passable[i] && s[i].failedPenalty == 0)
      && s[i].(reachable := s0[i].reachable, failedPenalty := s0[i].failedPenalty) == s0[i]
  }

  /** Every passable neighbour of node c is reachable or has had its
      penalty counted down since s0. */
  ghost predicate NeighboursSettled(s0: seq<Node>, s: seq<Node>, w: World, c: nat)
    requires |s0| == |s| == |w.neighbours| == |w.passable| && c < |s|
  {
    forall j :: 0 <= j < |w.neighbours[c]| && w.neighbours[c][j] < |s| && w.passable[w.neighbours[c][j]] ==>
      s[w.neighbours[c][j]].reachable || s[w.neighbours[c][j]].failedPenalty < s0[w.neighbours[c][j]].failedPenalty
  }

  /** The queue as a breadth-first tree: every node after the starting ones
      was pushed once, was not reachable before, and is a passable
      neighbour of a node ahead of it in the queue; and every node marked
      since s0 is among them. */
  ghost predicate QueueTree(s0: seq<Node>, s: seq<Node>, w: World, start: nat, q: seq<nat>)
    requires |s0| == |s| == |w.neighbours| == |w.passable|
  {
    && start <= |q|
    && (forall k :: 0 <= k < |q| ==> q[k] < |s|)
    && QueueMarked(s0, s, w, start, q)
    && QueueLinked(w, start, q)
    && QueueDistinct(start, q)
    && QueueCovers(s0, s, start, q)
  }

  ghost predicate QueueMarked(s0: seq<Node>, s: seq<Node>, w: World, start: nat, q: seq<nat>)
    requires |s0| == |s| == |w.passable|
  {
    forall k :: start <= k < |q| ==> q[k] < |s| && s[q[k]].reachable && !s0[q[k]].reachable && w.passable[q[k]]
  }

  ghost predicate QueueLinked(w: World, start: nat, q: seq<nat>) {
    forall k :: start <= k < |q| ==> HasParent(w, q, k)
  }

  /** Entry k of the queue is a neighbour of an entry ahead of it. */
  ghost predicate HasParent(w: World, q: seq<nat>, k: nat)
    requires k < |q|
  {
    exists p :: 0 <= p < k && q[p] < |w.neighbours| && q[k] in w.neighbours[q[p]]
  }

  ghost predicate QueueDistinct(start: nat, q: seq<nat>) {
    forall k, l :: start <= k < l < |q| ==> q[k] != q[l]
  }

  ghost predicate QueueCovers(s0: seq<Node>, s: seq<Node>, start: nat, q: seq<nat>)
    requires |s0| == |s|
  {
    forall i :: 0 <= i < |s| && s[i].reachable && !s0[i].reachable ==> exists k :: start <= k < |q| && q[k] == i
  }

  /** What checking one neighbour does to the map: an unreached passable
      node is marked when its penalty is 0 and has its penalty counted down
      otherwise; any other node is left alone. */
  function Visit(s: seq<Node>, nb: nat, passable: seq<bool>): (r: seq<Node>)
    requires nb < |s| == |passable|
    ensures |r| == |s|
  {
    if s[nb].reachable || !passable[nb] then s
    else if s[nb].failedPenalty == 0 then s[nb := s[nb].(reachable := true)]
    else s[nb := s[nb].(failedPenalty := s[nb].failedPenalty - 1)]
  }

  /** Whether checking the neighbour pushes it onto the queue. */
  predicate Pushes(s: seq<Node>, nb: nat, passable: seq<bool>)
    requires nb < |s| == |passable|
  {
    !s[nb].reachable && passable[nb] && s[nb].failedPenalty == 0
  }

  /** s2 has kept every mark of s1 and lowered no penalty of s1 further
      than ... raised none. */
  ghost predicate Grows(s1: seq<Node>, s2: seq<Node>)
    requires |s1| == |s2|
  {
    forall i :: 0 <= i < |s1| ==> (s1[i].reachable ==> s2[i].reachable) && s2[i].failedPenalty <= s1[i].failedPenalty
  }

  lemma VisitKeepsFillStep(s0: seq<Node>, s: seq<Node>, nb: nat, passable: seq<bool>)
    requires nb < |s| == |s0| == |passable|
    requires FillStep(s0, s, passable)
    ensures FillStep(s0, Visit(s, nb, passable), passable)
    ensures Grows(s, Visit(s, nb, passable))
  {
  }

  lemma VisitUnreached(s: seq<Node>, nb: nat, passable: seq<bool>)
    requires nb < |s| == |passable|
    ensures Pushes(s, nb, passable) ==> Unreached(Visit(s, nb, passable)) == Unreached(s) - {nb} && nb in Unreached(s)
    ensures !Pushes(s, nb, passable) ==> Unreached(Visit(s, nb, passable)) == Unreached(s)
  {
    var r := Visit(s, nb, passable);
    if Pushes(s, nb, passable) {
      assert Unreached(r) == Unreached(s) - {nb};
    } else {
      assert Unreached(r) == Unreached(s);
    }
  }

  lemma VisitSettles(s0: seq<Node>, s: seq<Node>, nb: nat, passable: seq<bool>)
    requires nb < |s| == |s0| == |passable|
    requires FillStep(s0, s, passable) && passable[nb]
    ensures var r := Visit(s, nb, passable); r[nb].reachable || r[nb].failedPenalty < s0[nb].failedPenalty
  {
  }

  lemma SettledGrows(s0: seq<Node>, s1: seq<Node>, s2: seq<Node>, w: World, c: nat)
    requires |s0| == |s1| == |s2| == |w.neighbours| && WorldFits(w, |s1|) && c < |s1|
    requires Grows(s1, s2) && NeighboursSettled(s0, s1, w, c)
    ensures NeighboursSettled(s0, s2, w, c)
  {
  }

  lemma AllSettledGrow(s0: seq<Node>, s1: seq<Node>, s2: seq<Node>, w: World, q: seq<nat>, h: nat)
    requires |s0| == |s1| == |s2| == |w.neighbours| && WorldFits(w, |s1|) && h <= |q|
    requires forall k :: 0 <= k < |q| ==> q[k] < |s1|
    requires Grows(s1, s2)
    requires forall k :: 0 <= k < h ==> NeighboursSettled(s0, s1, w, q[k])
    ensures forall k :: 0 <= k < h ==> NeighboursSettled(s0, s2, w, q[k])
  {
    forall k | 0 <= k < h
      ensures NeighboursSettled(s0, s2, w, q[k])
    {
      SettledGrows(s0, s1, s2, w, q[k]);
    }
  }

  lemma VisitKeepsQueueTree(s0: seq<Node>, s: seq<Node>, w: World, start: nat, q: seq<nat>, h: nat, nb: nat)
    requires |s0| == |s| && WorldFits(w, |s|) && h < |q| && nb < |s|
    requires FillStep(s0, s, w.passable)
    requires QueueTree(s0, s, w, start, q) && h < |q| && nb in w.neighbours[q[h]]
    ensures Pushes(s, nb, w.passable) ==> QueueTree(s0, Visit(s, nb, w.passable), w, start, q + [nb])
    ensures !Pushes(s, nb, w.passable) ==> QueueTree(s0, Visit(s, nb, w.passable), w, start, q)
  {
    var r := Visit(s, nb, w.passable);
    if Pushes(s, nb, w.passable) {
      PushKeepsMarked(s0, s, w, start, q, nb);
      PushKeepsLinked(w, start, q, h, nb);
      PushKeepsDistinct(s0, s, w, start, q, nb);
      PushKeepsCovers(s0, s, w.passable, start, q, nb);
    } else {
      assert QueueMarked(s0, r, w, start, q);
      assert QueueCovers(s0, r, start, q);
    }
  }

  lemma PushKeepsMarked(s0: seq<Node>, s: seq<Node>, w: World, start: nat, q: seq<nat>, nb: nat)
    requires |s0| == |s| && WorldFits(w, |s|) && nb < |s| && start <= |q|
    requires forall k :: 0 <= k < |q| ==> q[k] < |s|
    requires FillStep(s0, s, w.passable) && Pushes(s, nb, w.passable)
    requires QueueMarked(s0, s, w, start, q)
    ensures QueueMarked(s0, Visit(s, nb, w.passable), w, start, q + [nb])
  {
    var q' := q + [nb];
    assert forall k :: 0 <= k < |q| ==> q'[k] == q[k];
  }

  lemma PushKeepsLinked(w: World, start: nat, q: seq<nat>, h: nat, nb: nat)
    requires h < |q| && nb < |w.neighbours|
    requires forall k :: 0 <= k < |q| ==> q[k] < |w.neighbours|
    requires QueueLinked(w, start, q) && nb in w.neighbours[q[h]]
    ensures QueueLinked(w, start, q + [nb])
  {
    var q' := q + [nb];
    forall k | start <= k < |q'|
      ensures HasParent(w, q', k)
    {
      if k == |q| {
        assert q'[h] == q[h] && q'[k] == nb;
        assert 0 <= h < k && q'[h] < |w.neighbours| && q'[k] in w.neighbours[q'[h]];
      } else {
        assert HasParent(w, q, k);
        var p :| 0 <= p < k && q[p] < |w.neighbours| && q[k] in w.neighbours[q[p]];
        assert q'[p] == q[p] && q'[k] == q[k];
        assert 0 <= p < k && q'[p] < |w.neighbours| && q'[k] in w.neighbours[q'[p]];
      }
    }
  }

  lemma PushKeepsDistinct(s0: seq<Node>, s: seq<Node>, w: World, start: nat, q: seq<nat>, nb: nat)
    requires |s0| == |s| && WorldFits(w, |s|) && nb < |s| && start <= |q|
    requires forall k :: 0 <= k < |q| ==> q[k] < |s|
    requires Pushes(s, nb, w.passable) && QueueMarked(s0, s, w, start, q) && QueueDistinct(start, q)
    ensures QueueDistinct(start, q + [nb])
  {
    assert forall k :: start <= k < |q| ==> q[k] != nb;
  }

  lemma PushKeepsCovers(s0: seq<Node>, s: seq<Node>, passable: seq<bool>, start: nat, q: seq<nat>, nb: nat)
    requires |s0| == |s| == |passable| && nb < |s| && start <= |q|
    requires Pushes(s, nb, passable) && QueueCovers(s0, s, start, q)
    ensures QueueCovers(s0, Visit(s, nb, passable), start, q + [nb])
  {
    var q' := q + [nb];
    var r := Visit(s, nb, passable);
    forall i | 0 <= i < |r| && r[i].reachable && !s0[i].reachable
      ensures exists k :: start <= k < |q'| && q'[k] == i
    {
      if i == nb {
        assert q'[|q|] == i;
      } else {
        var k :| start <= k < |q| && q[k] == i;
        assert q'[k] == i;
      }
    }
  }

  /** Checks one neighbour of the node taken from the queue. */
  method CheckNeighbour(aiMap: array<Node>, passable: seq<bool>, nb: nat) returns (pushed: bool)
    requires nb < aiMap.Length == |passable|
    modifies aiMap
    ensures aiMap[..] == Visit(old(aiMap[..]), nb, passable)
    ensures pushed == Pushes(old(aiMap[..]), nb, passable)
  {
    var node := aiMap[nb];
    pushed := false;
    if node.reachable {
      return;
    }
    if passable[nb] {
      if node.failedPenalty == 0 {
        aiMap[nb] := node.(reachable := true);
        pushed := true;
      } else {
        aiMap[nb] := node.(failedPenalty := node.failedPenalty - 1);
      }
    }
  }

  /** One turn of the loop over the neighbours of queue entry h keeps the
      loop's invariants, with the neighbour appended when it is pushed. */
  lemma NeighbourStep(s0: seq<Node>, s: seq<Node>, w: World, start: nat, q0: seq<nat>, q: seq<nat>,
                      h: nat, cur: nat, j: nat, u0: set<nat>)
    requires WorldFits(w, |s|) && |s0| == |s| && h < |q0| <= |q| && q[..|q0|] == q0
    requires cur == q0[h] && cur < |s| && j < |w.neighbours[cur]|
    requires FillStep(s0, s, w.passable)
    requires QueueTree(s0, s, w, start, q)
    requires forall k :: 0 <= k < h ==> NeighboursSettled(s0, s, w, q[k])
    requires forall m :: 0 <= m < j && w.passable[w.neighbours[cur][m]] ==>
               s[w.neighbours[cur][m]].reachable || s[w.neighbours[cur][m]].failedPenalty < s0[w.neighbours[cur][m]].failedPenalty
    requires Unreached(s) <= u0 && |Unreached(s)| + |q| == |u0| + |q0|
    ensures var nb := w.neighbours[cur][j];
            var r := Visit(s, nb, w.passable);
            var q2 := if Pushes(s, nb, w.passable) then q + [nb] else q;
            && |q0| <= |q2| && q2[..|q0|] == q0
            && FillStep(s0, r, w.passable)
            && QueueTree(s0, r, w, start, q2)
            && (forall k :: 0 <= k < h ==> NeighboursSettled(s0, r, w, q2[k]))
            && (forall m :: 0 <= m < j + 1 && w.passable[w.neighbours[cur][m]] ==>
                  r[w.neighbours[cur][m]].reachable || r[w.neighbours[cur][m]].failedPenalty < s0[w.neighbours[cur][m]].failedPenalty)
            && Unreached(r) <= u0 && |Unreached(r)| + |q2| == |u0| + |q0|
  {
    var nb := w.neighbours[cur][j];
    var r := Visit(s, nb, w.passable);
    var q2 := if Pushes(s, nb, w.passable) then q + [nb] else q;
    VisitKeepsFillStep(s0, s, nb, w.passable);
    VisitUnreached(s, nb, w.passable);
    assert q[h] == cur;
    VisitKeepsQueueTree(s0, s, w, start, q, h, nb);
    AllSettledGrow(s0, s, r, w, q, h);
    if w.passable[nb] {
      VisitSettles(s0, s, nb, w.passable);
    }
    assert forall k :: 0 <= k < |q| ==> q2[k] == q[k];
    assert q2[..|q0|] == q0 by {
      assert q2[..|q0|] == q[..|q0|];
    }
  }

  /** Checks every neighbour of queue entry h, pushing the ones it marks. */
  method CheckNeighbours(aiMap: array<Node>, w: World, ghost s0: seq<Node>, start: nat, q: seq<nat>, h: nat)
    returns (q': seq<nat>)
    requires WorldFits(w, aiMap.Length) && |s0| == aiMap.Length && h < |q|
    requires FillStep(s0, aiMap[..], w.passable)
    requires QueueTree(s0, aiMap[..], w, start, q)
    requires forall k :: 0 <= k < h ==> NeighboursSettled(s0, aiMap[..], w, q[k])
    modifies aiMap
    ensures |q| <= |q'| && q'[..|q|] == q
    ensures FillStep(s0, aiMap[..], w.passable)
    ensures QueueTree(s0, aiMap[..], w, start, q')
    ensures forall k :: 0 <= k <= h ==> NeighboursSettled(s0, aiMap[..], w, q'[k])
    ensures Unreached(aiMap[..]) <= Unreached(old(aiMap[..]))
    ensures |Unreached(aiMap[..])| + |q'| == |Unreached(old(aiMap[..]))| + |q|
  {
    var cur := q[h];
    ghost var u0 := Unreached(aiMap[..]);
    var neighbours := w.neighbours[cur];
    q' := q;
    for j := 0 to |neighbours|
      invariant |q| <= |q'| && q'[..|q|] == q
      invariant FillStep(s0, aiMap[..], w.passable)
      invariant QueueTree(s0, aiMap[..], w, start, q')
      invariant forall k :: 0 <= k < h ==> NeighboursSettled(s0, aiMap[..], w, q'[k])
      invariant forall m :: 0 <= m < j && w.passable[neighbours[m]] ==>
                  aiMap[neighbours[m]].reachable || aiMap[neighbours[m]].failedPenalty < s0[neighbours[m]].failedPenalty
      invariant Unreached(aiMap[..]) <= u0
      invariant |Unreached(aiMap[..])| + |q'| == |u0| + |q|
    {
      var nb := neighbours[j];
      ghost var before := aiMap[..];
      NeighbourStep(s0, before, w, start, q, q', h, cur, j, u0);
      var pushed := CheckNeighbour(aiMap, w.passable, nb);
      if pushed {
        q' := q' + [nb];
      }
    }
    assert q'[h] == cur;
    assert NeighboursSettled(s0, aiMap[..], w, q'[h]);
  }

  /** Drains the queue of reachable nodes, marking passable neighbours whose
      penalty has run out and counting the others' penalties down. */
  method IterativeReachableNodeChecker(aiMap: array<Node>, w: World, toCheck: seq<nat>)
    returns (ghost visited: seq<nat>)
    requires WorldFits(w, aiMap.Length)
    requires forall k :: 0 <= k < |toCheck| ==> toCheck[k] < aiMap.Length
    modifies aiMap
    ensures FillStep(old(aiMap[..]), aiMap[..], w.passable)
    ensures |toCheck| <= |visited| && visited[..|toCheck|] == toCheck
    ensures QueueTree(old(aiMap[..]), aiMap[..], w, |toCheck|, visited)
    ensures forall k :: 0 <= k < |visited| ==> NeighboursSettled(old(aiMap[..]), aiMap[..], w, visited[k])
  {
    ghost var s0 := aiMap[..];
    var q := toCheck;
    var h := 0;
    while h < |q|
      invariant |toCheck| <= |q| && h <= |q| && q[..|toCheck|] == toCheck
      invariant FillStep(s0, aiMap[..], w.passable)
      invariant QueueTree(s0, aiMap[..], w, |toCheck|, q)
      invariant forall k :: 0 <= k < h ==> NeighboursSettled(s0, aiMap[..], w, q[k])
      decreases |Unreached(aiMap[..])|, |q| - h
    {
      ghost var q0 := q;
      q := CheckNeighbours(aiMap, w, s0, |toCheck|, q, h);
      assert q[..|toCheck|] == q0[..|toCheck|];
      h := h + 1;
    }
    visited := q;
  }

  /** The map after the reset at the start of InitReachableNodes: a node is
      reachable exactly when one of the player's flags stands on it, and no
      penalty is pending. */
  function ResetAll(s: seq<Node>, ownFlag: seq<bool>): (r: seq<Node>)
    requires |ownFlag| == |s|
    ensures |r| == |s|
    ensures forall i :: 0 <= i < |s| ==> r[i] == s[i].(reachable := ownFlag[i], failedPenalty := 0)
  {
    seq(|s|, i requires 0 <= i < |s| => s[i].(reachable := ownFlag[i], failedPenalty := 0))
  }

  /** The map after the reset at the start of UpdateReachableNodes: each of
      the given points is reachable exactly when one of the player's flags
      stands on it; every other node keeps what it had. */
  function ResetPoints(s: seq<Node>, pts: seq<nat>, ownFlag: seq<bool>): (r: seq<Node>)
    requires |ownFlag| == |s| && forall k :: 0 <= k < |pts| ==> pts[k] < |s|
    ensures |r| == |s|
    ensures forall i :: 0 <= i < |s| && i in pts ==> r[i] == s[i].(reachable := ownFlag[i])
    ensures forall i :: 0 <= i < |s| && i !in pts ==> r[i] == s[i]
    decreases |pts|
  {
    if pts == [] then s
    else
      var r := ResetPoints(s, pts[..|pts| - 1], ownFlag);
      var last := pts[|pts| - 1];
      assert forall i :: i in pts <==> i in pts[..|pts| - 1] || i == last;
      r[last := r[last].(reachable := ownFlag[last])]
  }

  /** The player's flags among the given points, in order. */
  function FlagsAmong(pts: seq<nat>, ownFlag: seq<bool>): (r: seq<nat>)
    requires forall k :: 0 <= k < |pts| ==> pts[k] < |ownFlag|
    ensures forall k :: 0 <= k < |r| ==> r[k] in pts && ownFlag[r[k]]
    ensures forall i :: i in pts && ownFlag[i] ==> i in r
    decreases |pts|
  {
    if pts == [] then []
    else
      var rest := FlagsAmong(pts[..|pts| - 1], ownFlag);
      var last := pts[|pts| - 1];
      assert forall i :: i in pts <==> i in pts[..|pts| - 1] || i == last;
      if ownFlag[last] then rest + [last] else rest
  }

  /** Step k of a walk enters a passable neighbour of the node before it. */
  ghost predicate Linked(w: World, path: seq<nat>, k: nat)
    requires 0 < k < |path|
  {
    path[k - 1] < |w.neighbours| && path[k] < |w.passable|
    && path[k] in w.neighbours[path[k - 1]] && w.passable[path[k]]
  }

  /** A walk along which roads could be built: each node after the first is
      a passable neighbour of the one before it. */
  ghost predicate RoadWalk(w: World, path: seq<nat>) {
    |path| >= 1 && forall k :: 0 < k < |path| ==> Linked(w, path, k)
  }

  /** Node i lies at the end of a road walk that starts at one of seeds. */
  ghost predicate Reaches(w: World, seeds: set<nat>, i: nat) {
    exists path :: RoadWalk(w, path) && path[0] in seeds && path[|path| - 1] == i
  }

  /** The nodes where the player's flags stand. */
  ghost function FlagNodes(ownFlag: seq<bool>): set<nat> {
    set i | 0 <= i < |ownFlag| && ownFlag[i]
  }

  /** The player's flags among the given points, as a set. */
  ghost function FlagsIn(pts: seq<nat>, ownFlag: seq<bool>): set<nat> {
    set i | i in pts && i < |ownFlag| && ownFlag[i]
  }

  lemma RoadWalkSnoc(w: World, path: seq<nat>, x: nat)
    requires RoadWalk(w, path) && path[|path| - 1] < |w.neighbours|
    requires x < |w.passable| && x in w.neighbours[path[|path| - 1]] && w.passable[x]
    ensures RoadWalk(w, path + [x])
  {
    var p := path + [x];
    forall k | 0 < k < |p|
      ensures Linked(w, p, k)
    {
      if k < |path| {
        assert Linked(w, path, k);
        assert p[k - 1] == path[k - 1] && p[k] == path[k];
      }
    }
  }

  /** Every queue entry lies at the end of a road walk from one of the
      starting entries: by strong induction, through the entry it was
      pushed from. */
  lemma {:induction false} EntryReaches(w: World, q: seq<nat>, start: nat, seeds: set<nat>, k: nat)
    requires k < |q| && start <= |q|
    requires forall j :: 0 <= j < |q| ==> q[j] < |w.passable|
    requires forall j :: start <= j < |q| ==> w.passable[q[j]]
    requires QueueLinked(w, start, q)
    requires forall j :: 0 <= j < start ==> q[j] in seeds
    ensures Reaches(w, seeds, q[k])
    decreases k
  {
    if k < start {
      assert RoadWalk(w, [q[k]]) && [q[k]][0] in seeds;
    } else {
      assert HasParent(w, q, k);
      var p :| 0 <= p < k && q[p] < |w.neighbours| && q[k] in w.neighbours[q[p]];
      EntryReaches(w, q, start, seeds, p);
      var path :| RoadWalk(w, path) && path[0] in seeds && path[|path| - 1] == q[p];
      RoadWalkSnoc(w, path, q[k]);
      assert (path + [q[k]])[0] == path[0];
    }
  }

  /** Every node the fill marked lies at the end of a road walk from one of
      the queue's starting entries. */
  lemma FillReaches(s0: seq<Node>, s: seq<Node>, w: World, start: nat, q: seq<nat>, seeds: set<nat>)
    requires WorldFits(w, |s|) && |s0| == |s|
    requires QueueTree(s0, s, w, start, q)
    requires forall j :: 0 <= j < start ==> q[j] in seeds
    ensures forall k :: 0 <= k < |q| ==> Reaches(w, seeds, q[k])
    ensures forall i :: 0 <= i < |s| && s[i].reachable && !s0[i].reachable ==> Reaches(w, seeds, i)
  {
    assert QueueMarked(s0, s, w, start, q);
    forall k | 0 <= k < |q|
      ensures Reaches(w, seeds, q[k])
    {
      EntryReaches(w, q, start, seeds, k);
    }
    forall i | 0 <= i < |s| && s[i].reachable && !s0[i].reachable
      ensures Reaches(w, seeds, i)
    {
      assert QueueCovers(s0, s, start, q);
      var k :| start <= k < |q| && q[k] == i;
    }
  }

  /** A reachable set closed under roads holds the end of every road walk
      that starts inside it. */
  lemma {:induction false} ClosedContainsWalks(s: seq<Node>, w: World, path: seq<nat>)
    requires WorldFits(w, |s|) && ClosedUnderRoads(s, w)
    requires RoadWalk(w, path) && path[0] < |s| && s[path[0]].reachable
    ensures path[|path| - 1] < |s| && s[path[|path| - 1]].reachable
    decreases |path|
  {
    if |path| > 1 {
      var pre := path[..|path| - 1];
      forall k | 0 < k < |pre|
        ensures Linked(w, pre, k)
      {
        assert Linked(w, path, k);
      }
      ClosedContainsWalks(s, w, pre);
      var i := pre[|pre| - 1];
      var x := path[|path| - 1];
      assert Linked(w, path, |path| - 1);
      var j :| 0 <= j < |w.neighbours[i]| && w.neighbours[i][j] == x;
    }
  }

  /** Every passable neighbour of a reachable node is reachable. */
  ghost predicate ClosedUnderRoads(s: seq<Node>, w: World)
    requires |s| == |w.neighbours| == |w.passable|
  {
    forall i, j ::
      (0 <= i < |s| && s[i].reachable && 0 <= j < |w.neighbours[i]|
       && w.neighbours[i][j] < |s| && w.passable[w.neighbours[i][j]]) ==> s[w.neighbours[i][j]].reachable
  }

  /** Every reachable node holds one of the player's flags, or is passable
      and next to another reachable node. */
  ghost predicate Supported(s: seq<Node>, w: World)
    requires |s| == |w.neighbours| == |w.passable| == |w.ownFlag|
  {
    forall i :: 0 <= i < |s| && s[i].reachable ==>
      w.ownFlag[i] || (w.passable[i] && exists p :: 0 <= p < |s| && s[p].reachable && i in w.neighbours[p])
  }

  /** When no penalty was pending, the fill leaves the reachable set closed:
      a passable neighbour of a reached node can only have been left
      unmarked by counting its penalty down, which needs a penalty. */
  lemma {:induction false} FillWithoutPenaltiesCloses(s1: seq<Node>, s: seq<Node>, w: World, toCheck: seq<nat>, visited: seq<nat>)
    requires WorldFits(w, |s|) && |s1| == |s|
    requires forall i :: 0 <= i < |s1| ==> s1[i].failedPenalty == 0
    requires forall i :: 0 <= i < |s1| && s1[i].reachable ==> i in toCheck
    requires FillStep(s1, s, w.passable)
    requires |toCheck| <= |visited| && visited[..|toCheck|] == toCheck
    requires QueueTree(s1, s, w, |toCheck|, visited)
    requires forall k :: 0 <= k < |visited| ==> NeighboursSettled(s1, s, w, visited[k])
    ensures ClosedUnderRoads(s, w)
  {
    forall i, j | 0 <= i < |s| && s[i].reachable && 0 <= j < |w.neighbours[i]|
      && w.neighbours[i][j] < |s| && w.passable[w.neighbours[i][j]]
      ensures s[w.neighbours[i][j]].reachable
    {
      var k: nat;
      if s1[i].reachable {
        var k0 :| 0 <= k0 < |toCheck| && toCheck[k0] == i;
        assert visited[k0] == toCheck[k0];
        k := k0;
      } else {
        assert QueueCovers(s1, s, |toCheck|, visited);
        k :| |toCheck| <= k < |visited| && visited[k] == i;
      }
      assert NeighboursSettled(s1, s, w, visited[k]);
    }
  }

  /** Every node the fill marked is supported by a node ahead of it in the
      queue, and starting nodes that hold flags support themselves. */
  lemma {:induction false} FillIsSupported(s1: seq<Node>, s: seq<Node>, w: World, toCheck: seq<nat>, visited: seq<nat>)
    requires WorldFits(w, |s|) && |s1| == |s|
    requires forall i :: 0 <= i < |s1| && s1[i].reachable ==> w.ownFlag[i]
    requires FillStep(s1, s, w.passable)
    requires |toCheck| <= |visited| && visited[..|toCheck|] == toCheck
    requires forall k :: 0 <= k < |toCheck| ==> toCheck[k] < |s1| && s1[toCheck[k]].reachable
    requires QueueTree(s1, s, w, |toCheck|, visited)
    ensures Supported(s, w)
  {
    forall i | 0 <= i < |s| && s[i].reachable && !w.ownFlag[i]
      ensures w.passable[i] && exists p :: 0 <= p < |s| && s[p].reachable && i in w.neighbours[p]
    {
      assert !s1[i].reachable;
      assert QueueCovers(s1, s, |toCheck|, visited);
      var k :| |toCheck| <= k < |visited| && visited[k] == i;
      assert QueueMarked(s1, s, w, |toCheck|, visited);
      assert HasParent(w, visited, k);
      var p :| 0 <= p < k && visited[p] < |w.neighbours| && visited[k] in w.neighbours[visited[p]];
      if p < |toCheck| {
        assert visited[p] == toCheck[p];
      }
      assert s[visited[p]].reachable;
    }
  }

  /** After the fill from all of the player's flags with no penalty
      pending, a node is reachable exactly when a road walk leads to it from
      one of those flags. */
  lemma InitFillReaches(s1: seq<Node>, s: seq<Node>, w: World, toCheck: seq<nat>, visited: seq<nat>)
    requires WorldFits(w, |s|) && |s1| == |s|
    requires forall i :: 0 <= i < |s1| ==> s1[i].reachable == w.ownFlag[i]
    requires FillStep(s1, s, w.passable)
    requires |toCheck| <= |visited| && visited[..|toCheck|] == toCheck
    requires forall k :: 0 <= k < |toCheck| ==> toCheck[k] < |s| && w.ownFlag[toCheck[k]]
    requires QueueTree(s1, s, w, |toCheck|, visited)
    requires ClosedUnderRoads(s, w)
    ensures forall i :: 0 <= i < |s| ==> (s[i].reachable <==> Reaches(w, FlagNodes(w.ownFlag), i))
  {
    var seeds := FlagNodes(w.ownFlag);
    forall j | 0 <= j < |toCheck|
      ensures visited[j] in seeds
    {
      assert visited[j] == toCheck[j];
    }
    FillReaches(s1, s, w, |toCheck|, visited, seeds);
    forall i | 0 <= i < |s|
      ensures s[i].reachable <==> Reaches(w, seeds, i)
    {
      if s[i].reachable && s1[i].reachable {
        assert RoadWalk(w, [i]) && [i][0] in seeds;
      }
      if Reaches(w, seeds, i) {
        var path :| RoadWalk(w, path) && path[0] in seeds && path[|path| - 1] == i;
        ClosedContainsWalks(s, w, path);
      }
    }
  }

  /** The reset before the first fill; toCheck lists the player's flags. */
  method ResetAllNodes(aiMap: array<Node>, w: World) returns (toCheck: seq<nat>)
    requires WorldFits(w, aiMap.Length)
    modifies aiMap
    ensures aiMap[..] == ResetAll(old(aiMap[..]), w.ownFlag)
    ensures forall k :: 0 <= k < |toCheck| ==> toCheck[k] < aiMap.Length && w.ownFlag[toCheck[k]]
    ensures forall i :: 0 <= i < aiMap.Length && w.ownFlag[i] ==> i in toCheck
  {
    toCheck := [];
    for i := 0 to aiMap.Length
      invariant forall k :: 0 <= k < i ==> aiMap[k] == old(aiMap[k]).(reachable := w.ownFlag[k], failedPenalty := 0)
      invariant forall k :: i <= k < aiMap.Length ==> aiMap[k] == old(aiMap[k])
      invariant forall k :: 0 <= k < |toCheck| ==> toCheck[k] < i && w.ownFlag[toCheck[k]]
      invariant forall k :: 0 <= k < i && w.ownFlag[k] ==> k in toCheck
    {
      aiMap[i] := aiMap[i].(reachable := w.ownFlag[i], failedPenalty := 0);
      if w.ownFlag[i] {
        toCheck := toCheck + [i];
      }
    }
  }

  /** The reset of the given points before a fill around them; toCheck
      lists the player's flags among them. */
  method ResetPointNodes(aiMap: array<Node>, w: World, pts: seq<nat>) returns (toCheck: seq<nat>)
    requires WorldFits(w, aiMap.Length)
    requires forall k :: 0 <= k < |pts| ==> pts[k] < aiMap.Length
    modifies aiMap
    ensures aiMap[..] == ResetPoints(old(aiMap[..]), pts, w.ownFlag)
    ensures toCheck == FlagsAmong(pts, w.ownFlag)
  {
    ghost var s0 := aiMap[..];
    toCheck := [];
    for i := 0 to |pts|
      invariant aiMap[..] == ResetPoints(s0, pts[..i], w.ownFlag)
      invariant toCheck == FlagsAmong(pts[..i], w.ownFlag)
    {
      var pt := pts[i];
      assert pts[..i + 1][..i] == pts[..i];
      aiMap[pt] := aiMap[pt].(reachable := w.ownFlag[pt]);
      if w.ownFlag[pt] {
        toCheck := toCheck + [pt];
      }
    }
    assert pts[..|pts|] == pts;
  }

  /** Marks the player's flags as reachable, clears every other mark and
      every penalty, and floods out from the flags. */
  method InitReachableNodes(aiMap: array<Node>, w: World)
    requires WorldFits(w, aiMap.Length)
    modifies aiMap
    ensures FillStep(ResetAll(old(aiMap[..]), w.ownFlag), aiMap[..], w.passable)
    ensures forall i :: 0 <= i < aiMap.Length ==> aiMap[i].failedPenalty == 0
    ensures forall i :: 0 <= i < aiMap.Length ==> (aiMap[i].reachable <==> Reaches(w, FlagNodes(w.ownFlag), i))
    ensures ClosedUnderRoads(aiMap[..], w)
    ensures Supported(aiMap[..], w)
  {
    var toCheck := ResetAllNodes(aiMap, w);
    ghost var s1 := aiMap[..];
    ghost var visited := IterativeReachableNodeChecker(aiMap, w, toCheck);
    FillWithoutPenaltiesCloses(s1, aiMap[..], w, toCheck, visited);
    FillIsSupported(s1, aiMap[..], w, toCheck, visited);
    InitFillReaches(s1, aiMap[..], w, toCheck, visited);
  }

  /** Marks or clears the given points according to the player's flags and
      floods out from the flags among them; visited is the queue the fill
      drained, starting with those flags. */
  method UpdateReachableNodes(aiMap: array<Node>, w: World, pts: seq<nat>) returns (ghost visited: seq<nat>)
    requires WorldFits(w, aiMap.Length)
    requires forall k :: 0 <= k < |pts| ==> pts[k] < aiMap.Length
    modifies aiMap
    ensures FillStep(ResetPoints(old(aiMap[..]), pts, w.ownFlag), aiMap[..], w.passable)
    ensures forall k :: 0 <= k < |pts| && w.ownFlag[pts[k]] ==> aiMap[pts[k]].reachable
    ensures forall i :: 0 <= i < aiMap.Length && i !in pts && old(aiMap[i].reachable) ==> aiMap[i].reachable
    ensures |FlagsAmong(pts, w.ownFlag)| <= |visited|
    ensures visited[..|FlagsAmong(pts, w.ownFlag)|] == FlagsAmong(pts, w.ownFlag)
    ensures QueueTree(ResetPoints(old(aiMap[..]), pts, w.ownFlag), aiMap[..], w, |FlagsAmong(pts, w.ownFlag)|, visited)
    ensures forall k :: 0 <= k < |visited| ==>
              NeighboursSettled(ResetPoints(old(aiMap[..]), pts, w.ownFlag), aiMap[..], w, visited[k])
    ensures forall i :: 0 <= i < aiMap.Length && aiMap[i].reachable && !ResetPoints(old(aiMap[..]), pts, w.ownFlag)[i].reachable ==>
              Reaches(w, FlagsIn(pts, w.ownFlag), i)
  {
    var toCheck := ResetPointNodes(aiMap, w, pts);
    ghost var s1 := aiMap[..];
    visited := IterativeReachableNodeChecker(aiMap, w, toCheck);
    forall j | 0 <= j < |toCheck|
      ensures visited[j] in FlagsIn(pts, w.ownFlag)
    {
      assert visited[j] == toCheck[j];
    }
    FillReaches(s1, aiMap[..], w, |toCheck|, visited, FlagsIn(pts, w.ownFlag));
  }

  /** Two maps with the same marks are closed and supported alike. */
  lemma SameMarks(s1: seq<Node>, s2: seq<Node>, w: World)
    requires |s1| == |s2| == |w.neighbours| == |w.passable| == |w.ownFlag|
    requires forall i :: 0 <= i < |s1| ==> s1[i].reachable == s2[i].reachable
    ensures ClosedUnderRoads(s1, w) ==> ClosedUnderRoads(s2, w)
    ensures Supported(s1, w) ==> Supported(s2, w)
  {
    if Supported(s1, w) {
      forall i | 0 <= i < |s2| && s2[i].reachable && !w.ownFlag[i]
        ensures w.passable[i] && exists p :: 0 <= p < |s2| && s2[p].reachable && i in w.neighbours[p]
      {
        var p :| 0 <= p < |s1| && s1[p].reachable && i in w.neighbours[p];
        assert s2[p].reachable;
      }
    }
  }

  /** Builds the player's map: the flood fill from its flags, then what the
      game reports of every node. */
  method InitNodes(w: World) returns (aiMap: array<Node>)
    requires WorldFits(w, |w.passable|)
    ensures fresh(aiMap) && aiMap.Length == |w.passable|
    ensures forall i :: 0 <= i < aiMap.Length ==>
              && aiMap[i].bq == w.bq[i] && aiMap[i].res == CalcResource(w.tiles[i])
              && aiMap[i].owned == w.owned[i] && aiMap[i].border == w.border[i]
              && !aiMap[i].farmed && aiMap[i].failedPenalty == 0
    ensures forall i :: 0 <= i < aiMap.Length ==> (aiMap[i].reachable <==> Reaches(w, FlagNodes(w.ownFlag), i))
    ensures ClosedUnderRoads(aiMap[..], w)
    ensures Supported(aiMap[..], w)
  {
    aiMap := new Node[|w.passable|](_ => DEFAULT_NODE);
    InitReachableNodes(aiMap, w);
    ghost var s1 := aiMap[..];
    ReportAll(aiMap, w);
    SameMarks(s1, aiMap[..], w);
    forall i | 0 <= i < aiMap.Length
      ensures aiMap[i].reachable <==> Reaches(w, FlagNodes(w.ownFlag), i)
    {
      assert aiMap[i].reachable == s1[i].reachable;
    }
  }

  /** Every node gets what the game reports of it and is not farmed; its
      reachability and penalty stay as they are. */
  method ReportAll(aiMap: array<Node>, w: World)
    requires WorldFits(w, aiMap.Length)
    modifies aiMap
    ensures forall i :: 0 <= i < aiMap.Length ==>
              aiMap[i] == old(aiMap[i]).(bq := w.bq[i], res := CalcResource(w.tiles[i]), owned := w.owned[i],
                                         border := w.border[i], farmed := false)
  {
    for i := 0 to aiMap.Length
      invariant forall k :: 0 <= k < i ==>
                  aiMap[k] == old(aiMap[k]).(bq := w.bq[k], res := CalcResource(w.tiles[k]), owned := w.owned[k],
                                             border := w.border[k], farmed := false)
      invariant forall k :: i <= k < aiMap.Length ==> aiMap[k] == old(aiMap[k])
    {
      aiMap[i] := aiMap[i].(bq := w.bq[i], res := CalcResource(w.tiles[i]), owned := w.owned[i],
                            border := w.border[i], farmed := false);
    }
  }

  /** The nodes at pts get what the game reports of their building
      quality, ownership and border; nothing else changes. */
  method RefreshReports(aiMap: array<Node>, w: World, pts: seq<nat>)
    requires WorldFits(w, aiMap.Length)
    requires forall k :: 0 <= k < |pts| ==> pts[k] < aiMap.Length
    modifies aiMap
    ensures forall k :: 0 <= k < |pts| ==> Reported(aiMap[pts[k]], w, pts[k])
    ensures forall i :: 0 <= i < aiMap.Length ==>
              aiMap[i].(bq := old(aiMap[i].bq), owned := old(aiMap[i].owned), border := old(aiMap[i].border))
              == old(aiMap[i])
    ensures forall i :: 0 <= i < aiMap.Length && i !in pts ==> aiMap[i] == old(aiMap[i])
  {
    for k := 0 to |pts|
      invariant forall i :: 0 <= i < aiMap.Length ==>
                  aiMap[i].(bq := old(aiMap[i].bq), owned := old(aiMap[i].owned), border := old(aiMap[i].border))
                  == old(aiMap[i])
      invariant forall i :: 0 <= i < aiMap.Length && i !in pts[..k] ==> aiMap[i] == old(aiMap[i])
      invariant forall m :: 0 <= m < k ==> Reported(aiMap[pts[m]], w, pts[m])
    {
      var pt := pts[k];
      assert forall i :: i in pts[..k + 1] <==> i in pts[..k] || i == pt;
      aiMap[pt] := aiMap[pt].(bq := w.bq[pt], owned := w.owned[pt], border := w.border[pt]);
    }
    assert pts[..|pts|] == pts;
  }

  /** The node holds what the game reports of point pt. */
  predicate Reported(n: Node, w: World, pt: nat)
    requires pt < |w.bq| && pt < |w.owned| && pt < |w.border|
  {
    n.bq == w.bq[pt] && n.owned == w.owned[pt] && n.border == w.border[pt]
  }

  /** A map that differs from another only in what the game reports keeps
      the other's queue tree and settled neighbours. */
  lemma SameFill(s0: seq<Node>, s1: seq<Node>, s2: seq<Node>, w: World, start: nat, q: seq<nat>)
    requires WorldFits(w, |s0|) && |s0| == |s1| == |s2|
    requires forall i :: 0 <= i < |s1| ==> s1[i].reachable == s2[i].reachable && s1[i].failedPenalty == s2[i].failedPenalty
    requires QueueTree(s0, s1, w, start, q)
    requires forall k :: 0 <= k < |q| ==> NeighboursSettled(s0, s1, w, q[k])
    ensures QueueTree(s0, s2, w, start, q)
    ensures forall k :: 0 <= k < |q| ==> NeighboursSettled(s0, s2, w, q[k])
  {
    assert QueueMarked(s0, s1, w, start, q) && QueueCovers(s0, s1, start, q);
    forall k | 0 <= k < |q|
      ensures NeighboursSettled(s0, s2, w, q[k])
    {
      assert NeighboursSettled(s0, s1, w, q[k]);
    }
  }

  /** Refreshes the nodes around a changed point: their reachability, and
      what the game reports of their building quality and territory. */
  method UpdateNodesAround(aiMap: array<Node>, w: World, pts: seq<nat>) returns (ghost visited: seq<nat>)
    requires WorldFits(w, aiMap.Length)
    requires forall k :: 0 <= k < |pts| ==> pts[k] < aiMap.Length
    modifies aiMap
    ensures forall k :: 0 <= k < |pts| ==> Reported(aiMap[pts[k]], w, pts[k])
    ensures forall k :: 0 <= k < |pts| && w.ownFlag[pts[k]] ==> aiMap[pts[k]].reachable
    ensures forall i :: 0 <= i < aiMap.Length && i !in pts ==>
              && aiMap[i].(reachable := old(aiMap[i].reachable), failedPenalty := old(aiMap[i].failedPenalty)) == old(aiMap[i])
              && (old(aiMap[i].reachable) ==> aiMap[i].reachable)
    ensures forall i :: 0 <= i < aiMap.Length ==>
              aiMap[i].res == old(aiMap[i].res) && aiMap[i].farmed == old(aiMap[i].farmed)
              && aiMap[i].failedPenalty <= old(aiMap[i].failedPenalty)
    ensures |FlagsAmong(pts, w.ownFlag)| <= |visited|
    ensures visited[..|FlagsAmong(pts, w.ownFlag)|] == FlagsAmong(pts, w.ownFlag)
    ensures QueueTree(ResetPoints(old(aiMap[..]), pts, w.ownFlag), aiMap[..], w, |FlagsAmong(pts, w.ownFlag)|, visited)
    ensures forall k :: 0 <= k < |visited| ==>
              NeighboursSettled(ResetPoints(old(aiMap[..]), pts, w.ownFlag), aiMap[..], w, visited[k])
    ensures forall i :: 0 <= i < aiMap.Length && aiMap[i].reachable && !ResetPoints(old(aiMap[..]), pts, w.ownFlag)[i].reachable ==>
              Reaches(w, FlagsIn(pts, w.ownFlag), i)
  {
    ghost var s0 := ResetPoints(aiMap[..], pts, w.ownFlag);
    visited := UpdateReachableNodes(aiMap, w, pts);
    ghost var s1 := aiMap[..];
    RefreshReports(aiMap, w, pts);
    SameFill(s0, s1, aiMap[..], w, |FlagsAmong(pts, w.ownFlag)|, visited);
  }

  /** Checking a passable, unreached neighbour marks it exactly when its
      penalty has run out; otherwise the penalty drops by one and the node
      stays unreached. */
  lemma PenaltyDefersMarking(s: seq<Node>, nb: nat, passable: seq<bool>)
    requires nb < |s| == |passable|
    requires !s[nb].reachable && passable[nb]
    ensures Visit(s, nb, passable)[nb].reachable <==> s[nb].failedPenalty == 0
    ensures s[nb].failedPenalty > 0 ==> Visit(s, nb, passable)[nb].failedPenalty == s[nb].failedPenalty - 1
    ensures forall i :: 0 <= i < |s| && i != nb ==> Visit(s, nb, passable)[i] == s[i]
  {
  }
}
