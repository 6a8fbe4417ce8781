/**
 * How the computer player classifies a map node by what lies in and on it,
 * how dense a resource is around a point, and which resources never run
 * out under the game's add-ons.
 */
module NodeResources {
  import opened Arith

  /** What lies under a node. */
  datatype SubSurfaceResource = SubNothing | SubGold | SubIronore | SubCoal | SubGranite | SubFish

  /** What lies on a node. */
  datatype SurfaceResource = SurfNothing | SurfWood | SurfStones | SurfBlocked

  /** The classification the player keeps per node; the same enumeration
      names the resources it searches for. */
  datatype NodeResource =
    | Gold | Ironore | Coal | Granite | Fish | Wood | Stones | Plantspace | Borderland | Multiple | Blocked | Nothing

  /** The sub-surface resource under its own name. */
  function FromSubSurface(r: SubSurfaceResource): NodeResource {
    match r
    case SubNothing => Nothing
    case SubGold => Gold
    case SubIronore => Ironore
    case SubCoal => Coal
    case SubGranite => Granite
    case SubFish => Fish
  }

  /** The surface resource under its own name. */
  function FromSurface(r: SurfaceResource): NodeResource {
    match r
    case SurfNothing => Nothing
    case SurfWood => Wood
    case SurfStones => Stones
    case SurfBlocked => Blocked
  }

  /** What the player reads about one node. */
  datatype Tile = Tile(sub: SubSurfaceResource, surf: SurfaceResource, onRoad: bool, vitalTerrain: bool)

  /** The classification of one node. */
  function CalcResource(t: Tile): (r: NodeResource)
    // nothing below and nothing on top: plant space unless a road or barren terrain occupies it
    ensures t.sub == SubNothing && t.surf == SurfNothing ==>
              (r == Plantspace <==> !t.onRoad && t.vitalTerrain)
              && (r != Plantspace ==> r == Nothing)
    // nothing below, something on top: what is on top
    ensures t.sub == SubNothing && t.surf != SurfNothing ==> r == FromSurface(t.surf)
    // something below and wood or stones on top: several resources at once
    ensures t.sub != SubNothing ==> (r == Multiple <==> t.surf == SurfWood || t.surf == SurfStones)
    // something below under a blocked surface is of no use
    ensures t.sub != SubNothing && t.surf == SurfBlocked ==> r == Nothing
    // something below and nothing on top: what is below
    ensures t.sub != SubNothing && t.surf == SurfNothing ==> r == FromSubSurface(t.sub)
  {
    if t.sub == SubNothing then
      if t.surf == SurfNothing then
        if t.onRoad then Nothing
        else if !t.vitalTerrain then Nothing
        else Plantspace
      else FromSurface(t.surf)
    else
      match t.surf
      case SurfStones => Multiple
      case SurfWood => Multiple
      case SurfBlocked => Nothing
      case SurfNothing => FromSubSurface(t.sub)
  }

  /** Plant space only ever comes from an empty, free, vital node, and a
      mixed classification needs both layers. */
  lemma ClassificationSources(t: Tile)
    ensures CalcResource(t) == Plantspace ==> t.sub == SubNothing && t.surf == SurfNothing && !t.onRoad && t.vitalTerrain
    ensures CalcResource(t) == Multiple ==> t.sub != SubNothing && t.surf in {SurfWood, SurfStones}
    ensures CalcResource(t) != Borderland
  {
  }

  /** The number of nodes classified as `res`. */
  function CountMatching(tiles: seq<Tile>, res: NodeResource): (c: nat)
    ensures c <= |tiles|
    ensures c == |tiles| <==> forall i :: 0 <= i < |tiles| ==> CalcResource(tiles[i]) == res
    ensures c == 0 <==> forall i :: 0 <= i < |tiles| ==> CalcResource(tiles[i]) != res
  {
    if tiles == [] then 0
    else (if CalcResource(tiles[0]) == res then 1 else 0) + CountMatching(tiles[1..], res)
  }

  /** Counting over two stretches of nodes adds up. */
  lemma {:induction false} CountMatchingAppend(a: seq<Tile>, b: seq<Tile>, res: NodeResource)
    ensures CountMatching(a + b, res) == CountMatching(a, res) + CountMatching(b, res)
  {
    if a == [] {
      assert a + b == b;
    } else {
      assert (a + b)[1..] == a[1..] + b;
      CountMatchingAppend(a[1..], b, res);
    }
  }

  /** The share, in whole percent rounded down, of the nodes in the radius
      that are classified as `res`. */
  function GetDensity(tiles: seq<Tile>, res: NodeResource): (r: nat)
    requires |tiles| > 0
    ensures r * |tiles| <= CountMatching(tiles, res) * 100 < (r + 1) * |tiles|
    ensures r <= 100
    ensures r == 100 <==> forall i :: 0 <= i < |tiles| ==> CalcResource(tiles[i]) == res
    ensures r == 0 <== forall i :: 0 <= i < |tiles| ==> CalcResource(tiles[i]) != res
  {
    PercentBounds(CountMatching(tiles, res), |tiles|);
    (CountMatching(tiles, res) * 100) / |tiles|
  }

  /** The rounded-down percentage c * 100 / n of a part c of a whole n. */
  lemma PercentBounds(c: nat, n: nat)
    requires 0 < n && c <= n
    ensures (c * 100) / n <= 100
    ensures (c * 100) / n == 100 <==> c == n
    ensures c == 0 ==> (c * 100) / n == 0
    ensures ((c * 100) / n) * n <= c * 100 < ((c * 100) / n + 1) * n
  {
    var q := (c * 100) / n;
    assert c * 100 == q * n + (c * 100) % n;
    assert (q + 1) * n == q * n + n;
    DivMonotone(c * 100, n * 100, n);
    MultipleDiv(100, n);
    if c < n {
      MulMonotone(c, n - 1, 100);
      DivBelow(c * 100, n, 100);
    }
  }

  lemma MultipleDiv(k: nat, d: nat)
    requires d > 0
    ensures (d * k) / d == k
  {
    MultipleMod(k, d);
  }

  /** x < q * d makes x / d < q. */
  lemma DivBelow(x: nat, d: nat, q: nat)
    requires d > 0 && x < d * q
    ensures x / d < q
  {
    if x / d >= q {
      MulMonotone(q, x / d, d);
    }
  }

  /** Density is monotone in what matches: if every node of one class is
      also of another, the second is at least as dense. */
  lemma DensityMonotone(tiles: seq<Tile>, res: NodeResource, other: NodeResource)
    requires |tiles| > 0
    requires forall i :: 0 <= i < |tiles| ==> CalcResource(tiles[i]) == other ==> CalcResource(tiles[i]) == res
    ensures GetDensity(tiles, other) <= GetDensity(tiles, res)
  {
    CountMonotone(tiles, res, other);
    DivMonotone(CountMatching(tiles, other) * 100, CountMatching(tiles, res) * 100, |tiles|);
  }

  lemma {:induction false} CountMonotone(tiles: seq<Tile>, res: NodeResource, other: NodeResource)
    requires forall i :: 0 <= i < |tiles| ==> CalcResource(tiles[i]) == other ==> CalcResource(tiles[i]) == res
    ensures CountMatching(tiles, other) <= CountMatching(tiles, res)
  {
    if tiles != [] {
      CountMonotone(tiles[1..], res, other);
    }
  }

  /** The add-ons that make resources inexhaustible. */
  datatype Addons = Addons(inexhaustibleMines: bool, inexhaustibleGraniteMines: bool, inexhaustibleFish: bool)

  /** Whether a resource never runs out: ores and coal with inexhaustible
      mines, granite with either mine add-on, fish with inexhaustible fish;
      nothing else. */
  predicate IsUnlimitedResource(res: NodeResource, addons: Addons) {
    match res
    case Gold => addons.inexhaustibleMines
    case Ironore => addons.inexhaustibleMines
    case Coal => addons.inexhaustibleMines
    case Granite => addons.inexhaustibleMines || addons.inexhaustibleGraniteMines
    case Fish => addons.inexhaustibleFish
    case _ => false
  }

  /** Every add-on enabled in a is enabled in b. */
  predicate AddonsAtMost(a: Addons, b: Addons) {
    (a.inexhaustibleMines ==> b.inexhaustibleMines)
    && (a.inexhaustibleGraniteMines ==> b.inexhaustibleGraniteMines)
    && (a.inexhaustibleFish ==> b.inexhaustibleFish)
  }

  /** Without add-ons every resource runs out, only mined resources and fish
      can be unlimited, and enabling add-ons only ever makes more resources
      unlimited. */
  lemma UnlimitedNeedsAddon(res: NodeResource, a: Addons, b: Addons)
    ensures !IsUnlimitedResource(res, Addons(false, false, false))
    ensures IsUnlimitedResource(res, a) ==> res in {Gold, Ironore, Coal, Granite, Fish}
    ensures AddonsAtMost(a, b) && IsUnlimitedResource(res, a) ==> IsUnlimitedResource(res, b)
  {
  }
}
