/**
 * Screen modes as the options screen lists them: the aspect ratio shown for
 * a mode, the order in which modes are listed, and the sorting of the list.
 */
module VideoModes {
  import opened Arith

  datatype VideoMode = VideoMode(width: nat, height: nat)

  /** A mode whose aspect ratio can be computed (gcd(0, 0) would divide by 0). */
  predicate HasRatio(vm: VideoMode) {
    vm.width > 0 || vm.height > 0
  }

  predicate Divides(d: nat, n: nat) {
    d > 0 && n % d == 0
  }

  /** Euclid's greatest common divisor. */
  function Gcd(a: nat, b: nat): (g: nat)
    decreases b
    ensures g == 0 <==> a == 0 && b == 0
    ensures g > 0 ==> Divides(g, a) && Divides(g, b)
    ensures forall d: nat :: Divides(d, a) && Divides(d, b) ==> g % d == 0
  {
    if b == 0 then a
    else
      var g := Gcd(b, a % b);
      DividesRemainder(g, a, b);
      CommonDivisorsOfRemainder(a, b);
      g
  }

  /** Every common divisor of a and b divides a mod b. */
  lemma CommonDivisorsOfRemainder(a: nat, b: nat)
    requires b > 0
    ensures forall d: nat :: Divides(d, a) && Divides(d, b) ==> Divides(d, a % b)
  {
    forall d: nat | Divides(d, a) && Divides(d, b)
      ensures Divides(d, a % b)
    {
      var p, q, k := a / d, b / d, a / b;
      assert a == p * d && b == q * d;
      MulAssoc(k, q, d);
      assert a % b == (p - k * q) * d;
      if p - k * q < 0 {
        MulAtLeast(k * q - p, d);
      }
      MultipleMod(p - k * q, d);
    }
  }

  /** No two numbers share a divisor other than 1. */
  ghost predicate Coprime(a: nat, b: nat) {
    forall d: nat :: Divides(d, a) && Divides(d, b) ==> d == 1
  }

  /** Dividing both sides by their gcd leaves them coprime. */
  lemma {:induction false} ReducedCoprime(w: nat, h: nat)
    requires w > 0 || h > 0
    ensures Coprime(w / Gcd(w, h), h / Gcd(w, h))
  {
    var g := Gcd(w, h);
    forall d: nat | Divides(d, w / g) && Divides(d, h / g)
      ensures d == 1
    {
      ScaledDivides(d, g, w);
      ScaledDivides(d, g, h);
      DivisorNotAbove(d * g, g);
      if d >= 2 {
        MulMonotone(2, d, g);
      }
    }
  }

  /** If d divides n / g and g divides n, then d * g divides n. */
  lemma ScaledDivides(d: nat, g: nat, n: nat)
    requires Divides(g, n) && Divides(d, n / g)
    ensures Divides(d * g, n)
  {
    var p := (n / g) / d;
    assert n == (p * d) * g;
    MulAssoc(p, d, g);
    MultipleMod(p, d * g);
  }

  /** A divisor of a positive number is at most that number. */
  lemma DivisorNotAbove(d: nat, n: nat)
    requires Divides(d, n) && n > 0
    ensures d <= n
  {
    DivisorAtMost(d, n);
    MulAtLeast(n / d, d);
  }

  /** If d divides b and a mod b then it divides a. */
  lemma DividesRemainder(d: nat, a: nat, b: nat)
    requires b > 0 && d > 0 && Divides(d, b) && (a % b) % d == 0
    ensures a % d == 0
  {
    var q, p, r := a / b, b / d, (a % b) / d;
    assert b == p * d;
    assert a % b == r * d;
    calc {
      a;
      q * b + a % b;
      q * (p * d) + r * d;
      { MulAssoc(q, p, d); }
      (q * p) * d + r * d;
      (q * p + r) * d;
    }
    MultipleMod(q * p + r, d);
  }

  /** Reducing both sides by a common divisor keeps the proportion. */
  lemma {:induction false} ReducedKeepsProportion(w: nat, h: nat, g: nat)
    requires Divides(g, w) && Divides(g, h)
    ensures (w / g) * h == (h / g) * w
  {
    var p, q := w / g, h / g;
    assert w == p * g && h == q * g;
    calc {
      p * h;
      p * (q * g);
      { MulAssoc(p, q, g); }
      (p * q) * g;
      (q * p) * g;
      { MulAssoc(q, p, g); }
      q * (p * g);
      q * w;
    }
  }

  /** The aspect ratio shown next to a mode.  Three slightly-off modes get
      their conventional ratio; every other mode is reduced by the gcd of its
      sides, and the reduced ratios 8:5 and 5:3 are shown as 16:10 and 15:9. */
  function AspectRatio(vm: VideoMode): (r: VideoMode)
    requires HasRatio(vm)
    ensures vm == VideoMode(1360, 1024) ==> r == VideoMode(4, 3)
    ensures vm == VideoMode(1360, 768) || vm == VideoMode(1366, 768) ==> r == VideoMode(16, 9)
    ensures !IsConventionalMode(vm) ==> r.width * vm.height == r.height * vm.width
    ensures HasRatio(r)
  {
    if vm == VideoMode(1360, 1024) then VideoMode(4, 3)
    else if vm == VideoMode(1360, 768) || vm == VideoMode(1366, 768) then VideoMode(16, 9)
    else
      var divisor := Gcd(vm.width, vm.height);
      var ratio := VideoMode(vm.width / divisor, vm.height / divisor);
      ReducedKeepsProportion(vm.width, vm.height, divisor);
      assert vm.width > 0 ==> ratio.width > 0 by {
        if vm.width > 0 { DivisorAtMost(divisor, vm.width); }
      }
      assert vm.height > 0 ==> ratio.height > 0 by {
        if vm.height > 0 { DivisorAtMost(divisor, vm.height); }
      }
      if ratio == VideoMode(8, 5) then VideoMode(16, 10)
      else if ratio == VideoMode(5, 3) then VideoMode(15, 9)
      else ratio
  }

  lemma DivisorAtMost(d: nat, n: nat)
    requires Divides(d, n) && n > 0
    ensures n / d >= 1
  {
  }

  /** The three modes whose ratio is fixed by convention rather than computed. */
  predicate IsConventionalMode(vm: VideoMode) {
    vm == VideoMode(1360, 1024) || vm == VideoMode(1360, 768) || vm == VideoMode(1366, 768)
  }

  /** The 8:5 and 5:3 special cases: modes with those reduced ratios are
      shown as 16:10 and 15:9, the proportion unchanged. */
  lemma {:induction false} WideRatiosAreScaled(vm: VideoMode)
    requires HasRatio(vm) && !IsConventionalMode(vm)
    ensures var g := Gcd(vm.width, vm.height);
            (vm.width / g == 8 && vm.height / g == 5 ==> AspectRatio(vm) == VideoMode(16, 10))
            && (vm.width / g == 5 && vm.height / g == 3 ==> AspectRatio(vm) == VideoMode(15, 9))
  {
  }

  /** Outside the conventional modes and the two scaled ratios, the ratio
      shown is in lowest terms. */
  lemma AspectRatioLowest(vm: VideoMode)
    requires HasRatio(vm) && !IsConventionalMode(vm)
    requires AspectRatio(vm) != VideoMode(16, 10) && AspectRatio(vm) != VideoMode(15, 9)
    ensures Coprime(AspectRatio(vm).width, AspectRatio(vm).height)
  {
    ReducedCoprime(vm.width, vm.height);
  }

  /** Mode order of the resolution list: wider ratios first (by ratio width,
      then ratio height, both descending), then by width and height ascending. */
  predicate CmpVideoModes(left: VideoMode, right: VideoMode)
    requires HasRatio(left) && HasRatio(right)
  {
    if left == right then false
    else
      var leftRatio := AspectRatio(left);
      var rightRatio := AspectRatio(right);
      if leftRatio.width == rightRatio.width then
        if leftRatio.height == rightRatio.height then
          if left.width == right.width then left.height < right.height
          else left.width < right.width
        else leftRatio.height > rightRatio.height
      else leftRatio.width > rightRatio.width
  }

  lemma CmpIrreflexive(vm: VideoMode)
    requires HasRatio(vm)
    ensures !CmpVideoModes(vm, vm)
  {
  }

  lemma CmpAsymmetric(a: VideoMode, b: VideoMode)
    requires HasRatio(a) && HasRatio(b)
    ensures CmpVideoModes(a, b) ==> !CmpVideoModes(b, a)
  {
  }

  lemma CmpTransitive(a: VideoMode, b: VideoMode, c: VideoMode)
    requires HasRatio(a) && HasRatio(b) && HasRatio(c)
    ensures CmpVideoModes(a, b) && CmpVideoModes(b, c) ==> CmpVideoModes(a, c)
  {
  }

  /** Two different modes are always ordered one way or the other, so the
      comparison is a strict total order and the sorted list is unique. */
  lemma CmpTotal(a: VideoMode, b: VideoMode)
    requires HasRatio(a) && HasRatio(b)
    ensures a != b ==> CmpVideoModes(a, b) || CmpVideoModes(b, a)
  {
  }

  /** Modes that the list keeps: everything not below 800x600 in both sides. */
  predicate KeptMode(vm: VideoMode) {
    !(vm.width < 800 && vm.height < 600)
  }

  predicate AllHaveRatio(s: seq<VideoMode>) {
    forall i :: 0 <= i < |s| ==> HasRatio(s[i])
  }

  /** No later mode compares before an earlier one. */
  predicate SortedModes(s: seq<VideoMode>)
    requires AllHaveRatio(s)
  {
    forall i, j :: 0 <= i < j < |s| ==> !CmpVideoModes(s[j], s[i])
  }

  /** The modes that erase_if leaves in place, in their original order. */
  function KeptModes(s: seq<VideoMode>): (r: seq<VideoMode>)
    ensures AllHaveRatio(r)
    ensures forall vm :: vm in r <==> vm in s && KeptMode(vm)
    ensures forall vm :: KeptMode(vm) ==> multiset(r)[vm] == multiset(s)[vm]
    ensures forall vm :: !KeptMode(vm) ==> multiset(r)[vm] == 0
  {
    if s == [] then []
    else
      var rest := KeptModes(s[1..]);
      assert s == [s[0]] + s[1..];
      if KeptMode(s[0]) then [s[0]] + rest else rest
  }

  /** Inserts a mode into a sorted list before the first mode it compares
      before. */
  function Insert(s: seq<VideoMode>, vm: VideoMode): (r: seq<VideoMode>)
    requires AllHaveRatio(s) && HasRatio(vm)
    ensures AllHaveRatio(r)
    ensures multiset(r) == multiset(s) + multiset{vm}
  {
    if s == [] || CmpVideoModes(vm, s[0]) then [vm] + s
    else
      assert s == [s[0]] + s[1..];
      [s[0]] + Insert(s[1..], vm)
  }

  /** A mode that no mode of a sorted list compares before can head it. */
  lemma ConsSorted(h: VideoMode, tail: seq<VideoMode>)
    requires HasRatio(h) && AllHaveRatio(tail) && SortedModes(tail)
    requires forall x :: x in tail ==> !CmpVideoModes(x, h)
    ensures AllHaveRatio([h] + tail) && SortedModes([h] + tail)
  {
    var r := [h] + tail;
    assert forall k :: 0 < k < |r| ==> r[k] == tail[k - 1];
    forall i, j | 0 <= i < j < |r| ensures !CmpVideoModes(r[j], r[i]) {
      assert r[j] == tail[j - 1];
      if i > 0 {
        assert r[i] == tail[i - 1];
      }
    }
  }

  lemma {:induction false} InsertKeepsSorted(s: seq<VideoMode>, vm: VideoMode)
    requires AllHaveRatio(s) && HasRatio(vm) && SortedModes(s)
    ensures SortedModes(Insert(s, vm))
  {
    if s == [] || CmpVideoModes(vm, s[0]) {
      forall x | x in s ensures !CmpVideoModes(x, vm) {
        var k :| 0 <= k < |s| && s[k] == x;
        if k > 0 {
          CmpTotal(s[0], x);
          CmpTransitive(vm, s[0], x);
        }
        CmpAsymmetric(vm, x);
      }
      ConsSorted(vm, s);
    } else {
      InsertKeepsSorted(s[1..], vm);
      var tail := Insert(s[1..], vm);
      assert Insert(s, vm) == [s[0]] + tail;
      assert multiset(tail) == multiset(s[1..]) + multiset{vm};
      forall x | x in tail ensures !CmpVideoModes(x, s[0]) {
        assert x in multiset(tail);
        assert x == vm || x in multiset(s[1..]);
        if x == vm {
          CmpTotal(vm, s[0]);
        } else {
          var k :| 0 <= k < |s[1..]| && s[1..][k] == x;
          assert s[k + 1] == x;
        }
      }
      ConsSorted(s[0], tail);
    }
  }

  /** Sorting by insertion; it stands for std::sort, which gives the same
      list because the order is strict and total on distinct modes
      (SortedIsUnique). */
  function SortModes(s: seq<VideoMode>): (r: seq<VideoMode>)
    requires AllHaveRatio(s)
    ensures AllHaveRatio(r)
    ensures multiset(r) == multiset(s)
  {
    if s == [] then []
    else
      assert forall k :: 0 <= k < |s[1..]| ==> s[1..][k] == s[k + 1];
      assert multiset(s) == multiset(s[1..]) + multiset{s[0]} by {
        assert s == [s[0]] + s[1..];
      }
      Insert(SortModes(s[1..]), s[0])
  }

  /** The sorted list is in the order the comparison asks for. */
  lemma {:induction false} SortModesSorted(s: seq<VideoMode>)
    requires AllHaveRatio(s)
    ensures SortedModes(SortModes(s))
  {
    if s != [] {
      assert forall k :: 0 <= k < |s[1..]| ==> s[1..][k] == s[k + 1];
      SortModesSorted(s[1..]);
      InsertKeepsSorted(SortModes(s[1..]), s[0]);
    }
  }

  /** The first mode of a sorted list is the one every other mode follows,
      so two sorted lists with the same modes start alike. */
  lemma SortedHeadsAgree(a: seq<VideoMode>, b: seq<VideoMode>)
    requires AllHaveRatio(a) && AllHaveRatio(b) && SortedModes(a) && SortedModes(b)
    requires a != [] && b != [] && a[0] in b && b[0] in a
    ensures a[0] == b[0]
  {
    var k :| 0 <= k < |a| && a[k] == b[0];
    var m :| 0 <= m < |b| && b[m] == a[0];
    CmpTotal(a[0], b[0]);
  }

  lemma TailsAgree(a: seq<VideoMode>, b: seq<VideoMode>)
    requires a != [] && b != [] && a[0] == b[0] && multiset(a) == multiset(b)
    ensures multiset(a[1..]) == multiset(b[1..])
  {
    assert a == [a[0]] + a[1..] && b == [b[0]] + b[1..];
    assert multiset(a) == multiset{a[0]} + multiset(a[1..]);
    assert multiset(b) == multiset{b[0]} + multiset(b[1..]);
    assert multiset(a[1..]) == multiset(a) - multiset{a[0]};
    assert multiset(b[1..]) == multiset(b) - multiset{b[0]};
  }

  /** Two sorted lists holding the same modes are the same list. */
  lemma {:induction false} SortedIsUnique(a: seq<VideoMode>, b: seq<VideoMode>)
    requires AllHaveRatio(a) && AllHaveRatio(b) && SortedModes(a) && SortedModes(b)
    requires multiset(a) == multiset(b)
    ensures a == b
  {
    if a == [] {
      assert |b| == |multiset(b)| == 0;
    } else {
      assert |b| == |multiset(b)| == |multiset(a)| == |a|;
      assert a[0] in multiset(b) && b[0] in multiset(a);
      SortedHeadsAgree(a, b);
      TailsAgree(a, b);
      SortedIsUnique(a[1..], b[1..]);
    }
  }
}
