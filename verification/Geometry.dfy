/** Ray casting of internal/room/combat.go over the reals: the slab method for axis-aligned
    wall boxes, the ray/sphere test, and the nearest wall. */
module Geometry {

  datatype Vec = Vec(x: real, y: real, z: real)

  datatype WallBox = WallBox(x: real, y: real, z: real, w: real, h: real, d: real) {
    predicate NonNegative() { w >= 0.0 && h >= 0.0 && d >= 0.0 }
  }

  const EPSILON: real := 0.000000001

  function Abs(x: real): real { if x < 0.0 then -x else x }

  function Coords(v: Vec): (s: seq<real>)
    ensures |s| == 3
  {
    [v.x, v.y, v.z]
  }

  function Sub(p: Vec, q: Vec): Vec { Vec(p.x - q.x, p.y - q.y, p.z - q.z) }

  function Dot(p: Vec, q: Vec): real { p.x * q.x + p.y * q.y + p.z * q.z }

  /** The point at parameter `t` of the ray. */
  function Along(o: Vec, d: Vec, t: real): Vec
  {
    Vec(o.x + t * d.x, o.y + t * d.y, o.z + t * d.z)
  }

  predicate InBox(p: Vec, w: WallBox)
  {
    && w.x - w.w / 2.0 <= p.x <= w.x + w.w / 2.0
    && w.y - w.h / 2.0 <= p.y <= w.y + w.h / 2.0
    && w.z - w.d / 2.0 <= p.z <= w.z + w.d / 2.0
  }

  /** `t0` is the parameter at which the whole line first meets the box, and it is not behind the origin. */
  ghost predicate IsEntry(o: Vec, d: Vec, w: WallBox, t0: real)
  {
    && t0 >= 0.0
    && InBox(Along(o, d, t0), w)
    && forall t :: InBox(Along(o, d, t), w) ==> t0 <= t
  }

  /** The least parameter of the line inside the box when that exists and is non-negative, and -1 otherwise. */
  ghost function Entry(o: Vec, d: Vec, w: WallBox): (r: real)
    ensures r >= 0.0 ==> IsEntry(o, d, w, r)
    ensures r < 0.0 ==> r == -1.0 && forall t :: !IsEntry(o, d, w, t)
  {
    if t0 :| IsEntry(o, d, w, t0) then t0 else -1.0
  }

  lemma EntryIsUnique(o: Vec, d: Vec, w: WallBox, t0: real)
    requires IsEntry(o, d, w, t0)
    ensures Entry(o, d, w) == t0
  {
    var r := Entry(o, d, w);
    assert IsEntry(o, d, w, r);
    assert InBox(Along(o, d, r), w) && InBox(Along(o, d, t0), w);
  }

  /** The code treats a direction component smaller than 1e-9 as exactly zero. */
  function SnapCoord(c: real): real { if Abs(c) < EPSILON then 0.0 else c }

  function Snap(d: Vec): Vec { Vec(SnapCoord(d.x), SnapCoord(d.y), SnapCoord(d.z)) }

  // ----- The slab method -----

  datatype Bound = Unbounded | At(t: real)

  predicate AboveLow(low: Bound, t: real) { low.Unbounded? || low.t <= t }

  predicate BelowHigh(high: Bound, t: real) { high.Unbounded? || t <= high.t }

  /** Membership in the slab of one axis. */
  predicate InSlab(center: real, half: real, o: real, d: real, t: real)
  {
    center - half <= o + t * d <= center + half
  }

  function Center(w: WallBox): seq<real> { [w.x, w.y, w.z] }

  function Half(w: WallBox): seq<real> { [w.w / 2.0, w.h / 2.0, w.d / 2.0] }

  /** The first `n` axes of the box contain the point at parameter `t`. */
  ghost predicate InSlabs(w: WallBox, o: Vec, d: Vec, n: nat, t: real)
    requires n <= 3
  {
    forall i :: 0 <= i < n ==> InSlab(Center(w)[i], Half(w)[i], Coords(o)[i], Coords(d)[i], t)
  }

  lemma SlabInterval(center: real, half: real, o: real, d: real, t: real)
    requires half >= 0.0 && d != 0.0
    ensures d > 0.0 ==> (InSlab(center, half, o, d, t) <==>
                         (center - half - o) / d <= t <= (center + half - o) / d)
    ensures d < 0.0 ==> (InSlab(center, half, o, d, t) <==>
                         (center + half - o) / d <= t <= (center - half - o) / d)
    ensures d > 0.0 ==> (center - half - o) / d <= (center + half - o) / d
    ensures d < 0.0 ==> (center + half - o) / d <= (center - half - o) / d
  {
    var a, b := center - half - o, center + half - o;
    DivOrder(a, d, t);
    DivOrder(b, d, t);
    assert (a / d) * d == a && (b / d) * d == b;
    DivOrder(a, d, b / d);
    DivOrder(b, d, a / d);
  }

  lemma DivOrder(a: real, d: real, t: real)
    requires d != 0.0
    ensures d > 0.0 ==> (a / d <= t <==> a <= t * d) && (t <= a / d <==> t * d <= a)
    ensures d < 0.0 ==> (a / d <= t <==> t * d <= a) && (t <= a / d <==> a <= t * d)
  {
    var q := a / d;
    assert q * d == a;
    if d > 0.0 {
      if q <= t { MulOrder(q, t, d); } else { MulStrict(t, q, d); }
      if t <= q { MulOrder(t, q, d); }
    } else {
      if q <= t { MulOrder(q, t, -d); } else { MulStrict(t, q, -d); }
      if t <= q { MulOrder(t, q, -d); }
    }
  }

  lemma MulOrder(p: real, q: real, d: real)
    requires p <= q && d > 0.0
    ensures p * d <= q * d
  {
    assert (q - p) * d >= 0.0;
  }

  lemma MulStrict(p: real, q: real, d: real)
    requires p < q && d > 0.0
    ensures p * d < q * d
  {
    assert (q - p) * d > 0.0;
  }

  lemma BoxIsThreeSlabs(o: Vec, d: Vec, w: WallBox, t: real)
    ensures InBox(Along(o, d, t), w) <==> InSlabs(w, o, d, 3, t)
  {
    forall i | 0 <= i < 3 ensures InSlab(Center(w)[i], Half(w)[i], Coords(o)[i], Coords(d)[i], t) <==>
        (i == 0 && InSlab(w.x, w.w / 2.0, o.x, d.x, t)) ||
        (i == 1 && InSlab(w.y, w.h / 2.0, o.y, d.y, t)) ||
        (i == 2 && InSlab(w.z, w.d / 2.0, o.z, d.z, t)) {
    }
    if InSlabs(w, o, d, 3, t) {
      assert InSlab(Center(w)[0], Half(w)[0], Coords(o)[0], Coords(d)[0], t);
      assert InSlab(Center(w)[1], Half(w)[1], Coords(o)[1], Coords(d)[1], t);
      assert InSlab(Center(w)[2], Half(w)[2], Coords(o)[2], Coords(d)[2], t);
    }
  }

  /** The interval [low, high] is the intersection of the first `n` slabs. */
  ghost predicate Clipped(w: WallBox, o: Vec, d: Vec, n: nat, low: Bound, high: Bound)
    requires n <= 3
  {
    && (low.At? <==> high.At?)
    && (forall t :: InSlabs(w, o, d, n, t) <==> AboveLow(low, t) && BelowHigh(high, t))
  }

  lemma InSlabsStep(w: WallBox, o: Vec, d: Vec, n: nat, t: real)
    requires 0 < n <= 3
    ensures InSlabs(w, o, d, n, t) <==>
            InSlabs(w, o, d, n - 1, t) &&
            InSlab(Center(w)[n - 1], Half(w)[n - 1], Coords(o)[n - 1], Coords(d)[n - 1], t)
  {
  }

  lemma ClipParallel(w: WallBox, o: Vec, d: Vec, n: nat, low: Bound, high: Bound)
    requires 0 < n <= 3 && Clipped(w, o, d, n - 1, low, high) && Coords(d)[n - 1] == 0.0
    ensures InSlab(Center(w)[n - 1], Half(w)[n - 1], Coords(o)[n - 1], 0.0, 0.0) ==> Clipped(w, o, d, n, low, high)
    ensures !InSlab(Center(w)[n - 1], Half(w)[n - 1], Coords(o)[n - 1], 0.0, 0.0) ==> forall t :: !InSlabs(w, o, d, n, t)
  {
    var m := n - 1;
    forall t ensures InSlabs(w, o, d, n, t) <==>
                     InSlabs(w, o, d, m, t) && InSlab(Center(w)[m], Half(w)[m], Coords(o)[m], 0.0, 0.0) {
      InSlabsStep(w, o, d, n, t);
    }
  }

  lemma ClipSlab(w: WallBox, o: Vec, d: Vec, m: nat, n: nat, low: Bound, high: Bound, t1: real, t2: real)
    requires n == m + 1 <= 3 && Clipped(w, o, d, m, low, high)
    requires forall t :: InSlab(Center(w)[m], Half(w)[m], Coords(o)[m], Coords(d)[m], t) <==> t1 <= t <= t2
    ensures Clipped(w, o, d, n,
                    if low.Unbounded? || t1 > low.t then At(t1) else low,
                    if high.Unbounded? || t2 < high.t then At(t2) else high)
  {
    var low' := if low.Unbounded? || t1 > low.t then At(t1) else low;
    var high' := if high.Unbounded? || t2 < high.t then At(t2) else high;
    forall t ensures InSlabs(w, o, d, n, t) <==> AboveLow(low', t) && BelowHigh(high', t) {
      InSlabsStep(w, o, d, n, t);
      assert InSlabs(w, o, d, m, t) <==> AboveLow(low, t) && BelowHigh(high, t);
    }
  }

  /** The slab method is exact for the snapped direction: it returns the least parameter of the
      line inside the closed box when there is a least one and it is not negative, and -1 otherwise.
      The invariant is that [tmin, tmax] is the intersection of the slabs seen so far. */
  method RayAABB(o: Vec, d: Vec, w: WallBox) returns (r: real)
    requires w.NonNegative()
    ensures r == Entry(o, Snap(d), w)
  {
    var tmin, tmax := Unbounded, Unbounded;
    var half, center := Half(w), Center(w);
    var os, ds := Coords(o), Coords(d);
    ghost var s := Snap(d);
    for i := 0 to 3
      invariant Clipped(w, o, s, i, tmin, tmax)
      invariant tmin.At? ==> tmin.t <= tmax.t
    {
      assert Coords(s)[i] == SnapCoord(ds[i]);
      if Abs(ds[i]) < EPSILON {
        ClipParallel(w, o, s, i + 1, tmin, tmax);
        if os[i] < center[i] - half[i] || os[i] > center[i] + half[i] {
          NoEntry(o, s, w, i + 1);
          return -1.0;
        }
        continue;
      }
      var t1 := (center[i] - half[i] - os[i]) / ds[i];
      var t2 := (center[i] + half[i] - os[i]) / ds[i];
      if t1 > t2 {
        t1, t2 := t2, t1;
      }
      forall t ensures InSlab(center[i], half[i], os[i], Coords(s)[i], t) <==> t1 <= t <= t2 {
        SlabInterval(center[i], half[i], os[i], ds[i], t);
      }
      ClipSlab(w, o, s, i, i + 1, tmin, tmax, t1, t2);
      if tmin.Unbounded? || t1 > tmin.t {
        tmin := At(t1);
      }
      if tmax.Unbounded? || t2 < tmax.t {
        tmax := At(t2);
      }
      if tmin.t > tmax.t {
        NoEntry(o, s, w, i + 1);
        return -1.0;
      }
    }
    EntryOfClip(w, o, s, tmin, tmax);
    if tmin.Unbounded? || tmin.t < 0.0 {
      return -1.0;
    }
    return tmin.t;
  }

  lemma NoEntry(o: Vec, d: Vec, w: WallBox, n: nat)
    requires n <= 3
    requires forall t :: !InSlabs(w, o, d, n, t)
    ensures Entry(o, d, w) == -1.0
  {
    forall t ensures !InBox(Along(o, d, t), w) {
      BoxIsThreeSlabs(o, d, w, t);
      assert !InSlabs(w, o, d, n, t);
    }
    assert forall t :: !IsEntry(o, d, w, t);
  }

  lemma EntryOfClip(w: WallBox, o: Vec, d: Vec, low: Bound, high: Bound)
    requires Clipped(w, o, d, 3, low, high)
    requires low.At? ==> low.t <= high.t
    ensures Entry(o, d, w) == if low.At? && low.t >= 0.0 then low.t else -1.0
  {
    forall t ensures InBox(Along(o, d, t), w) <==> AboveLow(low, t) && BelowHigh(high, t) {
      BoxIsThreeSlabs(o, d, w, t);
    }
    if low.At? && low.t >= 0.0 {
      assert InBox(Along(o, d, low.t), w);
      EntryIsUnique(o, d, w, low.t);
    } else {
      forall t ensures !IsEntry(o, d, w, t) {
        var earlier := if low.At? then low.t else t - 1.0;
        assert InBox(Along(o, d, earlier), w) || !InBox(Along(o, d, t), w);
      }
    }
  }

  // ----- Nearest wall -----

  /** `t` is the least positive wall entry along the ray. */
  ghost predicate IsNearestWall(o: Vec, d: Vec, walls: seq<WallBox>, t: real)
  {
    && t > 0.0
    && (exists i :: 0 <= i < |walls| && Entry(o, d, walls[i]) == t)
    && (forall i :: 0 <= i < |walls| && Entry(o, d, walls[i]) > 0.0 ==> t <= Entry(o, d, walls[i]))
  }

  ghost function NearestWall(o: Vec, d: Vec, walls: seq<WallBox>): (r: real)
    ensures r > 0.0 ==> IsNearestWall(o, d, walls, r)
    ensures r <= 0.0 ==> r == -1.0 && forall i :: 0 <= i < |walls| ==> Entry(o, d, walls[i]) <= 0.0
  {
    NearestWallExists(o, d, walls);
    if t :| IsNearestWall(o, d, walls, t) then t else -1.0
  }

  lemma {:induction false} NearestWallExists(o: Vec, d: Vec, walls: seq<WallBox>)
    ensures (exists t :: IsNearestWall(o, d, walls, t)) <==>
            (exists i :: 0 <= i < |walls| && Entry(o, d, walls[i]) > 0.0)
  {
    hide Entry;
    if walls != [] {
      var init, last := walls[..|walls| - 1], walls[|walls| - 1];
      NearestWallExists(o, d, init);
      var e := Entry(o, d, last);
      if t :| IsNearestWall(o, d, init, t) {
        var best := if 0.0 < e < t then e else t;
        var i :| 0 <= i < |init| && Entry(o, d, init[i]) == t;
        assert walls[i] == init[i];
        assert Entry(o, d, walls[if 0.0 < e < t then |walls| - 1 else i]) == best;
        forall j | 0 <= j < |walls| && Entry(o, d, walls[j]) > 0.0 ensures best <= Entry(o, d, walls[j]) {
          if j < |init| { assert walls[j] == init[j]; }
        }
        assert IsNearestWall(o, d, walls, best);
      } else {
        forall j | 0 <= j < |init| ensures Entry(o, d, walls[j]) <= 0.0 {
          assert walls[j] == init[j];
          assert !(Entry(o, d, init[j]) > 0.0);
        }
        if e > 0.0 {
          assert Entry(o, d, walls[|walls| - 1]) == e;
          assert IsNearestWall(o, d, walls, e);
        }
      }
    }
  }

  method RaycastWalls(walls: seq<WallBox>, o: Vec, d: Vec) returns (best: real)
    requires forall w :: w in walls ==> w.NonNegative()
    ensures best == NearestWall(o, Snap(d), walls)
  {
    best := -1.0;
    ghost var s := Snap(d);
    for i := 0 to |walls|
      invariant best > 0.0 ==> IsNearestWall(o, s, walls[..i], best)
      invariant best <= 0.0 ==> best == -1.0 && forall j :: 0 <= j < i ==> Entry(o, s, walls[j]) <= 0.0
    {
      var t := RayAABB(o, d, walls[i]);
      ghost var before := best;
      if t > 0.0 && (best < 0.0 || t < best) {
        best := t;
      }
      ExtendNearest(o, s, walls, i, before, best);
    }
    assert walls[..|walls|] == walls;
    NearestIsUnique(o, s, walls, best);
  }

  lemma ExtendNearest(o: Vec, d: Vec, walls: seq<WallBox>, i: nat, before: real, best: real)
    requires i < |walls|
    requires before > 0.0 ==> IsNearestWall(o, d, walls[..i], before)
    requires before <= 0.0 ==> before == -1.0 && forall j :: 0 <= j < i ==> Entry(o, d, walls[j]) <= 0.0
    requires var t := Entry(o, d, walls[i]); best == if t > 0.0 && (before < 0.0 || t < before) then t else before
    ensures best > 0.0 ==> IsNearestWall(o, d, walls[..i + 1], best)
    ensures best <= 0.0 ==> best == -1.0 && forall j :: 0 <= j < i + 1 ==> Entry(o, d, walls[j]) <= 0.0
  {
    if best > 0.0 {
      var more := walls[..i + 1];
      if best == before {
        var j :| 0 <= j < i && Entry(o, d, walls[..i][j]) == best;
        assert more[j] == walls[..i][j];
      } else {
        assert more[i] == walls[i];
      }
      forall j | 0 <= j < |more| && Entry(o, d, more[j]) > 0.0 ensures best <= Entry(o, d, more[j]) {
        if j < i { assert more[j] == walls[..i][j] == walls[j]; }
      }
    }
  }

  lemma NearestIsUnique(o: Vec, d: Vec, walls: seq<WallBox>, best: real)
    requires best > 0.0 ==> IsNearestWall(o, d, walls, best)
    requires best <= 0.0 ==> best == -1.0 && forall j :: 0 <= j < |walls| ==> Entry(o, d, walls[j]) <= 0.0
    ensures best == NearestWall(o, d, walls)
  {
    var r := NearestWall(o, d, walls);
    if r > 0.0 {
      var i :| 0 <= i < |walls| && Entry(o, d, walls[i]) == r;
    }
    if best > 0.0 {
      var i :| 0 <= i < |walls| && Entry(o, d, walls[i]) == best;
    }
  }

  /** No point of the ray before `t` lies in a wall whose closed box excludes the origin,
      as long as no wall entry lies strictly between the origin and `t`. */
  lemma ClearUpTo(o: Vec, d: Vec, walls: seq<WallBox>, t: real, i: nat, s: real)
    requires 0 <= i < |walls| && !InBox(o, walls[i])
    requires NearestWall(o, d, walls) <= 0.0 || t <= NearestWall(o, d, walls)
    requires 0.0 <= s < t
    ensures !InBox(Along(o, d, s), walls[i])
  {
    if InBox(Along(o, d, s), walls[i]) {
      EntryBefore(o, d, walls[i], s);
    }
  }

  /** A box that excludes the origin but holds a later point of the ray is entered in between. */
  lemma EntryBefore(o: Vec, d: Vec, w: WallBox, s: real)
    requires s >= 0.0 && InBox(Along(o, d, s), w) && !InBox(o, w)
    ensures 0.0 < Entry(o, d, w) <= s
  {
    BoxIsThreeSlabs(o, d, w, s);
    var low, high := Unbounded, Unbounded;
    for n := 1 to 4
      invariant Clipped(w, o, d, n - 1, low, high)
    {
      low, high := OneMoreSlab(w, o, d, n, low, high, s);
    }
    assert AboveLow(low, s) && BelowHigh(high, s);
    assert Along(o, d, 0.0) == o;
    BoxIsThreeSlabs(o, d, w, 0.0);
    EntryOfClip(w, o, d, low, high);
  }

  lemma OneMoreSlab(w: WallBox, o: Vec, d: Vec, n: nat, low: Bound, high: Bound, s: real)
    returns (low': Bound, high': Bound)
    requires 0 < n <= 3 && Clipped(w, o, d, n - 1, low, high) && InSlabs(w, o, d, 3, s)
    ensures Clipped(w, o, d, n, low', high')
  {
    var m := n - 1;
    var c, h, p, q := Center(w)[m], Half(w)[m], Coords(o)[m], Coords(d)[m];
    assert InSlab(c, h, p, q, s);
    if q == 0.0 {
      ClipParallel(w, o, d, n, low, high);
      low', high' := low, high;
    } else {
      var t1, t2 := (c - h - p) / q, (c + h - p) / q;
      if q < 0.0 { t1, t2 := t2, t1; }
      forall t ensures InSlab(c, h, p, q, t) <==> t1 <= t <= t2 {
        SlabInterval(c, h, p, q, t);
      }
      ClipSlab(w, o, d, m, n, low, high, t1, t2);
      low' := if low.Unbounded? || t1 > low.t then At(t1) else low;
      high' := if high.Unbounded? || t2 < high.t then At(t2) else high;
    }
  }

  // ----- Spheres -----

  /** The mathematical functions the code takes from its library. Angles are in degrees. */
  datatype Maths = Maths(sqrt: real -> real, sinDeg: real -> real, cosDeg: real -> real) {
    ghost predicate Valid()
    {
      && (forall x :: x >= 0.0 ==> sqrt(x) >= 0.0 && sqrt(x) * sqrt(x) == x)
      && (forall a :: sinDeg(a) * sinDeg(a) + cosDeg(a) * cosDeg(a) == 1.0)
    }
  }

  function Dist2(p: Vec, q: Vec): real { Dot(Sub(p, q), Sub(p, q)) }

  /** Distance along the ray to the foot of the perpendicular from the centre. */
  function Proj(o: Vec, d: Vec, c: Vec): real { Dot(Sub(c, o), d) }

  /** Squared distance of the centre from the line. */
  function Perp2(o: Vec, d: Vec, c: Vec): real
  {
    Dot(Sub(c, o), Sub(c, o)) - Proj(o, d, c) * Proj(o, d, c)
  }

  /** Distance along a ray of unit direction to the surface of a sphere; -1 if it misses. */
  function RaySphere(m: Maths, o: Vec, d: Vec, c: Vec, r: real): real
  {
    var proj := Proj(o, d, c);
    if proj < 0.0 then -1.0
    else
      var perp2 := Perp2(o, d, c);
      if perp2 > r * r then -1.0
      else proj - m.sqrt(r * r - perp2)
  }

  function Parabola(proj: real, perp2: real, t: real): real { (t - proj) * (t - proj) + perp2 }

  /** Completing the square for a unit direction. */
  lemma SphereQuadratic(o: Vec, d: Vec, c: Vec, t: real)
    requires Dot(d, d) == 1.0
    ensures Dist2(Along(o, d, t), c) == Parabola(Proj(o, d, c), Perp2(o, d, c), t)
  {
    var p := Sub(c, o);
    var proj := Dot(p, d);
    var q := Sub(Along(o, d, t), c);
    assert q == Vec(t * d.x - p.x, t * d.y - p.y, t * d.z - p.z);
    SquareOfDifference(t * d.x, p.x);
    SquareOfDifference(t * d.y, p.y);
    SquareOfDifference(t * d.z, p.z);
    SquareOfDifference(t, proj);
    assert Dot(q, q) == (t * d.x) * (t * d.x) + (t * d.y) * (t * d.y) + (t * d.z) * (t * d.z)
                        - 2.0 * (t * d.x * p.x + t * d.y * p.y + t * d.z * p.z) + Dot(p, p);
    assert (t * d.x) * (t * d.x) + (t * d.y) * (t * d.y) + (t * d.z) * (t * d.z) == t * t * Dot(d, d);
    assert t * d.x * p.x + t * d.y * p.y + t * d.z * p.z == t * proj;
  }

  lemma SquareOfDifference(a: real, b: real)
    ensures (a - b) * (a - b) == a * a - 2.0 * (a * b) + b * b
  {
  }

  /** Where the point at parameter `t` lies relative to the ball, in terms of the value returned. */
  lemma SphereAt(m: Maths, o: Vec, d: Vec, c: Vec, r: real, t: real)
    requires m.Valid() && Dot(d, d) == 1.0 && r > 0.0
    ensures var v, proj := RaySphere(m, o, d, c, r), Proj(o, d, c);
            proj >= 0.0 && Perp2(o, d, c) <= r * r ==>
              && v <= proj
              && (Dist2(Along(o, d, t), c) <= r * r <==> v <= t <= 2.0 * proj - v)
              && (Dist2(Along(o, d, t), c) == r * r <==> t == v || t == 2.0 * proj - v)
    ensures Perp2(o, d, c) > r * r ==> Dist2(Along(o, d, t), c) > r * r
    ensures Proj(o, d, c) < 0.0 && t >= 0.0 ==> Dist2(Along(o, d, t), c) >= Dist2(o, c)
    ensures Along(o, d, 0.0) == o
  {
    var proj, perp2 := Proj(o, d, c), Perp2(o, d, c);
    SphereQuadratic(o, d, c, t);
    SphereQuadratic(o, d, c, 0.0);
    assert Along(o, d, 0.0) == o;
    hide Dist2, Along, Proj, Perp2, Parabola;
    RootsOfSquare(m, proj, perp2, r * r, t);
  }

  lemma RootsOfSquare(m: Maths, proj: real, perp2: real, rr: real, t: real)
    requires m.Valid()
    ensures var dist2 := Parabola(proj, perp2, t);
            && (proj >= 0.0 && perp2 <= rr ==>
                  var v := proj - m.sqrt(rr - perp2);
                  && v <= proj
                  && (dist2 <= rr <==> v <= t <= 2.0 * proj - v)
                  && (dist2 == rr <==> t == v || t == 2.0 * proj - v))
            && (perp2 > rr ==> dist2 > rr)
            && (proj < 0.0 && t >= 0.0 ==> dist2 >= Parabola(proj, perp2, 0.0))
  {
    SquareBound(t - proj, 0.0);
    if proj < 0.0 && t >= 0.0 {
      SquareMonotone(-proj, t - proj);
    }
    if proj >= 0.0 && perp2 <= rr {
      SquareBound(t - proj, m.sqrt(rr - perp2));
    }
  }

  /** For a unit direction the sphere test is exact: its value, unless the sphere lies behind or is
      missed, is the smaller root of |o + t*d - c|^2 = r^2; and it is positive exactly when an origin
      outside the ball sees the ball ahead, in which case it is the first parameter inside the ball. */
  lemma RaySphereExact(m: Maths, o: Vec, d: Vec, c: Vec, r: real)
    requires m.Valid() && Dot(d, d) == 1.0 && r > 0.0
    ensures var v := RaySphere(m, o, d, c, r);
            && (Proj(o, d, c) >= 0.0 && Perp2(o, d, c) <= r * r ==>
                  && Dist2(Along(o, d, v), c) == r * r
                  && forall t :: Dist2(Along(o, d, t), c) == r * r ==> v <= t)
            && (v > 0.0 <==> Dist2(o, c) > r * r && exists t :: t >= 0.0 && Dist2(Along(o, d, t), c) <= r * r)
            && (v > 0.0 ==> Dist2(Along(o, d, v), c) == r * r &&
                            forall t :: 0.0 <= t < v ==> Dist2(Along(o, d, t), c) > r * r)
  {
    var v := RaySphere(m, o, d, c, r);
    var proj := Proj(o, d, c);
    SphereAt(m, o, d, c, r, v);
    SphereAt(m, o, d, c, r, 0.0);
    if proj >= 0.0 && Perp2(o, d, c) <= r * r {
      forall t ensures Dist2(Along(o, d, t), c) == r * r ==> v <= t
               ensures 0.0 <= t < v ==> Dist2(Along(o, d, t), c) > r * r
               ensures Dist2(o, c) > r * r && t >= 0.0 && Dist2(Along(o, d, t), c) <= r * r ==> v > 0.0 {
        SphereAt(m, o, d, c, r, t);
      }
    } else {
      assert v == -1.0;
      forall t | t >= 0.0 ensures Dist2(o, c) > r * r ==> Dist2(Along(o, d, t), c) > r * r {
        SphereAt(m, o, d, c, r, t);
      }
    }
  }

  lemma SquareMonotone(a: real, b: real)
    requires 0.0 <= a <= b
    ensures a * a <= b * b
  {
    assert b * b - a * a == (b - a) * (b + a);
  }

  lemma SquareBound(a: real, e: real)
    requires e >= 0.0
    ensures a * a <= e * e <==> -e <= a <= e
    ensures a * a == e * e <==> a == e || a == -e
  {
    if a > e { SquareStrict(e, a); }
    if a < -e { SquareStrict(e, -a); }
    if -e <= a <= e { SquareMonotone(Abs(a), e); if a != e && a != -e { SquareStrict(Abs(a), e); } }
  }

  lemma SquareStrict(a: real, b: real)
    requires 0.0 <= a < b
    ensures a * a < b * b
  {
    var x := b - a;
    assert b * b == a * a + 2.0 * (a * x) + x * x;
    assert x * x > 0.0;
  }
}
