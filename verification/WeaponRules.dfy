/** What the weapons do, said once more in positions, angles and numbers: whom a shot, a swing, a dash and a lock shot strike,
    and what a strike does. Nothing here goes through the definitions by which targets are chosen. */
module WeaponRules {
  import opened Base
  import opened Geometry
  import opened Combat
  import opened CombatProofs

  // ----- One strike -----

  /** A blow of `dmg` turns `t` into `t'` and costs it `dealt` health. Bit 2 of the buttons is the block stance. */
  ghost predicate Hurts(t: Fighter, t': Fighter, dmg: nat, dealt: nat)
  {
    var guarded := (t.buttons / 4) % 2 == 1 && t.block >= 10.0;
    var blow := if guarded then dmg / 2 else dmg;
    var left := if guarded then t.block - 10.0 else t.block;
    if blow < t.hp then dealt == blow && t' == t.(hp := t.hp - blow, block := left)
    else dealt == t.hp && t' == t.(hp := 0, block := left, deaths := t.deaths + 1, deadTicks := 60, justDied := true)
  }

  function KillCount(xs: seq<Strike>): nat
  {
    if xs == [] then 0 else KillCount(xs[..|xs| - 1]) + if xs[|xs| - 1].killed then 1 else 0
  }

  /** `x` is a blow of `u` at a living other player. */
  ghost predicate FairStrike(fs: Fighters, v: Volley, u: Uid, dmg: nat, x: Strike)
  {
    var p := x.ev.target;
    && x.ev.shooter == u && p != u && p in fs && p in v.fighters && fs[p].deadTicks == 0
    && Hurts(fs[p], v.fighters[p], dmg, x.ev.damage)
    && (x.killed <==> x.ev.damage == fs[p].hp)
  }

  ghost predicate IsStruck(v: Volley, p: Uid) { exists i :: 0 <= i < |v.strikes| && v.strikes[i].ev.target == p }

  /** Everybody struck is struck once, by a blow of `dmg`; everybody else is as before; `u` has become `ready` and scores once
      for every kill. */
  ghost predicate FairVolley(fs: Fighters, ready: Fighter, v: Volley, u: Uid, dmg: nat)
  {
    && u in fs && v.fighters.Keys == fs.Keys
    && (forall i :: 0 <= i < |v.strikes| ==> FairStrike(fs, v, u, dmg, v.strikes[i]))
    && (forall i, j :: 0 <= i < j < |v.strikes| ==> v.strikes[i].ev.target != v.strikes[j].ev.target)
    && (forall p :: p in fs && p != u && !IsStruck(v, p) ==> v.fighters[p] == fs[p])
    && v.fighters[u] == ready.(score := fs[u].score + KillCount(v.strikes))
  }

  lemma StruckHurts(t: Fighter, dmg: nat)
    ensures Hurts(t, Struck(t, dmg), dmg, Dealt(t, dmg))
  {
  }

  lemma {:induction false} ShooterScores(fs: Fighters, u: Uid, ts: seq<Uid>, dmg: nat)
    requires Targets(fs, u, ts)
    ensures var v := StrikeAll(fs, u, ts, dmg);
            v.fighters[u] == fs[u].(score := fs[u].score + KillCount(v.strikes))
  {
    hide Struck, Kills, Dealt, Hit;
    if ts != [] {
      var init, last := ts[..|ts| - 1], ts[|ts| - 1];
      ShooterScores(fs, u, init, dmg);
      var v := StrikeAll(fs, u, init, dmg);
      HitAt(v.fighters, u, last, dmg, u);
      var xs := StrikeAll(fs, u, ts, dmg).strikes;
      assert xs[..|xs| - 1] == v.strikes;
    }
  }

  lemma VolleyIsFair(fs: Fighters, ready: Fighter, u: Uid, ts: seq<Uid>, dmg: nat)
    requires u in fs && ready.score == fs[u].score
    requires Targets(fs[u := ready], u, ts) && NoDuplicates(ts)
    ensures var v := StrikeAll(fs[u := ready], u, ts, dmg);
            FairVolley(fs, ready, v, u, dmg) && forall p :: IsStruck(v, p) <==> p in ts
  {
    hide StrikeAll, Struck, Hurts, KillCount;
    var fs1 := fs[u := ready];
    var v := StrikeAll(fs1, u, ts, dmg);
    StrikeAllAt(fs1, u, ts, dmg);
    ShooterScores(fs1, u, ts, dmg);
    forall i | 0 <= i < |v.strikes| ensures FairStrike(fs, v, u, dmg, v.strikes[i]) && v.strikes[i].ev.target == ts[i] {
      StruckHurts(fs[ts[i]], dmg);
    }
    forall p ensures IsStruck(v, p) <==> p in ts {
      if p in ts {
        var i :| 0 <= i < |ts| && ts[i] == p;
        assert v.strikes[i].ev.target == p;
      }
    }
  }

  // ----- The line of fire -----

  /** The direction of an aim: its height is the sine of the pitch, and in the plane it points along the yaw, with the cosine
      of the pitch for its length. */
  lemma DirectionMeans(m: Maths, yaw: real, pitch: real)
    requires m.Valid()
    ensures var d := DirFromAngles(m, yaw, pitch);
            && d.y == m.sinDeg(pitch)
            && d.x * m.cosDeg(yaw) == d.z * m.sinDeg(yaw)
            && d.x * m.sinDeg(yaw) + d.z * m.cosDeg(yaw) == m.cosDeg(pitch)
  {
    var c, s, cp := m.cosDeg(yaw), m.sinDeg(yaw), m.cosDeg(pitch);
    assert s * s + c * c == 1.0;
    assert cp * s * s + cp * c * c == cp * (s * s + c * c);
  }

  /** `p` stands so that the middle of its body is `r` ahead of the eye of `s` along the aim and (ex, ey, ez) off that line,
      at a right angle to it. Every position is of this form. */
  ghost predicate Ahead(m: Maths, s: Fighter, p: Fighter, r: real, ex: real, ey: real, ez: real)
  {
    var dx, dy, dz := m.cosDeg(s.aimY) * m.sinDeg(s.aimX), m.sinDeg(s.aimY), m.cosDeg(s.aimY) * m.cosDeg(s.aimX);
    && p.pos.x - s.pos.x == r * dx + ex
    && (p.pos.y + 1.0) - (s.pos.y + 1.5) == r * dy + ey
    && p.pos.z - s.pos.z == r * dz + ez
    && ex * dx + ey * dy + ez * dz == 0.0
  }

  /** The ball of radius one that is `r` ahead and `across2` (squared) off the line leaves the eye out and is entered within 40. */
  predicate InTheWay(r: real, across2: real)
  {
    across2 <= 1.0 && r >= 0.0 && r * r + across2 > 1.0 && (r <= 40.0 || (r - 40.0) * (r - 40.0) + across2 <= 1.0)
  }

  lemma Pythagoras(d: Vec, e: Vec, k: real)
    requires Dot(d, d) == 1.0 && Dot(e, d) == 0.0
    ensures var q := Vec(k * d.x - e.x, k * d.y - e.y, k * d.z - e.z);
            Dot(q, q) == k * k + Dot(e, e)
  {
    var q := Vec(k * d.x - e.x, k * d.y - e.y, k * d.z - e.z);
    assert Dot(q, q) == k * k * Dot(d, d) - 2.0 * k * Dot(e, d) + Dot(e, e);
  }

  lemma OffLine(o: Vec, d: Vec, c: Vec, r: real, e: Vec, t: real)
    requires Dot(d, d) == 1.0 && Dot(e, d) == 0.0
    requires c.x - o.x == r * d.x + e.x && c.y - o.y == r * d.y + e.y && c.z - o.z == r * d.z + e.z
    ensures Dist2(Along(o, d, t), c) == (t - r) * (t - r) + Dot(e, e)
  {
    Pythagoras(d, e, t - r);
    hide Dot;
    assert Sub(Along(o, d, t), c) == Vec((t - r) * d.x - e.x, (t - r) * d.y - e.y, (t - r) * d.z - e.z);
  }

  /** How far a point `t` along the line of fire is from the middle of such a player. */
  lemma AcrossAndAlong(w: World, s: Fighter, p: Fighter, r: real, ex: real, ey: real, ez: real, t: real)
    requires w.Valid() && Ahead(w.maths, s, p, r, ex, ey, ez)
    ensures Dist2(Sightline(w, s, t), p.Body()) == (t - r) * (t - r) + (ex * ex + ey * ey + ez * ez)
  {
    hide Dist2, Along, Maths.Valid;
    var d, e := DirFromAngles(w.maths, s.aimX, s.aimY), Vec(ex, ey, ez);
    DirectionIsUnit(w.maths, s.aimX, s.aimY);
    AheadIs(w.maths, s, p, r, ex, ey, ez);
    hide Ahead, DirFromAngles;
    OffLine(s.Eye(), d, p.Body(), r, e, t);
  }

  lemma AheadIs(m: Maths, s: Fighter, p: Fighter, r: real, ex: real, ey: real, ez: real)
    requires Ahead(m, s, p, r, ex, ey, ez)
    ensures var d, o, c := DirFromAngles(m, s.aimX, s.aimY), s.Eye(), p.Body();
            && Dot(Vec(ex, ey, ez), d) == 0.0
            && c.x - o.x == r * d.x + ex && c.y - o.y == r * d.y + ey && c.z - o.z == r * d.z + ez
  {
  }

  lemma ShotReaches(w: World, s: Fighter, p: Fighter, r: real, ex: real, ey: real, ez: real)
    requires w.Valid() && Ahead(w.maths, s, p, r, ex, ey, ez)
    ensures Exposed(w, s, p) <==> InTheWay(r, ex * ex + ey * ey + ez * ez)
  {
    hide Dist2, DirFromAngles, Ahead, Maths.Valid;
    var e2 := ex * ex + ey * ey + ez * ez;
    SquarePositive(ex);
    SquarePositive(ey);
    SquarePositive(ez);
    AcrossAndAlong(w, s, p, r, ex, ey, ez, 0.0);
    assert Sightline(w, s, 0.0) == s.Eye();
    hide Sightline;
    if InTheWay(r, e2) {
      var t := if r <= 40.0 then r else 40.0;
      AcrossAndAlong(w, s, p, r, ex, ey, ez, t);
      assert Dist2(Sightline(w, s, t), p.Body()) <= PLAYER_RADIUS * PLAYER_RADIUS;
    }
    if Exposed(w, s, p) {
      var t :| 0.0 <= t <= GUN_RANGE && Dist2(Sightline(w, s, t), p.Body()) <= PLAYER_RADIUS * PLAYER_RADIUS;
      AcrossAndAlong(w, s, p, r, ex, ey, ez, t);
      MetWithin(r, e2, t);
    }
  }

  lemma ProductSign(a: real, b: real)
    requires a >= 0.0 && b >= 0.0
    ensures a * b >= 0.0
  {
  }

  lemma MetWithin(r: real, e2: real, t: real)
    requires 0.0 <= t <= 40.0 && e2 >= 0.0 && (t - r) * (t - r) + e2 <= 1.0 && r * r + e2 > 1.0
    ensures InTheWay(r, e2)
  {
    SquarePositive(t - r);
    if r < 0.0 {
      assert (t - r) * (t - r) == r * r + t * (t - 2.0 * r);
      ProductSign(t, t - 2.0 * r);
    }
    if r > 40.0 {
      assert (r - t) * (r - t) == (r - 40.0) * (r - 40.0) + (40.0 - t) * (2.0 * r - 40.0 - t);
      ProductSign(40.0 - t, 2.0 * r - 40.0 - t);
    }
  }

  // ----- The shot -----

  /** A shot: nothing while dead or before the gun has cooled down; otherwise four ticks of cooldown and at most one blow of 25. */
  lemma ShotVolley(w: World, fs: Fighters, u: Uid, order: seq<Uid>)
    requires u in fs
    ensures var v := ApplyShot(w, fs, u, order);
            if fs[u].deadTicks > 0 || fs[u].fireCd > 0 then v == Volley(fs, [])
            else FairVolley(fs, fs[u].(fireCd := 4), v, u, 25) && |v.strikes| <= 1
  {
    hide StrikeAll, FairVolley, ShotTargets;
    if fs[u].deadTicks == 0 && fs[u].fireCd == 0 {
      var ready := fs[u].(fireCd := FIRE_COOLDOWN);
      var ts := ShotTargets(w, fs[u := ready], u, order);
      ShotAtMostOne(w, fs[u := ready], u, order);
      VolleyIsFair(fs, ready, u, ts, GUN_DAMAGE);
    }
  }

  lemma ShotAtMostOne(w: World, fs: Fighters, u: Uid, order: seq<Uid>)
    requires u in fs
    ensures |ShotTargets(w, fs, u, order)| <= 1
  {
  }

  /** Where there are no walls and `p` is the only other living player, a ready gun strikes `p` exactly if the ball around its
      middle is in the way, and nobody otherwise. */
  lemma OnlyTarget(w: World, fs: Fighters, u: Uid, order: seq<Uid>, p: Uid, r: real, ex: real, ey: real, ez: real)
    requires w.Valid() && w.walls == [] && u in fs && p in fs && p != u && Enumerates(order, fs.Keys)
    requires fs[u].deadTicks == 0 && fs[u].fireCd == 0 && fs[p].deadTicks == 0
    requires forall q :: q in fs && q != u && q != p ==> fs[q].deadTicks > 0
    requires Ahead(w.maths, fs[u], fs[p], r, ex, ey, ez)
    ensures var v := ApplyShot(w, fs, u, order);
            && FairVolley(fs, fs[u].(fireCd := 4), v, u, 25)
            && if InTheWay(r, ex * ex + ey * ey + ez * ez) then |v.strikes| == 1 && v.strikes[0].ev.target == p
               else v.strikes == []
  {
    hide ApplyShot, Exposed, FairVolley, Ahead, InTheWay, Maths.Valid, DirFromAngles;
    ShotReaches(w, fs[u], fs[p], r, ex, ey, ez);
    MissIsJustified(w, fs, u, order);
    ShotVolley(w, fs, u, order);
    assert CanBeHit(fs, u, p);
    if ApplyShot(w, fs, u, order).strikes != [] { OnlyOneToHit(w, fs, u, order, p); }
  }

  lemma OnlyOneToHit(w: World, fs: Fighters, u: Uid, order: seq<Uid>, p: Uid)
    requires w.Valid() && u in fs && p in fs && Enumerates(order, fs.Keys)
    requires forall q :: q in fs && q != u && q != p ==> fs[q].deadTicks > 0
    requires ApplyShot(w, fs, u, order).strikes != []
    ensures ApplyShot(w, fs, u, order).strikes[0].ev.target == p
  {
    hide ApplyShot, Maths.Valid, DirFromAngles;
    var q := ShotTaken(w, fs, u, order);
  }

  /** A level shot in the open, eye to eye: somebody at the same height and `r` straight ahead is struck for every r from 1 to 40,
      and nobody who stands that far straight behind is. */
  lemma LevelShot(w: World, fs: Fighters, u: Uid, order: seq<Uid>, p: Uid, r: real)
    requires w.Valid() && w.walls == [] && u in fs && p in fs && p != u && Enumerates(order, fs.Keys)
    requires fs[u].deadTicks == 0 && fs[u].fireCd == 0 && fs[p].deadTicks == 0
    requires forall q :: q in fs && q != u && q != p ==> fs[q].deadTicks > 0
    requires w.maths.sinDeg(fs[u].aimY) == 0.0 && w.maths.cosDeg(fs[u].aimY) == 1.0
    requires 1.0 <= r <= 40.0
    ensures var s, at := fs[u].pos, fs[p].pos;
            var sy, cy := w.maths.sinDeg(fs[u].aimX), w.maths.cosDeg(fs[u].aimX);
            var xs := ApplyShot(w, fs, u, order).strikes;
            && (at == Vec(s.x + r * sy, s.y, s.z + r * cy) ==> |xs| == 1 && xs[0].ev.target == p)
            && (at == Vec(s.x - r * sy, s.y, s.z - r * cy) ==> xs == [])
  {
    hide ApplyShot, FairVolley, Maths.Valid, Ahead, InTheWay;
    LevelInTheWay(r);
    if LevelPosition(w.maths, fs[u], fs[p], r) {
      LevelAhead(w.maths, fs[u], fs[p], r);
      OnlyTarget(w, fs, u, order, p, r, 0.0, -0.5, 0.0);
    }
    if LevelPosition(w.maths, fs[u], fs[p], -r) {
      LevelAhead(w.maths, fs[u], fs[p], -r);
      OnlyTarget(w, fs, u, order, p, -r, 0.0, -0.5, 0.0);
    }
  }

  /** `p` stands `r` ahead of `s` on the same level; behind for negative `r`. */
  predicate LevelPosition(m: Maths, s: Fighter, p: Fighter, r: real)
  {
    p.pos == Vec(s.pos.x + r * m.sinDeg(s.aimX), s.pos.y, s.pos.z + r * m.cosDeg(s.aimX))
  }

  lemma LevelAhead(m: Maths, s: Fighter, p: Fighter, r: real)
    requires m.sinDeg(s.aimY) == 0.0 && m.cosDeg(s.aimY) == 1.0 && LevelPosition(m, s, p, r)
    ensures Ahead(m, s, p, r, 0.0, -0.5, 0.0)
  {
  }

  lemma LevelInTheWay(r: real)
    requires 1.0 <= r <= 40.0
    ensures InTheWay(r, 0.0 * 0.0 + (-0.5) * (-0.5) + 0.0 * 0.0) && !InTheWay(-r, 0.0 * 0.0 + (-0.5) * (-0.5) + 0.0 * 0.0)
  {
    ProductSign(r - 1.0, r + 1.0);
    assert r * r == (r - 1.0) * (r + 1.0) + 1.0 >= 1.0;
    assert (-0.5) * (-0.5) == 0.25;
  }

  /** The point of the line of fire `k` ahead of the eye. */
  function PointAhead(m: Maths, s: Fighter, k: real): Vec
  {
    Vec(s.pos.x + k * (m.cosDeg(s.aimY) * m.sinDeg(s.aimX)), s.pos.y + 1.5 + k * m.sinDeg(s.aimY),
        s.pos.z + k * (m.cosDeg(s.aimY) * m.cosDeg(s.aimX)))
  }

  /** The point is within half the width, height and depth of the middle of the box. */
  predicate Holds(b: WallBox, p: Vec)
  {
    -b.w <= 2.0 * (p.x - b.x) <= b.w && -b.h <= 2.0 * (p.y - b.y) <= b.h && -b.d <= 2.0 * (p.z - b.z) <= b.d
  }

  predicate HoldsAhead(m: Maths, s: Fighter, b: WallBox, k: real) { Holds(b, PointAhead(m, s, k)) }

  /** How far the middle of the body of `p` is from a point, squared. */
  function FromMiddle2(p: Fighter, q: Vec): real
  {
    (q.x - p.pos.x) * (q.x - p.pos.x) + (q.y - (p.pos.y + 1.0)) * (q.y - (p.pos.y + 1.0)) + (q.z - p.pos.z) * (q.z - p.pos.z)
  }

  function MidDist2(m: Maths, s: Fighter, p: Fighter, k: real): real { FromMiddle2(p, PointAhead(m, s, k)) }

  /** No direction component is so small that the wall test takes it for zero. */
  predicate NothingTiny(m: Maths, s: Fighter)
  {
    && NotTiny(m.cosDeg(s.aimY) * m.sinDeg(s.aimX))
    && NotTiny(m.sinDeg(s.aimY))
    && NotTiny(m.cosDeg(s.aimY) * m.cosDeg(s.aimX))
  }

  predicate NotTiny(c: real) { c == 0.0 || c >= 0.000000001 || c <= -0.000000001 }

  lemma PointIsPlain(w: World, s: Fighter, k: real)
    ensures PointAhead(w.maths, s, k) == Sightline(w, s, k)
    ensures PointAhead(w.maths, s, 0.0) == s.Eye()
  {
    var p, q := PointAhead(w.maths, s, k), Sightline(w, s, k);
    var d := DirFromAngles(w.maths, s.aimX, s.aimY);
    assert q.x == s.pos.x + k * d.x && q.z == s.pos.z + k * d.z;
    assert p.x == q.x;
    assert p.y == q.y;
    assert p.z == q.z;
  }

  lemma MiddleIsPlain(p: Fighter, q: Vec)
    ensures FromMiddle2(p, q) == Dist2(q, p.Body())
  {
  }

  lemma DistanceIsPlain(w: World, s: Fighter, p: Fighter, k: real)
    ensures MidDist2(w.maths, s, p, k) == Dist2(Sightline(w, s, k), p.Body())
    ensures MidDist2(w.maths, s, p, 0.0) == Dist2(s.Eye(), p.Body())
  {
    hide Dist2, Sightline, PointAhead, FromMiddle2;
    PointIsPlain(w, s, k);
    MiddleIsPlain(p, Sightline(w, s, k));
    MiddleIsPlain(p, s.Eye());
  }

  lemma HoldsIsInBox(b: WallBox, p: Vec)
    ensures Holds(b, p) <==> InBox(p, b)
  {
  }

  lemma WallIsPlain(w: World, s: Fighter, b: WallBox, k: real)
    requires NothingTiny(w.maths, s)
    ensures HoldsAhead(w.maths, s, b, k) <==> InBox(WallLine(w, s, k), b)
    ensures HoldsAhead(w.maths, s, b, 0.0) <==> InBox(s.Eye(), b)
  {
    hide InBox, Along, DirFromAngles, Snap, NothingTiny, PointAhead;
    SnapsToItself(w.maths, s);
    PointIsPlain(w, s, k);
    HoldsIsInBox(b, WallLine(w, s, k));
    HoldsIsInBox(b, s.Eye());
  }

  lemma SnapsToItself(m: Maths, s: Fighter)
    requires NothingTiny(m, s)
    ensures var d := DirFromAngles(m, s.aimX, s.aimY); Snap(d) == d
  {
  }

  /** A shot that strikes is a clear one: the ball around its target is first met at some t up to 40; no other ball that leaves the
      eye out is met sooner, and no wall that leaves the eye out holds a point of the line sooner. */
  lemma ShotIsClear(w: World, fs: Fighters, u: Uid, order: seq<Uid>) returns (t: real)
    requires w.Valid() && u in fs && Enumerates(order, fs.Keys) && NothingTiny(w.maths, fs[u])
    requires ApplyShot(w, fs, u, order).strikes != []
    ensures |ApplyShot(w, fs, u, order).strikes| == 1 && 0.0 < t <= 40.0
    ensures var q := ApplyShot(w, fs, u, order).strikes[0].ev.target;
            q in fs && q != u && fs[q].deadTicks == 0 && MidDist2(w.maths, fs[u], fs[q], t) == 1.0
    ensures forall p, k :: p in fs && p != u && fs[p].deadTicks == 0 && MidDist2(w.maths, fs[u], fs[p], 0.0) > 1.0 && 0.0 <= k < t ==>
              MidDist2(w.maths, fs[u], fs[p], k) > 1.0
    ensures forall i, k :: 0 <= i < |w.walls| && !HoldsAhead(w.maths, fs[u], w.walls[i], 0.0) && 0.0 <= k < t ==>
              !HoldsAhead(w.maths, fs[u], w.walls[i], k)
  {
    hide ApplyShot, MidDist2, HoldsAhead, Dist2, InBox, Maths.Valid, NothingTiny, Sightline, WallLine;
    HitIsClearShot(w, fs, u, order);
    var q := ApplyShot(w, fs, u, order).strikes[0].ev.target;
    t := ShotDistance(w, fs[u], fs[q]);
    DistanceIsPlain(w, fs[u], fs[q], t);
    forall p, k | p in fs && p != u && fs[p].deadTicks == 0 && MidDist2(w.maths, fs[u], fs[p], 0.0) > 1.0 && 0.0 <= k < t
      ensures MidDist2(w.maths, fs[u], fs[p], k) > 1.0 {
      DistanceIsPlain(w, fs[u], fs[p], k);
    }
    forall i, k | 0 <= i < |w.walls| && !HoldsAhead(w.maths, fs[u], w.walls[i], 0.0) && 0.0 <= k < t
      ensures !HoldsAhead(w.maths, fs[u], w.walls[i], k) {
      WallIsPlain(w, fs[u], w.walls[i], k);
    }
  }

  /** A ready gun that strikes nobody has a wall before everybody in the way. */
  lemma MissIsBlocked(w: World, fs: Fighters, u: Uid, order: seq<Uid>, p: Uid, t: real)
    requires w.Valid() && u in fs && Enumerates(order, fs.Keys) && NothingTiny(w.maths, fs[u])
    requires fs[u].deadTicks == 0 && fs[u].fireCd == 0 && ApplyShot(w, fs, u, order).strikes == []
    requires p in fs && p != u && fs[p].deadTicks == 0 && MidDist2(w.maths, fs[u], fs[p], 0.0) > 1.0
    requires 0.0 <= t <= 40.0 && MidDist2(w.maths, fs[u], fs[p], t) <= 1.0
    ensures exists i, k :: 0 <= i < |w.walls| && 0.0 < k < t && HoldsAhead(w.maths, fs[u], w.walls[i], k)
  {
    hide ApplyShot, MidDist2, HoldsAhead, Dist2, InBox, Maths.Valid, NothingTiny, Sightline, ShotDistance;
    var s := fs[u];
    var d := Snap(DirFromAngles(w.maths, s.aimX, s.aimY));
    MissIsJustified(w, fs, u, order);
    DistanceIsPlain(w, s, fs[p], t);
    assert CanBeHit(fs, u, p) && Exposed(w, s, fs[p]);
    var i :| 0 <= i < |w.walls| && Entry(s.Eye(), d, w.walls[i]) > 0.0 &&
             forall p' :: CanBeHit(fs, u, p') && Exposed(w, s, fs[p']) ==>
                          Entry(s.Eye(), d, w.walls[i]) < ShotDistance(w, s, fs[p']);
    var k := Entry(s.Eye(), d, w.walls[i]);
    MetByThen(w, s, fs[p], t);
    WallIsPlain(w, s, w.walls[i], k);
  }

  /** An exposed player is met no later than at any point of its ball. */
  lemma MetByThen(w: World, s: Fighter, p: Fighter, t: real)
    requires w.Valid() && Exposed(w, s, p) && t >= 0.0 && Dist2(Sightline(w, s, t), p.Body()) <= 1.0
    ensures ShotDistance(w, s, p) <= t
  {
    hide Maths.Valid, DirFromAngles, Dist2;
    DirectionIsUnit(w.maths, s.aimX, s.aimY);
    ExposedMeansInRange(w, s, p);
    RaySphereExact(w.maths, s.Eye(), DirFromAngles(w.maths, s.aimX, s.aimY), p.Body(), PLAYER_RADIUS);
  }

  // ----- Sword and dash -----

  /** Within the circle around `s` whose radius squared is `reach2`, at most 2 higher or lower, and in the arc. */
  predicate Reached(m: Maths, s: Fighter, p: Fighter, reach2: real, cosArc: real)
  {
    && InCircle(p.pos.x - s.pos.x, p.pos.z - s.pos.z, reach2)
    && -2.0 <= p.pos.y - s.pos.y <= 2.0
    && InArc(m, p.pos.x - s.pos.x, p.pos.z - s.pos.z, s.yaw, cosArc)
  }

  predicate InCircle(ex: real, ez: real, reach2: real) { ex * ex + ez * ez <= reach2 }

  /** At the very same place, or with an inner product with the facing direction that is large enough. */
  predicate InArc(m: Maths, ex: real, ez: real, yaw: real, cosArc: real)
  {
    (ex == 0.0 && ez == 0.0) || ex * m.sinDeg(yaw) + ez * m.cosDeg(yaw) >= cosArc * m.sqrt(ex * ex + ez * ez)
  }

  lemma CircleIs(m: Maths, ex: real, ez: real, reach: real)
    requires m.Valid() && reach >= 0.0
    ensures WithinReach(m, ex, ez, reach) <==> InCircle(ex, ez, reach * reach)
  {
    hide WithinReach, Maths.Valid;
    ReachMeans(m, ex, ez, reach);
  }

  lemma ArcIs(m: Maths, ex: real, ez: real, yaw: real, arc: real)
    requires m.Valid()
    ensures WithinArc(m, ex, ez, yaw, arc) <==> InArc(m, ex, ez, yaw, m.cosDeg(arc))
  {
    hide WithinArc, Maths.Valid;
    ArcMeans(m, ex, ez, yaw, arc);
  }

  lemma SwingReaches(m: Maths, s: Fighter, p: Fighter, reach: real, arc: real)
    requires m.Valid() && reach >= 0.0
    ensures InSwing(m, s.pos, s.yaw, p.pos, reach, arc) <==> Reached(m, s, p, reach * reach, m.cosDeg(arc))
  {
    hide Maths.Valid, WithinReach, WithinArc, InCircle, InArc;
    CircleIs(m, p.pos.x - s.pos.x, p.pos.z - s.pos.z, reach);
    ArcIs(m, p.pos.x - s.pos.x, p.pos.z - s.pos.z, s.yaw, arc);
  }

  lemma SwingIsFair(w: World, fs: Fighters, ready: Fighter, u: Uid, reach: real, arc: real, order: seq<Uid>)
    requires w.Valid() && reach >= 0.0 && u in fs && Enumerates(order, fs.Keys)
    requires ready.score == fs[u].score && ready.pos == fs[u].pos && ready.yaw == fs[u].yaw
    ensures var v := StrikeAll(fs[u := ready], u, SwingTargets(w.maths, fs[u := ready], u, reach, arc, order), 50);
            && FairVolley(fs, ready, v, u, 50)
            && forall p :: IsStruck(v, p) <==>
                 p in fs && p != u && fs[p].deadTicks == 0 && Reached(w.maths, fs[u], fs[p], reach * reach, w.maths.cosDeg(arc))
  {
    hide StrikeAll, FairVolley, IsStruck, InSwing, Reached;
    var fs1 := fs[u := ready];
    var ts := SwingTargets(w.maths, fs1, u, reach, arc, order);
    SwingTargetsDistinct(w.maths, fs1, u, reach, arc, order);
    VolleyIsFair(fs, ready, u, ts, 50);
    forall p | p in fs ensures InSwing(w.maths, ready.pos, ready.yaw, fs[p].pos, reach, arc)
                               <==> Reached(w.maths, fs[u], fs[p], reach * reach, w.maths.cosDeg(arc)) {
      SwingReaches(w.maths, fs[u], fs[p], reach, arc);
    }
    assert forall p :: p in order <==> p in fs;
  }

  /** A sword: nothing while dead or before it has cooled down; otherwise eight ticks of cooldown and one blow of 50 to each living
      other player within 3 and within 60 degrees, and to nobody else. */
  lemma SwordVolley(w: World, fs: Fighters, u: Uid, order: seq<Uid>)
    requires w.Valid() && u in fs && Enumerates(order, fs.Keys)
    ensures var v := ApplySword(w, fs, u, order);
            if fs[u].deadTicks > 0 || fs[u].swordCd > 0 then v == Volley(fs, [])
            else
              && FairVolley(fs, fs[u].(swordCd := 8), v, u, 50)
              && forall p :: IsStruck(v, p) <==>
                   p in fs && p != u && fs[p].deadTicks == 0 && Reached(w.maths, fs[u], fs[p], 9.0, w.maths.cosDeg(60.0))
  {
    hide StrikeAll, FairVolley, IsStruck, Reached, SwingTargets, Maths.Valid;
    SwingIsFair(w, fs, fs[u].(swordCd := 8), u, 3.0, 60.0, order);
  }

  /** A dash: the same with 45 ticks, a circle of 6 and 30 degrees. */
  lemma DashVolley(w: World, fs: Fighters, u: Uid, order: seq<Uid>)
    requires w.Valid() && u in fs && Enumerates(order, fs.Keys)
    ensures var v := ApplyDash(w, fs, u, order);
            if fs[u].deadTicks > 0 || fs[u].dashCd > 0 then v == Volley(fs, [])
            else
              && FairVolley(fs, fs[u].(dashCd := 45), v, u, 50)
              && forall p :: IsStruck(v, p) <==>
                   p in fs && p != u && fs[p].deadTicks == 0 && Reached(w.maths, fs[u], fs[p], 36.0, w.maths.cosDeg(30.0))
  {
    hide StrikeAll, FairVolley, IsStruck, Reached, SwingTargets, Maths.Valid;
    SwingIsFair(w, fs, fs[u].(dashCd := 45), u, 6.0, 30.0, order);
  }

  // ----- The lock shot -----

  /** From the feet of `s` to the middle of the body of `p`, squared. */
  function Apart2(s: Fighter, p: Fighter): real
  {
    var ex, ey, ez := p.pos.x - s.pos.x, p.pos.y + 1.0 - s.pos.y, p.pos.z - s.pos.z;
    ex * ex + ey * ey + ez * ez
  }

  /** `p` is within 60, not at distance zero, and within 20 degrees of the aim. */
  predicate Lockable(m: Maths, s: Fighter, p: Fighter)
  {
    var ex, ey, ez := p.pos.x - s.pos.x, p.pos.y + 1.0 - s.pos.y, p.pos.z - s.pos.z;
    && 0.0 < Apart2(s, p) <= 3600.0
    && ex * (m.cosDeg(s.aimY) * m.sinDeg(s.aimX)) + ey * m.sinDeg(s.aimY) + ez * (m.cosDeg(s.aimY) * m.cosDeg(s.aimX))
       >= m.cosDeg(20.0) * m.sqrt(Apart2(s, p))
  }

  lemma RootOf(m: Maths, x: real)
    requires m.Valid() && x >= 0.0
    ensures m.sqrt(x) >= 0.0 && m.sqrt(x) * m.sqrt(x) == x && (m.sqrt(x) == 0.0 <==> x == 0.0)
  {
    SquarePositive(m.sqrt(x));
  }

  lemma ApartIsDot(s: Fighter, p: Fighter)
    ensures var e := Sub(p.Body(), s.pos); Dot(e, e) == Apart2(s, p) >= 0.0
  {
    var e := Sub(p.Body(), s.pos);
    SquarePositive(e.x);
    SquarePositive(e.y);
    SquarePositive(e.z);
  }

  lemma DistanceIsRoot(m: Maths, s: Fighter, p: Fighter)
    requires m.Valid()
    ensures var d := LockDistance(m, s, p);
            d == m.sqrt(Apart2(s, p)) && d >= 0.0 && d * d == Apart2(s, p) && (d == 0.0 <==> Apart2(s, p) == 0.0)
  {
    hide Maths.Valid, Dot, Sub, Apart2;
    ApartIsDot(s, p);
    RootOf(m, Apart2(s, p));
  }

  lemma ConeIsPlain(m: Maths, s: Fighter, p: Fighter)
    requires m.Valid()
    ensures InCone(m, s, p) <==> Lockable(m, s, p)
  {
    hide Maths.Valid, LockDistance, Apart2;
    DistanceIsRoot(m, s, p);
    var d := LockDistance(m, s, p);
    SquareBound(d, 60.0);
    if d > 0.0 {
      QuotientAtLeast(Dot(Sub(p.Body(), s.pos), DirFromAngles(m, s.aimX, s.aimY)), d, m.cosDeg(20.0));
    }
  }

  lemma NearerIsLess(m: Maths, s: Fighter, p: Fighter, q: Fighter)
    requires m.Valid() && LockDistance(m, s, q) <= LockDistance(m, s, p)
    ensures Apart2(s, q) <= Apart2(s, p)
  {
    hide Maths.Valid, LockDistance, Apart2;
    DistanceIsRoot(m, s, p);
    DistanceIsRoot(m, s, q);
    SquareBound(LockDistance(m, s, q), LockDistance(m, s, p));
  }

  /** A lock shot: nothing while dead, without a charge or before it has cooled down; otherwise one charge, 30 ticks of cooldown and
      a blow of 50 to a nearest of the living other players within 60 and 20 degrees, walls or not, if there is one. */
  lemma LockVolley(w: World, fs: Fighters, u: Uid, order: seq<Uid>)
    requires w.Valid() && u in fs && Enumerates(order, fs.Keys)
    ensures var v := ApplyLock(w, fs, u, order);
            if fs[u].deadTicks > 0 || fs[u].lockCharges == 0 || fs[u].lockCd > 0 then v == Volley(fs, [])
            else
              && FairVolley(fs, fs[u].(lockCharges := fs[u].lockCharges - 1, lockCd := 30), v, u, 50)
              && |v.strikes| <= 1
              && (v.strikes == [] <==> forall p :: p in fs && p != u && fs[p].deadTicks == 0 ==> !Lockable(w.maths, fs[u], fs[p]))
              && forall q :: IsStruck(v, q) ==>
                   && q in fs && Lockable(w.maths, fs[u], fs[q])
                   && forall p :: p in fs && p != u && fs[p].deadTicks == 0 && Lockable(w.maths, fs[u], fs[p]) ==>
                        Apart2(fs[u], fs[q]) <= Apart2(fs[u], fs[p])
  {
    hide StrikeAll, FairVolley, IsStruck, Lockable, Apart2, InCone, LockDistance, Maths.Valid, FirstLeast;
    if fs[u].deadTicks == 0 && fs[u].lockCharges > 0 && fs[u].lockCd == 0 {
      var ready := fs[u].(lockCharges := fs[u].lockCharges - 1, lockCd := 30);
      var fs1 := fs[u := ready];
      var ts := LockTargets(w.maths, fs1, u, order);
      VolleyIsFair(fs, ready, u, ts, 50);
      LockedOn(w, fs, ready, u, order);
    }
  }

  lemma LockedOn(w: World, fs: Fighters, ready: Fighter, u: Uid, order: seq<Uid>)
    requires w.Valid() && u in fs && Enumerates(order, fs.Keys)
    requires ready.pos == fs[u].pos && ready.aimX == fs[u].aimX && ready.aimY == fs[u].aimY
    ensures var ts := LockTargets(w.maths, fs[u := ready], u, order);
            && |ts| <= 1
            && (ts == [] <==> forall p :: p in fs && p != u && fs[p].deadTicks == 0 ==> !Lockable(w.maths, fs[u], fs[p]))
            && forall q :: q in ts ==>
                 && q in fs && Lockable(w.maths, fs[u], fs[q])
                 && forall p :: p in fs && p != u && fs[p].deadTicks == 0 && Lockable(w.maths, fs[u], fs[p]) ==>
                      Apart2(fs[u], fs[q]) <= Apart2(fs[u], fs[p])
  {
    hide Lockable, Apart2, InCone, LockDistance, Maths.Valid, FirstLeast, Cone, LockCost;
    var m, fs1 := w.maths, fs[u := ready];
    FirstLeastIsLeast(order, Cone(m, fs1, u), LockCost(m, fs1, u));
    SameCone(m, fs, ready, u);
    forall p | p in fs ensures InCone(m, fs[u], fs[p]) <==> Lockable(m, fs[u], fs[p]) {
      ConeIsPlain(m, fs[u], fs[p]);
    }
    forall p, q | p in fs && q in fs && LockDistance(m, fs[u], fs[q]) <= LockDistance(m, fs[u], fs[p])
      ensures Apart2(fs[u], fs[q]) <= Apart2(fs[u], fs[p]) {
      NearerIsLess(m, fs[u], fs[p], fs[q]);
    }
    assert forall p :: p in order <==> p in fs;
  }

  lemma SameCone(m: Maths, fs: Fighters, ready: Fighter, u: Uid)
    requires u in fs && ready.pos == fs[u].pos && ready.aimX == fs[u].aimX && ready.aimY == fs[u].aimY
    ensures var fs1 := fs[u := ready];
            && (forall p :: Cone(m, fs1, u)(p) <==> p in fs && p != u && fs[p].deadTicks == 0 && InCone(m, fs[u], fs[p]))
            && (forall p :: p in fs && p != u ==> LockCost(m, fs1, u)(p) == LockDistance(m, fs[u], fs[p]))
  {
  }
}
