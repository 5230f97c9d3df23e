/** What the combat rules mean: shots obey the line of sight, and a swing or dash does not depend
    on the order in which the player map is visited. */
module CombatProofs {
  import opened Base
  import opened Geometry
  import opened Combat

  // ----- Hits on different targets commute -----

  ghost function Killed(fs: Fighters, targets: seq<Uid>, dmg: nat): set<Uid>
    requires forall i :: 0 <= i < |targets| ==> targets[i] in fs
  {
    set u | u in targets && Kills(fs[u], dmg)
  }

  /** What a fighter looks like after all hits, read off the state before the first one. */
  ghost function After(fs: Fighters, shooter: Uid, targets: seq<Uid>, dmg: nat, u: Uid): Fighter
    requires Targets(fs, shooter, targets) && u in fs
  {
    if u in targets then Struck(fs[u], dmg)
    else if u == shooter then fs[u].(score := fs[u].score + |Killed(fs, targets, dmg)|)
    else fs[u]
  }

  lemma {:induction false} FightersAfter(fs: Fighters, shooter: Uid, targets: seq<Uid>, dmg: nat, u: Uid)
    requires Targets(fs, shooter, targets) && NoDuplicates(targets) && u in fs
    ensures StrikeAll(fs, shooter, targets, dmg).fighters[u] == After(fs, shooter, targets, dmg, u)
  {
    KilledGrows(fs, targets, dmg);
    hide Struck, Kills, Dealt, StrikeOf, Hit, Killed;
    if targets != [] {
      var init, last := targets[..|targets| - 1], targets[|targets| - 1];
      assert targets == init + [last];
      assert last !in init;
      FightersAfter(fs, shooter, init, dmg, last);
      FightersAfter(fs, shooter, init, dmg, u);
      HitAt(StrikeAll(fs, shooter, init, dmg).fighters, shooter, last, dmg, u);
    }
  }

  lemma KilledGrows(fs: Fighters, targets: seq<Uid>, dmg: nat)
    requires (forall i :: 0 <= i < |targets| ==> targets[i] in fs) && NoDuplicates(targets)
    ensures targets == [] ==> |Killed(fs, targets, dmg)| == 0
    ensures targets != [] ==>
              var init, last := targets[..|targets| - 1], targets[|targets| - 1];
              |Killed(fs, targets, dmg)| == |Killed(fs, init, dmg)| + if Kills(fs[last], dmg) then 1 else 0
  {
    hide Kills;
    if targets == [] {
      assert Killed(fs, targets, dmg) == {};
    } else {
      var init, last := targets[..|targets| - 1], targets[|targets| - 1];
      assert targets == init + [last];
      assert last !in Killed(fs, init, dmg);
      var more := if Kills(fs[last], dmg) then {last} else {};
      assert Killed(fs, targets, dmg) == Killed(fs, init, dmg) + more;
    }
  }

  lemma {:induction false} StrikesAfter(fs: Fighters, shooter: Uid, targets: seq<Uid>, dmg: nat, i: nat)
    requires Targets(fs, shooter, targets) && NoDuplicates(targets) && i < |targets|
    ensures StrikeAll(fs, shooter, targets, dmg).strikes[i] == StrikeOf(shooter, targets[i], fs[targets[i]], dmg)
  {
    hide Struck, Kills, Dealt, StrikeOf, Hit;
    var init, last := targets[..|targets| - 1], targets[|targets| - 1];
    assert targets == init + [last];
    assert last !in init;
    if i < |init| {
      StrikesAfter(fs, shooter, init, dmg, i);
    } else {
      FightersAfter(fs, shooter, init, dmg, last);
    }
  }

  /** Hits on distinct players do not interfere: each one acts on the state before the volley. */
  lemma StrikeAllAt(fs: Fighters, shooter: Uid, targets: seq<Uid>, dmg: nat)
    requires Targets(fs, shooter, targets) && NoDuplicates(targets)
    ensures var v := StrikeAll(fs, shooter, targets, dmg);
            && (forall u :: u in fs ==> v.fighters[u] == After(fs, shooter, targets, dmg, u))
            && (forall i :: 0 <= i < |targets| ==> v.strikes[i] == StrikeOf(shooter, targets[i], fs[targets[i]], dmg))
  {
    hide StrikeAll, After, StrikeOf;
    forall u | u in fs ensures StrikeAll(fs, shooter, targets, dmg).fighters[u] == After(fs, shooter, targets, dmg, u) {
      FightersAfter(fs, shooter, targets, dmg, u);
    }
    forall i | 0 <= i < |targets|
      ensures StrikeAll(fs, shooter, targets, dmg).strikes[i] == StrikeOf(shooter, targets[i], fs[targets[i]], dmg) {
      StrikesAfter(fs, shooter, targets, dmg, i);
    }
  }

  lemma HitAt(fs: Fighters, shooter: Uid, target: Uid, dmg: nat, u: Uid)
    requires shooter in fs && target in fs && target != shooter && u in fs
    ensures Hit(fs, shooter, target, dmg)[u] ==
            if u == target then Struck(fs[target], dmg)
            else if u == shooter then Credited(fs[u], Kills(fs[target], dmg))
            else fs[u]
  {
  }

  ghost predicate SameUpToOrder(v: Volley, v': Volley)
  {
    v.fighters == v'.fighters && multiset(v.strikes) == multiset(v'.strikes)
  }

  lemma StrikeAllCommutes(fs: Fighters, shooter: Uid, ts: seq<Uid>, ts': seq<Uid>, dmg: nat)
    requires Targets(fs, shooter, ts) && Targets(fs, shooter, ts')
    requires NoDuplicates(ts) && NoDuplicates(ts')
    requires forall u :: u in ts <==> u in ts'
    ensures SameUpToOrder(StrikeAll(fs, shooter, ts, dmg), StrikeAll(fs, shooter, ts', dmg))
  {
    hide Struck, Kills, Dealt, StrikeOf, StrikeAll;
    var v, v' := StrikeAll(fs, shooter, ts, dmg), StrikeAll(fs, shooter, ts', dmg);
    assert v.fighters == v'.fighters by {
      StrikeAllAt(fs, shooter, ts, dmg);
      StrikeAllAt(fs, shooter, ts', dmg);
      assert Killed(fs, ts, dmg) == Killed(fs, ts', dmg);
      forall u | u in fs ensures v.fighters[u] == v'.fighters[u] {
        assert After(fs, shooter, ts, dmg, u) == After(fs, shooter, ts', dmg, u);
      }
    }
    StrikesDistinct(fs, shooter, ts, dmg);
    StrikesDistinct(fs, shooter, ts', dmg);
    forall x | x in v.strikes ensures x in v'.strikes {
      StrikeListed(fs, shooter, ts, ts', dmg, x);
    }
    forall x | x in v'.strikes ensures x in v.strikes {
      StrikeListed(fs, shooter, ts', ts, dmg, x);
    }
    SameElementsSameMultiset(v.strikes, v'.strikes);
  }

  lemma StrikesDistinct(fs: Fighters, shooter: Uid, ts: seq<Uid>, dmg: nat)
    requires Targets(fs, shooter, ts) && NoDuplicates(ts)
    ensures NoDuplicates(StrikeAll(fs, shooter, ts, dmg).strikes)
  {
    StrikeAllAt(fs, shooter, ts, dmg);
    var v := StrikeAll(fs, shooter, ts, dmg);
    forall i, j | 0 <= i < j < |v.strikes| ensures v.strikes[i] != v.strikes[j] {
      assert v.strikes[i].ev.target == ts[i] && v.strikes[j].ev.target == ts[j];
    }
  }

  lemma StrikeListed(fs: Fighters, shooter: Uid, ts: seq<Uid>, ts': seq<Uid>, dmg: nat, x: Strike)
    requires Targets(fs, shooter, ts) && Targets(fs, shooter, ts')
    requires NoDuplicates(ts) && NoDuplicates(ts')
    requires forall u :: u in ts <==> u in ts'
    requires x in StrikeAll(fs, shooter, ts, dmg).strikes
    ensures x in StrikeAll(fs, shooter, ts', dmg).strikes
  {
    StrikeAllAt(fs, shooter, ts, dmg);
    StrikeAllAt(fs, shooter, ts', dmg);
    var i :| 0 <= i < |ts| && StrikeAll(fs, shooter, ts, dmg).strikes[i] == x;
    assert ts[i] in ts';
    var j :| 0 <= j < |ts'| && ts'[j] == ts[i];
    assert StrikeAll(fs, shooter, ts', dmg).strikes[j] == x;
  }

  lemma {:induction false} SwingTargetsDistinct(m: Maths, fs: Fighters, shooter: Uid, reach: real, arc: real, order: seq<Uid>)
    requires shooter in fs && NoDuplicates(order)
    ensures NoDuplicates(SwingTargets(m, fs, shooter, reach, arc, order))
  {
    if order != [] {
      var init, last := order[..|order| - 1], order[|order| - 1];
      SwingTargetsDistinct(m, fs, shooter, reach, arc, init);
      assert forall i :: 0 <= i < |init| ==> order[i] == init[i];
      assert last !in init;
    }
  }

  lemma SwingIsOrderFree(m: Maths, fs: Fighters, shooter: Uid, reach: real, arc: real, dmg: nat,
                         order: seq<Uid>, order': seq<Uid>)
    requires shooter in fs && Enumerates(order, fs.Keys) && Enumerates(order', fs.Keys)
    ensures SameUpToOrder(StrikeAll(fs, shooter, SwingTargets(m, fs, shooter, reach, arc, order), dmg),
                          StrikeAll(fs, shooter, SwingTargets(m, fs, shooter, reach, arc, order'), dmg))
  {
    SwingTargetsDistinct(m, fs, shooter, reach, arc, order);
    SwingTargetsDistinct(m, fs, shooter, reach, arc, order');
    StrikeAllCommutes(fs, shooter, SwingTargets(m, fs, shooter, reach, arc, order),
                      SwingTargets(m, fs, shooter, reach, arc, order'), dmg);
  }

  /** A sword swing reaches the same player states and the same multiset of hits in every visiting order. */
  lemma SwordIsOrderFree(w: World, fs: Fighters, u: Uid, order: seq<Uid>, order': seq<Uid>)
    requires u in fs && Enumerates(order, fs.Keys) && Enumerates(order', fs.Keys)
    ensures SameUpToOrder(ApplySword(w, fs, u, order), ApplySword(w, fs, u, order'))
  {
    var ready := fs[u := fs[u].(swordCd := SWORD_COOLDOWN)];
    assert ready.Keys == fs.Keys;
    SwingIsOrderFree(w.maths, ready, u, SWORD_RANGE, SWORD_ARC, SWORD_DAMAGE, order, order');
  }

  lemma DashIsOrderFree(w: World, fs: Fighters, u: Uid, order: seq<Uid>, order': seq<Uid>)
    requires u in fs && Enumerates(order, fs.Keys) && Enumerates(order', fs.Keys)
    ensures SameUpToOrder(ApplyDash(w, fs, u, order), ApplyDash(w, fs, u, order'))
  {
    var ready := fs[u := fs[u].(dashCd := DASH_COOLDOWN)];
    assert ready.Keys == fs.Keys;
    SwingIsOrderFree(w.maths, ready, u, DASH_RANGE, DASH_ARC, DASH_DAMAGE, order, order');
  }

  /** A ready sword hits each living other player in reach exactly once, and nobody else; every hit
      takes its toll from the state before the swing, and the swinger scores once per kill. */
  lemma SwordHitsExactly(w: World, fs: Fighters, u: Uid, order: seq<Uid>, p: Uid)
    requires u in fs && p in fs && Enumerates(order, fs.Keys)
    requires !fs[u].Dead() && fs[u].swordCd == 0
    ensures var v := ApplySword(w, fs, u, order);
            var inReach := CanBeSwungAt(w.maths, fs, u, SWORD_RANGE, SWORD_ARC, p);
            && (inReach ==> v.fighters[p] == Struck(fs[p], SWORD_DAMAGE)
                            && multiset(v.strikes)[StrikeOf(u, p, fs[p], SWORD_DAMAGE)] == 1)
            && (!inReach ==> forall x :: x in v.strikes ==> x.ev.target != p)
            && (!inReach && p != u ==> v.fighters[p] == fs[p])
  {
    hide StrikeAll, InSwing, SwingTargets, Struck, StrikeOf;
    var ready := fs[u := fs[u].(swordCd := SWORD_COOLDOWN)];
    var ts := SwingTargets(w.maths, ready, u, SWORD_RANGE, SWORD_ARC, order);
    assert ApplySword(w, fs, u, order) == StrikeAll(ready, u, ts, SWORD_DAMAGE);
    SwingIgnoresCooldown(w.maths, fs, u, p, SWORD_RANGE, SWORD_ARC);
    SwingTargetsDistinct(w.maths, ready, u, SWORD_RANGE, SWORD_ARC, order);
    HitExactly(ready, u, ts, SWORD_DAMAGE, p);
    assert p in order;
  }

  /** The same for a ready dash. */
  lemma DashHitsExactly(w: World, fs: Fighters, u: Uid, order: seq<Uid>, p: Uid)
    requires u in fs && p in fs && Enumerates(order, fs.Keys)
    requires !fs[u].Dead() && fs[u].dashCd == 0
    ensures var v := ApplyDash(w, fs, u, order);
            var inReach := CanBeSwungAt(w.maths, fs, u, DASH_RANGE, DASH_ARC, p);
            && (inReach ==> v.fighters[p] == Struck(fs[p], DASH_DAMAGE)
                            && multiset(v.strikes)[StrikeOf(u, p, fs[p], DASH_DAMAGE)] == 1)
            && (!inReach ==> forall x :: x in v.strikes ==> x.ev.target != p)
            && (!inReach && p != u ==> v.fighters[p] == fs[p])
  {
    hide StrikeAll, InSwing, SwingTargets, Struck, StrikeOf;
    var ready := fs[u := fs[u].(dashCd := DASH_COOLDOWN)];
    var ts := SwingTargets(w.maths, ready, u, DASH_RANGE, DASH_ARC, order);
    assert ApplyDash(w, fs, u, order) == StrikeAll(ready, u, ts, DASH_DAMAGE);
    assert CanBeSwungAt(w.maths, ready, u, DASH_RANGE, DASH_ARC, p) <==> CanBeSwungAt(w.maths, fs, u, DASH_RANGE, DASH_ARC, p);
    SwingTargetsDistinct(w.maths, ready, u, DASH_RANGE, DASH_ARC, order);
    HitExactly(ready, u, ts, DASH_DAMAGE, p);
    assert p in order;
  }

  /** What reach means for a displacement: within the circle. */
  lemma ReachMeans(m: Maths, ex: real, ez: real, reach: real)
    requires m.Valid() && reach >= 0.0
    ensures WithinReach(m, ex, ez, reach) <==> ex * ex + ez * ez <= reach * reach
  {
    hide Maths.Valid;
    DistanceSquared(m, ex, ez);
    SquareBound(m.sqrt(ex * ex + ez * ez), reach);
  }

  /** What the arc means: no displacement at all, or an inner product with the facing direction that is large enough. */
  lemma ArcMeans(m: Maths, ex: real, ez: real, yaw: real, arc: real)
    requires m.Valid()
    ensures WithinArc(m, ex, ez, yaw, arc) <==>
            (ex == 0.0 && ez == 0.0) || ex * m.sinDeg(yaw) + ez * m.cosDeg(yaw) >= m.cosDeg(arc) * m.sqrt(ex * ex + ez * ez)
  {
    hide Maths.Valid;
    DistanceSquared(m, ex, ez);
    var dist, inner, c := m.sqrt(ex * ex + ez * ez), ex * m.sinDeg(yaw) + ez * m.cosDeg(yaw), m.cosDeg(arc);
    if dist > 0.0 {
      QuotientAtLeast(inner, dist, c);
    }
    hide WithinArc;
  }

  lemma DistanceSquared(m: Maths, ex: real, ez: real)
    requires m.Valid()
    ensures var dist := m.sqrt(ex * ex + ez * ez);
            dist >= 0.0 && dist * dist == ex * ex + ez * ez && (dist == 0.0 <==> ex == 0.0 && ez == 0.0)
  {
    SumOfSquares(ex, ez);
    SquarePositive(m.sqrt(ex * ex + ez * ez));
  }

  lemma SquarePositive(x: real)
    ensures x * x >= 0.0 && (x * x == 0.0 <==> x == 0.0)
  {
    SquareBound(x, 0.0);
  }

  lemma SumOfSquares(x: real, y: real)
    ensures x * x + y * y >= 0.0 && (x * x + y * y == 0.0 <==> x == 0.0 && y == 0.0)
  {
    SquarePositive(x);
    SquarePositive(y);
  }

  lemma QuotientAtLeast(x: real, d: real, c: real)
    requires d > 0.0
    ensures x / d >= c <==> x >= c * d
  {
    var q := x / d;
    assert q * d == x;
    if q >= c {
      assert (q - c) * d >= 0.0;
    } else {
      assert (c - q) * d > 0.0;
    }
  }

  lemma SwingIgnoresCooldown(m: Maths, fs: Fighters, u: Uid, p: Uid, reach: real, arc: real)
    requires u in fs && p in fs
    ensures var ready := fs[u := fs[u].(swordCd := SWORD_COOLDOWN)];
            CanBeSwungAt(m, ready, u, reach, arc, p) <==> CanBeSwungAt(m, fs, u, reach, arc, p)
  {
  }

  lemma HitExactly(fs: Fighters, u: Uid, ts: seq<Uid>, dmg: nat, p: Uid)
    requires Targets(fs, u, ts) && NoDuplicates(ts) && p in fs
    ensures var v := StrikeAll(fs, u, ts, dmg);
            && (p in ts ==> v.fighters[p] == Struck(fs[p], dmg)
                            && multiset(v.strikes)[StrikeOf(u, p, fs[p], dmg)] == 1)
            && (p !in ts ==> forall x :: x in v.strikes ==> x.ev.target != p)
            && (p !in ts && p != u ==> v.fighters[p] == fs[p])
  {
    StrikeAllAt(fs, u, ts, dmg);
    StrikesDistinct(fs, u, ts, dmg);
    var v := StrikeAll(fs, u, ts, dmg);
    if p in ts {
      var i :| 0 <= i < |ts| && ts[i] == p;
      assert v.strikes[i] == StrikeOf(u, p, fs[p], dmg);
      NoDuplicatesMultiset(v.strikes, v.strikes[i]);
    }
  }

  // ----- Line of sight -----

  lemma DirectionIsUnit(m: Maths, yaw: real, pitch: real)
    requires m.Valid()
    ensures var d := DirFromAngles(m, yaw, pitch); Dot(d, d) == 1.0
  {
    var cp, sp, cy, sy := m.cosDeg(pitch), m.sinDeg(pitch), m.cosDeg(yaw), m.sinDeg(yaw);
    assert (cp * sy) * (cp * sy) + (cp * cy) * (cp * cy) == cp * cp * (sy * sy + cy * cy);
    assert sp * sp + cp * cp == 1.0 && sy * sy + cy * cy == 1.0;
  }

  /** The point at distance `t` along the line of fire. */
  ghost function Sightline(w: World, s: Fighter, t: real): Vec
  {
    Along(s.Eye(), DirFromAngles(w.maths, s.aimX, s.aimY), t)
  }

  /** The line the wall test follows: the line of fire with direction components below 1e-9 taken as zero. */
  ghost function WallLine(w: World, s: Fighter, t: real): Vec
  {
    Along(s.Eye(), Snap(DirFromAngles(w.maths, s.aimX, s.aimY)), t)
  }

  /** The ball around `p` excludes the eye and the line of fire meets it within range. */
  ghost predicate Exposed(w: World, s: Fighter, p: Fighter)
  {
    && Dist2(s.Eye(), p.Body()) > PLAYER_RADIUS * PLAYER_RADIUS
    && exists t :: 0.0 <= t <= GUN_RANGE && Dist2(Sightline(w, s, t), p.Body()) <= PLAYER_RADIUS * PLAYER_RADIUS
  }

  lemma ExposedMeansInRange(w: World, s: Fighter, p: Fighter)
    requires w.Valid()
    ensures Exposed(w, s, p) <==> 0.0 < ShotDistance(w, s, p) <= GUN_RANGE
  {
    var d := DirFromAngles(w.maths, s.aimX, s.aimY);
    DirectionIsUnit(w.maths, s.aimX, s.aimY);
    RaySphereExact(w.maths, s.Eye(), d, p.Body(), PLAYER_RADIUS);
    var v := ShotDistance(w, s, p);
    assert forall t :: Sightline(w, s, t) == Along(s.Eye(), d, t);
    if 0.0 < v <= GUN_RANGE {
      assert Dist2(Sightline(w, s, v), p.Body()) <= PLAYER_RADIUS * PLAYER_RADIUS;
    }
  }

  /** A hit is a clear shot at the nearest exposed player: the ball of the target is first met at a
      distance t in (0, 40]; before t the line of fire meets no ball of a living other player, and the line of
      the wall test no wall, apart from balls and walls that already hold the eye. Unless the direction has
      components below 1e-9 the two lines are one. */
  lemma HitIsClearShot(w: World, fs: Fighters, u: Uid, order: seq<Uid>)
    requires w.Valid() && u in fs && Enumerates(order, fs.Keys)
    requires ApplyShot(w, fs, u, order).strikes != []
    ensures var v := ApplyShot(w, fs, u, order);
            var q := v.strikes[0].ev.target;
            && |v.strikes| == 1 && CanBeHit(fs, u, q)
            && var t := ShotDistance(w, fs[u], fs[q]);
               && 0.0 < t <= GUN_RANGE
               && Dist2(Sightline(w, fs[u], t), fs[q].Body()) == PLAYER_RADIUS * PLAYER_RADIUS
               && (forall p, s :: CanBeHit(fs, u, p) && Dist2(fs[u].Eye(), fs[p].Body()) > PLAYER_RADIUS * PLAYER_RADIUS
                                  && 0.0 <= s < t ==>
                                  Dist2(Sightline(w, fs[u], s), fs[p].Body()) > PLAYER_RADIUS * PLAYER_RADIUS)
               && (forall i, s :: 0 <= i < |w.walls| && !InBox(fs[u].Eye(), w.walls[i]) && 0.0 <= s < t ==>
                                  !InBox(WallLine(w, fs[u], s), w.walls[i]))
               && var d := DirFromAngles(w.maths, fs[u].aimX, fs[u].aimY);
                  Snap(d) == d ==> forall s :: WallLine(w, fs[u], s) == Sightline(w, fs[u], s)
  {
    hide ApplyShot, Dist2, InBox, RaySphere, NearestWall, Along;
    var s0 := fs[u];
    var d := DirFromAngles(w.maths, s0.aimX, s0.aimY);
    var q := ShotTaken(w, fs, u, order);
    var t := ShotDistance(w, s0, fs[q]);
    DirectionIsUnit(w.maths, s0.aimX, s0.aimY);
    RaySphereExact(w.maths, s0.Eye(), d, fs[q].Body(), PLAYER_RADIUS);
    forall p, s | CanBeHit(fs, u, p) && Dist2(s0.Eye(), fs[p].Body()) > PLAYER_RADIUS * PLAYER_RADIUS && 0.0 <= s < t
      ensures Dist2(Sightline(w, s0, s), fs[p].Body()) > PLAYER_RADIUS * PLAYER_RADIUS {
      NotSoonerThan(w, fs, u, p, s, t);
    }
    forall i, s | 0 <= i < |w.walls| && !InBox(s0.Eye(), w.walls[i]) && 0.0 <= s < t
      ensures !InBox(WallLine(w, s0, s), w.walls[i]) {
      ClearUpTo(s0.Eye(), Snap(d), w.walls, t, i, s);
    }
  }

  /** A player whose ball excludes the eye is not met before the least distance in sight. */
  lemma NotSoonerThan(w: World, fs: Fighters, u: Uid, p: Uid, s: real, t: real)
    requires w.Valid() && u in fs && CanBeHit(fs, u, p)
    requires Dist2(fs[u].Eye(), fs[p].Body()) > PLAYER_RADIUS * PLAYER_RADIUS
    requires 0.0 <= s < t <= GUN_RANGE && (InSights(w, fs, u, p) ==> t <= ShotDistance(w, fs[u], fs[p]))
    ensures Dist2(Sightline(w, fs[u], s), fs[p].Body()) > PLAYER_RADIUS * PLAYER_RADIUS
  {
    var d := DirFromAngles(w.maths, fs[u].aimX, fs[u].aimY);
    DirectionIsUnit(w.maths, fs[u].aimX, fs[u].aimY);
    ExposedMeansInRange(w, fs[u], fs[p]);
    RaySphereExact(w.maths, fs[u].Eye(), d, fs[p].Body(), PLAYER_RADIUS);
    SphereAt(w.maths, fs[u].Eye(), d, fs[p].Body(), PLAYER_RADIUS, s);
  }

  /** The target of a shot that hits, and why it was chosen. */
  lemma ShotTaken(w: World, fs: Fighters, u: Uid, order: seq<Uid>) returns (q: Uid)
    requires u in fs && Enumerates(order, fs.Keys)
    requires ApplyShot(w, fs, u, order).strikes != []
    ensures var v := ApplyShot(w, fs, u, order);
            && |v.strikes| == 1 && v.strikes[0].ev.target == q
            && InSights(w, fs, u, q)
            && (forall p :: p in fs && InSights(w, fs, u, p) ==> ShotDistance(w, fs[u], fs[q]) <= ShotDistance(w, fs[u], fs[p]))
            && var wallT := WallDistance(w, fs[u]);
               wallT <= 0.0 || ShotDistance(w, fs[u], fs[q]) <= wallT
  {
    var ready := fs[u := fs[u].(fireCd := FIRE_COOLDOWN)];
    var best := FirstLeast(order, Sights(w, ready, u), ShotCost(w, ready, u));
    FirstLeastIsLeast(order, Sights(w, ready, u), ShotCost(w, ready, u));
    SameSights(w, fs, u);
    q := best.value;
    assert ShotTargets(w, ready, u, order) == [q];
    StrikeAllAt(ready, u, [q], GUN_DAMAGE);
    forall p | p in fs && InSights(w, fs, u, p)
      ensures ShotDistance(w, fs[u], fs[q]) <= ShotDistance(w, fs[u], fs[p]) {
      assert p in order && Sights(w, ready, u)(p);
      assert ShotCost(w, ready, u)(q) <= ShotCost(w, ready, u)(p);
    }
  }

  lemma SameSights(w: World, fs: Fighters, u: Uid)
    requires u in fs
    ensures var ready := fs[u := fs[u].(fireCd := FIRE_COOLDOWN)];
            && WallDistance(w, ready[u]) == WallDistance(w, fs[u])
            && (forall p :: p in fs ==> ShotDistance(w, ready[u], ready[p]) == ShotDistance(w, fs[u], fs[p])
                                        || p == u)
            && (forall p :: p in fs ==> (InSights(w, ready, u, p) <==> InSights(w, fs, u, p)))
  {
  }

  /** A ready gun that hits nobody either has no exposed living player in range, or some wall is
      entered, on the line of the wall test, strictly between the eye and every exposed player. */
  lemma MissIsJustified(w: World, fs: Fighters, u: Uid, order: seq<Uid>)
    requires w.Valid() && u in fs && Enumerates(order, fs.Keys)
    requires !fs[u].Dead() && fs[u].fireCd == 0
    ensures var d := Snap(DirFromAngles(w.maths, fs[u].aimX, fs[u].aimY));
            ApplyShot(w, fs, u, order).strikes == [] <==>
              || (forall p :: CanBeHit(fs, u, p) ==> !Exposed(w, fs[u], fs[p]))
              || (exists i :: 0 <= i < |w.walls| && Entry(fs[u].Eye(), d, w.walls[i]) > 0.0 &&
                   forall p :: CanBeHit(fs, u, p) && Exposed(w, fs[u], fs[p]) ==>
                               Entry(fs[u].Eye(), d, w.walls[i]) < ShotDistance(w, fs[u], fs[p]))
  {
    var s0 := fs[u];
    var d := Snap(DirFromAngles(w.maths, s0.aimX, s0.aimY));
    var wallT := NearestWall(s0.Eye(), d, w.walls);
    forall p | p in fs ensures CanBeHit(fs, u, p) && Exposed(w, s0, fs[p]) <==> InSights(w, fs, u, p) {
      ExposedMeansInRange(w, s0, fs[p]);
    }
    if ApplyShot(w, fs, u, order).strikes != [] {
      var q := ShotTaken(w, fs, u, order);
      assert Exposed(w, s0, fs[q]);
      forall i | 0 <= i < |w.walls| && Entry(s0.Eye(), d, w.walls[i]) > 0.0
        ensures ShotDistance(w, s0, fs[q]) <= Entry(s0.Eye(), d, w.walls[i]) {
      }
    } else {
      var ready := fs[u := s0.(fireCd := FIRE_COOLDOWN)];
      SameSights(w, fs, u);
      FirstLeastIsLeast(order, Sights(w, ready, u), ShotCost(w, ready, u));
      var best := FirstLeast(order, Sights(w, ready, u), ShotCost(w, ready, u));
      if best.None? {
        forall p | CanBeHit(fs, u, p) ensures !Exposed(w, s0, fs[p]) {
          assert p in order && !Sights(w, ready, u)(p);
        }
      } else {
        assert wallT > 0.0 && wallT < ShotCost(w, ready, u)(best.value);
        var i :| 0 <= i < |w.walls| && Entry(s0.Eye(), d, w.walls[i]) == wallT;
        forall p | CanBeHit(fs, u, p) && Exposed(w, s0, fs[p])
          ensures Entry(s0.Eye(), d, w.walls[i]) < ShotDistance(w, s0, fs[p]) {
          assert p in order && Sights(w, ready, u)(p);
          assert ShotCost(w, ready, u)(best.value) <= ShotCost(w, ready, u)(p);
        }
      }
    }
  }
}
