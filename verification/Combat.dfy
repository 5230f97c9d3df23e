/** The combat rules of internal/room/combat.go as functions on values: what one swing, shot or
    lock does to the fighters of a room, given the order in which the player map was visited. */
module Combat {
  import opened Base
  import opened Geometry

  const GUN_DAMAGE: nat := 25
  const GUN_RANGE: real := 40.0
  const SWORD_DAMAGE: nat := 50
  const SWORD_RANGE: real := 3.0
  const SWORD_ARC: real := 60.0
  const SWORD_COOLDOWN: nat := 8
  const DASH_DAMAGE: nat := 50
  const DASH_RANGE: real := 6.0
  const DASH_ARC: real := 30.0
  const DASH_COOLDOWN: nat := 45
  const LOCK_DAMAGE: nat := 50
  const LOCK_RANGE: real := 60.0
  const LOCK_ARC: real := 20.0
  const LOCK_COOLDOWN: nat := 30
  const LOCK_MAX_CHARGES: nat := 3
  const LOCK_CHARGE_TICKS: nat := 300
  const BLOCK_MIN: real := 10.0
  const BLOCK_COST: real := 10.0
  const RESPAWN_TICKS: nat := 60
  const FIRE_COOLDOWN: nat := 4
  const EYE_HEIGHT: real := 1.5
  const PLAYER_RADIUS: real := 1.0
  const REACH_HEIGHT: real := 2.0
  const MAX_HP: nat := 100

  const BTN_FIRE := 1
  const BTN_SWORD := 2
  const BTN_BLOCK := 4
  const BTN_DASH := 32
  const BTN_LOCK := 128

  datatype World = World(maths: Maths, walls: seq<WallBox>) {
    ghost predicate Valid()
    {
      maths.Valid() && forall w :: w in walls ==> w.NonNegative()
    }
  }

  /** The game state of one player. Its connection state is kept apart, in `Link` of the room model. */
  datatype Fighter = Fighter(
    pos: Vec, yaw: real, hp: nat, weapon: Byte, alt: Byte, block: real, blockMax: real, anim: Byte,
    lastReport: int, suspicious: nat, firstReport: bool, score: nat, deaths: nat,
    aimX: real, aimY: real, buttons: Byte, fireCd: nat, deadTicks: nat, justDied: bool,
    lockCharges: nat, lockTimer: nat, lockCd: nat, swordCd: nat, dashCd: nat)
  {
    predicate Blocking() { Bit(buttons, BTN_BLOCK) && block >= BLOCK_MIN }
    predicate Dead() { deadTicks > 0 }
    function Eye(): Vec { Vec(pos.x, pos.y + EYE_HEIGHT, pos.z) }
    function Body(): Vec { Vec(pos.x, pos.y + 1.0, pos.z) }
  }

  type Fighters = map<Uid, Fighter>

  datatype HitEvent = HitEvent(shooter: Uid, target: Uid, damage: nat)

  /** A hit event together with what it did: whether it was blocked and whether it killed. */
  datatype Strike = Strike(ev: HitEvent, blocked: bool, killed: bool)

  datatype Volley = Volley(fighters: Fighters, strikes: seq<Strike>)

  // ----- One hit -----

  /** Raw damage after the block stance; halving truncates like the conversion to uint8. */
  function Softened(t: Fighter, dmg: nat): nat { if t.Blocking() then dmg / 2 else dmg }

  function Dealt(t: Fighter, dmg: nat): nat
  {
    if Softened(t, dmg) >= t.hp then t.hp else Softened(t, dmg)
  }

  predicate Kills(t: Fighter, dmg: nat) { t.hp == Dealt(t, dmg) }

  /** The target after a hit. */
  function Struck(t: Fighter, dmg: nat): Fighter
  {
    var spent := t.block - BLOCK_COST;
    var block := if t.Blocking() then (if spent < 0.0 then 0.0 else spent) else t.block;
    if Kills(t, dmg) then
      t.(block := block, hp := 0, deaths := t.deaths + 1, deadTicks := RESPAWN_TICKS, justDied := true)
    else
      t.(block := block, hp := t.hp - Dealt(t, dmg))
  }

  function StrikeOf(shooter: Uid, target: Uid, t: Fighter, dmg: nat): Strike
  {
    Strike(HitEvent(shooter, target, Dealt(t, dmg)), t.Blocking(), Kills(t, dmg))
  }

  function Credited(s: Fighter, kill: bool): Fighter
  {
    if kill then s.(score := s.score + 1) else s
  }

  /** `hit` for two different players. */
  function Hit(fs: Fighters, shooter: Uid, target: Uid, dmg: nat): (r: Fighters)
    requires shooter in fs && target in fs
    ensures r.Keys == fs.Keys
  {
    var t := fs[target];
    var fs1 := fs[target := Struck(t, dmg)];
    fs1[shooter := Credited(fs1[shooter], Kills(t, dmg))]
  }

  predicate CanBeHit(fs: Fighters, shooter: Uid, u: Uid) { u in fs && u != shooter && !fs[u].Dead() }

  predicate Targets(fs: Fighters, shooter: Uid, targets: seq<Uid>)
  {
    && shooter in fs
    && (forall i :: 0 <= i < |targets| ==> CanBeHit(fs, shooter, targets[i]))
  }

  /** Hits delivered one after the other. */
  ghost function StrikeAll(fs: Fighters, shooter: Uid, targets: seq<Uid>, dmg: nat): (v: Volley)
    requires Targets(fs, shooter, targets)
    ensures v.fighters.Keys == fs.Keys && |v.strikes| == |targets|
  {
    if targets == [] then Volley(fs, [])
    else
      var last := targets[|targets| - 1];
      var v := StrikeAll(fs, shooter, targets[..|targets| - 1], dmg);
      Volley(Hit(v.fighters, shooter, last, dmg),
             v.strikes + [StrikeOf(shooter, last, v.fighters[last], dmg)])
  }

  // ----- Choosing targets -----

  function DirFromAngles(m: Maths, yaw: real, pitch: real): Vec
  {
    var cp := m.cosDeg(pitch);
    Vec(cp * m.sinDeg(yaw), m.sinDeg(pitch), cp * m.cosDeg(yaw))
  }

  /** The first of the least-cost eligible players in visiting order. */
  ghost function FirstLeast(order: seq<Uid>, eligible: Uid -> bool, cost: Uid -> real): Option<Uid>
  {
    if order == [] then None
    else
      var last := order[|order| - 1];
      var best := FirstLeast(order[..|order| - 1], eligible, cost);
      if eligible(last) && (best.None? || cost(last) < cost(best.value)) then Some(last) else best
  }

  /** Distance along the aim ray at which the ball around `p` is entered, as `raySphere` returns it. */
  function ShotDistance(w: World, s: Fighter, p: Fighter): real
  {
    RaySphere(w.maths, s.Eye(), DirFromAngles(w.maths, s.aimX, s.aimY), p.Body(), PLAYER_RADIUS)
  }

  ghost predicate InSights(w: World, fs: Fighters, shooter: Uid, u: Uid)
    requires shooter in fs
  {
    CanBeHit(fs, shooter, u) && 0.0 < ShotDistance(w, fs[shooter], fs[u]) <= GUN_RANGE
  }

  ghost function ShotTargets(w: World, fs: Fighters, shooter: Uid, order: seq<Uid>): (ts: seq<Uid>)
    requires shooter in fs
    ensures Targets(fs, shooter, ts)
  {
    var best := FirstLeast(order, Sights(w, fs, shooter), ShotCost(w, fs, shooter));
    FirstLeastIsLeast(order, Sights(w, fs, shooter), ShotCost(w, fs, shooter));
    var wallT := WallDistance(w, fs[shooter]);
    if best.None? || (wallT > 0.0 && wallT < ShotCost(w, fs, shooter)(best.value)) then [] else [best.value]
  }

  ghost function Sights(w: World, fs: Fighters, shooter: Uid): Uid -> bool
    requires shooter in fs
  {
    (u: Uid) => InSights(w, fs, shooter, u)
  }

  ghost function ShotCost(w: World, fs: Fighters, shooter: Uid): Uid -> real
    requires shooter in fs
  {
    (u: Uid) => if u in fs then ShotDistance(w, fs[shooter], fs[u]) else 0.0
  }

  ghost function WallDistance(w: World, s: Fighter): real
  {
    NearestWall(s.Eye(), Snap(DirFromAngles(w.maths, s.aimX, s.aimY)), w.walls)
  }

  /** The reach test shared by the sword and the dash. At horizontal distance zero the code divides
      0 by 0; the comparison with the not-a-number result is false, so the player counts as in the arc. */
  predicate InSwing(m: Maths, from: Vec, yaw: real, at: Vec, reach: real, arc: real)
  {
    && WithinReach(m, at.x - from.x, at.z - from.z, reach)
    && Abs(at.y - from.y) <= REACH_HEIGHT
    && WithinArc(m, at.x - from.x, at.z - from.z, yaw, arc)
  }

  predicate WithinReach(m: Maths, ex: real, ez: real, reach: real) { m.sqrt(ex * ex + ez * ez) <= reach }

  predicate WithinArc(m: Maths, ex: real, ez: real, yaw: real, arc: real)
  {
    var dist := m.sqrt(ex * ex + ez * ez);
    dist == 0.0 || (ex * m.sinDeg(yaw) + ez * m.cosDeg(yaw)) / dist >= m.cosDeg(arc)
  }

  ghost predicate CanBeSwungAt(m: Maths, fs: Fighters, shooter: Uid, reach: real, arc: real, u: Uid)
    requires shooter in fs
  {
    CanBeHit(fs, shooter, u) && InSwing(m, fs[shooter].pos, fs[shooter].yaw, fs[u].pos, reach, arc)
  }

  /** The players a swing reaches, in visiting order. */
  ghost function SwingTargets(m: Maths, fs: Fighters, shooter: Uid, reach: real, arc: real, order: seq<Uid>): (ts: seq<Uid>)
    requires shooter in fs
    ensures Targets(fs, shooter, ts)
    ensures forall u :: u in ts <==> u in order && CanBeSwungAt(m, fs, shooter, reach, arc, u)
  {
    if order == [] then []
    else
      var last := order[|order| - 1];
      var ts := SwingTargets(m, fs, shooter, reach, arc, order[..|order| - 1]);
      assert order == order[..|order| - 1] + [last];
      if CanBeSwungAt(m, fs, shooter, reach, arc, last) then ts + [last] else ts
  }

  function LockDistance(m: Maths, s: Fighter, p: Fighter): real
  {
    var e := Sub(p.Body(), s.pos);
    m.sqrt(Dot(e, e))
  }

  /** The lock cone. At distance zero the quotient is not a number and the test fails. */
  predicate InCone(m: Maths, s: Fighter, p: Fighter)
  {
    var d := LockDistance(m, s, p);
    && d <= LOCK_RANGE
    && d != 0.0
    && Dot(Sub(p.Body(), s.pos), DirFromAngles(m, s.aimX, s.aimY)) / d >= m.cosDeg(LOCK_ARC)
  }

  ghost predicate CanBeLocked(m: Maths, fs: Fighters, shooter: Uid, u: Uid)
    requires shooter in fs
  {
    CanBeHit(fs, shooter, u) && InCone(m, fs[shooter], fs[u])
  }

  ghost function LockTargets(m: Maths, fs: Fighters, shooter: Uid, order: seq<Uid>): (ts: seq<Uid>)
    requires shooter in fs
    ensures Targets(fs, shooter, ts)
  {
    var best := FirstLeast(order, Cone(m, fs, shooter), LockCost(m, fs, shooter));
    FirstLeastIsLeast(order, Cone(m, fs, shooter), LockCost(m, fs, shooter));
    if best.None? then [] else [best.value]
  }

  ghost function Cone(m: Maths, fs: Fighters, shooter: Uid): Uid -> bool
    requires shooter in fs
  {
    (u: Uid) => CanBeLocked(m, fs, shooter, u)
  }

  ghost function LockCost(m: Maths, fs: Fighters, shooter: Uid): Uid -> real
    requires shooter in fs
  {
    (u: Uid) => if u in fs then LockDistance(m, fs[shooter], fs[u]) else 0.0
  }

  lemma {:induction false} FirstLeastIsLeast(order: seq<Uid>, eligible: Uid -> bool, cost: Uid -> real)
    ensures var b := FirstLeast(order, eligible, cost);
            && (b.None? <==> forall u :: u in order ==> !eligible(u))
            && (b.Some? ==> b.value in order && eligible(b.value) &&
                            forall u :: u in order && eligible(u) ==> cost(b.value) <= cost(u))
  {
    if order != [] {
      FirstLeastIsLeast(order[..|order| - 1], eligible, cost);
      assert order == order[..|order| - 1] + [order[|order| - 1]];
    }
  }

  /** `b` is the first of the eligible players that cost least, or there is none. */
  ghost predicate IsFirstLeast(order: seq<Uid>, eligible: Uid -> bool, cost: Uid -> real, b: Option<Uid>)
  {
    match b
    case None => forall i :: 0 <= i < |order| ==> !eligible(order[i])
    case Some(u) => exists i :: FirstLeastAt(order, eligible, cost, i) && order[i] == u
  }

  /** The player at `i` is eligible, nobody eligible costs less, and everybody eligible before it costs more. */
  ghost predicate FirstLeastAt(order: seq<Uid>, eligible: Uid -> bool, cost: Uid -> real, i: int)
  {
    && 0 <= i < |order| && eligible(order[i])
    && (forall j :: 0 <= j < |order| && eligible(order[j]) ==> cost(order[i]) <= cost(order[j]))
    && (forall j :: 0 <= j < i && eligible(order[j]) ==> cost(order[i]) < cost(order[j]))
  }

  lemma {:induction false} FirstLeastIsFirst(order: seq<Uid>, eligible: Uid -> bool, cost: Uid -> real)
    ensures IsFirstLeast(order, eligible, cost, FirstLeast(order, eligible, cost))
  {
    if order != [] {
      var n := |order| - 1;
      var init := order[..n];
      FirstLeastIsFirst(init, eligible, cost);
      var best := FirstLeast(init, eligible, cost);
      if eligible(order[n]) && (best.None? || cost(order[n]) < cost(best.value)) {
        forall j | 0 <= j < n && eligible(order[j]) ensures cost(order[n]) < cost(order[j]) {
          assert init[j] == order[j];
        }
        assert FirstLeastAt(order, eligible, cost, n);
      } else if best.Some? {
        var i :| FirstLeastAt(init, eligible, cost, i) && init[i] == best.value;
        forall j | 0 <= j < n && eligible(order[j])
          ensures cost(order[i]) <= cost(order[j]) && (j < i ==> cost(order[i]) < cost(order[j])) {
          assert init[j] == order[j];
        }
        assert FirstLeastAt(order, eligible, cost, i);
      } else {
        forall j | 0 <= j < |order| ensures !eligible(order[j]) {
          if j < n { assert init[j] == order[j]; }
        }
      }
    }
  }

  // ----- The weapons -----

  ghost function ApplyShot(w: World, fs: Fighters, u: Uid, order: seq<Uid>): (v: Volley)
    requires u in fs
    ensures v.fighters.Keys == fs.Keys
  {
    if fs[u].Dead() || fs[u].fireCd > 0 then Volley(fs, [])
    else
      var ready := fs[u := fs[u].(fireCd := FIRE_COOLDOWN)];
      StrikeAll(ready, u, ShotTargets(w, ready, u, order), GUN_DAMAGE)
  }

  ghost function ApplySword(w: World, fs: Fighters, u: Uid, order: seq<Uid>): (v: Volley)
    requires u in fs
    ensures v.fighters.Keys == fs.Keys
  {
    if fs[u].Dead() || fs[u].swordCd > 0 then Volley(fs, [])
    else
      var ready := fs[u := fs[u].(swordCd := SWORD_COOLDOWN)];
      StrikeAll(ready, u, SwingTargets(w.maths, ready, u, SWORD_RANGE, SWORD_ARC, order), SWORD_DAMAGE)
  }

  ghost function ApplyDash(w: World, fs: Fighters, u: Uid, order: seq<Uid>): (v: Volley)
    requires u in fs
    ensures v.fighters.Keys == fs.Keys
  {
    if fs[u].Dead() || fs[u].dashCd > 0 then Volley(fs, [])
    else
      var ready := fs[u := fs[u].(dashCd := DASH_COOLDOWN)];
      StrikeAll(ready, u, SwingTargets(w.maths, ready, u, DASH_RANGE, DASH_ARC, order), DASH_DAMAGE)
  }

  ghost function ApplyLock(w: World, fs: Fighters, u: Uid, order: seq<Uid>): (v: Volley)
    requires u in fs
    ensures v.fighters.Keys == fs.Keys
  {
    if fs[u].Dead() || fs[u].lockCharges == 0 || fs[u].lockCd > 0 then Volley(fs, [])
    else
      var ready := fs[u := fs[u].(lockCharges := fs[u].lockCharges - 1, lockCd := LOCK_COOLDOWN)];
      StrikeAll(ready, u, LockTargets(w.maths, ready, u, order), LOCK_DAMAGE)
  }

  datatype Weapon = Gun | Sword | Dash | Lock

  /** At most one of gun, sword and dash, in that precedence. */
  ghost function MainAttack(w: World, fs: Fighters, u: Uid, buttons: Byte, order: seq<Uid>): (v: Volley)
    requires u in fs
    ensures v.fighters.Keys == fs.Keys
  {
    if Bit(buttons, BTN_FIRE) then ApplyShot(w, fs, u, order)
    else if Bit(buttons, BTN_SWORD) then ApplySword(w, fs, u, order)
    else if Bit(buttons, BTN_DASH) then ApplyDash(w, fs, u, order)
    else Volley(fs, [])
  }

  /** The weapon actions of one accepted report: the main attack, then the lock shot. */
  ghost function Attack(w: World, fs: Fighters, u: Uid, buttons: Byte, order: seq<Uid>, lockOrder: seq<Uid>): (v: Volley)
    requires u in fs
    ensures v.fighters.Keys == fs.Keys
  {
    var v := MainAttack(w, fs, u, buttons, order);
    if Bit(buttons, BTN_LOCK) then
      var l := ApplyLock(w, v.fighters, u, lockOrder);
      Volley(l.fighters, v.strikes + l.strikes)
    else v
  }

  // ----- One tick -----

  function CountDown(n: nat): nat { if n > 0 then n - 1 else 0 }

  /** `TickCombat` for one player: cooldowns, lock charge, respawn at `spawn`. */
  function Ticked(f: Fighter, spawn: Vec): Fighter
  {
    var charged :=
      if f.lockCharges < LOCK_MAX_CHARGES then
        if f.lockTimer + 1 >= LOCK_CHARGE_TICKS then f.(lockTimer := 0, lockCharges := f.lockCharges + 1)
        else f.(lockTimer := f.lockTimer + 1)
      else f;
    var cooled := charged.(fireCd := CountDown(f.fireCd), lockCd := CountDown(f.lockCd),
                           swordCd := CountDown(f.swordCd), dashCd := CountDown(f.dashCd),
                           deadTicks := CountDown(f.deadTicks));
    if f.deadTicks == 1 then
      cooled.(hp := MAX_HP, block := f.blockMax, pos := spawn, firstReport := true)
    else cooled
  }
}
