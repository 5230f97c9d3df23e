/** The room as the program runs it: mutable player objects in a table, the combat resolver that writes
    to them, and the loop's handlers. Every method is proved to do what the step functions say. */
module RoomObjects {
  import opened Base
  import opened Bytes
  import opened Geometry
  import opened Combat
  import opened CombatProofs
  import opened Validation
  import opened RoomModel
  import opened VitalSigns
  import opened RoomInvariant

  class Player {
    const uid: Uid
    var pos: Vec
    var yaw: real
    var hp: nat
    var weapon: Byte
    var alt: Byte
    var block: real
    var blockMax: real
    var anim: Byte
    var lastReport: int
    var suspicious: nat
    var firstReport: bool
    var online: bool
    var offlineTicks: nat
    var score: nat
    var deaths: nat
    var aimX: real
    var aimY: real
    var buttons: Byte
    var fireCd: nat
    var deadTicks: nat
    var justDied: bool
    var lockCharges: nat
    var lockTimer: nat
    var lockCd: nat
    var swordCd: nat
    var dashCd: nat

    /** The game state of the player as a value. */
    function View(): Fighter
      reads this
    {
      Fighter(pos, yaw, hp, weapon, alt, block, blockMax, anim, lastReport, suspicious, firstReport, score, deaths,
              aimX, aimY, buttons, fireCd, deadTicks, justDied, lockCharges, lockTimer, lockCd, swordCd, dashCd)
    }

    /** The connection state of the player as a value. */
    function LinkView(): Link
      reads this
    {
      Link(online, offlineTicks)
    }

    constructor (uid: Uid, at: Vec, tick: int)
      ensures this.uid == uid && View() == Newcomer(at, tick) && LinkView() == Link(true, 0)
    {
      this.uid := uid;
      pos, yaw, hp := at, 0.0, 100;
      weapon, alt, anim := 0, 0, 0;
      block, blockMax := BASE_BLOCK_MAX, BASE_BLOCK_MAX;
      lastReport, suspicious, firstReport := tick, 0, true;
      online, offlineTicks := true, 0;
      score, deaths, deadTicks, justDied := 0, 0, 0, false;
      aimX, aimY, buttons := 0.0, 0.0, 0;
      fireCd, swordCd, dashCd, lockCd := 0, 0, 0, 0;
      lockCharges, lockTimer := 0, 0;
    }

    method MarkViolation(ok: bool)
      modifies this`suspicious
      ensures View() == Validation.MarkViolation(old(View()), ok) && LinkView() == old(LinkView())
    {
      if ok {
        suspicious := 0;
      } else {
        suspicious := suspicious + 1;
      }
    }

    method ApplyInput(report: InputReport)
      requires report.AllFinite()
      modifies this`pos, this`yaw, this`firstReport
      ensures View() == old(View()).(pos := report.Pos(), yaw := report.yaw.v, firstReport := false)
      ensures LinkView() == old(LinkView())
    {
      pos := Vec(report.x.v, report.y.v, report.z.v);
      yaw := report.yaw.v;
      firstReport := false;
    }

    method CoolDown()
      modifies this`fireCd, this`lockCd, this`swordCd, this`dashCd
      ensures View() == old(View()).(fireCd := CountDown(old(fireCd)), lockCd := CountDown(old(lockCd)),
                                     swordCd := CountDown(old(swordCd)), dashCd := CountDown(old(dashCd)))
    {
      if fireCd > 0 { fireCd := fireCd - 1; }
      if lockCd > 0 { lockCd := lockCd - 1; }
      if swordCd > 0 { swordCd := swordCd - 1; }
      if dashCd > 0 { dashCd := dashCd - 1; }
    }

    method Charge()
      modifies this`lockTimer, this`lockCharges
      ensures var full := old(lockTimer) + 1 >= LOCK_CHARGE_TICKS;
              View() == if old(lockCharges) >= LOCK_MAX_CHARGES then old(View())
                        else old(View()).(lockTimer := if full then 0 else old(lockTimer) + 1,
                                          lockCharges := if full then old(lockCharges) + 1 else old(lockCharges))
    {
      if lockCharges < LOCK_MAX_CHARGES {
        lockTimer := lockTimer + 1;
        if lockTimer >= LOCK_CHARGE_TICKS {
          lockTimer := 0;
          lockCharges := lockCharges + 1;
        }
      }
    }

    method Recover(spawn: Vec)
      modifies this`deadTicks, this`hp, this`block, this`pos, this`firstReport
      ensures View() == if old(deadTicks) == 1 then
                          old(View()).(deadTicks := 0, hp := MAX_HP, block := blockMax, pos := spawn, firstReport := true)
                        else old(View()).(deadTicks := CountDown(old(deadTicks)))
    {
      if deadTicks > 0 {
        deadTicks := deadTicks - 1;
        if deadTicks == 0 {
          hp := 100;
          block := blockMax;
          pos := spawn;
          firstReport := true;
        }
      }
    }

    /** One player's share of `TickCombat`. */
    method Tick(spawn: Vec)
      modifies this
      ensures View() == Ticked(old(View()), spawn) && LinkView() == old(LinkView())
    {
      CoolDown();
      Charge();
      Recover(spawn);
    }

    /** The block stance halves the damage and costs block. */
    method Soften(dmg: nat) returns (damage: nat)
      modifies this`block
      ensures damage == Softened(old(View()), dmg)
      ensures var spent := old(block) - BLOCK_COST;
              View() == if old(View()).Blocking() then old(View()).(block := if spent < 0.0 then 0.0 else spent) else old(View())
    {
      damage := dmg;
      if Bit(buttons, BTN_BLOCK) && block >= BLOCK_MIN {
        damage := dmg / 2;
        var spent := block - BLOCK_COST;
        block := if spent < 0.0 then 0.0 else spent;
      }
    }

    /** Takes damage off the health, without going below zero. */
    method Suffer(damage: nat) returns (dealt: nat)
      modifies this`hp
      ensures dealt == (if damage >= old(hp) then old(hp) else damage)
      ensures View() == old(View()).(hp := old(hp) - dealt)
    {
      dealt := damage;
      if damage >= hp {
        dealt := hp;
        hp := 0;
      } else {
        hp := hp - damage;
      }
    }

    method Die()
      modifies this`deaths, this`deadTicks, this`justDied
      ensures View() == old(View()).(deaths := old(deaths) + 1, deadTicks := RESPAWN_TICKS, justDied := true)
    {
      deaths := deaths + 1;
      deadTicks := RESPAWN_TICKS;
      justDied := true;
    }

    method RecordAim(report: InputReport)
      requires report.AllFinite()
      modifies this`aimX, this`aimY
      ensures View() == old(View()).(aimX := report.aimX.v, aimY := report.aimY.v)
      ensures LinkView() == old(LinkView())
    {
      aimX, aimY := report.aimX.v, report.aimY.v;
    }

    /** Records what a report says about buttons and appearance. */
    method RecordLook(report: InputReport)
      modifies this`buttons, this`weapon, this`anim
      ensures View() == old(View()).(buttons := report.buttons, weapon := report.weapon, anim := report.anim)
      ensures LinkView() == old(LinkView())
    {
      buttons, weapon, anim := report.buttons, report.weapon, report.anim;
    }

    method Stamp(tick: int)
      modifies this`lastReport
      ensures View() == old(View()).(lastReport := tick) && LinkView() == old(LinkView())
    {
      lastReport := tick;
    }

    method Age()
      modifies this`offlineTicks
      ensures LinkView() == Link(online, old(offlineTicks) + 1) && View() == old(View())
    {
      offlineTicks := offlineTicks + 1;
    }

    method ClearDeath()
      modifies this`justDied
      ensures View() == old(View()).(justDied := false) && LinkView() == old(LinkView())
    {
      justDied := false;
    }

    method SetOnline(online: bool)
      modifies this`online, this`offlineTicks
      ensures LinkView() == Link(online, 0) && View() == old(View())
    {
      this.online := online;
      offlineTicks := 0;
    }

    method Refit(max: real)
      modifies this`blockMax, this`block
      ensures View() == old(View()).(blockMax := max, block := max) && LinkView() == old(LinkView())
    {
      blockMax := max;
      block := blockMax;
    }

    method StartGun()
      modifies this`fireCd
      ensures View() == old(View()).(fireCd := FIRE_COOLDOWN) && LinkView() == old(LinkView())
    {
      fireCd := FIRE_COOLDOWN;
    }

    method StartSword()
      modifies this`swordCd
      ensures View() == old(View()).(swordCd := SWORD_COOLDOWN) && LinkView() == old(LinkView())
    {
      swordCd := SWORD_COOLDOWN;
    }

    method StartDash()
      modifies this`dashCd
      ensures View() == old(View()).(dashCd := DASH_COOLDOWN) && LinkView() == old(LinkView())
    {
      dashCd := DASH_COOLDOWN;
    }

    method SpendCharge()
      requires lockCharges > 0
      modifies this`lockCharges, this`lockCd
      ensures View() == old(View()).(lockCharges := old(lockCharges) - 1, lockCd := LOCK_COOLDOWN)
      ensures LinkView() == old(LinkView())
    {
      lockCharges := lockCharges - 1;
      lockCd := LOCK_COOLDOWN;
    }

    method Credit()
      modifies this`score
      ensures View() == old(View()).(score := old(score) + 1)
    {
      score := score + 1;
    }
  }

  /** A player table: each player is filed under its own id, so different ids hold different objects. */
  ghost predicate IsTable(players: map<Uid, Player>)
  {
    forall u :: u in players ==> players[u].uid == u
  }

  ghost function FightersOf(players: map<Uid, Player>): (fs: Fighters)
    reads players.Values
    ensures fs.Keys == players.Keys
  {
    map u | u in players :: players[u].View()
  }

  ghost function LinksOf(players: map<Uid, Player>): (ls: Links)
    reads players.Values
    ensures ls.Keys == players.Keys
  {
    map u | u in players :: players[u].LinkView()
  }

  lemma ViewFields(p: Player)
    ensures var f := p.View();
            && f.deadTicks == p.deadTicks && f.fireCd == p.fireCd && f.swordCd == p.swordCd && f.dashCd == p.dashCd
            && f.lockCd == p.lockCd && f.lockCharges == p.lockCharges
  {
  }

  ghost predicate Visiting(order: seq<Uid>, todo: set<Uid>, keys: set<Uid>)
  {
    && NoDuplicates(order)
    && (forall u :: u in keys <==> u in order || u in todo)
    && (forall u :: u in todo ==> u !in order)
  }

  lemma VisitNext(order: seq<Uid>, todo: set<Uid>, keys: set<Uid>, u: Uid)
    requires Visiting(order, todo, keys) && u in todo
    ensures Visiting(order + [u], todo - {u}, keys)
    ensures (order + [u])[..|order + [u]| - 1] == order && (order + [u])[|order + [u]| - 1] == u
  {
    var next := order + [u];
    forall x ensures x in keys <==> x in next || x in todo - {u} {
      assert x in next <==> x in order || x == u;
    }
    forall i, j | 0 <= i < j < |next| ensures next[i] != next[j] {
      if j == |order| { assert next[i] in order; }
    }
  }

  lemma EveryEntry(players: map<Uid, Player>)
    ensures FightersOf(players).Keys == LinksOf(players).Keys == players.Keys
    ensures forall v :: v in players ==> FightersOf(players)[v] == players[v].View()
    ensures forall v :: v in players ==> LinksOf(players)[v] == players[v].LinkView()
  {
  }

  lemma EveryTicked(fs: Fighters, spawn: Uid -> Vec)
    ensures TickedAll(fs, spawn).Keys == fs.Keys
    ensures forall v :: v in fs ==> TickedAll(fs, spawn)[v] == Ticked(fs[v], spawn(v))
  {
  }

  /** A table that agrees with `fs` and `ls` except at one player. */
  lemma OneEntry(players: map<Uid, Player>, u: Uid, fs: Fighters, ls: Links)
    requires u in players && fs.Keys == ls.Keys == players.Keys
    requires forall v :: v in players && v != u ==> players[v].View() == fs[v] && players[v].LinkView() == ls[v]
    ensures FightersOf(players) == fs[u := players[u].View()]
    ensures LinksOf(players) == ls[u := players[u].LinkView()]
  {
    hide Player.View, Player.LinkView;
  }

  /** The combat resolver of a room. The player table it shares with the room is passed in. */
  class Resolver {
    const world: World

    constructor (world: World)
      ensures this.world == world
    {
      this.world := world;
    }

    /** Settles one hit: block, health, death, score. */
    method Hit(shooter: Player, target: Player, dmg: nat) returns (ev: HitEvent)
      requires shooter != target
      modifies shooter, target
      ensures target.View() == Struck(old(target.View()), dmg) && target.LinkView() == old(target.LinkView())
      ensures shooter.View() == Credited(old(shooter.View()), Kills(old(target.View()), dmg))
      ensures shooter.LinkView() == old(shooter.LinkView())
      ensures ev == StrikeOf(shooter.uid, target.uid, old(target.View()), dmg).ev
    {
      var damage := target.Soften(dmg);
      damage := target.Suffer(damage);
      if target.hp == 0 {
        shooter.Credit();
        target.Die();
      }
      ev := HitEvent(shooter.uid, target.uid, damage);
    }

    /** A hit on a player of the table. */
    method HitPlayer(players: map<Uid, Player>, shooter: Player, target: Player, dmg: nat) returns (ev: HitEvent)
      requires IsTable(players) && shooter in players.Values && target in players.Values && shooter != target
      modifies shooter, target
      ensures shooter.uid in players && target.uid in players
      ensures FightersOf(players) == Combat.Hit(old(FightersOf(players)), shooter.uid, target.uid, dmg)
      ensures LinksOf(players) == old(LinksOf(players))
      ensures ev == StrikeOf(shooter.uid, target.uid, old(FightersOf(players))[target.uid], dmg).ev
    {
      ghost var a, b := shooter.uid, target.uid;
      assert players[a] == shooter && players[b] == target;
      ghost var fs, ls := FightersOf(players), LinksOf(players);
      ev := Hit(shooter, target, dmg);
      hide Struck, Credited, Kills, Player.View, Player.LinkView;
      forall u | u in players
        ensures FightersOf(players)[u] == Combat.Hit(fs, a, b, dmg)[u] && LinksOf(players)[u] == ls[u] {
        HitAt(fs, a, b, dmg, u);
        if u != a && u != b {
          assert players[u] != shooter && players[u] != target;
        }
      }
    }

    /** The nearest living player on the line of fire, if any, and its distance. */
    method Aim(players: map<Uid, Player>, shooter: Player) returns (best: Option<Player>, bestT: real, ghost order: seq<Uid>)
      requires IsTable(players) && shooter in players.Values
      ensures shooter.uid in players && players[shooter.uid] == shooter
      ensures Enumerates(order, players.Keys)
      ensures var fs := FightersOf(players);
              Chosen(players, best, bestT, FirstLeast(order, Sights(world, fs, shooter.uid), ShotCost(world, fs, shooter.uid)),
                     ShotCost(world, fs, shooter.uid))
      ensures var fs := FightersOf(players);
              Nearest(players, best, Sights(world, fs, shooter.uid), ShotCost(world, fs, shooter.uid))
    {
      best, bestT, order := None, -1.0, [];
      ghost var fs := FightersOf(players);
      ghost var u := shooter.uid;
      ghost var sights, cost := Sights(world, fs, u), ShotCost(world, fs, u);
      var o := shooter.View().Eye();
      var d := DirFromAngles(world.maths, shooter.aimX, shooter.aimY);
      var todo := players.Keys;
      while todo != {}
        invariant Visiting(order, todo, players.Keys)
        invariant Chosen(players, best, bestT, FirstLeast(order, sights, cost), cost)
        invariant best.Some? ==> bestT > 0.0
      {
        var next :| next in todo;
        var p := players[next];
        VisitNext(order, todo, players.Keys, next);
        FirstLeastNext(order, next, sights, cost);
        SightsAt(world, fs, u, next);
        todo := todo - {next};
        order := order + [next];
        if p == shooter || p.deadTicks > 0 {
          continue;
        }
        var t := RaySphere(world.maths, o, d, p.View().Body(), PLAYER_RADIUS);
        if t > 0.0 && t <= GUN_RANGE && (bestT < 0.0 || t < bestT) {
          bestT := t;
          best := Some(p);
        }
      }
      FirstLeastIsLeast(order, sights, cost);
    }

    /** Distance to the nearest wall on the line of fire, or -1. */
    method WallAhead(shooter: Player) returns (t: real)
      requires world.Valid()
      ensures t == WallDistance(world, shooter.View())
    {
      t := RaycastWalls(world.walls, shooter.View().Eye(), DirFromAngles(world.maths, shooter.aimX, shooter.aimY));
    }

    /** The shot itself: wall distance, nearest player, hit. */
    method Fire(players: map<Uid, Player>, shooter: Player) returns (events: seq<HitEvent>, ghost order: seq<Uid>)
      requires IsTable(players) && shooter in players.Values && world.Valid()
      modifies players.Values
      ensures shooter.uid in players && Enumerates(order, players.Keys)
      ensures var fs := old(FightersOf(players));
              var v := StrikeAll(fs, shooter.uid, ShotTargets(world, fs, shooter.uid, order), GUN_DAMAGE);
              FightersOf(players) == v.fighters && events == Events(v.strikes)
      ensures LinksOf(players) == old(LinksOf(players))
    {
      hide Nearest, Sights, ShotCost, ShotTargets, WallDistance, StrikeAll, Combat.Hit, StrikeOf, FirstLeast, Player.View, Player.LinkView;
      ghost var u, fs := shooter.uid, FightersOf(players);
      NoHit(fs, u, GUN_DAMAGE);
      var wallT := WallAhead(shooter);
      var best: Option<Player>, bestT: real;
      best, bestT, order := Aim(players, shooter);
      assert fs[u] == shooter.View();
      ShotTargetsAre(world, fs, u, order);
      if best.None? || (wallT > 0.0 && wallT < bestT) {
        return [], order;
      }
      OneHit(fs, u, best.value.uid, GUN_DAMAGE);
      var ev := HitPlayer(players, shooter, best.value, GUN_DAMAGE);
      events := [ev];
    }

    method ApplyShot(players: map<Uid, Player>, shooter: Player) returns (events: seq<HitEvent>, ghost order: seq<Uid>)
      requires IsTable(players) && shooter in players.Values && world.Valid()
      modifies players.Values
      ensures shooter.uid in players && Enumerates(order, players.Keys)
      ensures var v := Combat.ApplyShot(world, old(FightersOf(players)), shooter.uid, order);
              FightersOf(players) == v.fighters && events == Events(v.strikes)
      ensures LinksOf(players) == old(LinksOf(players))
    {
      hide ShotTargets, StrikeAll, Player.View, Player.LinkView;
      ViewFields(shooter);
      ghost var u, fs, ls := shooter.uid, FightersOf(players), LinksOf(players);
      assert players[u] == shooter && fs[u] == shooter.View();
      if shooter.deadTicks > 0 || shooter.fireCd > 0 {
        order := AnyOrder(players.Keys);
        return [], order;
      }
      shooter.StartGun();
      OneEntry(players, u, fs, ls);
      events, order := Fire(players, shooter);
    }

    /** Everybody in reach of a swing is hit, in visiting order. The reach test reads the table while the
        hits write to it; that is harmless because a hit does not move anybody and kills only its target. */
    method Swing(players: map<Uid, Player>, shooter: Player, reach: real, arc: real, dmg: nat)
      returns (events: seq<HitEvent>, ghost order: seq<Uid>)
      requires IsTable(players) && shooter in players.Values
      modifies players.Values
      ensures shooter.uid in players && Enumerates(order, players.Keys)
      ensures var fs := old(FightersOf(players));
              var v := StrikeAll(fs, shooter.uid, SwingTargets(world.maths, fs, shooter.uid, reach, arc, order), dmg);
              FightersOf(players) == v.fighters && events == Events(v.strikes)
      ensures LinksOf(players) == old(LinksOf(players))
    {
      hide StrikeAll, Combat.Hit, StrikeOf, InSwing, Events, Struck;
      events, order := [], [];
      ghost var u, fs, ls := shooter.uid, FightersOf(players), LinksOf(players);
      ghost var ts: seq<Uid> := [];
      NoHit(fs, u, dmg);
      var todo := players.Keys;
      while todo != {}
        invariant Visiting(order, todo, players.Keys)
        invariant ts == SwingTargets(world.maths, fs, u, reach, arc, order) && NoDuplicates(ts)
        invariant Targets(fs, u, ts) && FightersOf(players) == StrikeAll(fs, u, ts, dmg).fighters
        invariant events == Events(StrikeAll(fs, u, ts, dmg).strikes)
        invariant LinksOf(players) == ls
      {
        var next :| next in todo;
        var p := players[next];
        VisitNext(order, todo, players.Keys, next);
        SwingNext(world.maths, fs, u, reach, arc, dmg, order, next);
        todo := todo - {next};
        order := order + [next];
        assert FightersOf(players)[next] == p.View() && FightersOf(players)[u] == shooter.View();
        if p == shooter || p.deadTicks > 0 {
          continue;
        }
        if InSwing(world.maths, shooter.pos, shooter.yaw, p.pos, reach, arc) {
          var ev := HitPlayer(players, shooter, p, dmg);
          events := events + [ev];
          ts := ts + [next];
        }
      }
    }

    method ApplySword(players: map<Uid, Player>, shooter: Player) returns (events: seq<HitEvent>, ghost order: seq<Uid>)
      requires IsTable(players) && shooter in players.Values
      modifies players.Values
      ensures shooter.uid in players && Enumerates(order, players.Keys)
      ensures var v := Combat.ApplySword(world, old(FightersOf(players)), shooter.uid, order);
              FightersOf(players) == v.fighters && events == Events(v.strikes)
      ensures LinksOf(players) == old(LinksOf(players))
    {
      hide SwingTargets, StrikeAll, Player.View, Player.LinkView;
      ViewFields(shooter);
      ghost var u, fs, ls := shooter.uid, FightersOf(players), LinksOf(players);
      assert players[u] == shooter && fs[u] == shooter.View();
      if shooter.deadTicks > 0 || shooter.swordCd > 0 {
        order := AnyOrder(players.Keys);
        return [], order;
      }
      shooter.StartSword();
      OneEntry(players, u, fs, ls);
      events, order := Swing(players, shooter, SWORD_RANGE, SWORD_ARC, SWORD_DAMAGE);
    }

    method ApplyDash(players: map<Uid, Player>, shooter: Player) returns (events: seq<HitEvent>, ghost order: seq<Uid>)
      requires IsTable(players) && shooter in players.Values
      modifies players.Values
      ensures shooter.uid in players && Enumerates(order, players.Keys)
      ensures var v := Combat.ApplyDash(world, old(FightersOf(players)), shooter.uid, order);
              FightersOf(players) == v.fighters && events == Events(v.strikes)
      ensures LinksOf(players) == old(LinksOf(players))
    {
      hide SwingTargets, StrikeAll, Player.View, Player.LinkView;
      ViewFields(shooter);
      ghost var u, fs, ls := shooter.uid, FightersOf(players), LinksOf(players);
      assert players[u] == shooter && fs[u] == shooter.View();
      if shooter.deadTicks > 0 || shooter.dashCd > 0 {
        order := AnyOrder(players.Keys);
        return [], order;
      }
      shooter.StartDash();
      OneEntry(players, u, fs, ls);
      events, order := Swing(players, shooter, DASH_RANGE, DASH_ARC, DASH_DAMAGE);
    }

    /** The nearest living player in the lock cone, walls or not. */
    method LockOn(players: map<Uid, Player>, shooter: Player) returns (best: Option<Player>, ghost order: seq<Uid>)
      requires IsTable(players) && shooter in players.Values
      ensures shooter.uid in players && players[shooter.uid] == shooter
      ensures Enumerates(order, players.Keys)
      ensures var fs := FightersOf(players);
              var b := FirstLeast(order, Cone(world.maths, fs, shooter.uid), LockCost(world.maths, fs, shooter.uid));
              && (best.None? <==> b.None?)
              && (best.Some? ==> b.value in players && players[b.value] == best.value && best.value.uid == b.value)
      ensures var fs := FightersOf(players);
              Nearest(players, best, Cone(world.maths, fs, shooter.uid), LockCost(world.maths, fs, shooter.uid))
    {
      hide Cone, LockCost, InCone, FirstLeast, LockDistance, DirFromAngles, Dot, Sub, Player.LinkView;
      order := [];
      best := None;
      var bestDist := Unbounded;
      ghost var fs, u := FightersOf(players), shooter.uid;
      ghost var cone, cost := Cone(world.maths, fs, u), LockCost(world.maths, fs, u);
      NoLeast(cone, cost);
      var d := DirFromAngles(world.maths, shooter.aimX, shooter.aimY);
      var todo := players.Keys;
      while todo != {}
        invariant Visiting(order, todo, players.Keys)
        invariant best.None? <==> FirstLeast(order, cone, cost).None?
        invariant best.None? <==> bestDist.Unbounded?
        invariant best.Some? ==>
                    var b := FirstLeast(order, cone, cost).value;
                    b in players && players[b] == best.value && best.value.uid == b && bestDist == At(cost(b))
      {
        var next :| next in todo;
        var p := players[next];
        VisitNext(order, todo, players.Keys, next);
        LockVisit(world.maths, fs, u, order, next);
        todo := todo - {next};
        order := order + [next];
        if p == shooter || p.deadTicks > 0 {
          continue;
        }
        var dist := LockDistance(world.maths, shooter.View(), p.View());
        if dist <= LOCK_RANGE && (bestDist.Unbounded? || dist < bestDist.t) {
          if dist != 0.0 && Dot(Sub(p.View().Body(), shooter.pos), d) / dist >= world.maths.cosDeg(LOCK_ARC) {
            bestDist := At(dist);
            best := Some(p);
          }
        }
      }
      FirstLeastIsLeast(order, cone, cost);
    }

    /** The lock shot itself. */
    method Release(players: map<Uid, Player>, shooter: Player) returns (events: seq<HitEvent>, ghost order: seq<Uid>)
      requires IsTable(players) && shooter in players.Values
      modifies players.Values
      ensures shooter.uid in players && Enumerates(order, players.Keys)
      ensures var fs := old(FightersOf(players));
              var v := StrikeAll(fs, shooter.uid, LockTargets(world.maths, fs, shooter.uid, order), LOCK_DAMAGE);
              FightersOf(players) == v.fighters && events == Events(v.strikes)
      ensures LinksOf(players) == old(LinksOf(players))
    {
      hide Nearest, LockTargets, StrikeAll, Combat.Hit, StrikeOf, FirstLeast, Player.View, Player.LinkView;
      ghost var u, fs := shooter.uid, FightersOf(players);
      NoHit(fs, u, LOCK_DAMAGE);
      var best: Option<Player>;
      best, order := LockOn(players, shooter);
      LockTargetsAre(world.maths, fs, u, order);
      if best.None? {
        return [], order;
      }
      OneHit(fs, u, best.value.uid, LOCK_DAMAGE);
      var ev := HitPlayer(players, shooter, best.value, LOCK_DAMAGE);
      events := [ev];
    }

    method ApplyLock(players: map<Uid, Player>, shooter: Player) returns (events: seq<HitEvent>, ghost order: seq<Uid>)
      requires IsTable(players) && shooter in players.Values
      modifies players.Values
      ensures shooter.uid in players && Enumerates(order, players.Keys)
      ensures var v := Combat.ApplyLock(world, old(FightersOf(players)), shooter.uid, order);
              FightersOf(players) == v.fighters && events == Events(v.strikes)
      ensures LinksOf(players) == old(LinksOf(players))
    {
      hide LockTargets, StrikeAll, Player.View, Player.LinkView;
      ViewFields(shooter);
      ghost var u, fs, ls := shooter.uid, FightersOf(players), LinksOf(players);
      assert players[u] == shooter && fs[u] == shooter.View();
      if shooter.deadTicks > 0 || shooter.lockCharges == 0 || shooter.lockCd > 0 {
        order := AnyOrder(players.Keys);
        return [], order;
      }
      shooter.SpendCharge();
      OneEntry(players, u, fs, ls);
      events, order := Release(players, shooter);
    }

    /** Gun, sword or dash, in that precedence. */
    method MainAttack(players: map<Uid, Player>, shooter: Player, buttons: Byte)
      returns (events: seq<HitEvent>, ghost order: seq<Uid>)
      requires IsTable(players) && shooter in players.Values && world.Valid()
      modifies players.Values
      ensures shooter.uid in players && Enumerates(order, players.Keys)
      ensures var v := Combat.MainAttack(world, old(FightersOf(players)), shooter.uid, buttons, order);
              FightersOf(players) == v.fighters && events == Events(v.strikes)
      ensures LinksOf(players) == old(LinksOf(players))
    {
      hide Combat.ApplyShot, Combat.ApplySword, Combat.ApplyDash, FightersOf, LinksOf;
      assert players[shooter.uid] == shooter;
      events := [];
      if Bit(buttons, BTN_FIRE) {
        events, order := this.ApplyShot(players, shooter);
      } else if Bit(buttons, BTN_SWORD) {
        events, order := this.ApplySword(players, shooter);
      } else if Bit(buttons, BTN_DASH) {
        events, order := this.ApplyDash(players, shooter);
      } else {
        order := AnyOrder(players.Keys);
      }
    }

    /** The weapon actions of one accepted report. */
    method Attack(players: map<Uid, Player>, shooter: Player, buttons: Byte)
      returns (events: seq<HitEvent>, ghost order: seq<Uid>, ghost lockOrder: seq<Uid>)
      requires IsTable(players) && shooter in players.Values && world.Valid()
      modifies players.Values
      ensures shooter.uid in players && Enumerates(order, players.Keys) && Enumerates(lockOrder, players.Keys)
      ensures var v := Combat.Attack(world, old(FightersOf(players)), shooter.uid, buttons, order, lockOrder);
              FightersOf(players) == v.fighters && events == Events(v.strikes)
      ensures LinksOf(players) == old(LinksOf(players))
    {
      hide Combat.MainAttack, Combat.ApplyLock, FightersOf, LinksOf;
      events, order := this.MainAttack(players, shooter, buttons);
      if Bit(buttons, BTN_LOCK) {
        var more;
        more, lockOrder := this.ApplyLock(players, shooter);
        events := events + more;
      } else {
        lockOrder := order;
      }
    }

    method TickOne(players: map<Uid, Player>, u: Uid, spawn: Vec)
      requires IsTable(players) && u in players
      modifies players[u]
      ensures FightersOf(players) == old(FightersOf(players))[u := Ticked(old(FightersOf(players))[u], spawn)]
      ensures LinksOf(players) == old(LinksOf(players))
    {
      hide Ticked, FightersOf, LinksOf, Player.View, Player.LinkView;
      ghost var fs, ls := FightersOf(players), LinksOf(players);
      EveryEntry(players);
      players[u].Tick(spawn);
      OneEntry(players, u, fs, ls);
    }

    /** Cooldowns, charges and respawns of everybody. */
    method TickCombat(players: map<Uid, Player>, spawn: Uid -> Vec)
      requires IsTable(players)
      modifies players.Values
      ensures FightersOf(players) == TickedAll(old(FightersOf(players)), spawn)
      ensures LinksOf(players) == old(LinksOf(players))
    {
      hide Ticked, TickedAll, FightersOf, LinksOf, Player.View, Player.LinkView;
      ghost var fs, ls := FightersOf(players), LinksOf(players);
      var todo := players.Keys;
      while todo != {}
        invariant todo <= players.Keys
        invariant forall v :: v in players ==>
                    FightersOf(players)[v] == if v in todo then fs[v] else Ticked(fs[v], spawn(v))
        invariant LinksOf(players) == ls
      {
        var next :| next in todo;
        TickOne(players, next, spawn(next));
        todo := todo - {next};
      }
      EveryTicked(fs, spawn);
    }
  }

  lemma SwingNext(m: Maths, fs: Fighters, u: Uid, reach: real, arc: real, dmg: nat, order: seq<Uid>, next: Uid)
    requires u in fs && next in fs && next !in order && NoDuplicates(order)
    ensures var ts := SwingTargets(m, fs, u, reach, arc, order);
            var now := StrikeAll(fs, u, ts, dmg).fighters;
            var hit := next != u && now[next].deadTicks == 0 && InSwing(m, now[u].pos, now[u].yaw, now[next].pos, reach, arc);
            && SwingTargets(m, fs, u, reach, arc, order + [next]) == (if hit then ts + [next] else ts)
            && (hit ==>
                  && Targets(fs, u, ts + [next]) && NoDuplicates(ts + [next])
                  && StrikeAll(fs, u, ts + [next], dmg).fighters == Combat.Hit(now, u, next, dmg)
                  && Events(StrikeAll(fs, u, ts + [next], dmg).strikes) ==
                     Events(StrikeAll(fs, u, ts, dmg).strikes) + [StrikeOf(u, next, now[next], dmg).ev])
  {
    var ts := SwingTargets(m, fs, u, reach, arc, order);
    SwingTargetsDistinct(m, fs, u, reach, arc, order);
    SwingTargetsNext(m, fs, u, reach, arc, order, next);
    UntouchedYet(fs, u, ts, dmg, next);
    hide InSwing, StrikeAll, SwingTargets, StrikeOf, Combat.Hit, Events;
    if CanBeSwungAt(m, fs, u, reach, arc, next) {
      OneMoreStrike(fs, u, ts, dmg, next);
    }
  }

  lemma SwingTargetsNext(m: Maths, fs: Fighters, u: Uid, reach: real, arc: real, order: seq<Uid>, next: Uid)
    requires u in fs
    ensures var ts := SwingTargets(m, fs, u, reach, arc, order);
            SwingTargets(m, fs, u, reach, arc, order + [next]) ==
            if CanBeSwungAt(m, fs, u, reach, arc, next) then ts + [next] else ts
  {
    assert (order + [next])[..|order + [next]| - 1] == order;
  }

  /** Before its turn a player is as it was before the swing, and the swinger has not moved. */
  lemma UntouchedYet(fs: Fighters, u: Uid, ts: seq<Uid>, dmg: nat, next: Uid)
    requires Targets(fs, u, ts) && NoDuplicates(ts) && next in fs && next !in ts
    ensures var now := StrikeAll(fs, u, ts, dmg).fighters;
            && now[u].pos == fs[u].pos && now[u].yaw == fs[u].yaw
            && (next != u ==> now[next] == fs[next])
  {
    FightersAfter(fs, u, ts, dmg, next);
    StrikeAllKeeps(fs, u, ts, dmg, u);
    hide StrikeAll;
    StanceHas(StrikeAll(fs, u, ts, dmg).fighters[u], fs[u]);
  }

  lemma OneMoreStrike(fs: Fighters, u: Uid, ts: seq<Uid>, dmg: nat, next: Uid)
    requires Targets(fs, u, ts) && NoDuplicates(ts) && CanBeHit(fs, u, next) && next !in ts
    ensures var v, more := StrikeAll(fs, u, ts, dmg), ts + [next];
            && Targets(fs, u, more) && NoDuplicates(more)
            && StrikeAll(fs, u, more, dmg).fighters == Combat.Hit(v.fighters, u, next, dmg)
            && Events(StrikeAll(fs, u, more, dmg).strikes) == Events(v.strikes) + [StrikeOf(u, next, v.fighters[next], dmg).ev]
  {
    hide StrikeOf, Combat.Hit;
    assert (ts + [next])[..|ts + [next]| - 1] == ts;
  }

  lemma StanceHas(f: Fighter, g: Fighter)
    requires StanceOf(f) == StanceOf(g)
    ensures f.pos == g.pos && f.yaw == g.yaw
  {
  }

  lemma ConeAt(m: Maths, fs: Fighters, u: Uid, next: Uid)
    requires u in fs && next in fs
    ensures var d := LockDistance(m, fs[u], fs[next]);
            && LockCost(m, fs, u)(next) == d
            && (Cone(m, fs, u)(next) <==> next != u && fs[next].deadTicks == 0 && InCone(m, fs[u], fs[next]))
  {
  }

  /** One visit of the search for a lock target: what the next player changes. */
  lemma LockVisit(m: Maths, fs: Fighters, u: Uid, order: seq<Uid>, next: Uid)
    requires u in fs && next in fs
    ensures var cone, cost, dist := Cone(m, fs, u), LockCost(m, fs, u), LockDistance(m, fs[u], fs[next]);
            var best := FirstLeast(order, cone, cost);
            var locked := && dist <= LOCK_RANGE && dist != 0.0
                          && Dot(Sub(fs[next].Body(), fs[u].pos), DirFromAngles(m, fs[u].aimX, fs[u].aimY)) / dist >= m.cosDeg(LOCK_ARC);
            && cost(next) == dist
            && FirstLeast(order + [next], cone, cost) ==
               if next != u && fs[next].deadTicks == 0 && locked && (best.None? || dist < cost(best.value)) then Some(next) else best
  {
    hide FirstLeast, LockDistance, Dot, Sub, DirFromAngles;
    FirstLeastNext(order, next, Cone(m, fs, u), LockCost(m, fs, u));
    ConeAt(m, fs, u, next);
    hide Cone, LockCost;
  }

  lemma NoLeast(eligible: Uid -> bool, cost: Uid -> real)
    ensures FirstLeast([], eligible, cost) == None
  {
  }

  lemma LockTargetsAre(m: Maths, fs: Fighters, u: Uid, order: seq<Uid>)
    requires u in fs
    ensures var b := FirstLeast(order, Cone(m, fs, u), LockCost(m, fs, u));
            && (b.Some? ==> CanBeHit(fs, u, b.value))
            && LockTargets(m, fs, u, order) == if b.None? then [] else [b.value]
  {
    FirstLeastIsLeast(order, Cone(m, fs, u), LockCost(m, fs, u));
  }

  /** `best` is an eligible player of the table that costs least, or there is none. */
  ghost predicate Nearest(players: map<Uid, Player>, best: Option<Player>, eligible: Uid -> bool, cost: Uid -> real)
  {
    match best
    case None => forall u :: u in players ==> !eligible(u)
    case Some(p) =>
      && p.uid in players && players[p.uid] == p && eligible(p.uid)
      && forall u :: u in players && eligible(u) ==> cost(p.uid) <= cost(u)
  }

  /** `best` and its distance are what a search by value has found. */
  ghost predicate Chosen(players: map<Uid, Player>, best: Option<Player>, bestT: real, b: Option<Uid>, cost: Uid -> real)
    reads players.Values
  {
    && (best.None? <==> b.None?)
    && (best.None? ==> bestT == -1.0)
    && (best.Some? ==> b.value in players && players[b.value] == best.value && best.value.uid == b.value
                       && bestT == cost(b.value))
  }

  lemma FirstLeastNext(order: seq<Uid>, next: Uid, eligible: Uid -> bool, cost: Uid -> real)
    ensures var best := FirstLeast(order, eligible, cost);
            FirstLeast(order + [next], eligible, cost) ==
            if eligible(next) && (best.None? || cost(next) < cost(best.value)) then Some(next) else best
  {
    assert (order + [next])[..|order + [next]| - 1] == order;
  }

  lemma SightsAt(w: World, fs: Fighters, u: Uid, next: Uid)
    requires u in fs && next in fs
    ensures var t := ShotDistance(w, fs[u], fs[next]);
            && ShotCost(w, fs, u)(next) == t
            && (Sights(w, fs, u)(next) <==> next != u && fs[next].deadTicks == 0 && 0.0 < t <= GUN_RANGE)
  {
  }

  lemma ShotTargetsAre(w: World, fs: Fighters, u: Uid, order: seq<Uid>)
    requires u in fs
    ensures var b, wallT := FirstLeast(order, Sights(w, fs, u), ShotCost(w, fs, u)), WallDistance(w, fs[u]);
            && (b.Some? ==> CanBeHit(fs, u, b.value))
            && ShotTargets(w, fs, u, order) ==
               if b.None? || (wallT > 0.0 && wallT < ShotCost(w, fs, u)(b.value)) then [] else [b.value]
  {
    FirstLeastIsLeast(order, Sights(w, fs, u), ShotCost(w, fs, u));
  }

  /** Some order of visiting a set. */
  ghost function AnyOrder(keys: set<Uid>): (order: seq<Uid>)
    ensures Enumerates(order, keys)
    decreases |keys|
  {
    if keys == {} then []
    else
      var u :| u in keys;
      VisitNext(AnyOrder(keys - {u}), {u}, keys, u);
      AnyOrder(keys - {u}) + [u]
  }

  lemma NoHit(fs: Fighters, shooter: Uid, dmg: nat)
    requires shooter in fs
    ensures StrikeAll(fs, shooter, [], dmg) == Volley(fs, []) && Events([]) == []
  {
  }

  lemma OneHit(fs: Fighters, shooter: Uid, target: Uid, dmg: nat)
    requires Targets(fs, shooter, [target])
    ensures var v := StrikeAll(fs, shooter, [target], dmg);
            && CanBeHit(fs, shooter, target)
            && v.fighters == Combat.Hit(fs, shooter, target, dmg)
            && Events(v.strikes) == [StrikeOf(shooter, target, fs[target], dmg).ev]
  {
    assert CanBeHit(fs, shooter, [target][0]);
    assert [target][..0] == [];
  }

  /** The room loop. The broadcast callback and the empty-room callback are represented by whether they
      are registered; what would be passed to them is returned. */
  class RoomLoop {
    const id: Text
    const cfg: Config
    const combat: Resolver
    var players: map<Uid, Player>
    var tick: int
    var pendingEvents: seq<HitEvent>
    var settled: bool
    var emptied: bool
    var hadPlayers: bool
    var onBroadcast: bool
    var onEmpty: bool

    ghost predicate Valid()
      reads this, players.Values
    {
      IsTable(players) && combat.world.Valid() && cfg.Valid()
    }

    /** The room as a value. */
    ghost function State(): (s: Room)
      reads this, players.Values
      ensures s.fighters.Keys == players.Keys && s.tick == tick && s.pending == pendingEvents && s.broadcasting == onBroadcast
    {
      RoomState(FightersOf(players), LinksOf(players), tick, pendingEvents, settled, emptied, hadPlayers, onBroadcast, onEmpty)
    }

    constructor (id: Text, cfg: Config, world: World)
      requires world.Valid()
      ensures Valid() && State() == NEW_ROOM && this.cfg == cfg.Normal() && fresh(combat) && combat.world == world
      ensures this.id == id && players == map[]
    {
      this.id := id;
      this.cfg := cfg.Normal();
      this.combat := new Resolver(world);
      players, tick, pendingEvents := map[], 0, [];
      settled, emptied, hadPlayers, onBroadcast, onEmpty := false, false, false, false, false;
    }

    /** Marks a player of the room as online or offline. */
    method Mark(uid: Uid, online: bool)
      requires Valid() && uid in players
      modifies players[uid]
      ensures Valid()
      ensures State() == old(State()).(links := old(State()).links[uid := Link(online, 0)])
    {
      hide Player.View, Player.LinkView;
      ghost var fs, ls := FightersOf(players), LinksOf(players);
      var p := players[uid];
      p.SetOnline(online);
      OneEntry(players, uid, fs, ls);
      SameFighter(fs, uid);
    }

    /** Puts a new player into the table. */
    method Admit(uid: Uid, at: Vec)
      requires Valid() && uid !in players
      modifies this
      ensures Valid()
      ensures forall p :: p in players.Values ==> p in old(players.Values) || fresh(p)
      ensures State() == old(State()).(fighters := old(State()).fighters[uid := Newcomer(at, tick)],
                                       links := old(State()).links[uid := Link(true, 0)],
                                       hadPlayers := true, emptied := false)
    {
      hide Newcomer, Player.View, Player.LinkView, FightersOf, LinksOf;
      var p := new Player(uid, at, tick);
      NewEntry(players, uid, p);
      players := players[uid := p];
      hadPlayers := true;
      emptied := false;
    }

    method AddPlayer(uid: Uid, at: Vec) returns (full: bool)
      requires Valid()
      modifies this, players.Values
      ensures Valid()
      ensures forall p :: p in players.Values ==> p in old(players.Values) || fresh(p)
      ensures var r := Step(cfg, combat.world, old(State()), Join(uid, at));
              State() == r.state && full == r.out.full
    {
      hide Newcomer, FightersOf, LinksOf;
      assert |State().links| == |players| by { assert State().links.Keys == players.Keys; }
      if uid in players {
        Mark(uid, true);
        return false;
      }
      if |players| >= cfg.maxPlayers {
        return true;
      }
      Admit(uid, at);
      return false;
    }

    method RemovePlayer(uid: Uid)
      requires Valid()
      modifies this`players
      ensures Valid() && players.Values <= old(players.Values)
      ensures State() == Step(cfg, combat.world, old(State()), Leave(uid)).state
    {
      hide FightersOf, LinksOf;
      WithoutEntries(players, {uid});
      players := players - {uid};
    }

    method SetOnline(uid: Uid, online: bool)
      requires Valid()
      modifies players.Values
      ensures Valid()
      ensures State() == Step(cfg, combat.world, old(State()), Online(uid, online)).state
    {
      hide FightersOf, LinksOf;
      if uid in players {
        Mark(uid, online);
      }
    }

    /** Sets the block bar of one player of the room. */
    method ApplyEquip(uid: Uid, blockBonus: real)
      requires Valid()
      modifies players.Values
      ensures Valid()
      ensures State() == Step(cfg, combat.world, old(State()), Equip(uid, blockBonus)).state
    {
      hide Player.View, Player.LinkView;
      if uid in players {
        ghost var fs, ls := FightersOf(players), LinksOf(players);
        var p := players[uid];
        p.Refit(BASE_BLOCK_MAX + blockBonus);
        OneEntry(players, uid, fs, ls);
        assert ls[uid := ls[uid]] == ls;
      }
    }

    method SetBroadcast()
      requires Valid()
      modifies this`onBroadcast
      ensures Valid() && State() == Step(cfg, combat.world, old(State()), RoomModel.SetBroadcast).state
    {
      hide FightersOf, LinksOf, Step;
      RegistrationIs(cfg, combat.world, State());
      onBroadcast := true;
    }

    method SetOnEmpty()
      requires Valid()
      modifies this`onEmpty
      ensures Valid() && State() == Step(cfg, combat.world, old(State()), RoomModel.SetOnEmpty).state
    {
      hide FightersOf, LinksOf, Step;
      RegistrationIs(cfg, combat.world, State());
      onEmpty := true;
    }

    method DrainEvents() returns (events: seq<HitEvent>)
      requires Valid()
      modifies this`pendingEvents
      ensures Valid()
      ensures var r := Step(cfg, combat.world, old(State()), Drain);
              State() == r.state && events == r.out.drained
    {
      hide FightersOf, LinksOf, Step;
      RegistrationIs(cfg, combat.world, State());
      events := pendingEvents;
      pendingEvents := [];
    }

    /** The first half of an input report: the check, and what an accepted report leaves behind. */
    method TakeReport(uid: Uid, report: InputReport) returns (ok: bool)
      requires Valid() && uid in players
      modifies players.Values
      ensures Valid()
      ensures var f := old(State()).fighters[uid].(lastReport := tick);
              && ok == CheckMove(combat.world.maths, f, report)
              && State() == old(State()).(fighters := old(State()).fighters[uid :=
                   var marked := Validation.MarkViolation(f, ok); if ok then Accepted(marked, report) else marked])
    {
      hide Player.View, Player.LinkView, CheckMove;
      ghost var fs, ls := FightersOf(players), LinksOf(players);
      var p := players[uid];
      assert p.View() == fs[uid];
      p.Stamp(tick);
      ok := CheckMove(combat.world.maths, p.View(), report);
      p.MarkViolation(ok);
      if ok {
        p.RecordAim(report);
        p.RecordLook(report);
        p.ApplyInput(report);
      }
      OneEntry(players, uid, fs, ls);
      assert ls[uid := ls[uid]] == ls;
    }

    /** The second half: the weapons go off, and their events wait for the broadcast. */
    method Act(uid: Uid, buttons: Byte) returns (ghost order: seq<Uid>, ghost lockOrder: seq<Uid>)
      requires Valid() && uid in players
      modifies this`pendingEvents, players.Values
      ensures Valid() && Enumerates(order, players.Keys) && Enumerates(lockOrder, players.Keys)
      ensures var s := old(State());
              var v := Combat.Attack(combat.world, s.fighters, uid, buttons, order, lockOrder);
              State() == s.(fighters := v.fighters, pending := s.pending + Events(v.strikes))
    {
      hide Combat.Attack, FightersOf, LinksOf;
      assert players[uid].uid == uid;
      var events;
      events, order, lockOrder := combat.Attack(players, players[uid], buttons);
      pendingEvents := pendingEvents + events;
    }

    /** An input report, checked, recorded and acted upon. */
    method HandleInput(uid: Uid, report: InputReport) returns (ghost order: seq<Uid>, ghost lockOrder: seq<Uid>)
      requires Valid()
      modifies this`pendingEvents, players.Values
      ensures Valid()
      ensures var m := Input(uid, report, order, lockOrder);
              && Possible(old(State()), m)
              && State() == Step(cfg, combat.world, old(State()), m).state
    {
      hide State, Step, Combat.Attack, CheckMove, Validation.MarkViolation, Accepted, AnyOrder;
      order, lockOrder := AnyOrder(players.Keys), AnyOrder(players.Keys);
      ghost var s := State();
      if uid in players {
        var ok := TakeReport(uid, report);
        if ok {
          order, lockOrder := Act(uid, report.buttons);
        }
      }
      InputStepIs(cfg, combat.world, s, uid, report, order, lockOrder);
    }

    /** One player ages by one tick, unless it is online, and is removed when out of grace. */
    method AgeOne(u: Uid)
      requires Valid() && u in players
      modifies this`players, players.Values
      ensures Valid() && players.Values <= old(players.Values)
      ensures var s := old(State());
              var l := AgedLink(s.links[u]);
              State() == if OutOfGrace(cfg, l) then s.(fighters := s.fighters - {u}, links := s.links - {u})
                         else s.(links := s.links[u := l])
    {
      hide Player.View, Player.LinkView;
      ghost var fs, ls := FightersOf(players), LinksOf(players);
      var p := players[u];
      LinkFields(p);
      if !p.online {
        p.Age();
        LinkFields(p);
        if p.offlineTicks >= cfg.graceTicks {
          players := players - {u};
          RemainingEntries(players, fs - {u}, ls - {u});
          return;
        }
      }
      OneEntry(players, u, fs, ls);
      SameFighter(fs, u);
    }

    /** Offline players age by one tick; those out of grace are removed. */
    method AgeOffline()
      requires Valid()
      modifies this`players, players.Values
      ensures Valid() && players.Values <= old(players.Values)
      ensures var s := old(State());
              var gone := Expired(cfg, Aged(s.links));
              State() == s.(fighters := s.fighters - gone, links := Aged(s.links) - gone)
    {
      hide State, Aged, Expired;
      ghost var s := State();
      var todo := players.Keys;
      AgeingStart(cfg, s);
      while todo != {}
        invariant Valid() && players.Values <= old(players.Values)
        invariant todo <= players.Keys
        invariant State() == PartlyAged(cfg, s, todo)
      {
        var u :| u in todo;
        AgeingStep(cfg, s, todo, u);
        AgeOne(u);
        todo := todo - {u};
      }
      AgeingEnd(cfg, s);
    }

    /** The offline part of a tick: ageing, removal, and the report of an emptied room, once. */
    method TickOfflinePlayers() returns (notified: bool)
      requires Valid()
      modifies this`players, this`emptied, players.Values
      ensures Valid() && players.Values <= old(players.Values)
      ensures var s := old(State());
              var aged := Aged(s.links);
              var gone := Expired(cfg, aged);
              var emptiedNow := aged - gone == map[] && s.hadPlayers && !s.emptied;
              && State() == s.(fighters := s.fighters - gone, links := aged - gone, emptied := s.emptied || emptiedNow)
              && notified == (emptiedNow && s.notifying)
    {
      hide Aged, Expired;
      AgeOffline();
      EmptyTable(players);
      hide FightersOf, LinksOf;
      notified := false;
      if players.Keys == {} && hadPlayers && !emptied {
        emptied := true;
        notified := onEmpty;
      }
    }

    /** Who is where, as sent to the clients. */
    method CollectStates() returns (states: map<Uid, Snapshot>)
      requires Valid()
      ensures states == Snapshots(State().fighters)
    {
      hide SnapshotOf, Player.View;
      states := map[];
      var todo := players.Keys;
      while todo != {}
        invariant todo <= players.Keys && states.Keys == players.Keys - todo
        invariant forall u :: u in states ==> states[u] == SnapshotOf(players[u].View())
      {
        var u :| u in todo;
        states := states[u := SnapshotOf(players[u].View())];
        todo := todo - {u};
      }
    }

    /** Scores of everybody, as sent at the settlement. */
    method CollectScores() returns (scores: map<Uid, nat>)
      requires Valid()
      ensures scores == FinalScores(State().fighters)
    {
      hide Player.View;
      scores := map[];
      var todo := players.Keys;
      while todo != {}
        invariant todo <= players.Keys && scores.Keys == players.Keys - todo
        invariant forall u :: u in scores ==> scores[u] == players[u].View().score % 0x1_0000
      {
        var u :| u in todo;
        ScoreField(players[u]);
        scores := scores[u := players[u].score % 0x1_0000];
        todo := todo - {u};
      }
    }

    /** Whether the score or the time limit has been reached. */
    method SettleReason() returns (due: bool)
      requires Valid()
      ensures due <==> MustSettle(cfg, State().fighters, tick)
    {
      hide Player.View;
      if cfg.settleScore > 0 {
        var todo := players.Keys;
        while todo != {}
          invariant todo <= players.Keys
          invariant forall u :: u in players && u !in todo ==> players[u].View().score < cfg.settleScore
        {
          var u :| u in todo;
          ScoreField(players[u]);
          if players[u].score >= cfg.settleScore {
            assert State().fighters[u].score >= cfg.settleScore;
            return true;
          }
          todo := todo - {u};
        }
      }
      due := cfg.settleTicks > 0 && tick >= cfg.settleTicks;
    }

    /** Sends one event, and a death message if its target has a death to announce. */
    method AnnounceOne(ev: HitEvent) returns (sent: seq<Broadcast>)
      requires Valid()
      modifies players.Values
      ensures Valid()
      ensures var s := old(State());
              var d := Announced(s.fighters, ev);
              State() == s.(fighters := d.fighters) && sent == d.sent
    {
      hide Player.View, Player.LinkView;
      ghost var fs, ls := FightersOf(players), LinksOf(players);
      sent := [HitMsg(ev)];
      if ev.target in players {
        var t := players[ev.target];
        DeathField(t);
        if t.justDied {
          sent := sent + [DeathMsg(ev)];
          t.ClearDeath();
          OneEntry(players, ev.target, fs, ls);
          assert ls[ev.target := ls[ev.target]] == ls;
        }
      }
    }

    /** Sends the pending events in order. */
    method AnnounceAll() returns (sent: seq<Broadcast>)
      requires Valid()
      modifies players.Values
      ensures Valid()
      ensures var s := old(State());
              var d := Deliver(s.fighters, s.pending);
              State() == s.(fighters := d.fighters) && sent == d.sent
    {
      hide State, Deliver, Announced;
      ghost var s := State();
      sent := [];
      DeliverNext(s.fighters, pendingEvents, 0);
      for i := 0 to |pendingEvents|
        invariant State() == s.(fighters := Deliver(s.fighters, pendingEvents[..i]).fighters)
        invariant sent == Deliver(s.fighters, pendingEvents[..i]).sent
      {
        DeliverNext(s.fighters, pendingEvents, i);
        var more := AnnounceOne(pendingEvents[i]);
        sent := sent + more;
      }
      assert pendingEvents[..|pendingEvents|] == pendingEvents;
    }

    method Announce() returns (sent: seq<Broadcast>)
      requires Valid()
      modifies this`pendingEvents, players.Values
      ensures Valid()
      ensures var s := old(State());
              var d := Deliver(s.fighters, s.pending);
              State() == s.(fighters := d.fighters, pending := []) && sent == d.sent
    {
      hide FightersOf, LinksOf, Deliver;
      sent := AnnounceAll();
      pendingEvents := [];
    }

    /** The settlement, sent at most once in the life of the room. */
    method Settle() returns (sent: seq<Broadcast>)
      requires Valid()
      modifies this`settled
      ensures Valid()
      ensures var s := old(State());
              var settles := !s.settled && MustSettle(cfg, s.fighters, s.tick);
              && State() == s.(settled := s.settled || settles)
              && sent == if settles then [SettleMsg(FinalScores(s.fighters))] else []
    {
      hide FightersOf, LinksOf, MustSettle, FinalScores;
      sent := [];
      if !settled {
        var due := SettleReason();
        if due {
          settled := true;
          var scores := CollectScores();
          sent := [SettleMsg(scores)];
        }
      }
    }

    method BroadcastTick() returns (sent: seq<Broadcast>)
      requires Valid()
      modifies this`pendingEvents, this`settled, players.Values
      ensures Valid()
      ensures var b := BroadcastStep(cfg, old(State()));
              State() == b.state && sent == b.out.sent
    {
      hide State, Deliver, MustSettle, Snapshots, FinalScores;
      var states := CollectStates();
      var events := Announce();
      var settlement := Settle();
      sent := [StateMsg(states)] + events + settlement;
    }

    /** The combat part of a tick. */
    method TickEverybody(spawn: Uid -> Vec)
      requires Valid()
      modifies this`tick, players.Values
      ensures Valid()
      ensures State() == old(State()).(tick := old(tick) + 1, fighters := TickedAll(old(State()).fighters, spawn))
    {
      hide FightersOf, LinksOf, TickedAll;
      tick := tick + 1;
      combat.TickCombat(players, spawn);
    }

    /** The counting part of a tick. */
    method CountTick(spawn: Uid -> Vec) returns (notified: bool)
      requires Valid()
      modifies this`tick, this`players, this`emptied, players.Values
      ensures Valid() && players.Values <= old(players.Values)
      ensures var s := old(State());
              && State() == Counted(cfg, s, spawn)
              && notified == (State().emptied && !s.emptied && s.notifying)
    {
      hide State, TickedAll, Aged, Expired;
      TickEverybody(spawn);
      notified := TickOfflinePlayers();
    }

    /** One tick of the loop. */
    method Tick(spawn: Uid -> Vec) returns (sent: seq<Broadcast>, notified: bool)
      requires Valid()
      modifies this`tick, this`players, this`emptied, this`pendingEvents, this`settled, players.Values
      ensures Valid() && players.Values <= old(players.Values)
      ensures var r := Step(cfg, combat.world, old(State()), RoomModel.Tick(spawn));
              State() == r.state && sent == r.out.sent && notified == r.out.emptiedNow
    {
      hide State, BroadcastStep, Step, Counted;
      TickIs(cfg, combat.world, State(), RoomModel.Tick(spawn));
      CountedFlags(cfg, State(), spawn);
      notified := CountTick(spawn);
      sent := [];
      if onBroadcast {
        sent := BroadcastTick();
      }
    }

    /** One turn of the loop: whatever message is next is handled to the end. The orders in which the player map is
        visited are settled here, so those in `m` do not matter. */
    method Handle(m: Msg) returns (ghost done: Msg, notified: bool, full: bool)
      requires Valid()
      modifies this, players.Values
      ensures Valid()
      ensures forall p :: p in players.Values ==> p in old(players.Values) || fresh(p)
      ensures Settles(m, done) && Possible(old(State()), done)
      ensures var r := Step(cfg, combat.world, old(State()), done);
              State() == r.state && notified == r.out.emptiedNow && full == r.out.full
    {
      hide Valid, State, Step;
      QuietMessage(cfg, combat.world, State(), m);
      done, notified, full := m, false, false;
      match m {
        case Tick(spawn) =>
          var sent;
          sent, notified := Tick(spawn);
        case Input(uid, report, _, _) =>
          ghost var order, lockOrder := HandleInput(uid, report);
          done := Input(uid, report, order, lockOrder);
          QuietMessage(cfg, combat.world, old(State()), done);
        case Join(uid, at) => full := AddPlayer(uid, at);
        case Leave(uid) => RemovePlayer(uid);
        case Equip(uid, bonus) => ApplyEquip(uid, bonus);
        case Online(uid, online) => SetOnline(uid, online);
        case SetBroadcast => SetBroadcast();
        case SetOnEmpty => SetOnEmpty();
        case Drain => var drained := DrainEvents();
        case Peek => var states := CollectStates();
      }
    }
  }

  /** The same message, with visiting orders filled in. */
  ghost predicate Settles(m: Msg, done: Msg)
  {
    if m.Input? then done.Input? && done.uid == m.uid && done.report == m.report else done == m
  }

  /** Only a tick reports an empty room, and only a join a full one. */
  lemma QuietMessage(cfg: Config, w: World, s: Room, m: Msg)
    ensures var r := Step(cfg, w, s, m);
            (!m.Tick? ==> !r.out.emptiedNow) && (!m.Join? ==> !r.out.full) && (m.Peek? ==> r.state == s)
  {
    hide Combat.Attack, CheckMove, BroadcastStep, TickedAll, Aged, Expired, Equipped;
    if m.Tick? { TickIs(cfg, w, s, m); }
  }

  lemma RegistrationIs(cfg: Config, w: World, s: Room)
    ensures Step(cfg, w, s, SetBroadcast).state == s.(broadcasting := true)
    ensures Step(cfg, w, s, SetOnEmpty).state == s.(notifying := true)
    ensures Step(cfg, w, s, Drain) == Result(s.(pending := []), SILENT.(drained := s.pending))
  {
  }

  lemma CountedFlags(cfg: Config, s: Room, spawn: Uid -> Vec)
    ensures Counted(cfg, s, spawn).broadcasting == s.broadcasting
  {
  }

  /** What announcing one event sends, and whose death mark it clears. */
  ghost function Announced(fs: Fighters, ev: HitEvent): (d: Delivery)
    ensures d.fighters.Keys == fs.Keys
  {
    if ev.target in fs && fs[ev.target].justDied then
      Delivery(fs[ev.target := fs[ev.target].(justDied := false)], [HitMsg(ev), DeathMsg(ev)])
    else
      Delivery(fs, [HitMsg(ev)])
  }

  lemma DeliverNext(fs: Fighters, pending: seq<HitEvent>, i: nat)
    requires i <= |pending|
    ensures Deliver(fs, pending[..0]) == Delivery(fs, [])
    ensures i < |pending| ==>
              var d := Deliver(fs, pending[..i]);
              var next := Announced(d.fighters, pending[i]);
              Deliver(fs, pending[..i + 1]) == Delivery(next.fighters, d.sent + next.sent)
  {
    if i < |pending| {
      assert pending[..i + 1][..i] == pending[..i];
    }
  }

  /** A room in which everybody but `todo` has been aged, and removed where that was due. */
  ghost function PartlyAged(cfg: Config, s: Room, todo: set<Uid>): Room
  {
    var aged := Aged(s.links);
    var gone := Expired(cfg, aged) - todo;
    s.(fighters := s.fighters - gone, links := map u | u in s.links && u !in gone :: if u in todo then s.links[u] else aged[u])
  }

  lemma AgeingStart(cfg: Config, s: Room)
    ensures PartlyAged(cfg, s, s.links.Keys) == s
  {
  }

  lemma AgeingEnd(cfg: Config, s: Room)
    ensures var gone := Expired(cfg, Aged(s.links));
            PartlyAged(cfg, s, {}) == s.(fighters := s.fighters - gone, links := Aged(s.links) - gone)
  {
    hide Expired;
    assert PartlyAged(cfg, s, {}).links == Aged(s.links) - Expired(cfg, Aged(s.links));
  }

  lemma AgeingStep(cfg: Config, s: Room, todo: set<Uid>, u: Uid)
    requires u in todo && todo <= s.links.Keys
    ensures var now, next := PartlyAged(cfg, s, todo), PartlyAged(cfg, s, todo - {u});
            && u in now.links && todo - {u} <= next.links.Keys
            && next == if OutOfGrace(cfg, AgedLink(now.links[u])) then
                         now.(fighters := now.fighters - {u}, links := now.links - {u})
                       else now.(links := now.links[u := AgedLink(now.links[u])])
  {
    var now, next := PartlyAged(cfg, s, todo), PartlyAged(cfg, s, todo - {u});
    assert now.links[u] == s.links[u] && Aged(s.links)[u] == AgedLink(s.links[u]);
    if OutOfGrace(cfg, AgedLink(s.links[u])) {
      assert next.links == now.links - {u};
      assert next.fighters == now.fighters - {u};
    } else {
      assert next.links == now.links[u := AgedLink(s.links[u])];
      assert next.fighters == now.fighters;
    }
  }

  lemma EmptyTable(players: map<Uid, Player>)
    ensures LinksOf(players) == map[] <==> players.Keys == {}
  {
    assert LinksOf(players).Keys == players.Keys;
  }

  lemma LinkFields(p: Player)
    ensures p.LinkView() == Link(p.online, p.offlineTicks)
  {
  }

  lemma ScoreField(p: Player)
    ensures p.View().score == p.score
  {
  }

  lemma DeathField(p: Player)
    ensures p.View().justDied == p.justDied
  {
  }

  lemma RemainingEntries(players: map<Uid, Player>, fs: Fighters, ls: Links)
    requires players.Keys == fs.Keys == ls.Keys
    requires forall u :: u in players ==> players[u].View() == fs[u] && players[u].LinkView() == ls[u]
    ensures FightersOf(players) == fs && LinksOf(players) == ls
  {
  }

  lemma InputStepIs(cfg: Config, w: World, s: Room, u: Uid, report: InputReport, order: seq<Uid>, lockOrder: seq<Uid>)
    requires Enumerates(order, s.fighters.Keys) && Enumerates(lockOrder, s.fighters.Keys)
    ensures var s' := Step(cfg, w, s, Input(u, report, order, lockOrder)).state;
            if u !in s.fighters then s' == s
            else
              var f := s.fighters[u].(lastReport := s.tick);
              if !CheckMove(w.maths, f, report) then s' == s.(fighters := s.fighters[u := MarkViolation(f, false)])
              else
                var v := Attack(w, s.fighters[u := Accepted(MarkViolation(f, true), report)], u, report.buttons, order, lockOrder);
                s' == s.(fighters := v.fighters, pending := s.pending + Events(v.strikes))
  {
    hide Attack, CheckMove, MarkViolation, Accepted;
  }

  lemma WithoutEntries(players: map<Uid, Player>, gone: set<Uid>)
    ensures FightersOf(players - gone) == FightersOf(players) - gone
    ensures LinksOf(players - gone) == LinksOf(players) - gone
  {
  }

  lemma SameFighter(fs: Fighters, u: Uid)
    requires u in fs
    ensures fs[u := fs[u]] == fs
  {
  }

  lemma NewEntry(others: map<Uid, Player>, u: Uid, p: Player)
    requires u !in others
    ensures FightersOf(others[u := p]) == FightersOf(others)[u := p.View()]
    ensures LinksOf(others[u := p]) == LinksOf(others)[u := p.LinkView()]
  {
  }
}
