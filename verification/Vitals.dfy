/** The hit log explains every change of health, block, deaths and score: replaying the strikes of a
    report on the vital signs a player had before it gives the vital signs the player has after it. */
module VitalSigns {
  import opened Base
  import opened Geometry
  import opened Combat
  import opened CombatProofs
  import opened Validation
  import opened RoomModel

  datatype Vitals = Vitals(hp: int, deaths: nat, score: nat, deadTicks: nat, justDied: bool, block: real, blockMax: real) {
    /** Health stays between 0 and 100, and a player is without health exactly while waiting to respawn. */
    predicate Sound() { 0 <= hp <= MAX_HP && (hp == 0 <==> deadTicks > 0) && deadTicks <= RESPAWN_TICKS }
  }

  function Of(f: Fighter): Vitals
  {
    Vitals(f.hp, f.deaths, f.score, f.deadTicks, f.justDied, f.block, f.blockMax)
  }

  /** The effect of one logged strike on player `u`, as victim or as shooter. */
  function Toll(v: Vitals, u: Uid, x: Strike): Vitals
  {
    if x.ev.target == u then
      var hurt := v.(hp := v.hp - x.ev.damage, block := if x.blocked then v.block - BLOCK_COST else v.block);
      if x.killed then hurt.(deaths := v.deaths + 1, deadTicks := RESPAWN_TICKS, justDied := true) else hurt
    else if x.ev.shooter == u && x.killed then v.(score := v.score + 1)
    else v
  }

  /** What is true of a strike when it lands on `u`: the victim lives, is not the shooter, loses between 1 and 50
      health but no more than it has, dies exactly when it loses all of it, and pays for a block it could afford. */
  predicate Lawful(v: Vitals, u: Uid, x: Strike)
  {
    x.ev.target == u ==>
      && v.deadTicks == 0 && x.ev.shooter != u
      && 0 < x.ev.damage <= v.hp && x.ev.damage <= 50
      && (x.killed <==> x.ev.damage == v.hp)
      && (x.blocked ==> v.block >= BLOCK_COST)
  }

  ghost function Tolls(v: Vitals, u: Uid, xs: seq<Strike>): Vitals
  {
    if xs == [] then v else Toll(Tolls(v, u, xs[..|xs| - 1]), u, xs[|xs| - 1])
  }

  ghost predicate AllLawful(v: Vitals, u: Uid, xs: seq<Strike>)
  {
    xs == [] || (AllLawful(v, u, xs[..|xs| - 1]) && Lawful(Tolls(v, u, xs[..|xs| - 1]), u, xs[|xs| - 1]))
  }

  ghost predicate AllSound(fs: Fighters) { forall u :: u in fs ==> Of(fs[u]).Sound() }

  lemma {:induction false} TollsAppend(v: Vitals, u: Uid, xs: seq<Strike>, ys: seq<Strike>)
    ensures Tolls(v, u, xs + ys) == Tolls(Tolls(v, u, xs), u, ys)
    ensures AllLawful(v, u, xs) && AllLawful(Tolls(v, u, xs), u, ys) ==> AllLawful(v, u, xs + ys)
  {
    if ys == [] {
      assert xs + ys == xs;
    } else {
      assert (xs + ys)[..|xs + ys| - 1] == xs + ys[..|ys| - 1];
      TollsAppend(v, u, xs, ys[..|ys| - 1]);
    }
  }

  lemma HitToll(fs: Fighters, shooter: Uid, target: Uid, dmg: nat, u: Uid)
    requires shooter in fs && CanBeHit(fs, shooter, target) && u in fs && Of(fs[target]).Sound() && Of(fs[u]).Sound()
    requires dmg == 25 || dmg == 50
    ensures var x := StrikeOf(shooter, target, fs[target], dmg);
            && Of(Hit(fs, shooter, target, dmg)[u]) == Toll(Of(fs[u]), u, x)
            && Lawful(Of(fs[u]), u, x)
            && Of(Hit(fs, shooter, target, dmg)[u]).Sound()
  {
    HitAt(fs, shooter, target, dmg, u);
  }

  lemma {:induction false} StrikeAllTolls(fs: Fighters, shooter: Uid, targets: seq<Uid>, dmg: nat, u: Uid)
    requires Targets(fs, shooter, targets) && NoDuplicates(targets) && AllSound(fs) && u in fs
    requires dmg == 25 || dmg == 50
    ensures var v := StrikeAll(fs, shooter, targets, dmg);
            && Of(v.fighters[u]) == Tolls(Of(fs[u]), u, v.strikes)
            && AllLawful(Of(fs[u]), u, v.strikes)
            && Of(v.fighters[u]).Sound()
            && forall i :: 0 <= i < |v.strikes| ==> v.strikes[i].ev.shooter == shooter && v.strikes[i].ev.damage <= dmg
  {
    hide Of, Hit, StrikeOf, StrikeAll, CanBeHit, Tolls, AllLawful, Lawful, Targets;
    if targets == [] {
      NoStrikes(fs, shooter, dmg, u);
    } else {
      var init, last := targets[..|targets| - 1], targets[|targets| - 1];
      LastStrike(fs, shooter, targets, dmg);
      StrikeAllTolls(fs, shooter, init, dmg, last);
      StrikeAllTolls(fs, shooter, init, dmg, u);
      var v := StrikeAll(fs, shooter, init, dmg);
      HitToll(v.fighters, shooter, last, dmg, u);
      StrikeBounds(shooter, last, v.fighters[last], dmg);
      TollsNext(Of(fs[u]), u, v.strikes, StrikeOf(shooter, last, v.fighters[last], dmg));
    }
  }

  lemma NoStrikes(fs: Fighters, shooter: Uid, dmg: nat, u: Uid)
    requires Targets(fs, shooter, []) && AllSound(fs) && u in fs
    ensures StrikeAll(fs, shooter, [], dmg) == Volley(fs, [])
    ensures Tolls(Of(fs[u]), u, []) == Of(fs[u]) && AllLawful(Of(fs[u]), u, []) && Of(fs[u]).Sound()
  {
  }

  lemma LastStrike(fs: Fighters, shooter: Uid, targets: seq<Uid>, dmg: nat)
    requires Targets(fs, shooter, targets) && NoDuplicates(targets) && targets != []
    ensures var init, last := targets[..|targets| - 1], targets[|targets| - 1];
            && Targets(fs, shooter, init) && NoDuplicates(init) && last in fs && shooter in fs
            && var v := StrikeAll(fs, shooter, init, dmg);
               && CanBeHit(v.fighters, shooter, last)
               && StrikeAll(fs, shooter, targets, dmg)
                  == Volley(Hit(v.fighters, shooter, last, dmg), v.strikes + [StrikeOf(shooter, last, v.fighters[last], dmg)])
  {
    hide Hit, StrikeOf, Struck;
    var init, last := targets[..|targets| - 1], targets[|targets| - 1];
    assert last !in init;
    FightersAfter(fs, shooter, init, dmg, last);
    FightersAfter(fs, shooter, init, dmg, shooter);
  }

  lemma TollsNext(v: Vitals, u: Uid, xs: seq<Strike>, x: Strike)
    ensures Tolls(v, u, xs + [x]) == Toll(Tolls(v, u, xs), u, x)
    ensures AllLawful(v, u, xs + [x]) <==> AllLawful(v, u, xs) && Lawful(Tolls(v, u, xs), u, x)
  {
    assert (xs + [x])[..|xs + [x]| - 1] == xs;
  }

  lemma StrikeBounds(shooter: Uid, target: Uid, t: Fighter, dmg: nat)
    ensures var x := StrikeOf(shooter, target, t, dmg); x.ev.shooter == shooter && x.ev.damage <= dmg
  {
  }

  /** Total damage of the logged strikes on one player. */
  ghost function DamageTo(xs: seq<Strike>, u: Uid): nat
  {
    if xs == [] then 0
    else DamageTo(xs[..|xs| - 1], u) + if xs[|xs| - 1].ev.target == u then xs[|xs| - 1].ev.damage else 0
  }

  lemma {:induction false} DamageAppend(xs: seq<Strike>, ys: seq<Strike>, u: Uid)
    ensures DamageTo(xs + ys, u) == DamageTo(xs, u) + DamageTo(ys, u)
  {
    if ys == [] {
      assert xs + ys == xs;
    } else {
      assert (xs + ys)[..|xs + ys| - 1] == xs + ys[..|ys| - 1];
      DamageAppend(xs, ys[..|ys| - 1], u);
    }
  }

  /** One volley hurts a player at most once. */
  lemma {:induction false} VolleyDamage(fs: Fighters, shooter: Uid, targets: seq<Uid>, dmg: nat, u: Uid)
    requires Targets(fs, shooter, targets) && NoDuplicates(targets)
    ensures DamageTo(StrikeAll(fs, shooter, targets, dmg).strikes, u) <= if u in targets then dmg else 0
  {
    hide Struck, Hit;
    if targets != [] {
      var init, last := targets[..|targets| - 1], targets[|targets| - 1];
      VolleyDamage(fs, shooter, init, dmg, u);
      var v := StrikeAll(fs, shooter, init, dmg);
      var xs := StrikeAll(fs, shooter, targets, dmg).strikes;
      assert xs[..|xs| - 1] == v.strikes;
      assert last !in init && targets == init + [last];
      assert xs[|xs| - 1].ev.target == last;
    }
  }

  // ----- The weapons -----

  /** What every weapon guarantees: vital signs follow the log, and one player is hurt at most once. */
  ghost predicate Explained(fs: Fighters, v: Volley, shooter: Uid, dmg: nat, u: Uid)
    requires u in fs
  {
    && v.fighters.Keys == fs.Keys
    && Of(v.fighters[u]) == Tolls(Of(fs[u]), u, v.strikes)
    && AllLawful(Of(fs[u]), u, v.strikes)
    && Of(v.fighters[u]).Sound()
    && (forall i :: 0 <= i < |v.strikes| ==> v.strikes[i].ev.shooter == shooter)
    && DamageTo(v.strikes, u) <= dmg
  }

  /** Setting a cooldown first does not change the vital signs. */
  lemma VolleyExplained(fs: Fighters, f: Fighter, shooter: Uid, targets: seq<Uid>, dmg: nat, u: Uid)
    requires shooter in fs && Of(f) == Of(fs[shooter]) && AllSound(fs) && u in fs
    requires Targets(fs[shooter := f], shooter, targets) && NoDuplicates(targets)
    requires dmg == 25 || dmg == 50
    ensures Explained(fs, StrikeAll(fs[shooter := f], shooter, targets, dmg), shooter, dmg, u)
  {
    hide Of;
    var ready := fs[shooter := f];
    assert forall p :: p in ready ==> Of(ready[p]) == Of(fs[p]);
    StrikeAllTolls(ready, shooter, targets, dmg, u);
    VolleyDamage(ready, shooter, targets, dmg, u);
  }

  lemma Misfire(fs: Fighters, shooter: Uid, dmg: nat, u: Uid)
    requires shooter in fs && AllSound(fs) && u in fs
    ensures Explained(fs, Volley(fs, []), shooter, dmg, u)
  {
  }

  lemma ShotExplained(w: World, fs: Fighters, u: Uid, order: seq<Uid>, x: Uid)
    requires u in fs && x in fs && AllSound(fs)
    ensures Explained(fs, ApplyShot(w, fs, u, order), u, GUN_DAMAGE, x)
  {
    hide StrikeAll, Explained;
    Misfire(fs, u, GUN_DAMAGE, x);
    if !fs[u].Dead() && fs[u].fireCd == 0 {
      var f := fs[u].(fireCd := FIRE_COOLDOWN);
      VolleyExplained(fs, f, u, ShotTargets(w, fs[u := f], u, order), GUN_DAMAGE, x);
    }
  }

  lemma SwordExplained(w: World, fs: Fighters, u: Uid, order: seq<Uid>, x: Uid)
    requires u in fs && x in fs && AllSound(fs) && NoDuplicates(order)
    ensures Explained(fs, ApplySword(w, fs, u, order), u, SWORD_DAMAGE, x)
  {
    hide StrikeAll, Explained;
    Misfire(fs, u, SWORD_DAMAGE, x);
    if !fs[u].Dead() && fs[u].swordCd == 0 {
      var f := fs[u].(swordCd := SWORD_COOLDOWN);
      SwingTargetsDistinct(w.maths, fs[u := f], u, SWORD_RANGE, SWORD_ARC, order);
      VolleyExplained(fs, f, u, SwingTargets(w.maths, fs[u := f], u, SWORD_RANGE, SWORD_ARC, order), SWORD_DAMAGE, x);
    }
  }

  lemma DashExplained(w: World, fs: Fighters, u: Uid, order: seq<Uid>, x: Uid)
    requires u in fs && x in fs && AllSound(fs) && NoDuplicates(order)
    ensures Explained(fs, ApplyDash(w, fs, u, order), u, DASH_DAMAGE, x)
  {
    hide StrikeAll, Explained;
    Misfire(fs, u, DASH_DAMAGE, x);
    if !fs[u].Dead() && fs[u].dashCd == 0 {
      var f := fs[u].(dashCd := DASH_COOLDOWN);
      SwingTargetsDistinct(w.maths, fs[u := f], u, DASH_RANGE, DASH_ARC, order);
      VolleyExplained(fs, f, u, SwingTargets(w.maths, fs[u := f], u, DASH_RANGE, DASH_ARC, order), DASH_DAMAGE, x);
    }
  }

  lemma LockExplained(w: World, fs: Fighters, u: Uid, order: seq<Uid>, x: Uid)
    requires u in fs && x in fs && AllSound(fs)
    ensures Explained(fs, ApplyLock(w, fs, u, order), u, LOCK_DAMAGE, x)
  {
    hide StrikeAll, Explained;
    Misfire(fs, u, LOCK_DAMAGE, x);
    if !fs[u].Dead() && fs[u].lockCharges > 0 && fs[u].lockCd == 0 {
      var f := fs[u].(lockCharges := fs[u].lockCharges - 1, lockCd := LOCK_COOLDOWN);
      VolleyExplained(fs, f, u, LockTargets(w.maths, fs[u := f], u, order), LOCK_DAMAGE, x);
    }
  }

  // ----- Which weapons go off -----

  /** The weapons an accepted report sets off: at most one of gun, sword and dash, and the lock. A lock shot
      needs a charge; nobody shoots while dead or before the weapon has cooled down. */
  predicate Fires(f: Fighter, buttons: Byte, weapon: Weapon)
  {
    !f.Dead() &&
    match weapon
    case Gun => Bit(buttons, BTN_FIRE) && f.fireCd == 0
    case Sword => !Bit(buttons, BTN_FIRE) && Bit(buttons, BTN_SWORD) && f.swordCd == 0
    case Dash => !Bit(buttons, BTN_FIRE) && !Bit(buttons, BTN_SWORD) && Bit(buttons, BTN_DASH) && f.dashCd == 0
    case Lock => Bit(buttons, BTN_LOCK) && f.lockCharges > 0 && f.lockCd == 0
  }

  function MainPower(f: Fighter, buttons: Byte): nat
  {
    if Fires(f, buttons, Gun) then GUN_DAMAGE
    else if Fires(f, buttons, Sword) then SWORD_DAMAGE
    else if Fires(f, buttons, Dash) then DASH_DAMAGE
    else 0
  }

  function Power(f: Fighter, buttons: Byte): nat
  {
    MainPower(f, buttons) + if Fires(f, buttons, Lock) then LOCK_DAMAGE else 0
  }

  /** Cooldowns, charges and the charge timer of a player. */
  datatype Arms = Arms(fireCd: nat, swordCd: nat, dashCd: nat, lockCd: nat, lockCharges: nat, lockTimer: nat)

  function ArmsOf(f: Fighter): Arms
  {
    Arms(f.fireCd, f.swordCd, f.dashCd, f.lockCd, f.lockCharges, f.lockTimer)
  }

  /** The weapons after a report has set off what it could. */
  function Spent(f: Fighter, buttons: Byte): Arms
  {
    Arms(if Fires(f, buttons, Gun) then FIRE_COOLDOWN else f.fireCd,
         if Fires(f, buttons, Sword) then SWORD_COOLDOWN else f.swordCd,
         if Fires(f, buttons, Dash) then DASH_COOLDOWN else f.dashCd,
         if Fires(f, buttons, Lock) then LOCK_COOLDOWN else f.lockCd,
         if Fires(f, buttons, Lock) then f.lockCharges - 1 else f.lockCharges,
         f.lockTimer)
  }

  /** Position, angle and report counters of a player: never changed by a hit. */
  datatype Stance = Stance(pos: Vec, yaw: real, suspicious: nat, firstReport: bool, lastReport: int,
                           aimX: real, aimY: real, buttons: Byte, weapon: Byte, alt: Byte, anim: Byte)

  function StanceOf(f: Fighter): Stance
  {
    Stance(f.pos, f.yaw, f.suspicious, f.firstReport, f.lastReport, f.aimX, f.aimY, f.buttons, f.weapon, f.alt, f.anim)
  }

  lemma {:induction false} StrikeAllKeeps(fs: Fighters, shooter: Uid, targets: seq<Uid>, dmg: nat, u: Uid)
    requires Targets(fs, shooter, targets) && u in fs
    ensures var v := StrikeAll(fs, shooter, targets, dmg);
            ArmsOf(v.fighters[u]) == ArmsOf(fs[u]) && StanceOf(v.fighters[u]) == StanceOf(fs[u])
  {
    if targets != [] {
      var init, last := targets[..|targets| - 1], targets[|targets| - 1];
      StrikeAllKeeps(fs, shooter, init, dmg, u);
      var v := StrikeAll(fs, shooter, init, dmg);
      assert last in fs;
      HitKeeps(v.fighters, shooter, last, dmg, u);
    }
  }

  lemma HitKeeps(fs: Fighters, shooter: Uid, target: Uid, dmg: nat, u: Uid)
    requires shooter in fs && target in fs && u in fs
    ensures var f := Hit(fs, shooter, target, dmg)[u];
            ArmsOf(f) == ArmsOf(fs[u]) && StanceOf(f) == StanceOf(fs[u])
  {
  }

  lemma MainExplained(w: World, fs: Fighters, u: Uid, buttons: Byte, order: seq<Uid>, x: Uid)
    requires u in fs && x in fs && AllSound(fs) && NoDuplicates(order)
    ensures Explained(fs, MainAttack(w, fs, u, buttons, order), u, MainPower(fs[u], buttons), x)
  {
    hide ApplyShot, ApplySword, ApplyDash;
    if Bit(buttons, BTN_FIRE) {
      ShotExplained(w, fs, u, order, x);
      assert fs[u].Dead() || fs[u].fireCd > 0 ==> ApplyShot(w, fs, u, order).strikes == [] by { IdleGun(w, fs, u, order); }
    } else if Bit(buttons, BTN_SWORD) {
      SwordExplained(w, fs, u, order, x);
      assert fs[u].Dead() || fs[u].swordCd > 0 ==> ApplySword(w, fs, u, order).strikes == [] by { IdleSword(w, fs, u, order); }
    } else if Bit(buttons, BTN_DASH) {
      DashExplained(w, fs, u, order, x);
      assert fs[u].Dead() || fs[u].dashCd > 0 ==> ApplyDash(w, fs, u, order).strikes == [] by { IdleDash(w, fs, u, order); }
    } else {
      Misfire(fs, u, 0, x);
    }
  }

  lemma IdleGun(w: World, fs: Fighters, u: Uid, order: seq<Uid>)
    requires u in fs
    ensures fs[u].Dead() || fs[u].fireCd > 0 ==> ApplyShot(w, fs, u, order).strikes == []
  {
  }

  lemma IdleSword(w: World, fs: Fighters, u: Uid, order: seq<Uid>)
    requires u in fs
    ensures fs[u].Dead() || fs[u].swordCd > 0 ==> ApplySword(w, fs, u, order).strikes == []
  {
  }

  lemma IdleDash(w: World, fs: Fighters, u: Uid, order: seq<Uid>)
    requires u in fs
    ensures fs[u].Dead() || fs[u].dashCd > 0 ==> ApplyDash(w, fs, u, order).strikes == []
  {
  }

  lemma IdleLock(w: World, fs: Fighters, u: Uid, order: seq<Uid>)
    requires u in fs
    ensures fs[u].Dead() || fs[u].lockCharges == 0 || fs[u].lockCd > 0 ==> ApplyLock(w, fs, u, order).strikes == []
  {
  }

  function MainSpent(f: Fighter, buttons: Byte): Arms
  {
    Spent(f, buttons).(lockCd := f.lockCd, lockCharges := f.lockCharges)
  }

  lemma ShotArms(w: World, fs: Fighters, u: Uid, order: seq<Uid>, x: Uid)
    requires u in fs && x in fs
    ensures var f := ApplyShot(w, fs, u, order).fighters[x];
            && StanceOf(f) == StanceOf(fs[x])
            && ArmsOf(f) == if x == u && !fs[u].Dead() && fs[u].fireCd == 0 then ArmsOf(fs[u]).(fireCd := FIRE_COOLDOWN)
                            else ArmsOf(fs[x])
  {
    hide StrikeAll, ShotTargets;
    if !fs[u].Dead() && fs[u].fireCd == 0 {
      var ready := fs[u := fs[u].(fireCd := FIRE_COOLDOWN)];
      StrikeAllKeeps(ready, u, ShotTargets(w, ready, u, order), GUN_DAMAGE, x);
    }
  }

  lemma SwordArms(w: World, fs: Fighters, u: Uid, order: seq<Uid>, x: Uid)
    requires u in fs && x in fs
    ensures var f := ApplySword(w, fs, u, order).fighters[x];
            && StanceOf(f) == StanceOf(fs[x])
            && ArmsOf(f) == if x == u && !fs[u].Dead() && fs[u].swordCd == 0 then ArmsOf(fs[u]).(swordCd := SWORD_COOLDOWN)
                            else ArmsOf(fs[x])
  {
    hide StrikeAll, SwingTargets;
    if !fs[u].Dead() && fs[u].swordCd == 0 {
      var ready := fs[u := fs[u].(swordCd := SWORD_COOLDOWN)];
      StrikeAllKeeps(ready, u, SwingTargets(w.maths, ready, u, SWORD_RANGE, SWORD_ARC, order), SWORD_DAMAGE, x);
    }
  }

  lemma DashArms(w: World, fs: Fighters, u: Uid, order: seq<Uid>, x: Uid)
    requires u in fs && x in fs
    ensures var f := ApplyDash(w, fs, u, order).fighters[x];
            && StanceOf(f) == StanceOf(fs[x])
            && ArmsOf(f) == if x == u && !fs[u].Dead() && fs[u].dashCd == 0 then ArmsOf(fs[u]).(dashCd := DASH_COOLDOWN)
                            else ArmsOf(fs[x])
  {
    hide StrikeAll, SwingTargets;
    if !fs[u].Dead() && fs[u].dashCd == 0 {
      var ready := fs[u := fs[u].(dashCd := DASH_COOLDOWN)];
      StrikeAllKeeps(ready, u, SwingTargets(w.maths, ready, u, DASH_RANGE, DASH_ARC, order), DASH_DAMAGE, x);
    }
  }

  lemma MainArms(w: World, fs: Fighters, u: Uid, buttons: Byte, order: seq<Uid>, x: Uid)
    requires u in fs && x in fs
    ensures var f := MainAttack(w, fs, u, buttons, order).fighters[x];
            && ArmsOf(f) == (if x == u then MainSpent(fs[u], buttons) else ArmsOf(fs[x]))
            && StanceOf(f) == StanceOf(fs[x])
  {
    hide ApplyShot, ApplySword, ApplyDash, StanceOf;
    ShotArms(w, fs, u, order, x);
    SwordArms(w, fs, u, order, x);
    DashArms(w, fs, u, order, x);
  }

  lemma LockArms(w: World, fs: Fighters, u: Uid, order: seq<Uid>, x: Uid)
    requires u in fs && x in fs
    ensures var f := ApplyLock(w, fs, u, order).fighters[x];
            var ready := !fs[u].Dead() && fs[u].lockCharges > 0 && fs[u].lockCd == 0;
            && ArmsOf(f) == (if x == u && ready then
                               ArmsOf(fs[u]).(lockCd := LOCK_COOLDOWN, lockCharges := fs[u].lockCharges - 1)
                             else ArmsOf(fs[x]))
            && StanceOf(f) == StanceOf(fs[x])
  {
    hide StrikeAll, LockTargets;
    if !fs[u].Dead() && fs[u].lockCharges > 0 && fs[u].lockCd == 0 {
      var ready := fs[u := fs[u].(lockCharges := fs[u].lockCharges - 1, lockCd := LOCK_COOLDOWN)];
      StrikeAllKeeps(ready, u, LockTargets(w.maths, ready, u, order), LOCK_DAMAGE, x);
    }
  }

  /** The shooter's own life is not touched by its main attack. */
  lemma {:induction false} ShooterUnhurt(v: Vitals, u: Uid, xs: seq<Strike>)
    requires forall i :: 0 <= i < |xs| ==> xs[i].ev.shooter == u
    requires AllLawful(v, u, xs)
    ensures Tolls(v, u, xs).hp == v.hp && Tolls(v, u, xs).deadTicks == v.deadTicks
  {
    if xs != [] {
      ShooterUnhurt(v, u, xs[..|xs| - 1]);
    }
  }

  /** All hits of one report, replayed on the vital signs before it, give the vital signs after it; the damage
      to any one player is bounded by the weapons that went off. */
  lemma AttackExplained(w: World, fs: Fighters, u: Uid, buttons: Byte, order: seq<Uid>, lockOrder: seq<Uid>, x: Uid)
    requires u in fs && x in fs && AllSound(fs) && NoDuplicates(order)
    ensures Explained(fs, Attack(w, fs, u, buttons, order, lockOrder), u, Power(fs[u], buttons), x)
    ensures var f := Attack(w, fs, u, buttons, order, lockOrder).fighters[x];
            && ArmsOf(f) == (if x == u then Spent(fs[u], buttons) else ArmsOf(fs[x]))
            && StanceOf(f) == StanceOf(fs[x])
  {
    hide MainAttack, ApplyLock, Tolls, AllLawful, DamageTo;
    var v := MainAttack(w, fs, u, buttons, order);
    MainExplained(w, fs, u, buttons, order, x);
    MainExplained(w, fs, u, buttons, order, u);
    MainArms(w, fs, u, buttons, order, x);
    MainArms(w, fs, u, buttons, order, u);
    if Bit(buttons, BTN_LOCK) {
      forall p | p in fs ensures Of(v.fighters[p]).Sound() {
        MainExplained(w, fs, u, buttons, order, p);
      }
      ShooterUnhurt(Of(fs[u]), u, v.strikes);
      LockExplained(w, v.fighters, u, lockOrder, x);
      IdleLock(w, v.fighters, u, lockOrder);
      LockArms(w, v.fighters, u, lockOrder, x);
      var l := ApplyLock(w, v.fighters, u, lockOrder);
      TollsAppend(Of(fs[x]), x, v.strikes, l.strikes);
      DamageAppend(v.strikes, l.strikes, x);
      NoStrikesNoDamage(l.strikes, x);
    }
  }

  lemma NoStrikesNoDamage(xs: seq<Strike>, u: Uid)
    ensures xs == [] ==> DamageTo(xs, u) == 0
  {
  }
}
