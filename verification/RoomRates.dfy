/** Rates of fire: how often a weapon can go off in a span of ticks, and how much damage that allows. */
module RoomRates {
  import opened Base
  import opened Geometry
  import opened Combat
  import opened Validation
  import opened RoomModel
  import opened VitalSigns
  import opened RoomInvariant
  import opened RoomLedger

  /** 1 for a message that sets off the weapon of `u`, 0 for any other. */
  ghost function Trigger(w: World, u: Uid, weapon: Weapon): (Room, Msg) -> int
  {
    (s: Room, m: Msg) => if Triggers(w, s, m, u, weapon) then 1 else 0
  }

  ghost predicate Triggers(w: World, s: Room, m: Msg, u: Uid, weapon: Weapon)
  {
    Accepts(w, s, m) && m.uid == u && Fires(s.fighters[u], m.report.buttons, weapon)
  }

  /** The arms of a player after one tick. */
  function Cooled(a: Arms): Arms
  {
    var charging := a.lockCharges < LOCK_MAX_CHARGES;
    var full := charging && a.lockTimer + 1 >= LOCK_CHARGE_TICKS;
    Arms(CountDown(a.fireCd), CountDown(a.swordCd), CountDown(a.dashCd), CountDown(a.lockCd),
         if full then a.lockCharges + 1 else a.lockCharges,
         if full then 0 else if charging then a.lockTimer + 1 else a.lockTimer)
  }

  lemma TickedArms(f: Fighter, spawn: Vec)
    ensures ArmsOf(Ticked(f, spawn)) == Cooled(ArmsOf(f))
  {
  }

  /** Arms across any one message. */
  lemma ArmsStep(cfg: Config, w: World, s: Room, m: Msg, u: Uid)
    requires Good(cfg, s) && u in s.fighters && u in Step(cfg, w, s, m).state.fighters
    ensures var a, a' := ArmsOf(s.fighters[u]), ArmsOf(Step(cfg, w, s, m).state.fighters[u]);
            && (m.Tick? ==> a' == Cooled(a))
            && (!m.Tick? ==> a' == if Accepts(w, s, m) && m.uid == u then Spent(s.fighters[u], m.report.buttons) else a)
  {
    hide Good, InputStep, TickStep, CheckMove, Spent;
    if m.Input? {
      if Accepts(w, s, m) {
        AcceptedAt(cfg, w, s, m, u);
      } else {
        RefusedAt(cfg, w, s, m);
      }
    } else if m.Tick? {
      TickAt(cfg, w, s, m, u);
      TickedArms(s.fighters[u], m.spawn(u));
    }
  }

  /** Each trigger is paid for by ticks: its cooldown bounds the rate, and for the lock its charges do. */
  ghost predicate Paid(a: Arms, a': Arms, ticks: nat, gun: int, sword: int, dash: int, lock: int)
  {
    && 4 * gun <= ticks + a'.fireCd
    && 8 * sword <= ticks + a'.swordCd
    && 45 * dash <= ticks + a'.dashCd
    && 30 * lock <= ticks + a'.lockCd
    && 300 * (lock + a'.lockCharges) + a'.lockTimer <= ticks + 300 * a.lockCharges + a.lockTimer
  }

  lemma {:induction false} RatesOver(cfg: Config, w: World, s: Room, ms: seq<Msg>, u: Uid)
    requires Good(cfg, s) && Present(cfg, w, s, ms, u)
    ensures u in s.fighters
    ensures Paid(ArmsOf(s.fighters[u]), ArmsOf(Run(cfg, w, s, ms).fighters[u]), Ticks(ms),
                 Over(cfg, w, s, ms, Trigger(w, u, Gun)), Over(cfg, w, s, ms, Trigger(w, u, Sword)),
                 Over(cfg, w, s, ms, Trigger(w, u, Dash)), Over(cfg, w, s, ms, Trigger(w, u, Lock)))
  {
    hide Good, Step, CheckMove, Possible, Paid, ArmsOf, Spent, Cooled, Fires;
    PresentFromStart(cfg, w, s, ms, u);
    PaidAtStart(s.fighters[u]);
    if ms != [] {
      var init, last := ms[..|ms| - 1], ms[|ms| - 1];
      RatesOver(cfg, w, s, init, u);
      RunGood(cfg, w, s, init);
      var before := Run(cfg, w, s, init);
      ArmsStep(cfg, w, before, last, u);
      TriggersAt(w, before, last, u);
      var g, sw, d, l := Over(cfg, w, s, init, Trigger(w, u, Gun)), Over(cfg, w, s, init, Trigger(w, u, Sword)),
                         Over(cfg, w, s, init, Trigger(w, u, Dash)), Over(cfg, w, s, init, Trigger(w, u, Lock));
      PaidCooled(ArmsOf(s.fighters[u]), ArmsOf(before.fighters[u]), Ticks(init), g, sw, d, l);
      if last.Input? && Accepts(w, before, last) && last.uid == u {
        PaidSpent(ArmsOf(s.fighters[u]), before.fighters[u], last.report.buttons, Ticks(init), g, sw, d, l);
      }
    }
  }

  lemma TriggersAt(w: World, s: Room, m: Msg, u: Uid)
    ensures !(Accepts(w, s, m) && m.uid == u) ==> forall weapon :: Trigger(w, u, weapon)(s, m) == 0
    ensures Accepts(w, s, m) && m.uid == u ==>
              forall weapon :: Trigger(w, u, weapon)(s, m) == if Fires(s.fighters[u], m.report.buttons, weapon) then 1 else 0
  {
  }

  lemma PaidAtStart(f: Fighter)
    ensures Paid(ArmsOf(f), ArmsOf(f), 0, 0, 0, 0, 0)
  {
  }

  lemma PaidCooled(a: Arms, b: Arms, ticks: nat, gun: int, sword: int, dash: int, lock: int)
    requires Paid(a, b, ticks, gun, sword, dash, lock)
    ensures Paid(a, Cooled(b), ticks + 1, gun, sword, dash, lock)
  {
  }

  lemma PaidSpent(a: Arms, f: Fighter, buttons: Byte, ticks: nat, gun: int, sword: int, dash: int, lock: int)
    requires Paid(a, ArmsOf(f), ticks, gun, sword, dash, lock)
    ensures Paid(a, Spent(f, buttons), ticks,
                 gun + if Fires(f, buttons, Gun) then 1 else 0, sword + if Fires(f, buttons, Sword) then 1 else 0,
                 dash + if Fires(f, buttons, Dash) then 1 else 0, lock + if Fires(f, buttons, Lock) then 1 else 0)
  {
  }

  /** In any span of a stay with T ticks the gun goes off at most 1 + T/4 times, the sword 1 + T/8, the dash
      1 + T/45 and the lock 1 + T/30 times: two lock shots are never less than 30 ticks apart. */
  lemma TriggerRates(cfg: Config, w: World, s: Room, ms: seq<Msg>, u: Uid)
    requires Good(cfg, s) && Present(cfg, w, s, ms, u)
    ensures Over(cfg, w, s, ms, Trigger(w, u, Gun)) <= 1 + Ticks(ms) / 4
    ensures Over(cfg, w, s, ms, Trigger(w, u, Sword)) <= 1 + Ticks(ms) / 8
    ensures Over(cfg, w, s, ms, Trigger(w, u, Dash)) <= 1 + Ticks(ms) / 45
    ensures Over(cfg, w, s, ms, Trigger(w, u, Lock)) <= 1 + Ticks(ms) / 30
  {
    RatesOver(cfg, w, s, ms, u);
    RunGood(cfg, w, s, ms);
    hide Run, Over, Step;
    ArmsAreGood(cfg, Run(cfg, w, s, ms), u);
  }

  /** Since joining, at most one lock shot per 300 ticks; and never more than three charges are held. */
  lemma LockRate(cfg: Config, w: World, before: Room, join: Msg, ms: seq<Msg>, u: Uid)
    requires Good(cfg, before) && Stay(cfg, w, before, join, ms, u)
    ensures var s := Step(cfg, w, before, join).state;
            && Over(cfg, w, s, ms, Trigger(w, u, Lock)) <= Ticks(ms) / 300
            && Run(cfg, w, s, ms).fighters[u].lockCharges <= LOCK_MAX_CHARGES
  {
    hide Step, Over;
    var s := Step(cfg, w, before, join).state;
    StepGood(cfg, w, before, join);
    RatesOver(cfg, w, s, ms, u);
    JoinedFresh(cfg, w, before, join);
    RunGood(cfg, w, s, ms);
    ArmsAreGood(cfg, Run(cfg, w, s, ms), u);
  }

  /** Damage done to `x` by the reports of `u`. */
  ghost function DamageBy(cfg: Config, w: World, u: Uid, x: Uid): (Room, Msg) -> int
  {
    (s: Room, m: Msg) => if m.Input? && m.uid == u then DamageTo(Step(cfg, w, s, m).out.strikes, x) else 0
  }

  // Nobody who is absent is hurt.

  lemma {:induction false} VolleyMisses(fs: Fighters, shooter: Uid, targets: seq<Uid>, dmg: nat, x: Uid)
    requires Targets(fs, shooter, targets) && x !in fs
    ensures DamageTo(StrikeAll(fs, shooter, targets, dmg).strikes, x) == 0
  {
    hide Struck, Combat.Hit;
    if targets != [] {
      var init, last := targets[..|targets| - 1], targets[|targets| - 1];
      assert targets == init + [last];
      VolleyMisses(fs, shooter, init, dmg, x);
      var xs := StrikeAll(fs, shooter, targets, dmg).strikes;
      assert xs[..|xs| - 1] == StrikeAll(fs, shooter, init, dmg).strikes && xs[|xs| - 1].ev.target == last;
    }
  }

  lemma MainMisses(w: World, fs: Fighters, u: Uid, buttons: Byte, order: seq<Uid>, x: Uid)
    requires u in fs && x !in fs
    ensures DamageTo(MainAttack(w, fs, u, buttons, order).strikes, x) == 0
  {
    hide StrikeAll, ShotTargets, SwingTargets;
    var gun, sword, dash := fs[u := fs[u].(fireCd := FIRE_COOLDOWN)], fs[u := fs[u].(swordCd := SWORD_COOLDOWN)],
                            fs[u := fs[u].(dashCd := DASH_COOLDOWN)];
    VolleyMisses(gun, u, ShotTargets(w, gun, u, order), GUN_DAMAGE, x);
    VolleyMisses(sword, u, SwingTargets(w.maths, sword, u, SWORD_RANGE, SWORD_ARC, order), SWORD_DAMAGE, x);
    VolleyMisses(dash, u, SwingTargets(w.maths, dash, u, DASH_RANGE, DASH_ARC, order), DASH_DAMAGE, x);
  }

  lemma AttackMisses(w: World, fs: Fighters, u: Uid, buttons: Byte, order: seq<Uid>, lockOrder: seq<Uid>, x: Uid)
    requires u in fs && x !in fs
    ensures DamageTo(Attack(w, fs, u, buttons, order, lockOrder).strikes, x) == 0
  {
    hide MainAttack, StrikeAll, LockTargets;
    var v := MainAttack(w, fs, u, buttons, order);
    MainMisses(w, fs, u, buttons, order, x);
    var f := v.fighters[u];
    if Bit(buttons, BTN_LOCK) && f.lockCharges > 0 {
      var ready := v.fighters[u := f.(lockCharges := f.lockCharges - 1, lockCd := LOCK_COOLDOWN)];
      VolleyMisses(ready, u, LockTargets(w.maths, ready, u, lockOrder), LOCK_DAMAGE, x);
    }
    DamageAppend(v.strikes, ApplyLock(w, v.fighters, u, lockOrder).strikes, x);
  }

  /** One accepted report hurts anybody, present or not, by no more than the weapons that go off. */
  lemma ReportDamage(cfg: Config, w: World, s: Room, m: Msg, x: Uid)
    requires Good(cfg, s) && Accepts(w, s, m)
    ensures DamageTo(Step(cfg, w, s, m).out.strikes, x) <= Power(s.fighters[m.uid], m.report.buttons)
  {
    hide Good, Step, CheckMove, Attack, Fires;
    if x in s.fighters {
      AcceptedAt(cfg, w, s, m, x);
    } else {
      StepIsAttack(cfg, w, s, m);
      AttackMisses(w, s.fighters[m.uid := Primed(s, m.uid, m.report)], m.uid, m.report.buttons, m.order, m.lockOrder, x);
    }
  }

  lemma {:induction false} DamageFromTriggers(cfg: Config, w: World, s: Room, ms: seq<Msg>, u: Uid, x: Uid)
    requires Good(cfg, s) && Present(cfg, w, s, ms, u)
    ensures Over(cfg, w, s, ms, DamageBy(cfg, w, u, x)) <=
            25 * Over(cfg, w, s, ms, Trigger(w, u, Gun)) +
            50 * (Over(cfg, w, s, ms, Trigger(w, u, Sword)) + Over(cfg, w, s, ms, Trigger(w, u, Dash)) +
                  Over(cfg, w, s, ms, Trigger(w, u, Lock)))
  {
    hide Good, Step, Accepts, Fires;
    if ms != [] {
      var init, last := ms[..|ms| - 1], ms[|ms| - 1];
      DamageFromTriggers(cfg, w, s, init, u, x);
      RunGood(cfg, w, s, init);
      var before := Run(cfg, w, s, init);
      NoDamage(x);
      if last.Input? && last.uid == u {
        if Accepts(w, before, last) {
          ReportDamage(cfg, w, before, last, x);
        } else {
          RefusedAt(cfg, w, before, last);
        }
      }
    }
  }

  /** Since joining, what one attacker can do to one target in T ticks, whenever the target comes and goes. */
  lemma DamageRate(cfg: Config, w: World, before: Room, join: Msg, ms: seq<Msg>, u: Uid, x: Uid)
    requires Good(cfg, before) && Stay(cfg, w, before, join, ms, u)
    ensures var s, t := Step(cfg, w, before, join).state, Ticks(ms);
            Over(cfg, w, s, ms, DamageBy(cfg, w, u, x)) <= 25 * (1 + t / 4) + 50 * (2 + t / 8 + t / 45 + t / 300)
  {
    hide Step, Over, Present, Good, Run;
    var s := Step(cfg, w, before, join).state;
    StepGood(cfg, w, before, join);
    DamageFromTriggers(cfg, w, s, ms, u, x);
    TriggerRates(cfg, w, s, ms, u);
    LockRate(cfg, w, before, join, ms, u);
  }
}
