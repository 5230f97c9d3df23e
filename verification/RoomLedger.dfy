/** Conservation laws of a stay in a room: damage, deaths, kills and block, over every run. */
module RoomLedger {
  import opened Base
  import opened Geometry
  import opened Combat
  import opened Validation
  import opened RoomModel
  import opened VitalSigns
  import opened RoomInvariant

  // ----- Stays -----

  /** `u` is in the room at every moment of the run. */
  ghost predicate Present(cfg: Config, w: World, s: Room, ms: seq<Msg>, u: Uid)
  {
    u in Run(cfg, w, s, ms).fighters && (ms == [] || Present(cfg, w, s, ms[..|ms| - 1], u))
  }

  /** Total of a weight over the steps of a run; the weight sees the state before the step. */
  ghost function Over(cfg: Config, w: World, s: Room, ms: seq<Msg>, weight: (Room, Msg) -> int): int
  {
    if ms == [] then 0
    else
      var init := ms[..|ms| - 1];
      Over(cfg, w, s, init, weight) + weight(Run(cfg, w, s, init), ms[|ms| - 1])
  }

  /** `u` joins anew with `join` and stays for the messages `ms`. */
  ghost predicate Stay(cfg: Config, w: World, before: Room, join: Msg, ms: seq<Msg>, u: Uid)
  {
    && join.Join? && join.uid == u && u !in before.fighters
    && Present(cfg, w, Step(cfg, w, before, join).state, ms, u)
  }

  /** Everyone who is in a reachable room is there by a stay. */
  lemma {:induction false} StayOf(cfg: Config, w: World, ms: seq<Msg>, u: Uid) returns (i: nat)
    requires u in Run(cfg, w, NEW_ROOM, ms).fighters
    ensures i < |ms| && Stay(cfg, w, Run(cfg, w, NEW_ROOM, ms[..i]), ms[i], ms[i + 1..], u)
  {
    hide Step;
    var init, last := ms[..|ms| - 1], ms[|ms| - 1];
    var before := Run(cfg, w, NEW_ROOM, init);
    if u in before.fighters {
      i := StayOf(cfg, w, init, u);
      assert ms[..i] == init[..i];
      ExtendStay(cfg, w, ms, i, u);
    } else {
      i := |ms| - 1;
      OnlyJoinAdds(cfg, w, before, last, u);
      assert ms[i + 1..] == [];
    }
  }

  lemma ExtendStay(cfg: Config, w: World, ms: seq<Msg>, i: nat, u: Uid)
    requires i < |ms| - 1 && u in Run(cfg, w, NEW_ROOM, ms).fighters
    requires Stay(cfg, w, Run(cfg, w, NEW_ROOM, ms[..i]), ms[i], ms[..|ms| - 1][i + 1..], u)
    ensures Stay(cfg, w, Run(cfg, w, NEW_ROOM, ms[..i]), ms[i], ms[i + 1..], u)
  {
    hide Step;
    var rest := ms[i + 1..];
    assert rest[..|rest| - 1] == ms[..|ms| - 1][i + 1..];
    RunFromStay(cfg, w, ms, i);
  }

  lemma RunFromStay(cfg: Config, w: World, ms: seq<Msg>, i: nat)
    requires i < |ms|
    ensures Run(cfg, w, Step(cfg, w, Run(cfg, w, NEW_ROOM, ms[..i]), ms[i]).state, ms[i + 1..]) == Run(cfg, w, NEW_ROOM, ms)
  {
    hide Step;
    var first := ms[..i + 1];
    assert first[..|first| - 1] == ms[..i] && first[|first| - 1] == ms[i];
    assert first + ms[i + 1..] == ms;
    RunAppend(cfg, w, NEW_ROOM, first, ms[i + 1..]);
  }

  lemma OnlyJoinAdds(cfg: Config, w: World, s: Room, m: Msg, u: Uid)
    requires u !in s.fighters && u in Step(cfg, w, s, m).state.fighters
    ensures m.Join? && m.uid == u
  {
    hide Attack, Deliver;
    if m.Tick? { TickAt(cfg, w, s, m, u); }
    if m.Input? { InputKeys(cfg, w, s, m); }
  }

  lemma InputKeys(cfg: Config, w: World, s: Room, m: Msg)
    requires m.Input?
    ensures Step(cfg, w, s, m).state.fighters.Keys == s.fighters.Keys
    ensures Step(cfg, w, s, m).state.links == s.links
  {
    hide Attack;
    if Accepts(w, s, m) {
      StepIsAttack(cfg, w, s, m);
    } else {
      RefusedAt(cfg, w, s, m);
    }
  }

  // ----- One step -----

  /** The passing of one tick: the death timer runs down and at its end health and block are full again. */
  function Rested(v: Vitals): Vitals
  {
    if v.deadTicks == 1 then v.(deadTicks := 0, hp := MAX_HP, block := v.blockMax)
    else v.(deadTicks := CountDown(v.deadTicks))
  }

  predicate Refills(s: Room, m: Msg, u: Uid)
  {
    (m.Equip? && m.uid == u) || (m.Tick? && u in s.fighters && s.fighters[u].deadTicks == 1)
  }

  /** Vital signs across any one message. */
  lemma VitalStep(cfg: Config, w: World, s: Room, m: Msg, u: Uid)
    requires Good(cfg, s) && u in s.fighters && u in Step(cfg, w, s, m).state.fighters
    ensures var r := Step(cfg, w, s, m);
            var v, v' := Of(s.fighters[u]), Of(r.state.fighters[u]);
            && v.Sound() && v'.Sound()
            && AllLawful(v, u, r.out.strikes)
            && (m.Tick? ==> r.out.strikes == [] && v' == Rested(v).(justDied := v'.justDied) && (v'.justDied ==> v.justDied))
            && (!m.Tick? && !Refills(s, m, u) ==> v' == Tolls(v, u, r.out.strikes))
            && (m.Equip? && m.uid == u ==> r.out.strikes == [] && v' == v.(block := v'.block, blockMax := v'.block))
  {
    hide AllLawful, Tolls, Good, Step, FighterGood, Accepts;
    assert FighterGood(s.fighters[u]) by { ArmsAreGood(cfg, s, u); }
    StepGood(cfg, w, s, m);
    ArmsAreGood(cfg, Step(cfg, w, s, m).state, u);
    SoundOf(s.fighters[u]);
    SoundOf(Step(cfg, w, s, m).state.fighters[u]);
    NoTolls(Of(s.fighters[u]), u);
    if m.Input? {
      if Accepts(w, s, m) {
        AcceptedAt(cfg, w, s, m, u);
      } else {
        RefusedAt(cfg, w, s, m);
      }
    } else if m.Tick? {
      TickAt(cfg, w, s, m, u);
      TickedVitals(s.fighters[u], m.spawn(u));
    } else {
      OtherVitals(cfg, w, s, m, u);
    }
  }

  lemma OtherVitals(cfg: Config, w: World, s: Room, m: Msg, u: Uid)
    requires !m.Input? && !m.Tick? && u in s.fighters && u in Step(cfg, w, s, m).state.fighters
    ensures var r := Step(cfg, w, s, m);
            var v, v' := Of(s.fighters[u]), Of(r.state.fighters[u]);
            && r.out.strikes == []
            && (!Refills(s, m, u) ==> v' == v)
            && (m.Equip? && m.uid == u ==> v' == v.(block := v'.block, blockMax := v'.block))
  {
    hide InputStep, TickStep, Equipped;
    if m.Equip? {
      EquipOthers(s, m.uid, m.bonus);
      if m.uid == u { EquippedVitals(s, u, m.bonus); }
    }
  }

  lemma EquippedVitals(s: Room, u: Uid, bonus: real)
    requires u in s.fighters
    ensures var v := Of(Equipped(s, u, bonus).fighters[u]);
            v == Of(s.fighters[u]).(block := v.block, blockMax := v.block)
  {
  }

  lemma SoundOf(f: Fighter)
    requires FighterGood(f)
    ensures Of(f).Sound()
  {
  }

  lemma NoTolls(v: Vitals, u: Uid)
    ensures Tolls(v, u, []) == v && AllLawful(v, u, [])
  {
  }

  lemma TickedVitals(f: Fighter, spawn: Vec)
    ensures Of(Ticked(f, spawn)) == Rested(Of(f))
  {
  }

  // ----- The damage ledger -----

  /** What a player has suffered in all, as its vital signs tell it. */
  function Wounds(v: Vitals): int { 100 * v.deaths + if v.deadTicks > 0 then 0 else 100 - v.hp }

  ghost function DamageWeight(cfg: Config, w: World, u: Uid): (Room, Msg) -> int
  {
    (s: Room, m: Msg) => DamageTo(Step(cfg, w, s, m).out.strikes, u)
  }

  lemma {:induction false} TollsWound(v: Vitals, u: Uid, xs: seq<Strike>)
    requires v.Sound() && AllLawful(v, u, xs)
    ensures Tolls(v, u, xs).Sound()
    ensures Wounds(Tolls(v, u, xs)) == Wounds(v) + DamageTo(xs, u)
    ensures 60 * Tolls(v, u, xs).deaths - Tolls(v, u, xs).deadTicks == 60 * v.deaths - v.deadTicks
    ensures Tolls(v, u, xs).block == v.block - 10.0 * (Blocked(xs, u) as real)
    ensures Tolls(v, u, xs).blockMax == v.blockMax
    ensures v.block >= 0.0 ==> Tolls(v, u, xs).block >= 0.0
    ensures v.block < 10.0 ==> Blocked(xs, u) == 0
  {
    if xs != [] {
      TollsWound(v, u, xs[..|xs| - 1]);
    }
  }

  /** Number of logged strikes on `u` that were blocked. */
  ghost function Blocked(xs: seq<Strike>, u: Uid): nat
  {
    if xs == [] then 0
    else Blocked(xs[..|xs| - 1], u) + if xs[|xs| - 1].ev.target == u && xs[|xs| - 1].blocked then 1 else 0
  }

  lemma {:induction false} WoundsOver(cfg: Config, w: World, s: Room, ms: seq<Msg>, u: Uid)
    requires Good(cfg, s) && Present(cfg, w, s, ms, u)
    ensures u in s.fighters
    ensures Wounds(Of(Run(cfg, w, s, ms).fighters[u])) ==
            Wounds(Of(s.fighters[u])) + Over(cfg, w, s, ms, DamageWeight(cfg, w, u))
  {
    hide Of, Good, Step, Tolls, DamageTo, AllLawful;
    if ms != [] {
      var init, last := ms[..|ms| - 1], ms[|ms| - 1];
      WoundsOver(cfg, w, s, init, u);
      RunGood(cfg, w, s, init);
      var before := Run(cfg, w, s, init);
      VitalStep(cfg, w, before, last, u);
      NoDamage(u);
      if !last.Tick? && !Refills(before, last, u) {
        TollsWound(Of(before.fighters[u]), u, Step(cfg, w, before, last).out.strikes);
      }
    }
  }

  lemma NoDamage(u: Uid)
    ensures DamageTo([], u) == 0 && Blocked([], u) == 0
  {
  }

  /** Damage ledger: from joining on, the damage of all hit events naming a player as their target is
      100 per death, plus what is missing from its health while it lives. */
  lemma DamageLedger(cfg: Config, w: World, before: Room, join: Msg, ms: seq<Msg>, u: Uid)
    requires Good(cfg, before) && Stay(cfg, w, before, join, ms, u)
    ensures var s := Step(cfg, w, before, join).state;
            var f := Run(cfg, w, s, ms).fighters[u];
            && Over(cfg, w, s, ms, DamageWeight(cfg, w, u)) == 100 * f.deaths + (if f.Dead() then 0 else 100 - f.hp)
            && 0 <= f.hp <= 100 && (f.hp == 0 <==> f.Dead()) && f.deadTicks <= RESPAWN_TICKS
  {
    hide Good, Step;
    var s := Step(cfg, w, before, join).state;
    StepGood(cfg, w, before, join);
    WoundsOver(cfg, w, s, ms, u);
    RunGood(cfg, w, s, ms);
    ArmsAreGood(cfg, Run(cfg, w, s, ms), u);
    JoinedFresh(cfg, w, before, join);
  }

  lemma JoinedFresh(cfg: Config, w: World, s: Room, join: Msg)
    requires join.Join? && join.uid !in s.fighters && join.uid in Step(cfg, w, s, join).state.fighters
    ensures Step(cfg, w, s, join).state.fighters[join.uid] == Newcomer(join.at, s.tick)
  {
  }

  // ----- Death rate -----

  lemma {:induction false} DeathsOver(cfg: Config, w: World, s: Room, ms: seq<Msg>, u: Uid)
    requires Good(cfg, s) && Present(cfg, w, s, ms, u)
    ensures u in s.fighters
    ensures var f, f' := s.fighters[u], Run(cfg, w, s, ms).fighters[u];
            60 * f'.deaths - f'.deadTicks <= 60 * f.deaths - f.deadTicks + Ticks(ms) && f.deaths <= f'.deaths
  {
    hide Good, Step, Tolls, AllLawful;
    if ms != [] {
      var init, last := ms[..|ms| - 1], ms[|ms| - 1];
      DeathsOver(cfg, w, s, init, u);
      RunGood(cfg, w, s, init);
      var before := Run(cfg, w, s, init);
      VitalStep(cfg, w, before, last, u);
      if !last.Tick? && !Refills(before, last, u) {
        TollsWound(Of(before.fighters[u]), u, Step(cfg, w, before, last).out.strikes);
        DeathsGrow(Of(before.fighters[u]), u, Step(cfg, w, before, last).out.strikes);
      }
    }
  }

  lemma {:induction false} DeathsGrow(v: Vitals, u: Uid, xs: seq<Strike>)
    ensures v.deaths <= Tolls(v, u, xs).deaths
  {
    if xs != [] { DeathsGrow(v, u, xs[..|xs| - 1]); }
  }

  /** A player dies at most once in 60 ticks. */
  lemma DeathRate(cfg: Config, w: World, before: Room, join: Msg, ms: seq<Msg>, u: Uid)
    requires Good(cfg, before) && Stay(cfg, w, before, join, ms, u)
    ensures var f := Run(cfg, w, Step(cfg, w, before, join).state, ms).fighters[u];
            && 60 * f.deaths <= Ticks(ms) + f.deadTicks
            && f.deaths <= Ticks(ms) / 60 + 1
  {
    hide Good, Step;
    var s := Step(cfg, w, before, join).state;
    StepGood(cfg, w, before, join);
    DeathsOver(cfg, w, s, ms, u);
    JoinedFresh(cfg, w, before, join);
    RunGood(cfg, w, s, ms);
    ArmsAreGood(cfg, Run(cfg, w, s, ms), u);
  }

  // ----- Block budget -----

  /** Blocked hits on `u` since its block bar was last filled up. */
  ghost function BlockedSinceRefill(cfg: Config, w: World, s: Room, ms: seq<Msg>, u: Uid): nat
  {
    if ms == [] then 0
    else
      var init, last := ms[..|ms| - 1], ms[|ms| - 1];
      var before := Run(cfg, w, s, init);
      if Refills(before, last, u) then 0
      else BlockedSinceRefill(cfg, w, s, init, u) + Blocked(Step(cfg, w, before, last).out.strikes, u)
  }

  lemma {:induction false} BlockOver(cfg: Config, w: World, s: Room, ms: seq<Msg>, u: Uid)
    requires Good(cfg, s) && Present(cfg, w, s, ms, u)
    requires u in s.fighters && s.fighters[u].block == s.fighters[u].blockMax
    ensures var f := Run(cfg, w, s, ms).fighters[u];
            var n := BlockedSinceRefill(cfg, w, s, ms, u);
            && 10.0 * (n as real) + f.block == f.blockMax
            && (f.blockMax >= 0.0 ==> f.block >= 0.0)
            && (n > 0 ==> f.block >= 0.0)
  {
    hide Good, Step, Tolls, AllLawful, Blocked;
    if ms != [] {
      var init, last := ms[..|ms| - 1], ms[|ms| - 1];
      BlockOver(cfg, w, s, init, u);
      RunGood(cfg, w, s, init);
      var before := Run(cfg, w, s, init);
      VitalStep(cfg, w, before, last, u);
      NoDamage(u);
      if !last.Tick? && !Refills(before, last, u) {
        TollsWound(Of(before.fighters[u]), u, Step(cfg, w, before, last).out.strikes);
      }
    }
  }

  /** Block budget: ten points per blocked hit since the last refill account for all missing block, whatever
      the equipment bonus; so at most a tenth of the bar of hits can be blocked on one filling. */
  lemma BlockBudget(cfg: Config, w: World, before: Room, join: Msg, ms: seq<Msg>, u: Uid)
    requires Good(cfg, before) && Stay(cfg, w, before, join, ms, u)
    ensures var s := Step(cfg, w, before, join).state;
            var f := Run(cfg, w, s, ms).fighters[u];
            var n := BlockedSinceRefill(cfg, w, s, ms, u);
            && 10.0 * (n as real) + f.block == f.blockMax
            && (f.blockMax >= 0.0 ==> 0.0 <= f.block <= f.blockMax)
            && (n > 0 ==> 10.0 * (n as real) <= f.blockMax)
  {
    hide Good, Step;
    var s := Step(cfg, w, before, join).state;
    StepGood(cfg, w, before, join);
    PresentFromStart(cfg, w, s, ms, u);
    JoinedFresh(cfg, w, before, join);
    BlockOver(cfg, w, s, ms, u);
  }

  lemma {:induction false} PresentFromStart(cfg: Config, w: World, s: Room, ms: seq<Msg>, u: Uid)
    requires Present(cfg, w, s, ms, u)
    ensures u in s.fighters
  {
    if ms != [] { PresentFromStart(cfg, w, s, ms[..|ms| - 1], u); }
  }
}
