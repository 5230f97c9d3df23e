/** What every message keeps, and what one message does to one player. */
module RoomInvariant {
  import opened Base
  import opened Geometry
  import opened Combat
  import opened Validation
  import opened RoomModel
  import opened VitalSigns

  /** The invariant of the room loop. */
  ghost predicate Good(cfg: Config, s: Room)
  {
    && cfg.Valid()
    && (forall u :: u in s.fighters ==> FighterGood(s.fighters[u]))
    && |s.links| <= cfg.maxPlayers
    && (forall u :: u in s.links ==> LinkGood(cfg, s.links[u]))
    && (s.emptied ==> s.links == map[])
    && (s.links != map[] ==> s.hadPlayers)
  }

  predicate LinkGood(cfg: Config, l: Link)
  {
    (l.online ==> l.offlineTicks == 0) && l.offlineTicks < cfg.graceTicks
  }

  predicate FighterGood(f: Fighter) { Of(f).Sound() && ArmsGood(f) }

  predicate ArmsGood(f: Fighter)
  {
    && f.fireCd <= FIRE_COOLDOWN && f.swordCd <= SWORD_COOLDOWN && f.dashCd <= DASH_COOLDOWN
    && f.lockCd <= LOCK_COOLDOWN && f.lockCharges <= LOCK_MAX_CHARGES && f.lockTimer < LOCK_CHARGE_TICKS
  }

  lemma NewRoomGood(cfg: Config)
    requires cfg.Valid()
    ensures Good(cfg, NEW_ROOM)
  {
  }

  /** An accepted report before its weapons go off. */
  function Primed(s: Room, u: Uid, report: InputReport): Fighter
    requires u in s.fighters && report.AllFinite()
  {
    Accepted(MarkViolation(s.fighters[u].(lastReport := s.tick), true), report)
  }

  ghost predicate Accepts(w: World, s: Room, m: Msg)
  {
    && m.Input? && Possible(s, m) && m.uid in s.fighters
    && CheckMove(w.maths, s.fighters[m.uid], m.report)
  }

  /** An accepted report: the log explains the vital signs, and only the reporter's arms and stance change. */
  lemma AcceptedAt(cfg: Config, w: World, s: Room, m: Msg, x: Uid)
    requires Good(cfg, s) && Accepts(w, s, m) && x in s.fighters
    ensures var r := Step(cfg, w, s, m);
            var f, f' := s.fighters[x], r.state.fighters[x];
            && r.state.fighters.Keys == s.fighters.Keys && r.state.links == s.links
            && Of(f') == Tolls(Of(f), x, r.out.strikes) && AllLawful(Of(f), x, r.out.strikes) && Of(f').Sound()
            && DamageTo(r.out.strikes, x) <= Power(s.fighters[m.uid], m.report.buttons)
            && (forall i :: 0 <= i < |r.out.strikes| ==> r.out.strikes[i].ev.shooter == m.uid)
            && ArmsOf(f') == (if x == m.uid then Spent(f, m.report.buttons) else ArmsOf(f))
            && StanceOf(f') == (if x == m.uid then StanceOf(Primed(s, x, m.report)) else StanceOf(f))
            && r.state == s.(fighters := r.state.fighters, pending := s.pending + Events(r.out.strikes))
            && r.out == SILENT.(strikes := r.out.strikes)
  {
    hide Attack, Tolls, AllLawful, DamageTo, CheckMove, Fires;
    CheckIgnoresTime(w.maths, s.fighters[m.uid], m.report, s.tick);
    var primed := s.fighters[m.uid := Primed(s, m.uid, m.report)];
    assert primed.Keys == s.fighters.Keys;
    PrimedKeeps(s, m.uid, m.report);
    forall p | p in primed ensures Of(primed[p]) == Of(s.fighters[p]) {
    }
    AttackExplained(w, primed, m.uid, m.report.buttons, m.order, m.lockOrder, x);
    StepIsAttack(cfg, w, s, m);
  }

  lemma CheckIgnoresTime(m: Maths, f: Fighter, report: InputReport, tick: int)
    ensures CheckMove(m, f.(lastReport := tick), report) == CheckMove(m, f, report)
  {
  }

  lemma PrimedKeeps(s: Room, u: Uid, report: InputReport)
    requires u in s.fighters && report.AllFinite()
    ensures var f := Primed(s, u, report);
            && Of(f) == Of(s.fighters[u]) && ArmsOf(f) == ArmsOf(s.fighters[u])
            && Spent(f, report.buttons) == Spent(s.fighters[u], report.buttons)
            && Power(f, report.buttons) == Power(s.fighters[u], report.buttons)
  {
  }

  lemma StepIsAttack(cfg: Config, w: World, s: Room, m: Msg)
    requires Accepts(w, s, m)
    ensures var v := Attack(w, s.fighters[m.uid := Primed(s, m.uid, m.report)], m.uid, m.report.buttons, m.order, m.lockOrder);
            Step(cfg, w, s, m) == Result(s.(fighters := v.fighters, pending := s.pending + Events(v.strikes)),
                                         SILENT.(strikes := v.strikes))
  {
    hide Attack, CheckMove;
    CheckIgnoresTime(w.maths, s.fighters[m.uid], m.report, s.tick);
  }

  /** A refused report, or one for a player who is not there. */
  lemma RefusedAt(cfg: Config, w: World, s: Room, m: Msg)
    requires m.Input? && !Accepts(w, s, m)
    ensures var r := Step(cfg, w, s, m);
            && r.out == SILENT
            && (r.state == s ||
                (m.uid in s.fighters && Possible(s, m) &&
                 r.state == s.(fighters := s.fighters[m.uid :=
                   s.fighters[m.uid].(lastReport := s.tick, suspicious := s.fighters[m.uid].suspicious + 1)])))
  {
  }

  lemma RefusedCount(cfg: Config, w: World, s: Room, m: Msg)
    requires m.Input? && !Accepts(w, s, m)
    ensures Step(cfg, w, s, m).state ==
            if m.uid in s.fighters && Possible(s, m) then
              s.(fighters := s.fighters[m.uid :=
                s.fighters[m.uid].(lastReport := s.tick, suspicious := s.fighters[m.uid].suspicious + 1)])
            else s
  {
    if m.uid in s.fighters {
      CheckIgnoresTime(w.maths, s.fighters[m.uid], m.report, s.tick);
    }
  }

  /** The room between the counting part and the broadcast part of a tick. */
  ghost function Counted(cfg: Config, s: Room, spawn: Uid -> Vec): Room
  {
    var aged := Aged(s.links);
    var gone := Expired(cfg, aged);
    s.(tick := s.tick + 1, fighters := TickedAll(s.fighters, spawn) - gone, links := aged - gone,
       emptied := s.emptied || (aged - gone == map[] && s.hadPlayers && !s.emptied))
  }

  ghost function Respawned(s: Room): set<Uid> { set u | u in s.fighters && s.fighters[u].deadTicks == 1 }

  /** A tick counts first, then broadcasts if anybody listens. */
  lemma TickIs(cfg: Config, w: World, s: Room, m: Msg)
    requires m.Tick?
    ensures var t := Counted(cfg, s, m.spawn);
            var sent := if s.broadcasting then BroadcastStep(cfg, t).out.sent else [];
            Step(cfg, w, s, m) ==
            Result(if s.broadcasting then BroadcastStep(cfg, t).state else t,
                   Out([], sent, [], Respawned(s), t.emptied && !s.emptied && s.notifying, false))
  {
    hide BroadcastStep, TickedAll, Aged, Expired;
  }

  /** One tick: everybody's counters move on, and at most the death mark is cleared by the broadcast. */
  lemma TickAt(cfg: Config, w: World, s: Room, m: Msg, x: Uid)
    requires m.Tick?
    ensures var r := Step(cfg, w, s, m);
            && r.out.strikes == [] && r.out.drained == [] && !r.out.full
            && r.state.links == Aged(s.links) - Expired(cfg, Aged(s.links))
            && r.state.tick == s.tick + 1
            && r.state.hadPlayers == s.hadPlayers && r.state.broadcasting == s.broadcasting
            && r.state.notifying == s.notifying
            && r.state.emptied == (s.emptied || (r.state.links == map[] && s.hadPlayers))
            && r.out.emptiedNow == (r.state.emptied && !s.emptied && s.notifying)
            && (x in r.state.fighters ==>
                  && x in s.fighters
                  && var f' := r.state.fighters[x];
                     && f' == Ticked(s.fighters[x], m.spawn(x)).(justDied := f'.justDied)
                     && (f'.justDied ==> s.fighters[x].justDied))
  {
    var aged := Aged(s.links);
    var gone := Expired(cfg, aged);
    var ticked := TickedAll(s.fighters, m.spawn) - gone;
    DeliverAt(ticked, s.pending, x);
  }

  /** Announcing deaths changes nothing but the death marks. */
  lemma {:induction false} DeliverAt(fs: Fighters, pending: seq<HitEvent>, x: Uid)
    ensures x in fs ==>
              var f' := Deliver(fs, pending).fighters[x];
              f' == fs[x].(justDied := f'.justDied) && (f'.justDied ==> fs[x].justDied)
  {
    if pending != [] {
      DeliverAt(fs, pending[..|pending| - 1], x);
    }
  }

  lemma SpentGood(f: Fighter, buttons: Byte, f': Fighter)
    requires ArmsGood(f) && (ArmsOf(f') == ArmsOf(f) || ArmsOf(f') == Spent(f, buttons))
    ensures ArmsGood(f')
  {
  }

  lemma TickedGood(f: Fighter, spawn: Vec, f': Fighter)
    requires FighterGood(f) && f' == Ticked(f, spawn).(justDied := f'.justDied)
    ensures FighterGood(f')
  {
  }

  lemma SameCombatState(f: Fighter, f': Fighter)
    requires FighterGood(f) && Of(f').(block := f.block, blockMax := f.blockMax) == Of(f) && ArmsOf(f') == ArmsOf(f)
    ensures FighterGood(f')
  {
  }

  lemma RefusedGood(f: Fighter, tick: int, count: nat)
    requires FighterGood(f)
    ensures FighterGood(f.(lastReport := tick, suspicious := count))
  {
  }

  lemma NewcomerGood(at: Vec, tick: int)
    ensures FighterGood(Newcomer(at, tick))
  {
  }

  lemma FewerKeys(m: Links, n: Links)
    requires m.Keys <= n.Keys
    ensures |m| <= |n|
  {
    var rest := n.Keys - m.Keys;
    assert n.Keys == m.Keys + rest;
    assert |n.Keys| == |m.Keys| + |rest|;
  }

  lemma AcceptedGood(cfg: Config, w: World, s: Room, m: Msg, x: Uid)
    requires Good(cfg, s) && Accepts(w, s, m) && x in s.fighters
    ensures x in Step(cfg, w, s, m).state.fighters && FighterGood(Step(cfg, w, s, m).state.fighters[x])
  {
    hide Step, Attack, Tolls, Of, Spent, ArmsGood, Good;
    assert ArmsGood(s.fighters[x]) by { ArmsAreGood(cfg, s, x); }
    AcceptedAt(cfg, w, s, m, x);
    SpentGood(s.fighters[x], m.report.buttons, Step(cfg, w, s, m).state.fighters[x]);
  }

  lemma ArmsAreGood(cfg: Config, s: Room, x: Uid)
    requires Good(cfg, s) && x in s.fighters
    ensures FighterGood(s.fighters[x]) && ArmsGood(s.fighters[x])
  {
  }

  lemma InputGood(cfg: Config, w: World, s: Room, m: Msg)
    requires Good(cfg, s) && m.Input?
    ensures Good(cfg, Step(cfg, w, s, m).state)
  {
    hide Of, ArmsOf, Spent, Step, FighterGood;
    var s' := Step(cfg, w, s, m).state;
    if Accepts(w, s, m) {
      AcceptedAt(cfg, w, s, m, m.uid);
      forall x | x in s.fighters ensures FighterGood(s'.fighters[x]) {
        AcceptedGood(cfg, w, s, m, x);
      }
    } else {
      RefusedAt(cfg, w, s, m);
      if s' != s { RefusedGood(s.fighters[m.uid], s.tick, s.fighters[m.uid].suspicious + 1); }
    }
  }

  lemma JoinGood(cfg: Config, w: World, s: Room, m: Msg)
    requires Good(cfg, s) && m.Join?
    ensures Good(cfg, Step(cfg, w, s, m).state)
  {
    hide FighterGood, Newcomer, InputStep, TickStep, Equipped;
    NewcomerGood(m.at, s.tick);
  }

  lemma LeaveGood(cfg: Config, w: World, s: Room, m: Msg)
    requires Good(cfg, s) && m.Leave?
    ensures Good(cfg, Step(cfg, w, s, m).state)
  {
    hide FighterGood;
    FewerKeys(s.links - {m.uid}, s.links);
  }

  lemma EquipStepGood(cfg: Config, w: World, s: Room, m: Msg)
    requires Good(cfg, s) && m.Equip?
    ensures Good(cfg, Step(cfg, w, s, m).state)
  {
    hide FighterGood, Equipped;
    if m.uid in s.fighters {
      EquipGood(s, m.uid, m.bonus);
    }
    EquipOthers(s, m.uid, m.bonus);
  }

  lemma EquipOthers(s: Room, u: Uid, bonus: real)
    ensures u !in s.fighters ==> Equipped(s, u, bonus) == s
    ensures u in s.fighters ==> Equipped(s, u, bonus) == s.(fighters := s.fighters[u := Equipped(s, u, bonus).fighters[u]])
  {
  }

  lemma OtherGood(cfg: Config, w: World, s: Room, m: Msg)
    requires Good(cfg, s) && (m.Online? || m.SetBroadcast? || m.SetOnEmpty? || m.Drain? || m.Peek?)
    ensures Good(cfg, Step(cfg, w, s, m).state)
  {
    hide FighterGood;
  }

  /** Every message keeps the invariant. */
  lemma StepGood(cfg: Config, w: World, s: Room, m: Msg)
    requires Good(cfg, s)
    ensures Good(cfg, Step(cfg, w, s, m).state)
  {
    hide Step, Good;
    match m {
      case Input(_, _, _, _) => InputGood(cfg, w, s, m);
      case Tick(_) => TickGood(cfg, w, s, m);
      case Join(_, _) => JoinGood(cfg, w, s, m);
      case Equip(_, _) => EquipStepGood(cfg, w, s, m);
      case Leave(_) => LeaveGood(cfg, w, s, m);
      case Online(_, _) => OtherGood(cfg, w, s, m);
      case SetBroadcast => OtherGood(cfg, w, s, m);
      case SetOnEmpty => OtherGood(cfg, w, s, m);
      case Drain => OtherGood(cfg, w, s, m);
      case Peek => OtherGood(cfg, w, s, m);
    }
  }

  lemma EquipGood(s: Room, u: Uid, bonus: real)
    requires u in s.fighters && FighterGood(s.fighters[u])
    ensures FighterGood(Equipped(s, u, bonus).fighters[u])
  {
    SameCombatState(s.fighters[u], Equipped(s, u, bonus).fighters[u]);
  }

  lemma TickGood(cfg: Config, w: World, s: Room, m: Msg)
    requires Good(cfg, s) && m.Tick?
    ensures Good(cfg, Step(cfg, w, s, m).state)
  {
    hide Of, ArmsOf, FighterGood, Step;
    var s' := Step(cfg, w, s, m).state;
    forall x | x in s'.fighters ensures FighterGood(s'.fighters[x]) {
      TickAt(cfg, w, s, m, x);
      TickedGood(s.fighters[x], m.spawn(x), s'.fighters[x]);
    }
    TickAt(cfg, w, s, m, 0);
    FewerKeys(s'.links, s.links);
  }

  lemma {:induction false} RunGood(cfg: Config, w: World, s: Room, ms: seq<Msg>)
    requires Good(cfg, s)
    ensures Good(cfg, Run(cfg, w, s, ms))
  {
    if ms != [] {
      RunGood(cfg, w, s, ms[..|ms| - 1]);
      StepGood(cfg, w, Run(cfg, w, s, ms[..|ms| - 1]), ms[|ms| - 1]);
    }
  }
}
