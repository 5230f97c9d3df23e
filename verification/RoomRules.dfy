/** What one message does to a room, said once more field by field and in numbers: what an accepted report records and sets
    off, what a tick counts, what is broadcast and in which order, and who comes and goes. */
module RoomRules {
  import opened Base
  import opened Geometry
  import opened Combat
  import opened Validation
  import opened RoomModel
  import opened VitalSigns
  import opened RoomInvariant
  import opened RoomMovement

  // ----- An accepted report -----

  /** The reporter as the report leaves it before any weapon goes off. */
  ghost predicate Records(f: Fighter, f': Fighter, report: InputReport, tick: int)
  {
    && report.AllFinite()
    && f'.pos == Vec(report.x.v, report.y.v, report.z.v) && f'.yaw == report.yaw.v
    && f'.aimX == report.aimX.v && f'.aimY == report.aimY.v
    && f'.buttons == report.buttons && f'.weapon == report.weapon && f'.anim == report.anim
    && !f'.firstReport && f'.suspicious == 0 && f'.lastReport == tick
    && f'.alt == f.alt
  }

  /** Whether a report is accepted: both moves are -1, 0 or 1, every number is finite, and, unless the player is dead or has not
      reported since it was placed, the step is at most 1.7 across and 4 up or down. */
  lemma ReportAccepted(cfg: Config, w: World, s: Room, m: Msg)
    requires w.maths.Valid() && m.Input? && Possible(s, m) && m.uid in s.fighters
    ensures var f, p := s.fighters[m.uid], m.report;
            Accepts(w, s, m) <==>
              && p.moveX in {-1, 0, 1} && p.moveY in {-1, 0, 1}
              && p.yaw.Fin? && p.aimX.Fin? && p.aimY.Fin? && p.x.Fin? && p.y.Fin? && p.z.Fin?
              && (f.firstReport || f.deadTicks > 0 ||
                  var dx, dy, dz := p.x.v - f.pos.x, p.y.v - f.pos.y, p.z.v - f.pos.z;
                  dx * dx + dz * dz <= 2.89 && -4.0 <= dy <= 4.0)
    ensures !Accepts(w, s, m) ==>
              var f := s.fighters[m.uid];
              Step(cfg, w, s, m) == Result(s.(fighters := s.fighters[m.uid := f.(lastReport := s.tick, suspicious := f.suspicious + 1)]), SILENT)
  {
    hide Maths.Valid, CheckMove;
    CheckMoveExactly(w.maths, s.fighters[m.uid], m.report);
    if !Accepts(w, s, m) {
      RefusedAt(cfg, w, s, m);
      RefusedCount(cfg, w, s, m);
      hide Step;
    }
  }

  /** Nothing but arms and vital signs is different. */
  ghost predicate SameStance(f: Fighter, f': Fighter)
  {
    && f'.pos == f.pos && f'.yaw == f.yaw && f'.aimX == f.aimX && f'.aimY == f.aimY
    && f'.buttons == f.buttons && f'.weapon == f.weapon && f'.anim == f.anim && f'.alt == f.alt
    && f'.firstReport == f.firstReport && f'.suspicious == f.suspicious && f'.lastReport == f.lastReport
  }

  lemma VolleyKeepsStance(fs: Fighters, f: Fighter, u: Uid, ts: seq<Uid>, dmg: nat, x: Uid)
    requires u in fs && x in fs && Targets(fs[u := f], u, ts) && StanceOf(f) == StanceOf(fs[u])
    ensures StanceOf(StrikeAll(fs[u := f], u, ts, dmg).fighters[x]) == StanceOf(fs[x])
  {
    StrikeAllKeeps(fs[u := f], u, ts, dmg, x);
    hide StrikeAll;
  }

  lemma MainKeepsStance(w: World, fs: Fighters, u: Uid, buttons: Byte, order: seq<Uid>, x: Uid)
    requires u in fs && x in fs
    ensures StanceOf(MainAttack(w, fs, u, buttons, order).fighters[x]) == StanceOf(fs[x])
  {
    hide StrikeAll, ShotTargets, SwingTargets, StanceOf;
    assert StanceOf(fs[u].(fireCd := FIRE_COOLDOWN)) == StanceOf(fs[u]) by { Cooling(fs[u]); }
    assert StanceOf(fs[u].(swordCd := SWORD_COOLDOWN)) == StanceOf(fs[u]) by { Cooling(fs[u]); }
    assert StanceOf(fs[u].(dashCd := DASH_COOLDOWN)) == StanceOf(fs[u]) by { Cooling(fs[u]); }
    var shot, sword, dash := fs[u].(fireCd := FIRE_COOLDOWN), fs[u].(swordCd := SWORD_COOLDOWN), fs[u].(dashCd := DASH_COOLDOWN);
    VolleyKeepsStance(fs, shot, u, ShotTargets(w, fs[u := shot], u, order), GUN_DAMAGE, x);
    VolleyKeepsStance(fs, sword, u, SwingTargets(w.maths, fs[u := sword], u, SWORD_RANGE, SWORD_ARC, order), SWORD_DAMAGE, x);
    VolleyKeepsStance(fs, dash, u, SwingTargets(w.maths, fs[u := dash], u, DASH_RANGE, DASH_ARC, order), DASH_DAMAGE, x);
  }

  lemma Cooling(f: Fighter)
    ensures StanceOf(f.(fireCd := FIRE_COOLDOWN)) == StanceOf(f)
    ensures StanceOf(f.(swordCd := SWORD_COOLDOWN)) == StanceOf(f)
    ensures StanceOf(f.(dashCd := DASH_COOLDOWN)) == StanceOf(f)
    ensures f.lockCharges > 0 ==> StanceOf(f.(lockCharges := f.lockCharges - 1, lockCd := LOCK_COOLDOWN)) == StanceOf(f)
  {
  }

  lemma LockKeepsStance(w: World, fs: Fighters, u: Uid, order: seq<Uid>, x: Uid)
    requires u in fs && x in fs
    ensures StanceOf(ApplyLock(w, fs, u, order).fighters[x]) == StanceOf(fs[x])
  {
    hide StrikeAll, LockTargets, StanceOf;
    if fs[u].lockCharges > 0 {
      Cooling(fs[u]);
      var ready := fs[u].(lockCharges := fs[u].lockCharges - 1, lockCd := LOCK_COOLDOWN);
      VolleyKeepsStance(fs, ready, u, LockTargets(w.maths, fs[u := ready], u, order), LOCK_DAMAGE, x);
    }
  }

  /** An accepted report: the reporter's position, angles, buttons and appearance are the report's own, the first-report exemption
      ends and the count of violations is cleared; none of this changes for anybody else. */
  lemma ReportRecorded(cfg: Config, w: World, s: Room, m: Msg)
    requires Accepts(w, s, m)
    ensures var r := Step(cfg, w, s, m).state;
            && r.fighters.Keys == s.fighters.Keys && r.links == s.links && r.tick == s.tick
            && Records(s.fighters[m.uid], r.fighters[m.uid], m.report, s.tick)
            && forall x :: x in s.fighters && x != m.uid ==> SameStance(s.fighters[x], r.fighters[x])
  {
    StepIsAttack(cfg, w, s, m);
    var primed := s.fighters[m.uid := Primed(s, m.uid, m.report)];
    hide Step, MainAttack, ApplyLock;
    var main := MainAttack(w, primed, m.uid, m.report.buttons, m.order);
    var r := Step(cfg, w, s, m).state;
    forall x | x in s.fighters ensures StanceOf(r.fighters[x]) == StanceOf(primed[x]) {
      MainKeepsStance(w, primed, m.uid, m.report.buttons, m.order, x);
      LockKeepsStance(w, main.fighters, m.uid, m.lockOrder, x);
    }
  }

  /** What an accepted report sets off: the gun with bit 0 of its buttons, else the sword with bit 1, else the dash with bit 5; and
      then the lock with bit 7. */
  lemma ReportSetsOff(cfg: Config, w: World, s: Room, m: Msg)
    requires Accepts(w, s, m)
    ensures var r, u, b := Step(cfg, w, s, m), m.uid, m.report.buttons;
            var f := s.fighters[u].(pos := Vec(m.report.x.v, m.report.y.v, m.report.z.v), yaw := m.report.yaw.v,
                                    aimX := m.report.aimX.v, aimY := m.report.aimY.v, buttons := b, weapon := m.report.weapon,
                                    anim := m.report.anim, firstReport := false, suspicious := 0, lastReport := s.tick);
            var fs := s.fighters[u := f];
            var main := if b % 2 == 1 then ApplyShot(w, fs, u, m.order)
                        else if b / 2 % 2 == 1 then ApplySword(w, fs, u, m.order)
                        else if b / 32 % 2 == 1 then ApplyDash(w, fs, u, m.order)
                        else Volley(fs, []);
            var lock := if b / 128 % 2 == 1 then ApplyLock(w, main.fighters, u, m.lockOrder) else Volley(main.fighters, []);
            && r.state.fighters == lock.fighters && r.out.strikes == main.strikes + lock.strikes
  {
    hide ApplyShot, ApplySword, ApplyDash, ApplyLock, Step;
    StepIsAttack(cfg, w, s, m);
    PrimedIs(s, m.uid, m.report);
    hide Primed;
    var main := MainAttack(w, s.fighters[m.uid := Primed(s, m.uid, m.report)], m.uid, m.report.buttons, m.order);
    assert main.strikes + [] == main.strikes;
  }

  lemma PrimedIs(s: Room, u: Uid, report: InputReport)
    requires u in s.fighters && report.AllFinite()
    ensures Primed(s, u, report)
         == s.fighters[u].(pos := Vec(report.x.v, report.y.v, report.z.v), yaw := report.yaw.v,
                           aimX := report.aimX.v, aimY := report.aimY.v, buttons := report.buttons, weapon := report.weapon,
                           anim := report.anim, firstReport := false, suspicious := 0, lastReport := s.tick)
  {
  }

  /** The hits of an accepted report are added to the pending events, in order. */
  lemma ReportPends(cfg: Config, w: World, s: Room, m: Msg)
    requires Accepts(w, s, m)
    ensures var r := Step(cfg, w, s, m);
            && |r.state.pending| == |s.pending| + |r.out.strikes|
            && r.state.pending[..|s.pending|] == s.pending
            && forall i :: 0 <= i < |r.out.strikes| ==> r.state.pending[|s.pending| + i] == r.out.strikes[i].ev
  {
    hide Step, Attack;
    StepIsAttack(cfg, w, s, m);
  }

  // ----- A tick -----

  function Less(n: nat): nat { if n == 0 then 0 else n - 1 }

  /** One tick of one player: every cooldown is one less, a lock below three charges gets one every 300 ticks, and whoever has waited
      out the last dead tick comes back with full health and block at the chosen spawn. */
  ghost predicate Counts(f: Fighter, f': Fighter, spawn: Vec)
  {
    && f'.fireCd == Less(f.fireCd) && f'.swordCd == Less(f.swordCd) && f'.dashCd == Less(f.dashCd) && f'.lockCd == Less(f.lockCd)
    && f'.deadTicks == Less(f.deadTicks)
    && (if f.lockCharges >= 3 then f'.lockCharges == f.lockCharges && f'.lockTimer == f.lockTimer
        else if f.lockTimer >= 299 then f'.lockCharges == f.lockCharges + 1 && f'.lockTimer == 0
        else f'.lockCharges == f.lockCharges && f'.lockTimer == f.lockTimer + 1)
    && (if f.deadTicks == 1 then f'.hp == 100 && f'.block == f.blockMax && f'.pos == spawn && f'.firstReport
        else f'.hp == f.hp && f'.block == f.block && f'.pos == f.pos && f'.firstReport == f.firstReport)
    && f'.blockMax == f.blockMax && f'.score == f.score && f'.deaths == f.deaths
    && f'.yaw == f.yaw && f'.aimX == f.aimX && f'.aimY == f.aimY && f'.buttons == f.buttons
    && f'.weapon == f.weapon && f'.alt == f.alt && f'.anim == f.anim
    && f'.suspicious == f.suspicious && f'.lastReport == f.lastReport
  }

  lemma TickedCounts(f: Fighter, spawn: Vec)
    ensures Counts(f, Ticked(f, spawn), spawn)
  {
  }

  /** A tick: who has been offline for the grace period is taken out, everybody else counts, online marks stay and offline players
      age by one. */
  lemma TickCounts(cfg: Config, w: World, s: Room, m: Msg)
    requires m.Tick?
    ensures var r := Step(cfg, w, s, m).state;
            && r.tick == s.tick + 1
            && (forall u :: u in r.fighters <==> u in s.links && (s.links[u].online || s.links[u].offlineTicks + 1 < cfg.graceTicks))
            && (forall u :: u in r.fighters ==>
                  && u in s.links && u in r.links && u in s.fighters
                  && r.links[u].online == s.links[u].online
                  && r.links[u].offlineTicks == (if s.links[u].online then s.links[u].offlineTicks else s.links[u].offlineTicks + 1)
                  && Counts(s.fighters[u], r.fighters[u], m.spawn(u)))
  {
    var r := Step(cfg, w, s, m).state;
    hide Step, Counts, Ticked;
    TickAt(cfg, w, s, m, 0);
    forall u | u in r.fighters ensures Counts(s.fighters[u], r.fighters[u], m.spawn(u)) {
      TickAt(cfg, w, s, m, u);
      TickedCounts(s.fighters[u], m.spawn(u));
      StillCounts(s.fighters[u], Ticked(s.fighters[u], m.spawn(u)), r.fighters[u], m.spawn(u));
    }
  }

  lemma StillCounts(f: Fighter, f': Fighter, f'': Fighter, spawn: Vec)
    requires Counts(f, f', spawn) && f'' == f'.(justDied := f''.justDied)
    ensures Counts(f, f'', spawn)
  {
  }

  // ----- What a tick broadcasts -----

  /** The message shows the player as the room has it; scores and deaths modulo 65536. */
  ghost predicate Shows(p: Snapshot, f: Fighter)
  {
    && p.pos.x == f.pos.x && p.pos.y == f.pos.y && p.pos.z == f.pos.z && p.yaw == f.yaw
    && p.hp == f.hp && p.weapon == f.weapon && p.alt == f.alt && p.block == f.block && p.anim == f.anim
    && p.score == f.score % 0x1_0000 && p.deaths == f.deaths % 0x1_0000
  }

  /** Somebody has reached the score limit, or the room its time limit; a limit of zero does not count. */
  ghost predicate LimitReached(cfg: Config, fs: Fighters, tick: int)
  {
    || (cfg.settleScore >= 1 && !(forall u :: u in fs ==> fs[u].score < cfg.settleScore))
    || (cfg.settleTicks >= 1 && tick >= cfg.settleTicks)
  }

  /** A death notice stands right behind the hit it is about. */
  ghost predicate NoticeFollows(sent: seq<Broadcast>, i: int)
  {
    0 < i < |sent| && sent[i].DeathMsg? ==> sent[i - 1] == HitMsg(sent[i].ev)
  }

  /** Hits and death notices, no notice without its hit. */
  ghost predicate InOrder(sent: seq<Broadcast>)
  {
    && (sent != [] ==> sent[0].HitMsg?)
    && (forall i :: 0 <= i < |sent| ==> sent[i].HitMsg? || sent[i].DeathMsg?)
    && (forall i :: 0 < i < |sent| ==> NoticeFollows(sent, i))
  }

  lemma {:induction false} DeliveryOrder(fs: Fighters, pending: seq<HitEvent>)
    ensures InOrder(Deliver(fs, pending).sent)
  {
    if pending != [] {
      var init := pending[..|pending| - 1];
      DeliveryOrder(fs, init);
      var before, sent := Deliver(fs, init).sent, Deliver(fs, pending).sent;
      forall i | 0 < i < |sent| ensures NoticeFollows(sent, i) {
        if i < |before| { assert NoticeFollows(before, i); }
      }
    }
  }

  /** What a room that broadcasts sends on a tick: first the state, which shows exactly the players left in the room; then hits, each
      death notice right behind its hit; and last, once in the life of the room, everybody's score. */
  lemma BroadcastShows(cfg: Config, w: World, s: Room, m: Msg)
    requires m.Tick? && s.broadcasting
    ensures var r := Step(cfg, w, s, m);
            && |r.out.sent| >= 1 && r.out.sent[0].StateMsg?
            && r.out.sent[0].players.Keys == r.state.fighters.Keys
            && (forall u :: u in r.state.fighters ==> Shows(r.out.sent[0].players[u], r.state.fighters[u]))
            && (forall i :: 1 <= i < |r.out.sent| ==> !r.out.sent[i].StateMsg? && NoticeFollows(r.out.sent, i))
            && (forall i :: 0 <= i < |r.out.sent| && r.out.sent[i].SettleMsg? ==> i == |r.out.sent| - 1)
    ensures var r := Step(cfg, w, s, m);
            && (r.out.sent[|r.out.sent| - 1].SettleMsg? <==> !s.settled && LimitReached(cfg, r.state.fighters, r.state.tick))
            && (r.out.sent[|r.out.sent| - 1].SettleMsg? ==>
                  var scores := r.out.sent[|r.out.sent| - 1].scores;
                  && scores.Keys == r.state.fighters.Keys
                  && forall u :: u in scores ==> scores[u] == r.state.fighters[u].score % 0x1_0000)
  {
    hide Step, Deliver, Counted;
    TickIs(cfg, w, s, m);
    var t := Counted(cfg, s, m.spawn);
    DeliveryOrder(t.fighters, t.pending);
    forall u ensures u in t.fighters ==> SameButMark(t.fighters[u], Deliver(t.fighters, t.pending).fighters[u]) {
      DeliverAt(t.fighters, t.pending, u);
    }
    BroadcastIs(cfg, t);
    CountedKeepsMost(cfg, s, m.spawn);
  }

  ghost predicate SameButMark(f: Fighter, f': Fighter) { f' == f.(justDied := f'.justDied) }

  lemma CountedKeepsMost(cfg: Config, s: Room, spawn: Uid -> Vec)
    ensures var t := Counted(cfg, s, spawn); t.settled == s.settled
  {
  }

  lemma BroadcastIs(cfg: Config, t: Room)
    requires var d := Deliver(t.fighters, t.pending);
             && (forall u :: u in t.fighters ==> SameButMark(t.fighters[u], d.fighters[u]))
             && InOrder(d.sent)
    ensures var r := BroadcastStep(cfg, t);
            && r.state.fighters.Keys == t.fighters.Keys && r.state.tick == t.tick
            && |r.out.sent| >= 1 && r.out.sent[0].StateMsg?
            && r.out.sent[0].players.Keys == r.state.fighters.Keys
            && (forall u :: u in r.state.fighters ==> Shows(r.out.sent[0].players[u], r.state.fighters[u]))
            && (forall i :: 1 <= i < |r.out.sent| ==> !r.out.sent[i].StateMsg? && NoticeFollows(r.out.sent, i))
            && (forall i :: 0 <= i < |r.out.sent| && r.out.sent[i].SettleMsg? ==> i == |r.out.sent| - 1)
            && (r.out.sent[|r.out.sent| - 1].SettleMsg? <==> !t.settled && LimitReached(cfg, r.state.fighters, t.tick))
            && (r.out.sent[|r.out.sent| - 1].SettleMsg? ==>
                  var scores := r.out.sent[|r.out.sent| - 1].scores;
                  && scores.Keys == r.state.fighters.Keys
                  && forall u :: u in scores ==> scores[u] == r.state.fighters[u].score % 0x1_0000)
  {
    hide Deliver;
    var d, r := Deliver(t.fighters, t.pending), BroadcastStep(cfg, t);
    var sent, n := r.out.sent, |d.sent|;
    var settles := !t.settled && MustSettle(cfg, d.fighters, t.tick);
    assert |sent| == (if settles then n + 2 else n + 1) && (settles ==> sent[n + 1].SettleMsg?);
    forall i | 1 <= i <= n ensures sent[i] == d.sent[i - 1] && (sent[i].HitMsg? || sent[i].DeathMsg?) && NoticeFollows(sent, i) {
      if i > 1 { assert NoticeFollows(d.sent, i - 1); }
    }
    assert MustSettle(cfg, d.fighters, t.tick) <==> LimitReached(cfg, d.fighters, t.tick);
  }

  // ----- Coming and going -----

  /** A newcomer as the room takes it in. */
  ghost predicate Fresh(f: Fighter, at: Vec, tick: int)
  {
    && f.pos == at && f.yaw == 0.0 && f.hp == 100 && f.block == 100.0 && f.blockMax == 100.0
    && f.firstReport && f.lastReport == tick && f.suspicious == 0
    && f.score == 0 && f.deaths == 0 && f.deadTicks == 0 && !f.justDied
    && f.fireCd == 0 && f.swordCd == 0 && f.dashCd == 0 && f.lockCd == 0 && f.lockCharges == 0 && f.lockTimer == 0
    && f.aimX == 0.0 && f.aimY == 0.0 && f.buttons == 0 && f.weapon == 0 && f.alt == 0 && f.anim == 0
  }

  /** A join: whoever is in the room is online again and otherwise as before; a newcomer is refused if the room is full, and
      otherwise stands at the chosen spawn. */
  lemma JoinRule(cfg: Config, w: World, s: Room, u: Uid, at: Vec)
    ensures var r := Step(cfg, w, s, Join(u, at));
            if u in s.fighters then r.out == SILENT && r.state == s.(links := s.links[u := Link(true, 0)])
            else if |s.links| >= cfg.maxPlayers then r.state == s && r.out.full
            else
              && !r.out.full && u in r.state.fighters && Fresh(r.state.fighters[u], at, s.tick)
              && r.state == s.(fighters := s.fighters[u := r.state.fighters[u]], links := s.links[u := Link(true, 0)],
                               hadPlayers := true, emptied := false)
  {
  }

  /** New equipment fills the block bar to its new maximum, 100 and the bonus, of that player alone. */
  lemma EquipRule(cfg: Config, w: World, s: Room, u: Uid, bonus: real)
    ensures var r := Step(cfg, w, s, Equip(u, bonus));
            r.out == SILENT &&
            if u !in s.fighters then r.state == s
            else
              && u in r.state.fighters
              && r.state.fighters[u].block == 100.0 + bonus && r.state.fighters[u].blockMax == 100.0 + bonus
              && r.state.fighters[u] == s.fighters[u].(block := r.state.fighters[u].block, blockMax := r.state.fighters[u].blockMax)
              && r.state == s.(fighters := s.fighters[u := r.state.fighters[u]])
  {
    hide InputStep, TickStep, JoinStep;
  }

  /** Leaving takes one player out; an online mark is set and the offline count starts afresh, if the player is there. */
  lemma RosterRule(cfg: Config, w: World, s: Room, u: Uid, online: bool)
    ensures Step(cfg, w, s, Leave(u)) == Result(s.(fighters := s.fighters - {u}, links := s.links - {u}), SILENT)
    ensures Step(cfg, w, s, Online(u, online))
         == Result(if u in s.links then s.(links := s.links[u := Link(online, 0)]) else s, SILENT)
  {
    hide InputStep, TickStep, JoinStep, Equipped;
  }

  /** The two registrations, the query that takes all pending events away, and the one that changes nothing. */
  lemma SwitchRule(cfg: Config, w: World, s: Room)
    ensures Step(cfg, w, s, SetBroadcast) == Result(s.(broadcasting := true), SILENT)
    ensures Step(cfg, w, s, SetOnEmpty) == Result(s.(notifying := true), SILENT)
    ensures Step(cfg, w, s, Drain) == Result(s.(pending := []), SILENT.(drained := s.pending))
    ensures Step(cfg, w, s, Peek) == Result(s, SILENT)
  {
    hide InputStep, TickStep, JoinStep, Equipped;
  }
}
