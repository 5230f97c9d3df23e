/** Events leave the room exactly once and in order; deaths are announced exactly once. */
module RoomDelivery {
  import opened Base
  import opened Geometry
  import opened Combat
  import opened Validation
  import opened RoomModel
  import opened VitalSigns
  import opened RoomInvariant
  import opened RoomLedger

  /** The hit events of a list of broadcasts, in order. */
  ghost function HitsSent(sent: seq<Broadcast>): seq<HitEvent>
  {
    if sent == [] then []
    else
      var last := sent[|sent| - 1];
      HitsSent(sent[..|sent| - 1]) + if last.HitMsg? then [last.ev] else []
  }

  /** What a step hands out: by drain or by broadcast. */
  ghost function HandedOut(out: Out): seq<HitEvent> { out.drained + HitsSent(out.sent) }

  ghost function AllHandedOut(cfg: Config, w: World, s: Room, ms: seq<Msg>): seq<HitEvent>
  {
    if ms == [] then []
    else
      var init := ms[..|ms| - 1];
      AllHandedOut(cfg, w, s, init) + HandedOut(Step(cfg, w, Run(cfg, w, s, init), ms[|ms| - 1]).out)
  }

  ghost function AllProduced(cfg: Config, w: World, s: Room, ms: seq<Msg>): seq<HitEvent>
  {
    if ms == [] then []
    else
      var init := ms[..|ms| - 1];
      AllProduced(cfg, w, s, init) + Events(Step(cfg, w, Run(cfg, w, s, init), ms[|ms| - 1]).out.strikes)
  }

  lemma {:induction false} HitsAppend(a: seq<Broadcast>, b: seq<Broadcast>)
    ensures HitsSent(a + b) == HitsSent(a) + HitsSent(b)
  {
    if b == [] {
      assert a + b == a;
    } else {
      assert (a + b)[..|a + b| - 1] == a + b[..|b| - 1];
      HitsAppend(a, b[..|b| - 1]);
    }
  }

  /** Delivery announces the pending events, all of them, in their order. */
  lemma {:induction false} DeliverInOrder(fs: Fighters, pending: seq<HitEvent>)
    ensures HitsSent(Deliver(fs, pending).sent) == pending
  {
    if pending != [] {
      var init, ev := pending[..|pending| - 1], pending[|pending| - 1];
      DeliverInOrder(fs, init);
      OneMoreHit(Deliver(fs, init).sent, ev);
      assert pending == init + [ev];
    }
  }

  lemma OneMoreHit(sent: seq<Broadcast>, ev: HitEvent)
    ensures HitsSent(sent + [HitMsg(ev)]) == HitsSent(sent) + [ev]
    ensures HitsSent(sent + [HitMsg(ev), DeathMsg(ev)]) == HitsSent(sent) + [ev]
  {
    var one := sent + [HitMsg(ev)];
    assert one[..|one| - 1] == sent;
    var two := sent + [HitMsg(ev), DeathMsg(ev)];
    assert two[..|two| - 1] == one;
  }

  lemma BroadcastHits(cfg: Config, s: Room)
    ensures HitsSent(BroadcastStep(cfg, s).out.sent) == s.pending && BroadcastStep(cfg, s).state.pending == []
  {
    var states := StateMsg(Snapshots(s.fighters));
    var d := Deliver(s.fighters, s.pending);
    DeliverInOrder(s.fighters, s.pending);
    var settle := BroadcastStep(cfg, s).out.sent[|d.sent| + 1..];
    assert BroadcastStep(cfg, s).out.sent == [states] + d.sent + settle;
    HitsAppend([states] + d.sent, settle);
    HitsAppend([states], d.sent);
    assert HitsSent([states]) == [];
    assert HitsSent(settle) == [];
  }

  /** Across one message: what was waiting and what is new, is handed out or still waiting. */
  lemma DeliveryStep(cfg: Config, w: World, s: Room, m: Msg)
    ensures var r := Step(cfg, w, s, m);
            HandedOut(r.out) + r.state.pending == s.pending + Events(r.out.strikes)
  {
    hide Step, Attack, Accepts;
    if m.Input? {
      if Accepts(w, s, m) { StepIsAttack(cfg, w, s, m); } else { RefusedAt(cfg, w, s, m); }
    } else if m.Tick? {
      TickDelivery(cfg, w, s, m);
    } else {
      OtherDelivery(cfg, w, s, m);
    }
  }

  lemma OtherDelivery(cfg: Config, w: World, s: Room, m: Msg)
    requires !m.Input? && !m.Tick?
    ensures var r := Step(cfg, w, s, m);
            HandedOut(r.out) + r.state.pending == s.pending + Events(r.out.strikes)
  {
    hide InputStep, TickStep;
    var r := Step(cfg, w, s, m);
    assert Events(r.out.strikes) == [];
    assert HitsSent([]) == [];
  }

  lemma TickDelivery(cfg: Config, w: World, s: Room, m: Msg)
    requires m.Tick?
    ensures var r := Step(cfg, w, s, m);
            HandedOut(r.out) + r.state.pending == s.pending + Events(r.out.strikes)
  {
    hide Step, BroadcastStep;
    TickIs(cfg, w, s, m);
    var t := Counted(cfg, s, m.spawn);
    assert t.pending == s.pending;
    BroadcastHits(cfg, t);
    hide Counted;
    assert HitsSent([]) == [];
    assert Events([]) == [];
  }

  /** In every run the events handed out by broadcast or drain, followed by those still pending, are
      exactly the events produced, each once and in order. */
  lemma {:induction false} DeliveredOnce(cfg: Config, w: World, ms: seq<Msg>)
    ensures AllHandedOut(cfg, w, NEW_ROOM, ms) + Run(cfg, w, NEW_ROOM, ms).pending == AllProduced(cfg, w, NEW_ROOM, ms)
  {
    hide Step, HandedOut, Events;
    if ms != [] {
      var init, last := ms[..|ms| - 1], ms[|ms| - 1];
      DeliveredOnce(cfg, w, init);
      var before := Run(cfg, w, NEW_ROOM, init);
      DeliveryStep(cfg, w, before, last);
      var r := Step(cfg, w, before, last);
      var done := AllHandedOut(cfg, w, NEW_ROOM, init);
      assert done + HandedOut(r.out) + r.state.pending == done + (HandedOut(r.out) + r.state.pending);
      assert done + (before.pending + Events(r.out.strikes)) == done + before.pending + Events(r.out.strikes);
    }
  }

  // ----- Announced deaths -----

  ghost function DeathsSent(sent: seq<Broadcast>, u: Uid): nat
  {
    if sent == [] then 0
    else
      var last := sent[|sent| - 1];
      DeathsSent(sent[..|sent| - 1], u) + if last.DeathMsg? && last.ev.target == u then 1 else 0
  }

  ghost function DeathNotices(cfg: Config, w: World, u: Uid): (Room, Msg) -> int
  {
    (s: Room, m: Msg) => DeathsSent(Step(cfg, w, s, m).out.sent, u)
  }

  ghost predicate IsPending(pending: seq<HitEvent>, u: Uid)
  {
    exists i :: 0 <= i < |pending| && pending[i].target == u
  }

  /** A death of `u` waits to be announced only during the tick it happened in, with a hit on it still pending. */
  ghost predicate Announceable(s: Room, u: Uid)
  {
    && s.broadcasting
    && (u in s.fighters && s.fighters[u].justDied ==>
          s.fighters[u].deadTicks == RESPAWN_TICKS && IsPending(s.pending, u))
  }

  lemma {:induction false} DeathsAppend(a: seq<Broadcast>, b: seq<Broadcast>, u: Uid)
    ensures DeathsSent(a + b, u) == DeathsSent(a, u) + DeathsSent(b, u)
  {
    if b == [] {
      assert a + b == a;
    } else {
      assert (a + b)[..|a + b| - 1] == a + b[..|b| - 1];
      DeathsAppend(a, b[..|b| - 1], u);
    }
  }

  /** Delivery announces the death of `u` once if it has one to announce and a hit on it is pending. */
  lemma {:induction false} DeliverDeaths(fs: Fighters, pending: seq<HitEvent>, u: Uid)
    ensures var d := Deliver(fs, pending);
            var due := u in fs && fs[u].justDied && IsPending(pending, u);
            && DeathsSent(d.sent, u) == (if due then 1 else 0)
            && (u in fs ==> d.fighters[u].justDied == (fs[u].justDied && !due))
  {
    if pending != [] {
      var init, ev := pending[..|pending| - 1], pending[|pending| - 1];
      DeliverDeaths(fs, init, u);
      var d := Deliver(fs, init);
      DeathsAppend(d.sent, [HitMsg(ev)], u);
      DeathsAppend(d.sent, [HitMsg(ev), DeathMsg(ev)], u);
      assert DeathsSent([HitMsg(ev)], u) == 0;
      var two := [HitMsg(ev), DeathMsg(ev)];
      assert two[..1] == [HitMsg(ev)];
      assert DeathsSent(two, u) == if ev.target == u then 1 else 0;
      PendingSplit(pending, u);
    }
  }

  lemma PendingSplit(pending: seq<HitEvent>, u: Uid)
    requires pending != []
    ensures IsPending(pending, u) <==> IsPending(pending[..|pending| - 1], u) || pending[|pending| - 1].target == u
  {
    var init := pending[..|pending| - 1];
    if IsPending(init, u) {
      var i :| 0 <= i < |init| && init[i].target == u;
      assert pending[i].target == u;
    }
    if IsPending(pending, u) && pending[|pending| - 1].target != u {
      var i :| 0 <= i < |pending| && pending[i].target == u;
      assert init[i].target == u;
    }
  }

  function Mark(f: bool): int { if f then 1 else 0 }

  /** Strikes on a player whose announced deaths are settled unless it is dead. */
  lemma {:induction false} TollsMark(v: Vitals, u: Uid, xs: seq<Strike>)
    requires v.Sound() && AllLawful(v, u, xs) && (v.justDied ==> v.deadTicks == RESPAWN_TICKS)
    ensures var v' := Tolls(v, u, xs);
            && v'.Sound()
            && v'.deaths - v.deaths == Mark(v'.justDied) - Mark(v.justDied)
            && (v'.justDied ==> v'.deadTicks == RESPAWN_TICKS)
            && (v'.justDied && !v.justDied ==> exists i :: 0 <= i < |xs| && xs[i].ev.target == u)
  {
    if xs != [] {
      var init, last := xs[..|xs| - 1], xs[|xs| - 1];
      TollsMark(v, u, init);
      var v0, v' := Tolls(v, u, init), Tolls(v, u, xs);
      if v'.justDied && !v.justDied {
        if v0.justDied {
          var i :| 0 <= i < |init| && init[i].ev.target == u;
          assert xs[i].ev.target == u;
        } else {
          assert xs[|xs| - 1].ev.target == u;
        }
      }
    }
  }

  lemma PendingGrows(pending: seq<HitEvent>, xs: seq<Strike>, u: Uid)
    ensures IsPending(pending, u) ==> IsPending(pending + Events(xs), u)
    ensures (exists i :: 0 <= i < |xs| && xs[i].ev.target == u) ==> IsPending(pending + Events(xs), u)
  {
    var all := pending + Events(xs);
    if IsPending(pending, u) {
      var i :| 0 <= i < |pending| && pending[i].target == u;
      assert all[i].target == u;
    }
    if i :| 0 <= i < |xs| && xs[i].ev.target == u {
      assert all[|pending| + i].target == u;
    }
  }

  /** The death marks of `u` across one message, when no event is drained away. */
  ghost predicate MarksSettled(cfg: Config, w: World, s: Room, m: Msg, u: Uid)
  {
    var r := Step(cfg, w, s, m);
    u in r.state.fighters ==>
      var f' := r.state.fighters[u];
      && (f'.justDied ==> f'.deadTicks == RESPAWN_TICKS && IsPending(r.state.pending, u))
      && (u in s.fighters ==>
            f'.deaths - s.fighters[u].deaths == DeathsSent(r.out.sent, u) + Mark(f'.justDied) - Mark(s.fighters[u].justDied))
  }

  lemma NoneSent(u: Uid)
    ensures DeathsSent([], u) == 0
  {
  }

  lemma InputMarks(cfg: Config, w: World, s: Room, m: Msg, u: Uid)
    requires Good(cfg, s) && Announceable(s, u) && m.Input?
    ensures MarksSettled(cfg, w, s, m, u)
  {
    hide Good, Step, Tolls, AllLawful, CheckMove, Events, DeathsSent, ArmsOf, Spent, StanceOf, Primed, DamageTo, Power;
    InputKeys(cfg, w, s, m);
    NoneSent(u);
    if u in s.fighters {
      ArmsAreGood(cfg, s, u);
      if Accepts(w, s, m) {
        AcceptedAt(cfg, w, s, m, u);
        var xs := Step(cfg, w, s, m).out.strikes;
        TollsMark(Of(s.fighters[u]), u, xs);
        PendingGrows(s.pending, xs, u);
      } else {
        RefusedAt(cfg, w, s, m);
      }
    }
  }

  lemma BroadcastDeaths(cfg: Config, s: Room, u: Uid)
    ensures var b := BroadcastStep(cfg, s);
            var due := u in s.fighters && s.fighters[u].justDied && IsPending(s.pending, u);
            && b.state.fighters.Keys == s.fighters.Keys
            && DeathsSent(b.out.sent, u) == (if due then 1 else 0)
            && (u in s.fighters ==> b.state.fighters[u].justDied == (s.fighters[u].justDied && !due))
  {
    var states := StateMsg(Snapshots(s.fighters));
    var d := Deliver(s.fighters, s.pending);
    DeliverDeaths(s.fighters, s.pending, u);
    var settle := BroadcastStep(cfg, s).out.sent[|d.sent| + 1..];
    assert BroadcastStep(cfg, s).out.sent == [states] + d.sent + settle;
    DeathsAppend([states] + d.sent, settle, u);
    DeathsAppend([states], d.sent, u);
    assert DeathsSent([states], u) == 0;
    assert DeathsSent(settle, u) == 0;
  }

  lemma TickMarks(cfg: Config, w: World, s: Room, m: Msg, u: Uid)
    requires Good(cfg, s) && Announceable(s, u) && m.Tick?
    ensures MarksSettled(cfg, w, s, m, u)
  {
    hide Step, BroadcastStep, Counted, Good, DeathsSent;
    TickIs(cfg, w, s, m);
    TickAt(cfg, w, s, m, u);
    BroadcastDeaths(cfg, Counted(cfg, s, m.spawn), u);
    CountedAt(cfg, s, m.spawn, u);
    if u in s.fighters { TickedVitals(s.fighters[u], m.spawn(u)); }
  }

  lemma CountedAt(cfg: Config, s: Room, spawn: Uid -> Vec, u: Uid)
    ensures var t := Counted(cfg, s, spawn);
            t.pending == s.pending && (u in t.fighters ==> u in s.fighters && t.fighters[u] == Ticked(s.fighters[u], spawn(u)))
  {
  }

  lemma OtherMarks(cfg: Config, w: World, s: Room, m: Msg, u: Uid)
    requires Announceable(s, u) && !m.Input? && !m.Tick? && !m.Drain?
    ensures MarksSettled(cfg, w, s, m, u)
  {
    OtherAt(cfg, w, s, m, u);
    hide Step;
    assert DeathsSent([], u) == 0;
  }

  lemma OtherAt(cfg: Config, w: World, s: Room, m: Msg, u: Uid)
    requires !m.Input? && !m.Tick? && !m.Drain?
    ensures var r := Step(cfg, w, s, m);
            && r.out.sent == [] && r.state.pending == s.pending
            && (u in r.state.fighters ==>
                  var f' := r.state.fighters[u];
                  if u in s.fighters then f' == s.fighters[u].(block := f'.block, blockMax := f'.blockMax)
                  else !f'.justDied)
  {
    hide InputStep, TickStep, JoinStep, Equipped;
    match m
    case Join(v, at) => JoinAt(cfg, s, v, at, u);
    case Equip(v, bonus) => EquipAt(s, v, bonus, u);
    case Leave(v) =>
    case Online(v, online) =>
    case SetBroadcast =>
    case SetOnEmpty =>
    case Peek =>
  }

  lemma JoinAt(cfg: Config, s: Room, v: Uid, at: Vec, u: Uid)
    ensures var r := JoinStep(cfg, s, v, at);
            && r.out.sent == [] && r.state.pending == s.pending
            && (u in r.state.fighters ==>
                  if u in s.fighters then r.state.fighters[u] == s.fighters[u] else !r.state.fighters[u].justDied)
  {
  }

  lemma EquipAt(s: Room, v: Uid, bonus: real, u: Uid)
    ensures var s' := Equipped(s, v, bonus);
            && s'.pending == s.pending && s'.fighters.Keys == s.fighters.Keys
            && (u in s.fighters ==>
                  s'.fighters[u] == s.fighters[u].(block := s'.fighters[u].block, blockMax := s'.fighters[u].blockMax))
  {
    hide Step, Attack, Ticked, BroadcastStep, Newcomer;
    if v in s.fighters {
      var f := s.fighters[v];
      var f' := Equipped(s, v, bonus).fighters[v];
      assert f' == f.(block := f'.block, blockMax := f'.blockMax);
    }
  }

  lemma StepMarks(cfg: Config, w: World, s: Room, m: Msg, u: Uid)
    requires Good(cfg, s) && Announceable(s, u) && !m.Drain?
    ensures Announceable(Step(cfg, w, s, m).state, u) && MarksSettled(cfg, w, s, m, u)
  {
    if m.Input? { InputMarks(cfg, w, s, m, u); } else if m.Tick? { TickMarks(cfg, w, s, m, u); } else { OtherMarks(cfg, w, s, m, u); }
    StillBroadcasting(cfg, w, s, m);
    hide Step, IsPending, DeathsSent;
  }

  lemma StillBroadcasting(cfg: Config, w: World, s: Room, m: Msg)
    ensures s.broadcasting ==> Step(cfg, w, s, m).state.broadcasting
  {
    hide Attack;
    if m.Tick? { TickAt(cfg, w, s, m, 0); }
    if m.Input? { if Accepts(w, s, m) { StepIsAttack(cfg, w, s, m); } else { RefusedAt(cfg, w, s, m); } }
  }

  ghost predicate NoDrain(ms: seq<Msg>) { forall i :: 0 <= i < |ms| ==> !ms[i].Drain? }

  lemma {:induction false} NoticesOver(cfg: Config, w: World, s: Room, ms: seq<Msg>, u: Uid)
    requires Good(cfg, s) && Announceable(s, u) && NoDrain(ms) && Present(cfg, w, s, ms, u)
    ensures Announceable(Run(cfg, w, s, ms), u) && u in s.fighters
    ensures var f, f' := s.fighters[u], Run(cfg, w, s, ms).fighters[u];
            f'.deaths - f.deaths == Over(cfg, w, s, ms, DeathNotices(cfg, w, u)) + Mark(f'.justDied) - Mark(f.justDied)
  {
    hide Step, Good, Announceable, DeathsSent;
    if ms != [] {
      var init, last := ms[..|ms| - 1], ms[|ms| - 1];
      NoticesOver(cfg, w, s, init, u);
      RunGood(cfg, w, s, init);
      StepMarks(cfg, w, Run(cfg, w, s, init), last, u);
    }
  }

  /** Once a broadcast callback is registered and nobody drains events, every death of a stay is announced
      by exactly one Death message, apart from one that happened since the last tick. */
  lemma DeathsAnnounced(cfg: Config, w: World, before: Room, join: Msg, ms: seq<Msg>, u: Uid)
    requires Good(cfg, before) && before.broadcasting && NoDrain(ms)
    requires Stay(cfg, w, before, join, ms, u)
    ensures var s := Step(cfg, w, before, join).state;
            var f := Run(cfg, w, s, ms).fighters[u];
            f.deaths == Over(cfg, w, s, ms, DeathNotices(cfg, w, u)) + Mark(f.justDied)
  {
    hide Step, Good, Over;
    var s := Step(cfg, w, before, join).state;
    StepGood(cfg, w, before, join);
    StepMarks(cfg, w, before, join, u);
    NoticesOver(cfg, w, s, ms, u);
    JoinedFresh(cfg, w, before, join);
  }

  lemma Registered(cfg: Config, w: World, s: Room)
    ensures Step(cfg, w, s, SetBroadcast) == Result(s.(broadcasting := true), SILENT)
  {
  }

  /** The same for a player who is in the room when the callback is registered and has not died before. */
  lemma DeathsAnnouncedSinceRegistering(cfg: Config, w: World, before: Room, ms: seq<Msg>, u: Uid)
    requires Good(cfg, before) && NoDrain(ms)
    requires u in before.fighters && before.fighters[u].deaths == 0 && !before.fighters[u].justDied
    requires Present(cfg, w, Step(cfg, w, before, SetBroadcast).state, ms, u)
    ensures var s := Step(cfg, w, before, SetBroadcast).state;
            var f := Run(cfg, w, s, ms).fighters[u];
            f.deaths == Over(cfg, w, s, ms, DeathNotices(cfg, w, u)) + Mark(f.justDied)
  {
    hide Step, Good, Over;
    StepGood(cfg, w, before, SetBroadcast);
    Registered(cfg, w, before);
    NoticesOver(cfg, w, Step(cfg, w, before, SetBroadcast).state, ms, u);
  }

  // ----- A room as the hub opens it -----

  /** Somebody joins, and the callback is registered right after. */
  ghost predicate Opening(ms: seq<Msg>) { |ms| >= 2 && ms[0].Join? && ms[1].SetBroadcast? }

  lemma {:induction false} FirstStep(cfg: Config, w: World, s: Room, ms: seq<Msg>, u: Uid)
    requires ms != []
    ensures var s' := Step(cfg, w, s, ms[0]).state;
            && Run(cfg, w, s, ms) == Run(cfg, w, s', ms[1..])
            && (Present(cfg, w, s, ms, u) ==> Present(cfg, w, s', ms[1..], u))
            && Over(cfg, w, s, ms, DeathNotices(cfg, w, u))
               == DeathsSent(Step(cfg, w, s, ms[0]).out.sent, u) + Over(cfg, w, s', ms[1..], DeathNotices(cfg, w, u))
  {
    hide Step, DeathsSent;
    var init := ms[..|ms| - 1];
    if init == [] {
      assert ms[1..] == [];
      assert Run(cfg, w, s, []) == s;
    } else {
      FirstStep(cfg, w, s, init, u);
      assert init[1..] == ms[1..][..|ms[1..]| - 1];
    }
  }

  /** `u` joined anew with message `i` and has stayed since, and its deaths are the Death messages sent for it from then on, plus
      one if it died since the last tick. */
  ghost predicate Accounted(cfg: Config, w: World, ms: seq<Msg>, i: nat, u: Uid)
  {
    && i < |ms| && u in Run(cfg, w, NEW_ROOM, ms).fighters
    && Stay(cfg, w, Run(cfg, w, NEW_ROOM, ms[..i]), ms[i], ms[i + 1..], u)
    && var s := Step(cfg, w, Run(cfg, w, NEW_ROOM, ms[..i]), ms[i]).state;
       var f := Run(cfg, w, NEW_ROOM, ms).fighters[u];
       f.deaths == Over(cfg, w, s, ms[i + 1..], DeathNotices(cfg, w, u)) + Mark(f.justDied)
  }

  /** In every room opened by the hub, drained by nobody, everybody's deaths since joining, the first player's included,
      are announced by exactly one Death message each, apart from one since the last tick. */
  lemma EveryDeathAnnounced(cfg: Config, w: World, ms: seq<Msg>, u: Uid) returns (i: nat)
    requires cfg.Valid() && Opening(ms) && NoDrain(ms) && u in Run(cfg, w, NEW_ROOM, ms).fighters
    ensures Accounted(cfg, w, ms, i, u)
  {
    hide Step, Good, Over, DeathsSent;
    i := StayOf(cfg, w, ms, u);
    var before, rest := Run(cfg, w, NEW_ROOM, ms[..i]), ms[i + 1..];
    NewRoomGood(cfg);
    RunGood(cfg, w, NEW_ROOM, ms[..i]);
    SplitRun(cfg, w, ms, i);
    if i == 0 {
      var s := Step(cfg, w, before, ms[0]).state;
      StepGood(cfg, w, before, ms[0]);
      FirstPresent(cfg, w, s, rest, u);
      JoinedFresh(cfg, w, before, ms[0]);
      FirstStep(cfg, w, s, rest, u);
      Registered(cfg, w, s);
      NoneSent(u);
      DeathsAnnouncedSinceRegistering(cfg, w, s, rest[1..], u);
    } else {
      StaysRegistered(cfg, w, ms[..i]);
      DeathsAnnounced(cfg, w, before, ms[i], rest, u);
    }
  }

  lemma {:induction false} FirstPresent(cfg: Config, w: World, s: Room, ms: seq<Msg>, u: Uid)
    requires Present(cfg, w, s, ms, u)
    ensures u in s.fighters
  {
    hide Step;
    if ms != [] { FirstPresent(cfg, w, s, ms[..|ms| - 1], u); }
  }

  lemma SplitRun(cfg: Config, w: World, ms: seq<Msg>, i: nat)
    requires i < |ms|
    ensures Run(cfg, w, NEW_ROOM, ms) == Run(cfg, w, Step(cfg, w, Run(cfg, w, NEW_ROOM, ms[..i]), ms[i]).state, ms[i + 1..])
  {
    hide Step;
    var init, tail := ms[..i], ms[i..];
    assert ms == init + tail;
    RunAppend(cfg, w, NEW_ROOM, init, tail);
    FirstStep(cfg, w, Run(cfg, w, NEW_ROOM, init), tail, 0);
    assert tail[1..] == ms[i + 1..];
  }

  lemma {:induction false} StaysRegistered(cfg: Config, w: World, ms: seq<Msg>)
    requires Opening(ms)
    ensures Run(cfg, w, NEW_ROOM, ms).broadcasting
  {
    hide Step;
    var init, last := ms[..|ms| - 1], ms[|ms| - 1];
    var before := Run(cfg, w, NEW_ROOM, init);
    if |ms| == 2 {
      Registered(cfg, w, before);
    } else {
      StaysRegistered(cfg, w, init);
      StillBroadcasting(cfg, w, before, last);
    }
  }
}
