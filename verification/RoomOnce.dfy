/** What happens once: the settlement in the life of a room, and the report of an empty room between two arrivals. */
module RoomOnce {
  import opened Base
  import opened Geometry
  import opened Combat
  import opened Validation
  import opened RoomModel
  import opened RoomInvariant
  import opened RoomLedger
  import opened RoomKills

  // ----- The settlement -----

  /** The number of settlements among broadcasts. */
  function Settlements(sent: seq<Broadcast>): nat
  {
    if sent == [] then 0 else Settlements(sent[..|sent| - 1]) + if sent[|sent| - 1].SettleMsg? then 1 else 0
  }

  /** This message is a broadcast that finds the score limit or the time limit reached. */
  ghost predicate Due(cfg: Config, s: Room, m: Msg)
  {
    m.Tick? && s.broadcasting && MustSettle(cfg, Counted(cfg, s, m.spawn).fighters, s.tick + 1)
  }

  /** Some broadcast of the run found the settlement due. */
  ghost predicate EverDue(cfg: Config, w: World, ms: seq<Msg>)
  {
    ms != [] &&
    var init := ms[..|ms| - 1];
    EverDue(cfg, w, init) || Due(cfg, Run(cfg, w, NEW_ROOM, init), ms[|ms| - 1])
  }

  ghost function SettlementsOf(cfg: Config, w: World): (Room, Msg) -> int
  {
    (s: Room, m: Msg) => Settlements(Step(cfg, w, s, m).out.sent)
  }

  lemma {:induction false} SettlementsAppend(a: seq<Broadcast>, b: seq<Broadcast>)
    ensures Settlements(a + b) == Settlements(a) + Settlements(b)
  {
    if b == [] {
      assert a + b == a;
    } else {
      assert (a + b)[..|a + b| - 1] == a + b[..|b| - 1];
      SettlementsAppend(a, b[..|b| - 1]);
    }
  }

  lemma {:induction false} DeliverySettlesNothing(fs: Fighters, pending: seq<HitEvent>)
    ensures Settlements(Deliver(fs, pending).sent) == 0
  {
    if pending != [] {
      var init, ev := pending[..|pending| - 1], pending[|pending| - 1];
      DeliverySettlesNothing(fs, init);
      SettlementsAppend(Deliver(fs, init).sent, [HitMsg(ev)]);
      SettlementsAppend(Deliver(fs, init).sent, [HitMsg(ev), DeathMsg(ev)]);
      assert [HitMsg(ev), DeathMsg(ev)][..1] == [HitMsg(ev)];
    }
  }

  /** Announcing deaths does not change who has reached the score limit. */
  lemma DeliveryKeepsDue(cfg: Config, fs: Fighters, pending: seq<HitEvent>, tick: int)
    ensures MustSettle(cfg, Deliver(fs, pending).fighters, tick) <==> MustSettle(cfg, fs, tick)
  {
    var d := Deliver(fs, pending).fighters;
    forall u | u in fs ensures d[u].score == fs[u].score {
      DeliverAt(fs, pending, u);
    }
    hide Deliver;
    if u :| u in fs && fs[u].score >= cfg.settleScore { assert d[u].score >= cfg.settleScore; }
    if u :| u in d && d[u].score >= cfg.settleScore { assert fs[u].score >= cfg.settleScore; }
  }

  lemma BroadcastSettles(cfg: Config, s: Room)
    ensures var b, due := BroadcastStep(cfg, s), MustSettle(cfg, s.fighters, s.tick);
            && Settlements(b.out.sent) == (if due && !s.settled then 1 else 0)
            && b.state.settled == (s.settled || due)
  {
    var states, d := [StateMsg(Snapshots(s.fighters))], Deliver(s.fighters, s.pending);
    DeliverySettlesNothing(s.fighters, s.pending);
    DeliveryKeepsDue(cfg, s.fighters, s.pending, s.tick);
    hide Deliver, MustSettle, Snapshots, FinalScores;
    var settle := if !s.settled && MustSettle(cfg, d.fighters, s.tick) then [SettleMsg(FinalScores(d.fighters))] else [];
    assert BroadcastStep(cfg, s).out.sent == states + d.sent + settle;
    SettlementsAppend(states, d.sent);
    SettlementsAppend(states + d.sent, settle);
    assert Settlements(states) == 0;
  }

  lemma SettlementStep(cfg: Config, w: World, s: Room, m: Msg)
    ensures var r := Step(cfg, w, s, m);
            && Settlements(r.out.sent) == (if Due(cfg, s, m) && !s.settled then 1 else 0)
            && r.state.settled == (s.settled || Due(cfg, s, m))
  {
    if m.Tick? {
      hide Step, BroadcastStep, MustSettle;
      TickIs(cfg, w, s, m);
      CountedKeeps(cfg, s, m.spawn);
      BroadcastSettles(cfg, Counted(cfg, s, m.spawn));
      hide Counted;
    } else {
      QuietStep(cfg, w, s, m);
    }
  }

  lemma CountedKeeps(cfg: Config, s: Room, spawn: Uid -> Vec)
    ensures var t := Counted(cfg, s, spawn); t.settled == s.settled && t.tick == s.tick + 1
  {
  }

  /** Nothing but a tick broadcasts, settles or reports an empty room. */
  lemma QuietStep(cfg: Config, w: World, s: Room, m: Msg)
    requires !m.Tick?
    ensures var r := Step(cfg, w, s, m);
            && r.out.sent == [] && r.state.settled == s.settled && !r.out.emptiedNow
            && (if Arrives(cfg, w, s, m) then r.state.hadPlayers && !r.state.emptied
                else r.state.hadPlayers == s.hadPlayers && r.state.emptied == s.emptied)
  {
    hide Attack, CheckMove, Equipped, Newcomer, TickStep, InputStep;
    if m.Equip? { EquipOthers(s, m.uid, m.bonus); }
    if m.Input? {
      if Accepts(w, s, m) { StepIsAttack(cfg, w, s, m); } else { RefusedAt(cfg, w, s, m); }
    }
  }

  lemma {:induction false} SettledIffDue(cfg: Config, w: World, ms: seq<Msg>)
    ensures Run(cfg, w, NEW_ROOM, ms).settled <==> EverDue(cfg, w, ms)
  {
    hide Step, Due;
    if ms != [] {
      SettledIffDue(cfg, w, ms[..|ms| - 1]);
      SettlementStep(cfg, w, Run(cfg, w, NEW_ROOM, ms[..|ms| - 1]), ms[|ms| - 1]);
    }
  }

  /** A message makes the room settle exactly if it is the first broadcast of the run that finds the settlement due. */
  lemma SettlesWhenFirstDue(cfg: Config, w: World, ms: seq<Msg>, m: Msg)
    ensures Settlements(Step(cfg, w, Run(cfg, w, NEW_ROOM, ms), m).out.sent) ==
            if Due(cfg, Run(cfg, w, NEW_ROOM, ms), m) && !EverDue(cfg, w, ms) then 1 else 0
  {
    hide Step, Due, Run, EverDue;
    SettledIffDue(cfg, w, ms);
    SettlementStep(cfg, w, Run(cfg, w, NEW_ROOM, ms), m);
  }

  /** A run sends one settlement if any of its broadcasts found it due, and none otherwise. */
  lemma {:induction false} SettlesOnce(cfg: Config, w: World, ms: seq<Msg>)
    ensures Over(cfg, w, NEW_ROOM, ms, SettlementsOf(cfg, w)) == if EverDue(cfg, w, ms) then 1 else 0
  {
    hide Step, Due, Run, Settlements;
    if ms != [] {
      SettlesOnce(cfg, w, ms[..|ms| - 1]);
      SettlesWhenFirstDue(cfg, w, ms[..|ms| - 1], ms[|ms| - 1]);
    }
  }

  // ----- Reports of an empty room -----

  ghost function Reports(cfg: Config, w: World): (Room, Msg) -> int
  {
    (s: Room, m: Msg) => if Step(cfg, w, s, m).out.emptiedNow then 1 else 0
  }

  /** Nobody joins anew during the run. */
  ghost predicate NoArrivals(cfg: Config, w: World, s: Room, ms: seq<Msg>)
  {
    ms == [] ||
    var init := ms[..|ms| - 1];
    NoArrivals(cfg, w, s, init) && !Arrives(cfg, w, Run(cfg, w, s, init), ms[|ms| - 1])
  }

  lemma ReportStep(cfg: Config, w: World, s: Room, m: Msg)
    ensures var r := Step(cfg, w, s, m);
            && (r.out.emptiedNow ==> m.Tick? && !s.emptied && s.hadPlayers && r.state.emptied && r.state.links == map[])
            && (Arrives(cfg, w, s, m) ==> r.state.hadPlayers && !r.state.emptied && !r.out.emptiedNow)
            && (!Arrives(cfg, w, s, m) ==> r.state.hadPlayers == s.hadPlayers && (s.emptied ==> r.state.emptied))
  {
    if m.Tick? {
      hide Step;
      TickAt(cfg, w, s, m, 0);
    } else {
      QuietStep(cfg, w, s, m);
    }
  }

  /** Between two arrivals a room reports at most once that it is empty, and not at all if it has done so since the last. */
  lemma {:induction false} ReportsBetweenArrivals(cfg: Config, w: World, s: Room, ms: seq<Msg>)
    requires NoArrivals(cfg, w, s, ms)
    ensures var n := Over(cfg, w, s, ms, Reports(cfg, w));
            && 0 <= n <= (if s.emptied then 0 else 1)
            && (n == 1 || s.emptied ==> Run(cfg, w, s, ms).emptied)
  {
    hide Step, Arrives;
    if ms != [] {
      ReportsBetweenArrivals(cfg, w, s, ms[..|ms| - 1]);
      ReportStep(cfg, w, Run(cfg, w, s, ms[..|ms| - 1]), ms[|ms| - 1]);
    }
  }

  /** Over the whole life of a room there are at most as many reports as arrivals; one more is possible only if somebody
      has arrived since the last. */
  lemma {:induction false} ReportsOverall(cfg: Config, w: World, ms: seq<Msg>)
    ensures var s := Run(cfg, w, NEW_ROOM, ms);
            Over(cfg, w, NEW_ROOM, ms, Reports(cfg, w)) + (if s.hadPlayers && !s.emptied then 1 else 0) <= Arrivals(cfg, w, ms)
  {
    hide Step, Arrives;
    if ms != [] {
      ReportsOverall(cfg, w, ms[..|ms| - 1]);
      ReportStep(cfg, w, Run(cfg, w, NEW_ROOM, ms[..|ms| - 1]), ms[|ms| - 1]);
    }
  }
}
