/** The reconnect grace period: a player who comes back in time was never missed, and one who does not
    is removed on exactly the last tick of the grace period. */
module RoomReconnect {
  import opened Base
  import opened Geometry
  import opened Combat
  import opened Validation
  import opened RoomModel
  import opened VitalSigns
  import opened RoomInvariant
  import opened RoomLedger

  /** Messages that concern the connection of `u`. */
  predicate Touches(m: Msg, u: Uid)
  {
    (m.Join? || m.Leave? || m.Online?) && m.uid == u
  }

  ghost predicate Untouched(ms: seq<Msg>, u: Uid) { forall i :: 0 <= i < |ms| ==> !Touches(ms[i], u) }

  /** The same room with `u` marked as online. */
  ghost function Masked(s: Room, u: Uid): Room
    requires u in s.links
  {
    s.(links := s.links[u := Link(true, 0)])
  }

  ghost predicate Away(s: Room, u: Uid, ticks: nat)
  {
    u in s.links && s.links[u] == Link(false, ticks)
  }

  // ----- One step, seen with and without the offline mark -----

  /** A step does the same to the room whether or not `u` is marked offline, apart from the mark itself. */
  ghost predicate Hides(cfg: Config, w: World, s: Room, m: Msg, u: Uid, t': nat)
    requires u in s.links
  {
    var r := Step(cfg, w, s, m);
    Away(r.state, u, t') && Step(cfg, w, Masked(s, u), m) == Result(Masked(r.state, u), r.out)
  }

  lemma MaskedWith(s: Room, u: Uid, fs: Fighters, pending: seq<HitEvent>)
    requires u in s.links && fs.Keys == s.fighters.Keys
    ensures Masked(s, u).(fighters := fs, pending := pending) == Masked(s.(fighters := fs, pending := pending), u)
  {
  }

  lemma HiddenAccepted(cfg: Config, w: World, s: Room, m: Msg, u: Uid, t: nat)
    requires Away(s, u, t) && Accepts(w, s, m)
    ensures Hides(cfg, w, s, m, u, t)
  {
    var s1 := Masked(s, u);
    SamePrimed(s, s1, m.uid, m.report);
    StepIsAttack(cfg, w, s, m);
    StepIsAttack(cfg, w, s1, m);
    hide Step, Attack, CheckMove, Primed, Masked;
    var r := Step(cfg, w, s, m);
    MaskedWith(s, u, r.state.fighters, r.state.pending);
  }

  lemma HiddenRefused(cfg: Config, w: World, s: Room, m: Msg, u: Uid, t: nat)
    requires Away(s, u, t) && m.Input? && !Accepts(w, s, m)
    ensures Hides(cfg, w, s, m, u, t)
  {
    hide CheckMove, Step;
    var s1 := Masked(s, u);
    assert !Accepts(w, s1, m);
    RefusedCount(cfg, w, s, m);
    RefusedCount(cfg, w, s1, m);
    RefusedAt(cfg, w, s, m);
    RefusedAt(cfg, w, s1, m);
    MaskedWith(s, u, Step(cfg, w, s, m).state.fighters, s.pending);
  }

  lemma SamePrimed(s: Room, s1: Room, u: Uid, report: InputReport)
    requires s1.fighters == s.fighters && s1.tick == s.tick && u in s.fighters && report.AllFinite()
    ensures Primed(s, u, report) == Primed(s1, u, report)
  {
  }

  lemma MaskedLinks(cfg: Config, links: Links, u: Uid, t: nat)
    requires u in links && links[u] == Link(false, t) && t + 1 < cfg.graceTicks
    ensures var left := Aged(links) - Expired(cfg, Aged(links));
            var masked := Aged(links[u := Link(true, 0)]);
            && u in left && left[u] == Link(false, t + 1)
            && Expired(cfg, masked) == Expired(cfg, Aged(links))
            && masked - Expired(cfg, masked) == left[u := Link(true, 0)]
  {
    assert Aged(links[u := Link(true, 0)]) == Aged(links)[u := Link(true, 0)];
  }

  lemma MaskedCounted(cfg: Config, s: Room, spawn: Uid -> Vec, u: Uid, t: nat)
    requires Away(s, u, t) && t + 1 < cfg.graceTicks
    ensures Away(Counted(cfg, s, spawn), u, t + 1)
    ensures Counted(cfg, Masked(s, u), spawn) == Masked(Counted(cfg, s, spawn), u)
  {
    MaskedLinks(cfg, s.links, u, t);
    hide TickedAll, Aged, Expired;
  }

  lemma MaskedBroadcast(cfg: Config, s: Room, u: Uid)
    requires u in s.links
    ensures var b := BroadcastStep(cfg, s);
            b.state.links == s.links && BroadcastStep(cfg, Masked(s, u)) == Result(Masked(b.state, u), b.out)
  {
    hide Deliver, MustSettle, SnapshotOf;
    var s1 := Masked(s, u);
    assert s1.fighters == s.fighters && s1.pending == s.pending && s1.tick == s.tick && s1.settled == s.settled;
    SameBroadcast(cfg, s, s1);
  }

  lemma SameBroadcast(cfg: Config, s: Room, s1: Room)
    requires s1.fighters == s.fighters && s1.pending == s.pending && s1.tick == s.tick && s1.settled == s.settled
    ensures var b, b1 := BroadcastStep(cfg, s), BroadcastStep(cfg, s1);
            && b1.out == b.out && b1.state.fighters == b.state.fighters && b1.state.pending == b.state.pending
            && b1.state.settled == b.state.settled
  {
    hide Deliver, MustSettle, SnapshotOf;
  }

  lemma HiddenTick(cfg: Config, w: World, s: Room, m: Msg, u: Uid, t: nat)
    requires Away(s, u, t) && m.Tick? && t + 1 < cfg.graceTicks
    ensures Hides(cfg, w, s, m, u, t + 1)
  {
    hide Step, Counted, BroadcastStep;
    MaskedCounted(cfg, s, m.spawn, u, t);
    MaskedBroadcast(cfg, Counted(cfg, s, m.spawn), u);
    TickIs(cfg, w, s, m);
    TickIs(cfg, w, Masked(s, u), m);
    assert Respawned(Masked(s, u)) == Respawned(s);
  }

  lemma HiddenJoin(cfg: Config, w: World, s: Room, m: Msg, u: Uid, t: nat)
    requires Away(s, u, t) && m.Join? && m.uid != u
    ensures Hides(cfg, w, s, m, u, t)
  {
    MaskedJoin(cfg, s, m.uid, m.at, u);
    hide JoinStep;
  }

  lemma MaskedJoin(cfg: Config, s: Room, v: Uid, at: Vec, u: Uid)
    requires u in s.links && v != u
    ensures var r := JoinStep(cfg, s, v, at);
            && u in r.state.links && r.state.links[u] == s.links[u]
            && JoinStep(cfg, Masked(s, u), v, at) == Result(Masked(r.state, u), r.out)
  {
    hide Newcomer;
    var s1 := Masked(s, u);
    assert s1.links.Keys == s.links.Keys;
    assert |s1.links| == |s.links|;
    assert s1.links[v := Link(true, 0)] == s.links[v := Link(true, 0)][u := Link(true, 0)];
    var r, r1 := JoinStep(cfg, s, v, at), JoinStep(cfg, s1, v, at);
    if v in s.links {
      assert r1.state.links == Masked(r.state, u).links;
    } else if |s.links| >= cfg.maxPlayers {
      assert r1.state == s1;
    } else {
      assert r1.state.links == Masked(r.state, u).links;
    }
  }

  lemma HiddenLink(cfg: Config, w: World, s: Room, m: Msg, u: Uid, t: nat)
    requires Away(s, u, t) && (m.Leave? || m.Online?) && m.uid != u
    ensures Hides(cfg, w, s, m, u, t)
  {
    if m.Leave? {
      assert Masked(s, u).links - {m.uid} == (s.links - {m.uid})[u := Link(true, 0)];
    } else {
      assert Masked(s, u).links[m.uid := Link(m.online, 0)] == s.links[m.uid := Link(m.online, 0)][u := Link(true, 0)];
    }
  }

  lemma HiddenEquip(cfg: Config, w: World, s: Room, m: Msg, u: Uid, t: nat)
    requires Away(s, u, t) && m.Equip?
    ensures Hides(cfg, w, s, m, u, t)
  {
    MaskedEquip(s, m.uid, m.bonus, u);
    hide Equipped, Masked;
  }

  lemma MaskedEquip(s: Room, v: Uid, bonus: real, u: Uid)
    requires u in s.links
    ensures Equipped(s, v, bonus).links == s.links
    ensures Equipped(Masked(s, u), v, bonus) == Masked(Equipped(s, v, bonus), u)
  {
  }

  lemma HiddenOther(cfg: Config, w: World, s: Room, m: Msg, u: Uid, t: nat)
    requires Away(s, u, t) && (m.SetBroadcast? || m.SetOnEmpty? || m.Drain? || m.Peek?)
    ensures Hides(cfg, w, s, m, u, t)
  {
  }

  lemma HiddenStep(cfg: Config, w: World, s: Room, m: Msg, u: Uid, t: nat)
    requires Away(s, u, t) && !Touches(m, u) && (m.Tick? ==> t + 1 < cfg.graceTicks)
    ensures Hides(cfg, w, s, m, u, if m.Tick? then t + 1 else t)
  {
    hide Hides;
    if m.Input? {
      if Accepts(w, s, m) { HiddenAccepted(cfg, w, s, m, u, t); } else { HiddenRefused(cfg, w, s, m, u, t); }
    } else if m.Tick? {
      HiddenTick(cfg, w, s, m, u, t);
    } else if m.Join? {
      HiddenJoin(cfg, w, s, m, u, t);
    } else if m.Leave? || m.Online? {
      HiddenLink(cfg, w, s, m, u, t);
    } else if m.Equip? {
      HiddenEquip(cfg, w, s, m, u, t);
    } else {
      HiddenOther(cfg, w, s, m, u, t);
    }
  }

  lemma {:induction false} HiddenRun(cfg: Config, w: World, s: Room, ms: seq<Msg>, u: Uid)
    requires Away(s, u, 0) && Untouched(ms, u) && Ticks(ms) < cfg.graceTicks
    ensures Away(Run(cfg, w, s, ms), u, Ticks(ms))
    ensures Run(cfg, w, Masked(s, u), ms) == Masked(Run(cfg, w, s, ms), u)
    ensures Outs(cfg, w, Masked(s, u), ms) == Outs(cfg, w, s, ms)
  {
    hide Step, Masked;
    if ms != [] {
      var init, last := ms[..|ms| - 1], ms[|ms| - 1];
      HiddenRun(cfg, w, s, init, u);
      var before := Run(cfg, w, s, init);
      assert !Touches(last, u);
      HiddenStep(cfg, w, before, last, u, Ticks(init));
    }
  }

  lemma MarkAndReturn(cfg: Config, w: World, s: Room, s': Room, u: Uid, at: Vec)
    requires Good(cfg, s) && u in s.links && s.links[u].online && u in s'.links
    ensures var r := Step(cfg, w, s, Online(u, false));
            r.out == SILENT && Away(r.state, u, 0) && Masked(r.state, u) == s
    ensures Step(cfg, w, s', Join(u, at)) == Result(Masked(s', u), SILENT)
  {
    assert LinkGood(cfg, s.links[u]);
    assert s.links[u := Link(false, 0)][u := Link(true, 0)] == s.links;
  }

  lemma RunOne(cfg: Config, w: World, s: Room, m: Msg)
    ensures Run(cfg, w, s, [m]) == Step(cfg, w, s, m).state && Outs(cfg, w, s, [m]) == [Step(cfg, w, s, m).out]
  {
    assert [m][..0] == [];
  }

  /** Losing the connection and rejoining within the grace period leaves the room as it was. */
  lemma ReconnectInvisible(cfg: Config, w: World, s: Room, u: Uid, mid: seq<Msg>, at: Vec)
    requires Good(cfg, s) && u in s.links && s.links[u].online
    requires Untouched(mid, u) && Ticks(mid) < cfg.graceTicks
    ensures var trace := [Online(u, false)] + mid + [Join(u, at)];
            && Run(cfg, w, s, trace) == Run(cfg, w, s, mid)
            && Outs(cfg, w, s, trace) == [SILENT] + Outs(cfg, w, s, mid) + [SILENT]
  {
    hide Step, Masked, Good;
    var off := Online(u, false);
    var s1 := Step(cfg, w, s, off).state;
    MarkAndReturn(cfg, w, s, s, u, at);
    HiddenRun(cfg, w, s1, mid, u);
    var s2 := Run(cfg, w, s1, mid);
    MarkAndReturn(cfg, w, s, s2, u, at);
    RunAppend(cfg, w, s, [off], mid);
    RunOne(cfg, w, s, off);
    RunAppend(cfg, w, s, [off] + mid, [Join(u, at)]);
    RunOne(cfg, w, s2, Join(u, at));
  }

  /** In any message trace of a room, deleting an offline mark for an online player and its later rejoin within
      the grace period changes neither the final room nor any output: hits, broadcasts, drained events, respawns
      and notifications are those of the shorter trace. */
  lemma ReconnectInvisibleInTrace(cfg: Config, w: World, pre: seq<Msg>, u: Uid, mid: seq<Msg>, at: Vec, post: seq<Msg>)
    requires cfg.Valid()
    requires var s := Run(cfg, w, NEW_ROOM, pre); u in s.links && s.links[u].online
    requires Untouched(mid, u) && Ticks(mid) < cfg.graceTicks
    ensures var trace, shorter := pre + ([Online(u, false)] + mid + [Join(u, at)]) + post, pre + mid + post;
            var s := Run(cfg, w, NEW_ROOM, pre);
            var x, y, z := Outs(cfg, w, NEW_ROOM, pre), Outs(cfg, w, s, mid), Outs(cfg, w, Run(cfg, w, s, mid), post);
            && Run(cfg, w, NEW_ROOM, trace) == Run(cfg, w, NEW_ROOM, shorter)
            && Outs(cfg, w, NEW_ROOM, trace) == x + ([SILENT] + y + [SILENT]) + z
            && Outs(cfg, w, NEW_ROOM, shorter) == x + y + z
  {
    hide Run, Step, Outs;
    NewRoomGood(cfg);
    RunGood(cfg, w, NEW_ROOM, pre);
    var s := Run(cfg, w, NEW_ROOM, pre);
    var inner := [Online(u, false)] + mid + [Join(u, at)];
    ReconnectInvisible(cfg, w, s, u, mid, at);
    RunAppend(cfg, w, NEW_ROOM, pre, inner);
    RunAppend(cfg, w, NEW_ROOM, pre + inner, post);
    RunAppend(cfg, w, NEW_ROOM, pre, mid);
    RunAppend(cfg, w, NEW_ROOM, pre + mid, post);
  }

  // ----- Removal on exactly the last tick -----

  lemma AwayStep(cfg: Config, w: World, s: Room, m: Msg, u: Uid, t: nat)
    requires !Touches(m, u) && (u in s.links ==> Away(s, u, t))
    ensures var s' := Step(cfg, w, s, m).state;
            && (u !in s.links ==> u !in s'.links)
            && (u in s.links ==> if !m.Tick? then Away(s', u, t)
                                 else if t + 1 < cfg.graceTicks then Away(s', u, t + 1)
                                 else u !in s'.links)
  {
    hide Step;
    if m.Input? {
      InputKeys(cfg, w, s, m);
    } else if m.Tick? {
      TickAt(cfg, w, s, m, u);
    } else {
      AwayOther(cfg, w, s, m, u, t);
    }
  }

  lemma AwayOther(cfg: Config, w: World, s: Room, m: Msg, u: Uid, t: nat)
    requires !Touches(m, u) && !m.Input? && !m.Tick?
    ensures var s' := Step(cfg, w, s, m).state;
            && (u in s.links <==> u in s'.links)
            && (u in s.links ==> s'.links[u] == s.links[u])
  {
    hide InputStep, TickStep, Newcomer, Equipped;
    if m.Equip? { EquipOthers(s, m.uid, m.bonus); }
  }

  lemma MarkedOffline(cfg: Config, w: World, s: Room, u: Uid)
    requires u in s.links
    ensures Away(Step(cfg, w, s, Online(u, false)).state, u, 0)
  {
  }

  /** A player marked offline who neither returns nor leaves is in the room for exactly the first G - 1 ticks
      after the mark: it is removed on the G-th tick and not before, and stays away. */
  lemma {:induction false} RemovedOnTheLastTick(cfg: Config, w: World, s: Room, u: Uid, ms: seq<Msg>)
    requires cfg.Valid() && u in s.links && Untouched(ms, u)
    ensures var s' := Run(cfg, w, Step(cfg, w, s, Online(u, false)).state, ms);
            && (u in s'.fighters <==> Ticks(ms) < cfg.graceTicks)
            && (u in s'.links ==> s'.links[u] == Link(false, Ticks(ms)))
  {
    hide Step;
    MarkedOffline(cfg, w, s, u);
    if ms != [] {
      var init, last := ms[..|ms| - 1], ms[|ms| - 1];
      RemovedOnTheLastTick(cfg, w, s, u, init);
      assert !Touches(last, u);
      AwayStep(cfg, w, Run(cfg, w, Step(cfg, w, s, Online(u, false)).state, init), last, u, Ticks(init));
    }
  }
}
