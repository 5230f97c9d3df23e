/** The rooms inside the hub over time: each room of the hub runs as a room on its own would, abandoned rooms disappear from
    every table, and a player who loses the connection finds the seat kept for exactly the grace period. */
module HubLifetime {
  import opened Base
  import opened Bytes
  import opened Geometry
  import opened Combat
  import opened RoomModel
  import opened RoomInvariant
  import opened RoomLedger
  import opened RoomReconnect
  import opened RoomDelivery
  import opened LobbyWire
  import opened HubModel
  import opened HubInvariant

  // ----- What a room sees of a step of the hub -----

  /** The room before the step; a room that does not exist yet counts as new. */
  ghost function Before<H>(h: HubState<H>, r: H): Room { if r in h.rooms then h.rooms[r].state else NEW_ROOM }

  /** The session that asked for the step is in the room before or after it. */
  ghost predicate Involves<H>(h: HubState<H>, h': HubState<H>, m: HubMsg<H>, r: H)
  {
    && (m.Do? || m.Disconnect?)
    && m.sid in h.sessions
    && (h.sessions[m.sid].room == Some(r) || (m.sid in h'.sessions && h'.sessions[m.sid].room == Some(r)))
  }

  /** Messages other than ticks and drains that concern the connection of nobody but `account`. */
  ghost predicate Own(trace: seq<Msg>, account: Option<Uid>)
  {
    forall i :: 0 <= i < |trace| ==> !trace[i].Tick? && !trace[i].Drain? && (TouchesSomebody(trace[i]) ==> account == Some(trace[i].uid))
  }

  predicate TouchesSomebody(m: Msg) { m.Join? || m.Leave? || m.Online? }

  lemma OwnNext(trace: seq<Msg>, account: Option<Uid>, m: Msg)
    requires Own(trace, account) && !m.Tick? && !m.Drain? && (TouchesSomebody(m) ==> account == Some(m.uid))
    ensures Own(trace + [m], account)
  {
  }

  /** What a room sees of one step: its tick, or messages on behalf of a session that is, or comes to be, in it. */
  ghost predicate Fair<H>(h: HubState<H>, h': HubState<H>, m: HubMsg<H>, r: H, trace: seq<Msg>)
  {
    if m.RoomTick? && m.room == r && r in h.rooms then trace == [Tick(m.spawn)]
    else trace != [] ==> Involves(h, h', m, r) && Own(trace, h.sessions[m.sid].account)
  }

  ghost predicate Explains<H>(cfg: Config, w: World, h: HubState<H>, h': HubState<H>, r: H, trace: seq<Msg>)
  {
    && r in h'.rooms && h'.rooms[r].state == Run(cfg, w, Before(h, r), trace)
    && (if r in h.rooms then h'.rooms[r].name == h.rooms[r].name else Opening(trace))
  }

  lemma RunTwo(cfg: Config, w: World, s: Room, ms: seq<Msg>, m: Msg)
    ensures Run(cfg, w, s, ms + [m]) == Step(cfg, w, Run(cfg, w, s, ms), m).state
  {
    assert (ms + [m])[..|ms|] == ms;
  }

  lemma EnterSeen<H>(cfg: Config, w: World, h: HubState<H>, sid: Uid, name: Text, at: Vec, bonus: Option<real>, addr: H, r: H)
    returns (trace: seq<Msg>)
    requires cfg.Valid() && Core(cfg, h) && LoggedIn(h, sid) && addr !in h.rooms
    requires r in Enter(cfg, w, h, sid, name, at, bonus, addr).hub.rooms
    ensures var h' := Enter(cfg, w, h, sid, name, at, bonus, addr).hub;
            && Explains(cfg, w, h, h', r, trace)
            && (trace != [] ==> sid in h'.sessions && h'.sessions[sid].room == Some(r))
            && Own(trace, h.sessions[sid].account)
  {
    hide Step, Core, Enter, Explains, Own;
    if name in h.manager {
      trace := EnterOldSeen(cfg, w, h, sid, name, at, bonus, addr, r);
    } else {
      trace := EnterNewSeen(cfg, w, h, sid, name, at, bonus, addr, r);
    }
  }

  lemma EnterOldIs<H>(cfg: Config, w: World, h: HubState<H>, sid: Uid, name: Text, at: Vec, bonus: Option<real>, addr: H)
    requires ManagerAgrees(h) && RoutesAgree(h) && LoggedIn(h, sid) && name in h.manager
    ensures var u, room := h.sessions[sid].account.value, h.manager[name];
            && room in h.rooms && room in h.routes
            && Enter(cfg, w, h, sid, name, at, bonus, addr) ==
               if Step(cfg, w, h.rooms[room].state, Join(u, at)).out.full then HubResult(h, RoomFull)
               else
                 var routed := Routed(Sent(cfg, w, h, room, Join(u, at)), sid, room);
                 HubResult(if bonus.Some? then Sent(cfg, w, routed, room, Equip(u, bonus.value)) else routed, JoinOK)
  {
    hide Step;
  }

  lemma EnterOldSeen<H>(cfg: Config, w: World, h: HubState<H>, sid: Uid, name: Text, at: Vec, bonus: Option<real>, addr: H, r: H)
    returns (trace: seq<Msg>)
    requires Core(cfg, h) && LoggedIn(h, sid) && name in h.manager
    requires r in Enter(cfg, w, h, sid, name, at, bonus, addr).hub.rooms
    ensures var h' := Enter(cfg, w, h, sid, name, at, bonus, addr).hub;
            && Explains(cfg, w, h, h', r, trace)
            && (trace != [] ==> sid in h'.sessions && h'.sessions[sid].room == Some(r))
            && Own(trace, h.sessions[sid].account)
  {
    hide Step, SessionsAgree, OnlineAgrees, PlayersAgree, Enter, Own;
    EnterOldIs(cfg, w, h, sid, name, at, bonus, addr);
    hide ManagerAgrees, RoutesAgree;
    var u := h.sessions[sid].account.value;
    var s := h.rooms[r].state;
    trace := [];
    EmptyIsOwn(h.sessions[sid].account);
    if h.manager[name] == r && !Step(cfg, w, s, Join(u, at)).out.full {
      RunTwo(cfg, w, s, [], Join(u, at));
      OwnNext([], Some(u), Join(u, at));
      trace := [] + [Join(u, at)];
      if bonus.Some? {
        RunTwo(cfg, w, s, trace, Equip(u, bonus.value));
        OwnNext(trace, Some(u), Equip(u, bonus.value));
        trace := trace + [Equip(u, bonus.value)];
      }
    }
  }

  lemma EmptyIsOwn(account: Option<Uid>)
    ensures Own([], account)
  {
  }

  lemma EnterNewSeen<H>(cfg: Config, w: World, h: HubState<H>, sid: Uid, name: Text, at: Vec, bonus: Option<real>, addr: H, r: H)
    returns (trace: seq<Msg>)
    requires cfg.Valid() && Core(cfg, h) && LoggedIn(h, sid) && name !in h.manager && addr !in h.rooms
    requires r in Enter(cfg, w, h, sid, name, at, bonus, addr).hub.rooms
    ensures var h' := Enter(cfg, w, h, sid, name, at, bonus, addr).hub;
            && Explains(cfg, w, h, h', r, trace)
            && (trace != [] ==> sid in h'.sessions && h'.sessions[sid].room == Some(r))
            && Own(trace, h.sessions[sid].account)
  {
    hide Step, SessionsAgree, OnlineAgrees, PlayersAgree, ManagerAgrees, Enter, Own, InService, OnlineOf;
    var u := h.sessions[sid].account.value;
    FirstPlayer(cfg, w, u, at);
    EnterNewIs(cfg, w, h, sid, name, at, bonus, addr);
    trace := [];
    EmptyIsOwn(h.sessions[sid].account);
    if addr == r {
      trace := FirstMessages(cfg, w, u, at);
      if bonus.Some? {
        RunTwo(cfg, w, NEW_ROOM, trace, Equip(u, bonus.value));
        OwnNext(trace, Some(u), Equip(u, bonus.value));
        trace := trace + [Equip(u, bonus.value)];
      }
    }
  }

  lemma FirstMessages(cfg: Config, w: World, u: Uid, at: Vec) returns (trace: seq<Msg>)
    ensures Run(cfg, w, NEW_ROOM, trace)
         == Step(cfg, w, Step(cfg, w, Step(cfg, w, NEW_ROOM, Join(u, at)).state, SetBroadcast).state, SetOnEmpty).state
    ensures Own(trace, Some(u)) && Opening(trace)
  {
    hide Step;
    RunTwo(cfg, w, NEW_ROOM, [], Join(u, at));
    RunTwo(cfg, w, NEW_ROOM, [] + [Join(u, at)], SetBroadcast);
    RunTwo(cfg, w, NEW_ROOM, [] + [Join(u, at)] + [SetBroadcast], SetOnEmpty);
    trace := [] + [Join(u, at)] + [SetBroadcast] + [SetOnEmpty];
  }

  lemma ActionSeen<H>(cfg: Config, w: World, h: HubState<H>, sid: Uid, action: Action<H>, r: H) returns (trace: seq<Msg>)
    requires cfg.Valid() && Agree(cfg, h) && LoggedIn(h, sid) && Sensible(h, Do(sid, action))
    requires r in ActionStep(cfg, w, h, sid, action).hub.rooms
    ensures var h' := ActionStep(cfg, w, h, sid, action).hub;
            && Fair(h, h', Do(sid, action), r, trace)
            && Explains(cfg, w, h, h', r, trace)
  {
    hide Core, Enter, DecodeRoomOp, Step;
    var u := h.sessions[sid].account.value;
    trace := [];
    match action {
      case Create(body, at, bonus, addr) =>
        var op := DecodeRoomOp(body);
        if h.sessions[sid].room.None? && op.Some? && op.value.name !in h.metas
           && op.value.name != [] && |op.value.name| <= 32 && |op.value.note| <= 64 {
          var listed := h.(metas := h.metas[op.value.name := Meta(u, op.value.note)]);
          ListedKeeps(cfg, h, listed.metas);
          trace := EnterSeen(cfg, w, listed, sid, op.value.name, at, bonus, addr, r);
        }
      case JoinRoom(body, at, bonus, addr) =>
        var op := DecodeRoomOp(body);
        if h.sessions[sid].room.None? && op.Some? && op.value.name in h.metas && op.value.name != [] {
          trace := EnterSeen(cfg, w, h, sid, op.value.name, at, bonus, addr, r);
        }
      case BattleJoin(body, at, bonus, addr) =>
        if body != [] {
          var listed := if body in h.metas then h else h.(metas := h.metas[body := Meta(u, [])]);
          ListedKeeps(cfg, h, listed.metas);
          trace := EnterSeen(cfg, w, listed, sid, body, at, bonus, addr, r);
        }
      case _ => trace := InRoomSeen(cfg, w, h, sid, action, r);
    }
  }

  lemma InRoomSeen<H>(cfg: Config, w: World, h: HubState<H>, sid: Uid, action: Action<H>, r: H) returns (trace: seq<Msg>)
    requires LoggedIn(h, sid) && (action.LeaveRoom? || action.Report? || action.Refit?)
    requires r in ActionStep(cfg, w, h, sid, action).hub.rooms
    ensures var h' := ActionStep(cfg, w, h, sid, action).hub;
            && Fair(h, h', Do(sid, action), r, trace)
            && Explains(cfg, w, h, h', r, trace)
  {
    hide Step, Sent, Own, Run;
    var u := h.sessions[sid].account.value;
    var own := h.sessions[sid].room;
    trace := [];
    var m := match action
      case Report(report, order, lockOrder) => Input(u, report, order, lockOrder)
      case Refit(boost) => Equip(u, boost)
      case _ => Leave(u);
    if own.Some? {
      SentSeen(cfg, w, h, own.value, m, r);
      if own.value == r && r in h.rooms {
        trace := [m];
      }
    } else {
      RunNothing(cfg, w, h.rooms[r].state);
    }
  }

  /** A message to one room is seen by that room alone. */
  lemma SentSeen<H>(cfg: Config, w: World, h: HubState<H>, room: H, m: Msg, r: H)
    requires r in h.rooms
    ensures var live := Sent(cfg, w, h, room, m).rooms[r];
            live == h.rooms[r].(state := Run(cfg, w, h.rooms[r].state, if room == r then [m] else []))
    ensures !m.Tick? && !m.Drain? ==> Own([m], Some(if TouchesSomebody(m) then m.uid else 0)) && (!TouchesSomebody(m) ==> forall a :: Own([m], a))
  {
    hide Step;
    RunOne(cfg, w, h.rooms[r].state, m);
  }

  lemma RunNothing(cfg: Config, w: World, s: Room)
    ensures Run(cfg, w, s, []) == s
  {
  }

  lemma ClosedSeen<H>(cfg: Config, w: World, h: HubState<H>, sid: Uid, r: H) returns (trace: seq<Msg>)
    requires Agree(cfg, h) && sid in h.sessions && r in Closed(cfg, w, h, sid).rooms
    ensures var h' := Closed(cfg, w, h, sid);
            Fair(h, h', Disconnect(sid), r, trace) && Explains(cfg, w, h, h', r, trace)
  {
    hide Step, Core;
    trace := [];
    if h.sessions[sid].room == Some(r) {
      LoggedInIfInRoom(cfg, h, sid);
      trace := [Online(h.sessions[sid].account.value, false)];
      RunOne(cfg, w, h.rooms[r].state, trace[0]);
    }
  }

  lemma TickSeen<H>(cfg: Config, w: World, h: HubState<H>, room: H, spawn: Uid -> Vec, r: H) returns (trace: seq<Msg>)
    requires r in RoomTicked(cfg, w, h, room, spawn).rooms
    ensures var h' := RoomTicked(cfg, w, h, room, spawn);
            Fair(h, h', RoomTick(room, spawn), r, trace) && Explains(cfg, w, h, h', r, trace)
  {
    hide Step;
    trace := [];
    if room == r && r in h.rooms {
      trace := [Tick(spawn)];
      RunOne(cfg, w, h.rooms[r].state, Tick(spawn));
    }
  }

  lemma CleanupSeen<H>(cfg: Config, w: World, h: HubState<H>, room: H, r: H)
    requires r in CleanedUp(h.(pending := h.pending - multiset{room}), room).rooms
    ensures Explains(cfg, w, h, CleanedUp(h.(pending := h.pending - multiset{room}), room), r, [])
  {
    hide Step;
  }

  lemma NothingSeen<H>(cfg: Config, w: World, h: HubState<H>, h': HubState<H>, m: HubMsg<H>, r: H) returns (trace: seq<Msg>)
    requires r in h'.rooms && h'.rooms == h.rooms && !m.RoomTick?
    ensures Fair(h, h', m, r, trace) && Explains(cfg, w, h, h', r, trace)
  {
    trace := [];
  }

  /** One step of the hub moves each room by messages of the room loop. */
  lemma StepSeen<H>(cfg: Config, w: World, h: HubState<H>, m: HubMsg<H>, r: H) returns (trace: seq<Msg>)
    requires cfg.Valid() && Agree(cfg, h) && r in HubStep(cfg, w, h, m).hub.rooms
    ensures var h' := HubStep(cfg, w, h, m).hub;
            Fair(h, h', m, r, trace) && Explains(cfg, w, h, h', r, trace)
  {
    hide Agree, Fair, Explains, ActionStep, Closed, RoomTicked, CleanedUp, Sensible;
    var h' := HubStep(cfg, w, h, m).hub;
    match m {
      case Connect => trace := NothingSeen(cfg, w, h, h', m, r);
      case Login(_, _) => trace := NothingSeen(cfg, w, h, h', m, r);
      case Do(sid, action) =>
        if Sensible(h, m) && LoggedIn(h, sid) {
          trace := ActionSeen(cfg, w, h, sid, action, r);
        } else {
          trace := NothingSeen(cfg, w, h, h', m, r);
        }
      case Disconnect(sid) =>
        if sid in h.sessions && Sensible(h, m) {
          trace := ClosedSeen(cfg, w, h, sid, r);
        } else {
          trace := NothingSeen(cfg, w, h, h', m, r);
        }
      case RoomTick(room, spawn) =>
        TickIsSensible(h, room, spawn);
        trace := TickSeen(cfg, w, h, room, spawn, r);
      case Cleanup(room) =>
        if Sensible(h, m) {
          CleanupSeen(cfg, w, h, room, r);
          trace := [];
          NoneIsFair(h, h', m, r);
        } else {
          trace := NothingSeen(cfg, w, h, h', m, r);
        }
    }
  }

  lemma TickIsSensible<H>(h: HubState<H>, room: H, spawn: Uid -> Vec)
    ensures Sensible(h, RoomTick(room, spawn))
  {
  }

  lemma NoneIsFair<H>(h: HubState<H>, h': HubState<H>, m: HubMsg<H>, r: H)
    requires !m.RoomTick?
    ensures Fair(h, h', m, r, [])
  {
  }

  /** `trace` is what the room has seen of the steps of the run since it was opened, one after the other. */
  ghost predicate Recounts<H>(cfg: Config, w: World, ms: seq<HubMsg<H>>, r: H, trace: seq<Msg>)
  {
    && ms != []
    && var init := ms[..|ms| - 1];
       var h, h' := HubRun(cfg, w, NewHub(), init), HubRun(cfg, w, NewHub(), ms);
       exists k :: 0 <= k <= |trace|
         && Fair(h, h', ms[|ms| - 1], r, trace[k..]) && Explains(cfg, w, h, h', r, trace[k..])
         && (if r in h.rooms then Recounts(cfg, w, init, r, trace[..k]) else k == 0)
  }

  /** Every room of the hub is where the run of the room loop from a new room is after what the room has seen, and that begins
      with a join and the registration of the callback and drains nothing. Whatever holds of all such runs holds of the rooms
      in the hub. */
  lemma {:induction false} RoomHistory<H>(cfg: Config, w: World, ms: seq<HubMsg<H>>, r: H) returns (trace: seq<Msg>)
    requires cfg.Valid() && r in HubRun(cfg, w, NewHub(), ms).rooms
    ensures HubRun(cfg, w, NewHub(), ms).rooms[r].state == Run(cfg, w, NEW_ROOM, trace)
    ensures Recounts(cfg, w, ms, r, trace) && Opening(trace) && NoDrain(trace)
  {
    hide HubStep, Run, Fair, Agree;
    var init, m := ms[..|ms| - 1], ms[|ms| - 1];
    var h := HubRun(cfg, w, NewHub(), init);
    NewHubAgrees<H>(cfg);
    HubRunAgrees(cfg, w, NewHub(), init);
    var last := StepSeen(cfg, w, h, m, r);
    FairDrainsNothing(h, HubStep(cfg, w, h, m).hub, m, r, last);
    if r in h.rooms {
      var earlier := RoomHistory(cfg, w, init, r);
      trace := earlier + last;
      RunAppend(cfg, w, NEW_ROOM, earlier, last);
      assert trace[|earlier|..] == last && trace[..|earlier|] == earlier;
    } else {
      trace := last;
      assert trace[0..] == last;
    }
  }

  lemma FairDrainsNothing<H>(h: HubState<H>, h': HubState<H>, m: HubMsg<H>, r: H, trace: seq<Msg>)
    requires Fair(h, h', m, r, trace)
    ensures NoDrain(trace)
  {
  }

  /** In every room of every reachable hub, the deaths of each player since joining, the first player's included, have been
      announced by exactly one Death message each, apart from one since the last tick of the room. */
  lemma DeathsAnnouncedInTheHub<H>(cfg: Config, w: World, ms: seq<HubMsg<H>>, r: H, u: Uid) returns (trace: seq<Msg>)
    requires cfg.Valid() && r in HubRun(cfg, w, NewHub(), ms).rooms
    requires u in HubRun(cfg, w, NewHub(), ms).rooms[r].state.fighters
    ensures Recounts(cfg, w, ms, r, trace) && HubRun(cfg, w, NewHub(), ms).rooms[r].state == Run(cfg, w, NEW_ROOM, trace)
    ensures exists i :: Accounted(cfg, w, trace, i, u)
  {
    hide HubRun, Run, Accounted, Recounts;
    trace := RoomHistory(cfg, w, ms, r);
    var i := EveryDeathAnnounced(cfg, w, trace, u);
  }

  // ----- Abandoned rooms disappear -----

  ghost predicate TicksRoom<H>(m: HubMsg<H>, r: H) { m.RoomTick? && m.room == r }

  ghost function TicksOf<H>(ms: seq<HubMsg<H>>, r: H): nat
  {
    if ms == [] then 0 else TicksOf(ms[..|ms| - 1], r) + if TicksRoom(ms[|ms| - 1], r) then 1 else 0
  }

  /** Nobody is in the room, or it is gone. */
  ghost predicate Deserted<H>(h: HubState<H>, r: H) { r in h.rooms ==> SessionsIn(h.sessions, r) == {} }

  /** Everybody has been offline for at least `k` ticks; once that has emptied the room, it has been reported. */
  ghost predicate Fading(s: Room, k: nat)
  {
    (forall u :: u in s.links ==> !s.links[u].online && s.links[u].offlineTicks >= k) && (k > 0 && s.links == map[] ==> s.emptied)
  }

  lemma DesertedIsOffline<H>(cfg: Config, h: HubState<H>, r: H)
    requires Core(cfg, h) && r in h.rooms && Deserted(h, r)
    ensures Fading(h.rooms[r].state, 0)
  {
    assert RoomAgrees(cfg, h, r);
    forall u ensures u !in OnlineOf(h.rooms[r].state.links) {
      if u in h.online {
        assert h.online[u] !in SessionsIn(h.sessions, r);
      }
    }
    var links := h.rooms[r].state.links;
    forall u | u in links ensures !links[u].online {
      assert u !in OnlineOf(links);
    }
  }

  lemma FadingTick(cfg: Config, w: World, s: Room, spawn: Uid -> Vec, k: nat)
    requires Fading(s, k) && s.hadPlayers
    ensures Fading(Step(cfg, w, s, Tick(spawn)).state, k + 1)
  {
    hide Step;
    TickAt(cfg, w, s, Tick(spawn), 0);
  }

  lemma FadingStep<H>(cfg: Config, w: World, h: HubState<H>, m: HubMsg<H>, r: H, k: nat)
    requires cfg.Valid() && Agree(cfg, h)
    requires var h' := HubStep(cfg, w, h, m).hub; r in h'.rooms && Deserted(h, r) && Deserted(h', r)
    requires r in h.rooms ==> Fading(h.rooms[r].state, k)
    ensures r in h.rooms
    ensures Fading(HubStep(cfg, w, h, m).hub.rooms[r].state, if TicksRoom(m, r) then k + 1 else k)
  {
    hide HubStep, Fading, Own, Step;
    var h' := HubStep(cfg, w, h, m).hub;
    var trace := StepSeen(cfg, w, h, m, r);
    NotInvolved(cfg, h, h', m, r);
    HubStepAgrees(cfg, w, h, m);
    NewRoomIsNotInService(cfg, h', r);
    if r in h.rooms {
      InServiceAt(cfg, h, r);
      if TicksRoom(m, r) {
        RunOne(cfg, w, h.rooms[r].state, Tick(m.spawn));
        FadingTick(cfg, w, h.rooms[r].state, m.spawn, k);
      }
    }
  }

  lemma NotInvolved<H>(cfg: Config, h: HubState<H>, h': HubState<H>, m: HubMsg<H>, r: H)
    requires SessionsAgree(h) && Deserted(h, r) && Deserted(h', r) && r in h'.rooms
    ensures !Involves(h, h', m, r)
  {
    assert forall sid :: sid in h'.sessions ==> sid !in SessionsIn(h'.sessions, r);
    assert forall sid :: r in h.rooms && sid in h.sessions ==> sid !in SessionsIn(h.sessions, r);
  }

  lemma InServiceAt<H>(cfg: Config, h: HubState<H>, r: H)
    requires Core(cfg, h) && r in h.rooms
    ensures InService(cfg, h.rooms[r].state) && (h.rooms[r].state.emptied ==> r in h.pending)
  {
    assert RoomAgrees(cfg, h, r);
  }

  lemma NewRoomIsNotInService<H>(cfg: Config, h: HubState<H>, r: H)
    requires Core(cfg, h) && r in h.rooms
    ensures h.rooms[r].state != NEW_ROOM
  {
    assert RoomAgrees(cfg, h, r);
  }

  lemma {:induction false} FadingRun<H>(cfg: Config, w: World, h: HubState<H>, ms: seq<HubMsg<H>>, r: H)
    requires cfg.Valid() && Agree(cfg, h) && r in h.rooms
    requires forall i :: 0 <= i <= |ms| ==> Deserted(HubRun(cfg, w, h, ms[..i]), r)
    ensures r in HubRun(cfg, w, h, ms).rooms ==> Fading(HubRun(cfg, w, h, ms).rooms[r].state, TicksOf(ms, r))
  {
    hide HubStep, Fading, Agree;
    assert ms[..|ms|] == ms;
    if ms == [] {
      DesertedIsOffline(cfg, h, r) by { assert Core(cfg, h) by { AgreeIsCore(cfg, h); } }
    } else {
      var init, m := ms[..|ms| - 1], ms[|ms| - 1];
      forall i | 0 <= i <= |init| ensures Deserted(HubRun(cfg, w, h, init[..i]), r) {
        assert init[..i] == ms[..i];
      }
      FadingRun(cfg, w, h, init, r);
      HubRunAgrees(cfg, w, h, init);
      var before := HubRun(cfg, w, h, init);
      if r in HubRun(cfg, w, h, ms).rooms {
        FadingStep(cfg, w, before, m, r, TicksOf(init, r));
      }
    }
  }

  lemma AgreeIsCore<H>(cfg: Config, h: HubState<H>)
    requires Agree(cfg, h)
    ensures Core(cfg, h)
  {
  }

  /** Rooms do not leak. From any reachable state, if nobody is in a room any more and nobody comes back, then once it
      has ticked as often as the grace period is long it has either been removed already, or a cleanup is waiting that
      removes it from the lobby's list, the manager and the session tables. */
  lemma AbandonedRoomsDisappear<H>(cfg: Config, w: World, past: seq<HubMsg<H>>, ms: seq<HubMsg<H>>, r: H)
    requires cfg.Valid()
    requires var h := HubRun(cfg, w, NewHub(), past);
             r in h.rooms && forall i :: 0 <= i <= |ms| ==> Deserted(HubRun(cfg, w, h, ms[..i]), r)
    requires TicksOf(ms, r) >= cfg.graceTicks
    ensures var h' := HubRun(cfg, w, HubRun(cfg, w, NewHub(), past), ms);
            if r in h'.rooms then
              var name, after := h'.rooms[r].name, HubStep(cfg, w, h', Cleanup(r)).hub;
              && r in h'.pending && name in h'.manager && h'.manager[name] == r
              && name !in after.metas && name !in after.manager && r !in after.routes && r !in after.rooms
            else r !in h'.routes && forall n :: n in h'.manager ==> h'.manager[n] != r
  {
    hide HubStep, Run, HubRun;
    var h := HubRun(cfg, w, NewHub(), past);
    var h' := HubRun(cfg, w, h, ms);
    NewHubAgrees<H>(cfg);
    HubRunAgrees(cfg, w, NewHub(), past);
    HubRunAgrees(cfg, w, h, ms);
    if r in h'.rooms {
      FadingRun(cfg, w, h, ms, r);
      InServiceAt(cfg, h', r);
      FadedOut(cfg, h'.rooms[r].state, TicksOf(ms, r));
      RemovedByCleanup(cfg, w, h', r);
    }
  }

  lemma FadedOut(cfg: Config, s: Room, k: nat)
    requires InService(cfg, s) && Fading(s, k) && k >= cfg.graceTicks
    ensures s.links == map[] && s.emptied
  {
    hide FighterGood;
    assert forall u :: u in s.links ==> LinkGood(cfg, s.links[u]);
    assert s.links.Keys == {};
  }

  lemma RemovedByCleanup<H>(cfg: Config, w: World, h: HubState<H>, r: H)
    requires Agree(cfg, h) && r in h.rooms && h.rooms[r].state.links == map[] && r in h.pending
    ensures var name, after := h.rooms[r].name, HubStep(cfg, w, h, Cleanup(r)).hub;
            && name in h.manager && h.manager[name] == r
            && name !in after.metas && name !in after.manager && r !in after.routes && r !in after.rooms
  {
    hide PlayersAgree, SessionsAgree, OnlineAgrees, RoutesAgree;
    assert h.rooms[r].state.fighters.Keys == {};
  }
}
