/** Losing the connection and coming back, seen from the hub: the seat in the room is kept for exactly the grace period,
    whatever everybody else does, and the returning player gets it back even if the room is full. */
module HubReconnect {
  import opened Base
  import opened Bytes
  import opened Geometry
  import opened Combat
  import opened RoomModel
  import opened RoomInvariant
  import opened RoomReconnect
  import opened LobbyWire
  import opened HubModel
  import opened HubInvariant
  import opened HubLifetime
  import HubProofs

  // ----- Rooms with players stay up -----

  lemma EnterKeepsRooms<H>(cfg: Config, w: World, h: HubState<H>, sid: Uid, name: Text, at: Vec, bonus: Option<real>, addr: H)
    requires LoggedIn(h, sid)
    ensures h.rooms.Keys <= Enter(cfg, w, h, sid, name, at, bonus, addr).hub.rooms.Keys
  {
    hide Step;
    var found := Opened(h, name, addr);
    assert h.rooms.Keys <= found.rooms.Keys;
    hide Sent, Opened;
  }

  lemma ActionKeepsRooms<H>(cfg: Config, w: World, h: HubState<H>, sid: Uid, action: Action<H>)
    requires LoggedIn(h, sid)
    ensures h.rooms.Keys <= ActionStep(cfg, w, h, sid, action).hub.rooms.Keys
  {
    hide Step, DecodeRoomOp, Enter, Sent;
    match action {
      case Create(body, at, bonus, addr) =>
        var op := DecodeRoomOp(body);
        if op.Some? {
          var metas := h.metas[op.value.name := Meta(h.sessions[sid].account.value, op.value.note)];
          EnterKeepsRooms(cfg, w, h.(metas := metas), sid, op.value.name, at, bonus, addr);
        }
      case JoinRoom(body, at, bonus, addr) =>
        var op := DecodeRoomOp(body);
        if op.Some? { EnterKeepsRooms(cfg, w, h, sid, op.value.name, at, bonus, addr); }
      case BattleJoin(body, at, bonus, addr) =>
        var listed := if body in h.metas then h else h.(metas := h.metas[body := Meta(h.sessions[sid].account.value, [])]);
        EnterKeepsRooms(cfg, w, listed, sid, body, at, bonus, addr);
      case LeaveRoom =>
      case Report(_, _, _) =>
      case Refit(_) =>
    }
  }

  lemma OccupiedRoomStays<H>(cfg: Config, w: World, h: HubState<H>, m: HubMsg<H>, r: H)
    requires Agree(cfg, h) && r in h.rooms && h.rooms[r].state.fighters.Keys != {}
    ensures r in HubStep(cfg, w, h, m).hub.rooms
  {
    hide Step, ActionStep, Sent, Sensible, CleanedUp, Agree;
    if m.Do? && LoggedIn(h, m.sid) { ActionKeepsRooms(cfg, w, h, m.sid, m.action); }
    if m.Cleanup? { OthersStay(cfg, h, m.room, r); }
  }

  lemma OthersStay<H>(cfg: Config, h: HubState<H>, room: H, r: H)
    requires Agree(cfg, h) && r in h.rooms && h.rooms[r].state.fighters.Keys != {}
    ensures r in CleanedUp(h.(pending := h.pending - multiset{room}), room).rooms
  {
    if room in h.rooms { NameIsOwn(cfg, h, room); }
    hide Agree;
  }

  lemma NameIsOwn<H>(cfg: Config, h: HubState<H>, r: H)
    requires Agree(cfg, h) && r in h.rooms
    ensures var n := h.rooms[r].name;
            n in h.manager && h.manager[n] == r && n in h.metas && r in h.routes
  {
  }

  // ----- The seat -----

  /** The seat of an absent player after `t` ticks: kept, or gone for good. */
  ghost predicate Seat(cfg: Config, s: Room, u: Uid, t: nat)
  {
    if t < cfg.graceTicks then Away(s, u, t) else u !in s.links
  }

  lemma {:induction false} SeatTrace(cfg: Config, w: World, s: Room, trace: seq<Msg>, account: Option<Uid>, u: Uid, t: nat)
    requires Seat(cfg, s, u, t) && Own(trace, account) && account != Some(u)
    ensures Seat(cfg, Run(cfg, w, s, trace), u, t)
  {
    hide Step;
    if trace != [] {
      var init, m := trace[..|trace| - 1], trace[|trace| - 1];
      SeatTrace(cfg, w, s, init, account, u, t);
      assert !Touches(m, u) && !m.Tick?;
      AwayStep(cfg, w, Run(cfg, w, s, init), m, u, t);
    }
  }

  lemma SeatTick(cfg: Config, w: World, s: Room, spawn: Uid -> Vec, u: Uid, t: nat)
    requires Seat(cfg, s, u, t)
    ensures Seat(cfg, Step(cfg, w, s, Tick(spawn)).state, u, t + 1)
  {
    hide Step;
    AwayStep(cfg, w, s, Tick(spawn), u, t);
  }

  /** No session of the account is in the room. One may be open, in the lobby or elsewhere. */
  ghost predicate Absent<H>(h: HubState<H>, r: H, u: Uid)
  {
    forall sid :: sid in h.sessions && h.sessions[sid].room == Some(r) ==> h.sessions[sid].account != Some(u)
  }

  lemma SeatStep<H>(cfg: Config, w: World, h: HubState<H>, m: HubMsg<H>, r: H, u: Uid, t: nat)
    requires cfg.Valid() && Agree(cfg, h) && r in HubStep(cfg, w, h, m).hub.rooms
    requires Absent(h, r, u) && Absent(HubStep(cfg, w, h, m).hub, r, u)
    requires if r in h.rooms then Seat(cfg, h.rooms[r].state, u, t) else t >= cfg.graceTicks
    ensures Seat(cfg, HubStep(cfg, w, h, m).hub.rooms[r].state, u, if TicksRoom(m, r) then t + 1 else t)
  {
    hide HubStep, Own, Step, Core, Seat, Absent;
    var h' := HubStep(cfg, w, h, m).hub;
    var trace := StepSeen(cfg, w, h, m, r);
    var s := Before(h, r);
    assert Seat(cfg, s, u, t) by { NoSeatInNewRoom(cfg, u, t); }
    if TicksRoom(m, r) && r in h.rooms {
      RunOne(cfg, w, s, Tick(m.spawn));
      SeatTick(cfg, w, s, m.spawn, u, t);
    } else {
      if trace != [] {
        NoSessionOf(cfg, w, h, m, r, u);
        SeatTrace(cfg, w, s, trace, h.sessions[m.sid].account, u, t);
      }
      if TicksRoom(m, r) { GoneStaysGone(cfg, h'.rooms[r].state, u, t); }
    }
  }

  lemma NoSeatInNewRoom(cfg: Config, u: Uid, t: nat)
    ensures t >= cfg.graceTicks ==> Seat(cfg, NEW_ROOM, u, t)
  {
  }

  lemma GoneStaysGone(cfg: Config, s: Room, u: Uid, t: nat)
    requires Seat(cfg, s, u, t) && t >= cfg.graceTicks
    ensures Seat(cfg, s, u, t + 1)
  {
  }

  /** Whoever asks a room for something while no session of `u` is in it, before or after, is not `u`. */
  lemma NoSessionOf<H>(cfg: Config, w: World, h: HubState<H>, m: HubMsg<H>, r: H, u: Uid)
    requires Involves(h, HubStep(cfg, w, h, m).hub, m, r)
    requires Absent(h, r, u) && Absent(HubStep(cfg, w, h, m).hub, r, u)
    ensures h.sessions[m.sid].account != Some(u)
  {
    hide HubStep;
    if h.sessions[m.sid].account == Some(u) { HubProofs.LatchedStep(cfg, w, h, m, m.sid); }
  }

  lemma NameStays<H>(cfg: Config, w: World, h: HubState<H>, m: HubMsg<H>, r: H)
    requires cfg.Valid() && Agree(cfg, h) && r in h.rooms && r in HubStep(cfg, w, h, m).hub.rooms
    ensures HubStep(cfg, w, h, m).hub.rooms[r].name == h.rooms[r].name
  {
    hide HubStep, Agree;
    var trace := StepSeen(cfg, w, h, m, r);
  }

  /** A player whose connection was lost keeps the seat for exactly the grace period, counted in ticks of the room, while no
      session of the account comes back into the room, logged in again or not. */
  lemma {:induction false} SeatKept<H>(cfg: Config, w: World, h: HubState<H>, ms: seq<HubMsg<H>>, r: H, u: Uid)
    requires cfg.Valid() && Agree(cfg, h) && r in h.rooms && Away(h.rooms[r].state, u, 0)
    requires forall i :: 0 <= i <= |ms| ==> Absent(HubRun(cfg, w, h, ms[..i]), r, u)
    ensures var h' := HubRun(cfg, w, h, ms);
            && (TicksOf(ms, r) < cfg.graceTicks ==> r in h'.rooms && h'.rooms[r].name == h.rooms[r].name)
            && (r in h'.rooms ==> Seat(cfg, h'.rooms[r].state, u, TicksOf(ms, r)))
            && (r in h'.rooms && u in h'.rooms[r].state.fighters <==> TicksOf(ms, r) < cfg.graceTicks)
  {
    hide HubStep, Agree, Absent;
    assert ms[..|ms|] == ms;
    if ms != [] {
      var init, m := ms[..|ms| - 1], ms[|ms| - 1];
      forall i | 0 <= i <= |init| ensures Absent(HubRun(cfg, w, h, init[..i]), r, u) {
        assert init[..i] == ms[..i];
      }
      SeatKept(cfg, w, h, init, r, u);
      HubRunAgrees(cfg, w, h, init);
      var before := HubRun(cfg, w, h, init);
      assert init[..|init|] == init;
      if r in before.rooms && before.rooms[r].state.fighters.Keys != {} {
        OccupiedRoomStays(cfg, w, before, m, r);
        NameStays(cfg, w, before, m, r);
      }
      if r in HubRun(cfg, w, h, ms).rooms { SeatStep(cfg, w, before, m, r, u, TicksOf(init, r)); }
    }
  }

  // ----- Coming back -----

  /** The request names the room: a room join, or a battle join, whose whole body is the name. */
  ghost predicate AsksFor<H>(action: Action<H>, name: Text)
  {
    match action
    case JoinRoom(body, _, _, _) => DecodeRoomOp(body).Some? && DecodeRoomOp(body).value.name == name
    case BattleJoin(body, _, _, _) => body == name
    case _ => false
  }

  /** Whoever joins a room in which their player is still waiting gets that player back, full room or not, whichever way they
      ask: nothing about any player changes except that the block bar of the one who returns is set afresh. */
  lemma Rejoin<H>(cfg: Config, w: World, h: HubState<H>, sid: Uid, action: Action<H>, r: H, u: Uid)
    requires cfg.Valid() && Agree(cfg, h) && r in h.rooms && u in h.rooms[r].state.links
    requires sid in h.sessions && h.sessions[sid] == Session(Some(u), None)
    requires AsksFor(action, h.rooms[r].name) && h.rooms[r].name != [] && action.addr !in h.rooms
    ensures var res := HubStep(cfg, w, h, Do(sid, action));
            && res.reply == JoinOK && sid in res.hub.sessions && res.hub.sessions[sid].room == Some(r) && r in res.hub.rooms
            && var s, s' := h.rooms[r].state, res.hub.rooms[r].state;
               && s'.links == s.links[u := Link(true, 0)]
               && s'.fighters == (if action.bonus.None? then s.fighters
                                  else s.fighters[u := s.fighters[u].(blockMax := BASE_BLOCK_MAX + action.bonus.value,
                                                                      block := BASE_BLOCK_MAX + action.bonus.value)])
  {
    hide DecodeRoomOp, Step, Core, Enter, ManagerAgrees, RoutesAgree;
    NameIsOwn(cfg, h, r);
    assert ManagerAgrees(h) && RoutesAgree(h) by { Tables(cfg, h); }
    EnterOldIs(cfg, w, h, sid, h.rooms[r].name, action.at, action.bonus, action.addr);
    BackInSeat(cfg, w, h.rooms[r].state, u, action.at, action.bonus);
  }

  lemma Tables<H>(cfg: Config, h: HubState<H>)
    requires Core(cfg, h)
    ensures ManagerAgrees(h) && RoutesAgree(h)
  {
  }

  lemma BackInSeat(cfg: Config, w: World, s: Room, u: Uid, at: Vec, bonus: Option<real>)
    requires u in s.links
    ensures var j := Step(cfg, w, s, Join(u, at));
            && !j.out.full && j.state == s.(links := s.links[u := Link(true, 0)])
            && (bonus.Some? ==> Step(cfg, w, j.state, Equip(u, bonus.value)).state
                                == j.state.(fighters := s.fighters[u := s.fighters[u].(blockMax := BASE_BLOCK_MAX + bonus.value,
                                                                                       block := BASE_BLOCK_MAX + bonus.value)]))
  {
    hide Newcomer;
  }

  /** The hub after a session has been cut off and others have gone on. */
  ghost function CutOff<H>(cfg: Config, w: World, h: HubState<H>, sid: Uid, ms: seq<HubMsg<H>>): HubState<H>
  {
    HubRun(cfg, w, HubStep(cfg, w, h, Disconnect(sid)).hub, ms)
  }

  lemma CutOffSeat<H>(cfg: Config, w: World, h: HubState<H>, sid: Uid, r: H, u: Uid)
    requires Agree(cfg, h) && sid in h.sessions && h.sessions[sid] == Session(Some(u), Some(r))
    ensures var h' := HubStep(cfg, w, h, Disconnect(sid)).hub;
            r in h.rooms && r in h'.rooms && h'.rooms[r].name == h.rooms[r].name && Away(h'.rooms[r].state, u, 0)
  {
    hide Step;
    assert RoomAgrees(cfg, h, r);
    assert u in AccountsIn(h.sessions, h.online, r);
    assert u in h.rooms[r].state.links;
    MarkedOffline(cfg, w, h.rooms[r].state, u);
    hide Agree, RoomAgrees;
  }

  /** After fewer ticks of the room than the grace period the player cut off is still there. */
  lemma StillThere<H>(cfg: Config, w: World, h: HubState<H>, sid: Uid, r: H, u: Uid, ms: seq<HubMsg<H>>)
    requires cfg.Valid() && Agree(cfg, h) && sid in h.sessions && h.sessions[sid] == Session(Some(u), Some(r)) && r in h.rooms
    requires forall i :: 0 <= i <= |ms| ==> Absent(CutOff(cfg, w, h, sid, ms[..i]), r, u)
    requires TicksOf(ms, r) < cfg.graceTicks
    ensures var h2 := CutOff(cfg, w, h, sid, ms);
            && Agree(cfg, h2)
            && r in h2.rooms && h2.rooms[r].name == h.rooms[r].name && u in h2.rooms[r].state.fighters
  {
    hide HubStep, Agree, Step, HubRun, Absent;
    var h1 := HubStep(cfg, w, h, Disconnect(sid)).hub;
    HubStepAgrees(cfg, w, h, Disconnect(sid));
    CutOffSeat(cfg, w, h, sid, r, u);
    forall i | 0 <= i <= |ms| ensures Absent(HubRun(cfg, w, h1, ms[..i]), r, u) {
      assert Absent(CutOff(cfg, w, h, sid, ms[..i]), r, u);
    }
    SeatKept(cfg, w, h1, ms, r, u);
    HubRunAgrees(cfg, w, h1, ms);
  }

  /** Nothing about any player differs but the block bar of `u`. */
  ghost predicate SameButBlock(fs: Fighters, fs': Fighters, u: Uid)
  {
    && fs'.Keys == fs.Keys && (forall v :: v in fs && v != u ==> fs'[v] == fs[v])
    && (u in fs ==> fs'[u] == fs[u].(block := fs'[u].block, blockMax := fs'[u].blockMax))
  }

  lemma RefilledBlock(fs: Fighters, u: Uid, bonus: Option<real>)
    requires u in fs
    ensures SameButBlock(fs, if bonus.None? then fs
                             else fs[u := fs[u].(blockMax := BASE_BLOCK_MAX + bonus.value, block := BASE_BLOCK_MAX + bonus.value)], u)
  {
  }

  lemma ComesBack<H>(cfg: Config, w: World, h: HubState<H>, again: Uid, action: Action<H>, r: H, u: Uid)
    requires cfg.Valid() && Agree(cfg, h) && r in h.rooms && u in h.rooms[r].state.fighters
    requires again in h.sessions && h.sessions[again] == Session(Some(u), None)
    requires AsksFor(action, h.rooms[r].name) && h.rooms[r].name != [] && action.addr !in h.rooms
    ensures var back := HubStep(cfg, w, h, Do(again, action));
            && back.reply == JoinOK && r in back.hub.rooms && again in back.hub.sessions
            && back.hub.sessions[again].room == Some(r)
            && SameButBlock(h.rooms[r].state.fighters, back.hub.rooms[r].state.fighters, u)
  {
    hide HubStep, DecodeRoomOp, Agree, Step, SameButBlock;
    PlayerIsLinked(cfg, h, r, u);
    Rejoin(cfg, w, h, again, action, r, u);
    RefilledBlock(h.rooms[r].state.fighters, u, action.bonus);
  }

  lemma PlayerIsLinked<H>(cfg: Config, h: HubState<H>, r: H, u: Uid)
    requires Agree(cfg, h) && r in h.rooms && u in h.rooms[r].state.fighters
    ensures u in h.rooms[r].state.links
  {
    assert RoomAgrees(cfg, h, r);
  }

  // ----- Rooms have names -----

  lemma EnterNames<H>(cfg: Config, w: World, h: HubState<H>, sid: Uid, name: Text, at: Vec, bonus: Option<real>, addr: H)
    requires LoggedIn(h, sid) && name != [] && [] !in h.manager
    ensures [] !in Enter(cfg, w, h, sid, name, at, bonus, addr).hub.manager
  {
    hide Step;
  }

  lemma ActionNames<H>(cfg: Config, w: World, h: HubState<H>, sid: Uid, action: Action<H>)
    requires LoggedIn(h, sid) && [] !in h.manager
    ensures [] !in ActionStep(cfg, w, h, sid, action).hub.manager
  {
    hide Step, DecodeRoomOp, Enter, Sent;
    match action {
      case Create(body, at, bonus, addr) =>
        var op := DecodeRoomOp(body);
        if op.Some? && op.value.name != [] {
          var metas := h.metas[op.value.name := Meta(h.sessions[sid].account.value, op.value.note)];
          EnterNames(cfg, w, h.(metas := metas), sid, op.value.name, at, bonus, addr);
        }
      case JoinRoom(body, at, bonus, addr) =>
        var op := DecodeRoomOp(body);
        if op.Some? && op.value.name != [] { EnterNames(cfg, w, h, sid, op.value.name, at, bonus, addr); }
      case BattleJoin(body, at, bonus, addr) =>
        if body != [] {
          var listed := if body in h.metas then h else h.(metas := h.metas[body := Meta(h.sessions[sid].account.value, [])]);
          EnterNames(cfg, w, listed, sid, body, at, bonus, addr);
        }
      case LeaveRoom =>
      case Report(_, _, _) =>
      case Refit(_) =>
    }
  }

  /** No room is ever opened under the empty name. */
  lemma {:induction false} RoomsHaveNames<H>(cfg: Config, w: World, ms: seq<HubMsg<H>>)
    ensures [] !in HubRun(cfg, w, NewHub<H>(), ms).manager
  {
    hide Step, ActionStep, Sent, Sensible;
    if ms != [] {
      var h, m := HubRun(cfg, w, NewHub<H>(), ms[..|ms| - 1]), ms[|ms| - 1];
      RoomsHaveNames(cfg, w, ms[..|ms| - 1]);
      if m.Do? && LoggedIn(h, m.sid) { ActionNames(cfg, w, h, m.sid, m.action); }
    }
  }

  /** From any reachable state: a session in a room is cut off, and others go on for fewer ticks of that room than the grace
      period. Meanwhile the account may log in again on a new session, which stays in the lobby for as long as it likes and
      then joins the room by name, in either way. The join succeeds and changes no player but the block bar of the one
      who returned. */
  lemma ReconnectThroughTheHub<H>(cfg: Config, w: World, past: seq<HubMsg<H>>, sid: Uid, r: H, u: Uid, ms: seq<HubMsg<H>>,
                                  again: Uid, action: Action<H>)
    requires cfg.Valid()
    requires var h := HubRun(cfg, w, NewHub(), past);
             && sid in h.sessions && h.sessions[sid] == Session(Some(u), Some(r)) && r in h.rooms
             && AsksFor(action, h.rooms[r].name)
             && forall i :: 0 <= i <= |ms| ==> Absent(CutOff(cfg, w, h, sid, ms[..i]), r, u)
    requires TicksOf(ms, r) < cfg.graceTicks
    requires var h2 := CutOff(cfg, w, HubRun(cfg, w, NewHub(), past), sid, ms);
             again in h2.sessions && h2.sessions[again] == Session(Some(u), None) && action.addr !in h2.rooms
    ensures var h2 := CutOff(cfg, w, HubRun(cfg, w, NewHub(), past), sid, ms);
            var back := HubStep(cfg, w, h2, Do(again, action));
            && r in h2.rooms && u in h2.rooms[r].state.fighters
            && back.reply == JoinOK && r in back.hub.rooms
            && again in back.hub.sessions && back.hub.sessions[again].room == Some(r)
            && SameButBlock(h2.rooms[r].state.fighters, back.hub.rooms[r].state.fighters, u)
  {
    hide HubStep, AsksFor, Agree, Step, CutOff, SameButBlock, HubRun, Absent;
    var h := HubRun(cfg, w, NewHub(), past);
    NewHubAgrees<H>(cfg);
    HubRunAgrees(cfg, w, NewHub(), past);
    RoomsHaveNames(cfg, w, past);
    NameIsOwn(cfg, h, r);
    StillThere(cfg, w, h, sid, r, u, ms);
    ComesBack(cfg, w, CutOff(cfg, w, h, sid, ms), again, action, r, u);
  }
}
