/** The tables of the hub agree with each other, with the sessions, and with the players inside the rooms. */
module HubInvariant {
  import opened Base
  import opened Bytes
  import opened Geometry
  import opened Combat
  import opened Validation
  import opened RoomModel
  import opened RoomInvariant
  import opened RoomLedger
  import opened LobbyWire
  import opened HubModel

  // ----- What one message does to the connections of a room -----

  ghost function OnlineOf(links: Links): set<Uid> { set u | u in links && links[u].online }

  /** A room the hub has opened: it broadcasts, reports when it becomes empty, and has had players. */
  ghost predicate InService(cfg: Config, s: Room)
  {
    Good(cfg, s) && s.notifying && s.broadcasting && s.hadPlayers
  }

  /** The parts of a room that decide who is in it and whether it has been reported empty. */
  ghost predicate SameLinks(s: Room, s': Room)
  {
    s'.links == s.links && s'.emptied == s.emptied && s'.hadPlayers == s.hadPlayers && s'.notifying == s.notifying
    && s'.broadcasting == s.broadcasting
  }

  lemma PlayingKeepsLinks(cfg: Config, w: World, s: Room, m: Msg)
    requires m.Input? || m.Equip?
    ensures SameLinks(s, Step(cfg, w, s, m).state)
  {
    hide Attack, CheckMove, Equipped;
    if m.Equip? { EquipOthers(s, m.uid, m.bonus); }
    if m.Input? {
      if Accepts(w, s, m) { StepIsAttack(cfg, w, s, m); } else { RefusedAt(cfg, w, s, m); }
    }
  }

  lemma TickLinks(cfg: Config, w: World, s: Room, m: Msg)
    requires InService(cfg, s) && m.Tick?
    ensures var r := Step(cfg, w, s, m);
            && InService(cfg, r.state) && OnlineOf(r.state.links) == OnlineOf(s.links)
            && (r.state.emptied ==> s.emptied || r.out.emptiedNow)
  {
    hide Step, Good;
    StepGood(cfg, w, s, m);
    TickAt(cfg, w, s, m, 0);
    OnlineSurvives(cfg, s.links);
  }

  lemma OnlineSurvives(cfg: Config, links: Links)
    ensures OnlineOf(Aged(links) - Expired(cfg, Aged(links))) == OnlineOf(links)
  {
  }

  lemma JoinLinks(cfg: Config, w: World, s: Room, m: Msg)
    requires Good(cfg, s) && m.Join?
    ensures var r := Step(cfg, w, s, m);
            && Good(cfg, r.state) && r.state.notifying == s.notifying && r.state.broadcasting == s.broadcasting
            && (r.out.full ==> r.state == s && s.links != map[])
            && (!r.out.full ==> OnlineOf(r.state.links) == OnlineOf(s.links) + {m.uid} && r.state.hadPlayers && !r.state.emptied)
  {
    assert cfg.Valid() && (s.links != map[] ==> s.hadPlayers && !s.emptied);
    hide FighterGood, Newcomer, Good, OnlineOf, Step;
    JoinGood(cfg, w, s, m);
    JoinIs(cfg, w, s, m);
    MarkedOnline(s.links, m.uid);
    if m.uid in s.links { assert s.links != map[]; }
  }

  lemma JoinIs(cfg: Config, w: World, s: Room, m: Msg)
    requires m.Join?
    ensures var r := Step(cfg, w, s, m);
            && r.state.notifying == s.notifying && r.state.broadcasting == s.broadcasting
            && r.out.full == (m.uid !in s.links && |s.links| >= cfg.maxPlayers)
            && (r.out.full ==> r.state == s)
            && (!r.out.full ==> r.state.links == s.links[m.uid := Link(true, 0)])
            && (!r.out.full ==> if m.uid in s.links then r.state.hadPlayers == s.hadPlayers && r.state.emptied == s.emptied
                                else r.state.hadPlayers && !r.state.emptied)
  {
    hide Newcomer;
  }

  lemma MarkedOnline(links: Links, u: Uid)
    ensures OnlineOf(links[u := Link(true, 0)]) == OnlineOf(links) + {u}
  {
  }

  lemma GoneLinks(cfg: Config, w: World, s: Room, m: Msg)
    requires InService(cfg, s) && (m.Leave? || (m.Online? && !m.online))
    ensures var s' := Step(cfg, w, s, m).state;
            InService(cfg, s') && OnlineOf(s'.links) == OnlineOf(s.links) - {m.uid} && s'.emptied == s.emptied
  {
    hide Step, Good;
    StepGood(cfg, w, s, m);
    GoneIs(cfg, w, s, m);
  }

  lemma GoneIs(cfg: Config, w: World, s: Room, m: Msg)
    requires m.Leave? || (m.Online? && !m.online)
    ensures var s' := Step(cfg, w, s, m).state;
            && s'.links == (if m.Leave? then s.links - {m.uid} else if m.uid in s.links then s.links[m.uid := Link(false, 0)] else s.links)
            && s'.emptied == s.emptied && s'.hadPlayers == s.hadPlayers && s'.notifying == s.notifying
            && s'.broadcasting == s.broadcasting
  {
  }

  lemma PlayingLinks(cfg: Config, w: World, s: Room, m: Msg)
    requires InService(cfg, s) && (m.Input? || m.Equip?)
    ensures var s' := Step(cfg, w, s, m).state;
            InService(cfg, s') && OnlineOf(s'.links) == OnlineOf(s.links) && s'.emptied == s.emptied
  {
    hide Step, Good, OnlineOf;
    StepGood(cfg, w, s, m);
    PlayingKeepsLinks(cfg, w, s, m);
  }

  // ----- The invariant -----

  ghost function SessionsIn<H>(sessions: map<Uid, Session<H>>, room: H): set<Uid>
  {
    set sid | sid in sessions && sessions[sid].room == Some(room)
  }

  /** The accounts whose session is in the room. */
  ghost function AccountsIn<H>(sessions: map<Uid, Session<H>>, online: map<Uid, Uid>, room: H): set<Uid>
  {
    set u | u in online && online[u] in sessions && sessions[online[u]].room == Some(room)
  }

  /** Only a logged-in session is in a room, and only in one that is running. */
  ghost predicate SessionsAgree<H>(h: HubState<H>)
  {
    forall sid :: sid in h.sessions && h.sessions[sid].room.Some? ==>
      h.sessions[sid].account.Some? && h.sessions[sid].room.value in h.rooms
  }

  /** The table of accounts lists exactly the logged-in sessions, so no account has two. */
  ghost predicate OnlineAgrees<H>(h: HubState<H>)
  {
    && (forall sid :: sid in h.sessions && h.sessions[sid].account.Some? ==>
          h.sessions[sid].account.value in h.online && h.online[h.sessions[sid].account.value] == sid)
    && (forall a :: a in h.online ==> h.online[a] in h.sessions && h.sessions[h.online[a]].account == Some(a))
  }

  ghost predicate ManagerAgrees<H>(h: HubState<H>)
  {
    && (forall n :: n in h.manager ==> h.manager[n] in h.rooms && h.rooms[h.manager[n]].name == n)
    && (forall r :: r in h.rooms ==> h.rooms[r].name in h.manager && h.manager[h.rooms[r].name] == r)
  }

  ghost predicate RoutesAgree<H>(h: HubState<H>)
  {
    h.routes.Keys == h.rooms.Keys && forall r :: r in h.routes ==> h.routes[r] == SessionsIn(h.sessions, r)
  }

  /** The online players are the accounts of the sessions, and a room reported empty has a cleanup coming. */
  ghost predicate PlayersAgree<H>(cfg: Config, h: HubState<H>)
  {
    forall r :: r in h.rooms ==> RoomAgrees(cfg, h, r)
  }

  ghost predicate RoomAgrees<H>(cfg: Config, h: HubState<H>, r: H)
    requires r in h.rooms
  {
    var s := h.rooms[r].state;
    InService(cfg, s) && OnlineOf(s.links) == AccountsIn(h.sessions, h.online, r) && (s.emptied ==> r in h.pending)
  }

  /** Everything but the lobby's list. */
  ghost predicate Core<H>(cfg: Config, h: HubState<H>)
  {
    SessionsAgree(h) && OnlineAgrees(h) && ManagerAgrees(h) && RoutesAgree(h) && PlayersAgree(cfg, h)
  }

  ghost predicate Agree<H>(cfg: Config, h: HubState<H>)
  {
    Core(cfg, h) && h.metas.Keys == h.manager.Keys
  }

  lemma NewHubAgrees<H>(cfg: Config)
    ensures Agree<H>(cfg, NewHub())
  {
  }

  // ----- Every step keeps it -----

  /** One room changes, everything else stays. */
  lemma RoomChange<H>(cfg: Config, h: HubState<H>, room: H, s: Room, pending: multiset<H>)
    requires Core(cfg, h) && room in h.rooms
    requires InService(cfg, s) && OnlineOf(s.links) == OnlineOf(h.rooms[room].state.links)
    requires s.emptied ==> room in pending
    requires forall r :: r in h.pending ==> r in pending
    ensures Core(cfg, h.(rooms := h.rooms[room := h.rooms[room].(state := s)], pending := pending))
  {
    hide InService, OnlineOf, SessionsIn, AccountsIn;
    var h' := h.(rooms := h.rooms[room := h.rooms[room].(state := s)], pending := pending);
    assert h'.rooms.Keys == h.rooms.Keys;
    SameTables(h, h');
    hide SessionsAgree, OnlineAgrees, ManagerAgrees;
    forall r | r in h'.rooms ensures RoomAgrees(cfg, h', r) {
      assert RoomAgrees(cfg, h, r);
    }
  }

  lemma SameTables<H>(h: HubState<H>, h': HubState<H>)
    requires SessionsAgree(h) && OnlineAgrees(h) && ManagerAgrees(h) && RoutesAgree(h)
    requires h' == h.(rooms := h'.rooms, pending := h'.pending)
    requires h'.rooms.Keys == h.rooms.Keys && forall r :: r in h.rooms ==> h'.rooms[r].name == h.rooms[r].name
    ensures SessionsAgree(h') && OnlineAgrees(h') && ManagerAgrees(h') && RoutesAgree(h')
  {
  }

  lemma ConnectKeeps<H>(cfg: Config, h: HubState<H>, sid: Uid)
    requires Core(cfg, h) && sid !in h.sessions
    ensures Core(cfg, Connected(h, sid))
  {
    hide InService, OnlineOf, SessionsIn, AccountsIn;
    var h' := Connected(h, sid);
    forall r | r in h'.rooms ensures RoomAgrees(cfg, h', r) && h'.routes[r] == SessionsIn(h'.sessions, r) {
      assert RoomAgrees(cfg, h, r);
      ConnectedSessions(h, sid, r);
    }
  }

  lemma ConnectedSessions<H>(h: HubState<H>, sid: Uid, r: H)
    requires OnlineAgrees(h) && sid !in h.sessions
    ensures var after := Connected(h, sid).sessions;
            && SessionsIn(after, r) == SessionsIn(h.sessions, r)
            && AccountsIn(after, h.online, r) == AccountsIn(h.sessions, h.online, r)
  {
  }

  lemma LoginKeeps<H>(cfg: Config, h: HubState<H>, sid: Uid, account: Uid)
    requires Core(cfg, h) && sid in h.sessions && h.sessions[sid].account.None?
    requires forall t :: t in h.sessions && t != sid ==> h.sessions[t].account != Some(account)
    ensures Core(cfg, LoggedInAs(h, sid, account))
  {
    hide InService, OnlineOf, SessionsIn, AccountsIn;
    var h' := LoggedInAs(h, sid, account);
    forall r | r in h'.rooms ensures RoomAgrees(cfg, h', r) && h'.routes[r] == SessionsIn(h'.sessions, r) {
      assert RoomAgrees(cfg, h, r);
      LoggedInSessions(h, sid, account, r);
    }
  }

  lemma LoggedInSessions<H>(h: HubState<H>, sid: Uid, account: Uid, r: H)
    requires SessionsAgree(h) && OnlineAgrees(h) && sid in h.sessions && h.sessions[sid].account.None?
    requires forall t :: t in h.sessions && t != sid ==> h.sessions[t].account != Some(account)
    ensures var h' := LoggedInAs(h, sid, account);
            && SessionsIn(h'.sessions, r) == SessionsIn(h.sessions, r)
            && AccountsIn(h'.sessions, h'.online, r) == AccountsIn(h.sessions, h.online, r)
  {
    assert account !in h.online;
  }

  /** A session leaves its room, whose player leaves or goes offline. */
  lemma UnroutedKeeps<H>(cfg: Config, w: World, h: HubState<H>, sid: Uid, m: Msg)
    requires Core(cfg, h) && sid in h.sessions && h.sessions[sid].room.Some?
    requires (m.Leave? || (m.Online? && !m.online)) && h.sessions[sid].account == Some(m.uid)
    ensures Core(cfg, Unrouted(Sent(cfg, w, h, h.sessions[sid].room.value, m), sid, h.sessions[sid].room.value))
  {
    hide InService, OnlineOf, Step, SessionsIn, AccountsIn, SessionsAgree, OnlineAgrees, ManagerAgrees;
    LoggedInIfInRoom(cfg, h, sid);
    var room := h.sessions[sid].room.value;
    var h' := Unrouted(Sent(cfg, w, h, room, m), sid, room);
    assert RoomAgrees(cfg, h, room);
    GoneLinks(cfg, w, h.rooms[room].state, m);
    assert h'.rooms.Keys == h.rooms.Keys && h'.routes.Keys == h.routes.Keys;
    SessionOut(h, h', sid);
    forall r | r in h'.rooms ensures RoomAgrees(cfg, h', r) && h'.routes[r] == SessionsIn(h'.sessions, r) {
      assert RoomAgrees(cfg, h, r);
      LeftSessions(h, sid, r);
    }
  }

  lemma SessionOut<H>(h: HubState<H>, h': HubState<H>, sid: Uid)
    requires SessionsAgree(h) && OnlineAgrees(h) && ManagerAgrees(h) && sid in h.sessions
    requires h'.sessions == h.sessions[sid := h.sessions[sid].(room := None)]
    requires h'.online == h.online && h'.manager == h.manager
    requires h'.rooms.Keys == h.rooms.Keys && forall r :: r in h.rooms ==> h'.rooms[r].name == h.rooms[r].name
    ensures SessionsAgree(h') && OnlineAgrees(h') && ManagerAgrees(h')
  {
  }

  lemma LeftSessions<H>(h: HubState<H>, sid: Uid, r: H)
    requires SessionsAgree(h) && OnlineAgrees(h) && sid in h.sessions && h.sessions[sid].room.Some?
    ensures var after, here := h.sessions[sid := h.sessions[sid].(room := None)], h.sessions[sid].room == Some(r);
            && SessionsIn(after, r) == SessionsIn(h.sessions, r) - (if here then {sid} else {})
            && AccountsIn(after, h.online, r)
               == AccountsIn(h.sessions, h.online, r) - (if here then {h.sessions[sid].account.value} else {})
  {
  }

  /** A session outside any room closes. */
  lemma ClosedKeeps<H>(cfg: Config, h: HubState<H>, sid: Uid)
    requires Core(cfg, h) && sid in h.sessions && h.sessions[sid].room.None?
    ensures var a := h.sessions[sid].account;
            Core(cfg, h.(sessions := h.sessions - {sid}, online := if a.Some? then h.online - {a.value} else h.online))
  {
    hide InService, OnlineOf, SessionsIn, AccountsIn;
    var a := h.sessions[sid].account;
    var h' := h.(sessions := h.sessions - {sid}, online := if a.Some? then h.online - {a.value} else h.online);
    forall r | r in h'.rooms ensures RoomAgrees(cfg, h', r) && h'.routes[r] == SessionsIn(h'.sessions, r) {
      assert RoomAgrees(cfg, h, r);
      ClosedSessions(h, sid, r);
    }
  }

  lemma ClosedSessions<H>(h: HubState<H>, sid: Uid, r: H)
    requires OnlineAgrees(h) && SessionsAgree(h) && sid in h.sessions && h.sessions[sid].room.None?
    ensures var a := h.sessions[sid].account;
            var online := if a.Some? then h.online - {a.value} else h.online;
            && SessionsIn(h.sessions - {sid}, r) == SessionsIn(h.sessions, r)
            && AccountsIn(h.sessions - {sid}, online, r) == AccountsIn(h.sessions, h.online, r)
  {
  }

  lemma DisconnectKeeps<H>(cfg: Config, w: World, h: HubState<H>, sid: Uid)
    requires Core(cfg, h) && sid in h.sessions
    ensures Core(cfg, Closed(cfg, w, h, sid)) && Closed(cfg, w, h, sid).manager == h.manager
    ensures Closed(cfg, w, h, sid).metas == h.metas
  {
    hide Core, Sent;
    var s := h.sessions[sid];
    if s.room.None? {
      ClosedKeeps(cfg, h, sid);
    } else {
      LoggedInIfInRoom(cfg, h, sid);
      UnroutedKeeps(cfg, w, h, sid, Online(s.account.value, false));
      ClosedKeeps(cfg, Unrouted(Sent(cfg, w, h, s.room.value, Online(s.account.value, false)), sid, s.room.value), sid);
    }
  }

  lemma LoggedInIfInRoom<H>(cfg: Config, h: HubState<H>, sid: Uid)
    requires Core(cfg, h) && sid in h.sessions && h.sessions[sid].room.Some?
    ensures h.sessions[sid].account.Some? && h.sessions[sid].room.value in h.rooms
  {
  }

  lemma LeftKeeps<H>(cfg: Config, w: World, h: HubState<H>, sid: Uid)
    requires Core(cfg, h) && LoggedIn(h, sid)
    ensures Core(cfg, Left(cfg, w, h, sid)) && Left(cfg, w, h, sid).manager == h.manager
    ensures Left(cfg, w, h, sid).metas == h.metas
  {
    hide Core, Sent;
    var s := h.sessions[sid];
    if s.room.Some? {
      UnroutedKeeps(cfg, w, h, sid, Leave(s.account.value));
    }
  }

  lemma PlayingKeeps<H>(cfg: Config, w: World, h: HubState<H>, room: H, m: Msg)
    requires Core(cfg, h) && (m.Input? || m.Equip?)
    ensures Core(cfg, Sent(cfg, w, h, room, m))
  {
    hide InService, OnlineOf, Step;
    if room in h.rooms {
      assert RoomAgrees(cfg, h, room);
      PlayingLinks(cfg, w, h.rooms[room].state, m);
      hide Core, Step;
      RoomChange(cfg, h, room, Step(cfg, w, h.rooms[room].state, m).state, h.pending);
    }
  }

  lemma RoomTickKeeps<H>(cfg: Config, w: World, h: HubState<H>, room: H, spawn: Uid -> Vec)
    requires Core(cfg, h)
    ensures var h' := RoomTicked(cfg, w, h, room, spawn);
            Core(cfg, h') && h'.metas == h.metas && h'.manager == h.manager
  {
    hide InService, OnlineOf, Step;
    if room in h.rooms {
      assert RoomAgrees(cfg, h, room);
      TickLinks(cfg, w, h.rooms[room].state, Tick(spawn));
      var h' := RoomTicked(cfg, w, h, room, spawn);
      RoomChange(cfg, h, room, Step(cfg, w, h.rooms[room].state, Tick(spawn)).state, h'.pending);
    }
  }

  /** A cleanup either leaves everything as it is, or removes a room nobody is in from every table. */
  lemma CleanupKeeps<H>(cfg: Config, h: HubState<H>, room: H)
    requires Agree(cfg, h) && room in h.pending
    ensures Agree(cfg, CleanedUp(h.(pending := h.pending - multiset{room}), room))
  {
    if room in h.rooms && h.rooms[room].state.fighters.Keys == {} {
      hide Agree, CleanedUp;
      RemovalKeeps(cfg, h, room);
    } else {
      hide Agree;
      IdleCleanupKeeps(cfg, h, room);
    }
  }

  lemma IdleCleanupKeeps<H>(cfg: Config, h: HubState<H>, room: H)
    requires Agree(cfg, h) && (room in h.rooms ==> h.rooms[room].state.fighters.Keys != {})
    ensures Agree(cfg, h.(pending := h.pending - multiset{room}))
  {
    hide InService, OnlineOf, SessionsIn, AccountsIn;
    var h' := h.(pending := h.pending - multiset{room});
    SameTables(h, h');
    hide SessionsAgree, OnlineAgrees, ManagerAgrees, RoutesAgree;
    forall r | r in h'.rooms ensures RoomAgrees(cfg, h', r) {
      assert RoomAgrees(cfg, h, r);
      if r == room { NotEmptied(cfg, h.rooms[r].state); }
    }
  }

  lemma RemovalKeeps<H>(cfg: Config, h: HubState<H>, room: H)
    requires Agree(cfg, h) && room in h.rooms && h.rooms[room].state.fighters.Keys == {}
    ensures Agree(cfg, CleanedUp(h.(pending := h.pending - multiset{room}), room))
  {
    hide InService, OnlineOf, AccountsIn, SessionsIn, CleanedUp, RoomAgrees;
    EmptyRoomHasNoSessions(cfg, h, room);
    CleanupRemoves(cfg, h, room);
    RemovedTables(h, room);
    RemovedPlayers(cfg, h, room);
    hide SessionsAgree, OnlineAgrees, PlayersAgree;
  }

  lemma RemovedPlayers<H>(cfg: Config, h: HubState<H>, room: H)
    requires PlayersAgree(cfg, h) && room in h.rooms
    ensures PlayersAgree(cfg, Removed(h.(pending := h.pending - multiset{room}), room))
  {
    hide InService, OnlineOf, AccountsIn;
    var h' := Removed(h.(pending := h.pending - multiset{room}), room);
    forall r | r in h'.rooms ensures RoomAgrees(cfg, h', r) {
      assert RoomAgrees(cfg, h, r);
    }
  }

  lemma CleanupRemoves<H>(cfg: Config, h: HubState<H>, room: H)
    requires Agree(cfg, h) && room in h.rooms && h.rooms[room].state.fighters.Keys == {}
    ensures var spent := h.(pending := h.pending - multiset{room});
            h.rooms[room].name in h.manager && CleanedUp(spent, room) == Removed(spent, room)
  {
    hide SessionsAgree, OnlineAgrees, PlayersAgree, RoutesAgree;
    assert h.manager[h.rooms[room].name] == room;
  }

  /** The room taken out of every table. */
  ghost function Removed<H>(h: HubState<H>, room: H): HubState<H>
    requires room in h.rooms
  {
    var name := h.rooms[room].name;
    h.(routes := h.routes - {room}, metas := h.metas - {name}, manager := h.manager - {name}, rooms := h.rooms - {room})
  }

  lemma RemovedTables<H>(h: HubState<H>, room: H)
    requires SessionsAgree(h) && OnlineAgrees(h) && ManagerAgrees(h) && room in h.rooms && SessionsIn(h.sessions, room) == {}
    ensures var h' := Removed(h.(pending := h.pending - multiset{room}), room);
            SessionsAgree(h') && OnlineAgrees(h') && ManagerAgrees(h')
  {
    forall sid | sid in h.sessions ensures h.sessions[sid].room != Some(room) {
      assert sid !in SessionsIn(h.sessions, room);
    }
  }

  lemma NotEmptied(cfg: Config, s: Room)
    requires InService(cfg, s) && s.fighters.Keys != {}
    ensures !s.emptied
  {
  }

  lemma EmptyRoomHasNoSessions<H>(cfg: Config, h: HubState<H>, room: H)
    requires Core(cfg, h) && room in h.rooms && h.rooms[room].state.fighters.Keys == {}
    ensures SessionsIn(h.sessions, room) == {}
  {
    assert RoomAgrees(cfg, h, room);
    assert OnlineOf(h.rooms[room].state.links) == {};
    forall sid ensures sid !in SessionsIn(h.sessions, room) {
      if sid in h.sessions && h.sessions[sid].account.Some? {
        assert h.sessions[sid].account.value !in AccountsIn(h.sessions, h.online, room);
      }
    }
  }

  /** A session enters an existing room. */
  lemma EnterExisting<H>(cfg: Config, w: World, h: HubState<H>, sid: Uid, room: H, at: Vec)
    requires Core(cfg, h) && LoggedIn(h, sid) && h.sessions[sid].room.None? && room in h.rooms
    requires !Step(cfg, w, h.rooms[room].state, Join(h.sessions[sid].account.value, at)).out.full
    ensures var sent := Sent(cfg, w, h, room, Join(h.sessions[sid].account.value, at));
            && room in sent.routes && Core(cfg, Routed(sent, sid, room))
  {
    hide InService, OnlineOf, Step, SessionsIn, AccountsIn;
    var u := h.sessions[sid].account.value;
    var sent := Sent(cfg, w, h, room, Join(u, at));
    var h' := Routed(sent, sid, room);
    assert RoomAgrees(cfg, h, room);
    JoinServed(cfg, w, h.rooms[room].state, Join(u, at));
    assert h'.rooms.Keys == h.rooms.Keys && h'.routes.Keys == h.routes.Keys;
    SessionEnters(h, h', sid, room);
    hide SessionsAgree, OnlineAgrees, ManagerAgrees;
    forall r | r in h'.rooms ensures RoomAgrees(cfg, h', r) && h'.routes[r] == SessionsIn(h'.sessions, r) {
      assert RoomAgrees(cfg, h, r);
      EnteredSessions(h, sid, room, r);
    }
  }

  lemma JoinServed(cfg: Config, w: World, s: Room, m: Msg)
    requires InService(cfg, s) && m.Join? && !Step(cfg, w, s, m).out.full
    ensures var s' := Step(cfg, w, s, m).state;
            InService(cfg, s') && OnlineOf(s'.links) == OnlineOf(s.links) + {m.uid} && !s'.emptied
  {
    hide Step, Good, OnlineOf;
    JoinLinks(cfg, w, s, m);
  }

  lemma SessionEnters<H>(h: HubState<H>, h': HubState<H>, sid: Uid, room: H)
    requires SessionsAgree(h) && OnlineAgrees(h) && ManagerAgrees(h) && LoggedIn(h, sid) && room in h.rooms
    requires h'.sessions == h.sessions[sid := h.sessions[sid].(room := Some(room))]
    requires h'.online == h.online && h'.manager == h.manager
    requires h'.rooms.Keys == h.rooms.Keys && forall r :: r in h.rooms ==> h'.rooms[r].name == h.rooms[r].name
    ensures SessionsAgree(h') && OnlineAgrees(h') && ManagerAgrees(h')
  {
  }

  lemma EnteredSessions<H>(h: HubState<H>, sid: Uid, room: H, r: H)
    requires SessionsAgree(h) && OnlineAgrees(h) && LoggedIn(h, sid) && h.sessions[sid].room.None?
    ensures var after := h.sessions[sid := h.sessions[sid].(room := Some(room))];
            && SessionsIn(after, r) == SessionsIn(h.sessions, r) + (if r == room then {sid} else {})
            && AccountsIn(after, h.online, r)
               == AccountsIn(h.sessions, h.online, r) + (if r == room then {h.sessions[sid].account.value} else {})
  {
  }

  /** The first player of a new room is always let in, and leaves the room in service. */
  lemma FirstPlayer(cfg: Config, w: World, u: Uid, at: Vec)
    requires cfg.Valid()
    ensures var j := Step(cfg, w, NEW_ROOM, Join(u, at));
            var s := Step(cfg, w, Step(cfg, w, j.state, SetBroadcast).state, SetOnEmpty).state;
            !j.out.full && InService(cfg, s) && OnlineOf(s.links) == {u} && !s.emptied
  {
    hide Newcomer, FighterGood, InputStep, TickStep, Equipped;
    NewRoomGood(cfg);
    var j := Step(cfg, w, NEW_ROOM, Join(u, at));
    JoinLinks(cfg, w, NEW_ROOM, Join(u, at));
    SwitchedOn(cfg, w, j.state);
    hide Good;
    assert OnlineOf(NEW_ROOM.links) == {};
  }

  lemma SwitchedOn(cfg: Config, w: World, s: Room)
    requires Good(cfg, s)
    ensures var s' := Step(cfg, w, Step(cfg, w, s, SetBroadcast).state, SetOnEmpty).state;
            Good(cfg, s') && s' == s.(broadcasting := true, notifying := true)
  {
    hide Good, InputStep, TickStep, Equipped;
    OtherGood(cfg, w, s, SetBroadcast);
    OtherGood(cfg, w, Step(cfg, w, s, SetBroadcast).state, SetOnEmpty);
  }

  /** A new room and the session that opened it, added to every table but the lobby's list. */
  ghost function Added<H>(h: HubState<H>, sid: Uid, name: Text, room: H, s: Room): HubState<H>
    requires sid in h.sessions
  {
    h.(manager := h.manager[name := room], rooms := h.rooms[room := Live(name, s)], routes := h.routes[room := {sid}],
       sessions := h.sessions[sid := h.sessions[sid].(room := Some(room))])
  }

  lemma AddedKeeps<H>(cfg: Config, h: HubState<H>, sid: Uid, name: Text, room: H, s: Room)
    requires Core(cfg, h) && LoggedIn(h, sid) && h.sessions[sid].room.None? && room !in h.rooms && name !in h.manager
    requires InService(cfg, s) && OnlineOf(s.links) == {h.sessions[sid].account.value} && !s.emptied
    ensures Core(cfg, Added(h, sid, name, room, s))
  {
    hide InService, OnlineOf, SessionsIn, AccountsIn;
    var h' := Added(h, sid, name, room, s);
    AddedTables(h, sid, name, room, s);
    NobodyIn(h, room);
    assert h'.routes.Keys == h'.rooms.Keys;
    forall r | r in h'.rooms ensures RoomAgrees(cfg, h', r) && h'.routes[r] == SessionsIn(h'.sessions, r) {
      EnteredSessions(h, sid, room, r);
      if r != room { assert RoomAgrees(cfg, h, r); }
    }
    hide SessionsAgree, OnlineAgrees, ManagerAgrees, RoomAgrees;
  }

  lemma AddedTables<H>(h: HubState<H>, sid: Uid, name: Text, room: H, s: Room)
    requires SessionsAgree(h) && OnlineAgrees(h) && ManagerAgrees(h) && LoggedIn(h, sid) && room !in h.rooms && name !in h.manager
    ensures var h' := Added(h, sid, name, room, s);
            SessionsAgree(h') && OnlineAgrees(h') && ManagerAgrees(h')
  {
  }

  lemma NobodyIn<H>(h: HubState<H>, room: H)
    requires SessionsAgree(h) && room !in h.rooms
    ensures SessionsIn(h.sessions, room) == {} && AccountsIn(h.sessions, h.online, room) == {}
  {
  }

  lemma EnterNew<H>(cfg: Config, w: World, h: HubState<H>, sid: Uid, name: Text, at: Vec, bonus: Option<real>, addr: H)
    requires cfg.Valid() && Core(cfg, h) && LoggedIn(h, sid) && h.sessions[sid].room.None?
    requires addr !in h.rooms && name !in h.manager
    ensures var r := Enter(cfg, w, h, sid, name, at, bonus, addr);
            Core(cfg, r.hub) && r.reply == JoinOK && r.hub.metas == h.metas && r.hub.manager.Keys == h.manager.Keys + {name}
  {
    hide InService, OnlineOf, PlayersAgree, SessionsAgree, OnlineAgrees, ManagerAgrees, Enter, Step;
    var u := h.sessions[sid].account.value;
    FirstPlayer(cfg, w, u, at);
    var s := Step(cfg, w, Step(cfg, w, Step(cfg, w, NEW_ROOM, Join(u, at)).state, SetBroadcast).state, SetOnEmpty).state;
    var h' := Added(h, sid, name, addr, s);
    AddedKeeps(cfg, h, sid, name, addr, s);
    EnterNewIs(cfg, w, h, sid, name, at, bonus, addr);
    hide Core;
    if bonus.Some? {
      PlayingKeeps(cfg, w, h', addr, Equip(u, bonus.value));
    }
  }

  lemma EnterNewIs<H>(cfg: Config, w: World, h: HubState<H>, sid: Uid, name: Text, at: Vec, bonus: Option<real>, addr: H)
    requires LoggedIn(h, sid) && addr !in h.rooms && name !in h.manager && h.routes.Keys == h.rooms.Keys
    requires !Step(cfg, w, NEW_ROOM, Join(h.sessions[sid].account.value, at)).out.full
    ensures var u := h.sessions[sid].account.value;
            var s := Step(cfg, w, Step(cfg, w, Step(cfg, w, NEW_ROOM, Join(u, at)).state, SetBroadcast).state, SetOnEmpty).state;
            var h' := Added(h, sid, name, addr, s);
            Enter(cfg, w, h, sid, name, at, bonus, addr)
            == HubResult(if bonus.Some? then Sent(cfg, w, h', addr, Equip(u, bonus.value)) else h', JoinOK)
  {
    hide Step;
    var u := h.sessions[sid].account.value;
    var joined := Sent(cfg, w, Opened(h, name, addr), addr, Join(u, at));
    var s := Step(cfg, w, Step(cfg, w, Step(cfg, w, NEW_ROOM, Join(u, at)).state, SetBroadcast).state, SetOnEmpty).state;
    assert addr !in joined.routes;
    var wired := Wired(cfg, w, joined, addr);
    assert wired.routes == h.routes[addr := {}];
    assert wired.routes[addr] + {sid} == {sid};
    var h' := Routed(wired, sid, addr);
    assert h'.rooms == h.rooms[addr := Live(name, s)];
    assert h'.routes == h.routes[addr := {sid}];
    assert h' == Added(h, sid, name, addr, s);
  }

  lemma EnterKeeps<H>(cfg: Config, w: World, h: HubState<H>, sid: Uid, name: Text, at: Vec, bonus: Option<real>, addr: H)
    requires cfg.Valid() && Core(cfg, h) && LoggedIn(h, sid) && h.sessions[sid].room.None? && addr !in h.rooms
    ensures var r := Enter(cfg, w, h, sid, name, at, bonus, addr);
            && Core(cfg, r.hub) && r.hub.metas == h.metas && r.hub.manager.Keys == h.manager.Keys + {name}
            && (r.reply == JoinOK || (r.reply == RoomFull && name in h.manager && r.hub == h))
  {
    hide Step, Core, Enter;
    if name in h.manager {
      EnterOld(cfg, w, h, sid, name, at, bonus, addr);
    } else {
      EnterNew(cfg, w, h, sid, name, at, bonus, addr);
    }
  }

  lemma EnterOld<H>(cfg: Config, w: World, h: HubState<H>, sid: Uid, name: Text, at: Vec, bonus: Option<real>, addr: H)
    requires Core(cfg, h) && LoggedIn(h, sid) && h.sessions[sid].room.None? && name in h.manager
    ensures var r := Enter(cfg, w, h, sid, name, at, bonus, addr);
            && Core(cfg, r.hub) && r.hub.metas == h.metas && r.hub.manager.Keys == h.manager.Keys
            && (r.reply == JoinOK || (r.reply == RoomFull && r.hub == h))
  {
    hide Step, SessionsAgree, OnlineAgrees, PlayersAgree;
    var u := h.sessions[sid].account.value;
    var room := h.manager[name];
    if !Step(cfg, w, h.rooms[room].state, Join(u, at)).out.full {
      EnterExisting(cfg, w, h, sid, room, at);
      if bonus.Some? {
        PlayingKeeps(cfg, w, Routed(Sent(cfg, w, h, room, Join(u, at)), sid, room), room, Equip(u, bonus.value));
      }
    }
  }

  lemma ListedKeeps<H>(cfg: Config, h: HubState<H>, metas: map<Text, Meta>)
    requires Core(cfg, h)
    ensures Core(cfg, h.(metas := metas))
  {
    hide InService, OnlineOf, SessionsIn, AccountsIn;
    var h' := h.(metas := metas);
    forall r | r in h'.rooms ensures RoomAgrees(cfg, h', r) {
      assert RoomAgrees(cfg, h, r);
    }
  }

  lemma CreateKeeps<H>(cfg: Config, w: World, h: HubState<H>, sid: Uid, body: seq<Byte>, at: Vec, bonus: Option<real>, addr: H)
    requires cfg.Valid() && Agree(cfg, h) && LoggedIn(h, sid) && addr !in h.rooms
    ensures var r := CreateStep(cfg, w, h, sid, body, at, bonus, addr);
            Agree(cfg, r.hub) && r.reply != RoomFull
  {
    hide Core, Enter, DecodeRoomOp;
    var s := h.sessions[sid];
    match DecodeRoomOp(body) {
      case None =>
      case Some(op) =>
        if s.room.None? && op.name !in h.metas {
          var metas := h.metas[op.name := Meta(s.account.value, op.note)];
          ListedKeeps(cfg, h, metas);
          EnterKeeps(cfg, w, h.(metas := metas), sid, op.name, at, bonus, addr);
        }
    }
  }

  lemma JoinRoomKeeps<H>(cfg: Config, w: World, h: HubState<H>, sid: Uid, body: seq<Byte>, at: Vec, bonus: Option<real>, addr: H)
    requires cfg.Valid() && Agree(cfg, h) && LoggedIn(h, sid) && addr !in h.rooms
    ensures Agree(cfg, JoinRoomStep(cfg, w, h, sid, body, at, bonus, addr).hub)
  {
    hide Core, Enter, DecodeRoomOp;
    match DecodeRoomOp(body) {
      case None =>
      case Some(op) =>
        if h.sessions[sid].room.None? && op.name in h.metas {
          EnterKeeps(cfg, w, h, sid, op.name, at, bonus, addr);
        }
    }
  }

  lemma BattleJoinKeeps<H>(cfg: Config, w: World, h: HubState<H>, sid: Uid, body: seq<Byte>, at: Vec, bonus: Option<real>, addr: H)
    requires cfg.Valid() && Agree(cfg, h) && LoggedIn(h, sid) && addr !in h.rooms && h.sessions[sid].room.None?
    ensures Agree(cfg, BattleJoinStep(cfg, w, h, sid, body, at, bonus, addr).hub)
  {
    hide Core, Enter;
    if body in h.metas {
      EnterKeeps(cfg, w, h, sid, body, at, bonus, addr);
    } else {
      var metas := h.metas[body := Meta(h.sessions[sid].account.value, [])];
      ListedKeeps(cfg, h, metas);
      EnterKeeps(cfg, w, h.(metas := metas), sid, body, at, bonus, addr);
    }
  }

  lemma ActionKeeps<H>(cfg: Config, w: World, h: HubState<H>, sid: Uid, action: Action<H>)
    requires cfg.Valid() && Agree(cfg, h) && LoggedIn(h, sid) && Sensible(h, Do(sid, action))
    ensures Agree(cfg, ActionStep(cfg, w, h, sid, action).hub)
  {
    hide Core, Sent, CreateStep, JoinRoomStep, BattleJoinStep, Left;
    var u := h.sessions[sid].account.value;
    match action {
      case Create(body, at, bonus, addr) => CreateKeeps(cfg, w, h, sid, body, at, bonus, addr);
      case JoinRoom(body, at, bonus, addr) => JoinRoomKeeps(cfg, w, h, sid, body, at, bonus, addr);
      case BattleJoin(body, at, bonus, addr) => BattleJoinKeeps(cfg, w, h, sid, body, at, bonus, addr);
      case LeaveRoom => LeftKeeps(cfg, w, h, sid);
      case Report(report, order, lockOrder) =>
        if h.sessions[sid].room.Some? {
          PlayingKeeps(cfg, w, h, h.sessions[sid].room.value, Input(u, report, order, lockOrder));
        }
      case Refit(boost) =>
        if h.sessions[sid].room.Some? {
          PlayingKeeps(cfg, w, h, h.sessions[sid].room.value, Equip(u, boost));
        }
    }
  }

  /** Every step of the hub keeps its tables, its sessions and its rooms in agreement. */
  lemma HubStepAgrees<H>(cfg: Config, w: World, h: HubState<H>, m: HubMsg<H>)
    requires cfg.Valid() && Agree(cfg, h)
    ensures Agree(cfg, HubStep(cfg, w, h, m).hub)
  {
    hide Core, ActionStep, Closed, RoomTicked, CleanedUp;
    if Sensible(h, m) {
      match m {
        case Connect => ConnectKeeps(cfg, h, NextId(h.seqNo));
        case Login(sid, account) =>
          if sid in h.sessions && !LoggedIn(h, sid) { LoginKeeps(cfg, h, sid, account); }
        case Do(sid, action) =>
          if LoggedIn(h, sid) { ActionKeeps(cfg, w, h, sid, action); }
        case Disconnect(sid) =>
          if sid in h.sessions { DisconnectKeeps(cfg, w, h, sid); }
        case RoomTick(room, spawn) => RoomTickKeeps(cfg, w, h, room, spawn);
        case Cleanup(room) => CleanupKeeps(cfg, h, room);
      }
    }
  }

  lemma {:induction false} HubRunAgrees<H>(cfg: Config, w: World, h: HubState<H>, ms: seq<HubMsg<H>>)
    requires cfg.Valid() && Agree(cfg, h)
    ensures Agree(cfg, HubRun(cfg, w, h, ms))
  {
    if ms != [] {
      HubRunAgrees(cfg, w, h, ms[..|ms| - 1]);
      HubStepAgrees(cfg, w, HubRun(cfg, w, h, ms[..|ms| - 1]), ms[|ms| - 1]);
    }
  }
}
