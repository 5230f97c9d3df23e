/** Why the hub is assumed to be used sensibly: without these assumptions the handlers break the agreement of the tables, and
    exactly when they do. */
module HubAssumptions {
  import opened Base
  import opened Bytes
  import opened Geometry
  import opened Combat
  import opened RoomModel
  import opened RoomInvariant
  import opened RoomLedger
  import opened RoomReconnect
  import opened RoomOnce
  import opened LobbyWire
  import opened HubModel
  import opened HubInvariant
  import opened HubLifetime

  // ----- A battle join from inside a room -----

  /** A session that moves to another room without leaving stays in the session table of the room it was in. */
  lemma MovedSessionIsStale<H>(cfg: Config, h: HubState<H>, h': HubState<H>, sid: Uid, r: H, room: H)
    requires sid in h'.sessions && h'.sessions[sid].room == Some(room) && room != r
    requires r in h'.routes && sid in h'.routes[r]
    ensures !Agree(cfg, h')
  {
    assert sid !in SessionsIn(h'.sessions, r);
  }

  lemma SettledMoves<H>(cfg: Config, w: World, h: HubState<H>, sid: Uid, room: H, bonus: Option<real>, r: H)
    requires LoggedIn(h, sid) && r in h.routes && sid in h.routes[r]
    ensures var h' := Settled(cfg, w, h, sid, room, bonus);
            && sid in h'.sessions && h'.sessions[sid].room == Some(room)
            && r in h'.routes && sid in h'.routes[r]
  {
    hide Step, Sent;
  }

  /** Entering another room from inside one. */
  lemma EnterElsewhere<H>(cfg: Config, w: World, h: HubState<H>, sid: Uid, name: Text, at: Vec, bonus: Option<real>, addr: H)
    requires cfg.Valid() && Core(cfg, h) && LoggedIn(h, sid) && h.sessions[sid].room.Some? && addr !in h.rooms
    requires h.sessions[sid].room.value in h.rooms && name != h.rooms[h.sessions[sid].room.value].name
    ensures var r := Enter(cfg, w, h, sid, name, at, bonus, addr);
            if r.reply == RoomFull then name in h.manager && r.hub == h else !Agree(cfg, r.hub)
  {
    hide Step, PlayersAgree, OnlineAgrees, Settled;
    var u, r := h.sessions[sid].account.value, h.sessions[sid].room.value;
    assert sid in SessionsIn(h.sessions, r) && sid in h.routes[r];
    var found := Opened(h, name, addr);
    var room := found.manager[name];
    assert room in found.rooms && room != r;
    FullIsUnchanged(cfg, w, found.rooms[room].state, u, at);
    if name !in h.manager { FirstPlayer(cfg, w, u, at); }
    if !Step(cfg, w, found.rooms[room].state, Join(u, at)).out.full {
      var sent := Sent(cfg, w, found, room, Join(u, at));
      SettledMoves(cfg, w, sent, sid, room, bonus, r);
      MovedSessionIsStale(cfg, h, Settled(cfg, w, sent, sid, room, bonus), sid, r, room);
    }
  }

  lemma FullIsUnchanged(cfg: Config, w: World, s: Room, u: Uid, at: Vec)
    ensures var r := Step(cfg, w, s, Join(u, at)); r.out.full ==> r.state == s
  {
  }

  /** Entering the room one is in changes nothing but one's own block bar. */
  lemma EnterAgain<H>(cfg: Config, w: World, h: HubState<H>, sid: Uid, at: Vec, bonus: Option<real>, addr: H)
    requires Core(cfg, h) && LoggedIn(h, sid) && h.sessions[sid].room.Some?
    requires h.sessions[sid].room.value in h.rooms
    ensures var r := Enter(cfg, w, h, sid, h.rooms[h.sessions[sid].room.value].name, at, bonus, addr);
            Core(cfg, r.hub) && r.reply == JoinOK && r.hub.metas == h.metas && r.hub.manager == h.manager
  {
    hide Step, Enter, OnlineAgrees, SessionsAgree, PlayersAgree, RoutesAgree, Sent;
    var u, r := h.sessions[sid].account.value, h.sessions[sid].room.value;
    EnterOldIs(cfg, w, h, sid, h.rooms[r].name, at, bonus, addr);
    RejoinChangesNothing(cfg, w, h, sid, at);
    if bonus.Some? { PlayingKeeps(cfg, w, h, r, Equip(u, bonus.value)); }
  }

  lemma RejoinChangesNothing<H>(cfg: Config, w: World, h: HubState<H>, sid: Uid, at: Vec)
    requires Core(cfg, h) && LoggedIn(h, sid) && h.sessions[sid].room.Some?
    requires h.sessions[sid].room.value in h.rooms
    ensures var u, r := h.sessions[sid].account.value, h.sessions[sid].room.value;
            && !Step(cfg, w, h.rooms[r].state, Join(u, at)).out.full
            && r in h.routes && Routed(Sent(cfg, w, h, r, Join(u, at)), sid, r) == h
  {
    hide Step, InService, OnlineOf;
    var u, r := h.sessions[sid].account.value, h.sessions[sid].room.value;
    SeatedIsOnline(cfg, h, sid);
    InServiceAt(cfg, h, r);
    StillOnline(cfg, w, h.rooms[r].state, u, at) by { assert Good(cfg, h.rooms[r].state) by { ServiceIsGood(cfg, h.rooms[r].state); } }
    hide Core;
    assert h.routes[r] + {sid} == h.routes[r];
    assert h.rooms[r := h.rooms[r].(state := h.rooms[r].state)] == h.rooms;
    assert h.sessions[sid := h.sessions[sid].(room := Some(r))] == h.sessions;
    assert h.routes[r := h.routes[r]] == h.routes;
  }

  lemma ServiceIsGood(cfg: Config, s: Room)
    requires InService(cfg, s)
    ensures Good(cfg, s)
  {
  }

  lemma SeatedIsOnline<H>(cfg: Config, h: HubState<H>, sid: Uid)
    requires Core(cfg, h) && LoggedIn(h, sid) && h.sessions[sid].room.Some? && h.sessions[sid].room.value in h.rooms
    ensures var links := h.rooms[h.sessions[sid].room.value].state.links;
            var u := h.sessions[sid].account.value;
            u in links && links[u].online && sid in h.routes[h.sessions[sid].room.value]
  {
    var r, u := h.sessions[sid].room.value, h.sessions[sid].account.value;
    assert RoomAgrees(cfg, h, r);
    assert u in AccountsIn(h.sessions, h.online, r);
    assert u in OnlineOf(h.rooms[r].state.links);
    assert sid in SessionsIn(h.sessions, r);
  }

  /** Joining again while online is no change. */
  lemma StillOnline(cfg: Config, w: World, s: Room, u: Uid, at: Vec)
    requires Good(cfg, s) && u in s.links && s.links[u].online
    ensures Step(cfg, w, s, Join(u, at)) == Result(s, SILENT)
  {
    assert LinkGood(cfg, s.links[u]);
    assert s.links[u := Link(true, 0)] == s.links;
  }

  /** The room of that name exists, is full, and has no place kept for the account. */
  ghost predicate NoPlace<H>(cfg: Config, h: HubState<H>, name: Text, u: Uid)
  {
    && name in h.manager && h.manager[name] in h.rooms
    && var links := h.rooms[h.manager[name]].state.links;
       u !in links && |links| >= cfg.maxPlayers
  }

  /** A battle join from inside a room keeps the tables in agreement if and only if it names the room the session is in, or
      no room at all, or a full room without a place for the account. Otherwise the session is left behind in the table of
      its old room. */
  lemma BattleJoinFromInside<H>(cfg: Config, w: World, h: HubState<H>, sid: Uid, body: seq<Byte>, at: Vec, bonus: Option<real>,
                                addr: H)
    requires cfg.Valid() && Agree(cfg, h) && LoggedIn(h, sid) && h.sessions[sid].room.Some? && addr !in h.rooms
    ensures h.sessions[sid].room.value in h.rooms
    ensures Agree(cfg, BattleJoinStep(cfg, w, h, sid, body, at, bonus, addr).hub) <==>
            || body == [] || body == h.rooms[h.sessions[sid].room.value].name
            || NoPlace(cfg, h, body, h.sessions[sid].account.value)
  {
    LoggedInIfInRoom(cfg, h, sid);
    NamedRoom(cfg, h, h.sessions[sid].room.value);
    hide Core, Enter, ManagerAgrees;
    if body != [] {
      var listed := if body in h.metas then h else h.(metas := h.metas[body := Meta(h.sessions[sid].account.value, [])]);
      ListedKeeps(cfg, h, listed.metas);
      if body == h.rooms[h.sessions[sid].room.value].name {
        EnterAgain(cfg, w, listed, sid, at, bonus, addr);
      } else {
        EnterElsewhere(cfg, w, listed, sid, body, at, bonus, addr);
        EntryReply(cfg, w, listed, sid, body, at, bonus, addr);
      }
    }
  }

  lemma NamedRoom<H>(cfg: Config, h: HubState<H>, r: H)
    requires Agree(cfg, h) && r in h.rooms
    ensures h.rooms[r].name in h.metas
  {
  }

  /** Only a full room without a place for the account refuses to be entered. */
  lemma EntryReply<H>(cfg: Config, w: World, h: HubState<H>, sid: Uid, name: Text, at: Vec, bonus: Option<real>, addr: H)
    requires cfg.Valid() && Core(cfg, h) && LoggedIn(h, sid) && addr !in h.rooms
    ensures Enter(cfg, w, h, sid, name, at, bonus, addr).reply
         == if NoPlace(cfg, h, name, h.sessions[sid].account.value) then RoomFull else JoinOK
  {
    hide Step, Enter, SessionsAgree, OnlineAgrees, PlayersAgree, Sent;
    var u := h.sessions[sid].account.value;
    if name in h.manager {
      EnterOldIs(cfg, w, h, sid, name, at, bonus, addr);
      JoinIs(cfg, w, h.rooms[h.manager[name]].state, Join(u, at));
    } else {
      FirstPlayer(cfg, w, u, at);
      EnterNewIs(cfg, w, h, sid, name, at, bonus, addr);
    }
  }

  // ----- A second session of an account -----

  /** A login keeps the tables in agreement if and only if no other open session is logged in to the account. */
  lemma SecondLogin<H>(cfg: Config, h: HubState<H>, sid: Uid, account: Uid)
    requires Agree(cfg, h) && sid in h.sessions && h.sessions[sid].account.None?
    ensures Agree(cfg, LoggedInAs(h, sid, account)) <==>
            forall t :: t in h.sessions && t != sid ==> h.sessions[t].account != Some(account)
  {
    var h' := LoggedInAs(h, sid, account);
    if t :| t in h.sessions && t != sid && h.sessions[t].account == Some(account) {
      assert h'.sessions[t].account == Some(account) && h'.online[account] == sid;
      hide PlayersAgree, ManagerAgrees, RoutesAgree, SessionsAgree;
    } else {
      hide Core;
      LoginKeeps(cfg, h, sid, account);
    }
  }

  // ----- An offline message that is dropped -----

  /** A connection closes while the queue of its room is full, so that the room is not told. */
  function ClosedUnheard<H>(h: HubState<H>, sid: Uid): HubState<H>
    requires sid in h.sessions
  {
    var s := h.sessions[sid];
    var out := if s.room.None? then h else Unrouted(h, sid, s.room.value);
    out.(sessions := out.sessions - {sid}, online := if s.account.Some? then out.online - {s.account.value} else out.online)
  }

  /** Closing without telling the room keeps the tables in agreement if and only if there is no room to tell. Otherwise the
      player stays in the room, online and without a session. */
  lemma DroppedMark<H>(cfg: Config, w: World, h: HubState<H>, sid: Uid)
    requires Agree(cfg, h) && sid in h.sessions
    ensures Agree(cfg, ClosedUnheard(h, sid)) <==> h.sessions[sid].room.None?
    ensures var s, h' := h.sessions[sid], ClosedUnheard(h, sid);
            s.room.Some? ==> && s.account.Some? && s.account.value !in h'.online && s.room.value in h'.rooms
                             && Held(h'.rooms[s.room.value].state, s.account.value)
  {
    if h.sessions[sid].room.None? {
      hide Core;
      ClosedKeeps(cfg, h, sid);
    } else {
      LoggedInIfInRoom(cfg, h, sid);
      SeatedIsOnline(cfg, h, sid);
      var r, u, h' := h.sessions[sid].room.value, h.sessions[sid].account.value, ClosedUnheard(h, sid);
      hide SessionsAgree, ManagerAgrees, RoutesAgree, InService, Agree;
      if Agree(cfg, h') { OnlineIsSeated(cfg, h', r, u); }
    }
  }

  lemma OnlineIsSeated<H>(cfg: Config, h: HubState<H>, r: H, u: Uid)
    requires Agree(cfg, h) && r in h.rooms && Held(h.rooms[r].state, u)
    ensures u in h.online
  {
    hide SessionsAgree, ManagerAgrees, RoutesAgree, InService;
    assert RoomAgrees(cfg, h, r);
    assert u in OnlineOf(h.rooms[r].state.links);
  }

  predicate Held(s: Room, u: Uid) { u in s.links && s.links[u].online }

  /** The message takes the player out of the room or marks it offline. */
  predicate Releases(m: Msg, u: Uid) { (m.Leave? || (m.Online? && !m.online)) && m.uid == u }

  lemma HeldStep(cfg: Config, w: World, s: Room, m: Msg, u: Uid)
    requires Held(s, u) && !Releases(m, u)
    ensures Held(Step(cfg, w, s, m).state, u) && !Step(cfg, w, s, m).out.emptiedNow
  {
    hide Step;
    ReportStep(cfg, w, s, m);
    if m.Input? {
      InputKeys(cfg, w, s, m);
    } else if m.Tick? {
      TickAt(cfg, w, s, m, u);
    } else if Touches(m, u) {
      MarkedAgain(cfg, w, s, m, u);
    } else {
      AwayOther(cfg, w, s, m, u, 0);
    }
  }

  lemma MarkedAgain(cfg: Config, w: World, s: Room, m: Msg, u: Uid)
    requires Held(s, u) && (m.Join? || (m.Online? && m.online)) && m.uid == u
    ensures Held(Step(cfg, w, s, m).state, u)
  {
    hide Newcomer;
  }

  /** A player left behind online is never taken out by the room itself, however long it ticks, and the room is never reported
      empty, until a message about that very player marks it offline or removes it. */
  lemma {:induction false} LeftBehindForever(cfg: Config, w: World, s: Room, ms: seq<Msg>, u: Uid)
    requires Held(s, u) && forall i :: 0 <= i < |ms| ==> !Releases(ms[i], u)
    ensures Held(Run(cfg, w, s, ms), u) && Over(cfg, w, s, ms, Reports(cfg, w)) == 0
  {
    hide Step;
    if ms != [] {
      LeftBehindForever(cfg, w, s, ms[..|ms| - 1], u);
      HeldStep(cfg, w, Run(cfg, w, s, ms[..|ms| - 1]), ms[|ms| - 1], u);
    }
  }
}
