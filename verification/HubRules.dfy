/** What one request does to the hub, said once more table by table: who ends up where, who is told what, and what stays as it
    was. */
module HubRules {
  import opened Base
  import opened Bytes
  import opened Geometry
  import opened Combat
  import opened RoomModel
  import opened RoomInvariant
  import opened LobbyWire
  import opened HubModel
  import opened HubInvariant
  import opened HubLifetime
  import opened HubAssumptions
  import RoomRules
  import HubProofs

  // ----- Entering a room -----

  /** The room `s` has become `s'` by letting `u` in at `at`, or back in, and giving it the bonus of its equipment, if known. */
  ghost predicate LetIn(s: Room, s': Room, u: Uid, at: Vec, bonus: Option<real>)
  {
    && s'.links == s.links[u := Link(true, 0)]
    && s'.fighters.Keys == s.fighters.Keys + {u}
    && (forall x :: x in s.fighters && x != u ==> s'.fighters[x] == s.fighters[x])
    && (var f' := s'.fighters[u];
        var plain := if bonus.Some? then f'.(block := 100.0, blockMax := 100.0) else f';
        && (bonus.Some? ==> f'.block == f'.blockMax == 100.0 + bonus.value)
        && (u !in s.fighters ==> RoomRules.Fresh(plain, at, s.tick))
        && (u in s.fighters ==> f' == if bonus.Some? then s.fighters[u].(block := f'.block, blockMax := f'.blockMax) else s.fighters[u]))
    && s'.tick == s.tick && s'.pending == s.pending && s'.settled == s.settled
  }

  lemma JoinAndEquip(cfg: Config, w: World, s: Room, u: Uid, at: Vec, bonus: Option<real>)
    requires !Step(cfg, w, s, Join(u, at)).out.full
    ensures var j := Step(cfg, w, s, Join(u, at)).state;
            var s' := if bonus.Some? then Step(cfg, w, j, Equip(u, bonus.value)).state else j;
            LetIn(s, s', u, at, bonus)
  {
    hide Step;
    RoomRules.JoinRule(cfg, w, s, u, at);
    var j := Step(cfg, w, s, Join(u, at)).state;
    if bonus.Some? { RoomRules.EquipRule(cfg, w, j, u, bonus.value); }
  }

  /** Session `sid` of account `u` has entered the room of that name; a room that did not exist has been opened at `addr`. */
  ghost predicate Entered<H>(h: HubState<H>, h': HubState<H>, sid: Uid, u: Uid, name: Text, at: Vec, bonus: Option<real>, addr: H)
  {
    var known := name in h.manager;
    var room := if known then h.manager[name] else addr;
    && h'.manager == (if known then h.manager else h.manager[name := addr])
    && h'.sessions == h.sessions[sid := Session(Some(u), Some(room))]
    && h'.online == h.online && h'.metas == h.metas && h'.pending == h.pending && h'.seqNo == h.seqNo
    && (known ==> room in h.routes && room in h.rooms)
    && h'.routes == h.routes[room := (if known then h.routes[room] else {}) + {sid}]
    && h'.rooms.Keys == h.rooms.Keys + {room}
    && (forall r :: r in h.rooms && r != room ==> h'.rooms[r] == h.rooms[r])
    && (if known then h'.rooms[room].name == h.rooms[room].name && LetIn(h.rooms[room].state, h'.rooms[room].state, u, at, bonus)
        else
          && h'.rooms[room].name == name && LetIn(NEW_ROOM, h'.rooms[room].state, u, at, bonus)
          && h'.rooms[room].state.broadcasting && h'.rooms[room].state.notifying)
  }

  lemma EnterRule<H>(cfg: Config, w: World, h: HubState<H>, sid: Uid, name: Text, at: Vec, bonus: Option<real>, addr: H)
    requires cfg.Valid() && Core(cfg, h) && LoggedIn(h, sid) && addr !in h.rooms
    ensures var u, r := h.sessions[sid].account.value, Enter(cfg, w, h, sid, name, at, bonus, addr);
            if NoPlace(cfg, h, name, u) then r == HubResult(h, RoomFull)
            else r.reply == JoinOK && Entered(h, r.hub, sid, u, name, at, bonus, addr)
  {
    if name in h.manager {
      EnterOldRule(cfg, w, h, sid, name, at, bonus, addr);
    } else {
      EnterNewRule(cfg, w, h, sid, name, at, bonus, addr);
    }
  }

  lemma EnterOldRule<H>(cfg: Config, w: World, h: HubState<H>, sid: Uid, name: Text, at: Vec, bonus: Option<real>, addr: H)
    requires cfg.Valid() && Core(cfg, h) && LoggedIn(h, sid) && name in h.manager
    ensures var u, r := h.sessions[sid].account.value, Enter(cfg, w, h, sid, name, at, bonus, addr);
            if NoPlace(cfg, h, name, u) then r == HubResult(h, RoomFull)
            else r.reply == JoinOK && Entered(h, r.hub, sid, u, name, at, bonus, addr)
  {
    hide Step, Enter, SessionsAgree, OnlineAgrees, PlayersAgree, LetIn;
    var u, room := h.sessions[sid].account.value, h.manager[name];
    EnterOldIs(cfg, w, h, sid, name, at, bonus, addr);
    JoinIs(cfg, w, h.rooms[room].state, Join(u, at));
    hide ManagerAgrees, RoutesAgree;
    if !NoPlace(cfg, h, name, u) { JoinAndEquip(cfg, w, h.rooms[room].state, u, at, bonus); }
  }

  lemma EnterNewRule<H>(cfg: Config, w: World, h: HubState<H>, sid: Uid, name: Text, at: Vec, bonus: Option<real>, addr: H)
    requires cfg.Valid() && Core(cfg, h) && LoggedIn(h, sid) && addr !in h.rooms && name !in h.manager
    ensures var u, r := h.sessions[sid].account.value, Enter(cfg, w, h, sid, name, at, bonus, addr);
            r.reply == JoinOK && Entered(h, r.hub, sid, u, name, at, bonus, addr)
  {
    hide Step, Enter, SessionsAgree, OnlineAgrees, PlayersAgree, LetIn, ManagerAgrees, InService, OnlineOf;
    var u := h.sessions[sid].account.value;
    FirstPlayer(cfg, w, u, at);
    EnterNewIs(cfg, w, h, sid, name, at, bonus, addr);
    OpenAndEquip(cfg, w, u, at, bonus);
    var nobody: set<Uid> := {};
    assert nobody + {sid} == {sid};
  }

  lemma OpenAndEquip(cfg: Config, w: World, u: Uid, at: Vec, bonus: Option<real>)
    requires cfg.Valid()
    ensures var s := Step(cfg, w, Step(cfg, w, Step(cfg, w, NEW_ROOM, Join(u, at)).state, SetBroadcast).state, SetOnEmpty).state;
            var s' := if bonus.Some? then Step(cfg, w, s, Equip(u, bonus.value)).state else s;
            LetIn(NEW_ROOM, s', u, at, bonus) && s'.broadcasting && s'.notifying
  {
    hide Step, Good, RoomRules.Fresh;
    NewRoomGood(cfg);
    var j := Step(cfg, w, NEW_ROOM, Join(u, at)).state;
    RoomRules.JoinRule(cfg, w, NEW_ROOM, u, at);
    StepGood(cfg, w, NEW_ROOM, Join(u, at));
    SwitchedOn(cfg, w, j);
    var s := Step(cfg, w, Step(cfg, w, j, SetBroadcast).state, SetOnEmpty).state;
    if bonus.Some? { RoomRules.EquipRule(cfg, w, s, u, bonus.value); }
  }

  // ----- The requests -----

  /** Creating a room: refused from inside a room, for a body that is not a room request, for an empty name, a name over 32 or a note
      over 64 bytes, and for a name that is listed. Otherwise the room is listed under its creator and note, and entered. */
  lemma CreateRule<H>(cfg: Config, w: World, h: HubState<H>, sid: Uid, body: seq<Byte>, at: Vec, bonus: Option<real>, addr: H)
    requires cfg.Valid() && Agree(cfg, h) && LoggedIn(h, sid) && addr !in h.rooms
    ensures var r, op := HubStep(cfg, w, h, Do(sid, Create(body, at, bonus, addr))), DecodeRoomOp(body);
            var u := h.sessions[sid].account.value;
            if h.sessions[sid].room.Some? || op.None? then r == HubResult(h, BadInput)
            else if |op.value.name| < 1 || |op.value.name| >= 33 || |op.value.note| >= 65 then r == HubResult(h, BadInput)
            else if op.value.name in h.metas then r == HubResult(h, RoomExists)
            else
              && r.reply == JoinOK
              && var listed := h.(metas := h.metas[op.value.name := Meta(u, op.value.note)]);
                 Entered(listed, r.hub, sid, u, op.value.name, at, bonus, addr) && op.value.name !in h.manager
  {
    hide Core, Enter, DecodeRoomOp, Entered, ManagerAgrees;
    var op := DecodeRoomOp(body);
    if op.Some? && op.value.name !in h.metas {
      var listed := h.(metas := h.metas[op.value.name := Meta(h.sessions[sid].account.value, op.value.note)]);
      ListedKeeps(cfg, h, listed.metas);
      EnterRule(cfg, w, listed, sid, op.value.name, at, bonus, addr);
    }
  }

  /** Joining a listed room by a room request. */
  lemma JoinRoomRule<H>(cfg: Config, w: World, h: HubState<H>, sid: Uid, body: seq<Byte>, at: Vec, bonus: Option<real>, addr: H)
    requires cfg.Valid() && Agree(cfg, h) && LoggedIn(h, sid) && addr !in h.rooms
    ensures var r, op := HubStep(cfg, w, h, Do(sid, JoinRoom(body, at, bonus, addr))), DecodeRoomOp(body);
            var u := h.sessions[sid].account.value;
            if h.sessions[sid].room.Some? || op.None? || |op.value.name| < 1 then r == HubResult(h, BadInput)
            else if op.value.name !in h.metas then r == HubResult(h, RoomMissing)
            else if NoPlace(cfg, h, op.value.name, u) then r == HubResult(h, RoomFull)
            else r.reply == JoinOK && Entered(h, r.hub, sid, u, op.value.name, at, bonus, addr) && op.value.name in h.manager
  {
    hide Core, Enter, DecodeRoomOp, Entered, NoPlace;
    var op := DecodeRoomOp(body);
    if op.Some? { EnterRule(cfg, w, h, sid, op.value.name, at, bonus, addr); }
  }

  /** A battle join from outside any room: the whole body is the name; a room that is not listed is listed without a note. */
  lemma BattleJoinRule<H>(cfg: Config, w: World, h: HubState<H>, sid: Uid, body: seq<Byte>, at: Vec, bonus: Option<real>, addr: H)
    requires cfg.Valid() && Agree(cfg, h) && LoggedIn(h, sid) && addr !in h.rooms && h.sessions[sid].room.None?
    ensures var r := HubStep(cfg, w, h, Do(sid, BattleJoin(body, at, bonus, addr)));
            var u := h.sessions[sid].account.value;
            var listed := h.(metas := if body in h.metas then h.metas else h.metas[body := Meta(u, [])]);
            if |body| < 1 then r == HubResult(h, BadInput)
            else if NoPlace(cfg, h, body, u) then r == HubResult(h, RoomFull)
            else r.reply == JoinOK && Entered(listed, r.hub, sid, u, body, at, bonus, addr)
  {
    hide Core, Enter, Entered, ManagerAgrees;
    var u := h.sessions[sid].account.value;
    var listed := h.(metas := if body in h.metas then h.metas else h.metas[body := Meta(u, [])]);
    ListedKeeps(cfg, h, listed.metas);
    EnterRule(cfg, w, listed, sid, body, at, bonus, addr);
    if NoPlace(cfg, h, body, u) { assert listed == h by { ManagedIsListed(cfg, h, body); } }
  }

  lemma ManagedIsListed<H>(cfg: Config, h: HubState<H>, name: Text)
    requires Agree(cfg, h) && name in h.manager
    ensures name in h.metas
  {
  }

  /** Leaving: the session is outside, its player gone from the room, and nothing else different. */
  lemma LeaveRule<H>(cfg: Config, w: World, h: HubState<H>, sid: Uid)
    requires Agree(cfg, h) && LoggedIn(h, sid)
    ensures var r := HubStep(cfg, w, h, Do(sid, LeaveRoom));
            var u, room := h.sessions[sid].account.value, h.sessions[sid].room;
            r.reply == Nothing &&
            if room.None? then r.hub == h
            else
              && room.value in h.rooms && room.value in h.routes
              && var s := h.rooms[room.value].state;
                 r.hub == h.(sessions := h.sessions[sid := Session(Some(u), None)],
                             routes := h.routes[room.value := h.routes[room.value] - {sid}],
                             rooms := h.rooms[room.value := Live(h.rooms[room.value].name,
                                        s.(fighters := s.fighters - {u}, links := s.links - {u}))])
  {
    hide PlayersAgree, OnlineAgrees, ManagerAgrees;
    var room := h.sessions[sid].room;
    if room.Some? { LeaveIs(cfg, w, h.rooms[room.value].state, h.sessions[sid].account.value); }
    hide Step;
  }

  lemma LeaveIs(cfg: Config, w: World, s: Room, u: Uid)
    ensures Step(cfg, w, s, Leave(u)) == Result(s.(fighters := s.fighters - {u}, links := s.links - {u}), SILENT)
    ensures u in s.links ==> Step(cfg, w, s, Online(u, false)) == Result(s.(links := s.links[u := Link(false, 0)]), SILENT)
  {
  }

  /** `h'` is `h` without session `sid`, whose account is offline; its player is still in `room`, marked offline from now on. */
  ghost predicate CutOffFrom<H>(h: HubState<H>, h': HubState<H>, sid: Uid, u: Uid, room: H)
  {
    && room in h.rooms && room in h.routes && u in h.rooms[room].state.links
    && var s := h.rooms[room].state;
       h' == h.(sessions := h.sessions - {sid}, online := h.online - {u}, routes := h.routes[room := h.routes[room] - {sid}],
                rooms := h.rooms[room := Live(h.rooms[room].name, s.(links := s.links[u := Link(false, 0)]))])
  }

  /** A lost connection, inside a room or outside. */
  lemma DisconnectRule<H>(cfg: Config, w: World, h: HubState<H>, sid: Uid)
    requires Agree(cfg, h) && sid in h.sessions
    ensures var r, s := HubStep(cfg, w, h, Disconnect(sid)), h.sessions[sid];
            && r.reply == Nothing && (s.room.Some? ==> s.account.Some?)
            && if s.room.Some? then CutOffFrom(h, r.hub, sid, s.account.value, s.room.value)
               else r.hub == h.(sessions := h.sessions - {sid},
                                online := if s.account.Some? then h.online - {s.account.value} else h.online)
  {
    hide Step, PlayersAgree, ManagerAgrees, RoutesAgree, SessionsAgree, OnlineAgrees;
    var s := h.sessions[sid];
    if s.room.Some? {
      LoggedInIfInRoom(cfg, h, sid);
      SeatedIsOnline(cfg, h, sid);
      RoutedHere(cfg, h, s.room.value);
      LeaveIs(cfg, w, h.rooms[s.room.value].state, s.account.value);
      assert (h.sessions[sid := s.(room := None)]) - {sid} == h.sessions - {sid};
    }
  }

  lemma RoutedHere<H>(cfg: Config, h: HubState<H>, r: H)
    requires Core(cfg, h) && r in h.rooms
    ensures r in h.routes
  {
  }

  /** A report or a change of equipment goes to the session's own room, on behalf of its account, and nowhere else. */
  lemma PlayRule<H>(cfg: Config, w: World, h: HubState<H>, sid: Uid, action: Action<H>)
    requires LoggedIn(h, sid) && (action.Report? || action.Refit?)
    ensures var r := HubStep(cfg, w, h, Do(sid, action));
            var u, room := h.sessions[sid].account.value, h.sessions[sid].room;
            var m := if action.Report? then Input(u, action.report, action.order, action.lockOrder) else Equip(u, action.boost);
            && r.reply == Nothing
            && r.hub == if room.None? || room.value !in h.rooms then h
                        else h.(rooms := h.rooms[room.value := Live(h.rooms[room.value].name,
                                                                    Step(cfg, w, h.rooms[room.value].state, m).state)])
  {
    hide Step;
  }

  // ----- Sessions -----

  /** Before the first login a session is told to log in and nothing happens; the first login gives it the account for good and makes
      the account online; a second is refused. A new connection gets the next id, neither logged in nor in a room. */
  lemma SessionRule<H>(cfg: Config, w: World, h: HubState<H>, sid: Uid, account: Uid, action: Action<H>)
    requires sid in h.sessions
    ensures var r := HubStep(cfg, w, h, Login(sid, account));
            Sensible(h, Login(sid, account)) ==>
              if h.sessions[sid].account.Some? then r == HubResult(h, BadInput)
              else r == HubResult(h.(sessions := h.sessions[sid := Session(Some(account), h.sessions[sid].room)],
                                     online := h.online[account := sid]), Nothing)
    ensures h.sessions[sid].account.None? && Sensible(h, Do(sid, action)) ==> HubStep(cfg, w, h, Do(sid, action)) == HubResult(h, LoginFirst)
    ensures var next := if h.seqNo == 0xffff_ffff then 0 else h.seqNo + 1;
            next !in h.sessions ==>
              HubStep(cfg, w, h, Connect) == HubResult(h.(seqNo := next, sessions := h.sessions[next := Session(None, None)]), Nothing)
  {
    hide ActionStep;
  }

  // ----- Ticks and cleanups -----

  /** A tick reaches its room alone; the first that finds the room empty starts a cleanup. A cleanup does nothing while somebody is in
      the room, and otherwise takes the room out of every table. */
  lemma TickAndCleanupRule<H>(cfg: Config, w: World, h: HubState<H>, room: H, spawn: Uid -> Vec)
    requires Agree(cfg, h) && room in h.rooms
    ensures var r, t := HubStep(cfg, w, h, RoomTick(room, spawn)).hub, Step(cfg, w, h.rooms[room].state, Tick(spawn));
            r == h.(rooms := h.rooms[room := Live(h.rooms[room].name, t.state)],
                    pending := if t.out.emptiedNow then h.pending + multiset{room} else h.pending)
    ensures room in h.pending ==>
              var r, name := HubStep(cfg, w, h, Cleanup(room)).hub, h.rooms[room].name;
              r == if |h.rooms[room].state.fighters| > 0 then h.(pending := h.pending - multiset{room})
                   else h.(pending := h.pending - multiset{room}, routes := h.routes - {room}, metas := h.metas - {name},
                           manager := h.manager - {name}, rooms := h.rooms - {room})
  {
    hide Step, PlayersAgree, SessionsAgree, OnlineAgrees, RoutesAgree;
    NameKnown(cfg, h, room);
    var fs := h.rooms[room].state.fighters;
    assert |fs| == |fs.Keys|;
  }

  lemma NameKnown<H>(cfg: Config, h: HubState<H>, room: H)
    requires Agree(cfg, h) && room in h.rooms
    ensures h.rooms[room].name in h.manager && h.manager[h.rooms[room].name] == room
  {
  }

  // ----- The lobby's list -----

  /** A listed room is shown under its name with its creator's nickname, its note, the number of players online and eight places. */
  ghost predicate ShownAs<H>(h: HubState<H>, nickname: Uid -> Text, name: Text, r: RoomInfo)
  {
    && name in h.metas && name in h.manager && h.manager[name] in h.rooms
    && r.name == name && r.creator == nickname(h.metas[name].creator) && r.note == h.metas[name].note
    && r.players == |OnlineOf(h.rooms[h.manager[name]].state.links)| && r.max == 8
  }

  lemma ListShows<H>(cfg: Config, w: World, ms: seq<HubMsg<H>>, nickname: Uid -> Text, names: seq<Text>, i: nat)
    requires cfg.Valid() && Enumerates(names, HubRun(cfg, w, NewHub(), ms).metas.Keys) && i < |names|
    ensures var h := HubRun(cfg, w, NewHub(), ms);
            ShownAs(h, nickname, names[i], HubProofs.Listing(h, nickname, names)[i])
  {
    hide HubRun, OnlineOf;
    HubProofs.AdvertisedIsOnline(cfg, w, ms, names[i]);
  }
}
