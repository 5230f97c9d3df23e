/** The hub of internal/gateway as a step function on values: sessions, the lobby's list of rooms, the room manager, the
    table of sessions per room, and the cleanup of empty rooms. One handler is one step, one tick of one room is one step,
    and one cleanup goroutine is one step. Rooms are identified by their address, of type `H`. */
module HubModel {
  import opened Base
  import opened Bytes
  import opened Geometry
  import opened Combat
  import opened Validation
  import opened RoomModel
  import opened LobbyWire

  /** An open connection: the account it is logged in as, and the room it is in. */
  datatype Session<+H> = Session(account: Option<Uid>, room: Option<H>)

  datatype Meta = Meta(creator: Uid, note: Text)

  datatype Live = Live(name: Text, state: Room)

  datatype HubState<H> = HubState(
    seqNo: Uid,                       // the last session id given out
    sessions: map<Uid, Session<H>>,   // open sessions
    online: map<Uid, Uid>,            // account to session
    metas: map<Text, Meta>,           // the lobby's list of rooms
    manager: map<Text, H>,            // room name to room
    routes: map<H, set<Uid>>,         // room to sessions
    rooms: map<H, Live>,              // rooms whose loop is running
    pending: multiset<H>)             // cleanups started but not yet carried out

  function NewHub<H>(): HubState<H> { HubState(0, map[], map[], map[], map[], map[], map[], multiset{}) }

  /** What a logged-in session can ask for. `addr` is the address a new room would get, `at` its choice of spawn point,
      and `bonus` what the store says about the block bonus of the account's equipment, if it answers. */
  datatype Action<H> =
    | Create(body: seq<Byte>, at: Vec, bonus: Option<real>, addr: H)
    | JoinRoom(body: seq<Byte>, at: Vec, bonus: Option<real>, addr: H)
    | BattleJoin(body: seq<Byte>, at: Vec, bonus: Option<real>, addr: H)
    | LeaveRoom
    | Report(report: InputReport, order: seq<Uid>, lockOrder: seq<Uid>)
    | Refit(boost: real)

  /** `Login` stands for a successful login or reconnection. */
  datatype HubMsg<H> =
    | Connect
    | Login(sid: Uid, account: Uid)
    | Do(sid: Uid, action: Action<H>)
    | Disconnect(sid: Uid)
    | RoomTick(room: H, spawn: Uid -> Vec)
    | Cleanup(room: H)

  datatype Reply = Nothing | JoinOK | LoginFirst | BadInput | RoomExists | RoomMissing | RoomFull

  datatype HubResult<H> = HubResult(hub: HubState<H>, reply: Reply)

  function NextId(seqNo: Uid): Uid { (seqNo as int + 1) % 0x1_0000_0000 }

  /** The circumstances under which the hub is used: session ids wrap around only after the session that had the id has
      closed, an account has at most one open session, a battle join is sent only from outside a room, a new room gets an
      unused address, and a cleanup runs only if it was started. */
  ghost predicate Sensible<H>(h: HubState<H>, m: HubMsg<H>)
  {
    match m
    case Connect => NextId(h.seqNo) !in h.sessions
    case Login(sid, account) => forall t :: t in h.sessions && t != sid ==> h.sessions[t].account != Some(account)
    case Do(sid, Create(_, _, _, addr)) => addr !in h.rooms
    case Do(sid, JoinRoom(_, _, _, addr)) => addr !in h.rooms
    case Do(sid, BattleJoin(_, _, _, addr)) => addr !in h.rooms && (sid in h.sessions ==> h.sessions[sid].room == None)
    case Cleanup(room) => room in h.pending
    case _ => true
  }

  predicate LoggedIn<H>(h: HubState<H>, sid: Uid) { sid in h.sessions && h.sessions[sid].account.Some? }

  ghost function HubStep<H>(cfg: Config, w: World, h: HubState<H>, m: HubMsg<H>): HubResult<H>
  {
    if !Sensible(h, m) then HubResult(h, Nothing)
    else
      match m
      case Connect => HubResult(Connected(h, NextId(h.seqNo)), Nothing)
      case Login(sid, account) =>
        if sid !in h.sessions then HubResult(h, Nothing)
        else if LoggedIn(h, sid) then HubResult(h, BadInput)
        else HubResult(LoggedInAs(h, sid, account), Nothing)
      case Do(sid, action) =>
        if sid !in h.sessions then HubResult(h, Nothing)
        else if !LoggedIn(h, sid) then HubResult(h, LoginFirst)
        else ActionStep(cfg, w, h, sid, action)
      case Disconnect(sid) => HubResult(if sid in h.sessions then Closed(cfg, w, h, sid) else h, Nothing)
      case RoomTick(room, spawn) => HubResult(RoomTicked(cfg, w, h, room, spawn), Nothing)
      case Cleanup(room) => HubResult(CleanedUp(h.(pending := h.pending - multiset{room}), room), Nothing)
  }

  ghost function ActionStep<H>(cfg: Config, w: World, h: HubState<H>, sid: Uid, action: Action<H>): HubResult<H>
    requires LoggedIn(h, sid)
  {
    var u := h.sessions[sid].account.value;
    match action
    case Create(body, at, bonus, addr) => CreateStep(cfg, w, h, sid, body, at, bonus, addr)
    case JoinRoom(body, at, bonus, addr) => JoinRoomStep(cfg, w, h, sid, body, at, bonus, addr)
    case BattleJoin(body, at, bonus, addr) => BattleJoinStep(cfg, w, h, sid, body, at, bonus, addr)
    case LeaveRoom => HubResult(Left(cfg, w, h, sid), Nothing)
    case Report(report, order, lockOrder) => HubResult(ToOwnRoom(cfg, w, h, sid, Input(u, report, order, lockOrder)), Nothing)
    case Refit(boost) => HubResult(ToOwnRoom(cfg, w, h, sid, Equip(u, boost)), Nothing)
  }

  // ----- Sessions -----

  function Connected<H>(h: HubState<H>, sid: Uid): HubState<H>
  {
    h.(seqNo := sid, sessions := h.sessions[sid := Session(None, None)])
  }

  function LoggedInAs<H>(h: HubState<H>, sid: Uid, account: Uid): HubState<H>
    requires sid in h.sessions
  {
    h.(sessions := h.sessions[sid := h.sessions[sid].(account := Some(account))], online := h.online[account := sid])
  }

  /** The session is no longer in a room. */
  function Unrouted<H>(h: HubState<H>, sid: Uid, room: H): HubState<H>
    requires sid in h.sessions
  {
    h.(sessions := h.sessions[sid := h.sessions[sid].(room := None)],
       routes := if room in h.routes then h.routes[room := h.routes[room] - {sid}] else h.routes)
  }

  ghost function Left<H>(cfg: Config, w: World, h: HubState<H>, sid: Uid): HubState<H>
    requires LoggedIn(h, sid)
  {
    var s := h.sessions[sid];
    if s.room.None? then h
    else Unrouted(Sent(cfg, w, h, s.room.value, Leave(s.account.value)), sid, s.room.value)
  }

  /** A closed connection leaves its player in the room, offline. The zero id stands in for a session that never logged in. */
  ghost function Closed<H>(cfg: Config, w: World, h: HubState<H>, sid: Uid): HubState<H>
    requires sid in h.sessions
  {
    var s := h.sessions[sid];
    var u := if s.account.Some? then s.account.value else 0;
    var out := if s.room.None? then h
               else Unrouted(Sent(cfg, w, h, s.room.value, Online(u, false)), sid, s.room.value);
    out.(sessions := out.sessions - {sid}, online := if s.account.Some? then out.online - {u} else out.online)
  }

  // ----- Rooms -----

  /** A message handled by the loop of a room. A stopped loop handles nothing. */
  ghost function Sent<H>(cfg: Config, w: World, h: HubState<H>, room: H, m: Msg): (r: HubState<H>)
    ensures r == h.(rooms := r.rooms) && r.rooms.Keys == h.rooms.Keys
  {
    if room !in h.rooms then h
    else h.(rooms := h.rooms[room := h.rooms[room].(state := Step(cfg, w, h.rooms[room].state, m).state)])
  }

  ghost function ToOwnRoom<H>(cfg: Config, w: World, h: HubState<H>, sid: Uid, m: Msg): HubState<H>
    requires sid in h.sessions
  {
    if h.sessions[sid].room.None? then h else Sent(cfg, w, h, h.sessions[sid].room.value, m)
  }

  ghost function CreateStep<H>(cfg: Config, w: World, h: HubState<H>, sid: Uid, body: seq<Byte>, at: Vec,
                               bonus: Option<real>, addr: H): HubResult<H>
    requires LoggedIn(h, sid)
  {
    var s := h.sessions[sid];
    if s.room.Some? then HubResult(h, BadInput)
    else
      match DecodeRoomOp(body)
      case None => HubResult(h, BadInput)
      case Some(op) =>
        if op.name == [] || |op.name| > 32 || |op.note| > 64 then HubResult(h, BadInput)
        else if op.name in h.metas then HubResult(h, RoomExists)
        else
          var listed := h.(metas := h.metas[op.name := Meta(s.account.value, op.note)]);
          var r := Enter(cfg, w, listed, sid, op.name, at, bonus, addr);
          if r.reply == RoomFull then HubResult(r.hub.(metas := r.hub.metas - {op.name}), RoomFull) else r
  }

  ghost function JoinRoomStep<H>(cfg: Config, w: World, h: HubState<H>, sid: Uid, body: seq<Byte>, at: Vec,
                                 bonus: Option<real>, addr: H): HubResult<H>
    requires LoggedIn(h, sid)
  {
    if h.sessions[sid].room.Some? then HubResult(h, BadInput)
    else
      match DecodeRoomOp(body)
      case None => HubResult(h, BadInput)
      case Some(op) =>
        if op.name == [] then HubResult(h, BadInput)
        else if op.name !in h.metas then HubResult(h, RoomMissing)
        else Enter(cfg, w, h, sid, op.name, at, bonus, addr)
  }

  /** The whole body is the name of the room, which is created if need be. */
  ghost function BattleJoinStep<H>(cfg: Config, w: World, h: HubState<H>, sid: Uid, body: seq<Byte>, at: Vec,
                                   bonus: Option<real>, addr: H): HubResult<H>
    requires LoggedIn(h, sid)
  {
    if body == [] then HubResult(h, BadInput)
    else
      var listed := if body in h.metas then h else h.(metas := h.metas[body := Meta(h.sessions[sid].account.value, [])]);
      Enter(cfg, w, listed, sid, body, at, bonus, addr)
  }

  /** The room of that name, created if the manager has none. */
  ghost function Opened<H>(h: HubState<H>, name: Text, addr: H): (r: HubState<H>)
    ensures r == h.(manager := r.manager, rooms := r.rooms) && name in r.manager
  {
    if name in h.manager then h
    else h.(manager := h.manager[name := addr], rooms := h.rooms[addr := Live(name, NEW_ROOM)])
  }

  /** A room without a session table gets one, and starts to broadcast and to report that it is empty. */
  ghost function Wired<H>(cfg: Config, w: World, h: HubState<H>, room: H): (r: HubState<H>)
    ensures r == h.(routes := r.routes, rooms := r.rooms) && room in r.routes
  {
    if room in h.routes then h
    else Sent(cfg, w, Sent(cfg, w, h.(routes := h.routes[room := {}]), room, SetBroadcast), room, SetOnEmpty)
  }

  function Routed<H>(h: HubState<H>, sid: Uid, room: H): HubState<H>
    requires room in h.routes && sid in h.sessions
  {
    h.(routes := h.routes[room := h.routes[room] + {sid}],
       sessions := h.sessions[sid := h.sessions[sid].(room := Some(room))])
  }

  /** A session whose player has been let in is entered into the tables, and its equipment applied. */
  ghost function Settled<H>(cfg: Config, w: World, h: HubState<H>, sid: Uid, room: H, bonus: Option<real>): HubState<H>
    requires LoggedIn(h, sid)
  {
    var routed := Routed(Wired(cfg, w, h, room), sid, room);
    if bonus.Some? then Sent(cfg, w, routed, room, Equip(h.sessions[sid].account.value, bonus.value)) else routed
  }

  /** Joins the room of that name; the caller has seen to the lobby's list. */
  ghost function Enter<H>(cfg: Config, w: World, h: HubState<H>, sid: Uid, name: Text, at: Vec,
                          bonus: Option<real>, addr: H): HubResult<H>
    requires LoggedIn(h, sid)
  {
    var u := h.sessions[sid].account.value;
    var found := Opened(h, name, addr);
    var room := found.manager[name];
    if room !in found.rooms then HubResult(found, Nothing)
    else if Step(cfg, w, found.rooms[room].state, Join(u, at)).out.full then HubResult(found, RoomFull)
    else
      HubResult(Settled(cfg, w, Sent(cfg, w, found, room, Join(u, at)), sid, room, bonus), JoinOK)
  }

  /** A tick that finds the room empty for the first time starts a cleanup. */
  ghost function RoomTicked<H>(cfg: Config, w: World, h: HubState<H>, room: H, spawn: Uid -> Vec): HubState<H>
  {
    if room !in h.rooms then h
    else
      var out := Step(cfg, w, h.rooms[room].state, Tick(spawn)).out;
      Sent(cfg, w, h, room, Tick(spawn)).(pending := if out.emptiedNow then h.pending + multiset{room} else h.pending)
  }

  /** A cleanup of a stopped room never gets an answer; one of a room with players does nothing. */
  function CleanedUp<H>(h: HubState<H>, room: H): HubState<H>
  {
    if room !in h.rooms || h.rooms[room].state.fighters.Keys != {} then h
    else
      var name := h.rooms[room].name;
      var unlisted := h.(routes := h.routes - {room}, metas := h.metas - {name});
      if name !in h.manager then unlisted
      else unlisted.(manager := h.manager - {name}, rooms := h.rooms - {h.manager[name]})
  }

  // ----- Runs -----

  ghost function HubRun<H>(cfg: Config, w: World, h: HubState<H>, ms: seq<HubMsg<H>>): HubState<H>
  {
    if ms == [] then h
    else HubStep(cfg, w, HubRun(cfg, w, h, ms[..|ms| - 1]), ms[|ms| - 1]).hub
  }
}
