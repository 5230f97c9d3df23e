/** The hub as the program keeps it: session, room and registry objects in tables that the handlers change in place.
    Every handler is proved to do what the step function says. */
module HubObjects {
  import opened Base
  import opened Bytes
  import opened Geometry
  import opened Combat
  import opened Validation
  import opened RoomModel
  import opened RoomObjects
  import opened LobbyWire
  import HubModel
  import HubInvariant
  import HubProofs

  type State = HubModel.HubState<RoomLoop?>

  class Session {
    const uid: Uid
    var room: RoomLoop?
    var loginUid: Uid
    var loggedIn: bool

    function View(): HubModel.Session<RoomLoop?>
      reads this
    {
      HubModel.Session(if loggedIn then Some(loginUid) else None, if room == null then None else Some(room))
    }

    constructor (uid: Uid)
      ensures this.uid == uid && View() == HubModel.Session(None, None)
    {
      this.uid := uid;
      room, loginUid, loggedIn := null, 0, false;
    }
  }

  /** The lobby's list of rooms. */
  class Registry {
    var metas: map<Text, HubModel.Meta>

    constructor ()
      ensures metas == map[]
    {
      metas := map[];
    }

    method Add(name: Text, meta: HubModel.Meta) returns (added: bool)
      modifies this
      ensures added == (name !in old(metas))
      ensures metas == if added then old(metas)[name := meta] else old(metas)
    {
      if name in metas {
        return false;
      }
      metas := metas[name := meta];
      return true;
    }

    method Remove(name: Text)
      modifies this
      ensures metas == old(metas) - {name}
    {
      metas := metas - {name};
    }

    /** The names of all rooms, in arbitrary order. */
    method List() returns (names: seq<Text>)
      ensures Enumerates(names, metas.Keys)
    {
      names := [];
      var todo := metas.Keys;
      while todo != {}
        invariant todo <= metas.Keys && Enumerates(names, metas.Keys - todo)
      {
        var name :| name in todo;
        todo := todo - {name};
        names := names + [name];
      }
    }
  }

  /** Rooms by name. */
  class Manager {
    const cfg: Config
    const world: World
    var rooms: map<Text, RoomLoop>

    constructor (cfg: Config, world: World)
      ensures rooms == map[] && this.cfg == cfg && this.world == world
    {
      this.cfg, this.world := cfg, world;
      rooms := map[];
    }

    /** The room of that name, new if there was none. */
    method CreateRoom(id: Text) returns (r: RoomLoop)
      requires world.Valid()
      modifies this
      ensures if id in old(rooms) then rooms == old(rooms) && r == rooms[id]
              else && fresh(r) && rooms == old(rooms)[id := r] && r.Valid() && r.State() == NEW_ROOM && r.players == map[]
                   && r.id == id && r.cfg == cfg.Normal() && r.combat.world == world
    {
      if id in rooms {
        return rooms[id];
      }
      r := new RoomLoop(id, cfg, world);
      rooms := rooms[id := r];
    }

    method DestroyRoom(id: Text)
      modifies this
      ensures rooms == old(rooms) - {id}
    {
      rooms := rooms - {id};
    }
  }

  class Hub {
    const manager: Manager
    const registry: Registry
    var seqNo: Uid
    var roomSessions: map<RoomLoop, map<Uid, Session>>
    var online: map<Uid, Session>
    ghost var sessions: map<Uid, Session>      // open connections
    ghost var running: set<RoomLoop>           // rooms whose loop has not been stopped
    ghost var pending: multiset<RoomLoop>      // cleanups started but not carried out

    ghost function Players(): set<Player>
      reads this`running, running
    {
      set r, p | r in running && p in r.players.Values :: p
    }

    ghost predicate Apart()
      reads this`running, running
    {
      forall r, t :: r in running && t in running && r != t ==> r.players.Values !! t.players.Values
    }

    ghost predicate Rooms()
      reads this`running, running, Players()
    {
      && Apart()
      && forall r :: r in running ==> r.Valid() && r.cfg == manager.cfg.Normal() && r.combat.world == manager.world
    }

    ghost predicate Valid()
      reads this`running, this`sessions, running, Players()
    {
      && manager.world.Valid() && Rooms()
      && (forall sid :: sid in sessions ==> sessions[sid].uid == sid)
    }

    ghost function LiveRooms(): map<RoomLoop?, HubModel.Live>
      reads this`running, running, Players()
    {
      map r: RoomLoop? | r in running :: HubModel.Live(r.id, r.State())
    }

    ghost function SessionViews(): map<Uid, HubModel.Session<RoomLoop?>>
      reads this`sessions, sessions.Values
    {
      map sid | sid in sessions :: sessions[sid].View()
    }

    ghost function Routes(): map<RoomLoop?, set<Uid>>
      reads this`roomSessions
    {
      map r: RoomLoop? | r in roomSessions :: roomSessions[r].Keys
    }

    ghost function Online(): map<Uid, Uid>
      reads this`online
    {
      map u | u in online :: online[u].uid
    }

    /** The hub as a value. */
    ghost function View(): State
      reads this, manager, registry, sessions.Values, running, Players()
    {
      HubModel.HubState(seqNo, SessionViews(), Online(), registry.metas, manager.rooms, Routes(), LiveRooms(), pending)
    }

    constructor (manager: Manager)
      requires manager.world.Valid() && manager.rooms == map[]
      ensures Valid() && View() == HubModel.NewHub() && this.manager == manager && fresh(registry)
    {
      this.manager := manager;
      registry := new Registry();
      seqNo, roomSessions, online := 0, map[], map[];
      sessions, running, pending := map[], {}, multiset{};
    }

    // ----- Messages to a room -----

    /** One turn of the loop of a running room leaves the other rooms alone. */
    method Turn(r: RoomLoop, m: Msg) returns (ghost done: Msg, notified: bool, full: bool)
      requires manager.world.Valid() && Rooms() && r in running
      modifies r, r.players.Values
      ensures Rooms()
      ensures forall p :: p in r.players.Values ==> p in old(r.players.Values) || fresh(p)
      ensures Settles(m, done) && Possible(old(r.State()), done)
      ensures forall t :: t in running && t != r ==> t.State() == old(t.State())
      ensures var res := Step(manager.cfg.Normal(), manager.world, old(r.State()), done);
              r.State() == res.state && notified == res.out.emptiedNow && full == res.out.full
    {
      hide RoomLoop.Valid, RoomLoop.State, Step, Settles, Possible;
      done, notified, full := r.Handle(m);
      forall t | t in running && t != r ensures t.State() == old(t.State()) && t.Valid() {
      }
    }

    /** The same, for the table of rooms. */
    method TurnTable(r: RoomLoop, m: Msg) returns (ghost done: Msg, notified: bool, full: bool)
      requires Valid() && r in running
      modifies r, r.players.Values
      ensures Rooms()
      ensures forall p :: p in r.players.Values ==> p in old(r.players.Values) || fresh(p)
      ensures Settles(m, done) && Possible(old(r.State()), done)
      ensures r in old(LiveRooms())
      ensures var live := old(LiveRooms());
              var res := Step(manager.cfg.Normal(), manager.world, old(r.State()), done);
              && LiveRooms() == live[r := live[r].(state := res.state)] && live[r].state == old(r.State())
              && notified == res.out.emptiedNow && full == res.out.full
    {
      hide RoomLoop.Valid, RoomLoop.State, Step, Settles, Possible, Rooms, LiveRooms;
      ghost var live := LiveRooms();
      LiveRoomsAre();
      done, notified, full := Turn(r, m);
      LiveRoomsAre();
      OneRoomMoved(live, r);
    }

    /** Hands a message to the loop of a running room. */
    method Send(r: RoomLoop, m: Msg) returns (ghost done: Msg, notified: bool, full: bool)
      requires Valid() && r in running
      modifies r, r.players.Values
      ensures Valid()
      ensures forall p :: p in r.players.Values ==> p in old(r.players.Values) || fresh(p)
      ensures Settles(m, done) && Possible(old(r.State()), done)
      ensures View() == HubModel.Sent(manager.cfg.Normal(), manager.world, old(View()), r, done)
      ensures var out := Step(manager.cfg.Normal(), manager.world, old(r.State()), done).out;
              notified == out.emptiedNow && full == out.full
    {
      hide RoomLoop.Valid, RoomLoop.State, Step, Settles, Possible, Rooms, SessionViews, Online, Routes, LiveRooms, HubModel.Sent;
      ghost var h := View();
      done, notified, full := TurnTable(r, m);
      assert SessionViews() == h.sessions && Online() == h.online && Routes() == h.routes;
      SentIs(manager.cfg.Normal(), manager.world, h, r, done);
    }

    lemma LiveRoomsAre()
      ensures LiveRooms().Keys == running
      ensures forall r :: r in running ==> LiveRooms()[r] == HubModel.Live(r.id, r.State())
    {
      hide RoomLoop.State;
    }

    lemma SentIs(cfg: Config, w: World, h: State, r: RoomLoop?, m: Msg)
      requires r in h.rooms
      ensures HubModel.Sent(cfg, w, h, r, m)
           == h.(rooms := h.rooms[r := h.rooms[r].(state := Step(cfg, w, h.rooms[r].state, m).state)])
    {
      hide Step;
    }

    lemma OneRoomMoved(before: map<RoomLoop?, HubModel.Live>, r: RoomLoop)
      requires r in running && before.Keys == LiveRooms().Keys
      requires forall t :: t in running ==> before[t].name == t.id && (t != r ==> t.State() == before[t].state)
      ensures LiveRooms() == before[r := before[r].(state := r.State())]
    {
      hide RoomLoop.State;
    }

    // ----- Sessions and routes -----

    ghost predicate Open(s: Session)
      reads this`sessions
    {
      s.uid in sessions && sessions[s.uid] == s
    }

    /** The session is in that room, or in none. */
    method Seat(s: Session, r: RoomLoop?)
      requires Valid() && Open(s)
      modifies s`room
      ensures Valid()
      ensures var h := old(View());
              View() == h.(sessions := h.sessions[s.uid := h.sessions[s.uid].(room := if r == null then None else Some(r))])
    {
      hide RoomLoop.Valid, RoomLoop.State;
      ghost var h := View();
      s.room := r;
      forall t | t in running ensures t.State() == old(t.State()) && t.Valid() {
      }
      assert LiveRooms() == h.rooms;
      assert SessionViews() == h.sessions[s.uid := s.View()];
    }

    method Route(r: RoomLoop, s: Session)
      requires Valid() && r in roomSessions
      modifies this`roomSessions
      ensures Valid() && View() == old(View()).(routes := old(View()).routes[r := old(View()).routes[r] + {s.uid}])
    {
      hide SessionViews, Online, RoomLoop.Valid, RoomLoop.State;
      ghost var h := View();
      var seats: map<Uid, Session> := roomSessions[r];
      seats := seats[s.uid := s];
      assert seats.Keys == h.routes[r] + {s.uid};
      roomSessions := roomSessions[r := seats];
      forall t | t in running ensures t.State() == old(t.State()) && t.Valid() {
      }
      assert LiveRooms() == h.rooms;
      assert Routes() == h.routes[r := h.routes[r] + {s.uid}];
    }

    method Unroute(r: RoomLoop, sid: Uid)
      requires Valid()
      modifies this`roomSessions
      ensures Valid()
      ensures var h := old(View());
              View() == h.(routes := if r in h.routes then h.routes[r := h.routes[r] - {sid}] else h.routes)
    {
      hide SessionViews, Online, RoomLoop.Valid, RoomLoop.State;
      ghost var h := View();
      if r in roomSessions {
        var seats := roomSessions[r] - {sid};
        assert seats.Keys == h.routes[r] - {sid};
        roomSessions := roomSessions[r := seats];
        assert Routes() == h.routes[r := h.routes[r] - {sid}];
      }
      forall t | t in running ensures t.State() == old(t.State()) && t.Valid() {
      }
      assert LiveRooms() == h.rooms;
    }

    /** The manager's room of that name, created if need be. */
    method Obtain(name: Text) returns (r: RoomLoop)
      requires Valid() && (name in manager.rooms ==> manager.rooms[name] in running)
      modifies manager
      ensures Valid() && LiveRooms() == old(LiveRooms())
      ensures if name in old(manager.rooms) then manager.rooms == old(manager.rooms) && r == manager.rooms[name]
              else && fresh(r) && manager.rooms == old(manager.rooms)[name := r] && r.Valid() && r.State() == NEW_ROOM
                   && r.players == map[] && r.id == name && r.cfg == manager.cfg.Normal() && r.combat.world == manager.world
    {
      hide RoomLoop.Valid, RoomLoop.State;
      ghost var rooms := LiveRooms();
      r := manager.CreateRoom(name);
      forall t | t in running ensures t.State() == old(t.State()) && t.Valid() {
      }
      assert LiveRooms() == rooms;
    }

    /** The room of that name, created and started if need be. */
    method Find(name: Text) returns (r: RoomLoop, ghost addr: RoomLoop?)
      requires Valid() && (name in manager.rooms ==> manager.rooms[name] in running)
      modifies this`running, manager
      ensures Valid() && (addr == null || fresh(addr)) && addr !in old(View()).rooms
      ensures View() == HubModel.Opened(old(View()), name, addr) && r == View().manager[name]
      ensures r in running && forall t :: t in running ==> t in old(running) || (fresh(t) && t.players == map[])
    {
      hide Online, SessionViews, Routes, RoomLoop.Valid, RoomLoop.State, Rooms, Valid;
      ghost var known := name in manager.rooms;
      r := Obtain(name);
      addr := null;
      if !known {
        addr := r;
        Adopt(r);
      }
    }

    /** A new room starts to run. */
    ghost method Adopt(r: RoomLoop)
      requires Valid() && r !in running && r.Valid() && r.players == map[]
      requires r.cfg == manager.cfg.Normal() && r.combat.world == manager.world
      modifies this`running
      ensures Valid() && running == old(running) + {r}
      ensures LiveRooms() == old(LiveRooms())[r := HubModel.Live(r.id, r.State())]
    {
      hide RoomLoop.Valid, RoomLoop.State;
      ghost var rooms := LiveRooms();
      running := running + {r};
      assert LiveRooms() == rooms[r := HubModel.Live(r.id, r.State())];
    }

    /** A room gets its session table. */
    method OpenTable(r: RoomLoop)
      requires Valid()
      modifies this`roomSessions
      ensures Valid() && r in roomSessions && View() == old(View()).(routes := old(View()).routes[r := {}])
    {
      hide SessionViews, Online, RoomLoop.Valid, RoomLoop.State;
      ghost var h := View();
      var nobody: map<Uid, Session> := map[];
      assert nobody.Keys == {};
      roomSessions := roomSessions[r := nobody];
      forall t | t in running ensures t.State() == old(t.State()) && t.Valid() {
      }
      assert LiveRooms() == h.rooms;
      assert Routes() == h.routes[r := {}];
    }

    // ----- Handlers -----

    /** A room without a session table gets one and is wired to the hub. */
    method Wire(r: RoomLoop)
      requires Valid() && r in running
      modifies this`roomSessions, r, r.players.Values
      ensures Valid() && r in roomSessions
      ensures forall p :: p in r.players.Values ==> p in old(r.players.Values) || fresh(p)
      ensures View() == HubModel.Wired(manager.cfg.Normal(), manager.world, old(View()), r)
    {
      hide View, Valid, RoomLoop.State, RoomLoop.Valid, Possible, Step;
      RouteKnown(r);
      if r !in roomSessions {
        OpenTable(r);
        var _, _, _ := Send(r, SetBroadcast);
        var _, _, _ := Send(r, SetOnEmpty);
      }
    }

    lemma RouteKnown(r: RoomLoop)
      ensures r in roomSessions <==> r in View().routes
    {
    }

    /** Enters a session whose player has been let in into the tables, and applies its equipment. */
    method Settle(s: Session, r: RoomLoop, bonus: Option<real>)
      requires Valid() && Open(s) && s.loggedIn && r in running
      modifies this`roomSessions, s`room, r, r.players.Values
      ensures Valid() && HubModel.LoggedIn(old(View()), s.uid)
      ensures View() == HubModel.Settled(manager.cfg.Normal(), manager.world, old(View()), s.uid, r, bonus)
    {
      hide View, Valid, RoomLoop.State, RoomLoop.Valid, Possible, Step;
      SeatedAs(s);
      Wire(r);
      Route(r, s);
      Seat(s, r);
      if bonus.Some? {
        var _, _, _ := Send(r, Equip(s.loginUid, bonus.value));
      }
    }

    /** Joins the room of that name. */
    method Join(s: Session, name: Text, at: Vec, bonus: Option<real>) returns (full: bool, ghost addr: RoomLoop?)
      requires Valid() && Open(s) && s.loggedIn && (name in manager.rooms ==> manager.rooms[name] in running)
      modifies this`running, this`roomSessions, manager, s`room, running, Players()
      ensures Valid() && addr !in old(View()).rooms
      ensures HubModel.LoggedIn(old(View()), s.uid)
      ensures var e := HubModel.Enter(manager.cfg.Normal(), manager.world, old(View()), s.uid, name, at, bonus, addr);
              View() == e.hub && e.reply == if full then HubModel.RoomFull else HubModel.JoinOK
    {
      hide View, Valid, RoomLoop.State, RoomLoop.Valid, Possible, Step, HubModel.Settled, HubModel.Opened;
      SeatedAs(s);
      var r;
      r, addr := Find(name);
      RunningKnown(r);
      FullChangesNothing(manager.cfg.Normal(), manager.world, r.State(), s.loginUid, at);
      ghost var done, notified;
      done, notified, full := Send(r, RoomModel.Join(s.loginUid, at));
      if !full {
        Settle(s, r, bonus);
      }
    }

    lemma SeatedAs(s: Session)
      requires Open(s) && s.loggedIn
      ensures var h := View();
              HubModel.LoggedIn(h, s.uid) && h.sessions[s.uid] == s.View()
    {
    }

    lemma RunningKnown(r: RoomLoop)
      requires r in running
      ensures r in View().rooms && View().rooms[r].state == r.State()
    {
    }

    /** The tables agree, and the session is open. */
    ghost predicate Ready(s: Session)
      reads this, manager, registry, sessions.Values, running, Players()
    {
      Agreed() && Open(s)
    }

    ghost predicate Agreed()
      reads this, manager, registry, sessions.Values, running, Players()
    {
      Valid() && HubInvariant.Agree(manager.cfg.Normal(), View())
    }

    lemma ManagerKnown(name: Text)
      requires Agreed()
      ensures name in manager.rooms ==> manager.rooms[name] in running
    {
      hide HubInvariant.PlayersAgree;
    }

    /** Only a logged-in session is in a room, and that room is running. */
    lemma RoomKnown(s: Session)
      requires Ready(s) && s.room != null
      ensures s.room in running && s.loggedIn
    {
      hide HubInvariant.PlayersAgree;
      HubInvariant.LoggedInIfInRoom(manager.cfg.Normal(), View(), s.uid);
    }

    lemma StepAgrees(h: State, m: HubModel.HubMsg<RoomLoop?>)
      requires HubInvariant.Agree(manager.cfg.Normal(), h)
      ensures HubInvariant.Agree(manager.cfg.Normal(), HubModel.HubStep(manager.cfg.Normal(), manager.world, h, m).hub)
    {
      HubInvariant.HubStepAgrees(manager.cfg.Normal(), manager.world, h, m);
    }

    method Enlist(name: Text, meta: HubModel.Meta) returns (added: bool)
      requires Valid()
      modifies registry
      ensures Valid() && added == (name !in old(View()).metas)
      ensures View() == if added then old(View()).(metas := old(View()).metas[name := meta]) else old(View())
    {
      hide RoomLoop.Valid, RoomLoop.State;
      ghost var h := View();
      added := registry.Add(name, meta);
      forall t | t in running ensures t.State() == old(t.State()) && t.Valid() {
      }
      assert LiveRooms() == h.rooms;
    }

    method Delist(name: Text)
      requires Valid()
      modifies registry
      ensures Valid() && View() == old(View()).(metas := old(View()).metas - {name})
    {
      hide RoomLoop.Valid, RoomLoop.State;
      ghost var h := View();
      registry.Remove(name);
      forall t | t in running ensures t.State() == old(t.State()) && t.Valid() {
      }
      assert LiveRooms() == h.rooms;
    }

    /** Creates a room and enters it. */
    method HandleRoomCreate(s: Session, body: seq<Byte>, at: Vec, bonus: Option<real>)
      returns (reply: HubModel.Reply, ghost addr: RoomLoop?)
      requires Ready(s) && s.loggedIn
      modifies this`running, this`roomSessions, manager, registry, s`room, running, Players()
      ensures Valid() && HubModel.LoggedIn(old(View()), s.uid) && addr !in old(View()).rooms
      ensures HubModel.HubResult(View(), reply)
           == HubModel.CreateStep(manager.cfg.Normal(), manager.world, old(View()), s.uid, body, at, bonus, addr)
    {
      hide View, Valid, RoomLoop.State, RoomLoop.Valid, Possible, DecodeRoomOp, HubModel.Enter;
      SeatedAs(s);
      NullIsNoRoom();
      addr := null;
      if s.room != null {
        return HubModel.BadInput, addr;
      }
      var op := DecodeRoomOp(body);
      if op.None? || op.value.name == [] || |op.value.name| > 32 || |op.value.note| > 64 {
        return HubModel.BadInput, addr;
      }
      var name := op.value.name;
      ManagerKnown(name);
      var added := Enlist(name, HubModel.Meta(s.loginUid, op.value.note));
      if !added {
        return HubModel.RoomExists, addr;
      }
      var full;
      full, addr := Join(s, name, at, bonus);
      if full {
        Delist(name);
        return HubModel.RoomFull, addr;
      }
      return HubModel.JoinOK, addr;
    }

    lemma NullIsNoRoom()
      ensures null !in View().rooms
    {
    }

    /** Enters a listed room. */
    method HandleRoomJoin(s: Session, body: seq<Byte>, at: Vec, bonus: Option<real>)
      returns (reply: HubModel.Reply, ghost addr: RoomLoop?)
      requires Ready(s) && s.loggedIn
      modifies this`running, this`roomSessions, manager, s`room, running, Players()
      ensures Valid() && HubModel.LoggedIn(old(View()), s.uid) && addr !in old(View()).rooms
      ensures HubModel.HubResult(View(), reply)
           == HubModel.JoinRoomStep(manager.cfg.Normal(), manager.world, old(View()), s.uid, body, at, bonus, addr)
    {
      SeatedAs(s);
      NullIsNoRoom();
      MetasKnown();
      hide View, Valid, RoomLoop.State, RoomLoop.Valid, Possible, DecodeRoomOp, HubModel.Enter;
      addr := null;
      if s.room != null {
        return HubModel.BadInput, addr;
      }
      var op := DecodeRoomOp(body);
      if op.None? || op.value.name == [] {
        return HubModel.BadInput, addr;
      }
      if op.value.name !in registry.metas {
        return HubModel.RoomMissing, addr;
      }
      ManagerKnown(op.value.name);
      var full;
      full, addr := Join(s, op.value.name, at, bonus);
      return if full then HubModel.RoomFull else HubModel.JoinOK, addr;
    }

    /** Enters the room of that name, creating it if need be. */
    method HandleBattleJoin(s: Session, body: seq<Byte>, at: Vec, bonus: Option<real>)
      returns (reply: HubModel.Reply, ghost addr: RoomLoop?)
      requires Ready(s) && s.loggedIn
      modifies this`running, this`roomSessions, manager, registry, s`room, running, Players()
      ensures Valid() && HubModel.LoggedIn(old(View()), s.uid) && addr !in old(View()).rooms
      ensures HubModel.HubResult(View(), reply)
           == HubModel.BattleJoinStep(manager.cfg.Normal(), manager.world, old(View()), s.uid, body, at, bonus, addr)
    {
      SeatedAs(s);
      NullIsNoRoom();
      MetasKnown();
      ManagerKnown(body);
      hide View, Valid, RoomLoop.State, RoomLoop.Valid, Possible, HubModel.Enter;
      hide HubModel.BattleJoinStep;
      ghost var h := View();
      addr := null;
      BattleJoinIs(manager.cfg.Normal(), manager.world, h, s.uid, body, at, bonus, addr);
      if body == [] {
        return HubModel.BadInput, addr;
      }
      if body !in registry.metas {
        var _ := Enlist(body, HubModel.Meta(s.loginUid, []));
      }
      var full;
      full, addr := Join(s, body, at, bonus);
      BattleJoinIs(manager.cfg.Normal(), manager.world, h, s.uid, body, at, bonus, addr);
      return if full then HubModel.RoomFull else HubModel.JoinOK, addr;
    }

    lemma MetasKnown()
      ensures View().metas == registry.metas
    {
    }

    /** A session leaves its room, whose player leaves or goes offline. */
    method Depart(s: Session, m: Msg)
      requires Valid() && Open(s) && s.room != null && s.room in running && !m.Input?
      modifies this`roomSessions, s`room, running, Players()
      ensures Valid()
      ensures View() == Departed(manager.cfg.Normal(), manager.world, old(View()), s.uid, old(s.room), m)
    {
      hide View, Valid, RoomLoop.State, RoomLoop.Valid, Possible, Step, Settles;
      OpenKnown(s);
      var r := s.room;
      DepartIs(manager.cfg.Normal(), manager.world, View(), s.uid, r, m);
      DoneIsSame(m);
      hide HubModel.Sent, Departed;
      Seat(s, null);
      ghost var done, notified, full := Send(r, m);
      Unroute(r, s.uid);
    }

    lemma DoneIsSame(m: Msg)
      requires !m.Input?
      ensures forall done :: Settles(m, done) ==> done == m
    {
    }

    lemma OpenKnown(s: Session)
      requires Open(s)
      ensures s.uid in View().sessions && View().sessions[s.uid] == s.View()
    {
    }

    /** Leaves the room the session is in, if any. */
    method Leave(s: Session)
      requires Ready(s) && s.loggedIn
      modifies this`roomSessions, s`room, running, Players()
      ensures Valid() && HubModel.LoggedIn(old(View()), s.uid)
      ensures View() == HubModel.Left(manager.cfg.Normal(), manager.world, old(View()), s.uid)
    {
      SeatedAs(s);
      if s.room != null { RoomKnown(s); }
      hide View, Valid, RoomLoop.State, RoomLoop.Valid, Possible, Step, HubModel.Sent, HubModel.Unrouted;
      if s.room != null {
        Depart(s, RoomModel.Leave(s.loginUid));
      }
    }

    /** What a session in a room sends on to the room. */
    method ToOwnRoom(s: Session, m: Msg) returns (ghost done: Msg)
      requires Ready(s) && s.loggedIn && (m.Input? || m.Equip?)
      modifies running, Players()
      ensures Valid() && Settles(m, done) && HubModel.LoggedIn(old(View()), s.uid)
      ensures View() == HubModel.ToOwnRoom(manager.cfg.Normal(), manager.world, old(View()), s.uid, done)
    {
      SeatedAs(s);
      if s.room != null { RoomKnown(s); }
      hide View, Valid, RoomLoop.State, RoomLoop.Valid, Possible, Step, Settles;
      done := m;
      SameMessage(m);
      if s.room != null {
        ghost var notified, full;
        done, notified, full := Send(s.room, m);
      }
    }

    lemma SameMessage(m: Msg)
      ensures Settles(m, m)
    {
    }

    /** Requests that may bring a session into a room. */
    method HandleEntry(s: Session, action: HubModel.Action<RoomLoop?>)
      returns (reply: HubModel.Reply, ghost done: HubModel.Action<RoomLoop?>)
      requires Ready(s) && s.loggedIn && (action.Create? || action.JoinRoom? || action.BattleJoin?)
      modifies this`running, this`roomSessions, manager, registry, s`room, running, Players()
      ensures Valid() && HubModel.LoggedIn(old(View()), s.uid)
      ensures Fills(action, done) && !done.LeaveRoom? && !done.Report? && !done.Refit? && done.addr !in old(View()).rooms
      ensures HubModel.HubResult(View(), reply)
           == HubModel.ActionStep(manager.cfg.Normal(), manager.world, old(View()), s.uid, done)
    {
      hide View, Valid, RoomLoop.State, RoomLoop.Valid, Possible, Ready, HubModel.CreateStep, HubModel.JoinRoomStep, HubModel.BattleJoinStep;
      ghost var addr;
      match action {
        case Create(body, at, bonus, _) =>
          reply, addr := HandleRoomCreate(s, body, at, bonus);
          done := HubModel.Create(body, at, bonus, addr);
        case JoinRoom(body, at, bonus, _) =>
          reply, addr := HandleRoomJoin(s, body, at, bonus);
          done := HubModel.JoinRoom(body, at, bonus, addr);
        case BattleJoin(body, at, bonus, _) =>
          reply, addr := HandleBattleJoin(s, body, at, bonus);
          done := HubModel.BattleJoin(body, at, bonus, addr);
      }
    }

    /** Requests that concern the room a session is in. */
    method HandleInRoom(s: Session, action: HubModel.Action<RoomLoop?>) returns (ghost done: HubModel.Action<RoomLoop?>)
      requires Ready(s) && s.loggedIn && (action.LeaveRoom? || action.Report? || action.Refit?)
      modifies this`roomSessions, s`room, running, Players()
      ensures Valid() && HubModel.LoggedIn(old(View()), s.uid) && Fills(action, done)
      ensures HubModel.HubResult(View(), HubModel.Nothing)
           == HubModel.ActionStep(manager.cfg.Normal(), manager.world, old(View()), s.uid, done)
    {
      hide View, Valid, RoomLoop.State, RoomLoop.Valid, Possible, Settles, HubModel.Left, HubModel.ToOwnRoom;
      hide HubModel.ActionStep, HubModel.LoggedIn, Fills, Replayed;
      ghost var h := View();
      SeatedAs(s);
      if action.LeaveRoom? {
        LeaveIs(manager.cfg.Normal(), manager.world, h, s.uid);
        Leave(s);
        done := HubModel.LeaveRoom;
      } else {
        ghost var m := ToOwnRoom(s, Played(s.loginUid, action));
        PlayIs(manager.cfg.Normal(), manager.world, h, s.uid, action, m);
        done := Replayed(action, m);
      }
    }

    /** Whatever a logged-in session asks for. */
    method HandleAuthed(s: Session, action: HubModel.Action<RoomLoop?>)
      returns (reply: HubModel.Reply, ghost done: HubModel.Action<RoomLoop?>)
      requires Ready(s) && s.loggedIn
      modifies this`running, this`roomSessions, manager, registry, s`room, running, Players()
      ensures Valid() && HubModel.LoggedIn(old(View()), s.uid) && Fills(action, done)
      ensures HubModel.HubResult(View(), reply)
           == HubModel.ActionStep(manager.cfg.Normal(), manager.world, old(View()), s.uid, done)
      ensures !(action.BattleJoin? && old(s.room) != null) ==> Regular(old(View()), s.uid, done, reply)
    {
      hide View, Valid, RoomLoop.State, RoomLoop.Valid, Possible, HubInvariant.Agree, HubModel.ActionStep, HubModel.HubStep;
      hide HubModel.Sensible, HubModel.LoggedIn;
      ghost var h := View();
      SeatedAs(s);
      ghost var regular := s.room == null || !action.BattleJoin?;
      if action.Create? || action.JoinRoom? || action.BattleJoin? {
        reply, done := HandleEntry(s, action);
      } else {
        done := HandleInRoom(s, action);
        reply := HubModel.Nothing;
      }
      if regular {
        SensibleDo(h, s.uid, done);
        DoIs(manager.cfg.Normal(), manager.world, h, s.uid, done);
        StepAgrees(h, HubModel.Do(s.uid, done));
      }
    }

    /** The tables agree, and the hub has taken the step of that request. */
    ghost predicate Regular(h: State, sid: Uid, action: HubModel.Action<RoomLoop?>, reply: HubModel.Reply)
      reads this, manager, registry, sessions.Values, running, Players()
    {
      && Agreed() && HubModel.Sensible(h, HubModel.Do(sid, action))
      && HubModel.HubResult(View(), reply) == HubModel.HubStep(manager.cfg.Normal(), manager.world, h, HubModel.Do(sid, action))
    }

    // ----- Connections -----

    /** The next session id. */
    method AllocUid() returns (uid: Uid)
      requires Valid()
      modifies this`seqNo
      ensures Valid() && uid == HubModel.NextId(old(seqNo)) && View() == old(View()).(seqNo := uid)
    {
      hide RoomLoop.Valid, RoomLoop.State;
      ghost var h := View();
      seqNo := (seqNo as int + 1) % 0x1_0000_0000;
      uid := seqNo;
      forall t | t in running ensures t.State() == old(t.State()) && t.Valid() {
      }
      assert LiveRooms() == h.rooms;
    }

    /** The session of a new connection. */
    method Accept(uid: Uid) returns (s: Session)
      requires Valid()
      modifies this`sessions
      ensures Valid() && Open(s) && fresh(s) && s.uid == uid
      ensures View() == old(View()).(sessions := old(View()).sessions[uid := HubModel.Session(None, None)])
    {
      hide Online, Routes, RoomLoop.Valid, RoomLoop.State;
      ghost var h := View();
      s := new Session(uid);
      sessions := sessions[uid := s];
      forall t | t in running ensures t.State() == old(t.State()) && t.Valid() {
      }
      assert LiveRooms() == h.rooms;
      assert SessionViews() == h.sessions[uid := s.View()];
    }

    /** A new connection gets the next session id. */
    method Connect() returns (s: Session)
      requires Agreed() && HubModel.NextId(seqNo) !in sessions
      modifies this`seqNo, this`sessions
      ensures Agreed() && Open(s) && fresh(s) && s.uid == HubModel.NextId(old(seqNo))
      ensures View() == HubModel.HubStep(manager.cfg.Normal(), manager.world, old(View()), HubModel.Connect).hub
    {
      hide View, Valid, RoomLoop.Valid, RoomLoop.State, HubInvariant.Agree, HubModel.HubStep;
      NumbersKnown();
      ConnectIs(manager.cfg.Normal(), manager.world, View());
      StepAgrees(View(), HubModel.Connect);
      var uid := AllocUid();
      s := Accept(uid);
    }

    lemma NumbersKnown()
      ensures View().seqNo == seqNo && View().sessions.Keys == sessions.Keys
    {
    }

    method Identify(s: Session, account: Uid)
      requires Valid() && Open(s)
      modifies s`loginUid, s`loggedIn
      ensures Valid() && s.uid in old(View()).sessions
      ensures var h := old(View());
              View() == h.(sessions := h.sessions[s.uid := h.sessions[s.uid].(account := Some(account))])
    {
      hide Online, Routes, RoomLoop.Valid, RoomLoop.State;
      ghost var h := View();
      s.loginUid := account;
      s.loggedIn := true;
      forall t | t in running ensures t.State() == old(t.State()) && t.Valid() {
      }
      assert LiveRooms() == h.rooms;
      assert SessionViews() == h.sessions[s.uid := s.View()];
    }

    method PutOnline(s: Session, account: Uid)
      requires Valid()
      modifies this`online
      ensures Valid() && View() == old(View()).(online := old(View()).online[account := s.uid])
    {
      hide RoomLoop.Valid, RoomLoop.State;
      ghost var h := View();
      online := online[account := s];
      forall t | t in running ensures t.State() == old(t.State()) && t.Valid() {
      }
      assert LiveRooms() == h.rooms;
      assert Online() == h.online[account := s.uid];
    }

    /** A successful login or reconnection to an account: the session takes its identity, once. */
    method HandleLogin(s: Session, account: Uid) returns (reply: HubModel.Reply)
      requires Ready(s)
      modifies this`online, s`loginUid, s`loggedIn
      ensures Valid() && s.uid in old(View()).sessions
      ensures if old(s.loggedIn) then View() == old(View()) && reply == HubModel.BadInput
              else View() == HubModel.LoggedInAs(old(View()), s.uid, account) && reply == HubModel.Nothing
      ensures HubModel.Sensible(old(View()), HubModel.Login(s.uid, account)) ==>
                Agreed() && HubModel.HubResult(View(), reply)
                            == HubModel.HubStep(manager.cfg.Normal(), manager.world, old(View()), HubModel.Login(s.uid, account))
    {
      hide View, Valid, RoomLoop.Valid, RoomLoop.State, HubInvariant.Agree, HubModel.Sensible;
      OpenKnown(s);
      StepAgrees(View(), HubModel.Login(s.uid, account));
      if s.loggedIn {
        return HubModel.BadInput;
      }
      Identify(s, account);
      PutOnline(s, account);
      return HubModel.Nothing;
    }

    method PutOffline(account: Uid)
      requires Valid()
      modifies this`online
      ensures Valid() && View() == old(View()).(online := old(View()).online - {account})
    {
      hide RoomLoop.Valid, RoomLoop.State;
      ghost var h := View();
      online := online - {account};
      forall t | t in running ensures t.State() == old(t.State()) && t.Valid() {
      }
      assert LiveRooms() == h.rooms;
      assert Online() == h.online - {account};
    }

    ghost method Forget(s: Session)
      requires Valid()
      modifies this`sessions
      ensures Valid() && View() == old(View()).(sessions := old(View()).sessions - {s.uid})
    {
      hide RoomLoop.Valid, RoomLoop.State;
      ghost var h := View();
      sessions := sessions - {s.uid};
      forall t | t in running ensures t.State() == old(t.State()) && t.Valid() {
      }
      assert LiveRooms() == h.rooms;
      assert SessionViews() == h.sessions - {s.uid};
    }

    /** A closed connection leaves its player in the room, offline. */
    method OnDisconnect(s: Session)
      requires Ready(s)
      modifies this`roomSessions, this`online, this`sessions, s`room, running, Players()
      ensures Agreed()
      ensures View() == HubModel.HubStep(manager.cfg.Normal(), manager.world, old(View()), HubModel.Disconnect(s.uid)).hub
    {
      hide View, Valid, RoomLoop.Valid, RoomLoop.State, HubInvariant.Agree, HubModel.HubStep, Departed;
      OpenKnown(s);
      if s.room != null { RoomKnown(s); }
      StepAgrees(View(), HubModel.Disconnect(s.uid));
      DisconnectIs(manager.cfg.Normal(), manager.world, View(), s.uid);
      if s.room != null {
        Depart(s, RoomModel.Online(s.loginUid, false));
      }
      if s.loggedIn {
        PutOffline(s.loginUid);
      }
      Forget(s);
    }

    // ----- The life of a room -----

    /** A cleanup has been started. */
    ghost method Schedule(r: RoomLoop)
      requires Valid()
      modifies this`pending
      ensures Valid() && View() == old(View()).(pending := old(View()).pending + multiset{r})
    {
      hide RoomLoop.Valid, RoomLoop.State;
      ghost var h := View();
      pending := pending + multiset{r};
      forall t | t in running ensures t.State() == old(t.State()) && t.Valid() {
      }
      assert LiveRooms() == h.rooms;
    }

    /** One tick of a room; if it finds the room empty for the first time, a cleanup is started. */
    method RoomTick(r: RoomLoop, spawn: Uid -> Vec)
      requires Agreed() && r in running
      modifies this`pending, running, Players()
      ensures Agreed()
      ensures View() == HubModel.HubStep(manager.cfg.Normal(), manager.world, old(View()), HubModel.RoomTick(r, spawn)).hub
    {
      hide View, Valid, RoomLoop.Valid, RoomLoop.State, Possible, Step, HubInvariant.Agree, HubModel.HubStep, HubModel.Sent;
      RunningKnown(r);
      RoomTickIs(manager.cfg.Normal(), manager.world, View(), r, spawn);
      StepAgrees(View(), HubModel.RoomTick(r, spawn));
      ghost var done, full;
      var notified;
      done, notified, full := Send(r, Tick(spawn));
      if notified {
        Schedule(r);
      }
    }

    method CloseTable(r: RoomLoop)
      requires Valid()
      modifies this`roomSessions
      ensures Valid() && View() == old(View()).(routes := old(View()).routes - {r})
    {
      hide RoomLoop.Valid, RoomLoop.State;
      ghost var h := View();
      roomSessions := roomSessions - {r};
      forall t | t in running ensures t.State() == old(t.State()) && t.Valid() {
      }
      assert LiveRooms() == h.rooms;
      assert Routes() == h.routes - {r};
    }

    method Unmanage(name: Text)
      requires Valid()
      modifies manager
      ensures Valid() && View() == old(View()).(manager := old(View()).manager - {name})
    {
      hide RoomLoop.Valid, RoomLoop.State;
      ghost var h := View();
      manager.DestroyRoom(name);
      forall t | t in running ensures t.State() == old(t.State()) && t.Valid() {
      }
      assert LiveRooms() == h.rooms;
    }

    /** The loop of a room is stopped. */
    ghost method Stop(r: RoomLoop)
      requires Valid()
      modifies this`running
      ensures Valid() && View() == old(View()).(rooms := old(View()).rooms - {r})
    {
      hide RoomLoop.Valid, RoomLoop.State;
      ghost var h := View();
      running := running - {r};
      assert LiveRooms() == h.rooms - {r};
    }

    /** Who is in a room. */
    method Snapshot(r: RoomLoop) returns (states: map<Uid, Snapshot>)
      requires Valid() && r in running
      ensures Valid() && View() == old(View()) && states.Keys == View().rooms[r].state.fighters.Keys
    {
      RunningKnown(r);
      ServesNow(r);
      hide RoomLoop.Valid, RoomLoop.State;
      ghost var h := View();
      states := r.CollectStates();
      forall t | t in running ensures t.State() == old(t.State()) && t.Valid() {
      }
      assert LiveRooms() == h.rooms;
    }

    ghost method Unschedule(r: RoomLoop)
      requires Valid()
      modifies this`pending
      ensures Valid() && View() == old(View()).(pending := old(View()).pending - multiset{r})
    {
      hide RoomLoop.Valid, RoomLoop.State;
      ghost var h := View();
      pending := pending - multiset{r};
      forall t | t in running ensures t.State() == old(t.State()) && t.Valid() {
      }
      assert LiveRooms() == h.rooms;
    }

    /** Carries out a cleanup: unless somebody has come back, the room is taken out of every table. A cleanup of a room
        that was stopped in the meantime waits forever for its snapshot and never gets here. */
    method Cleanup(r: RoomLoop)
      requires Agreed() && r in running && r in View().pending
      modifies this`pending, this`roomSessions, this`running, manager, registry
      ensures Agreed()
      ensures View() == HubModel.HubStep(manager.cfg.Normal(), manager.world, old(View()), HubModel.Cleanup(r)).hub
    {
      hide View, Valid, RoomLoop.Valid, RoomLoop.State, HubInvariant.Agree, HubModel.HubStep;
      RunningKnown(r);
      ServesNow(r);
      CleanupIs(manager.cfg.Normal(), manager.world, View(), r);
      StepAgrees(View(), HubModel.Cleanup(r));
      Unschedule(r);
      var states := Snapshot(r);
      if states.Keys != {} {
        return;
      }
      CloseTable(r);
      Delist(r.id);
      Unmanage(r.id);
      Stop(r);
    }

    lemma ServesNow(r: RoomLoop)
      requires Valid() && r in running
      ensures r.Valid() && View().rooms[r].name == r.id
    {
      hide RoomLoop.Valid, RoomLoop.State;
    }

    // ----- The lobby's list -----

    /** The number of sessions in the room of that name. */
    function Seated(name: Text): nat
      reads this`roomSessions, manager
    {
      if name in manager.rooms && manager.rooms[name] in roomSessions then |roomSessions[manager.rooms[name]]| else 0
    }

    lemma SeatedIs(name: Text)
      ensures Seated(name) == HubProofs.Advertised(View(), name)
    {
      if name in manager.rooms && manager.rooms[name] in roomSessions {
        var seats := roomSessions[manager.rooms[name]];
        assert |seats| == |seats.Keys|;
      }
    }

    /** The body of the room list: every listed room once, with the number of its sessions. */
    method BuildRoomListBody(nickname: Uid -> Text) returns (body: seq<Byte>, ghost names: seq<Text>)
      requires Valid()
      ensures Enumerates(names, old(View()).metas.Keys)
      ensures body == RoomListBytes(HubProofs.Listing(old(View()), nickname, names))
    {
      hide Valid, Rooms, LiveRooms, SessionViews, Online, Routes;
      ghost var h := View();
      forall name ensures Seated(name) == HubProofs.Advertised(h, name) {
        SeatedIs(name);
      }
      var order := registry.List();
      names := order;
      var infos := [];
      for i := 0 to |order|
        invariant |infos| == i
        invariant forall j :: 0 <= j < i ==> infos[j] == HubProofs.Listing(h, nickname, names)[j]
      {
        assert order[i] in registry.metas;
        var meta := registry.metas[order[i]];
        infos := infos + [RoomInfo(order[i], nickname(meta.creator), meta.note, Seated(order[i]), 8)];
      }
      assert infos == HubProofs.Listing(h, nickname, names);
      body := EncodeRoomList(infos);
    }
  }

  lemma RoomTickIs(cfg: Config, w: World, h: State, r: RoomLoop, spawn: Uid -> Vec)
    requires r in h.rooms
    ensures var sent := HubModel.Sent(cfg, w, h, r, Tick(spawn));
            HubModel.HubStep(cfg, w, h, HubModel.RoomTick(r, spawn)).hub
            == sent.(pending := if Step(cfg, w, h.rooms[r].state, Tick(spawn)).out.emptiedNow then h.pending + multiset{r} else h.pending)
  {
    hide Step;
  }

  lemma CleanupIs(cfg: Config, w: World, h: State, r: RoomLoop)
    requires HubInvariant.Agree(cfg, h) && r in h.rooms && r in h.pending
    ensures var spent := h.(pending := h.pending - multiset{r});
            HubModel.HubStep(cfg, w, h, HubModel.Cleanup(r)).hub
            == if h.rooms[r].state.fighters.Keys != {} then spent else HubInvariant.Removed(spent, r)
  {
    hide HubInvariant.Agree, HubInvariant.Removed;
    if h.rooms[r].state.fighters.Keys == {} {
      HubInvariant.CleanupRemoves(cfg, h, r);
      hide HubModel.CleanedUp;
    }
  }

  lemma DisconnectIs(cfg: Config, w: World, h: State, sid: Uid)
    requires sid in h.sessions && (h.sessions[sid].room.Some? ==> h.sessions[sid].account.Some?)
    ensures var s := h.sessions[sid];
            var out := if s.room.None? then h else Departed(cfg, w, h, sid, s.room.value, RoomModel.Online(s.account.value, false));
            HubModel.HubStep(cfg, w, h, HubModel.Disconnect(sid)).hub
            == out.(sessions := out.sessions - {sid}, online := if s.account.Some? then out.online - {s.account.value} else out.online)
  {
    hide Step;
  }

  lemma ConnectIs(cfg: Config, w: World, h: State)
    requires HubModel.NextId(h.seqNo) !in h.sessions
    ensures HubModel.HubStep(cfg, w, h, HubModel.Connect).hub == HubModel.Connected(h, HubModel.NextId(h.seqNo))
  {
    hide HubModel.Connected;
  }

  /** The hub after a session has left its room, whose loop has handled the message. */
  ghost function Departed(cfg: Config, w: World, h: State, sid: Uid, r: RoomLoop?, m: Msg): State
  {
    if sid in h.sessions then HubModel.Unrouted(HubModel.Sent(cfg, w, h, r, m), sid, r) else h
  }

  /** The tables may be changed in any order. */
  lemma DepartIs(cfg: Config, w: World, h: State, sid: Uid, r: RoomLoop, m: Msg)
    requires sid in h.sessions
    ensures var seated := h.(sessions := h.sessions[sid := h.sessions[sid].(room := None)]);
            var sent := HubModel.Sent(cfg, w, seated, r, m);
            Departed(cfg, w, h, sid, r, m)
            == sent.(routes := if r in sent.routes then sent.routes[r := sent.routes[r] - {sid}] else sent.routes)
  {
    hide Step;
  }

  lemma BattleJoinIs(cfg: Config, w: World, h: State, sid: Uid, body: seq<Byte>, at: Vec, bonus: Option<real>, addr: RoomLoop?)
    requires HubModel.LoggedIn(h, sid)
    ensures HubModel.BattleJoinStep(cfg, w, h, sid, body, at, bonus, addr) ==
            if body == [] then HubModel.HubResult(h, HubModel.BadInput)
            else if body in h.metas then HubModel.Enter(cfg, w, h, sid, body, at, bonus, addr)
            else HubModel.Enter(cfg, w, h.(metas := h.metas[body := HubModel.Meta(h.sessions[sid].account.value, [])]),
                                sid, body, at, bonus, addr)
  {
    hide HubModel.Enter;
  }

  lemma LeaveIs(cfg: Config, w: World, h: State, sid: Uid)
    requires HubModel.LoggedIn(h, sid)
    ensures HubModel.ActionStep(cfg, w, h, sid, HubModel.LeaveRoom) == HubModel.HubResult(HubModel.Left(cfg, w, h, sid), HubModel.Nothing)
    ensures Fills(HubModel.LeaveRoom, HubModel.LeaveRoom)
  {
    hide HubModel.Left;
  }

  lemma PlayIs(cfg: Config, w: World, h: State, sid: Uid, action: HubModel.Action<RoomLoop?>, m: Msg)
    requires HubModel.LoggedIn(h, sid) && (action.Report? || action.Refit?)
    requires Settles(Played(h.sessions[sid].account.value, action), m)
    ensures HubModel.ActionStep(cfg, w, h, sid, Replayed(action, m)) == HubModel.HubResult(HubModel.ToOwnRoom(cfg, w, h, sid, m), HubModel.Nothing)
    ensures Fills(action, Replayed(action, m))
  {
    hide HubModel.ToOwnRoom;
  }

  /** The message to the room behind a request of somebody in it. */
  function Played(u: Uid, action: HubModel.Action<RoomLoop?>): Msg
    requires action.Report? || action.Refit?
  {
    if action.Report? then Input(u, action.report, action.order, action.lockOrder) else Equip(u, action.boost)
  }

  ghost function Replayed(action: HubModel.Action<RoomLoop?>, m: Msg): HubModel.Action<RoomLoop?>
  {
    if m.Input? then HubModel.Report(m.report, m.order, m.lockOrder) else action
  }

  lemma SensibleDo(h: State, sid: Uid, action: HubModel.Action<RoomLoop?>)
    requires action.Create? || action.JoinRoom? || action.BattleJoin? ==> action.addr !in h.rooms
    requires action.BattleJoin? && sid in h.sessions ==> h.sessions[sid].room == None
    ensures HubModel.Sensible(h, HubModel.Do(sid, action))
  {
  }

  lemma DoIs(cfg: Config, w: World, h: State, sid: Uid, action: HubModel.Action<RoomLoop?>)
    requires HubModel.LoggedIn(h, sid) && HubModel.Sensible(h, HubModel.Do(sid, action))
    ensures HubModel.HubStep(cfg, w, h, HubModel.Do(sid, action)) == HubModel.ActionStep(cfg, w, h, sid, action)
  {
    hide HubModel.ActionStep;
  }

  /** The same request, with the address of a new room and the visiting orders filled in. */
  ghost predicate Fills(action: HubModel.Action<RoomLoop?>, done: HubModel.Action<RoomLoop?>)
  {
    match action
    case Create(body, at, bonus, _) => done.Create? && done == HubModel.Create(body, at, bonus, done.addr)
    case JoinRoom(body, at, bonus, _) => done.JoinRoom? && done == HubModel.JoinRoom(body, at, bonus, done.addr)
    case BattleJoin(body, at, bonus, _) => done.BattleJoin? && done == HubModel.BattleJoin(body, at, bonus, done.addr)
    case Report(report, _, _) => done.Report? && done.report == report
    case _ => done == action
  }

  lemma FullChangesNothing(cfg: Config, w: World, s: Room, u: Uid, at: Vec)
    ensures var r := Step(cfg, w, s, RoomModel.Join(u, at)); r.out.full ==> r.state == s
  {
  }
}
