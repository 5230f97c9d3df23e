/** What the agreement of the hub's tables means for its users, over every run: who is where, what the lobby advertises,
    that nobody's room disappears, and that abandoned rooms do. */
module HubProofs {
  import opened Base
  import opened Bytes
  import opened Geometry
  import opened Combat
  import opened RoomModel
  import opened RoomInvariant
  import opened RoomReconnect
  import opened LobbyWire
  import opened HubModel
  import opened HubInvariant

  // ----- Who is where -----

  ghost predicate HasAccount<H>(h: HubState<H>, sid: Uid, u: Uid) { sid in h.sessions && h.sessions[sid].account == Some(u) }

  /** On every run a session points at a room exactly when the room's table lists the session; such a room is running and
      has not been destroyed; the online players of a room are exactly the accounts of its sessions; and there are as many
      of the ones as of the others, at most eight. */
  lemma HubAgreement<H>(cfg: Config, w: World, ms: seq<HubMsg<H>>)
    requires cfg.Valid()
    ensures var h := HubRun(cfg, w, NewHub(), ms);
            && (forall sid :: sid in h.sessions && h.sessions[sid].room.Some? ==>
                  var r := h.sessions[sid].room.value;
                  r in h.rooms && r in h.routes && sid in h.routes[r])
            && (forall r :: r in h.routes ==>
                  && r in h.rooms
                  && (forall sid :: sid in h.routes[r] ==> sid in h.sessions && h.sessions[sid].room == Some(r))
                  && (forall u :: u in OnlineOf(h.rooms[r].state.links) <==> exists sid :: sid in h.routes[r] && HasAccount(h, sid, u))
                  && |h.routes[r]| == |OnlineOf(h.rooms[r].state.links)| <= cfg.maxPlayers <= 8)
  {
    hide OnlineOf, InService, Core, HubRun;
    var h := HubRun(cfg, w, NewHub(), ms);
    NewHubAgrees<H>(cfg);
    HubRunAgrees(cfg, w, NewHub(), ms);
    SeatedAreListed(cfg, h);
    forall r | r in h.routes
      ensures (forall u :: u in OnlineOf(h.rooms[r].state.links) <==> exists sid :: sid in h.routes[r] && HasAccount(h, sid, u))
      ensures |h.routes[r]| == |OnlineOf(h.rooms[r].state.links)| <= cfg.maxPlayers
    {
      OnlineAreSeated(cfg, h, r);
      SeatsCounted(cfg, h, r);
    }
  }

  lemma SeatedAreListed<H>(cfg: Config, h: HubState<H>)
    requires Core(cfg, h)
    ensures forall sid :: sid in h.sessions && h.sessions[sid].room.Some? ==>
              var r := h.sessions[sid].room.value;
              r in h.rooms && r in h.routes && sid in h.routes[r]
    ensures forall r :: r in h.routes ==>
              r in h.rooms && forall sid :: sid in h.routes[r] ==> sid in h.sessions && h.sessions[sid].room == Some(r)
  {
    hide OnlineOf, InService;
  }

  lemma OnlineAreSeated<H>(cfg: Config, h: HubState<H>, r: H)
    requires Core(cfg, h) && r in h.routes
    ensures forall u :: u in OnlineOf(h.rooms[r].state.links) <==> exists sid :: sid in h.routes[r] && HasAccount(h, sid, u)
  {
    assert RoomAgrees(cfg, h, r);
    forall u ensures u in AccountsIn(h.sessions, h.online, r) <==> exists sid :: sid in h.routes[r] && HasAccount(h, sid, u) {
      if u in AccountsIn(h.sessions, h.online, r) {
        assert h.online[u] in h.routes[r] && HasAccount(h, h.online[u], u);
      }
    }
  }

  /** The sessions of a room and the online players of it correspond one to one. */
  lemma SeatsCounted<H>(cfg: Config, h: HubState<H>, r: H)
    requires Core(cfg, h) && r in h.routes
    ensures |h.routes[r]| == |OnlineOf(h.rooms[r].state.links)| <= cfg.maxPlayers <= 8
  {
    hide FighterGood, LinkGood, OnlineOf;
    assert RoomAgrees(cfg, h, r);
    var us := AccountsIn(h.sessions, h.online, r);
    forall sid | sid in h.routes[r] ensures HasAccountIn(h, us, sid) {
    }
    SameSize(h, us, h.routes[r]);
    OnlineAreFew(h.rooms[r].state.links);
  }

  lemma OnlineAreFew(links: Links)
    ensures |OnlineOf(links)| <= |links|
  {
    var offline := links.Keys - OnlineOf(links);
    assert links.Keys == OnlineOf(links) + offline && |links.Keys| == |OnlineOf(links)| + |offline|;
    assert |links| == |links.Keys|;
  }

  ghost predicate HasAccountIn<H>(h: HubState<H>, us: set<Uid>, sid: Uid)
  {
    sid in h.sessions && h.sessions[sid].account.Some? && h.sessions[sid].account.value in us
  }

  lemma {:induction false} SameSize<H>(h: HubState<H>, us: set<Uid>, sids: set<Uid>)
    requires OnlineAgrees(h)
    requires forall u :: u in us ==> u in h.online && h.online[u] in sids
    requires forall sid :: sid in sids ==> HasAccountIn(h, us, sid)
    ensures |us| == |sids|
    decreases us
  {
    if us == {} {
      if sid :| sid in sids {
        assert false;
      }
    } else {
      var u :| u in us;
      var sid := h.online[u];
      forall t | t in sids - {sid} ensures HasAccountIn(h, us - {u}, t) {
        assert HasAccountIn(h, us, t);
      }
      SameSize(h, us - {u}, sids - {sid});
    }
  }

  /** The lobby's list, the manager's rooms and the session tables always name the same rooms, each under its own name. */
  lemma TablesInStep<H>(cfg: Config, w: World, ms: seq<HubMsg<H>>)
    requires cfg.Valid()
    ensures var h := HubRun(cfg, w, NewHub(), ms);
            && h.metas.Keys == h.manager.Keys && h.routes.Keys == h.rooms.Keys
            && (forall r :: r in h.rooms <==> exists n :: n in h.manager && h.manager[n] == r)
            && (forall n :: n in h.manager ==> h.manager[n] in h.rooms && h.rooms[h.manager[n]].name == n)
            && (forall n, n' :: n in h.manager && n' in h.manager && h.manager[n] == h.manager[n'] ==> n == n')
  {
    var h := HubRun(cfg, w, NewHub(), ms);
    NewHubAgrees<H>(cfg);
    HubRunAgrees(cfg, w, NewHub(), ms);
    hide HubRun, PlayersAgree;
    forall r | r in h.rooms ensures exists n :: n in h.manager && h.manager[n] == r {
      assert h.manager[h.rooms[r].name] == r;
    }
  }

  /** Creating a room never runs into a full one: at this granularity the failure branch is dead. */
  lemma CreateIsNeverRefusedAsFull<H>(cfg: Config, w: World, ms: seq<HubMsg<H>>, m: HubMsg<H>)
    requires cfg.Valid() && m.Do? && m.action.Create?
    ensures HubStep(cfg, w, HubRun(cfg, w, NewHub(), ms), m).reply != RoomFull
  {
    var h := HubRun(cfg, w, NewHub(), ms);
    NewHubAgrees<H>(cfg);
    HubRunAgrees(cfg, w, NewHub(), ms);
    hide HubRun, Agree, CreateStep;
    if Sensible(h, m) && LoggedIn(h, m.sid) {
      CreateKeeps(cfg, w, h, m.sid, m.action.body, m.action.at, m.action.bonus, m.action.addr);
    }
  }

  // ----- The lobby's list -----

  /** The number of players shown for a listed room. */
  function Advertised<H>(h: HubState<H>, name: Text): nat
  {
    if name in h.manager && h.manager[name] in h.routes then |h.routes[h.manager[name]]| else 0
  }

  /** Every listed room shows the number of its online players, which fits the byte it is sent in. */
  lemma AdvertisedIsOnline<H>(cfg: Config, w: World, ms: seq<HubMsg<H>>, name: Text)
    requires cfg.Valid() && name in HubRun(cfg, w, NewHub(), ms).metas
    ensures var h := HubRun(cfg, w, NewHub(), ms);
            && name in h.manager && h.manager[name] in h.rooms
            && Advertised(h, name) == |OnlineOf(h.rooms[h.manager[name]].state.links)| <= 8
  {
    var h := HubRun(cfg, w, NewHub(), ms);
    NewHubAgrees<H>(cfg);
    HubRunAgrees(cfg, w, NewHub(), ms);
    SeatsCounted(cfg, h, h.manager[name]);
  }

  /** The lobby's list as it is sent, given the order of the rooms and the nicknames of their creators. */
  function Listing<H>(h: HubState<H>, nickname: Uid -> Text, names: seq<Text>): (list: seq<RoomInfo>)
    requires forall n :: n in names ==> n in h.metas
    ensures |list| == |names|
  {
    seq(|names|, i requires 0 <= i < |names| =>
      RoomInfo(names[i], nickname(h.metas[names[i]].creator), h.metas[names[i]].note, Advertised(h, names[i]), 8))
  }

  predicate TextsFit<H>(h: HubState<H>, nickname: Uid -> Text, name: Text)
    requires name in h.metas
  {
    Short(name) && Short(nickname(h.metas[name].creator)) && Short(h.metas[name].note)
  }

  /** The lobby's list reaches the clients as it is exactly when it has at most 255 rooms and every text fits its length
      field; the player counts always fit. */
  lemma LobbyListSurvives<H>(cfg: Config, w: World, ms: seq<HubMsg<H>>, nickname: Uid -> Text, names: seq<Text>)
    requires cfg.Valid() && Enumerates(names, HubRun(cfg, w, NewHub(), ms).metas.Keys)
    ensures var h := HubRun(cfg, w, NewHub(), ms);
            var list := Listing(h, nickname, names);
            RoomListOf(RoomListBytes(list)) == Some(list)
            <==> |h.metas| < 0x100 && forall n :: n in h.metas ==> TextsFit(h, nickname, n)
  {
    hide HubRun, RoomListOf, RoomListBytes, Short, OnlineOf;
    var h := HubRun(cfg, w, NewHub(), ms);
    var list := Listing(h, nickname, names);
    EnumerationLength(names, h.metas.Keys);
    assert |h.metas| == |h.metas.Keys|;
    RoomListExactly(list);
    forall i | 0 <= i < |list| ensures RoomFits(list[i]) <==> TextsFit(h, nickname, names[i]) {
      assert names[i] in h.metas;
      AdvertisedIsOnline(cfg, w, ms, names[i]);
    }
    if forall r :: r in list ==> RoomFits(r) {
      forall n | n in h.metas ensures TextsFit(h, nickname, n) {
        var i :| 0 <= i < |names| && names[i] == n;
        assert list[i] in list;
      }
    }
  }

  // ----- Session ids and identities -----

  ghost predicate IsConnect<H>(m: HubMsg<H>) { m.Connect? }

  ghost function Connects<H>(ms: seq<HubMsg<H>>): nat
  {
    if ms == [] then 0 else Connects(ms[..|ms| - 1]) + if IsConnect(ms[|ms| - 1]) then 1 else 0
  }

  /** The same sessions are open, under the same accounts. */
  ghost predicate SameAccounts<H>(h: HubState<H>, h': HubState<H>)
  {
    h'.seqNo == h.seqNo && h'.sessions.Keys == h.sessions.Keys
    && forall sid :: sid in h.sessions ==> h'.sessions[sid].account == h.sessions[sid].account
  }

  lemma EnterKeepsAccounts<H>(cfg: Config, w: World, h: HubState<H>, sid: Uid, name: Text, at: Vec, bonus: Option<real>, addr: H)
    requires LoggedIn(h, sid)
    ensures SameAccounts(h, Enter(cfg, w, h, sid, name, at, bonus, addr).hub)
  {
    hide Step, Sent, Wired, Opened;
  }

  lemma ActionKeepsAccounts<H>(cfg: Config, w: World, h: HubState<H>, sid: Uid, action: Action<H>)
    requires LoggedIn(h, sid)
    ensures SameAccounts(h, ActionStep(cfg, w, h, sid, action).hub)
  {
    hide Step, DecodeRoomOp, Enter, Sent;
    match action {
      case Create(body, at, bonus, addr) =>
        var op := DecodeRoomOp(body);
        if op.Some? {
          var metas := h.metas[op.value.name := Meta(h.sessions[sid].account.value, op.value.note)];
          EnterKeepsAccounts(cfg, w, h.(metas := metas), sid, op.value.name, at, bonus, addr);
        }
      case JoinRoom(body, at, bonus, addr) =>
        var op := DecodeRoomOp(body);
        if op.Some? { EnterKeepsAccounts(cfg, w, h, sid, op.value.name, at, bonus, addr); }
      case BattleJoin(body, at, bonus, addr) =>
        var listed := if body in h.metas then h else h.(metas := h.metas[body := Meta(h.sessions[sid].account.value, [])]);
        EnterKeepsAccounts(cfg, w, listed, sid, body, at, bonus, addr);
      case LeaveRoom =>
      case Report(_, _, _) =>
      case Refit(_) =>
    }
  }

  lemma OpenSessions<H>(cfg: Config, w: World, h: HubState<H>, m: HubMsg<H>)
    ensures var h' := HubStep(cfg, w, h, m).hub;
            if IsConnect(m) && Sensible(h, m) then h'.seqNo == NextId(h.seqNo) && h'.sessions.Keys == h.sessions.Keys + {h'.seqNo}
            else h'.seqNo == h.seqNo && h'.sessions.Keys <= h.sessions.Keys
  {
    hide Step, ActionStep, Sent;
    if m.Do? && LoggedIn(h, m.sid) { ActionKeepsAccounts(cfg, w, h, m.sid, m.action); }
  }

  ghost predicate Numbered<H>(h: HubState<H>, n: nat)
  {
    h.seqNo == n && forall sid :: sid in h.sessions ==> 1 <= sid <= n
  }

  lemma NumberedStep<H>(cfg: Config, w: World, h: HubState<H>, m: HubMsg<H>, n: nat)
    requires Numbered(h, n) && n < 0xFFFF_FFFF
    ensures NextId(h.seqNo) !in h.sessions
    ensures Numbered(HubStep(cfg, w, h, m).hub, if IsConnect(m) then n + 1 else n)
  {
    OpenSessions(cfg, w, h, m);
    assert NextId(h.seqNo) == n + 1;
    assert IsConnect(m) ==> Sensible(h, m);
    hide HubStep;
  }

  /** As long as fewer than 2^32 - 1 connections have been made, session ids count them and the next one is new. */
  lemma {:induction false} IdsAreFresh<H>(cfg: Config, w: World, ms: seq<HubMsg<H>>)
    requires Connects(ms) < 0xFFFF_FFFF
    ensures var h := HubRun(cfg, w, NewHub(), ms);
            Numbered(h, Connects(ms)) && NextId(h.seqNo) !in h.sessions
  {
    hide HubStep, IsConnect, Sensible;
    if ms != [] {
      var init, m := ms[..|ms| - 1], ms[|ms| - 1];
      IdsAreFresh(cfg, w, init);
      NumberedStep(cfg, w, HubRun(cfg, w, NewHub(), init), m, Connects(init));
    }
  }

  /** One step never changes the account of a session that stays open. */
  lemma LatchedStep<H>(cfg: Config, w: World, h: HubState<H>, m: HubMsg<H>, sid: Uid)
    requires sid in h.sessions && h.sessions[sid].account.Some?
    ensures var h' := HubStep(cfg, w, h, m).hub;
            sid in h'.sessions ==> h'.sessions[sid].account == h.sessions[sid].account
  {
    hide Step, ActionStep, Sent;
    if m.Do? && LoggedIn(h, m.sid) { ActionKeepsAccounts(cfg, w, h, m.sid, m.action); }
  }

  /** A session logged in once keeps its account for as long as it is open, whatever it asks for. */
  lemma {:induction false} IdentityIsLatched<H>(cfg: Config, w: World, h: HubState<H>, ms: seq<HubMsg<H>>, sid: Uid)
    requires forall i :: 0 <= i <= |ms| ==> sid in HubRun(cfg, w, h, ms[..i]).sessions
    requires sid in h.sessions && h.sessions[sid].account.Some?
    ensures sid in HubRun(cfg, w, h, ms).sessions && HubRun(cfg, w, h, ms).sessions[sid].account == h.sessions[sid].account
  {
    assert ms[..|ms|] == ms;
    if ms != [] {
      var init := ms[..|ms| - 1];
      forall i | 0 <= i <= |init| ensures sid in HubRun(cfg, w, h, init[..i]).sessions {
        assert init[..i] == ms[..i];
      }
      IdentityIsLatched(cfg, w, h, init, sid);
      LatchedStep(cfg, w, HubRun(cfg, w, h, init), ms[|ms| - 1], sid);
    }
  }
}
