/** The single-writer loop of internal/room/room.go as a step function on values.
    One message is one step: a tick, an input report, a join, a leave, an equipment change, an
    online mark, or one of the registrations and queries that share the loop. */
module RoomModel {
  import opened Base
  import opened Geometry
  import opened Combat
  import opened Validation

  const BASE_BLOCK_MAX: real := 100.0

  datatype Config = Config(maxPlayers: int, settleScore: int, settleTicks: int, graceTicks: int) {
    /** What NewRoom makes of a configuration. */
    function Normal(): (c: Config)
      ensures c.Valid() && c.settleScore == settleScore && c.settleTicks == settleTicks
      ensures if 1 <= maxPlayers <= 8 then c.maxPlayers == maxPlayers else c.maxPlayers == 8
      ensures if graceTicks >= 1 then c.graceTicks == graceTicks else c.graceTicks == 900
    {
      this.(maxPlayers := if maxPlayers <= 0 || maxPlayers > 8 then 8 else maxPlayers,
            graceTicks := if graceTicks <= 0 then 900 else graceTicks)
    }

    predicate Valid() { 1 <= maxPlayers <= 8 && graceTicks >= 1 }
  }

  /** Connection state of a player: offline players are kept for a grace period. */
  datatype Link = Link(online: bool, offlineTicks: nat)

  type Links = map<Uid, Link>

  datatype RoomState = RoomState(
    fighters: Fighters, links: Links, tick: int, pending: seq<HitEvent>, settled: bool,
    emptied: bool, hadPlayers: bool, broadcasting: bool, notifying: bool)
  {
    predicate Valid() { fighters.Keys == links.Keys }
  }

  /** The two maps of a value are the two halves of one player table. */
  type Room = s: RoomState | s.Valid() witness RoomState(map[], map[], 0, [], false, false, false, false, false)

  const NEW_ROOM: Room := RoomState(map[], map[], 0, [], false, false, false, false, false)

  datatype Snapshot = Snapshot(pos: Vec, yaw: real, hp: nat, weapon: Byte, alt: Byte, block: real,
                               anim: Byte, score: nat, deaths: nat)

  /** Scores and deaths are sent as 16-bit numbers. */
  function SnapshotOf(f: Fighter): Snapshot
  {
    Snapshot(f.pos, f.yaw, f.hp, f.weapon, f.alt, f.block, f.anim, f.score % 0x1_0000, f.deaths % 0x1_0000)
  }

  /** Everybody's snapshot, as one state broadcast carries it. */
  function Snapshots(fs: Fighters): map<Uid, Snapshot> { map u | u in fs :: SnapshotOf(fs[u]) }

  /** Everybody's score, as the settlement carries it. */
  function FinalScores(fs: Fighters): map<Uid, nat> { map u | u in fs :: fs[u].score % 0x1_0000 }

  datatype Broadcast =
    | StateMsg(players: map<Uid, Snapshot>)
    | HitMsg(ev: HitEvent)
    | DeathMsg(ev: HitEvent)
    | SettleMsg(scores: map<Uid, nat>)

  /** Messages to the loop. `spawn` answers the random choice of a spawn point; `order` and
      `lockOrder` are the orders in which the player map is visited by the main attack and the lock. */
  datatype Msg =
    | Tick(spawn: Uid -> Vec)
    | Input(uid: Uid, report: InputReport, order: seq<Uid>, lockOrder: seq<Uid>)
    | Join(uid: Uid, at: Vec)
    | Leave(uid: Uid)
    | Equip(uid: Uid, bonus: real)
    | Online(uid: Uid, online: bool)
    | SetBroadcast
    | SetOnEmpty
    | Drain
    | Peek

  datatype Out = Out(strikes: seq<Strike>, sent: seq<Broadcast>, drained: seq<HitEvent>,
                     respawned: set<Uid>, emptiedNow: bool, full: bool)

  const SILENT: Out := Out([], [], [], {}, false, false)

  datatype Result = Result(state: Room, out: Out)

  /** A visiting order names every player of the room exactly once; a message with any other order cannot occur. */
  ghost predicate Possible(s: Room, m: Msg)
  {
    m.Input? ==> Enumerates(m.order, s.fighters.Keys) && Enumerates(m.lockOrder, s.fighters.Keys)
  }

  ghost function Step(cfg: Config, w: World, s: Room, m: Msg): Result
  {
    if !Possible(s, m) then Result(s, SILENT)
    else
      match m
      case Tick(spawn) => TickStep(cfg, s, spawn)
      case Input(u, report, order, lockOrder) => InputStep(w, s, u, report, order, lockOrder)
      case Join(u, at) => JoinStep(cfg, s, u, at)
      case Leave(u) => Result(s.(fighters := s.fighters - {u}, links := s.links - {u}), SILENT)
      case Equip(u, bonus) => Result(Equipped(s, u, bonus), SILENT)
      case Online(u, online) => Result(if u in s.links then s.(links := s.links[u := Link(online, 0)]) else s, SILENT)
      case SetBroadcast => Result(s.(broadcasting := true), SILENT)
      case SetOnEmpty => Result(s.(notifying := true), SILENT)
      case Drain => Result(s.(pending := []), SILENT.(drained := s.pending))
      case Peek => Result(s, SILENT)
  }

  // ----- Input -----

  ghost function InputStep(w: World, s: Room, u: Uid, report: InputReport, order: seq<Uid>, lockOrder: seq<Uid>): Result
  {
    if u !in s.fighters then Result(s, SILENT)
    else
      var reported := s.fighters[u].(lastReport := s.tick);
      var ok := CheckMove(w.maths, reported, report);
      var marked := MarkViolation(reported, ok);
      if !ok then Result(s.(fighters := s.fighters[u := marked]), SILENT)
      else
        var v := Attack(w, s.fighters[u := Accepted(marked, report)], u, report.buttons, order, lockOrder);
        Result(s.(fighters := v.fighters, pending := s.pending + Events(v.strikes)), SILENT.(strikes := v.strikes))
  }

  function Events(strikes: seq<Strike>): (evs: seq<HitEvent>)
    ensures |evs| == |strikes|
  {
    seq(|strikes|, i requires 0 <= i < |strikes| => strikes[i].ev)
  }

  // ----- Join and equipment -----

  function Newcomer(at: Vec, tick: int): Fighter
  {
    Fighter(at, 0.0, MAX_HP, 0, 0, BASE_BLOCK_MAX, BASE_BLOCK_MAX, 0, tick, 0, true, 0, 0,
            0.0, 0.0, 0, 0, 0, false, 0, 0, 0, 0, 0)
  }

  /** A player already in the room comes back online with everything kept; a new one needs a free place. */
  ghost function JoinStep(cfg: Config, s: Room, u: Uid, at: Vec): Result
  {
    if u in s.links then Result(s.(links := s.links[u := Link(true, 0)]), SILENT)
    else if |s.links| >= cfg.maxPlayers then Result(s, SILENT.(full := true))
    else
      Result(s.(fighters := s.fighters[u := Newcomer(at, s.tick)], links := s.links[u := Link(true, 0)],
                hadPlayers := true, emptied := false), SILENT)
  }

  ghost function Equipped(s: Room, u: Uid, bonus: real): Room
  {
    if u !in s.fighters then s
    else
      var f := s.fighters[u];
      s.(fighters := s.fighters[u := f.(blockMax := BASE_BLOCK_MAX + bonus, block := BASE_BLOCK_MAX + bonus)])
  }

  // ----- Tick -----

  ghost function TickedAll(fs: Fighters, spawn: Uid -> Vec): (r: Fighters)
    ensures r.Keys == fs.Keys
  {
    map u | u in fs :: Ticked(fs[u], spawn(u))
  }

  ghost function Aged(links: Links): (r: Links)
    ensures r.Keys == links.Keys
  {
    map u | u in links :: AgedLink(links[u])
  }

  function AgedLink(l: Link): Link { if l.online then l else Link(false, l.offlineTicks + 1) }

  predicate OutOfGrace(cfg: Config, l: Link) { !l.online && l.offlineTicks >= cfg.graceTicks }

  ghost function Expired(cfg: Config, links: Links): (gone: set<Uid>)
    ensures gone <= links.Keys
  {
    set u | u in links && OutOfGrace(cfg, links[u])
  }

  ghost function TickStep(cfg: Config, s: Room, spawn: Uid -> Vec): Result
  {
    var aged := Aged(s.links);
    var gone := Expired(cfg, aged);
    var moved: Room := s.(tick := s.tick + 1, fighters := TickedAll(s.fighters, spawn) - gone, links := aged - gone);
    var emptiedNow := moved.links == map[] && s.hadPlayers && !s.emptied;
    var settledDown := moved.(emptied := s.emptied || emptiedNow);
    var out := SILENT.(respawned := (set u | u in s.fighters && s.fighters[u].deadTicks == 1),
                       emptiedNow := emptiedNow && s.notifying);
    if s.broadcasting then
      var b := BroadcastStep(cfg, settledDown);
      Result(b.state, out.(sent := b.out.sent))
    else Result(settledDown, out)
  }

  /** State first, then the pending events in order, then the settlement. */
  ghost function BroadcastStep(cfg: Config, s: Room): Result
  {
    var states := StateMsg(Snapshots(s.fighters));
    var d := Deliver(s.fighters, s.pending);
    var settles := !s.settled && MustSettle(cfg, d.fighters, s.tick);
    var settle := if settles then [SettleMsg(FinalScores(d.fighters))] else [];
    Result(s.(fighters := d.fighters, pending := [], settled := s.settled || settles),
           SILENT.(sent := [states] + d.sent + settle))
  }

  datatype Delivery = Delivery(fighters: Fighters, sent: seq<Broadcast>)

  /** Each pending event is sent as a hit, and as a death as well if its target has a death to announce. */
  ghost function Deliver(fs: Fighters, pending: seq<HitEvent>): (d: Delivery)
    ensures d.fighters.Keys == fs.Keys
  {
    if pending == [] then Delivery(fs, [])
    else
      var ev := pending[|pending| - 1];
      var d := Deliver(fs, pending[..|pending| - 1]);
      if ev.target in d.fighters && d.fighters[ev.target].justDied then
        Delivery(d.fighters[ev.target := d.fighters[ev.target].(justDied := false)], d.sent + [HitMsg(ev), DeathMsg(ev)])
      else
        Delivery(d.fighters, d.sent + [HitMsg(ev)])
  }

  ghost predicate MustSettle(cfg: Config, fs: Fighters, tick: int)
  {
    || (cfg.settleScore > 0 && exists u :: u in fs && fs[u].score >= cfg.settleScore)
    || (cfg.settleTicks > 0 && tick >= cfg.settleTicks)
  }

  // ----- Runs -----

  ghost function Run(cfg: Config, w: World, s: Room, ms: seq<Msg>): Room
  {
    if ms == [] then s
    else Step(cfg, w, Run(cfg, w, s, ms[..|ms| - 1]), ms[|ms| - 1]).state
  }

  ghost function Outs(cfg: Config, w: World, s: Room, ms: seq<Msg>): (outs: seq<Out>)
    ensures |outs| == |ms|
  {
    if ms == [] then []
    else
      var init := ms[..|ms| - 1];
      Outs(cfg, w, s, init) + [Step(cfg, w, Run(cfg, w, s, init), ms[|ms| - 1]).out]
  }

  lemma {:induction false} RunAppend(cfg: Config, w: World, s: Room, ms: seq<Msg>, ns: seq<Msg>)
    ensures Run(cfg, w, s, ms + ns) == Run(cfg, w, Run(cfg, w, s, ms), ns)
    ensures Outs(cfg, w, s, ms + ns) == Outs(cfg, w, s, ms) + Outs(cfg, w, Run(cfg, w, s, ms), ns)
  {
    if ns == [] {
      assert ms + ns == ms;
    } else {
      var init := ns[..|ns| - 1];
      assert (ms + ns)[..|ms + ns| - 1] == ms + init;
      RunAppend(cfg, w, s, ms, init);
    }
  }

  ghost predicate IsTick(m: Msg) { m.Tick? }

  ghost function Ticks(ms: seq<Msg>): nat
  {
    if ms == [] then 0 else Ticks(ms[..|ms| - 1]) + if IsTick(ms[|ms| - 1]) then 1 else 0
  }
}
