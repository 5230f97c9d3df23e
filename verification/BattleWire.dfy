/** Match messages of internal/protocol/battle.go: fixed-size records, and lists of them behind a count byte.
    Floating-point fields are carried as their 32-bit patterns. */
module BattleWire {
  import opened Base
  import opened Bytes
  import opened Frames
  import opened Combat
  import opened RoomModel
  import opened RoomInvariant

  const STATE_SIZE: nat := 36
  const SETTLE_SIZE: nat := 6
  const INPUT_SIZE: nat := 29
  const HIT_SIZE: nat := 10

  // ----- Player states -----

  datatype PlayerState = PlayerState(uid: Uid, x: DWord, y: DWord, z: DWord, yaw: DWord, hp: Byte, weapon: Byte, alt: Byte,
                                     block: DWord, anim: Byte, score: Word, deaths: Word)

  function StateHead(s: PlayerState): (b: seq<Byte>)
    ensures |b| == 20
  {
    U32(s.uid) + U32(s.x) + U32(s.y) + U32(s.z) + U32(s.yaw)
  }

  /** The last four bytes are reserved. */
  function StateTail(s: PlayerState): (b: seq<Byte>)
    ensures |b| == 16
  {
    [s.hp, s.weapon, s.alt] + U32(s.block) + [s.anim] + U16(s.score) + U16(s.deaths) + U32(0)
  }

  function StateEntry(s: PlayerState): (b: seq<Byte>)
    ensures |b| == STATE_SIZE
  {
    StateHead(s) + StateTail(s)
  }

  function StateBody(states: seq<PlayerState>): (b: seq<Byte>)
    ensures |b| == STATE_SIZE * |states|
  {
    if states == [] then [] else StateEntry(states[0]) + StateBody(states[1..])
  }

  function StateBytes(states: seq<PlayerState>): seq<Byte> { [|states| % 0x100] + StateBody(states) }

  method PutStateHead(b: array<Byte>, o: nat, s: PlayerState)
    requires o + 20 <= b.Length
    modifies b
    ensures b[..o + 20] == old(b[..o]) + StateHead(s)
  {
    PutU32(b, o, s.uid);
    PutU32(b, o + 4, s.x);
    PutU32(b, o + 8, s.y);
    PutU32(b, o + 12, s.z);
    PutU32(b, o + 16, s.yaw);
  }

  method PutStateTail(b: array<Byte>, o: nat, s: PlayerState)
    requires o + 16 <= b.Length
    modifies b
    ensures b[..o + 16] == old(b[..o]) + StateTail(s)
  {
    PutByte(b, o, s.hp);
    PutByte(b, o + 1, s.weapon);
    PutByte(b, o + 2, s.alt);
    PutU32(b, o + 3, s.block);
    PutByte(b, o + 7, s.anim);
    PutU16(b, o + 8, s.score);
    PutU16(b, o + 10, s.deaths);
    PutU32(b, o + 12, 0);
  }

  method EncodeState(states: seq<PlayerState>) returns (b: array<Byte>)
    ensures fresh(b) && b[..] == StateBytes(states)
  {
    hide StateHead, StateTail;
    b := new Byte[1 + |states| * STATE_SIZE](_ => 0);
    b[0] := |states| % 0x100;
    for i := 0 to |states|
      invariant b[..1 + i * STATE_SIZE] + StateBody(states[i..]) == StateBytes(states)
    {
      var o := 1 + i * STATE_SIZE;
      ghost var done, rest := b[..o], StateBody(states[i + 1..]);
      assert states[i..][1..] == states[i + 1..];
      PutStateHead(b, o, states[i]);
      PutStateTail(b, o + 20, states[i]);
      assert b[..o + STATE_SIZE] == done + StateEntry(states[i]);
      assert done + (StateEntry(states[i]) + rest) == done + StateEntry(states[i]) + rest;
    }
    assert b[..] + [] == b[..];
  }

  function GetState(b: seq<Byte>, o: nat): PlayerState
    requires o + STATE_SIZE <= |b|
  {
    PlayerState(GetU32(b, o), GetU32(b, o + 4), GetU32(b, o + 8), GetU32(b, o + 12), GetU32(b, o + 16),
                b[o + 20], b[o + 21], b[o + 22], GetU32(b, o + 23), b[o + 27], GetU16(b, o + 28), GetU16(b, o + 30))
  }

  predicate HoldsStates(b: seq<Byte>) { |b| >= 1 && |b| >= 1 + b[0] as int * STATE_SIZE }

  function StatesOf(b: seq<Byte>): Option<seq<PlayerState>>
  {
    if !HoldsStates(b) then None
    else Some(seq(b[0] as int, i requires 0 <= i < b[0] as int => GetState(b, 1 + i * STATE_SIZE)))
  }

  method DecodeState(b: seq<Byte>) returns (states: Option<seq<PlayerState>>)
    ensures states == StatesOf(b)
  {
    hide GetState;
    if |b| < 1 {
      return None;
    }
    var n := b[0] as int;
    if |b| < 1 + n * STATE_SIZE {
      return None;
    }
    var list := new PlayerState[n];
    for i := 0 to n
      invariant forall j :: 0 <= j < i ==> list[j] == GetState(b, 1 + j * STATE_SIZE)
    {
      list[i] := GetState(b, 1 + i * STATE_SIZE);
    }
    assert list[..] == StatesOf(b).value;
    states := Some(list[..]);
  }

  lemma ReadHead(b: seq<Byte>, o: nat, s: PlayerState)
    requires o + 20 <= |b| && b[o..o + 20] == StateHead(s)
    ensures GetU32(b, o) == s.uid && GetU32(b, o + 4) == s.x && GetU32(b, o + 8) == s.y
    ensures GetU32(b, o + 12) == s.z && GetU32(b, o + 16) == s.yaw
  {
    var h := StateHead(s);
    assert h[0..4] == U32(s.uid) && h[4..8] == U32(s.x) && h[8..12] == U32(s.y) && h[12..16] == U32(s.z) && h[16..20] == U32(s.yaw);
    hide U32, GetU32, StateHead;
    FieldU32(b, o, h, 0, s.uid);
    FieldU32(b, o, h, 4, s.x);
    FieldU32(b, o, h, 8, s.y);
    FieldU32(b, o, h, 12, s.z);
    FieldU32(b, o, h, 16, s.yaw);
  }

  lemma ReadTail(b: seq<Byte>, o: nat, s: PlayerState)
    requires o + 16 <= |b| && b[o..o + 16] == StateTail(s)
    ensures b[o] == s.hp && b[o + 1] == s.weapon && b[o + 2] == s.alt && GetU32(b, o + 3) == s.block
    ensures b[o + 7] == s.anim && GetU16(b, o + 8) == s.score && GetU16(b, o + 10) == s.deaths
  {
    hide U32, U16, GetU32, GetU16;
    var t := StateTail(s);
    assert b[o] == t[0] && b[o + 1] == t[1] && b[o + 2] == t[2] && b[o + 7] == t[7];
    assert t[3..7] == U32(s.block) && t[8..10] == U16(s.score) && t[10..12] == U16(s.deaths);
    FieldU32(b, o, t, 3, s.block);
    FieldU16(b, o, t, 8, s.score);
    FieldU16(b, o, t, 10, s.deaths);
  }

  lemma ReadEntry(b: seq<Byte>, o: nat, s: PlayerState)
    requires o + STATE_SIZE <= |b| && b[o..o + STATE_SIZE] == StateEntry(s)
    ensures GetState(b, o) == s
  {
    hide StateHead, StateTail, GetU32, GetU16;
    var e := b[o..o + STATE_SIZE];
    assert b[o..o + 20] == e[..20] == StateHead(s);
    assert b[o + 20..o + 36] == e[20..] == StateTail(s);
    ReadHead(b, o, s);
    ReadTail(b, o + 20, s);
  }

  lemma {:induction false} EntryAt(states: seq<PlayerState>, i: nat)
    requires i < |states|
    ensures STATE_SIZE * i + STATE_SIZE <= |StateBody(states)|
    ensures StateBody(states)[STATE_SIZE * i..STATE_SIZE * i + STATE_SIZE] == StateEntry(states[i])
  {
    hide StateEntry;
    if i > 0 {
      EntryAt(states[1..], i - 1);
      var b, tail := StateBody(states), StateBody(states[1..]);
      var o := STATE_SIZE * (i - 1);
      assert b[STATE_SIZE + o..STATE_SIZE + o + STATE_SIZE] == tail[o..o + STATE_SIZE];
    }
  }

  /** A list of at most 255 states comes back from all of its bytes, also if more follow, and from no fewer. */
  lemma StatesCut(states: seq<PlayerState>, k: nat, rest: seq<Byte>)
    requires |states| < 0x100 && k <= |StateBytes(states)|
    ensures StatesOf(StateBytes(states) + rest) == Some(states)
    ensures k < |StateBytes(states)| ==> StatesOf(StateBytes(states)[..k]) == None
  {
    hide GetState;
    var b := StateBytes(states) + rest;
    assert b[0] == |states|;
    forall i | 0 <= i < |states| ensures GetState(b, 1 + i * STATE_SIZE) == states[i] {
      EntryAt(states, i);
      var o := STATE_SIZE * i;
      assert b[1 + o..1 + o + STATE_SIZE] == StateBody(states)[o..o + STATE_SIZE];
      ReadEntry(b, 1 + o, states[i]);
    }
    assert StatesOf(b).value == states;
  }

  lemma StatesExactly(states: seq<PlayerState>)
    ensures StatesOf(StateBytes(states)) == Some(states) <==> |states| < 0x100
  {
    var b := StateBytes(states);
    assert b + [] == b;
    if |states| < 0x100 {
      StatesCut(states, 0, []);
    } else if StatesOf(b).Some? {
      assert |StatesOf(b).value| == |states| % 0x100;
    }
  }

  // ----- Settlement -----

  datatype SettleEntry = SettleEntry(uid: Uid, score: Word)

  function SettleEntryBytes(e: SettleEntry): (b: seq<Byte>)
    ensures |b| == SETTLE_SIZE
  {
    U32(e.uid) + U16(e.score)
  }

  function SettleBody(entries: seq<SettleEntry>): (b: seq<Byte>)
    ensures |b| == SETTLE_SIZE * |entries|
  {
    if entries == [] then [] else SettleEntryBytes(entries[0]) + SettleBody(entries[1..])
  }

  function SettleBytes(entries: seq<SettleEntry>): seq<Byte> { [|entries| % 0x100] + SettleBody(entries) }

  method EncodeSettle(entries: seq<SettleEntry>) returns (b: array<Byte>)
    ensures fresh(b) && b[..] == SettleBytes(entries)
  {
    hide U32, U16;
    b := new Byte[1 + |entries| * SETTLE_SIZE](_ => 0);
    b[0] := |entries| % 0x100;
    for i := 0 to |entries|
      invariant b[..1 + i * SETTLE_SIZE] + SettleBody(entries[i..]) == SettleBytes(entries)
    {
      var o := 1 + i * SETTLE_SIZE;
      ghost var done, rest := b[..o], SettleBody(entries[i + 1..]);
      assert entries[i..][1..] == entries[i + 1..];
      PutU32(b, o, entries[i].uid);
      PutU16(b, o + 4, entries[i].score);
      assert b[..o + SETTLE_SIZE] == done + SettleEntryBytes(entries[i]);
      assert done + (SettleEntryBytes(entries[i]) + rest) == done + SettleEntryBytes(entries[i]) + rest;
    }
    assert b[..] + [] == b[..];
  }

  function GetSettle(b: seq<Byte>, o: nat): SettleEntry
    requires o + SETTLE_SIZE <= |b|
  {
    SettleEntry(GetU32(b, o), GetU16(b, o + 4))
  }

  function SettleOf(b: seq<Byte>): Option<seq<SettleEntry>>
  {
    if |b| < 1 || |b| < 1 + b[0] as int * SETTLE_SIZE then None
    else Some(seq(b[0] as int, i requires 0 <= i < b[0] as int => GetSettle(b, 1 + i * SETTLE_SIZE)))
  }

  method DecodeSettle(b: seq<Byte>) returns (entries: Option<seq<SettleEntry>>)
    ensures entries == SettleOf(b)
  {
    hide GetSettle;
    if |b| < 1 {
      return None;
    }
    var n := b[0] as int;
    if |b| < 1 + n * SETTLE_SIZE {
      return None;
    }
    var list := new SettleEntry[n];
    for i := 0 to n
      invariant forall j :: 0 <= j < i ==> list[j] == GetSettle(b, 1 + j * SETTLE_SIZE)
    {
      list[i] := GetSettle(b, 1 + i * SETTLE_SIZE);
    }
    assert list[..] == SettleOf(b).value;
    entries := Some(list[..]);
  }

  lemma {:induction false} SettleAt(entries: seq<SettleEntry>, i: nat)
    requires i < |entries|
    ensures SETTLE_SIZE * i + SETTLE_SIZE <= |SettleBody(entries)|
    ensures SettleBody(entries)[SETTLE_SIZE * i..SETTLE_SIZE * i + SETTLE_SIZE] == SettleEntryBytes(entries[i])
  {
    hide SettleEntryBytes;
    if i > 0 {
      SettleAt(entries[1..], i - 1);
      var b, tail := SettleBody(entries), SettleBody(entries[1..]);
      var o := SETTLE_SIZE * (i - 1);
      assert b[SETTLE_SIZE + o..SETTLE_SIZE + o + SETTLE_SIZE] == tail[o..o + SETTLE_SIZE];
    }
  }

  lemma ReadSettle(b: seq<Byte>, o: nat, e: SettleEntry)
    requires o + SETTLE_SIZE <= |b| && b[o..o + SETTLE_SIZE] == SettleEntryBytes(e)
    ensures GetSettle(b, o) == e
  {
    assert b[o..o + 4] == b[o..o + SETTLE_SIZE][..4] == U32(e.uid);
    assert b[o + 4..o + 6] == b[o..o + SETTLE_SIZE][4..] == U16(e.score);
    hide U32, U16, GetU32, GetU16;
    ReadU32(b, o, e.uid);
    ReadU16(b, o + 4, e.score);
  }

  /** A ranking of at most 255 entries comes back from all of its bytes and from no fewer; a longer one never does. */
  lemma SettleExactly(entries: seq<SettleEntry>, k: nat)
    requires k <= |SettleBytes(entries)|
    ensures SettleOf(SettleBytes(entries)) == Some(entries) <==> |entries| < 0x100
    ensures |entries| < 0x100 && k < |SettleBytes(entries)| ==> SettleOf(SettleBytes(entries)[..k]) == None
  {
    hide GetSettle;
    var b := SettleBytes(entries);
    if |entries| < 0x100 {
      forall i | 0 <= i < |entries| ensures GetSettle(b, 1 + i * SETTLE_SIZE) == entries[i] {
        SettleAt(entries, i);
        var o := SETTLE_SIZE * i;
        assert b[1 + o..1 + o + SETTLE_SIZE] == SettleBody(entries)[o..o + SETTLE_SIZE];
        ReadSettle(b, 1 + o, entries[i]);
      }
      assert SettleOf(b).value == entries;
    } else if SettleOf(b).Some? {
      assert |SettleOf(b).value| == |entries| % 0x100;
    }
  }

  // ----- Input reports and hits -----

  type Signed = n: int | -0x80 <= n < 0x80

  function ToByte(n: Signed): Byte { n % 0x100 }

  function ToSigned(b: Byte): Signed { if b < 0x80 then b else b as int - 0x100 }

  datatype Report = Report(moveX: Signed, moveY: Signed, yaw: DWord, buttons: Byte, aimX: DWord, aimY: DWord,
                           x: DWord, y: DWord, z: DWord, weapon: Byte, anim: Byte)

  const ZERO_REPORT := Report(0, 0, 0, 0, 0, 0, 0, 0, 0, 0, 0)

  function ReportHead(r: Report): (b: seq<Byte>)
    ensures |b| == 15
  {
    [ToByte(r.moveX), ToByte(r.moveY)] + U32(r.yaw) + [r.buttons] + U32(r.aimX) + U32(r.aimY)
  }

  function ReportTail(r: Report): (b: seq<Byte>)
    ensures |b| == 14
  {
    U32(r.x) + U32(r.y) + U32(r.z) + [r.weapon, r.anim]
  }

  function ReportBytes(r: Report): (b: seq<Byte>)
    ensures |b| == INPUT_SIZE
  {
    ReportHead(r) + ReportTail(r)
  }

  method PutReportHead(b: array<Byte>, r: Report)
    requires b.Length == INPUT_SIZE
    modifies b
    ensures b[..15] == ReportHead(r)
  {
    hide U32;
    PutByte(b, 0, ToByte(r.moveX));
    PutByte(b, 1, ToByte(r.moveY));
    PutU32(b, 2, r.yaw);
    PutByte(b, 6, r.buttons);
    PutU32(b, 7, r.aimX);
    PutU32(b, 11, r.aimY);
  }

  method EncodeInput(r: Report) returns (b: array<Byte>)
    ensures fresh(b) && b[..] == ReportBytes(r)
  {
    hide U32, ReportHead;
    b := new Byte[INPUT_SIZE](_ => 0);
    PutReportHead(b, r);
    PutU32(b, 15, r.x);
    PutU32(b, 19, r.y);
    PutU32(b, 23, r.z);
    PutByte(b, 27, r.weapon);
    PutByte(b, 28, r.anim);
    assert b[..] == b[..INPUT_SIZE];
  }

  /** Too few bytes are read as a report of zeros. */
  function DecodeInput(b: seq<Byte>): Report
  {
    if |b| < INPUT_SIZE then ZERO_REPORT
    else Report(ToSigned(b[0]), ToSigned(b[1]), GetU32(b, 2), b[6], GetU32(b, 7), GetU32(b, 11),
                GetU32(b, 15), GetU32(b, 19), GetU32(b, 23), b[27], b[28])
  }

  /** Every report survives the wire, signs included; every byte string of the right size is some report. */
  lemma InputExactly(r: Report, b: seq<Byte>)
    ensures DecodeInput(ReportBytes(r)) == r
    ensures |b| == INPUT_SIZE ==> ReportBytes(DecodeInput(b)) == b
  {
    InputReads(r);
    if |b| == INPUT_SIZE {
      InputWrites(b);
    }
  }

  lemma InputReads(r: Report)
    ensures DecodeInput(ReportBytes(r)) == r
  {
    hide U32, GetU32;
    var b := ReportBytes(r);
    assert b[2..6] == U32(r.yaw) && b[7..11] == U32(r.aimX) && b[11..15] == U32(r.aimY);
    assert b[15..19] == U32(r.x) && b[19..23] == U32(r.y) && b[23..27] == U32(r.z);
    ReadU32(b, 2, r.yaw);
    ReadU32(b, 7, r.aimX);
    ReadU32(b, 11, r.aimY);
    ReadU32(b, 15, r.x);
    ReadU32(b, 19, r.y);
    ReadU32(b, 23, r.z);
  }

  lemma InputWrites(b: seq<Byte>)
    requires |b| == INPUT_SIZE
    ensures ReportBytes(DecodeInput(b)) == b
  {
    hide U32, GetU32;
    WriteU32(b, 2);
    WriteU32(b, 7);
    WriteU32(b, 11);
    WriteU32(b, 15);
    WriteU32(b, 19);
    WriteU32(b, 23);
    assert b == b[0..2] + b[2..6] + b[6..7] + b[7..11] + b[11..15] + b[15..19] + b[19..23] + b[23..27] + b[27..29];
  }

  datatype Hit = Hit(shooter: Uid, target: Uid, damage: Byte, headshot: bool)

  function HitBytes(h: Hit): (b: seq<Byte>)
    ensures |b| == HIT_SIZE
  {
    U32(h.shooter) + U32(h.target) + [h.damage, if h.headshot then 1 else 0]
  }

  method EncodeHit(h: Hit) returns (b: array<Byte>)
    ensures fresh(b) && b[..] == HitBytes(h)
  {
    hide U32;
    b := new Byte[HIT_SIZE](_ => 0);
    PutU32(b, 0, h.shooter);
    PutU32(b, 4, h.target);
    PutByte(b, 8, h.damage);
    if h.headshot {
      b[9] := 1;
    }
    assert b[..] == b[..9] + [b[9]];
  }

  function DecodeHit(b: seq<Byte>): Hit
  {
    if |b| < HIT_SIZE then Hit(0, 0, 0, false)
    else Hit(GetU32(b, 0), GetU32(b, 4), b[8], b[9] != 0)
  }

  /** Every hit survives the wire. */
  lemma HitReads(h: Hit)
    ensures DecodeHit(HitBytes(h)) == h
  {
    hide U32, GetU32;
    var b := HitBytes(h);
    assert b[0..4] == U32(h.shooter) && b[4..8] == U32(h.target);
    ReadU32(b, 0, h.shooter);
    ReadU32(b, 4, h.target);
  }

  // ----- The broadcast of a room -----

  /** One player as the broadcast sends it; `bits` gives the 32-bit pattern of a number. */
  function OnTheWire(bits: real -> DWord, u: Uid, f: Fighter): PlayerState
    requires f.hp < 0x100
  {
    var p := SnapshotOf(f);
    PlayerState(u, bits(p.pos.x), bits(p.pos.y), bits(p.pos.z), bits(p.yaw), p.hp, p.weapon, p.alt, bits(p.block), p.anim,
                p.score, p.deaths)
  }

  /** The players of a room in the order in which they are visited. */
  function Listed(bits: real -> DWord, fs: Fighters, order: seq<Uid>): (states: seq<PlayerState>)
    requires forall u :: u in order ==> u in fs && fs[u].hp < 0x100
    ensures |states| == |order|
  {
    seq(|order|, i requires 0 <= i < |order| => OnTheWire(bits, order[i], fs[order[i]]))
  }

  /** The state broadcast of every reachable room fits a frame and arrives as it was sent, whatever follows it in the
      stream: every player exactly once, where it is and with what it carries, scores and deaths modulo 65536. No part of it
      is taken for the whole. */
  lemma BroadcastSurvives(cfg: Config, w: World, ms: seq<Msg>, bits: real -> DWord, order: seq<Uid>,
                          msgId: Word, seqNo: DWord, rest: seq<Byte>)
    requires cfg.Valid()
    requires Enumerates(order, Run(cfg, w, NEW_ROOM, ms).fighters.Keys)
    ensures var fs := Run(cfg, w, NEW_ROOM, ms).fighters;
            && |order| <= cfg.maxPlayers
            && (forall u :: u in order ==> u in fs && fs[u].hp <= MAX_HP)
            && var states := Listed(bits, fs, order);
               var f := Frame(msgId, seqNo, StateBytes(states));
               && |f.body| <= 1 + 8 * STATE_SIZE
               && ReadFrame(FrameBytes(f) + rest) == Got(f, rest)
               && StatesOf(f.body) == Some(states)
               && (forall k :: 0 <= k < |f.body| ==> StatesOf(f.body[..k]) == None)
               && (forall i :: 0 <= i < |order| ==> Carries(bits, states[i], order[i], fs[order[i]]))
  {
    hide Run, Step, FighterGood, FrameBytes, ReadFrame, StatesOf, LinkGood, Listed;
    var s := Run(cfg, w, NEW_ROOM, ms);
    NewRoomGood(cfg);
    RunGood(cfg, w, NEW_ROOM, ms);
    EnumerationLength(order, s.fighters.Keys);
    assert |s.links.Keys| == |s.links|;
    forall u | u in order ensures u in s.fighters && s.fighters[u].hp <= MAX_HP {
      HealthBounded(cfg, s, u);
    }
    var states := Listed(bits, s.fighters, order);
    var f := Frame(msgId, seqNo, StateBytes(states));
    ReadBack(f, rest);
    forall k | 0 <= k < |f.body| ensures StatesOf(f.body[..k]) == None {
      StatesCut(states, k, []);
    }
    StatesExactly(states);
    forall i | 0 <= i < |order| ensures Carries(bits, states[i], order[i], s.fighters[order[i]]) {
      ListedCarries(bits, s.fighters, order, i);
    }
  }

  /** The message has the player's own numbers in every field. */
  ghost predicate Carries(bits: real -> DWord, p: PlayerState, u: Uid, f: Fighter)
  {
    && p.uid == u
    && p.x == bits(f.pos.x) && p.y == bits(f.pos.y) && p.z == bits(f.pos.z) && p.yaw == bits(f.yaw)
    && p.hp == f.hp && p.block == bits(f.block) && p.weapon == f.weapon && p.alt == f.alt && p.anim == f.anim
    && p.score == f.score % 0x1_0000 && p.deaths == f.deaths % 0x1_0000
  }

  lemma ListedCarries(bits: real -> DWord, fs: Fighters, order: seq<Uid>, i: nat)
    requires (forall u :: u in order ==> u in fs && fs[u].hp < 0x100) && i < |order|
    ensures Carries(bits, Listed(bits, fs, order)[i], order[i], fs[order[i]])
  {
  }

  lemma HealthBounded(cfg: Config, s: Room, u: Uid)
    requires Good(cfg, s) && u in s.fighters
    ensures s.fighters[u].hp <= MAX_HP
  {
    assert FighterGood(s.fighters[u]);
  }
}
