/** Where every field of every message stands, byte by byte. Numbers are read here with a definition of their own, most
    significant byte first. */
module WireLayout {
  import opened Base
  import opened Bytes
  import Frames
  import opened LobbyWire
  import opened FriendWire
  import opened BattleWire

  /** The number that a sequence of bytes stands for, most significant byte first. */
  function Number(b: seq<Byte>): nat
  {
    if b == [] then 0 else Number(b[..|b| - 1]) * 0x100 + b[|b| - 1] as int
  }

  /** The `n` bytes at `o` stand for `v`. */
  ghost predicate Has(b: seq<Byte>, o: nat, n: nat, v: int) { o + n <= |b| && Number(b[o..o + n]) == v }

  /** At `o` stand the length of the text in two bytes, as far as they can hold it, and the text. */
  ghost predicate HasText(b: seq<Byte>, o: nat, s: Text)
  {
    Has(b, o, 2, |s| % 0x1_0000) && o + 2 + |s| <= |b| && b[o + 2..o + 2 + |s|] == s
  }

  lemma TwoBytes(b: seq<Byte>)
    requires |b| == 2
    ensures Number(b) == b[0] as int * 0x100 + b[1] as int
  {
    assert b[..1][..0] == [];
    assert Number(b[..1]) == b[0] as int;
  }

  lemma FourBytes(b: seq<Byte>)
    requires |b| == 4
    ensures Number(b) == b[0] as int * 0x100_0000 + b[1] as int * 0x1_0000 + b[2] as int * 0x100 + b[3] as int
  {
    TwoBytes(b[..2]);
    assert b[..3][..2] == b[..2];
  }

  lemma Word16(b: seq<Byte>, o: nat, n: Word)
    requires o + 2 <= |b| && b[o..o + 2] == U16(n)
    ensures Has(b, o, 2, n)
  {
    TwoBytes(b[o..o + 2]);
  }

  lemma Word32(b: seq<Byte>, o: nat, n: DWord)
    requires o + 4 <= |b| && b[o..o + 4] == U32(n)
    ensures Has(b, o, 4, n)
  {
    FourBytes(b[o..o + 4]);
    Digits(n);
  }

  // ----- Frames -----

  lemma FrameLayout(f: Frames.Frame)
    ensures var b := Frames.FrameBytes(f);
            && |b| == 12 + |f.body|
            && Has(b, 0, 2, 0x5344) && Has(b, 2, 2, f.msgId) && Has(b, 4, 4, f.seqNo)
            && Has(b, 8, 4, |f.body| % 0x1_0000_0000) && b[12..] == f.body
  {
    hide U16, U32, Has;
    var b := Frames.FrameBytes(f);
    var h := Frames.Header(f.msgId, f.seqNo, |f.body| % 0x1_0000_0000);
    assert b[0..2] == h[0..2] && b[2..4] == h[2..4] && b[4..8] == h[4..8] && b[8..12] == h[8..12];
    Word16(b, 0, 0x5344);
    Word16(b, 2, f.msgId);
    Word32(b, 4, f.seqNo);
    Word32(b, 8, |f.body| % 0x1_0000_0000);
  }

  /** A frame is read back if and only if its body has at most 65536 bytes. */
  lemma FrameReadExactly(f: Frames.Frame, rest: seq<Byte>)
    ensures Frames.ReadFrame(Frames.FrameBytes(f) + rest) == Frames.Got(f, rest) <==> |f.body| <= 65536
  {
    if Frames.Fits(f) { Frames.ReadBack(f, rest); } else { Frames.TooLongIsNotRead(f, rest); }
    hide Frames.ReadFrame, Frames.FrameBytes;
  }

  // ----- Lobby messages -----

  lemma TextStands(b: seq<Byte>, o: nat, s: Text)
    requires o + 2 + |s| <= |b| && b[o..o + 2 + |s|] == StrBytes(s)
    ensures HasText(b, o, s)
  {
    hide U16;
    assert b[o..o + 2] == b[o..o + 2 + |s|][..2] == U16(|s| % 0x1_0000);
    assert b[o + 2..o + 2 + |s|] == b[o..o + 2 + |s|][2..] == s;
    Word16(b, o, |s| % 0x1_0000);
  }

  lemma StrSize(s: Text)
    ensures |StrBytes(s)| == 2 + |s|
  {
  }

  lemma TwoTextsLayout(x: Text, y: Text)
    ensures var b := Texts([x, y]);
            |b| == 4 + |x| + |y| && HasText(b, 0, x) && HasText(b, 2 + |x|, y)
  {
    hide StrBytes, HasText;
    TwoTexts(x, y);
    StrSize(x);
    StrSize(y);
    var b := Texts([x, y]);
    TextStands(b, 0, x);
    TextStands(b, 2 + |x|, y);
  }

  lemma ThreeTextsLayout(x: Text, y: Text, z: Text)
    ensures var b := Texts([x, y, z]);
            |b| == 6 + |x| + |y| + |z| && HasText(b, 0, x) && HasText(b, 2 + |x|, y) && HasText(b, 4 + |x| + |y|, z)
  {
    hide StrBytes, HasText;
    ThreeTexts(x, y, z);
    StrSize(x);
    StrSize(y);
    StrSize(z);
    var b := Texts([x, y, z]);
    TextStands(b, 0, x);
    TextStands(b, 2 + |x|, y);
    TextStands(b, 4 + |x| + |y|, z);
  }

  lemma LoginRespLayout(r: LoginResp)
    ensures var b := LoginRespBytes(r);
            && |b| == 9 + |r.token| + |r.nickname|
            && b[0] == r.errCode && HasText(b, 1, r.token) && Has(b, 3 + |r.token|, 4, r.uid) && HasText(b, 7 + |r.token|, r.nickname)
  {
    hide StrBytes, HasText, Has, U32;
    StrSize(r.token);
    StrSize(r.nickname);
    var b := LoginRespBytes(r);
    assert b[1..3 + |r.token|] == StrBytes(r.token);
    assert b[3 + |r.token|..7 + |r.token|] == U32(r.uid);
    assert b[7 + |r.token|..] == StrBytes(r.nickname);
    TextStands(b, 1, r.token);
    Word32(b, 3 + |r.token|, r.uid);
    TextStands(b, 7 + |r.token|, r.nickname);
  }

  lemma TextMoved(b: seq<Byte>, c: seq<Byte>, o: nat, s: Text)
    requires HasText(b, o, s) && b <= c
    ensures HasText(c, o, s)
  {
    assert c[o..o + 2] == b[o..o + 2];
    assert c[o + 2..o + 2 + |s|] == b[o + 2..o + 2 + |s|];
  }

  lemma RoomInfoLayout(r: RoomInfo)
    ensures var b := RoomInfoBytes(r);
            && |b| == 8 + |r.name| + |r.creator| + |r.note|
            && HasText(b, 0, r.name) && HasText(b, 2 + |r.name|, r.creator) && HasText(b, 4 + |r.name| + |r.creator|, r.note)
            && b[|b| - 2] == r.players % 0x100 && b[|b| - 1] == r.max % 0x100
  {
    hide HasText, Texts;
    ThreeTextsLayout(r.name, r.creator, r.note);
    var b, c := Texts([r.name, r.creator, r.note]), RoomInfoBytes(r);
    TextMoved(b, c, 0, r.name);
    TextMoved(b, c, 2 + |r.name|, r.creator);
    TextMoved(b, c, 4 + |r.name| + |r.creator|, r.note);
  }

  lemma FriendLayout(f: FriendInfo)
    ensures var b := FriendBytes(f);
            && |b| == 7 + |f.nickname|
            && Has(b, 0, 4, f.uid) && HasText(b, 4, f.nickname) && b[|b| - 1] == (if f.online then 1 else 0)
  {
    hide StrBytes, HasText, Has, U32;
    StrSize(f.nickname);
    var b := FriendBytes(f);
    assert b[0..4] == U32(f.uid);
    assert b[4..6 + |f.nickname|] == StrBytes(f.nickname);
    Word32(b, 0, f.uid);
    TextStands(b, 4, f.nickname);
  }

  // ----- Match messages -----

  lemma StateHeadLayout(b: seq<Byte>, o: nat, s: PlayerState)
    requires o + 20 <= |b| && b[o..o + 20] == StateHead(s)
    ensures Has(b, o, 4, s.uid) && Has(b, o + 4, 4, s.x) && Has(b, o + 8, 4, s.y) && Has(b, o + 12, 4, s.z) && Has(b, o + 16, 4, s.yaw)
  {
    hide U32, Has;
    var h := b[o..o + 20];
    assert forall k :: 0 <= k < 20 ==> h[k] == b[o + k];
    assert b[o..o + 4] == h[0..4] && b[o + 4..o + 8] == h[4..8] && b[o + 8..o + 12] == h[8..12];
    assert b[o + 12..o + 16] == h[12..16] && b[o + 16..o + 20] == h[16..20];
    Word32(b, o, s.uid);
    Word32(b, o + 4, s.x);
    Word32(b, o + 8, s.y);
    Word32(b, o + 12, s.z);
    Word32(b, o + 16, s.yaw);
  }

  lemma StateTailLayout(b: seq<Byte>, o: nat, s: PlayerState)
    requires o + 16 <= |b| && b[o..o + 16] == StateTail(s)
    ensures b[o] == s.hp && b[o + 1] == s.weapon && b[o + 2] == s.alt && Has(b, o + 3, 4, s.block) && b[o + 7] == s.anim
    ensures Has(b, o + 8, 2, s.score) && Has(b, o + 10, 2, s.deaths) && Has(b, o + 12, 4, 0)
  {
    hide U32, U16, Has;
    var t := b[o..o + 16];
    assert forall k :: 0 <= k < 16 ==> t[k] == b[o + k];
    assert b[o] == t[0] && b[o + 1] == t[1] && b[o + 2] == t[2] && b[o + 7] == t[7];
    assert b[o + 3..o + 7] == t[3..7] && b[o + 8..o + 10] == t[8..10] && b[o + 10..o + 12] == t[10..12] && b[o + 12..o + 16] == t[12..16];
    Word32(b, o + 3, s.block);
    Word16(b, o + 8, s.score);
    Word16(b, o + 10, s.deaths);
    Word32(b, o + 12, 0);
  }

  /** A state message: a count, and 36 bytes for each player. */
  lemma StateLayout(states: seq<PlayerState>, i: nat)
    requires i < |states|
    ensures var b, o, s := StateBytes(states), 1 + 36 * i, states[i];
            && |b| == 1 + 36 * |states| && b[0] == |states| % 0x100
            && Has(b, o, 4, s.uid) && Has(b, o + 4, 4, s.x) && Has(b, o + 8, 4, s.y) && Has(b, o + 12, 4, s.z) && Has(b, o + 16, 4, s.yaw)
            && b[o + 20] == s.hp && b[o + 21] == s.weapon && b[o + 22] == s.alt && Has(b, o + 23, 4, s.block) && b[o + 27] == s.anim
            && Has(b, o + 28, 2, s.score) && Has(b, o + 30, 2, s.deaths) && Has(b, o + 32, 4, 0)
  {
    hide StateHead, StateTail, Has;
    EntryAt(states, i);
    var b, o := StateBytes(states), 1 + 36 * i;
    var e := StateBody(states)[36 * i..36 * i + 36];
    assert b[o..o + 20] == e[..20] == StateHead(states[i]);
    assert b[o + 20..o + 36] == e[20..] == StateTail(states[i]);
    StateHeadLayout(b, o, states[i]);
    StateTailLayout(b, o + 20, states[i]);
  }

  /** A settlement: a count, and six bytes for each entry. */
  lemma SettleLayout(entries: seq<SettleEntry>, i: nat)
    requires i < |entries|
    ensures var b, o := SettleBytes(entries), 1 + 6 * i;
            && |b| == 1 + 6 * |entries| && b[0] == |entries| % 0x100
            && Has(b, o, 4, entries[i].uid) && Has(b, o + 4, 2, entries[i].score)
  {
    hide U32, U16, Has;
    SettleAt(entries, i);
    var b, o := SettleBytes(entries), 1 + 6 * i;
    var e := SettleBody(entries)[6 * i..6 * i + 6];
    assert b[o..o + 4] == e[..4] && b[o + 4..o + 6] == e[4..];
    Word32(b, o, entries[i].uid);
    Word16(b, o + 4, entries[i].score);
  }

  lemma InputLayout(r: Report)
    ensures var b := ReportBytes(r);
            && |b| == 29
            && b[0] == (if r.moveX < 0 then r.moveX + 0x100 else r.moveX) && b[1] == (if r.moveY < 0 then r.moveY + 0x100 else r.moveY)
            && Has(b, 2, 4, r.yaw) && b[6] == r.buttons && Has(b, 7, 4, r.aimX) && Has(b, 11, 4, r.aimY)
            && Has(b, 15, 4, r.x) && Has(b, 19, 4, r.y) && Has(b, 23, 4, r.z) && b[27] == r.weapon && b[28] == r.anim
  {
    hide U32, Has;
    var b := ReportBytes(r);
    assert b[2..6] == U32(r.yaw) && b[7..11] == U32(r.aimX) && b[11..15] == U32(r.aimY);
    assert b[15..19] == U32(r.x) && b[19..23] == U32(r.y) && b[23..27] == U32(r.z);
    Word32(b, 2, r.yaw);
    Word32(b, 7, r.aimX);
    Word32(b, 11, r.aimY);
    Word32(b, 15, r.x);
    Word32(b, 19, r.y);
    Word32(b, 23, r.z);
  }

  lemma HitLayout(h: BattleWire.Hit)
    ensures var b := HitBytes(h);
            && |b| == 10 && Has(b, 0, 4, h.shooter) && Has(b, 4, 4, h.target) && b[8] == h.damage && b[9] == (if h.headshot then 1 else 0)
  {
    hide U32, Has;
    var b := HitBytes(h);
    assert b[0..4] == U32(h.shooter) && b[4..8] == U32(h.target);
    Word32(b, 0, h.shooter);
    Word32(b, 4, h.target);
  }

  /** Any bytes at all: too few are read as a report or a hit of zeros, and what follows the 29 or the ten is ignored; any last byte of a
      hit but zero means a headshot. */
  lemma ReadsOfAnyLength(b: seq<Byte>)
    ensures |b| < 29 ==> DecodeInput(b) == Report(0, 0, 0, 0, 0, 0, 0, 0, 0, 0, 0)
    ensures |b| >= 29 ==> ReportBytes(DecodeInput(b)) == b[..29]
    ensures |b| < 10 ==> DecodeHit(b) == BattleWire.Hit(0, 0, 0, false)
    ensures |b| >= 10 ==> var h := DecodeHit(b);
                          Has(b, 0, 4, h.shooter) && Has(b, 4, 4, h.target) && h.damage == b[8] && (h.headshot <==> b[9] > 0)
  {
    if |b| >= 29 {
      assert DecodeInput(b) == DecodeInput(b[..29]);
      InputWrites(b[..29]);
    }
    if |b| >= 10 {
      WriteU32(b, 0);
      WriteU32(b, 4);
      Word32(b, 0, GetU32(b, 0));
      Word32(b, 4, GetU32(b, 4));
    }
    hide Has, U32, GetU32;
  }
}
