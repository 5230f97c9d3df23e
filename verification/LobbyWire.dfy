/** Lobby messages of internal/protocol/lobby.go: length-prefixed strings, and lists of records made of them. */
module LobbyWire {
  import opened Base
  import opened Bytes

  // ----- Strings -----

  /** A string preceded by its length. The length field has 16 bits; more is cut off. */
  function StrBytes(s: Text): seq<Byte> { U16(|s| % 0x1_0000) + s }

  datatype Piece = Piece(text: Text, next: nat)

  /** The string at `off` and the offset behind it, if all of it is there. */
  function GetStr(b: seq<Byte>, off: nat): Option<Piece>
  {
    if |b| < off + 2 then None
    else
      var n := GetU16(b, off);
      if |b| < off + 2 + n then None
      else Some(Piece(b[off + 2..off + 2 + n], off + 2 + n))
  }

  method PutStr(b: array<Byte>, off: nat, s: Text) returns (next: nat)
    requires off + 2 + |s| <= b.Length
    modifies b
    ensures next == off + 2 + |s| && b[..next] == old(b[..off]) + StrBytes(s)
    ensures forall k :: next <= k < b.Length ==> b[k] == old(b[k])
  {
    PutU16(b, off, |s| % 0x1_0000);
    Copy(b, off + 2, s);
    next := off + 2 + |s|;
  }

  predicate Short(s: Text) { |s| < 0x1_0000 }

  function Texts(ss: seq<Text>): seq<Byte>
  {
    if ss == [] then [] else StrBytes(ss[0]) + Texts(ss[1..])
  }

  datatype Fields = Fields(texts: seq<Text>, next: nat)

  /** `k` strings in a row. */
  function GetTexts(b: seq<Byte>, off: nat, k: nat): (r: Option<Fields>)
    ensures r.Some? ==> |r.value.texts| == k
    decreases k
  {
    if k == 0 then Some(Fields([], off))
    else
      match GetStr(b, off)
      case None => None
      case Some(p) =>
        match GetTexts(b, p.next, k - 1)
        case None => None
        case Some(f) => Some(Fields([p.text] + f.texts, f.next))
  }

  lemma ReadStr(b: seq<Byte>, off: nat, s: Text)
    requires off <= |b| && StrBytes(s) <= b[off..]
    ensures Short(s) ==> GetStr(b, off) == Some(Piece(s, off + |StrBytes(s)|))
    ensures !Short(s) && GetStr(b, off).Some? ==> GetStr(b, off).value.text != s
  {
    var n := |s| % 0x1_0000;
    assert b[off..off + 2] == b[off..][..|StrBytes(s)|][..2] == U16(n);
    ReadU16(b, off, n);
    assert b[off + 2..off + 2 + |s|] == b[off..][..|StrBytes(s)|][2..] == s;
  }

  lemma CutStr(b: seq<Byte>, off: nat, s: Text)
    requires off <= |b| && b[off..] < StrBytes(s) && Short(s)
    ensures GetStr(b, off) == None
  {
    if |b| >= off + 2 {
      assert b[off..off + 2] == b[off..][..2] == StrBytes(s)[..2] == U16(|s|);
      ReadU16(b, off, |s|);
    }
  }

  /** Strings come back as written, and the cursor stops right behind them. */
  lemma {:induction false} ReadTexts(b: seq<Byte>, off: nat, ss: seq<Text>)
    requires off <= |b| && Texts(ss) <= b[off..]
    requires forall s :: s in ss ==> Short(s)
    ensures GetTexts(b, off, |ss|) == Some(Fields(ss, off + |Texts(ss)|))
    decreases ss
  {
    hide StrBytes, GetStr;
    if ss != [] {
      var head, tail := StrBytes(ss[0]), Texts(ss[1..]);
      assert head <= b[off..] by { assert b[off..][..|head + tail|][..|head|] == head; }
      ReadStr(b, off, ss[0]);
      assert b[off + |head|..][..|tail|] == b[off..][..|head + tail|][|head|..] == tail;
      ReadTexts(b, off + |head|, ss[1..]);
      assert ss == [ss[0]] + ss[1..];
    }
  }

  lemma {:induction false} CutTexts(b: seq<Byte>, off: nat, ss: seq<Text>)
    requires off <= |b| && b[off..] < Texts(ss)
    requires forall s :: s in ss ==> Short(s)
    ensures GetTexts(b, off, |ss|) == None
    decreases ss
  {
    hide StrBytes, GetStr;
    var head, tail := StrBytes(ss[0]), Texts(ss[1..]);
    var left := b[off..];
    assert left == (head + tail)[..|left|];
    if |left| < |head| {
      assert left < head;
      CutStr(b, off, ss[0]);
    } else {
      assert left[..|head|] == head;
      ReadStr(b, off, ss[0]);
      assert b[off + |head|..] == left[|head|..] == tail[..|left| - |head|];
      CutTexts(b, off + |head|, ss[1..]);
    }
  }

  /** A string too long for its length field does not come back. */
  lemma {:induction false} LongTexts(b: seq<Byte>, off: nat, ss: seq<Text>)
    requires off <= |b| && Texts(ss) <= b[off..]
    requires exists s :: s in ss && !Short(s)
    ensures GetTexts(b, off, |ss|).Some? ==> GetTexts(b, off, |ss|).value.texts != ss
    decreases ss
  {
    hide StrBytes, GetStr, Short;
    var head, tail := StrBytes(ss[0]), Texts(ss[1..]);
    assert head <= b[off..] by { assert b[off..][..|head + tail|][..|head|] == head; }
    ReadStr(b, off, ss[0]);
    var f := GetTexts(b, off, |ss|);
    if f.Some? && f.value.texts == ss {
      assert f.value.texts[0] == ss[0] && f.value.texts[1..] == ss[1..];
      assert b[off + |head|..][..|tail|] == b[off..][..|head + tail|][|head|..] == tail;
      LongTexts(b, off + |head|, ss[1..]);
    }
  }

  lemma StrConsumed(b: seq<Byte>, off: nat)
    requires off <= |b| && GetStr(b, off).Some?
    ensures var p := GetStr(b, off).value;
            off < p.next <= |b| && b[off..p.next] == StrBytes(p.text) && Short(p.text)
  {
    WriteU16(b, off);
    var p := GetStr(b, off).value;
    assert b[off..p.next] == b[off..off + 2] + b[off + 2..p.next];
  }

  /** What is accepted is in bounds and is the encoding of what is returned. */
  lemma {:induction false} TextsConsumed(b: seq<Byte>, off: nat, k: nat)
    requires off <= |b| && GetTexts(b, off, k).Some?
    ensures var f := GetTexts(b, off, k).value;
            && |f.texts| == k && off <= f.next <= |b| && b[off..f.next] == Texts(f.texts)
            && (forall s :: s in f.texts ==> Short(s))
    decreases k
  {
    if k > 0 {
      var p := GetStr(b, off).value;
      StrConsumed(b, off);
      hide GetStr, StrBytes, Short;
      TextsConsumed(b, p.next, k - 1);
      var f := GetTexts(b, off, k).value;
      assert f.texts[1..] == GetTexts(b, p.next, k - 1).value.texts;
      assert b[off..f.next] == b[off..p.next] + b[p.next..f.next];
    }
  }

  /** Strings in a row survive the wire exactly when each fits its length field, whatever follows them. */
  lemma TextsExactly(ss: seq<Text>, rest: seq<Byte>)
    ensures GetTexts(Texts(ss) + rest, 0, |ss|) == Some(Fields(ss, |Texts(ss)|)) <==> forall s :: s in ss ==> Short(s)
  {
    var b := Texts(ss) + rest;
    assert b[0..] == b && b[..|Texts(ss)|] == Texts(ss);
    if forall s :: s in ss ==> Short(s) {
      ReadTexts(b, 0, ss);
    } else {
      LongTexts(b, 0, ss);
    }
  }

  lemma OneText(b: seq<Byte>, off: nat)
    ensures GetTexts(b, off, 1) == match GetStr(b, off)
                                   case None => None
                                   case Some(p) => Some(Fields([p.text], p.next))
  {
    hide GetStr;
    if GetStr(b, off).Some? {
      var p := GetStr(b, off).value;
      assert GetTexts(b, p.next, 0) == Some(Fields([], p.next));
      assert [p.text] + [] == [p.text];
    }
  }

  // ----- Registration and room requests -----

  datatype Reg = Reg(account: Text, password: Text, nickname: Text)

  method EncodeReg(r: Reg) returns (b: array<Byte>)
    ensures fresh(b) && b[..] == Texts([r.account, r.password, r.nickname])
  {
    ThreeTexts(r.account, r.password, r.nickname);
    b := new Byte[2 + |r.account| + 2 + |r.password| + 2 + |r.nickname|](_ => 0);
    var off := PutStr(b, 0, r.account);
    off := PutStr(b, off, r.password);
    off := PutStr(b, off, r.nickname);
    assert b[..] == b[..off];
  }

  function DecodeReg(b: seq<Byte>): Option<Reg>
  {
    match GetStr(b, 0)
    case None => None
    case Some(account) =>
      match GetStr(b, account.next)
      case None => None
      case Some(password) =>
        match GetStr(b, password.next)
        case None => None
        case Some(nickname) => Some(Reg(account.text, password.text, nickname.text))
  }

  lemma ThreeTexts(x: Text, y: Text, z: Text)
    ensures Texts([x, y, z]) == StrBytes(x) + StrBytes(y) + StrBytes(z)
  {
    assert [x, y, z][1..] == [y, z];
    TwoTexts(y, z);
  }

  lemma ThreeStrings(b: seq<Byte>)
    ensures DecodeReg(b) == match GetTexts(b, 0, 3)
                            case None => None
                            case Some(f) => Some(Reg(f.texts[0], f.texts[1], f.texts[2]))
  {
    hide GetStr;
    if GetStr(b, 0).Some? {
      var p := GetStr(b, 0).value;
      if GetStr(b, p.next).Some? {
        var q := GetStr(b, p.next).value;
        OneText(b, q.next);
        assert GetTexts(b, p.next, 2).Some? <==> GetTexts(b, q.next, 1).Some?;
      }
    }
  }

  /** A registration survives the wire exactly when its three strings fit; a cut one is refused. */
  lemma RegExactly(r: Reg)
    ensures var ss := [r.account, r.password, r.nickname];
            && (DecodeReg(Texts(ss)) == Some(r) <==> forall s :: s in ss ==> Short(s))
            && ((forall s :: s in ss ==> Short(s)) ==> forall k :: 0 <= k < |Texts(ss)| ==> DecodeReg(Texts(ss)[..k]) == None)
  {
    var ss := [r.account, r.password, r.nickname];
    var b := Texts(ss);
    ThreeStrings(b);
    assert b + [] == b;
    if GetTexts(b, 0, 3).Some? {
      assert b[0..] == b;
      TextsConsumed(b, 0, 3);
      var f := GetTexts(b, 0, 3).value;
      assert f.texts == [f.texts[0], f.texts[1], f.texts[2]];
    }
    if forall s :: s in ss ==> Short(s) {
      TextsExactly(ss, []);
      forall k | 0 <= k < |b| ensures DecodeReg(b[..k]) == None {
        assert b[..k][0..] == b[..k];
        CutTexts(b[..k], 0, ss);
        ThreeStrings(b[..k]);
      }
    } else {
      assert b[0..] == b;
      LongTexts(b, 0, ss);
    }
  }

  datatype RoomOp = RoomOp(name: Text, note: Text)

  method EncodeRoomOp(op: RoomOp) returns (b: array<Byte>)
    ensures fresh(b) && b[..] == Texts([op.name, op.note])
  {
    TwoTexts(op.name, op.note);
    b := new Byte[2 + |op.name| + 2 + |op.note|](_ => 0);
    var off := PutStr(b, 0, op.name);
    off := PutStr(b, off, op.note);
    assert b[..] == b[..off];
  }

  function DecodeRoomOp(b: seq<Byte>): Option<RoomOp>
  {
    match GetStr(b, 0)
    case None => None
    case Some(name) =>
      match GetStr(b, name.next)
      case None => None
      case Some(note) => Some(RoomOp(name.text, note.text))
  }

  lemma TwoTexts(x: Text, y: Text)
    ensures Texts([x, y]) == StrBytes(x) + StrBytes(y)
  {
    assert [x, y][1..] == [y] && [y][1..] == [];
    assert Texts([y]) == StrBytes(y);
  }

  lemma TwoStrings(b: seq<Byte>)
    ensures DecodeRoomOp(b) == match GetTexts(b, 0, 2)
                               case None => None
                               case Some(f) => Some(RoomOp(f.texts[0], f.texts[1]))
  {
    hide GetStr;
    if GetStr(b, 0).Some? {
      var p := GetStr(b, 0).value;
      OneText(b, p.next);
    }
  }

  lemma RoomOpExactly(op: RoomOp)
    ensures var ss := [op.name, op.note];
            DecodeRoomOp(Texts(ss)) == Some(op) <==> Short(op.name) && Short(op.note)
  {
    var ss := [op.name, op.note];
    var b := Texts(ss);
    TwoStrings(b);
    assert b + [] == b;
    TextsExactly(ss, []);
    if GetTexts(b, 0, 2).Some? {
      assert b[0..] == b;
      TextsConsumed(b, 0, 2);
      var f := GetTexts(b, 0, 2).value;
      assert f.texts == [f.texts[0], f.texts[1]];
    }
    if !(forall s :: s in ss ==> Short(s)) {
      assert b[0..] == b;
      LongTexts(b, 0, ss);
    } else {
      assert Short(ss[0]) && Short(ss[1]);
    }
  }

  // ----- Login response -----

  datatype LoginResp = LoginResp(errCode: Byte, token: Text, uid: Uid, nickname: Text)

  function LoginRespBytes(r: LoginResp): seq<Byte>
  {
    [r.errCode] + StrBytes(r.token) + U32(r.uid) + StrBytes(r.nickname)
  }

  method EncodeLoginResp(r: LoginResp) returns (b: array<Byte>)
    ensures fresh(b) && b[..] == LoginRespBytes(r)
  {
    b := new Byte[1 + 2 + |r.token| + 4 + 2 + |r.nickname|](_ => 0);
    PutByte(b, 0, r.errCode);
    var off := PutStr(b, 1, r.token);
    PutU32(b, off, r.uid);
    off := PutStr(b, off + 4, r.nickname);
    assert b[..] == b[..off];
  }

  function DecodeLoginResp(b: seq<Byte>): Option<LoginResp>
  {
    if |b| < 1 then None
    else
      match GetStr(b, 1)
      case None => None
      case Some(token) =>
        if |b| < token.next + 4 then None
        else
          match GetStr(b, token.next + 4)
          case None => None
          case Some(nickname) => Some(LoginResp(b[0], token.text, GetU32(b, token.next), nickname.text))
  }

  lemma LoginRespExactly(r: LoginResp)
    ensures DecodeLoginResp(LoginRespBytes(r)) == Some(r) <==> Short(r.token) && Short(r.nickname)
  {
    hide StrBytes, GetStr;
    var b := LoginRespBytes(r);
    var at := 1 + |StrBytes(r.token)|;
    assert b[1..][..|StrBytes(r.token)|] == StrBytes(r.token);
    ReadStr(b, 1, r.token);
    assert b[at..at + 4] == U32(r.uid);
    ReadU32(b, at, r.uid);
    assert b[at + 4..] == StrBytes(r.nickname);
    ReadStr(b, at + 4, r.nickname);
  }

  // ----- Rooms -----

  datatype RoomInfo = RoomInfo(name: Text, creator: Text, note: Text, players: int, max: int)

  /** Counts are sent as single bytes. */
  function RoomInfoBytes(r: RoomInfo): seq<Byte>
  {
    Texts([r.name, r.creator, r.note]) + [r.players % 0x100, r.max % 0x100]
  }

  predicate RoomFits(r: RoomInfo)
  {
    Short(r.name) && Short(r.creator) && Short(r.note) && 0 <= r.players < 0x100 && 0 <= r.max < 0x100
  }

  method EncodeRoomInfo(r: RoomInfo) returns (b: array<Byte>)
    ensures fresh(b) && b[..] == RoomInfoBytes(r)
  {
    ThreeTexts(r.name, r.creator, r.note);
    hide StrBytes, Texts;
    b := new Byte[2 + |r.name| + 2 + |r.creator| + 2 + |r.note| + 2](_ => 0);
    var off := PutStr(b, 0, r.name);
    off := PutStr(b, off, r.creator);
    off := PutStr(b, off, r.note);
    ghost var texts := Texts([r.name, r.creator, r.note]);
    assert b[..off] == texts;
    PutByte(b, off, r.players % 0x100);
    assert b[..off + 1] == texts + [r.players % 0x100];
    PutByte(b, off + 1, r.max % 0x100);
    assert b[..] == b[..off + 2];
  }

  function RoomSize(r: RoomInfo): nat { 2 + |r.name| + 2 + |r.creator| + 2 + |r.note| + 2 }

  /** An accepted record lies within the bytes, so the list decoder can step over it. */
  function DecodeRoomInfo(b: seq<Byte>): (r: Option<RoomInfo>)
    ensures r.Some? ==> RoomSize(r.value) <= |b|
  {
    match GetStr(b, 0)
    case None => None
    case Some(name) =>
      match GetStr(b, name.next)
      case None => None
      case Some(creator) =>
        match GetStr(b, creator.next)
        case None => None
        case Some(note) =>
          var off := note.next;
          if |b| < off + 2 then None
          else Some(RoomInfo(name.text, creator.text, note.text, b[off], b[off + 1]))
  }

  function RoomListBody(rooms: seq<RoomInfo>): seq<Byte>
  {
    if rooms == [] then [] else RoomInfoBytes(rooms[0]) + RoomListBody(rooms[1..])
  }

  function RoomListBytes(rooms: seq<RoomInfo>): seq<Byte> { [|rooms| % 0x100] + RoomListBody(rooms) }

  method EncodeRoomList(rooms: seq<RoomInfo>) returns (b: seq<Byte>)
    ensures b == RoomListBytes(rooms)
  {
    b := [|rooms| % 0x100];
    for i := 0 to |rooms|
      invariant b + RoomListBody(rooms[i..]) == RoomListBytes(rooms)
    {
      assert rooms[i..][1..] == rooms[i + 1..];
      ghost var rest := RoomListBody(rooms[i + 1..]);
      var entry := EncodeRoomInfo(rooms[i]);
      assert b + (entry[..] + rest) == b + entry[..] + rest;
      b := b + entry[..];
    }
    assert b + [] == b;
  }

  /** `n` room records in a row. */
  function GetRooms(b: seq<Byte>, n: nat): Option<seq<RoomInfo>>
  {
    if n == 0 then Some([])
    else
      match DecodeRoomInfo(b)
      case None => None
      case Some(r) =>
        match GetRooms(b[RoomSize(r)..], n - 1)
        case None => None
        case Some(more) => Some([r] + more)
  }

  function RoomListOf(b: seq<Byte>): Option<seq<RoomInfo>>
  {
    if |b| < 1 then None else GetRooms(b[1..], b[0])
  }

  /** Stays in bounds on arbitrary bytes. */
  method DecodeRoomList(b: seq<Byte>) returns (rooms: Option<seq<RoomInfo>>)
    ensures rooms == RoomListOf(b)
  {
    hide DecodeRoomInfo;
    if |b| < 1 {
      return None;
    }
    var n := b[0];
    var off := 1;
    var list := [];
    forall more: seq<RoomInfo> ensures list + more == more {
    }
    for i := 0 to n
      invariant off <= |b|
      invariant RoomListOf(b) == match GetRooms(b[off..], n - i)
                                 case None => None
                                 case Some(more) => Some(list + more)
    {
      var r := DecodeRoomInfo(b[off..]);
      if r.None? {
        return None;
      }
      ghost var at := off;
      off := off + RoomSize(r.value);
      assert b[at..][RoomSize(r.value)..] == b[off..];
      forall more: seq<RoomInfo> ensures list + ([r.value] + more) == list + [r.value] + more {
      }
      list := list + [r.value];
    }
    assert list + [] == list;
    rooms := Some(list);
  }

  lemma RoomByTexts(b: seq<Byte>)
    ensures DecodeRoomInfo(b) == match GetTexts(b, 0, 3)
                                 case None => None
                                 case Some(f) => if |b| < f.next + 2 then None
                                                 else Some(RoomInfo(f.texts[0], f.texts[1], f.texts[2], b[f.next], b[f.next + 1]))
  {
    hide GetStr;
    if GetStr(b, 0).Some? {
      var p := GetStr(b, 0).value;
      if GetStr(b, p.next).Some? {
        var q := GetStr(b, p.next).value;
        OneText(b, q.next);
        assert GetTexts(b, p.next, 2).Some? <==> GetTexts(b, q.next, 1).Some?;
      }
    }
  }

  lemma RoomSizeIs(r: RoomInfo)
    ensures |RoomInfoBytes(r)| == RoomSize(r)
  {
    ThreeTexts(r.name, r.creator, r.note);
  }

  lemma RoomParts(r: RoomInfo, rest: seq<Byte>)
    ensures var t, b := Texts([r.name, r.creator, r.note]), RoomInfoBytes(r) + rest;
            && b[0..] == b && t <= b
            && |b| >= |t| + 2 && b[|t|] == r.players % 0x100 && b[|t| + 1] == r.max % 0x100
  {
    hide Texts;
    var t := Texts([r.name, r.creator, r.note]);
    assert RoomInfoBytes(r) + rest == t + ([r.players % 0x100, r.max % 0x100] + rest);
  }

  predicate AllShort(ss: seq<Text>) { forall s :: s in ss ==> Short(s) }

  lemma ThreeShort(x: Text, y: Text, z: Text)
    ensures AllShort([x, y, z]) <==> Short(x) && Short(y) && Short(z)
  {
    hide Short;
    var ss := [x, y, z];
    assert ss[0] == x && ss[1] == y && ss[2] == z;
  }

  /** One record comes back exactly when it fits, whatever follows it. */
  lemma RoomExactly(r: RoomInfo, rest: seq<Byte>)
    ensures DecodeRoomInfo(RoomInfoBytes(r) + rest) == Some(r) <==> RoomFits(r)
  {
    hide GetTexts, Texts, Short, GetStr, DecodeRoomInfo, RoomInfoBytes;
    var ss := [r.name, r.creator, r.note];
    var b := RoomInfoBytes(r) + rest;
    RoomByTexts(b);
    RoomParts(r, rest);
    ThreeShort(r.name, r.creator, r.note);
    if AllShort(ss) {
      ReadTexts(b, 0, ss);
    } else {
      LongTexts(b, 0, ss);
      ThreeApart(b, ss);
    }
  }

  lemma ThreeApart(b: seq<Byte>, ss: seq<Text>)
    requires |ss| == 3
    ensures var f := GetTexts(b, 0, 3);
            f.Some? && f.value.texts != ss ==> f.value.texts[0] != ss[0] || f.value.texts[1] != ss[1] || f.value.texts[2] != ss[2]
  {
    hide GetTexts;
    var f := GetTexts(b, 0, 3);
    if f.Some? {
      assert f.value.texts == [f.value.texts[0], f.value.texts[1], f.value.texts[2]];
    }
  }

  lemma CutRoom(b: seq<Byte>, r: RoomInfo)
    requires RoomFits(r) && b < RoomInfoBytes(r)
    ensures DecodeRoomInfo(b) == None
  {
    var ss := [r.name, r.creator, r.note];
    var t := Texts(ss);
    RoomByTexts(b);
    assert b[0..] == b;
    assert b == RoomInfoBytes(r)[..|b|];
    hide GetTexts, Texts;
    if |b| < |t| {
      assert b == t[..|b|];
      CutTexts(b, 0, ss);
    } else {
      assert b[..|t|] == t;
      ReadTexts(b, 0, ss);
    }
  }

  lemma {:induction false} RoomsExactly(rooms: seq<RoomInfo>, rest: seq<Byte>)
    ensures GetRooms(RoomListBody(rooms) + rest, |rooms|) == Some(rooms) <==> forall r :: r in rooms ==> RoomFits(r)
  {
    hide DecodeRoomInfo, RoomInfoBytes, RoomFits;
    if rooms != [] {
      var r, more := rooms[0], RoomListBody(rooms[1..]) + rest;
      var b := RoomListBody(rooms) + rest;
      assert b == RoomInfoBytes(r) + more;
      RoomExactly(r, more);
      RoomSizeIs(r);
      assert b[RoomSize(r)..] == more;
      RoomsExactly(rooms[1..], rest);
      var tail := GetRooms(more, |rooms| - 1);
      if RoomFits(r) && tail.Some? {
        assert ([r] + tail.value)[1..] == tail.value && rooms == [r] + rooms[1..];
      }
      assert rooms == [r] + rooms[1..];
    }
  }

  lemma {:induction false} CutRooms(b: seq<Byte>, rooms: seq<RoomInfo>)
    requires b < RoomListBody(rooms)
    requires forall r :: r in rooms ==> RoomFits(r)
    ensures GetRooms(b, |rooms|) == None
  {
    hide DecodeRoomInfo, RoomInfoBytes, RoomFits;
    var r := rooms[0];
    var head := RoomInfoBytes(r);
    assert b == RoomListBody(rooms)[..|b|];
    if |b| < |head| {
      assert b == head[..|b|];
      CutRoom(b, r);
    } else {
      var more := b[|head|..];
      assert b == head + more;
      RoomExactly(r, more);
      RoomSizeIs(r);
      assert more == RoomListBody(rooms[1..])[..|more|];
      CutRooms(more, rooms[1..]);
    }
  }

  /** A room list survives the wire exactly when it has at most 255 rooms, each of which fits. */
  lemma RoomListExactly(rooms: seq<RoomInfo>)
    ensures RoomListOf(RoomListBytes(rooms)) == Some(rooms) <==> |rooms| < 0x100 && forall r :: r in rooms ==> RoomFits(r)
  {
    hide RoomListBody, GetRooms, RoomFits;
    var b := RoomListBytes(rooms);
    assert b[1..] == RoomListBody(rooms) == RoomListBody(rooms) + [];
    if |rooms| < 0x100 {
      RoomsExactly(rooms, []);
    } else {
      GetRoomsLength(b[1..], b[0]);
    }
  }

  lemma {:induction false} GetRoomsLength(b: seq<Byte>, n: nat)
    ensures GetRooms(b, n).Some? ==> |GetRooms(b, n).value| == n
  {
    hide DecodeRoomInfo;
    if n > 0 && DecodeRoomInfo(b).Some? {
      GetRoomsLength(b[RoomSize(DecodeRoomInfo(b).value)..], n - 1);
    }
  }

  /** A room list cut short anywhere is refused. */
  lemma CutRoomList(rooms: seq<RoomInfo>, k: nat)
    requires |rooms| < 0x100 && forall r :: r in rooms ==> RoomFits(r)
    requires k < |RoomListBytes(rooms)|
    ensures RoomListOf(RoomListBytes(rooms)[..k]) == None
  {
    hide RoomListBody, GetRooms, RoomFits;
    var b := RoomListBytes(rooms)[..k];
    if k >= 1 {
      assert b[1..] == RoomListBody(rooms)[..k - 1];
      CutRooms(b[1..], rooms);
    }
  }
}
