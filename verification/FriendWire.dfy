/** Friend lists of internal/protocol/lobby.go. The record decoder takes a missing last byte for "offline", while the
    list decoder steps over a whole record; a list that ends one byte early is therefore not always refused. */
module FriendWire {
  import opened Base
  import opened Bytes
  import opened LobbyWire

  datatype FriendInfo = FriendInfo(uid: Uid, nickname: Text, online: bool)

  function FriendBytes(f: FriendInfo): seq<Byte>
  {
    U32(f.uid) + StrBytes(f.nickname) + [if f.online then 1 else 0]
  }

  function FriendSize(f: FriendInfo): nat { 4 + 2 + |f.nickname| + 1 }

  method EncodeFriendInfo(f: FriendInfo) returns (b: array<Byte>)
    ensures fresh(b) && b[..] == FriendBytes(f)
  {
    b := new Byte[FriendSize(f)](_ => 0);
    PutU32(b, 0, f.uid);
    var off := PutStr(b, 4, f.nickname);
    if f.online {
      b[off] := 1;
    }
    assert b[..] == b[..off] + [b[off]];
  }

  function DecodeFriendInfo(b: seq<Byte>): (f: Option<FriendInfo>)
    ensures f.Some? ==> FriendSize(f.value) <= |b| + 1
  {
    if |b| < 4 then None
    else
      match GetStr(b, 4)
      case None => None
      case Some(nick) => Some(FriendInfo(GetU32(b, 0), nick.text, nick.next < |b| && b[nick.next] == 1))
  }

  function FriendListBody(l: seq<FriendInfo>): seq<Byte>
  {
    if l == [] then [] else FriendBytes(l[0]) + FriendListBody(l[1..])
  }

  function FriendListBytes(l: seq<FriendInfo>): seq<Byte> { [|l| % 0x100] + FriendListBody(l) }

  method EncodeFriendList(l: seq<FriendInfo>) returns (b: seq<Byte>)
    ensures b == FriendListBytes(l)
  {
    b := [|l| % 0x100];
    for i := 0 to |l|
      invariant b + FriendListBody(l[i..]) == FriendListBytes(l)
    {
      assert l[i..][1..] == l[i + 1..];
      ghost var rest := FriendListBody(l[i + 1..]);
      var entry := EncodeFriendInfo(l[i]);
      assert b + (entry[..] + rest) == b + entry[..] + rest;
      b := b + entry[..];
    }
    assert b + [] == b;
  }

  /** `OutOfRange`: the decoder has stepped past the end of its input and stops with a runtime error. */
  datatype Parsed = Done(friends: seq<FriendInfo>) | Malformed | OutOfRange

  /** `n` friend records in a row. */
  function GetFriends(b: seq<Byte>, n: nat): Parsed
  {
    if n == 0 then Done([])
    else
      match DecodeFriendInfo(b)
      case None => Malformed
      case Some(f) =>
        if n == 1 then Done([f])
        else if FriendSize(f) > |b| then OutOfRange
        else
          match GetFriends(b[FriendSize(f)..], n - 1)
          case Done(more) => Done([f] + more)
          case failed => failed
  }

  function FriendListOf(b: seq<Byte>): Parsed { if |b| < 1 then Malformed else GetFriends(b[1..], b[0]) }

  method DecodeFriendList(b: seq<Byte>) returns (r: Parsed)
    ensures r == FriendListOf(b)
  {
    hide DecodeFriendInfo;
    if |b| < 1 {
      return Malformed;
    }
    var n := b[0];
    var off := 1;
    var list := [];
    forall more: seq<FriendInfo> ensures list + more == more {
    }
    for i := 0 to n
      invariant 1 <= off && (off > |b| ==> i > 0)
      invariant FriendListOf(b) == if off > |b| then if i < n then OutOfRange else Done(list)
                                   else match GetFriends(b[off..], n - i)
                                        case Done(more) => Done(list + more)
                                        case failed => failed
    {
      if off > |b| {
        return OutOfRange;
      }
      var f := DecodeFriendInfo(b[off..]);
      if f.None? {
        return Malformed;
      }
      ghost var at := off;
      off := off + FriendSize(f.value);
      if off <= |b| {
        assert b[at..][FriendSize(f.value)..] == b[off..];
      }
      forall more: seq<FriendInfo> ensures list + ([f.value] + more) == list + [f.value] + more {
      }
      assert [f.value] + [] == [f.value];
      list := list + [f.value];
    }
    assert list + [] == list;
    r := Done(list);
  }

  predicate FriendFits(f: FriendInfo) { Short(f.nickname) }

  lemma FriendSizeIs(f: FriendInfo)
    ensures |FriendBytes(f)| == FriendSize(f)
  {
  }

  /** One record comes back exactly when its nickname fits, whatever follows it. */
  lemma FriendExactly(f: FriendInfo, rest: seq<Byte>)
    ensures DecodeFriendInfo(FriendBytes(f) + rest) == Some(f) <==> FriendFits(f)
  {
    var b := FriendBytes(f) + rest;
    hide StrBytes, GetStr;
    assert b[0..4] == U32(f.uid);
    ReadU32(b, 0, f.uid);
    var s := StrBytes(f.nickname);
    assert b[4..][..|s|] == s;
    ReadStr(b, 4, f.nickname);
    assert b[4 + |s|] == if f.online then 1 else 0;
  }

  /** A record without its last byte is read as offline; a shorter one is refused. */
  lemma CutFriend(f: FriendInfo, k: nat)
    requires FriendFits(f) && k < FriendSize(f)
    ensures k <= |FriendBytes(f)|
    ensures DecodeFriendInfo(FriendBytes(f)[..k]) == if k + 1 == FriendSize(f) then Some(f.(online := false)) else None
  {
    FriendSizeIs(f);
    var b := FriendBytes(f)[..k];
    var s := StrBytes(f.nickname);
    assert FriendBytes(f)[4..][..|s|] == s;
    if k >= 4 {
      assert b[0..4] == U32(f.uid);
      ReadU32(b, 0, f.uid);
      assert b[4..] == s[..k - 4];
      if k + 1 == FriendSize(f) {
        assert b[4..] == s;
        ReadStr(b, 4, f.nickname);
      } else {
        CutStr(b, 4, f.nickname);
      }
    }
  }

  lemma FirstFriend(f: FriendInfo, more: seq<Byte>, n: nat)
    requires FriendFits(f) && n > 0
    ensures GetFriends(FriendBytes(f) + more, n) == match GetFriends(more, n - 1)
                                                    case Done(fs) => Done([f] + fs)
                                                    case failed => failed
  {
    hide DecodeFriendInfo, FriendBytes, FriendFits;
    FriendExactly(f, more);
    FriendSizeIs(f);
    assert (FriendBytes(f) + more)[FriendSize(f)..] == more;
    assert [f] + [] == [f];
  }

  lemma FirstIsDecoded(b: seq<Byte>, n: nat)
    requires n > 0 && GetFriends(b, n).Done?
    ensures GetFriends(b, n).friends != [] && DecodeFriendInfo(b) == Some(GetFriends(b, n).friends[0])
  {
    hide DecodeFriendInfo;
  }

  lemma {:induction false} FriendsExactly(l: seq<FriendInfo>, rest: seq<Byte>)
    ensures GetFriends(FriendListBody(l) + rest, |l|) == Done(l) <==> forall f :: f in l ==> FriendFits(f)
  {
    hide DecodeFriendInfo, FriendBytes, FriendFits, GetFriends;
    if l == [] {
      NoFriends(rest);
      assert [] + rest == rest;
    } else {
      var f, more := l[0], FriendListBody(l[1..]) + rest;
      var b := FriendListBody(l) + rest;
      assert b == FriendBytes(f) + more;
      assert l == [f] + l[1..];
      if FriendFits(f) {
        FirstFriend(f, more, |l|);
        FriendsExactly(l[1..], rest);
        var tail := GetFriends(more, |l| - 1);
        if tail.Done? { assert ([f] + tail.friends)[1..] == tail.friends; }
      } else {
        FriendExactly(f, more);
        if GetFriends(b, |l|).Done? { FirstIsDecoded(b, |l|); }
      }
    }
  }

  lemma NoFriends(b: seq<Byte>)
    ensures GetFriends(b, 0) == Done([])
  {
  }

  lemma {:induction false} GetFriendsLength(b: seq<Byte>, n: nat)
    ensures GetFriends(b, n).Done? ==> |GetFriends(b, n).friends| == n
  {
    hide DecodeFriendInfo;
    if n > 1 && DecodeFriendInfo(b).Some? {
      var size := FriendSize(DecodeFriendInfo(b).value);
      if size <= |b| {
        GetFriendsLength(b[size..], n - 1);
      }
    }
  }

  /** A friend list survives the wire exactly when it has at most 255 entries with nicknames that fit. */
  lemma FriendListExactly(l: seq<FriendInfo>)
    ensures FriendListOf(FriendListBytes(l)) == Done(l) <==> |l| < 0x100 && forall f :: f in l ==> FriendFits(f)
  {
    hide FriendListBody, GetFriends, FriendFits;
    var b := FriendListBytes(l);
    assert b[1..] == FriendListBody(l) == FriendListBody(l) + [];
    if |l| < 0x100 {
      FriendsExactly(l, []);
    } else {
      GetFriendsLength(b[1..], b[0]);
    }
  }

  /** A cut one byte before the end of a record that is not the last. */
  ghost predicate CutsInnerRecord(l: seq<FriendInfo>, k: nat)
  {
    exists i :: InnerEnd(l, i, k)
  }

  ghost predicate InnerEnd(l: seq<FriendInfo>, i: int, k: nat)
  {
    0 < i < |l| && k + 1 == |FriendListBody(l[..i])|
  }

  /** What the first `k` bytes of the records decode to. */
  ghost function CutOutcome(l: seq<FriendInfo>, k: nat): Parsed
  {
    if k == |FriendListBody(l)| then Done(l)
    else if l != [] && k + 1 == |FriendListBody(l)| then Done(l[..|l| - 1] + [l[|l| - 1].(online := false)])
    else if CutsInnerRecord(l, k) then OutOfRange
    else Malformed
  }

  lemma InnerEndNext(l: seq<FriendInfo>, k: nat)
    requires |l| > 1 && k >= |FriendBytes(l[0])|
    ensures CutsInnerRecord(l, k) <==> CutsInnerRecord(l[1..], k - |FriendBytes(l[0])|)
  {
    hide FriendBytes;
    var size := |FriendBytes(l[0])|;
    assert l[..1] == [l[0]] && [l[0]][1..] == [];
    assert FriendListBody(l[..1]) == FriendBytes(l[0]);
    if i :| InnerEnd(l, i, k) {
      assert l[..i][1..] == l[1..][..i - 1];
      assert i != 1;
      assert InnerEnd(l[1..], i - 1, k - size);
    }
    var more, k' := l[1..], k - size;
    if i :| InnerEnd(more, i, k') {
      assert l[..i + 1][1..] == l[1..][..i];
      assert InnerEnd(l, i + 1, k);
    }
  }

  lemma InnerEndFirst(l: seq<FriendInfo>, k: nat)
    requires |l| > 1 && k < |FriendBytes(l[0])|
    ensures CutsInnerRecord(l, k) <==> k + 1 == |FriendBytes(l[0])|
  {
    hide FriendBytes;
    assert l[..1] == [l[0]] && [l[0]][1..] == [];
    assert |FriendListBody(l[..1])| == |FriendBytes(l[0])|;
    if k + 1 == |FriendBytes(l[0])| {
      assert InnerEnd(l, 1, k);
    }
    forall i | InnerEnd(l, i, k) ensures k + 1 == |FriendBytes(l[0])| {
      assert l[..i][0] == l[0];
    }
  }

  lemma LastRecord(l: seq<FriendInfo>)
    requires |l| > 1
    ensures l[..|l| - 1] + [l[|l| - 1].(online := false)]
         == [l[0]] + (l[1..][..|l| - 2] + [l[1..][|l| - 2].(online := false)])
    ensures |FriendListBody(l)| == |FriendBytes(l[0])| + |FriendListBody(l[1..])| && |FriendListBody(l[1..])| >= 7
  {
    assert l[..|l| - 1] == [l[0]] + l[1..][..|l| - 2];
    FriendSizeIs(l[1]);
  }

  lemma {:induction false} CutFriends(l: seq<FriendInfo>, k: nat)
    requires forall f :: f in l ==> FriendFits(f)
    requires k <= |FriendListBody(l)|
    ensures GetFriends(FriendListBody(l)[..k], |l|) == CutOutcome(l, k)
  {
    hide DecodeFriendInfo, FriendBytes, FriendFits, CutsInnerRecord;
    if l != [] {
      var f, tail := l[0], FriendListBody(l[1..]);
      var b := FriendListBody(l)[..k];
      var size := FriendSize(f);
      FriendSizeIs(f);
      if |l| == 1 {
        assert tail == [] && FriendListBody(l) == FriendBytes(f);
        assert l == [f] && l[..0] == [];
        if k < size {
          assert b == FriendBytes(f)[..k];
          CutFriend(f, k);
          assert [] + [f.(online := false)] == [f.(online := false)];
          NoInnerEnd(l, k);
        } else {
          assert b == FriendBytes(f) + [];
          FriendExactly(f, []);
        }
      } else {
        LastRecord(l);
        if k < size {
          assert b == FriendBytes(f)[..k];
          CutFriend(f, k);
          InnerEndFirst(l, k);
        } else {
          var more := tail[..k - size];
          assert b == FriendBytes(f) + more;
          FriendExactly(f, more);
          assert b[size..] == more;
          CutFriends(l[1..], k - size);
          InnerEndNext(l, k);
          assert l == [f] + l[1..];
        }
      }
    }
  }

  lemma NoInnerEnd(l: seq<FriendInfo>, k: nat)
    requires |l| <= 1
    ensures !CutsInnerRecord(l, k)
  {
  }

  /** Cutting a friend list: the whole list comes back only from all of its bytes; without the very last byte the last
      friend shows as offline; one byte short of an earlier record the decoder runs past the end; otherwise the cut
      list is refused. */
  lemma CutFriendList(l: seq<FriendInfo>, k: nat)
    requires |l| < 0x100 && forall f :: f in l ==> FriendFits(f)
    requires k <= |FriendListBytes(l)|
    ensures FriendListOf(FriendListBytes(l)[..k]) == if k == 0 then Malformed else CutOutcome(l, k - 1)
  {
    hide FriendListBody, GetFriends, FriendFits, CutOutcome;
    if k >= 1 {
      var b := FriendListBytes(l)[..k];
      assert b[1..] == FriendListBody(l)[..k - 1];
      CutFriends(l, k - 1);
    }
  }

  // ----- Which bytes make the decoder step past the end -----

  /** A record as it may stand in any input: its last byte can be anything. */
  datatype Raw = Raw(uid: Uid, nickname: Text, last: Byte)

  /** A record without its last byte. */
  function Stem(uid: Uid, nickname: Text): seq<Byte> { U32(uid) + StrBytes(nickname) }

  function RawBody(rs: seq<Raw>): seq<Byte>
  {
    if rs == [] then [] else Stem(rs[0].uid, rs[0].nickname) + [rs[0].last] + RawBody(rs[1..])
  }

  /** The bytes are whole records and one more without its last byte, fewer in all than `n`. */
  ghost predicate StopsShort(b: seq<Byte>, n: nat, rs: seq<Raw>, uid: Uid, nickname: Text)
  {
    && |rs| + 1 < n
    && Short(nickname) && (forall r :: r in rs ==> Short(r.nickname))
    && b == RawBody(rs) + Stem(uid, nickname)
  }

  /** What is accepted as a record is one, whole or without its last byte. */
  lemma FriendConsumed(b: seq<Byte>)
    requires DecodeFriendInfo(b).Some?
    ensures var f := DecodeFriendInfo(b).value;
            && Short(f.nickname) && FriendSize(f) == |Stem(f.uid, f.nickname)| + 1
            && |Stem(f.uid, f.nickname)| <= |b| && b[..|Stem(f.uid, f.nickname)|] == Stem(f.uid, f.nickname)
  {
    StrConsumed(b, 4);
    WriteU32(b, 0);
    var next := GetStr(b, 4).value.next;
    hide GetStr, GetU32, U32;
    assert b[..next] == b[0..4] + b[4..next];
  }

  lemma StemIsRead(uid: Uid, nickname: Text, rest: seq<Byte>)
    requires Short(nickname)
    ensures var f := DecodeFriendInfo(Stem(uid, nickname) + rest);
            f.Some? && FriendSize(f.value) == |Stem(uid, nickname)| + 1
  {
    var b, s := Stem(uid, nickname) + rest, StrBytes(nickname);
    assert b[4..][..|s|] == s;
    ReadStr(b, 4, nickname);
  }

  lemma StopsAtOnce(n: nat, uid: Uid, nickname: Text)
    requires 1 < n && Short(nickname)
    ensures StopsShort(Stem(uid, nickname), n, [], uid, nickname)
  {
    hide Stem, Short;
    assert [] + Stem(uid, nickname) == Stem(uid, nickname);
  }

  lemma StopsLater(b: seq<Byte>, n: nat, r: Raw, rs: seq<Raw>, uid: Uid, nickname: Text)
    requires StopsShort(b, n, rs, uid, nickname) && Short(r.nickname)
    ensures StopsShort(Stem(r.uid, r.nickname) + [r.last] + b, n + 1, [r] + rs, uid, nickname)
  {
    hide Stem, Short;
    var head := Stem(r.uid, r.nickname) + [r.last];
    assert ([r] + rs)[1..] == rs;
    assert head + (RawBody(rs) + Stem(uid, nickname)) == head + RawBody(rs) + Stem(uid, nickname);
  }

  lemma {:induction false} PastTheEndMeans(b: seq<Byte>, n: nat)
    requires GetFriends(b, n) == OutOfRange
    ensures exists rs, uid, nickname :: StopsShort(b, n, rs, uid, nickname)
  {
    hide DecodeFriendInfo, Stem, Short, StopsShort;
    FriendConsumed(b);
    var f := DecodeFriendInfo(b).value;
    var size := FriendSize(f);
    if size > |b| {
      StopsAtOnce(n, f.uid, f.nickname);
      assert b == Stem(f.uid, f.nickname);
    } else {
      PastTheEndMeans(b[size..], n - 1);
      var rs, uid, nickname :| StopsShort(b[size..], n - 1, rs, uid, nickname);
      StopsLater(b[size..], n - 1, Raw(f.uid, f.nickname, b[size - 1]), rs, uid, nickname);
      assert b == b[..size - 1] + [b[size - 1]] + b[size..];
    }
  }

  lemma {:induction false} StoppingShort(b: seq<Byte>, n: nat, rs: seq<Raw>, uid: Uid, nickname: Text)
    requires StopsShort(b, n, rs, uid, nickname)
    ensures GetFriends(b, n) == OutOfRange
  {
    hide DecodeFriendInfo, Stem, Short;
    if rs == [] {
      StemIsRead(uid, nickname, []);
      assert b == Stem(uid, nickname) + [];
    } else {
      var head := Stem(rs[0].uid, rs[0].nickname);
      var more := RawBody(rs[1..]) + Stem(uid, nickname);
      assert b == head + ([rs[0].last] + more);
      StemIsRead(rs[0].uid, rs[0].nickname, [rs[0].last] + more);
      assert b[|head| + 1..] == more;
      StoppingShort(more, n - 1, rs[1..], uid, nickname);
    }
  }

  /** The list decoder steps past the end of its input if and only if what follows the count is whole records and then one
      without its last byte, and the count promises still more. */
  lemma PastTheEndExactly(b: seq<Byte>)
    ensures FriendListOf(b) == OutOfRange <==> b != [] && exists rs, uid, nickname :: StopsShort(b[1..], b[0], rs, uid, nickname)
  {
    hide GetFriends, StopsShort;
    if FriendListOf(b) == OutOfRange {
      PastTheEndMeans(b[1..], b[0]);
    }
    if b != [] && exists rs, uid, nickname :: StopsShort(b[1..], b[0], rs, uid, nickname) {
      var rs, uid, nickname :| StopsShort(b[1..], b[0], rs, uid, nickname);
      StoppingShort(b[1..], b[0], rs, uid, nickname);
    }
  }
}
