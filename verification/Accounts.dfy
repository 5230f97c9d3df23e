/** The account records of internal/store/store.go as a plain list in order of creation. */
module Accounts {
  import opened Base
  import opened Bytes

  datatype Record = Record(id: Uid, account: Text, passwordHash: Text, nickname: Text, equipId: int)

  datatype Error = AccountExists | NicknameExists | NotFound

  /** Ids are counted with 32 bits, from 1. */
  function IdAt(i: nat): Uid { (i + 1) % 0x1_0000_0000 }

  predicate HasAccount(list: seq<Record>, account: Text) { exists i :: 0 <= i < |list| && list[i].account == account }

  predicate HasNickname(list: seq<Record>, nickname: Text) { exists i :: 0 <= i < |list| && list[i].nickname == nickname }

  datatype Outcome = Outcome(list: seq<Record>, err: Option<Error>)

  function Created(list: seq<Record>, r: Record): Outcome
  {
    if HasAccount(list, r.account) then Outcome(list, Some(AccountExists))
    else if HasNickname(list, r.nickname) then Outcome(list, Some(NicknameExists))
    else Outcome(list + [r.(id := IdAt(|list|))], None)
  }

  function FindAccount(list: seq<Record>, account: Text): Option<Record>
  {
    if list == [] then None else if list[0].account == account then Some(list[0]) else FindAccount(list[1..], account)
  }

  function FindNickname(list: seq<Record>, nickname: Text): Option<Record>
  {
    if list == [] then None else if list[0].nickname == nickname then Some(list[0]) else FindNickname(list[1..], nickname)
  }

  /** Where the last record with that id stands. */
  function LastWith(list: seq<Record>, id: Uid): (at: Option<nat>)
    ensures match at
            case None => forall j :: 0 <= j < |list| ==> list[j].id != id
            case Some(i) => i < |list| && list[i].id == id && forall j :: i < j < |list| ==> list[j].id != id
  {
    if list == [] then None
    else if list[|list| - 1].id == id then Some(|list| - 1)
    else LastWith(list[..|list| - 1], id)
  }

  /** A later record under the same id hides an earlier one. */
  function FindId(list: seq<Record>, id: Uid): Option<Record>
  {
    match LastWith(list, id)
    case None => None
    case Some(i) => Some(list[i])
  }

  function Equipped(list: seq<Record>, id: Uid, equipId: int): Outcome
  {
    match LastWith(list, id)
    case None => Outcome(list, Some(NotFound))
    case Some(i) => Outcome(list[i := list[i].(equipId := equipId)], None)
  }

  datatype Op = Create(record: Record) | SetEquip(id: Uid, equipId: int)

  function Apply(list: seq<Record>, op: Op): Outcome
  {
    match op
    case Create(r) => Created(list, r)
    case SetEquip(id, equipId) => Equipped(list, id, equipId)
  }

  function Run(ops: seq<Op>): seq<Record>
  {
    if ops == [] then [] else Apply(Run(ops[..|ops| - 1]), ops[|ops| - 1]).list
  }

  // ----- The three keys -----

  /** Ids count from 1 in order of creation, and no two records share an account name or a nickname. */
  ghost predicate Keyed(list: seq<Record>)
  {
    && (forall i :: 0 <= i < |list| ==> list[i].id == IdAt(i))
    && (forall i, j :: 0 <= i < j < |list| ==> list[i].account != list[j].account && list[i].nickname != list[j].nickname)
  }

  lemma ApplyKeepsKeys(list: seq<Record>, op: Op)
    requires Keyed(list)
    ensures Keyed(Apply(list, op).list)
  {
    hide LastWith, IdAt;
    if op.Create? {
      var list' := Apply(list, op).list;
      if list' != list {
        forall i, j | 0 <= i < j < |list'|
          ensures list'[i].account != list'[j].account && list'[i].nickname != list'[j].nickname {
          assert i < |list| && list'[i] == list[i];
        }
      }
    }
  }

  lemma {:induction false} RunKeepsKeys(ops: seq<Op>)
    ensures Keyed(Run(ops))
  {
    if ops != [] {
      RunKeepsKeys(ops[..|ops| - 1]);
      ApplyKeepsKeys(Run(ops[..|ops| - 1]), ops[|ops| - 1]);
    }
  }

  lemma {:induction false} FoundAccount(list: seq<Record>, i: nat)
    requires i < |list| && forall j :: 0 <= j < i ==> list[j].account != list[i].account
    ensures FindAccount(list, list[i].account) == Some(list[i])
  {
    if i > 0 { FoundAccount(list[1..], i - 1); }
  }

  lemma {:induction false} FoundNickname(list: seq<Record>, i: nat)
    requires i < |list| && forall j :: 0 <= j < i ==> list[j].nickname != list[i].nickname
    ensures FindNickname(list, list[i].nickname) == Some(list[i])
  {
    if i > 0 { FoundNickname(list[1..], i - 1); }
  }

  lemma {:induction false} NoAccount(list: seq<Record>, account: Text)
    ensures FindAccount(list, account).None? <==> !HasAccount(list, account)
    ensures FindAccount(list, account).Some? ==> FindAccount(list, account).value in list
  {
    if list != [] {
      NoAccount(list[1..], account);
      if HasAccount(list[1..], account) {
        var i :| 0 <= i < |list[1..]| && list[1..][i].account == account;
        assert list[i + 1].account == account;
      }
      if HasAccount(list, account) && list[0].account != account {
        var i :| 0 <= i < |list| && list[i].account == account;
        assert list[1..][i - 1].account == account;
      }
    }
  }

  lemma {:induction false} NoNickname(list: seq<Record>, nickname: Text)
    ensures FindNickname(list, nickname).None? <==> !HasNickname(list, nickname)
  {
    if list != [] {
      NoNickname(list[1..], nickname);
      if HasNickname(list[1..], nickname) {
        var i :| 0 <= i < |list[1..]| && list[1..][i].nickname == nickname;
        assert list[i + 1].nickname == nickname;
      }
      if HasNickname(list, nickname) && list[0].nickname != nickname {
        var i :| 0 <= i < |list| && list[i].nickname == nickname;
        assert list[1..][i - 1].nickname == nickname;
      }
    }
  }

  /** Ids come round after exactly 2^32 records. */
  lemma IdsDiffer(i: nat, j: nat)
    requires i < j < i + 0x1_0000_0000
    ensures IdAt(i) != IdAt(j)
  {
  }

  lemma IdsRepeat(i: nat)
    ensures IdAt(i + 0x1_0000_0000) == IdAt(i)
  {
  }

  lemma KeyedLookups(list: seq<Record>, i: nat)
    requires Keyed(list) && i < |list|
    ensures FindAccount(list, list[i].account) == Some(list[i])
    ensures FindNickname(list, list[i].nickname) == Some(list[i])
  {
    hide IdAt;
    FoundAccount(list, i);
    FoundNickname(list, i);
  }

  /** A record is found under its id exactly until 2^32 more have been made. */
  lemma KeyedLookupById(list: seq<Record>, i: nat)
    requires Keyed(list) && i < |list|
    ensures FindId(list, list[i].id) == Some(list[i]) <==> |list| <= i + 0x1_0000_0000
  {
    hide IdAt;
    var at := LastWith(list, list[i].id);
    if i < at.value {
      assert list[at.value] != list[i];
      if at.value < i + 0x1_0000_0000 { IdsDiffer(i, at.value); }
    }
    if |list| > i + 0x1_0000_0000 {
      IdsRepeat(i);
      assert list[i + 0x1_0000_0000].id == list[i].id;
    }
  }

  /** After any run of registrations and equipment changes every record is found under its account name and its nickname,
      and under its id exactly if fewer than 2^32 records were made after it. */
  lemma LookupsAgree(ops: seq<Op>, i: nat)
    requires i < |Run(ops)|
    ensures var list := Run(ops);
            && FindAccount(list, list[i].account) == Some(list[i])
            && FindNickname(list, list[i].nickname) == Some(list[i])
            && (FindId(list, list[i].id) == Some(list[i]) <==> |list| <= i + 0x1_0000_0000)
  {
    hide Run, Keyed;
    RunKeepsKeys(ops);
    KeyedLookups(Run(ops), i);
    KeyedLookupById(Run(ops), i);
  }

  /** Every record of a run is found under its own id if and only if the run made at most 2^32 records. */
  lemma IdsAreEnoughExactly(ops: seq<Op>)
    ensures var list := Run(ops);
            (forall i :: 0 <= i < |list| ==> FindId(list, list[i].id) == Some(list[i])) <==> |list| <= 0x1_0000_0000
  {
    hide Run, FindId;
    var list := Run(ops);
    forall i | 0 <= i < |list| ensures FindId(list, list[i].id) == Some(list[i]) <==> |list| <= i + 0x1_0000_0000 {
      LookupsAgree(ops, i);
    }
    if |list| > 0x1_0000_0000 {
      assert FindId(list, list[0].id) != Some(list[0]);
    }
  }

  /** A run can make any number of records: the i-th has names of i bytes. */
  lemma {:induction false} AnyNumber(n: nat) returns (ops: seq<Op>)
    ensures var list := Run(ops);
            |list| == n && forall i :: 0 <= i < n ==> |list[i].account| == i && |list[i].nickname| == i
  {
    ops := [];
    if n > 0 {
      var init := AnyNumber(n - 1);
      var name: Text := seq(n - 1, _ => 0);
      ops := init + [Create(Record(0, name, [], name, 0))];
      assert ops[..|ops| - 1] == init;
    }
  }

  /** So there is a run after which its first record is not found under its own id. */
  lemma IdsDoRunOut() returns (ops: seq<Op>)
    ensures var list := Run(ops);
            list != [] && FindId(list, list[0].id) != Some(list[0])
  {
    hide Run, FindId;
    ops := AnyNumber(0x1_0000_0001);
    LookupsAgree(ops, 0);
  }

  /** The registration after 2^32 others gets id 1 again. From then on id 1 leads to the new record; the first one is still
      found by account name and nickname, and an equipment change for id 1 changes the new one alone. */
  lemma IdsGoRound(list: seq<Record>, r: Record, equipId: int)
    requires Keyed(list) && |list| == 0x1_0000_0000 && Created(list, r).err == None
    ensures var list' := Created(list, r).list;
            var n := |list|;
            && list'[0].id == list'[n].id == 1
            && FindId(list', 1) == Some(list'[n]) && FindId(list', 1) != Some(list'[0])
            && FindAccount(list', list'[0].account) == Some(list'[0])
            && FindNickname(list', list'[0].nickname) == Some(list'[0])
            && Equipped(list', 1, equipId).list == list'[n := list'[n].(equipId := equipId)]
  {
    var list' := Created(list, r).list;
    var n := |list|;
    ApplyKeepsKeys(list, Create(r));
    assert list'[n] == r.(id := IdAt(n)) && list'[0].id == IdAt(0);
    KeyedLookups(list', 0);
    KeyedLookupById(list', 0);
    assert LastWith(list', 1) == Some(n);
  }

  // ----- What a registration and an equipment change answer from then on -----

  /** Under unique names, the answer is the one record with the name. */
  lemma AnswerByAccount(list: seq<Record>, account: Text, x: Record)
    requires Keyed(list)
    ensures FindAccount(list, account) == Some(x) <==> x in list && x.account == account
  {
    hide IdAt;
    NoAccount(list, account);
    if x in list && x.account == account {
      var i :| 0 <= i < |list| && list[i] == x;
      FoundAccount(list, i);
    }
    AccountFits(list, account);
  }

  lemma {:induction false} AccountFits(list: seq<Record>, account: Text)
    ensures FindAccount(list, account).Some? ==> FindAccount(list, account).value.account == account
  {
    if list != [] { AccountFits(list[1..], account); }
  }

  lemma AnswerByNickname(list: seq<Record>, nickname: Text, x: Record)
    requires Keyed(list)
    ensures FindNickname(list, nickname) == Some(x) <==> x in list && x.nickname == nickname
  {
    hide IdAt;
    if x in list && x.nickname == nickname {
      var i :| 0 <= i < |list| && list[i] == x;
      FoundNickname(list, i);
    }
    NicknameFits(list, nickname);
  }

  lemma {:induction false} NicknameFits(list: seq<Record>, nickname: Text)
    ensures FindNickname(list, nickname).Some? ==>
              FindNickname(list, nickname).value.nickname == nickname && FindNickname(list, nickname).value in list
  {
    if list != [] { NicknameFits(list[1..], nickname); }
  }

  ghost predicate NameTaken(list: seq<Record>, r: Record)
  {
    FindAccount(list, r.account).Some? || FindNickname(list, r.nickname).Some?
  }

  /** The record that a registration leaves behind: what was registered, under the next id. */
  function Filed(n: nat, r: Record): Record
  {
    Record((n + 1) % 0x1_0000_0000, r.account, r.passwordHash, r.nickname, r.equipId)
  }

  lemma CreateAppends(ops: seq<Op>, r: Record)
    ensures Run(ops + [Create(r)])
         == if NameTaken(Run(ops), r) then Run(ops) else Run(ops) + [Filed(|Run(ops)|, r)]
  {
    assert (ops + [Create(r)])[..|ops|] == ops;
    NoAccount(Run(ops), r.account);
    NoNickname(Run(ops), r.nickname);
    hide Run, FindAccount, FindNickname;
  }

  /** A registration: if a name is taken nothing changes. Otherwise the new record, exactly as registered, is found under its account
      name, its nickname and the next id, and whatever is found under any other name or id is as before. */
  lemma RegistrationIsFiled(ops: seq<Op>, r: Record)
    ensures var before, after := Run(ops), Run(ops + [Create(r)]);
            var filed := Filed(|before|, r);
            && Apply(before, Create(r)).err == (if FindAccount(before, r.account).Some? then Some(AccountExists)
                                                else if FindNickname(before, r.nickname).Some? then Some(NicknameExists) else None)
            && if NameTaken(before, r) then after == before
               else
                 && FindAccount(after, r.account) == Some(filed) && FindNickname(after, r.nickname) == Some(filed)
                 && FindId(after, filed.id) == Some(filed)
                 && (forall a :: a != r.account ==> FindAccount(after, a) == FindAccount(before, a))
                 && (forall a :: a != r.nickname ==> FindNickname(after, a) == FindNickname(before, a))
                 && (forall i :: i != filed.id ==> FindId(after, i) == FindId(before, i))
  {
    var before, after := Run(ops), Run(ops + [Create(r)]);
    var filed := Filed(|before|, r);
    RunKeepsKeys(ops);
    RunKeepsKeys(ops + [Create(r)]);
    CreateAppends(ops, r);
    NoAccount(before, r.account);
    NoNickname(before, r.nickname);
    hide Run, FindAccount, FindNickname, Keyed, NameTaken;
    if !NameTaken(before, r) {
      assert after[|before|] == filed;
      AnswerByAccount(after, r.account, filed);
      AnswerByNickname(after, r.nickname, filed);
      forall a | a != r.account ensures FindAccount(after, a) == FindAccount(before, a) { SameByAccount(before, after, a, filed); }
      forall a | a != r.nickname ensures FindNickname(after, a) == FindNickname(before, a) { SameByNickname(before, after, a, filed); }
      LastAppended(before, filed);
    }
  }

  lemma SameByAccount(before: seq<Record>, after: seq<Record>, account: Text, x: Record)
    requires Keyed(before) && Keyed(after) && after == before + [x] && x.account != account
    ensures FindAccount(after, account) == FindAccount(before, account)
  {
    var b, a := FindAccount(before, account), FindAccount(after, account);
    if b.Some? { AnswerByAccount(before, account, b.value); AnswerByAccount(after, account, b.value); }
    if a.Some? { AnswerByAccount(before, account, a.value); AnswerByAccount(after, account, a.value); }
  }

  lemma SameByNickname(before: seq<Record>, after: seq<Record>, nickname: Text, x: Record)
    requires Keyed(before) && Keyed(after) && after == before + [x] && x.nickname != nickname
    ensures FindNickname(after, nickname) == FindNickname(before, nickname)
  {
    var b, a := FindNickname(before, nickname), FindNickname(after, nickname);
    if b.Some? { AnswerByNickname(before, nickname, b.value); AnswerByNickname(after, nickname, b.value); }
    if a.Some? { AnswerByNickname(before, nickname, a.value); AnswerByNickname(after, nickname, a.value); }
  }

  lemma LastAppended(list: seq<Record>, x: Record)
    ensures FindId(list + [x], x.id) == Some(x)
    ensures forall i :: i != x.id ==> FindId(list + [x], i) == FindId(list, i)
  {
    assert (list + [x])[..|list|] == list;
  }

  /** An equipment change: the last record with the id has the new equipment and is otherwise as it was, under every key; no other
      record changes; for an unknown id nothing does. */
  lemma EquipmentIsFiled(ops: seq<Op>, id: Uid, equipId: int)
    ensures var before, after := Run(ops), Run(ops + [SetEquip(id, equipId)]);
            && Apply(before, SetEquip(id, equipId)).err == (if FindId(before, id).None? then Some(NotFound) else None)
            && match FindId(before, id)
               case None => after == before
               case Some(x) =>
                 var x' := Record(x.id, x.account, x.passwordHash, x.nickname, equipId);
                 && FindId(after, id) == Some(x')
                 && FindAccount(after, x.account) == Some(x') && FindNickname(after, x.nickname) == Some(x')
                 && (forall i :: i != id ==> FindId(after, i) == FindId(before, i))
                 && (forall a :: a != x.account ==> FindAccount(after, a) == FindAccount(before, a))
                 && (forall a :: a != x.nickname ==> FindNickname(after, a) == FindNickname(before, a))
  {
    var before, after := Run(ops), Run(ops + [SetEquip(id, equipId)]);
    assert (ops + [SetEquip(id, equipId)])[..|ops|] == ops;
    RunKeepsKeys(ops);
    RunKeepsKeys(ops + [SetEquip(id, equipId)]);
    hide Run, FindAccount, FindNickname, Keyed;
    if FindId(before, id).Some? {
      var at := LastWith(before, id).value;
      var x := before[at];
      var x' := x.(equipId := equipId);
      assert after == before[at := x'];
      assert after[at] == x';
      AnswerByAccount(after, x.account, x');
      AnswerByNickname(after, x.nickname, x');
      forall i ensures LastWith(after, i) == LastWith(before, i) { LastSame(before, after, i); }
      forall a | a != x.account ensures FindAccount(after, a) == FindAccount(before, a) { KeptByAccount(before, at, x', a); }
      forall a | a != x.nickname ensures FindNickname(after, a) == FindNickname(before, a) { KeptByNickname(before, at, x', a); }
    }
  }

  lemma LastSame(before: seq<Record>, after: seq<Record>, id: Uid)
    requires |after| == |before| && forall i :: 0 <= i < |before| ==> after[i].id == before[i].id
    ensures LastWith(after, id) == LastWith(before, id)
  {
    var a, b := LastWith(after, id), LastWith(before, id);
    if a.Some? { assert before[a.value].id == id; }
    if b.Some? { assert after[b.value].id == id; }
  }

  lemma KeptByAccount(before: seq<Record>, at: nat, y: Record, account: Text)
    requires at < |before| && Keyed(before) && Keyed(before[at := y]) && y.account == before[at].account != account
    ensures FindAccount(before[at := y], account) == FindAccount(before, account)
  {
    var after := before[at := y];
    var b, a := FindAccount(before, account), FindAccount(after, account);
    hide Keyed, FindAccount;
    if b.Some? {
      AnswerByAccount(before, account, b.value);
      var i :| 0 <= i < |before| && before[i] == b.value;
      assert after[i] == b.value;
      AnswerByAccount(after, account, b.value);
    } else if a.Some? {
      AnswerByAccount(after, account, a.value);
      var i :| 0 <= i < |after| && after[i] == a.value;
      assert before[i] == a.value;
      AnswerByAccount(before, account, a.value);
    }
  }

  lemma KeptByNickname(before: seq<Record>, at: nat, y: Record, nickname: Text)
    requires at < |before| && Keyed(before) && Keyed(before[at := y]) && y.nickname == before[at].nickname != nickname
    ensures FindNickname(before[at := y], nickname) == FindNickname(before, nickname)
  {
    var after := before[at := y];
    var b, a := FindNickname(before, nickname), FindNickname(after, nickname);
    hide Keyed, FindNickname;
    if b.Some? {
      AnswerByNickname(before, nickname, b.value);
      var i :| 0 <= i < |before| && before[i] == b.value;
      assert after[i] == b.value;
      AnswerByNickname(after, nickname, b.value);
    } else if a.Some? {
      AnswerByNickname(after, nickname, a.value);
      var i :| 0 <= i < |after| && after[i] == a.value;
      assert before[i] == a.value;
      AnswerByNickname(before, nickname, a.value);
    }
  }
}
