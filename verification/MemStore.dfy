/** The in-memory store of internal/store/store.go: three indexes over shared user objects, and friendships in a map whose
    keys are printed pairs. The users are proved to be a plain list of records, the friendships a relation on pairs. */
module MemStores {
  import opened Base
  import opened Bytes
  import opened Decimal
  import opened Accounts
  import Friends

  class User {
    var id: Uid
    var account: Text
    var passwordHash: Text
    var nickname: Text
    var equipId: int

    function View(): Record
      reads this
    {
      Record(id, account, passwordHash, nickname, equipId)
    }

    constructor (r: Record)
      ensures View() == r
    {
      id, account, passwordHash, nickname, equipId := r.id, r.account, r.passwordHash, r.nickname, r.equipId;
    }
  }

  function Views(us: seq<User>): (list: seq<Record>)
    reads us
    ensures |list| == |us| && forall i :: 0 <= i < |us| ==> list[i] == us[i].View()
  {
    seq(|us|, i requires 0 <= i < |us| reads us => us[i].View())
  }

  // ----- What an index over the users is -----

  ghost predicate IndexesAccounts(us: seq<User>, index: map<Text, User>)
    reads us
  {
    && (forall u :: u in us ==> u.account in index && index[u.account] == u)
    && (forall a :: a in index ==> index[a] in us && index[a].account == a)
  }

  ghost predicate IndexesNicknames(us: seq<User>, index: map<Text, User>)
    reads us
  {
    && (forall u :: u in us ==> u.nickname in index && index[u.nickname] == u)
    && (forall n :: n in index ==> index[n] in us && index[n].nickname == n)
  }

  /** Each id leads to the last user that got it. */
  ghost predicate IndexesIds(us: seq<User>, index: map<Uid, User>)
    reads us
  {
    forall id: Uid :: match LastWith(Views(us), id)
                      case None => id !in index
                      case Some(k) => id in index && index[id] == us[k]
  }

  ghost predicate Numbered(us: seq<User>)
    reads us
  {
    forall i :: 0 <= i < |us| ==> us[i].id == IdAt(i)
  }

  lemma OneMoreAccount(us: seq<User>, index: map<Text, User>, u: User)
    requires IndexesAccounts(us, index) && u.account !in index
    ensures IndexesAccounts(us + [u], index[u.account := u])
  {
  }

  lemma OneMoreNickname(us: seq<User>, index: map<Text, User>, u: User)
    requires IndexesNicknames(us, index) && u.nickname !in index
    ensures IndexesNicknames(us + [u], index[u.nickname := u])
  {
  }

  lemma OneMoreId(us: seq<User>, index: map<Uid, User>, u: User)
    requires IndexesIds(us, index)
    ensures IndexesIds(us + [u], index[u.id := u])
  {
    var list := Views(us + [u]);
    assert list[..|us|] == Views(us) && list[|us|] == u.View();
    forall id: Uid
      ensures LastWith(list, id) == if id == u.id then Some(|us|) else LastWith(Views(us), id) {
    }
  }

  lemma OneMoreNumber(us: seq<User>, u: User)
    requires Numbered(us) && u.id == IdAt(|us|)
    ensures Numbered(us + [u])
  {
  }

  /** Where an id was last given depends on the ids alone. */
  lemma {:induction false} SameIds(list: seq<Record>, list': seq<Record>, id: Uid)
    requires |list| == |list'| && forall i :: 0 <= i < |list| ==> list'[i].id == list[i].id
    ensures LastWith(list', id) == LastWith(list, id)
  {
    if list != [] { SameIds(list[..|list| - 1], list'[..|list| - 1], id); }
  }

  class MemStore {
    var nextId: Uid
    var users: map<Text, User>
    var byNick: map<Text, User>
    var byId: map<Uid, User>
    var friends: map<string, int>
    ghost var table: seq<User>               // every user object, in order of creation
    ghost var relation: Friends.Relation     // what the friend map stands for

    /** The three indexes hold the same distinct objects, each under its own account, nickname and id, but for users whose
        id has been given again. */
    ghost predicate Indexed()
      reads this`nextId, this`users, this`byNick, this`byId, this`table, table
    {
      && nextId == |table| % 0x1_0000_0000
      && Base.NoDuplicates(table) && Numbered(table)
      && IndexesAccounts(table, users) && IndexesNicknames(table, byNick) && IndexesIds(table, byId)
    }

    /** The friend map holds exactly the printed pairs of the relation. */
    ghost predicate Related()
      reads this`friends, this`relation
    {
      && (forall p :: p in relation ==> Key(p.0, p.1) in friends && friends[Key(p.0, p.1)] == relation[p])
      && (forall k :: k in friends ==> ScanKey(k).Some? && ScanKey(k).value in relation
                                       && k == Key(ScanKey(k).value.0, ScanKey(k).value.1))
    }

    ghost predicate Valid()
      reads this, table
    {
      Indexed() && Related()
    }

    ghost function Contents(): seq<Record>
      reads this, table
    {
      Views(table)
    }

    constructor ()
      ensures Valid() && Contents() == [] && relation == map[]
    {
      nextId, users, byNick, byId, friends := 0, map[], map[], map[], map[];
      table, relation := [], map[];
    }

    // ----- Users -----

    /** Registers a copy of `u`, which gets its id. */
    method CreateUser(u: User) returns (err: Option<Error>)
      requires Valid() && u !in table
      modifies this`nextId, this`users, this`byNick, this`byId, this`table, u`id
      ensures var r := Created(old(Contents()), old(u.View()));
              && err == r.err && relation == old(relation)
              && Valid() && Contents() == r.list
              && (forall t :: t in table ==> t in old(table) || fresh(t)) && u !in table
              && u.View() == old(u.View()).(id := if err.None? then IdAt(old(|table|)) else old(u.id))
    {
      hide IndexesAccounts, IndexesNicknames, IndexesIds, Numbered, Related, HasAccount, HasNickname, IdAt;
      KeysInUse();
      if u.account in users {
        return Some(AccountExists);
      }
      if u.nickname in byNick {
        return Some(NicknameExists);
      }
      ghost var list := Contents();
      NextIdIs(|table|, nextId);
      nextId := (nextId as int + 1) % 0x1_0000_0000;
      u.id := nextId;
      var cp := new User(u.View());
      Insert(cp);
      assert Contents() == list + [cp.View()];
      return None;
    }

    /** Files a new user object in all three indexes. */
    method Insert(cp: User)
      requires IndexesAccounts(table, users) && IndexesNicknames(table, byNick) && IndexesIds(table, byId)
      requires Numbered(table) && Base.NoDuplicates(table)
      requires cp.id == nextId == IdAt(|table|) && cp !in table && cp.account !in users && cp.nickname !in byNick
      modifies this`users, this`byNick, this`byId, this`table
      ensures table == old(table) + [cp]
      ensures Indexed()
    {
      hide IndexesAccounts, IndexesNicknames, IndexesIds, Numbered, IdAt;
      OneMoreAccount(table, users, cp);
      OneMoreNickname(table, byNick, cp);
      OneMoreId(table, byId, cp);
      OneMoreNumber(table, cp);
      IdAtIs(|table|);
      users := users[cp.account := cp];
      byNick := byNick[cp.nickname := cp];
      byId := byId[cp.id := cp];
      table := table + [cp];
    }

    lemma IdAtIs(n: nat)
      ensures IdAt(n) == (n + 1) % 0x1_0000_0000
    {
    }

    /** Names are taken in the indexes exactly if a record has them. */
    lemma KeysInUse()
      requires Valid()
      ensures forall a :: a in users <==> HasAccount(Contents(), a)
      ensures forall n :: n in byNick <==> HasNickname(Contents(), n)
    {
      forall a ensures a in users <==> HasAccount(Contents(), a) {
        if a in users {
          var i :| 0 <= i < |table| && table[i] == users[a];
          assert Contents()[i].account == a;
        }
      }
      forall n ensures n in byNick <==> HasNickname(Contents(), n) {
        if n in byNick {
          var i :| 0 <= i < |table| && table[i] == byNick[n];
          assert Contents()[i].nickname == n;
        }
      }
    }

    /** A copy of the record with that account name. */
    method GetUserByAccount(account: Text) returns (u: User?, err: Option<Error>)
      requires Valid()
      ensures match FindAccount(Contents(), account)
              case None => u == null && err == Some(NotFound)
              case Some(r) => u != null && fresh(u) && u.View() == r && err == None
    {
      if account !in users {
        KeysInUse();
        NoAccount(Contents(), account);
        return null, Some(NotFound);
      }
      FoundInTable(users[account]);
      u := new User(users[account].View());
      err := None;
    }

    method GetUserByNickname(nickname: Text) returns (u: User?, err: Option<Error>)
      requires Valid()
      ensures match FindNickname(Contents(), nickname)
              case None => u == null && err == Some(NotFound)
              case Some(r) => u != null && fresh(u) && u.View() == r && err == None
    {
      if nickname !in byNick {
        KeysInUse();
        NoNickname(Contents(), nickname);
        return null, Some(NotFound);
      }
      FoundInTable(byNick[nickname]);
      u := new User(byNick[nickname].View());
      err := None;
    }

    method GetUserById(id: Uid) returns (u: User?, err: Option<Error>)
      requires Valid()
      ensures match FindId(Contents(), id)
              case None => u == null && err == Some(NotFound)
              case Some(r) => u != null && fresh(u) && u.View() == r && err == None
    {
      if id !in byId {
        return null, Some(NotFound);
      }
      u := new User(byId[id].View());
      err := None;
    }

    /** An object of the store is found under its names. */
    lemma FoundInTable(u: User)
      requires Valid() && u in table
      ensures FindAccount(Contents(), u.account) == Some(u.View())
      ensures FindNickname(Contents(), u.nickname) == Some(u.View())
    {
      var i :| 0 <= i < |table| && table[i] == u;
      ContentsKeyed();
      KeyedLookups(Contents(), i);
    }

    lemma ContentsKeyed()
      requires Valid()
      ensures Keyed(Contents())
    {
      forall i, j | 0 <= i < j < |table|
        ensures Contents()[i].account != Contents()[j].account && Contents()[i].nickname != Contents()[j].nickname {
        assert users[table[i].account] == table[i] && users[table[j].account] == table[j];
        assert byNick[table[i].nickname] == table[i] && byNick[table[j].nickname] == table[j];
      }
    }

    /** Changes the one shared object, so all indexes that hold it show the change. */
    method Refit(u: User, equipId: int)
      requires Indexed() && u in table
      modifies u`equipId
      ensures Indexed()
      ensures forall i :: 0 <= i < |table| ==>
                Contents()[i] == if table[i] == u then old(Contents()[i]).(equipId := equipId) else old(Contents()[i])
    {
      hide IdAt, LastWith;
      ghost var list := Contents();
      u.equipId := equipId;
      forall id: Uid ensures LastWith(Contents(), id) == LastWith(list, id) {
        SameIds(list, Contents(), id);
      }
    }

    method SetEquip(id: Uid, equipId: int) returns (err: Option<Error>)
      requires Valid()
      modifies table
      ensures Valid() && table == old(table)
      ensures var r := Accounts.Equipped(old(Contents()), id, equipId);
              Contents() == r.list && err == r.err
    {
      hide Indexed, Related, LastWith;
      ghost var list := Contents();
      IdInUse(id);
      if id !in byId {
        return Some(NotFound);
      }
      ghost var k := LastWith(list, id).value;
      Refit(byId[id], equipId);
      assert Contents() == list[k := list[k].(equipId := equipId)];
      return None;
    }

    lemma IdInUse(id: Uid)
      requires Indexed()
      ensures match LastWith(Contents(), id)
              case None => id !in byId
              case Some(k) => id in byId && k < |table| && forall i :: 0 <= i < |table| ==> (table[i] == byId[id] <==> i == k)
    {
      hide LastWith, IdAt;
    }

    // ----- Friends -----

    /** The friend map answers for the relation. */
    lemma Lookup(a: Uid, b: Uid)
      requires Related()
      ensures Key(a, b) in friends <==> (a, b) in relation
      ensures (a, b) in relation ==> friends[Key(a, b)] == relation[(a, b)]
    {
      hide Key, ScanKey;
      ScanUndoesPrint(a, b);
      if (a, b) in relation {
        var p := (a, b);
        assert Key(p.0, p.1) in friends && friends[Key(p.0, p.1)] == relation[p];
      }
    }

    /** Sets the status of one pair. */
    method Put(a: Uid, b: Uid, status: int)
      requires Related()
      modifies this`friends, this`relation
      ensures Related() && relation == old(relation)[(a, b) := status]
    {
      hide Key, ScanKey;
      ScanUndoesPrint(a, b);
      ghost var before := relation;
      friends := friends[Key(a, b) := status];
      relation := relation[(a, b) := status];
      forall p | p in relation ensures Key(p.0, p.1) in friends && friends[Key(p.0, p.1)] == relation[p] {
        ScanUndoesPrint(p.0, p.1);
        assert p in before || p == (a, b);
      }
    }

    method Drop(a: Uid, b: Uid)
      requires Related()
      modifies this`friends, this`relation
      ensures Related() && relation == old(relation) - {(a, b)}
    {
      hide Key, ScanKey;
      ghost var before := relation;
      ScanUndoesPrint(a, b);
      friends := friends - {Key(a, b)};
      relation := relation - {(a, b)};
      forall p | p in relation ensures Key(p.0, p.1) in friends && friends[Key(p.0, p.1)] == relation[p] {
        ScanUndoesPrint(p.0, p.1);
        assert p in before;
      }
    }

    method InviteFriend(a: Uid, b: Uid)
      requires Valid()
      modifies this`friends, this`relation
      ensures Valid() && relation == Friends.MemStep(old(relation), Friends.Invite(a, b))
    {
      hide Indexed, Related, Key;
      Lookup(a, b);
      if Key(a, b) in friends {
        return;
      }
      Put(a, b, 0);
    }

    method AcceptFriend(uid: Uid, other: Uid)
      requires Valid()
      modifies this`friends, this`relation
      ensures Valid() && relation == Friends.MemStep(old(relation), Friends.Accept(uid, other))
    {
      hide Indexed, Related, Key;
      Lookup(other, uid);
      if Key(other, uid) in friends {
        Put(other, uid, 1);
      }
    }

    method RejectFriend(uid: Uid, other: Uid)
      requires Valid()
      modifies this`friends, this`relation
      ensures Valid() && relation == Friends.MemStep(old(relation), Friends.Reject(uid, other))
    {
      hide Indexed, Related;
      Drop(other, uid);
    }

    /** The pairs whose keys are not in `todo`. */
    ghost predicate Visited(todo: set<string>, seen: set<Friends.Pair>)
      reads this`friends, this`relation
    {
      && todo <= friends.Keys && seen <= relation.Keys
      && forall p :: p in relation ==> (p in seen <==> Key(p.0, p.1) !in todo)
    }

    /** Takes the next key and scans it. */
    method Visit(key: string, todo: set<string>, ghost seen: set<Friends.Pair>) returns (pair: Friends.Pair)
      requires Related() && key in todo && Visited(todo, seen)
      ensures key in friends && pair in relation && pair !in seen && relation[pair] == friends[key]
      ensures Visited(todo - {key}, seen + {pair})
    {
      hide Key, ScanKey;
      pair := ScanKey(key).value;
      assert Key(pair.0, pair.1) in friends && friends[Key(pair.0, pair.1)] == relation[pair];
      forall p | p in relation ensures p in seen + {pair} <==> Key(p.0, p.1) !in todo - {key} {
        ScanUndoesPrint(p.0, p.1);
      }
    }

    /** The requests waiting for `uid`, in whatever order the keys are visited. */
    method PendingFriendIDs(uid: Uid) returns (out: seq<Uid>)
      requires Valid()
      ensures forall x: Uid :: multiset(out)[x] == Friends.PendingCount(relation, uid, x)
    {
      hide Indexed;
      out := [];
      var todo := friends.Keys;
      ghost var seen := {};
      StartVisit();
      hide Related, Visited;
      while todo != {}
        invariant Related() && Visited(todo, seen)
        invariant forall x: Uid :: multiset(out)[x] == Friends.Once((x, uid) in seen && Friends.Has(relation, x, uid, 0))
      {
        var key :| key in todo;
        var pair := Visit(key, todo, seen);
        todo, seen := todo - {key}, seen + {pair};
        if friends[key] != 0 {
          continue;
        }
        if pair.1 == uid {
          out := out + [pair.0];
        }
      }
      AllVisited(seen);
    }

    /** The friends of `uid`, in whatever order the keys are visited. */
    method FriendIDs(uid: Uid) returns (out: seq<Uid>)
      requires Valid()
      ensures forall x: Uid :: multiset(out)[x] == Friends.FriendCount(relation, uid, x)
    {
      hide Indexed;
      out := [];
      var todo := friends.Keys;
      ghost var seen := {};
      StartVisit();
      hide Related, Visited;
      while todo != {}
        invariant Related() && Visited(todo, seen)
        invariant forall x: Uid :: multiset(out)[x] == FriendsAmong(seen, relation, uid, x)
      {
        var key :| key in todo;
        var pair := Visit(key, todo, seen);
        todo, seen := todo - {key}, seen + {pair};
        if friends[key] != 1 {
          continue;
        }
        if pair.0 == uid {
          out := out + [pair.1];
        } else if pair.1 == uid {
          out := out + [pair.0];
        }
      }
      AllVisited(seen);
    }

    lemma StartVisit()
      requires Related()
      ensures Visited(friends.Keys, {})
    {
    }

    lemma AllVisited(seen: set<Friends.Pair>)
      requires Visited({}, seen)
      ensures seen == relation.Keys
    {
    }
  }

  ghost function FriendsAmong(seen: set<Friends.Pair>, relation: Friends.Relation, uid: Uid, x: Uid): nat
  {
    Friends.Once((uid, x) in seen && Friends.Has(relation, uid, x, 1))
    + Friends.Once(x != uid && (x, uid) in seen && Friends.Has(relation, x, uid, 1))
  }

  lemma NextIdIs(n: nat, nextId: Uid)
    requires nextId == n % 0x1_0000_0000
    ensures (nextId as int + 1) % 0x1_0000_0000 == IdAt(n) == (n + 1) % 0x1_0000_0000
  {
  }
}
