/** Friendships in internal/store/store.go: the relation both stores implement, the table of the SQL store, and when the
    two stores give the same answers. */
module Friends {
  import opened Base

  type Pair = (Uid, Uid)

  /** Status of a request from the first to the second: 0 for open, 1 for accepted. */
  type Relation = map<Pair, int>

  datatype Op =
    | Invite(a: Uid, b: Uid)
    | Accept(uid: Uid, other: Uid)
    | Reject(uid: Uid, other: Uid)

  predicate Has(rel: Relation, a: Uid, b: Uid, status: int) { (a, b) in rel && rel[(a, b)] == status }

  /** What the in-memory store does: a rejection removes the pair whatever its status. */
  function MemStep(rel: Relation, op: Op): Relation
  {
    match op
    case Invite(a, b) => if (a, b) in rel then rel else rel[(a, b) := 0]
    case Accept(uid, other) => if (other, uid) in rel then rel[(other, uid) := 1] else rel
    case Reject(uid, other) => rel - {(other, uid)}
  }

  function MemRun(ops: seq<Op>): Relation
  {
    if ops == [] then map[] else MemStep(MemRun(ops[..|ops| - 1]), ops[|ops| - 1])
  }

  // ----- Answers -----

  function Once(b: bool): nat { if b then 1 else 0 }

  /** How often `x` is among the requests waiting for `uid`. */
  function PendingCount(rel: Relation, uid: Uid, x: Uid): nat { Once(Has(rel, x, uid, 0)) }

  /** How often `x` is among the friends of `uid`: once for each direction that was accepted. */
  function FriendCount(rel: Relation, uid: Uid, x: Uid): nat
  {
    Once(Has(rel, uid, x, 1)) + Once(x != uid && Has(rel, x, uid, 1))
  }

  // ----- Where a status comes from -----

  /** `a` asked `b` at step `i` and was not rejected since. */
  predicate Asked(ops: seq<Op>, i: int, a: Uid, b: Uid)
  {
    0 <= i < |ops| && ops[i] == Invite(a, b) && forall k :: i < k < |ops| ==> ops[k] != Reject(b, a)
  }

  /** `b` said yes at step `j` to a request made before and not rejected since. */
  predicate Agreed(ops: seq<Op>, i: int, j: int, a: Uid, b: Uid)
  {
    Asked(ops, i, a, b) && i < j < |ops| && ops[j] == Accept(b, a)
  }

  lemma AskedNext(ops: seq<Op>, op: Op, i: int, a: Uid, b: Uid)
    ensures Asked(ops + [op], i, a, b) <==> if i == |ops| then op == Invite(a, b) else Asked(ops, i, a, b) && op != Reject(b, a)
  {
    var more := ops + [op];
    assert more[|ops|] == op && forall k :: 0 <= k < |ops| ==> more[k] == ops[k];
    if 0 <= i < |ops| && Asked(more, i, a, b) {
      forall k | i < k < |ops| ensures ops[k] != Reject(b, a) {
        assert more[k] != Reject(b, a);
      }
    }
  }

  /** A pair is in the relation exactly if it was invited and not rejected since, and a friendship exactly if it was also
      accepted after the invitation. */
  lemma {:induction false} StatusHistory(ops: seq<Op>, a: Uid, b: Uid)
    ensures var rel := MemRun(ops);
            && ((a, b) in rel <==> exists i :: Asked(ops, i, a, b))
            && ((a, b) in rel && rel[(a, b)] == 1 <==> exists i, j :: Agreed(ops, i, j, a, b))
            && ((a, b) in rel ==> rel[(a, b)] in {0, 1})
  {
    if ops != [] {
      var init, op := ops[..|ops| - 1], ops[|ops| - 1];
      assert ops == init + [op];
      StatusHistory(init, a, b);
      HistoryNext(init, op, a, b);
    }
  }

  /** Whose requests are waiting and who is a friend, by what was asked, answered and taken back. */
  lemma AnswersByHistory(ops: seq<Op>, uid: Uid, x: Uid)
    ensures PendingCount(MemRun(ops), uid, x)
         == if (exists i :: Asked(ops, i, x, uid)) && !(exists i, j :: Agreed(ops, i, j, x, uid)) then 1 else 0
    ensures FriendCount(MemRun(ops), uid, x)
         == (if exists i, j :: Agreed(ops, i, j, uid, x) then 1 else 0)
          + (if x != uid && exists i, j :: Agreed(ops, i, j, x, uid) then 1 else 0)
  {
    hide MemRun, Asked, Agreed;
    StatusHistory(ops, uid, x);
    StatusHistory(ops, x, uid);
  }

  lemma HistoryNext(init: seq<Op>, op: Op, a: Uid, b: Uid)
    ensures var ops := init + [op];
            && ((exists i :: Asked(ops, i, a, b)) <==>
                op == Invite(a, b) || (op != Reject(b, a) && exists i :: Asked(init, i, a, b)))
            && ((exists i, j :: Agreed(ops, i, j, a, b)) <==>
                || (op == Accept(b, a) && exists i :: Asked(init, i, a, b))
                || (op != Reject(b, a) && exists i, j :: Agreed(init, i, j, a, b)))
  {
    var ops := init + [op];
    forall i ensures Asked(ops, i, a, b) <==> if i == |init| then op == Invite(a, b) else Asked(init, i, a, b) && op != Reject(b, a) {
      AskedNext(init, op, i, a, b);
    }
    if op == Invite(a, b) { assert Asked(ops, |init|, a, b); }
    if i :| op != Reject(b, a) && Asked(init, i, a, b) {
      assert Asked(ops, i, a, b);
      if op == Accept(b, a) { assert Agreed(ops, i, |init|, a, b); }
    }
    if i, j :| op != Reject(b, a) && Agreed(init, i, j, a, b) {
      assert Asked(ops, i, a, b) && ops[j] == init[j];
      assert Agreed(ops, i, j, a, b);
    }
    if i, j :| Agreed(ops, i, j, a, b) {
      assert i != |init| && Asked(init, i, a, b);
      if j < |init| {
        assert init[j] == ops[j];
        assert Agreed(init, i, j, a, b);
      }
    }
  }

  // ----- The SQL table -----

  /** One row of table `friends`; the pair is a unique key. */
  datatype Row = Row(userA: Uid, userB: Uid, status: int)

  type Table = seq<Row>

  predicate Keyed(row: Row, a: Uid, b: Uid) { row.userA == a && row.userB == b }

  predicate Present(rows: Table, a: Uid, b: Uid) { exists i :: 0 <= i < |rows| && Keyed(rows[i], a, b) }

  /** Accepting turns an open request of `a` to `b` into a friendship; any other row stays as it is. */
  function Updated(rows: Table, a: Uid, b: Uid): Table
  {
    if rows == [] then []
    else [if Keyed(rows[0], a, b) && rows[0].status == 0 then rows[0].(status := 1) else rows[0]] + Updated(rows[1..], a, b)
  }

  /** Rejecting takes an open request of `a` to `b` out of the table, but not a friendship. */
  function Deleted(rows: Table, a: Uid, b: Uid): Table
  {
    if rows == [] then []
    else (if Keyed(rows[0], a, b) && rows[0].status == 0 then [] else [rows[0]]) + Deleted(rows[1..], a, b)
  }

  /** An invitation adds an open request unless the pair already has a row. */
  function SqlStep(rows: Table, op: Op): Table
  {
    match op
    case Invite(a, b) => if Present(rows, a, b) then rows else rows + [Row(a, b, 0)]
    case Accept(uid, other) => Updated(rows, other, uid)
    case Reject(uid, other) => Deleted(rows, other, uid)
  }

  function SqlRun(ops: seq<Op>): Table
  {
    if ops == [] then [] else SqlStep(SqlRun(ops[..|ops| - 1]), ops[|ops| - 1])
  }

  /** Who has an open request to `uid`, in the order of the rows. */
  function SqlPending(rows: Table, uid: Uid): seq<Uid>
  {
    if rows == [] then []
    else (if rows[0].userB == uid && rows[0].status == 0 then [rows[0].userA] else []) + SqlPending(rows[1..], uid)
  }

  /** The other side of every friendship of `uid`, in the order of the rows. */
  function SqlFriends(rows: Table, uid: Uid): seq<Uid>
  {
    if rows == [] then []
    else
      (if rows[0].status == 1 && (rows[0].userA == uid || rows[0].userB == uid)
       then [if rows[0].userA == uid then rows[0].userB else rows[0].userA] else [])
      + SqlFriends(rows[1..], uid)
  }

  // ----- The table is the relation -----

  /** The number of rows for a pair with a status. */
  function RowCount(rows: Table, a: Uid, b: Uid, status: int): nat
  {
    if rows == [] then 0 else Once(Keyed(rows[0], a, b) && rows[0].status == status) + RowCount(rows[1..], a, b, status)
  }

  /** The table holds each pair of the relation in exactly one row, and nothing else. */
  ghost predicate Stores(rows: Table, rel: Relation)
  {
    forall a: Uid, b: Uid, status: int :: RowCount(rows, a, b, status) == Once(Has(rel, a, b, status))
  }

  lemma {:induction false} RowCountAppend(rows: Table, row: Row, a: Uid, b: Uid, status: int)
    ensures RowCount(rows + [row], a, b, status) == RowCount(rows, a, b, status) + Once(Keyed(row, a, b) && row.status == status)
  {
    if rows == [] {
      assert rows + [row] == [row] && [row][1..] == [];
    } else {
      assert (rows + [row])[1..] == rows[1..] + [row];
      RowCountAppend(rows[1..], row, a, b, status);
    }
  }

  lemma {:induction false} RowCountUpdated(rows: Table, a: Uid, b: Uid, c: Uid, d: Uid, status: int)
    ensures var n := RowCount(rows, c, d, status);
            RowCount(Updated(rows, a, b), c, d, status) ==
            if (c, d) != (a, b) || status !in {0, 1} then n else if status == 0 then 0 else n + RowCount(rows, a, b, 0)
  {
    if rows != [] {
      RowCountUpdated(rows[1..], a, b, c, d, status);
      assert Updated(rows, a, b)[1..] == Updated(rows[1..], a, b);
    }
  }

  lemma {:induction false} RowCountDeleted(rows: Table, a: Uid, b: Uid, c: Uid, d: Uid, status: int)
    ensures RowCount(Deleted(rows, a, b), c, d, status) ==
            if (c, d) == (a, b) && status == 0 then 0 else RowCount(rows, c, d, status)
  {
    if rows != [] {
      RowCountDeleted(rows[1..], a, b, c, d, status);
      if Keyed(rows[0], a, b) && rows[0].status == 0 {
        assert Deleted(rows, a, b) == Deleted(rows[1..], a, b);
      } else {
        assert Deleted(rows, a, b)[1..] == Deleted(rows[1..], a, b);
      }
    }
  }

  lemma {:induction false} CountedIsPresent(rows: Table, a: Uid, b: Uid, status: int)
    requires RowCount(rows, a, b, status) > 0
    ensures Present(rows, a, b)
  {
    if Keyed(rows[0], a, b) {
      assert Present(rows, a, b);
    } else {
      CountedIsPresent(rows[1..], a, b, status);
      var i :| 0 <= i < |rows[1..]| && Keyed(rows[1..][i], a, b);
      assert Keyed(rows[i + 1], a, b);
    }
  }

  lemma {:induction false} PresentIsCounted(rows: Table, i: nat)
    requires i < |rows|
    ensures RowCount(rows, rows[i].userA, rows[i].userB, rows[i].status) > 0
  {
    if i > 0 { PresentIsCounted(rows[1..], i - 1); }
  }

  predicate Lawful(rel: Relation) { forall p :: p in rel ==> rel[p] in {0, 1} }

  /** The in-memory store parts ways with the SQL store on this step. */
  predicate RejectsFriend(rel: Relation, op: Op) { op.Reject? && Has(rel, op.other, op.uid, 1) }

  lemma StepStores(rows: Table, rel: Relation, op: Op)
    requires Stores(rows, rel) && Lawful(rel) && !RejectsFriend(rel, op)
    ensures Stores(SqlStep(rows, op), MemStep(rel, op)) && Lawful(MemStep(rel, op))
  {
    var rows', rel' := SqlStep(rows, op), MemStep(rel, op);
    if op.Invite? { PresentIff(rows, rel, op.a, op.b); }
    forall a: Uid, b: Uid, status: int ensures RowCount(rows', a, b, status) == Once(Has(rel', a, b, status)) {
      assert RowCount(rows, a, b, status) == Once(Has(rel, a, b, status));
      match op {
        case Invite(x, y) => RowCountAppend(rows, Row(x, y, 0), a, b, status);
        case Accept(y, x) =>
          RowCountUpdated(rows, x, y, a, b, status);
          assert RowCount(rows, x, y, 0) == Once(Has(rel, x, y, 0));
        case Reject(y, x) => RowCountDeleted(rows, x, y, a, b, status);
      }
    }
  }

  lemma PresentIff(rows: Table, rel: Relation, a: Uid, b: Uid)
    requires Stores(rows, rel)
    ensures Present(rows, a, b) <==> (a, b) in rel
  {
    if (a, b) in rel {
      assert RowCount(rows, a, b, rel[(a, b)]) == 1;
      CountedIsPresent(rows, a, b, rel[(a, b)]);
    }
    if i :| 0 <= i < |rows| && Keyed(rows[i], a, b) {
      PresentIsCounted(rows, i);
      assert RowCount(rows, a, b, rows[i].status) == Once(Has(rel, a, b, rows[i].status));
    }
  }

  // ----- Same answers -----

  ghost predicate SameAnswers(rel: Relation, rows: Table)
  {
    forall uid: Uid, x: Uid ::
      && multiset(SqlPending(rows, uid))[x] == PendingCount(rel, uid, x)
      && multiset(SqlFriends(rows, uid))[x] == FriendCount(rel, uid, x)
  }

  lemma {:induction false} SqlPendingCount(rows: Table, uid: Uid, x: Uid)
    ensures multiset(SqlPending(rows, uid))[x] == RowCount(rows, x, uid, 0)
  {
    if rows != [] {
      SqlPendingCount(rows[1..], uid, x);
    }
  }

  lemma {:induction false} SqlFriendsCount(rows: Table, uid: Uid, x: Uid)
    ensures multiset(SqlFriends(rows, uid))[x]
            == RowCount(rows, uid, x, 1) + (if x != uid then RowCount(rows, x, uid, 1) else 0)
  {
    if rows != [] {
      SqlFriendsCount(rows[1..], uid, x);
    }
  }

  lemma StoredAnswers(rows: Table, rel: Relation)
    requires Stores(rows, rel)
    ensures SameAnswers(rel, rows)
  {
    forall uid: Uid, x: Uid
      ensures multiset(SqlPending(rows, uid))[x] == PendingCount(rel, uid, x)
      ensures multiset(SqlFriends(rows, uid))[x] == FriendCount(rel, uid, x)
    {
      SqlPendingCount(rows, uid, x);
      SqlFriendsCount(rows, uid, x);
      assert RowCount(rows, x, uid, 0) == Once(Has(rel, x, uid, 0));
      assert RowCount(rows, uid, x, 1) == Once(Has(rel, uid, x, 1));
      assert RowCount(rows, x, uid, 1) == Once(Has(rel, x, uid, 1));
    }
  }

  /** Rejecting a friend shows at once: the SQL store still lists the friend, the in-memory store does not. */
  lemma PartWays(rows: Table, rel: Relation, op: Op)
    requires Stores(rows, rel) && RejectsFriend(rel, op)
    ensures !SameAnswers(MemStep(rel, op), SqlStep(rows, op))
  {
    var a, b := op.other, op.uid;
    var rows', rel' := SqlStep(rows, op), MemStep(rel, op);
    SqlFriendsCount(rows', a, b);
    RowCountDeleted(rows, a, b, a, b, 1);
    RowCountDeleted(rows, a, b, b, a, 1);
    assert RowCount(rows, a, b, 1) == Once(Has(rel, a, b, 1));
    assert RowCount(rows, b, a, 1) == Once(Has(rel, b, a, 1));
    assert multiset(SqlFriends(rows', a))[b] != FriendCount(rel', a, b);
  }

  lemma {:induction false} StoresAgreeSoFar(ops: seq<Op>)
    requires forall i :: 0 <= i < |ops| ==> !RejectsFriend(MemRun(ops[..i]), ops[i])
    ensures Stores(SqlRun(ops), MemRun(ops)) && Lawful(MemRun(ops))
  {
    if ops != [] {
      var init := ops[..|ops| - 1];
      forall i | 0 <= i < |init| ensures !RejectsFriend(MemRun(init[..i]), init[i]) {
        assert init[..i] == ops[..i];
      }
      StoresAgreeSoFar(init);
      StepStores(SqlRun(init), MemRun(init), ops[|ops| - 1]);
    }
  }

  /** The two stores give the same answers at every point of a run exactly if no accepted friend is ever rejected in it. */
  lemma StoresAgreeExactly(ops: seq<Op>)
    ensures (forall i :: 0 <= i <= |ops| ==> SameAnswers(MemRun(ops[..i]), SqlRun(ops[..i])))
            <==> (forall i :: 0 <= i < |ops| ==> !RejectsFriend(MemRun(ops[..i]), ops[i]))
  {
    if forall i :: 0 <= i < |ops| ==> !RejectsFriend(MemRun(ops[..i]), ops[i]) {
      forall i | 0 <= i <= |ops| ensures SameAnswers(MemRun(ops[..i]), SqlRun(ops[..i])) {
        PrefixAgrees(ops, i);
        StoredAnswers(SqlRun(ops[..i]), MemRun(ops[..i]));
      }
    } else {
      var i := FirstRejection(ops);
      PrefixAgrees(ops, i);
      PartWays(SqlRun(ops[..i]), MemRun(ops[..i]), ops[i]);
      assert ops[..i + 1][..i] == ops[..i];
      assert !SameAnswers(MemRun(ops[..i + 1]), SqlRun(ops[..i + 1]));
    }
  }

  lemma PrefixAgrees(ops: seq<Op>, n: nat)
    requires n <= |ops| && forall i :: 0 <= i < n ==> !RejectsFriend(MemRun(ops[..i]), ops[i])
    ensures Stores(SqlRun(ops[..n]), MemRun(ops[..n]))
  {
    var part := ops[..n];
    forall i | 0 <= i < |part| ensures !RejectsFriend(MemRun(part[..i]), part[i]) {
      assert part[..i] == ops[..i];
    }
    StoresAgreeSoFar(part);
  }

  lemma FirstRejection(ops: seq<Op>) returns (n: nat)
    requires exists i :: 0 <= i < |ops| && RejectsFriend(MemRun(ops[..i]), ops[i])
    ensures n < |ops| && RejectsFriend(MemRun(ops[..n]), ops[n])
    ensures forall i :: 0 <= i < n ==> !RejectsFriend(MemRun(ops[..i]), ops[i])
  {
    hide MemRun, RejectsFriend;
    n := 0;
    while !RejectsFriend(MemRun(ops[..n]), ops[n])
      invariant n < |ops|
      invariant forall i :: 0 <= i < n ==> !RejectsFriend(MemRun(ops[..i]), ops[i])
      decreases |ops| - n
    {
      var i :| 0 <= i < |ops| && RejectsFriend(MemRun(ops[..i]), ops[i]);
      n := n + 1;
    }
  }

  /** Three operations after which the stores differ: 1 asks 2, 2 accepts, 2 rejects. */
  lemma StoresDiffer()
    ensures var ops := [Invite(1, 2), Accept(2, 1), Reject(2, 1)];
            && FriendCount(MemRun(ops), 1, 2) == 0 && SqlFriends(SqlRun(ops), 1) == [2]
  {
    var ops := [Invite(1, 2), Accept(2, 1), Reject(2, 1)];
    assert ops[..2] == [Invite(1, 2), Accept(2, 1)] && ops[..2][..1] == [Invite(1, 2)];
    assert MemRun([]) == map[] && SqlRun([]) == [];
    assert MemRun(ops[..2][..1]) == map[(1, 2) := 0] && SqlRun(ops[..2][..1]) == [Row(1, 2, 0)];
    assert Updated([Row(1, 2, 0)], 1, 2) == [Row(1, 2, 1)];
    assert MemRun(ops[..2]) == map[(1, 2) := 1] && SqlRun(ops[..2]) == [Row(1, 2, 1)];
    assert Deleted([Row(1, 2, 1)], 1, 2) == [Row(1, 2, 1)];
  }
}
