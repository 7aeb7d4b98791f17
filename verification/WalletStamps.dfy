/** The time on the ledger: entries are only ever added, and each carries the time of the
    operation that wrote it. */
module WalletStamps {
  import opened Wrappers
  import opened Credits
  import opened WalletSpec
  import opened WalletRows

  // What was added carries this time.
  ghost predicate StampedSince(before: seq<Transaction>, after: seq<Transaction>, now: Time) {
    && |before| <= |after| && after[..|before|] == before
    && forall i :: |before| <= i < |after| ==> after[i].createdAt == now
  }

  lemma RowStamps(s: State, row: Row, now: Time)
    requires Post(s, row, now).Success?
    ensures StampedSince(s.ledger, Post(s, row, now).value.ledger, now)
  {
    if row.OpenRow? {
      assert s.ledger[..|s.ledger|] == s.ledger;
    }
  }

  lemma {:induction false} RowsStamp(s: State, rows: seq<Row>, now: Time)
    requires PostAll(s, rows, now).Success?
    ensures StampedSince(s.ledger, PostAll(s, rows, now).value.ledger, now)
    decreases |rows|
  {
    var r := PostAll(s, rows, now).value;
    if rows == [] {
      assert s.ledger[..|s.ledger|] == s.ledger;
    } else {
      var m := Post(s, rows[0], now).value;
      RowStamps(s, rows[0], now);
      RowsStamp(m, rows[1..], now);
      assert r.ledger[..|s.ledger|] == r.ledger[..|m.ledger|][..|s.ledger|];
      assert forall i :: |s.ledger| <= i < |m.ledger| ==> r.ledger[..|m.ledger|][i] == r.ledger[i];
    }
  }

  // Main result: every operation, failed ones included.
  lemma OperationStamps(s: State, op: Operation)
    ensures StampedSince(s.ledger, Execute(s, op).ledger, op.now)
  {
    var rows := OperationIsRows(s, op, false);
    RowsStamp(s, rows, op.now);
  }
}
