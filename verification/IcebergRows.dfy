/** Decision rows, their recipe keys, and the rows a writer still has to commit (processor/iceberg_writer.py). */
module IcebergRows {
  datatype Key = Key(docId: string, scoringVersion: string, classifierRevision: string, policyRevision: string)

  datatype Row = Row(
    key: Key, validFrom: int, riskTier: int, route: string, rejectReasons: seq<string>, piiFlags: seq<string>)

  /** The writer-side guard of the clean-only Gold table; legacy route names are still accepted. */
  predicate Trainable(row: Row) {
    && row.riskTier == 1
    && row.route in {"pretrain", "broad_pretraining", "posttrain_candidate", "reasoning_candidate"}
    && row.rejectReasons == []
    && row.piiFlags == []
  }

  /** A trainable row is of the first risk tier and on a training route, and nothing is held against it. */
  lemma TrainableMeans(row: Row)
    ensures Trainable(row) <==>
              && row.riskTier == 1 && |row.rejectReasons| == 0 && |row.piiFlags| == 0
              && (row.route == "pretrain" || row.route == "broad_pretraining" || row.route == "posttrain_candidate"
                  || row.route == "reasoning_candidate")
  {
  }

  function Keys(rows: seq<Row>): set<Key> { set r | r in rows :: r.key }

  ghost predicate Distinct(rows: seq<Row>) {
    forall i, j | 0 <= i < j < |rows| :: rows[i].key != rows[j].key
  }

  function Accepted(rows: seq<Row>): seq<Row> {
    if rows == [] then []
    else Accepted(rows[..|rows| - 1]) + if Trainable(rows[|rows| - 1]) then [rows[|rows| - 1]] else []
  }

  /** One row per key that neither `existing` nor an earlier row holds, in order. */
  function FreshRows(existing: set<Key>, rows: seq<Row>): seq<Row> {
    if rows == [] then []
    else
      var before, last := FreshRows(existing, rows[..|rows| - 1]), rows[|rows| - 1];
      if last.key in existing || last.key in Keys(before) then before else before + [last]
  }

  lemma KeysAppend(a: seq<Row>, b: seq<Row>)
    ensures Keys(a + b) == Keys(a) + Keys(b)
  {
    assert forall r :: r in a + b <==> r in a || r in b;
  }

  lemma {:induction false} AcceptedElements(rows: seq<Row>, row: Row)
    ensures row in Accepted(rows) <==> row in rows && Trainable(row)
  {
    if rows != [] {
      AcceptedElements(rows[..|rows| - 1], row);
      assert rows == rows[..|rows| - 1] + [rows[|rows| - 1]];
    }
  }

  /** The fresh rows are new, pairwise distinct, taken from `rows`, and complete its keys. */
  lemma {:induction false} FreshRowsComplete(existing: set<Key>, rows: seq<Row>)
    ensures var missing := FreshRows(existing, rows);
            && Distinct(missing)
            && Keys(missing) == Keys(rows) - existing
            && (forall r | r in missing :: r in rows)
  {
    if rows != [] {
      var front, last := rows[..|rows| - 1], rows[|rows| - 1];
      FreshRowsComplete(existing, front);
      assert rows == front + [last];
      KeysAppend(front, [last]);
      KeysAppend(FreshRows(existing, front), [last]);
      assert Keys([last]) == {last.key};
    }
  }

  lemma NothingMissing(offered: set<Key>, stored: set<Key>, pending: seq<Row>)
    requires Keys(pending) == offered - stored && pending == []
    ensures offered <= stored
  {
    assert forall k | k in offered :: k in stored || k in Keys(pending);
  }

  /** The first row of each missing key is the one that is committed. */
  lemma {:induction false} FreshRowsAreFirst(existing: set<Key>, rows: seq<Row>, n: nat)
    requires n < |rows| && rows[n].key !in existing && rows[n].key !in Keys(rows[..n])
    ensures rows[n] in FreshRows(existing, rows)
  {
    var front, last := rows[..|rows| - 1], rows[|rows| - 1];
    if n < |rows| - 1 {
      assert front[..n] == rows[..n];
      FreshRowsAreFirst(existing, front, n);
    } else {
      FreshRowsComplete(existing, front);
    }
  }

  /** Appending rows that are fresh for a table keeps one row per key. */
  lemma AppendKeepsDistinct(table: seq<Row>, more: seq<Row>)
    requires Distinct(table) && Distinct(more) && Keys(table) !! Keys(more)
    ensures Distinct(table + more)
  {
    forall i, j | 0 <= i < j < |table + more| ensures (table + more)[i].key != (table + more)[j].key {
      if i < |table| <= j {
        assert table[i].key in Keys(table) && more[j - |table|].key in Keys(more);
      }
    }
  }
}
