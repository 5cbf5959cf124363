/**
 The incremental decision and admission tables of the serving index against their declarative views
 (processor/serving_index.py, processor/duckdb_api.py).
 */
module ServingProjection {
  import opened Outcomes
  import Ordering

  datatype Key = Key(docId: string, scoringVersion: string, classifierRevision: string, policyRevision: string)

  datatype Decision = Decision(
    key: Key, trace: string, feed: string, validFrom: int, riskTier: int, route: string,
    rejectReasons: seq<string>, piiFlags: seq<string>)

  datatype Admission = Admission(
    id: string, docId: string, feed: string, status: string, licenseId: string, policyRevision: string,
    sourceFormat: Option<string>)

  // ---- One transaction -----------------------------------------------------------------------

  /** The position of a key in a poll collapsed so far, its length when absent. */
  function IndexOf(rows: seq<Decision>, key: Key): (n: nat)
    ensures n <= |rows|
    ensures n < |rows| ==> rows[n].key == key
    ensures forall i | 0 <= i < n :: rows[i].key != key
  {
    if rows == [] || rows[0].key == key then 0 else 1 + IndexOf(rows[1..], key)
  }

  /** `selected[key] = row` for a new key or a smaller trace; a replaced key keeps its place. */
  function Select(selected: seq<Decision>, row: Decision): seq<Decision> {
    var n := IndexOf(selected, row.key);
    if n == |selected| then selected + [row]
    else if Ordering.LexLess(row.trace, selected[n].trace) then selected[n := row]
    else selected
  }

  function Collapsed(records: seq<Decision>): seq<Decision> {
    if records == [] then [] else Select(Collapsed(records[..|records| - 1]), records[|records| - 1])
  }

  predicate AtMost(a: string, b: string) { a == b || Ordering.LexLess(a, b) }

  /** `DELETE FROM _incoming ... WHERE target.trace_id <= incoming.trace_id` */
  function Surviving(table: seq<Decision>, incoming: seq<Decision>): seq<Decision> {
    Ordering.Filter((r: Decision) => !exists t | t in table :: t.key == r.key && AtMost(t.trace, r.trace), incoming)
  }

  /** `DELETE FROM table ... USING _incoming`, then the insertion. */
  function Replaced(table: seq<Decision>, incoming: seq<Decision>): seq<Decision> {
    Ordering.Filter((t: Decision) => !exists r | r in incoming :: r.key == t.key, table) + incoming
  }

  /** The decision table after one applied poll. */
  function Applied(table: seq<Decision>, records: seq<Decision>): seq<Decision> {
    if records == [] then table else Replaced(table, Surviving(table, Collapsed(records)))
  }

  /** A table after a list of applied polls. */
  function Folded<R, T>(apply: (T, seq<R>) -> T, table: T, polls: seq<seq<R>>): T {
    if |polls| == 0 then table else apply(Folded(apply, table, polls[..|polls| - 1]), polls[|polls| - 1])
  }

  function Flattened<R>(polls: seq<seq<R>>): seq<R> {
    if |polls| == 0 then [] else Flattened(polls[..|polls| - 1]) + polls[|polls| - 1]
  }

  // ---- The declarative view ------------------------------------------------------------------

  /** `ROW_NUMBER() OVER (PARTITION BY key ORDER BY trace_id) = 1`, ties going to the first delivered. */
  ghost predicate RankedFirst(delivered: seq<Decision>, n: nat)
    requires n < |delivered|
  {
    forall i | 0 <= i < |delivered| && delivered[i].key == delivered[n].key ::
      Ordering.LexLess(delivered[n].trace, delivered[i].trace)
      || (delivered[n].trace == delivered[i].trace && n <= i)
  }

  ghost predicate InView(delivered: seq<Decision>, row: Decision) {
    exists n: nat :: n < |delivered| && delivered[n] == row && RankedFirst(delivered, n)
  }

  ghost predicate DistinctKeys(table: seq<Decision>) {
    forall i, j | 0 <= i < j < |table| :: table[i].key != table[j].key
  }

  /** The table holds exactly the view's rows, one per key. */
  ghost predicate Projects(table: seq<Decision>, delivered: seq<Decision>) {
    DistinctKeys(table) && forall r :: r in table <==> InView(delivered, r)
  }

  // ---- The best record of a key --------------------------------------------------------------

  /** The first record of least trace among those of one key. */
  function Best(records: seq<Decision>, key: Key): Option<Decision> {
    if records == [] then None
    else Better(Best(records[..|records| - 1], key), if records[|records| - 1].key == key then Some(records[|records| - 1]) else None)
  }

  function Better(a: Option<Decision>, b: Option<Decision>): Option<Decision> {
    if a.None? || (b.Some? && Ordering.LexLess(b.value.trace, a.value.trace)) then b else a
  }

  lemma BetterAssociative(a: Option<Decision>, b: Option<Decision>, c: Option<Decision>)
    ensures Better(Better(a, b), c) == Better(a, Better(b, c))
  {
    if a.Some? && b.Some? && c.Some? {
      Ordering.LexTrichotomy(a.value.trace, b.value.trace);
      Ordering.LexTrichotomy(b.value.trace, c.value.trace);
      Ordering.LexTrichotomy(a.value.trace, c.value.trace);
      if Ordering.LexLess(c.value.trace, b.value.trace) && Ordering.LexLess(b.value.trace, a.value.trace) {
        Ordering.LexTransitive(c.value.trace, b.value.trace, a.value.trace);
      }
      if Ordering.LexLess(a.value.trace, b.value.trace) && Ordering.LexLess(c.value.trace, a.value.trace) {
        Ordering.LexTransitive(c.value.trace, a.value.trace, b.value.trace);
      }
      if Ordering.LexLess(a.value.trace, b.value.trace) && Ordering.LexLess(b.value.trace, c.value.trace) {
        Ordering.LexTransitive(a.value.trace, b.value.trace, c.value.trace);
      }
    }
  }

  /** The best of a concatenation is the better of the two bests: any split into polls will do. */
  lemma {:induction false} BestAppend(a: seq<Decision>, b: seq<Decision>, key: Key)
    ensures Best(a + b, key) == Better(Best(a, key), Best(b, key))
  {
    if b == [] {
      assert a + b == a;
    } else {
      var front, last := b[..|b| - 1], b[|b| - 1];
      assert (a + b)[..|a + b| - 1] == a + front;
      BestAppend(a, front, key);
      BetterAssociative(Best(a, key), Best(front, key), if last.key == key then Some(last) else None);
    }
  }

  lemma {:induction false} BestIsRankedFirst(records: seq<Decision>, key: Key)
    ensures Best(records, key).None? <==> forall i | 0 <= i < |records| :: records[i].key != key
    ensures Best(records, key).Some? ==>
              exists n: nat :: n < |records| && records[n] == Best(records, key).value && records[n].key == key && RankedFirst(records, n)
  {
    if records != [] {
      var front, last := records[..|records| - 1], records[|records| - 1];
      BestIsRankedFirst(front, key);
      assert records == front + [last];
      if Best(front, key).None? {
        if last.key == key {
          Ordering.LexTrichotomy(last.trace, last.trace);
          assert RankedFirst(records, |front|);
        }
      } else {
        var n: nat :| n < |front| && front[n] == Best(front, key).value && front[n].key == key && RankedFirst(front, n);
        if last.key == key && Ordering.LexLess(last.trace, front[n].trace) {
          forall i | 0 <= i < |records| && records[i].key == key
            ensures Ordering.LexLess(last.trace, records[i].trace) || (last.trace == records[i].trace && |front| <= i)
          {
            if i < |front| && front[n].trace != front[i].trace {
              Ordering.LexTransitive(last.trace, front[n].trace, front[i].trace);
            }
          }
          assert RankedFirst(records, |front|);
        } else {
          Ordering.LexTrichotomy(last.trace, front[n].trace);
          assert records[n] == front[n];
          assert RankedFirst(records, n);
        }
      }
    }
  }

  /** A record is in the view exactly when it is the best of its key. */
  lemma ViewIsBest(delivered: seq<Decision>, row: Decision)
    ensures InView(delivered, row) <==> Best(delivered, row.key) == Some(row)
  {
    BestIsRankedFirst(delivered, row.key);
    if InView(delivered, row) {
      var n: nat :| n < |delivered| && delivered[n] == row && RankedFirst(delivered, n);
      var best := Best(delivered, row.key);
      assert best.Some?;
      var k: nat :| k < |delivered| && delivered[k] == best.value && delivered[k].key == row.key && RankedFirst(delivered, k);
      Ordering.LexTrichotomy(delivered[n].trace, delivered[k].trace);
    }
  }

  // ---- The incremental table is the view -----------------------------------------------------

  ghost predicate HoldsBest(table: seq<Decision>, delivered: seq<Decision>) {
    DistinctKeys(table) && forall r :: r in table <==> Best(delivered, r.key) == Some(r)
  }

  lemma {:induction false} BestKey(records: seq<Decision>, key: Key)
    ensures Best(records, key).Some? ==> Best(records, key).value.key == key && Best(records, key).value in records
  {
    if records != [] {
      BestKey(records[..|records| - 1], key);
    }
  }

  lemma {:induction false} CollapsedHoldsBest(records: seq<Decision>)
    ensures HoldsBest(Collapsed(records), records)
  {
    if records != [] {
      var front, last := records[..|records| - 1], records[|records| - 1];
      CollapsedHoldsBest(front);
      SelectHoldsBest(Collapsed(front), front, last);
      assert records == front + [last];
    }
  }

  lemma SelectHoldsBest(selected: seq<Decision>, front: seq<Decision>, last: Decision)
    requires HoldsBest(selected, front)
    ensures HoldsBest(Select(selected, last), front + [last])
  {
    var n, next := IndexOf(selected, last.key), Select(selected, last);
    assert (front + [last])[..|front|] == front;
    BestKey(front, last.key);
    if n < |selected| {
      assert selected[n] in selected;
    }
    forall r ensures r in next <==> Best(front + [last], r.key) == Some(r) {
      BestKey(front, r.key);
      if n == |selected| {
        assert r in next <==> r in selected || r == last;
      } else if Ordering.LexLess(last.trace, selected[n].trace) {
        ReplacedElements(selected, n, last, r);
      }
    }
  }

  lemma ReplacedElements(s: seq<Decision>, n: nat, x: Decision, r: Decision)
    requires n < |s| && DistinctKeys(s) && s[n].key == x.key
    ensures r in s[n := x] <==> r == x || (r in s && r.key != x.key)
  {
    if r in s && r.key != x.key {
      var i :| 0 <= i < |s| && s[i] == r;
      assert s[n := x][i] == r;
    }
    assert s[n := x][n] == x;
  }

  lemma {:induction false} FilterDistinct(p: Decision -> bool, s: seq<Decision>)
    requires DistinctKeys(s)
    ensures DistinctKeys(Ordering.Filter(p, s))
  {
    if s != [] {
      FilterDistinct(p, s[1..]);
      var rest := Ordering.Filter(p, s[1..]);
      forall i | 0 <= i < |rest| ensures rest[i].key != s[0].key {
        Ordering.FilterElements(p, s[1..], rest[i]);
        var j :| 0 <= j < |s[1..]| && s[1..][j] == rest[i];
        assert s[j + 1] == rest[i];
      }
    }
  }

  lemma SurvivingElements(table: seq<Decision>, incoming: seq<Decision>, r: Decision)
    ensures r in Surviving(table, incoming) <==>
              r in incoming && !exists t | t in table :: t.key == r.key && AtMost(t.trace, r.trace)
  {
    Ordering.FilterElements((r: Decision) => !exists t | t in table :: t.key == r.key && AtMost(t.trace, r.trace), incoming, r);
  }

  lemma ReplacedRows(table: seq<Decision>, incoming: seq<Decision>, r: Decision)
    ensures r in Replaced(table, incoming) <==>
              r in incoming || (r in table && !exists x | x in incoming :: x.key == r.key)
  {
    Ordering.FilterElements((t: Decision) => !exists x | x in incoming :: x.key == t.key, table, r);
  }

  lemma ReplacedDistinct(table: seq<Decision>, incoming: seq<Decision>)
    requires DistinctKeys(table) && DistinctKeys(incoming)
    ensures DistinctKeys(Replaced(table, incoming))
  {
    var kept := Ordering.Filter((t: Decision) => !exists r | r in incoming :: r.key == t.key, table);
    FilterDistinct((t: Decision) => !exists r | r in incoming :: r.key == t.key, table);
    forall x, y | x in kept && y in incoming ensures x.key != y.key {
      Ordering.FilterElements((t: Decision) => !exists r | r in incoming :: r.key == t.key, table, x);
    }
  }

  /** One applied poll moves the table from the best records so far to the best including the poll. */
  lemma AppliedHoldsBest(table: seq<Decision>, delivered: seq<Decision>, records: seq<Decision>)
    requires HoldsBest(table, delivered)
    ensures HoldsBest(Applied(table, records), delivered + records)
  {
    if records == [] {
      assert delivered + records == delivered;
    } else {
      var collapsed := Collapsed(records);
      var incoming := Surviving(table, collapsed);
      CollapsedHoldsBest(records);
      FilterDistinct((r: Decision) => !exists t | t in table :: t.key == r.key && AtMost(t.trace, r.trace), collapsed);
      ReplacedDistinct(table, incoming);
      forall r ensures r in Replaced(table, incoming) <==> Best(delivered + records, r.key) == Some(r) {
        RowAfterPoll(table, delivered, records, r);
      }
    }
  }

  lemma RowAfterPoll(table: seq<Decision>, delivered: seq<Decision>, records: seq<Decision>, r: Decision)
    requires HoldsBest(table, delivered)
    ensures r in Replaced(table, Surviving(table, Collapsed(records))) <==> Best(delivered + records, r.key) == Some(r)
  {
    var collapsed := Collapsed(records);
    var incoming := Surviving(table, collapsed);
    CollapsedHoldsBest(records);
    BestAppend(delivered, records, r.key);
    var prior, incomingBest := Best(delivered, r.key), Best(records, r.key);
    BestKey(delivered, r.key);
    BestKey(records, r.key);
    ReplacedRows(table, incoming, r);
    SurvivingElements(table, collapsed, r);
    if incomingBest.Some? {
      SurvivingElements(table, collapsed, incomingBest.value);
      if prior.Some? {
        Ordering.LexTrichotomy(prior.value.trace, incomingBest.value.trace);
        assert prior.value in table;
      }
    }
    forall x | x in incoming && x.key == r.key ensures incomingBest == Some(x) {
      SurvivingElements(table, collapsed, x);
    }
    forall t | t in table && t.key == r.key ensures prior == Some(t) {
    }
  }

  lemma {:induction false} AllAppliedHoldsBest(polls: seq<seq<Decision>>)
    ensures HoldsBest(Folded(Applied, [], polls), Flattened(polls))
  {
    if polls != [] {
      AllAppliedHoldsBest(polls[..|polls| - 1]);
      AppliedHoldsBest(Folded(Applied, [], polls[..|polls| - 1]), Flattened(polls[..|polls| - 1]), polls[|polls| - 1]);
    }
  }

  /**
   However a delivered sequence, redeliveries included, is split into polls, the serving table has one row
   per key: the first-delivered record of least trace, which is what the ranking view selects.
   */
  lemma TableIsTheView(polls: seq<seq<Decision>>)
    ensures Projects(Folded(Applied, [], polls), Flattened(polls))
  {
    AllAppliedHoldsBest(polls);
    forall r ensures InView(Flattened(polls), r) <==> Best(Flattened(polls), r.key) == Some(r) {
      ViewIsBest(Flattened(polls), r);
    }
  }

  /** Delivering again what was delivered before, in any order and any number of times, changes no row. */
  lemma RedeliveryChangesNothing(table: seq<Decision>, delivered: seq<Decision>, again: seq<Decision>, row: Decision)
    requires Projects(table, delivered) && forall r | r in again :: r in delivered
    ensures row in Applied(table, again) <==> row in table
  {
    forall r ensures InView(delivered, r) <==> Best(delivered, r.key) == Some(r) {
      ViewIsBest(delivered, r);
    }
    AppliedHoldsBest(table, delivered, again);
    BestAppend(delivered, again, row.key);
    BestKey(again, row.key);
    BestIsRankedFirst(delivered, row.key);
    if Best(again, row.key).Some? {
      var b := Best(again, row.key).value;
      var i :| 0 <= i < |delivered| && delivered[i] == b;
      var n: nat :| n < |delivered| && delivered[n] == Best(delivered, row.key).value && RankedFirst(delivered, n);
      Ordering.LexTrichotomy(delivered[n].trace, b.trace);
    }
  }

  // ---- Admissions: the last delivery of an identifier wins -------------------------------------

  function AdmissionIndex(rows: seq<Admission>, id: string): (n: nat)
    ensures n <= |rows|
    ensures n < |rows| ==> rows[n].id == id
    ensures forall i | 0 <= i < n :: rows[i].id != id
  {
    if rows == [] || rows[0].id == id then 0 else 1 + AdmissionIndex(rows[1..], id)
  }

  function SelectLast(selected: seq<Admission>, row: Admission): seq<Admission> {
    var n := AdmissionIndex(selected, row.id);
    if n == |selected| then selected + [row] else selected[n := row]
  }

  function CollapsedLast(records: seq<Admission>): seq<Admission> {
    if records == [] then [] else SelectLast(CollapsedLast(records[..|records| - 1]), records[|records| - 1])
  }

  function ReplacedAdmissions(table: seq<Admission>, incoming: seq<Admission>): seq<Admission> {
    Ordering.Filter((t: Admission) => !exists r | r in incoming :: r.id == t.id, table) + incoming
  }

  function AdmissionsApplied(table: seq<Admission>, records: seq<Admission>): seq<Admission> {
    if records == [] then table else ReplacedAdmissions(table, CollapsedLast(records))
  }

  function LastOf(records: seq<Admission>, id: string): Option<Admission> {
    if records == [] then None
    else if records[|records| - 1].id == id then Some(records[|records| - 1])
    else LastOf(records[..|records| - 1], id)
  }

  ghost predicate DistinctIds(table: seq<Admission>) {
    forall i, j | 0 <= i < j < |table| :: table[i].id != table[j].id
  }

  ghost predicate HoldsLast(table: seq<Admission>, delivered: seq<Admission>) {
    DistinctIds(table) && forall r :: r in table <==> LastOf(delivered, r.id) == Some(r)
  }

  lemma {:induction false} LastOfAppend(a: seq<Admission>, b: seq<Admission>, id: string)
    ensures LastOf(a + b, id) == if LastOf(b, id).Some? then LastOf(b, id) else LastOf(a, id)
    ensures LastOf(b, id).Some? ==> LastOf(b, id).value.id == id
  {
    if b == [] {
      assert a + b == a;
    } else {
      assert (a + b)[..|a + b| - 1] == a + b[..|b| - 1];
      LastOfAppend(a, b[..|b| - 1], id);
    }
  }

  lemma SelectHoldsLast(selected: seq<Admission>, front: seq<Admission>, last: Admission)
    requires HoldsLast(selected, front)
    ensures HoldsLast(SelectLast(selected, last), front + [last])
  {
    var n, next := AdmissionIndex(selected, last.id), SelectLast(selected, last);
    assert (front + [last])[..|front|] == front;
    forall r ensures r in next <==> LastOf(front + [last], r.id) == Some(r) {
      if n < |selected| {
        assert next[n] == last;
        if r in selected && r.id != last.id {
          var i :| 0 <= i < |selected| && selected[i] == r;
          assert next[i] == r;
        }
      }
    }
  }

  lemma {:induction false} CollapsedHoldsLast(records: seq<Admission>)
    ensures HoldsLast(CollapsedLast(records), records)
  {
    if records != [] {
      var front, last := records[..|records| - 1], records[|records| - 1];
      CollapsedHoldsLast(front);
      SelectHoldsLast(CollapsedLast(front), front, last);
      assert records == front + [last];
    }
  }

  lemma {:induction false} FilterDistinctIds(p: Admission -> bool, s: seq<Admission>)
    requires DistinctIds(s)
    ensures DistinctIds(Ordering.Filter(p, s))
  {
    if s != [] {
      FilterDistinctIds(p, s[1..]);
      var rest := Ordering.Filter(p, s[1..]);
      forall i | 0 <= i < |rest| ensures rest[i].id != s[0].id {
        Ordering.FilterElements(p, s[1..], rest[i]);
        var j :| 0 <= j < |s[1..]| && s[1..][j] == rest[i];
        assert s[j + 1] == rest[i];
      }
    }
  }

  /** One applied poll moves the admission table from the last deliveries so far to those including the poll. */
  lemma AdmissionsHoldLast(table: seq<Admission>, delivered: seq<Admission>, records: seq<Admission>)
    requires HoldsLast(table, delivered)
    ensures HoldsLast(AdmissionsApplied(table, records), delivered + records)
  {
    if records == [] {
      assert delivered + records == delivered;
    } else {
      var incoming := CollapsedLast(records);
      var absent := (t: Admission) => !exists r | r in incoming :: r.id == t.id;
      var kept := Ordering.Filter(absent, table);
      CollapsedHoldsLast(records);
      FilterDistinctIds(absent, table);
      forall x, y | x in kept && y in incoming ensures x.id != y.id {
        Ordering.FilterElements(absent, table, x);
      }
      forall r ensures r in kept + incoming <==> LastOf(delivered + records, r.id) == Some(r) {
        Ordering.FilterElements(absent, table, r);
        LastOfAppend(delivered, records, r.id);
        assert LastOf(records, r.id).Some? ==> LastOf(records, r.id).value in incoming;
      }
    }
  }

  lemma {:induction false} AllAdmissionsHoldLast(polls: seq<seq<Admission>>)
    ensures HoldsLast(Folded(AdmissionsApplied, [], polls), Flattened(polls))
  {
    if polls != [] {
      AllAdmissionsHoldLast(polls[..|polls| - 1]);
      AdmissionsHoldLast(Folded(AdmissionsApplied, [], polls[..|polls| - 1]), Flattened(polls[..|polls| - 1]), polls[|polls| - 1]);
    }
  }

  /** The declarative view of the admissions: a row that no later delivery of its identifier follows. */
  ghost predicate InLastView(delivered: seq<Admission>, row: Admission) {
    exists n: nat :: n < |delivered| && delivered[n] == row && forall i | n < i < |delivered| :: delivered[i].id != row.id
  }

  lemma {:induction false} LastIsInView(delivered: seq<Admission>, row: Admission)
    ensures LastOf(delivered, row.id) == Some(row) <==> InLastView(delivered, row)
  {
    if delivered != [] {
      var front, last := delivered[..|delivered| - 1], delivered[|delivered| - 1];
      LastIsInView(front, row);
      if last.id == row.id {
        if last == row {
          assert delivered[|delivered| - 1] == row;
        }
      } else if InLastView(front, row) {
        var n: nat :| n < |front| && front[n] == row && forall i | n < i < |front| :: front[i].id != row.id;
        assert delivered[n] == row;
      }
    }
  }

  /**
   However the delivered admissions, redeliveries included, are split into polls, the admission table has one row
   per identifier: the last delivered one.
   */
  lemma AdmissionTableIsTheLast(polls: seq<seq<Admission>>)
    ensures var table := Folded(AdmissionsApplied, [], polls);
            DistinctIds(table) && forall r :: r in table <==> InLastView(Flattened(polls), r)
  {
    AllAdmissionsHoldLast(polls);
    forall r ensures InLastView(Flattened(polls), r) <==> LastOf(Flattened(polls), r.id) == Some(r) {
      LastIsInView(Flattened(polls), r);
    }
  }
}
