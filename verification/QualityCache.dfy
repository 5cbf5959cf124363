/** The durable cache of completed section scores (processor/quality_cache.py). */
module QualityCache {
  import Ordering

  // The key is a hash of the model revision and the text, so under one revision the text itself stands for it.

  const RETAINED: nat := 100000
  const EVICT_EVERY: nat := 1000

  datatype Entry<V> = Entry(value: V, created: int)

  type Table<V> = map<string, Entry<V>>

  // ---- Eviction ------------------------------------------------------------------------------

  /** `ORDER BY created DESC, key` */
  predicate Precedes<V>(table: Table<V>, j: string, k: string)
    requires j in table && k in table
  {
    table[j].created > table[k].created || (table[j].created == table[k].created && Ordering.LexLess(j, k))
  }

  function Ahead<V>(table: Table<V>, k: string): set<string>
    requires k in table
  {
    set j | j in table && Precedes(table, j, k)
  }

  /** The rows that `LIMIT -1 OFFSET 100000` does not select for deletion. */
  function Evicted<V>(table: Table<V>, retained: nat): Table<V> {
    map k | k in table && |Ahead(table, k)| < retained :: table[k]
  }

  lemma PrecedesIsStrict<V>(table: Table<V>, a: string, b: string, c: string)
    requires a in table && b in table && c in table
    ensures !Precedes(table, a, a)
    ensures a != b ==> Precedes(table, a, b) || Precedes(table, b, a)
    ensures Precedes(table, a, b) && Precedes(table, b, c) ==> Precedes(table, a, c)
  {
    Ordering.LexTrichotomy(a, b);
    if Ordering.LexLess(a, b) && Ordering.LexLess(b, c) {
      Ordering.LexTransitive(a, b, c);
    }
  }

  /** A nonempty set of keys has a last one in the order. */
  lemma {:induction false} LastKey<V>(table: Table<V>, keys: set<string>) returns (last: string)
    requires keys != {} && keys <= table.Keys
    ensures last in keys && forall k | k in keys && k != last :: Precedes(table, k, last)
    decreases |keys|
  {
    var k :| k in keys;
    var rest := keys - {k};
    assert forall j | j in keys :: j == k || j in rest;
    if rest == {} {
      last := k;
    } else {
      var l := LastKey(table, rest);
      PrecedesIsStrict(table, k, l, k);
      last := if Precedes(table, k, l) then l else k;
      forall j | j in keys && j != last ensures Precedes(table, j, last) {
        if j in rest && j != l {
          PrecedesIsStrict(table, j, l, last);
        }
      }
    }
  }

  /** Eviction leaves at most the retained number of rows. */
  lemma EvictionBound<V>(table: Table<V>, retained: nat)
    ensures |Evicted(table, retained)| <= retained
    ensures Evicted(table, retained).Keys <= table.Keys
    ensures forall k | k in Evicted(table, retained) :: Evicted(table, retained)[k] == table[k]
  {
    var kept := Evicted(table, retained).Keys;
    assert |Evicted(table, retained)| == |kept|;
    if kept != {} {
      var last := LastKey(table, kept);
      assert kept - {last} <= Ahead(table, last);
      SubsetSize(kept - {last}, Ahead(table, last));
    }
  }

  lemma {:induction false} SubsetSize(a: set<string>, b: set<string>)
    requires a <= b
    ensures |a| <= |b|
    decreases |a|
  {
    if a != {} {
      var x :| x in a;
      SubsetSize(a - {x}, b - {x});
    }
  }

  /** What is kept is newer than what is evicted, and nothing is evicted below the retained number. */
  lemma EvictionKeepsNewest<V>(table: Table<V>, retained: nat, kept: string, gone: string)
    requires kept in Evicted(table, retained) && gone in table && gone !in Evicted(table, retained)
    ensures Precedes(table, kept, gone) && table[kept].created >= table[gone].created
    ensures |table| > retained
  {
    PrecedesIsStrict(table, kept, gone, kept);
    if Precedes(table, gone, kept) {
      forall j | j in Ahead(table, gone) ensures j in Ahead(table, kept) {
        PrecedesIsStrict(table, j, gone, kept);
      }
      SubsetSize(Ahead(table, gone), Ahead(table, kept));
    }
    PrecedesIsStrict(table, gone, gone, gone);
    assert gone !in Ahead(table, gone);
    SubsetSize(Ahead(table, gone) + {gone}, table.Keys);
  }

  // ---- Writing rows --------------------------------------------------------------------------

  function Scored<V>(scorer: string -> V, texts: set<string>, now: int): Table<V> {
    map t | t in texts :: Entry(scorer(t), now)
  }

  /** `INSERT OR REPLACE` */
  function Stored<V>(scorer: string -> V, table: Table<V>, texts: set<string>, now: int): Table<V> {
    table + Scored(scorer, texts, now)
  }

  /** The rows are stored, then there is an eviction once a thousand rows were written. */
  function Filled<V>(scorer: string -> V, table: Table<V>, writes: nat, texts: set<string>, now: int): (Table<V>, nat) {
    var stored := Stored(scorer, table, texts, now);
    if writes + |texts| >= EVICT_EVERY then (Evicted(stored, RETAINED), 0) else (stored, writes + |texts|)
  }

  lemma FilledCases<V>(scorer: string -> V, table: Table<V>, writes: nat, texts: set<string>, now: int)
    ensures var stored := Stored(scorer, table, texts, now);
            Filled(scorer, table, writes, texts, now)
            == if writes + |texts| >= EVICT_EVERY then (Evicted(stored, RETAINED), 0) else (stored, writes + |texts|)
  {
  }

  ghost predicate Exact<V>(scorer: string -> V, table: Table<V>) {
    forall t | t in table :: table[t].value == scorer(t)
  }

  lemma UnionSize(a: set<string>, b: set<string>)
    ensures |a + b| <= |a| + |b|
  {
    assert |a + b| == |a| + |b| - |a * b|;
  }

  /** One write keeps the cache exact, and within the limit plus the writes since the last eviction. */
  lemma FilledKeeps<V>(scorer: string -> V, table: Table<V>, writes: nat, texts: set<string>, now: int, limit: nat)
    requires Exact(scorer, table) && limit >= RETAINED && |table| <= limit + writes
    ensures var r := Filled(scorer, table, writes, texts, now);
            Exact(scorer, r.0) && |r.0| <= limit + r.1 && r.1 < EVICT_EVERY
  {
    hide Evicted;
    var stored := table + Scored(scorer, texts, now);
    assert stored.Keys == table.Keys + texts;
    UnionSize(table.Keys, texts);
    assert |stored| == |stored.Keys| && |table| == |table.Keys|;
    EvictionBound(stored, RETAINED);
  }

  /** Rows newer than everything stored survive the write that stores them, up to the retained number. */
  lemma FreshRowsSurvive<V>(scorer: string -> V, table: Table<V>, writes: nat, texts: set<string>, now: int)
    requires |texts| <= 100000 && forall k | k in table :: table[k].created < now
    ensures forall t | t in texts ::
              var r := Filled(scorer, table, writes, texts, now).0; t in r && r[t] == Entry(scorer(t), now)
  {
    var stored := Stored(scorer, table, texts, now);
    forall t | t in texts ensures |Ahead(stored, t)| < 100000 {
      PrecedesIsStrict(stored, t, t, t);
      assert Ahead(stored, t) <= texts - {t};
      SubsetSize(Ahead(stored, t), texts - {t});
    }
  }

  // ---- The scorer ----------------------------------------------------------------------------

  class CachedQualityScorer<V> {
    const scorer: string -> V
    const limit: nat
    var table: Table<V>
    var writes: nat
    /** As history: the texts that every call asked the inner scorer for. */
    ghost var asked: seq<set<string>>

    ghost predicate Valid()
      reads this
    {
      Exact(scorer, table) && limit >= RETAINED && writes < EVICT_EVERY && |table| <= limit + writes
    }

    /** Opening the database counts no writes, however many the last process left uncounted. */
    constructor (scorer: string -> V, stored: Table<V>)
      requires Exact(scorer, stored)
      ensures Valid() && this.scorer == scorer && table == stored
      ensures limit == if |stored| > RETAINED then |stored| else RETAINED
    {
      this.scorer, table, writes, asked := scorer, stored, 0, [];
      limit := if |stored| > RETAINED then |stored| else RETAINED;
    }

    /** The locked first half: what is stored, and the distinct texts that are not. */
    method Lookup(texts: seq<string>) returns (values: map<string, V>, missing: set<string>)
      requires Valid()
      ensures values.Keys == (set t | t in texts && t in table) && missing == (set t | t in texts && t !in table)
      ensures forall t | t in values :: values[t] == scorer(t)
    {
      values, missing := map[], {};
      for n := 0 to |texts|
        invariant forall t | t in values :: values[t] == scorer(t)
        invariant forall t :: t in values <==> t in texts[..n] && t in table
        invariant forall t :: t in missing <==> t in texts[..n] && t !in table
      {
        assert texts[..n + 1] == texts[..n] + [texts[n]];
        if texts[n] !in table {
          missing := missing + {texts[n]};
        } else {
          values := values[texts[n] := table[texts[n]].value];
        }
      }
      assert texts[..|texts|] == texts;
    }

    /** The locked second half. */
    method Fill(texts: set<string>, now: int)
      requires Valid()
      modifies this`table, this`writes
      ensures Valid()
      ensures (table, writes) == Filled(scorer, old(table), old(writes), texts, now)
    {
      hide Exact, Evicted, Scored, Stored, Filled;
      FilledKeeps(scorer, table, writes, texts, now, limit);
      FilledCases(scorer, table, writes, texts, now);
      var stored := Stored(scorer, table, texts, now);
      table, writes := stored, writes + |texts|;
      if writes >= EVICT_EVERY {
        table, writes := Evicted(stored, RETAINED), 0;
      }
    }

    /** Between the two halves other threads fill and evict. */
    method OtherThreads()
      requires Valid()
      modifies this`table, this`writes
      ensures Valid()
    {
      var fills: seq<set<string>> := *;
      for n := 0 to |fills|
        invariant Valid()
      {
        var now: int := *;
        Fill(fills[n], now);
      }
    }

    /**
     The same list as scoring every text in order, duplicates included, whatever was cached or evicted. The inner
     scorer is asked once, for the distinct texts that were not stored, and its answers are stored; after the call the
     table holds at most 999 rows more than it started with or retains.
     */
    method ScoreMany(texts: seq<string>, now: int) returns (results: seq<V>)
      requires Valid()
      modifies this
      ensures |results| == |texts| && forall i | 0 <= i < |texts| :: results[i] == scorer(texts[i])
      ensures Valid() && |table| <= limit + 999
      ensures var missing := set t | t in texts && t !in old(table);
              if missing == {} then asked == old(asked)
              else asked == old(asked) + [missing]
                   && exists others, counted :: Exact(scorer, others) && (table, writes) == Filled(scorer, others, counted, missing, now)
    {
      hide Filled, Evicted;
      var values, missing := Lookup(texts);
      hide Exact;
      OtherThreads();
      if missing != {} {
        asked := asked + [missing];
        Fill(missing, now);
      }
      results := Collect(texts, values, missing);
    }

    /** `values.update(pairs)`, then one value per key in order. */
    method Collect(texts: seq<string>, values: map<string, V>, missing: set<string>) returns (results: seq<V>)
      requires forall t | t in values :: values[t] == scorer(t)
      requires forall t | t in texts :: t in values || t in missing
      ensures |results| == |texts| && forall i | 0 <= i < |texts| :: results[i] == scorer(texts[i])
    {
      var all := values + map t | t in missing :: scorer(t);
      results := [];
      for n := 0 to |texts|
        invariant |results| == n && forall i | 0 <= i < n :: results[i] == scorer(texts[i])
      {
        assert texts[n] in texts;
        results := results + [all[texts[n]]];
      }
    }
  }

  // ---- Across restarts the bound does not hold -----------------------------------------------

  datatype Use = Restart | Write(texts: set<string>, now: int)

  function History<V>(scorer: string -> V, uses: seq<Use>): (Table<V>, nat) {
    if uses == [] then (map[], 0)
    else
      var before := History(scorer, uses[..|uses| - 1]);
      match uses[|uses| - 1]
      case Restart => (before.0, 0)
      case Write(texts, now) => Filled(scorer, before.0, before.1, texts, now)
  }

  function Restarts(uses: seq<Use>): nat {
    if uses == [] then 0 else Restarts(uses[..|uses| - 1]) + if uses[|uses| - 1].Restart? then 1 else 0
  }

  /** Every restart forgets up to 999 counted writes, and no more. */
  lemma {:induction false} BoundAcrossRestarts<V>(scorer: string -> V, uses: seq<Use>)
    ensures var h := History(scorer, uses);
            && Exact(scorer, h.0) && h.1 < EVICT_EVERY
            && |h.0| <= RETAINED + 999 * Restarts(uses) + h.1
  {
    if uses != [] {
      var front := uses[..|uses| - 1];
      BoundAcrossRestarts(scorer, front);
      var before := History(scorer, front);
      match uses[|uses| - 1]
      case Restart =>
      case Write(texts, now) => FilledKeeps(scorer, before.0, before.1, texts, now, RETAINED + 999 * Restarts(front));
    }
  }

  function Text(n: nat): string { seq(n, _ => 'a') }

  function Texts(from: nat, count: nat): set<string> { set i: nat | from <= i < from + count :: Text(i) }

  lemma {:induction false} TextsSize(from: nat, count: nat)
    ensures |Texts(from, count)| == count
  {
    if count == 0 {
      assert Texts(from, 0) == {};
    } else {
      TextsSize(from, count - 1);
      var last := Text(from + count - 1);
      assert |last| == from + count - 1;
      forall t | t in Texts(from, count - 1) ensures |t| < from + count - 1 {
      }
      assert Texts(from, count) == Texts(from, count - 1) + {last};
    }
  }

  /** A full table, 999 rows more, and 999 further rows after each of `n` restarts. */
  function Longest(n: nat): seq<Use> {
    if n == 0 then [Write(Texts(0, RETAINED), 0), Write(Texts(RETAINED, 999), 0)]
    else Longest(n - 1) + [Restart, Write(Texts(RETAINED + 999 * n, 999), 0)]
  }

  /** A process that restarts after every 999 new texts never evicts, so the bound is reached. */
  lemma {:induction false} BoundIsReached<V>(scorer: string -> V, n: nat)
    ensures Restarts(Longest(n)) == n
    ensures History(scorer, Longest(n)).0.Keys == Texts(0, RETAINED + 999 + 999 * n)
    ensures |History(scorer, Longest(n)).0| == RETAINED + 999 + 999 * n
  {
    hide History, Texts, Restarts;
    if n == 0 {
      FullThenMore(scorer);
    } else {
      BoundIsReached(scorer, n - 1);
      TextsSize(RETAINED + 999 * n, 999);
      RestartThenWrite(scorer, Longest(n - 1), Texts(RETAINED + 999 * n, 999));
      JoinTexts(RETAINED + 999 * n, 999);
    }
    TextsSize(0, RETAINED + 999 + 999 * n);
  }

  /** Nothing is evicted from a table that holds no more than is retained. */
  lemma NothingEvicted<V>(table: Table<V>, retained: nat)
    requires |table| <= retained
    ensures Evicted(table, retained) == table
  {
    forall k | k in table ensures |Ahead(table, k)| < retained {
      PrecedesIsStrict(table, k, k, k);
      SubsetSize(Ahead(table, k) + {k}, table.Keys);
    }
  }

  lemma FullThenMore<V>(scorer: string -> V)
    ensures Restarts(Longest(0)) == 0
    ensures History(scorer, Longest(0)).0.Keys == Texts(0, RETAINED + 999)
  {
    hide Texts, Evicted;
    var full, more := Write(Texts(0, RETAINED), 0), Write(Texts(RETAINED, 999), 0);
    var none: seq<Use> := [];
    assert [full, more][..1] == [full] && [full][..0] == none;
    assert Restarts([full]) == 0;
    TextsSize(0, RETAINED);
    TextsSize(RETAINED, 999);
    var stored := map[] + Scored(scorer, Texts(0, RETAINED), 0);
    assert stored.Keys == Texts(0, RETAINED);
    NothingEvicted(stored, RETAINED);
    assert History(scorer, [full]) == (stored, 0);
    JoinTexts(RETAINED, 999);
  }

  /**
   The bound with restarts is the least one: it holds of every history with at most so many restarts, and
   nothing smaller does. In particular the bound of one process holds exactly without a restart.
   */
  lemma LeastBound<V>(scorer: string -> V, restarts: nat, limit: nat)
    ensures (forall uses | Restarts(uses) <= restarts :: |History(scorer, uses).0| <= limit) <==> 100999 + 999 * restarts <= limit
  {
    hide History, Restarts, Longest;
    forall uses | Restarts(uses) <= restarts ensures |History(scorer, uses).0| <= 100999 + 999 * restarts {
      BoundAcrossRestarts(scorer, uses);
    }
    BoundIsReached(scorer, restarts);
  }

  /** The bound of 100999 rows holds for every history exactly when there is no restart. */
  lemma ProcessBoundIff<V>(scorer: string -> V, restarts: nat)
    ensures (forall uses | Restarts(uses) <= restarts :: |History(scorer, uses).0| <= 100999) <==> restarts == 0
  {
    LeastBound(scorer, restarts, 100999);
  }

  lemma RestartThenWrite<V>(scorer: string -> V, front: seq<Use>, texts: set<string>)
    requires |texts| < EVICT_EVERY
    ensures History(scorer, front + [Restart, Write(texts, 0)]).0.Keys == History(scorer, front).0.Keys + texts
    ensures Restarts(front + [Restart, Write(texts, 0)]) == Restarts(front) + 1
  {
    var uses := front + [Restart, Write(texts, 0)];
    assert uses[..|uses| - 1] == front + [Restart] && (front + [Restart])[..|front|] == front;
    var before := History(scorer, front).0;
    assert History(scorer, front + [Restart]) == (before, 0);
    assert Restarts(front + [Restart]) == Restarts(front) + 1;
  }

  lemma JoinTexts(from: nat, count: nat)
    ensures Texts(0, from) + Texts(from, count) == Texts(0, from + count)
  {
    forall t | t in Texts(0, from + count) ensures t in Texts(0, from) + Texts(from, count) {
      var i: nat :| i < from + count && t == Text(i);
      if i < from {
        assert Text(i) in Texts(0, from);
      } else {
        assert Text(i) in Texts(from, count);
      }
    }
    forall t | t in Texts(0, from) + Texts(from, count) ensures t in Texts(0, from + count) {
      if t in Texts(0, from) {
        var i: nat :| i < from && t == Text(i);
        assert 0 <= i < 0 + (from + count);
      } else {
        var i: nat :| from <= i < from + count && t == Text(i);
        assert 0 <= i < 0 + (from + count);
      }
    }
  }
}
