/** The headline aggregates over the serving tables (processor/duckdb_api.py). */
module ServingOverview {
  import opened Outcomes
  import opened ServingProjection
  import Ordering

  datatype Entry = Entry(source: string, accepted: nat, total: nat)
  datatype Overview = Overview(
    durableDecisions: nat, trainingDocuments: nat, rejectedByReason: map<string, nat>, perSource: seq<Entry>)

  const LICENSE_POLICY_REVISION := "license-policy-2026-08-25"

  // ---- Visible rows --------------------------------------------------------------------------

  const REMOVED_SOURCES := {
    "github-events", "github-releases", "github-release-tarballs", "hf-daily-papers", "oai-arxiv-cs",
    "rss-openai-news", "rss-deepmind-blog", "rss-hf-blog", "rss-bair-blog", "rss-eleuther-blog" }

  predicate VisibleSource(feed: string) {
    && !("local-" <= feed) && feed != "cluster-smoke"
    && !("rss-arxiv-" <= feed) && !("seed:" <= feed)
    && feed !in REMOVED_SOURCES
  }

  predicate OnDashboard(d: Decision) {
    && VisibleSource(d.feed)
    && "metadata_only" !in d.rejectReasons && "c4_nopunc_filter" !in d.rejectReasons && "gopher_filter" !in d.rejectReasons
  }

  predicate TrainableRow(d: Decision) {
    && d.riskTier == 1
    && d.route in {"pretrain", "broad_pretraining", "posttrain_candidate", "reasoning_candidate"}
    && d.rejectReasons == [] && d.piiFlags == []
  }

  // ---- Latest decision of each document ------------------------------------------------------

  /** `ORDER BY valid_from DESC, scoring_version DESC, policy_revision DESC, trace_id ASC` */
  predicate Outranks(a: Decision, b: Decision) {
    if a.validFrom != b.validFrom then a.validFrom > b.validFrom
    else if a.key.scoringVersion != b.key.scoringVersion then Ordering.LexLess(b.key.scoringVersion, a.key.scoringVersion)
    else if a.key.policyRevision != b.key.policyRevision then Ordering.LexLess(b.key.policyRevision, a.key.policyRevision)
    else Ordering.LexLess(a.trace, b.trace)
  }

  /** Rank one of its document; rows tied on all four columns keep their table order. */
  predicate IsLatest(table: seq<Decision>, n: nat)
    requires n < |table|
  {
    forall i | 0 <= i < |table| && i != n && table[i].key.docId == table[n].key.docId ::
      !Outranks(table[i], table[n]) && (i < n ==> Outranks(table[n], table[i]))
  }

  function LatestUpTo(table: seq<Decision>, n: nat): seq<Decision>
    requires n <= |table|
  {
    if n == 0 then []
    else LatestUpTo(table, n - 1) + if IsLatest(table, n - 1) then [table[n - 1]] else []
  }

  function OverallDecisions(table: seq<Decision>): seq<Decision> {
    Ordering.Filter(OnDashboard, LatestUpTo(table, |table|))
  }

  lemma OutranksIsStrictWeak(a: Decision, b: Decision, c: Decision)
    ensures !Outranks(a, a)
    ensures Outranks(a, b) ==> !Outranks(b, a)
    ensures Outranks(a, b) && !Outranks(c, b) ==> Outranks(a, c)
  {
    RankedStrings(a.key.scoringVersion, b.key.scoringVersion, c.key.scoringVersion);
    RankedStrings(a.key.policyRevision, b.key.policyRevision, c.key.policyRevision);
    RankedStrings(a.trace, b.trace, c.trace);
  }

  lemma RankedStrings(a: string, b: string, c: string)
    ensures !Ordering.LexLess(a, a)
    ensures Ordering.LexLess(a, b) || a == b || Ordering.LexLess(b, a)
    ensures Ordering.LexLess(a, b) ==> !Ordering.LexLess(b, a)
    ensures Ordering.LexLess(b, c) || b == c || Ordering.LexLess(c, b)
    ensures Ordering.LexLess(b, c) ==> !Ordering.LexLess(c, b)
    ensures Ordering.LexLess(a, b) && Ordering.LexLess(b, c) ==> Ordering.LexLess(a, c)
    ensures Ordering.LexLess(c, b) && Ordering.LexLess(b, a) ==> Ordering.LexLess(c, a)
  {
    Ordering.LexTrichotomy(a, b);
    Ordering.LexTrichotomy(b, c);
    if Ordering.LexLess(a, b) && Ordering.LexLess(b, c) {
      Ordering.LexTransitive(a, b, c);
    }
    if Ordering.LexLess(c, b) && Ordering.LexLess(b, a) {
      Ordering.LexTransitive(c, b, a);
    }
  }

  /** Among the first `n` rows of its document, row `k` ranks first. */
  ghost predicate LatestAmong(table: seq<Decision>, n: nat, k: nat)
    requires k < n <= |table|
  {
    forall i | 0 <= i < n && i != k && table[i].key.docId == table[k].key.docId ::
      !Outranks(table[i], table[k]) && (i < k ==> Outranks(table[k], table[i]))
  }

  lemma {:induction false} SomeRowIsLatest(table: seq<Decision>, n: nat, docId: string) returns (k: nat)
    requires n <= |table| && exists i :: 0 <= i < n && table[i].key.docId == docId
    ensures k < n && table[k].key.docId == docId && LatestAmong(table, n, k)
  {
    var last := n - 1;
    if exists i :: 0 <= i < last && table[i].key.docId == docId {
      k := SomeRowIsLatest(table, last, docId);
      if table[last].key.docId == docId && Outranks(table[last], table[k]) {
        forall i | 0 <= i < last && table[i].key.docId == docId
          ensures Outranks(table[last], table[i]) && !Outranks(table[i], table[last])
        {
          OutranksIsStrictWeak(table[last], table[k], table[i]);
          OutranksIsStrictWeak(table[last], table[i], table[i]);
        }
        k := last;
      }
    } else {
      k := last;
    }
  }

  lemma {:induction false} LatestRowListed(table: seq<Decision>, n: nat, k: nat)
    requires k < n <= |table| && IsLatest(table, k)
    ensures table[k] in LatestUpTo(table, n)
  {
    if k != n - 1 {
      LatestRowListed(table, n - 1, k);
    }
  }

  lemma {:induction false} ListedRowsAreLatest(table: seq<Decision>, n: nat, i: nat) returns (k: nat)
    requires n <= |table| && i < |LatestUpTo(table, n)|
    ensures k < n && IsLatest(table, k) && LatestUpTo(table, n)[i] == table[k]
    ensures i < |LatestUpTo(table, n)| - 1 ==> k < n - 1
  {
    if i < |LatestUpTo(table, n - 1)| {
      k := ListedRowsAreLatest(table, n - 1, i);
    } else {
      k := n - 1;
    }
  }

  lemma {:induction false} OneLatestRow(table: seq<Decision>, n: nat)
    requires n <= |table|
    ensures forall i, j | 0 <= i < j < |LatestUpTo(table, n)| ::
              LatestUpTo(table, n)[i].key.docId != LatestUpTo(table, n)[j].key.docId
  {
    if n != 0 {
      OneLatestRow(table, n - 1);
      var before := LatestUpTo(table, n - 1);
      if IsLatest(table, n - 1) {
        forall i | 0 <= i < |before| ensures before[i].key.docId != table[n - 1].key.docId {
          var k := ListedRowsAreLatest(table, n - 1, i);
          assert IsLatest(table, k) && IsLatest(table, n - 1) && k < n - 1;
        }
      }
    }
  }

  /** The ranking keeps exactly one row of every document, one that no other row of it outranks. */
  lemma LatestIsOnePerDocument(table: seq<Decision>, docId: string)
    requires exists d | d in table :: d.key.docId == docId
    ensures var latest := LatestUpTo(table, |table|);
            && (exists d :: d in latest && d.key.docId == docId)
            && (forall i, j | 0 <= i < j < |latest| :: latest[i].key.docId != latest[j].key.docId)
            && (forall d, e | d in latest && d.key.docId == docId && e in table && e.key.docId == docId :: !Outranks(e, d))
  {
    var latest := LatestUpTo(table, |table|);
    var d :| d in table && d.key.docId == docId;
    var i :| 0 <= i < |table| && table[i] == d;
    var k := SomeRowIsLatest(table, |table|, docId);
    LatestRowListed(table, |table|, k);
    OneLatestRow(table, |table|);
    forall d, e | d in latest && d.key.docId == docId && e in table && e.key.docId == docId ensures !Outranks(e, d) {
      var m :| 0 <= m < |latest| && latest[m] == d;
      var n := ListedRowsAreLatest(table, |table|, m);
      OutranksIsStrictWeak(d, d, d);
    }
  }

  // ---- The Gold join and the early licence rejections ----------------------------------------

  predicate SameDecision(g: Decision, d: Decision) { g.key == d.key && g.trace == d.trace }

  function MatchesOf(g: Decision, decisions: seq<Decision>): seq<string> {
    if decisions == [] then []
    else MatchesOf(g, decisions[..|decisions| - 1])
         + if SameDecision(g, decisions[|decisions| - 1]) then [g.feed] else []
  }

  /** The feeds of `gold INNER JOIN overall_decisions`, one per matching pair. */
  function JoinFeeds(gold: seq<Decision>, decisions: seq<Decision>): seq<string> {
    if gold == [] then []
    else JoinFeeds(gold[..|gold| - 1], decisions) + MatchesOf(gold[|gold| - 1], decisions)
  }

  predicate EarlyRejection(table: seq<Decision>, a: Admission) {
    && a.status == "quarantined"
    && a.policyRevision == LICENSE_POLICY_REVISION
    && a.sourceFormat != Some("metadata")
    && VisibleSource(a.feed)
    && !exists d | d in table :: d.key.docId == a.docId
  }

  function EarlyLicense(table: seq<Decision>, admissions: seq<Admission>): seq<Admission> {
    Ordering.Filter((a: Admission) => EarlyRejection(table, a), admissions)
  }

  function LicenseReason(a: Admission): string {
    if a.licenseId == "unknown" then "license_missing" else "license_not_permitted"
  }

  // ---- Counting ------------------------------------------------------------------------------

  function CountOf(values: seq<string>, v: string): nat {
    if values == [] then 0 else CountOf(values[..|values| - 1], v) + if values[|values| - 1] == v then 1 else 0
  }

  /** `GROUP BY`: a value that does not occur has no group. */
  function GroupCounts(values: seq<string>): map<string, nat> { map v | v in values :: CountOf(values, v) }

  function Get(m: map<string, nat>, k: string): nat { if k in m then m[k] else 0 }

  function Added(a: map<string, nat>, b: map<string, nat>): map<string, nat> {
    map k | k in a.Keys + b.Keys :: Get(a, k) + Get(b, k)
  }

  function DecisionFeeds(rows: seq<Decision>): seq<string> {
    if rows == [] then [] else DecisionFeeds(rows[..|rows| - 1]) + [rows[|rows| - 1].feed]
  }

  function DecisionReasons(rows: seq<Decision>): seq<string> {
    if rows == [] then [] else DecisionReasons(rows[..|rows| - 1]) + rows[|rows| - 1].rejectReasons
  }

  function AdmissionFeeds(rows: seq<Admission>): seq<string> {
    if rows == [] then [] else AdmissionFeeds(rows[..|rows| - 1]) + [rows[|rows| - 1].feed]
  }

  function AdmissionReasons(rows: seq<Admission>): seq<string> {
    if rows == [] then [] else AdmissionReasons(rows[..|rows| - 1]) + [LicenseReason(rows[|rows| - 1])]
  }

  function Distinctly(values: seq<string>): seq<string> {
    if values == [] then []
    else
      var before, last := Distinctly(values[..|values| - 1]), values[|values| - 1];
      if last in before then before else before + [last]
  }

  /** `sorted(totals.items())` over the sources that occur. */
  function SourcesOf(feeds: seq<string>): seq<string> { Ordering.Sort(AtMost, Distinctly(feeds)) }

  function Entries(sources: seq<string>, accepted: map<string, nat>, totals: map<string, nat>): seq<Entry> {
    seq(|sources|, (i: nat) requires i < |sources| => Entry(sources[i], Get(accepted, sources[i]), Get(totals, sources[i])))
  }

  function GoldFeeds(table: seq<Decision>): seq<string> {
    JoinFeeds(Clean(table), OverallDecisions(table))
  }

  function OverviewOf(table: seq<Decision>, admissions: seq<Admission>): Overview {
    var decisions, early := OverallDecisions(table), EarlyLicense(table, admissions);
    var decided, refused, gold := DecisionFeeds(decisions), AdmissionFeeds(early), GoldFeeds(table);
    Overview(
      |decisions| + |early|,
      |gold|,
      Added(GroupCounts(DecisionReasons(decisions)), GroupCounts(AdmissionReasons(early))),
      Entries(SourcesOf(decided + refused), GroupCounts(gold), Added(GroupCounts(decided), GroupCounts(refused))))
  }

  // ---- Counting lemmas -----------------------------------------------------------------------

  function SumOver(sources: seq<string>, values: seq<string>): nat {
    if sources == [] then 0 else SumOver(sources[..|sources| - 1], values) + CountOf(values, sources[|sources| - 1])
  }

  ghost predicate DistinctStrings(s: seq<string>) { forall i, j | 0 <= i < j < |s| :: s[i] != s[j] }

  lemma {:induction false} SumOverSnoc(sources: seq<string>, values: seq<string>, v: string)
    requires DistinctStrings(sources)
    ensures SumOver(sources, values + [v]) == SumOver(sources, values) + if v in sources then 1 else 0
  {
    assert (values + [v])[..|values|] == values;
    if sources != [] {
      SumOverSnoc(sources[..|sources| - 1], values, v);
      assert sources == sources[..|sources| - 1] + [sources[|sources| - 1]];
    }
  }

  /** Counting per source loses nothing when every value's source is listed once. */
  lemma {:induction false} SumOverIsLength(sources: seq<string>, values: seq<string>)
    requires DistinctStrings(sources) && forall v | v in values :: v in sources
    ensures SumOver(sources, values) == |values|
  {
    if values == [] {
      SumOverNothing(sources);
    } else {
      var front, last := values[..|values| - 1], values[|values| - 1];
      assert values == front + [last];
      SumOverIsLength(sources, front);
      SumOverSnoc(sources, front, last);
    }
  }

  lemma {:induction false} SumOverNothing(sources: seq<string>)
    ensures SumOver(sources, []) == 0
  {
    if sources != [] {
      SumOverNothing(sources[..|sources| - 1]);
    }
  }

  lemma {:induction false} CountAbsent(values: seq<string>, v: string)
    ensures CountOf(values, v) > 0 <==> v in values
  {
    if values != [] {
      CountAbsent(values[..|values| - 1], v);
      assert values == values[..|values| - 1] + [values[|values| - 1]];
    }
  }

  lemma CountIsGroup(values: seq<string>, v: string)
    ensures Get(GroupCounts(values), v) == CountOf(values, v)
  {
    CountAbsent(values, v);
  }

  lemma {:induction false} CountAppend(a: seq<string>, b: seq<string>, v: string)
    ensures CountOf(a + b, v) == CountOf(a, v) + CountOf(b, v)
  {
    if b == [] {
      assert a + b == a;
    } else {
      assert (a + b)[..|a + b| - 1] == a + b[..|b| - 1];
      CountAppend(a, b[..|b| - 1], v);
    }
  }

  lemma {:induction false} DistinctlyElements(values: seq<string>, v: string)
    ensures v in Distinctly(values) <==> v in values
    ensures DistinctStrings(Distinctly(values))
  {
    if values != [] {
      DistinctlyElements(values[..|values| - 1], v);
      DistinctlyElements(values[..|values| - 1], values[|values| - 1]);
      assert values == values[..|values| - 1] + [values[|values| - 1]];
    }
  }

  lemma AtMostIsTotal(s: seq<string>)
    ensures Ordering.TotalPreorderOn(AtMost, s)
  {
    forall a, b | a in s && b in s ensures AtMost(a, b) || AtMost(b, a) {
      Ordering.LexTrichotomy(a, b);
    }
    forall a, b, c | a in s && b in s && c in s && AtMost(a, b) && AtMost(b, c) ensures AtMost(a, c) {
      if a != b && b != c {
        Ordering.LexTransitive(a, b, c);
      }
    }
  }

  lemma DistinctByMultiset(a: seq<string>, b: seq<string>)
    requires multiset(a) == multiset(b) && DistinctStrings(a)
    ensures DistinctStrings(b)
  {
    forall i, j | 0 <= i < j < |b| ensures b[i] != b[j] {
      if b[i] == b[j] {
        assert b == b[..i] + [b[i]] + b[i + 1..j] + [b[j]] + b[j + 1..];
        assert multiset(b)[b[i]] >= 2;
        DistinctOccursOnce(a, b[i]);
      }
    }
  }

  lemma {:induction false} DistinctOccursOnce(a: seq<string>, x: string)
    requires DistinctStrings(a)
    ensures multiset(a)[x] <= 1
  {
    if a != [] {
      var front, last := a[..|a| - 1], a[|a| - 1];
      assert a == front + [last];
      DistinctOccursOnce(front, x);
      if last == x {
        assert x !in front;
      }
    }
  }

  lemma SourcesListed(feeds: seq<string>)
    ensures DistinctStrings(SourcesOf(feeds))
    ensures forall f :: f in SourcesOf(feeds) <==> f in feeds
    ensures Ordering.SortedBy(AtMost, SourcesOf(feeds))
  {
    var d := Distinctly(feeds);
    DistinctlyElements(feeds, "");
    Ordering.SortMultiset(AtMost, d);
    DistinctByMultiset(d, SourcesOf(feeds));
    AtMostIsTotal(d);
    Ordering.SortSorted(AtMost, d);
    forall f ensures f in SourcesOf(feeds) <==> f in feeds {
      Ordering.SameElements(d, SourcesOf(feeds), f);
      DistinctlyElements(feeds, f);
    }
  }

  // ---- The join keeps exactly the clean latest rows ------------------------------------------

  /** `rows` lists distinct rows of a table with distinct keys. */
  ghost predicate RowsOf(rows: seq<Decision>, table: seq<Decision>) {
    DistinctKeys(rows) && forall r | r in rows :: r in table
  }

  lemma {:induction false} LatestRows(table: seq<Decision>, n: nat)
    requires DistinctKeys(table) && n <= |table|
    ensures RowsOf(LatestUpTo(table, n), table[..n])
  {
    if n != 0 {
      LatestRows(table, n - 1);
      assert table[..n] == table[..n - 1] + [table[n - 1]];
      var before := LatestUpTo(table, n - 1);
      forall i | 0 <= i < |before| ensures before[i].key != table[n - 1].key {
        assert before[i] in before;
        var j :| 0 <= j < n - 1 && table[..n - 1][j] == before[i];
        assert table[j] == before[i];
      }
    }
  }

  lemma OverallRows(table: seq<Decision>)
    requires DistinctKeys(table)
    ensures RowsOf(OverallDecisions(table), table)
  {
    LatestRows(table, |table|);
    assert table[..|table|] == table;
    FilterDistinct(OnDashboard, LatestUpTo(table, |table|));
    forall r | r in OverallDecisions(table) ensures r in table {
      Ordering.FilterElements(OnDashboard, LatestUpTo(table, |table|), r);
    }
  }

  lemma SameKeySameRow(table: seq<Decision>, a: Decision, b: Decision)
    requires DistinctKeys(table) && a in table && b in table && a.key == b.key
    ensures a == b
  {
  }

  /** A Gold row meets its own decision and no other. */
  lemma {:induction false} MatchesItself(table: seq<Decision>, g: Decision, decisions: seq<Decision>)
    requires DistinctKeys(table) && g in table && RowsOf(decisions, table)
    ensures MatchesOf(g, decisions) == if g in decisions then [g.feed] else []
  {
    if decisions != [] {
      var front, last := decisions[..|decisions| - 1], decisions[|decisions| - 1];
      assert decisions == front + [last];
      MatchesItself(table, g, front);
      if SameDecision(g, last) {
        SameKeySameRow(table, g, last);
        assert g !in front;
      }
    }
  }

  lemma {:induction false} FilterSnoc<T>(p: T -> bool, s: seq<T>, x: T)
    ensures Ordering.Filter(p, s + [x]) == Ordering.Filter(p, s) + if p(x) then [x] else []
  {
    if s == [] {
      assert s + [x] == [x] && [x][1..] == [];
    } else {
      assert (s + [x])[1..] == s[1..] + [x];
      FilterSnoc(p, s[1..], x);
    }
  }

  /** The rows of `gold` that occur among the decisions, counted for one feed. */
  function CountIn(gold: seq<Decision>, decisions: seq<Decision>, feed: string): nat {
    if gold == [] then 0
    else CountIn(gold[..|gold| - 1], decisions, feed)
         + if gold[|gold| - 1] in decisions && gold[|gold| - 1].feed == feed then 1 else 0
  }

  lemma {:induction false} JoinIsCountIn(table: seq<Decision>, gold: seq<Decision>, decisions: seq<Decision>, feed: string)
    requires DistinctKeys(table) && RowsOf(gold, table) && RowsOf(decisions, table)
    ensures CountOf(JoinFeeds(gold, decisions), feed) == CountIn(gold, decisions, feed)
  {
    if gold != [] {
      var front, last := gold[..|gold| - 1], gold[|gold| - 1];
      assert gold == front + [last];
      JoinIsCountIn(table, front, decisions, feed);
      MatchesItself(table, last, decisions);
      CountAppend(JoinFeeds(front, decisions), MatchesOf(last, decisions), feed);
      assert CountOf([last.feed], feed) == (if last.feed == feed then 1 else 0) by {
        assert [last.feed][..0] == [];
      }
    }
  }

  /** The clean rows of some decisions. */
  function Clean(decisions: seq<Decision>): seq<Decision> { Ordering.Filter(TrainableRow, decisions) }

  lemma {:induction false} CountInClean(table: seq<Decision>, decisions: seq<Decision>, feed: string)
    requires DistinctKeys(table) && RowsOf(decisions, table)
    ensures CountIn(Clean(table), decisions, feed) == CountOf(DecisionFeeds(Clean(decisions)), feed)
    ensures CountOf(DecisionFeeds(Clean(decisions)), feed) <= CountOf(DecisionFeeds(decisions), feed)
  {
    hide TrainableRow, DistinctKeys, RowsOf;
    if decisions == [] {
      CountInNothing(Clean(table), feed);
    } else {
      var front, last := decisions[..|decisions| - 1], decisions[|decisions| - 1];
      assert decisions == front + [last];
      RowsOfFront(decisions, table);
      CountInClean(table, front, feed);
      FilterDistinct(TrainableRow, table);
      CountInOneMore(Clean(table), front, last, feed);
      Ordering.FilterElements(TrainableRow, table, last);
      FilterSnoc(TrainableRow, front, last);
      assert Clean(front) + [] == Clean(front);
    }
  }

  lemma RowsOfFront(rows: seq<Decision>, table: seq<Decision>)
    requires rows != [] && RowsOf(rows, table)
    ensures var front, last := rows[..|rows| - 1], rows[|rows| - 1]; RowsOf(front, table) && last in table && last !in front
  {
    var front, last := rows[..|rows| - 1], rows[|rows| - 1];
    forall i | 0 <= i < |front| ensures front[i].key != last.key {
      assert front[i] == rows[i];
    }
  }

  lemma {:induction false} CountInNothing(gold: seq<Decision>, feed: string)
    ensures CountIn(gold, [], feed) == 0
  {
    if gold != [] {
      CountInNothing(gold[..|gold| - 1], feed);
    }
  }

  lemma {:induction false} CountInOneMore(gold: seq<Decision>, front: seq<Decision>, last: Decision, feed: string)
    requires DistinctKeys(gold) && last !in front
    ensures CountIn(gold, front + [last], feed)
         == CountIn(gold, front, feed) + if last in gold && last.feed == feed then 1 else 0
  {
    if gold != [] {
      var before, g := gold[..|gold| - 1], gold[|gold| - 1];
      assert gold == before + [g];
      CountInOneMore(before, front, last, feed);
      if g == last {
        assert last !in before;
      }
    }
  }

  /** Per source, the Gold join counts exactly the clean rows among the latest visible decisions. */
  lemma JoinCountsClean(table: seq<Decision>, feed: string)
    requires DistinctKeys(table)
    ensures var decisions := OverallDecisions(table);
            && CountOf(GoldFeeds(table), feed) == CountOf(DecisionFeeds(Clean(decisions)), feed)
            && CountOf(GoldFeeds(table), feed) <= CountOf(DecisionFeeds(decisions), feed)
            && (feed in GoldFeeds(table) ==> feed in DecisionFeeds(decisions))
  {
    var decisions := OverallDecisions(table);
    OverallRows(table);
    FilterDistinct(TrainableRow, table);
    forall r | r in Clean(table) ensures r in table {
      Ordering.FilterElements(TrainableRow, table, r);
    }
    JoinIsCountIn(table, Clean(table), decisions, feed);
    CountInClean(table, decisions, feed);
    CountAbsent(GoldFeeds(table), feed);
    CountAbsent(DecisionFeeds(decisions), feed);
  }

  // ---- The overview adds up ------------------------------------------------------------------

  function AcceptedSum(entries: seq<Entry>): nat {
    if entries == [] then 0 else AcceptedSum(entries[..|entries| - 1]) + entries[|entries| - 1].accepted
  }

  function TotalSum(entries: seq<Entry>): nat {
    if entries == [] then 0 else TotalSum(entries[..|entries| - 1]) + entries[|entries| - 1].total
  }

  lemma {:induction false} EntrySums(
    sources: seq<string>, gold: seq<string>, decided: seq<string>, refused: seq<string>)
    ensures var entries := Entries(sources, GroupCounts(gold), Added(GroupCounts(decided), GroupCounts(refused)));
            && AcceptedSum(entries) == SumOver(sources, gold)
            && TotalSum(entries) == SumOver(sources, decided) + SumOver(sources, refused)
  {
    if sources != [] {
      var front, last := sources[..|sources| - 1], sources[|sources| - 1];
      var accepted, totals := GroupCounts(gold), Added(GroupCounts(decided), GroupCounts(refused));
      EntrySums(front, gold, decided, refused);
      assert Entries(sources, accepted, totals)[..|front|] == Entries(front, accepted, totals);
      CountIsGroup(gold, last);
      CountIsGroup(decided, last);
      CountIsGroup(refused, last);
    }
  }

  lemma {:induction false} FeedsLength(rows: seq<Decision>, early: seq<Admission>)
    ensures |DecisionFeeds(rows)| == |rows| && |AdmissionFeeds(early)| == |early|
  {
    if rows != [] {
      FeedsLength(rows[..|rows| - 1], early);
    } else if early != [] {
      FeedsLength(rows, early[..|early| - 1]);
    }
  }

  /**
   In an overview of a table with one row per key, the totals of all sources add up to the durable
   decisions and the accepted rows of all sources to the training export; a source accepts exactly the clean
   rows among its latest visible decisions, never more than its total.
   */
  lemma OverviewAddsUp(table: seq<Decision>, admissions: seq<Admission>)
    requires DistinctKeys(table)
    ensures var o := OverviewOf(table, admissions);
            && o.durableDecisions == TotalSum(o.perSource)
            && o.trainingDocuments == AcceptedSum(o.perSource)
            && forall e | e in o.perSource ::
                 && e.accepted == CountOf(DecisionFeeds(Clean(OverallDecisions(table))), e.source)
                 && e.accepted <= e.total
  {
    var decisions, early := OverallDecisions(table), EarlyLicense(table, admissions);
    var decided, refused, gold := DecisionFeeds(decisions), AdmissionFeeds(early), GoldFeeds(table);
    var sources := SourcesOf(decided + refused);
    SourcesListed(decided + refused);
    forall v | v in gold ensures v in sources {
      JoinCountsClean(table, v);
    }
    EntrySums(sources, gold, decided, refused);
    SumOverIsLength(sources, gold);
    SumOverIsLength(sources, decided);
    SumOverIsLength(sources, refused);
    FeedsLength(decisions, early);
    forall i | 0 <= i < |sources|
      ensures Get(GroupCounts(gold), sources[i]) == CountOf(DecisionFeeds(Clean(decisions)), sources[i])
      ensures Get(GroupCounts(gold), sources[i]) <= Get(Added(GroupCounts(decided), GroupCounts(refused)), sources[i])
    {
      JoinCountsClean(table, sources[i]);
      CountIsGroup(gold, sources[i]);
      CountIsGroup(decided, sources[i]);
      CountIsGroup(refused, sources[i]);
    }
  }

  // ---- What the overview counts ----------------------------------------------------------------

  /** The kept row of a document is its newest; versions, then policies, then the smaller trace break ties. */
  lemma LatestIsNewest(table: seq<Decision>, d: Decision, e: Decision)
    requires d in LatestUpTo(table, |table|) && e in table && e.key.docId == d.key.docId
    ensures e.validFrom <= d.validFrom
    ensures e.validFrom == d.validFrom ==> !Ordering.LexLess(d.key.scoringVersion, e.key.scoringVersion)
    ensures e.validFrom == d.validFrom && e.key.scoringVersion == d.key.scoringVersion ==>
              !Ordering.LexLess(d.key.policyRevision, e.key.policyRevision)
    ensures e.validFrom == d.validFrom && e.key.scoringVersion == d.key.scoringVersion && e.key.policyRevision == d.key.policyRevision ==>
              AtMost(d.trace, e.trace)
  {
    hide LatestUpTo;
    assert exists x | x in table :: x.key.docId == e.key.docId;
    LatestIsOnePerDocument(table, e.key.docId);
    Ordering.LexTrichotomy(d.trace, e.trace);
    Ordering.LexTrichotomy(d.key.scoringVersion, e.key.scoringVersion);
    Ordering.LexTrichotomy(d.key.policyRevision, e.key.policyRevision);
  }

  ghost predicate OnePerDocument(rows: seq<Decision>) {
    forall i, j | 0 <= i < j < |rows| :: rows[i].key.docId != rows[j].key.docId
  }

  /** The visible decisions are the latest rows of their documents that the dashboard shows, each once. */
  lemma VisibleDecisions(table: seq<Decision>)
    ensures forall d :: d in OverallDecisions(table) <==>
              OnDashboard(d) && exists n :: 0 <= n < |table| && table[n] == d && IsLatest(table, n)
    ensures OnePerDocument(OverallDecisions(table))
  {
    hide IsLatest, OnDashboard;
    var latest := LatestUpTo(table, |table|);
    forall d ensures d in latest <==> exists n :: 0 <= n < |table| && table[n] == d && IsLatest(table, n) {
      if d in latest {
        var i :| 0 <= i < |latest| && latest[i] == d;
        var k := ListedRowsAreLatest(table, |table|, i);
      }
      if n: nat :| n < |table| && table[n] == d && IsLatest(table, n) {
        LatestRowListed(table, |table|, n);
      }
    }
    forall d ensures d in OverallDecisions(table) <==> d in latest && OnDashboard(d) {
      Ordering.FilterElements(OnDashboard, latest, d);
    }
    OneLatestRow(table, |table|);
    FilterKeepsOne(OnDashboard, latest);
  }

  lemma {:induction false} FilterKeepsOne(p: Decision -> bool, rows: seq<Decision>)
    requires OnePerDocument(rows)
    ensures OnePerDocument(Ordering.Filter(p, rows))
  {
    if rows != [] {
      FilterKeepsOne(p, rows[1..]);
      var rest, kept := Ordering.Filter(p, rows[1..]), Ordering.Filter(p, rows);
      forall j | 0 <= j < |rest| ensures rest[j].key.docId != rows[0].key.docId {
        Ordering.FilterElements(p, rows[1..], rest[j]);
      }
      assert kept == if p(rows[0]) then [rows[0]] + rest else rest;
    }
  }

  /** How often the rows give a reason. */
  ghost function Times(rows: seq<Decision>, reason: string): nat {
    if |rows| == 0 then 0 else multiset(rows[0].rejectReasons)[reason] + Times(rows[1..], reason)
  }

  lemma {:induction false} TimesSnoc(rows: seq<Decision>, d: Decision, reason: string)
    ensures Times(rows + [d], reason) == Times(rows, reason) + multiset(d.rejectReasons)[reason]
  {
    if rows == [] {
      assert rows + [d] == [d] && [d][1..] == [];
    } else {
      assert (rows + [d])[1..] == rows[1..] + [d];
      TimesSnoc(rows[1..], d, reason);
    }
  }

  lemma {:induction false} CountIsMultiplicity(values: seq<string>, v: string)
    ensures CountOf(values, v) == multiset(values)[v]
  {
    if values != [] {
      var front, last := values[..|values| - 1], values[|values| - 1];
      assert values == front + [last];
      CountIsMultiplicity(front, v);
    }
  }

  lemma {:induction false} ReasonsCounted(rows: seq<Decision>, reason: string)
    ensures CountOf(DecisionReasons(rows), reason) == Times(rows, reason)
  {
    if rows != [] {
      var front, last := rows[..|rows| - 1], rows[|rows| - 1];
      assert rows == front + [last];
      ReasonsCounted(front, reason);
      TimesSnoc(front, last, reason);
      CountAppend(DecisionReasons(front), last.rejectReasons, reason);
      CountIsMultiplicity(last.rejectReasons, reason);
    }
  }

  ghost function Having<T>(rows: seq<T>, p: T -> bool): set<T> { set x | x in rows && p(x) }

  lemma HavingOneMore<T>(rows: seq<T>, p: T -> bool)
    requires rows != [] && rows[|rows| - 1] !in rows[..|rows| - 1]
    ensures |Having(rows, p)| == |Having(rows[..|rows| - 1], p)| + if p(rows[|rows| - 1]) then 1 else 0
  {
    var front, last := rows[..|rows| - 1], rows[|rows| - 1];
    assert forall x :: x in rows <==> x in front || x == last;
    assert Having(rows, p) == Having(front, p) + if p(last) then {last} else {};
  }

  lemma HavingNone<T>(p: T -> bool)
    ensures Having([], p) == {}
  {
  }

  ghost function FromFeed(feed: string): Decision -> bool { (d: Decision) => d.feed == feed }

  ghost function OfFeed(feed: string): Admission -> bool { (a: Admission) => a.feed == feed }

  ghost function ForReason(reason: string): Admission -> bool { (a: Admission) => LicenseReason(a) == reason }

  lemma LastDocumentIsNew(rows: seq<Decision>)
    requires rows != [] && OnePerDocument(rows)
    ensures OnePerDocument(rows[..|rows| - 1]) && rows[|rows| - 1] !in rows[..|rows| - 1]
  {
    var front := rows[..|rows| - 1];
    forall i | 0 <= i < |front| ensures front[i].key.docId != rows[|rows| - 1].key.docId {
      assert front[i] == rows[i];
    }
  }

  lemma LastAdmissionIsNew(rows: seq<Admission>)
    requires rows != [] && DistinctIds(rows)
    ensures DistinctIds(rows[..|rows| - 1]) && rows[|rows| - 1] !in rows[..|rows| - 1]
  {
    var front := rows[..|rows| - 1];
    forall i | 0 <= i < |front| ensures front[i].id != rows[|rows| - 1].id {
      assert front[i] == rows[i];
    }
  }

  lemma {:induction false} FeedsCounted(rows: seq<Decision>, feed: string)
    requires OnePerDocument(rows)
    ensures CountOf(DecisionFeeds(rows), feed) == |Having(rows, FromFeed(feed))|
  {
    hide OnePerDocument, Having;
    if rows == [] {
      HavingNone(FromFeed(feed));
    } else {
      LastDocumentIsNew(rows);
      HavingOneMore(rows, FromFeed(feed));
      FeedsCounted(rows[..|rows| - 1], feed);
    }
  }

  lemma {:induction false} RefusalsCounted(rows: seq<Admission>, feed: string)
    requires DistinctIds(rows)
    ensures CountOf(AdmissionFeeds(rows), feed) == |Having(rows, OfFeed(feed))|
  {
    hide DistinctIds, Having;
    if rows == [] {
      HavingNone(OfFeed(feed));
    } else {
      LastAdmissionIsNew(rows);
      HavingOneMore(rows, OfFeed(feed));
      RefusalsCounted(rows[..|rows| - 1], feed);
    }
  }

  lemma {:induction false} RefusalReasonsCounted(rows: seq<Admission>, reason: string)
    requires DistinctIds(rows)
    ensures CountOf(AdmissionReasons(rows), reason) == |Having(rows, ForReason(reason))|
  {
    hide DistinctIds, Having, LicenseReason;
    if rows == [] {
      HavingNone(ForReason(reason));
    } else {
      LastAdmissionIsNew(rows);
      HavingOneMore(rows, ForReason(reason));
      RefusalReasonsCounted(rows[..|rows| - 1], reason);
    }
  }

  lemma {:induction false} FilterKeepsIds(p: Admission -> bool, rows: seq<Admission>)
    requires DistinctIds(rows)
    ensures DistinctIds(Ordering.Filter(p, rows))
  {
    if rows != [] {
      FilterKeepsIds(p, rows[1..]);
      var rest := Ordering.Filter(p, rows[1..]);
      forall a | a in rest ensures a.id != rows[0].id {
        Ordering.FilterElements(p, rows[1..], a);
      }
    }
  }

  /** A visible source's payload that the current licence policy quarantined before any decision on its document. */
  lemma EarlyRejectionMeans(table: seq<Decision>, a: Admission)
    ensures EarlyRejection(table, a) <==>
              && a.status == "quarantined" && a.policyRevision == "license-policy-2026-08-25" && a.sourceFormat != Some("metadata")
              && VisibleSource(a.feed) && forall i | 0 <= i < |table| :: table[i].key.docId != a.docId
  {
    hide VisibleSource;
    if forall i | 0 <= i < |table| :: table[i].key.docId != a.docId {
      forall d | d in table ensures d.key.docId != a.docId {
      }
    } else {
      var i :| 0 <= i < |table| && table[i].key.docId == a.docId;
      assert table[i] in table;
    }
  }

  /** A row counts as accepted when it is of the first risk tier and on a training route, and nothing is held against it. */
  lemma TrainableRowMeans(d: Decision)
    ensures TrainableRow(d) <==>
              && d.riskTier == 1 && |d.rejectReasons| == 0 && |d.piiFlags| == 0
              && (d.route == "pretrain" || d.route == "broad_pretraining" || d.route == "posttrain_candidate" || d.route == "reasoning_candidate")
  {
  }

  /** The early licence rejections, listed once each. */
  lemma EarlyRejections(table: seq<Decision>, admissions: seq<Admission>)
    requires DistinctIds(admissions)
    ensures DistinctIds(EarlyLicense(table, admissions))
    ensures forall a :: a in EarlyLicense(table, admissions) <==> a in admissions && EarlyRejection(table, a)
  {
    hide EarlyRejection;
    var p := (a: Admission) => EarlyRejection(table, a);
    FilterKeepsIds(p, admissions);
    forall a ensures a in EarlyLicense(table, admissions) <==> a in admissions && EarlyRejection(table, a) {
      Ordering.FilterElements(p, admissions, a);
    }
  }

  /**
   Each reason is counted as often as the visible decisions give it, and a licence rejection once: as missing when the
   licence is unknown and as not permitted otherwise. A reason nobody gives is not listed.
   */
  lemma ReasonsMean(table: seq<Decision>, admissions: seq<Admission>, reason: string)
    requires DistinctIds(admissions)
    ensures var counts := OverviewOf(table, admissions).rejectedByReason;
            var early := set a | a in admissions && EarlyRejection(table, a)
                                 && reason == if a.licenseId == "unknown" then "license_missing" else "license_not_permitted";
            var given := Times(OverallDecisions(table), reason) + |early|;
            (reason in counts <==> given > 0) && (reason in counts ==> counts[reason] == given)
  {
    var decisions, rejected := OverallDecisions(table), EarlyLicense(table, admissions);
    EarlyRejections(table, admissions);
    ReasonsCounted(decisions, reason);
    RefusalReasonsCounted(rejected, reason);
    assert Having(rejected, ForReason(reason))
        == (set a | a in admissions && EarlyRejection(table, a)
                    && reason == if a.licenseId == "unknown" then "license_missing" else "license_not_permitted") by {
      hide EarlyRejection, EarlyLicense;
    }
    AddedCounts(DecisionReasons(decisions), AdmissionReasons(rejected), reason);
    hide EarlyRejection, OverallDecisions, EarlyLicense, Times, CountOf, GoldFeeds, Entries, SourcesOf, LicenseReason, GroupCounts, Added;
  }

  lemma AddedCounts(a: seq<string>, b: seq<string>, v: string)
    ensures var counts, given := Added(GroupCounts(a), GroupCounts(b)), CountOf(a, v) + CountOf(b, v);
            (v in counts <==> given > 0) && (v in counts ==> counts[v] == given)
  {
    CountAbsent(a, v);
    CountAbsent(b, v);
    hide CountOf;
  }

  /** A source is listed with what it has among the visible decisions and early rejections, and with its clean rows. */
  lemma SourcesMean(table: seq<Decision>, admissions: seq<Admission>, source: string)
    requires DistinctKeys(table) && DistinctIds(admissions)
    ensures var visible := OverallDecisions(table);
            var early := set a | a in admissions && EarlyRejection(table, a) && a.feed == source;
            var shown := set d | d in visible && d.feed == source;
            var clean := set d | d in visible && d.feed == source && TrainableRow(d);
            && (shown != {} || early != {} <==> exists e :: e in OverviewOf(table, admissions).perSource && e.source == source)
            && forall e | e in OverviewOf(table, admissions).perSource && e.source == source ::
                 e.total == |shown| + |early| && e.accepted == |clean|
  {
    hide OverallDecisions, EarlyLicense, EarlyRejection, TrainableRow, CountOf, OnDashboard, GoldFeeds;
    ShownCounted(table, source);
    RejectedCounted(table, admissions, source);
    CleanCounted(table, source);
    EntriesMean(DecisionFeeds(OverallDecisions(table)), AdmissionFeeds(EarlyLicense(table, admissions)), GoldFeeds(table), source);
  }

  lemma ShownCounted(table: seq<Decision>, source: string)
    ensures var visible := OverallDecisions(table);
            CountOf(DecisionFeeds(visible), source) == |set d | d in visible && d.feed == source|
  {
    VisibleDecisions(table);
    hide OverallDecisions, CountOf, OnDashboard;
    FeedsCounted(OverallDecisions(table), source);
    assert Having(OverallDecisions(table), FromFeed(source)) == set d | d in OverallDecisions(table) && d.feed == source;
  }

  lemma RejectedCounted(table: seq<Decision>, admissions: seq<Admission>, source: string)
    requires DistinctIds(admissions)
    ensures CountOf(AdmissionFeeds(EarlyLicense(table, admissions)), source)
         == |set a | a in admissions && EarlyRejection(table, a) && a.feed == source|
  {
    EarlyRejections(table, admissions);
    hide EarlyLicense, EarlyRejection, CountOf;
    var rejected := EarlyLicense(table, admissions);
    RefusalsCounted(rejected, source);
    assert Having(rejected, OfFeed(source)) == (set a | a in admissions && EarlyRejection(table, a) && a.feed == source);
  }

  lemma CleanCounted(table: seq<Decision>, source: string)
    requires DistinctKeys(table)
    ensures var visible := OverallDecisions(table);
            CountOf(GoldFeeds(table), source) == |set d | d in visible && d.feed == source && TrainableRow(d)|
  {
    hide OverallDecisions, TrainableRow, CountOf, OnDashboard, GoldFeeds, Clean, IsLatest, DistinctKeys;
    VisibleDecisions(table);
    JoinCountsClean(table, source);
    var visible := OverallDecisions(table);
    CleanRows(visible);
    FeedsCounted(Clean(visible), source);
    assert Having(Clean(visible), FromFeed(source)) == (set d | d in visible && d.feed == source && TrainableRow(d));
  }

  lemma CleanRows(rows: seq<Decision>)
    requires OnePerDocument(rows)
    ensures OnePerDocument(Clean(rows)) && forall d :: d in Clean(rows) <==> d in rows && TrainableRow(d)
  {
    hide TrainableRow;
    FilterKeepsOne(TrainableRow, rows);
    forall d ensures d in Clean(rows) <==> d in rows && TrainableRow(d) {
      Ordering.FilterElements(TrainableRow, rows, d);
    }
  }

  lemma EntriesMean(decided: seq<string>, refused: seq<string>, gold: seq<string>, source: string)
    ensures var entries := Entries(SourcesOf(decided + refused), GroupCounts(gold), Added(GroupCounts(decided), GroupCounts(refused)));
            && (CountOf(decided, source) + CountOf(refused, source) > 0 <==> exists e :: e in entries && e.source == source)
            && forall e | e in entries && e.source == source ::
                 e.total == CountOf(decided, source) + CountOf(refused, source) && e.accepted == CountOf(gold, source)
  {
    SourcesListed(decided + refused);
    CountAbsent(decided, source);
    CountAbsent(refused, source);
    CountIsGroup(decided, source);
    CountIsGroup(refused, source);
    CountIsGroup(gold, source);
    hide SourcesOf, CountOf, GroupCounts;
    var sources := SourcesOf(decided + refused);
    var entries := Entries(sources, GroupCounts(gold), Added(GroupCounts(decided), GroupCounts(refused)));
    if source in sources {
      var i :| 0 <= i < |sources| && sources[i] == source;
      assert entries[i] in entries && entries[i].source == source;
    }
  }
}
