/** Snapshot selection, garbage candidates and the deletion loop (processor/iceberg_maintenance.py). */
module TableExpiry {
  import opened TableReachability
  import Ordering

  // ---- Which snapshots expire ----------------------------------------------------------------

  /** Newest first: by timestamp, then by identifier. */
  predicate NotOlder(a: Snapshot, b: Snapshot) {
    a.timestamp > b.timestamp || (a.timestamp == b.timestamp && a.id >= b.id)
  }

  predicate Newer(a: Snapshot, b: Snapshot) {
    a.timestamp > b.timestamp || (a.timestamp == b.timestamp && a.id > b.id)
  }

  function NewerThan(snapshots: seq<Snapshot>, s: Snapshot): nat {
    if snapshots == [] then 0 else (if Newer(snapshots[0], s) then 1 else 0) + NewerThan(snapshots[1..], s)
  }

  function Ids(snapshots: seq<Snapshot>): set<int> { set s | s in snapshots :: s.id }

  function Newest(snapshots: seq<Snapshot>, keep: nat): seq<Snapshot> {
    var ordered := Ordering.Sort(NotOlder, snapshots);
    if keep < |ordered| then ordered[..keep] else ordered
  }

  ghost predicate DistinctIds(snapshots: seq<Snapshot>) {
    forall i, j | 0 <= i < j < |snapshots| :: snapshots[i].id != snapshots[j].id
  }

  /** Select identifiers from the ordered snapshots, sparing the newest ones and every referenced one. */
  method SnapshotIdsToExpire(md: Metadata, cutoff: int, minimumToKeep: nat) returns (expired: seq<int>)
    ensures forall id :: id in expired <==>
              exists s :: s in md.snapshots && s.id == id && s.timestamp < cutoff
                          && id !in Ids(Newest(md.snapshots, minimumToKeep)) && id !in md.refs
  {
    var ordered := Ordering.Sort(NotOlder, md.snapshots);
    var spared := Ids(Newest(md.snapshots, minimumToKeep)) + md.refs;
    expired := [];
    for n := 0 to |ordered|
      invariant forall id :: id in expired <==>
                  exists s :: s in ordered[..n] && s.id == id && s.timestamp < cutoff && id !in spared
    {
      var s := ordered[n];
      assert ordered[..n + 1] == ordered[..n] + [s];
      assert forall t :: t in ordered[..n + 1] <==> t in ordered[..n] || t == s;
      if s.timestamp < cutoff && s.id !in spared {
        expired := expired + [s.id];
      }
    }
    assert ordered[..|ordered|] == ordered;
    Ordering.SortMultiset(NotOlder, md.snapshots);
    forall s ensures s in ordered <==> s in md.snapshots {
      Ordering.SameElements(ordered, md.snapshots, s);
    }
  }

  lemma {:induction false} InsertNewerThan(x: Snapshot, snapshots: seq<Snapshot>, s: Snapshot)
    ensures NewerThan(Ordering.Insert(NotOlder, x, snapshots), s) == NewerThan([x] + snapshots, s)
  {
    assert ([x] + snapshots)[1..] == snapshots;
    if snapshots != [] && !NotOlder(x, snapshots[0]) {
      InsertNewerThan(x, snapshots[1..], s);
      assert ([x] + snapshots[1..])[1..] == snapshots[1..];
    }
  }

  lemma {:induction false} SortNewerThan(snapshots: seq<Snapshot>, s: Snapshot)
    ensures NewerThan(Ordering.Sort(NotOlder, snapshots), s) == NewerThan(snapshots, s)
  {
    if snapshots != [] {
      SortNewerThan(snapshots[1..], s);
      InsertNewerThan(snapshots[0], Ordering.Sort(NotOlder, snapshots[1..]), s);
      assert ([snapshots[0]] + Ordering.Sort(NotOlder, snapshots[1..]))[1..] == Ordering.Sort(NotOlder, snapshots[1..]);
    }
  }

  /** In a newest-first list without ties, a snapshot's index counts the newer ones. */
  lemma {:induction false} IndexCountsNewer(ordered: seq<Snapshot>, n: nat)
    requires n < |ordered| && Ordering.SortedBy(NotOlder, ordered) && DistinctIds(ordered)
    ensures NewerThan(ordered, ordered[n]) == n
  {
    if n == 0 {
      NoneNewer(ordered, ordered[0]);
    } else {
      assert ordered[1..][n - 1] == ordered[n];
      IndexCountsNewer(ordered[1..], n - 1);
    }
  }

  lemma {:induction false} NoneNewer(ordered: seq<Snapshot>, s: Snapshot)
    requires forall i | 0 <= i < |ordered| :: NotOlder(s, ordered[i])
    ensures NewerThan(ordered, s) == 0
  {
    if ordered != [] {
      NoneNewer(ordered[1..], s);
    }
  }

  lemma DistinctOrdered(snapshots: seq<Snapshot>)
    requires DistinctIds(snapshots)
    ensures DistinctIds(Ordering.Sort(NotOlder, snapshots))
  {
    var ordered := Ordering.Sort(NotOlder, snapshots);
    Ordering.SortMultiset(NotOlder, snapshots);
    forall i, j | 0 <= i < j < |ordered| ensures ordered[i].id != ordered[j].id {
      Ordering.SameElements(ordered, snapshots, ordered[i]);
      Ordering.SameElements(ordered, snapshots, ordered[j]);
      if ordered[i] == ordered[j] {
        Ordering.CountedTwice(ordered, i, j);
        OnceInMultiset(snapshots, ordered[i]);
      }
    }
  }

  lemma {:induction false} OnceInMultiset(s: seq<Snapshot>, x: Snapshot)
    requires DistinctIds(s)
    ensures multiset(s)[x] <= 1
  {
    if s != [] {
      var front, last := s[..|s| - 1], s[|s| - 1];
      assert s == front + [last];
      OnceInMultiset(front, x);
      if last == x {
        assert x !in front;
      }
    }
  }

  /** The position of a snapshot in the newest-first order. */
  lemma PositionOf(snapshots: seq<Snapshot>, s: Snapshot) returns (n: nat)
    requires DistinctIds(snapshots) && s in snapshots
    ensures var ordered := Ordering.Sort(NotOlder, snapshots);
            n < |ordered| && ordered[n] == s && n == NewerThan(snapshots, s) && DistinctIds(ordered)
  {
    hide NewerThan;
    var ordered := Ordering.Sort(NotOlder, snapshots);
    Ordering.SortSorted(NotOlder, snapshots);
    Ordering.SortMultiset(NotOlder, snapshots);
    DistinctOrdered(snapshots);
    Ordering.SameElements(ordered, snapshots, s);
    n :| 0 <= n < |ordered| && ordered[n] == s;
    IndexCountsNewer(ordered, n);
    SortNewerThan(snapshots, s);
  }

  /** A snapshot is among the newest `keep` exactly when fewer than `keep` snapshots are newer. */
  lemma NewestByCount(snapshots: seq<Snapshot>, keep: nat, s: Snapshot)
    requires DistinctIds(snapshots) && s in snapshots
    ensures s.id in Ids(Newest(snapshots, keep)) <==> NewerThan(snapshots, s) < keep
  {
    hide NewerThan;
    var _ := PositionOf(snapshots, s);
  }

  /**
   The retention contract: a snapshot expires exactly when it is older than the cutoff, no reference names
   it and at least `minimumToKeep` retained snapshots are newer.
   */
  lemma ExpiryContract(md: Metadata, cutoff: int, minimumToKeep: nat, s: Snapshot)
    requires DistinctIds(md.snapshots) && s in md.snapshots
    ensures (exists t :: t in md.snapshots && t.id == s.id && t.timestamp < cutoff
                         && t.id !in Ids(Newest(md.snapshots, minimumToKeep)) && t.id !in md.refs)
            <==> s.timestamp < cutoff && s.id !in md.refs && NewerThan(md.snapshots, s) >= minimumToKeep
  {
    NewestByCount(md.snapshots, minimumToKeep, s);
  }

  // ---- Garbage -------------------------------------------------------------------------------

  predicate TableFile(key: string) {
    || EndsWith(key, ".metadata.json") || EndsWith(key, ".avro") || EndsWith(key, ".parquet") || EndsWith(key, ".puffin")
  }

  predicate IsCandidate(o: Object, protectedKeys: set<string>, olderThan: int) {
    TableFile(o.key) && o.key !in protectedKeys && o.modified < olderThan
  }

  function CleanupCandidates(objects: seq<Object>, protectedKeys: set<string>, olderThan: int): seq<Object> {
    Ordering.Filter((o: Object) => IsCandidate(o, protectedKeys, olderThan), objects)
  }

  /** Filtering the first candidates again with more protection is filtering once with both. */
  lemma {:induction false} FilterTwice(objects: seq<Object>, first: set<string>, more: set<string>, olderThan: int)
    ensures CleanupCandidates(CleanupCandidates(objects, first, olderThan), first + more, olderThan)
         == CleanupCandidates(objects, first + more, olderThan)
  {
    if objects != [] {
      FilterTwice(objects[1..], first, more, olderThan);
      var c := CleanupCandidates(objects[1..], first, olderThan);
      assert ([objects[0]] + c)[1..] == c;
    }
  }

  /** A candidate is a table file that nothing protects and that is older than the cutoff. */
  lemma CandidatesMean(objects: seq<Object>, protectedKeys: set<string>, olderThan: int, o: Object)
    ensures o in CleanupCandidates(objects, protectedKeys, olderThan) <==>
              && o in objects && o.key !in protectedKeys && o.modified < olderThan
              && exists suffix :: suffix in [".metadata.json", ".avro", ".parquet", ".puffin"] && EndsWith(o.key, suffix)
  {
    Ordering.FilterElements((o: Object) => IsCandidate(o, protectedKeys, olderThan), objects, o);
    var suffixes := [".metadata.json", ".avro", ".parquet", ".puffin"];
    assert suffixes[0] in suffixes && suffixes[1] in suffixes && suffixes[2] in suffixes && suffixes[3] in suffixes;
    assert TableFile(o.key) <==> exists suffix :: suffix in suffixes && EndsWith(o.key, suffix);
  }

  // ---- Deletion ------------------------------------------------------------------------------

  /** The key of an error is empty when the store names none. */
  datatype KeyError = KeyError(code: string, key: string)

  /** How the store answers one request, and which of the requested keys it leaves stored if the answer allows it. */
  datatype Reaction = Whole(code: string, kept: set<string>) | PerKey(errors: set<KeyError>, kept: set<string>)

  /** The store's reaction to every request of a pass, fixed in advance. */
  type Script = nat -> Reaction

  predicate Benign(code: string) { code in {"NoSuchKey", "NoSuchObject", "NotFound"} }

  predicate Retryable(code: string) { code in {"InternalError", "RequestTimeout", "ServiceUnavailable", "SlowDown"} }

  const MAX_ATTEMPTS: nat := 5
  const CHUNK: nat := 1000

  /** The store reports errors for requested keys, or for none. */
  function Answered(requested: set<string>, errors: set<KeyError>): set<KeyError> {
    set e | e in errors && (e.key in requested || e.key == "")
  }

  /** With an answer per key, a key can stay if an error names it, or if some error names no key. */
  function Left(keys: set<string>, requested: set<string>, x: Reaction): set<string> {
    match x
    case Whole(_, kept) => keys * requested * kept
    case PerKey(errors, kept) =>
      set k | k in keys * requested * kept && exists e | e in Answered(requested, errors) :: (e.key == k && !Benign(e.code)) || e.key == ""
  }

  /** An answer per key with an error that names none; the loop cannot request such a key again. */
  predicate Unnamed(requested: set<string>, x: Reaction) {
    x.PerKey? && exists e | e in Answered(requested, x.errors) :: e.key == ""
  }

  /** The two answers that can settle a key and leave it stored. */
  predicate Overlooks(requested: set<string>, x: Reaction) { (x.Whole? && Benign(x.code)) || Unnamed(requested, x) }

  function After(keys: set<string>, requested: set<string>, x: Reaction): set<string> {
    (keys - requested) + Left(keys, requested, x)
  }

  predicate Fatal(errors: set<KeyError>) { exists e | e in errors :: !Retryable(e.code) && !Benign(e.code) }

  function Again(errors: set<KeyError>): set<string> { set e | e in errors && Retryable(e.code) && e.key != "" :: e.key }

  datatype Exchange = Exchange(requested: set<string>, reaction: Reaction, left: set<string>)

  /** What some requests did: whether the loop returned normally, what is stored, and every exchange. */
  datatype Sweep = Sweep(ok: bool, keys: set<string>, log: seq<Exchange>)

  datatype Next = Done | Rejected | Retry(pending: set<string>)

  /** What one answer makes of the chunk, were there attempts left. */
  function Judge(requested: set<string>, x: Reaction): Next {
    match x
    case Whole(code, _) => if Benign(code) then Done else if Retryable(code) then Retry(requested) else Rejected
    case PerKey(errors, _) =>
      var answered := Answered(requested, errors);
      if Fatal(answered) then Rejected else if Again(answered) == {} then Done else Retry(Again(answered))
  }

  function Attempts(script: Script, at: nat, keys: set<string>, pending: set<string>, attempts: nat): Sweep
    requires attempts != 0
    decreases attempts
  {
    var x := script(at);
    var after := After(keys, pending, x);
    var here := Exchange(pending, x, Left(keys, pending, x));
    match Judge(pending, x)
    case Done => Sweep(true, after, [here])
    case Rejected => Sweep(false, after, [here])
    case Retry(again) =>
      if attempts == 1 then Sweep(false, after, [here])
      else
        var rest := Attempts(script, at + 1, after, again, attempts - 1);
        Sweep(rest.ok, rest.keys, [here] + rest.log)
  }

  function KeysIn(objects: seq<Object>): set<string> { set o | o in objects :: o.key }

  function ChunkEnd(objects: seq<Object>): (end: nat)
    ensures end <= |objects| && (objects != [] ==> end != 0)
  {
    if CHUNK < |objects| then CHUNK else |objects|
  }

  function Chunks(script: Script, at: nat, keys: set<string>, objects: seq<Object>): Sweep
    decreases |objects|
  {
    if objects == [] then Sweep(true, keys, [])
    else
      var first := Attempts(script, at, keys, KeysIn(objects[..ChunkEnd(objects)]), MAX_ATTEMPTS);
      if !first.ok then first
      else
        var rest := Chunks(script, at + |first.log|, first.keys, objects[ChunkEnd(objects)..]);
        Sweep(rest.ok, rest.keys, first.log + rest.log)
  }

  // ---- What deletion achieves ----------------------------------------------------------------

  ghost predicate Named(log: seq<Exchange>, key: string) { exists x | x in log :: key in x.requested }

  /**
   The last request that named the key left it stored, and was answered as a whole with a benign code or per
   key with an error that names none.
   */
  predicate Waved(log: seq<Exchange>, key: string) {
    && log != []
    && if exists x | x in log[1..] :: key in x.requested then Waved(log[1..], key)
       else
         var x := log[0];
         key in x.requested && key in x.left && Overlooks(x.requested, x.reaction)
  }

  lemma {:induction false} UnnamedNotWaved(log: seq<Exchange>, key: string)
    requires !Named(log, key)
    ensures !Waved(log, key)
  {
    if log != [] {
      assert log[0] in log;
      UnnamedNotWaved(log[1..], key);
    }
  }

  lemma {:induction false} WavedAppend(a: seq<Exchange>, b: seq<Exchange>, key: string)
    ensures Waved(a + b, key) <==> if Named(b, key) then Waved(b, key) else Waved(a, key)
    ensures Named(a + b, key) <==> Named(a, key) || Named(b, key)
  {
    assert forall x :: x in a + b <==> x in a || x in b;
    if a == [] {
      assert a + b == b;
      if !Named(b, key) {
        UnnamedNotWaved(b, key);
      }
    } else {
      assert (a + b)[1..] == a[1..] + b;
      WavedAppend(a[1..], b, key);
    }
  }

  lemma JudgedWithin(requested: set<string>, x: Reaction)
    ensures Judge(requested, x).Retry? ==> Judge(requested, x).pending <= requested
  {
  }

  lemma AttemptsFirst(script: Script, at: nat, keys: set<string>, pending: set<string>, attempts: nat)
    requires attempts != 0
    ensures var r, after, next := Attempts(script, at, keys, pending, attempts), After(keys, pending, script(at)), Judge(pending, script(at));
            if next.Retry? && attempts != 1 then
              var rest := Attempts(script, at + 1, after, next.pending, attempts - 1);
              r.ok == rest.ok && r.keys == rest.keys && |r.log| == 1 + |rest.log|
            else r.ok == next.Done? && r.keys == after && |r.log| == 1
  {
  }

  /** Only requested keys are deleted, by at most the allowed number of requests for them alone. */
  lemma {:induction false} AttemptsBounded(script: Script, at: nat, keys: set<string>, pending: set<string>, attempts: nat)
    requires attempts != 0
    ensures var r := Attempts(script, at, keys, pending, attempts);
            && keys - pending <= r.keys <= keys
            && 1 <= |r.log| <= attempts
            && forall x | x in r.log :: x.requested <= pending
    decreases attempts
  {
    JudgedWithin(pending, script(at));
    hide Judge;
    if attempts != 1 && Judge(pending, script(at)).Retry? {
      AttemptsBounded(script, at + 1, After(keys, pending, script(at)), Judge(pending, script(at)).pending, attempts - 1);
    }
  }

  /** A requested key stays only if the answer overlooks it, or it is requested again. */
  lemma LeftIsWavedOrAgain(keys: set<string>, requested: set<string>, x: Reaction, k: string)
    requires "" !in requested && k in Left(keys, requested, x)
    ensures Judge(requested, x).Done? ==> Overlooks(requested, x)
    ensures Judge(requested, x).Retry? ==> k in Judge(requested, x).pending || Overlooks(requested, x)
  {
    hide Benign, Retryable;
    if x.PerKey? && !Unnamed(requested, x) {
      var e :| e in Answered(requested, x.errors) && e.key == k && !Benign(e.code);
      if Retryable(e.code) {
        assert e.key in Again(Answered(requested, x.errors));
      }
    }
  }

  lemma OneExchange(x: Exchange, k: string)
    ensures Named([x], k) <==> k in x.requested
    ensures Waved([x], k) <==> k in x.requested && k in x.left && Overlooks(x.requested, x.reaction)
  {
    assert [x][0] in [x] && [x][1..] == [];
  }

  lemma NotNamed(log: seq<Exchange>, requested: set<string>, k: string)
    requires (forall x | x in log :: x.requested <= requested) && k !in requested
    ensures !Named(log, k)
  {
  }

  /** What two passes in a row did to a key that only the second one may have named again. */
  lemma JoinExact(first: Sweep, rest: Sweep, a: set<string>, b: set<string>, k: string)
    requires k in a - b ==> Named(first.log, k) && (k in first.keys <==> Waved(first.log, k))
    requires k in b ==> Named(rest.log, k) && (k in rest.keys <==> Waved(rest.log, k))
    requires k !in b ==> !Named(rest.log, k) && (k in rest.keys <==> k in first.keys)
    requires k in a + b
    ensures Named(first.log + rest.log, k) && (k in rest.keys <==> Waved(first.log + rest.log, k))
  {
    hide Named, Waved;
    WavedAppend(first.log, rest.log, k);
  }

  /** What one exchange did to a key that it settled. */
  lemma OneExact(keys: set<string>, requested: set<string>, x: Reaction, k: string)
    requires "" !in requested && k in requested && !Judge(requested, x).Rejected?
    ensures var here := [Exchange(requested, x, Left(keys, requested, x))];
            && Named(here, k)
            && (Judge(requested, x).Done? || k !in Judge(requested, x).pending ==> (k in After(keys, requested, x) <==> Waved(here, k)))
  {
    OneExchange(Exchange(requested, x, Left(keys, requested, x)), k);
    if k in Left(keys, requested, x) {
      LeftIsWavedOrAgain(keys, requested, x, k);
    }
    hide Waved, Named, Left, Overlooks, Benign, Retryable, Fatal, Answered;
  }

  /** After a normal return a requested key is still stored exactly if its last request was waved through. */
  lemma {:induction false} AttemptsExact(script: Script, at: nat, keys: set<string>, pending: set<string>, attempts: nat, k: string)
    requires attempts != 0 && "" !in pending && k in pending
    requires Attempts(script, at, keys, pending, attempts).ok
    ensures var r := Attempts(script, at, keys, pending, attempts); Named(r.log, k) && (k in r.keys <==> Waved(r.log, k))
    decreases attempts
  {
    hide Judge, Waved, Named, Left, After;
    var x, after := script(at), After(keys, pending, script(at));
    OneExact(keys, pending, x, k);
    JudgedWithin(pending, x);
    if Judge(pending, x).Retry? {
      var again := Judge(pending, x).pending;
      var rest := Attempts(script, at + 1, after, again, attempts - 1);
      AttemptsBounded(script, at + 1, after, again, attempts - 1);
      if k in again {
        AttemptsExact(script, at + 1, after, again, attempts - 1, k);
      } else {
        NotNamed(rest.log, again, k);
      }
      JoinExact(Sweep(true, after, [Exchange(pending, x, Left(keys, pending, x))]), rest, pending, again, k);
    }
  }

  lemma NoChunks(script: Script, at: nat, keys: set<string>)
    ensures Chunks(script, at, keys, []) == Sweep(true, keys, [])
  {
  }

  lemma ChunksFirst(script: Script, at: nat, keys: set<string>, objects: seq<Object>, end: nat)
    requires objects != [] && end == ChunkEnd(objects)
    ensures var first := Attempts(script, at, keys, KeysIn(objects[..end]), MAX_ATTEMPTS);
            var rest := Chunks(script, at + |first.log|, first.keys, objects[end..]);
            Chunks(script, at, keys, objects) == if first.ok then Sweep(rest.ok, rest.keys, first.log + rest.log) else first
  {
  }

  lemma {:induction false} ChunksBounded(script: Script, at: nat, keys: set<string>, objects: seq<Object>)
    ensures var r := Chunks(script, at, keys, objects);
            && keys - KeysIn(objects) <= r.keys <= keys
            && forall x | x in r.log :: x.requested <= KeysIn(objects)
    decreases |objects|
  {
    hide KeysIn, Attempts, Chunks, ChunkEnd;
    NoChunks(script, at, keys);
    if objects != [] {
      var end := ChunkEnd(objects);
      ChunksFirst(script, at, keys, objects, end);
      SplitKeys(objects, end);
      var first := Attempts(script, at, keys, KeysIn(objects[..end]), MAX_ATTEMPTS);
      AttemptsBounded(script, at, keys, KeysIn(objects[..end]), MAX_ATTEMPTS);
      ChunksBounded(script, at + |first.log|, first.keys, objects[end..]);
    }
  }

  lemma SplitKeys(objects: seq<Object>, end: nat)
    requires end <= |objects|
    ensures KeysIn(objects) == KeysIn(objects[..end]) + KeysIn(objects[end..])
  {
    assert objects == objects[..end] + objects[end..];
    assert forall o :: o in objects <==> o in objects[..end] || o in objects[end..];
  }

  /**
   After a normal return a candidate is still stored exactly if the last request that named it left it stored
   and was answered as a whole with a benign code, or per key with an error that names none. Every other
   normal return has deleted it.
   */
  lemma {:induction false} ChunksExact(script: Script, at: nat, keys: set<string>, objects: seq<Object>, k: string)
    requires "" !in KeysIn(objects) && k in KeysIn(objects) && Chunks(script, at, keys, objects).ok
    ensures var r := Chunks(script, at, keys, objects); Named(r.log, k) && (k in r.keys <==> Waved(r.log, k))
    decreases |objects|
  {
    hide KeysIn, Attempts, Waved, Named, Chunks, ChunkEnd;
    NoKeys();
    var end := ChunkEnd(objects);
    SplitKeys(objects, end);
    ChunksFirst(script, at, keys, objects, end);
    var a, b := KeysIn(objects[..end]), KeysIn(objects[end..]);
    var first := Attempts(script, at, keys, a, MAX_ATTEMPTS);
    var rest := Chunks(script, at + |first.log|, first.keys, objects[end..]);
    if k in a {
      AttemptsExact(script, at, keys, a, MAX_ATTEMPTS, k);
    }
    ChunksBounded(script, at + |first.log|, first.keys, objects[end..]);
    if k in b {
      ChunksExact(script, at + |first.log|, first.keys, objects[end..], k);
    } else {
      NotNamed(rest.log, b, k);
    }
    JoinExact(first, rest, a, b, k);
  }

  lemma NoKeys()
    ensures KeysIn([]) == {}
  {
  }

  /** All candidates are gone after a normal return exactly if no candidate's last request was waved through. */
  lemma AllGoneIff(script: Script, at: nat, keys: set<string>, objects: seq<Object>)
    requires "" !in KeysIn(objects) && Chunks(script, at, keys, objects).ok
    ensures var r := Chunks(script, at, keys, objects);
            r.keys * KeysIn(objects) == {} <==> forall k | k in KeysIn(objects) :: !Waved(r.log, k)
  {
    forall k | k in KeysIn(objects)
      ensures var r := Chunks(script, at, keys, objects); k in r.keys <==> Waved(r.log, k) {
      ChunksExact(script, at, keys, objects, k);
    }
    var r := Chunks(script, at, keys, objects);
    if r.keys * KeysIn(objects) == {} {
      forall k | k in KeysIn(objects) ensures !Waved(r.log, k) {
        assert k !in r.keys * KeysIn(objects);
      }
    }
  }

  /** Such a key exists: one request, answered with a benign code, counts as done and deletes nothing. */
  lemma BenignAnswerLeavesKey(o: Object)
    ensures var r := Chunks(_ => Whole("NoSuchKey", {o.key}), 0, {o.key}, [o]); r.ok && r.keys == {o.key} && |r.log| == 1
  {
    assert [o][..1] == [o] && [o][1..] == [];
    assert KeysIn([o]) == {o.key};
  }

  /** And another: a retryable error that names no key is dropped, so the request counts as done although it failed. */
  lemma UnnamedErrorLeavesKey(o: Object)
    ensures var r := Chunks(_ => PerKey({KeyError("SlowDown", "")}, {o.key}), 0, {o.key}, [o]);
            r.ok && r.keys == {o.key} && |r.log| == 1
  {
    var x := PerKey({KeyError("SlowDown", "")}, {o.key});
    assert [o][..1] == [o] && [o][1..] == [];
    assert KeysIn([o]) == {o.key};
    assert KeyError("SlowDown", "") in Answered({o.key}, x.errors);
    assert !Fatal(Answered({o.key}, x.errors)) && Again(Answered({o.key}, x.errors)) == {};
    assert Left({o.key}, {o.key}, x) == {o.key};
  }

  // ---- How a pass ends -------------------------------------------------------------------------

  /** The codes of objects that are gone already, and of failures that pass; no code is both. */
  lemma CodesMean(code: string)
    ensures Benign(code) <==> code == "NoSuchKey" || code == "NoSuchObject" || code == "NotFound"
    ensures Retryable(code) <==>
              code == "InternalError" || code == "RequestTimeout" || code == "ServiceUnavailable" || code == "SlowDown"
    ensures !(Benign(code) && Retryable(code))
  {
    var a, b, c, d, e, f, g := "NoSuchKey", "NoSuchObject", "NotFound", "InternalError", "RequestTimeout", "ServiceUnavailable", "SlowDown";
    assert a[0] == b[0] == c[0] == 'N' && d[0] == 'I' && e[0] == 'R' && f[0] == g[0] == 'S';
  }

  ghost predicate Concerns(x: Exchange, e: KeyError) { x.reaction.PerKey? && e in x.reaction.errors && (e.key in x.requested || e.key == "") }

  /** Everything the answer says is that keys are gone, or it is a passing failure that names no key. */
  ghost predicate Settles(x: Exchange) {
    if x.reaction.Whole? then Benign(x.reaction.code)
    else forall e | Concerns(x, e) :: Benign(e.code) || (Retryable(e.code) && e.key == "")
  }

  /** The answer lets `next` be asked for again: all of it, or the keys it calls retryable. */
  ghost predicate Repeats(x: Exchange, next: set<string>) {
    if x.reaction.Whole? then Retryable(x.reaction.code) && next == x.requested
    else
      && next != {} && (forall e | Concerns(x, e) :: Benign(e.code) || Retryable(e.code))
      && forall k :: k in next <==> k != "" && exists e :: Concerns(x, e) && e.key == k && Retryable(e.code)
  }

  ghost predicate MayRepeat(x: Exchange) { exists next :: Repeats(x, next) }

  lemma JudgeMeans(requested: set<string>, x: Exchange)
    requires x.requested == requested
    ensures Judge(requested, x.reaction).Done? <==> Settles(x)
    ensures Judge(requested, x.reaction).Retry? ==> Repeats(x, Judge(requested, x.reaction).pending)
    ensures forall next :: Repeats(x, next) ==> Judge(requested, x.reaction).Retry?
  {
    if x.reaction.Whole? {
      CodesMean(x.reaction.code);
    } else {
      hide Benign, Retryable;
      var answered := Answered(requested, x.reaction.errors);
      assert forall e :: e in answered <==> Concerns(x, e);
      forall e | Concerns(x, e) ensures !(Benign(e.code) && Retryable(e.code)) {
        CodesMean(e.code);
      }
      assert forall k :: k in Again(answered) <==> k != "" && exists e :: Concerns(x, e) && e.key == k && Retryable(e.code);
      if !Fatal(answered) && Again(answered) == {} {
        forall e | Concerns(x, e) ensures Benign(e.code) || (Retryable(e.code) && e.key == "") {
          assert e.key !in Again(answered);
        }
      }
      if Settles(x) {
        forall k ensures k !in Again(answered) {
        }
      }
      forall next | Repeats(x, next) ensures Judge(requested, x.reaction).Retry? {
        var k :| k in next;
        assert k in Again(answered);
      }
    }
  }

  /**
   One chunk: the requests follow the answers, the first for all its keys. It succeeds exactly if the last answer
   settles it, and gives up on an answer that lets it be repeated only after the last attempt.
   */
  lemma {:induction false} AttemptsOutcome(script: Script, at: nat, keys: set<string>, pending: set<string>, attempts: nat)
    requires attempts != 0
    ensures var r := Attempts(script, at, keys, pending, attempts);
            var n := |r.log|;
            && 1 <= n <= attempts && r.log[0].requested == pending
            && (forall i | 0 <= i < n :: r.log[i].reaction == script(at + i))
            && (forall i | 0 <= i < n - 1 :: Repeats(r.log[i], r.log[i + 1].requested))
            && (r.ok <==> Settles(r.log[n - 1]))
            && (MayRepeat(r.log[n - 1]) ==> !r.ok && n == attempts)
    decreases attempts
  {
    hide Judge, Settles, Repeats, Left, After;
    var x := Exchange(pending, script(at), Left(keys, pending, script(at)));
    JudgeMeans(pending, x);
    var after := After(keys, pending, script(at));
    var r := Attempts(script, at, keys, pending, attempts);
    if Judge(pending, script(at)).Retry? && attempts != 1 {
      var again := Judge(pending, script(at)).pending;
      AttemptsOutcome(script, at + 1, after, again, attempts - 1);
      var rest := Attempts(script, at + 1, after, again, attempts - 1);
      assert r.log == [x] + rest.log;
    } else {
      assert r.log == [x];
    }
  }

  /** A pass succeeds exactly if its last answer settles the last chunk, and no request is for more than a thousand keys. */
  lemma {:induction false} PassOutcome(script: Script, at: nat, keys: set<string>, objects: seq<Object>)
    ensures var r := Chunks(script, at, keys, objects);
            && (objects == [] ==> r == Sweep(true, keys, []))
            && (objects != [] ==> r.log != [] && (r.ok <==> Settles(r.log[|r.log| - 1])))
            && forall x | x in r.log :: |x.requested| <= 1000
    decreases |objects|
  {
    hide Attempts, Chunks, Settles, KeysIn;
    NoChunks(script, at, keys);
    if objects != [] {
      var end := ChunkEnd(objects);
      ChunksFirst(script, at, keys, objects, end);
      var a := KeysIn(objects[..end]);
      var first := Attempts(script, at, keys, a, MAX_ATTEMPTS);
      AttemptsOutcome(script, at, keys, a, MAX_ATTEMPTS);
      AttemptsBounded(script, at, keys, a, MAX_ATTEMPTS);
      FewKeys(objects[..end]);
      forall x | x in first.log ensures |x.requested| <= 1000 {
        SubsetSize(x.requested, a);
      }
      PassOutcome(script, at + |first.log|, first.keys, objects[end..]);
    }
  }

  lemma {:induction false} FewKeys(objects: seq<Object>)
    ensures |KeysIn(objects)| <= |objects|
  {
    if objects != [] {
      var front, last := objects[..|objects| - 1], objects[|objects| - 1];
      FewKeys(front);
      assert forall o :: o in objects <==> o in front || o == last;
      assert KeysIn(objects) == KeysIn(front) + {last.key};
    } else {
      assert KeysIn(objects) == {};
    }
  }

  lemma {:induction false} SubsetSize(a: set<string>, b: set<string>)
    requires a <= b
    ensures |a| <= |b|
    decreases |a|
  {
    if a != {} {
      var x :| x in a;
      SubsetSize(a - {x}, b - {x});
    }
  }

  /** A store that reports no error has deleted every candidate and nothing else. */
  lemma {:induction false} NoErrorsDeletesAll(script: Script, at: nat, keys: set<string>, objects: seq<Object>)
    requires forall n :: script(n).PerKey? && script(n).errors == {}
    ensures var r := Chunks(script, at, keys, objects); r.ok && r.keys == keys - KeysIn(objects)
    decreases |objects|
  {
    hide KeysIn, Chunks;
    NoChunks(script, at, keys);
    NoKeys();
    if objects != [] {
      var end := ChunkEnd(objects);
      ChunksFirst(script, at, keys, objects, end);
      SplitKeys(objects, end);
      var first := Attempts(script, at, keys, KeysIn(objects[..end]), MAX_ATTEMPTS);
      OneCleanRequest(script, at, keys, KeysIn(objects[..end]));
      NoErrorsDeletesAll(script, at + |first.log|, first.keys, objects[end..]);
    }
  }

  lemma OneCleanRequest(script: Script, at: nat, keys: set<string>, requested: set<string>)
    requires script(at).PerKey? && script(at).errors == {}
    ensures var r := Attempts(script, at, keys, requested, MAX_ATTEMPTS); r.ok && r.keys == keys - requested
  {
    AttemptsFirst(script, at, keys, requested, MAX_ATTEMPTS);
    hide Attempts;
    assert Answered(requested, script(at).errors) == {};
  }

  // ---- The deletion loop ---------------------------------------------------------------------

  datatype Response = Answer(errors: set<KeyError>) | RequestError(code: string)

  /** The bucket, and the position in its script. */
  class ObjectBucket {
    const script: Script
    var keys: set<string>
    var at: nat

    constructor (script: Script, keys: set<string>)
      ensures this.script == script && this.keys == keys && at == 0
    {
      this.script, this.keys, at := script, keys, 0;
    }

    /** One request: only requested keys are deleted, and one stays only as the answer allows. */
    method Delete(requested: set<string>) returns (r: Response)
      modifies this
      ensures keys == After(old(keys), requested, script(old(at))) && at == old(at) + 1
      ensures script(old(at)).Whole? ==> r == RequestError(script(old(at)).code)
      ensures script(old(at)).PerKey? ==> r == Answer(Answered(requested, script(old(at)).errors))
    {
      var x := script(at);
      keys, at := After(keys, requested, x), at + 1;
      match x
      case Whole(code, _) => r := RequestError(code);
      case PerKey(errors, _) => r := Answer(Answered(requested, errors));
    }

    /** One chunk: at most five requests, each for the keys that the last answer called retryable. */
    method DeleteChunk(requested: set<string>) returns (ok: bool)
      modifies this
      ensures var r := Attempts(script, old(at), old(keys), requested, MAX_ATTEMPTS);
              ok == r.ok && keys == r.keys && at == old(at) + |r.log|
      ensures old(at) < at <= old(at) + MAX_ATTEMPTS
      ensures old(keys) - requested <= keys <= old(keys)
    {
      hide Attempts, Left, After, Benign, Retryable, Fatal, Again, Answered;
      AttemptsBounded(script, at, keys, requested, MAX_ATTEMPTS);
      ghost var all := Attempts(script, at, keys, requested, MAX_ATTEMPTS);
      var pending := requested;
      for attempt := 1 to MAX_ATTEMPTS + 1
        invariant at == old(at) + attempt - 1 && attempt <= MAX_ATTEMPTS
        invariant var r := Attempts(script, at, keys, pending, MAX_ATTEMPTS + 1 - attempt);
                  all.ok == r.ok && all.keys == r.keys && |all.log| == attempt - 1 + |r.log|
      {
        AttemptsFirst(script, at, keys, pending, MAX_ATTEMPTS + 1 - attempt);
        var r := Delete(pending);
        match r
        case RequestError(code) =>
          if Benign(code) {
            return true;
          }
          if !Retryable(code) || attempt == MAX_ATTEMPTS {
            return false;
          }
        case Answer(errors) =>
          if Fatal(errors) {
            return false;
          }
          pending := Again(errors);
          if pending == {} {
            return true;
          }
          if attempt == MAX_ATTEMPTS {
            return false;
          }
      }
      assert false;
    }

    /** Delete the candidates in chunks of a thousand, stopping at the first chunk that fails. */
    method DeleteObjects(objects: seq<Object>) returns (ok: bool)
      requires "" !in KeysIn(objects)
      modifies this
      ensures var r := Chunks(script, old(at), old(keys), objects); ok == r.ok && keys == r.keys && at == old(at) + |r.log|
      ensures old(keys) - KeysIn(objects) <= keys <= old(keys)
      ensures var r := Chunks(script, old(at), old(keys), objects);
              ok ==> forall k | k in KeysIn(objects) :: k in keys <==> Waved(r.log, k)
    {
      hide KeysIn, Attempts, Waved, Named, Chunks;
      ghost var all := Chunks(script, at, keys, objects);
      ChunksBounded(script, at, keys, objects);
      if all.ok {
        forall k | k in KeysIn(objects) ensures k in all.keys <==> Waved(all.log, k) {
          ChunksExact(script, at, keys, objects, k);
        }
      }
      var offset := 0;
      assert objects[0..] == objects;
      while offset < |objects|
        invariant 0 <= offset <= |objects| && at >= old(at)
        invariant var r := Chunks(script, at, keys, objects[offset..]);
                  all.ok == r.ok && all.keys == r.keys && |all.log| == at - old(at) + |r.log|
      {
        var end := offset + ChunkEnd(objects[offset..]);
        assert objects[offset..][..end - offset] == objects[offset..end];
        assert objects[offset..][end - offset..] == objects[end..];
        ChunksFirst(script, at, keys, objects[offset..], end - offset);
        ok := DeleteChunk(KeysIn(objects[offset..end]));
        if !ok {
          return;
        }
        offset := end;
      }
      assert objects[offset..] == [];
      NoChunks(script, at, keys);
      ok := true;
    }
  }
}
