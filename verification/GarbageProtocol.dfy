/** Table maintenance against concurrent commits (processor/iceberg_maintenance.py). */
module GarbageProtocol {
  import opened Outcomes
  import opened TableReachability
  import opened TableExpiry
  import Ordering

  // A cycle loads and walks the table, lists the objects, reloads, walks again if the table moved, and deletes
  // what neither walk protects and is older than the cutoff. Writers put new objects and commit between any
  // two steps.

  datatype Cycle =
    | Idle
    | Listing(loaded: Metadata, cutoff: int, listed: seq<Object>)
    | Sweeping(cutoff: int, candidates: seq<Object>)

  /** `birth` is the modification time of every object ever put; `used` the metadata files ever committed. */
  datatype System = System(
    birth: map<string, int>, live: set<string>, md: Metadata, used: set<string>, now: int, cycle: Cycle)

  datatype Action =
    | Tick(elapsed: nat)
    | Put(key: string)
    | Commit(md: Metadata)
    | Load
    | List(key: string)
    | Reload
    | Delete(candidate: nat)
    | Abort

  /** The keys of everything a table reaches. */
  function ReachableKeys(locate: Locator, md: Metadata): set<string> {
    set p | p in MetadataFiles(md) + MentionedPaths(md) && locate(p).Some? :: locate(p).value.key
  }

  lemma ReachableKeysExact(locate: Locator, md: Metadata, key: string)
    ensures key in ReachableKeys(locate, md) <==> ReachesKey(locate, md, key)
  {
    forall p ensures p in MetadataFiles(md) + MentionedPaths(md) <==> Reaches(md, p) {
      MentionedExact(md, p);
    }
    if ReachesKey(locate, md, key) {
      var p :| Reaches(md, p) && locate(p).Some? && locate(p).value.key == key;
      assert p in MetadataFiles(md) + MentionedPaths(md);
    }
  }

  /** Every object a commit newly references is younger than the age floor. */
  ghost predicate ReferencesYoung(locate: Locator, age: nat, s: System, md: Metadata) {
    forall k | k in ReachableKeys(locate, md) && k !in ReachableKeys(locate, s.md) ::
      k in s.birth && s.birth[k] >= s.now - age
  }

  /** The keys protected when the sweep starts, unless the reloaded table fails the walk. */
  function Protected(locate: Locator, s: System, loaded: Metadata): set<string> {
    ReachableKeys(locate, loaded)
    + if s.md.location != loaded.location then ReachableKeys(locate, s.md) else {}
  }

  ghost function Step(locate: Locator, age: nat, s: System, a: Action): System {
    match a
    case Tick(elapsed) => s.(now := s.now + elapsed)
    case Put(key) => if key in s.birth then s else s.(birth := s.birth[key := s.now], live := s.live + {key})
    case Commit(md) =>
      if md.location !in s.used && ReferencesYoung(locate, age, s, md)
      then s.(md := md, used := s.used + {md.location}) else s
    case Load =>
      if s.cycle.Idle? && OneBucket(locate, s.md) then s.(cycle := Listing(s.md, s.now - age, [])) else s
    case List(key) =>
      if s.cycle.Listing? && key in s.live && key in s.birth
      then s.(cycle := s.cycle.(listed := s.cycle.listed + [Object(key, s.birth[key])])) else s
    case Reload =>
      if !s.cycle.Listing? then s
      else if s.md.location != s.cycle.loaded.location && !OneBucket(locate, s.md) then s.(cycle := Idle)
      else
        var first := CleanupCandidates(s.cycle.listed, ReachableKeys(locate, s.cycle.loaded), s.cycle.cutoff);
        s.(cycle := Sweeping(s.cycle.cutoff, CleanupCandidates(first, Protected(locate, s, s.cycle.loaded), s.cycle.cutoff)))
    case Delete(n) =>
      if s.cycle.Sweeping? && n < |s.cycle.candidates| then s.(live := s.live - {s.cycle.candidates[n].key}) else s
    case Abort => s.(cycle := Idle)
  }

  ghost function Run(locate: Locator, age: nat, s: System, actions: seq<Action>): System {
    if actions == [] then s else Step(locate, age, Run(locate, age, s, actions[..|actions| - 1]), actions[|actions| - 1])
  }

  // ---- Invariant -----------------------------------------------------------------------------

  ghost predicate ObjectsOk(locate: Locator, age: nat, s: System) {
    && ReachableKeys(locate, s.md) <= s.live <= s.birth.Keys
    && s.md.location in s.used
    && forall k | k in s.birth && k !in s.live :: s.birth[k] < s.now - age
  }

  ghost predicate Listed(s: System, objects: seq<Object>) {
    forall o | o in objects :: o.key in s.birth && s.birth[o.key] == o.modified
  }

  ghost predicate CycleOk(locate: Locator, age: nat, s: System) {
    match s.cycle
    case Idle => true
    case Listing(loaded, cutoff, listed) =>
      && cutoff <= s.now - age
      && Listed(s, listed)
      && loaded.location in s.used
      && (loaded.location == s.md.location ==> loaded == s.md)
    case Sweeping(cutoff, candidates) =>
      && cutoff <= s.now - age
      && Listed(s, candidates)
      && forall o | o in candidates :: o.modified < cutoff && o.key !in ReachableKeys(locate, s.md)
  }

  ghost predicate Invariant(locate: Locator, age: nat, s: System) { ObjectsOk(locate, age, s) && CycleOk(locate, age, s) }

  lemma CandidateElements(objects: seq<Object>, protectedKeys: set<string>, olderThan: int, o: Object)
    ensures o in CleanupCandidates(objects, protectedKeys, olderThan) <==> o in objects && IsCandidate(o, protectedKeys, olderThan)
  {
    Ordering.FilterElements((o: Object) => IsCandidate(o, protectedKeys, olderThan), objects, o);
  }

  /** With the table unmoved, a sweep takes on exactly the listed garbage: unreached table files older than the cutoff. */
  lemma SweepMeans(locate: Locator, age: nat, s: System, o: Object)
    requires s.cycle.Listing? && s.cycle.loaded == s.md
    ensures var next := Step(locate, age, s, Reload);
            && next == s.(cycle := next.cycle) && next.cycle.Sweeping?
            && (o in next.cycle.candidates <==>
                  && o in s.cycle.listed && o.modified < s.cycle.cutoff && !ReachesKey(locate, s.md, o.key)
                  && exists suffix :: suffix in [".metadata.json", ".avro", ".parquet", ".puffin"] && EndsWith(o.key, suffix))
  {
    hide ReachableKeys, OneBucket, CleanupCandidates, ReachesKey;
    var reached := ReachableKeys(locate, s.md);
    ReachableKeysExact(locate, s.md, o.key);
    var first := CleanupCandidates(s.cycle.listed, reached, s.cycle.cutoff);
    CandidatesMean(first, reached, s.cycle.cutoff, o);
    CandidatesMean(s.cycle.listed, reached, s.cycle.cutoff, o);
    assert Protected(locate, s, s.cycle.loaded) == reached;
  }

  lemma ReloadOk(locate: Locator, age: nat, s: System)
    requires Invariant(locate, age, s) && s.cycle.Listing?
    ensures Invariant(locate, age, Step(locate, age, s, Reload))
  {
    hide ReachableKeys, OneBucket, CleanupCandidates;
    var next := Step(locate, age, s, Reload);
    if next.cycle.Sweeping? {
      var first := CleanupCandidates(s.cycle.listed, ReachableKeys(locate, s.cycle.loaded), s.cycle.cutoff);
      forall o | o in next.cycle.candidates
        ensures o in s.cycle.listed && o.modified < s.cycle.cutoff && o.key !in ReachableKeys(locate, s.md)
      {
        CandidateElements(first, Protected(locate, s, s.cycle.loaded), s.cycle.cutoff, o);
        CandidateElements(s.cycle.listed, ReachableKeys(locate, s.cycle.loaded), s.cycle.cutoff, o);
      }
    }
  }

  lemma StepOk(locate: Locator, age: nat, s: System, a: Action)
    requires Invariant(locate, age, s)
    ensures Invariant(locate, age, Step(locate, age, s, a))
  {
    hide ReachableKeys, OneBucket, CleanupCandidates;
    match a
    case Commit(_) =>
    case Reload =>
      if s.cycle.Listing? {
        ReloadOk(locate, age, s);
      }
    case Delete(n) =>
      if s.cycle.Sweeping? && n < |s.cycle.candidates| {
        assert s.cycle.candidates[n] in s.cycle.candidates;
      }
    case _ =>
  }

  lemma {:induction false} RunOk(locate: Locator, age: nat, s: System, actions: seq<Action>)
    requires Invariant(locate, age, s)
    ensures Invariant(locate, age, Run(locate, age, s, actions))
  {
    if actions != [] {
      RunOk(locate, age, s, actions[..|actions| - 1]);
      StepOk(locate, age, Run(locate, age, s, actions[..|actions| - 1]), actions[|actions| - 1]);
    }
  }

  // ---- Safety --------------------------------------------------------------------------------

  /** A table whose reachable objects all exist, before any maintenance. */
  ghost predicate Healthy(locate: Locator, s: System) {
    && s.cycle.Idle? && s.md.location in s.used && s.live == s.birth.Keys
    && forall k | ReachesKey(locate, s.md, k) :: k in s.live
  }

  /**
   Maintenance is safe against concurrent commits: if every object newly referenced by a commit is younger
   than the age floor, then after any interleaving of any number of maintenance cycles every object the
   table reaches still exists.
   */
  lemma ReachableObjectsSurvive(locate: Locator, age: nat, s: System, actions: seq<Action>, key: string)
    requires Healthy(locate, s)
    ensures var r := Run(locate, age, s, actions); ReachesKey(locate, r.md, key) ==> key in r.live
  {
    forall k ensures k in ReachableKeys(locate, s.md) <==> ReachesKey(locate, s.md, k) {
      ReachableKeysExact(locate, s.md, k);
    }
    RunOk(locate, age, s, actions);
    ReachableKeysExact(locate, Run(locate, age, s, actions).md, key);
  }

  /** No deleted object is reachable at the moment it is deleted. */
  lemma DeletionsAreGarbage(locate: Locator, age: nat, s: System, actions: seq<Action>, n: nat)
    requires Healthy(locate, s)
    requires var r := Run(locate, age, s, actions); r.cycle.Sweeping? && n < |r.cycle.candidates|
    ensures var r := Run(locate, age, s, actions); !ReachesKey(locate, r.md, r.cycle.candidates[n].key)
  {
    forall k ensures k in ReachableKeys(locate, s.md) <==> ReachesKey(locate, s.md, k) {
      ReachableKeysExact(locate, s.md, k);
    }
    RunOk(locate, age, s, actions);
    var r := Run(locate, age, s, actions);
    assert r.cycle.candidates[n] in r.cycle.candidates;
    ReachableKeysExact(locate, r.md, r.cycle.candidates[n].key);
  }

  // ---- The age premise is needed -------------------------------------------------------------

  /** As `Step`, but a commit may reference objects of any age. */
  ghost function FreeStep(locate: Locator, age: nat, s: System, a: Action): System {
    match a
    case Commit(md) => if md.location !in s.used then s.(md := md, used := s.used + {md.location}) else s
    case _ => Step(locate, age, s, a)
  }

  ghost function FreeRun(locate: Locator, age: nat, s: System, actions: seq<Action>): System {
    if actions == [] then s else FreeStep(locate, age, FreeRun(locate, age, s, actions[..|actions| - 1]), actions[|actions| - 1])
  }

  lemma FreeSnoc(locate: Locator, age: nat, s: System, actions: seq<Action>, n: nat)
    requires n < |actions|
    ensures FreeRun(locate, age, s, actions[..0]) == s
    ensures FreeRun(locate, age, s, actions[..n + 1]) == FreeStep(locate, age, FreeRun(locate, age, s, actions[..n]), actions[n])
  {
    assert actions[..n + 1][..n] == actions[..n];
  }

  lemma OneCandidate(o: Object, protectedKeys: set<string>, cutoff: int)
    requires IsCandidate(o, protectedKeys, cutoff)
    ensures CleanupCandidates([o], protectedKeys, cutoff) == [o]
  {
    assert CleanupCandidates([o][1..], protectedKeys, cutoff) == [];
  }

  /** One cycle that lists an object, during whose sweep a commit arrives. */
  function LateCommit(key: string, md: Metadata): seq<Action> { [Load, List(key), Reload, Commit(md), Delete(0)] }

  lemma SweepOfOne(locate: Locator, age: nat, s: System, md: Metadata, key: string)
    requires s.cycle.Idle? && OneBucket(locate, s.md) && key in s.live && key in s.birth
    requires IsCandidate(Object(key, s.birth[key]), ReachableKeys(locate, s.md), s.now - age)
    ensures FreeRun(locate, age, s, LateCommit(key, md)[..3])
         == s.(cycle := Sweeping(s.now - age, [Object(key, s.birth[key])]))
  {
    hide FreeRun, OneBucket, CleanupCandidates, ReachableKeys, IsCandidate;
    var actions, o := LateCommit(key, md), Object(key, s.birth[key]);
    FreeSnoc(locate, age, s, actions, 0);
    FreeSnoc(locate, age, s, actions, 1);
    FreeSnoc(locate, age, s, actions, 2);
    OneCandidate(o, ReachableKeys(locate, s.md), s.now - age);
    assert Protected(locate, s, s.md) == ReachableKeys(locate, s.md);
    assert FreeRun(locate, age, s, actions[..2]) == s.(cycle := Listing(s.md, s.now - age, [o]));
  }

  /**
   The premise cannot be weakened: whenever a commit would newly reference a stored table file that is older
   than the age floor, one maintenance cycle around that commit loses the file.
   */
  lemma OldReferenceCanBeLost(locate: Locator, age: nat, s: System, md: Metadata, key: string)
    requires s.cycle.Idle? && OneBucket(locate, s.md) && key in s.live && key in s.birth
    requires TableFile(key) && s.birth[key] < s.now - age && !ReachesKey(locate, s.md, key)
    requires md.location !in s.used && ReachesKey(locate, md, key)
    ensures var r := FreeRun(locate, age, s, LateCommit(key, md)); r.md == md && key !in r.live
  {
    ReachableKeysExact(locate, s.md, key);
    SweepOfOne(locate, age, s, md, key);
    hide FreeRun, OneBucket, ReachableKeys, ReachesKey;
    var actions := LateCommit(key, md);
    FreeSnoc(locate, age, s, actions, 3);
    FreeSnoc(locate, age, s, actions, 4);
    assert actions[..5] == actions;
  }

  // A table of one bucket, whose paths are their own keys.

  function InBucket(path: string): Option<Location> { Some(Location("bucket", path)) }

  const FIRST := "t0.metadata.json"
  const SECOND := "t1.metadata.json"
  const MANIFEST := "m.avro"
  const FILE := "f.parquet"

  function Bare(): Metadata { Metadata(FIRST, [], [], [], [], {}) }

  function Referencing(): Metadata {
    Metadata(SECOND, [], [Snapshot(1, 0, "", [Manifest(MANIFEST, [FILE])])], [], [], {})
  }

  /** An empty table, before anything else was put. */
  function Fresh(): System { System(map[FIRST := 0], {FIRST}, Bare(), {FIRST}, 0, Idle) }

  /** A data file grows old unreferenced; then the files of a commit that references it are written. */
  function Aging(age: nat): seq<Action> { [Put(FILE), Tick(age + 1), Put(MANIFEST), Put(SECOND)] }

  lemma BareTable()
    ensures OneBucket(InBucket, Bare()) && Healthy(InBucket, Fresh())
    ensures forall k :: ReachesKey(InBucket, Bare(), k) <==> k == FIRST
  {
    assert EndsWith(FIRST, ".metadata.json");
    forall k ensures ReachesKey(InBucket, Bare(), k) <==> k == FIRST {
      assert Reaches(Bare(), FIRST);
    }
  }

  lemma FileReached()
    ensures ReachesKey(InBucket, Referencing(), FILE)
  {
    var s := Referencing().snapshots[0];
    assert s in Referencing().snapshots && s.manifests[0] in s.manifests && s.manifests[0].files[0] == FILE;
    assert FILE != "" && InSnapshot(s, FILE);
    assert Mentions(Referencing(), FILE) && Reaches(Referencing(), FILE);
  }

  lemma FileAged(age: nat)
    ensures var s := FreeRun(InBucket, age, Fresh(), Aging(age));
            && s.cycle.Idle? && s.md == Bare() && s.used == {FIRST} && s.now == age + 1
            && FILE in s.live && FILE in s.birth && s.birth[FILE] == 0
  {
    hide FreeRun;
    var actions := Aging(age);
    assert FILE[0] != FIRST[0] && FILE[0] != SECOND[0] && FILE[0] != MANIFEST[0];
    FreeSnoc(InBucket, age, Fresh(), actions, 0);
    FreeSnoc(InBucket, age, Fresh(), actions, 1);
    FreeSnoc(InBucket, age, Fresh(), actions, 2);
    FreeSnoc(InBucket, age, Fresh(), actions, 3);
    assert actions[..4] == actions;
  }

  /**
   Whatever the age floor, without the premise on commits a healthy table can lose an object that it reaches:
   a file that was old and unreferenced when the sweep began is committed during the sweep and then deleted.
   */
  lemma OldReferenceIsLost(age: nat)
    ensures Healthy(InBucket, Fresh())
    ensures var r := FreeRun(InBucket, age, FreeRun(InBucket, age, Fresh(), Aging(age)), LateCommit(FILE, Referencing()));
            ReachesKey(InBucket, r.md, FILE) && FILE !in r.live
  {
    BareTable();
    FileReached();
    FileAged(age);
    hide FreeRun, ReachesKey, Healthy, OneBucket;
    assert EndsWith(FILE, ".parquet") && FILE[0] != FIRST[0] && FIRST[1] != SECOND[1];
    OldReferenceCanBeLost(InBucket, age, FreeRun(InBucket, age, Fresh(), Aging(age)), Referencing(), FILE);
  }
}
