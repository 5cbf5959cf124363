/** What a table still references, what may expire, and what is garbage (processor/iceberg_maintenance.py). */
module TableReachability {
  import opened Outcomes

  datatype Location = Location(bucket: string, key: string)
  datatype Manifest = Manifest(path: string, files: seq<string>)
  datatype Snapshot = Snapshot(id: int, timestamp: int, manifestList: string, manifests: seq<Manifest>)

  /** One metadata file; an absent path is the empty string. */
  datatype Metadata = Metadata(
    location: string, log: seq<string>, snapshots: seq<Snapshot>, statistics: seq<string>,
    partitionStatistics: seq<string>, refs: set<int>)

  datatype Object = Object(key: string, modified: int)

  /** `locate` parses an object-store URL, and fails on anything else. */
  type Locator = string -> Option<Location>

  // ---- The full reachable set ----------------------------------------------------------------

  ghost predicate InSnapshot(s: Snapshot, path: string) {
    || path == s.manifestList
    || exists m | m in s.manifests :: path == m.path || (m.path != "" && path in m.files)
  }

  /** Every path a retained snapshot or a statistics file of the table mentions. */
  ghost predicate Mentions(md: Metadata, path: string) {
    && path != ""
    && (|| path in md.statistics
        || path in md.partitionStatistics
        || exists s | s in md.snapshots :: InSnapshot(s, path))
  }

  ghost predicate IsMetadataFile(md: Metadata, path: string) { path == md.location || path in md.log }

  ghost predicate Reaches(md: Metadata, path: string) { IsMetadataFile(md, path) || Mentions(md, path) }

  predicate EndsWith(s: string, suffix: string) { |suffix| <= |s| && s[|s| - |suffix|..] == suffix }

  /** The path names an object of the bucket. */
  predicate Inside(locate: Locator, bucket: string, path: string) {
    locate(path).Some? && locate(path).value.bucket == bucket
  }

  predicate MetadataInside(locate: Locator, bucket: string, path: string) {
    Inside(locate, bucket, path) && EndsWith(locate(path).value.key, ".metadata.json")
  }

  /** The walk succeeds exactly on tables whose reachable objects all lie in the current metadata's bucket. */
  ghost predicate OneBucket(locate: Locator, md: Metadata) {
    && locate(md.location).Some?
    && var bucket := locate(md.location).value.bucket;
       && (forall p | IsMetadataFile(md, p) :: MetadataInside(locate, bucket, p))
       && (forall p | Mentions(md, p) :: Inside(locate, bucket, p))
  }

  ghost predicate ReachesKey(locate: Locator, md: Metadata, key: string) {
    exists p :: Reaches(md, p) && locate(p).Some? && locate(p).value.key == key
  }

  /** A path determines the manifest stored there. */
  ghost predicate ManifestsWriteOnce(md: Metadata) {
    forall s, t, m, n | s in md.snapshots && t in md.snapshots && m in s.manifests && n in t.manifests && m.path == n.path ::
      m.path != "" ==> m == n
  }

  // ---- The walk ------------------------------------------------------------------------------

  datatype Walk = Failed | Walked(bucket: string, keys: set<string>)

  /** `seen` is the set of paths examined so far: all inside the bucket, and exactly their keys protected. */
  ghost predicate Collected(locate: Locator, bucket: string, keys: set<string>, seen: set<string>) {
    && (forall p | p in seen :: Inside(locate, bucket, p))
    && (forall k | k in keys :: exists p :: p in seen && locate(p).Some? && locate(p).value.key == k)
    && (forall p | p in seen && locate(p).Some? :: locate(p).value.key in keys)
  }

  function Paths(paths: seq<string>): set<string> { set p | p in paths && p != "" }

  /** A manifest without a path is never opened. */
  function ManifestPaths(m: Manifest): set<string> {
    Paths([m.path]) + if m.path == "" then {} else Paths(m.files)
  }

  function ManifestsPaths(manifests: seq<Manifest>, n: nat): set<string>
    requires n <= |manifests|
  {
    if n == 0 then {} else ManifestsPaths(manifests, n - 1) + ManifestPaths(manifests[n - 1])
  }

  function SnapshotPaths(s: Snapshot): set<string> {
    Paths([s.manifestList]) + ManifestsPaths(s.manifests, |s.manifests|)
  }

  function SnapshotsPaths(snapshots: seq<Snapshot>, n: nat): set<string>
    requires n <= |snapshots|
  {
    if n == 0 then {} else SnapshotsPaths(snapshots, n - 1) + SnapshotPaths(snapshots[n - 1])
  }

  /** `_add_protected_location` over a list of paths; absent ones are passed over. */
  method AddAll(locate: Locator, bucket: string, keys: set<string>, paths: seq<string>, ghost seen: set<string>)
    returns (ok: bool, more: set<string>)
    requires Collected(locate, bucket, keys, seen)
    ensures ok <==> forall p | p in Paths(paths) :: Inside(locate, bucket, p)
    ensures ok ==> Collected(locate, bucket, more, seen + Paths(paths))
  {
    more := keys;
    assert seen + Paths(paths[..0]) == seen;
    for n := 0 to |paths|
      invariant forall p | p in Paths(paths[..n]) :: Inside(locate, bucket, p)
      invariant Collected(locate, bucket, more, seen + Paths(paths[..n]))
    {
      var path := paths[n];
      assert paths[..n + 1] == paths[..n] + [path];
      if path != "" {
        if !Inside(locate, bucket, path) {
          assert path in Paths(paths);
          return false, more;
        }
        more := more + {locate(path).value.key};
        assert seen + Paths(paths[..n]) + {path} == seen + Paths(paths[..n + 1]);
      }
    }
    assert paths[..|paths|] == paths;
    ok := true;
  }

  // ---- The sets above are the reachable paths --------------------------------------------------

  lemma {:induction false} ManifestsPathsExact(manifests: seq<Manifest>, n: nat, path: string)
    requires n <= |manifests|
    ensures path in ManifestsPaths(manifests, n) <==>
              path != "" && exists i | 0 <= i < n :: path == manifests[i].path || (manifests[i].path != "" && path in manifests[i].files)
  {
    if n != 0 {
      ManifestsPathsExact(manifests, n - 1, path);
    }
  }

  lemma SnapshotPathsExact(s: Snapshot, path: string)
    ensures path in SnapshotPaths(s) <==> path != "" && InSnapshot(s, path)
  {
    ManifestsPathsExact(s.manifests, |s.manifests|, path);
    if path in ManifestsPaths(s.manifests, |s.manifests|) {
      var i :| 0 <= i < |s.manifests| && (path == s.manifests[i].path || (s.manifests[i].path != "" && path in s.manifests[i].files));
      assert s.manifests[i] in s.manifests;
    }
  }

  lemma {:induction false} SnapshotsPathsExact(snapshots: seq<Snapshot>, n: nat, path: string)
    requires n <= |snapshots|
    ensures path in SnapshotsPaths(snapshots, n) <==> path != "" && exists i | 0 <= i < n :: InSnapshot(snapshots[i], path)
  {
    if n != 0 {
      SnapshotsPathsExact(snapshots, n - 1, path);
      SnapshotPathsExact(snapshots[n - 1], path);
    }
  }

  function MentionedPaths(md: Metadata): set<string> {
    SnapshotsPaths(md.snapshots, |md.snapshots|) + Paths(md.statistics) + Paths(md.partitionStatistics)
  }

  lemma MentionedExact(md: Metadata, path: string)
    ensures path in MentionedPaths(md) <==> Mentions(md, path)
  {
    SnapshotsPathsExact(md.snapshots, |md.snapshots|, path);
    if path in SnapshotsPaths(md.snapshots, |md.snapshots|) {
      var i :| 0 <= i < |md.snapshots| && InSnapshot(md.snapshots[i], path);
      assert md.snapshots[i] in md.snapshots;
    }
  }

  // ---- The walk's methods ----------------------------------------------------------------------

  /** The visited set: manifests of earlier snapshots, and earlier manifests of this one. */
  ghost predicate Visited(md: Metadata, visited: set<string>, seen: set<string>) {
    forall path | path in visited ::
      && path != ""
      && exists s, m :: s in md.snapshots && m in s.manifests && m.path == path && forall f | f in m.files && f != "" :: f in seen
  }

  lemma VisitedGrows(md: Metadata, visited: set<string>, seen: set<string>, later: set<string>)
    requires Visited(md, visited, seen) && seen <= later
    ensures Visited(md, visited, later)
  {
    forall path | path in visited
      ensures exists s, m :: s in md.snapshots && m in s.manifests && m.path == path && forall f | f in m.files && f != "" :: f in later
    {
      var s, m :| s in md.snapshots && m in s.manifests && m.path == path && forall f | f in m.files && f != "" :: f in seen;
      assert s in md.snapshots && m in s.manifests && m.path == path && forall f | f in m.files && f != "" :: f in later;
    }
  }

  /** A visited manifest has nothing left to add. */
  lemma VisitedManifestIsSeen(md: Metadata, visited: set<string>, seen: set<string>, s: Snapshot, m: Manifest)
    requires ManifestsWriteOnce(md) && Visited(md, visited, seen)
    requires s in md.snapshots && m in s.manifests && m.path in visited
    ensures forall f | f in m.files && f != "" :: f in seen
  {
    var t, n :| t in md.snapshots && n in t.manifests && n.path == m.path && forall f | f in n.files && f != "" :: f in seen;
    assert m == n;
  }

  lemma NothingNew(md: Metadata, visited: set<string>, seen: set<string>, s: Snapshot, m: Manifest)
    requires ManifestsWriteOnce(md) && Visited(md, visited, seen)
    requires s in md.snapshots && m in s.manifests && (m.path == "" || m.path in visited)
    ensures seen + ManifestPaths(m) == seen + Paths([m.path])
  {
    if m.path != "" {
      VisitedManifestIsSeen(md, visited, seen, s, m);
    }
  }

  lemma VisitOne(md: Metadata, visited: set<string>, seen: set<string>, s: Snapshot, m: Manifest)
    requires Visited(md, visited, seen) && s in md.snapshots && m in s.manifests && m.path != ""
    requires Paths(m.files) <= seen
    ensures Visited(md, visited + {m.path}, seen)
  {
    forall f | f in m.files && f != "" ensures f in seen {
      assert f in Paths(m.files);
    }
  }

  lemma UnionAssociates(a: set<string>, b: set<string>, c: set<string>)
    ensures (a + b) + c == a + (b + c)
  {
  }

  ghost predicate SomeOutside(locate: Locator, bucket: string, paths: set<string>) {
    exists p :: p in paths && !Inside(locate, bucket, p)
  }

  /** One manifest: its own path, and its files unless the path is absent or was visited before. */
  method WalkManifest(
    locate: Locator, bucket: string, md: Metadata, s: Snapshot, m: Manifest, keys: set<string>, visited: set<string>,
    ghost seen: set<string>)
    returns (ok: bool, keys': set<string>, visited': set<string>)
    requires Collected(locate, bucket, keys, seen) && Visited(md, visited, seen)
    requires ManifestsWriteOnce(md) && s in md.snapshots && m in s.manifests
    ensures ok ==> Collected(locate, bucket, keys', seen + ManifestPaths(m)) && Visited(md, visited', seen + ManifestPaths(m))
    ensures !ok ==> SomeOutside(locate, bucket, ManifestPaths(m))
  {
    hide Collected, Visited, ManifestsWriteOnce, Paths;
    visited' := visited;
    ok, keys' := AddAll(locate, bucket, keys, [m.path], seen);
    if !ok {
      return;
    }
    ghost var own := seen + Paths([m.path]);
    VisitedGrows(md, visited, seen, own);
    if m.path == "" || m.path in visited {
      NothingNew(md, visited, seen, s, m);
      return;
    }
    ok, keys' := AddAll(locate, bucket, keys', m.files, own);
    if !ok {
      return;
    }
    UnionAssociates(seen, Paths([m.path]), Paths(m.files));
    VisitedGrows(md, visited, own, seen + ManifestPaths(m));
    VisitOne(md, visited, seen + ManifestPaths(m), s, m);
    visited' := visited + {m.path};
  }

  method WalkSnapshot(
    locate: Locator, bucket: string, md: Metadata, s: Snapshot, keys: set<string>, visited: set<string>,
    ghost seen: set<string>)
    returns (ok: bool, keys': set<string>, visited': set<string>)
    requires Collected(locate, bucket, keys, seen) && Visited(md, visited, seen)
    requires ManifestsWriteOnce(md) && s in md.snapshots
    ensures ok ==> Collected(locate, bucket, keys', seen + SnapshotPaths(s)) && Visited(md, visited', seen + SnapshotPaths(s))
    ensures !ok ==> SomeOutside(locate, bucket, SnapshotPaths(s))
  {
    hide Collected, Visited, ManifestsWriteOnce, Paths, ManifestPaths;
    visited' := visited;
    ok, keys' := AddAll(locate, bucket, keys, [s.manifestList], seen);
    if !ok {
      return;
    }
    ghost var listed := seen + Paths([s.manifestList]);
    VisitedGrows(md, visited, seen, listed);
    assert listed + ManifestsPaths(s.manifests, 0) == listed;
    for n := 0 to |s.manifests|
      invariant Collected(locate, bucket, keys', listed + ManifestsPaths(s.manifests, n))
      invariant Visited(md, visited', listed + ManifestsPaths(s.manifests, n))
    {
      ghost var before := listed + ManifestsPaths(s.manifests, n);
      ok, keys', visited' := WalkManifest(locate, bucket, md, s, s.manifests[n], keys', visited', before);
      UnionAssociates(listed, ManifestsPaths(s.manifests, n), ManifestPaths(s.manifests[n]));
      if !ok {
        ManifestInside(s.manifests, n);
        return;
      }
    }
    UnionAssociates(seen, Paths([s.manifestList]), ManifestsPaths(s.manifests, |s.manifests|));
    ok := true;
  }

  lemma {:induction false} ManifestInside(manifests: seq<Manifest>, k: nat)
    requires k < |manifests|
    ensures ManifestPaths(manifests[k]) <= ManifestsPaths(manifests, |manifests|)
  {
    ManifestsMonotone(manifests, k + 1, |manifests|);
  }

  lemma {:induction false} ManifestsMonotone(manifests: seq<Manifest>, k: nat, n: nat)
    requires k <= n <= |manifests|
    ensures ManifestsPaths(manifests, k) <= ManifestsPaths(manifests, n)
  {
    if k < n {
      ManifestsMonotone(manifests, k, n - 1);
    }
  }

  lemma {:induction false} SnapshotsMonotone(snapshots: seq<Snapshot>, k: nat, n: nat)
    requires k <= n <= |snapshots|
    ensures SnapshotsPaths(snapshots, k) <= SnapshotsPaths(snapshots, n)
  {
    if k < n {
      SnapshotsMonotone(snapshots, k, n - 1);
    }
  }

  function MetadataFiles(md: Metadata): set<string> { {md.location} + set p | p in md.log }

  /** The current metadata file and the logged ones. */
  method ProtectedMetadata(locate: Locator, md: Metadata) returns (r: Walk)
    ensures r.Walked? <==>
              locate(md.location).Some?
              && forall p | IsMetadataFile(md, p) :: MetadataInside(locate, locate(md.location).value.bucket, p)
    ensures r.Walked? ==> r.bucket == locate(md.location).value.bucket && Collected(locate, r.bucket, r.keys, MetadataFiles(md))
  {
    if locate(md.location).None? || !EndsWith(locate(md.location).value.key, ".metadata.json") {
      assert IsMetadataFile(md, md.location);
      return Failed;
    }
    var bucket := locate(md.location).value.bucket;
    var keys := {locate(md.location).value.key};
    ghost var seen := {md.location};
    for n := 0 to |md.log|
      invariant forall p | p in md.log[..n] :: MetadataInside(locate, bucket, p)
      invariant seen == {md.location} + set p | p in md.log[..n]
      invariant Collected(locate, bucket, keys, seen)
    {
      assert md.log[..n + 1] == md.log[..n] + [md.log[n]];
      if !MetadataInside(locate, bucket, md.log[n]) {
        assert IsMetadataFile(md, md.log[n]);
        return Failed;
      }
      keys := keys + {locate(md.log[n]).value.key};
      seen := seen + {md.log[n]};
    }
    assert md.log[..|md.log|] == md.log;
    r := Walked(bucket, keys);
  }

  /** The snapshots and both statistics lists, on top of the metadata files. */
  method WalkMentions(locate: Locator, bucket: string, md: Metadata, keys: set<string>)
    returns (ok: bool, keys': set<string>)
    requires ManifestsWriteOnce(md) && Collected(locate, bucket, keys, MetadataFiles(md))
    ensures ok ==> Collected(locate, bucket, keys', MetadataFiles(md) + MentionedPaths(md))
    ensures !ok ==> SomeOutside(locate, bucket, MentionedPaths(md))
  {
    hide Collected, ManifestsWriteOnce, Paths, SnapshotPaths, MetadataFiles;
    ghost var files := MetadataFiles(md);
    var visited: set<string> := {};
    keys' := keys;
    assert files + SnapshotsPaths(md.snapshots, 0) == files;
    for n := 0 to |md.snapshots|
      invariant Collected(locate, bucket, keys', files + SnapshotsPaths(md.snapshots, n))
      invariant Visited(md, visited, files + SnapshotsPaths(md.snapshots, n))
    {
      hide Visited;
      ghost var before := files + SnapshotsPaths(md.snapshots, n);
      ok, keys', visited := WalkSnapshot(locate, bucket, md, md.snapshots[n], keys', visited, before);
      UnionAssociates(files, SnapshotsPaths(md.snapshots, n), SnapshotPaths(md.snapshots[n]));
      if !ok {
        SnapshotsMonotone(md.snapshots, n + 1, |md.snapshots|);
        return;
      }
    }
    ghost var walked := files + SnapshotsPaths(md.snapshots, |md.snapshots|);
    ok, keys' := AddAll(locate, bucket, keys', md.statistics, walked);
    if !ok {
      return;
    }
    ok, keys' := AddAll(locate, bucket, keys', md.partitionStatistics, walked + Paths(md.statistics));
    UnionAssociates(files, SnapshotsPaths(md.snapshots, |md.snapshots|), Paths(md.statistics));
    UnionAssociates(files, SnapshotsPaths(md.snapshots, |md.snapshots|) + Paths(md.statistics), Paths(md.partitionStatistics));
  }

  lemma CollectedIsReachable(locate: Locator, bucket: string, md: Metadata, keys: set<string>)
    requires Collected(locate, bucket, keys, MetadataFiles(md) + MentionedPaths(md))
    ensures forall p | Mentions(md, p) :: Inside(locate, bucket, p)
    ensures forall k :: k in keys <==> ReachesKey(locate, md, k)
  {
    var all := MetadataFiles(md) + MentionedPaths(md);
    forall p ensures p in all <==> Reaches(md, p) {
      MentionedExact(md, p);
    }
    forall k ensures k in keys <==> ReachesKey(locate, md, k) {
      if k in keys {
        var p :| p in all && locate(p).Some? && locate(p).value.key == k;
        assert Reaches(md, p);
      }
    }
  }

  /**
   The walk over every retained snapshot, reading each manifest once. It succeeds exactly when everything
   reachable lies in one bucket, and then protects exactly the keys of everything reachable.
   */
  method ProtectedTableObjects(locate: Locator, md: Metadata) returns (r: Walk)
    requires ManifestsWriteOnce(md)
    ensures r.Walked? <==> OneBucket(locate, md)
    ensures r.Walked? ==> r.bucket == locate(md.location).value.bucket
    ensures r.Walked? ==> forall k :: k in r.keys <==> ReachesKey(locate, md, k)
  {
    hide Collected, MetadataInside, Inside, Mentions, IsMetadataFile, ReachesKey, MentionedPaths;
    r := ProtectedMetadata(locate, md);
    if r.Failed? {
      return;
    }
    var bucket := r.bucket;
    var ok, keys := WalkMentions(locate, bucket, md, r.keys);
    if !ok {
      ghost var p :| p in MentionedPaths(md) && !Inside(locate, bucket, p);
      MentionedExact(md, p);
      return Failed;
    }
    CollectedIsReachable(locate, bucket, md, keys);
    r := Walked(bucket, keys);
  }
}
