/** The banded MinHash near-duplicate index (processor/operators/lshbloom.py). */
module NearDuplicateIndex {
  import opened Outcomes

  // The Bloom bitmaps are provenance only and are never consulted, so the state is the cluster-key rows, the
  // anchor rows, the anchor signatures and the cluster counter.

  const NUM_PERMS := 112
  const NUM_BANDS := 28
  const ROWS_PER_BAND := 4

  /** A MinHash digest: one 32-bit value per permutation. */
  type Signature = s: seq<int> | |s| == NUM_PERMS witness seq(NUM_PERMS, _ => 0)

  datatype BandKey = BandKey(band: nat, digest: string)
  datatype ClusterId = ClusterId(counter: nat, suffix: string)
  datatype NearDup = NearDup(duplicate: bool, cluster: Option<ClusterId>)
  datatype Observation = Observation(docId: string, signature: Signature)

  /** The hash of a band's bytes and the similarity threshold are fixed at construction. */
  datatype Config = Config(digest: seq<int> -> string, threshold: real)

  datatype Index = Index(
    buckets: map<BandKey, ClusterId>,
    anchors: map<ClusterId, string>,
    signatures: map<ClusterId, seq<int>>,
    counter: nat)

  /** The counter is ahead of every identifier in use, so a minted identifier is fresh. */
  ghost predicate Valid(index: Index) {
    && (forall k | k in index.buckets :: index.buckets[k].counter <= index.counter)
    && (forall id | id in index.anchors :: id.counter <= index.counter)
    && (forall id | id in index.signatures :: id.counter <= index.counter)
  }

  // ---- Probing -------------------------------------------------------------------------------

  function BandKeys(cfg: Config, sig: Signature): (keys: seq<BandKey>)
    ensures |keys| == NUM_BANDS
  {
    seq(NUM_BANDS, (i: nat) requires i < NUM_BANDS =>
      BandKey(i, cfg.digest(sig[i * ROWS_PER_BAND..(i + 1) * ROWS_PER_BAND])))
  }

  function Matches(left: seq<int>, right: seq<int>): nat
    requires |left| == |right|
  {
    if left == [] then 0
    else (if left[0] == right[0] then 1 else 0) + Matches(left[1..], right[1..])
  }

  function Similarity(left: seq<int>, right: seq<int>): real {
    if |left| != |right| || left == [] then 0.0
    else Matches(left, right) as real / |left| as real
  }

  /** What one candidate cluster decides: its own anchor, a similar anchor, or nothing. */
  function Judge(cfg: Config, index: Index, docId: string, sig: Signature, id: ClusterId): Option<NearDup> {
    if id in index.anchors && index.anchors[id] == docId then Some(NearDup(false, Some(id)))
    else if id in index.signatures && Similarity(sig, index.signatures[id]) >= cfg.threshold then
      Some(NearDup(true, Some(id)))
    else None
  }

  /** The verdict of the first occupied bucket, in band order, whose cluster decides. */
  function Scan(cfg: Config, index: Index, docId: string, sig: Signature, keys: seq<BandKey>): Option<NearDup> {
    if keys == [] then None
    else
      var here := if keys[0] in index.buckets
                  then Judge(cfg, index, docId, sig, index.buckets[keys[0]]) else None;
      if here.Some? then here else Scan(cfg, index, docId, sig, keys[1..])
  }

  function Verdict(cfg: Config, index: Index, docId: string, sig: Signature): NearDup {
    Scan(cfg, index, docId, sig, BandKeys(cfg, sig)).GetOr(NearDup(false, None))
  }

  // ---- Observing -----------------------------------------------------------------------------

  /** Python's `doc_id[7:15]`. */
  function Suffix(docId: string): string {
    if |docId| <= 7 then "" else if |docId| <= 15 then docId[7..] else docId[7..15]
  }

  function Claim(keys: seq<BandKey>, id: ClusterId): map<BandKey, ClusterId> {
    map k | k in keys :: id
  }

  /** A new anchor takes every bucket of its signature that is still empty. */
  function Register(cfg: Config, index: Index, docId: string, sig: Signature): Index {
    var id := ClusterId(index.counter + 1, Suffix(docId));
    Index(Claim(BandKeys(cfg, sig), id) + index.buckets,
          index.anchors[id := docId],
          index.signatures[id := sig],
          index.counter + 1)
  }

  function Observed(cfg: Config, index: Index, docId: string, sig: Signature): (NearDup, Index) {
    var existing := Scan(cfg, index, docId, sig, BandKeys(cfg, sig));
    if existing.Some? then (existing.value, index)
    else (NearDup(false, Some(ClusterId(index.counter + 1, Suffix(docId)))), Register(cfg, index, docId, sig))
  }

  function ObserveAll(cfg: Config, index: Index, seen: seq<Observation>): Index
    decreases |seen|
  {
    if seen == [] then index
    else ObserveAll(cfg, Observed(cfg, index, seen[0].docId, seen[0].signature).1, seen[1..])
  }

  // ---- What observation keeps ----------------------------------------------------------------

  lemma ObserveValid(cfg: Config, index: Index, docId: string, sig: Signature)
    requires Valid(index)
    ensures Valid(Observed(cfg, index, docId, sig).1)
  {
  }

  /** The speculative probe and the authoritative observation at one index agree. */
  lemma ProbeIsObserveVerdict(cfg: Config, index: Index, docId: string, sig: Signature)
    ensures Verdict(cfg, index, docId, sig).duplicate == Observed(cfg, index, docId, sig).0.duplicate
  {
  }

  lemma {:induction false} ScanAfterForeignRegister(
    cfg: Config, index: Index, docId: string, sig: Signature, keys: seq<BandKey>, other: string, otherSig: Signature)
    requires Valid(index) && other != docId
    requires Scan(cfg, index, docId, sig, keys).Some? && Scan(cfg, index, docId, sig, keys).value.duplicate
    ensures var later := Scan(cfg, Register(cfg, index, other, otherSig), docId, sig, keys);
            later.Some? && later.value.duplicate
  {
    var next := Register(cfg, index, other, otherSig);
    if keys[0] in index.buckets {
      assert next.buckets[keys[0]] == index.buckets[keys[0]];
    }
    if !(keys[0] in index.buckets && Judge(cfg, index, docId, sig, index.buckets[keys[0]]).Some?) {
      ScanAfterForeignRegister(cfg, index, docId, sig, keys[1..], other, otherSig);
    }
  }

  /** A near-duplicate verdict survives any observations of other documents. */
  lemma {:induction false} DuplicateIsMonotone(
    cfg: Config, index: Index, docId: string, sig: Signature, seen: seq<Observation>)
    requires Valid(index) && Verdict(cfg, index, docId, sig).duplicate
    requires forall o | o in seen :: o.docId != docId
    ensures Verdict(cfg, ObserveAll(cfg, index, seen), docId, sig).duplicate
    decreases |seen|
  {
    if seen != [] {
      var o := seen[0];
      ObserveValid(cfg, index, o.docId, o.signature);
      if Scan(cfg, index, o.docId, o.signature, BandKeys(cfg, o.signature)).None? {
        ScanAfterForeignRegister(cfg, index, docId, sig, BandKeys(cfg, sig), o.docId, o.signature);
      }
      DuplicateIsMonotone(cfg, Observed(cfg, index, o.docId, o.signature).1, docId, sig, seen[1..]);
    }
  }

  lemma {:induction false} SelfMatches(s: seq<int>)
    ensures Matches(s, s) == |s|
  {
    if s != [] {
      SelfMatches(s[1..]);
    }
  }

  /** A document whose signature claimed its first bucket makes every exact copy of it a near duplicate. */
  lemma CopyIsDuplicate(cfg: Config, index: Index, docId: string, copy: string, sig: Signature)
    requires docId != copy && cfg.threshold <= 1.0
    requires Verdict(cfg, index, docId, sig) == NearDup(false, None) && BandKeys(cfg, sig)[0] !in index.buckets
    ensures Verdict(cfg, Observed(cfg, index, docId, sig).1, copy, sig).duplicate
  {
    hide BandKeys, Matches;
    var keys, id := BandKeys(cfg, sig), ClusterId(index.counter + 1, Suffix(docId));
    var next := Register(cfg, index, docId, sig);
    ScanNone(cfg, index, docId, sig, keys);
    hide Scan;
    assert Observed(cfg, index, docId, sig).1 == next;
    SelfMatches(sig);
    assert keys[0] in keys && next.buckets[keys[0]] == id;
    FirstDecides(cfg, next, copy, sig, keys);
  }

  lemma FirstDecides(cfg: Config, index: Index, docId: string, sig: Signature, keys: seq<BandKey>)
    requires keys != [] && keys[0] in index.buckets && Judge(cfg, index, docId, sig, index.buckets[keys[0]]).Some?
    ensures Scan(cfg, index, docId, sig, keys) == Judge(cfg, index, docId, sig, index.buckets[keys[0]])
  {
  }

  lemma {:induction false} ScanNone(cfg: Config, index: Index, docId: string, sig: Signature, keys: seq<BandKey>)
    ensures var r := Scan(cfg, index, docId, sig, keys); r.Some? ==> r.value.cluster.Some?
  {
    if keys != [] {
      ScanNone(cfg, index, docId, sig, keys[1..]);
    }
  }

  // ---- Replay --------------------------------------------------------------------------------

  ghost predicate Occupied(index: Index, keys: seq<BandKey>) {
    forall k | k in keys :: k in index.buckets
  }

  lemma {:induction false} ScanFrozen(
    cfg: Config, index: Index, docId: string, sig: Signature, keys: seq<BandKey>, o: Observation)
    requires Valid(index) && Occupied(index, keys)
    ensures Scan(cfg, Register(cfg, index, o.docId, o.signature), docId, sig, keys)
         == Scan(cfg, index, docId, sig, keys)
  {
    if keys != [] {
      assert keys[0] in keys;
      ScanFrozen(cfg, index, docId, sig, keys[1..], o);
    }
  }

  /** Once every bucket of a signature is occupied, nothing observed later can change its verdict. */
  lemma {:induction false} ProbeFrozen(cfg: Config, index: Index, docId: string, sig: Signature, seen: seq<Observation>)
    requires Valid(index) && Occupied(index, BandKeys(cfg, sig))
    ensures Verdict(cfg, ObserveAll(cfg, index, seen), docId, sig) == Verdict(cfg, index, docId, sig)
    decreases |seen|
  {
    if seen != [] {
      var o := seen[0];
      ObserveValid(cfg, index, o.docId, o.signature);
      ScanFrozen(cfg, index, docId, sig, BandKeys(cfg, sig), o);
      ProbeFrozen(cfg, Observed(cfg, index, o.docId, o.signature).1, docId, sig, seen[1..]);
    }
  }

  lemma {:induction false} UnanchoredScan(
    cfg: Config, index: Index, docId: string, sig: Signature, keys: seq<BandKey>)
    requires docId !in index.anchors.Values
    ensures var r := Scan(cfg, index, docId, sig, keys); r.Some? ==> r.value.duplicate
  {
    if keys != [] {
      UnanchoredScan(cfg, index, docId, sig, keys[1..]);
    }
  }

  lemma {:induction false} ScanAfterOwnRegister(
    cfg: Config, index: Index, docId: string, sig: Signature, keys: seq<BandKey>)
    requires Valid(index) && Scan(cfg, index, docId, sig, keys).None?
    requires forall k | k in keys :: k in BandKeys(cfg, sig)
    ensures var r := Scan(cfg, Register(cfg, index, docId, sig), docId, sig, keys);
            r.Some? ==> !r.value.duplicate
  {
    if keys != [] {
      assert keys[0] in keys;
      ScanAfterOwnRegister(cfg, index, docId, sig, keys[1..]);
    }
  }

  lemma {:induction false} DuplicateReplays(
    cfg: Config, index: Index, docId: string, sig: Signature, seen: seq<Observation>)
    requires Valid(index) && Verdict(cfg, index, docId, sig).duplicate
    requires forall o | o in seen && o.docId == docId :: o.signature == sig
    ensures Verdict(cfg, ObserveAll(cfg, index, seen), docId, sig).duplicate
    decreases |seen|
  {
    if seen != [] {
      var o := seen[0];
      ObserveValid(cfg, index, o.docId, o.signature);
      if o.docId != docId {
        assert ObserveAll(cfg, index, [o]) == Observed(cfg, index, o.docId, o.signature).1 by {
          assert [o][1..] == [];
        }
        DuplicateIsMonotone(cfg, index, docId, sig, [o]);
      }
      DuplicateReplays(cfg, Observed(cfg, index, o.docId, o.signature).1, docId, sig, seen[1..]);
    }
  }

  /**
   Replay is deterministic: when a document was not an anchor before, observing it again after any
   further observations, of other documents or of the same content, repeats the first verdict.
   */
  lemma ReplayKeepsVerdict(cfg: Config, index: Index, docId: string, sig: Signature, later: seq<Observation>)
    requires Valid(index) && docId !in index.anchors.Values
    requires forall o | o in later && o.docId == docId :: o.signature == sig
    ensures var first := Observed(cfg, index, docId, sig);
            Observed(cfg, ObserveAll(cfg, first.1, later), docId, sig).0.duplicate == first.0.duplicate
  {
    var first := Observed(cfg, index, docId, sig);
    var keys := BandKeys(cfg, sig);
    ObserveValid(cfg, index, docId, sig);
    ProbeIsObserveVerdict(cfg, ObserveAll(cfg, first.1, later), docId, sig);
    UnanchoredScan(cfg, index, docId, sig, keys);
    if Scan(cfg, index, docId, sig, keys).Some? {
      DuplicateReplays(cfg, index, docId, sig, later);
    } else {
      ScanAfterOwnRegister(cfg, index, docId, sig, keys);
      ProbeFrozen(cfg, first.1, docId, sig, later);
    }
  }

  // ---- The stored index ----------------------------------------------------------------------

  /** The mutable index: `probe` reads it, `observe` writes one document's rows in one transaction. */
  class LshBloomIndex {
    const cfg: Config
    var buckets: map<BandKey, ClusterId>
    var anchors: map<ClusterId, string>
    var signatures: map<ClusterId, seq<int>>
    var counter: nat

    function View(): Index
      reads this
    {
      Index(buckets, anchors, signatures, counter)
    }

    constructor (cfg: Config)
      ensures this.cfg == cfg && View() == Index(map[], map[], map[], 0)
    {
      this.cfg := cfg;
      buckets, anchors, signatures, counter := map[], map[], map[], 0;
    }

    /** Collect the distinct candidate clusters, then let the first deciding one answer. */
    method ProbeClusterKeys(docId: string, sig: Signature, keys: seq<BandKey>) returns (r: Option<NearDup>)
      ensures r == Scan(cfg, View(), docId, sig, keys)
    {
      var candidates: seq<ClusterId> := [];
      for n := 0 to |keys|
        invariant forall id | id in candidates :: exists i :: 0 <= i < n && keys[i] in buckets && buckets[keys[i]] == id
        invariant FirstDecision(docId, sig, candidates) == Scan(cfg, View(), docId, sig, keys[..n])
        invariant forall i | 0 <= i < n && keys[i] in buckets :: buckets[keys[i]] in candidates
      {
        ScanSnoc(cfg, View(), docId, sig, keys[..n], keys[n]);
        assert keys[..n + 1] == keys[..n] + [keys[n]];
        if keys[n] in buckets && buckets[keys[n]] !in candidates {
          DecisionSnoc(docId, sig, candidates, buckets[keys[n]]);
          candidates := candidates + [buckets[keys[n]]];
        } else if keys[n] in buckets && Judge(cfg, View(), docId, sig, buckets[keys[n]]).Some? {
          DecisionCovers(docId, sig, candidates, buckets[keys[n]]);
        }
      }
      assert keys[..|keys|] == keys;
      for n := 0 to |candidates|
        invariant FirstDecision(docId, sig, candidates) == FirstDecision(docId, sig, candidates[n..])
      {
        var id := candidates[n];
        assert candidates[n..][1..] == candidates[n + 1..];
        if id in anchors && anchors[id] == docId {
          return Some(NearDup(false, Some(id)));
        }
        if id in signatures && Similarity(sig, signatures[id]) >= cfg.threshold {
          return Some(NearDup(true, Some(id)));
        }
      }
      return None;
    }

    ghost function FirstDecision(docId: string, sig: Signature, ids: seq<ClusterId>): Option<NearDup>
      reads this
    {
      if ids == [] then None
      else
        var here := Judge(cfg, View(), docId, sig, ids[0]);
        if here.Some? then here else FirstDecision(docId, sig, ids[1..])
    }

    lemma {:induction false} DecisionSnoc(docId: string, sig: Signature, ids: seq<ClusterId>, id: ClusterId)
      ensures var d := FirstDecision(docId, sig, ids);
              FirstDecision(docId, sig, ids + [id]) == if d.Some? then d else Judge(cfg, View(), docId, sig, id)
    {
      if ids != [] {
        assert (ids + [id])[1..] == ids[1..] + [id];
        DecisionSnoc(docId, sig, ids[1..], id);
      } else {
        assert ([id])[1..] == [];
        assert ids + [id] == [id];
      }
    }

    lemma {:induction false} DecisionCovers(docId: string, sig: Signature, ids: seq<ClusterId>, id: ClusterId)
      requires id in ids && Judge(cfg, View(), docId, sig, id).Some?
      ensures FirstDecision(docId, sig, ids).Some?
    {
      if ids[0] != id {
        DecisionCovers(docId, sig, ids[1..], id);
      }
    }

    method Probe(docId: string, sig: Signature) returns (r: NearDup)
      ensures r == Verdict(cfg, View(), docId, sig)
    {
      var existing := ProbeClusterKeys(docId, sig, BandKeys(cfg, sig));
      r := existing.GetOr(NearDup(false, None));
    }

    lemma RegisterFields(docId: string, sig: Signature, id: ClusterId, writes: map<BandKey, ClusterId>)
      requires id == ClusterId(counter + 1, Suffix(docId))
      requires buckets + writes == Claim(BandKeys(cfg, sig), id) + buckets
      ensures Index(buckets + writes, anchors[id := docId], signatures[id := sig], counter + 1)
           == Register(cfg, View(), docId, sig)
    {
    }

    method Observe(docId: string, sig: Signature) returns (r: NearDup)
      modifies this
      ensures (r, View()) == Observed(cfg, old(View()), docId, sig)
    {
      var keys := BandKeys(cfg, sig);
      var existing := ProbeClusterKeys(docId, sig, keys);
      if existing.Some? {
        return existing.value;
      }
      var id := ClusterId(counter + 1, Suffix(docId));
      var writes := EmptyBuckets(keys, id);
      RegisterFields(docId, sig, id, writes);
      buckets, anchors, signatures, counter :=
        buckets + writes, anchors[id := docId], signatures[id := sig], counter + 1;
      assert counter == old(counter)+1;
      assert View() == Register(cfg, old(View()), docId, sig);
      r := NearDup(false, Some(id));
    }

    /** The bucket rows a new anchor writes: those of its keys that nobody owns yet. */
    method EmptyBuckets(keys: seq<BandKey>, id: ClusterId) returns (writes: map<BandKey, ClusterId>)
      ensures buckets + writes == Claim(keys, id) + buckets
    {
      writes := map[];
      for n := 0 to |keys|
        invariant forall k :: k in writes <==> k in keys[..n] && k !in buckets
        invariant forall k | k in writes :: writes[k] == id
      {
        if keys[n] !in buckets {
          writes := writes[keys[n] := id];
        }
        assert keys[..n + 1] == keys[..n] + [keys[n]];
      }
      assert keys[..|keys|] == keys;
    }
  }

  lemma {:induction false} ScanSnoc(
    cfg: Config, index: Index, docId: string, sig: Signature, keys: seq<BandKey>, key: BandKey)
    ensures var before := Scan(cfg, index, docId, sig, keys);
            Scan(cfg, index, docId, sig, keys + [key]) ==
              if before.Some? then before
              else if key in index.buckets then Judge(cfg, index, docId, sig, index.buckets[key])
              else None
  {
    if keys == [] {
      assert keys + [key] == [key] && [key][1..] == [];
    } else {
      assert (keys + [key])[1..] == keys[1..] + [key];
      ScanSnoc(cfg, index, docId, sig, keys[1..], key);
    }
  }
}
