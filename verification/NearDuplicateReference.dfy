/** What a near duplicate is, said of the documents observed so far and not of the rows kept about them. */
module NearDuplicateReference {
  import opened Outcomes
  import opened NearDuplicateIndex

  // The index keeps bucket, anchor and signature rows. Here the history itself is kept: the list of the anchors, each
  // of which owns the blocks it was the first to have.

  ghost function Agreeing(left: Signature, right: Signature): nat { |set i | 0 <= i < 112 && left[i] == right[i]| }

  ghost predicate Alike(cfg: Config, left: Signature, right: Signature) {
    Agreeing(left, right) as real >= cfg.threshold * 112.0
  }

  /** Block `b` holds permutations `4b` to `4b + 3`. */
  ghost predicate SameBlock(cfg: Config, left: Signature, right: Signature, b: nat)
    requires b < 28
  {
    cfg.digest(left[4 * b..4 * b + 4]) == cfg.digest(right[4 * b..4 * b + 4])
  }

  /** The anchor `m` was the first with this block. */
  ghost predicate Owner(cfg: Config, anchors: seq<Observation>, sig: Signature, b: nat, m: nat)
    requires b < 28
  {
    && m < |anchors| && SameBlock(cfg, anchors[m].signature, sig, b)
    && forall k: nat | k < m :: !SameBlock(cfg, anchors[k].signature, sig, b)
  }

  /** The owner of block `b` settles what `o` is: it is `o` itself, or it is alike. */
  ghost predicate Settles(cfg: Config, anchors: seq<Observation>, o: Observation, b: nat, m: nat)
    requires b < 28
  {
    Owner(cfg, anchors, o.signature, b, m) && (anchors[m].docId == o.docId || Alike(cfg, o.signature, anchors[m].signature))
  }

  ghost predicate Unsettled(cfg: Config, anchors: seq<Observation>, o: Observation, b: nat)
    requires b < 28
  {
    forall m: nat :: !Settles(cfg, anchors, o, b, m)
  }

  /** From block `n` on, `b` is the first block that is settled, by the anchor `m`. */
  ghost predicate FirstSettled(cfg: Config, anchors: seq<Observation>, o: Observation, n: nat, b: nat, m: nat) {
    n <= b < 28 && m < |anchors| && Settles(cfg, anchors, o, b, m) && forall b0: nat | n <= b0 < b :: Unsettled(cfg, anchors, o, b0)
  }

  /** The first settled block says that `o` is a copy of another document. */
  ghost predicate IsDuplicate(cfg: Config, anchors: seq<Observation>, o: Observation) {
    exists b: nat, m: nat :: FirstSettled(cfg, anchors, o, 0, b, m) && anchors[m].docId != o.docId
  }

  /** The documents that nothing seen before them settled. */
  ghost function Anchored(cfg: Config, seen: seq<Observation>): seq<Observation> {
    if |seen| == 0 then []
    else
      var before, o := Anchored(cfg, seen[..|seen| - 1]), seen[|seen| - 1];
      if forall b: nat | b < 28 :: Unsettled(cfg, before, o, b) then before + [o] else before
  }

  const EMPTY := Index(map[], map[], map[], 0)

  // ---- Similarity ----------------------------------------------------------------------------

  lemma {:induction false} MatchesCount(left: seq<int>, right: seq<int>, k: nat)
    requires |left| == |right| && k <= |left|
    ensures Matches(left[k..], right[k..]) == |set i | k <= i < |left| && left[i] == right[i]|
    decreases |left| - k
  {
    var same := set i | k <= i < |left| && left[i] == right[i];
    if k == |left| {
      assert same == {};
    } else {
      MatchesCount(left, right, k + 1);
      var rest := set i | k + 1 <= i < |left| && left[i] == right[i];
      assert left[k..][1..] == left[k + 1..] && right[k..][1..] == right[k + 1..];
      assert same == rest + if left[k] == right[k] then {k} else {};
    }
  }

  lemma SimilarityIsAgreement(cfg: Config, left: Signature, right: Signature)
    ensures Similarity(left, right) >= cfg.threshold <==> Alike(cfg, left, right)
  {
    MatchesCount(left, right, 0);
    assert left[0..] == left && right[0..] == right;
    assert (set i | 0 <= i < |left| && left[i] == right[i]) == (set i | 0 <= i < 112 && left[i] == right[i]);
    var agreeing := Agreeing(left, right) as real;
    assert Similarity(left, right) == agreeing / 112.0;
  }

  // ---- The rows mirror the anchors -----------------------------------------------------------

  ghost function IdOf(anchors: seq<Observation>, m: nat): ClusterId
    requires m < |anchors|
  {
    ClusterId(m + 1, Suffix(anchors[m].docId))
  }

  ghost predicate RowsMirror(index: Index, anchors: seq<Observation>) {
    && index.counter == |anchors|
    && forall m: nat | m < |anchors| ::
         && IdOf(anchors, m) in index.anchors && index.anchors[IdOf(anchors, m)] == anchors[m].docId
         && IdOf(anchors, m) in index.signatures && index.signatures[IdOf(anchors, m)] == anchors[m].signature
  }

  /** A bucket of `sig` is occupied exactly by the owner of the block. */
  ghost predicate BucketMirrors(cfg: Config, index: Index, anchors: seq<Observation>, sig: Signature, b: nat)
    requires b < 28
  {
    var key := BandKey(b, cfg.digest(sig[4 * b..4 * b + 4]));
    && (key in index.buckets ==> exists m: nat :: Owner(cfg, anchors, sig, b, m) && index.buckets[key] == IdOf(anchors, m))
    && (key !in index.buckets ==> forall m: nat :: !Owner(cfg, anchors, sig, b, m))
  }

  ghost predicate Mirrors(cfg: Config, index: Index, anchors: seq<Observation>) {
    RowsMirror(index, anchors) && forall sig: Signature, b: nat | b < 28 :: BucketMirrors(cfg, index, anchors, sig, b)
  }

  lemma OneOwner(cfg: Config, anchors: seq<Observation>, sig: Signature, b: nat, m: nat, n: nat)
    requires b < 28 && Owner(cfg, anchors, sig, b, m) && Owner(cfg, anchors, sig, b, n)
    ensures m == n
  {
  }

  /** What the bucket of block `b` decides. */
  ghost function Here(cfg: Config, index: Index, o: Observation, b: nat): Option<NearDup>
    requires b < 28
  {
    var key := BandKey(b, cfg.digest(o.signature[4 * b..4 * b + 4]));
    if key in index.buckets then Judge(cfg, index, o.docId, o.signature, index.buckets[key]) else None
  }

  lemma HereSettles(cfg: Config, index: Index, anchors: seq<Observation>, o: Observation, b: nat)
    requires b < 28 && Mirrors(cfg, index, anchors)
    ensures Here(cfg, index, o, b).None? <==> Unsettled(cfg, anchors, o, b)
    ensures Here(cfg, index, o, b).Some? ==>
              exists m: nat :: m < |anchors| && Settles(cfg, anchors, o, b, m) && Here(cfg, index, o, b) == Some(Answer(anchors, o, m))
  {
    hide Similarity, Alike, SameBlock;
    var key := BandKey(b, cfg.digest(o.signature[4 * b..4 * b + 4]));
    assert BucketMirrors(cfg, index, anchors, o.signature, b);
    if key in index.buckets {
      var m: nat :| Owner(cfg, anchors, o.signature, b, m) && index.buckets[key] == IdOf(anchors, m);
      SimilarityIsAgreement(cfg, o.signature, anchors[m].signature);
      forall n: nat | Owner(cfg, anchors, o.signature, b, n) ensures n == m {
        OneOwner(cfg, anchors, o.signature, b, m, n);
      }
      hide Owner;
      assert Here(cfg, index, o, b).Some? <==> Settles(cfg, anchors, o, b, m);
    }
  }

  ghost function Answer(anchors: seq<Observation>, o: Observation, m: nat): NearDup
    requires m < |anchors|
  {
    NearDup(anchors[m].docId != o.docId, Some(IdOf(anchors, m)))
  }

  /** The scan of the buckets from block `n` on finds the first block that is settled. */
  lemma {:induction false} ScanSettles(cfg: Config, index: Index, anchors: seq<Observation>, o: Observation, n: nat)
    requires n <= 28 && Mirrors(cfg, index, anchors)
    ensures var r := Scan(cfg, index, o.docId, o.signature, BandKeys(cfg, o.signature)[n..]);
            && (r.None? <==> forall b: nat | n <= b < 28 :: Unsettled(cfg, anchors, o, b))
            && (r.Some? ==> exists b: nat, m: nat :: FirstSettled(cfg, anchors, o, n, b, m) && r.value == Answer(anchors, o, m))
    decreases 28 - n
  {
    hide Settles, Mirrors, Judge, Answer, Unsettled;
    var keys := BandKeys(cfg, o.signature);
    if n < 28 {
      ScanSettles(cfg, index, anchors, o, n + 1);
      HereSettles(cfg, index, anchors, o, n);
      assert keys[n..][1..] == keys[n + 1..] && keys[n..][0] == keys[n];
      var here, rest := Here(cfg, index, o, n), Scan(cfg, index, o.docId, o.signature, keys[n + 1..]);
      assert Scan(cfg, index, o.docId, o.signature, keys[n..]) == if here.Some? then here else rest;
      hide Scan, Here, BandKeys;
      if here.Some? {
        var m: nat :| m < |anchors| && Settles(cfg, anchors, o, n, m) && here == Some(Answer(anchors, o, m));
        assert FirstSettled(cfg, anchors, o, n, n, m);
        SettledMeans(cfg, anchors, o, n, m);
      } else if rest.Some? {
        var b: nat, m: nat :| FirstSettled(cfg, anchors, o, n + 1, b, m) && rest.value == Answer(anchors, o, m);
        assert FirstSettled(cfg, anchors, o, n, b, m);
      }
    }
  }

  lemma SettledMeans(cfg: Config, anchors: seq<Observation>, o: Observation, b: nat, m: nat)
    requires b < 28 && Settles(cfg, anchors, o, b, m)
    ensures m < |anchors| && !Unsettled(cfg, anchors, o, b)
  {
  }

  // ---- Observing keeps the mirror ------------------------------------------------------------

  lemma OwnerAfter(cfg: Config, anchors: seq<Observation>, o: Observation, sig: Signature, b: nat, m: nat)
    requires b < 28
    ensures Owner(cfg, anchors + [o], sig, b, m) <==>
              || Owner(cfg, anchors, sig, b, m)
              || (m == |anchors| && SameBlock(cfg, o.signature, sig, b) && forall k: nat | k < m :: !SameBlock(cfg, anchors[k].signature, sig, b))
  {
    hide SameBlock;
    var all := anchors + [o];
    assert forall k: nat | k < |anchors| :: all[k] == anchors[k];
    if m < |anchors| {
      assert Owner(cfg, all, sig, b, m) <==> Owner(cfg, anchors, sig, b, m);
    }
  }

  lemma {:induction false} FirstOwner(cfg: Config, anchors: seq<Observation>, sig: Signature, b: nat, k: nat)
    requires b < 28 && k < |anchors| && SameBlock(cfg, anchors[k].signature, sig, b)
    ensures exists m: nat :: Owner(cfg, anchors, sig, b, m)
  {
    if n: nat :| n < k && SameBlock(cfg, anchors[n].signature, sig, b) {
      FirstOwner(cfg, anchors, sig, b, n);
    } else {
      assert Owner(cfg, anchors, sig, b, k);
    }
  }

  lemma RegisterBucket(cfg: Config, index: Index, anchors: seq<Observation>, o: Observation, sig: Signature, b: nat)
    requires b < 28 && RowsMirror(index, anchors) && BucketMirrors(cfg, index, anchors, sig, b)
    ensures BucketMirrors(cfg, Register(cfg, index, o.docId, o.signature), anchors + [o], sig, b)
  {
    var next, all := Register(cfg, index, o.docId, o.signature), anchors + [o];
    var key := BandKey(b, cfg.digest(sig[4 * b..4 * b + 4]));
    assert BandKeys(cfg, o.signature)[b] == BandKey(b, cfg.digest(o.signature[4 * b..4 * b + 4]));
    assert key in BandKeys(cfg, o.signature) <==> SameBlock(cfg, o.signature, sig, b);
    hide BandKeys, SameBlock, RowsMirror;
    forall m: nat ensures Owner(cfg, all, sig, b, m) <==>
      || Owner(cfg, anchors, sig, b, m)
      || (m == |anchors| && SameBlock(cfg, o.signature, sig, b) && forall k: nat | k < m :: !SameBlock(cfg, anchors[k].signature, sig, b))
    {
      OwnerAfter(cfg, anchors, o, sig, b, m);
    }
    if key in index.buckets {
      var m: nat :| Owner(cfg, anchors, sig, b, m) && index.buckets[key] == IdOf(anchors, m);
      assert Owner(cfg, all, sig, b, m) && next.buckets[key] == IdOf(all, m);
    } else {
      forall k: nat | k < |anchors| ensures !SameBlock(cfg, anchors[k].signature, sig, b) {
        if SameBlock(cfg, anchors[k].signature, sig, b) {
          FirstOwner(cfg, anchors, sig, b, k);
        }
      }
      hide Owner;
      if key in next.buckets {
        assert Owner(cfg, all, sig, b, |anchors|) && next.buckets[key] == IdOf(all, |anchors|);
      }
    }
  }

  lemma RegisterMirrors(cfg: Config, index: Index, anchors: seq<Observation>, o: Observation)
    requires Mirrors(cfg, index, anchors)
    ensures Mirrors(cfg, Register(cfg, index, o.docId, o.signature), anchors + [o])
  {
    hide BucketMirrors, BandKeys;
    var next, all := Register(cfg, index, o.docId, o.signature), anchors + [o];
    forall sig: Signature, b: nat | b < 28 ensures BucketMirrors(cfg, next, all, sig, b) {
      assert BucketMirrors(cfg, index, anchors, sig, b);
      RegisterBucket(cfg, index, anchors, o, sig, b);
    }
    forall m: nat | m < |anchors| ensures IdOf(all, m) == IdOf(anchors, m) {
    }
    assert RowsMirror(next, all);
  }

  lemma {:induction false} ObserveSnoc(cfg: Config, index: Index, seen: seq<Observation>, o: Observation)
    ensures ObserveAll(cfg, index, seen + [o]) == Observed(cfg, ObserveAll(cfg, index, seen), o.docId, o.signature).1
    decreases |seen|
  {
    hide Observed;
    if seen == [] {
      assert seen + [o] == [o] && [o][1..] == [];
    } else {
      assert (seen + [o])[1..] == seen[1..] + [o];
      ObserveSnoc(cfg, Observed(cfg, index, seen[0].docId, seen[0].signature).1, seen[1..], o);
    }
  }

  lemma {:induction false} HistoryMirrors(cfg: Config, seen: seq<Observation>)
    ensures Mirrors(cfg, ObserveAll(cfg, EMPTY, seen), Anchored(cfg, seen))
  {
    hide Mirrors, Unsettled, Register, Scan, BandKeys;
    if |seen| == 0 {
      EmptyMirrors(cfg);
    } else {
      var front, o := seen[..|seen| - 1], seen[|seen| - 1];
      HistoryMirrors(cfg, front);
      var index, anchors := ObserveAll(cfg, EMPTY, front), Anchored(cfg, front);
      assert seen == front + [o];
      ObserveSnoc(cfg, EMPTY, front, o);
      ScanSettles(cfg, index, anchors, o, 0);
      assert BandKeys(cfg, o.signature)[0..] == BandKeys(cfg, o.signature);
      RegisterMirrors(cfg, index, anchors, o);
    }
  }

  lemma EmptyMirrors(cfg: Config)
    ensures Mirrors(cfg, EMPTY, [])
  {
  }

  // ---- Promises ------------------------------------------------------------------------------

  /** After any history, replays included, a document is called a duplicate exactly when the anchors say so. */
  lemma DuplicateMeans(cfg: Config, seen: seq<Observation>, o: Observation)
    ensures Verdict(cfg, ObserveAll(cfg, EMPTY, seen), o.docId, o.signature).duplicate <==> IsDuplicate(cfg, Anchored(cfg, seen), o)
  {
    hide Mirrors, Unsettled, Scan, BandKeys, ObserveAll, Anchored, Settles;
    HistoryMirrors(cfg, seen);
    var index, anchors := ObserveAll(cfg, EMPTY, seen), Anchored(cfg, seen);
    ScanSettles(cfg, index, anchors, o, 0);
    assert BandKeys(cfg, o.signature)[0..] == BandKeys(cfg, o.signature);
    hide Answer;
    var r := Scan(cfg, index, o.docId, o.signature, BandKeys(cfg, o.signature));
    if r.Some? {
      var b: nat, m: nat :| FirstSettled(cfg, anchors, o, 0, b, m) && r.value == Answer(anchors, o, m);
      forall b0: nat, m0: nat | FirstSettled(cfg, anchors, o, 0, b0, m0) ensures m0 == m {
        OneFirst(cfg, anchors, o, b, m, b0, m0);
      }
      AnswerMeans(anchors, o, m);
    } else {
      forall b: nat, m: nat ensures !FirstSettled(cfg, anchors, o, 0, b, m) {
        if FirstSettled(cfg, anchors, o, 0, b, m) {
          SettledMeans(cfg, anchors, o, b, m);
        }
      }
    }
  }

  lemma AnswerMeans(anchors: seq<Observation>, o: Observation, m: nat)
    requires m < |anchors|
    ensures Answer(anchors, o, m).duplicate <==> anchors[m].docId != o.docId
  {
  }

  /** The first settled block and its owner are unique. */
  lemma OneFirst(cfg: Config, anchors: seq<Observation>, o: Observation, b: nat, m: nat, b0: nat, m0: nat)
    requires FirstSettled(cfg, anchors, o, 0, b, m) && FirstSettled(cfg, anchors, o, 0, b0, m0)
    ensures b == b0 && m == m0
  {
    hide SameBlock, Alike, Owner;
    assert Owner(cfg, anchors, o.signature, b, m) && Owner(cfg, anchors, o.signature, b0, m0);
    SettledMeans(cfg, anchors, o, b, m);
    SettledMeans(cfg, anchors, o, b0, m0);
    if b == b0 {
      OneOwner(cfg, anchors, o.signature, b, m, m0);
    }
  }

  lemma {:induction false} AnchorsWereSeen(cfg: Config, seen: seq<Observation>)
    ensures forall o | o in Anchored(cfg, seen) :: o in seen
  {
    if |seen| != 0 {
      AnchorsWereSeen(cfg, seen[..|seen| - 1]);
    }
  }

  /** Every duplicate verdict has its cause: another document seen before, alike and with an equal block. */
  lemma DuplicateHasCause(cfg: Config, seen: seq<Observation>, o: Observation)
    requires Verdict(cfg, ObserveAll(cfg, EMPTY, seen), o.docId, o.signature).duplicate
    ensures exists c: Observation ::
              && c in seen && c.docId != o.docId && Alike(cfg, o.signature, c.signature)
              && exists b: nat :: b < 28 && SameBlock(cfg, c.signature, o.signature, b)
  {
    hide Verdict, ObserveAll, Anchored, Alike, SameBlock;
    DuplicateMeans(cfg, seen, o);
    AnchorsWereSeen(cfg, seen);
    var anchors := Anchored(cfg, seen);
    var b: nat, m: nat :| FirstSettled(cfg, anchors, o, 0, b, m) && anchors[m].docId != o.docId;
    assert anchors[m] in anchors;
  }

  /**
   Two documents: the second is a duplicate of the first exactly when one of the 28 aligned blocks of four
   permutations has the same digest in both and the permutations they agree on reach the threshold.
   */
  lemma SecondDocument(cfg: Config, first: Observation, second: Observation)
    requires first.docId != second.docId
    ensures var index := Observed(cfg, EMPTY, first.docId, first.signature).1;
            Observed(cfg, index, second.docId, second.signature).0.duplicate <==>
              && (exists b: nat :: b < 28 && cfg.digest(first.signature[4 * b..4 * b + 4]) == cfg.digest(second.signature[4 * b..4 * b + 4]))
              && |set i | 0 <= i < 112 && first.signature[i] == second.signature[i]| as real >= cfg.threshold * 112.0
  {
    var index := Observed(cfg, EMPTY, first.docId, first.signature).1;
    ProbeIsObserveVerdict(cfg, index, second.docId, second.signature);
    var seen := [first];
    assert seen[1..] == [] && ObserveAll(cfg, EMPTY, seen) == index;
    DuplicateMeans(cfg, seen, second);
    OnlyAnchor(cfg, first);
    hide Observed, Verdict, ObserveAll;
    OneAnchorSettles(cfg, first, second);
  }

  lemma OnlyAnchor(cfg: Config, first: Observation)
    ensures Anchored(cfg, [first]) == [first]
  {
    hide SameBlock, Alike;
    assert [first][..0] == [];
    assert Anchored(cfg, [first][..0]) == [];
  }

  lemma OneAnchorSettles(cfg: Config, first: Observation, second: Observation)
    requires first.docId != second.docId
    ensures IsDuplicate(cfg, [first], second) <==>
              && (exists b: nat :: b < 28 && cfg.digest(first.signature[4 * b..4 * b + 4]) == cfg.digest(second.signature[4 * b..4 * b + 4]))
              && |set i | 0 <= i < 112 && first.signature[i] == second.signature[i]| as real >= cfg.threshold * 112.0
  {
    assert (set i | 0 <= i < 112 && first.signature[i] == second.signature[i]) == (set i | 0 <= i < 112 && second.signature[i] == first.signature[i]);
    forall b: nat | b < 28 ensures Settles(cfg, [first], second, b, 0) <==>
      SameBlock(cfg, first.signature, second.signature, b) && Alike(cfg, second.signature, first.signature)
    {
    }
    if b: nat :| b < 28 && SameBlock(cfg, first.signature, second.signature, b) {
      assert cfg.digest(first.signature[4 * b..4 * b + 4]) == cfg.digest(second.signature[4 * b..4 * b + 4]);
    }
    if b: nat :| b < 28 && cfg.digest(first.signature[4 * b..4 * b + 4]) == cfg.digest(second.signature[4 * b..4 * b + 4]) {
      assert SameBlock(cfg, first.signature, second.signature, b);
    }
    hide SameBlock, Alike, Agreeing;
    if b: nat :| b < 28 && Settles(cfg, [first], second, b, 0) {
      FirstExists(cfg, [first], second, b, 0);
      var b0: nat, m0: nat :| FirstSettled(cfg, [first], second, 0, b0, m0);
      assert [first][m0].docId != second.docId;
    }
  }

  lemma {:induction false} FirstExists(cfg: Config, anchors: seq<Observation>, o: Observation, b: nat, m: nat)
    requires b < 28 && Settles(cfg, anchors, o, b, m)
    ensures exists b0: nat, m0: nat :: FirstSettled(cfg, anchors, o, 0, b0, m0)
    decreases b
  {
    if b0: nat :| b0 < b && !Unsettled(cfg, anchors, o, b0) {
      var m0: nat :| Settles(cfg, anchors, o, b0, m0);
      FirstExists(cfg, anchors, o, b0, m0);
    } else {
      assert FirstSettled(cfg, anchors, o, 0, b, m);
    }
  }

  /** A new anchor's cluster identifier is not in use. */
  lemma NewClusterIsFresh(cfg: Config, seen: seq<Observation>, o: Observation)
    ensures var index := ObserveAll(cfg, EMPTY, seen);
            var r := Observed(cfg, index, o.docId, o.signature);
            && r.0.cluster.Some?
            && (r.1 != index && |o.docId| >= 15 ==> r.0.cluster.value.suffix == o.docId[7..15])
            && (r.1 != index ==> !r.0.duplicate && r.0.cluster.value !in index.anchors && r.1.anchors == index.anchors[r.0.cluster.value := o.docId])
  {
    HistoryValid(cfg, EMPTY, seen);
    ScanNone(cfg, ObserveAll(cfg, EMPTY, seen), o.docId, o.signature, BandKeys(cfg, o.signature));
  }

  lemma {:induction false} HistoryValid(cfg: Config, index: Index, seen: seq<Observation>)
    requires Valid(index)
    ensures Valid(ObserveAll(cfg, index, seen))
    decreases |seen|
  {
    if seen != [] {
      ObserveValid(cfg, index, seen[0].docId, seen[0].signature);
      HistoryValid(cfg, Observed(cfg, index, seen[0].docId, seen[0].signature).1, seen[1..]);
    }
  }
}
