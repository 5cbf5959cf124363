/** The buffer-and-commit writer as it runs (processor/iceberg_writer.py). */
module IcebergWriter {
  import opened Outcomes
  import opened IcebergRows

  // Its retained buffer, its retry loop, and the licence-admission writer built on the same pattern. Other replicas
  // commit to the same tables between any two steps.

  datatype Target = Decisions | Gold
  datatype Response = Committed | Refused | Unknown | Raised
  datatype Result<T> = Ok(value: T) | Failed
  datatype Stats = Stats(rowsCommitted: nat, decisionsCommitted: nat, watermark: Option<int>)

  /** `CommitFailedException` and `CommitStateUnknownException`; any other error ends the call. */
  predicate Retryable(response: Response) { response == Refused || response == Unknown }

  /**
   The two shared tables. An append is accepted only on the contents its key scan read. `answers` is history: what the
   catalog answered to every append, and to every load or scan that failed.
   */
  class Store {
    var decisions: seq<Row>
    var gold: seq<Row>
    ghost var answers: seq<Response>

    ghost predicate Valid()
      reads this
    {
      Distinct(decisions) && Distinct(gold) && Keys(gold) <= Keys(decisions) && forall r | r in gold :: Trainable(r)
    }

    function TableOf(t: Target): seq<Row>
      reads this
    {
      if t == Decisions then decisions else gold
    }

    constructor ()
      ensures Valid() && decisions == [] && gold == [] && answers == []
    {
      decisions, gold, answers := [], [], [];
    }

    /** Other writers of the protocol: their rows are fresh, and Gold follows the decisions with clean rows only. */
    method Interfere()
      requires Valid()
      modifies this
      ensures Valid() && old(decisions) <= decisions && old(gold) <= gold && answers == old(answers)
    {
      hide Trainable;
      var others: seq<Row> := *;
      FreshRowsComplete(Keys(decisions), others);
      AppendKeepsDistinct(decisions, FreshRows(Keys(decisions), others));
      KeysAppend(decisions, FreshRows(Keys(decisions), others));
      decisions := decisions + FreshRows(Keys(decisions), others);
      var clean: seq<Row> := *;
      if forall r | r in clean :: r.key in Keys(decisions) && Trainable(r) {
        FreshRowsComplete(Keys(gold), clean);
        AppendKeepsDistinct(gold, FreshRows(Keys(gold), clean));
        KeysAppend(gold, FreshRows(Keys(gold), clean));
        gold := gold + FreshRows(Keys(gold), clean);
      }
    }

    /** Load the table and scan its keys; the load commits table properties, so it can fail like an append. */
    method Load(t: Target) returns (base: Option<seq<Row>>, response: Response)
      requires Valid()
      modifies this
      ensures Valid() && old(decisions) <= decisions && old(gold) <= gold
      ensures base.Some? ==> base.value == TableOf(t) && answers == old(answers)
      ensures base.None? ==> response != Committed && answers == old(answers) + [response]
    {
      Interfere();
      base, response := Some(TableOf(t)), Committed;
      var failed: bool := *;
      if failed {
        response := *;
        response := if response == Committed then Raised else response;
        base, answers := None, answers + [response];
      }
    }

    /** Compare-and-swap with the catalog's three answers, or any other error. */
    method Append(t: Target, base: seq<Row>, rows: seq<Row>) returns (response: Response)
      requires Valid() && Distinct(rows) && Keys(base) !! Keys(rows)
      requires t == Gold ==> Keys(rows) <= Keys(decisions) && forall r | r in rows :: Trainable(r)
      modifies this
      ensures Valid() && answers == old(answers) + [response]
      ensures t == Decisions ==> gold == old(gold)
      ensures t == Gold ==> decisions == old(decisions)
      ensures response == Committed ==> old(TableOf(t)) == base && TableOf(t) == base + rows
      ensures response == Refused ==> TableOf(t) == old(TableOf(t))
      ensures TableOf(t) == old(TableOf(t)) || (old(TableOf(t)) == base && TableOf(t) == base + rows)
      ensures old(TableOf(t)) <= TableOf(t)
    {
      hide Trainable;
      var applied: bool := *;
      response := *;
      if TableOf(t) != base || !applied {
        response := if response == Committed then Refused else response;
      } else {
        response := if response == Refused then Committed else response;
        AppendKeepsDistinct(base, rows);
        KeysAppend(base, rows);
        if t == Decisions {
          decisions := decisions + rows;
        } else {
          gold := gold + rows;
        }
      }
      answers := answers + [response];
    }
  }

  /** The latest `valid_from`, none of an empty sequence. */
  function Latest(rows: seq<Row>): Option<int> {
    if rows == [] then None
    else
      var before, last := Latest(rows[..|rows| - 1]), rows[|rows| - 1].validFrom;
      if before.None? || last > before.value then Some(last) else before
  }

  lemma {:induction false} LatestIsMaximum(rows: seq<Row>)
    ensures Latest(rows).None? <==> rows == []
    ensures rows != [] ==> exists r :: r in rows && r.validFrom == Latest(rows).value
    ensures forall r | r in rows :: r.validFrom <= Latest(rows).value
  {
    if rows != [] {
      LatestIsMaximum(rows[..|rows| - 1]);
      assert rows == rows[..|rows| - 1] + [rows[|rows| - 1]];
    }
  }

  /**
   How a commit of up to `attempts` attempts ends: every answer but the last is retried, and it fails exactly when
   the last one may not be, or is the last attempt's.
   */
  ghost predicate Retried(attempts: nat, answers: seq<Response>, failed: bool) {
    && |answers| <= attempts
    && (forall i | 0 <= i < |answers| - 1 :: Retryable(answers[i]))
    && (failed <==> Unrecovered(attempts, answers))
  }

  /** The last answer ends the call, or is the last of `attempts` retryable ones in a row. */
  ghost predicate Unrecovered(attempts: nat, answers: seq<Response>) {
    var n := |answers|;
    && n != 0
    && (answers[n - 1] == Raised || (n >= attempts && forall i | n - attempts <= i < n :: Retryable(answers[i])))
  }

  class Writer {
    const store: Store
    const batchSize: nat
    const attempts: nat
    var rows: seq<Row>
    var watermark: Option<int>
    /** As history: the rows this writer's own appends stored in either table. */
    ghost var storedDecisions: seq<Row>
    ghost var storedGold: seq<Row>

    ghost predicate Valid()
      reads this, store
    {
      store.Valid() && batchSize >= 1 && attempts >= 1 && watermark == Latest(rows)
    }

    ghost function StoredIn(t: Target): seq<Row>
      reads this
    {
      if t == Decisions then storedDecisions else storedGold
    }

    constructor (store: Store, batchSize: nat, attempts: nat)
      requires store.Valid() && batchSize >= 1 && attempts >= 1
      ensures Valid() && this.store == store && this.batchSize == batchSize && this.attempts == attempts && rows == []
    {
      this.store, this.batchSize, this.attempts := store, batchSize, attempts;
      rows, watermark, storedDecisions, storedGold := [], None, [], [];
    }

    method BufferAdd(record: Row)
      requires Valid()
      modifies this`rows, this`watermark
      ensures Valid() && rows == old(rows) + [record]
    {
      assert (rows + [record])[..|rows|] == rows;
      rows := rows + [record];
      if watermark.None? || record.validFrom > watermark.value {
        watermark := Some(record.validFrom);
      }
    }

    /** Buffer one decision, and flush once the batch is full. */
    method Add(record: Row) returns (r: Option<Result<Stats>>)
      requires Valid()
      modifies this, store
      ensures Valid() && old(store.decisions) <= store.decisions && old(store.gold) <= store.gold
      ensures r.Some? <==> |old(rows)| + 1 >= batchSize
      ensures r.None? || r.value.Failed? ==> rows == old(rows) + [record]
      ensures r.None? ==> store.decisions == old(store.decisions) && store.gold == old(store.gold)
      ensures r.Some? && r.value.Ok? ==> rows == [] && Stored(store.decisions, store.gold, old(rows) + [record])
      ensures Answered(old(store.answers), store.answers, attempts, r.Some? && r.value.Failed?)
    {
      BufferAdd(record);
      if |rows| >= batchSize {
        var flushed := FlushLocked();
        return Some(flushed);
      }
      return None;
    }

    method Flush() returns (r: Result<Stats>)
      requires Valid()
      modifies this, store
      ensures Valid() && old(store.decisions) <= store.decisions && old(store.gold) <= store.gold
      ensures r.Failed? ==> rows == old(rows)
      ensures r.Ok? ==> rows == [] && Stored(store.decisions, store.gold, old(rows))
      ensures r.Ok? ==> Counted(r.value.decisionsCommitted, old(storedDecisions), storedDecisions, old(store.answers), store.answers)
      ensures r.Ok? ==> Counted(r.value.rowsCommitted, old(storedGold), storedGold, old(store.answers), store.answers)
      ensures Answered(old(store.answers), store.answers, attempts, r.Failed?)
      ensures old(rows) == [] ==> r == Ok(Stats(0, 0, None)) && store.answers == old(store.answers)
    {
      if rows == [] {
        return Ok(Stats(0, 0, None));
      }
      r := FlushLocked();
    }

    /**
     Decisions first, Gold second; the buffer is emptied only after both. Each table's count is of the rows stored in
     it, and the flush fails only after an error that may not be retried or after all attempts on one table.
     */
    method FlushLocked() returns (r: Result<Stats>)
      requires Valid()
      modifies this, store
      ensures Valid() && old(store.decisions) <= store.decisions && old(store.gold) <= store.gold
      ensures r.Failed? ==> rows == old(rows) && watermark == old(watermark)
      ensures r.Ok? ==> rows == [] && watermark.None? && Stored(store.decisions, store.gold, old(rows))
      ensures r.Ok? ==> r.value.watermark == Latest(old(rows))
      ensures r.Ok? ==> Counted(r.value.decisionsCommitted, old(storedDecisions), storedDecisions, old(store.answers), store.answers)
      ensures r.Ok? ==> Counted(r.value.rowsCommitted, old(storedGold), storedGold, old(store.answers), store.answers)
      ensures Answered(old(store.answers), store.answers, attempts, r.Failed?)
    {
      hide Trainable, Distinct, Keys, Traced;
      var snapshot, mark := rows, watermark;
      var accepted := Accepted(snapshot);
      var decisions := CommitUniqueRows(Decisions, snapshot);
      AnsweredOnce(old(store.answers), store.answers, attempts, decisions.Failed?);
      if decisions.Failed? {
        return Failed;
      }
      var committed := 0;
      ghost var decided, answers := store.decisions, store.answers;
      if accepted != [] {
        AcceptedKeys(snapshot);
        var gold := CommitUniqueRows(Gold, accepted);
        AnsweredTwice(old(store.answers), answers, store.answers, attempts, gold.Failed?);
        CountedLater(decisions.value, old(storedDecisions), storedDecisions, old(store.answers), answers, store.answers);
        if gold.Failed? {
          return Failed;
        }
        committed := gold.value;
        CountedEarlier(committed, old(storedGold), storedGold, old(store.answers), answers, store.answers);
      }
      PrefixKeys(decided, store.decisions);
      NothingAccepted(snapshot, store.gold);
      rows, watermark := [], None;
      r := Ok(Stats(committed, decisions.value, mark));
    }

    /** One append, with its effect noted. */
    method AppendPending(t: Target, base: seq<Row>, pending: seq<Row>) returns (response: Response)
      requires Valid() && pending != [] && Distinct(pending) && Keys(base) !! Keys(pending)
      requires t == Gold ==> Keys(pending) <= Keys(store.decisions) && forall r | r in pending :: Trainable(r)
      modifies store, this`storedDecisions, this`storedGold
      ensures Valid() && old(store.decisions) <= store.decisions && old(store.gold) <= store.gold
      ensures t == Decisions ==> storedGold == old(storedGold)
      ensures t == Gold ==> storedDecisions == old(storedDecisions)
      ensures || (StoredIn(t) == old(StoredIn(t)) && store.TableOf(t) == old(store.TableOf(t)) && response != Committed)
              || (StoredIn(t) == old(StoredIn(t)) + pending && old(store.TableOf(t)) == base
                  && store.TableOf(t) == base + pending && response != Refused)
      ensures store.answers == old(store.answers) + [response]
    {
      hide Trainable;
      ghost var before := store.TableOf(t);
      response := store.Append(t, base, pending);
      if store.TableOf(t) != before {
        if t == Decisions {
          storedDecisions := storedDecisions + pending;
        } else {
          storedGold := storedGold + pending;
        }
      }
    }

    /**
     Reload, drop what is stored, append the rest; retry after a conflict or an unknown outcome, and after nothing
     else. The call stores at most one row per key that was missing; it reports all of them, unless an append that
     got no answer did take effect, whose rows it does not count.
     */
    method CommitUniqueRows(t: Target, offered: seq<Row>) returns (r: Result<nat>)
      requires Valid() && (t == Gold ==> Keys(offered) <= Keys(store.decisions) && forall x | x in offered :: Trainable(x))
      modifies store, this`storedDecisions, this`storedGold
      ensures Valid() && old(store.decisions) <= store.decisions && old(store.gold) <= store.gold
      ensures t == Decisions ==> storedGold == old(storedGold)
      ensures t == Gold ==> storedDecisions == old(storedDecisions)
      ensures r.Ok? ==> Keys(offered) <= Keys(store.TableOf(t))
      ensures Traced(old(StoredIn(t)), StoredIn(t), old(store.TableOf(t)), store.TableOf(t), offered)
      ensures r.Ok? ==> Counted(r.value, old(StoredIn(t)), StoredIn(t), old(store.answers), store.answers)
      ensures old(store.answers) <= store.answers && Retried(attempts, store.answers[|old(store.answers)|..], r.Failed?)
    {
      hide FreshRows, Distinct, Traced, Keys, Trainable, Retried;
      ghost var stored, answers := store.TableOf(t), store.answers;
      TracedNothing(StoredIn(t), stored, offered);
      for attempt := 0 to attempts
        invariant Valid() && old(store.decisions) <= store.decisions && old(store.gold) <= store.gold
        invariant t == Decisions ==> storedGold == old(storedGold)
        invariant t == Gold ==> storedDecisions == old(storedDecisions)
        invariant t == Gold ==> Keys(offered) <= Keys(store.decisions)
        invariant stored <= store.TableOf(t)
        invariant Traced(old(StoredIn(t)), StoredIn(t), stored, store.TableOf(t), offered)
        invariant answers <= store.answers && |store.answers| == |answers| + attempt
        invariant forall i | |answers| <= i < |store.answers| :: Retryable(store.answers[i])
        invariant StoredIn(t) == old(StoredIn(t)) || (Unknown in store.answers[|answers|..] && Keys(offered) <= Keys(store.TableOf(t)))
      {
        ghost var decided, table, before, heard := store.decisions, store.TableOf(t), StoredIn(t), store.answers;
        var done := TryCommit(t, offered);
        PrefixKeys(decided, store.decisions);
        PrefixKeys(table, store.TableOf(t));
        TracedLater(old(StoredIn(t)), before, StoredIn(t), stored, table, store.TableOf(t), offered);
        HeardMore(answers, heard, store.answers);
        if done.Some? {
          RetriedUntil(attempts, store.answers[|answers|..], done.value.Failed?);
          return done.value;
        }
      }
      RetriedUntil(attempts, store.answers[|answers|..], true);
      return Failed;
    }

    /** One attempt; none when its answer allows a retry. */
    method TryCommit(t: Target, offered: seq<Row>) returns (r: Option<Result<nat>>)
      requires Valid() && (t == Gold ==> Keys(offered) <= Keys(store.decisions) && forall x | x in offered :: Trainable(x))
      modifies store, this`storedDecisions, this`storedGold
      ensures Valid() && old(store.decisions) <= store.decisions && old(store.gold) <= store.gold
      ensures t == Decisions ==> storedGold == old(storedGold)
      ensures t == Gold ==> storedDecisions == old(storedDecisions)
      ensures Traced(old(StoredIn(t)), StoredIn(t), old(store.TableOf(t)), store.TableOf(t), offered)
      ensures old(StoredIn(t)) <= StoredIn(t)
      ensures StoredIn(t) != old(StoredIn(t)) || r == Some(Ok(0)) ==> Keys(offered) <= Keys(store.TableOf(t))
      ensures Keys(offered) <= Keys(old(store.TableOf(t))) ==> StoredIn(t) == old(StoredIn(t)) && (r.Some? && r.value.Ok? ==> r.value.value == 0)
      ensures r.Some? && r.value.Ok? ==> r.value.value == |StoredIn(t)| - |old(StoredIn(t))| && Keys(offered) <= Keys(store.TableOf(t))
      ensures old(store.answers) <= store.answers && |store.answers| <= |old(store.answers)| + 1
      ensures store.answers == old(store.answers) ==> r == Some(Ok(0))
      ensures store.answers != old(store.answers) ==>
                var answer := store.answers[|old(store.answers)|];
                && (r.None? <==> Retryable(answer)) && (r == Some(Failed) <==> answer == Raised)
                && (StoredIn(t) != old(StoredIn(t)) && r.None? ==> answer == Unknown)
    {
      hide FreshRows, Distinct, Traced, Trainable;
      ghost var decided, stored := store.decisions, store.TableOf(t);
      TracedNothing(StoredIn(t), stored, offered);
      var base, answer := store.Load(t);
      PrefixKeys(decided, store.decisions);
      PrefixKeys(stored, store.TableOf(t));
      TracedGrows(StoredIn(t), StoredIn(t), stored, stored, store.TableOf(t), offered);
      if base.None? {
        return if Retryable(answer) then None else Some(Failed);
      }
      var pending := UncommittedRows(Keys(base.value), offered);
      FreshRowsComplete(Keys(base.value), offered);
      if pending == [] {
        NothingMissing(Keys(offered), Keys(base.value), pending);
        return Some(Ok(0));
      }
      assert pending[0].key in Keys(pending) && !(Keys(offered) <= Keys(base.value));
      ghost var before := StoredIn(t);
      r := AppendFresh(t, base.value, offered, pending);
      TracedFrom(before, StoredIn(t), stored, base.value, store.TableOf(t), offered);
    }

    /** The append of an attempt, with its answer read. */
    method AppendFresh(t: Target, base: seq<Row>, ghost offered: seq<Row>, pending: seq<Row>) returns (r: Option<Result<nat>>)
      requires Valid() && pending != [] && pending == FreshRows(Keys(base), offered) && base == store.TableOf(t)
      requires t == Gold ==> Keys(offered) <= Keys(store.decisions) && forall x | x in offered :: Trainable(x)
      modifies store, this`storedDecisions, this`storedGold
      ensures Valid() && old(store.decisions) <= store.decisions && old(store.gold) <= store.gold
      ensures t == Decisions ==> storedGold == old(storedGold)
      ensures t == Gold ==> storedDecisions == old(storedDecisions)
      ensures Traced(old(StoredIn(t)), StoredIn(t), base, store.TableOf(t), offered)
      ensures old(StoredIn(t)) <= StoredIn(t)
      ensures StoredIn(t) != old(StoredIn(t)) ==> Keys(offered) <= Keys(store.TableOf(t))
      ensures r.Some? && r.value.Ok? ==> r.value.value == |StoredIn(t)| - |old(StoredIn(t))| > 0
      ensures exists answer :: store.answers == old(store.answers) + [answer]
      ensures var answer := store.answers[|old(store.answers)|];
              && (r.None? <==> Retryable(answer)) && (r == Some(Failed) <==> answer == Raised)
              && (StoredIn(t) != old(StoredIn(t)) && r.None? ==> answer == Unknown)
    {
      hide FreshRows, Distinct, Traced, Trainable;
      FreshRowsComplete(Keys(base), offered);
      ghost var decided := store.decisions;
      store.Interfere();
      PrefixKeys(decided, store.decisions);
      TracedNothing(StoredIn(t), base, offered);
      TracedGrows(StoredIn(t), StoredIn(t), base, base, store.TableOf(t), offered);
      TracedAppend(StoredIn(t), base, base, pending, offered);
      var response := AppendPending(t, base, pending);
      if response == Committed {
        return Some(Ok(|pending|));
      }
      if response == Raised {
        return Some(Failed);
      }
      r := None;
    }

    method UncommittedRows(existing: set<Key>, offered: seq<Row>) returns (output: seq<Row>)
      ensures output == FreshRows(existing, offered)
    {
      var pending: set<Key> := {};
      output := [];
      for n := 0 to |offered|
        invariant output == FreshRows(existing, offered[..n]) && pending == Keys(output)
      {
        var row := offered[n];
        assert offered[..n + 1][..n] == offered[..n];
        if row.key !in existing && row.key !in pending {
          KeysAppend(output, [row]);
          pending := pending + {row.key};
          output := output + [row];
        }
      }
      assert offered[..|offered|] == offered;
    }
  }

  /** What a call reports of the rows it stored: all of them, unless the catalog left an append without an answer. */
  ghost predicate Counted(count: nat, before: seq<Row>, after: seq<Row>, heard: seq<Response>, answers: seq<Response>) {
    && heard <= answers && before <= after && count <= |after| - |before|
    && (Unknown !in answers[|heard|..] ==> count == |after| - |before|)
  }

  /** A call fails only with answers it may not recover from, and never after an error that may not be retried. */
  ghost predicate Answered(heard: seq<Response>, answers: seq<Response>, attempts: nat, failed: bool) {
    && heard <= answers
    && (failed ==> Unrecovered(attempts, answers[|heard|..]))
    && (!failed ==> Raised !in answers[|heard|..])
  }

  lemma HeardMore(first: seq<Response>, heard: seq<Response>, answers: seq<Response>)
    requires first <= heard <= answers
    ensures first <= answers
    ensures Unknown in heard[|first|..] ==> Unknown in answers[|first|..]
    ensures |answers| > |heard| && answers[|heard|] == Unknown ==> Unknown in answers[|first|..]
  {
    assert answers[|first|..] == heard[|first|..] + answers[|heard|..];
    if |answers| > |heard| {
      assert answers[|first|..][|heard| - |first|] == answers[|heard|];
    }
  }

  lemma RetriedUntil(attempts: nat, answers: seq<Response>, failed: bool)
    requires |answers| <= attempts && forall i | 0 <= i < |answers| - 1 :: Retryable(answers[i])
    requires failed <==>
               answers != [] && (answers[|answers| - 1] == Raised || (|answers| == attempts && Retryable(answers[|answers| - 1])))
    ensures Retried(attempts, answers, failed)
  {
  }

  lemma AnsweredOnce(heard: seq<Response>, answers: seq<Response>, attempts: nat, failed: bool)
    requires heard <= answers && Retried(attempts, answers[|heard|..], failed)
    ensures Answered(heard, answers, attempts, failed)
  {
  }

  lemma AnsweredTwice(heard: seq<Response>, mid: seq<Response>, answers: seq<Response>, attempts: nat, failed: bool)
    requires Answered(heard, mid, attempts, false) && mid <= answers && Retried(attempts, answers[|mid|..], failed)
    ensures Answered(heard, answers, attempts, failed)
  {
    AnsweredOnce(mid, answers, attempts, failed);
    var all, later := answers[|heard|..], answers[|mid|..];
    assert all == mid[|heard|..] + later;
    if failed {
      assert all[|all| - 1] == later[|later| - 1];
      forall i | |later| - attempts <= i < |later| && |later| >= attempts ensures all[i + |all| - |later|] == later[i] {
      }
    }
  }

  lemma CountedLater(count: nat, before: seq<Row>, after: seq<Row>, heard: seq<Response>, mid: seq<Response>, answers: seq<Response>)
    requires Counted(count, before, after, heard, mid) && mid <= answers
    ensures Counted(count, before, after, heard, answers)
  {
    assert answers[|heard|..] == mid[|heard|..] + answers[|mid|..];
  }

  lemma CountedEarlier(count: nat, before: seq<Row>, after: seq<Row>, heard: seq<Response>, mid: seq<Response>, answers: seq<Response>)
    requires Counted(count, before, after, mid, answers) && heard <= mid
    ensures Counted(count, before, after, heard, answers)
  {
    assert answers[|heard|..] == mid[|heard|..] + answers[|mid|..];
  }

  lemma NothingAccepted(rows: seq<Row>, gold: seq<Row>)
    ensures Accepted(rows) == [] ==> Keys(Accepted(rows)) <= Keys(gold)
  {
  }

  /** Every decision is stored, and every clean one is in Gold too. */
  ghost predicate Stored(decisions: seq<Row>, gold: seq<Row>, rows: seq<Row>) {
    Keys(rows) <= Keys(decisions) && Keys(Accepted(rows)) <= Keys(gold)
  }

  /**
   What a call's own appends stored: nothing, or one row for each offered key that some later contents of the
   table still missed. Those rows are in the table.
   */
  ghost predicate Traced(before: seq<Row>, after: seq<Row>, stored: seq<Row>, table: seq<Row>, offered: seq<Row>) {
    && before <= after
    && (after == before || exists existing :: Keys(stored) <= existing && after == before + FreshRows(existing, offered))
    && forall x | x in after[|before|..] :: x in table
  }

  lemma TracedNothing(before: seq<Row>, stored: seq<Row>, offered: seq<Row>)
    ensures Traced(before, before, stored, stored, offered)
  {
  }

  lemma TracedGrows(before: seq<Row>, after: seq<Row>, stored: seq<Row>, table: seq<Row>, later: seq<Row>, offered: seq<Row>)
    requires Traced(before, after, stored, table, offered) && table <= later
    ensures Traced(before, after, stored, later, offered)
  {
  }

  lemma TracedFrom(before: seq<Row>, after: seq<Row>, stored: seq<Row>, base: seq<Row>, table: seq<Row>, offered: seq<Row>)
    requires Traced(before, after, base, table, offered) && stored <= base
    ensures Traced(before, after, stored, table, offered)
  {
    PrefixKeys(stored, base);
  }

  /** A further attempt, which appends nothing once an earlier one did. */
  lemma TracedLater(
    before: seq<Row>, mid: seq<Row>, after: seq<Row>, stored: seq<Row>, table: seq<Row>, later: seq<Row>, offered: seq<Row>)
    requires Traced(before, mid, stored, table, offered) && Traced(mid, after, table, later, offered)
    requires stored <= table <= later && (mid == before || after == mid)
    ensures Traced(before, after, stored, later, offered)
  {
    PrefixKeys(stored, table);
  }

  lemma TracedAppend(before: seq<Row>, stored: seq<Row>, base: seq<Row>, pending: seq<Row>, offered: seq<Row>)
    requires stored <= base && pending == FreshRows(Keys(base), offered)
    ensures Traced(before, before + pending, stored, base + pending, offered)
    ensures Keys(offered) <= Keys(base + pending)
  {
    PrefixKeys(stored, base);
    FreshRowsComplete(Keys(base), offered);
    KeysAppend(base, pending);
    assert (before + pending)[|before|..] == pending;
  }

  lemma PrefixKeys(a: seq<Row>, b: seq<Row>)
    requires a <= b
    ensures Keys(a) <= Keys(b)
  {
    assert b == a + b[|a|..];
    KeysAppend(a, b[|a|..]);
  }

  lemma AcceptedKeys(rows: seq<Row>)
    ensures Keys(Accepted(rows)) <= Keys(rows) && forall r | r in Accepted(rows) :: Trainable(r)
  {
    forall r | r in Accepted(rows) ensures r in rows && Trainable(r) {
      AcceptedElements(rows, r);
    }
  }

  // ---- Licence admissions: deduplicate once, then drop what is stored --------------------------

  datatype Admission = Admission(id: string, status: string)

  function FirstById(decisions: seq<Admission>): seq<Admission> {
    if decisions == [] then []
    else
      var before, last := FirstById(decisions[..|decisions| - 1]), decisions[|decisions| - 1];
      if exists d | d in before :: d.id == last.id then before else before + [last]
  }

  function NotIn(durable: set<string>, decisions: seq<Admission>): seq<Admission> {
    if decisions == [] then []
    else
      var last := decisions[|decisions| - 1];
      NotIn(durable, decisions[..|decisions| - 1]) + if last.id in durable then [] else [last]
  }

  /** The one-pass rule of the decision writer, read over admissions. */
  function FreshAdmissions(durable: set<string>, decisions: seq<Admission>): seq<Admission> {
    if decisions == [] then []
    else
      var before, last := FreshAdmissions(durable, decisions[..|decisions| - 1]), decisions[|decisions| - 1];
      if last.id in durable || exists d | d in before :: d.id == last.id then before else before + [last]
  }

  lemma {:induction false} NotInElements(durable: set<string>, decisions: seq<Admission>, d: Admission)
    ensures d in NotIn(durable, decisions) <==> d in decisions && d.id !in durable
  {
    if decisions != [] {
      NotInElements(durable, decisions[..|decisions| - 1], d);
      assert decisions == decisions[..|decisions| - 1] + [decisions[|decisions| - 1]];
    }
  }

  /** Deduplicating before the retry loop and filtering inside it is the one-pass rule. */
  lemma {:induction false} DedupThenFilter(durable: set<string>, decisions: seq<Admission>)
    ensures NotIn(durable, FirstById(decisions)) == FreshAdmissions(durable, decisions)
  {
    if decisions != [] {
      var front, last := decisions[..|decisions| - 1], decisions[|decisions| - 1];
      DedupThenFilter(durable, front);
      var before := FirstById(front);
      assert (before + [last])[..|before|] == before;
      forall d | d in before && d.id == last.id && last.id !in durable ensures d in NotIn(durable, before) {
        NotInElements(durable, before, d);
      }
      forall d | d in NotIn(durable, before) ensures d in before {
        NotInElements(durable, before, d);
      }
    }
  }

  /** What one attempt of the admission writer appends, given the identifiers already stored. */
  method PendingAdmissions(durable: set<string>, decisions: seq<Admission>) returns (pending: seq<Admission>)
    ensures pending == FreshAdmissions(durable, decisions)
  {
    var unique: seq<Admission> := [];
    var uniqueIds: set<string> := {};
    for n := 0 to |decisions|
      invariant unique == FirstById(decisions[..n]) && uniqueIds == set d | d in unique :: d.id
    {
      assert decisions[..n + 1][..n] == decisions[..n];
      if decisions[n].id !in uniqueIds {
        unique := unique + [decisions[n]];
        uniqueIds := uniqueIds + {decisions[n].id};
      }
    }
    assert decisions[..|decisions|] == decisions;
    pending := [];
    for n := 0 to |unique|
      invariant pending == NotIn(durable, unique[..n])
    {
      assert unique[..n + 1][..n] == unique[..n];
      if unique[n].id !in durable {
        pending := pending + [unique[n]];
      }
    }
    assert unique[..|unique|] == unique;
    DedupThenFilter(durable, decisions);
  }
}
