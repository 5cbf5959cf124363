/**
 Retrying an unavailable model service under the work cutoff (processor/curate.py, processor/work_cutoff.py).
 Times are seconds.
 */
module ModelRetry {
  import opened Outcomes

  /** An undecided record; `fetchedAt` is its intake time. */
  datatype Item = Item(index: nat, fetchedAt: Option<int>)

  /** Without an intake time there is no admissible age. */
  predicate Expired(maxAge: int, now: int, item: Item) {
    item.fetchedAt.None? || now - item.fetchedAt.value >= maxAge
  }

  function Eligible(maxAge: int, now: int, items: seq<Item>): seq<Item> {
    if items == [] then []
    else
      Eligible(maxAge, now, items[..|items| - 1])
      + if Expired(maxAge, now, items[|items| - 1]) then [] else [items[|items| - 1]]
  }

  /** The longest time any item has left, zero when all have expired. */
  function Remaining(maxAge: int, now: int, items: seq<Item>): nat {
    if items == [] then 0
    else
      var before, last := Remaining(maxAge, now, items[..|items| - 1]), items[|items| - 1];
      if Expired(maxAge, now, last) then before
      else if maxAge - (now - last.fetchedAt.value) > before then maxAge - (now - last.fetchedAt.value)
      else before
  }

  function Backoff(retry: nat): nat { if 2 * retry < 30 then 2 * retry else 30 }

  /** Time spent is taken off the longest remaining lifetime, which survives the filtering. */
  lemma {:induction false} RemainingShrinks(maxAge: int, now: int, later: int, items: seq<Item>)
    requires now <= later
    ensures Remaining(maxAge, later, items) + (later - now) <= Remaining(maxAge, now, items) || Remaining(maxAge, later, items) == 0
    ensures Remaining(maxAge, later, items) <= Remaining(maxAge, now, items)
  {
    if items != [] {
      RemainingShrinks(maxAge, now, later, items[..|items| - 1]);
    }
  }

  lemma {:induction false} EligibleRemaining(maxAge: int, now: int, items: seq<Item>)
    ensures Remaining(maxAge, now, Eligible(maxAge, now, items)) == Remaining(maxAge, now, items)
    ensures Eligible(maxAge, now, items) == [] <==> Remaining(maxAge, now, items) == 0
  {
    if items != [] {
      var front, last := items[..|items| - 1], items[|items| - 1];
      EligibleRemaining(maxAge, now, front);
      var e := Eligible(maxAge, now, front);
      assert (e + [last])[..|e|] == e && e + [] == e;
    }
  }

  /** A later filter of an earlier filter is the later filter: expiry is permanent. */
  lemma {:induction false} EligibleTwice(maxAge: int, now: int, later: int, items: seq<Item>)
    requires now <= later
    ensures Eligible(maxAge, later, Eligible(maxAge, now, items)) == Eligible(maxAge, later, items)
  {
    if items != [] {
      var front, last := items[..|items| - 1], items[|items| - 1];
      EligibleTwice(maxAge, now, later, front);
      var e := Eligible(maxAge, now, front);
      assert (e + [last])[..|e|] == e && e + [] == e;
    }
  }

  /** As history, the clock keeps the sleeps asked of it. */
  class Clock {
    var now: int
    ghost var slept: seq<nat>

    constructor (now: int)
      ensures this.now == now && slept == []
    {
      this.now, slept := now, [];
    }

    /** Work takes any time. */
    method Pass()
      modifies this`now
      ensures now >= old(now)
    {
      var elapsed: nat := *;
      if elapsed > 0 {
        now := now + elapsed;
      }
    }

    /** A sleep takes at least its time, and possibly longer. */
    method Sleep(seconds: nat)
      modifies this
      ensures now >= old(now) + seconds && slept == old(slept) + [seconds]
    {
      Pass();
      now, slept := now + seconds, slept + [seconds];
    }
  }

  /** One request to score items, and whether it was answered. */
  datatype Request = Request(items: seq<Item>, answered: bool)

  /** The model service, with the history of what it was asked. */
  class Service {
    ghost var requests: seq<Request>

    constructor ()
      ensures requests == []
    {
      requests := [];
    }

    method Prefetch(items: seq<Item>) returns (answered: bool)
      modifies this
      ensures requests == old(requests) + [Request(items, answered)]
    {
      answered := *;
      requests := requests + [Request(items, answered)];
    }
  }

  /** Keep the items whose work is still admissible. */
  method DropExpired(maxAge: int, now: int, items: seq<Item>) returns (eligible: seq<Item>)
    ensures eligible == Eligible(maxAge, now, items)
  {
    eligible := [];
    for n := 0 to |items|
      invariant eligible == Eligible(maxAge, now, items[..n])
    {
      assert items[..n + 1][..n] == items[..n];
      if !Expired(maxAge, now, items[n]) {
        eligible := eligible + [items[n]];
      }
    }
    assert items[..|items|] == items;
  }

  /** The loop's requests: all unanswered, and one more that was answered if it ended with one, for what is then pending. */
  ghost predicate RetriedUntil(requests: seq<Request>, retries: nat, pending: seq<Item>) {
    && |requests| == retries + (if pending == [] then 0 else 1)
    && (forall i | 0 <= i < retries :: !requests[i].answered)
    && (pending != [] ==> requests[retries] == Request(pending, true))
  }

  /** Two seconds more before every further try, up to half a minute. */
  ghost predicate BackedOff(slept: seq<nat>, retries: nat) {
    && |slept| == retries
    && forall i | 0 <= i < retries :: slept[i] == if 2 * (i + 1) < 30 then 2 * (i + 1) else 30
  }

  /**
   The retry loop ends whatever the service does: each failure costs at least two seconds of the longest
   remaining lifetime. It ends with the first answer, or with every item expired, and in no other way.
   */
  method PrefetchWithRetry(service: Service, clock: Clock, maxAge: int, items: seq<Item>) returns (pending: seq<Item>, retries: nat)
    modifies service, clock
    ensures clock.now >= old(clock.now)
    ensures exists asked: int :: old(clock.now) <= asked <= clock.now && pending == Eligible(maxAge, asked, items)
    ensures 2 * retries <= Remaining(maxAge, old(clock.now), items) + 1
    ensures old(service.requests) <= service.requests && RetriedUntil(service.requests[|old(service.requests)|..], retries, pending)
    ensures old(clock.slept) <= clock.slept && BackedOff(clock.slept[|old(clock.slept)|..], retries)
  {
    hide RetriedUntil, BackedOff, Eligible, Remaining, Filtered, Expired;
    retries, pending := 0, items;
    ghost var start, requests, slept := clock.now, service.requests, clock.slept;
    NothingTried(requests, slept);
    Unfiltered(maxAge, items, start);
    while true
      invariant clock.now >= start
      invariant Filtered(maxAge, items, start, clock.now, pending)
      invariant 2 * retries + Remaining(maxAge, clock.now, pending) <= Remaining(maxAge, start, items)
                || (Remaining(maxAge, clock.now, pending) == 0 && 2 * retries <= Remaining(maxAge, start, items) + 1)
      invariant requests <= service.requests && RetriedUntil(service.requests[|requests|..], retries, [])
      invariant slept <= clock.slept && BackedOff(clock.slept[|slept|..], retries)
      decreases Remaining(maxAge, clock.now, pending)
    {
      FilterAgain(maxAge, items, start, clock.now, pending);
      EligibleRemaining(maxAge, clock.now, pending);
      pending := DropExpired(maxAge, clock.now, pending);
      if pending == [] {
        return;
      }
      ghost var checked, earlier, sleeps := clock.now, service.requests, clock.slept;
      clock.Pass();
      var available := service.Prefetch(pending);
      OneMoreTry(requests, earlier, slept, sleeps, retries, pending, available);
      if available {
        return;
      }
      retries := retries + 1;
      clock.Sleep(Backoff(retries));
      RemainingShrinks(maxAge, checked, clock.now, pending);
      FilteredStays(maxAge, items, start, checked, clock.now, pending);
    }
  }

  /** The items as they came, or what a check since `start` left of them. */
  ghost predicate Filtered(maxAge: int, items: seq<Item>, start: int, now: int, pending: seq<Item>) {
    pending == items || exists asked: int :: start <= asked <= now && pending == Eligible(maxAge, asked, items)
  }

  lemma Unfiltered(maxAge: int, items: seq<Item>, now: int)
    ensures Filtered(maxAge, items, now, now, items)
  {
  }

  lemma FilterAgain(maxAge: int, items: seq<Item>, start: int, now: int, pending: seq<Item>)
    requires Filtered(maxAge, items, start, now, pending)
    ensures Eligible(maxAge, now, pending) == Eligible(maxAge, now, items)
  {
    hide Eligible;
    if pending != items {
      var asked: int :| start <= asked <= now && pending == Eligible(maxAge, asked, items);
      EligibleTwice(maxAge, asked, now, items);
    }
  }

  lemma FilteredStays(maxAge: int, items: seq<Item>, start: int, asked: int, now: int, pending: seq<Item>)
    requires start <= asked <= now && pending == Eligible(maxAge, asked, items)
    ensures Filtered(maxAge, items, start, now, pending)
  {
    hide Eligible;
  }

  lemma NothingTried(requests: seq<Request>, slept: seq<nat>)
    ensures RetriedUntil(requests[|requests|..], 0, []) && BackedOff(slept[|slept|..], 0)
  {
  }

  lemma OneMoreTry(
    requests: seq<Request>, earlier: seq<Request>, slept: seq<nat>, sleeps: seq<nat>, retries: nat, pending: seq<Item>, answered: bool)
    requires requests <= earlier && RetriedUntil(earlier[|requests|..], retries, []) && pending != []
    requires slept <= sleeps && BackedOff(sleeps[|slept|..], retries)
    ensures var later := earlier + [Request(pending, answered)];
            requests <= later && RetriedUntil(later[|requests|..], if answered then retries else retries + 1, if answered then pending else [])
    ensures var later := sleeps + [Backoff(retries + 1)]; slept <= later && BackedOff(later[|slept|..], retries + 1)
  {
    assert (earlier + [Request(pending, answered)])[|requests|..] == earlier[|requests|..] + [Request(pending, answered)];
    assert (sleeps + [Backoff(retries + 1)])[|slept|..] == sleeps[|slept|..] + [Backoff(retries + 1)];
  }

  // ---- Without a cutoff ----------------------------------------------------------------------

  /** The loop after some failed attempts; `maxAge` absent means no work ever expires. */
  function AfterFailures(maxAge: Option<int>, now: int, items: seq<Item>, failures: nat): (seq<Item>, int) {
    if failures == 0 then (items, now)
    else
      var before := AfterFailures(maxAge, now, items, failures - 1);
      (if maxAge.Some? then Eligible(maxAge.value, before.1, before.0) else before.0, before.1 + Backoff(failures))
  }

  /** Without a cutoff any number of failures leaves the loop where it started, so nothing ends it. */
  lemma {:induction false} NoCutoffNoProgress(now: int, items: seq<Item>, failures: nat)
    ensures AfterFailures(None, now, items, failures).0 == items
  {
    if failures != 0 {
      NoCutoffNoProgress(now, items, failures - 1);
    }
  }

  /** With one, enough failures empty it. */
  lemma {:induction false} CutoffEmpties(maxAge: int, now: int, items: seq<Item>, failures: nat)
    requires failures > 0 && 2 * (failures - 1) >= Remaining(maxAge, now, items)
    ensures AfterFailures(Some(maxAge), now, items, failures).0 == []
  {
    hide Remaining;
    var before := AfterFailures(Some(maxAge), now, items, failures - 1);
    RemainingAfter(maxAge, now, items, failures - 1);
    EligibleRemaining(maxAge, before.1, before.0);
  }

  lemma {:induction false} RemainingAfter(maxAge: int, now: int, items: seq<Item>, failures: nat)
    ensures var r := AfterFailures(Some(maxAge), now, items, failures);
            var left := Remaining(maxAge, r.1, r.0);
            left == 0 || left + 2 * failures <= Remaining(maxAge, now, items)
  {
    hide Remaining, Eligible;
    if failures != 0 {
      RemainingAfter(maxAge, now, items, failures - 1);
      var before := AfterFailures(Some(maxAge), now, items, failures - 1);
      EligibleRemaining(maxAge, before.1, before.0);
      RemainingShrinks(maxAge, before.1, before.1 + Backoff(failures), Eligible(maxAge, before.1, before.0));
    }
  }

  /** A service that never answers leaves the loop exactly if there is a cutoff, or nothing to do in the first place. */
  lemma FailuresEndIff(maxAge: Option<int>, now: int, items: seq<Item>)
    ensures (exists failures :: AfterFailures(maxAge, now, items, failures).0 == []) <==> maxAge.Some? || items == []
  {
    hide Remaining, Eligible;
    if maxAge.Some? {
      CutoffEmpties(maxAge.value, now, items, Remaining(maxAge.value, now, items) + 1);
    } else {
      forall failures ensures AfterFailures(None, now, items, failures).0 == items {
        NoCutoffNoProgress(now, items, failures);
      }
      assert AfterFailures(maxAge, now, items, 0).0 == items;
    }
  }
}
