/**
 The lease pool over one HTTP client per model endpoint (processor/model_client.py): its critical sections
 as state changes, and the object whose methods perform them.
 */
module EndpointPool {
  import opened Outcomes

  /** Clients are numbered as they are created. */
  datatype Pool = Pool(
    clients: map<string, nat>, available: seq<string>, leased: set<string>, stale: set<string>, closed: bool)

  datatype LeaseAttempt = Leased(endpoint: string, client: nat) | NothingFree | NoneUntried | PoolClosed

  function Elements(s: seq<string>): set<string> { set x | x in s }

  predicate Distinct(s: seq<string>) { forall i, j | 0 <= i < j < |s| :: s[i] != s[j] }

  function Without(s: seq<string>, gone: set<string>): seq<string> {
    if s == [] then []
    else Without(s[..|s| - 1], gone) + if s[|s| - 1] in gone then [] else [s[|s| - 1]]
  }

  // ---- Lease ---------------------------------------------------------------------------------

  /** Take endpoints off the front: skip to the back what may not be used, drop what has no client. */
  function Rotate(p: Pool, excluding: set<string>, todo: seq<string>, skipped: seq<string>): (Option<string>, seq<string>) {
    if todo == [] then (None, skipped)
    else if todo[0] in excluding || todo[0] in p.stale then Rotate(p, excluding, todo[1..], skipped + [todo[0]])
    else if todo[0] !in p.clients then Rotate(p, excluding, todo[1..], skipped)
    else (Some(todo[0]), todo[1..] + skipped)
  }

  predicate Untried(p: Pool, excluding: set<string>) {
    exists e | e in p.clients :: e !in excluding && e !in p.stale
  }

  function TryLeased(p: Pool, excluding: set<string>): (LeaseAttempt, Pool) {
    if p.closed then (PoolClosed, p)
    else
      var r := Rotate(p, excluding, p.available, []);
      if r.0.Some? && r.0.value in p.clients
      then (Leased(r.0.value, p.clients[r.0.value]), p.(available := r.1, leased := p.leased + {r.0.value}))
      else (if Untried(p, excluding) then NothingFree else NoneUntried, p.(available := r.1))
  }

  // ---- Release -------------------------------------------------------------------------------

  function Released(p: Pool, endpoint: string, discard: bool): Pool {
    var q := p.(leased := p.leased - {endpoint});
    if discard || endpoint in p.stale then
      q.(clients := p.clients - {endpoint}, stale := p.stale - {endpoint}, available := Without(p.available, {endpoint}))
    else if endpoint in p.clients then q.(available := p.available + [endpoint])
    else q
  }

  /** The client a release closes. */
  function ReleaseCloses(p: Pool, endpoint: string, discard: bool): set<nat> {
    if (discard || endpoint in p.stale) && endpoint in p.clients then {p.clients[endpoint]} else {}
  }

  // ---- Refresh -------------------------------------------------------------------------------

  datatype Addition = Addition(endpoint: string, client: nat)

  /** New endpoints join at the back; one that is pooled already keeps its client. */
  function Joined(p: Pool, additions: seq<Addition>): Pool {
    if additions == [] then p
    else
      var q, last := Joined(p, additions[..|additions| - 1]), additions[|additions| - 1];
      if last.endpoint in q.clients then q
      else q.(clients := q.clients[last.endpoint := last.client], available := q.available + [last.endpoint])
  }

  function Surplus(p: Pool, additions: seq<Addition>): set<nat> {
    if additions == [] then {}
    else
      var last := additions[|additions| - 1];
      Surplus(p, additions[..|additions| - 1])
      + if last.endpoint in Joined(p, additions[..|additions| - 1]).clients then {last.client} else {}
  }

  /** Endpoints that discovery no longer lists: leased ones turn stale, the others leave at once. */
  function Departing(p: Pool, resolved: set<string>): set<string> { p.clients.Keys - resolved - p.leased }

  function Departed(p: Pool, resolved: set<string>): Pool {
    var gone := Departing(p, resolved);
    p.(clients := p.clients - gone,
       stale := p.stale + ((p.clients.Keys - resolved) * p.leased),
       available := Without(p.available, gone))
  }

  function Merged(p: Pool, additions: seq<Addition>, resolved: set<string>): Pool {
    Departed(Joined(p, additions), resolved)
  }

  function MergeCloses(p: Pool, additions: seq<Addition>, resolved: set<string>): set<nat> {
    var q := Joined(p, additions);
    Surplus(p, additions) + ClientsOf(q, Departing(q, resolved))
  }

  function ClientsOf(p: Pool, endpoints: set<string>): set<nat> {
    set e | e in endpoints && e in p.clients :: p.clients[e]
  }

  function ClosedPool(p: Pool): Pool { p.(clients := map[], available := [], stale := {}, closed := true) }

  // ---- What the pool keeps until it is closed ------------------------------------------------

  ghost predicate Sound(p: Pool) {
    && Distinct(p.available)
    && Elements(p.available) !! p.leased
    && Elements(p.available) + p.leased == p.clients.Keys
    && p.stale <= p.leased
  }

  lemma {:induction false} WithoutElements(s: seq<string>, gone: set<string>)
    ensures Elements(Without(s, gone)) == Elements(s) - gone
    ensures Distinct(s) ==> Distinct(Without(s, gone))
  {
    if s != [] {
      var front, last := s[..|s| - 1], s[|s| - 1];
      WithoutElements(front, gone);
      assert s == front + [last];
      var w := Without(front, gone);
      assert Without(s, gone) == if last in gone then w else w + [last];
      assert Elements(s) == Elements(front) + {last};
      assert Elements(w + [last]) == Elements(w) + {last};
      assert Distinct(s) ==> last !in Elements(front) && last !in Elements(w);
    }
  }

  /** The scan takes the first usable endpoint and loses no other pooled one. */
  lemma {:induction false} RotateTakesFirst(p: Pool, excluding: set<string>, todo: seq<string>, skipped: seq<string>)
    requires Distinct(todo + skipped) && Elements(todo) <= p.clients.Keys
    ensures var r := Rotate(p, excluding, todo, skipped);
            && Distinct(r.1)
            && (r.0.None? ==> Elements(r.1) == Elements(todo + skipped))
            && (r.0.Some? ==>
                  && r.0.value in todo && r.0.value in p.clients && r.0.value !in excluding && r.0.value !in p.stale
                  && r.0.value !in r.1
                  && Elements(r.1) == Elements(todo + skipped) - {r.0.value})
    ensures Rotate(p, excluding, todo, skipped).0.None? <==> forall e | e in todo :: e in excluding || e in p.stale
    decreases |todo|
  {
    if todo != [] {
      var rest := todo[1..];
      assert todo == [todo[0]] + rest;
      assert (todo + skipped)[0] == todo[0];
      if todo[0] in excluding || todo[0] in p.stale {
        var next := rest + (skipped + [todo[0]]);
        assert next == (todo + skipped)[1..] + [todo[0]];
        RotateTakesFirst(p, excluding, rest, skipped + [todo[0]]);
        assert forall x :: x in next <==> x in todo + skipped;
      } else {
        assert todo[0] in Elements(todo);
        assert rest + skipped == (todo + skipped)[1..];
        assert forall x :: x in todo + skipped <==> x == todo[0] || x in rest + skipped;
      }
    } else {
      assert todo + skipped == skipped;
    }
  }

  lemma LeaseSound(p: Pool, excluding: set<string>)
    requires Sound(p) && !p.closed
    ensures Sound(TryLeased(p, excluding).1)
    ensures var r := TryLeased(p, excluding).0;
            r.Leased? ==> r.endpoint !in p.leased && r.endpoint !in excluding && r.endpoint !in p.stale && r.endpoint in p.clients
  {
    assert p.available + [] == p.available;
    RotateTakesFirst(p, excluding, p.available, []);
  }

  lemma ReleaseSound(p: Pool, endpoint: string, discard: bool)
    requires Sound(p) && endpoint in p.leased
    ensures Sound(Released(p, endpoint, discard))
  {
    WithoutElements(p.available, {endpoint});
    assert endpoint !in Elements(p.available);
  }

  lemma {:induction false} JoinedSound(p: Pool, additions: seq<Addition>)
    requires Sound(p)
    ensures var q := Joined(p, additions);
            Sound(q) && q.leased == p.leased && q.stale == p.stale && q.closed == p.closed
            && (forall e | e in p.clients :: e in q.clients && q.clients[e] == p.clients[e])
            && (forall e | e in q.clients && e !in p.clients :: Addition(e, q.clients[e]) in additions)
  {
    if additions != [] {
      var front, last := additions[..|additions| - 1], additions[|additions| - 1];
      JoinedSound(p, front);
      assert additions == front + [last];
      var q := Joined(p, front);
      if last.endpoint !in q.clients {
        assert last.endpoint !in Elements(q.available);
        assert Elements(q.available + [last.endpoint]) == Elements(q.available) + {last.endpoint};
      }
    }
  }

  lemma DepartedSound(p: Pool, resolved: set<string>)
    requires Sound(p)
    ensures Sound(Departed(p, resolved))
  {
    WithoutElements(p.available, Departing(p, resolved));
  }

  // ---- What each critical section does to a sound pool -----------------------------------------

  predicate Usable(p: Pool, excluding: set<string>, e: string) { e !in excluding && e !in p.stale }

  ghost predicate FirstUsable(p: Pool, excluding: set<string>, todo: seq<string>, n: nat) {
    n < |todo| && Usable(p, excluding, todo[n]) && forall i | 0 <= i < n :: !Usable(p, excluding, todo[i])
  }

  lemma {:induction false} RotateExact(p: Pool, excluding: set<string>, todo: seq<string>, skipped: seq<string>, n: nat)
    requires Elements(todo) <= p.clients.Keys
    ensures FirstUsable(p, excluding, todo, n) ==>
              Rotate(p, excluding, todo, skipped) == (Some(todo[n]), todo[n + 1..] + skipped + todo[..n])
    ensures (forall e | e in todo :: !Usable(p, excluding, e)) ==> Rotate(p, excluding, todo, skipped) == (None, skipped + todo)
    decreases |todo|
  {
    if todo == [] {
      assert skipped + todo == skipped;
    } else {
      assert todo[0] in Elements(todo);
      assert todo == [todo[0]] + todo[1..];
      if !Usable(p, excluding, todo[0]) {
        var next := skipped + [todo[0]];
        RotateExact(p, excluding, todo[1..], next, if n == 0 then 0 else n - 1);
        assert next + todo[1..] == skipped + todo;
        if FirstUsable(p, excluding, todo, n) {
          assert todo[1..][n - 1] == todo[n] && FirstUsable(p, excluding, todo[1..], n - 1);
          assert todo[1..][n..] + next + todo[1..][..n - 1] == todo[n + 1..] + skipped + todo[..n];
        }
      } else if FirstUsable(p, excluding, todo, n) {
        assert todo[1..] + skipped + todo[..0] == todo[1..] + skipped;
      }
    }
  }

  /**
   A lease takes the first free endpoint that is neither tried nor stale, behind which the queue turns; without one
   it waits as long as some pooled endpoint is neither, and nothing moves.
   */
  lemma LeaseMeans(p: Pool, excluding: set<string>, n: nat)
    requires Sound(p) && !p.closed
    ensures FirstUsable(p, excluding, p.available, n) ==>
              var e := p.available[n];
              && e in p.clients
              && TryLeased(p, excluding) ==
                   (Leased(e, p.clients[e]), p.(available := p.available[n + 1..] + p.available[..n], leased := p.leased + {e}))
    ensures (forall e | e in p.available :: !Usable(p, excluding, e)) ==>
              TryLeased(p, excluding) ==
                (if exists e :: e in p.clients && e !in excluding && e !in p.stale then NothingFree else NoneUntried, p)
  {
    hide Rotate, Distinct;
    assert Elements(p.available) <= p.clients.Keys;
    RotateExact(p, excluding, p.available, [], n);
    assert [] + p.available == p.available;
    if n < |p.available| {
      assert p.available[n] in Elements(p.available);
      assert p.available[n + 1..] + [] + p.available[..n] == p.available[n + 1..] + p.available[..n];
    }
  }

  lemma {:induction false} WithoutOthers(s: seq<string>, gone: set<string>)
    requires forall x | x in s :: x !in gone
    ensures Without(s, gone) == s
  {
    if s != [] {
      assert s[|s| - 1] in s;
      assert s == s[..|s| - 1] + [s[|s| - 1]];
      WithoutOthers(s[..|s| - 1], gone);
    }
  }

  /** A released endpoint goes to the back of the queue, unless it failed or is stale: then it leaves with its client. */
  lemma ReleaseMeans(p: Pool, e: string, discard: bool)
    requires Sound(p) && e in p.leased
    ensures var next := Released(p, e, discard);
            if discard || e in p.stale
            then next == p.(clients := p.clients - {e}, stale := p.stale - {e}, leased := p.leased - {e})
                 && ReleaseCloses(p, e, discard) == {p.clients[e]}
            else next == p.(available := p.available + [e], leased := p.leased - {e}) && ReleaseCloses(p, e, discard) == {}
  {
    assert e !in Elements(p.available);
    WithoutOthers(p.available, {e});
    assert e in Elements(p.available) + p.leased;
  }

  ghost function Added(additions: seq<Addition>): set<string> { set a | a in additions :: a.endpoint }

  lemma {:induction false} JoinedMeans(p: Pool, additions: seq<Addition>)
    ensures Joined(p, additions).clients.Keys == p.clients.Keys + Added(additions)
  {
    if additions != [] {
      var front, last := additions[..|additions| - 1], additions[|additions| - 1];
      JoinedMeans(p, front);
      assert additions == front + [last];
      assert Added(additions) == Added(front) + {last.endpoint};
    }
  }

  /**
   After a refresh exactly the listed endpoints among the pooled and the added ones are pooled, and besides them the
   unlisted ones that are still leased, which are stale; every pooled endpoint that is not leased is free.
   */
  lemma MergeMeans(p: Pool, additions: seq<Addition>, resolved: set<string>)
    requires Sound(p)
    ensures var next := Merged(p, additions, resolved);
            && next.clients.Keys == (set e | e in p.clients.Keys + Added(additions) && (e in resolved || e in p.leased))
            && (forall e | e in next.clients && e in p.clients :: next.clients[e] == p.clients[e])
            && (forall e | e in next.clients && e !in p.clients :: Addition(e, next.clients[e]) in additions)
            && next.leased == p.leased && next.closed == p.closed
            && next.stale == p.stale + (p.leased - resolved)
            && Elements(next.available) == next.clients.Keys - p.leased && Distinct(next.available)
  {
    var q := Joined(p, additions);
    JoinedSound(p, additions);
    JoinedMeans(p, additions);
    DepartedSound(q, resolved);
    hide Joined;
    var next := Departed(q, resolved);
    assert next == Merged(p, additions, resolved);
    assert p.leased <= p.clients.Keys;
    assert (q.clients.Keys - resolved) * q.leased == p.leased - resolved;
    assert Elements(next.available) == next.clients.Keys - p.leased;
  }

  // ---- The object ----------------------------------------------------------------------------

  class EndpointPool {
    var clients: map<string, nat>
    var available: seq<string>
    var leased: set<string>
    var stale: set<string>
    var closed: bool

    function View(): Pool
      reads this
    {
      Pool(clients, available, leased, stale, closed)
    }

    constructor ()
      ensures View() == Pool(map[], [], {}, {}, false)
    {
      clients, available, leased, stale, closed := map[], [], {}, {}, false;
    }

    /** The critical section of one pass through the lease loop. */
    method TryLease(excluding: set<string>) returns (r: LeaseAttempt)
      modifies this
      ensures (r, View()) == TryLeased(old(View()), excluding)
    {
      if closed {
        return PoolClosed;
      }
      ghost var todo, skipped := available, [];
      for n := 0 to |available|
        invariant n + |todo| == |old(available)|
        invariant available == todo + skipped
        invariant View() == old(View()).(available := available)
        invariant Rotate(old(View()), excluding, old(available), []) == Rotate(old(View()), excluding, todo, skipped)
      {
        var endpoint := available[0];
        available := available[1..];
        ghost var rest := todo[1..];
        assert endpoint == todo[0] && available == rest + skipped;
        if endpoint in excluding || endpoint in stale {
          available := available + [endpoint];
          todo, skipped := rest, skipped + [endpoint];
        } else if endpoint !in clients {
          todo := rest;
        } else {
          leased := leased + {endpoint};
          return Leased(endpoint, clients[endpoint]);
        }
      }
      assert todo == [] && available == skipped;
      r := if Untried(View(), excluding) then NothingFree else NoneUntried;
    }

    method Filtered(gone: set<string>) returns (kept: seq<string>)
      ensures kept == Without(available, gone)
    {
      kept := [];
      for n := 0 to |available|
        invariant kept == Without(available[..n], gone)
      {
        assert available[..n + 1][..n] == available[..n];
        if available[n] !in gone {
          kept := kept + [available[n]];
        }
      }
      assert available[..|available|] == available;
    }

    method Release(endpoint: string, discard: bool) returns (toClose: Option<nat>)
      modifies this
      ensures View() == Released(old(View()), endpoint, discard)
      ensures (if toClose.Some? then {toClose.value} else {}) == ReleaseCloses(old(View()), endpoint, discard)
    {
      toClose := None;
      leased := leased - {endpoint};
      if discard || endpoint in stale {
        if endpoint in clients {
          toClose := Some(clients[endpoint]);
        }
        clients := clients - {endpoint};
        stale := stale - {endpoint};
        available := Filtered({endpoint});
      } else if endpoint in clients {
        available := available + [endpoint];
      }
    }

    /** The merge at the end of a refresh, over clients built outside the lock. */
    method MergeRefresh(additions: seq<Addition>, resolved: set<string>) returns (toClose: set<nat>)
      modifies this
      ensures View() == Merged(old(View()), additions, resolved)
      ensures toClose == MergeCloses(old(View()), additions, resolved)
    {
      toClose := {};
      for n := 0 to |additions|
        invariant View() == Joined(old(View()), additions[..n]) && toClose == Surplus(old(View()), additions[..n])
      {
        assert additions[..n + 1][..n] == additions[..n];
        if additions[n].endpoint !in clients {
          clients := clients[additions[n].endpoint := additions[n].client];
          available := available + [additions[n].endpoint];
        } else {
          toClose := toClose + {additions[n].client};
        }
      }
      assert additions[..|additions|] == additions;
      var left := DepartUnlisted(resolved);
      toClose := toClose + left;
    }

    /** Remove, or mark stale, the pooled endpoints discovery no longer lists. */
    method DepartUnlisted(resolved: set<string>) returns (toClose: set<nat>)
      modifies this
      ensures View() == Departed(old(View()), resolved)
      ensures toClose == ClientsOf(old(View()), Departing(old(View()), resolved))
    {
      hide DepartedAmong, ClientsOf, Without, Partition, Departed, Departing;
      toClose := {};
      ghost var q, seen: set<string> := View(), {};
      var unlisted := clients.Keys - resolved;
      NobodyDeparted(q);
      while unlisted != {}
        invariant Partition(seen, unlisted, q.clients.Keys - resolved)
        invariant View() == DepartedAmong(q, seen)
        invariant toClose == ClientsOf(q, seen - q.leased)
        decreases |unlisted|
      {
        var endpoint :| endpoint in unlisted;
        MoveOne(seen, unlisted, endpoint, q.clients.Keys - resolved);
        OneMoreDeparted(q, seen, endpoint);
        unlisted := unlisted - {endpoint};
        if endpoint in leased {
          stale := stale + {endpoint};
        } else {
          toClose := toClose + {clients[endpoint]};
          clients := clients - {endpoint};
          available := Filtered({endpoint});
        }
        seen := seen + {endpoint};
      }
      AllDeparted(q, seen, resolved);
    }

    method Close() returns (toClose: set<nat>)
      modifies this
      ensures View() == ClosedPool(old(View()))
      ensures toClose == old(clients.Values)
    {
      closed := true;
      toClose := clients.Values;
      clients, available, stale := map[], [], {};
    }
  }

  /** `Departed` restricted to the endpoints in `seen`. */
  ghost function DepartedAmong(p: Pool, seen: set<string>): Pool {
    p.(clients := p.clients - (seen - p.leased),
       stale := p.stale + seen * p.leased,
       available := Without(p.available, seen - p.leased))
  }

  ghost predicate Partition(seen: set<string>, rest: set<string>, all: set<string>) { seen + rest == all && seen !! rest }

  lemma MoveOne(seen: set<string>, rest: set<string>, e: string, all: set<string>)
    requires Partition(seen, rest, all) && e in rest
    ensures Partition(seen + {e}, rest - {e}, all) && e in all && e !in seen && |rest - {e}| < |rest|
  {
  }

  lemma NobodyDeparted(p: Pool)
    ensures DepartedAmong(p, {}) == p && ClientsOf(p, {} - p.leased) == {}
    ensures forall all :: Partition({}, all, all)
  {
    assert {} - p.leased == {};
    WithoutNone(p.available);
    assert p.clients - {} == p.clients;
  }

  lemma AllDeparted(p: Pool, seen: set<string>, resolved: set<string>)
    requires Partition(seen, {}, p.clients.Keys - resolved)
    ensures DepartedAmong(p, seen) == Departed(p, resolved) && seen - p.leased == Departing(p, resolved)
  {
    assert seen == p.clients.Keys - resolved;
    assert seen - p.leased == Departing(p, resolved);
  }

  lemma OneMoreDeparted(p: Pool, seen: set<string>, e: string)
    requires e in p.clients.Keys && e !in seen
    ensures var now, next := DepartedAmong(p, seen), DepartedAmong(p, seen + {e});
            && now.leased == p.leased
            && (e in p.leased ==>
                  && next == now.(stale := now.stale + {e})
                  && ClientsOf(p, seen + {e} - p.leased) == ClientsOf(p, seen - p.leased))
            && (e !in p.leased ==>
                  && e in now.clients
                  && next == now.(clients := now.clients - {e}, available := Without(now.available, {e}))
                  && ClientsOf(p, seen + {e} - p.leased) == ClientsOf(p, seen - p.leased) + {now.clients[e]})
  {
    hide Without;
    if e in p.leased {
      assert seen + {e} - p.leased == seen - p.leased;
      assert (seen + {e}) * p.leased == seen * p.leased + {e};
    } else {
      assert seen + {e} - p.leased == (seen - p.leased) + {e};
      assert (seen + {e}) * p.leased == seen * p.leased;
      WithoutTwice(p.available, seen - p.leased, {e});
      assert p.clients - ((seen - p.leased) + {e}) == p.clients - (seen - p.leased) - {e};
    }
  }

  lemma {:induction false} WithoutNone(s: seq<string>)
    ensures Without(s, {}) == s
  {
    if s != [] {
      WithoutNone(s[..|s| - 1]);
    }
  }

  lemma {:induction false} WithoutTwice(s: seq<string>, a: set<string>, b: set<string>)
    ensures Without(Without(s, a), b) == Without(s, a + b)
  {
    if s != [] {
      var front, last := s[..|s| - 1], s[|s| - 1];
      assert s == front + [last];
      WithoutTwice(front, a, b);
      hide Without;
      var w := Without(front, a);
      assert w + [] == w && Without(w, b) + [] == Without(w, b) && Without(front, a + b) + [] == Without(front, a + b);
    }
  }
}
