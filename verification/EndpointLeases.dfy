/** Requests leasing endpoints during refresh and close (processor/model_client.py). */
module EndpointLeases {
  import opened Outcomes
  import opened EndpointPool

  // Any number of requests lease endpoints while discovery refreshes the pool and the pool may be closed. A
  // refresh is three steps: it snapshots the pooled endpoints, builds clients outside the lock, and merges them;
  // the refresh lock admits one at a time.

  datatype Phase = Idle | Leasing | Holding(endpoint: string, client: nat)

  /** One `post`: the endpoints it leased so far, the held one last. */
  datatype Post = Post(phase: Phase, tried: seq<string>)

  datatype Refresh = Building(resolved: set<string>, current: set<string>)

  /** `minted` counts the clients ever created; `shut` collects those closed. */
  datatype System = System(pool: Pool, refresh: Option<Refresh>, posts: map<nat, Post>, minted: nat, shut: set<nat>)

  datatype Answer = Success | Unavailable | Broken

  datatype Action =
    | BeginPost(id: nat)
    | TryLease(id: nat)
    | Respond(id: nat, answer: Answer)
    | LeaseRaises(id: nat)
    | StartRefresh(resolved: set<string>)
    | MergeRefresh(built: seq<string>)
    | AbortRefresh
    | Close

  function Boot(ids: set<nat>): System {
    System(Pool(map[], [], {}, {}, false), None, map id | id in ids :: Post(Idle, []), 0, {})
  }

  function AdditionsOf(built: seq<string>, minted: nat): seq<Addition> {
    seq(|built|, i requires 0 <= i < |built| => Addition(built[i], minted + i))
  }

  function SetPost(s: System, id: nat, post: Post): System { s.(posts := s.posts[id := post]) }

  function Lease(s: System, id: nat): System
    requires id in s.posts
  {
    var post := s.posts[id];
    var r := TryLeased(s.pool, Elements(post.tried));
    var next := s.(pool := r.1);
    match r.0
    case Leased(e, client) => SetPost(next, id, Post(Holding(e, client), post.tried + [e]))
    case NothingFree => next
    case NoneUntried => SetPost(next, id, post.(phase := Idle))
    case PoolClosed => SetPost(next, id, post.(phase := Idle))
  }

  /** Only an unavailable endpoint is discarded, and only the first of a post leads to another. */
  function Answered(s: System, id: nat, answer: Answer): System
    requires id in s.posts && s.posts[id].phase.Holding?
  {
    var post := s.posts[id];
    var discard := answer == Unavailable;
    var next := s.(pool := Released(s.pool, post.phase.endpoint, discard),
                   shut := s.shut + ReleaseCloses(s.pool, post.phase.endpoint, discard));
    SetPost(next, id, post.(phase := if answer == Unavailable && |post.tried| < 2 then Leasing else Idle))
  }

  /** When the merge leaves no client the refresh raises before it closes the removed ones. */
  function Merge(s: System, built: seq<string>): System
    requires s.refresh.Some?
  {
    var additions := AdditionsOf(built, s.minted);
    var resolved := s.refresh.value.resolved;
    var pool := Merged(s.pool, additions, resolved);
    s.(pool := pool, refresh := None, minted := s.minted + |built|,
       shut := if pool.clients == map[] then s.shut else s.shut + MergeCloses(s.pool, additions, resolved))
  }

  function Step(s: System, a: Action): System {
    match a
    case BeginPost(id) =>
      if id in s.posts && s.posts[id].phase.Idle? then SetPost(s, id, Post(Leasing, [])) else s
    case TryLease(id) => if id in s.posts && s.posts[id].phase.Leasing? then Lease(s, id) else s
    case Respond(id, answer) => if id in s.posts && s.posts[id].phase.Holding? then Answered(s, id, answer) else s
    case LeaseRaises(id) =>
      if id in s.posts && s.posts[id].phase.Leasing? then SetPost(s, id, s.posts[id].(phase := Idle)) else s
    case StartRefresh(resolved) =>
      if s.refresh.None? && resolved != {} then s.(refresh := Some(Building(resolved, s.pool.clients.Keys))) else s
    case MergeRefresh(built) =>
      if s.refresh.Some? && Distinct(built) && Elements(built) <= s.refresh.value.resolved - s.refresh.value.current
      then Merge(s, built) else s
    case AbortRefresh => s.(refresh := None)
    case Close => s.(pool := ClosedPool(s.pool), shut := s.shut + s.pool.clients.Values)
  }

  function Run(s: System, actions: seq<Action>): System {
    if actions == [] then s else Step(Run(s, actions[..|actions| - 1]), actions[|actions| - 1])
  }

  // ---- Invariants ----------------------------------------------------------------------------

  predicate Holds(s: System, id: nat) { id in s.posts && s.posts[id].phase.Holding? }

  function Held(s: System, id: nat): string
    requires Holds(s, id)
  {
    s.posts[id].phase.endpoint
  }

  /** The leased set is exactly what the requests hold, and no two hold the same endpoint. */
  ghost predicate LeasesOk(s: System) {
    && (forall a, b | Holds(s, a) && Holds(s, b) && Held(s, a) == Held(s, b) :: a == b)
    && (forall a | Holds(s, a) :: Held(s, a) in s.pool.leased)
    && (forall e | e in s.pool.leased :: exists a :: Holds(s, a) && Held(s, a) == e)
  }

  ghost predicate PostOk(post: Post) {
    && Distinct(post.tried) && |post.tried| <= 2
    && (post.phase.Leasing? ==> |post.tried| <= 1)
    && (post.phase.Holding? ==> post.tried != [] && post.tried[|post.tried| - 1] == post.phase.endpoint)
  }

  ghost predicate PostsOk(s: System) { forall id | id in s.posts :: PostOk(s.posts[id]) }

  /** Until the pool is closed a pooled client is open and belongs to one endpoint. */
  ghost predicate ClientsOk(s: System) {
    && (forall e | e in s.pool.clients :: s.pool.clients[e] < s.minted && s.pool.clients[e] !in s.shut)
    && (forall e, f | e in s.pool.clients && f in s.pool.clients && s.pool.clients[e] == s.pool.clients[f] :: e == f)
    && (forall n | n in s.shut :: n < s.minted)
  }

  ghost predicate HeldPooled(s: System) {
    forall a | Holds(s, a) :: Held(s, a) in s.pool.clients && s.pool.clients[Held(s, a)] == s.posts[a].phase.client
  }

  ghost predicate OpenOk(s: System) {
    && Sound(s.pool) && ClientsOk(s) && HeldPooled(s)
    && (s.refresh.Some? ==> s.pool.clients.Keys <= s.refresh.value.current)
  }

  ghost predicate Invariant(s: System) {
    LeasesOk(s) && PostsOk(s) && (!s.pool.closed ==> OpenOk(s))
  }

  // ---- Steps ---------------------------------------------------------------------------------

  lemma LeaseKeeps(s: System, id: nat)
    requires Invariant(s) && id in s.posts && s.posts[id].phase.Leasing?
    ensures Invariant(Lease(s, id))
  {
    hide Rotate, Sound;
    if !s.pool.closed {
      LeaseSound(s.pool, Elements(s.posts[id].tried));
    }
    var r := TryLeased(s.pool, Elements(s.posts[id].tried));
    if r.0.Leased? {
      LeaseTakes(s, id, r.0.endpoint, r.0.client, r.1);
    } else {
      assert PostOk(s.posts[id]);
      SameLeases(s, Lease(s, id));
    }
  }

  lemma LeaseTakes(s: System, id: nat, e: string, client: nat, pool: Pool)
    requires Invariant(s) && id in s.posts && s.posts[id].phase.Leasing? && !s.pool.closed
    requires e !in s.pool.leased && e !in Elements(s.posts[id].tried) && e in s.pool.clients && client == s.pool.clients[e]
    requires Sound(pool) && pool == s.pool.(available := pool.available, leased := s.pool.leased + {e})
    ensures Invariant(SetPost(s.(pool := pool), id, Post(Holding(e, client), s.posts[id].tried + [e])))
  {
    hide Sound;
    var next := SetPost(s.(pool := pool), id, Post(Holding(e, client), s.posts[id].tried + [e]));
    assert PostOk(s.posts[id]);
    assert Holds(next, id) && Held(next, id) == e;
    forall f | f in pool.leased ensures exists a :: Holds(next, a) && Held(next, a) == f {
      if f != e {
        var a :| Holds(s, a) && Held(s, a) == f;
        assert Holds(next, a) && Held(next, a) == f;
      }
    }
  }

  lemma AnswerKeepsLeases(s: System, id: nat, answer: Answer)
    requires Invariant(s) && Holds(s, id)
    ensures LeasesOk(Answered(s, id, answer)) && PostsOk(Answered(s, id, answer))
  {
    var next := Answered(s, id, answer);
    assert PostOk(s.posts[id]);
    forall a | Holds(next, a) ensures Holds(s, a) && a != id && Held(next, a) == Held(s, a) {
    }
    assert next.pool.leased == s.pool.leased - {Held(s, id)};
    forall f | f in next.pool.leased ensures exists a :: Holds(next, a) && Held(next, a) == f {
      var a :| Holds(s, a) && Held(s, a) == f;
      assert a != id;
      assert Holds(next, a) && Held(next, a) == f;
    }
  }

  lemma AnswerKeeps(s: System, id: nat, answer: Answer)
    requires Invariant(s) && Holds(s, id)
    ensures Invariant(Answered(s, id, answer))
  {
    AnswerKeepsLeases(s, id, answer);
    if !s.pool.closed {
      AnswerKeepsOpen(s, id, answer);
    }
    hide OpenOk, LeasesOk, PostsOk;
  }

  lemma AnswerKeepsOpen(s: System, id: nat, answer: Answer)
    requires LeasesOk(s) && OpenOk(s) && Holds(s, id)
    ensures OpenOk(Answered(s, id, answer))
  {
    ReleaseSound(s.pool, Held(s, id), answer == Unavailable);
    hide Sound, LeasesOk;
    var next := Answered(s, id, answer);
    forall a | Holds(next, a)
      ensures Held(next, a) in next.pool.clients && next.pool.clients[Held(next, a)] == next.posts[a].phase.client
    {
      assert a != id && Holds(s, a);
      OthersKeepTheirs(s, a, id);
    }
  }

  lemma OthersKeepTheirs(s: System, a: nat, b: nat)
    requires LeasesOk(s) && Holds(s, a) && Holds(s, b) && a != b
    ensures Held(s, a) != Held(s, b)
  {
  }

  /** The pool after the additions of a refresh, of which none was pooled before. */
  ghost predicate AllJoined(p: Pool, built: seq<string>, minted: nat, q: map<string, nat>) {
    && (forall e | e in p.clients :: e in q && q[e] == p.clients[e])
    && (forall e | e in q && e !in p.clients ::
          minted <= q[e] < minted + |built| && built[q[e] - minted] == e)
  }

  lemma JoinOne(p: Pool, front: seq<string>, last: string, minted: nat, q: map<string, nat>)
    requires AllJoined(p, front, minted, q) && last !in p.clients && last !in front
    ensures last !in q
    ensures AllJoined(p, front + [last], minted, q[last := minted + |front|])
  {
    forall e | e in q && e !in p.clients ensures e in front {
      assert front[q[e] - minted] in front;
    }
  }

  lemma AdditionsSnoc(front: seq<string>, last: string, minted: nat)
    ensures AdditionsOf(front + [last], minted) == AdditionsOf(front, minted) + [Addition(last, minted + |front|)]
  {
  }

  lemma JoinedSnoc(p: Pool, additions: seq<Addition>, last: Addition)
    requires last.endpoint !in Joined(p, additions).clients
    ensures Joined(p, additions + [last]).clients == Joined(p, additions).clients[last.endpoint := last.client]
    ensures Surplus(p, additions + [last]) == Surplus(p, additions)
  {
    assert (additions + [last])[..|additions|] == additions;
  }

  lemma {:induction false} JoinedPool(p: Pool, built: seq<string>, minted: nat)
    requires Distinct(built) && forall x | x in built :: x !in p.clients
    ensures Surplus(p, AdditionsOf(built, minted)) == {}
    ensures AllJoined(p, built, minted, Joined(p, AdditionsOf(built, minted)).clients)
  {
    hide AllJoined, Joined, Surplus, AdditionsOf, Distinct;
    if built == [] {
      JoinedNothing(p, minted);
    } else {
      var front, last := built[..|built| - 1], built[|built| - 1];
      DistinctSnoc(built);
      JoinedPool(p, front, minted);
      JoinOne(p, front, last, minted, Joined(p, AdditionsOf(front, minted)).clients);
      AdditionsSnoc(front, last, minted);
      JoinedSnoc(p, AdditionsOf(front, minted), Addition(last, minted + |front|));
    }
  }

  lemma JoinedNothing(p: Pool, minted: nat)
    ensures Surplus(p, AdditionsOf([], minted)) == {}
    ensures AllJoined(p, [], minted, Joined(p, AdditionsOf([], minted)).clients)
  {
  }

  lemma DistinctSnoc(s: seq<string>)
    requires s != [] && Distinct(s)
    ensures var front, last := s[..|s| - 1], s[|s| - 1];
            Distinct(front) && last !in front && s == front + [last] && forall x | x in front :: x in s
  {
  }

  ghost predicate JoinedOk(clients: map<string, nat>, minted: nat, shut: set<nat>) {
    && (forall e | e in clients :: clients[e] < minted && clients[e] !in shut)
    && (forall e, f | e in clients && f in clients && clients[e] == clients[f] :: e == f)
  }

  lemma JoinedPoolOk(s: System, built: seq<string>)
    requires ClientsOk(s) && Distinct(built) && forall x | x in built :: x !in s.pool.clients
    ensures JoinedOk(Joined(s.pool, AdditionsOf(built, s.minted)).clients, s.minted + |built|, s.shut)
  {
    JoinedPool(s.pool, built, s.minted);
    hide Joined, AdditionsOf;
  }

  /** Closing the departing clients closes none that stays. */
  lemma DepartingOk(q: Pool, minted: nat, shut: set<nat>, resolved: set<string>)
    requires JoinedOk(q.clients, minted, shut)
    ensures JoinedOk(Departed(q, resolved).clients, minted, shut + ClientsOf(q, Departing(q, resolved)))
    ensures forall n | n in ClientsOf(q, Departing(q, resolved)) :: n < minted
  {
  }

  /** The clients a refresh adds are new, and those it closes are no longer pooled. */
  lemma MergeKeepsClients(s: System, built: seq<string>)
    requires OpenOk(s) && s.refresh.Some? && Distinct(built)
    requires Elements(built) <= s.refresh.value.resolved - s.refresh.value.current
    ensures ClientsOk(Merge(s, built))
  {
    hide Sound, Joined, Departed, Departing, ClientsOf, Surplus, AdditionsOf, AllJoined, Distinct, HeldPooled, Elements, JoinedOk;
    NoneBuiltIsPooled(s, built);
    JoinedPool(s.pool, built, s.minted);
    JoinedPoolOk(s, built);
    DepartingOk(Joined(s.pool, AdditionsOf(built, s.minted)), s.minted + |built|, s.shut, s.refresh.value.resolved);
  }

  lemma NoneBuiltIsPooled(s: System, built: seq<string>)
    requires OpenOk(s) && s.refresh.Some? && Elements(built) <= s.refresh.value.resolved - s.refresh.value.current
    ensures forall x | x in built :: x !in s.pool.clients
  {
    forall x | x in built ensures x !in s.pool.clients {
      assert x in Elements(built);
    }
  }

  lemma MergeKeeps(s: System, built: seq<string>)
    requires Invariant(s) && s.refresh.Some? && Distinct(built)
    requires Elements(built) <= s.refresh.value.resolved - s.refresh.value.current
    ensures Invariant(Merge(s, built))
  {
    var additions, resolved := AdditionsOf(built, s.minted), s.refresh.value.resolved;
    var next := Merge(s, built);
    JoinedLeased(s.pool, additions);
    assert forall a :: Holds(next, a) <==> Holds(s, a);
    assert LeasesOk(next) by {
      forall e | e in next.pool.leased ensures exists a :: Holds(next, a) && Held(next, a) == e {
        var a :| Holds(s, a) && Held(s, a) == e;
        assert Holds(next, a);
      }
    }
    if !s.pool.closed {
      MergeKeepsClients(s, built);
      JoinedSound(s.pool, additions);
      DepartedSound(Joined(s.pool, additions), resolved);
    }
  }

  lemma {:induction false} JoinedLeased(p: Pool, additions: seq<Addition>)
    ensures var q := Joined(p, additions); q.leased == p.leased && q.closed == p.closed
  {
    if additions != [] {
      JoinedLeased(p, additions[..|additions| - 1]);
    }
  }

  lemma StepKeeps(s: System, a: Action)
    requires Invariant(s)
    ensures Invariant(Step(s, a))
  {
    match a
    case BeginPost(id) => SameLeases(s, Step(s, a));
    case TryLease(id) =>
      if id in s.posts && s.posts[id].phase.Leasing? {
        LeaseKeeps(s, id);
      }
    case Respond(id, answer) =>
      if Holds(s, id) {
        AnswerKeeps(s, id, answer);
      }
    case LeaseRaises(id) => SameLeases(s, Step(s, a));
    case StartRefresh(_) => SameLeases(s, Step(s, a));
    case MergeRefresh(built) =>
      if s.refresh.Some? && Distinct(built) && Elements(built) <= s.refresh.value.resolved - s.refresh.value.current {
        MergeKeeps(s, built);
      }
    case AbortRefresh => SameLeases(s, Step(s, a));
    case Close =>
      var next := Step(s, a);
      assert forall i :: Holds(next, i) <==> Holds(s, i);
      forall e | e in next.pool.leased ensures exists i :: Holds(next, i) && Held(next, i) == e {
        var i :| Holds(s, i) && Held(s, i) == e;
        assert Holds(next, i);
      }
  }

  /** Steps that change neither the pooled clients nor who holds what. */
  lemma SameLeases(s: System, next: System)
    requires Invariant(s) && next.pool == s.pool.(available := next.pool.available)
    requires next.minted == s.minted && next.shut == s.shut
    requires forall id :: Holds(next, id) <==> Holds(s, id)
    requires forall id | Holds(s, id) :: Holds(next, id) && next.posts[id] == s.posts[id]
    requires PostsOk(next) && (!s.pool.closed ==> Sound(next.pool))
    requires next.refresh == s.refresh || next.refresh.None? || next.refresh.value.current == s.pool.clients.Keys
    ensures Invariant(next)
  {
    hide Sound;
    forall e | e in next.pool.leased ensures exists i :: Holds(next, i) && Held(next, i) == e {
      var i :| Holds(s, i) && Held(s, i) == e;
      assert Holds(next, i);
    }
  }

  lemma {:induction false} RunKeeps(ids: set<nat>, actions: seq<Action>)
    ensures Invariant(Run(Boot(ids), actions))
  {
    if actions != [] {
      RunKeeps(ids, actions[..|actions| - 1]);
      StepKeeps(Run(Boot(ids), actions[..|actions| - 1]), actions[|actions| - 1]);
    }
  }

  // ---- The pool's promises -------------------------------------------------------------------

  /** Until it is closed, free and leased endpoints partition the pooled clients. */
  lemma PoolIsPartitioned(ids: set<nat>, actions: seq<Action>)
    ensures var p := Run(Boot(ids), actions).pool;
            !p.closed ==>
              && Distinct(p.available) && Elements(p.available) !! p.leased
              && Elements(p.available) + p.leased == p.clients.Keys && p.stale <= p.leased
  {
    RunKeeps(ids, actions);
  }

  /** In every run, also after the pool is closed, no endpoint is held by two requests. */
  lemma NoEndpointHeldTwice(ids: set<nat>, actions: seq<Action>, a: nat, b: nat)
    requires var s := Run(Boot(ids), actions); Holds(s, a) && Holds(s, b) && a != b
    ensures var s := Run(Boot(ids), actions); Held(s, a) != Held(s, b)
  {
    RunKeeps(ids, actions);
  }

  /** Until the pool is closed a request works on its endpoint's own pooled client, which is open. */
  lemma HeldClientIsOpen(ids: set<nat>, actions: seq<Action>, a: nat)
    requires var s := Run(Boot(ids), actions); Holds(s, a) && !s.pool.closed
    ensures var s := Run(Boot(ids), actions);
            var client := s.posts[a].phase.client;
            && Held(s, a) in s.pool.clients && s.pool.clients[Held(s, a)] == client && client !in s.shut
  {
    RunKeeps(ids, actions);
  }

  /** One post leases at most two endpoints, and they differ. */
  lemma PostTriesTwoEndpoints(ids: set<nat>, actions: seq<Action>, id: nat)
    requires id in ids
    ensures var s := Run(Boot(ids), actions);
            id in s.posts && |s.posts[id].tried| <= 2 && Distinct(s.posts[id].tried)
  {
    RunKeeps(ids, actions);
    PostsRemain(ids, actions, id);
  }

  lemma {:induction false} PostsRemain(ids: set<nat>, actions: seq<Action>, id: nat)
    requires id in ids
    ensures id in Run(Boot(ids), actions).posts
  {
    if actions != [] {
      PostsRemain(ids, actions[..|actions| - 1], id);
    }
  }

  // ---- What one post gets --------------------------------------------------------------------

  /**
   A post whose first endpoint is unavailable is served by another one, if another usable one is free: the failed
   endpoint and its client are gone from the pool.
   */
  lemma SecondEndpointServes(ids: set<nat>, actions: seq<Action>, id: nat, other: string)
    requires var s := Run(Boot(ids), actions);
             && Holds(s, id) && |s.posts[id].tried| == 1 && !s.pool.closed
             && other in s.pool.available && other !in s.pool.stale
    ensures var s := Run(Boot(ids), actions);
            var after := Run(Boot(ids), actions + [Respond(id, Unavailable), TryLease(id)]);
            && Holds(after, id) && after.posts[id].tried == [Held(s, id), Held(after, id)] && Held(after, id) != Held(s, id)
            && Held(s, id) !in after.pool.clients && s.posts[id].phase.client in after.shut
  {
    RunKeeps(ids, actions);
    RunTwo(Boot(ids), actions, Respond(id, Unavailable), TryLease(id));
    var s := Run(Boot(ids), actions);
    hide Run, Answered, Lease, Invariant;
    AnswerKeeps(s, id, Unavailable);
    FirstFails(s, id, other);
    LeaseServes(Answered(s, id, Unavailable), id, Held(s, id), other);
  }

  lemma FirstFails(s: System, id: nat, other: string)
    requires Invariant(s) && Holds(s, id) && |s.posts[id].tried| == 1 && !s.pool.closed
    requires other in s.pool.available && other !in s.pool.stale
    ensures var next, e := Answered(s, id, Unavailable), Held(s, id);
            && id in next.posts && next.posts[id] == Post(Leasing, [e]) && !next.pool.closed
            && e !in next.pool.clients && s.posts[id].phase.client in next.shut
            && other in next.pool.available && other !in next.pool.stale && other != e
  {
    assert PostOk(s.posts[id]) && s.posts[id].tried == [Held(s, id)];
    ReleaseMeans(s.pool, Held(s, id), true);
    assert other in Elements(s.pool.available);
    assert s.pool.clients[Held(s, id)] == s.posts[id].phase.client;
  }

  lemma LeaseServes(s: System, id: nat, failed: string, other: string)
    requires Invariant(s) && id in s.posts && s.posts[id] == Post(Leasing, [failed]) && !s.pool.closed
    requires failed !in s.pool.clients && other in s.pool.available && other !in s.pool.stale && other != failed
    ensures var after := Lease(s, id);
            && Holds(after, id) && after.posts[id].tried == [failed, Held(after, id)] && Held(after, id) != failed
            && failed !in after.pool.clients && after.shut == s.shut
  {
    hide LeasesOk, PostsOk, ClientsOk, HeldPooled, TryLeased, Rotate;
    assert Elements([failed]) == {failed};
    var n := LeastUsable(s.pool, {failed}, s.pool.available, other);
    LeaseMeans(s.pool, {failed}, n);
  }

  lemma {:induction false} LeastUsable(p: Pool, excluding: set<string>, todo: seq<string>, e: string) returns (n: nat)
    requires e in todo && Usable(p, excluding, e)
    ensures FirstUsable(p, excluding, todo, n)
  {
    if Usable(p, excluding, todo[0]) {
      n := 0;
    } else {
      n := LeastUsable(p, excluding, todo[1..], e);
      n := n + 1;
      assert forall i | 0 < i < n :: todo[i] == todo[1..][i - 1];
    }
  }

  lemma RunTwo(s: System, actions: seq<Action>, a: Action, b: Action)
    ensures Run(s, actions + [a, b]) == Step(Step(Run(s, actions), a), b)
  {
    hide Step;
    var all := actions + [a, b];
    assert all[..|all| - 1] == actions + [a] && (actions + [a])[..|actions|] == actions;
  }

  /**
   What an answer leads to: an unavailable endpoint leaves the pool, and the post goes on exactly when it was its
   first; otherwise the post ends and its endpoint is free again, last in line, unless it is stale.
   */
  lemma AnswerMeans(ids: set<nat>, actions: seq<Action>, id: nat, answer: Answer)
    requires var s := Run(Boot(ids), actions); Holds(s, id) && !s.pool.closed
    ensures var s := Run(Boot(ids), actions);
            var e, client := s.posts[id].phase.endpoint, s.posts[id].phase.client;
            var after := Step(s, Respond(id, answer));
            && after.posts == s.posts[id := Post(if answer == Unavailable && s.posts[id].tried == [e] then Leasing else Idle, s.posts[id].tried)]
            && after.pool.leased == s.pool.leased - {e}
            && if answer == Unavailable || e in s.pool.stale
               then after.pool.clients == s.pool.clients - {e} && after.pool.available == s.pool.available && after.shut == s.shut + {client}
               else after.pool.clients == s.pool.clients && after.pool.available == s.pool.available + [e] && after.shut == s.shut
  {
    RunKeeps(ids, actions);
    var s := Run(Boot(ids), actions);
    hide Run;
    assert PostOk(s.posts[id]);
    ReleaseMeans(s.pool, Held(s, id), answer == Unavailable);
  }

  /**
   A refresh that built a client for every listed endpoint it did not know leaves exactly the listed endpoints pooled,
   apart from unlisted ones still in use, if the pool did not lose a listed endpoint meanwhile.
   */
  lemma RefreshResolves(ids: set<nat>, actions: seq<Action>, built: seq<string>)
    requires var s := Run(Boot(ids), actions);
             && !s.pool.closed && s.refresh.Some? && Distinct(built)
             && Elements(built) == s.refresh.value.resolved - s.refresh.value.current
             && s.refresh.value.current * s.refresh.value.resolved <= s.pool.clients.Keys
    ensures var s := Run(Boot(ids), actions);
            var after := Step(s, MergeRefresh(built));
            && after.refresh.None?
            && after.pool.clients.Keys == s.refresh.value.resolved + s.pool.leased
            && after.pool.stale == s.pool.stale + (s.pool.leased - s.refresh.value.resolved)
            && Elements(after.pool.available) == s.refresh.value.resolved - s.pool.leased
  {
    RunKeeps(ids, actions);
    var s := Run(Boot(ids), actions);
    hide Run;
    var resolved, additions := s.refresh.value.resolved, AdditionsOf(built, s.minted);
    MergeMeans(s.pool, additions, resolved);
    AddedEndpoints(built, s.minted);
    hide Merged;
    assert s.pool.leased <= s.pool.clients.Keys;
    assert Merged(s.pool, additions, resolved).clients.Keys == resolved + s.pool.leased;
  }

  lemma AddedEndpoints(built: seq<string>, minted: nat)
    ensures Added(AdditionsOf(built, minted)) == Elements(built)
  {
    var additions := AdditionsOf(built, minted);
    forall e | e in built ensures e in Added(additions) {
      var i :| 0 <= i < |built| && built[i] == e;
      assert additions[i] in additions;
    }
  }

  // ---- No client is forgotten ------------------------------------------------------------------

  predicate Pooled(p: Pool, client: nat) { exists e | e in p.clients :: p.clients[e] == client }

  /** Every client ever created is still pooled or was closed. */
  ghost predicate AllAccounted(s: System) { forall c: nat | c < s.minted :: Pooled(s.pool, c) || c in s.shut }

  /** The refresh ends without an endpoint, and raises before it closes the clients it removed. */
  predicate Empties(s: System, a: Action) {
    a.MergeRefresh? && s.pool.clients != map[] && Step(s, a).pool.clients == map[]
  }

  /**
   As long as the pool is open, and when it is closed, a client is forgotten, neither pooled nor closed, exactly by a
   refresh that leaves no endpoint at all.
   */
  lemma ClientForgottenIff(ids: set<nat>, actions: seq<Action>, a: Action)
    requires var s := Run(Boot(ids), actions); AllAccounted(s) && !s.pool.closed
    ensures var s := Run(Boot(ids), actions); !AllAccounted(Step(s, a)) <==> Empties(s, a)
  {
    RunKeeps(ids, actions);
    var s := Run(Boot(ids), actions);
    hide Run, Answered, Merge, Invariant, AllAccounted, Sound, Lease;
    match a
    case Respond(id, answer) =>
      if Holds(s, id) {
        AnswerAccounts(s, id, answer);
      }
    case MergeRefresh(built) =>
      if s.refresh.Some? && Distinct(built) && Elements(built) <= s.refresh.value.resolved - s.refresh.value.current {
        MergeAccounts(s, built);
      }
    case Close => CloseAccounts(s);
    case _ => OtherAccounts(s, a);
  }

  lemma OtherAccounts(s: System, a: Action)
    requires AllAccounted(s) && !a.Respond? && !a.MergeRefresh? && !a.Close?
    ensures AllAccounted(Step(s, a))
  {
    hide AllAccounted, Rotate;
    SamePool(s, Step(s, a));
  }

  lemma SamePool(s: System, next: System)
    requires AllAccounted(s) && next.pool.clients == s.pool.clients && next.shut == s.shut && next.minted == s.minted
    ensures AllAccounted(next)
  {
    forall c: nat | c < next.minted ensures Pooled(next.pool, c) || c in next.shut {
      assert Pooled(s.pool, c) || c in s.shut;
    }
  }

  lemma CloseAccounts(s: System)
    requires AllAccounted(s)
    ensures AllAccounted(Step(s, Close))
  {
    var next := Step(s, Close);
    forall c: nat | c < next.minted ensures c in next.shut {
      assert Pooled(s.pool, c) || c in s.shut;
    }
  }

  lemma AnswerAccounts(s: System, id: nat, answer: Answer)
    requires Invariant(s) && AllAccounted(s) && Holds(s, id) && !s.pool.closed
    ensures AllAccounted(Answered(s, id, answer))
  {
    var e, next := Held(s, id), Answered(s, id, answer);
    ReleaseMeans(s.pool, e, answer == Unavailable);
    forall c: nat | c < next.minted ensures Pooled(next.pool, c) || c in next.shut {
      assert Pooled(s.pool, c) || c in s.shut;
      if c !in s.shut {
        var f :| f in s.pool.clients && s.pool.clients[f] == c;
        assert f in next.pool.clients ==> Pooled(next.pool, c);
      }
    }
  }

  lemma MergeAccounts(s: System, built: seq<string>)
    requires Invariant(s) && AllAccounted(s) && !s.pool.closed && s.refresh.Some? && Distinct(built)
    requires Elements(built) <= s.refresh.value.resolved - s.refresh.value.current
    ensures !AllAccounted(Merge(s, built)) <==> s.pool.clients != map[] && Merge(s, built).pool.clients == map[]
  {
    forall x | x in built ensures x !in s.pool.clients {
      assert x in Elements(built);
    }
    JoinedPool(s.pool, built, s.minted);
    var additions, resolved := AdditionsOf(built, s.minted), s.refresh.value.resolved;
    var q, next := Joined(s.pool, additions), Merge(s, built);
    JoinedMeans(s.pool, additions);
    AddedEndpoints(built, s.minted);
    JoinedAccounts(s, built, q.clients);
    hide Joined, AdditionsOf, AllJoined, AllAccounted, Sound, LeasesOk, PostsOk, HeldPooled;
    assert Surplus(s.pool, additions) == {};
    if next.pool.clients != map[] {
      DepartingAreClosed(s, q, resolved, next);
    } else {
      NoneDepartingClosed(s, built, q, resolved, next);
    }
  }

  /** Before anything leaves, every client is pooled or closed. */
  lemma JoinedAccounts(s: System, built: seq<string>, clients: map<string, nat>)
    requires AllAccounted(s) && AllJoined(s.pool, built, s.minted, clients) && Elements(built) <= clients.Keys
    requires Distinct(built) && forall x | x in built :: x !in s.pool.clients
    ensures Accounts(clients, s.minted + |built|, s.shut)
  {
    forall c: nat | c < s.minted + |built| && c !in s.shut ensures exists e | e in clients :: clients[e] == c {
      if c < s.minted {
        assert Pooled(s.pool, c);
        var e :| e in s.pool.clients && s.pool.clients[e] == c;
        assert e in clients && clients[e] == c;
      } else {
        var e := built[c - s.minted];
        assert e in Elements(built) && e in clients;
        assert built[clients[e] - s.minted] == e;
        assert clients[e] == c;
      }
    }
  }

  ghost predicate Accounts(clients: map<string, nat>, minted: nat, shut: set<nat>) {
    forall c: nat | c < minted :: (exists e | e in clients :: clients[e] == c) || c in shut
  }

  lemma DepartingAreClosed(s: System, q: Pool, resolved: set<string>, next: System)
    requires Accounts(q.clients, next.minted, s.shut) && next.pool == Departed(q, resolved)
    requires next.shut == s.shut + ({} + ClientsOf(q, Departing(q, resolved)))
    ensures AllAccounted(next)
  {
    forall c: nat | c < next.minted ensures Pooled(next.pool, c) || c in next.shut {
      if c !in s.shut {
        var e :| e in q.clients && q.clients[e] == c;
        if e in Departing(q, resolved) {
          assert c in ClientsOf(q, Departing(q, resolved));
        } else {
          assert e in next.pool.clients && next.pool.clients[e] == c;
        }
      }
    }
  }

  lemma SomeElement(s: seq<string>)
    ensures s != [] ==> Elements(s) != {}
  {
    if s != [] {
      assert s[0] in Elements(s);
    }
  }

  lemma NoneDepartingClosed(s: System, built: seq<string>, q: Pool, resolved: set<string>, next: System)
    requires ClientsOk(s) && AllAccounted(s) && next.pool == Departed(q, resolved) && next.pool.clients == map[]
    requires next.shut == s.shut && next.minted == s.minted + |built|
    requires Elements(built) <= resolved && Elements(built) <= q.clients.Keys
    ensures !AllAccounted(next) <==> s.pool.clients != map[]
  {
    assert Elements(built) <= next.pool.clients.Keys;
    SomeElement(built);
    if s.pool.clients == map[] {
      forall c: nat | c < next.minted ensures c in next.shut {
        assert Pooled(s.pool, c) || c in s.shut;
      }
    } else {
      var e :| e in s.pool.clients;
      assert !Pooled(next.pool, s.pool.clients[e]) && s.pool.clients[e] !in next.shut;
    }
  }
}
