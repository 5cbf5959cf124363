/**
 The shared decision cache (processor/decision_cache.py): first writer wins, and every statement is tried
 on at most two connections, the first of which may fail after the statement took effect.
 */
module DecisionCache {
  import opened Outcomes

  datatype Stored = Stored(payload: string, trainable: bool)

  type Rows = map<string, Stored>

  /** `INSERT ... ON CONFLICT (cache_key) DO NOTHING` */
  function Inserted(rows: Rows, key: string, value: Stored): Rows {
    if key in rows then rows else rows[key := value]
  }

  // ---- Any clients, any lost answers ---------------------------------------------------------

  /** A statement that reached the server, or one that did not although its client may believe so. */
  datatype Statement = Insert(key: string, value: Stored) | Lost

  function After(rows: Rows, statements: seq<Statement>): Rows {
    if statements == [] then rows
    else
      var before := After(rows, statements[..|statements| - 1]);
      match statements[|statements| - 1]
      case Insert(key, value) => Inserted(before, key, value)
      case Lost => before
  }

  /** The value of the first insertion of a key. */
  function FirstInsert(statements: seq<Statement>, key: string): Option<Stored> {
    if statements == [] then None
    else
      var before := FirstInsert(statements[..|statements| - 1], key);
      var last := statements[|statements| - 1];
      if before.Some? then before else if last.Insert? && last.key == key then Some(last.value) else None
  }

  /** Whatever clients do, a key holds its first insertion, and nothing ever replaces a stored decision. */
  lemma {:induction false} FirstWriterWins(rows: Rows, statements: seq<Statement>, key: string)
    ensures var after := After(rows, statements);
            && (key in rows ==> key in after && after[key] == rows[key])
            && (key !in rows ==>
                  && (key in after <==> FirstInsert(statements, key).Some?)
                  && (key in after ==> FirstInsert(statements, key) == Some(after[key])))
  {
    if statements != [] {
      FirstWriterWins(rows, statements[..|statements| - 1], key);
    }
  }

  /** Two readers at any two times see the same decision, if they see one. */
  lemma ReadersAgree(rows: Rows, earlier: seq<Statement>, later: seq<Statement>, key: string)
    requires key in After(rows, earlier)
    ensures key in After(rows, earlier + later) && After(rows, earlier + later)[key] == After(rows, earlier)[key]
  {
    AfterAppend(rows, earlier, later);
    FirstWriterWins(After(rows, earlier), later, key);
  }

  lemma {:induction false} AfterAppend(rows: Rows, a: seq<Statement>, b: seq<Statement>)
    ensures After(rows, a + b) == After(After(rows, a), b)
  {
    if b == [] {
      assert a + b == a;
    } else {
      assert (a + b)[..|a + b| - 1] == a + b[..|b| - 1];
      AfterAppend(rows, a, b[..|b| - 1]);
    }
  }

  // ---- One client ----------------------------------------------------------------------------

  datatype Connection = Open | Broken
  datatype Result<T> = Ok(value: T) | ConnectionFailed | CacheClosed

  /** A client's call to the server: a connect, or a statement, whose answer may be lost. */
  datatype Call = Connect(ok: bool) | Write(key: string, value: Stored, answered: bool) | Read(key: string, answered: bool)

  /** How many statements got no answer. */
  ghost function Losses(calls: seq<Call>): nat {
    if |calls| == 0 then 0
    else Losses(calls[..|calls| - 1]) + if !calls[|calls| - 1].Connect? && !calls[|calls| - 1].answered then 1 else 0
  }

  /** What one operation's calls come to: an answer ends it, and only a refused connect or two lost statements fail it. */
  ghost predicate Tried(calls: seq<Call>, ok: bool, failed: bool) {
    && Losses(calls) <= 2
    && (forall i | 0 <= i < |calls| - 1 :: calls[i].Connect? || !calls[i].answered)
    && (ok <==> calls != [] && !calls[|calls| - 1].Connect? && calls[|calls| - 1].answered)
    && (failed <==> calls != [] && (calls[|calls| - 1] == Connect(false) || (Losses(calls) == 2 && !ok)))
  }

  /** The database server, with other clients inserting at any time. As history, the calls of the client below. */
  class Server {
    var rows: Rows
    ghost var calls: seq<Call>

    constructor ()
      ensures rows == map[] && calls == []
    {
      rows, calls := map[], [];
    }

    method Accept() returns (ok: bool)
      modifies this`calls
      ensures calls == old(calls) + [Connect(ok)]
    {
      ok := *;
      calls := calls + [Connect(ok)];
    }

    ghost predicate Grew(before: Rows)
      reads this
    {
      forall k | k in before :: k in rows && rows[k] == before[k]
    }

    method OtherClients()
      modifies this`rows
      ensures Grew(old(rows))
    {
      var statements: seq<Statement> := *;
      forall k | k in rows ensures k in After(rows, statements) && After(rows, statements)[k] == rows[k] {
        FirstWriterWins(rows, statements, k);
      }
      rows := After(rows, statements);
    }

    /** The statement takes effect, and then its answer may be lost; or it never arrives. */
    method ExecuteInsert(key: string, value: Stored) returns (answered: bool)
      modifies this
      ensures rows == old(rows) || rows == Inserted(old(rows), key, value)
      ensures answered ==> rows == Inserted(old(rows), key, value)
      ensures calls == old(calls) + [Write(key, value, answered)]
    {
      var arrives: bool := *;
      answered := *;
      if arrives || answered {
        rows := Inserted(rows, key, value);
      }
      calls := calls + [Write(key, value, answered)];
    }

    /** The answer, if it arrives, is the row of some moment. */
    method ExecuteSelect(key: string) returns (answered: bool, found: Option<Stored>)
      modifies this
      ensures Grew(old(rows)) && calls == old(calls) + [Read(key, answered)]
      ensures answered && key in old(rows) ==> found == Some(old(rows)[key])
      ensures answered && found.Some? ==> key in rows && rows[key] == found.value
    {
      answered, found := *, None;
      if answered {
        found := if key in rows then Some(rows[key]) else None;
        OtherClients();
      }
      calls := calls + [Read(key, answered)];
    }
  }

  class PostgresDecisionCache {
    const server: Server
    var connection: Option<Connection>
    var closed: bool

    constructor (server: Server)
      ensures this.server == server && !closed && connection.None?
    {
      this.server := server;
      connection, closed := None, false;
    }

    /** A usable connection; the connect itself is not retried. */
    method EnsureConnection() returns (r: Result<()>)
      modifies this`connection, server`calls
      ensures r.Ok? ==> connection == Some(Open)
      ensures r.CacheClosed? <==> closed && old(connection) != Some(Open)
      ensures old(connection) == Some(Open) ==> r.Ok?
      ensures server.calls ==
                if closed || old(connection) == Some(Open) then old(server.calls) else old(server.calls) + [Connect(r.Ok?)]
    {
      if connection == Some(Open) {
        return Ok(());
      }
      connection := None;
      if closed {
        return CacheClosed;
      }
      var connects := server.Accept();
      if !connects {
        return ConnectionFailed;
      }
      connection := Some(Open);
      r := Ok(());
    }

    /**
     Store a decision unless one is stored. After success the key is decided; whatever happened, lost answers
     and retries included, no decision stored before has changed. One lost answer is retried.
     */
    method Put(key: string, value: Stored) returns (r: Result<()>)
      modifies this`connection, server
      ensures server.Grew(old(server.rows))
      ensures r.Ok? ==> key in server.rows
      ensures closed && old(connection) != Some(Open) ==> r.CacheClosed? && server.rows == old(server.rows)
      ensures r.CacheClosed? ==> closed
      ensures old(server.calls) <= server.calls && Tried(server.calls[|old(server.calls)|..], r.Ok?, r.ConnectionFailed?)
      ensures OnlyWrites(old(server.calls), server.calls, key, value)
    {
      hide AllLost, Tried, OnlyWrites, OnlyReads, Losses;
      ghost var before := server.calls;
      NoCalls(before, key, value);
      for attempt := 0 to 2
        invariant server.Grew(old(server.rows))
        invariant attempt == 0 ==> server.rows == old(server.rows) && connection == old(connection)
        invariant attempt > 0 ==> !closed || old(connection) == Some(Open)
        invariant before <= server.calls && AllLost(server.calls[|before|..], attempt)
        invariant OnlyWrites(before, server.calls, key, value)
      {
        LostMeans(server.calls[|before|..], attempt);
        ghost var heard := server.calls;
        var ensured := EnsureConnection();
        ConnectHeard(before, heard, ensured.Ok?, attempt, key, value);
        if !ensured.Ok? {
          return ensured;
        }
        server.OtherClients();
        heard := server.calls;
        var answered := server.ExecuteInsert(key, value);
        StatementHeard(before, heard, Write(key, value, answered), attempt, key, value);
        if answered {
          return Ok(());
        }
        connection := None;
      }
      LostMeans(server.calls[|before|..], 2);
      r := ConnectionFailed;
    }

    /** Read the stored decision, if any, as of some moment during the call. One lost answer is retried. */
    method Get(key: string) returns (r: Result<Option<Stored>>)
      modifies this`connection, server
      ensures server.Grew(old(server.rows))
      ensures r.Ok? && key in old(server.rows) ==> r.value == Some(old(server.rows)[key])
      ensures r.Ok? && r.value.Some? ==> key in server.rows && server.rows[key] == r.value.value
      ensures r.CacheClosed? ==> closed
      ensures old(server.calls) <= server.calls && Tried(server.calls[|old(server.calls)|..], r.Ok?, r.ConnectionFailed?)
      ensures OnlyReads(old(server.calls), server.calls, key)
    {
      hide AllLost, Tried, OnlyWrites, OnlyReads, Losses;
      ghost var before, any := server.calls, Stored("", false);
      NoCalls(before, key, any);
      for attempt := 0 to 2
        invariant server.Grew(old(server.rows))
        invariant before <= server.calls && AllLost(server.calls[|before|..], attempt)
        invariant OnlyReads(before, server.calls, key)
      {
        LostMeans(server.calls[|before|..], attempt);
        ghost var heard := server.calls;
        var ensured := EnsureConnection();
        ConnectHeard(before, heard, ensured.Ok?, attempt, key, any);
        match ensured {
          case ConnectionFailed => return ConnectionFailed;
          case CacheClosed => return CacheClosed;
          case Ok(_) =>
        }
        server.OtherClients();
        heard := server.calls;
        var answered, found := server.ExecuteSelect(key);
        StatementHeard(before, heard, Read(key, answered), attempt, key, any);
        if answered {
          return Ok(found);
        }
        connection := None;
      }
      LostMeans(server.calls[|before|..], 2);
      r := ConnectionFailed;
    }

    method Close()
      modifies this
      ensures closed && connection.None?
    {
      closed, connection := true, None;
    }
  }

  /** Every statement so far was lost, and no connect refused. */
  ghost predicate AllLost(calls: seq<Call>, lost: nat) {
    Losses(calls) == lost && forall c | c in calls :: c == Connect(true) || (!c.Connect? && !c.answered)
  }

  /** The calls since `before` are writes of this decision. */
  ghost predicate OnlyWrites(before: seq<Call>, calls: seq<Call>, key: string, value: Stored) {
    before <= calls && forall c | c in calls[|before|..] :: c.Connect? || (c.Write? && c.key == key && c.value == value)
  }

  ghost predicate OnlyReads(before: seq<Call>, calls: seq<Call>, key: string) {
    before <= calls && forall c | c in calls[|before|..] :: c.Connect? || (c.Read? && c.key == key)
  }

  lemma NoCalls(before: seq<Call>, key: string, value: Stored)
    ensures AllLost(before[|before|..], 0) && OnlyWrites(before, before, key, value) && OnlyReads(before, before, key)
  {
  }

  lemma OneMoreCall(before: seq<Call>, heard: seq<Call>, c: Call)
    requires before <= heard
    ensures before <= heard + [c] && (heard + [c])[|before|..] == heard[|before|..] + [c]
  {
  }

  /** A connect at the server, after statements that were all lost. */
  lemma ConnectHeard(before: seq<Call>, heard: seq<Call>, ok: bool, lost: nat, key: string, value: Stored)
    requires before <= heard && AllLost(heard[|before|..], lost) && lost < 2
    ensures var calls := heard + [Connect(ok)];
            && before <= calls && (if ok then AllLost(calls[|before|..], lost) else Tried(calls[|before|..], false, true))
            && (OnlyWrites(before, heard, key, value) ==> OnlyWrites(before, calls, key, value))
            && (OnlyReads(before, heard, key) ==> OnlyReads(before, calls, key))
  {
    OneMoreCall(before, heard, Connect(ok));
    AfterCall(heard[|before|..], lost, Connect(ok));
    hide AllLost, Tried, Losses;
  }

  /** A statement at the server, after statements that were all lost. */
  lemma StatementHeard(before: seq<Call>, heard: seq<Call>, c: Call, lost: nat, key: string, value: Stored)
    requires before <= heard && AllLost(heard[|before|..], lost) && lost < 2 && !c.Connect?
    ensures var calls := heard + [c];
            && before <= calls && (if c.answered then Tried(calls[|before|..], true, false) else AllLost(calls[|before|..], lost + 1))
            && (OnlyWrites(before, heard, key, value) && c.Write? && c.key == key && c.value == value ==> OnlyWrites(before, calls, key, value))
            && (OnlyReads(before, heard, key) && c.Read? && c.key == key ==> OnlyReads(before, calls, key))
  {
    OneMoreCall(before, heard, c);
    AfterCall(heard[|before|..], lost, c);
    hide AllLost, Tried, Losses;
  }

  /** What one more call makes of calls that were all lost. */
  lemma AfterCall(calls: seq<Call>, lost: nat, c: Call)
    requires AllLost(calls, lost) && lost < 2
    ensures c == Connect(true) ==> AllLost(calls + [c], lost)
    ensures c == Connect(false) ==> Tried(calls + [c], false, true)
    ensures !c.Connect? && c.answered ==> Tried(calls + [c], true, false)
    ensures !c.Connect? && !c.answered ==> AllLost(calls + [c], lost + 1)
  {
    assert (calls + [c])[..|calls|] == calls;
    forall i | 0 <= i < |calls| ensures calls[i].Connect? || !calls[i].answered {
      assert calls[i] in calls;
    }
  }

  lemma LostMeans(calls: seq<Call>, lost: nat)
    requires AllLost(calls, lost) && lost <= 2
    ensures Tried(calls, false, lost == 2)
  {
    forall i | 0 <= i < |calls| ensures calls[i] == Connect(true) || (!calls[i].Connect? && !calls[i].answered) {
      assert calls[i] in calls;
    }
  }
}
