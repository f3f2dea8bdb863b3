/** The R2DBC verticle's use of a connection: the transactional batch update,
    the single-row lookup and the acquire/run/close wrapper. A connection is
    modelled by the requests sent on it; which of them the database fails is
    fixed in advance by their positions. */
module R2dbcVerticle {
  import opened Wrappers
  import opened Models

  /** A request sent on a connection. */
  datatype Event =
    | Begin
    | Update(randomNumber: int, id: int)
    | Commit
    | Rollback
    | Select(id: int)
    | Close

  /** Why an operation failed: the request at that position of the
      connection's log failed, a lookup did not yield exactly one row, or
      `awaitFirst` found no value (NoSuchElementException). */
  datatype DbFailure = Failed(at: nat) | NotSingle(reason: SingleError) | NoElement

  /** An R2DBC connection as the requests sent on it. */
  class Connection {
    /** Every request sent on this connection, oldest first. */
    var log: seq<Event>
    /** The positions in the log whose request the database fails. */
    const faults: set<nat>
    /** The rows `SELECT id, randomnumber FROM world WHERE id = $1` yields. */
    const table: int -> seq<World>

    constructor (faults: set<nat>, table: int -> seq<World>)
      ensures log == [] && this.faults == faults && this.table == table
    {
      log := [];
      this.faults := faults;
      this.table := table;
    }

    /** Sends one request and awaits it: it fails exactly when its position
        is a fault. */
    method Perform(e: Event) returns (r: Outcome<DbFailure>)
      modifies this
      ensures log == old(log) + [e]
      ensures r == if |old(log)| in faults then Fail(Failed(|old(log)|)) else Pass
    {
      r := if |log| in faults then Fail(Failed(|log|)) else Pass;
      log := log + [e];
    }

    /** `awaitFirst()` on the publisher a request returns: the request is
        sent, and awaiting it fails when the database fails it or when the
        publisher completes without a value. */
    method AwaitFirst(e: Event) returns (r: Outcome<DbFailure>)
      modifies this
      ensures log == old(log) + [e]
      ensures r == AwaitFirstOutcome(|old(log)|, faults, e)
    {
      r := Perform(e);
      if r.Pass? && CompletesEmpty(e) {
        r := Fail(NoElement);
      }
    }

    /** `updateSortedWorlds`: begin (outside the try), one UPDATE per world
        in list order binding the number and then the id, commit; when an
        UPDATE or the commit fails, attempt a rollback, ignore its failure
        and surface the original one. */
    method UpdateSortedWorlds(sortedWorlds: seq<World>) returns (r: Outcome<DbFailure>)
      modifies this
      ensures log == old(log) + UpdateTrace(|old(log)|, faults, sortedWorlds)
      ensures r == UpdateOutcome(|old(log)|, faults, sortedWorlds)
    {
      var start := |log|;
      r := Perform(Begin);
      if r.Fail? {
        return;
      }
      var i := 0;
      while i < |sortedWorlds|
        invariant 0 <= i <= |sortedWorlds|
        invariant log == old(log) + ([Begin] + UpdateEvents(sortedWorlds[..i]))
        invariant NoFault(faults, start + 1, start + 1 + i)
      {
        var world := sortedWorlds[i];
        var u := Perform(Update(world.randomNumber, world.id));
        UpdateSent(old(log), sortedWorlds, i);
        if u.Fail? {
          var rollback := Perform(Rollback);
          UpdateFailedAt(start, faults, sortedWorlds, i);
          Ended(old(log), [Begin] + UpdateEvents(sortedWorlds[..i + 1]), [Rollback]);
          r := u;
          return;
        }
        NoFaultSnoc(faults, start + 1, start + 1 + i);
        i := i + 1;
      }
      assert sortedWorlds[..i] == sortedWorlds;
      UpdatesPassed(start, faults, sortedWorlds);
      r := Perform(Commit);
      if r.Fail? {
        var rollback := Perform(Rollback);
        Ended(old(log), [Begin] + UpdateEvents(sortedWorlds), [Commit, Rollback]);
      } else {
        Ended(old(log), [Begin] + UpdateEvents(sortedWorlds), [Commit]);
      }
    }

    /** `selectWorld`: one SELECT, whose result must hold exactly one row. */
    method SelectWorld(id: int) returns (r: Result<World, DbFailure>)
      modifies this
      ensures log == old(log) + [Select(id)]
      ensures r == SelectResult(|old(log)|, faults, table, id)
    {
      var sent := Perform(Select(id));
      if sent.Fail? {
        return Err(sent.error);
      }
      var rows := Single(table(id));
      r := match rows
        case Ok(world) => Ok(world)
        case Err(reason) => Err(NotSingle(reason));
    }
  }

  /** The UPDATE requests for the worlds, in list order. */
  function UpdateEvents(worlds: seq<World>): seq<Event>
  {
    seq(|worlds|, i requires 0 <= i < |worlds| => Update(worlds[i].randomNumber, worlds[i].id))
  }

  /** No request in positions [lo, hi) fails. */
  predicate NoFault(faults: set<nat>, lo: nat, hi: nat)
  {
    forall p :: lo <= p < hi ==> p !in faults
  }

  /** The offset of the first fault among the `n` positions from `first`. */
  function FirstFault(first: nat, n: nat, faults: set<nat>): (r: Option<nat>)
    ensures r.Some? ==> r.value < n && first + r.value in faults && NoFault(faults, first, first + r.value)
    ensures r.None? <==> NoFault(faults, first, first + n)
  {
    if n == 0 then None
    else match FirstFault(first, n - 1, faults)
      case Some(k) => Some(k)
      case None => if first + n - 1 in faults then Some(n - 1) else None
  }

  /** The first fault is the one at offset k when nothing before it fails. */
  lemma FirstFaultAt(first: nat, n: nat, faults: set<nat>, k: nat)
    requires k < n && first + k in faults && NoFault(faults, first, first + k)
    ensures FirstFault(first, n, faults) == Some(k)
  {
  }

  /** The trace and outcome once the UPDATE at offset k has failed. */
  lemma UpdateFailedAt(start: nat, faults: set<nat>, worlds: seq<World>, k: nat)
    requires start !in faults && k < |worlds|
    requires start + 1 + k in faults && NoFault(faults, start + 1, start + 1 + k)
    ensures UpdateTrace(start, faults, worlds) == [Begin] + UpdateEvents(worlds[..k + 1]) + [Rollback]
    ensures UpdateOutcome(start, faults, worlds) == Fail(Failed(start + 1 + k))
  {
    FirstFaultAt(start + 1, |worlds|, faults, k);
  }

  /** The trace and outcome once every UPDATE has succeeded. */
  lemma UpdatesPassed(start: nat, faults: set<nat>, worlds: seq<World>)
    requires start !in faults && NoFault(faults, start + 1, start + 1 + |worlds|)
    ensures var commit := start + 1 + |worlds|;
            && UpdateTrace(start, faults, worlds)
               == [Begin] + UpdateEvents(worlds) + (if commit in faults then [Commit, Rollback] else [Commit])
            && UpdateOutcome(start, faults, worlds) == if commit in faults then Fail(Failed(commit)) else Pass
  {
  }

  /** The log once the last request of the trace has been sent. */
  lemma Ended(before: seq<Event>, body: seq<Event>, last: seq<Event>)
    requires 1 <= |last| <= 2
    ensures |last| == 1 ==> before + body + [last[0]] == before + (body + last)
    ensures |last| == 2 ==> before + body + [last[0]] + [last[1]] == before + (body + last)
  {
    assert |last| == 1 ==> last == [last[0]];
    assert |last| == 2 ==> last == [last[0]] + [last[1]];
  }

  /** The log once the UPDATE for world i has been sent. */
  lemma UpdateSent(before: seq<Event>, worlds: seq<World>, i: nat)
    requires i < |worlds|
    ensures before + ([Begin] + UpdateEvents(worlds[..i])) + [Update(worlds[i].randomNumber, worlds[i].id)]
         == before + ([Begin] + UpdateEvents(worlds[..i + 1]))
  {
    UpdateEventsSnoc(worlds, i);
  }

  lemma NoFaultSnoc(faults: set<nat>, lo: nat, hi: nat)
    requires NoFault(faults, lo, hi) && hi !in faults
    ensures NoFault(faults, lo, hi + 1)
  {
  }

  lemma UpdateEventsSnoc(worlds: seq<World>, i: nat)
    requires i < |worlds|
    ensures UpdateEvents(worlds[..i + 1]) == UpdateEvents(worlds[..i]) + [Update(worlds[i].randomNumber, worlds[i].id)]
  {
  }

  /** The requests `updateSortedWorlds` sends when it starts at position
      `start` of the log. */
  function UpdateTrace(start: nat, faults: set<nat>, worlds: seq<World>): (trace: seq<Event>)
    ensures trace != [] && trace[0] == Begin
    ensures start !in faults ==> trace[|trace| - 1] == Commit || trace[|trace| - 1] == Rollback
  {
    if start in faults then [Begin]
    else match FirstFault(start + 1, |worlds|, faults)
      case Some(k) => [Begin] + UpdateEvents(worlds[..k + 1]) + [Rollback]
      case None =>
        var commit := start + 1 + |worlds|;
        [Begin] + UpdateEvents(worlds) + (if commit in faults then [Commit, Rollback] else [Commit])
  }

  /** What `updateSortedWorlds` returns or throws when it starts at `start`. */
  function UpdateOutcome(start: nat, faults: set<nat>, worlds: seq<World>): (r: Outcome<DbFailure>)
    ensures r.Fail? ==> r.error.Failed? && start <= r.error.at && r.error.at in faults
  {
    if start in faults then Fail(Failed(start))
    else match FirstFault(start + 1, |worlds|, faults)
      case Some(k) => Fail(Failed(start + 1 + k))
      case None =>
        var commit := start + 1 + |worlds|;
        if commit in faults then Fail(Failed(commit)) else Pass
  }

  /** What `selectWorld` returns or throws when its SELECT is at `at`. */
  function SelectResult(at: nat, faults: set<nat>, table: int -> seq<World>, id: int): (r: Result<World, DbFailure>)
    ensures r.Ok? ==> |table(id)| == 1 && r.value == table(id)[0]
    ensures at in faults ==> r == Err(Failed(at))
  {
    if at in faults then Err(Failed(at))
    else match Single(table(id))
      case Ok(world) => Ok(world)
      case Err(reason) => Err(NotSingle(reason))
  }

  /** The batch update succeeds exactly when begin, every UPDATE and the
      commit succeed, and then the connection saw begin, one UPDATE per
      world in list order and one commit, with no rollback. */
  lemma UpdateSucceeds(start: nat, faults: set<nat>, worlds: seq<World>)
    ensures UpdateOutcome(start, faults, worlds) == Pass <==> NoFault(faults, start, start + |worlds| + 2)
    ensures UpdateOutcome(start, faults, worlds) == Pass
        ==> UpdateTrace(start, faults, worlds) == [Begin] + UpdateEvents(worlds) + [Commit]
  {
    var n := |worlds|;
    if NoFault(faults, start, start + n + 2) {
      assert start !in faults && start + 1 + n !in faults;
      assert NoFault(faults, start + 1, start + 1 + n);
    }
    if UpdateOutcome(start, faults, worlds) == Pass {
      assert NoFault(faults, start + 1, start + 1 + n);
    }
  }

  /** When an UPDATE or the commit fails, the UPDATEs stop at the failing
      one, a rollback is the last request, and the surfaced failure is the
      first failing request before it: never the rollback itself. */
  lemma UpdateFailureRollsBack(start: nat, faults: set<nat>, worlds: seq<World>)
    requires start !in faults
    requires UpdateOutcome(start, faults, worlds).Fail?
    ensures var trace := UpdateTrace(start, faults, worlds);
            && |trace| >= 2
            && trace[|trace| - 1] == Rollback
            && Rollback !in trace[..|trace| - 1]
            && UpdateOutcome(start, faults, worlds).error.Failed?
            && var at := UpdateOutcome(start, faults, worlds).error.at;
               && start < at < start + |trace| - 1
               && at in faults
               && NoFault(faults, start, at)
  {
    var trace := UpdateTrace(start, faults, worlds);
    match FirstFault(start + 1, |worlds|, faults)
    case Some(k) =>
      var updates := UpdateEvents(worlds[..k + 1]);
      assert trace[..|trace| - 1] == [Begin] + updates;
      assert Rollback !in updates;
    case None =>
      var updates := UpdateEvents(worlds);
      assert trace[..|trace| - 1] == [Begin] + updates + [Commit];
      assert Rollback !in updates;
  }

  /** A failure of the rollback changes neither what is sent nor what is
      surfaced. */
  lemma RollbackFailureIsSwallowed(start: nat, faults: set<nat>, worlds: seq<World>, rollback: nat)
    requires UpdateTrace(start, faults, worlds)[|UpdateTrace(start, faults, worlds)| - 1] == Rollback
    requires rollback == start + |UpdateTrace(start, faults, worlds)| - 1
    ensures UpdateTrace(start, faults + {rollback}, worlds) == UpdateTrace(start, faults, worlds)
    ensures UpdateOutcome(start, faults + {rollback}, worlds) == UpdateOutcome(start, faults, worlds)
  {
    RollbackComesLast(start, faults, worlds);
    AddLateFault(start, faults, worlds, rollback);
  }

  /** A trace that ends with a rollback began, and its rollback comes after
      the request that decided the outcome. */
  lemma RollbackComesLast(start: nat, faults: set<nat>, worlds: seq<World>)
    requires UpdateTrace(start, faults, worlds)[|UpdateTrace(start, faults, worlds)| - 1] == Rollback
    ensures start !in faults
    ensures var rollback := start + |UpdateTrace(start, faults, worlds)| - 1;
            match FirstFault(start + 1, |worlds|, faults)
            case Some(k) => rollback > start + 1 + k
            case None => rollback > start + 1 + |worlds|
  {
    UpdateTraceEnd(start, faults, worlds);
  }

  /** A fault after the request that decides the outcome changes nothing. */
  lemma AddLateFault(start: nat, faults: set<nat>, worlds: seq<World>, late: nat)
    requires start !in faults
    requires match FirstFault(start + 1, |worlds|, faults)
             case Some(k) => late > start + 1 + k
             case None => late > start + 1 + |worlds|
    ensures UpdateTrace(start, faults + {late}, worlds) == UpdateTrace(start, faults, worlds)
    ensures UpdateOutcome(start, faults + {late}, worlds) == UpdateOutcome(start, faults, worlds)
  {
    FirstFaultIgnoresLater(start + 1, |worlds|, faults, late);
    SameFaultsSameUpdate(start, faults, faults + {late}, worlds);
  }

  /** The length of the trace and its last request. */
  lemma UpdateTraceEnd(start: nat, faults: set<nat>, worlds: seq<World>)
    ensures var trace := UpdateTrace(start, faults, worlds);
            var commit := start + 1 + |worlds|;
            && (start in faults ==> trace == [Begin])
            && (start !in faults ==>
                  match FirstFault(start + 1, |worlds|, faults)
                  case Some(k) => |trace| == k + 3 && trace[|trace| - 1] == Rollback
                  case None =>
                    if commit in faults then |trace| == |worlds| + 3 && trace[|trace| - 1] == Rollback
                    else trace[|trace| - 1] == Commit)
  {
  }

  /** Two fault sets that agree on begin, on the first failing UPDATE and,
      when no UPDATE fails, on the commit, give the same trace and outcome. */
  lemma SameFaultsSameUpdate(start: nat, faults: set<nat>, other: set<nat>, worlds: seq<World>)
    requires (start in faults <==> start in other)
    requires FirstFault(start + 1, |worlds|, other) == FirstFault(start + 1, |worlds|, faults)
    requires FirstFault(start + 1, |worlds|, faults).None?
             ==> (start + 1 + |worlds| in faults <==> start + 1 + |worlds| in other)
    ensures UpdateTrace(start, other, worlds) == UpdateTrace(start, faults, worlds)
    ensures UpdateOutcome(start, other, worlds) == UpdateOutcome(start, faults, worlds)
  {
  }

  /** Adding a fault after the first one, or after the range, does not move
      the first fault. */
  lemma {:induction false} FirstFaultIgnoresLater(first: nat, n: nat, faults: set<nat>, late: nat)
    requires match FirstFault(first, n, faults)
             case Some(k) => late > first + k
             case None => late >= first + n
    ensures FirstFault(first, n, faults + {late}) == FirstFault(first, n, faults)
  {
    if n > 0 {
      match FirstFault(first, n - 1, faults)
      case Some(k) =>
        FirstFaultIgnoresLater(first, n - 1, faults, late);
      case None =>
        FirstFaultIgnoresLater(first, n - 1, faults, late);
    }
  }

  /** A failing begin is thrown outside the try: no UPDATE and no rollback. */
  lemma BeginFailureSkipsRollback(start: nat, faults: set<nat>, worlds: seq<World>)
    requires start in faults
    ensures UpdateTrace(start, faults, worlds) == [Begin]
    ensures UpdateOutcome(start, faults, worlds) == Fail(Failed(start))
  {
  }

  /** The trace always opens with begin, and the UPDATEs it holds are those
      of a prefix of the worlds, in list order. */
  lemma UpdateTraceShape(start: nat, faults: set<nat>, worlds: seq<World>)
    ensures var trace := UpdateTrace(start, faults, worlds);
            && trace[0] == Begin
            && exists m :: 0 <= m <= |worlds| && 1 + m <= |trace| && trace[1..1 + m] == UpdateEvents(worlds[..m])
                           && forall i :: 1 + m <= i < |trace| ==> !trace[i].Update?
  {
    var trace := UpdateTrace(start, faults, worlds);
    if start in faults {
      assert trace[1..1] == UpdateEvents(worlds[..0]);
    } else {
      match FirstFault(start + 1, |worlds|, faults)
      case Some(k) =>
        assert trace[1..1 + k + 1] == UpdateEvents(worlds[..k + 1]);
      case None =>
        assert worlds[..|worlds|] == worlds;
        assert trace[1..1 + |worlds|] == UpdateEvents(worlds[..|worlds|]);
    }
  }

  /** The lookup yields a world exactly when its SELECT succeeds and yields
      one row, and then it is that row. */
  lemma SelectWorldSingleRow(at: nat, faults: set<nat>, table: int -> seq<World>, id: int)
    ensures SelectResult(at, faults, table, id).Ok? <==> at !in faults && |table(id)| == 1
    ensures SelectResult(at, faults, table, id).Ok? ==> SelectResult(at, faults, table, id).value == table(id)[0]
    ensures at !in faults && |table(id)| == 0 ==> SelectResult(at, faults, table, id) == Err(NotSingle(NoRow))
    ensures at !in faults && |table(id)| > 1 ==> SelectResult(at, faults, table, id) == Err(NotSingle(MoreThanOneRow))
  {
  }

  /** A block run by `withOptionalTransaction` in this verticle. */
  datatype Block = UpdateWorlds(sortedWorlds: seq<World>) | LookUp(id: int)

  /** What a block returns: nothing, or a world. */
  datatype BlockValue = Done | Found(world: World)

  function BlockTrace(start: nat, faults: set<nat>, table: int -> seq<World>, block: Block): seq<Event>
  {
    match block
    case UpdateWorlds(ws) => UpdateTrace(start, faults, ws)
    case LookUp(id) => [Select(id)]
  }

  function BlockResult(start: nat, faults: set<nat>, table: int -> seq<World>, block: Block): Result<BlockValue, DbFailure>
  {
    match block
    case UpdateWorlds(ws) =>
      (match UpdateOutcome(start, faults, ws)
       case Pass => Ok(Done)
       case Fail(e) => Err(e))
    case LookUp(id) =>
      (match SelectResult(start, faults, table, id)
       case Ok(w) => Ok(Found(w))
       case Err(e) => Err(e))
  }

  method RunBlock(c: Connection, block: Block) returns (r: Result<BlockValue, DbFailure>)
    modifies c
    ensures c.log == old(c.log) + BlockTrace(|old(c.log)|, c.faults, c.table, block)
    ensures r == BlockResult(|old(c.log)|, c.faults, c.table, block)
  {
    match block
    case UpdateWorlds(ws) =>
      var outcome := c.UpdateSortedWorlds(ws);
      r := if outcome.Pass? then Ok(Done) else Err(outcome.error);
    case LookUp(id) =>
      var found := c.SelectWorld(id);
      r := if found.Ok? then Ok(Found(found.value)) else Err(found.error);
  }

  /** Neither block this verticle passes, the batch update and the lookup,
      closes the connection itself; a block that did is not part of this model. */
  lemma BlockTraceHasNoClose(start: nat, faults: set<nat>, table: int -> seq<World>, block: Block)
    ensures Close !in BlockTrace(start, faults, table, block)
  {
    if block.UpdateWorlds? {
      var ws := block.sortedWorlds;
      if start !in faults {
        match FirstFault(start + 1, |ws|, faults)
        case Some(k) =>
          assert Close !in UpdateEvents(ws[..k + 1]);
        case None =>
          assert Close !in UpdateEvents(ws);
      }
    }
  }

  /** `withOptionalTransaction`: acquire a connection (a failure there is
      surfaced and nothing else happens), run the block, and close the
      connection in `finally`, so it is closed exactly once whether the block
      returns or throws; the block's result comes back unchanged unless the
      close itself fails, whose failure then replaces it. */
  method WithOptionalTransaction(acquired: Result<Connection, DbFailure>, block: Block)
      returns (r: Result<BlockValue, DbFailure>)
    modifies if acquired.Ok? then {acquired.value} else {}
    ensures acquired.Err? ==> r == Err(acquired.error)
    ensures acquired.Ok? ==>
              var c := acquired.value;
              var start := |old(c.log)|;
              var body := BlockTrace(start, c.faults, c.table, block);
              && c.log == old(c.log) + body + [Close]
              && multiset(c.log[start..])[Close] == 1
              && r == if start + |body| in c.faults then Err(Failed(start + |body|))
                      else BlockResult(start, c.faults, c.table, block)
  {
    if acquired.Err? {
      return Err(acquired.error);
    }
    var connection := acquired.value;
    ghost var start := |connection.log|;
    r := RunBlock(connection, block);
    var closed := connection.Perform(Close);
    if closed.Fail? {
      r := Err(closed.error);
    }
    BlockTraceHasNoClose(start, connection.faults, connection.table, block);
    ClosedOnce(old(connection.log), BlockTrace(start, connection.faults, connection.table, block));
  }

  lemma ClosedOnce(before: seq<Event>, body: seq<Event>)
    requires Close !in body
    ensures multiset((before + body + [Close])[|before|..])[Close] == 1
  {
    assert (before + body + [Close])[|before|..] == body + [Close];
    assert multiset(body)[Close] == 0;
  }

  /** The requests whose R2DBC publisher (`Publisher<Void>`) completes
      without emitting a value: transaction control and close. */
  predicate CompletesEmpty(e: Event)
  {
    e.Begin? || e.Commit? || e.Rollback? || e.Close?
  }

  /** What `awaitFirst()` on the request at position `at` gives. */
  function AwaitFirstOutcome(at: nat, faults: set<nat>, e: Event): (r: Outcome<DbFailure>)
    ensures r.Pass? <==> at !in faults && !CompletesEmpty(e)
  {
    if at in faults then Fail(Failed(at))
    else if CompletesEmpty(e) then Fail(NoElement)
    else Pass
  }

  /** `withOptionalTransaction { updateSortedWorlds(sortedWorlds) }` as the
      code is written, with every request awaited by `awaitFirst`. Begin
      completes without a value, so awaiting it throws outside the try and
      no UPDATE is ever sent; the close in `finally` throws the same way and
      its failure is what the caller sees. */
  method UpdateWorldsAsWritten(c: Connection, sortedWorlds: seq<World>) returns (r: Outcome<DbFailure>)
    modifies c
    ensures c.log == old(c.log) + [Begin, Close]
    ensures r == AwaitFirstOutcome(|old(c.log)| + 1, c.faults, Close)
    ensures r.Fail?
  {
    r := c.AwaitFirst(Begin);
    var closed := c.AwaitFirst(Close);
    if closed.Fail? {
      r := closed;
    }
  }

  /** The discrepancy: on a database that fails no request, the intended
      protocol sends begin, every UPDATE and commit and succeeds, while
      awaiting begin with `awaitFirst` already fails. */
  lemma AsWrittenBeginFails(start: nat, worlds: seq<World>)
    ensures UpdateOutcome(start, {}, worlds) == Pass
    ensures UpdateTrace(start, {}, worlds) == [Begin] + UpdateEvents(worlds) + [Commit]
    ensures AwaitFirstOutcome(start, {}, Begin) == Fail(NoElement)
    ensures AwaitFirstOutcome(start + 1, {}, Close) == Fail(NoElement)
  {
    UpdateSucceeds(start, {}, worlds);
  }
}
