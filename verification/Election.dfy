/** Leader election with a PostgreSQL advisory lock: the server's lock table,
    the instances of a group and the scheduled election. */
module Election {
  import opened Common

  /** The server side: live sessions, and how often the one that holds the group
      lock has taken it. */
  class LockServer {
    var sessions: set<nat>
    var holder: map<nat, nat>
    var nextSession: nat

    constructor ()
      ensures Valid() && sessions == {} && holder == map[]
    {
      sessions, holder, nextSession := {}, map[], 0;
    }

    ghost predicate Valid()
      reads this
    {
      && holder.Keys <= sessions
      && (forall a, b :: a in holder && b in holder ==> a == b)
      && (forall a :: a in holder ==> holder[a] > 0)
      && (forall a :: a in sessions ==> a < nextSession)
    }

    method Connect() returns (sid: nat)
      requires Valid()
      modifies this
      ensures Valid() && sid == old(nextSession) && nextSession == sid + 1
      ensures sessions == old(sessions) + {sid} && sid !in old(sessions) && holder == old(holder)
    {
      sid := nextSession;
      sessions, nextSession := sessions + {sid}, nextSession + 1;
    }

    /** `pg_try_advisory_lock`: the holder may take the lock again. */
    method TryAdvisoryLock(sid: nat) returns (granted: bool)
      requires Valid() && sid in sessions
      modifies this`holder
      ensures Valid() && granted == (forall a :: a in old(holder) ==> a == sid)
      ensures granted ==> holder.Keys == {sid}
      ensures granted ==> holder[sid] == 1 + if sid in old(holder) then old(holder)[sid] else 0
      ensures !granted ==> holder == old(holder)
    {
      if holder.Keys <= {sid} {
        holder := map[sid := 1 + if sid in holder then holder[sid] else 0];
        return true;
      }
      return false;
    }

    /** `pg_advisory_unlock_all`: all of a session's locks go at once. */
    method UnlockAll(sid: nat)
      requires Valid() && sid in sessions
      modifies this`holder
      ensures Valid() && holder == old(holder) - {sid}
    {
      holder := holder - {sid};
    }

    /** A session ends: closed by its client, cut off or lost; its locks go with it. */
    method EndSession(sid: nat)
      requires Valid()
      modifies this
      ensures Valid() && sessions == old(sessions) - {sid} && holder == old(holder) - {sid} && nextSession == old(nextSession)
    {
      sessions, holder := sessions - {sid}, holder - {sid};
    }
  }

  /** How the exchange for one statement goes. A failure may strike before or
      after the server executed the statement. */
  datatype Exchange =
    | QueryFails(executed: bool)
    | RowsFail(executed: bool)
    | RowMissing(executed: bool)
    | RowUnreadable(executed: bool)
    | Answered

  predicate Executes(e: Exchange) {
    e.Answered? || e.executed
  }

  datatype Released = Done | NotHeld | Failed | Crashed

  class PgAdvisoryLock {
    const server: LockServer
    var conn: Option<nat>
    var obtained: bool
    // whether the last call returned without unlocking the mutex
    var stuck: bool
    // whether the last call was a release that failed after the server had executed it
    ghost var loose: bool

    constructor (server: LockServer)
      ensures this.server == server && conn == None && !obtained && !stuck && !loose
    {
      this.server, conn, obtained, stuck, loose := server, None, false, false, false;
    }

    /** Holds itself to be the leader, on a session that is alive. */
    ghost predicate Leads()
      reads this, server
    {
      obtained && conn.Some? && conn.value in server.sessions
    }

    /** It then does hold the lock, unless its last release failed too late. */
    ghost predicate Sound()
      reads this, server
    {
      && (conn.Some? ==> conn.value < server.nextSession)
      && (Leads() ==> (conn.value in server.holder <==> !loose))
    }

    method ConnCleanUp()
      modifies this`conn
      ensures conn == None
    {
      conn := None;
    }

    /** One statement over the connection: whether an answer came, and what it was. */
    method Ask(exchange: Exchange) returns (answer: Option<bool>)
      requires server.Valid() && conn.Some? && conn.value < server.nextSession
      modifies this`conn, server`holder
      ensures server.Valid()
      ensures answer.Some? <==> exchange.Answered? && old(conn).value in server.sessions
      ensures answer.Some? ==> conn == old(conn) && (answer.value <==> forall a :: a in old(server.holder) ==> a == conn.value)
      ensures answer == Some(true) ==> server.holder.Keys == {conn.value}
      ensures answer == Some(false) ==> server.holder == old(server.holder)
      ensures forall a :: a in old(server.holder) ==> a in server.holder
      ensures forall a :: a in server.holder ==> a in old(server.holder) || a == old(conn).value
      // the connection is given up only on an error of the query or of its rows
      ensures conn == old(conn) || conn == None
      ensures answer.None? && old(conn).value in server.sessions ==> (conn == None <==> exchange.QueryFails? || exchange.RowsFail?)
      ensures old(conn).value !in server.sessions ==> conn == None && server.holder == old(server.holder)
    {
      var sid := conn.value;
      if sid !in server.sessions {
        ConnCleanUp();
        return None;
      }
      if exchange.Answered? {
        var granted := server.TryAdvisoryLock(sid);
        return Some(granted);
      }
      if exchange.executed {
        var _ := server.TryAdvisoryLock(sid);
      }
      if exchange.QueryFails? || exchange.RowsFail? {
        ConnCleanUp();
      }
      return None;
    }

    /** Tries to take the lock, or to take it once more. */
    method TryLock(connects: bool, exchange: Exchange) returns (r: bool, failed: bool)
      requires server.Valid() && Sound() && !stuck
      modifies this, server
      ensures server.Valid() && Sound() && !stuck && !loose
      ensures r ==> Leads() && server.holder.Keys == {conn.value}
      ensures r == obtained
      ensures !failed <==> (old(conn.Some? && conn.value in server.sessions) || (old(conn.None?) && connects)) && exchange.Answered?
      ensures r <==> !failed && (old(server.holder) == map[] || (old(conn.Some?) && old(conn.value in server.holder)))
      ensures !r && !failed ==> server.holder == old(server.holder)
      // nothing changes for the other sessions
      ensures forall a :: a in old(server.holder) ==> a in server.holder
      ensures forall a :: a in server.holder ==> a in old(server.holder) || Some(a) == old(conn) || a == old(server.nextSession)
      ensures server.sessions - {old(server.nextSession)} == old(server.sessions) && server.nextSession >= old(server.nextSession)
      ensures conn == old(conn) || conn == None || conn == Some(old(server.nextSession))
      ensures conn.Some? && conn != old(conn) ==> server.nextSession == conn.value + 1
    {
      loose := false;
      if conn.None? {
        if !connects {
          obtained := false;
          return false, true;
        }
        var sid := server.Connect();
        conn := Some(sid);
      }
      ghost var before := server.holder;
      assert conn.value in before ==> old(conn.Some?);
      var answer := Ask(exchange);
      if answer.None? {
        obtained := false;
        return false, true;
      }
      if !answer.value {
        obtained := false;
        return false, false;
      }
      obtained := true;
      return true, false;
    }

    /** Gives the lock back, however often it was taken. Without the lock it
        returns with the mutex still locked. Only an error of the query itself is
        noticed; the rows of the answer are closed without a look. */
    method Release(exchange: Exchange) returns (r: Released)
      requires server.Valid() && Sound() && !stuck
      modifies this`obtained, this`stuck, this`loose, server`holder
      ensures server.Valid() && Sound()
      ensures stuck <==> !old(obtained)
      ensures r == NotHeld <==> !old(obtained)
      ensures r == Crashed <==> old(obtained) && conn.None?
      ensures r == Failed <==> old(obtained) && conn.Some? && exchange.QueryFails?
      ensures obtained == (old(obtained) && r != Done)
      ensures server.holder == if old(Leads()) && Executes(exchange) then old(server.holder) - {conn.value} else old(server.holder)
      // a release without error frees a lock that is held if and only if the statement was executed
      ensures r == Done && old(Leads() && !loose) ==> (server.holder == map[] <==> Executes(exchange))
      // one that fails leaves a leader without the lock if and only if the statement was executed
      ensures r == Failed ==> Leads() == old(Leads()) && loose == (old(loose) || (old(Leads()) && exchange.executed))
      ensures r == Done ==> !loose
      ensures r == NotHeld || r == Crashed ==> loose == old(loose)
    {
      if !obtained {
        stuck := true;
        return NotHeld;
      }
      if conn.None? {
        return Crashed;
      }
      var executed := conn.value in server.sessions && Executes(exchange);
      if executed {
        server.UnlockAll(conn.value);
      }
      if exchange.QueryFails? {
        loose := loose || executed;
        return Failed;
      }
      obtained, loose := false, false;
      return Done;
    }

    method Close()
      requires server.Valid() && Sound() && !stuck
      modifies this`conn
      ensures conn == None && Sound() && !Leads()
    {
      ConnCleanUp();
    }
  }

  // ----- groups and runs -----

  /** The instances of one group, each with its own connection. */
  ghost predicate Group(server: LockServer, locks: seq<PgAdvisoryLock>)
    reads server, locks
  {
    && server.Valid()
    && (forall i :: 0 <= i < |locks| ==> locks[i].server == server && locks[i].Sound())
    && (forall i, j :: 0 <= i < j < |locks| ==> locks[i] != locks[j])
    && (forall i, j :: 0 <= i < j < |locks| && locks[i].conn.Some? ==> locks[i].conn != locks[j].conn)
  }

  /** Of two leaders, one has made a release that failed after it was executed, and no call since. */
  lemma AtMostOneLeader(server: LockServer, locks: seq<PgAdvisoryLock>, i: nat, j: nat)
    requires Group(server, locks) && i < j < |locks| && locks[i].Leads() && locks[j].Leads()
    ensures locks[i].loose || locks[j].loose
  {
    assert locks[i].Sound() && locks[j].Sound();
    assert locks[i].conn != locks[j].conn;
  }

  /** What can happen next: a call on an instance, or the end of a session. A
      call on an instance whose mutex is stuck waits forever. */
  datatype Event =
    | Try(i: nat, connects: bool, exchange: Exchange)
    | GiveUp(i: nat, exchange: Exchange)
    | Shut(i: nat)
    | Lost(sid: nat)

  predicate Possible(e: Event, n: nat) {
    e.Lost? || e.i < n
  }

  /** A release that the server executes and that fails all the same. */
  predicate FailsTooLate(e: Event) {
    e.GiveUp? && e.exchange == QueryFails(true)
  }

  ghost predicate NoneLoose(locks: seq<PgAdvisoryLock>)
    reads locks
  {
    forall i :: 0 <= i < |locks| ==> !(locks[i].loose && locks[i].obtained)
  }

  method Happen(server: LockServer, locks: seq<PgAdvisoryLock>, e: Event)
    requires Group(server, locks) && Possible(e, |locks|)
    modifies server, locks
    ensures Group(server, locks)
    ensures !FailsTooLate(e) && old(NoneLoose(locks)) ==> NoneLoose(locks)
  {
    match e
    case Try(i, connects, exchange) =>
      if !locks[i].stuck {
        var r, failed := locks[i].TryLock(connects, exchange);
      }
    case GiveUp(i, exchange) =>
      if !locks[i].stuck {
        var r := locks[i].Release(exchange);
      }
    case Shut(i) =>
      if !locks[i].stuck {
        locks[i].Close();
      }
    case Lost(sid) =>
      server.EndSession(sid);
  }

  /** Whatever happens, in whatever order: two leaders at once take a release that
      failed after it was executed, and without one there are never two. */
  method Run(server: LockServer, locks: seq<PgAdvisoryLock>, events: seq<Event>)
    requires Group(server, locks) && forall k :: 0 <= k < |events| ==> Possible(events[k], |locks|)
    modifies server, locks
    ensures Group(server, locks)
    ensures forall i, j :: 0 <= i < j < |locks| && locks[i].Leads() && locks[j].Leads() ==> locks[i].loose || locks[j].loose
    ensures old(NoneLoose(locks)) && (forall k :: 0 <= k < |events| ==> !FailsTooLate(events[k])) ==>
      forall i, j :: 0 <= i < j < |locks| ==> !(locks[i].Leads() && locks[j].Leads())
  {
    for k := 0 to |events|
      invariant Group(server, locks)
      invariant old(NoneLoose(locks)) && (forall l :: 0 <= l < k ==> !FailsTooLate(events[l])) ==> NoneLoose(locks)
    {
      Happen(server, locks, events[k]);
    }
    forall i, j | 0 <= i < j < |locks| && locks[i].Leads() && locks[j].Leads() ensures locks[i].loose || locks[j].loose {
      AtMostOneLeader(server, locks, i, j);
    }
  }

  /** The exception is real: after such a release of the leader, the next instance
      that asks becomes leader too. */
  method TwoLeaders(server: LockServer, locks: seq<PgAdvisoryLock>, i: nat, j: nat)
    requires Group(server, locks) && i < |locks| && j < |locks| && i != j
    requires locks[i].Leads() && !locks[i].loose && !locks[i].stuck && !locks[j].stuck && locks[j].conn.None?
    modifies server, locks
    ensures Group(server, locks) && locks[i].Leads() && locks[j].Leads() && locks[i].loose
  {
    assert locks[i] != locks[j];
    var r := locks[i].Release(QueryFails(true));
    var got, failed := locks[j].TryLock(true, Answered);
  }

  /** A release can also report success and leave the lock where it was: nobody
      leads, and another instance asks in vain. */
  method SilentlyNotReleased(server: LockServer, locks: seq<PgAdvisoryLock>, i: nat, j: nat) returns (r: Released, got: bool)
    requires Group(server, locks) && i < |locks| && j < |locks| && i != j
    requires locks[i].Leads() && !locks[i].loose && !locks[i].stuck && !locks[j].stuck && locks[j].conn.None?
    modifies server, locks
    ensures Group(server, locks) && r == Done && !locks[i].Leads() && !got && !locks[j].Leads()
    ensures server.holder == old(server.holder) != map[]
  {
    assert locks[i] != locks[j];
    assert locks[i].Sound();
    r := locks[i].Release(RowsFail(false));
    var failed;
    got, failed := locks[j].TryLock(true, Answered);
  }

  /** Instances started one after the other; each tries to take the lock, and one
      that meets an error is not started. */
  method StartGroup(starts: seq<(bool, Exchange)>) returns (server: LockServer, locks: seq<PgAdvisoryLock>)
    ensures fresh(server) && fresh(locks) && Group(server, locks) && NoneLoose(locks)
  {
    server := new LockServer();
    locks := [];
    for k := 0 to |starts|
      invariant fresh(server) && fresh(locks) && Group(server, locks) && NoneLoose(locks)
    {
      var lock := new PgAdvisoryLock(server);
      var r, failed := lock.TryLock(starts[k].0, starts[k].1);
      if !failed {
        locks := locks + [lock];
      }
    }
  }

  // ----- scheduled election -----

  class ScheduledElector {
    const lock: PgAdvisoryLock
    var paused: bool

    constructor (lock: PgAdvisoryLock)
      ensures this.lock == lock && !paused
    {
      this.lock, paused := lock, false;
    }

    /** One scheduled election: two attempts at most. The instance ends up leader
        exactly if it is said to be. */
    method Elect(c1: bool, e1: Exchange, c2: bool, e2: Exchange) returns (leader: bool)
      requires lock.server.Valid() && lock.Sound() && !lock.stuck
      modifies lock, lock.server
      ensures lock.server.Valid() && lock.Sound() && !lock.stuck
      ensures leader == lock.obtained && (leader ==> lock.Leads())
    {
      var failed;
      leader, failed := lock.TryLock(c1, e1);
      if !failed && !leader {
        leader, failed := lock.TryLock(c2, e2);
      }
    }

    /** Gives up leadership if Prometheus has been silent for longer than the
        timeout. Asking whether it is leader makes an instance try to become
        it, so a paused instance that finds the lock free leads again, and as
        long as it leads its pause is not lifted. */
    method PrometheusLivenessCheck(elapsed: int, timeout: int, connects: bool, exchange: Exchange, release: Exchange)
      requires lock.server.Valid() && lock.Sound() && !lock.stuck
      modifies this`paused, lock, lock.server
      ensures lock.server.Valid() && lock.Sound() && !lock.stuck
      ensures elapsed > timeout && !release.QueryFails? ==> !lock.Leads()
      ensures elapsed > timeout && lock.Leads() ==> paused
      ensures elapsed <= timeout && lock.obtained ==> paused == old(paused)
      ensures !lock.obtained && elapsed < timeout ==> !paused
      ensures old(paused) && elapsed >= timeout ==> paused
    {
      var leader, failed := lock.TryLock(connects, exchange);
      if leader {
        if elapsed > timeout {
          paused := true;
          var r := lock.Release(release);
        }
      } else if paused && elapsed < timeout {
        paused := false;
      }
    }
  }
}
