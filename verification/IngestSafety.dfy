/** What every step of the ingest pipeline keeps. */
module IngestSafety {
  import opened Common

  import opened Ingest

  ghost predicate NoDup<T>(q: seq<T>) {
    forall i, j :: 0 <= i < j < |q| ==> q[i] != q[j]
  }

  // ----- calls -----

  ghost predicate MineOpen(s: State, c: CallId, m: Metric) {
    && c in s.calls && m in s.calls[c].rows
    && var r := Req(c, m, s.calls[c].rows[m]);
    r in s.place && !s.place[r].Finished?
  }

  ghost function Open(s: State, c: CallId): set<Metric>
    requires c in s.calls
  {
    set m | m in s.calls[c].rows && MineOpen(s, c, m)
  }

  /** A call's requests are all somewhere, its wait group counts the unfinished
      ones, and its error channel is closed only once there are none. */
  ghost predicate CallOk(s: State, c: CallId)
    requires c in s.calls
  {
    var call := s.calls[c];
    && call.unsent <= call.rows.Keys
    && (call.ready.Some? ==> call.ready.value in call.unsent && call.ready.value in s.inputs)
    && (forall m :: m in call.rows ==>
          Req(c, m, call.rows[m]) in s.place && (m in call.unsent <==> s.place[Req(c, m, call.rows[m])] == Unsent))
    && call.unfinished == |Open(s, c)|
    && (call.errs.closed <==> call.returned.Some?) && (call.errs.closed ==> call.errs.slot.None?)
    && (call.returned.Some? ==> call.unfinished == 0)
  }

  ghost predicate Known(s: State, r: Req) {
    r.call in s.calls && r.metric in s.calls[r.call].rows && r.rows == s.calls[r.call].rows[r.metric]
  }

  ghost predicate CallsOk(s: State) {
    && (forall c :: c in s.calls ==> CallOk(s, c))
    && (forall r :: r in s.place ==> Known(s, r))
  }

  // ----- where requests are -----

  /** A channel holds exactly the requests of its metric that are queued, once each. */
  ghost predicate QueuesOk(s: State) {
    && s.routines.Keys == s.inputs.Keys
    && (forall m :: m in s.inputs ==> NoDup(s.inputs[m]))
    && (forall m, r :: m in s.inputs && r in s.inputs[m] ==> r.metric == m && r in s.place && s.place[r] == Queued)
    && (forall r :: r in s.place && s.place[r] == Queued ==> r.metric in s.inputs && r in s.inputs[r.metric])
  }

  ghost predicate RoutineOk(s: State, m: Metric)
    requires m in s.routines
  {
    match s.routines[m]
    case Starting(c) =>
      && c in s.calls && m in s.calls[c].rows
      && var r := Req(c, m, s.calls[c].rows[m]);
      r in s.place && (s.place[r] == Unsent || s.place[r] == Queued)
    case Failing(_, Some(r)) => r.metric == m && r in s.place && s.place[r] == Taken
    case _ => true
  }

  ghost predicate RoutinesOk(s: State) {
    && (forall m :: m in s.routines ==> RoutineOk(s, m))
    && (forall r :: r in s.place && s.place[r] == Taken ==>
          r.metric in s.routines && s.routines[r.metric].Failing? && s.routines[r.metric].taken == Some(r))
  }

  /** A buffer's tasks are exactly the requests that are in it, once each; a pooled buffer is empty. */
  ghost predicate TasksOk(s: State) {
    && (forall b :: b in s.buffers ==> NoDup(s.buffers[b].tasks))
    && (forall b, r :: b in s.buffers && r in s.buffers[b].tasks ==> r in s.place && s.place[r] == InBuffer(b))
    && (forall r :: r in s.place && s.place[r].InBuffer? ==>
          s.place[r].buf in s.buffers && r in s.buffers[s.place[r].buf].tasks)
    && (forall b :: b in s.pool ==> b in s.buffers && s.buffers[b] == Buffer([], []))
  }

  // ----- where buffers are -----

  /** The holder that the owner of a buffer names does hold it. */
  ghost predicate OwnerOk(s: State, b: BufId)
    requires b in s.owner
  {
    match s.owner[b]
    case Pooled => b in s.pool && b !in s.reports
    case Handler(m) => m in s.routines && (if b in s.reports then s.routines[m] == Rejecting(b) else s.routines[m] == Receiving(b))
    case InChannel(t) => Batch(b, t) in s.toCopiers && b !in s.reports
    case HeldBy(k, t) => k in s.copiers && (if b in s.reports then s.copiers[k] == Reporting(b, t) else s.copiers[k] == Inserting(b, t))
  }

  /** Every buffer has one owner, and whoever holds a buffer is its owner. */
  ghost predicate OwnersOk(s: State) {
    && s.owner.Keys == s.buffers.Keys && s.reports.Keys <= s.buffers.Keys
    && (forall b :: b in s.owner ==> OwnerOk(s, b))
    && (forall b :: b in s.pool ==> b in s.owner && s.owner[b] == Pooled)
    && (forall m :: m in s.routines && (s.routines[m].Receiving? || s.routines[m].Rejecting?) ==>
          s.routines[m].buf in s.owner && s.owner[s.routines[m].buf] == Handler(m))
    && NoDup(s.toCopiers)
    && (forall x :: x in s.toCopiers ==> x.buf in s.owner && s.owner[x.buf] == InChannel(x.table))
    && (forall k :: k in s.copiers && !s.copiers[k].Idle? ==>
          s.copiers[k].buf in s.owner && s.owner[s.copiers[k].buf] == HeldBy(k, s.copiers[k].table))
    && (forall b :: b in s.reports && s.owner[b].Handler? ==> s.reports[b].err.Some?)
  }

  // ----- rows -----

  function Concat(tasks: seq<Req>): seq<Row> {
    if tasks == [] then [] else Concat(tasks[..|tasks| - 1]) + tasks[|tasks| - 1].rows
  }

  ghost predicate Persisted(db: set<(Metric, Row)>, r: Req) {
    forall x :: x in r.rows ==> (r.metric, x) in db
  }

  /** A batch on its way carries the rows of its requests, all for one table;
      a batch reported as inserted has its rows in the database. */
  ghost predicate BatchOk(s: State, b: BufId)
    requires b in s.owner && b in s.buffers
  {
    !s.owner[b].Pooled? ==>
      && (forall r :: r in s.buffers[b].tasks ==> r.metric == s.owner[b].table)
      && (b !in s.reports ==> s.buffers[b].rows == Concat(s.buffers[b].tasks))
      && (b in s.reports && s.reports[b].err.None? ==> forall r :: r in s.buffers[b].tasks ==> Persisted(s.db, r))
  }

  ghost predicate RowsOk(s: State) {
    && (forall b :: b in s.owner && b in s.buffers ==> BatchOk(s, b))
    && (forall r :: r in s.place && s.place[r] == Finished(None) ==> Persisted(s.db, r))
  }

  // ----- errors -----

  /** The call has an error waiting, or has returned one. */
  ghost predicate ErrorSeen(s: State, c: CallId) {
    c in s.calls && (s.calls[c].errs.slot.Some? || (s.calls[c].returned.Some? && s.calls[c].returned.value.Some?))
  }

  /** A failure is offered to its call before the request counts as done. */
  ghost predicate FailuresSeen(s: State) {
    && (forall r :: r in s.place && s.place[r].Finished? && s.place[r].err.Some? ==> ErrorSeen(s, r.call))
    && (forall m :: m in s.routines && s.routines[m].Failing? && s.routines[m].taken.Some? ==> ErrorSeen(s, s.routines[m].taken.value.call))
    && (forall b :: b in s.reports && s.reports[b].offered && b in s.buffers && s.buffers[b].tasks != [] ==>
          ErrorSeen(s, s.buffers[b].tasks[0].call))
  }

  /** The request has failed, or is bound to. */
  ghost predicate Doomed(s: State, r: Req) {
    && r in s.place
    && (match s.place[r]
        case Finished(err) => err.Some?
        case InBuffer(b) => b in s.reports && s.reports[b].err.Some?
        case _ => r.metric in s.routines && s.routines[r.metric].Failing?)
  }

  ghost predicate HasDoomed(s: State, c: CallId) {
    exists r: Req :: r.call == c && Doomed(s, r)
  }

  /** A call is only told of an error when one of its own requests fails. */
  ghost predicate ErrorsMeant(s: State) {
    forall c :: ErrorSeen(s, c) ==> HasDoomed(s, c)
  }

  /** Requests and buffers are each in exactly one place. */
  ghost predicate Placed(s: State) {
    CallsOk(s) && QueuesOk(s) && RoutinesOk(s) && TasksOk(s) && OwnersOk(s) && !s.panicked
  }

  /** Rows reach the database and errors reach their calls. */
  ghost predicate Accounted(s: State) {
    RowsOk(s) && FailuresSeen(s) && ErrorsMeant(s)
  }

  ghost predicate Inv(s: State) {
    Placed(s) && Accounted(s)
  }

  // ----- sequences -----

  lemma Popped<T>(q: seq<T>)
    requires q != [] && NoDup(q)
    ensures NoDup(q[1..]) && forall x :: x in q[1..] <==> x in q && x != q[0]
  {
  }

  lemma Pushed<T>(q: seq<T>, x: T)
    requires NoDup(q) && x !in q
    ensures NoDup(q + [x]) && forall y :: y in q + [x] <==> y in q || y == x
  {
  }

  // ----- calls are kept -----

  /** The calls differ at most in the error waiting in their channels. */
  ghost predicate SameCalls(s: State, s': State) {
    && s'.calls.Keys == s.calls.Keys
    && forall c :: c in s.calls ==> OnlySlot(s.calls[c], s'.calls[c])
  }

  predicate OnlySlot(call: Call, call': Call) {
    && call' == call.(errs := ErrChan(call'.errs.slot, call.errs.closed))
    && (call.errs.closed ==> call'.errs == call.errs)
  }

  lemma CallFrame(s: State, s': State, c: CallId)
    requires c in s.calls && CallOk(s, c) && c in s'.calls && s.inputs.Keys <= s'.inputs.Keys
    requires OnlySlot(s.calls[c], s'.calls[c])
    requires forall r :: r in s.place && r.call == c ==>
      r in s'.place && (s'.place[r] == Unsent <==> s.place[r] == Unsent) && (s'.place[r].Finished? <==> s.place[r].Finished?)
    ensures CallOk(s', c)
  {
    assert Open(s', c) == Open(s, c);
  }

  lemma CallsFrame(s: State, s': State)
    requires CallsOk(s) && SameCalls(s, s') && s.inputs.Keys <= s'.inputs.Keys && s'.place.Keys == s.place.Keys
    requires forall r :: r in s.place ==>
      (s'.place[r] == Unsent <==> s.place[r] == Unsent) && (s'.place[r].Finished? <==> s.place[r].Finished?)
    ensures CallsOk(s')
  {
    hide CallOk;
    forall c | c in s.calls ensures CallOk(s', c) {
      CallFrame(s, s', c);
    }
  }

  lemma CallFinish(s: State, s': State, r: Req, err: Option<Error>)
    requires Known(s, r) && CallOk(s, r.call) && r in s.place && !s.place[r].Finished? && s.place[r] != Unsent
    requires s'.place == s.place[r := Finished(err)] && s'.inputs == s.inputs
    requires s'.calls == s.calls[r.call := s.calls[r.call].(unfinished := s.calls[r.call].unfinished - 1)]
    ensures CallOk(s', r.call) && s.calls[r.call].unfinished > 0
  {
    assert MineOpen(s, r.call, r.metric);
    assert Open(s', r.call) == Open(s, r.call) - {r.metric};
  }

  lemma CallsFinish(s: State, s': State, r: Req, err: Option<Error>)
    requires CallsOk(s) && r in s.place && !s.place[r].Finished? && s.place[r] != Unsent && Known(s, r)
    requires s'.place == s.place[r := Finished(err)] && s'.inputs == s.inputs
    requires s'.calls == s.calls[r.call := s.calls[r.call].(unfinished := s.calls[r.call].unfinished - 1)]
    ensures CallsOk(s') && s.calls[r.call].unfinished > 0
  {
    hide CallOk;
    CallFinish(s, s', r, err);
    forall c | c in s.calls && c != r.call ensures CallOk(s', c) {
      CallFrame(s, s', c);
    }
  }

  ghost predicate PlacesAdded(s: State, s': State, c: CallId, rows: map<Metric, seq<Row>>) {
    && (forall r :: r in s.place ==> r in s'.place && s'.place[r] == s.place[r] && r.call != c)
    && (forall r :: r in s'.place && r !in s.place ==> s'.place[r] == Unsent && r.call == c && r.metric in rows && r.rows == rows[r.metric])
    && (forall m :: m in rows ==> Req(c, m, rows[m]) in s'.place && s'.place[Req(c, m, rows[m])] == Unsent)
  }

  lemma StartPlaces(s: State, c: CallId, rows: map<Metric, seq<Row>>)
    requires CallsOk(s) && CanStartCall(s, c)
    ensures PlacesAdded(s, StartCall(s, c, rows), c, rows)
  {
    assert forall r :: r in s.place ==> Known(s, r);
  }

  lemma CallNew(s': State, c: CallId, rows: map<Metric, seq<Row>>)
    requires c in s'.calls && s'.calls[c] == Call(rows, rows.Keys, None, |rows|, ErrChan(None, false), None)
    requires forall m :: m in rows ==> Req(c, m, rows[m]) in s'.place && s'.place[Req(c, m, rows[m])] == Unsent
    ensures CallOk(s', c)
  {
    assert Open(s', c) == rows.Keys;
  }

  lemma CallsStart(s: State, s': State, c: CallId, rows: map<Metric, seq<Row>>)
    requires CallsOk(s) && c !in s.calls && PlacesAdded(s, s', c, rows) && s'.inputs == s.inputs
    requires s'.calls == s.calls[c := Call(rows, rows.Keys, None, |rows|, ErrChan(None, false), None)]
    ensures CallsOk(s')
  {
    hide CallOk;
    CallNew(s', c, rows);
    forall c' | c' in s.calls ensures CallOk(s', c') {
      CallFrame(s, s', c');
    }
    forall r | r in s'.place ensures Known(s', r) {
      assert r in s.place ==> Known(s, r);
    }
  }

  lemma CallLookUp(s: State, s': State, c: CallId, m: Metric)
    requires c in s.calls && CallOk(s, c) && m in s.calls[c].unsent
    requires s'.calls == s.calls[c := s.calls[c].(ready := Some(m))] && s'.place == s.place && s.inputs.Keys + {m} <= s'.inputs.Keys
    ensures CallOk(s', c)
  {
    assert Open(s', c) == Open(s, c);
  }

  lemma CallsLookUp(s: State, s': State, c: CallId, m: Metric)
    requires CallsOk(s) && c in s.calls && m in s.calls[c].unsent
    requires s'.calls == s.calls[c := s.calls[c].(ready := Some(m))] && s'.place == s.place && s.inputs.Keys + {m} <= s'.inputs.Keys
    ensures CallsOk(s')
  {
    hide CallOk;
    CallLookUp(s, s', c, m);
    forall c' | c' in s.calls && c' != c ensures CallOk(s', c') {
      CallFrame(s, s', c');
    }
  }

  lemma CallSend(s: State, c: CallId)
    requires CanSend(s, c) && CallOk(s, c)
    ensures CallOk(Send(s, c), c)
    ensures var m := s.calls[c].ready.value; var r := Req(c, m, s.calls[c].rows[m]);
            r in s.place && s.place[r] == Unsent
  {
    assert Open(Send(s, c), c) == Open(s, c);
  }

  lemma CallsSend(s: State, c: CallId)
    requires CallsOk(s) && CanSend(s, c)
    ensures CallsOk(Send(s, c))
    ensures var m := s.calls[c].ready.value; var r := Req(c, m, s.calls[c].rows[m]);
            r in s.place && s.place[r] == Unsent
  {
    hide CallOk;
    var s' := Send(s, c);
    CallSend(s, c);
    forall c' | c' in s.calls && c' != c ensures CallOk(s', c') {
      CallFrame(s, s', c');
    }
  }

  lemma CallReturn(s: State, c: CallId)
    requires CanReturn(s, c) && CallOk(s, c)
    ensures CallOk(Return(s, c), c)
  {
    assert Open(Return(s, c), c) == Open(s, c);
  }

  lemma CallsReturn(s: State, c: CallId)
    requires CallsOk(s) && CanReturn(s, c)
    ensures CallsOk(Return(s, c))
  {
    hide CallOk;
    var s' := Return(s, c);
    CallReturn(s, c);
    forall c' | c' in s.calls && c' != c ensures CallOk(s', c') {
      CallFrame(s, s', c');
    }
  }

  // ----- queues are kept -----

  lemma QueuesFrame(s: State, s': State)
    requires QueuesOk(s) && s'.inputs == s.inputs && s'.routines.Keys == s.routines.Keys
    requires forall r :: (r in s'.place && s'.place[r] == Queued) <==> (r in s.place && s.place[r] == Queued)
    ensures QueuesOk(s')
  {
  }

  lemma QueuesPop(s: State, s': State, m: Metric, p: Place)
    requires QueuesOk(s) && m in s.inputs && s.inputs[m] != [] && p != Queued
    requires s'.inputs == s.inputs[m := s.inputs[m][1..]] && s'.routines.Keys == s.routines.Keys
    requires s'.place == s.place[s.inputs[m][0] := p]
    ensures QueuesOk(s')
    ensures s.inputs[m][0].metric == m && s.inputs[m][0] in s.place && s.place[s.inputs[m][0]] == Queued
  {
    Popped(s.inputs[m]);
    assert s.inputs[m][0] in s.inputs[m];
    hide NoDup;
  }

  lemma QueuesPush(s: State, s': State, m: Metric, r: Req)
    requires QueuesOk(s) && m in s.inputs && r.metric == m && r in s.place && s.place[r] == Unsent
    requires s'.inputs == s.inputs[m := s.inputs[m] + [r]] && s'.routines.Keys == s.routines.Keys
    requires s'.place == s.place[r := Queued]
    ensures QueuesOk(s')
  {
    Pushed(s.inputs[m], r);
    hide NoDup;
  }

  // ----- routines are kept -----

  ghost predicate StillWaiting(s: State, s': State) {
    && (forall c :: c in s.calls ==> c in s'.calls && s'.calls[c].rows == s.calls[c].rows)
    && (forall r :: (r in s'.place && s'.place[r] == Taken) <==> (r in s.place && s.place[r] == Taken))
    && (forall r :: r in s.place && (s.place[r] == Unsent || s.place[r] == Queued) ==>
          r in s'.place && (s'.place[r] == Unsent || s'.place[r] == Queued))
  }

  lemma RoutinesFrame(s: State, s': State)
    requires RoutinesOk(s) && s'.routines == s.routines && StillWaiting(s, s')
    ensures RoutinesOk(s')
  {
    forall m | m in s.routines ensures RoutineOk(s', m) {
      assert RoutineOk(s, m);
    }
  }

  /** A routine changes, and not into or out of handling a failed request. */
  lemma RoutinesChange(s: State, s': State, m: Metric)
    requires RoutinesOk(s) && StillWaiting(s, s')
    requires m in s'.routines && s'.routines == s.routines[m := s'.routines[m]]
    requires m in s.routines && s.routines[m].Failing? ==> s.routines[m].taken.None?
    requires RoutineOk(s', m)
    ensures RoutinesOk(s')
  {
    forall m' | m' in s'.routines ensures RoutineOk(s', m') {
      if m' != m {
        assert RoutineOk(s, m');
      }
    }
  }

  /** A request leaves the queue of a routine that is past starting, perhaps to be failed by it. */
  lemma RoutinesTake(s: State, s': State, m: Metric, r: Req)
    requires RoutinesOk(s) && m in s.routines && !s.routines[m].Starting?
    requires s.routines[m].Failing? ==> s.routines[m].taken.None?
    requires r.metric == m && r in s.place && s.place[r] == Queued
    requires forall c :: c in s.calls ==> c in s'.calls && s'.calls[c].rows == s.calls[c].rows
    requires r in s'.place && s'.place == s.place[r := s'.place[r]]
    requires m in s'.routines && s'.routines == s.routines[m := s'.routines[m]]
    requires if s'.place[r] == Taken then s'.routines[m].Failing? && s'.routines[m].taken == Some(r) else s'.routines[m] == s.routines[m]
    ensures RoutinesOk(s')
  {
    forall m' | m' in s.routines ensures RoutineOk(s', m') {
      assert RoutineOk(s, m');
    }
  }

  lemma RoutinesFailDone(s: State, m: Metric)
    requires RoutinesOk(s) && CanFailDone(s, m)
    ensures RoutinesOk(FailDone(s, m))
  {
    var s' := FailDone(s, m);
    assert RoutineOk(s, m);
    forall m' | m' in s.routines ensures RoutineOk(s', m') {
      assert RoutineOk(s, m');
    }
  }

  // ----- tasks are kept -----

  lemma TasksFrame(s: State, s': State)
    requires TasksOk(s) && s'.buffers == s.buffers && s'.pool <= s.pool
    requires forall r :: (r in s'.place && s'.place[r].InBuffer?) <==> (r in s.place && s.place[r].InBuffer?)
    requires forall r :: r in s.place && s.place[r].InBuffer? && r in s'.place ==> s'.place[r] == s.place[r]
    ensures TasksOk(s')
  {
  }

  lemma TasksPush(s: State, s': State, b: BufId, r: Req, rows: seq<Row>)
    requires TasksOk(s) && b in s.buffers && b !in s.pool && r in s.place && !s.place[r].InBuffer?
    requires s'.buffers == s.buffers[b := Buffer(s.buffers[b].tasks + [r], rows)] && s'.pool == s.pool
    requires s'.place == s.place[r := InBuffer(b)]
    ensures TasksOk(s')
  {
    Pushed(s.buffers[b].tasks, r);
    hide NoDup;
  }

  lemma TasksFinish(s: State, s': State, b: BufId, err: Option<Error>)
    requires TasksOk(s) && b in s.buffers && s.buffers[b].tasks != [] && b !in s.pool
    requires s'.buffers == s.buffers[b := s.buffers[b].(tasks := s.buffers[b].tasks[1..])] && s'.pool == s.pool
    requires s'.place == s.place[s.buffers[b].tasks[0] := Finished(err)]
    ensures TasksOk(s')
    ensures s.buffers[b].tasks[0] in s.place && s.place[s.buffers[b].tasks[0]] == InBuffer(b)
  {
    hide NoDup;
    var tasks, first := s.buffers[b].tasks, s.buffers[b].tasks[0];
    Popped(tasks);
    assert first in tasks;
    forall b', r | b' in s'.buffers && r in s'.buffers[b'].tasks ensures r in s'.place && s'.place[r] == InBuffer(b') {
      if b' == b {
        assert r in tasks[1..];
      } else {
        assert r in s.buffers[b'].tasks;
        assert s.place[first] == InBuffer(b);
      }
    }
    forall r | r in s'.place && s'.place[r].InBuffer? ensures s'.place[r].buf in s'.buffers && r in s'.buffers[s'.place[r].buf].tasks {
      assert r != first && s.place[r] == s'.place[r];
      assert r in s.buffers[s.place[r].buf].tasks;
    }
  }

  /** An empty buffer is cleared, pooled or taken. */
  lemma TasksEmptied(s: State, s': State, b: BufId)
    requires TasksOk(s) && s'.place == s.place
    requires b in s.buffers ==> s.buffers[b].tasks == []
    requires s'.buffers == s.buffers[b := Buffer([], [])] && s'.pool <= s.pool + {b}
    ensures TasksOk(s')
  {
  }

  // ----- owners are kept -----

  predicate Holding(r: Routine) {
    r.Receiving? || r.Rejecting?
  }

  ghost predicate SameReports(s: State, s': State) {
    s'.reports.Keys == s.reports.Keys && forall b :: b in s.reports ==> s'.reports[b].err == s.reports[b].err
  }

  lemma OwnersFrame(s: State, s': State)
    requires OwnersOk(s) && SameReports(s, s')
    requires s'.owner == s.owner && s'.buffers.Keys == s.buffers.Keys && s'.pool == s.pool
    requires s'.toCopiers == s.toCopiers && s'.copiers == s.copiers
    requires forall m :: m in s.routines && Holding(s.routines[m]) ==> m in s'.routines && s'.routines[m] == s.routines[m]
    requires forall m :: m in s'.routines && Holding(s'.routines[m]) ==> m in s.routines && s'.routines[m] == s.routines[m]
    ensures OwnersOk(s')
  {
    forall b | b in s'.owner ensures OwnerOk(s', b) {
      assert OwnerOk(s, b);
    }
  }

  lemma OwnersTakeBuffer(s: State, m: Metric, b: BufId)
    requires OwnersOk(s) && CanTakeBuffer(s, m, b)
    ensures OwnersOk(TakeBuffer(s, m, b))
  {
    hide NoDup;
    var s' := TakeBuffer(s, m, b);
    assert b in s.owner ==> OwnerOk(s, b);
    forall b' | b' in s'.owner ensures OwnerOk(s', b') {
      assert b' != b ==> OwnerOk(s, b');
    }
  }

  lemma OwnersHandOver(s: State, m: Metric)
    requires OwnersOk(s) && CanHandOver(s, m)
    ensures OwnersOk(HandOver(s, m))
  {
    var s', b := HandOver(s, m), s.routines[m].buf;
    assert OwnerOk(s, b);
    Pushed(s.toCopiers, Batch(b, m));
    hide NoDup;
    forall b' | b' in s'.owner ensures OwnerOk(s', b') {
      assert OwnerOk(s, b');
    }
  }

  lemma OwnersReject(s: State, m: Metric, err: Error)
    requires OwnersOk(s) && CanFlush(s, m)
    ensures OwnersOk(Reject(s, m, err))
  {
    hide NoDup;
    var s', b := Reject(s, m, err), s.routines[m].buf;
    forall b' | b' in s'.owner ensures OwnerOk(s', b') {
      assert OwnerOk(s, b');
    }
  }

  lemma OwnersRejectEnd(s: State, m: Metric)
    requires OwnersOk(s) && CanRejectEnd(s, m)
    ensures OwnersOk(RejectEnd(s, m))
  {
    hide NoDup;
    var s', b := RejectEnd(s, m), s.routines[m].buf;
    forall b' | b' in s'.owner ensures OwnerOk(s', b') {
      assert OwnerOk(s, b');
    }
  }

  lemma OwnersCopierTake(s: State, k: nat)
    requires OwnersOk(s) && CanCopierTake(s, k)
    ensures OwnersOk(CopierTake(s, k))
  {
    var s', x := CopierTake(s, k), s.toCopiers[0];
    assert x in s.toCopiers;
    assert OwnerOk(s, x.buf);
    Popped(s.toCopiers);
    hide NoDup;
    forall b' | b' in s'.owner ensures OwnerOk(s', b') {
      assert OwnerOk(s, b');
    }
  }

  lemma OwnersInsert(s: State, k: nat, outcome: Option<Error>)
    requires OwnersOk(s) && CanInsert(s, k)
    ensures OwnersOk(Insert(s, k, outcome))
  {
    hide NoDup, TableRows;
    var s', b := Insert(s, k, outcome), s.copiers[k].buf;
    forall b' | b' in s'.owner ensures OwnerOk(s', b') {
      assert OwnerOk(s, b');
    }
  }

  lemma OwnersReportEnd(s: State, k: nat)
    requires OwnersOk(s) && CanReportEnd(s, k)
    ensures OwnersOk(ReportEnd(s, k))
  {
    hide NoDup;
    var s', b := ReportEnd(s, k), s.copiers[k].buf;
    forall b' | b' in s'.owner ensures OwnerOk(s', b') {
      assert OwnerOk(s, b');
    }
  }

  /** Nothing moves in or between buffers. */
  ghost predicate BuffersStill(s: State, s': State) {
    && s'.owner == s.owner && s'.buffers == s.buffers && s'.pool == s.pool
    && s'.toCopiers == s.toCopiers && s'.copiers == s.copiers && SameReports(s, s')
    && (forall m :: m in s.routines && Holding(s.routines[m]) ==> m in s'.routines && s'.routines[m] == s.routines[m])
    && (forall m :: m in s'.routines && Holding(s'.routines[m]) ==> m in s.routines && s'.routines[m] == s.routines[m])
    && (forall r :: (r in s'.place && s'.place[r].InBuffer?) <==> (r in s.place && s.place[r].InBuffer?))
    && (forall r :: r in s.place && s.place[r].InBuffer? && r in s'.place ==> s'.place[r] == s.place[r])
  }

  lemma BuffersFrame(s: State, s': State)
    requires TasksOk(s) && OwnersOk(s) && BuffersStill(s, s')
    ensures TasksOk(s') && OwnersOk(s')
  {
    hide TasksOk, OwnersOk;
    TasksFrame(s, s');
    OwnersFrame(s, s');
  }

  // ----- rows are kept -----

  lemma RowsFrame(s: State, s': State)
    requires RowsOk(s) && SameReports(s, s') && s'.buffers == s.buffers && s'.owner.Keys == s.owner.Keys && s.db <= s'.db
    requires forall b :: b in s.owner ==> (s'.owner[b].Pooled? <==> s.owner[b].Pooled?) && (!s.owner[b].Pooled? ==> s'.owner[b].table == s.owner[b].table)
    requires forall r :: r in s'.place && s'.place[r] == Finished(None) ==> r in s.place && s.place[r] == Finished(None)
    ensures RowsOk(s')
  {
    hide Concat;
    forall b | b in s'.owner && b in s'.buffers ensures BatchOk(s', b) {
      assert BatchOk(s, b);
    }
  }

  lemma BatchElsewhere(s: State, s': State, b: BufId, b': BufId)
    requires b' in s.owner && b' in s.buffers && BatchOk(s, b') && b' != b && s.db <= s'.db
    requires b' in s'.owner && s'.owner[b'] == s.owner[b'] && b' in s'.buffers && s'.buffers[b'] == s.buffers[b']
    requires (b' in s'.reports <==> b' in s.reports) && (b' in s.reports ==> s'.reports[b'] == s.reports[b'])
    ensures BatchOk(s', b')
  {
    hide Concat;
  }

  /** One buffer changes; its batch is shown to be in order separately. */
  lemma RowsChange(s: State, s': State, b: BufId)
    requires RowsOk(s) && s.db <= s'.db
    requires forall b' :: b' in s'.owner && b' in s'.buffers && b' != b ==>
      && b' in s.owner && s'.owner[b'] == s.owner[b'] && b' in s.buffers && s'.buffers[b'] == s.buffers[b']
      && (b' in s'.reports <==> b' in s.reports) && (b' in s.reports ==> s'.reports[b'] == s.reports[b'])
    requires forall r :: r in s'.place && s'.place[r] == Finished(None) ==>
      (r in s.place && s.place[r] == Finished(None)) || Persisted(s'.db, r)
    requires b in s'.owner && b in s'.buffers ==> BatchOk(s', b)
    ensures RowsOk(s')
  {
    hide BatchOk;
    forall b' | b' in s'.owner && b' in s'.buffers ensures BatchOk(s', b') {
      if b' != b {
        BatchElsewhere(s, s', b, b');
      }
    }
  }

  lemma {:induction false} ConcatMembers(tasks: seq<Req>)
    ensures forall r, x :: r in tasks && x in r.rows ==> x in Concat(tasks)
  {
    if tasks != [] {
      ConcatMembers(tasks[..|tasks| - 1]);
      assert tasks == tasks[..|tasks| - 1] + [tasks[|tasks| - 1]];
    }
  }

  lemma BatchInserted(s: State, s': State, b: BufId)
    requires b in s.owner && b in s.buffers && BatchOk(s, b) && !s.owner[b].Pooled? && b !in s.reports
    requires b in s'.owner && s'.owner[b] == s.owner[b] && b in s'.buffers && s'.buffers[b] == s.buffers[b]
    requires b in s'.reports && (s'.reports[b].err.None? ==> TableRows(s.owner[b].table, s.buffers[b].rows) <= s'.db)
    ensures BatchOk(s', b)
  {
    ConcatMembers(s.buffers[b].tasks);
    hide Concat;
    if s'.reports[b].err.None? {
      forall r, x | r in s.buffers[b].tasks && x in r.rows ensures (r.metric, x) in s'.db {
        assert (s.owner[b].table, x) in TableRows(s.owner[b].table, s.buffers[b].rows);
      }
    }
  }

  lemma BatchGrows(s: State, s': State, b: BufId, r: Req)
    requires b in s.owner && b in s.buffers && BatchOk(s, b) && !s.owner[b].Pooled? && b !in s.reports && r.metric == s.owner[b].table
    requires b in s'.owner && s'.owner[b] == s.owner[b] && b !in s'.reports
    requires b in s'.buffers && s'.buffers[b] == Buffer(s.buffers[b].tasks + [r], s.buffers[b].rows + r.rows)
    ensures BatchOk(s', b)
  {
    var t := s.buffers[b].tasks;
    assert (t + [r])[..|t|] == t;
  }

  // ----- errors are kept -----

  lemma FailuresFrame(s: State, s': State)
    requires FailuresSeen(s)
    requires forall c :: ErrorSeen(s, c) ==> ErrorSeen(s', c)
    requires forall r :: r in s'.place && s'.place[r].Finished? && s'.place[r].err.Some? ==>
      (r in s.place && s.place[r] == s'.place[r]) || ErrorSeen(s', r.call)
    requires forall m :: m in s'.routines && s'.routines[m].Failing? && s'.routines[m].taken.Some? ==>
      (m in s.routines && s.routines[m] == s'.routines[m]) || ErrorSeen(s', s'.routines[m].taken.value.call)
    requires forall b :: b in s'.reports && s'.reports[b].offered && b in s'.buffers && s'.buffers[b].tasks != [] ==>
      (b in s.reports && s.reports[b].offered && b in s.buffers && s.buffers[b] == s'.buffers[b]) || ErrorSeen(s', s'.buffers[b].tasks[0].call)
    ensures FailuresSeen(s')
  {
    hide ErrorSeen;
  }

  predicate Waiting(p: Place) {
    p == Unsent || p == Queued || p == Taken
  }

  /** Nothing that was bound to fail is any longer spared. */
  ghost predicate NoReprieve(s: State, s': State) {
    && (forall m :: m in s.routines && s.routines[m].Failing? ==> m in s'.routines && s'.routines[m].Failing?)
    && (forall r :: r in s.place ==>
          && r in s'.place
          && (s'.place[r] == s.place[r] || (Waiting(s.place[r]) && Waiting(s'.place[r])) || (s'.place[r].Finished? && s'.place[r].err.Some?) || !Doomed(s, r)))
    && (forall r :: r in s.place && s.place[r].InBuffer? && s.place[r].buf in s.reports && s.reports[s.place[r].buf].err.Some? && r in s'.place && s'.place[r] == s.place[r] ==>
          s.place[r].buf in s'.reports && s'.reports[s.place[r].buf].err.Some?)
  }

  lemma ErrorsFrame(s: State, s': State)
    requires ErrorsMeant(s) && NoReprieve(s, s')
    requires forall c :: ErrorSeen(s', c) ==> ErrorSeen(s, c) || HasDoomed(s', c)
    ensures ErrorsMeant(s')
  {
    hide ErrorSeen;
    forall c | ErrorSeen(s, c) ensures HasDoomed(s', c) {
      assert HasDoomed(s, c);
      var r: Req :| r.call == c && Doomed(s, r);
      assert Doomed(s', r);
    }
  }

  // ----- steps that only touch calls, channels and waiting requests -----

  ghost predicate Quiet(s: State, s': State) {
    && s'.routines == s.routines && s'.toCopiers == s.toCopiers && s'.copiers == s.copiers && s'.pool == s.pool
    && s'.buffers == s.buffers && s'.reports == s.reports && s'.db == s.db && s'.owner == s.owner
    && StillWaiting(s, s')
    && s.place.Keys <= s'.place.Keys
    && (forall r :: r in s.place && (s.place[r].InBuffer? || s.place[r].Finished?) ==> s'.place[r] == s.place[r])
    && (forall r :: r in s'.place && (s'.place[r].InBuffer? || s'.place[r].Finished?) ==> r in s.place && s'.place[r] == s.place[r])
    && (forall c :: ErrorSeen(s', c) <==> ErrorSeen(s, c))
  }

  lemma QuietPlaced(s: State, s': State)
    requires RoutinesOk(s) && TasksOk(s) && OwnersOk(s) && Quiet(s, s')
    ensures RoutinesOk(s') && TasksOk(s') && OwnersOk(s')
  {
    hide RoutinesOk, TasksOk, OwnersOk, ErrorSeen;
    RoutinesFrame(s, s');
    TasksFrame(s, s');
    OwnersFrame(s, s');
  }

  lemma QuietAccounted(s: State, s': State)
    requires Accounted(s) && Quiet(s, s')
    ensures Accounted(s')
  {
    hide RowsOk, FailuresSeen, ErrorsMeant, ErrorSeen;
    RowsFrame(s, s');
    FailuresFrame(s, s');
    ErrorsFrame(s, s');
  }
}
