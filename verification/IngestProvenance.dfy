/** Where the rows in the database and the errors of calls come from: the fate of
    a request, once decided, is sealed, and it alone decides both. */
module IngestProvenance {
  import opened Common
  import opened Ingest
  import opened IngestSafety
  import opened IngestSteps

  /** The outcome that has been decided for a request: no error once its batch is
      inserted, an error once its batch or its metric's table has failed. */
  ghost function Fate(s: State, r: Req): Option<Option<Error>> {
    if r !in s.place then None
    else
      match s.place[r]
      case Finished(err) => Some(err)
      case InBuffer(b) => if b in s.reports then Some(s.reports[b].err) else None
      case _ =>
        if r.metric in s.routines && s.routines[r.metric].Failing? then Some(Some(s.routines[r.metric].err)) else None
  }

  ghost predicate Sealed(s: State, s': State, r: Req) {
    Fate(s, r).Some? ==> Fate(s', r) == Fate(s, r)
  }

  // ----- no step changes a fate -----

  lemma CallerSeals(s: State, s': State, r: Req)
    requires Placed(s) && CallerStep(s, s')
    ensures Sealed(s, s', r)
  {
    hide QueuesOk, RoutinesOk, TasksOk, OwnersOk, CanStartCall, StartCall, CanLookUp, LookUp, CanSend, Send, CanReturn, Return;
    if c, rows :| CanStartCall(s, c) && s' == StartCall(s, c, rows) {
      StartCallSeals(s, c, rows, r);
    } else if c, m :| CanLookUp(s, c, m) && s' == LookUp(s, c, m) {
      LookUpSeals(s, c, m, r);
    } else if c :| CanSend(s, c) && s' == Send(s, c) {
      SendSeals(s, c, r);
    } else {
      var c :| CanReturn(s, c) && s' == Return(s, c);
      ReturnSeals(s, c, r);
    }
  }

  lemma StartCallSeals(s: State, c: CallId, rows: map<Metric, seq<Row>>, r: Req)
    requires CallsOk(s) && CanStartCall(s, c)
    ensures Sealed(s, StartCall(s, c, rows), r)
  {
    hide CallsOk, Fate;
    StartPlaces(s, c, rows);
    if r in s.place {
      FateFrame(s, StartCall(s, c, rows), r);
    } else {
      NoFate(s, r);
    }
  }

  lemma FateFrame(s: State, s': State, r: Req)
    requires s'.reports == s.reports && s'.routines == s.routines && r in s.place && r in s'.place && s'.place[r] == s.place[r]
    ensures Fate(s', r) == Fate(s, r)
  {
  }

  lemma NoFate(s: State, r: Req)
    requires r !in s.place
    ensures Fate(s, r) == None
  {
  }

  lemma LookUpSeals(s: State, c: CallId, m: Metric, r: Req)
    requires Placed(s) && CanLookUp(s, c, m)
    ensures Sealed(s, LookUp(s, c, m), r)
  {
    hide CallsOk, RoutinesOk, TasksOk, OwnersOk;
    assert m in s.routines ==> m in s.inputs;
  }

  lemma SendSeals(s: State, c: CallId, r: Req)
    requires CallsOk(s) && CanSend(s, c)
    ensures Sealed(s, Send(s, c), r)
  {
    assert CallOk(s, c);
    var call := s.calls[c];
    var m := call.ready.value;
    assert s.place[Req(c, m, call.rows[m])] == Unsent;
    hide CallsOk, CallOk;
  }

  lemma ReturnSeals(s: State, c: CallId, r: Req)
    requires CanReturn(s, c)
    ensures Sealed(s, Return(s, c), r)
  {
  }

  lemma TakeBufferSeals(s: State, m: Metric, b: BufId, r: Req)
    requires CanTakeBuffer(s, m, b)
    ensures Sealed(s, TakeBuffer(s, m, b), r)
  {
  }

  lemma StartFailSeals(s: State, m: Metric, err: Error, r: Req)
    requires CanStartFail(s, m)
    ensures Sealed(s, StartFail(s, m, err), r)
  {
  }

  lemma FailTakeSeals(s: State, m: Metric, r: Req)
    requires Placed(s) && CanFailTake(s, m)
    ensures Sealed(s, FailTake(s, m), r)
  {
    hide CallsOk, QueuesOk, RoutinesOk, TasksOk, OwnersOk;
    HeadOfQueue(s, m);
  }

  lemma FailDoneSeals(s: State, m: Metric, r: Req)
    requires Placed(s) && CanFailDone(s, m)
    ensures Sealed(s, FailDone(s, m), r)
  {
    hide CallsOk, QueuesOk, RoutinesOk, TasksOk, OwnersOk;
    TakenFacts(s, m);
  }

  lemma ReceiveSeals(s: State, m: Metric, r: Req)
    requires Placed(s) && CanReceive(s, m)
    ensures Sealed(s, Receive(s, m), r)
  {
    hide CallsOk, QueuesOk, RoutinesOk, TasksOk, OwnersOk;
    HeadOfQueue(s, m);
  }

  lemma FlushSeals(s: State, m: Metric, err: Error, r: Req)
    requires Placed(s)
    ensures CanHandOver(s, m) ==> Sealed(s, HandOver(s, m), r)
    ensures CanFlush(s, m) ==> Sealed(s, Reject(s, m, err), r)
  {
    hide CallsOk, QueuesOk, RoutinesOk, TasksOk, OwnersOk;
    if CanFlush(s, m) {
      HandlerFacts(s, m);
    }
  }

  lemma RejectEndSeals(s: State, m: Metric, r: Req)
    requires Placed(s) && CanRejectEnd(s, m)
    ensures Sealed(s, RejectEnd(s, m), r)
  {
    hide CallsOk, QueuesOk, RoutinesOk, TasksOk, OwnersOk;
    NoneInside(s, s.routines[m].buf);
  }

  lemma RoutineSeals(s: State, s': State, r: Req)
    requires Placed(s) && RoutineStep(s, s')
    ensures Sealed(s, s', r)
  {
    hide Placed, Sealed, CanTakeBuffer, TakeBuffer, CanStartFail, StartFail, CanFailTake, FailTake, CanFailDone, FailDone,
         CanReceive, Receive, CanHandOver, HandOver, CanFlush, Reject, CanRejectEnd, RejectEnd;
    if m, b :| CanTakeBuffer(s, m, b) && s' == TakeBuffer(s, m, b) {
      TakeBufferSeals(s, m, b, r);
    } else if m, err :| CanStartFail(s, m) && s' == StartFail(s, m, err) {
      StartFailSeals(s, m, err, r);
    } else if m :| CanFailTake(s, m) && s' == FailTake(s, m) {
      FailTakeSeals(s, m, r);
    } else if m :| CanFailDone(s, m) && s' == FailDone(s, m) {
      FailDoneSeals(s, m, r);
    } else if m :| CanReceive(s, m) && s' == Receive(s, m) {
      ReceiveSeals(s, m, r);
    } else if m :| CanHandOver(s, m) && s' == HandOver(s, m) {
      FlushSeals(s, m, "", r);
    } else if m, err :| CanFlush(s, m) && s' == Reject(s, m, err) {
      FlushSeals(s, m, err, r);
    } else {
      var m :| CanRejectEnd(s, m) && s' == RejectEnd(s, m);
      RejectEndSeals(s, m, r);
    }
  }

  lemma OfferFirstSeals(s: State, b: BufId, r: Req)
    requires CanOfferFirst(s, b)
    ensures Sealed(s, OfferFirst(s, b), r)
  {
  }

  lemma FinishFirstSeals(s: State, b: BufId, r: Req)
    requires Placed(s) && CanFinishFirst(s, b)
    ensures Sealed(s, FinishFirst(s, b), r)
  {
    hide Placed;
    FirstFacts(s, b);
  }

  lemma CopierTakeSeals(s: State, k: nat, r: Req)
    requires CanCopierTake(s, k)
    ensures Sealed(s, CopierTake(s, k), r)
  {
  }

  lemma InsertSeals(s: State, k: nat, outcome: Option<Error>, r: Req)
    requires OwnersOk(s) && CanInsert(s, k)
    ensures Sealed(s, Insert(s, k, outcome), r)
  {
    hide OwnersOk;
    CopierFacts(s, k);
  }

  lemma ReportEndSeals(s: State, k: nat, r: Req)
    requires TasksOk(s) && CanReportEnd(s, k)
    ensures Sealed(s, ReportEnd(s, k), r)
  {
    hide TasksOk;
    NoneInside(s, s.copiers[k].buf);
  }

  lemma CopierSeals(s: State, s': State, r: Req)
    requires Placed(s) && CopierStep(s, s')
    ensures Sealed(s, s', r)
  {
    hide CallsOk, QueuesOk, RoutinesOk, TasksOk, OwnersOk, Sealed, CanOfferFirst, OfferFirst, CanFinishFirst, FinishFirst,
         CanCopierTake, CopierTake, CanInsert, Insert, CanReportEnd, ReportEnd;
    if b :| CanOfferFirst(s, b) && s' == OfferFirst(s, b) {
      OfferFirstSeals(s, b, r);
    } else if b :| CanFinishFirst(s, b) && s' == FinishFirst(s, b) {
      FinishFirstSeals(s, b, r);
    } else if k :| CanCopierTake(s, k) && s' == CopierTake(s, k) {
      CopierTakeSeals(s, k, r);
    } else if k, o :| CanInsert(s, k) && s' == Insert(s, k, o) {
      InsertSeals(s, k, o, r);
    } else {
      var k :| CanReportEnd(s, k) && s' == ReportEnd(s, k);
      ReportEndSeals(s, k, r);
    }
  }

  lemma NextSeals(s: State, s': State, r: Req)
    requires Placed(s) && Next(s, s')
    ensures Sealed(s, s', r)
  {
    hide Placed, Sealed, CallerStep, RoutineStep, CopierStep;
    if CallerStep(s, s') {
      CallerSeals(s, s', r);
    } else if RoutineStep(s, s') {
      RoutineSeals(s, s', r);
    } else {
      CopierSeals(s, s', r);
    }
  }

  /** What has been decided for a request is never decided again. */
  lemma {:induction false} FateSealed(run: seq<State>, i: nat, j: nat, r: Req)
    requires IsRun(run) && i <= j < |run| && Fate(run[i], r).Some?
    ensures Fate(run[j], r) == Fate(run[i], r)
    decreases j
  {
    hide Fate, Inv, Init, Next;
    if i < j {
      FateSealed(run, i, j - 1, r);
      RunHolds(run, j - 1);
      InvIsPlaced(run[j - 1]);
      NextSeals(run[j - 1], run[j], r);
    }
  }

  lemma InvIsPlaced(s: State)
    requires Inv(s)
    ensures Placed(s) && RowsOk(s)
  {
  }

  // ----- where rows come from -----

  /** A request of the metric that has the row, and whose batch was inserted. */
  ghost predicate InsertedBy(s: State, r: Req, m: Metric, x: Row) {
    r.metric == m && x in r.rows && Fate(s, r) == Some(None)
  }

  ghost predicate Sourced(s: State, m: Metric, x: Row) {
    exists r :: InsertedBy(s, r, m, x)
  }

  lemma {:induction false} ConcatSource(tasks: seq<Req>, x: Row) returns (r: Req)
    requires x in Concat(tasks)
    ensures r in tasks && x in r.rows
  {
    var n := |tasks| - 1;
    if x in tasks[n].rows {
      r := tasks[n];
    } else {
      r := ConcatSource(tasks[..n], x);
    }
  }

  /** An insert adds rows of the requests in its own batch only, to their own table. */
  lemma InsertSources(s: State, k: nat, outcome: Option<Error>, m: Metric, x: Row)
    requires Placed(s) && RowsOk(s) && CanInsert(s, k)
    requires (m, x) in Insert(s, k, outcome).db && (m, x) !in s.db
    ensures Sourced(Insert(s, k, outcome), m, x)
  {
    hide CallsOk, QueuesOk, RoutinesOk, TasksOk, OwnersOk, RowsOk, Concat;
    var s', b := Insert(s, k, outcome), s.copiers[k].buf;
    CopierFacts(s, k);
    BatchOf(s, b);
    var r := ConcatSource(s.buffers[b].tasks, x);
    TaskPlace(s, b, r);
    assert InsertedBy(s', r, m, x);
  }

  lemma TaskPlace(s: State, b: BufId, r: Req)
    requires TasksOk(s) && b in s.buffers && r in s.buffers[b].tasks
    ensures r in s.place && s.place[r] == InBuffer(b)
  {
  }

  /** No other step touches the database. */
  lemma StartCallKeepsRows(s: State, c: CallId, rows: map<Metric, seq<Row>>)
    ensures StartCall(s, c, rows).db == s.db
  {
  }

  lemma LookUpKeepsRows(s: State, c: CallId, m: Metric)
    requires CanLookUp(s, c, m)
    ensures LookUp(s, c, m).db == s.db
  {
    var s1 := s.(calls := s.calls[c := s.calls[c].(ready := Some(m))]);
    assert s1.db == s.db;
    if m !in s.inputs {
      assert LookUp(s, c, m) == s1.(inputs := s.inputs[m := []], routines := s.routines[m := Starting(c)]);
    }
  }

  lemma SendKeepsRows(s: State, c: CallId)
    requires CanSend(s, c)
    ensures Send(s, c).db == s.db
  {
  }

  lemma ReturnKeepsRows(s: State, c: CallId)
    requires CanReturn(s, c)
    ensures Return(s, c).db == s.db
  {
  }

  lemma CallerKeepsRows(s: State, s': State)
    requires CallerStep(s, s')
    ensures s'.db == s.db
  {
    hide CanStartCall, StartCall, CanLookUp, LookUp, CanSend, Send, CanReturn, Return;
    if c, rows :| CanStartCall(s, c) && s' == StartCall(s, c, rows) {
      StartCallKeepsRows(s, c, rows);
    } else if c, m :| CanLookUp(s, c, m) && s' == LookUp(s, c, m) {
      LookUpKeepsRows(s, c, m);
    } else if c :| CanSend(s, c) && s' == Send(s, c) {
      SendKeepsRows(s, c);
    } else {
      var c :| CanReturn(s, c) && s' == Return(s, c);
      ReturnKeepsRows(s, c);
    }
  }

  lemma TakingKeepsRows(s: State, m: Metric, b: BufId, err: Error)
    ensures CanTakeBuffer(s, m, b) ==> TakeBuffer(s, m, b).db == s.db
    ensures CanStartFail(s, m) ==> StartFail(s, m, err).db == s.db
    ensures CanFailTake(s, m) ==> FailTake(s, m).db == s.db
    ensures CanFailDone(s, m) ==> FailDone(s, m).db == s.db
  {
  }

  lemma HandlingKeepsRows(s: State, m: Metric, err: Error)
    ensures CanReceive(s, m) ==> Receive(s, m).db == s.db
    ensures CanHandOver(s, m) ==> HandOver(s, m).db == s.db
    ensures CanFlush(s, m) ==> Reject(s, m, err).db == s.db
    ensures CanRejectEnd(s, m) ==> RejectEnd(s, m).db == s.db
  {
  }

  lemma RoutineKeepsRows(s: State, s': State)
    requires RoutineStep(s, s')
    ensures s'.db == s.db
  {
    hide CanTakeBuffer, TakeBuffer, CanStartFail, StartFail, CanFailTake, FailTake, CanFailDone, FailDone,
         CanReceive, Receive, CanHandOver, HandOver, CanFlush, Reject, CanRejectEnd, RejectEnd;
    forall m, b ensures CanTakeBuffer(s, m, b) ==> TakeBuffer(s, m, b).db == s.db { TakingKeepsRows(s, m, b, ""); }
    forall m, err ensures CanStartFail(s, m) ==> StartFail(s, m, err).db == s.db { TakingKeepsRows(s, m, 0, err); }
    forall m ensures CanFailTake(s, m) ==> FailTake(s, m).db == s.db { TakingKeepsRows(s, m, 0, ""); }
    forall m ensures CanFailDone(s, m) ==> FailDone(s, m).db == s.db { TakingKeepsRows(s, m, 0, ""); }
    forall m ensures CanReceive(s, m) ==> Receive(s, m).db == s.db { HandlingKeepsRows(s, m, ""); }
    forall m ensures CanHandOver(s, m) ==> HandOver(s, m).db == s.db { HandlingKeepsRows(s, m, ""); }
    forall m, err ensures CanFlush(s, m) ==> Reject(s, m, err).db == s.db { HandlingKeepsRows(s, m, err); }
    forall m ensures CanRejectEnd(s, m) ==> RejectEnd(s, m).db == s.db { HandlingKeepsRows(s, m, ""); }
  }

  lemma ReportingKeepsRows(s: State, b: BufId, k: nat)
    ensures CanOfferFirst(s, b) ==> OfferFirst(s, b).db == s.db
    ensures CanFinishFirst(s, b) ==> FinishFirst(s, b).db == s.db
    ensures CanCopierTake(s, k) ==> CopierTake(s, k).db == s.db
    ensures CanReportEnd(s, k) ==> ReportEnd(s, k).db == s.db
  {
  }

  ghost predicate IsInsert(s: State, s': State, k: nat, o: Option<Error>) {
    CanInsert(s, k) && s' == Insert(s, k, o)
  }

  lemma CopierKeepsRows(s: State, s': State)
    requires CopierStep(s, s')
    ensures s'.db == s.db || exists k, o :: IsInsert(s, s', k, o)
  {
    hide CanOfferFirst, OfferFirst, CanFinishFirst, FinishFirst, CanCopierTake, CopierTake, CanInsert, Insert, CanReportEnd, ReportEnd;
    if b :| CanOfferFirst(s, b) && s' == OfferFirst(s, b) {
      ReportingKeepsRows(s, b, 0);
    } else if b :| CanFinishFirst(s, b) && s' == FinishFirst(s, b) {
      ReportingKeepsRows(s, b, 0);
    } else if k :| CanCopierTake(s, k) && s' == CopierTake(s, k) {
      ReportingKeepsRows(s, 0, k);
    } else if k :| CanReportEnd(s, k) && s' == ReportEnd(s, k) {
      ReportingKeepsRows(s, 0, k);
    } else {
      var k, o :| CanInsert(s, k) && s' == Insert(s, k, o);
      assert IsInsert(s, s', k, o);
    }
  }

  lemma OtherStepsKeepRows(s: State, s': State)
    requires Next(s, s')
    ensures s'.db == s.db || exists k, o :: IsInsert(s, s', k, o)
  {
    hide CallerStep, RoutineStep, CopierStep, IsInsert;
    if CallerStep(s, s') {
      CallerKeepsRows(s, s');
    } else if RoutineStep(s, s') {
      RoutineKeepsRows(s, s');
    } else {
      CopierKeepsRows(s, s');
    }
  }

  lemma NextSources(s: State, s': State, m: Metric, x: Row)
    requires Placed(s) && RowsOk(s) && Next(s, s') && (m, x) in s'.db && (m, x) !in s.db
    ensures Sourced(s', m, x)
  {
    hide Placed, RowsOk, Next, CanInsert, Insert, Sourced;
    if k, o :| IsInsert(s, s', k, o) {
      InsertSources(s, k, o, m, x);
    } else {
      OtherStepsKeepRows(s, s');
    }
  }

  lemma {:induction false} OnlySourced(run: seq<State>, i: nat, m: Metric, x: Row)
    requires IsRun(run) && i < |run| && (m, x) in run[i].db
    ensures (m, x) in run[0].db || Sourced(run[i], m, x)
    decreases i
  {
    hide Fate, Inv, Init, Next;
    if i > 0 {
      RunHolds(run, i - 1);
      InvIsPlaced(run[i - 1]);
      if (m, x) in run[i - 1].db {
        OnlySourced(run, i - 1, m, x);
        var before := run[i - 1];
        if r :| InsertedBy(before, r, m, x) {
          NextSeals(run[i - 1], run[i], r);
          assert InsertedBy(run[i], r, m, x);
        }
      } else {
        NextSources(run[i - 1], run[i], m, x);
      }
    }
  }

  lemma {:induction false} RowsStay(run: seq<State>, i: nat)
    requires IsRun(run) && i < |run|
    ensures run[0].db <= run[i].db
    decreases i
  {
    hide Init, Next;
    if i > 0 {
      RowsStay(run, i - 1);
      StepKeepsRows(run[i - 1], run[i]);
    }
  }

  lemma StepKeepsRows(s: State, s': State)
    requires Next(s, s')
    ensures s.db <= s'.db
  {
    hide Next, CanInsert;
    if k, o :| IsInsert(s, s', k, o) {
    } else {
      OtherStepsKeepRows(s, s');
    }
  }

  lemma SourceIsThere(s: State, r: Req)
    requires Placed(s) && RowsOk(s) && Fate(s, r) == Some(None)
    ensures Persisted(s.db, r)
  {
    hide CallsOk, QueuesOk, RoutinesOk;
    if s.place[r].InBuffer? {
      var b := s.place[r].buf;
      assert OwnerOk(s, b) && BatchOk(s, b);
    }
  }

  /** The database of every run has exactly the rows it had at the start and
      those of the requests whose batch was inserted, each in its own table. */
  lemma DatabaseExactly(run: seq<State>, i: nat, m: Metric, x: Row)
    requires IsRun(run) && i < |run|
    ensures (m, x) in run[i].db <==>
      (m, x) in run[0].db || Sourced(run[i], m, x)
  {
    RunHolds(run, i);
    InvIsPlaced(run[i]);
    hide Placed, RowsOk, Fate, Inv;
    RowsStay(run, i);
    if (m, x) in run[i].db {
      OnlySourced(run, i, m, x);
    }
    if r :| InsertedBy(run[i], r, m, x) {
      SourceIsThere(run[i], r);
    }
  }

  /** Rows of requests that all failed are not added. */
  lemma FailedAddNothing(run: seq<State>, i: nat, m: Metric, x: Row)
    requires IsRun(run) && i < |run| && (m, x) !in run[0].db
    requires forall r :: r in run[i].place && r.metric == m && x in r.rows ==> run[i].place[r].Finished? && run[i].place[r].err.Some?
    ensures (m, x) !in run[i].db
  {
    DatabaseExactly(run, i, m, x);
  }

  // ----- where errors come from -----

  /** The call has the error waiting, or has returned it. */
  ghost predicate Holds(s: State, c: CallId, e: Error) {
    c in s.calls && (s.calls[c].errs.slot == Some(e) || s.calls[c].returned == Some(Some(e)))
  }

  ghost predicate FailsWith(s: State, r: Req, c: CallId, e: Error) {
    r.call == c && Fate(s, r) == Some(Some(e))
  }

  ghost predicate Meant(s: State, c: CallId, e: Error) {
    exists r :: FailsWith(s, r, c, e)
  }

  /** Only three steps give a call an error, and each has a request of that call that fails with it. */
  ghost predicate NewlyHeld(s: State, s': State, c: CallId, e: Error) {
    Holds(s', c, e) && !Holds(s, c, e)
  }

  lemma StartFailMeant(s: State, m: Metric, err: Error, c: CallId, e: Error)
    requires Placed(s) && CanStartFail(s, m)
    ensures NewlyHeld(s, StartFail(s, m, err), c, e) ==> Meant(StartFail(s, m, err), c, e)
  {
    hide CallsOk, QueuesOk, RoutinesOk, TasksOk, OwnersOk;
    var r := StartingCall(s, m);
    assert NewlyHeld(s, StartFail(s, m, err), c, e) ==> FailsWith(StartFail(s, m, err), r, c, e);
  }

  lemma FailTakeMeant(s: State, m: Metric, c: CallId, e: Error)
    requires Placed(s) && CanFailTake(s, m)
    ensures NewlyHeld(s, FailTake(s, m), c, e) ==> Meant(FailTake(s, m), c, e)
  {
    hide CallsOk, QueuesOk, RoutinesOk, TasksOk, OwnersOk;
    HeadOfQueue(s, m);
    assert NewlyHeld(s, FailTake(s, m), c, e) ==> FailsWith(FailTake(s, m), s.inputs[m][0], c, e);
  }

  lemma OfferFirstMeant(s: State, b: BufId, c: CallId, e: Error)
    requires Placed(s) && CanOfferFirst(s, b)
    ensures NewlyHeld(s, OfferFirst(s, b), c, e) ==> Meant(OfferFirst(s, b), c, e)
  {
    hide Placed;
    FirstFacts(s, b);
    assert NewlyHeld(s, OfferFirst(s, b), c, e) ==> FailsWith(OfferFirst(s, b), s.buffers[b].tasks[0], c, e);
  }

  ghost predicate GivesNone(s: State, s': State) {
    forall c, e :: Holds(s', c, e) ==> Holds(s, c, e)
  }

  lemma StartCallGivesNone(s: State, c: CallId, rows: map<Metric, seq<Row>>)
    ensures GivesNone(s, StartCall(s, c, rows))
  {
    var s' := StartCall(s, c, rows);
    assert s'.calls == s.calls[c := Call(rows, rows.Keys, None, |rows|, ErrChan(None, false), None)];
    hide StartCall;
  }

  lemma LookUpGivesNone(s: State, c: CallId, m: Metric)
    requires CanLookUp(s, c, m)
    ensures GivesNone(s, LookUp(s, c, m))
  {
    hide GivesNone;
    var call := s.calls[c].(ready := Some(m));
    if m in s.inputs {
      SameErrorsGiveNone(s, s.(calls := s.calls[c := call]), c, call);
    } else {
      SameErrorsGiveNone(s, LookUp(s, c, m), c, call);
    }
  }

  lemma SameErrorsGiveNone(s: State, s': State, c: CallId, call: Call)
    requires c in s.calls && s'.calls == s.calls[c := call] && call.errs == s.calls[c].errs && call.returned == s.calls[c].returned
    ensures GivesNone(s, s')
  {
  }

  lemma SendGivesNone(s: State, c: CallId)
    requires CanSend(s, c)
    ensures GivesNone(s, Send(s, c))
  {
  }

  lemma ReturnGivesNone(s: State, c: CallId)
    requires CanReturn(s, c)
    ensures GivesNone(s, Return(s, c))
  {
  }

  lemma CallerGivesNone(s: State, s': State)
    requires CallerStep(s, s')
    ensures GivesNone(s, s')
  {
    hide GivesNone, CanStartCall, StartCall, CanLookUp, LookUp, CanSend, Send, CanReturn, Return;
    if c, rows :| CanStartCall(s, c) && s' == StartCall(s, c, rows) {
      StartCallGivesNone(s, c, rows);
    } else if c, m :| CanLookUp(s, c, m) && s' == LookUp(s, c, m) {
      LookUpGivesNone(s, c, m);
    } else if c :| CanSend(s, c) && s' == Send(s, c) {
      SendGivesNone(s, c);
    } else {
      var c :| CanReturn(s, c) && s' == Return(s, c);
      ReturnGivesNone(s, c);
    }
  }

  lemma RoutinesGiveNone(s: State, m: Metric, b: BufId, err: Error)
    ensures CanTakeBuffer(s, m, b) ==> GivesNone(s, TakeBuffer(s, m, b))
    ensures CanFailDone(s, m) ==> GivesNone(s, FailDone(s, m))
    ensures CanReceive(s, m) ==> GivesNone(s, Receive(s, m))
    ensures CanHandOver(s, m) ==> GivesNone(s, HandOver(s, m))
    ensures CanFlush(s, m) ==> GivesNone(s, Reject(s, m, err))
    ensures CanRejectEnd(s, m) ==> GivesNone(s, RejectEnd(s, m))
  {
  }

  lemma RoutineMeant(s: State, s': State, c: CallId, e: Error)
    requires Placed(s) && RoutineStep(s, s')
    ensures NewlyHeld(s, s', c, e) ==> Meant(s', c, e)
  {
    hide Placed, Meant, Holds, CanTakeBuffer, TakeBuffer, CanStartFail, StartFail, CanFailTake, FailTake, CanFailDone, FailDone,
         CanReceive, Receive, CanHandOver, HandOver, CanFlush, Reject, CanRejectEnd, RejectEnd;
    if m, err :| CanStartFail(s, m) && s' == StartFail(s, m, err) {
      StartFailMeant(s, m, err, c, e);
    } else if m :| CanFailTake(s, m) && s' == FailTake(s, m) {
      FailTakeMeant(s, m, c, e);
    } else {
      forall m, b ensures CanTakeBuffer(s, m, b) ==> GivesNone(s, TakeBuffer(s, m, b)) { RoutinesGiveNone(s, m, b, ""); }
      forall m ensures CanFailDone(s, m) ==> GivesNone(s, FailDone(s, m)) { RoutinesGiveNone(s, m, 0, ""); }
      forall m ensures CanReceive(s, m) ==> GivesNone(s, Receive(s, m)) { RoutinesGiveNone(s, m, 0, ""); }
      forall m ensures CanHandOver(s, m) ==> GivesNone(s, HandOver(s, m)) { RoutinesGiveNone(s, m, 0, ""); }
      forall m, err ensures CanFlush(s, m) ==> GivesNone(s, Reject(s, m, err)) { RoutinesGiveNone(s, m, 0, err); }
      forall m ensures CanRejectEnd(s, m) ==> GivesNone(s, RejectEnd(s, m)) { RoutinesGiveNone(s, m, 0, ""); }
      assert GivesNone(s, s');
    }
  }

  lemma CopiersGiveNone(s: State, b: BufId, k: nat, o: Option<Error>)
    ensures CanFinishFirst(s, b) ==> GivesNone(s, FinishFirst(s, b))
    ensures CanCopierTake(s, k) ==> GivesNone(s, CopierTake(s, k))
    ensures CanInsert(s, k) ==> GivesNone(s, Insert(s, k, o))
    ensures CanReportEnd(s, k) ==> GivesNone(s, ReportEnd(s, k))
  {
  }

  lemma CopierMeant(s: State, s': State, c: CallId, e: Error)
    requires Placed(s) && CopierStep(s, s')
    ensures NewlyHeld(s, s', c, e) ==> Meant(s', c, e)
  {
    hide Placed, Meant, Holds, CanOfferFirst, OfferFirst, CanFinishFirst, FinishFirst, CanCopierTake, CopierTake,
         CanInsert, Insert, CanReportEnd, ReportEnd;
    if b :| CanOfferFirst(s, b) && s' == OfferFirst(s, b) {
      OfferFirstMeant(s, b, c, e);
    } else {
      forall b ensures CanFinishFirst(s, b) ==> GivesNone(s, FinishFirst(s, b)) { CopiersGiveNone(s, b, 0, None); }
      forall k ensures CanCopierTake(s, k) ==> GivesNone(s, CopierTake(s, k)) { CopiersGiveNone(s, 0, k, None); }
      forall k, o ensures CanInsert(s, k) ==> GivesNone(s, Insert(s, k, o)) { CopiersGiveNone(s, 0, k, o); }
      forall k ensures CanReportEnd(s, k) ==> GivesNone(s, ReportEnd(s, k)) { CopiersGiveNone(s, 0, k, None); }
      assert GivesNone(s, s');
    }
  }

  lemma NextMeant(s: State, s': State, c: CallId, e: Error)
    requires Placed(s) && Next(s, s')
    ensures NewlyHeld(s, s', c, e) ==> Meant(s', c, e)
  {
    hide Placed, Meant, Holds, CallerStep, RoutineStep, CopierStep;
    if CallerStep(s, s') {
      CallerGivesNone(s, s');
    } else if RoutineStep(s, s') {
      RoutineMeant(s, s', c, e);
    } else {
      CopierMeant(s, s', c, e);
    }
  }

  lemma {:induction false} HeldIsMeant(run: seq<State>, i: nat, c: CallId, e: Error)
    requires IsRun(run) && i < |run| && Holds(run[i], c, e)
    ensures Meant(run[i], c, e)
    decreases i
  {
    hide Fate, Inv, Next;
    if i > 0 {
      RunHolds(run, i - 1);
      InvIsPlaced(run[i - 1]);
      if Holds(run[i - 1], c, e) {
        HeldIsMeant(run, i - 1, c, e);
        var r :| FailsWith(run[i - 1], r, c, e);
        NextSeals(run[i - 1], run[i], r);
        assert FailsWith(run[i], r, c, e);
      } else {
        NextMeant(run[i - 1], run[i], c, e);
      }
    }
  }

  /** The error a call returns is the one that a request of that call failed with. */
  lemma ReturnedErrorIsOwn(run: seq<State>, i: nat, c: CallId, e: Error)
    requires IsRun(run) && i < |run| && c in run[i].calls && run[i].calls[c].returned == Some(Some(e))
    ensures exists r: Req :: r.call == c && r in run[i].place && run[i].place[r] == Finished(Some(e))
  {
    HeldIsMeant(run, i, c, e);
    var r :| FailsWith(run[i], r, c, e);
    RunHolds(run, i);
    FailedFinished(run[i], r);
  }

  lemma FailedFinished(s: State, r: Req)
    requires CallsOk(s) && r in s.place && r.call in s.calls && s.calls[r.call].returned.Some?
    ensures s.place[r].Finished?
  {
    assert Known(s, r) && CallOk(s, r.call);
    assert Open(s, r.call) == {};
    assert r.metric !in Open(s, r.call);
    assert r == Req(r.call, r.metric, s.calls[r.call].rows[r.metric]);
  }
}
