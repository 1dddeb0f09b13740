/** What holds in every state of every run of the ingest pipeline. */
module IngestTheorems {
  import opened Common
  import opened Ingest
  import opened IngestSafety

  import opened IngestSteps

  /** Nothing is ever sent on a closed error channel and no wait group goes negative. */
  lemma NeverPanics(run: seq<State>, i: nat)
    requires IsRun(run) && i < |run|
    ensures !run[i].panicked
  {
    RunHolds(run, i);
  }

  /** No buffer is held in two places at once, and every pooled buffer is empty. */
  lemma OneHolder(run: seq<State>, i: nat)
    requires IsRun(run) && i < |run|
    ensures var s := run[i];
      && (forall m, m' :: m in s.routines && m' in s.routines && m != m' && Holding(s.routines[m]) && Holding(s.routines[m']) ==> s.routines[m].buf != s.routines[m'].buf)
      && (forall k, k' :: k in s.copiers && k' in s.copiers && k != k' && !s.copiers[k].Idle? && !s.copiers[k'].Idle? ==> s.copiers[k].buf != s.copiers[k'].buf)
      && (forall j, j' :: 0 <= j < j' < |s.toCopiers| ==> s.toCopiers[j].buf != s.toCopiers[j'].buf)
      && (forall m, k :: m in s.routines && Holding(s.routines[m]) && k in s.copiers && !s.copiers[k].Idle? ==> s.routines[m].buf != s.copiers[k].buf)
      && (forall m, x :: m in s.routines && Holding(s.routines[m]) && x in s.toCopiers ==> s.routines[m].buf != x.buf)
      && (forall k, x :: k in s.copiers && !s.copiers[k].Idle? && x in s.toCopiers ==> s.copiers[k].buf != x.buf)
  {
    RunHolds(run, i);
    HoldersApart(run[i]);
  }

  lemma HoldersApart(s: State)
    requires OwnersOk(s)
    ensures forall m, m' :: m in s.routines && m' in s.routines && m != m' && Holding(s.routines[m]) && Holding(s.routines[m']) ==> s.routines[m].buf != s.routines[m'].buf
    ensures forall k, k' :: k in s.copiers && k' in s.copiers && k != k' && !s.copiers[k].Idle? && !s.copiers[k'].Idle? ==> s.copiers[k].buf != s.copiers[k'].buf
    ensures forall j, j' :: 0 <= j < j' < |s.toCopiers| ==> s.toCopiers[j].buf != s.toCopiers[j'].buf
    ensures forall m, k :: m in s.routines && Holding(s.routines[m]) && k in s.copiers && !s.copiers[k].Idle? ==> s.routines[m].buf != s.copiers[k].buf
    ensures forall m, x :: m in s.routines && Holding(s.routines[m]) && x in s.toCopiers ==> s.routines[m].buf != x.buf
    ensures forall k, x :: k in s.copiers && !s.copiers[k].Idle? && x in s.toCopiers ==> s.copiers[k].buf != x.buf
  {
    hide OwnerOk;
    forall j, j' | 0 <= j < j' < |s.toCopiers| ensures s.toCopiers[j].buf != s.toCopiers[j'].buf {
      assert s.toCopiers[j] in s.toCopiers && s.toCopiers[j'] in s.toCopiers;
    }
  }

  lemma PooledAreEmpty(run: seq<State>, i: nat, b: BufId)
    requires IsRun(run) && i < |run| && b in run[i].pool
    ensures b in run[i].buffers && run[i].buffers[b] == Buffer([], [])
    ensures forall m :: m in run[i].routines && Holding(run[i].routines[m]) ==> run[i].routines[m].buf != b
    ensures forall k :: k in run[i].copiers && !run[i].copiers[k].Idle? ==> run[i].copiers[k].buf != b
  {
    RunHolds(run, i);
  }

  /** Everywhere a request can be: still with its call, in a channel, in a buffer, or being failed. */
  datatype Spot = WithCall | InQueue(metric: Metric, at: nat) | AsTask(buf: BufId, at: nat) | BeingFailed(metric: Metric)

  ghost predicate At(s: State, r: Req, spot: Spot) {
    match spot
    case WithCall => Known(s, r) && r.metric in s.calls[r.call].unsent
    case InQueue(m, j) => m in s.inputs && j < |s.inputs[m]| && s.inputs[m][j] == r
    case AsTask(b, j) => b in s.buffers && j < |s.buffers[b].tasks| && s.buffers[b].tasks[j] == r
    case BeingFailed(m) => m in s.routines && s.routines[m].Failing? && s.routines[m].taken == Some(r)
  }

  ghost function SpotPlace(spot: Spot): Place {
    match spot
    case WithCall => Unsent
    case InQueue(_, _) => Queued
    case AsTask(b, _) => InBuffer(b)
    case BeingFailed(_) => Taken
  }

  lemma SpotIsPlace(s: State, r: Req, spot: Spot)
    requires Placed(s) && At(s, r, spot)
    ensures r in s.place && s.place[r] == SpotPlace(spot)
  {
    match spot
    case WithCall =>
      assert CallOk(s, r.call);
    case InQueue(m, j) =>
      assert r in s.inputs[m];
    case AsTask(b, j) =>
      assert r in s.buffers[b].tasks;
    case BeingFailed(m) =>
      assert RoutineOk(s, m);
  }

  lemma SameSpot(s: State, r: Req, a: Spot, b: Spot)
    requires Placed(s) && At(s, r, a) && At(s, r, b) && SpotPlace(a) == SpotPlace(b)
    ensures a == b
  {
    hide CallsOk, OwnersOk;
    match (a, b)
    case (WithCall, WithCall) =>
    case (InQueue(m, j), InQueue(m', j')) =>
      hide RoutinesOk, TasksOk;
      assert r in s.inputs[m] && r in s.inputs[m'];
      assert NoDup(s.inputs[m]);
    case (AsTask(x, j), AsTask(_, j')) =>
      hide RoutinesOk, QueuesOk;
      assert NoDup(s.buffers[x].tasks);
    case (BeingFailed(m), BeingFailed(m')) =>
      hide QueuesOk, TasksOk;
      assert RoutineOk(s, m) && RoutineOk(s, m');
  }

  /** A request is never in two places, nor twice in one. */
  lemma RequestInOnePlace(run: seq<State>, i: nat, r: Req, a: Spot, b: Spot)
    requires IsRun(run) && i < |run| && At(run[i], r, a) && At(run[i], r, b)
    ensures a == b
  {
    RunHolds(run, i);
    hide At, Placed;
    SpotIsPlace(run[i], r, a);
    SpotIsPlace(run[i], r, b);
    SameSpot(run[i], r, a, b);
  }

  /** The wait group of a call counts exactly its requests that are somewhere. */
  lemma WaitGroupCounts(run: seq<State>, i: nat, c: CallId)
    requires IsRun(run) && i < |run| && c in run[i].calls
    ensures run[i].calls[c].unfinished == |Open(run[i], c)|
    ensures forall m :: m in run[i].calls[c].rows ==>
      (m in Open(run[i], c) <==> exists spot :: At(run[i], Req(c, m, run[i].calls[c].rows[m]), spot))
  {
    RunHolds(run, i);
    var s := run[i];
    assert CallOk(s, c);
    forall m | m in s.calls[c].rows
      ensures m in Open(s, c) <==> exists spot :: At(s, Req(c, m, s.calls[c].rows[m]), spot)
    {
      var r := Req(c, m, s.calls[c].rows[m]);
      if m in Open(s, c) {
        var spot := FindSpot(s, r);
      } else {
        forall spot | At(s, r, spot) ensures false {
          SpotIsPlace(s, r, spot);
        }
      }
    }
  }

  lemma FindSpot(s: State, r: Req) returns (spot: Spot)
    requires Placed(s) && r in s.place && !s.place[r].Finished?
    ensures At(s, r, spot)
  {
    assert Known(s, r);
    match s.place[r]
    case Unsent =>
      assert CallOk(s, r.call);
      spot := WithCall;
    case Queued =>
      var j :| 0 <= j < |s.inputs[r.metric]| && s.inputs[r.metric][j] == r;
      spot := InQueue(r.metric, j);
    case InBuffer(b) =>
      var j :| 0 <= j < |s.buffers[b].tasks| && s.buffers[b].tasks[j] == r;
      spot := AsTask(b, j);
    case Taken =>
      spot := BeingFailed(r.metric);
  }

  lemma ReturnedFinished(s: State, c: CallId, m: Metric)
    requires CallsOk(s) && c in s.calls && s.calls[c].returned.Some? && m in s.calls[c].rows
    ensures var r := Req(c, m, s.calls[c].rows[m]); r in s.place && s.place[r].Finished?
  {
    assert CallOk(s, c);
    assert Open(s, c) == {};
    assert m !in Open(s, c);
  }

  /** The requests of a call that failed. */
  ghost predicate FailedRequest(s: State, c: CallId, m: Metric) {
    && c in s.calls && m in s.calls[c].rows
    && var r := Req(c, m, s.calls[c].rows[m]);
    r in s.place && s.place[r].Finished? && s.place[r].err.Some?
  }

  /** When `InsertData` returns, every request of the call has been dealt with:
      its rows are all in the database or it failed; and an error is returned
      exactly when some request of the call failed. */
  lemma InsertDataSound(run: seq<State>, i: nat, c: CallId)
    requires IsRun(run) && i < |run| && c in run[i].calls && run[i].calls[c].returned.Some?
    ensures var s := run[i];
      && (forall m, x :: m in s.calls[c].rows && x in s.calls[c].rows[m] ==> FailedRequest(s, c, m) || (m, x) in s.db)
      && (s.calls[c].returned.value.Some? <==> exists m :: FailedRequest(s, c, m))
  {
    RunHolds(run, i);
    ReturnSound(run[i], c);
  }

  lemma ReturnSound(s: State, c: CallId)
    requires Inv(s) && c in s.calls && s.calls[c].returned.Some?
    ensures forall m, x :: m in s.calls[c].rows && x in s.calls[c].rows[m] ==> FailedRequest(s, c, m) || (m, x) in s.db
    ensures s.calls[c].returned.value.Some? <==> exists m :: FailedRequest(s, c, m)
  {
    forall m, x | m in s.calls[c].rows && x in s.calls[c].rows[m] ensures FailedRequest(s, c, m) || (m, x) in s.db {
      ReturnedFinished(s, c, m);
      RowsIn(s, Req(c, m, s.calls[c].rows[m]));
    }
    ReturnedError(s, c);
  }

  lemma RowsIn(s: State, r: Req)
    requires RowsOk(s) && r in s.place && s.place[r].Finished?
    ensures s.place[r].err.None? ==> Persisted(s.db, r)
  {
  }

  lemma ReturnedError(s: State, c: CallId)
    requires Inv(s) && c in s.calls && s.calls[c].returned.Some?
    ensures s.calls[c].returned.value.Some? <==> exists m :: FailedRequest(s, c, m)
  {
    assert s.calls[c].errs.slot.None? by { assert CallOk(s, c); }
    if m :| FailedRequest(s, c, m) {
      assert ErrorSeen(s, c) by { FailureIsSeen(s, Req(c, m, s.calls[c].rows[m])); }
    }
    if s.calls[c].returned.value.Some? {
      assert ErrorSeen(s, c);
      var r := DoomedRequest(s, c);
      ReturnedFinished(s, c, r.metric);
      assert FailedRequest(s, c, r.metric);
    }
  }

  lemma FailureIsSeen(s: State, r: Req)
    requires FailuresSeen(s) && r in s.place && s.place[r].Finished? && s.place[r].err.Some?
    ensures ErrorSeen(s, r.call)
  {
  }

  lemma DoomedRequest(s: State, c: CallId) returns (r: Req)
    requires CallsOk(s) && ErrorsMeant(s) && ErrorSeen(s, c)
    ensures r.call == c && Doomed(s, r) && Known(s, r)
  {
    assert HasDoomed(s, c);
    r :| r.call == c && Doomed(s, r);
  }

  ghost predicate Settled(s: State, s': State, r: Req) {
    r in s.place && s.place[r].Finished? ==> r in s'.place && s'.place[r] == s.place[r]
  }

  lemma StartCallSettles(s: State, c: CallId, rows: map<Metric, seq<Row>>, r: Req)
    requires CallsOk(s) && CanStartCall(s, c)
    ensures Settled(s, StartCall(s, c, rows), r)
  {
    StartPlaces(s, c, rows);
  }

  lemma SendSettles(s: State, c: CallId, r: Req)
    requires CallsOk(s) && CanSend(s, c)
    ensures Settled(s, Send(s, c), r)
  {
    CallsSend(s, c);
    hide CallsOk;
  }

  lemma QueueSettles(s: State, m: Metric, r: Req)
    requires Placed(s)
    ensures CanFailTake(s, m) ==> Settled(s, FailTake(s, m), r)
    ensures CanReceive(s, m) ==> Settled(s, Receive(s, m), r)
  {
    hide CallsOk, QueuesOk, RoutinesOk, TasksOk, OwnersOk;
    if CanFailTake(s, m) || CanReceive(s, m) {
      HeadOfQueue(s, m);
    }
  }

  lemma FailDoneSettles(s: State, m: Metric, r: Req)
    requires Placed(s) && CanFailDone(s, m)
    ensures Settled(s, FailDone(s, m), r)
  {
    hide CallsOk, QueuesOk, RoutinesOk, TasksOk, OwnersOk;
    TakenFacts(s, m);
  }

  lemma OtherCallerSteps(s: State, c: CallId, m: Metric, r: Req)
    ensures CanLookUp(s, c, m) ==> Settled(s, LookUp(s, c, m), r)
    ensures CanReturn(s, c) ==> Settled(s, Return(s, c), r)
  {
  }

  lemma OtherRoutineSteps(s: State, m: Metric, b: BufId, err: Error, r: Req)
    ensures CanTakeBuffer(s, m, b) ==> Settled(s, TakeBuffer(s, m, b), r)
    ensures CanStartFail(s, m) ==> Settled(s, StartFail(s, m, err), r)
    ensures CanHandOver(s, m) ==> Settled(s, HandOver(s, m), r)
    ensures CanFlush(s, m) ==> Settled(s, Reject(s, m, err), r)
    ensures CanRejectEnd(s, m) ==> Settled(s, RejectEnd(s, m), r)
  {
  }

  lemma SettledByCaller(s: State, s': State, r: Req)
    requires Inv(s) && CallerStep(s, s')
    ensures Settled(s, s', r)
  {
    hide CallsOk, QueuesOk, RoutinesOk, TasksOk, OwnersOk, Accounted, Settled,
         CanStartCall, StartCall, CanLookUp, LookUp, CanSend, Send, CanReturn, Return;
    if c, rows :| CanStartCall(s, c) && s' == StartCall(s, c, rows) {
      StartCallSettles(s, c, rows, r);
    } else if c :| CanSend(s, c) && s' == Send(s, c) {
      SendSettles(s, c, r);
    } else if c, m :| CanLookUp(s, c, m) && s' == LookUp(s, c, m) {
      OtherCallerSteps(s, c, m, r);
    } else {
      var c :| CanReturn(s, c) && s' == Return(s, c);
      OtherCallerSteps(s, c, "", r);
    }
  }

  lemma SettledByRoutine(s: State, s': State, r: Req)
    requires Inv(s) && RoutineStep(s, s')
    ensures Settled(s, s', r)
  {
    hide Placed, Accounted, Settled, CanTakeBuffer, TakeBuffer, CanStartFail, StartFail, CanFailTake, FailTake, CanFailDone, FailDone,
         CanReceive, Receive, CanHandOver, HandOver, CanFlush, Reject, CanRejectEnd, RejectEnd;
    if m :| CanFailTake(s, m) && s' == FailTake(s, m) {
      QueueSettles(s, m, r);
    } else if m :| CanFailDone(s, m) && s' == FailDone(s, m) {
      FailDoneSettles(s, m, r);
    } else if m :| CanReceive(s, m) && s' == Receive(s, m) {
      QueueSettles(s, m, r);
    } else {
      forall m, b ensures CanTakeBuffer(s, m, b) ==> Settled(s, TakeBuffer(s, m, b), r) { OtherRoutineSteps(s, m, b, "", r); }
      forall m, err: Error ensures CanStartFail(s, m) ==> Settled(s, StartFail(s, m, err), r) { OtherRoutineSteps(s, m, 0, err, r); }
      forall m ensures CanHandOver(s, m) ==> Settled(s, HandOver(s, m), r) { OtherRoutineSteps(s, m, 0, "", r); }
      forall m, err ensures CanFlush(s, m) ==> Settled(s, Reject(s, m, err), r) { OtherRoutineSteps(s, m, 0, err, r); }
      forall m ensures CanRejectEnd(s, m) ==> Settled(s, RejectEnd(s, m), r) { OtherRoutineSteps(s, m, 0, "", r); }
    }
  }

  lemma FinishSettles(s: State, b: BufId, r: Req)
    requires Placed(s) && CanFinishFirst(s, b)
    ensures Settled(s, FinishFirst(s, b), r)
  {
    hide Placed;
    FirstFacts(s, b);
  }

  lemma OfferSettles(s: State, b: BufId, r: Req)
    ensures CanOfferFirst(s, b) ==> Settled(s, OfferFirst(s, b), r)
  {
  }

  lemma OtherCopierSteps(s: State, k: nat, outcome: Option<Error>, r: Req)
    ensures CanInsert(s, k) ==> Settled(s, Insert(s, k, outcome), r)
    ensures CanCopierTake(s, k) ==> Settled(s, CopierTake(s, k), r)
    ensures CanReportEnd(s, k) ==> Settled(s, ReportEnd(s, k), r)
  {
  }

  lemma SettledByCopier(s: State, s': State, r: Req)
    requires Inv(s) && CopierStep(s, s')
    ensures Settled(s, s', r)
  {
    hide Placed, Accounted, Settled, CanOfferFirst, OfferFirst, CanFinishFirst, FinishFirst, CanCopierTake, CopierTake,
         CanInsert, Insert, CanReportEnd, ReportEnd;
    if b :| CanFinishFirst(s, b) && s' == FinishFirst(s, b) {
      FinishSettles(s, b, r);
    } else {
      forall b ensures CanOfferFirst(s, b) ==> Settled(s, OfferFirst(s, b), r) { OfferSettles(s, b, r); }
      forall k, outcome ensures CanInsert(s, k) ==> Settled(s, Insert(s, k, outcome), r) { OtherCopierSteps(s, k, outcome, r); }
      forall k ensures CanCopierTake(s, k) ==> Settled(s, CopierTake(s, k), r) { OtherCopierSteps(s, k, None, r); }
      forall k ensures CanReportEnd(s, k) ==> Settled(s, ReportEnd(s, k), r) { OtherCopierSteps(s, k, None, r); }
    }
  }

  /** A request is marked done at most once: its outcome never changes again. */
  lemma {:induction false} DoneOnce(run: seq<State>, i: nat, j: nat, r: Req)
    requires IsRun(run) && i <= j < |run|
    requires r in run[i].place && run[i].place[r].Finished?
    ensures r in run[j].place && run[j].place[r] == run[i].place[r]
    decreases j
  {
    hide Inv, Init, CallerStep, RoutineStep, CopierStep;
    if i < j {
      DoneOnce(run, i, j - 1, r);
      RunHolds(run, j - 1);
      if CallerStep(run[j - 1], run[j]) {
        SettledByCaller(run[j - 1], run[j], r);
      } else if RoutineStep(run[j - 1], run[j]) {
        SettledByRoutine(run[j - 1], run[j], r);
      } else {
        SettledByCopier(run[j - 1], run[j], r);
      }
    }
  }
}
