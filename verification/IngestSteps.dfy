/** Every step keeps the invariant of the ingest pipeline, and what that means for its runs. */
module IngestSteps {
  import opened Common
  import opened Ingest

  import opened IngestSafety

  /** While one of its requests is unfinished, a call's error channel is open. */
  lemma OpenCall(s: State, r: Req)
    requires CallsOk(s) && r in s.place && !s.place[r].Finished?
    ensures Known(s, r) && !s.calls[r.call].errs.closed && s.calls[r.call].returned.None?
  {
    assert Known(s, r);
    assert CallOk(s, r.call);
    assert MineOpen(s, r.call, r.metric);
    assert r.metric in Open(s, r.call);
  }

  lemma OfferShape(s: State, c: CallId, err: Error)
    requires c in s.calls && !s.calls[c].errs.closed
    ensures SameCalls(s, Offer(s, c, err))
  {
  }

  lemma OfferSeen(s: State, c: CallId, err: Error)
    requires c in s.calls && !s.calls[c].errs.closed
    ensures forall c' :: ErrorSeen(Offer(s, c, err), c') <==> ErrorSeen(s, c') || c' == c
  {
  }

  lemma HandlerFacts(s: State, m: Metric)
    requires OwnersOk(s) && m in s.routines && Holding(s.routines[m])
    ensures var b := s.routines[m].buf;
      && b in s.owner && s.owner[b] == Handler(m) && b in s.buffers && b !in s.pool
      && (b in s.reports <==> s.routines[m].Rejecting?)
  {
    assert OwnerOk(s, s.routines[m].buf);
  }

  lemma CopierFacts(s: State, k: nat)
    requires OwnersOk(s) && k in s.copiers && !s.copiers[k].Idle?
    ensures var b := s.copiers[k].buf;
      && b in s.owner && s.owner[b] == HeldBy(k, s.copiers[k].table) && b in s.buffers && b !in s.pool
      && (b in s.reports <==> s.copiers[k].Reporting?)
  {
    assert OwnerOk(s, s.copiers[k].buf);
  }

  lemma ReportFacts(s: State, b: BufId)
    requires OwnersOk(s) && b in s.reports
    ensures b in s.buffers && b in s.owner && !s.owner[b].Pooled? && b !in s.pool
  {
    assert OwnerOk(s, b);
  }

  lemma FirstTask(s: State, b: BufId)
    requires CallsOk(s) && TasksOk(s) && b in s.buffers && s.buffers[b].tasks != []
    ensures var r := s.buffers[b].tasks[0]; r in s.place && s.place[r] == InBuffer(b) && Known(s, r)
  {
    assert s.buffers[b].tasks[0] in s.buffers[b].tasks;
  }

  lemma HeadOfQueue(s: State, m: Metric)
    requires CallsOk(s) && QueuesOk(s) && m in s.inputs && s.inputs[m] != []
    ensures var r := s.inputs[m][0]; r in s.place && s.place[r] == Queued && r.metric == m && Known(s, r)
  {
    assert s.inputs[m][0] in s.inputs[m];
  }

  // ----- callers -----

  lemma StartCallQuiet(s: State, s': State, c: CallId, rows: map<Metric, seq<Row>>)
    requires PlacesAdded(s, s', c, rows) && c !in s.calls
    requires s' == s.(calls := s.calls[c := Call(rows, rows.Keys, None, |rows|, ErrChan(None, false), None)], place := s'.place)
    ensures Quiet(s, s')
  {
  }

  lemma StartCallKeeps(s: State, c: CallId, rows: map<Metric, seq<Row>>)
    requires Inv(s) && CanStartCall(s, c)
    ensures Inv(StartCall(s, c, rows))
  {
    var s' := StartCall(s, c, rows);
    StartPlaces(s, c, rows);
    StartCallQuiet(s, s', c, rows);
    hide CallsOk, QueuesOk, RoutinesOk, TasksOk, OwnersOk, Accounted, Quiet;
    assert CallsOk(s') by { CallsStart(s, s', c, rows); }
    hide StartCall;
    assert QueuesOk(s') by { QueuesFrame(s, s'); }
    hide PlacesAdded;
    QuietPlaced(s, s');
    QuietAccounted(s, s');
  }

  lemma SendKeeps(s: State, c: CallId)
    requires Inv(s) && CanSend(s, c)
    ensures Inv(Send(s, c))
  {
    hide CallsOk, QueuesOk, RoutinesOk, TasksOk, OwnersOk, Accounted;
    var s' := Send(s, c);
    var m := s.calls[c].ready.value;
    CallsSend(s, c);
    assert QueuesOk(s') by { QueuesPush(s, s', m, Req(c, m, s.calls[c].rows[m])); }
    assert Quiet(s, s');
    QuietPlaced(s, s');
    QuietAccounted(s, s');
  }

  lemma ReturnKeeps(s: State, c: CallId)
    requires Inv(s) && CanReturn(s, c)
    ensures Inv(Return(s, c))
  {
    hide CallsOk, QueuesOk, RoutinesOk, TasksOk, OwnersOk, Accounted;
    var s' := Return(s, c);
    assert CallsOk(s') by { CallsReturn(s, c); }
    assert QueuesOk(s') by { QueuesFrame(s, s'); }
    assert Quiet(s, s');
    QuietPlaced(s, s');
    QuietAccounted(s, s');
  }

  /** Looking up a metric whose routine exists. */
  lemma LookUpKnown(s: State, c: CallId, m: Metric)
    requires Inv(s) && CanLookUp(s, c, m) && m in s.inputs
    ensures Inv(LookUp(s, c, m))
  {
    hide CallsOk, QueuesOk, RoutinesOk, TasksOk, OwnersOk, Accounted;
    var s' := LookUp(s, c, m);
    assert CallsOk(s') by { CallsLookUp(s, s', c, m); }
    assert QueuesOk(s') by { QueuesFrame(s, s'); }
    assert Quiet(s, s');
    QuietPlaced(s, s');
    QuietAccounted(s, s');
  }

  lemma QueuesNew(s: State, s': State, m: Metric, r: Routine)
    requires QueuesOk(s) && m !in s.inputs && s'.inputs == s.inputs[m := []] && s'.routines == s.routines[m := r] && s'.place == s.place
    ensures QueuesOk(s')
  {
  }

  lemma StartingKnown(s: State, s': State, c: CallId, m: Metric)
    requires CallsOk(s) && c in s.calls && m in s.calls[c].unsent
    requires m in s'.routines && s'.routines[m] == Starting(c)
    requires s'.place == s.place && c in s'.calls && s'.calls[c].rows == s.calls[c].rows
    ensures RoutineOk(s', m)
  {
    assert CallOk(s, c);
  }

  ghost predicate IsLookUp(s: State, s': State, c: CallId, m: Metric)
    requires c in s.calls
  {
    s' == s.(calls := s.calls[c := s.calls[c].(ready := Some(m))], inputs := s.inputs[m := []], routines := s.routines[m := Starting(c)])
  }

  lemma LookUpNewPlaced(s: State, s': State, c: CallId, m: Metric)
    requires Placed(s) && CanLookUp(s, c, m) && m !in s.inputs && m !in s.routines && IsLookUp(s, s', c, m)
    ensures Placed(s')
  {
    hide CallsOk, QueuesOk, RoutinesOk, TasksOk, OwnersOk;
    StartingKnown(s, s', c, m);
    hide RoutineOk;
    assert CallsOk(s') by { CallsLookUp(s, s', c, m); }
    assert QueuesOk(s') by { QueuesNew(s, s', m, Starting(c)); }
    assert RoutinesOk(s') by { RoutinesChange(s, s', m); }
    BuffersFrame(s, s');
  }

  lemma LookUpNewAccounted(s: State, s': State, c: CallId, m: Metric)
    requires Accounted(s) && CanLookUp(s, c, m) && m !in s.routines && IsLookUp(s, s', c, m)
    ensures Accounted(s')
  {
    hide RowsOk, FailuresSeen, ErrorsMeant;
    assert RowsOk(s') by { RowsFrame(s, s'); }
    assert FailuresSeen(s') by { FailuresFrame(s, s'); }
    assert ErrorsMeant(s') by { ErrorsFrame(s, s'); }
  }

  /** Looking up a new metric starts its routine. */
  lemma LookUpNew(s: State, c: CallId, m: Metric)
    requires Inv(s) && CanLookUp(s, c, m) && m !in s.inputs
    ensures Inv(LookUp(s, c, m))
  {
    assert m !in s.routines;
    hide Placed, Accounted;
    LookUpNewPlaced(s, LookUp(s, c, m), c, m);
    LookUpNewAccounted(s, LookUp(s, c, m), c, m);
  }

  lemma LookUpKeeps(s: State, c: CallId, m: Metric)
    requires Inv(s) && CanLookUp(s, c, m)
    ensures Inv(LookUp(s, c, m))
  {
    if m in s.inputs {
      LookUpKnown(s, c, m);
    } else {
      LookUpNew(s, c, m);
    }
  }

  // ----- routines -----

  lemma FreeBuffer(s: State, b: BufId)
    requires OwnersOk(s) && TasksOk(s) && (b in s.pool || b !in s.buffers)
    ensures b !in s.reports && (b in s.buffers ==> s.buffers[b] == Buffer([], []))
  {
    assert b in s.owner ==> OwnerOk(s, b);
  }

  lemma TakeBufferPlaced(s: State, m: Metric, b: BufId)
    requires Placed(s) && CanTakeBuffer(s, m, b)
    ensures Placed(TakeBuffer(s, m, b))
  {
    hide CallsOk, QueuesOk, RoutinesOk, TasksOk, OwnersOk;
    var s' := TakeBuffer(s, m, b);
    FreeBuffer(s, b);
    assert RoutineOk(s', m);
    assert CallsOk(s') by { CallsFrame(s, s'); }
    assert QueuesOk(s') by { QueuesFrame(s, s'); }
    assert RoutinesOk(s') by { RoutinesChange(s, s', m); }
    assert TasksOk(s') by { TasksEmptied(s, s', b); }
    OwnersTakeBuffer(s, m, b);
  }

  lemma TakeBufferAccounted(s: State, m: Metric, b: BufId)
    requires Inv(s) && CanTakeBuffer(s, m, b)
    ensures Accounted(TakeBuffer(s, m, b))
  {
    hide CallsOk, QueuesOk, RoutinesOk, TasksOk, OwnersOk, RowsOk, FailuresSeen, ErrorsMeant;
    var s' := TakeBuffer(s, m, b);
    FreeBuffer(s, b);
    assert RowsOk(s') by { RowsChange(s, s', b); }
    assert FailuresSeen(s') by { FailuresFrame(s, s'); }
    assert ErrorsMeant(s') by { ErrorsFrame(s, s'); }
  }

  lemma StartingCall(s: State, m: Metric) returns (r: Req)
    requires Placed(s) && CanStartFail(s, m)
    ensures r.call == s.routines[m].call && r.metric == m && r in s.place && Waiting(s.place[r])
    ensures !s.calls[r.call].errs.closed
  {
    assert RoutineOk(s, m);
    var c := s.routines[m].call;
    r := Req(c, m, s.calls[c].rows[m]);
    OpenCall(s, r);
  }

  lemma StartFailPlaced(s: State, m: Metric, err: Error)
    requires Placed(s) && CanStartFail(s, m)
    ensures Placed(StartFail(s, m, err))
  {
    hide CallsOk, QueuesOk, RoutinesOk, TasksOk, OwnersOk;
    var s' := StartFail(s, m, err);
    var r := StartingCall(s, m);
    OfferShape(s, r.call, err);
    assert CallsOk(s') by { CallsFrame(s, s'); }
    assert QueuesOk(s') by { QueuesFrame(s, s'); }
    assert RoutinesOk(s') by { RoutinesChange(s, s', m); }
    BuffersFrame(s, s');
  }

  lemma SeenFrame(s: State, s': State)
    requires s'.calls == s.calls
    ensures forall c :: ErrorSeen(s', c) <==> ErrorSeen(s, c)
  {
  }

  lemma StartFailAccounted(s: State, m: Metric, err: Error)
    requires Inv(s) && CanStartFail(s, m)
    ensures Accounted(StartFail(s, m, err))
  {
    hide CallsOk, QueuesOk, RoutinesOk, TasksOk, OwnersOk, RowsOk, FailuresSeen, ErrorsMeant, ErrorSeen;
    var s' := StartFail(s, m, err);
    var r := StartingCall(s, m);
    OfferSeen(s, r.call, err);
    SeenFrame(Offer(s, r.call, err), s');
    assert RowsOk(s') by { RowsFrame(s, s'); }
    assert FailuresSeen(s') by { FailuresFrame(s, s'); }
    assert HasDoomed(s', r.call) by { assert Doomed(s', r); }
    assert ErrorsMeant(s') by { ErrorsFrame(s, s'); }
  }

  lemma FailTakePlaced(s: State, m: Metric)
    requires Placed(s) && CanFailTake(s, m)
    ensures Placed(FailTake(s, m))
  {
    hide CallsOk, QueuesOk, RoutinesOk, TasksOk, OwnersOk;
    var s', r := FailTake(s, m), s.inputs[m][0];
    HeadOfQueue(s, m);
    OpenCall(s, r);
    OfferShape(s, r.call, s.routines[m].err);
    assert CallsOk(s') by { CallsFrame(s, s'); }
    assert QueuesOk(s') by { QueuesPop(s, s', m, Taken); }
    assert RoutinesOk(s') by { RoutinesTake(s, s', m, r); }
    BuffersFrame(s, s');
  }

  lemma FailTakeAccounted(s: State, m: Metric)
    requires Inv(s) && CanFailTake(s, m)
    ensures Accounted(FailTake(s, m))
  {
    hide CallsOk, QueuesOk, RoutinesOk, TasksOk, OwnersOk, RowsOk, FailuresSeen, ErrorsMeant, ErrorSeen;
    var s', r := FailTake(s, m), s.inputs[m][0];
    HeadOfQueue(s, m);
    OpenCall(s, r);
    OfferSeen(s, r.call, s.routines[m].err);
    SeenFrame(Offer(s, r.call, s.routines[m].err), s');
    assert RowsOk(s') by { RowsFrame(s, s'); }
    assert FailuresSeen(s') by { FailuresFrame(s, s'); }
    assert HasDoomed(s', r.call) by { assert Doomed(s', r); }
    assert ErrorsMeant(s') by { ErrorsFrame(s, s'); }
  }

  lemma TakenFacts(s: State, m: Metric)
    requires Placed(s) && CanFailDone(s, m)
    ensures var r := s.routines[m].taken.value; r in s.place && s.place[r] == Taken && r.metric == m && Known(s, r)
  {
    assert RoutineOk(s, m);
  }

  lemma TakenSeen(s: State, m: Metric)
    requires FailuresSeen(s) && CanFailDone(s, m)
    ensures ErrorSeen(s, s.routines[m].taken.value.call)
  {
  }

  lemma FailDonePlaced(s: State, m: Metric)
    requires Placed(s) && CanFailDone(s, m)
    ensures Placed(FailDone(s, m))
  {
    hide CallsOk, QueuesOk, RoutinesOk, TasksOk, OwnersOk;
    var s', r := FailDone(s, m), s.routines[m].taken.value;
    TakenFacts(s, m);
    CallsFinish(s, s', r, Some(s.routines[m].err));
    assert QueuesOk(s') by { QueuesFrame(s, s'); }
    assert RoutinesOk(s') by { RoutinesFailDone(s, m); }
    BuffersFrame(s, s');
  }

  lemma FinishSeen(s: State, r: Req, err: Option<Error>)
    requires r.call in s.calls
    ensures forall c :: ErrorSeen(Finish(s, r, err), c) <==> ErrorSeen(s, c)
  {
  }

  lemma FailDoneAccounted(s: State, m: Metric)
    requires Inv(s) && CanFailDone(s, m)
    ensures Accounted(FailDone(s, m))
  {
    hide CallsOk, QueuesOk, RoutinesOk, TasksOk, OwnersOk, RowsOk, FailuresSeen, ErrorsMeant, ErrorSeen;
    var s', r := FailDone(s, m), s.routines[m].taken.value;
    var err := Some(s.routines[m].err);
    TakenFacts(s, m);
    FinishSeen(s, r, err);
    SeenFrame(Finish(s, r, err), s');
    TakenSeen(s, m);
    assert RowsOk(s') by { RowsFrame(s, s'); }
    assert FailuresSeen(s') by { FailuresFrame(s, s'); }
    assert ErrorsMeant(s') by { ErrorsFrame(s, s'); }
  }

  lemma ReceivePlaced(s: State, m: Metric)
    requires Placed(s) && CanReceive(s, m)
    ensures Placed(Receive(s, m))
  {
    hide CallsOk, QueuesOk, RoutinesOk, TasksOk, OwnersOk;
    var s', r, b := Receive(s, m), s.inputs[m][0], s.routines[m].buf;
    HeadOfQueue(s, m);
    HandlerFacts(s, m);
    assert CallsOk(s') by { CallsFrame(s, s'); }
    assert QueuesOk(s') by { QueuesPop(s, s', m, InBuffer(b)); }
    assert RoutinesOk(s') by { RoutinesTake(s, s', m, r); }
    assert TasksOk(s') by { TasksPush(s, s', b, r, s.buffers[b].rows + r.rows); }
    assert OwnersOk(s') by { OwnersFrame(s, s'); }
  }

  lemma ReceiveAccounted(s: State, m: Metric)
    requires Inv(s) && CanReceive(s, m)
    ensures Accounted(Receive(s, m))
  {
    hide CallsOk, QueuesOk, RoutinesOk, TasksOk, OwnersOk, RowsOk, FailuresSeen, ErrorsMeant;
    var s', r, b := Receive(s, m), s.inputs[m][0], s.routines[m].buf;
    HeadOfQueue(s, m);
    HandlerFacts(s, m);
    assert BatchOk(s, b) by { BatchOf(s, b); }
    BatchGrows(s, s', b, r);
    hide BatchOk;
    assert RowsOk(s') by { RowsChange(s, s', b); }
    assert FailuresSeen(s') by { FailuresFrame(s, s'); }
    assert ErrorsMeant(s') by { ErrorsFrame(s, s'); }
  }

  lemma BatchOf(s: State, b: BufId)
    requires RowsOk(s) && b in s.owner && b in s.buffers
    ensures BatchOk(s, b)
  {
  }

  lemma HandOverPlaced(s: State, m: Metric)
    requires Placed(s) && CanHandOver(s, m)
    ensures Placed(HandOver(s, m))
  {
    hide CallsOk, QueuesOk, RoutinesOk, TasksOk, OwnersOk;
    var s' := HandOver(s, m);
    assert CallsOk(s') by { CallsFrame(s, s'); }
    assert QueuesOk(s') by { QueuesFrame(s, s'); }
    assert RoutinesOk(s') by { RoutinesChange(s, s', m); }
    assert TasksOk(s') by { TasksFrame(s, s'); }
    OwnersHandOver(s, m);
  }

  lemma HandOverAccounted(s: State, m: Metric)
    requires Inv(s) && CanHandOver(s, m)
    ensures Accounted(HandOver(s, m))
  {
    hide CallsOk, QueuesOk, RoutinesOk, TasksOk, OwnersOk, RowsOk, FailuresSeen, ErrorsMeant;
    var s' := HandOver(s, m);
    HandlerFacts(s, m);
    assert RowsOk(s') by { RowsFrame(s, s'); }
    assert FailuresSeen(s') by { FailuresFrame(s, s'); }
    assert ErrorsMeant(s') by { ErrorsFrame(s, s'); }
  }

  lemma RejectPlaced(s: State, m: Metric, err: Error)
    requires Placed(s) && CanFlush(s, m)
    ensures Placed(Reject(s, m, err))
  {
    hide CallsOk, QueuesOk, RoutinesOk, TasksOk, OwnersOk;
    var s' := Reject(s, m, err);
    assert CallsOk(s') by { CallsFrame(s, s'); }
    assert QueuesOk(s') by { QueuesFrame(s, s'); }
    assert RoutinesOk(s') by { RoutinesChange(s, s', m); }
    assert TasksOk(s') by { TasksFrame(s, s'); }
    OwnersReject(s, m, err);
  }

  lemma RejectAccounted(s: State, m: Metric, err: Error)
    requires Inv(s) && CanFlush(s, m)
    ensures Accounted(Reject(s, m, err))
  {
    hide CallsOk, QueuesOk, RoutinesOk, TasksOk, OwnersOk, RowsOk, FailuresSeen, ErrorsMeant;
    var s', b := Reject(s, m, err), s.routines[m].buf;
    HandlerFacts(s, m);
    assert BatchOk(s', b) by { BatchOf(s, b); }
    hide BatchOk;
    assert RowsOk(s') by { RowsChange(s, s', b); }
    assert FailuresSeen(s') by { FailuresFrame(s, s'); }
    assert ErrorsMeant(s') by { ErrorsFrame(s, s'); }
  }

  lemma RejectEndPlaced(s: State, m: Metric)
    requires Placed(s) && CanRejectEnd(s, m)
    ensures Placed(RejectEnd(s, m))
  {
    hide CallsOk, QueuesOk, RoutinesOk, TasksOk, OwnersOk;
    var s', b := RejectEnd(s, m), s.routines[m].buf;
    assert CallsOk(s') by { CallsFrame(s, s'); }
    assert QueuesOk(s') by { QueuesFrame(s, s'); }
    assert RoutinesOk(s') by { RoutinesChange(s, s', m); }
    assert TasksOk(s') by { TasksEmptied(s, s', b); }
    OwnersRejectEnd(s, m);
  }

  lemma NoneInside(s: State, b: BufId)
    requires TasksOk(s) && b in s.buffers && s.buffers[b].tasks == []
    ensures forall r :: r in s.place ==> s.place[r] != InBuffer(b)
  {
  }

  lemma RejectEndAccounted(s: State, m: Metric)
    requires Inv(s) && CanRejectEnd(s, m)
    ensures Accounted(RejectEnd(s, m))
  {
    hide CallsOk, QueuesOk, RoutinesOk, TasksOk, OwnersOk, RowsOk, FailuresSeen, ErrorsMeant;
    var s', b := RejectEnd(s, m), s.routines[m].buf;
    NoneInside(s, b);
    assert RowsOk(s') by { RowsChange(s, s', b); }
    assert FailuresSeen(s') by { FailuresFrame(s, s'); }
    assert ErrorsMeant(s') by { ErrorsFrame(s, s'); }
  }

  // ----- reporting results -----

  lemma FirstFacts(s: State, b: BufId)
    requires Placed(s) && b in s.reports && HasTask(s, b)
    ensures var r := s.buffers[b].tasks[0];
      && r in s.place && s.place[r] == InBuffer(b) && Known(s, r)
      && !s.calls[r.call].errs.closed && b in s.owner && !s.owner[b].Pooled? && b !in s.pool
  {
    ReportFacts(s, b);
    FirstTask(s, b);
    OpenCall(s, s.buffers[b].tasks[0]);
  }

  lemma OfferFirstPlaced(s: State, b: BufId)
    requires Placed(s) && CanOfferFirst(s, b)
    ensures Placed(OfferFirst(s, b))
  {
    hide CallsOk, QueuesOk, RoutinesOk, TasksOk, OwnersOk;
    var s', r := OfferFirst(s, b), s.buffers[b].tasks[0];
    FirstFacts(s, b);
    OfferShape(s, r.call, s.reports[b].err.value);
    assert CallsOk(s') by { CallsFrame(s, s'); }
    assert QueuesOk(s') by { QueuesFrame(s, s'); }
    assert RoutinesOk(s') by { RoutinesFrame(s, s'); }
    BuffersFrame(s, s');
  }

  lemma OfferFirstAccounted(s: State, b: BufId)
    requires Inv(s) && CanOfferFirst(s, b)
    ensures Accounted(OfferFirst(s, b))
  {
    hide CallsOk, QueuesOk, RoutinesOk, TasksOk, OwnersOk, RowsOk, FailuresSeen, ErrorsMeant, ErrorSeen;
    var s', r := OfferFirst(s, b), s.buffers[b].tasks[0];
    FirstFacts(s, b);
    OfferSeen(s, r.call, s.reports[b].err.value);
    SeenFrame(Offer(s, r.call, s.reports[b].err.value), s');
    assert RowsOk(s') by { RowsFrame(s, s'); }
    assert FailuresSeen(s') by { FailuresFrame(s, s'); }
    assert HasDoomed(s', r.call) by { assert Doomed(s', r); }
    assert ErrorsMeant(s') by { ErrorsFrame(s, s'); }
  }

  lemma FinishFirstPlaced(s: State, b: BufId)
    requires Placed(s) && CanFinishFirst(s, b)
    ensures Placed(FinishFirst(s, b))
  {
    hide CallsOk, QueuesOk, RoutinesOk, TasksOk, OwnersOk;
    var s', r := FinishFirst(s, b), s.buffers[b].tasks[0];
    FirstFacts(s, b);
    CallsFinish(s, s', r, s.reports[b].err);
    assert QueuesOk(s') by { QueuesFrame(s, s'); }
    assert RoutinesOk(s') by { RoutinesFrame(s, s'); }
    assert TasksOk(s') by { TasksFinish(s, s', b, s.reports[b].err); }
    assert OwnersOk(s') by { OwnersFrame(s, s'); }
  }

  lemma BatchShrinks(s: State, s': State, b: BufId)
    requires RowsOk(s) && b in s.reports && b in s.owner && !s.owner[b].Pooled? && b in s.buffers && s.buffers[b].tasks != []
    requires s'.owner == s.owner && s'.db == s.db && b in s'.reports && s'.reports[b].err == s.reports[b].err
    requires b in s'.buffers && s'.buffers[b] == s.buffers[b].(tasks := s.buffers[b].tasks[1..])
    ensures BatchOk(s', b)
    ensures s.reports[b].err.None? ==> Persisted(s.db, s.buffers[b].tasks[0])
  {
    assert BatchOk(s, b);
    assert s.buffers[b].tasks[0] in s.buffers[b].tasks;
  }

  lemma FirstSeen(s: State, b: BufId)
    requires FailuresSeen(s) && CanFinishFirst(s, b)
    ensures s.reports[b].err.Some? ==> ErrorSeen(s, s.buffers[b].tasks[0].call)
  {
  }

  lemma FinishFirstAccounted(s: State, b: BufId)
    requires Inv(s) && CanFinishFirst(s, b)
    ensures Accounted(FinishFirst(s, b))
  {
    hide CallsOk, QueuesOk, RoutinesOk, TasksOk, OwnersOk, RowsOk, FailuresSeen, ErrorsMeant, ErrorSeen, BatchOk;
    var s', r := FinishFirst(s, b), s.buffers[b].tasks[0];
    FirstFacts(s, b);
    FirstSeen(s, b);
    BatchShrinks(s, s', b);
    FinishSeen(s, r, s.reports[b].err);
    SeenFrame(Finish(s, r, s.reports[b].err), s');
    assert RowsOk(s') by { RowsChange(s, s', b); }
    assert FailuresSeen(s') by { FailuresFrame(s, s'); }
    assert ErrorsMeant(s') by { ErrorsFrame(s, s'); }
  }

  // ----- copiers -----

  lemma CopierTakePlaced(s: State, k: nat)
    requires Placed(s) && CanCopierTake(s, k)
    ensures Placed(CopierTake(s, k))
  {
    hide CallsOk, QueuesOk, RoutinesOk, TasksOk, OwnersOk;
    var s' := CopierTake(s, k);
    assert CallsOk(s') by { CallsFrame(s, s'); }
    assert QueuesOk(s') by { QueuesFrame(s, s'); }
    assert RoutinesOk(s') by { RoutinesFrame(s, s'); }
    assert TasksOk(s') by { TasksFrame(s, s'); }
    OwnersCopierTake(s, k);
  }

  lemma FirstBatch(s: State)
    requires OwnersOk(s) && s.toCopiers != []
    ensures var x := s.toCopiers[0]; x.buf in s.owner && s.owner[x.buf] == InChannel(x.table)
  {
    assert s.toCopiers[0] in s.toCopiers;
  }

  lemma CopierTakeAccounted(s: State, k: nat)
    requires Inv(s) && CanCopierTake(s, k)
    ensures Accounted(CopierTake(s, k))
  {
    hide CallsOk, QueuesOk, RoutinesOk, TasksOk, OwnersOk, RowsOk, FailuresSeen, ErrorsMeant, ErrorSeen;
    var s' := CopierTake(s, k);
    FirstBatch(s);
    SeenFrame(s, s');
    assert RowsOk(s') by { RowsFrame(s, s'); }
    assert FailuresSeen(s') by { FailuresFrame(s, s'); }
    assert ErrorsMeant(s') by { ErrorsFrame(s, s'); }
  }

  lemma InsertPlaced(s: State, k: nat, outcome: Option<Error>)
    requires Placed(s) && CanInsert(s, k)
    ensures Placed(Insert(s, k, outcome))
  {
    hide CallsOk, QueuesOk, RoutinesOk, TasksOk, OwnersOk;
    var s' := Insert(s, k, outcome);
    assert CallsOk(s') by { CallsFrame(s, s'); }
    assert QueuesOk(s') by { QueuesFrame(s, s'); }
    assert RoutinesOk(s') by { RoutinesFrame(s, s'); }
    assert TasksOk(s') by { TasksFrame(s, s'); }
    OwnersInsert(s, k, outcome);
  }

  lemma InsertAccounted(s: State, k: nat, outcome: Option<Error>)
    requires Inv(s) && CanInsert(s, k)
    ensures Accounted(Insert(s, k, outcome))
  {
    hide CallsOk, QueuesOk, RoutinesOk, TasksOk, OwnersOk, RowsOk, FailuresSeen, ErrorsMeant, ErrorSeen, BatchOk;
    var s', b := Insert(s, k, outcome), s.copiers[k].buf;
    CopierFacts(s, k);
    SeenFrame(s, s');
    BatchOf(s, b);
    BatchInserted(s, s', b);
    assert RowsOk(s') by { RowsChange(s, s', b); }
    assert FailuresSeen(s') by { FailuresFrame(s, s'); }
    assert ErrorsMeant(s') by { ErrorsFrame(s, s'); }
  }

  lemma ReportEndPlaced(s: State, k: nat)
    requires Placed(s) && CanReportEnd(s, k)
    ensures Placed(ReportEnd(s, k))
  {
    hide CallsOk, QueuesOk, RoutinesOk, TasksOk, OwnersOk;
    var s', b := ReportEnd(s, k), s.copiers[k].buf;
    assert CallsOk(s') by { CallsFrame(s, s'); }
    assert QueuesOk(s') by { QueuesFrame(s, s'); }
    assert RoutinesOk(s') by { RoutinesFrame(s, s'); }
    assert TasksOk(s') by { TasksEmptied(s, s', b); }
    OwnersReportEnd(s, k);
  }

  lemma ReportEndAccounted(s: State, k: nat)
    requires Inv(s) && CanReportEnd(s, k)
    ensures Accounted(ReportEnd(s, k))
  {
    hide CallsOk, QueuesOk, RoutinesOk, TasksOk, OwnersOk, RowsOk, FailuresSeen, ErrorsMeant, ErrorSeen;
    var s', b := ReportEnd(s, k), s.copiers[k].buf;
    NoneInside(s, b);
    SeenFrame(s, s');
    assert RowsOk(s') by { RowsChange(s, s', b); }
    assert FailuresSeen(s') by { FailuresFrame(s, s'); }
    assert ErrorsMeant(s') by { ErrorsFrame(s, s'); }
  }

  // ----- runs -----

  lemma InitHolds(s: State)
    requires Init(s)
    ensures Inv(s)
  {
  }

  lemma CallerStepKeeps(s: State, s': State)
    requires Inv(s) && CallerStep(s, s')
    ensures Inv(s')
  {
    hide Inv, CanStartCall, StartCall, CanLookUp, LookUp, CanSend, Send, CanReturn, Return;
    if c, rows :| CanStartCall(s, c) && s' == StartCall(s, c, rows) {
      StartCallKeeps(s, c, rows);
    } else if c, m :| CanLookUp(s, c, m) && s' == LookUp(s, c, m) {
      LookUpKeeps(s, c, m);
    } else if c :| CanSend(s, c) && s' == Send(s, c) {
      SendKeeps(s, c);
    } else {
      var c :| CanReturn(s, c) && s' == Return(s, c);
      ReturnKeeps(s, c);
    }
  }

  lemma RoutineStepKeeps(s: State, s': State)
    requires Inv(s) && RoutineStep(s, s')
    ensures Inv(s')
  {
    hide Placed, Accounted, CanTakeBuffer, TakeBuffer, CanStartFail, StartFail, CanFailTake, FailTake, CanFailDone, FailDone,
         CanReceive, Receive, CanHandOver, HandOver, CanFlush, Reject, CanRejectEnd, RejectEnd;
    if m, b :| CanTakeBuffer(s, m, b) && s' == TakeBuffer(s, m, b) {
      TakeBufferPlaced(s, m, b);
      TakeBufferAccounted(s, m, b);
    } else if m, err :| CanStartFail(s, m) && s' == StartFail(s, m, err) {
      StartFailPlaced(s, m, err);
      StartFailAccounted(s, m, err);
    } else if m :| CanFailTake(s, m) && s' == FailTake(s, m) {
      FailTakePlaced(s, m);
      FailTakeAccounted(s, m);
    } else if m :| CanFailDone(s, m) && s' == FailDone(s, m) {
      FailDonePlaced(s, m);
      FailDoneAccounted(s, m);
    } else if m :| CanReceive(s, m) && s' == Receive(s, m) {
      ReceivePlaced(s, m);
      ReceiveAccounted(s, m);
    } else if m :| CanHandOver(s, m) && s' == HandOver(s, m) {
      HandOverPlaced(s, m);
      HandOverAccounted(s, m);
    } else if m, err :| CanFlush(s, m) && s' == Reject(s, m, err) {
      RejectPlaced(s, m, err);
      RejectAccounted(s, m, err);
    } else {
      var m :| CanRejectEnd(s, m) && s' == RejectEnd(s, m);
      RejectEndPlaced(s, m);
      RejectEndAccounted(s, m);
    }
  }

  lemma CopierStepKeeps(s: State, s': State)
    requires Inv(s) && CopierStep(s, s')
    ensures Inv(s')
  {
    hide Placed, Accounted, CanOfferFirst, OfferFirst, CanFinishFirst, FinishFirst, CanCopierTake, CopierTake,
         CanInsert, Insert, CanReportEnd, ReportEnd;
    if b :| CanOfferFirst(s, b) && s' == OfferFirst(s, b) {
      OfferFirstPlaced(s, b);
      OfferFirstAccounted(s, b);
    } else if b :| CanFinishFirst(s, b) && s' == FinishFirst(s, b) {
      FinishFirstPlaced(s, b);
      FinishFirstAccounted(s, b);
    } else if k :| CanCopierTake(s, k) && s' == CopierTake(s, k) {
      CopierTakePlaced(s, k);
      CopierTakeAccounted(s, k);
    } else if k, o :| CanInsert(s, k) && s' == Insert(s, k, o) {
      InsertPlaced(s, k, o);
      InsertAccounted(s, k, o);
    } else {
      var k :| CanReportEnd(s, k) && s' == ReportEnd(s, k);
      ReportEndPlaced(s, k);
      ReportEndAccounted(s, k);
    }
  }

  /** The invariant is kept by every step. */
  lemma NextKeeps(s: State, s': State)
    requires Inv(s) && Next(s, s')
    ensures Inv(s')
  {
    hide Inv, CallerStep, RoutineStep, CopierStep;
    if CallerStep(s, s') {
      CallerStepKeeps(s, s');
    } else if RoutineStep(s, s') {
      RoutineStepKeeps(s, s');
    } else {
      CopierStepKeeps(s, s');
    }
  }

  lemma {:induction false} RunHolds(run: seq<State>, i: nat)
    requires IsRun(run) && i < |run|
    ensures Inv(run[i])
  {
    hide Inv, Init, Next;
    if i == 0 {
      InitHolds(run[0]);
    } else {
      RunHolds(run, i - 1);
      NextKeeps(run[i - 1], run[i]);
    }
  }
}
