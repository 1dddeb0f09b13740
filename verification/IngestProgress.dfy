/** The ingest pipeline never gets stuck: while a call has not returned, something
    other than a new call or a new fault can happen. */
module IngestProgress {
  import opened Common
  import opened Ingest
  import opened IngestSafety
  import opened IngestSteps
  import opened IngestTheorems

  /** A step that goes on with what is under way: it starts no call, and neither
      the start of a routine nor the setting of series ids fails in it. */
  ghost predicate Proceeds(s: State, s': State) {
    || (exists c, m :: CanLookUp(s, c, m) && s' == LookUp(s, c, m))
    || (exists c :: CanSend(s, c) && s' == Send(s, c))
    || (exists c :: CanReturn(s, c) && s' == Return(s, c))
    || (exists m, b :: CanTakeBuffer(s, m, b) && s' == TakeBuffer(s, m, b))
    || (exists m :: CanFailTake(s, m) && s' == FailTake(s, m))
    || (exists m :: CanFailDone(s, m) && s' == FailDone(s, m))
    || (exists m :: CanReceive(s, m) && s' == Receive(s, m))
    || (exists m :: CanHandOver(s, m) && s' == HandOver(s, m))
    || (exists m :: CanRejectEnd(s, m) && s' == RejectEnd(s, m))
    || (exists b :: CanOfferFirst(s, b) && s' == OfferFirst(s, b))
    || (exists b :: CanFinishFirst(s, b) && s' == FinishFirst(s, b))
    || (exists k :: CanCopierTake(s, k) && s' == CopierTake(s, k))
    || (exists k :: CanInsert(s, k) && s' == Insert(s, k, None))
    || (exists k :: CanReportEnd(s, k) && s' == ReportEnd(s, k))
  }

  lemma ProceedsIsNext(s: State, s': State)
    requires Proceeds(s, s')
    ensures Next(s, s')
  {
    hide CanLookUp, CanSend, CanReturn, CanTakeBuffer, CanFailTake, CanFailDone, CanReceive, CanHandOver, CanRejectEnd,
         CanOfferFirst, CanFinishFirst, CanCopierTake, CanInsert, CanReportEnd,
         LookUp, Send, Return, TakeBuffer, FailTake, FailDone, Receive, HandOver, RejectEnd,
         OfferFirst, FinishFirst, CopierTake, Insert, ReportEnd;
  }

  /** A buffer that is not in the store. */
  lemma NewBuffer(buffers: map<BufId, Buffer>) returns (b: BufId)
    ensures b !in buffers
  {
    b := Above(buffers.Keys);
  }

  lemma Above(ids: set<nat>) returns (b: nat)
    ensures forall x :: x in ids ==> x < b
    decreases ids
  {
    if ids == {} {
      b := 0;
    } else {
      var x :| x in ids;
      var b' := Above(ids - {x});
      b := if x < b' then b' else x + 1;
      assert forall y :: y in ids ==> y == x || y in ids - {x};
    }
  }

  /** Whoever reports over a buffer can go on. */
  lemma ReportMoves(s: State, b: BufId)
    requires Placed(s) && b in s.reports
    ensures exists s' :: Proceeds(s, s')
  {
    hide QueuesOk, RoutinesOk;
    assert b in s.buffers && OwnerOk(s, b);
    if s.buffers[b].tasks != [] {
      var r := s.buffers[b].tasks[0];
      assert r in s.buffers[b].tasks;
      assert Known(s, r);
      if CanOfferFirst(s, b) {
        assert Proceeds(s, OfferFirst(s, b));
      } else {
        assert CanFinishFirst(s, b);
        assert Proceeds(s, FinishFirst(s, b));
      }
    } else if s.owner[b].Handler? {
      assert CanRejectEnd(s, s.owner[b].table);
      assert Proceeds(s, RejectEnd(s, s.owner[b].table));
    } else {
      assert CanReportEnd(s, s.owner[b].copier);
      assert Proceeds(s, ReportEnd(s, s.owner[b].copier));
    }
  }

  lemma BusyCopierMoves(s: State, k: nat)
    requires Placed(s) && k in s.copiers && !s.copiers[k].Idle?
    ensures exists s' :: Proceeds(s, s')
  {
    hide CallsOk, QueuesOk, RoutinesOk, TasksOk;
    var b := s.copiers[k].buf;
    assert OwnerOk(s, b);
    if b in s.reports {
      ReportMoves(s, b);
    } else {
      assert Proceeds(s, Insert(s, k, None));
    }
  }

  lemma ChannelMoves(s: State)
    requires Placed(s) && s.toCopiers != [] && s.copiers != map[]
    ensures exists s' :: Proceeds(s, s')
  {
    hide Placed;
    var k :| k in s.copiers;
    if s.copiers[k].Idle? {
      assert Proceeds(s, CopierTake(s, k));
    } else {
      BusyCopierMoves(s, k);
    }
  }

  /** A routine with something in its channel can go on. */
  lemma RoutineMoves(s: State, m: Metric)
    requires Placed(s) && m in s.inputs && s.inputs[m] != []
    ensures exists s' :: Proceeds(s, s')
  {
    var r := s.inputs[m][0];
    assert m in s.routines && r in s.inputs[m] && Known(s, r);
    assert RoutineOk(s, m);
    hide CallsOk, RoutinesOk, TasksOk;
    match s.routines[m]
    case Failing(_, None) => assert Proceeds(s, FailTake(s, m));
    case Failing(_, Some(_)) => TakenMoves(s, m);
    case Receiving(b) => assert Proceeds(s, Receive(s, m));
    case Rejecting(b) =>
      assert OwnerOk(s, b);
      ReportMoves(s, b);
    case _ =>
      var b := NewBuffer(s.buffers);
      assert Proceeds(s, TakeBuffer(s, m, b));
  }

  lemma TakenMoves(s: State, m: Metric)
    requires Placed(s) && m in s.routines && s.routines[m].Failing? && s.routines[m].taken.Some?
    ensures exists s' :: Proceeds(s, s')
  {
    hide QueuesOk, TasksOk, OwnersOk;
    assert RoutineOk(s, m);
    assert Known(s, s.routines[m].taken.value);
    assert Proceeds(s, FailDone(s, m));
  }

  lemma {:induction false} RowsConcat(tasks: seq<Req>, r: Req)
    requires r in tasks && r.rows != []
    ensures Concat(tasks) != []
  {
    if r != tasks[|tasks| - 1] {
      RowsConcat(tasks[..|tasks| - 1], r);
    }
  }

  /** A buffer with a request that has rows can go on, wherever it is. */
  lemma BufferMoves(s: State, b: BufId, r: Req)
    requires Placed(s) && RowsOk(s) && s.copiers != map[]
    requires b in s.buffers && r in s.buffers[b].tasks && r.rows != []
    ensures exists s' :: Proceeds(s, s')
  {
    hide CallsOk, QueuesOk, RoutinesOk;
    assert OwnerOk(s, b) && BatchOk(s, b);
    if b in s.reports {
      ReportMoves(s, b);
    } else {
      match s.owner[b]
      case Handler(m) =>
        RowsConcat(s.buffers[b].tasks, r);
        if |s.toCopiers| < |s.copiers| {
          assert Proceeds(s, HandOver(s, m));
        } else {
          ChannelMoves(s);
        }
      case InChannel(_) => ChannelMoves(s);
      case HeldBy(k, _) => BusyCopierMoves(s, k);
      case Pooled =>
    }
  }

  lemma OpenMoves(s: State, c: CallId, m: Metric)
    requires Placed(s) && RowsOk(s) && s.copiers != map[]
    requires c in s.calls && m in Open(s, c) && m !in s.calls[c].unsent && s.calls[c].rows[m] != []
    ensures exists s' :: Proceeds(s, s')
  {
    var r := Req(c, m, s.calls[c].rows[m]);
    assert CallOk(s, c);
    match s.place[r]
    case Queued =>
      assert r in s.inputs[m];
      RoutineMoves(s, m);
    case InBuffer(b) =>
      BufferMoves(s, b, r);
    case Taken =>
      TakenMoves(s, m);
  }

  lemma CallMoves(s: State, c: CallId)
    requires Placed(s) && RowsOk(s) && s.copiers != map[]
    requires c in s.calls && s.calls[c].returned.None? && forall m :: m in s.calls[c].rows ==> s.calls[c].rows[m] != []
    ensures exists s' :: Proceeds(s, s')
  {
    var call := s.calls[c];
    assert CallOk(s, c);
    hide Placed, RowsOk, Open;
    if call.ready.Some? {
      var m := call.ready.value;
      if |s.inputs[m]| < INPUT_CAPACITY {
        assert Proceeds(s, Send(s, c));
      } else {
        RoutineMoves(s, m);
      }
    } else if call.unsent != {} {
      var m :| m in call.unsent;
      assert Proceeds(s, LookUp(s, c, m));
    } else if call.unfinished == 0 {
      assert Proceeds(s, Return(s, c));
    } else {
      var m := OpenMetric(s, c);
      OpenMoves(s, c, m);
    }
  }

  lemma OpenMetric(s: State, c: CallId) returns (m: Metric)
    requires c in s.calls && |Open(s, c)| != 0
    ensures m in Open(s, c) && m in s.calls[c].rows
  {
    m :| m in Open(s, c);
  }

  /** Nothing gets stuck: wherever a call, all of whose requests have rows, has
      not returned and there is a copier, the run can be continued without a new
      call and without a new fault. */
  lemma CallsProgress(run: seq<State>, i: nat, c: CallId)
    requires IsRun(run) && i < |run| && run[i].copiers != map[]
    requires c in run[i].calls && run[i].calls[c].returned.None?
    requires forall m :: m in run[i].calls[c].rows ==> run[i].calls[c].rows[m] != []
    ensures exists s' :: Proceeds(run[i], s') && Next(run[i], s')
  {
    RunHolds(run, i);
    hide Placed, RowsOk, Proceeds, Next, FailuresSeen, ErrorsMeant;
    CallMoves(run[i], c);
    var s' :| Proceeds(run[i], s');
    ProceedsIsNext(run[i], s');
  }
}
