/** The channels of the ingest pipeline are queues: what is put in first comes out
    first. */
module IngestOrder {
  import opened Common
  import opened Ingest
  import opened IngestSafety
  import opened IngestSteps

  /** What one step may do to a queue: nothing, add one behind, or take the first. */
  ghost predicate Stepped<T(!new)>(q: seq<T>, q': seq<T>) {
    q' == q || (q != [] && q' == q[1..]) || exists x :: q' == q + [x]
  }

  function QueueOf(s: State, m: Metric): seq<Req> {
    if m in s.inputs then s.inputs[m] else []
  }

  ghost predicate ChannelsStep(s: State, s': State) {
    && Stepped(s.toCopiers, s'.toCopiers) && (forall m :: Stepped(QueueOf(s, m), QueueOf(s', m)))
    // a full channel does not grow
    && s'.copiers.Keys == s.copiers.Keys
    && (|s.toCopiers| >= |s.copiers.Keys| ==> |s'.toCopiers| <= |s.toCopiers|)
    && (forall m :: |QueueOf(s, m)| >= 1000 ==> |QueueOf(s', m)| <= |QueueOf(s, m)|)
  }

  lemma StepNone(s: State, s': State)
    requires s'.inputs == s.inputs && s'.toCopiers == s.toCopiers && s'.copiers.Keys == s.copiers.Keys
    ensures ChannelsStep(s, s')
  {
  }

  /** The channels are as they were, apart from the one of `m`. */
  lemma StepOne(s: State, s': State, m: Metric)
    requires s'.toCopiers == s.toCopiers && s'.copiers.Keys == s.copiers.Keys && Stepped(QueueOf(s, m), QueueOf(s', m))
    requires |QueueOf(s, m)| >= 1000 ==> |QueueOf(s', m)| <= |QueueOf(s, m)|
    requires forall o :: o != m ==> (o in s'.inputs <==> o in s.inputs) && (o in s.inputs ==> s'.inputs[o] == s.inputs[o])
    ensures ChannelsStep(s, s')
  {
    hide Stepped;
    forall o ensures Stepped(QueueOf(s, o), QueueOf(s', o)) {
      if o != m {
        SteppedSame(QueueOf(s, o));
      }
    }
    SteppedSame(s.toCopiers);
  }

  lemma SteppedSame<T(!new)>(q: seq<T>)
    ensures Stepped(q, q)
  {
  }

  lemma SteppedPush<T(!new)>(q: seq<T>, x: T)
    ensures Stepped(q, q + [x])
  {
  }

  lemma StartCallQueue(s: State, c: CallId, rows: map<Metric, seq<Row>>)
    ensures ChannelsStep(s, StartCall(s, c, rows))
  {
    hide ChannelsStep;
    StepNone(s, StartCall(s, c, rows));
  }

  lemma LookUpQueue(s: State, c: CallId, m: Metric)
    requires CanLookUp(s, c, m)
    ensures ChannelsStep(s, LookUp(s, c, m))
  {
    hide ChannelsStep;
    if m in s.inputs {
      StepNone(s, s.(calls := s.calls[c := s.calls[c].(ready := Some(m))]));
    } else {
      StepOne(s, LookUp(s, c, m), m);
    }
  }

  lemma SendQueue(s: State, c: CallId)
    requires CanSend(s, c)
    ensures ChannelsStep(s, Send(s, c))
  {
    hide ChannelsStep, Stepped;
    var s', m := Send(s, c), s.calls[c].ready.value;
    SteppedPush(s.inputs[m], Req(c, m, s.calls[c].rows[m]));
    StepOne(s, s', m);
  }

  lemma ReturnQueue(s: State, c: CallId)
    requires CanReturn(s, c)
    ensures ChannelsStep(s, Return(s, c))
  {
    hide ChannelsStep;
    StepNone(s, Return(s, c));
  }

  lemma PopQueue(s: State, s': State, m: Metric)
    requires m in s.inputs && s.inputs[m] != [] && s'.inputs == s.inputs[m := s.inputs[m][1..]]
    requires s'.toCopiers == s.toCopiers && s'.copiers.Keys == s.copiers.Keys
    ensures ChannelsStep(s, s')
  {
    hide ChannelsStep;
    StepOne(s, s', m);
  }

  lemma HandOverQueue(s: State, m: Metric)
    requires CanHandOver(s, m)
    ensures ChannelsStep(s, HandOver(s, m))
  {
    SteppedPush(s.toCopiers, Batch(s.routines[m].buf, m));
  }

  lemma CopierTakeQueue(s: State, k: nat)
    requires CanCopierTake(s, k)
    ensures ChannelsStep(s, CopierTake(s, k))
  {
  }

  lemma ReportingQueue(s: State, b: BufId)
    ensures CanOfferFirst(s, b) ==> ChannelsStep(s, OfferFirst(s, b))
    ensures CanFinishFirst(s, b) ==> ChannelsStep(s, FinishFirst(s, b))
  {
    hide ChannelsStep;
    if CanOfferFirst(s, b) {
      StepNone(s, OfferFirst(s, b));
    }
    if CanFinishFirst(s, b) {
      StepNone(s, FinishFirst(s, b));
    }
  }

  lemma TakingQueue(s: State, m: Metric, b: BufId, err: Error)
    ensures CanTakeBuffer(s, m, b) ==> ChannelsStep(s, TakeBuffer(s, m, b))
    ensures CanStartFail(s, m) ==> ChannelsStep(s, StartFail(s, m, err))
    ensures CanFailTake(s, m) ==> ChannelsStep(s, FailTake(s, m))
    ensures CanFailDone(s, m) ==> ChannelsStep(s, FailDone(s, m))
  {
    hide ChannelsStep;
    if CanTakeBuffer(s, m, b) {
      StepNone(s, TakeBuffer(s, m, b));
    }
    if CanStartFail(s, m) {
      StepNone(s, StartFail(s, m, err));
    }
    if CanFailTake(s, m) {
      PopQueue(s, FailTake(s, m), m);
    }
    if CanFailDone(s, m) {
      StepNone(s, FailDone(s, m));
    }
  }

  lemma HandlingQueue(s: State, m: Metric, err: Error)
    ensures CanReceive(s, m) ==> ChannelsStep(s, Receive(s, m))
    ensures CanHandOver(s, m) ==> ChannelsStep(s, HandOver(s, m))
    ensures CanFlush(s, m) ==> ChannelsStep(s, Reject(s, m, err))
    ensures CanRejectEnd(s, m) ==> ChannelsStep(s, RejectEnd(s, m))
  {
    hide ChannelsStep;
    if CanReceive(s, m) {
      PopQueue(s, Receive(s, m), m);
    }
    if CanHandOver(s, m) {
      HandOverQueue(s, m);
    }
    if CanFlush(s, m) {
      StepNone(s, Reject(s, m, err));
    }
    if CanRejectEnd(s, m) {
      StepNone(s, RejectEnd(s, m));
    }
  }

  lemma CopyingQueue(s: State, k: nat, o: Option<Error>)
    ensures CanInsert(s, k) ==> ChannelsStep(s, Insert(s, k, o))
    ensures CanReportEnd(s, k) ==> ChannelsStep(s, ReportEnd(s, k))
  {
    hide ChannelsStep;
    if CanInsert(s, k) {
      StepNone(s, Insert(s, k, o));
    }
    if CanReportEnd(s, k) {
      StepNone(s, ReportEnd(s, k));
    }
  }

  lemma CallerQueue(s: State, s': State)
    requires CallerStep(s, s')
    ensures ChannelsStep(s, s')
  {
    hide ChannelsStep, CanStartCall, StartCall, CanLookUp, LookUp, CanSend, Send, CanReturn, Return;
    if c, rows :| CanStartCall(s, c) && s' == StartCall(s, c, rows) {
      StartCallQueue(s, c, rows);
    } else if c, m :| CanLookUp(s, c, m) && s' == LookUp(s, c, m) {
      LookUpQueue(s, c, m);
    } else if c :| CanSend(s, c) && s' == Send(s, c) {
      SendQueue(s, c);
    } else {
      var c :| CanReturn(s, c) && s' == Return(s, c);
      ReturnQueue(s, c);
    }
  }

  lemma RoutineQueue(s: State, s': State)
    requires RoutineStep(s, s')
    ensures ChannelsStep(s, s')
  {
    hide ChannelsStep, CanTakeBuffer, TakeBuffer, CanStartFail, StartFail, CanFailTake, FailTake, CanFailDone, FailDone,
         CanReceive, Receive, CanHandOver, HandOver, CanFlush, Reject, CanRejectEnd, RejectEnd;
    forall m, b ensures CanTakeBuffer(s, m, b) ==> ChannelsStep(s, TakeBuffer(s, m, b)) { TakingQueue(s, m, b, ""); }
    forall m, err ensures CanStartFail(s, m) ==> ChannelsStep(s, StartFail(s, m, err)) { TakingQueue(s, m, 0, err); }
    forall m ensures CanFailTake(s, m) ==> ChannelsStep(s, FailTake(s, m)) { TakingQueue(s, m, 0, ""); }
    forall m ensures CanFailDone(s, m) ==> ChannelsStep(s, FailDone(s, m)) { TakingQueue(s, m, 0, ""); }
    forall m ensures CanReceive(s, m) ==> ChannelsStep(s, Receive(s, m)) { HandlingQueue(s, m, ""); }
    forall m ensures CanHandOver(s, m) ==> ChannelsStep(s, HandOver(s, m)) { HandlingQueue(s, m, ""); }
    forall m, err ensures CanFlush(s, m) ==> ChannelsStep(s, Reject(s, m, err)) { HandlingQueue(s, m, err); }
    forall m ensures CanRejectEnd(s, m) ==> ChannelsStep(s, RejectEnd(s, m)) { HandlingQueue(s, m, ""); }
  }

  lemma CopierQueue(s: State, s': State)
    requires CopierStep(s, s')
    ensures ChannelsStep(s, s')
  {
    hide ChannelsStep, CanOfferFirst, OfferFirst, CanFinishFirst, FinishFirst, CanCopierTake, CopierTake,
         CanInsert, Insert, CanReportEnd, ReportEnd;
    forall b ensures CanOfferFirst(s, b) ==> ChannelsStep(s, OfferFirst(s, b)) { ReportingQueue(s, b); }
    forall b ensures CanFinishFirst(s, b) ==> ChannelsStep(s, FinishFirst(s, b)) { ReportingQueue(s, b); }
    forall k ensures CanCopierTake(s, k) ==> ChannelsStep(s, CopierTake(s, k)) {
      if CanCopierTake(s, k) {
        CopierTakeQueue(s, k);
      }
    }
    forall k, o ensures CanInsert(s, k) ==> ChannelsStep(s, Insert(s, k, o)) { CopyingQueue(s, k, o); }
    forall k ensures CanReportEnd(s, k) ==> ChannelsStep(s, ReportEnd(s, k)) { CopyingQueue(s, k, None); }
  }

  lemma NextQueue(s: State, s': State)
    requires Next(s, s')
    ensures ChannelsStep(s, s')
  {
    hide ChannelsStep, CallerStep, RoutineStep, CopierStep;
    if CallerStep(s, s') {
      CallerQueue(s, s');
    } else if RoutineStep(s, s') {
      RoutineQueue(s, s');
    } else {
      CopierQueue(s, s');
    }
  }

  /** Over every run the channels keep to their capacity: as many batches as there
      are copiers, and a thousand requests for a metric. */
  lemma {:induction false} ChannelsBounded(run: seq<State>, i: nat, m: Metric)
    requires IsRun(run) && i < |run|
    ensures |run[i].toCopiers| <= |run[i].copiers.Keys| && |QueueOf(run[i], m)| <= 1000
    ensures run[i].copiers.Keys == run[0].copiers.Keys
    decreases i
  {
    hide Next, Init, QueueOf;
    if i == 0 {
      InitEmpty(run[0], m);
    } else {
      ChannelsBounded(run, i - 1, m);
      NextQueue(run[i - 1], run[i]);
      Longer(run[i - 1].toCopiers, run[i].toCopiers);
      Longer(QueueOf(run[i - 1], m), QueueOf(run[i], m));
    }
  }

  lemma InitEmpty(s: State, m: Metric)
    requires Init(s)
    ensures s.toCopiers == [] && QueueOf(s, m) == []
  {
  }

  lemma Longer<T(!new)>(q: seq<T>, q': seq<T>)
    requires Stepped(q, q')
    ensures |q'| <= |q| + 1
  {
  }

  // ----- a request never goes back -----

  function Stage(p: Place): nat {
    match p
    case Unsent => 0
    case Queued => 1
    case InBuffer(_) => 2
    case Taken => 2
    case Finished(_) => 3
  }

  ghost predicate Onward(s: State, s': State, r: Req) {
    r in s.place ==> r in s'.place && Stage(s'.place[r]) >= Stage(s.place[r])
  }

  lemma CallerOnward(s: State, s': State, r: Req)
    requires CallsOk(s) && CallerStep(s, s')
    ensures Onward(s, s', r)
  {
    hide CallsOk, Onward, CanStartCall, StartCall, CanLookUp, LookUp, CanSend, Send, CanReturn, Return;
    if c, rows :| CanStartCall(s, c) && s' == StartCall(s, c, rows) {
      StartCallOnward(s, c, rows, r);
    } else if c, m :| CanLookUp(s, c, m) && s' == LookUp(s, c, m) {
      LookUpOnward(s, c, m, r);
    } else if c :| CanSend(s, c) && s' == Send(s, c) {
      SendOnward(s, c, r);
    } else {
      var c :| CanReturn(s, c) && s' == Return(s, c);
      ReturnOnward(s, c, r);
    }
  }

  lemma StartCallOnward(s: State, c: CallId, rows: map<Metric, seq<Row>>, r: Req)
    requires CallsOk(s) && CanStartCall(s, c)
    ensures Onward(s, StartCall(s, c, rows), r)
  {
    hide CallsOk;
    StartPlaces(s, c, rows);
  }

  lemma LookUpOnward(s: State, c: CallId, m: Metric, r: Req)
    requires CanLookUp(s, c, m)
    ensures Onward(s, LookUp(s, c, m), r)
  {
  }

  lemma SendOnward(s: State, c: CallId, r: Req)
    requires CallsOk(s) && CanSend(s, c)
    ensures Onward(s, Send(s, c), r)
  {
    assert CallOk(s, c);
    var call := s.calls[c];
    assert s.place[Req(c, call.ready.value, call.rows[call.ready.value])] == Unsent;
    hide CallsOk, CallOk;
  }

  lemma ReturnOnward(s: State, c: CallId, r: Req)
    requires CanReturn(s, c)
    ensures Onward(s, Return(s, c), r)
  {
  }

  lemma QueueOnward(s: State, m: Metric, r: Req)
    requires Placed(s)
    ensures CanFailTake(s, m) ==> Onward(s, FailTake(s, m), r)
    ensures CanReceive(s, m) ==> Onward(s, Receive(s, m), r)
  {
    hide CallsOk, QueuesOk, RoutinesOk, TasksOk, OwnersOk;
    if CanFailTake(s, m) || CanReceive(s, m) {
      HeadOfQueue(s, m);
    }
  }

  lemma FailDoneOnward(s: State, m: Metric, r: Req)
    requires CanFailDone(s, m)
    ensures Onward(s, FailDone(s, m), r)
  {
  }

  lemma OtherOnward(s: State, m: Metric, b: BufId, err: Error, r: Req)
    ensures CanTakeBuffer(s, m, b) ==> Onward(s, TakeBuffer(s, m, b), r)
    ensures CanStartFail(s, m) ==> Onward(s, StartFail(s, m, err), r)
    ensures CanHandOver(s, m) ==> Onward(s, HandOver(s, m), r)
    ensures CanFlush(s, m) ==> Onward(s, Reject(s, m, err), r)
    ensures CanRejectEnd(s, m) ==> Onward(s, RejectEnd(s, m), r)
  {
  }

  lemma RoutineOnward(s: State, s': State, r: Req)
    requires Placed(s) && RoutineStep(s, s')
    ensures Onward(s, s', r)
  {
    hide Placed, Onward, CanTakeBuffer, TakeBuffer, CanStartFail, StartFail, CanFailTake, FailTake, CanFailDone, FailDone,
         CanReceive, Receive, CanHandOver, HandOver, CanFlush, Reject, CanRejectEnd, RejectEnd;
    if m :| CanFailTake(s, m) && s' == FailTake(s, m) {
      QueueOnward(s, m, r);
    } else if m :| CanReceive(s, m) && s' == Receive(s, m) {
      QueueOnward(s, m, r);
    } else if m :| CanFailDone(s, m) && s' == FailDone(s, m) {
      FailDoneOnward(s, m, r);
    } else {
      forall m, b ensures CanTakeBuffer(s, m, b) ==> Onward(s, TakeBuffer(s, m, b), r) { OtherOnward(s, m, b, "", r); }
      forall m, err: Error ensures CanStartFail(s, m) ==> Onward(s, StartFail(s, m, err), r) { OtherOnward(s, m, 0, err, r); }
      forall m ensures CanHandOver(s, m) ==> Onward(s, HandOver(s, m), r) { OtherOnward(s, m, 0, "", r); }
      forall m, err ensures CanFlush(s, m) ==> Onward(s, Reject(s, m, err), r) { OtherOnward(s, m, 0, err, r); }
      forall m ensures CanRejectEnd(s, m) ==> Onward(s, RejectEnd(s, m), r) { OtherOnward(s, m, 0, "", r); }
    }
  }

  lemma FinishOnward(s: State, b: BufId, r: Req)
    requires CanFinishFirst(s, b)
    ensures Onward(s, FinishFirst(s, b), r)
  {
  }

  lemma CopyingOnward(s: State, b: BufId, k: nat, o: Option<Error>, r: Req)
    ensures CanOfferFirst(s, b) ==> Onward(s, OfferFirst(s, b), r)
    ensures CanCopierTake(s, k) ==> Onward(s, CopierTake(s, k), r)
    ensures CanInsert(s, k) ==> Onward(s, Insert(s, k, o), r)
    ensures CanReportEnd(s, k) ==> Onward(s, ReportEnd(s, k), r)
  {
  }

  lemma CopierOnward(s: State, s': State, r: Req)
    requires CopierStep(s, s')
    ensures Onward(s, s', r)
  {
    hide Onward, CanOfferFirst, OfferFirst, CanFinishFirst, FinishFirst, CanCopierTake, CopierTake,
         CanInsert, Insert, CanReportEnd, ReportEnd;
    if b :| CanFinishFirst(s, b) && s' == FinishFirst(s, b) {
      FinishOnward(s, b, r);
    } else {
      forall b ensures CanOfferFirst(s, b) ==> Onward(s, OfferFirst(s, b), r) { CopyingOnward(s, b, 0, None, r); }
      forall k ensures CanCopierTake(s, k) ==> Onward(s, CopierTake(s, k), r) { CopyingOnward(s, 0, k, None, r); }
      forall k, o ensures CanInsert(s, k) ==> Onward(s, Insert(s, k, o), r) { CopyingOnward(s, 0, k, o, r); }
      forall k ensures CanReportEnd(s, k) ==> Onward(s, ReportEnd(s, k), r) { CopyingOnward(s, 0, k, None, r); }
    }
  }

  lemma NextOnward(s: State, s': State, r: Req)
    requires Placed(s) && Next(s, s')
    ensures Onward(s, s', r)
  {
    hide CallsOk, QueuesOk, RoutinesOk, TasksOk, OwnersOk, Onward, CallerStep, RoutineStep, CopierStep;
    if CallerStep(s, s') {
      CallerOnward(s, s', r);
    } else if RoutineStep(s, s') {
      RoutineOnward(s, s', r);
    } else {
      CopierOnward(s, s', r);
    }
  }

  // ----- first in, first out -----

  /** From `k` on the queue is still there, in front of whatever came later, and what was before has left it. */
  ghost predicate Consumed(q: seq<Req>, k: nat, s: State, m: Metric) {
    && k <= |q| && q[k..] <= QueueOf(s, m)
    && forall r :: r in q[..k] ==> r in s.place && Stage(s.place[r]) > 1
  }

  lemma ConsumedNext(q: seq<Req>, k: nat, s: State, s': State, m: Metric) returns (k': nat)
    requires Placed(s) && Placed(s') && Next(s, s') && Consumed(q, k, s, m)
    ensures Consumed(q, k', s', m)
  {
    hide Placed, Next;
    NextQueue(s, s');
    forall r | r in q[..k] ensures r in s'.place && Stage(s'.place[r]) > 1 {
      NextOnward(s, s', r);
    }
    var now, later := QueueOf(s, m), QueueOf(s', m);
    if now != [] && later == now[1..] && k < |q| {
      k' := k + 1;
      HeadLeaves(s, s', m);
      assert now[0] == q[k..][0] == q[k];
      assert q[..k + 1] == q[..k] + [q[k]];
      assert q[k + 1..] == q[k..][1..];
    } else {
      k' := k;
      assert later == now || k == |q| || now <= later;
    }
  }

  /** A request that is taken from its channel is past it for good. */
  lemma HeadLeaves(s: State, s': State, m: Metric)
    requires Placed(s) && Placed(s') && Next(s, s') && QueueOf(s, m) != [] && QueueOf(s', m) == QueueOf(s, m)[1..]
    ensures var r := QueueOf(s, m)[0]; r in s'.place && Stage(s'.place[r]) > 1
  {
    hide CallsOk, RoutinesOk, TasksOk, OwnersOk, Next;
    var r := s.inputs[m][0];
    assert r in s.inputs[m];
    NextOnward(s, s', r);
    NotInRest(s.inputs[m]);
    assert r.metric == m;
  }

  lemma NotInRest(q: seq<Req>)
    requires q != [] && NoDup(q)
    ensures q[0] !in q[1..]
  {
  }

  lemma {:induction false} ConsumedLater(run: seq<State>, i: nat, j: nat, m: Metric) returns (k: nat)
    requires IsRun(run) && i <= j < |run|
    ensures Consumed(QueueOf(run[i], m), k, run[j], m)
    decreases j
  {
    hide Init, Next, Inv, Consumed, Placed;
    if i == j {
      k := 0;
      ConsumedNone(run[i], m);
    } else {
      var before := ConsumedLater(run, i, j - 1, m);
      RunHolds(run, j - 1);
      RunHolds(run, j);
      InvPlaced(run[j - 1]);
      InvPlaced(run[j]);
      k := ConsumedNext(QueueOf(run[i], m), before, run[j - 1], run[j], m);
    }
  }

  lemma ConsumedNone(s: State, m: Metric)
    ensures Consumed(QueueOf(s, m), 0, s, m)
  {
    assert QueueOf(s, m)[0..] == QueueOf(s, m);
  }

  lemma InvPlaced(s: State)
    requires Inv(s)
    ensures Placed(s)
  {
  }

  /** The channel of a metric is first in, first out: while a request is waiting in
      it, so is every one that was sent after it, behind it and in order. */
  lemma FirstInFirstOut(run: seq<State>, i: nat, j: nat, m: Metric, a: nat)
    requires IsRun(run) && i <= j < |run| && a < |QueueOf(run[i], m)|
    ensures QueueOf(run[i], m)[a] in QueueOf(run[j], m) ==>
      exists h: nat :: h <= |QueueOf(run[j], m)| && QueueOf(run[i], m)[a..] <= QueueOf(run[j], m)[h..]
  {
    hide Consumed, Inv, Init, Next;
    var q, r := QueueOf(run[i], m), QueueOf(run[i], m)[a];
    if r in QueueOf(run[j], m) {
      var k := ConsumedLater(run, i, j, m);
      RunHolds(run, j);
      QueuedStage(run[j], m, r);
      StillBehind(q, k, run[j], m, a);
    }
  }

  lemma StillBehind(q: seq<Req>, k: nat, s: State, m: Metric, a: nat)
    requires Consumed(q, k, s, m) && a < |q| && q[a] in s.place && Stage(s.place[q[a]]) == 1
    ensures k <= a && a - k <= |QueueOf(s, m)| && q[a..] <= QueueOf(s, m)[a - k..]
  {
    assert k <= a by {
      assert forall b :: 0 <= b < k ==> q[..k][b] == q[b] && q[b] in q[..k];
    }
    assert q[a..] == q[k..][a - k..];
  }

  lemma QueuedStage(s: State, m: Metric, r: Req)
    requires Inv(s) && r in QueueOf(s, m)
    ensures r in s.place && Stage(s.place[r]) == 1
  {
    hide Accounted, CallsOk, RoutinesOk, TasksOk, OwnersOk;
  }
}
