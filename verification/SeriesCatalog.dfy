/** The handler's series cache against the series the database has committed, over
    any number of batches and with other writers at work. */
module SeriesCatalog {
  import SampleRows
  import opened SeriesIds

  /** The committed series with their ids, and every id the sequence has given out:
      one that was rolled back is never given out again. */
  datatype Catalog = Catalog(db: map<string, nat>, used: set<nat>)

  ghost predicate CatalogOk(c: Catalog) {
    forall l :: l in c.db ==> c.db[l] in c.used
  }

  /** A call returns the id of a committed series, or a new one for a series it creates. */
  ghost predicate Honest(answer: string -> Reply, c: Catalog) {
    forall l :: (answer(l).Done? || answer(l).CommitError?) ==>
      if l in c.db then answer(l).id == c.db[l] else answer(l).id !in c.used
  }

  /** The call at which a batch stopped did create or find its series for good. */
  predicate Persists(reply: Reply) {
    reply.Done? || (reply.CommitError? && reply.applied)
  }

  /** The catalogue after the replies of a batch. */
  ghost function Committed(c: Catalog, queue: seq<string>, answer: string -> Reply): Catalog {
    var created := set l | l in queue && Learnt(queue, answer, l) && Persists(answer(l)) && l !in c.db;
    Catalog(map l | l in c.db.Keys + created :: if l in c.db then c.db[l] else IdOf(answer(l)),
            c.used + (set l | l in queue && Learnt(queue, answer, l) :: IdOf(answer(l))))
  }

  /** A series that is new to the database was created by a call whose commit failed. */
  ghost predicate CommitLost(c: Catalog, queue: seq<string>, answer: string -> Reply) {
    exists l :: Learnt(queue, answer, l) && !Persists(answer(l)) && l !in c.db
  }

  /** Every entry of the cache is what the database has committed. */
  ghost predicate CacheRight(cache: map<string, nat>, c: Catalog) {
    forall l :: l in cache ==> l in c.db && cache[l] == c.db[l]
  }

  /** Every id a sample set has is what the database has committed. */
  ghost predicate IdsRight(infos: seq<SampleRows.SamplesInfo>, c: Catalog) {
    forall i :: 0 <= i < |infos| && infos[i].seriesId >= 0 ==> infos[i].labels in c.db && infos[i].seriesId == c.db[infos[i].labels]
  }

  /** Every sample set has an id, and it is what the database has committed. */
  ghost predicate AllCommitted(infos: seq<SampleRows.SamplesInfo>, after: seq<SampleRows.SamplesInfo>, c: Catalog) {
    && |after| == |infos|
    && forall i :: 0 <= i < |infos| ==> infos[i].labels in c.db && after[i].seriesId == c.db[infos[i].labels]
  }

  /** Only the call at which reading stopped can lose its commit. */
  lemma LostAtTheStop(c: Catalog, queue: seq<string>, answer: string -> Reply)
    requires StrictlyAscending(queue)
    ensures CommitLost(c, queue, answer) <==>
      var p := Successes(queue, answer);
      p < |queue| && answer(queue[p]).CommitError? && !answer(queue[p]).applied && queue[p] !in c.db
  {
    var p := Successes(queue, answer);
    if CommitLost(c, queue, answer) {
      var l :| Learnt(queue, answer, l) && !Persists(answer(l)) && l !in c.db;
      var i :| 0 <= i < |queue| && queue[i] == l && i <= p && (answer(l).Done? || answer(l).CommitError?);
      assert i == p;
    }
    if p < |queue| && answer(queue[p]).CommitError? && !answer(queue[p]).applied && queue[p] !in c.db {
      assert Learnt(queue, answer, queue[p]);
    }
  }

  lemma LearntQueued(queue: seq<string>, answer: string -> Reply, l: string)
    requires Learnt(queue, answer, l)
    ensures l in queue && (answer(l).Done? || answer(l).CommitError?) && IdOf(answer(l)) == answer(l).id
  {
  }

  /** After a batch a right cache is right if and only if no new series lost its commit. */
  lemma BatchKeepsCache(c: Catalog, cache: map<string, nat>, queue: seq<string>, answer: string -> Reply, after: map<string, nat>)
    requires CacheRight(cache, c) && Honest(answer, c) && CacheAfter(cache, queue, answer, after)
    ensures CacheRight(after, Committed(c, queue, answer)) <==> !CommitLost(c, queue, answer)
  {
    hide Learnt;
    var c' := Committed(c, queue, answer);
    if CommitLost(c, queue, answer) {
      var l :| Learnt(queue, answer, l) && !Persists(answer(l)) && l !in c.db;
      LearntQueued(queue, answer, l);
      assert l in after && l !in c'.db;
    } else {
      forall l | l in after ensures l in c'.db && after[l] == c'.db[l] {
        if Learnt(queue, answer, l) {
          LearntQueued(queue, answer, l);
        }
      }
    }
  }

  /** Every sample set of a batch that succeeds has the id the database has committed for it. */
  lemma BatchIdsRight(c: Catalog, cache: map<string, nat>, infos: seq<SampleRows.SamplesInfo>, queue: seq<string>, answer: string -> Reply, after: seq<SampleRows.SamplesInfo>)
    requires CacheRight(cache, c) && Honest(answer, c)
    requires IdsRight(infos, c)
    requires forall l :: l in queue <==> Asked(infos, cache, l)
    requires (forall l :: l in queue ==> answer(l).Done?) && |after| == |infos|
    requires forall i :: 0 <= i < |infos| ==>
      var known := Known(infos[i], cache);
      after[i].seriesId == if known < 0 && Learnt(queue, answer, infos[i].labels) then IdOf(answer(infos[i].labels)) else known
    ensures AllCommitted(infos, after, Committed(c, queue, answer))
  {
    hide Learnt;
    var c' := Committed(c, queue, answer);
    forall i | 0 <= i < |infos| ensures infos[i].labels in c'.db && after[i].seriesId == c'.db[infos[i].labels] {
      var l := infos[i].labels;
      if Known(infos[i], cache) < 0 {
        assert Asked(infos, cache, l);
        DoneIsLearnt(queue, answer, l);
      }
    }
  }

  lemma DoneIsLearnt(queue: seq<string>, answer: string -> Reply, l: string)
    requires l in queue && forall q :: q in queue ==> answer(q).Done?
    ensures Learnt(queue, answer, l)
  {
    var i :| 0 <= i < |queue| && queue[i] == l;
    AllDone(queue, answer);
  }

  // ----- runs -----

  /** One batch: what other writers committed before it, the calls queued and
      their replies, or none if the batch could not be sent. */
  datatype Batch = Batch(others: map<string, nat>, queue: seq<string>, answer: string -> Reply, sent: bool)

  /** Other writers add series with new ids. */
  ghost function Grown(c: Catalog, others: map<string, nat>): Catalog {
    Catalog(map l | l in c.db.Keys + others.Keys :: if l in c.db then c.db[l] else others[l], c.used + others.Values)
  }

  ghost function CatalogNext(c: Catalog, b: Batch): Catalog {
    if b.sent then Committed(Grown(c, b.others), b.queue, b.answer) else Grown(c, b.others)
  }

  ghost function CacheNext(cache: map<string, nat>, b: Batch): map<string, nat> {
    if !b.sent then cache
    else
      map l | l in cache.Keys + (set q | q in b.queue) && (l in cache || Learnt(b.queue, b.answer, l))
        :: if Learnt(b.queue, b.answer, l) then IdOf(b.answer(l)) else cache[l]
  }

  /** The handler queues what it has not cached; the database answers honestly. */
  ghost predicate CanHappen(c: Catalog, cache: map<string, nat>, b: Batch) {
    && (forall l :: l in b.others && l !in c.db ==> b.others[l] !in c.used)
    && StrictlyAscending(b.queue) && (forall l :: l in b.queue ==> l !in cache)
    && Honest(b.answer, Grown(c, b.others))
  }

  ghost function RunCatalog(c: Catalog, run: seq<Batch>): Catalog
    decreases |run|
  {
    if run == [] then c else RunCatalog(CatalogNext(c, run[0]), run[1..])
  }

  ghost function RunCache(cache: map<string, nat>, run: seq<Batch>): map<string, nat>
    decreases |run|
  {
    if run == [] then cache else RunCache(CacheNext(cache, run[0]), run[1..])
  }

  ghost predicate IsRun(c: Catalog, cache: map<string, nat>, run: seq<Batch>)
    decreases |run|
  {
    run != [] ==> CanHappen(c, cache, run[0]) && IsRun(CatalogNext(c, run[0]), CacheNext(cache, run[0]), run[1..])
  }

  ghost predicate LosesCommit(c: Catalog, b: Batch) {
    b.sent && CommitLost(Grown(c, b.others), b.queue, b.answer)
  }

  ghost predicate LosesSomewhere(c: Catalog, run: seq<Batch>)
    decreases |run|
  {
    run != [] && (LosesCommit(c, run[0]) || LosesSomewhere(CatalogNext(c, run[0]), run[1..]))
  }

  /** An entry the database does not have, with an id that was given out. */
  ghost predicate Spoiled(cache: map<string, nat>, c: Catalog, l: string) {
    l in cache && cache[l] in c.used && !(l in c.db && c.db[l] == cache[l])
  }

  lemma StepKeepsOk(c: Catalog, b: Batch)
    requires CatalogOk(c)
    ensures CatalogOk(CatalogNext(c, b)) && CatalogOk(Grown(c, b.others))
  {
    hide Learnt;
    var g := Grown(c, b.others);
    forall l | l in g.db ensures g.db[l] in g.used {
      assert l !in c.db ==> b.others[l] in b.others.Values;
    }
  }

  /** What is spoiled stays so: a committed id never changes and a lost one never comes back. */
  lemma StaysSpoiled(c: Catalog, cache: map<string, nat>, b: Batch, l: string)
    requires CanHappen(c, cache, b) && Spoiled(cache, c, l)
    ensures Spoiled(CacheNext(cache, b), CatalogNext(c, b), l)
  {
    hide Learnt;
    assert !Learnt(b.queue, b.answer, l) by { NotLearnt(b.queue, b.answer, l); }
  }

  lemma NotLearnt(queue: seq<string>, answer: string -> Reply, l: string)
    requires l !in queue
    ensures !Learnt(queue, answer, l)
  {
  }

  lemma CacheNextIs(cache: map<string, nat>, b: Batch)
    requires b.sent
    ensures CacheAfter(cache, b.queue, b.answer, CacheNext(cache, b))
  {
    hide Learnt;
    forall l | Learnt(b.queue, b.answer, l)
      ensures l in b.queue && (b.answer(l).Done? || b.answer(l).CommitError?) && IdOf(b.answer(l)) == b.answer(l).id
    {
      LearntQueued(b.queue, b.answer, l);
    }
  }

  lemma StepExactly(c: Catalog, cache: map<string, nat>, b: Batch)
    requires CatalogOk(c) && CacheRight(cache, c) && CanHappen(c, cache, b)
    ensures CacheRight(CacheNext(cache, b), CatalogNext(c, b)) <==> !LosesCommit(c, b)
    ensures LosesCommit(c, b) ==> exists l :: Spoiled(CacheNext(cache, b), CatalogNext(c, b), l)
  {
    hide Learnt, CommitLost, Committed, CacheAfter;
    var g := Grown(c, b.others);
    assert CacheRight(cache, g);
    if b.sent {
      CacheNextIs(cache, b);
      BatchKeepsCache(g, cache, b.queue, b.answer, CacheNext(cache, b));
      if CommitLost(g, b.queue, b.answer) {
        var l := LostIsSpoiled(g, cache, b);
      }
    }
  }

  lemma LostIsSpoiled(g: Catalog, cache: map<string, nat>, b: Batch) returns (l: string)
    requires b.sent && CommitLost(g, b.queue, b.answer)
    ensures Spoiled(CacheNext(cache, b), Committed(g, b.queue, b.answer), l)
  {
    l :| Learnt(b.queue, b.answer, l) && !Persists(b.answer(l)) && l !in g.db;
    hide Learnt;
    LearntQueued(b.queue, b.answer, l);
  }

  lemma {:induction false} SpoiledForGood(c: Catalog, cache: map<string, nat>, run: seq<Batch>, l: string)
    requires IsRun(c, cache, run) && Spoiled(cache, c, l)
    ensures Spoiled(RunCache(cache, run), RunCatalog(c, run), l)
    decreases |run|
  {
    if run != [] {
      hide Spoiled, CanHappen, CacheNext, CatalogNext;
      StaysSpoiled(c, cache, run[0], l);
      SpoiledForGood(CatalogNext(c, run[0]), CacheNext(cache, run[0]), run[1..], l);
    }
  }

  /** Over any number of batches, with other writers in between, the cache is what the
      database has committed if and only if no batch lost the commit of a new series. */
  lemma {:induction false} CacheWithinDatabase(c: Catalog, cache: map<string, nat>, run: seq<Batch>)
    requires CatalogOk(c) && CacheRight(cache, c) && IsRun(c, cache, run)
    ensures CacheRight(RunCache(cache, run), RunCatalog(c, run)) <==> !LosesSomewhere(c, run)
    decreases |run|
  {
    if run != [] {
      hide CanHappen, CacheNext, CatalogNext, LosesCommit, CatalogOk;
      var c', cache' := CatalogNext(c, run[0]), CacheNext(cache, run[0]);
      StepKeepsOk(c, run[0]);
      StepExactly(c, cache, run[0]);
      if LosesCommit(c, run[0]) {
        var l :| Spoiled(cache', c', l);
        SpoiledForGood(c', cache', run[1..], l);
      } else {
        CacheWithinDatabase(c', cache', run[1..]);
      }
    }
  }

  lemma SameCache(cache: map<string, nat>, b: Batch, after: map<string, nat>)
    requires b.sent && CacheAfter(cache, b.queue, b.answer, after)
    ensures after == CacheNext(cache, b)
  {
    hide Learnt;
    CacheNextIs(cache, b);
  }

  /** The handler's own batches are of this kind, and one that succeeds gives every
      sample set the committed id. */
  method HandleBatch(handler: InsertHandler, infos: seq<SampleRows.SamplesInfo>, sendOk: bool, answer: string -> Reply,
                     ghost c: Catalog, ghost others: map<string, nat>)
      returns (after: seq<SampleRows.SamplesInfo>, ok: bool, ghost b: Batch)
    requires (forall l :: l in others && l !in c.db ==> others[l] !in c.used) && Honest(answer, Grown(c, others))
    modifies handler
    ensures b.others == others && b.answer == answer && b.sent == sendOk
    ensures CanHappen(c, old(handler.seriesCache), b) && handler.seriesCache == CacheNext(old(handler.seriesCache), b)
    ensures ok && CacheRight(old(handler.seriesCache), c) && IdsRight(infos, c) ==> AllCommitted(infos, after, CatalogNext(c, b))
  {
    hide Learnt, Committed, StrictlyAscending, CacheAfter;
    ghost var cache := handler.seriesCache;
    var queue;
    after, ok, queue := handler.SetSeriesIds(infos, sendOk, answer);
    b := Batch(others, queue, answer, sendOk);
    if sendOk {
      SameCache(cache, b, handler.seriesCache);
    }
    if ok && CacheRight(cache, c) && IdsRight(infos, c) {
      var g := Grown(c, others);
      assert CacheRight(cache, g) && IdsRight(infos, g);
      LearntIds(queue, answer);
      BatchIdsRight(g, cache, infos, queue, answer, after);
    }
  }

  lemma LearntIds(queue: seq<string>, answer: string -> Reply)
    ensures forall l :: Learnt(queue, answer, l) ==> (answer(l).Done? || answer(l).CommitError?) && IdOf(answer(l)) == answer(l).id
  {
    hide Learnt;
    forall l | Learnt(queue, answer, l)
      ensures (answer(l).Done? || answer(l).CommitError?) && IdOf(answer(l)) == answer(l).id
    {
      LearntQueued(queue, answer, l);
    }
  }

  // ----- a lost commit -----

  function LostReply(l: string): Reply {
    CommitError(7, false)
  }

  function NoReply(l: string): Reply {
    BeginError
  }

  const EMPTY := Catalog(map[], {})
  const LOST_BATCH := Batch(map[], ["a"], LostReply, true)
  const AFTER_LOSS := Catalog(map[], {7})
  const IDLE_BATCH := Batch(map["a" := 8], [], NoReply, true)

  lemma LostStep()
    ensures CanHappen(EMPTY, map[], LOST_BATCH) && LosesCommit(EMPTY, LOST_BATCH)
    ensures CatalogNext(EMPTY, LOST_BATCH) == AFTER_LOSS && CacheNext(map[], LOST_BATCH) == map["a" := 7]
  {
    assert ["a"][0] == "a";
    assert Learnt(["a"], LostReply, "a");
    forall l | l != "a" ensures !Learnt(["a"], LostReply, l) {
      NotLearnt(["a"], LostReply, l);
    }
    hide Learnt;
    assert Grown(EMPTY, map[]) == EMPTY;
    var c := Committed(EMPTY, ["a"], LostReply);
    assert c.db == map[];
    assert c.used == {7} by {
      assert "a" in ["a"] && IdOf(LostReply("a")) == 7;
    }
    assert CacheNext(map[], LOST_BATCH) == map["a" := 7];
  }

  lemma IdleStep()
    ensures CanHappen(AFTER_LOSS, map["a" := 7], IDLE_BATCH)
    ensures CatalogNext(AFTER_LOSS, IDLE_BATCH).db == map["a" := 8] && CacheNext(map["a" := 7], IDLE_BATCH) == map["a" := 7]
  {
    forall l ensures !Learnt([], NoReply, l) {
      NotLearnt([], NoReply, l);
    }
    hide Learnt;
    var g := Grown(AFTER_LOSS, map["a" := 8]);
    assert g.db == map["a" := 8];
    assert 8 in map["a" := 8].Values by { assert map["a" := 8]["a"] == 8; }
    assert Committed(g, [], NoReply).db == map["a" := 8];
    assert CacheNext(map["a" := 7], IDLE_BATCH) == map["a" := 7];
  }

  /** One call whose commit fails, then another writer creating the series: the
      handler goes on using an id the database does not have. */
  lemma LostCommitMisleads()
    ensures var run := [LOST_BATCH, IDLE_BATCH];
      && IsRun(EMPTY, map[], run)
      && RunCache(map[], run) == map["a" := 7] && RunCatalog(EMPTY, run).db == map["a" := 8]
  {
    LostStep();
    IdleStep();
    hide CanHappen, CatalogNext, CacheNext;
    var run, last := [LOST_BATCH, IDLE_BATCH], [IDLE_BATCH];
    assert run[1..] == last && last[1..] == [];
    assert RunCache(map["a" := 7], last) == CacheNext(map["a" := 7], IDLE_BATCH);
    assert RunCatalog(AFTER_LOSS, last) == CatalogNext(AFTER_LOSS, IDLE_BATCH);
    assert IsRun(AFTER_LOSS, map["a" := 7], last);
  }
}
