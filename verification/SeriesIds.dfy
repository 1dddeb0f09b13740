/** Giving the sample sets of a batch their series ids: from the handler's cache,
    and from the database for label sets it does not know. */
module SeriesIds {
  import opened Sorting
  import opened SampleRows

  /** The answer to one queued call: the transaction could not begin, the call
      failed, the commit failed, before or after it was applied, or all went well. */
  datatype Reply = BeginError | CallError | CommitError(id: nat, applied: bool) | Done(id: nat)

  /** How many queued calls are answered with success before the first failure. */
  function Successes(queue: seq<string>, answer: string -> Reply): (p: nat)
    ensures p <= |queue|
    ensures forall i :: 0 <= i < p ==> answer(queue[i]).Done?
    ensures p < |queue| ==> !answer(queue[p]).Done?
  {
    if queue == [] || !answer(queue[0]).Done? then 0 else 1 + Successes(queue[1..], answer)
  }

  lemma {:induction false} SuccessesAre(queue: seq<string>, answer: string -> Reply, p: nat)
    requires p <= |queue| && (forall i :: 0 <= i < p ==> answer(queue[i]).Done?) && (p < |queue| ==> !answer(queue[p]).Done?)
    ensures Successes(queue, answer) == p
  {
    if p > 0 {
      SuccessesAre(queue[1..], answer, p - 1);
    }
  }

  function LabelAt(infos: seq<SamplesInfo>, i: nat): string {
    if i < |infos| then infos[i].labels else ""
  }

  function ByLabels(infos: seq<SamplesInfo>): (nat, nat) -> bool {
    (i: nat, j: nat) => StringLeq(LabelAt(infos, i), LabelAt(infos, j))
  }

  lemma ByLabelsOrder(infos: seq<SamplesInfo>)
    ensures TotalPreorder(ByLabels(infos))
  {
    var leq := ByLabels(infos);
    forall a, b ensures leq(a, b) || leq(b, a) {
      StringTotal(LabelAt(infos, a), LabelAt(infos, b));
    }
    forall a, b, c | leq(a, b) && leq(b, c) ensures leq(a, c) {
      StringTransitive(LabelAt(infos, a), LabelAt(infos, b), LabelAt(infos, c));
    }
  }

  /** The positions whose series id is not known. */
  method MissingPositions(infos: seq<SamplesInfo>) returns (todo: seq<nat>)
    ensures forall i :: i in todo <==> 0 <= i < |infos| && infos[i].seriesId < 0
  {
    todo := [];
    for i := 0 to |infos|
      invariant forall j :: j in todo <==> 0 <= j < i && infos[j].seriesId < 0
    {
      if infos[i].seriesId < 0 {
        todo := todo + [i];
      }
    }
  }

  /** Every group holds positions with one label set, and the groups' label sets ascend. */
  ghost predicate Grouped(infos: seq<SamplesInfo>, queue: seq<string>, groups: seq<seq<nat>>) {
    && |groups| == |queue|
    && (forall g :: 0 <= g < |groups| ==> groups[g] != [] && forall i :: i in groups[g] ==> LabelAt(infos, i) == queue[g])
    && StrictlyAscending(queue)
  }

  ghost predicate InSome(groups: seq<seq<nat>>, i: nat) {
    exists g :: 0 <= g < |groups| && i in groups[g]
  }

  /** Groups sorted positions by label set: adjacent ones with equal label sets go together. */
  method GroupByLabels(infos: seq<SamplesInfo>, todo: seq<nat>) returns (queue: seq<string>, groups: seq<seq<nat>>)
    requires SortedBy(todo, ByLabels(infos))
    ensures Grouped(infos, queue, groups)
    ensures forall i :: InSome(groups, i) <==> i in todo
    ensures forall l :: l in queue <==> exists i :: i in todo && LabelAt(infos, i) == l
  {
    hide Grouped, InSome, StringLeq;
    queue, groups := [], [];
    NoGroups(infos);
    for k := 0 to |todo|
      invariant Grouped(infos, queue, groups) && |groups| == |queue|
      invariant forall i :: InSome(groups, i) <==> i in todo[..k]
      invariant k > 0 ==> queue != [] && queue[|queue| - 1] == LabelAt(infos, todo[k - 1])
      invariant k == 0 ==> queue == []
    {
      var curr := todo[k];
      ghost var before := groups;
      assert todo[..k + 1] == todo[..k] + [curr];
      if |queue| > 0 && queue[|queue| - 1] == LabelAt(infos, curr) {
        JoinGroup(infos, queue, groups, curr);
        groups := groups[|groups| - 1 := groups[|groups| - 1] + [curr]];
        Extended(before, groups, |groups| - 1, curr);
      } else {
        if k > 0 {
          assert ByLabels(infos)(todo[k - 1], todo[k]);
        }
        NewGroup(infos, queue, groups, curr);
        queue := queue + [LabelAt(infos, curr)];
        groups := groups + [[curr]];
        Appended(before, curr);
      }
    }
    assert todo[..|todo|] == todo;
    forall l ensures l in queue <==> exists i :: i in todo && LabelAt(infos, i) == l {
      QueueMembers(infos, queue, groups, todo, l);
    }
  }

  lemma NoGroups(infos: seq<SamplesInfo>)
    ensures Grouped(infos, [], []) && forall i :: !InSome([], i)
  {
  }

  lemma JoinGroup(infos: seq<SamplesInfo>, queue: seq<string>, groups: seq<seq<nat>>, x: nat)
    requires Grouped(infos, queue, groups) && queue != [] && queue[|queue| - 1] == LabelAt(infos, x)
    ensures |groups| == |queue| && Grouped(infos, queue, groups[|groups| - 1 := groups[|groups| - 1] + [x]])
  {
    hide StrictlyAscending;
  }

  lemma NewGroup(infos: seq<SamplesInfo>, queue: seq<string>, groups: seq<seq<nat>>, x: nat)
    requires Grouped(infos, queue, groups)
    requires queue != [] ==> StringLeq(queue[|queue| - 1], LabelAt(infos, x)) && queue[|queue| - 1] != LabelAt(infos, x)
    ensures Grouped(infos, queue + [LabelAt(infos, x)], groups + [[x]])
  {
    hide StringLeq;
    forall g | 0 <= g < |queue| ensures StringLeq(queue[g], LabelAt(infos, x)) && queue[g] != LabelAt(infos, x) {
      Later(queue, g, LabelAt(infos, x));
    }
  }

  lemma QueueMembers(infos: seq<SamplesInfo>, queue: seq<string>, groups: seq<seq<nat>>, todo: seq<nat>, l: string)
    requires Grouped(infos, queue, groups) && forall i :: InSome(groups, i) <==> i in todo
    ensures l in queue <==> exists i :: i in todo && LabelAt(infos, i) == l
  {
    if l in queue {
      var g :| 0 <= g < |queue| && queue[g] == l;
      var i := groups[g][0];
      assert i in groups[g];
      assert InSome(groups, i);
    }
    if i :| i in todo && LabelAt(infos, i) == l {
      assert InSome(groups, i);
      var g :| 0 <= g < |groups| && i in groups[g];
      assert queue[g] in queue;
    }
  }

  lemma Later(queue: seq<string>, g: nat, l: string)
    requires g < |queue| && StringLeq(queue[|queue| - 1], l) && queue[|queue| - 1] != l
    requires StrictlyAscending(queue)
    ensures StringLeq(queue[g], l) && queue[g] != l
  {
    if g < |queue| - 1 {
      StringTransitive(queue[g], queue[|queue| - 1], l);
      StringTotal(queue[g], queue[|queue| - 1]);
    }
  }

  lemma Extended(before: seq<seq<nat>>, after: seq<seq<nat>>, g: nat, x: nat)
    requires g < |before| && after == before[g := before[g] + [x]]
    ensures forall i :: InSome(after, i) <==> InSome(before, i) || i == x
  {
    forall i ensures InSome(after, i) <==> InSome(before, i) || i == x {
      if InSome(before, i) {
        var h :| 0 <= h < |before| && i in before[h];
        assert i in after[h];
      }
      if i == x {
        assert i in after[g];
      }
    }
  }

  lemma Appended(before: seq<seq<nat>>, x: nat)
    ensures forall i :: InSome(before + [[x]], i) <==> InSome(before, i) || i == x
  {
    var after := before + [[x]];
    forall i ensures InSome(after, i) <==> InSome(before, i) || i == x {
      if InSome(before, i) {
        var h :| 0 <= h < |before| && i in before[h];
        assert i in after[h];
      }
      if i == x {
        assert i in after[|before|];
      }
    }
  }

  /** The id a sample set has after the cache was consulted. */
  function Known(info: SamplesInfo, cache: map<string, nat>): int {
    if info.seriesId > -1 then info.seriesId
    else if info.labels in cache then cache[info.labels]
    else info.seriesId
  }

  /** The label sets that have to be asked of the database. */
  ghost predicate Asked(infos: seq<SamplesInfo>, cache: map<string, nat>, l: string) {
    exists i :: 0 <= i < |infos| && infos[i].labels == l && Known(infos[i], cache) < 0
  }

  /** Only series ids differ. */
  ghost predicate SameSets(infos: seq<SamplesInfo>, after: seq<SamplesInfo>) {
    |after| == |infos| && forall i :: 0 <= i < |infos| ==> after[i] == infos[i].(seriesId := after[i].seriesId)
  }

  ghost predicate StrictlyAscending(queue: seq<string>) {
    forall g, h :: 0 <= g < h < |queue| ==> StringLeq(queue[g], queue[h]) && queue[g] != queue[h]
  }

  /** The label sets the handler learns an id of: those committed before the first
      failure, and the one at which the commit failed. */
  ghost predicate Learnt(queue: seq<string>, answer: string -> Reply, l: string) {
    exists i :: 0 <= i < |queue| && queue[i] == l && i <= Successes(queue, answer) && (answer(l).Done? || answer(l).CommitError?)
  }

  /** The cache after a batch: it is written before the commit is known to have worked. */
  ghost predicate CacheAfter(cache: map<string, nat>, queue: seq<string>, answer: string -> Reply, after: map<string, nat>) {
    && (forall l :: l in after <==> l in cache || Learnt(queue, answer, l))
    && (forall l :: l in after ==> after[l] == if Learnt(queue, answer, l) then answer(l).id else cache[l])
  }

  class InsertHandler {
    var seriesCache: map<string, nat>

    /** Takes ids from the cache and counts the sample sets still without one. */
    method FillKnownSeriesIds(infos: seq<SamplesInfo>) returns (after: seq<SamplesInfo>, missing: nat)
      ensures SameSets(infos, after)
      ensures forall i :: 0 <= i < |infos| ==> after[i].seriesId == Known(infos[i], seriesCache)
      ensures missing == 0 <==> forall i :: 0 <= i < |infos| ==> infos[i].seriesId > -1 || infos[i].labels in seriesCache
    {
      after, missing := infos, 0;
      for i := 0 to |infos|
        invariant SameSets(infos, after)
        invariant forall j :: i <= j < |infos| ==> after[j] == infos[j]
        invariant forall j :: 0 <= j < i ==> after[j].seriesId == Known(infos[j], seriesCache)
        invariant missing == 0 <==> forall j :: 0 <= j < i ==> infos[j].seriesId > -1 || infos[j].labels in seriesCache
      {
        if infos[i].seriesId < 0 {
          if infos[i].labels in seriesCache {
            after := after[i := infos[i].(seriesId := seriesCache[infos[i].labels])];
          } else {
            missing := missing + 1;
          }
        }
      }
    }

    /** Gives every sample set of one group the id the database returned. */
    static method Assign(infos: seq<SamplesInfo>, group: seq<nat>, id: nat) returns (after: seq<SamplesInfo>)
      requires forall i :: i in group ==> i < |infos|
      ensures SameSets(infos, after)
      ensures forall i :: 0 <= i < |infos| ==> after[i].seriesId == if i in group then id else infos[i].seriesId
    {
      after := infos;
      for k := 0 to |group|
        invariant SameSets(infos, after)
        invariant forall i :: 0 <= i < |infos| ==> after[i].seriesId == if i in group[..k] then id else infos[i].seriesId
      {
        assert group[..k + 1] == group[..k] + [group[k]];
        assert group[k] in group;
        after := after[group[k] := after[group[k]].(seriesId := id)];
      }
      assert group[..|group|] == group;
    }

    /** Reads the replies in order; stops at the first failure. */
    method ReadReplies(infos: seq<SamplesInfo>, queue: seq<string>, groups: seq<seq<nat>>, answer: string -> Reply)
      returns (after: seq<SamplesInfo>, ok: bool)
      requires Grouped(infos, queue, groups) && forall i: nat :: InSome(groups, i) ==> i < |infos|
      modifies this
      ensures SameSets(infos, after) && CacheAfter(old(seriesCache), queue, answer, seriesCache)
      ensures ok <==> Successes(queue, answer) == |queue|
      ensures forall i :: 0 <= i < |infos| ==>
        after[i].seriesId == if InSome(groups, i) && Learnt(queue, answer, infos[i].labels) then answer(infos[i].labels).id else infos[i].seriesId
    {
      hide Grouped, Successes, Learnt, InSome, SameSets, Given, CachedUpTo, CacheAfter;
      after := infos;
      ghost var cache := seriesCache;
      assert SameSets(infos, infos) by { SameSetsSelf(infos); }
      NothingGiven(infos, groups[..0], answer);
      NothingCached(cache, queue[..0], answer);
      GroupedFacts(infos, queue, groups);
      for g := 0 to |queue|
        invariant SameSets(infos, after) && |after| == |infos|
        invariant forall i :: 0 <= i < g ==> answer(queue[i]).Done?
        invariant Given(infos, after, groups[..g], answer)
        invariant CachedUpTo(cache, queue[..g], answer, seriesCache)
      {
        var reply := answer(queue[g]);
        if reply.BeginError? || reply.CallError? {
          SuccessesAre(queue, answer, g);
          Stopped(infos, after, queue, groups, answer, g, cache, seriesCache);
          return after, false;
        }
        forall i | i in groups[g] ensures i < |infos| { InSomeHas(groups, g, i); }
        CachedNext(cache, queue, g, answer, seriesCache);
        seriesCache := seriesCache[queue[g] := reply.id];
        var next := Assign(after, groups[g], reply.id);
        GroupAssigned(infos, after, next, queue, groups, g, answer);
        after := next;
        if reply.CommitError? {
          SuccessesAre(queue, answer, g);
          Stopped(infos, after, queue, groups, answer, g, cache, seriesCache);
          return after, false;
        }
      }
      SuccessesAre(queue, answer, |queue|);
      Stopped(infos, after, queue, groups, answer, |queue|, cache, seriesCache);
      ok := true;
    }

    /** Looks up or creates the series ids of a batch. Each label set not known is
        asked for once; a sample set gets the id known for it or the one replied. */
    method SetSeriesIds(infos: seq<SamplesInfo>, sendOk: bool, answer: string -> Reply)
      returns (after: seq<SamplesInfo>, ok: bool, queue: seq<string>)
      modifies this
      ensures SameSets(infos, after)
      ensures StrictlyAscending(queue) && forall l :: l in queue <==> Asked(infos, old(seriesCache), l)
      // an id that was there stays, and one in the cache is taken
      ensures forall i :: 0 <= i < |infos| && infos[i].seriesId >= 0 ==> after[i].seriesId == infos[i].seriesId
      ensures forall i :: 0 <= i < |infos| && infos[i].seriesId < 0 && infos[i].labels in old(seriesCache) ==>
        after[i].seriesId == old(seriesCache)[infos[i].labels]
      ensures ok <==> queue == [] || (sendOk && forall l :: l in queue ==> answer(l).Done?)
      ensures if sendOk then CacheAfter(old(seriesCache), queue, answer, seriesCache) else seriesCache == old(seriesCache)
      ensures forall i :: 0 <= i < |infos| ==>
        var known := Known(infos[i], old(seriesCache));
        after[i].seriesId == if known < 0 && sendOk && Learnt(queue, answer, infos[i].labels) then answer(infos[i].labels).id else known
    {
      hide Learnt, Grouped, InSome;
      ghost var before := seriesCache;
      var known, missing := FillKnownSeriesIds(infos);
      if missing == 0 {
        NothingAsked(infos, before, answer);
        return known, true, [];
      }
      var todo := MissingPositions(known);
      ByLabelsOrder(known);
      SortSorted(todo, ByLabels(known));
      var sorted := Sort(todo, ByLabels(known));
      SameMembers(todo, sorted);
      var groups;
      queue, groups := GroupByLabels(known, sorted);
      GroupedFacts(known, queue, groups);
      AskedAre(infos, known, before, todo, queue);
      SomeAsked(infos, before, queue);
      if !sendOk {
        return known, false, queue;
      }
      after, ok := ReadReplies(known, queue, groups, answer);
      AllDone(queue, answer);
    }
  }

  lemma NothingAsked(infos: seq<SamplesInfo>, cache: map<string, nat>, answer: string -> Reply)
    requires forall i :: 0 <= i < |infos| ==> infos[i].seriesId > -1 || infos[i].labels in cache
    ensures forall l :: !Asked(infos, cache, l) && !Learnt([], answer, l)
    ensures CacheAfter(cache, [], answer, cache)
  {
  }

  lemma SomeAsked(infos: seq<SamplesInfo>, cache: map<string, nat>, queue: seq<string>)
    requires exists i :: 0 <= i < |infos| && !(infos[i].seriesId > -1 || infos[i].labels in cache)
    requires forall l :: l in queue <==> Asked(infos, cache, l)
    ensures queue != []
  {
    var i :| 0 <= i < |infos| && !(infos[i].seriesId > -1 || infos[i].labels in cache);
    assert Asked(infos, cache, infos[i].labels);
  }

  lemma AllDone(queue: seq<string>, answer: string -> Reply)
    ensures Successes(queue, answer) == |queue| <==> forall l :: l in queue ==> answer(l).Done?
  {
    var p := Successes(queue, answer);
    if p < |queue| {
      assert queue[p] in queue;
    }
  }

  lemma AskedAre(infos: seq<SamplesInfo>, known: seq<SamplesInfo>, cache: map<string, nat>, todo: seq<nat>, queue: seq<string>)
    requires SameSets(infos, known) && forall i :: 0 <= i < |infos| ==> known[i].seriesId == Known(infos[i], cache)
    requires forall i :: i in todo <==> 0 <= i < |known| && known[i].seriesId < 0
    requires forall l :: l in queue <==> exists i :: i in todo && LabelAt(known, i) == l
    ensures forall l :: l in queue <==> Asked(infos, cache, l)
  {
    forall l ensures l in queue <==> Asked(infos, cache, l) {
      if l in queue {
        var i :| i in todo && LabelAt(known, i) == l;
        assert infos[i].labels == l;
      }
      if Asked(infos, cache, l) {
        var i :| 0 <= i < |infos| && infos[i].labels == l && Known(infos[i], cache) < 0;
        assert i in todo && LabelAt(known, i) == l;
      }
    }
  }

  lemma SameSetsSelf(infos: seq<SamplesInfo>)
    ensures SameSets(infos, infos)
  {
  }

  lemma InSomeHas(groups: seq<seq<nat>>, g: nat, i: nat)
    requires g < |groups| && i in groups[g]
    ensures InSome(groups, i)
  {
  }

  lemma GroupedFacts(infos: seq<SamplesInfo>, queue: seq<string>, groups: seq<seq<nat>>)
    requires Grouped(infos, queue, groups)
    ensures |groups| == |queue| && StrictlyAscending(queue)
  {
  }

  /** The sample sets of these groups have the ids replied for them, the others what they had. */
  ghost predicate Given(infos: seq<SamplesInfo>, after: seq<SamplesInfo>, groups: seq<seq<nat>>, answer: string -> Reply)
    requires |after| == |infos|
  {
    forall i :: 0 <= i < |infos| ==> after[i].seriesId == if InSome(groups, i) then IdOf(answer(infos[i].labels)) else infos[i].seriesId
  }

  function IdOf(reply: Reply): nat {
    match reply
    case CommitError(id, _) => id
    case Done(id) => id
    case _ => 0
  }

  ghost predicate CachedUpTo(cache: map<string, nat>, queue: seq<string>, answer: string -> Reply, after: map<string, nat>) {
    && (forall l :: l in after <==> l in cache || l in queue)
    && (forall l :: l in after ==> after[l] == if l in queue then IdOf(answer(l)) else cache[l])
  }

  lemma NothingCached(cache: map<string, nat>, queue: seq<string>, answer: string -> Reply)
    requires queue == []
    ensures CachedUpTo(cache, queue, answer, cache)
  {
  }

  lemma CachedNext(cache: map<string, nat>, queue: seq<string>, g: nat, answer: string -> Reply, now: map<string, nat>)
    requires g < |queue| && CachedUpTo(cache, queue[..g], answer, now)
    ensures CachedUpTo(cache, queue[..g + 1], answer, now[queue[g] := IdOf(answer(queue[g]))])
  {
    assert queue[..g + 1] == queue[..g] + [queue[g]];
  }

  lemma NothingGiven(infos: seq<SamplesInfo>, groups: seq<seq<nat>>, answer: string -> Reply)
    requires groups == []
    ensures Given(infos, infos, groups, answer)
  {
  }

  /** Giving one more group its id. */
  lemma GroupAssigned(infos: seq<SamplesInfo>, after: seq<SamplesInfo>, next: seq<SamplesInfo>, queue: seq<string>,
                      groups: seq<seq<nat>>, g: nat, answer: string -> Reply)
    requires Grouped(infos, queue, groups) && g < |groups| && SameSets(infos, after) && SameSets(after, next)
    requires Given(infos, after, groups[..g], answer)
    requires forall i :: 0 <= i < |after| ==> next[i].seriesId == if i in groups[g] then IdOf(answer(queue[g])) else after[i].seriesId
    ensures SameSets(infos, next) && Given(infos, next, groups[..g + 1], answer)
  {
    hide StrictlyAscending, IdOf;
    forall i | 0 <= i < |infos| && i in groups[g] ensures infos[i].labels == queue[g] {
      assert LabelAt(infos, i) == queue[g];
    }
    InSomeNext(groups, g);
  }

  lemma LearntAre(queue: seq<string>, answer: string -> Reply, p: nat)
    requires StrictlyAscending(queue) && p == Successes(queue, answer)
    ensures forall l :: Learnt(queue, answer, l) <==>
              l in queue[..if p < |queue| && answer(queue[p]).CommitError? then p + 1 else p]
  {
    hide StrictlyAscending, Successes;
    var n := if p < |queue| && answer(queue[p]).CommitError? then p + 1 else p;
    forall l ensures Learnt(queue, answer, l) <==> l in queue[..n] {
      if l in queue[..n] {
        var i :| 0 <= i < n && queue[i] == l;
        assert i <= p;
      }
      if Learnt(queue, answer, l) {
        var i :| 0 <= i < |queue| && queue[i] == l && i <= p && (answer(l).Done? || answer(l).CommitError?);
        assert queue[..n][i] == l;
      }
    }
  }

  /** Where reading stopped, exactly the label sets up to there are learnt. */
  lemma Stopped(infos: seq<SamplesInfo>, after: seq<SamplesInfo>, queue: seq<string>, groups: seq<seq<nat>>, answer: string -> Reply, p: nat,
                cache: map<string, nat>, seriesCache: map<string, nat>)
    requires Grouped(infos, queue, groups) && |after| == |infos| && p == Successes(queue, answer)
    requires var n := if p < |queue| && answer(queue[p]).CommitError? then p + 1 else p;
      Given(infos, after, groups[..n], answer) && CachedUpTo(cache, queue[..n], answer, seriesCache)
    ensures CacheAfter(cache, queue, answer, seriesCache)
    ensures forall i :: 0 <= i < |infos| ==>
      after[i].seriesId == if InSome(groups, i) && Learnt(queue, answer, infos[i].labels) then answer(infos[i].labels).id else infos[i].seriesId
  {
    hide Successes, InSome, Learnt;
    LearntAre(queue, answer, p);
    LearntHasId(queue, answer);
    var n := if p < |queue| && answer(queue[p]).CommitError? then p + 1 else p;
    forall i | 0 <= i < |infos| ensures InSome(groups[..n], i) <==> InSome(groups, i) && infos[i].labels in queue[..n] {
      GroupOfLabel(infos, queue, groups, n, i);
    }
  }

  lemma LearntHasId(queue: seq<string>, answer: string -> Reply)
    ensures forall l :: Learnt(queue, answer, l) ==> (answer(l).Done? || answer(l).CommitError?) && IdOf(answer(l)) == answer(l).id
  {
  }

  lemma GroupOfLabel(infos: seq<SamplesInfo>, queue: seq<string>, groups: seq<seq<nat>>, n: nat, i: nat)
    requires Grouped(infos, queue, groups) && n <= |groups| && i < |infos|
    ensures InSome(groups[..n], i) <==> InSome(groups, i) && infos[i].labels in queue[..n]
  {
    if InSome(groups[..n], i) {
      var g :| 0 <= g < n && i in groups[..n][g];
      assert i in groups[g];
      assert LabelAt(infos, i) == queue[g] == queue[..n][g];
    }
    if InSome(groups, i) && infos[i].labels in queue[..n] {
      var g :| 0 <= g < |groups| && i in groups[g];
      var h :| 0 <= h < n && queue[h] == infos[i].labels;
      assert LabelAt(infos, i) == queue[g];
      assert g == h;
      assert i in groups[..n][g];
    }
  }

  lemma InSomeNext(groups: seq<seq<nat>>, g: nat)
    requires g < |groups|
    ensures forall i :: InSome(groups[..g + 1], i) <==> InSome(groups[..g], i) || i in groups[g]
  {
    forall i ensures InSome(groups[..g + 1], i) <==> InSome(groups[..g], i) || i in groups[g] {
      if InSome(groups[..g], i) {
        var h :| 0 <= h < g && i in groups[h];
        assert i in groups[..g + 1][h];
      }
      if i in groups[g] {
        assert i in groups[..g + 1][g];
      }
      if InSome(groups[..g + 1], i) {
        var h :| 0 <= h < g + 1 && i in groups[..g + 1][h];
        assert h < g ==> i in groups[..g][h];
      }
    }
  }
}
