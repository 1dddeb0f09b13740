/** Looking up labels by id through the label cache. */
module LabelLookup {
  import opened Common

  import opened ClockCache

  datatype Label = Label(name: string, value: string)

  /** One result row of the label query: parallel arrays of ids, names and values. */
  datatype LabelRow = LabelRow(ids: seq<int>, keys: seq<string>, vals: seq<string>)

  /** The label table. */
  type Db = map<int, Label>

  ghost predicate Stored(db: Db, ids: seq<int>) {
    forall i :: 0 <= i < |ids| ==> ids[i] in db
  }

  function LabelsOf(db: Db, ids: seq<int>): (r: seq<Label>)
    requires Stored(db, ids)
    ensures |r| == |ids| && forall i :: 0 <= i < |ids| ==> r[i] == db[ids[i]]
  {
    seq(|ids|, i requires 0 <= i < |ids| => db[ids[i]])
  }

  /** What the cache holds is what the database holds. */
  ghost predicate Agrees(contents: map<int, Label>, db: Db) {
    forall k :: k in contents ==> k in db && contents[k] == db[k]
  }

  predicate Fits(row: LabelRow) {
    |row.ids| == |row.keys| == |row.vals|
  }

  /** A row that, if its arrays fit together, tells what the database holds. */
  ghost predicate TrueRow(db: Db, row: LabelRow) {
    Fits(row) ==> forall i :: 0 <= i < |row.ids| ==> row.ids[i] in db && db[row.ids[i]] == Label(row.keys[i], row.vals[i])
  }

  /** One row that covers exactly the requested ids, in any order. */
  ghost predicate Covers(ids: seq<int>, rows: seq<LabelRow>) {
    |rows| == 1 && Fits(rows[0]) && multiset(rows[0].ids) == multiset(ids)
  }

  function Without<T>(s: seq<T>, j: nat): seq<T>
    requires j < |s|
  {
    s[..j] + s[j + 1..]
  }

  lemma WithoutMultiset<T>(s: seq<T>, j: nat)
    requires j < |s|
    ensures multiset(s) == multiset(Without(s, j)) + multiset{s[j]}
    ensures multiset(Without(s, j)) == multiset(s) - multiset{s[j]}
  {
    assert s == s[..j] + [s[j]] + s[j + 1..];
  }

  lemma LabelsWithout(db: Db, s: seq<int>, j: nat)
    requires Stored(db, s) && j < |s|
    ensures Stored(db, Without(s, j))
    ensures multiset(LabelsOf(db, s)) == multiset(LabelsOf(db, Without(s, j))) + multiset{db[s[j]]}
  {
    WithoutMultiset(LabelsOf(db, s), j);
    assert Without(LabelsOf(db, s), j) == LabelsOf(db, Without(s, j));
  }

  lemma {:induction false} SameIdsSameLabels(db: Db, a: seq<int>, b: seq<int>)
    requires Stored(db, a) && Stored(db, b) && multiset(a) == multiset(b)
    ensures multiset(LabelsOf(db, a)) == multiset(LabelsOf(db, b))
    decreases |a|
  {
    if a == [] {
      assert |multiset(b)| == 0;
      assert b == [];
    } else {
      assert a[0] in multiset(b);
      var j :| 0 <= j < |b| && b[j] == a[0];
      WithoutMultiset(a, 0);
      WithoutMultiset(b, j);
      LabelsWithout(db, a, 0);
      LabelsWithout(db, b, j);
      assert |Without(a, 0)| < |a|;
      hide Without, LabelsOf, Stored;
      SameIdsSameLabels(db, Without(a, 0), Without(b, j));
    }
  }

  /** Labels found for the first `n` ids, followed by those fetched for the others in any order. */
  lemma HitsAndFetches(db: Db, ids: seq<int>, ks: seq<int>, n: nat, fetched: seq<int>, values: seq<Label>)
    requires Stored(db, ids) && multiset(ks) == multiset(ids) && n <= |ks| && multiset(fetched) == multiset(ks[n..])
    requires Stored(db, ks) && Stored(db, fetched)
    requires |values| == n + |fetched|
    requires forall i :: 0 <= i < n ==> values[i] == db[ks[i]]
    requires forall i :: 0 <= i < |fetched| ==> values[n + i] == db[fetched[i]]
    ensures multiset(values) == multiset(LabelsOf(db, ids))
  {
    SameIdsSameLabels(db, ids, ks);
    SameIdsSameLabels(db, fetched, ks[n..]);
    assert values == LabelsOf(db, ks[..n]) + LabelsOf(db, fetched);
    assert LabelsOf(db, ks) == LabelsOf(db, ks[..n]) + LabelsOf(db, ks[n..]);
  }

  lemma SameIdsStored(db: Db, a: seq<int>, b: seq<int>)
    requires Stored(db, a) && multiset(a) == multiset(b)
    ensures Stored(db, b)
  {
    forall i | 0 <= i < |b| ensures b[i] in db {
      assert b[i] in multiset(a);
    }
  }

  /** Writes a row over the keys and labels from `from` on. */
  method StoreRow(misses: array<int>, newLabels: array<Label>, from: nat, row: LabelRow)
    requires Fits(row) && from + |row.ids| <= misses.Length == newLabels.Length
    requires misses as object != newLabels
    modifies misses, newLabels
    ensures forall i :: 0 <= i < from ==> misses[i] == old(misses[i]) && newLabels[i] == old(newLabels[i])
    ensures forall i :: 0 <= i < |row.ids| ==> misses[from + i] == row.ids[i] && newLabels[from + i] == Label(row.keys[i], row.vals[i])
  {
    for i := 0 to |row.ids|
      invariant forall j :: 0 <= j < from ==> misses[j] == old(misses[j]) && newLabels[j] == old(newLabels[j])
      invariant forall j :: 0 <= j < i ==> misses[from + j] == row.ids[j] && newLabels[from + j] == Label(row.keys[j], row.vals[j])
    {
      misses[from + i] := row.ids[i];
      newLabels[from + i] := Label(row.keys[i], row.vals[i]);
    }
  }

  lemma BatchAgrees(was: map<int, Label>, db: Db, keys: seq<int>, given: seq<Label>, k: int, v: Label)
    requires Agrees(was, db) && |keys| == |given| && Sourced(was, keys, given, k, v)
    requires forall i :: 0 <= i < |keys| ==> keys[i] in db && db[keys[i]] == given[i]
    ensures k in db && db[k] == v
  {
  }

  class Querier {
    const labels: Cache<int, Label>

    constructor (capacity: nat)
      ensures fresh(labels) && labels.Valid() && labels.Contents() == map[]
    {
      labels := new Cache(capacity);
    }

    /** Takes one result row: its labels replace the wanted ones and are cached. */
    method TakeRow(misses: array<int>, newLabels: array<Label>, from: nat, row: LabelRow, readers: (nat, nat) -> set<nat>, ghost db: Db)
      requires labels.Valid() && Agrees(labels.Contents(), db) && Fits(row) && TrueRow(db, row)
      requires from + |row.ids| <= misses.Length == newLabels.Length && misses as object != newLabels
      modifies labels, misses, newLabels
      ensures labels.Valid() && Agrees(labels.Contents(), db)
      ensures forall i :: 0 <= i < from ==> newLabels[i] == old(newLabels[i])
      ensures forall i :: 0 <= i < |row.ids| ==> newLabels[from + i] == db[row.ids[i]]
    {
      var to := from + |row.ids|;
      StoreRow(misses, newLabels, from, row);
      ghost var was, ks, given := labels.Contents(), misses[from..to], newLabels[from..to];
      assert forall i :: 0 <= i < |ks| ==> ks[i] == row.ids[i] && given[i] == Label(row.keys[i], row.vals[i]);
      var _ := labels.InsertBatch(misses, newLabels, from, to, readers);
      hide Sourced;
      forall i | 0 <= i < |row.ids| ensures newLabels[from + i] == db[row.ids[i]] {
        assert misses[from + i] == ks[i];
        BatchAgrees(was, db, ks, given, misses[from + i], newLabels[from + i]);
      }
      forall k | k in labels.Contents() ensures k in db && labels.Contents()[k] == db[k] {
        BatchAgrees(was, db, ks, given, k, labels.Contents()[k]);
      }
    }

    /** `fetchMissingLabels` for the keys from position `from` on. */
    method FetchMissingLabels(misses: array<int>, newLabels: array<Label>, from: nat,
                              query: seq<int> -> Option<seq<LabelRow>>, readers: (nat, nat) -> set<nat>, ghost db: Db)
        returns (ok: bool, numNew: nat)
      requires labels.Valid() && Agrees(labels.Contents(), db)
      requires from <= misses.Length == newLabels.Length && misses as object != newLabels
      requires var answer := query(misses[from..]); answer.Some? ==> forall i :: 0 <= i < |answer.value| ==> TrueRow(db, answer.value[i])
      modifies labels, misses, newLabels
      ensures labels.Valid() && Agrees(labels.Contents(), db)
      ensures ok ==> query(old(misses[from..])).Some? && from + numNew <= newLabels.Length
      ensures forall i :: 0 <= i < from ==> newLabels[i] == old(newLabels[i])
      ensures var answer := query(old(misses[from..]));
        answer.Some? && Covers(old(misses[from..]), answer.value) ==>
          && ok && numNew == |answer.value[0].ids| == newLabels.Length - from
          && forall i :: 0 <= i < numNew ==> newLabels[from + i] == db[answer.value[0].ids[i]]
    {
      ghost var asked := misses[from..];
      var answer := query(misses[from..]);
      if answer.None? {
        return false, 0;
      }
      var rows := answer.value;
      var limit := misses.Length - from;
      numNew := 0;
      assert Covers(asked, rows) ==> |rows[0].ids| == |asked| by {
        if Covers(asked, rows) {
          assert |multiset(rows[0].ids)| == |multiset(asked)|;
        }
      }
      for r := 0 to |rows|
        invariant labels.Valid() && Agrees(labels.Contents(), db)
        invariant limit <= misses.Length - from && numNew <= limit && (r == 0 ==> limit == misses.Length - from)
        invariant forall i :: 0 <= i < from ==> newLabels[i] == old(newLabels[i])
        invariant r == 1 ==> Fits(rows[0]) && numNew == |rows[0].ids| && forall i :: 0 <= i < numNew ==> newLabels[from + i] == db[rows[0].ids[i]]
      {
        if |rows[r].ids| != |rows[r].keys| || |rows[r].keys| != |rows[r].vals| || |rows[r].keys| > limit {
          return false, 0;
        }
        numNew := |rows[r].keys|;
        limit := numNew;
        TakeRow(misses, newLabels, from, rows[r], readers, db);
      }
      ok := true;
    }

    /** Asks the cache first: `ks` are the ids with those found in front, and their labels are in place. */
    method CachedLabels(ids: seq<int>, ghost db: Db) returns (keys: array<int>, values: array<Label>, numHits: nat)
      requires labels.Valid() && Agrees(labels.Contents(), db) && Stored(db, ids)
      modifies labels
      ensures labels.Valid() && labels.Contents() == old(labels.Contents())
      ensures fresh(keys) && fresh(values) && keys as object != values
      ensures keys.Length == values.Length == |ids| && numHits <= |ids|
      ensures multiset(keys[..]) == multiset(ids) && Stored(db, keys[..])
      ensures forall i :: 0 <= i < numHits ==> values[i] == db[keys[i]]
      ensures (forall i :: 0 <= i < |ids| ==> ids[i] in labels.Contents()) ==> numHits == |ids|
    {
      hide Cache.Valid, Cache.Contents;
      ghost var cached := labels.Contents();
      assert Agrees(cached, db);
      keys := new int[|ids|](i requires 0 <= i < |ids| => ids[i]);
      values := new Label[|ids|](i => Label("", ""));
      assert keys[..] == ids;
      numHits := labels.GetValues(keys, values);
      SameIdsStored(db, ids, keys[..]);
      forall i | 0 <= i < numHits ensures values[i] == db[keys[i]] {
        var k := keys[i];
        assert k in cached && values[i] == cached[k];
        assert k in db && cached[k] == db[k];
      }
      if numHits < |ids| {
        assert keys[..][numHits] in multiset(keys[..]);
        ghost var i :| 0 <= i < |ids| && ids[i] == keys[numHits];
        assert ids[i] !in cached;
      }
    }

    /** `getLabelsForIds`: whatever the cache holds, as long as it is true, and
        however insertion into it fares, the result is a permutation of the
        labels of the ids; it fails only if labels are missing from the cache and
        the database does not answer. */
    method GetLabelsForIds(ids: seq<int>, query: seq<int> -> Option<seq<LabelRow>>, readers: (nat, nat) -> set<nat>, ghost db: Db)
        returns (r: Option<seq<Label>>)
      requires labels.Valid() && Agrees(labels.Contents(), db) && Stored(db, ids)
      requires forall asked :: query(asked).Some? ==> Covers(asked, query(asked).value) && TrueRow(db, query(asked).value[0])
      modifies labels
      ensures labels.Valid() && Agrees(labels.Contents(), db)
      ensures r.Some? ==> multiset(r.value) == multiset(LabelsOf(db, ids))
      ensures (forall i :: 0 <= i < |ids| ==> ids[i] in old(labels.Contents())) ==> r.Some?
      ensures (forall asked :: query(asked).Some?) ==> r.Some?
    {
      hide Cache.Valid, Cache.Contents;
      var keys, values, numHits := CachedLabels(ids, db);
      ghost var ks := keys[..];
      if numHits == |ids| {
        assert ks[numHits..] == [];
        HitsAndFetches(db, ids, ks, numHits, [], values[..]);
        return Some(values[..]);
      }
      ghost var asked := ks[numHits..];
      assert asked == keys[numHits..];
      assert query(asked).Some? ==> Covers(asked, query(asked).value);
      var ok, numFetches := FetchMissingLabels(keys, values, numHits, query, readers, db);
      if !ok {
        return None;
      }
      ghost var fetched := query(asked).value[0].ids;
      SameIdsStored(db, asked, fetched);
      HitsAndFetches(db, ids, ks, numHits, fetched, values[..numHits + numFetches]);
      r := Some(values[..numHits + numFetches]);
    }
  }
}
