/** The CLOCK cache: a bounded map whose elements are kept in a ring of slots
    with "recently used" marks. Slots are identified by their index. */
module ClockCache {
  import opened Common

  datatype Element<K, V> = Element(key: K, value: V, used: bool)

  /** Slots in the order of the two loops of the eviction sweep: those from `start` on, then those before. */
  function SweepAt(start: nat, n: nat, j: nat): (i: nat)
    requires start <= n && j < n
    ensures i < n
  {
    if j < n - start then start + j else j - (n - start)
  }

  /** The position at which the sweep visits a slot. */
  function PositionOf(start: nat, n: nat, i: nat): (j: nat)
    requires start <= n && i < n
    ensures j < n && SweepAt(start, n, j) == i
    ensures forall j' :: 0 <= j' < n && SweepAt(start, n, j') == i ==> j' == j
  {
    if i >= start then i - start else i + (n - start)
  }

  /** The sweep position of the first unmarked slot, or the number of slots if all are marked. */
  function FirstUnmarked<K, V>(s: seq<Element<K, V>>, start: nat, j: nat): (r: nat)
    requires start <= |s| && j <= |s|
    ensures j <= r <= |s|
    ensures r < |s| ==> !s[SweepAt(start, |s|, r)].used
    ensures forall i :: j <= i < r ==> s[SweepAt(start, |s|, i)].used
    decreases |s| - j
  {
    if j == |s| || !s[SweepAt(start, |s|, j)].used then j else FirstUnmarked(s, start, j + 1)
  }

  /** Slots marked by concurrent readers. */
  function MarkAll<K, V>(s: seq<Element<K, V>>, slots: set<nat>): (r: seq<Element<K, V>>)
    ensures |r| == |s|
    ensures forall i :: 0 <= i < |s| ==> r[i] == s[i].(used := s[i].used || i in slots)
  {
    seq(|s|, i requires 0 <= i < |s| => s[i].(used := s[i].used || i in slots))
  }

  datatype Swept<K, V> = Swept(storage: seq<Element<K, V>>, victim: Option<nat>)

  /** The position within a round of visit `t`. */
  function Position(t: nat, n: nat): nat
    requires t < 2 * n
  {
    if t < n then t else t - n
  }

  /** The sweep from visit `t` on, at most twice around: every slot visited loses
      its mark, and the first without one is the victim, given by its position.
      `readers(t)` are the slots that concurrent gets mark before visit `t`. */
  function Sweep<K, V>(s: seq<Element<K, V>>, start: nat, readers: nat -> set<nat>, t: nat): (r: Swept<K, V>)
    requires start <= |s| && t <= 2 * |s|
    ensures |r.storage| == |s| && forall i :: 0 <= i < |s| ==> r.storage[i].key == s[i].key && r.storage[i].value == s[i].value
    ensures r.victim.Some? ==> r.victim.value < |s|
    decreases 2 * |s| - t
  {
    if t == 2 * |s| then Swept(s, None)
    else
      var marked := MarkAll(s, readers(t));
      var slot := SweepAt(start, |s|, Position(t, |s|));
      var cleared := marked[slot := marked[slot].(used := false)];
      if !marked[slot].used then Swept(cleared, Some(Position(t, |s|)))
      else Sweep(cleared, start, readers, t + 1)
  }

  /** A slot found marked again on the second round was marked by a reader in between. */
  ghost predicate Remarked(start: nat, n: nat, readers: nat -> set<nat>, j: nat, from: nat, to: nat)
    requires start <= n && j < n
  {
    exists t :: from <= t <= to && SweepAt(start, n, j) in readers(t)
  }

  /** Giving up takes readers marking every single slot again while the sweep goes around. */
  lemma {:induction false} GivingUpMeansStarved<K, V>(s: seq<Element<K, V>>, start: nat, readers: nat -> set<nat>, t: nat, j: nat)
    requires start <= |s| && t <= 2 * |s| && j < |s|
    requires Sweep(s, start, readers, t).victim.None?
    ensures t <= j ==> Remarked(start, |s|, readers, j, j + 1, |s| + j)
    ensures j < t <= |s| + j && !s[SweepAt(start, |s|, j)].used ==> Remarked(start, |s|, readers, j, t, |s| + j)
    decreases 2 * |s| - t
  {
    if t <= |s| + j {
      var n := |s|;
      var marked := MarkAll(s, readers(t));
      var slot := SweepAt(start, n, Position(t, n));
      var cleared := marked[slot := marked[slot].(used := false)];
      GivingUpMeansStarved(cleared, start, readers, t + 1, j);
      var i := SweepAt(start, n, j);
      assert PositionOf(start, n, i) == j;
      assert PositionOf(start, n, slot) == Position(t, n);
      if j < t && !s[i].used && i !in readers(t) {
        assert !cleared[i].used;
        assert Remarked(start, n, readers, j, t + 1, n + j);
      }
    }
  }

  function Cleared<K, V>(s: seq<Element<K, V>>, slot: nat): (r: seq<Element<K, V>>)
    requires slot < |s|
    ensures |r| == |s|
  {
    s[slot := s[slot].(used := false)]
  }

  /** One visit of a sweep that is left alone. */
  lemma SweepVisit<K, V>(s: seq<Element<K, V>>, start: nat, readers: nat -> set<nat>, t: nat)
    requires start <= |s| && t < 2 * |s| && readers(t) == {}
    ensures var slot := SweepAt(start, |s|, Position(t, |s|));
      && (s[slot].used ==> Sweep(s, start, readers, t) == Sweep(Cleared(s, slot), start, readers, t + 1))
      && (!s[slot].used ==> Sweep(s, start, readers, t) == Swept(Cleared(s, slot), Some(Position(t, |s|))))
  {
    assert MarkAll(s, readers(t)) == s;
    hide SweepAt;
  }

  lemma ClearedElsewhere<K, V>(s: seq<Element<K, V>>, start: nat, t: nat)
    requires start <= |s| && t < |s|
    ensures var c := Cleared(s, SweepAt(start, |s|, t));
      && !c[SweepAt(start, |s|, t)].used
      && forall j :: 0 <= j < |s| && j != t ==> c[SweepAt(start, |s|, j)] == s[SweepAt(start, |s|, j)]
  {
    forall j | 0 <= j < |s| && j != t ensures SweepAt(start, |s|, j) != SweepAt(start, |s|, t) {
    }
  }

  /** Left alone, the sweep takes the first unmarked slot in ring order, or the
      first slot of all if every one is marked, and clears the marks it passes. */
  lemma {:induction false} SweepAlone<K, V>(s: seq<Element<K, V>>, start: nat, readers: nat -> set<nat>, t: nat)
    requires start <= |s| && t <= |s| && |s| > 0
    requires forall u :: readers(u) == {}
    ensures var r, first := Sweep(s, start, readers, t), FirstUnmarked(s, start, t);
      && (first < |s| ==> r.victim == Some(first))
      && (forall j :: t <= j < first ==> !r.storage[SweepAt(start, |s|, j)].used)
      && (first < |s| ==> forall j :: first < j < |s| ==> r.storage[SweepAt(start, |s|, j)] == s[SweepAt(start, |s|, j)])
      && (first == |s| && (t == 0 || !s[SweepAt(start, |s|, 0)].used) ==> r.victim == Some(0))
    decreases |s| - t
  {
    hide Sweep, SweepAt, Cleared;
    SweepVisit(s, start, readers, t);
    if t < |s| {
      ClearedElsewhere(s, start, t);
      var slot := SweepAt(start, |s|, t);
      if s[slot].used {
        var cleared := Cleared(s, slot);
        SweepAlone(cleared, start, readers, t + 1);
        SameFirst(s, cleared, start, t + 1);
        LaterKept(cleared, start, readers, t + 1, t);
      }
    }
  }

  lemma {:induction false} SameFirst<K, V>(a: seq<Element<K, V>>, b: seq<Element<K, V>>, start: nat, j: nat)
    requires |a| == |b| && start <= |a| && j <= |a|
    requires forall i :: j <= i < |a| ==> a[SweepAt(start, |a|, i)] == b[SweepAt(start, |a|, i)]
    ensures FirstUnmarked(a, start, j) == FirstUnmarked(b, start, j)
    decreases |a| - j
  {
    if j < |a| && a[SweepAt(start, |a|, j)].used {
      SameFirst(a, b, start, j + 1);
    }
  }

  /** Left alone, a slot without a mark does not get one. */
  lemma {:induction false} LaterKept<K, V>(s: seq<Element<K, V>>, start: nat, readers: nat -> set<nat>, t: nat, j: nat)
    requires start <= |s| && t <= 2 * |s| && j < |s|
    requires forall u :: readers(u) == {}
    requires !s[SweepAt(start, |s|, j)].used
    ensures !Sweep(s, start, readers, t).storage[SweepAt(start, |s|, j)].used
    decreases 2 * |s| - t
  {
    if t < 2 * |s| {
      var slot := SweepAt(start, |s|, Position(t, |s|));
      assert MarkAll(s, readers(t)) == s;
      if s[slot].used {
        LaterKept(s[slot := s[slot].(used := false)], start, readers, t + 1, j);
      }
    }
  }

  /** Where the sweep hand is left: one past the victim's index within the part of the ring being walked. */
  function HandAfter(start: nat, n: nat, j: nat): (r: nat)
    requires start <= n && j < n
    ensures r <= n
  {
    if j < n - start then j + 1 else SweepAt(start, n, j) + 1
  }

  /** The hand stands right behind the victim exactly when the sweep started at
      slot 0 or the victim was found in the part before its start. */
  lemma HandBehindVictim(start: nat, n: nat, j: nat)
    requires start <= n && j < n
    ensures HandAfter(start, n, j) == SweepAt(start, n, j) + 1 <==> start == 0 || SweepAt(start, n, j) < start
  {
  }

  lemma SweepStep<K, V>(s: seq<Element<K, V>>, start: nat, readers: nat -> set<nat>, t: nat)
    requires start <= |s| && t < 2 * |s|
    ensures var marked, j := MarkAll(s, readers(t)), Position(t, |s|);
      var slot := SweepAt(start, |s|, j);
      Sweep(s, start, readers, t) == if !marked[slot].used then Swept(Cleared(marked, slot), Some(j)) else Sweep(Cleared(marked, slot), start, readers, t + 1)
  {
  }

  lemma SweepEnd<K, V>(s: seq<Element<K, V>>, start: nat, readers: nat -> set<nat>)
    requires start <= |s|
    ensures Sweep(s, start, readers, 2 * |s|) == Swept(s, None)
  {
  }

  /** The two nested loops of the sweep. */
  method RunSweep<K, V>(s: seq<Element<K, V>>, start: nat, readers: nat -> set<nat>) returns (r: Swept<K, V>)
    requires start <= |s|
    ensures r == Sweep(s, start, readers, 0)
  {
    hide Sweep, MarkAll, Cleared;
    var cur, n, t := s, |s|, 0;
    for round := 0 to 2
      invariant |cur| == n && t == (if round == 0 then 0 else if round == 1 then n else 2 * n)
      invariant Sweep(cur, start, readers, t) == Sweep(s, start, readers, 0)
    {
      for j := 0 to n
        invariant |cur| == n && t == (if round == 0 then 0 else n) + j
        invariant Sweep(cur, start, readers, t) == Sweep(s, start, readers, 0)
      {
        var slot := SweepAt(start, n, j);
        SweepStep(cur, start, readers, t);
        cur := MarkAll(cur, readers(t));
        var unused := !cur[slot].used;
        cur := Cleared(cur, slot);
        if unused {
          return Swept(cur, Some(j));
        }
        t := t + 1;
      }
    }
    SweepEnd(cur, start, readers);
    r := Swept(cur, None);
  }

  lemma SwapKeeps<K>(s: seq<K>, i: nat, j: nat)
    requires i < |s| && j < |s|
    ensures multiset(s[i := s[j]][j := s[i]]) == multiset(s)
  {
  }

  class Cache<K(==), V> {
    var elements: map<K, nat>
    var storage: seq<Element<K, V>>
    var capacity: nat
    var next: nat

    /** `elements` and `storage` are in bijection, the size is bounded, and `next` is in bounds. */
    ghost predicate Valid()
      reads this
    {
      && |storage| <= capacity
      && next <= |storage|
      && (forall k :: k in elements ==> elements[k] < |storage| && storage[elements[k]].key == k)
      && (forall i :: 0 <= i < |storage| ==> storage[i].key in elements && elements[storage[i].key] == i)
    }

    /** The map the cache stands for. */
    ghost function Contents(): map<K, V>
      requires Valid()
      reads this
    {
      map k | k in elements :: storage[elements[k]].value
    }

    ghost function Marked(): set<K>
      requires Valid()
      reads this
    {
      set k | k in elements && storage[elements[k]].used
    }

    constructor (max: nat)
      ensures Valid() && Contents() == map[] && capacity == max
    {
      elements, storage, capacity, next := map[], [], max, 0;
    }

    /** Looks a key up and marks it. */
    method Get(key: K) returns (r: Option<V>)
      requires Valid()
      modifies this`storage
      ensures Valid() && Contents() == old(Contents())
      ensures r == if key in Contents() then Some(Contents()[key]) else None
      ensures Marked() == old(Marked()) + if key in Contents() then {key} else {}
    {
      if key !in elements {
        return None;
      }
      var i := elements[key];
      if !storage[i].used {
        storage := storage[i := storage[i].(used := true)];
      }
      r := Some(storage[i].value);
    }

    /** `evict`: the slot to reuse, if the sweep finds one. */
    method Evict(readers: nat -> set<nat>) returns (victim: Option<nat>)
      requires Valid()
      modifies this`storage, this`next
      ensures Valid() && Contents() == old(Contents())
      ensures var swept := Sweep(old(storage), old(next), readers, 0);
        && storage == swept.storage
        && victim == (if swept.victim.Some? then Some(SweepAt(old(next), |storage|, swept.victim.value)) else None)
        && next == (if swept.victim.Some? then HandAfter(old(next), |storage|, swept.victim.value) else old(next))
    {
      var startLoc := next;
      var swept := RunSweep(storage, startLoc, readers);
      hide Sweep;
      storage := swept.storage;
      if swept.victim.None? {
        return None;
      }
      next := HandAfter(startLoc, |storage|, swept.victim.value);
      victim := Some(SweepAt(startLoc, |storage|, swept.victim.value));
    }

    method Append(key: K, value: V)
      requires Valid() && key !in elements && |storage| < capacity
      modifies this`storage, this`elements
      ensures Valid() && Contents() == old(Contents())[key := value] && |storage| == old(|storage|) + 1
    {
      storage := storage + [Element(key, value, false)];
      elements := elements[key := |storage| - 1];
    }

    method Replace(slot: nat, key: K, value: V)
      requires Valid() && key !in elements && slot < |storage|
      modifies this`storage, this`elements
      ensures Valid() && storage == old(storage)[slot := Element(key, value, false)]
      ensures Contents() == (old(Contents()) - {old(storage)[slot].key})[key := value]
    {
      elements := elements - {storage[slot].key};
      storage := storage[slot := Element(key, value, false)];
      elements := elements[key := slot];
    }

    /** Adds a mapping unless the key is there; the value in the cache wins. */
    method Insert(key: K, value: V, readers: nat -> set<nat>) returns (canonical: V, inserted: bool)
      requires Valid()
      modifies this
      ensures Valid() && capacity == old(capacity)
      ensures key in old(Contents()) ==> inserted && canonical == old(Contents())[key] && Contents() == old(Contents())
      ensures key !in old(Contents()) ==> canonical == value
      ensures key !in old(Contents()) && !inserted ==> Contents() == old(Contents())
      ensures key !in old(Contents()) && inserted ==>
        key in Contents() && Contents()[key] == value && forall k :: k in Contents() && k != key ==> k in old(Contents()) && Contents()[k] == old(Contents())[k]
      // something is dropped only when the cache is full, and then one entry
      ensures key !in old(Contents()) && inserted && old(|storage|) < capacity ==> Contents() == old(Contents())[key := value]
      ensures key !in old(Contents()) && inserted && old(|storage|) >= capacity ==>
        exists k :: k in old(Contents()) && Contents() == (old(Contents()) - {k})[key := value]
      ensures (forall t :: readers(t) == {}) ==> (inserted <==> key in old(Contents()) || capacity > 0)
      ensures old(|storage|) < capacity ==> inserted && |storage| <= old(|storage|) + 1
    {
      if key in elements {
        // a mark that is set stays set, one that is not stays off
        return storage[elements[key]].value, true;
      }
      if |storage| >= capacity {
        ghost var before := storage;
        var victim := Evict(readers);
        if (forall t :: readers(t) == {}) && |before| > 0 {
          SweepAlone(before, old(next), readers, 0);
        }
        hide Sweep;
        if victim.None? {
          return value, false;
        }
        assert storage[victim.value].key in old(Contents());
        Replace(victim.value, key, value);
      } else {
        Append(key, value);
      }
      return value, true;
    }

    /** Looks up a batch of keys. The keys are permuted in place: those found
        come first, each with its value, the others after them. */
    method GetValues(keys: array<K>, valuesOut: array<V>) returns (numFound: nat)
      requires Valid() && keys.Length == valuesOut.Length && keys as object != valuesOut
      modifies this`storage, keys, valuesOut
      ensures Valid() && Contents() == old(Contents())
      ensures numFound <= keys.Length && multiset(keys[..]) == old(multiset(keys[..]))
      ensures forall i :: 0 <= i < numFound ==> keys[i] in Contents() && valuesOut[i] == Contents()[keys[i]]
      ensures forall i :: numFound <= i < keys.Length ==> keys[i] !in Contents()
    {
      hide Valid, Contents, Marked;
      var n, idx := keys.Length, 0;
      while idx < n
        invariant 0 <= idx <= n <= keys.Length
        invariant Valid() && Contents() == old(Contents())
        invariant multiset(keys[..]) == old(multiset(keys[..]))
        invariant forall i :: 0 <= i < idx ==> keys[i] in Contents() && valuesOut[i] == Contents()[keys[i]]
        invariant forall i :: n <= i < keys.Length ==> keys[i] !in Contents()
        decreases n - idx
      {
        var r := Get(keys[idx]);
        if r.None? {
          n := n - 1;
          SwapKeeps(keys[..], n, idx);
          keys[n], keys[idx] := keys[idx], keys[n];
        } else {
          valuesOut[idx] := r.value;
          idx := idx + 1;
        }
      }
      numFound := n;
    }

    /** Inserts the batch in positions lo to hi of two arrays, replacing the
        values by those in the cache where a key was there already; stops at the
        first key that finds no room. */
    method InsertBatch(keys: array<K>, values: array<V>, lo: nat, hi: nat, readers: (nat, nat) -> set<nat>) returns (count: nat)
      requires Valid() && lo <= hi <= keys.Length == values.Length && keys as object != values
      modifies this, values
      ensures Valid() && capacity == old(capacity) && count <= hi - lo
      ensures forall i :: 0 <= i < values.Length && !(lo <= i < hi) ==> values[i] == old(values[i])
      ensures forall i :: lo <= i < hi ==> Sourced(old(Contents()), keys[lo..hi], old(values[lo..hi]), keys[i], values[i])
      ensures forall k :: k in Contents() ==> Sourced(old(Contents()), keys[lo..hi], old(values[lo..hi]), k, Contents()[k])
      ensures (forall i, t :: readers(i, t) == {}) && capacity > 0 ==> count == hi - lo
      // the key inserted last is cached, and all of them are if there is room for all
      ensures count > 0 ==> Cached(Contents(), keys[lo + count - 1], values[lo + count - 1])
      ensures old(|storage|) + hi - lo <= capacity ==> count == hi - lo && forall i :: lo <= i < hi ==> Cached(Contents(), keys[i], values[i])
      ensures old(|storage|) + hi - lo <= capacity ==> forall k :: k in old(Contents()) ==> Cached(Contents(), k, old(Contents())[k])
    {
      hide Valid, Contents, Sourced;
      ghost var was, ks, given := Contents(), keys[lo..hi], values[lo..hi];
      forall k | k in was ensures Sourced(was, ks, given, k, was[k]) {
        SourcedBefore(was, ks, given, k);
      }
      forall j | lo <= j < hi ensures Sourced(was, ks, given, keys[j], values[j]) {
        SourcedGiven(was, ks, given, j - lo);
      }
      for i := lo to hi
        invariant Valid() && capacity == old(capacity)
        invariant forall j :: 0 <= j < values.Length && !(lo <= j < hi) ==> values[j] == old(values[j])
        invariant forall j :: lo <= j < hi ==> Sourced(was, ks, given, keys[j], values[j])
        invariant forall k :: k in Contents() ==> Sourced(was, ks, given, k, Contents()[k])
        invariant i > lo ==> Cached(Contents(), keys[i - 1], values[i - 1])
        invariant old(|storage|) + hi - lo <= capacity ==> |storage| <= old(|storage|) + i - lo
        invariant old(|storage|) + hi - lo <= capacity ==> forall j :: lo <= j < i ==> Cached(Contents(), keys[j], values[j])
        invariant old(|storage|) + hi - lo <= capacity ==> forall k :: k in was ==> Cached(Contents(), k, was[k])
      {
        var canonical, inserted := Insert(keys[i], values[i], t => readers(i, t));
        values[i] := canonical;
        if !inserted {
          return i - lo;
        }
      }
      count := hi - lo;
    }

    /** Moves the elements to a larger ring, marks included. */
    method ExpandTo(newMax: nat)
      requires Valid()
      modifies this
      ensures Valid() && Contents() == old(Contents()) && Marked() == old(Marked())
      ensures capacity == if newMax > old(capacity) then newMax else old(capacity)
    {
      if newMax <= capacity {
        return;
      }
      var newStorage: seq<Element<K, V>> := [];
      for i := 0 to |storage|
        invariant newStorage == storage[..i]
      {
        newStorage := newStorage + [Element(storage[i].key, storage[i].value, storage[i].used)];
      }
      assert newStorage == storage;
      var newElements: map<K, nat> := map[];
      for i := 0 to |newStorage|
        invariant forall k :: k in newElements ==> newElements[k] < i && newStorage[newElements[k]].key == k
        invariant forall j :: 0 <= j < i ==> newStorage[j].key in newElements && newElements[newStorage[j].key] == j
      {
        newElements := newElements[newStorage[i].key := i];
      }
      elements, storage, capacity := newElements, newStorage, newMax;
    }
  }

  ghost predicate Cached<K, V>(contents: map<K, V>, k: K, v: V) {
    k in contents && contents[k] == v
  }

  /** A value that a key had in the cache, or was given with in a batch. */
  ghost predicate Sourced<K, V>(was: map<K, V>, keys: seq<K>, given: seq<V>, k: K, v: V)
    requires |keys| == |given|
  {
    (k in was && was[k] == v) || exists j :: 0 <= j < |keys| && keys[j] == k && given[j] == v
  }

  lemma SourcedBefore<K, V>(was: map<K, V>, keys: seq<K>, given: seq<V>, k: K)
    requires |keys| == |given| && k in was
    ensures Sourced(was, keys, given, k, was[k])
  {
  }

  lemma SourcedGiven<K, V>(was: map<K, V>, keys: seq<K>, given: seq<V>, i: nat)
    requires |keys| == |given| && i < |keys|
    ensures Sourced(was, keys, given, keys[i], given[i])
  {
  }
}
