/** Anchoring regular expressions for the database. PromQL matches the whole
    value; the database gets the pattern with `^` put in front and `$` behind,
    which in an alternation bind to the first and the last alternative only.
    This is settled here for alternations of plain words. */
module Anchoring {
  import opened Matchers

  /** One alternative: a plain word, possibly with anchors of its own. */
  datatype Branch = Branch(fromStart: bool, word: string, toEnd: bool)

  /** A character that stands for itself in PromQL's and in the database's syntax. */
  predicate Ordinary(c: char) {
    'a' <= c <= 'z' || 'A' <= c <= 'Z' || '0' <= c <= '9' || c == '_'
  }

  predicate Plain(b: Branch) {
    forall i :: 0 <= i < |b.word| ==> Ordinary(b.word[i])
  }

  predicate IsPattern(r: seq<Branch>) {
    r != [] && forall i :: 0 <= i < |r| ==> Plain(r[i])
  }

  // ----- the text of a pattern -----

  function BranchText(b: Branch): string {
    (if b.fromStart then "^" else "") + b.word + (if b.toEnd then "$" else "")
  }

  function Text(r: seq<Branch>): string
    requires r != []
  {
    if |r| == 1 then BranchText(r[0]) else BranchText(r[0]) + "|" + Text(r[1..])
  }

  function Anchored(r: seq<Branch>): (a: seq<Branch>)
    requires r != []
    ensures |a| == |r|
  {
    Closed(r[0 := r[0].(fromStart := true)])
  }

  lemma TextStarts(r: seq<Branch>)
    requires IsPattern(r)
    ensures Text(r) != "" && Text(r)[0] == '^' <==> r[0].fromStart
    ensures Text(r[0 := r[0].(fromStart := true)]) == if r[0].fromStart then Text(r) else "^" + Text(r)
  {
    var b := r[0];
    var bt := BranchText(b);
    assert !b.fromStart && bt != "" ==> bt[0] != '^' by {
      if !b.fromStart && b.word != "" {
        assert bt[0] == b.word[0];
        assert Ordinary(b.word[0]);
      }
    }
    var r' := r[0 := b.(fromStart := true)];
    assert r'[1..] == r[1..];
    assert BranchText(r'[0]) == if b.fromStart then bt else "^" + bt;
    if |r| > 1 {
      assert Text(r) == bt + "|" + Text(r[1..]);
      assert Text(r') == BranchText(r'[0]) + "|" + Text(r[1..]);
    }
  }

  predicate EndsInDollar(s: string) {
    s != "" && s[|s| - 1] == '$'
  }

  lemma BranchEnds(b: Branch)
    requires Plain(b)
    ensures EndsInDollar(BranchText(b)) <==> b.toEnd
    ensures BranchText(b.(toEnd := true)) == if b.toEnd then BranchText(b) else BranchText(b) + "$"
  {
    if !b.toEnd && b.word != "" {
      assert BranchText(b)[|BranchText(b)| - 1] == b.word[|b.word| - 1];
      assert Ordinary(b.word[|b.word| - 1]);
    }
  }

  lemma JoinEnds(a: string, rest: string)
    ensures EndsInDollar(a + "|" + rest) <==> EndsInDollar(rest)
  {
    var t := a + "|" + rest;
    assert t[|t| - 1] == if rest == "" then '|' else rest[|rest| - 1];
  }

  function Closed(r: seq<Branch>): seq<Branch>
    requires r != []
  {
    r[|r| - 1 := r[|r| - 1].(toEnd := true)]
  }

  lemma {:induction false} TextEnds(r: seq<Branch>)
    requires IsPattern(r)
    ensures EndsInDollar(Text(r)) <==> r[|r| - 1].toEnd
    ensures Text(Closed(r)) == if r[|r| - 1].toEnd then Text(r) else Text(r) + "$"
    decreases |r|
  {
    hide BranchText, EndsInDollar;
    if |r| == 1 {
      BranchEnds(r[0]);
    } else {
      TextEnds(r[1..]);
      JoinEnds(BranchText(r[0]), Text(r[1..]));
      assert Closed(r)[1..] == Closed(r[1..]);
      assert Text(Closed(r)) == BranchText(r[0]) + "|" + Text(Closed(r[1..]));
    }
  }

  /** The anchors put around the text go to the first and the last alternative. */
  lemma AnchorText(r: seq<Branch>)
    requires IsPattern(r)
    ensures AnchorValue(Text(r)) == Text(Anchored(r))
  {
    hide Text;
    var first := r[0 := r[0].(fromStart := true)];
    TextStarts(r);
    TextEnds(r);
    TextEnds(first);
    assert first[|r| - 1].toEnd == r[|r| - 1].toEnd;
  }

  // ----- what the two sides match -----

  /** PromQL: some alternative is the whole value. */
  ghost predicate FullMatch(r: seq<Branch>, s: string) {
    exists i :: 0 <= i < |r| && r[i].word == s
  }

  ghost predicate FoundAt(b: Branch, s: string, p: nat) {
    && p + |b.word| <= |s| && s[p..p + |b.word|] == b.word
    && (b.fromStart ==> p == 0) && (b.toEnd ==> p + |b.word| == |s|)
  }

  /** The database: some alternative is found in the value where its anchors allow. */
  ghost predicate Found(r: seq<Branch>, s: string) {
    exists i, p: nat :: 0 <= i < |r| && FoundAt(r[i], s, p)
  }

  /** Every alternative is held at both ends once the pattern is anchored. */
  predicate HeldAtBothEnds(r: seq<Branch>)
    requires r != []
  {
    forall i :: 0 <= i < |r| ==> Anchored(r)[i].fromStart && Anchored(r)[i].toEnd
  }

  function Longest(r: seq<Branch>): (n: nat)
    ensures forall i :: 0 <= i < |r| ==> |r[i].word| <= n
  {
    if r == [] then 0
    else
      var n := Longest(r[..|r| - 1]);
      if n < |r[|r| - 1].word| then |r[|r| - 1].word| else n
  }

  function Filler(n: nat): (s: string)
    ensures |s| == n
  {
    seq(n, _ => 'x')
  }

  /** A word that is loose at one end is found in a value longer than every word. */
  lemma LooseMatchesMore(r: seq<Branch>, i: nat) returns (s: string)
    requires r != [] && i < |r| && !(Anchored(r)[i].fromStart && Anchored(r)[i].toEnd)
    ensures Found(Anchored(r), s) && !FullMatch(r, s)
  {
    var b := Anchored(r)[i];
    var pad := Filler(Longest(r) + 1);
    if !b.toEnd {
      s := b.word + pad;
      assert s[0..|b.word|] == b.word;
      assert FoundAt(b, s, 0);
    } else {
      s := pad + b.word;
      assert s[|pad|..|pad| + |b.word|] == b.word;
      assert FoundAt(b, s, |pad|);
    }
    assert Found(Anchored(r), s);
    forall k | 0 <= k < |r| ensures r[k].word != s {
      assert |r[k].word| <= Longest(r) < |s|;
    }
  }

  lemma HeldMatchesExactly(r: seq<Branch>, s: string)
    requires r != [] && HeldAtBothEnds(r)
    ensures Found(Anchored(r), s) <==> FullMatch(r, s)
  {
    var a := Anchored(r);
    assert forall i :: 0 <= i < |r| ==> a[i].word == r[i].word;
    if FullMatch(r, s) {
      var i :| 0 <= i < |r| && r[i].word == s;
      assert s[0..|s|] == s;
      assert FoundAt(a[i], s, 0);
    }
    if Found(a, s) {
      var i, p: nat :| 0 <= i < |r| && FoundAt(a[i], s, p);
      assert a[i].fromStart && a[i].toEnd;
      assert s == s[p..p + |a[i].word|];
      assert r[i].word == s;
    }
  }

  /** The two regular expression engines, on alternations of plain words. */
  ghost predicate Engines(re: Regex, db: Regex) {
    forall r, s :: IsPattern(r) ==> (re(Text(r), s) <==> FullMatch(r, s)) && (db(Text(r), s) <==> Found(r, s))
  }

  lemma AnchoredIsPattern(r: seq<Branch>)
    requires IsPattern(r)
    ensures IsPattern(Anchored(r))
  {
    forall i | 0 <= i < |r| ensures Plain(Anchored(r)[i]) {
      assert Plain(r[i]) && Anchored(r)[i].word == r[i].word;
    }
  }

  // ----- such engines exist -----

  lemma BranchHasNoBar(b: Branch)
    requires Plain(b)
    ensures forall i :: 0 <= i < |BranchText(b)| ==> BranchText(b)[i] != '|'
  {
    var t := BranchText(b);
    var k := if b.fromStart then 1 else 0;
    forall i | 0 <= i < |t| ensures t[i] != '|' {
      if k <= i < k + |b.word| {
        assert t[i] == b.word[i - k];
        assert Ordinary(b.word[i - k]);
      }
    }
  }

  /** One alternative is read off its text in one way. */
  lemma BranchInjective(a: Branch, b: Branch)
    requires Plain(a) && Plain(b) && BranchText(a) == BranchText(b)
    ensures a == b
  {
    var t := BranchText(a);
    BranchEnds(a);
    BranchEnds(b);
    BranchStarts(a);
    BranchStarts(b);
    var lo, hi := if a.fromStart then 1 else 0, if a.toEnd then |t| - 1 else |t|;
    assert a.word == t[lo..hi];
    assert b.word == BranchText(b)[lo..hi];
  }

  lemma BranchStarts(b: Branch)
    requires Plain(b)
    ensures BranchText(b) != "" && BranchText(b)[0] == '^' <==> b.fromStart
  {
    if !b.fromStart && b.word != "" {
      assert BranchText(b)[0] == b.word[0];
      assert Ordinary(b.word[0]);
    }
  }

  /** The text up to the first bar, where there is one. */
  lemma FirstBar(r: seq<Branch>, n: nat)
    requires IsPattern(r) && n == |BranchText(r[0])|
    ensures |Text(r)| >= n && Text(r)[..n] == BranchText(r[0])
    ensures forall i :: 0 <= i < n ==> Text(r)[i] != '|'
    ensures |r| == 1 <==> |Text(r)| == n
    ensures |r| > 1 ==> Text(r)[n] == '|' && Text(r)[n + 1..] == Text(r[1..])
  {
    BranchHasNoBar(r[0]);
    if |r| > 1 {
      assert Text(r) == BranchText(r[0]) + "|" + Text(r[1..]);
    }
  }

  /** A pattern is read off its text in one way. */
  lemma {:induction false} TextInjective(a: seq<Branch>, b: seq<Branch>)
    requires IsPattern(a) && IsPattern(b) && Text(a) == Text(b)
    ensures a == b
    decreases |a|
  {
    var n, m := |BranchText(a[0])|, |BranchText(b[0])|;
    FirstBar(a, n);
    FirstBar(b, m);
    SameFirstBar(Text(a), n, m, |a| > 1, |b| > 1);
    BranchInjective(a[0], b[0]);
    if |a| > 1 {
      TextInjective(a[1..], b[1..]);
      assert a == [a[0]] + a[1..] && b == [b[0]] + b[1..];
    } else {
      assert a == [a[0]] && b == [b[0]];
    }
  }

  lemma SameFirstBar(t: string, n: nat, m: nat, moreA: bool, moreB: bool)
    requires n <= |t| && m <= |t|
    requires forall i :: 0 <= i < n ==> t[i] != '|'
    requires forall i :: 0 <= i < m ==> t[i] != '|'
    requires if moreA then n < |t| && t[n] == '|' else n == |t|
    requires if moreB then m < |t| && t[m] == '|' else m == |t|
    ensures n == m && moreA == moreB
  {
  }

  /** There are engines of this kind: the hypothesis about them can be met. */
  lemma EnginesExist() returns (re: Regex, db: Regex)
    ensures Engines(re, db)
  {
    ghost var full: Regex := (t, s) => exists r :: IsPattern(r) && Text(r) == t && FullMatch(r, s);
    ghost var part: Regex := (t, s) => exists r :: IsPattern(r) && Text(r) == t && Found(r, s);
    re, db := full, part;
    forall r, s | IsPattern(r) ensures (re(Text(r), s) <==> FullMatch(r, s)) && (db(Text(r), s) <==> Found(r, s)) {
      forall r' | IsPattern(r') && Text(r') == Text(r) ensures r' == r {
        TextInjective(r', r);
      }
    }
  }

  /** The database agrees with PromQL on every value if and only if no alternative
      is left loose: a single one never is, of several each has to anchor itself,
      save the start of the first and the end of the last. */
  lemma AgreesExactlyWhenHeld(r: seq<Branch>, re: Regex, db: Regex)
    requires IsPattern(r) && Engines(re, db)
    ensures Agrees(Text(r), re, db) <==> HeldAtBothEnds(r)
  {
    hide Text, Found, FullMatch;
    AnchorText(r);
    AnchoredIsPattern(r);
    if HeldAtBothEnds(r) {
      forall s ensures db(AnchorValue(Text(r)), s) == re(Text(r), s) {
        HeldMatchesExactly(r, s);
        assert re(Text(r), s) <==> FullMatch(r, s);
        assert db(Text(Anchored(r)), s) <==> Found(Anchored(r), s);
      }
    } else {
      var i :| 0 <= i < |r| && !(Anchored(r)[i].fromStart && Anchored(r)[i].toEnd);
      var s := LooseMatchesMore(r, i);
      assert re(Text(r), s) <==> FullMatch(r, s);
      assert db(Text(Anchored(r)), s) <==> Found(Anchored(r), s);
      assert db(AnchorValue(Text(r)), s) != re(Text(r), s);
    }
  }

  /** `a|b` is one the translation gets wrong: the database also finds it in "ax". */
  lemma TwoWordsAreNot(re: Regex, db: Regex)
    requires Engines(re, db)
    ensures AnchorValue("a|b") == "^a|b$"
    ensures db(AnchorValue("a|b"), "ax") && !re("a|b", "ax")
  {
    var r := [Branch(false, "a", false), Branch(false, "b", false)];
    assert Text(r) == "a|b" by {
      assert r[1..] == [r[1]];
      assert Text(r[1..]) == "b";
    }
    assert IsPattern(r);
    AnchorText(r);
    AnchoredIsPattern(r);
    assert Anchored(r)[0] == Branch(true, "a", false);
    assert "ax"[0..1] == "a";
    assert FoundAt(Anchored(r)[0], "ax", 0);
    assert Found(Anchored(r), "ax");
    assert db(Text(Anchored(r)), "ax");
    assert !FullMatch(r, "ax") by {
      assert |r[0].word| == 1 && |r[1].word| == 1;
    }
    assert re(Text(r), "ax") <==> FullMatch(r, "ax");
  }

  /** A pattern gets a `^` in front and a `$` behind, each only if it is missing. */
  lemma AnchorMeans(p: string)
    ensures var a := AnchorValue(p);
      && a == (if p != "" && p[0] == '^' then "" else "^") + p + (if p != "" && p[|p| - 1] == '$' then "" else "$")
      && a[0] == '^' && a[|a| - 1] == '$'
  {
  }
}
