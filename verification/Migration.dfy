/** Schema migration: semantic version precedence, the choice and order of the
    upgrade files, and the version recorded in the database. */
module Migration {
  import opened Common

  import opened Sorting

  // ----- versions, section 11 of Semantic Versioning 2.0.0 -----

  datatype Identifier = Numeric(n: nat) | Alphanumeric(s: string)

  /** Build metadata has no part in the precedence. */
  datatype Version = Version(major: nat, minor: nat, patch: nat, pre: seq<Identifier>, build: string)

  const NO_VERSION := Version(0, 0, 0, [], "")

  predicate IdLeq(a: Identifier, b: Identifier) {
    match (a, b)
    case (Numeric(n), Numeric(m)) => n <= m
    case (Numeric(_), Alphanumeric(_)) => true
    case (Alphanumeric(_), Numeric(_)) => false
    case (Alphanumeric(s), Alphanumeric(t)) => StringLeq(s, t)
  }

  predicate PreLeq(a: seq<Identifier>, b: seq<Identifier>) {
    a == [] || (b != [] && if a[0] == b[0] then PreLeq(a[1..], b[1..]) else IdLeq(a[0], b[0]))
  }

  predicate CoreLess(v: Version, w: Version) {
    v.major < w.major || (v.major == w.major && (v.minor < w.minor || (v.minor == w.minor && v.patch < w.patch)))
  }

  /** `v` does not come after `w`. A pre-release comes before its release. */
  predicate Leq(v: Version, w: Version) {
    CoreLess(v, w) || (!CoreLess(w, v) && (w.pre == [] || (v.pre != [] && PreLeq(v.pre, w.pre))))
  }

  /** Equal precedence. */
  predicate Same(v: Version, w: Version) {
    v.major == w.major && v.minor == w.minor && v.patch == w.patch && v.pre == w.pre
  }

  predicate Less(v: Version, w: Version) {
    Leq(v, w) && !Same(v, w)
  }

  lemma IdOrder(a: Identifier, b: Identifier, c: Identifier)
    ensures IdLeq(a, b) || IdLeq(b, a)
    ensures IdLeq(a, b) && IdLeq(b, a) ==> a == b
    ensures IdLeq(a, b) && IdLeq(b, c) ==> IdLeq(a, c)
  {
    match (a, b, c) {
      case (Alphanumeric(s), Alphanumeric(t), _) =>
        StringTotal(s, t);
        if c.Alphanumeric? && StringLeq(s, t) && StringLeq(t, c.s) {
          StringTransitive(s, t, c.s);
        }
      case _ =>
    }
  }

  lemma {:induction false} PreTotal(a: seq<Identifier>, b: seq<Identifier>)
    ensures PreLeq(a, b) || PreLeq(b, a)
    ensures PreLeq(a, b) && PreLeq(b, a) ==> a == b
  {
    if a != [] && b != [] {
      IdOrder(a[0], b[0], a[0]);
      if a[0] == b[0] {
        PreTotal(a[1..], b[1..]);
        assert a == [a[0]] + a[1..] && b == [b[0]] + b[1..];
      }
    }
  }

  lemma {:induction false} PreTransitive(a: seq<Identifier>, b: seq<Identifier>, c: seq<Identifier>)
    requires PreLeq(a, b) && PreLeq(b, c)
    ensures PreLeq(a, c)
  {
    if a != [] {
      IdOrder(a[0], b[0], c[0]);
      IdOrder(b[0], c[0], b[0]);
      IdOrder(a[0], c[0], b[0]);
      if a[0] == b[0] == c[0] {
        PreTransitive(a[1..], b[1..], c[1..]);
      }
    }
  }

  lemma VersionTotal(v: Version, w: Version)
    ensures Leq(v, w) || Leq(w, v)
    ensures Leq(v, w) && Leq(w, v) <==> Same(v, w)
  {
    PreTotal(v.pre, w.pre);
    PreTotal(v.pre, v.pre);
    PreTotal(w.pre, w.pre);
  }

  lemma VersionTransitive(u: Version, v: Version, w: Version)
    requires Leq(u, v) && Leq(v, w)
    ensures Leq(u, w)
  {
    hide PreLeq;
    if PreLeq(u.pre, v.pre) && PreLeq(v.pre, w.pre) {
      PreTransitive(u.pre, v.pre, w.pre);
    }
  }

  /** Precedence of versions is decided by the comparison with a third one on either side. */
  lemma LessThrough(u: Version, v: Version, w: Version)
    ensures Leq(u, v) && Less(v, w) ==> Less(u, w)
    ensures Less(u, v) && Leq(v, w) ==> Less(u, w)
    ensures !Less(u, v) <==> Leq(v, u)
  {
    hide Leq;
    VersionTotal(u, v);
    VersionTotal(v, w);
    VersionTotal(u, w);
    if Leq(u, v) && Leq(v, w) {
      VersionTransitive(u, v, w);
    }
    if Leq(w, u) && Leq(u, v) {
      VersionTransitive(w, u, v);
    }
    if Leq(v, w) && Leq(w, u) {
      VersionTransitive(v, w, u);
    }
  }

  // ----- precedence said of the parts of a version -----

  /** Numbers by their value and before words, words in the order of their bytes. */
  ghost predicate IdBefore(a: Identifier, b: Identifier) {
    match (a, b)
    case (Numeric(n), Numeric(m)) => n < m
    case (Numeric(_), Alphanumeric(_)) => true
    case (Alphanumeric(_), Numeric(_)) => false
    case (Alphanumeric(s), Alphanumeric(t)) => (s <= t && s != t) || exists k :: 0 <= k < |s| && k < |t| && s[..k] == t[..k] && s[k] < t[k]
  }

  lemma IdMeans(a: Identifier, b: Identifier)
    ensures IdLeq(a, b) && a != b <==> IdBefore(a, b)
  {
    if a.Alphanumeric? && b.Alphanumeric? {
      StringOrder(a.s, b.s);
      if k :| 0 <= k < |a.s| && k < |b.s| && a.s[..k] == b.s[..k] && a.s[k] < b.s[k] {
        assert a.s != b.s;
      }
    }
  }

  /** The first identifier that differs decides; if there is none, the shorter list comes first. */
  ghost predicate PreBefore(a: seq<Identifier>, b: seq<Identifier>) {
    || (a <= b && a != b)
    || exists k :: 0 <= k < |a| && k < |b| && a[..k] == b[..k] && IdBefore(a[k], b[k])
  }

  lemma {:induction false} PreMeans(a: seq<Identifier>, b: seq<Identifier>)
    ensures PreLeq(a, b) && a != b <==> PreBefore(a, b)
  {
    hide IdLeq, IdBefore;
    if a != [] && b != [] {
      IdMeans(a[0], b[0]);
      assert a == [a[0]] + a[1..] && b == [b[0]] + b[1..];
      if a[0] == b[0] {
        PreMeans(a[1..], b[1..]);
        if k :| 0 <= k < |a[1..]| && k < |b[1..]| && a[1..][..k] == b[1..][..k] && IdBefore(a[1..][k], b[1..][k]) {
          assert a[..k + 1] == [a[0]] + a[1..][..k] && b[..k + 1] == [b[0]] + b[1..][..k];
          assert IdBefore(a[k + 1], b[k + 1]);
        }
        if k :| 0 <= k < |a| && k < |b| && a[..k] == b[..k] && IdBefore(a[k], b[k]) {
          assert k > 0;
          assert a[1..][..k - 1] == a[..k][1..] && b[1..][..k - 1] == b[..k][1..];
          assert IdBefore(a[1..][k - 1], b[1..][k - 1]);
        }
      } else {
        DifferAtOnce(a, b);
      }
    }
  }

  lemma DifferAtOnce(a: seq<Identifier>, b: seq<Identifier>)
    requires a != [] && b != [] && a[0] != b[0]
    ensures PreBefore(a, b) <==> IdBefore(a[0], b[0])
  {
    hide IdBefore;
    assert a[..0] == b[..0];
    forall k | 0 < k < |a| && k < |b| ensures a[..k] != b[..k] {
      assert a[..k][0] == a[0] && b[..k][0] == b[0];
    }
  }

  /** Precedence: major, minor and patch as numbers first; then a pre-release
      comes before its release; then the pre-release identifiers decide. */
  lemma PrecedenceMeans(v: Version, w: Version)
    ensures Less(v, w) <==>
      || v.major < w.major
      || (v.major == w.major && v.minor < w.minor)
      || (v.major == w.major && v.minor == w.minor && v.patch < w.patch)
      || (v.major == w.major && v.minor == w.minor && v.patch == w.patch &&
            ((v.pre != [] && w.pre == []) || (v.pre != [] && w.pre != [] && PreBefore(v.pre, w.pre))))
  {
    hide PreLeq, PreBefore;
    PreMeans(v.pre, w.pre);
  }

  // ----- finding the upgrade files -----

  /** A file of a version directory: its path and the number its name starts with, if it does. */
  datatype FileEntry = FileEntry(path: string, number: Option<nat>)

  /** An entry of the directory of versions: whether it is a directory, and the version its name stands for. */
  datatype DirEntry = DirEntry(isDir: bool, version: Option<Version>, files: seq<FileEntry>)

  datatype Upgrade = Upgrade(version: Version, path: string)

  /** The number of a file is one more pre-release identifier. */
  function FileVersion(dir: Version, number: nat): Version {
    dir.(pre := dir.pre + [Numeric(number)])
  }

  /** A file number only comes to bear within the version of its directory: the
      files of a release come before it, those of a pre-release right after it. */
  lemma FileVersionsOrdered(dir: Version, n: nat, m: nat)
    ensures Leq(FileVersion(dir, n), FileVersion(dir, m)) <==> n <= m
    ensures if dir.pre == [] then Less(FileVersion(dir, n), dir) else Less(dir, FileVersion(dir, n))
    ensures FileVersion(dir, n).major == dir.major && FileVersion(dir, n).minor == dir.minor && FileVersion(dir, n).patch == dir.patch
  {
    PreAppend(dir.pre, n, m);
    PreMeans(dir.pre, dir.pre + [Numeric(n)]);
    PrecedenceMeans(dir, FileVersion(dir, n));
    PrecedenceMeans(FileVersion(dir, n), dir);
  }

  lemma {:induction false} PreAppend(p: seq<Identifier>, n: nat, m: nat)
    ensures PreLeq(p + [Numeric(n)], p + [Numeric(m)]) <==> n <= m
  {
    if p != [] {
      assert (p + [Numeric(n)])[1..] == p[1..] + [Numeric(n)];
      assert (p + [Numeric(m)])[1..] == p[1..] + [Numeric(m)];
      PreAppend(p[1..], n, m);
    }
  }

  ghost predicate DistinctVersions(us: seq<Upgrade>) {
    forall i, j :: 0 <= i < j < |us| ==> us[i].version != us[j].version
  }

  /** The files of a directory, in the order listed; none if a name does not parse. */
  function FilesOf(dir: Version, files: seq<FileEntry>): Option<seq<Upgrade>> {
    if files == [] then Some([])
    else
      var last := files[|files| - 1];
      match FilesOf(dir, files[..|files| - 1])
      case None => None
      case Some(us) =>
        if last.number.None? then None else Some(us + [Upgrade(FileVersion(dir, last.number.value), last.path)])
  }

  /** All files listed; none if an entry is not a directory or a name does not
      parse. The name of an empty directory is not looked at. */
  function Listed(listing: seq<DirEntry>): Option<seq<Upgrade>> {
    if listing == [] then Some([])
    else
      var dir := listing[|listing| - 1];
      match Listed(listing[..|listing| - 1])
      case None => None
      case Some(us) =>
        if !dir.isDir then None
        else if dir.files == [] then Some(us)
        else if dir.version.None? then None
        else
          match FilesOf(dir.version.value, dir.files)
          case None => None
          case Some(vs) => Some(us + vs)
  }

  lemma {:induction false} FilesPrefix(dir: Version, files: seq<FileEntry>, k: nat)
    requires k <= |files| && FilesOf(dir, files).Some?
    ensures FilesOf(dir, files[..k]).Some? && FilesOf(dir, files[..k]).value <= FilesOf(dir, files).value
  {
    if k < |files| {
      FilesPrefix(dir, files[..|files| - 1], k);
      assert files[..|files| - 1][..k] == files[..k];
    } else {
      assert files[..k] == files;
    }
  }

  lemma {:induction false} ListedPrefix(listing: seq<DirEntry>, k: nat)
    requires k <= |listing| && Listed(listing).Some?
    ensures Listed(listing[..k]).Some? && Listed(listing[..k]).value <= Listed(listing).value
  {
    if k < |listing| {
      ListedPrefix(listing[..|listing| - 1], k);
      assert listing[..|listing| - 1][..k] == listing[..k];
    } else {
      assert listing[..k] == listing;
    }
  }

  /** The upgrade a file of a directory stands for. */
  ghost predicate StandsFor(dir: DirEntry, file: FileEntry, u: Upgrade) {
    && dir.version.Some? && file.number.Some? && u.path == file.path
    && u.version == dir.version.value.(pre := dir.version.value.pre + [Numeric(file.number.value)])
  }

  lemma {:induction false} FilesMeans(dir: DirEntry, files: seq<FileEntry>, u: Upgrade)
    requires dir.version.Some?
    ensures FilesOf(dir.version.value, files).Some? <==> forall k :: 0 <= k < |files| ==> files[k].number.Some?
    ensures FilesOf(dir.version.value, files).Some? ==>
      (u in FilesOf(dir.version.value, files).value <==> exists k :: 0 <= k < |files| && StandsFor(dir, files[k], u))
  {
    if files != [] {
      var n := |files| - 1;
      FilesMeans(dir, files[..n], u);
      assert forall k :: 0 <= k < n ==> files[..n][k] == files[k];
      assert files[n].number.Some? ==> (StandsFor(dir, files[n], u) <==> u == Upgrade(FileVersion(dir.version.value, files[n].number.value), files[n].path));
      hide StandsFor;
      if k :| 0 <= k < |files| && StandsFor(dir, files[k], u) {
        assert k < n ==> StandsFor(dir, files[..n][k], u);
      }
    }
  }

  /** An entry that can be read: a directory, empty or with a version and only numbered files. */
  ghost predicate Readable(dir: DirEntry) {
    dir.isDir && (dir.files != [] ==> dir.version.Some? && forall k :: 0 <= k < |dir.files| ==> dir.files[k].number.Some?)
  }

  /** The files listed are those of all directories, each with the number as one more identifier. */
  lemma {:induction false} ListedMeans(listing: seq<DirEntry>, u: Upgrade)
    ensures Listed(listing).Some? <==> forall d :: 0 <= d < |listing| ==> Readable(listing[d])
    ensures Listed(listing).Some? ==>
      (u in Listed(listing).value <==> exists d :: 0 <= d < |listing| && Contains(listing[d], u))
  {
    hide Readable, Contains, FilesOf;
    if listing != [] {
      var n := |listing| - 1;
      ListedMeans(listing[..n], u);
      DirectoryMeans(listing[n], u);
      assert forall d :: 0 <= d < n ==> listing[..n][d] == listing[d];
      if d :| 0 <= d < |listing| && Contains(listing[d], u) {
        assert d < n ==> Contains(listing[..n][d], u);
      }
    }
  }

  ghost predicate Contains(dir: DirEntry, u: Upgrade) {
    exists k :: 0 <= k < |dir.files| && StandsFor(dir, dir.files[k], u)
  }

  lemma DirectoryMeans(dir: DirEntry, u: Upgrade)
    ensures Readable(dir) <==> dir.isDir && (dir.files == [] || (dir.version.Some? && FilesOf(dir.version.value, dir.files).Some?))
    ensures dir.files == [] ==> !Contains(dir, u)
    ensures dir.version.Some? && FilesOf(dir.version.value, dir.files).Some? ==>
      (Contains(dir, u) <==> u in FilesOf(dir.version.value, dir.files).value)
  {
    hide StandsFor, FilesOf;
    if dir.version.Some? {
      FilesMeans(dir, dir.files, u);
    }
  }

  /** Adds the files of one directory to those found. */
  method CollectFiles(found: seq<Upgrade>, dir: Version, files: seq<FileEntry>) returns (r: Result<seq<Upgrade>>)
    requires DistinctVersions(found)
    ensures r.Ok? <==> FilesOf(dir, files).Some? && DistinctVersions(found + FilesOf(dir, files).value)
    ensures r.Ok? ==> r.value == found + FilesOf(dir, files).value
  {
    var all := found;
    assert files[..0] == [];
    for k := 0 to |files|
      invariant DistinctVersions(all) && FilesOf(dir, files[..k]).Some? && all == found + FilesOf(dir, files[..k]).value
    {
      assert files[..k + 1][..k] == files[..k];
      if files[k].number.None? {
        NotListedFile(dir, files, k + 1);
        return Err;
      }
      var u := Upgrade(FileVersion(dir, files[k].number.value), files[k].path);
      if exists i :: 0 <= i < |all| && all[i].version == u.version {
        assert !DistinctVersions(all + [u]) by {
          var i :| 0 <= i < |all| && all[i].version == u.version;
          assert (all + [u])[i].version == (all + [u])[|all|].version;
        }
        TwiceInDirectory(found, dir, files, k + 1, all + [u]);
        return Err;
      }
      all := all + [u];
    }
    assert files[..|files|] == files;
    return Ok(all);
  }

  lemma NotListedFile(dir: Version, files: seq<FileEntry>, k: nat)
    requires k <= |files| && FilesOf(dir, files[..k]).None?
    ensures FilesOf(dir, files).None?
  {
    if FilesOf(dir, files).Some? {
      FilesPrefix(dir, files, k);
    }
  }

  lemma TwiceInDirectory(found: seq<Upgrade>, dir: Version, files: seq<FileEntry>, k: nat, all: seq<Upgrade>)
    requires k <= |files| && FilesOf(dir, files[..k]).Some? && all == found + FilesOf(dir, files[..k]).value
    requires !DistinctVersions(all)
    ensures FilesOf(dir, files).Some? ==> !DistinctVersions(found + FilesOf(dir, files).value)
  {
    if FilesOf(dir, files).Some? {
      FilesPrefix(dir, files, k);
      TwiceInPart(all, found + FilesOf(dir, files).value);
    }
  }

  lemma TwiceInPart(part: seq<Upgrade>, all: seq<Upgrade>)
    requires part <= all && !DistinctVersions(part)
    ensures !DistinctVersions(all)
  {
    var i, j :| 0 <= i < j < |part| && part[i].version == part[j].version;
    assert all[i] == part[i] && all[j] == part[j];
  }

  /** Collects the upgrade files of all directories. A stray file, a name that
      does not parse or a version found twice is an error, and nothing else is. */
  method CollectUpgrades(listing: seq<DirEntry>) returns (r: Result<seq<Upgrade>>)
    ensures r.Ok? <==> Listed(listing).Some? && DistinctVersions(Listed(listing).value)
    ensures r.Ok? ==> r.value == Listed(listing).value
  {
    hide DistinctVersions, FilesOf;
    var all: seq<Upgrade> := [];
    assert listing[..0] == [];
    assert DistinctVersions(all) by { NoUpgrades(all); }
    for k := 0 to |listing|
      invariant DistinctVersions(all) && Listed(listing[..k]) == Some(all)
    {
      var dir := listing[k];
      assert listing[..k + 1][..k] == listing[..k];
      if !dir.isDir || (|dir.files| > 0 && dir.version.None?) {
        NotListed(listing, k + 1);
        return Err;
      }
      if |dir.files| > 0 {
        var more := CollectFiles(all, dir.version.value, dir.files);
        if more.Err? {
          NotCollected(listing, k + 1);
          return Err;
        }
        all := more.value;
      }
    }
    assert listing[..|listing|] == listing;
    return Ok(all);
  }

  lemma NoUpgrades(us: seq<Upgrade>)
    requires us == []
    ensures DistinctVersions(us)
  {
  }

  lemma NotListed(listing: seq<DirEntry>, k: nat)
    requires k <= |listing| && Listed(listing[..k]).None?
    ensures Listed(listing).None?
  {
    if Listed(listing).Some? {
      ListedPrefix(listing, k);
    }
  }

  lemma NotCollected(listing: seq<DirEntry>, k: nat)
    requires k <= |listing|
    requires Listed(listing[..k]).None? || !DistinctVersions(Listed(listing[..k]).value)
    ensures Listed(listing).None? || !DistinctVersions(Listed(listing).value)
  {
    if Listed(listing).Some? {
      ListedPrefix(listing, k);
      TwiceInPart(Listed(listing[..k]).value, Listed(listing).value);
    }
  }

  // ----- what an upgrade runs -----

  function ByVersion(): (Upgrade, Upgrade) -> bool {
    (a: Upgrade, b: Upgrade) => Leq(a.version, b.version)
  }

  lemma VersionsAreOrdered()
    ensures TotalPreorder(ByVersion())
  {
    var leq := ByVersion();
    forall a, b ensures leq(a, b) || leq(b, a) {
      VersionTotal(a.version, b.version);
    }
    forall a, b, c | leq(a, b) && leq(b, c) ensures leq(a, c) {
      VersionTransitive(a.version, b.version, c.version);
    }
  }

  /** Whether an upgrade from `from` to `to` includes a version: `to` itself belongs to it. */
  predicate Included(v: Version, from: Version, to: Version) {
    Less(from, v) && Leq(v, to)
  }

  function Between(us: seq<Upgrade>, from: Version, to: Version): seq<Upgrade> {
    if us == [] then []
    else (if Included(us[0].version, from, to) then [us[0]] else []) + Between(us[1..], from, to)
  }

  /** Going through an intermediate version runs the same files in the same order. */
  lemma {:induction false} ThroughMiddle(us: seq<Upgrade>, from: Version, mid: Version, to: Version)
    requires SortedBy(us, ByVersion()) && Leq(from, mid) && Leq(mid, to)
    ensures Between(us, from, to) == Between(us, from, mid) + Between(us, mid, to)
  {
    if us != [] {
      hide Included, Leq, Less;
      var v := us[0].version;
      ThroughMiddle(us[1..], from, mid, to);
      IncludedSplit(v, from, mid, to);
      if Included(v, mid, to) {
        // everything from here on lies above the middle
        forall i | 0 <= i < |us| ensures !Included(us[i].version, from, mid) {
          if i > 0 {
            assert ByVersion()(us[0], us[i]);
          }
          AboveMiddle(v, us[i].version, from, mid, to, i == 0);
        }
        NoneBetween(us, from, mid);
        NoneBetween(us[1..], from, mid);
      }
    }
  }

  lemma IncludedSplit(v: Version, from: Version, mid: Version, to: Version)
    requires Leq(from, mid) && Leq(mid, to)
    ensures Included(v, from, to) <==> Included(v, from, mid) || Included(v, mid, to)
    ensures !(Included(v, from, mid) && Included(v, mid, to))
  {
    hide Leq;
    LessThrough(from, mid, v);
    LessThrough(mid, v, mid);
    if Leq(v, mid) {
      VersionTransitive(v, mid, to);
    }
  }

  lemma AboveMiddle(v: Version, w: Version, from: Version, mid: Version, to: Version, same: bool)
    requires Included(v, mid, to) && (if same then w == v else Leq(v, w))
    ensures !Included(w, from, mid)
  {
    hide Leq;
    VersionTotal(v, v);
    LessThrough(mid, v, w);
    LessThrough(mid, w, mid);
  }

  lemma {:induction false} NoneBetween(us: seq<Upgrade>, from: Version, to: Version)
    requires forall i :: 0 <= i < |us| ==> !Included(us[i].version, from, to)
    ensures Between(us, from, to) == []
  {
    if us != [] {
      NoneBetween(us[1..], from, to);
    }
  }

  lemma {:induction false} BetweenMembers(us: seq<Upgrade>, from: Version, to: Version, u: Upgrade)
    ensures u in Between(us, from, to) <==> u in us && Included(u.version, from, to)
  {
    if us != [] {
      BetweenMembers(us[1..], from, to, u);
    }
  }

  lemma {:induction false} BetweenDistinct(us: seq<Upgrade>, from: Version, to: Version)
    requires DistinctVersions(us)
    ensures DistinctVersions(Between(us, from, to))
  {
    if us != [] {
      BetweenDistinct(us[1..], from, to);
      var rest := Between(us[1..], from, to);
      forall i | 0 <= i < |rest| ensures rest[i].version != us[0].version {
        assert rest[i] in rest;
        BetweenMembers(us[1..], from, to, rest[i]);
        var j :| 0 <= j < |us[1..]| && us[1..][j] == rest[i];
        assert us[j + 1] == rest[i];
      }
    }
  }

  lemma {:induction false} BetweenSorted(us: seq<Upgrade>, from: Version, to: Version)
    requires SortedBy(us, ByVersion())
    ensures var r := Between(us, from, to); forall i, j :: 0 <= i < j < |r| ==> Leq(r[i].version, r[j].version)
  {
    hide Leq, Included;
    if us != [] {
      BetweenSorted(us[1..], from, to);
      var rest := Between(us[1..], from, to);
      forall i | 0 <= i < |rest| ensures Leq(us[0].version, rest[i].version) {
        BetweenMembers(us[1..], from, to, rest[i]);
        var j :| 0 <= j < |us[1..]| && us[1..][j] == rest[i];
        assert ByVersion()(us[0], us[j + 1]);
      }
    }
  }

  // ----- migrating -----

  /** What has been executed in a database. */
  datatype Action = Preinstall | File(upgrade: Upgrade) | Idempotent

  function Files(us: seq<Upgrade>): (r: seq<Action>)
    ensures |r| == |us| && forall i :: 0 <= i < |us| ==> r[i] == File(us[i])
  {
    seq(|us|, i requires 0 <= i < |us| => File(us[i]))
  }

  predicate IsDev(v: Version) {
    exists i :: 0 <= i < |v.pre| && v.pre[i] == Alphanumeric("dev")
  }

  /** The sorted upgrade files of a listing. */
  function Plan(us: seq<Upgrade>, from: Version, to: Version): seq<Upgrade> {
    Between(Sort(us, ByVersion()), from, to)
  }

  method UpgradeVersion(listing: seq<DirEntry>, from: Version, to: Version) returns (r: Result<seq<Action>>)
    ensures r.Ok? <==> Listed(listing).Some? && DistinctVersions(Listed(listing).value)
    ensures r.Ok? ==> r.value == Files(Plan(Listed(listing).value, from, to))
  {
    hide DistinctVersions, Listed, Between, Sort;
    var all := CollectUpgrades(listing);
    if all.Err? {
      return Err;
    }
    var done := Execute(Sort(all.value, ByVersion()), from, to);
    return Ok(Files(done));
  }

  /** Goes through the sorted versions and executes those in the range. */
  method Execute(versions: seq<Upgrade>, from: Version, to: Version) returns (done: seq<Upgrade>)
    ensures done == Between(versions, from, to)
  {
    hide Included;
    done := [];
    for k := 0 to |versions|
      invariant done + Between(versions[k..], from, to) == Between(versions, from, to)
    {
      assert versions[k..][1..] == versions[k + 1..];
      if Included(versions[k].version, from, to) {
        done := done + [versions[k]];
      }
    }
    assert versions[|versions|..] == [];
  }

  /** The migrated database: the version recorded in it and what was executed. */
  class MigratedDatabase {
    var version: Version
    var log: seq<Action>

    constructor ()
      ensures version == NO_VERSION && log == []
    {
      version, log := NO_VERSION, [];
    }

    /** Migrates to the application's version, all or nothing: `broken` scripts
        make the transaction roll back. */
    method Migrate(app: Version, listing: seq<DirEntry>, broken: set<Action>) returns (ok: bool)
      modifies this
      ensures !ok ==> version == old(version) && log == old(log)
      ensures Less(app, old(version)) ==> !ok
      ensures ok && Same(app, old(version)) ==> version == old(version) && log == old(log) + if IsDev(app) then [Idempotent] else []
      ensures ok && Less(old(version), app) ==> version == app
      ensures ok && Less(old(version), app) && Same(old(version), NO_VERSION) ==> log == old(log) + [Preinstall, Idempotent]
      ensures ok && Less(old(version), app) && !Same(old(version), NO_VERSION) ==>
        && Listed(listing).Some? && DistinctVersions(Listed(listing).value)
        && log == old(log) + Files(Plan(Listed(listing).value, old(version), app)) + [Idempotent]
      ensures Leq(old(version), version)
    {
      hide Plan, Listed, Leq, IsDev, DistinctVersions;
      VersionTotal(version, app);
      VersionTotal(version, version);
      if Same(version, app) {
        if IsDev(app) {
          if Idempotent in broken {
            return false;
          }
          log := log + [Idempotent];
        }
        return true;
      }
      if Less(app, version) {
        return false;
      }
      var actions := [];
      if Same(version, NO_VERSION) {
        actions := [Preinstall];
      } else {
        var files := UpgradeVersion(listing, version, app);
        if files.Err? {
          return false;
        }
        actions := files.value;
      }
      actions := actions + [Idempotent];
      if exists i :: 0 <= i < |actions| && actions[i] in broken {
        return false;
      }
      log, version := log + actions, app;
      return true;
    }
  }

  /** Whatever the versions in between, the upgrade files run are the same, in the same order. */
  lemma PlanThroughMiddle(us: seq<Upgrade>, from: Version, mid: Version, to: Version)
    requires Leq(from, mid) && Leq(mid, to)
    ensures Plan(us, from, to) == Plan(us, from, mid) + Plan(us, mid, to)
  {
    VersionsAreOrdered();
    SortSorted(us, ByVersion());
    ThroughMiddle(Sort(us, ByVersion()), from, mid, to);
  }

  /** An upgrade runs exactly the files of the versions in its range, none of them twice. */
  lemma PlanRunsEachOnce(us: seq<Upgrade>, from: Version, to: Version)
    requires DistinctVersions(us)
    ensures DistinctVersions(Plan(us, from, to))
    ensures forall i, j :: 0 <= i < j < |Plan(us, from, to)| ==> Leq(Plan(us, from, to)[i].version, Plan(us, from, to)[j].version)
    ensures forall u :: u in Plan(us, from, to) <==> u in us && Less(from, u.version) && Leq(u.version, to)
  {
    hide Leq;
    var sorted := Sort(us, ByVersion());
    SameMembers(us, sorted);
    DistinctPermutation(us, sorted);
    BetweenDistinct(sorted, from, to);
    VersionsAreOrdered();
    SortSorted(us, ByVersion());
    BetweenSorted(sorted, from, to);
    forall u ensures u in Plan(us, from, to) <==> u in us && Less(from, u.version) && Leq(u.version, to) {
      BetweenMembers(sorted, from, to, u);
    }
  }

  lemma DistinctPermutation(a: seq<Upgrade>, b: seq<Upgrade>)
    requires multiset(a) == multiset(b) && DistinctVersions(a)
    ensures DistinctVersions(b)
  {
    SameMembers(a, b);
    forall x | x in a ensures multiset(a)[x] == 1 { OnceOnly(a, x); }
    forall i, j | 0 <= i < j < |b| ensures b[i].version != b[j].version {
      assert b[i] in a && b[j] in a;
      TwiceCounts(b, i, j);
      var k :| 0 <= k < |a| && a[k] == b[i];
      var l :| 0 <= l < |a| && a[l] == b[j];
    }
  }

  lemma {:induction false} OnceOnly(a: seq<Upgrade>, x: Upgrade)
    requires DistinctVersions(a) && x in a
    ensures multiset(a)[x] == 1
  {
    var n := |a| - 1;
    assert a == a[..n] + [a[n]];
    if a[n] == x {
      assert x !in a[..n];
    } else {
      OnceOnly(a[..n], x);
    }
  }

  lemma TwiceCounts(b: seq<Upgrade>, i: nat, j: nat)
    requires i < j < |b|
    ensures b[i] == b[j] ==> multiset(b)[b[i]] >= 2
  {
    assert b == b[..j] + [b[j]] + b[j + 1..];
    assert b[i] in b[..j];
  }

  // ----- any sequence of migrations -----

  function Executed(log: seq<Action>): seq<Upgrade> {
    if log == [] then []
    else
      var last := log[|log| - 1];
      Executed(log[..|log| - 1]) + if last.File? then [last.upgrade] else []
  }

  /** Every file executed is of a version not above the recorded one, and no version was executed twice. */
  ghost predicate Sound(version: Version, log: seq<Action>) {
    && DistinctVersions(Executed(log))
    && forall u :: u in Executed(log) ==> Leq(u.version, version)
  }

  /** A version of the application and the upgrade files it brings along. */
  datatype Release = Release(app: Version, listing: seq<DirEntry>)

  ghost predicate Brings(release: Release, u: Upgrade) {
    Listed(release.listing).Some? && u in Listed(release.listing).value
  }

  /** Every file in `log'` that is not in `log` was brought by one of the releases. */
  ghost predicate Brought(releases: seq<Release>, log: seq<Action>, log': seq<Action>) {
    forall u :: u in Executed(log') ==> u in Executed(log) || exists k :: 0 <= k < |releases| && Brings(releases[k], u)
  }

  lemma {:induction false} ExecutedConcat(a: seq<Action>, b: seq<Action>)
    ensures Executed(a + b) == Executed(a) + Executed(b)
    decreases |b|
  {
    if b == [] {
      assert a + b == a;
    } else {
      assert (a + b)[..|a + b| - 1] == a + b[..|b| - 1];
      ExecutedConcat(a, b[..|b| - 1]);
    }
  }

  lemma {:induction false} ExecutedFiles(us: seq<Upgrade>)
    ensures Executed(Files(us)) == us
  {
    if us != [] {
      ExecutedFiles(us[..|us| - 1]);
      assert Files(us)[..|us| - 1] == Files(us[..|us| - 1]);
    }
  }

  lemma SoundNext(us: seq<Upgrade>, version: Version, log: seq<Action>, app: Version)
    requires DistinctVersions(us) && Sound(version, log) && Less(version, app)
    ensures Sound(app, log + Files(Plan(us, version, app)) + [Idempotent])
    ensures forall u :: u in Executed(log + Files(Plan(us, version, app)) + [Idempotent]) ==> u in Executed(log) || u in us
  {
    hide Plan, Leq, Executed;
    var more := Plan(us, version, app);
    var log' := log + Files(more) + [Idempotent];
    ExecutedConcat(log + Files(more), [Idempotent]);
    ExecutedConcat(log, Files(more));
    ExecutedFiles(more);
    NoFiles([Idempotent]);
    var old', new' := Executed(log), Executed(log');
    assert new' == old' + more;
    PlanRunsEachOnce(us, version, app);
    forall u | u in new' ensures Leq(u.version, app) {
      if u in old' {
        VersionTransitive(u.version, version, app);
      } else {
        IncludedBounds(u.version, version, app);
      }
    }
    forall i, j | 0 <= i < j < |new'| ensures new'[i].version != new'[j].version {
      if i < |old'| <= j {
        assert new'[i] in old' && new'[j] in more;
        IncludedBounds(new'[j].version, version, app);
        LessThrough(version, new'[j].version, version);
      }
    }
  }

  lemma NoFiles(log: seq<Action>)
    requires |log| == 1 && !log[0].File?
    ensures Executed(log) == []
  {
    assert log[..0] == [];
  }

  lemma IncludedBounds(v: Version, from: Version, to: Version)
    requires Included(v, from, to)
    ensures Less(from, v) && Leq(v, to) && !Leq(v, from)
  {
    hide Leq;
    VersionTotal(from, v);
  }

  /** Migrations by any number of releases, each with its own files, to any
      versions and however they fail: the recorded version never decreases and no
      version's file runs twice, although releases bring the same files again. */
  method MigrateRepeatedly(db: MigratedDatabase, releases: seq<Release>, broken: seq<set<Action>>)
    requires |broken| == |releases| && Sound(db.version, db.log)
    modifies db
    ensures Sound(db.version, db.log) && Leq(old(db.version), db.version)
    ensures Brought(releases, old(db.log), db.log)
  {
    hide Listed, Leq, Plan, Sound, DistinctVersions, Executed;
    VersionTotal(db.version, db.version);
    for k := 0 to |releases|
      invariant Sound(db.version, db.log) && Leq(old(db.version), db.version)
      invariant Brought(releases, old(db.log), db.log)
    {
      ghost var version, log := db.version, db.log;
      var ok := db.Migrate(releases[k].app, releases[k].listing, broken[k]);
      VersionTransitive(old(db.version), version, db.version);
      SoundAfter(releases[k], version, log, db.version, db.log, ok);
    }
  }

  lemma SoundAfter(release: Release, version: Version, log: seq<Action>, version': Version, log': seq<Action>, ok: bool)
    requires Sound(version, log)
    requires !ok ==> version' == version && log' == log
    requires Less(release.app, version) ==> !ok
    requires ok && Same(release.app, version) ==> version' == version && (log' == log || log' == log + [Idempotent])
    requires ok && Less(version, release.app) ==> version' == release.app
    requires ok && Less(version, release.app) && Same(version, NO_VERSION) ==> log' == log + [Preinstall, Idempotent]
    requires ok && Less(version, release.app) && !Same(version, NO_VERSION) ==>
      && Listed(release.listing).Some? && DistinctVersions(Listed(release.listing).value)
      && log' == log + Files(Plan(Listed(release.listing).value, version, release.app)) + [Idempotent]
    ensures Sound(version', log')
    ensures forall u :: u in Executed(log') ==> u in Executed(log) || Brings(release, u)
  {
    hide Leq, Plan, Executed, DistinctVersions, Listed;
    var app := release.app;
    VersionTotal(version, app);
    if ok && Less(version, app) {
      if Same(version, NO_VERSION) {
        ExecutedConcat(log + [Preinstall], [Idempotent]);
        ExecutedConcat(log, [Preinstall]);
        assert log + [Preinstall, Idempotent] == log + [Preinstall] + [Idempotent];
        NoFiles([Idempotent]);
        NoFiles([Preinstall]);
        assert Executed(log') == Executed(log);
        forall u | u in Executed(log) ensures Leq(u.version, app) {
          VersionTransitive(u.version, version, app);
        }
      } else {
        SoundNext(Listed(release.listing).value, version, log, app);
      }
    } else {
      ExecutedConcat(log, [Idempotent]);
      NoFiles([Idempotent]);
      assert Executed(log) + [] == Executed(log);
      assert version' == version && Executed(log') == Executed(log);
    }
  }
}
