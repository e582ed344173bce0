/**
 Record versions kept as blobs: every version of a record is one object
 `{partition}_r_{hash of the id}/{version}`, and the latest version is the last object name.
 A request without a partition uses the name `global`.
 */
module VersionStore {
  import opened Wrappers
  import opened Text
  import opened BulkUris
  import opened Records

  // ---------- object names ----------

  const TAG := "_r_"

  predicate HasNoTag(p: string) { forall i: nat {:trigger OccursAt(p, TAG, i)} | i < |p| :: !OccursAt(p, TAG, i) }

  function Folder(partition: string, hash: string): string { partition + TAG + hash }

  function Path(partition: string, hash: string, version: nat): string {
    Folder(partition, hash) + "/" + NatText(version)
  }

  lemma TagAt(p: string, rest: string)
    ensures var s := p + TAG + rest; |s| >= |p| + 3 && s[|p|] == '_' && s[|p| + 1] == 'r' && s[|p| + 2] == '_'
    ensures forall i | 0 <= i < |p| :: (p + TAG + rest)[i] == p[i]
    ensures (p + TAG + rest)[|p| + 3..] == rest
  {
  }

  /** If the tag of one text falls early in another, that other partition contains it, or its last letters do. */
  lemma TagInside(p1: string, r1: string, p2: string, r2: string, n: nat)
    requires |p1| < |p2| && r1 != "" && |p1| + 3 < n <= |p1| + 3 + |r1| && n <= |p2| + 3 + |r2|
    requires (p1 + TAG + r1)[..n] == (p2 + TAG + r2)[..n]
    ensures |p1| + 3 <= |p2| ==> OccursAt(p2, TAG, |p1|)
    ensures |p1| + 3 > |p2| ==> r1[0] == 'r'
  {
    var a, b := p1 + TAG + r1, p2 + TAG + r2;
    TagAt(p1, r1);
    TagAt(p2, r2);
    assert a[|p1| + 3] == r1[0];
    assert forall i | 0 <= i < n :: a[..n][i] == a[i] && b[..n][i] == b[i];
    assert forall i | 0 <= i < n :: a[i] == b[i];
  }

  /** Two texts with a tag right after tag-free partitions, one a prefix of the other. */
  lemma SamePartition(p1: string, r1: string, p2: string, r2: string)
    requires HasNoTag(p1) && HasNoTag(p2) && r1 != "" && r2 != "" && r1[0] != 'r' && r2[0] != 'r'
    requires p1 + TAG + r1 <= p2 + TAG + r2
    ensures |p1| == |p2|
  {
    var n := |p1| + 3 + |r1|;
    assert (p1 + TAG + r1)[..n] == (p2 + TAG + r2)[..n];
    if |p1| < |p2| {
      TagInside(p1, r1, p2, r2, n);
      assert false;
    }
    if |p2| < |p1| {
      TagInside(p2, r2, p1, r1, |p2| + 4);
      assert false;
    }
  }

  /** Listing by folder finds the versions of that record in that partition and nothing else. */
  lemma FolderSelects(p1: string, h1: string, p2: string, h2: string, v: nat)
    requires HasNoTag(p1) && HasNoTag(p2) && HexWord(h1) && HexWord(h2)
    ensures Folder(p1, h1) <= Path(p2, h2, v) <==> p1 == p2 && h1 == h2
  {
    var tail := h2 + "/" + NatText(v);
    assert Path(p2, h2, v) == p2 + TAG + tail;
    if p1 == p2 && h1 == h2 {
      assert Path(p2, h2, v)[..|Folder(p1, h1)|] == Folder(p1, h1);
    }
    if Folder(p1, h1) <= Path(p2, h2, v) {
      assert IsHex(h1[0]) && IsHex(h2[0]);
      SamePartition(p1, h1, p2, tail);
      var f := Folder(p1, h1);
      assert p1 == f[..|p1|] && p2 == Path(p2, h2, v)[..|p1|];
      assert h1 == f[|p1| + 3..] && h2 == Path(p2, h2, v)[|p1| + 3..|f|];
    }
  }

  lemma PathIsInjective(p1: string, h1: string, v1: nat, p2: string, h2: string, v2: nat)
    requires HasNoTag(p1) && HasNoTag(p2) && HexWord(h1) && HexWord(h2)
    ensures Path(p1, h1, v1) == Path(p2, h2, v2) <==> p1 == p2 && h1 == h2 && v1 == v2
  {
    if Path(p1, h1, v1) == Path(p2, h2, v2) {
      assert Path(p1, h1, v1)[..|Folder(p1, h1)|] == Folder(p1, h1);
      FolderSelects(p1, h1, p2, h2, v2);
      var n := |Folder(p1, h1)| + 1;
      assert NatText(v1) == Path(p1, h1, v1)[n..] && NatText(v2) == Path(p2, h2, v2)[n..];
      NatTextInjective(v1, v2);
    }
  }

  // ---------- lexicographic order of names, numeric order of versions ----------

  predicate Less(a: string, b: string) {
    b != "" && (a == "" || a[0] < b[0] || (a[0] == b[0] && Less(a[1..], b[1..])))
  }

  lemma {:induction false} LessIsTotal(a: string, b: string)
    ensures a == b || Less(a, b) || Less(b, a)
    ensures !(Less(a, b) && Less(b, a)) && !Less(a, a)
  {
    if a != "" && b != "" {
      LessIsTotal(a[1..], b[1..]);
      if a[0] == b[0] && a[1..] == b[1..] {
        assert a == [a[0]] + a[1..] && b == [b[0]] + b[1..];
      }
    }
    if a != "" { LessIsTotal(a[1..], a[1..]); }
  }

  lemma {:induction false} LessIsTransitive(a: string, b: string, c: string)
    requires Less(a, b) && Less(b, c)
    ensures Less(a, c)
  {
    if a != "" && a[0] == b[0] && b[0] == c[0] { LessIsTransitive(a[1..], b[1..], c[1..]); }
  }

  lemma {:induction false} LessUnderPrefix(p: string, a: string, b: string)
    ensures Less(p + a, p + b) <==> Less(a, b)
  {
    if p == "" {
      assert p + a == a && p + b == b;
    } else {
      assert (p + a)[1..] == p[1..] + a && (p + b)[1..] == p[1..] + b;
      LessUnderPrefix(p[1..], a, b);
    }
  }

  lemma {:induction false} LessSnoc(x: string, a: char, y: string, b: char)
    requires |x| == |y|
    ensures Less(x + [a], y + [b]) <==> Less(x, y) || (x == y && a < b)
  {
    if x == "" {
      assert x + [a] == [a] && y + [b] == [b];
    } else {
      assert (x + [a])[1..] == x[1..] + [a] && (y + [b])[1..] == y[1..] + [b];
      LessSnoc(x[1..], a, y[1..], b);
      assert x == [x[0]] + x[1..] && y == [y[0]] + y[1..];
    }
  }

  /** On texts of the same number of digits the two orders agree. */
  lemma {:induction false} LessIsNumeric(x: string, y: string)
    requires |x| == |y| && AllDigits(x) && AllDigits(y)
    ensures Less(x, y) <==> TextNat(x) < TextNat(y)
    ensures x == y <==> TextNat(x) == TextNat(y)
  {
    if x != "" {
      var n := |x| - 1;
      LessIsNumeric(x[..n], y[..n]);
      LessSnoc(x[..n], x[n], y[..n], y[n]);
      assert x == x[..n] + [x[n]] && y == y[..n] + [y[n]];
    }
  }

  /** The number without its last `k` digits. */
  function Leading(n: nat, k: nat): (r: nat)
    ensures r <= n
  {
    if k == 0 then n else Leading(n / 10, k - 1)
  }

  lemma {:induction false} DigitsGrow(a: nat, b: nat)
    requires a <= b
    ensures |NatText(a)| <= |NatText(b)|
  {
    if a >= 10 { DigitsGrow(a / 10, b / 10); }
  }

  /** Leading digits. */
  lemma {:induction false} NatTextPrefix(n: nat, k: nat)
    requires k < |NatText(n)|
    ensures NatText(n)[..|NatText(n)| - k] == NatText(Leading(n, k))
    decreases k
  {
    var s := NatText(n);
    if k == 0 {
      assert s[..|s|] == s;
    } else {
      var front := s[..|s| - 1];
      assert front == NatText(n / 10);
      NatTextPrefix(n / 10, k - 1);
      assert s[..|s| - k] == front[..|front| - (k - 1)];
    }
  }

  lemma {:induction false} LessThanLonger(x: string, y: string)
    requires |x| < |y|
    ensures Less(x, y) <==> x == y[..|x|] || Less(x, y[..|x|])
  {
    if x != "" {
      LessThanLonger(x[1..], y[1..]);
      assert y[..|x|][1..] == y[1..][..|x| - 1];
      assert x == [x[0]] + x[1..] && y[..|x|] == [y[0]] + y[..|x|][1..];
    }
  }

  /** `v` is no greater than the leading digits of `m`, as many as `v` has. */
  predicate Follows(m: nat, v: nat) {
    |NatText(v)| <= |NatText(m)| && v <= Leading(m, |NatText(m)| - |NatText(v)|)
  }

  /** Digits compare like their value with the leading digits of the other text. */
  lemma LessIsNumericPrefix(x: string, y: string)
    requires |x| <= |y| && x != y && AllDigits(x) && AllDigits(y)
    ensures AllDigits(y[..|x|])
    ensures Less(x, y) <==> TextNat(x) <= TextNat(y[..|x|])
  {
    LessIsNumeric(x, y[..|x|]);
    if |x| < |y| { LessThanLonger(x, y); } else { assert y[..|x|] == y; }
  }

  /** The exact condition under which the order of names is that of versions. */
  lemma LaterText(v1: nat, v2: nat)
    requires v1 < v2
    ensures Less(NatText(v1), NatText(v2)) <==> Follows(v2, v1)
  {
    DigitsGrow(v1, v2);
    NatTextInjective(v1, v2);
    var k := |NatText(v2)| - |NatText(v1)|;
    LessIsNumericPrefix(NatText(v1), NatText(v2));
    NatTextPrefix(v2, k);
    assert NatText(v2)[..|NatText(v1)|] == NatText(Leading(v2, k));
    NatTextRoundTrip(v1);
    NatTextRoundTrip(Leading(v2, k));
  }

  lemma LaterPath(p: string, h: string, v1: nat, v2: nat)
    requires v1 < v2
    ensures Less(Path(p, h, v1), Path(p, h, v2)) <==> Follows(v2, v1)
  {
    LessUnderPrefix(Folder(p, h) + "/", NatText(v1), NatText(v2));
    LaterText(v1, v2);
  }

  /** Versions with as many digits always follow. */
  lemma SameDigitsFollow(v1: nat, v2: nat)
    requires v1 <= v2 && |NatText(v1)| == |NatText(v2)|
    ensures Follows(v2, v1)
  {
  }

  function Pow10(d: nat): nat { if d == 0 then 1 else 10 * Pow10(d - 1) }

  lemma {:induction false} DigitCount(n: nat, d: nat)
    requires Pow10(d) <= n < 10 * Pow10(d)
    ensures |NatText(n)| == d + 1
  {
    if d > 0 { DigitCount(n / 10, d - 1); }
  }

  /** Versions are ULIDs read as numbers: milliseconds since 1970 above 80 random bits. */
  function UlidVersion(millis: nat, random: nat): nat { millis * 0x1_0000_0000_0000_0000_0000 + random }

  /** ULIDs drawn between spring 1996 and the end of 2231 have 37 digits, so greater ones always follow. */
  lemma RecentVersionsFollow(t1: nat, r1: nat, t2: nat, r2: nat)
    requires 830_000_000_000 <= t1 <= 8_268_000_000_000 && r1 < 0x1_0000_0000_0000_0000_0000
    requires 830_000_000_000 <= t2 <= 8_268_000_000_000 && r2 < 0x1_0000_0000_0000_0000_0000
    requires UlidVersion(t1, r1) <= UlidVersion(t2, r2)
    ensures Follows(UlidVersion(t2, r2), UlidVersion(t1, r1))
  {
    assert Pow10(12) == 1_000_000_000_000;
    assert Pow10(24) == 1_000_000_000_000_000_000_000_000;
    assert Pow10(36) == 1_000_000_000_000_000_000_000_000_000_000_000_000;
    DigitCount(UlidVersion(t1, r1), 36);
    DigitCount(UlidVersion(t2, r2), 36);
    SameDigitsFollow(UlidVersion(t1, r1), UlidVersion(t2, r2));
  }

  /** Some version follows all of them. */
  ghost predicate LatestSortsLast(versions: set<nat>) {
    exists m :: m in versions && forall v | v in versions :: Follows(m, v)
  }

  ghost predicate Sorted(s: seq<string>) { forall i, j | 0 <= i < j < |s| :: Less(s[i], s[j]) }

  /** Every other version has a name before the last one. */
  lemma LastNameIsLater(names: seq<string>, p: string, h: string, versions: set<nat>, last: nat)
    requires Sorted(names) && names != [] && names[|names| - 1] == Path(p, h, last) && HasNoTag(p) && HexWord(h)
    requires forall v | v in versions :: Path(p, h, v) in names
    ensures forall v | v in versions && v != last :: Less(Path(p, h, v), Path(p, h, last))
  {
    forall v | v in versions && v != last ensures Less(Path(p, h, v), Path(p, h, last)) {
      var i :| 0 <= i < |names| && names[i] == Path(p, h, v);
      PathIsInjective(p, h, v, p, h, last);
    }
  }

  /** The version whose name comes last is the greatest exactly when the greatest one follows all others. */
  lemma LastIsGreatest(p: string, h: string, versions: set<nat>, last: nat)
    requires last in versions && forall v | v in versions && v != last :: Less(Path(p, h, v), Path(p, h, last))
    ensures (forall v | v in versions :: v <= last) <==> LatestSortsLast(versions)
  {
    if forall v | v in versions :: v <= last {
      SameDigitsFollow(last, last);
      forall v | v in versions && v != last ensures Follows(last, v) { LaterPath(p, h, v, last); }
      assert LatestSortsLast(versions);
    }
    if LatestSortsLast(versions) {
      var m :| m in versions && forall v | v in versions :: Follows(m, v);
      assert Follows(m, last);
      if m != last {
        LaterPath(p, h, last, m);
        LessIsTotal(Path(p, h, m), Path(p, h, last));
      }
      forall v | v in versions ensures v <= last { assert Follows(m, v); }
    }
  }

  /** Without equal digit counts the last name need not be the greatest version. */
  lemma NineSortsAfterTen(p: string, h: string)
    ensures Less(Path(p, h, 10), Path(p, h, 9))
  {
    LessUnderPrefix(Folder(p, h) + "/", NatText(10), NatText(9));
    assert NatText(1) == "1" && NatText(10) == "1" + "0" && NatText(9) == "9";
  }

  /** All names in order. */
  method SortNames(names: set<string>) returns (sorted: seq<string>)
    ensures Sorted(sorted)
    ensures forall x :: x in sorted <==> x in names
  {
    sorted := [];
    var rest := names;
    while rest != {}
      invariant rest <= names
      invariant Sorted(sorted)
      invariant forall x :: x in sorted <==> x in names && x !in rest
      decreases rest
    {
      var x :| x in rest;
      sorted := InsertName(sorted, x);
      rest := rest - {x};
    }
  }

  method InsertName(s: seq<string>, x: string) returns (r: seq<string>)
    requires Sorted(s) && x !in s
    ensures Sorted(r)
    ensures forall y :: y in r <==> y in s || y == x
  {
    var i := 0;
    while i < |s| && Less(s[i], x)
      invariant 0 <= i <= |s|
      invariant forall j | 0 <= j < i :: Less(s[j], x)
    {
      i := i + 1;
    }
    forall j | i <= j < |s| ensures Less(x, s[j]) {
      LessIsTotal(s[i], x);
      if j > i { LessIsTransitive(x, s[i], s[j]); }
    }
    r := s[..i] + [x] + s[i..];
    assert s == s[..i] + s[i..];
  }

  // ---------- the store ----------

  /** A stored version of a record. */
  datatype Stored = Stored(id: string, kind: string, version: nat, data: Data)

  datatype Slot = Slot(partition: string, id: string, version: nat)

  /** Among the identifiers in use the hash yields 32 hexadecimal digits and never collides. */
  ghost predicate HashFits(hash: string -> string, ids: set<string>) {
    && (forall a | a in ids :: HexWord(hash(a)))
    && (forall a, b | a in ids && b in ids && hash(a) == hash(b) :: a == b)
  }

  function PathOf(hash: string -> string, s: Slot): string { Path(s.partition, hash(s.id), s.version) }

  /** The blobs are exactly the versions in `content`, each under its own name. */
  ghost predicate Represents(hash: string -> string, ids: set<string>,
                             blobs: map<string, Stored>, content: map<Slot, Stored>) {
    && HashFits(hash, ids)
    && (forall s | s in content ::
          && s.id in ids && HasNoTag(s.partition)
          && content[s].id == s.id && content[s].version == s.version
          && PathOf(hash, s) in blobs && blobs[PathOf(hash, s)] == content[s])
    && (forall n | n in blobs :: exists s :: s in content && PathOf(hash, s) == n)
  }

  lemma SlotsHaveOwnPaths(hash: string -> string, ids: set<string>, s: Slot, u: Slot)
    requires HashFits(hash, ids) && s.id in ids && u.id in ids && HasNoTag(s.partition) && HasNoTag(u.partition)
    ensures PathOf(hash, s) == PathOf(hash, u) <==> s == u
  {
    PathIsInjective(s.partition, hash(s.id), s.version, u.partition, hash(u.id), u.version);
  }

  lemma RepresentsPut(hash: string -> string, ids: set<string>, blobs: map<string, Stored>, content: map<Slot, Stored>,
                      s: Slot, stored: Stored)
    requires Represents(hash, ids, blobs, content)
    requires s.id in ids && HasNoTag(s.partition) && s !in content && stored.id == s.id && stored.version == s.version
    ensures Represents(hash, ids, blobs[PathOf(hash, s) := stored], content[s := stored])
  {
    var path := PathOf(hash, s);
    var blobs', content' := blobs[path := stored], content[s := stored];
    forall u | u in content' ensures PathOf(hash, u) in blobs' && blobs'[PathOf(hash, u)] == content'[u] {
      SlotsHaveOwnPaths(hash, ids, u, s);
    }
    forall n | n in blobs' ensures exists u :: u in content' && PathOf(hash, u) == n {
      if n == path {
        assert s in content';
      } else {
        var u :| u in content && PathOf(hash, u) == n;
        assert u in content';
      }
    }
  }

  /** Dropping the slots `gone` and the blobs named by them. */
  lemma RepresentsDrop(hash: string -> string, ids: set<string>, blobs: map<string, Stored>, content: map<Slot, Stored>,
                       names: set<string>, gone: set<Slot>)
    requires Represents(hash, ids, blobs, content)
    requires gone <= content.Keys && names == set s | s in gone :: PathOf(hash, s)
    ensures Represents(hash, ids, blobs - names, content - gone)
  {
    var blobs', content' := blobs - names, content - gone;
    forall u | u in content' ensures PathOf(hash, u) in blobs' && blobs'[PathOf(hash, u)] == content'[u] {
      if PathOf(hash, u) in names {
        var s :| s in gone && PathOf(hash, s) == PathOf(hash, u);
        SlotsHaveOwnPaths(hash, ids, u, s);
      }
    }
    forall n | n in blobs' ensures exists u :: u in content' && PathOf(hash, u) == n {
      var u :| u in content && PathOf(hash, u) == n;
      assert u in content';
    }
  }

  /** New identifier: the first and third segments of the kind, and a fresh hexadecimal text. */
  function NewId(kind: string, unique: string): Option<string> {
    var parts := Split(kind, ':');
    if |parts| < 3 then None else Some(parts[0] + ":" + parts[2] + ":" + unique)
  }

  /** The segments a new identifier is made of; a kind of fewer than three is an error. */
  lemma NewIdParts(a: string, b: string, c: string, rest: string, unique: string)
    requires ':' !in a && ':' !in b && ':' !in c
    ensures NewId(a + ":" + b + ":" + (c + ":" + rest), unique) == Some(a + ":" + c + ":" + unique)
    ensures NewId(a + ":" + b + ":" + c, unique) == Some(a + ":" + c + ":" + unique)
    ensures NewId(a + ":" + b, unique).None? && NewId(a, unique).None?
  {
    SplitTwo(a, b, c + ":" + rest);
    SplitCons(c, rest, ':');
    SplitTwo(a, b, c);
    SplitNone(c, ':');
    SplitCons(a, b, ':');
    SplitNone(b, ':');
    SplitNone(a, ':');
  }

  /** The version is the last segment of the object name. */
  lemma VersionInPath(p: string, h: string, v: nat)
    ensures var parts := Split(Path(p, h, v), '/'); parts[|parts| - 1] == NatText(v)
    ensures Path(p, h, v) == p + "_r_" + h + "/" + NatText(v)
  {
    forall i | 0 <= i < |NatText(v)| ensures NatText(v)[i] != '/' { assert IsDigit(NatText(v)[i]); }
    SplitSnoc(Folder(p, h), NatText(v), '/');
  }

  /** What a read returns: the version asked for, or the one whose name comes last if that is zero. */
  ghost predicate IsRequested(r: Option<Stored>, content: map<Slot, Stored>, versions: set<nat>, partition: string,
                              id: string, version: nat) {
    && (r.Some? ==>
          var s := Slot(partition, id, r.value.version);
          s in content && content[s] == r.value && r.value.id == id)
    && (version != 0 ==>
          && (r.Some? <==> Slot(partition, id, version) in content)
          && (r.Some? ==> r.value.version == version))
    && (version == 0 ==>
          && (r.None? <==> versions == {})
          && (r.Some? ==> ((forall v | v in versions :: v <= r.value.version) <==> LatestSortsLast(versions))))
  }

  // ---------- batches ----------

  function SlotOf(partition: string, stored: Stored): Slot { Slot(partition, stored.id, stored.version) }

  function PutAll(content: map<Slot, Stored>, partition: string, batch: seq<Stored>): map<Slot, Stored> {
    if batch == [] then content
    else
      var last := batch[|batch| - 1];
      PutAll(content, partition, batch[..|batch| - 1])[SlotOf(partition, last) := last]
  }

  /** New slots, no two alike. */
  ghost predicate AreNew(content: map<Slot, Stored>, partition: string, batch: seq<Stored>) {
    && (forall i | 0 <= i < |batch| :: SlotOf(partition, batch[i]) !in content)
    && (forall i, j | 0 <= i < j < |batch| :: SlotOf(partition, batch[i]) != SlotOf(partition, batch[j]))
  }

  lemma {:induction false} PutAllKeys(content: map<Slot, Stored>, partition: string, batch: seq<Stored>, s: Slot)
    ensures s in PutAll(content, partition, batch) <==>
            s in content || exists i :: 0 <= i < |batch| && s == SlotOf(partition, batch[i])
  {
    if batch != [] {
      var before, last := batch[..|batch| - 1], batch[|batch| - 1];
      assert batch == before + [last];
      PutAllKeys(content, partition, before, s);
      if i :| 0 <= i < |before| && s == SlotOf(partition, before[i]) { assert batch[i] == before[i]; }
      if i :| 0 <= i < |batch| && s == SlotOf(partition, batch[i]) { assert i < |before| ==> before[i] == batch[i]; }
      assert batch[|batch| - 1] == last;
    }
  }

  lemma {:induction false} PutAllValues(content: map<Slot, Stored>, partition: string, batch: seq<Stored>)
    requires AreNew(content, partition, batch)
    ensures var after := PutAll(content, partition, batch);
      && (forall s | s in content :: s in after && after[s] == content[s])
      && (forall i | 0 <= i < |batch| ::
            SlotOf(partition, batch[i]) in after && after[SlotOf(partition, batch[i])] == batch[i])
  {
    if batch != [] {
      var before := batch[..|batch| - 1];
      assert forall i | 0 <= i < |before| :: before[i] == batch[i];
      PutAllValues(content, partition, before);
    }
  }

  /** Exactly the batch is added, and nothing stored before is disturbed. */
  lemma PutAllAdds(content: map<Slot, Stored>, partition: string, batch: seq<Stored>)
    requires AreNew(content, partition, batch)
    ensures var after := PutAll(content, partition, batch);
      && (forall s | s in content :: s in after && after[s] == content[s])
      && (forall i | 0 <= i < |batch| ::
            SlotOf(partition, batch[i]) in after && after[SlotOf(partition, batch[i])] == batch[i])
      && (forall s | s in after && s !in content :: exists i :: 0 <= i < |batch| && s == SlotOf(partition, batch[i]))
  {
    PutAllValues(content, partition, batch);
    forall s ensures s in PutAll(content, partition, batch) && s !in content ==>
                     exists i :: 0 <= i < |batch| && s == SlotOf(partition, batch[i]) {
      PutAllKeys(content, partition, batch, s);
    }
  }

  lemma NotYetPut(content: map<Slot, Stored>, partition: string, batch: seq<Stored>, k: nat)
    requires AreNew(content, partition, batch) && k < |batch|
    ensures SlotOf(partition, batch[k]) !in PutAll(content, partition, batch[..k])
  {
    assert forall i | 0 <= i < k :: batch[..k][i] == batch[i];
    PutAllAdds(content, partition, batch[..k]);
  }

  /** The identifier a record is stored under: its own, or a new one if its kind allows it. */
  function AssignedId(id: Option<string>, kind: string, freshId: string): Option<string> {
    if id.Some? then id else NewId(kind, freshId)
  }

  /** Gives every record of a batch its identifier and version; a kind without enough segments is an error. */
  method AssignIds(recs: seq<Record>, freshIds: seq<string>, versions: seq<nat>) returns (ok: bool)
    requires |freshIds| == |versions| == |recs|
    requires forall i, j | 0 <= i < j < |recs| :: recs[i] != recs[j]
    modifies set r | r in recs
    ensures ok <==> forall i | 0 <= i < |recs| :: AssignedId(old(recs[i].id), old(recs[i].kind), freshIds[i]).Some?
    ensures forall i | 0 <= i < |recs| :: recs[i].kind == old(recs[i].kind) && recs[i].data == old(recs[i].data)
    ensures ok ==> forall i | 0 <= i < |recs| ::
              && recs[i].id == AssignedId(old(recs[i].id), old(recs[i].kind), freshIds[i])
              && recs[i].version == Some(versions[i])
  {
    for k := 0 to |recs|
      invariant forall i | 0 <= i < |recs| :: recs[i].kind == old(recs[i].kind) && recs[i].data == old(recs[i].data)
      invariant forall i | k <= i < |recs| :: recs[i].id == old(recs[i].id)
      invariant forall i | 0 <= i < k ::
                  && recs[i].id == AssignedId(old(recs[i].id), old(recs[i].kind), freshIds[i])
                  && recs[i].version == Some(versions[i]) && recs[i].id.Some?
    {
      var rec := recs[k];
      if rec.id.None? {
        var id := NewId(rec.kind, freshIds[k]);
        if id.None? { return false; }
        rec.id := id;
      }
      rec.version := Some(versions[k]);
    }
    return true;
  }

  class RecordBlobStorage {
    const hash: string -> string
    ghost const ids: set<string>
    var blobs: map<string, Stored>
    /** What the blobs stand for: the versions of every record in every partition. */
    ghost var content: map<Slot, Stored>

    ghost predicate Valid()
      reads this
    {
      Represents(hash, ids, blobs, content)
    }

    ghost function VersionsOf(id: string, partition: string): set<nat>
      reads this
    {
      set s | s in content && s.id == id && s.partition == partition :: s.version
    }

    ghost function SlotsOf(id: string, partition: string): set<Slot>
      reads this
    {
      set s | s in content && s.id == id && s.partition == partition
    }

    constructor (hash: string -> string, ghost ids: set<string>)
      requires HashFits(hash, ids)
      ensures Valid() && this.hash == hash && this.ids == ids && content == map[]
    {
      this.hash, this.ids := hash, ids;
      blobs, content := map[], map[];
    }

    lemma Found(id: string, partition: string, n: string)
      requires Valid() && id in ids && HasNoTag(partition)
      ensures n in blobs && Folder(partition, hash(id)) <= n <==>
              n in blobs && exists v :: Slot(partition, id, v) in content && PathOf(hash, Slot(partition, id, v)) == n
    {
      if n in blobs {
        var s :| s in content && PathOf(hash, s) == n;
        FolderSelects(partition, hash(id), s.partition, hash(s.id), s.version);
        if Folder(partition, hash(id)) <= n {
          assert s == Slot(partition, id, s.version);
        }
        if exists v :: Slot(partition, id, v) in content && PathOf(hash, Slot(partition, id, v)) == n {
          var v :| Slot(partition, id, v) in content && PathOf(hash, Slot(partition, id, v)) == n;
          FolderSelects(partition, hash(id), partition, hash(id), v);
        }
      }
    }

    /** Names of all versions of a record, in order. */
    method AllVersionObjects(id: string, partition: string) returns (names: seq<string>)
      requires Valid() && id in ids && HasNoTag(partition)
      ensures Sorted(names)
      ensures forall n | n in names ::
                && n in blobs && blobs[n].id == id && Slot(partition, id, blobs[n].version) in content
                && n == PathOf(hash, Slot(partition, id, blobs[n].version))
      ensures forall v | v in VersionsOf(id, partition) :: PathOf(hash, Slot(partition, id, v)) in names
    {
      var folder := Folder(partition, hash(id));
      names := SortNames(set n | n in blobs && folder <= n);
      forall n | n in names
        ensures n in blobs && blobs[n].id == id
        ensures Slot(partition, id, blobs[n].version) in content
        ensures n == PathOf(hash, Slot(partition, id, blobs[n].version))
      {
        Found(id, partition, n);
      }
      forall v | v in VersionsOf(id, partition) ensures PathOf(hash, Slot(partition, id, v)) in names {
        assert Slot(partition, id, v) in content;
        Found(id, partition, PathOf(hash, Slot(partition, id, v)));
      }
    }

    /** The version whose object name comes last; the greatest one exactly when that one follows all others. */
    method LatestRecord(id: string, partition: string) returns (r: Option<Stored>)
      requires Valid() && id in ids && HasNoTag(partition)
      ensures r.None? <==> VersionsOf(id, partition) == {}
      ensures r.Some? ==> Slot(partition, id, r.value.version) in content
                          && content[Slot(partition, id, r.value.version)] == r.value
      ensures r.Some? ==> ((forall v | v in VersionsOf(id, partition) :: v <= r.value.version)
                           <==> LatestSortsLast(VersionsOf(id, partition)))
    {
      var names := AllVersionObjects(id, partition);
      if names == [] { return None; }
      var last := names[|names| - 1];
      assert last in names;
      r := Some(blobs[last]);
      var w := r.value.version;
      assert w in VersionsOf(id, partition) by { assert Slot(partition, id, w) in content; }
      LastNameIsLater(names, partition, hash(id), VersionsOf(id, partition), w);
      LastIsGreatest(partition, hash(id), VersionsOf(id, partition), w);
    }

    /** One version, or the latest when none (or zero) is asked for. */
    method GetRecordVersion(id: string, version: Option<nat>, partition: string) returns (r: Option<Stored>)
      requires Valid() && id in ids && HasNoTag(partition)
      ensures IsRequested(r, content, VersionsOf(id, partition), partition, id,
                          if version.Some? then version.value else 0)
    {
      if version.Some? && version.value != 0 {
        var s := Slot(partition, id, version.value);
        var n := PathOf(hash, s);
        if n in blobs {
          ghost var u :| u in content && PathOf(hash, u) == n;
          SlotsHaveOwnPaths(hash, ids, s, u);
          r := Some(blobs[n]);
        } else {
          r := None;
        }
      } else {
        r := LatestRecord(id, partition);
      }
    }

    /** The same with the data restricted to some attributes; `full` is the version it was taken from. */
    method GetRecordAttributes(id: string, version: Option<nat>, partition: string, attributes: seq<string>)
      returns (r: Option<Result<Stored>>, full: Option<Stored>)
      requires Valid() && id in ids && HasNoTag(partition)
      ensures IsRequested(full, content, VersionsOf(id, partition), partition, id,
                          if version.Some? then version.value else 0)
      ensures r.None? <==> full.None?
      ensures r.Some? ==>
        var p := Projection(full.value.data, attributes);
        r.value == if p.Err? then Err(p.error) else Ok(full.value.(data := p.value))
    {
      var found := GetRecordVersion(id, version, partition);
      full := found;
      if found.None? { r := None; return; }
      var p := ProjectAttributes(found.value.data, attributes);
      r := Some(if p.Err? then Err(p.error) else Ok(found.value.(data := p.value)));
    }

    /**
     The bulk URI read through the record that holds only the `wdms` object: the one of the whole record,
     or the same error, exactly when that record reads alike.
     */
    method FetchPartialUri(id: string, version: Option<nat>, partition: string)
      returns (r: Option<Result<BulkUri>>, full: Option<Stored>)
      requires Valid() && id in ids && HasNoTag(partition)
      ensures IsRequested(full, content, VersionsOf(id, partition), partition, id,
                          if version.Some? then version.value else 0)
      ensures r.None? <==> full.None?
      ensures r.Some? ==> (r.value == GetBulkUri(full.value.data) <==> ReadsAlike(full.value.data))
    {
      var found;
      found, full := GetRecordAttributes(id, version, partition, [WDMS_ATTRIBUTE]);
      if found.None? { r := None; return; }
      PartialReadAgrees(full.value.data);
      if found.value.Err? { r := Some(Err(found.value.error)); return; }
      var uri := UriOfRestored(found.value.value.data);
      r := Some(uri);
    }

    method UploadOne(stored: Stored, partition: string)
      requires Valid() && HasNoTag(partition) && stored.id in ids && SlotOf(partition, stored) !in content
      modifies this`blobs, this`content
      ensures Valid() && content == old(content)[SlotOf(partition, stored) := stored]
    {
      var s := SlotOf(partition, stored);
      RepresentsPut(hash, ids, blobs, content, s, stored);
      blobs := blobs[PathOf(hash, s) := stored];
      content := content[s := stored];
    }

    method UploadAll(batch: seq<Stored>, partition: string)
      requires Valid() && HasNoTag(partition) && AreNew(content, partition, batch)
      requires forall i | 0 <= i < |batch| :: batch[i].id in ids
      modifies this`blobs, this`content
      ensures Valid() && content == PutAll(old(content), partition, batch)
    {
      for k := 0 to |batch|
        invariant Valid() && content == PutAll(old(content), partition, batch[..k])
      {
        assert batch[..k + 1][..k] == batch[..k];
        NotYetPut(old(content), partition, batch, k);
        UploadOne(batch[k], partition);
      }
      assert batch[..|batch|] == batch;
    }

    /**
     Stores a new version of every record of a batch, drawn fresh and never zero, and changes nothing else;
     replies with `id:version` for each.  If some record cannot get an identifier nothing is stored.
     */
    method CreateRecords(recs: seq<Record>, partition: string, freshIds: seq<string>, versions: seq<nat>)
      returns (replies: Option<seq<string>>, batch: seq<Stored>)
      requires Valid() && HasNoTag(partition) && |freshIds| == |versions| == |recs|
      requires forall i, j | 0 <= i < j < |recs| :: recs[i] != recs[j] && versions[i] != versions[j]
      requires forall i | 0 <= i < |recs| ::
        var id := AssignedId(recs[i].id, recs[i].kind, freshIds[i]);
        versions[i] > 0 && (id.Some? ==> id.value in ids && Slot(partition, id.value, versions[i]) !in content)
      modifies this`blobs, this`content, set r | r in recs
      ensures Valid()
      ensures replies.None? <==>
              exists i :: 0 <= i < |recs| && AssignedId(old(recs[i].id), old(recs[i].kind), freshIds[i]).None?
      ensures replies.None? ==> content == old(content)
      ensures replies.Some? ==>
        && |replies.value| == |batch| == |recs| && content == PutAll(old(content), partition, batch)
        && forall i | 0 <= i < |recs| ::
             && Some(batch[i].id) == recs[i].id == AssignedId(old(recs[i].id), old(recs[i].kind), freshIds[i])
             && recs[i].version == Some(versions[i])
             && batch[i] == Stored(batch[i].id, old(recs[i].kind), versions[i], old(recs[i].data))
             && replies.value[i] == batch[i].id + ":" + NatText(versions[i])
    {
      batch := [];
      var ok := AssignIds(recs, freshIds, versions);
      if !ok { return None, []; }
      var texts: seq<string> := [];
      for k := 0 to |recs|
        invariant |batch| == |texts| == k
        invariant forall i | 0 <= i < k ::
                    && batch[i] == Stored(recs[i].id.value, recs[i].kind, versions[i], recs[i].data)
                    && texts[i] == batch[i].id + ":" + NatText(versions[i])
      {
        batch := batch + [Stored(recs[k].id.value, recs[k].kind, versions[k], recs[k].data)];
        texts := texts + [recs[k].id.value + ":" + NatText(versions[k])];
      }
      UploadAll(batch, partition);
      replies := Some(texts);
    }

    /** A batch of one. */
    method CreateRecord(rec: Record, partition: string, freshId: string, version: nat) returns (reply: Option<string>)
      requires Valid() && HasNoTag(partition) && version > 0
      requires var id := AssignedId(rec.id, rec.kind, freshId);
        id.Some? ==> id.value in ids && Slot(partition, id.value, version) !in content
      modifies this`blobs, this`content, rec
      ensures Valid()
      ensures reply.None? <==> AssignedId(old(rec.id), old(rec.kind), freshId).None?
      ensures reply.None? ==> content == old(content)
      ensures reply.Some? ==>
        && rec.id == AssignedId(old(rec.id), old(rec.kind), freshId)
        && rec.version == Some(version)
        && reply.value == rec.id.value + ":" + NatText(version)
        && content == old(content)[Slot(partition, rec.id.value, version) :=
             Stored(rec.id.value, old(rec.kind), version, old(rec.data))]
    {
      var replies, batch := CreateRecords([rec], partition, [freshId], [version]);
      if replies.None? { return None; }
      assert batch[..0] == [];
      reply := Some(replies.value[0]);
    }

    method DeleteObjects(names: seq<string>)
      modifies this`blobs
      ensures blobs == old(blobs) - set n | n in names
    {
      for i := 0 to |names|
        invariant blobs == old(blobs) - set n | n in names[..i]
      {
        blobs := blobs - {names[i]};
        assert names[..i + 1] == names[..i] + [names[i]];
      }
      assert names[..|names|] == names;
    }

    /** Removes every version of the record in that partition, and nothing else. */
    method DeleteRecord(id: string, partition: string)
      requires Valid() && id in ids && HasNoTag(partition)
      modifies this`blobs, this`content
      ensures Valid()
      ensures content == old(content) - old(SlotsOf(id, partition))
    {
      var names := AllVersionObjects(id, partition);
      ghost var gone := SlotsOf(id, partition);
      ListedNames(id, partition, names);
      RepresentsDrop(hash, ids, blobs, content, (set n | n in names), gone);
      DeleteObjects(names);
      content := content - gone;
    }

    lemma ListedNames(id: string, partition: string, names: seq<string>)
      requires forall n | n in names ::
                && n in blobs && Slot(partition, id, blobs[n].version) in content
                && n == PathOf(hash, Slot(partition, id, blobs[n].version))
      requires forall v | v in VersionsOf(id, partition) :: PathOf(hash, Slot(partition, id, v)) in names
      ensures (set n | n in names) == set s | s in SlotsOf(id, partition) :: PathOf(hash, s)
    {
      var gone := SlotsOf(id, partition);
      forall s | s in gone ensures PathOf(hash, s) in names {
        assert s == Slot(partition, id, s.version) && s.version in VersionsOf(id, partition);
      }
      forall n | n in names ensures exists s :: s in gone && PathOf(hash, s) == n {
        assert Slot(partition, id, blobs[n].version) in gone;
      }
    }
  }
}
