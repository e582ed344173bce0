/**
 Bulk URIs: a bulk identifier (a UUID) and the storage engine version, printed as
 `urn:uuid:$id` or `urn:wdms-1:uuid:$id`.
 */
module BulkUris {
  import opened Wrappers
  import opened Text

  // ---------- UUID texts, as the host library reads them ----------

  predicate IsHex(c: char) { IsDigit(c) || 'a' <= c <= 'f' }

  predicate IsBrace(c: char) { c == '{' || c == '}' }

  /** What follows a sign and a base prefix. */
  function AfterPrefix(t: string): string {
    var u := if t != "" && t[0] == '+' then t[1..] else t;
    if |u| >= 2 && u[0] == '0' && u[1] == 'x'
    then if |u| >= 3 && u[2] == '_' then u[3..] else u[2..]
    else u
  }

  /** The literal forms accepted for base 16: surrounding space, a sign, a `0x` prefix, either letter case. */
  function HexLiteral(s: string): (r: Option<string>)
    ensures r.Some? ==> forall i | 0 <= i < |r.value| :: IsHex(r.value[i])
  {
    Separated(AfterPrefix(Strip(LowerText(s), IsSpace)), IsHex)
  }

  predicate HexWord(s: string) { |s| == 32 && forall i | 0 <= i < |s| :: IsHex(s[i]) }

  function Zeros(n: nat): (z: string)
    ensures |z| == n && forall i | 0 <= i < n :: z[i] == '0'
  {
    seq(n, _ => '0')
  }

  /** Hyphenated lower-case form. */
  function Hyphenate(d: string): (s: string)
    requires HexWord(d)
    ensures |s| == 36
  {
    d[..8] + "-" + d[8..12] + "-" + d[12..16] + "-" + d[16..20] + "-" + d[20..]
  }

  ghost predicate Canonical(s: string) { exists d :: HexWord(d) && s == Hyphenate(d) }

  /** Braces and hyphens are dropped, and 32 characters must remain. */
  function UuidOf(plain: string): (r: Option<string>)
    ensures r.Some? ==> Canonical(r.value)
  {
    var hex := Erase(Strip(plain, IsBrace), "-");
    if |hex| != 32 then None
    else
      var digits := HexLiteral(hex);
      if digits.None? || |digits.value| > 32 then None
      else
        var d := Zeros(32 - |digits.value|) + digits.value;
        assert HexWord(d);
        Some(Hyphenate(d))
  }

  /** The canonical text of the UUID that `text` denotes, if it denotes one. */
  function ParseUuid(text: string): (r: Option<string>)
    ensures r.Some? ==> Canonical(r.value)
  {
    UuidOf(Erase(Erase(text, "urn:"), "uuid:"))
  }

  // ---------- the URI itself ----------

  datatype StorageVersion = V0 | V1 | Invalid

  datatype BulkUri = BulkUri(bulkId: string, version: StorageVersion)

  const URN := "urn"
  const UUID := "uuid"
  const V1_PREFIX := "wdms-1"

  const INVALID_URI := BulkUri("", Invalid)

  predicate IsValid(u: BulkUri) { u.bulkId != "" && !u.version.Invalid? }

  /** Constructor: `None` is the ValueError of a malformed identifier. */
  function Make(bulkId: string, version: StorageVersion): Option<BulkUri> {
    if bulkId == "" || version.Invalid? then Some(INVALID_URI)
    else if ParseUuid(bulkId).None? then None
    else Some(BulkUri(bulkId, version))
  }

  function Encode(u: BulkUri): Option<string> {
    if u.version.V1? then Some(URN + ":" + V1_PREFIX + ":" + UUID + ":" + u.bulkId)
    else
      var id := ParseUuid(u.bulkId);
      if id.None? then None else Some(URN + ":" + UUID + ":" + id.value)
  }

  function EncodeForDatasets(u: BulkUri): string {
    if u.version.V1? then "urn://" + V1_PREFIX + "/uuid:" + u.bulkId else "urn://uuid:" + u.bulkId
  }

  /** Identifier and prefix; an absent prefix reads as the empty one. */
  function DecodeParts(uri: string): Option<(string, string)> {
    var parts := Split(uri, ':');
    if |parts| < 4 then
      var id := ParseUuid(uri);
      if id.None? then None else Some((id.value, ""))
    else
      var n := |parts|;
      var id := ParseUuid(parts[0] + ":" + parts[n - 2] + ":" + parts[n - 1]);
      if id.None? then None else Some((id.value, Join(parts[1..n - 2], ':')))
  }

  function Decode(uri: string): Option<BulkUri> {
    if uri == "" then Some(INVALID_URI)
    else
      var d := DecodeParts(uri);
      if d.None? then None
      else if d.value.1 == "" then Make(d.value.0, V0)
      else if d.value.1 == V1_PREFIX then Make(d.value.0, V1)
      else None
  }

  // ---------- reading back what was printed ----------

  /** Hexadecimal digits in either case. */
  predicate AnyHex(s: string) { forall i | 0 <= i < |s| :: IsHex(Lower(s[i])) }

  lemma HexLiteralInAnyCase(s: string)
    requires |s| == 32 && AnyHex(s)
    ensures HexLiteral(s) == Some(LowerText(s)) && HexWord(LowerText(s))
  {
    var l := LowerText(s);
    assert forall i | 0 <= i < 32 :: l[i] == Lower(s[i]);
    assert IsHex(l[0]) && IsHex(l[1]) && IsHex(l[31]);
    LiteralReads(s, l, l);
  }

  lemma HexLiteralOfHex(s: string)
    requires HexWord(s)
    ensures HexLiteral(s) == Some(s)
  {
    assert forall i | 0 <= i < 32 :: IsHex(s[i]) && Lower(s[i]) == s[i];
    assert LowerText(s) == s;
    HexLiteralInAnyCase(s);
  }

  lemma DashesErased(d: string)
    requires HexWord(d)
    ensures Erase(Hyphenate(d), "-") == d
  {
    assert '-' !in d;
    var tail := d[20..];
    var t4 := d[16..20] + ("-" + tail);
    var t3 := d[12..16] + ("-" + t4);
    var t2 := d[8..12] + ("-" + t3);
    assert Hyphenate(d) == d[..8] + ("-" + t2);
    EraseAbsent(tail, "-", '-');
    EraseDash(d[16..20], tail);
    EraseDash(d[12..16], t4);
    EraseDash(d[8..12], t3);
    EraseDash(d[..8], t2);
    assert d == d[..8] + (d[8..12] + (d[12..16] + (d[16..20] + tail)));
  }

  lemma EraseDash(a: string, b: string)
    requires '-' !in a
    ensures Erase(a + ("-" + b), "-") == a + Erase(b, "-")
  {
    EraseOne(a, "-" + b, '-');
    var s := "-" + b;
    assert s[..1] == "-" && s[1..] == b;
  }

  lemma HyphenatedChars(d: string, i: nat)
    requires HexWord(d) && i < 36
    ensures var c := Hyphenate(d)[i]; IsHex(c) || c == '-'
    ensures IsHex(Hyphenate(d)[0]) && IsHex(Hyphenate(d)[35])
  {
  }

  /** A canonical text denotes itself, and prefixing `urn:uuid:` changes nothing for any text without a colon. */
  lemma CanonicalReadsItself(s: string)
    requires Canonical(s)
    ensures ParseUuid(s) == Some(s) && ':' !in s && s != ""
  {
    var d :| HexWord(d) && s == Hyphenate(d);
    forall i | 0 <= i < |s| ensures s[i] != ':' && !IsBrace(s[i]) { HyphenatedChars(d, i); }
    EraseAbsent(s, "urn:", ':');
    EraseAbsent(s, "uuid:", ':');
    StripNothing(s, IsBrace);
    DashesErased(d);
    HexLiteralOfHex(d);
    assert Zeros(0) + d == d;
  }

  lemma UrnErased(raw: string)
    requires ':' !in raw
    ensures Erase(Erase("urn:uuid:" + raw, "urn:"), "uuid:") == raw
  {
    var s := "urn:uuid:" + raw;
    var t := "uuid:" + raw;
    assert s[..4] == "urn:" && s[4..] == t;
    EraseUrnInUuid(raw);
    assert Erase(s, "urn:") == t;
    assert t[..5] == "uuid:" && t[5..] == raw;
    EraseAbsent(raw, "uuid:", ':');
  }

  lemma UrnPrefixErased(raw: string)
    requires ':' !in raw
    ensures ParseUuid("urn:uuid:" + raw) == ParseUuid(raw)
  {
    UrnErased(raw);
    NothingToErase(raw);
  }

  lemma NothingToErase(t: string)
    requires ':' !in t
    ensures Erase(Erase(t, "urn:"), "uuid:") == t
  {
    EraseAbsent(t, "urn:", ':');
    EraseAbsent(t, "uuid:", ':');
  }

  lemma EraseUrnInUuid(raw: string)
    requires ':' !in raw
    ensures Erase("uuid:" + raw, "urn:") == "uuid:" + raw
  {
    var t := "uuid:" + raw;
    forall i: nat ensures !OccursAt(t, "urn:", i) {
      if i + 4 <= |t| {
        assert t[i..i + 4][3] == t[i + 3];
        assert t[i..i + 4][0] == t[i];
        if i + 3 > 4 { assert t[i + 3] == raw[i - 2]; }
      }
    }
    EraseNothing(t, "urn:");
  }

  lemma SplitTwo(a: string, b: string, raw: string)
    requires ':' !in a && ':' !in b
    ensures Split(a + ":" + b + ":" + raw, ':') == [a, b] + Split(raw, ':')
  {
    SplitCons(b, raw, ':');
    SplitCons(a, b + ":" + raw, ':');
    assert a + ":" + b + ":" + raw == a + ":" + (b + ":" + raw);
    assert [a] + ([b] + Split(raw, ':')) == [a, b] + Split(raw, ':');
  }

  lemma SplitThree(a: string, b: string, c: string, raw: string)
    requires ':' !in a && ':' !in b && ':' !in c
    ensures Split(a + ":" + b + ":" + c + ":" + raw, ':') == [a, b, c] + Split(raw, ':')
  {
    SplitTwo(b, c, raw);
    SplitCons(a, b + ":" + c + ":" + raw, ':');
    assert a + ":" + b + ":" + c + ":" + raw == a + ":" + (b + ":" + c + ":" + raw);
    assert [a] + ([b, c] + Split(raw, ':')) == [a, b, c] + Split(raw, ':');
  }

  lemma UrnText(raw: string)
    ensures URN + ":" + UUID + ":" + raw == "urn:uuid:" + raw
  {
    assert URN + ":" + UUID + ":" == "urn:uuid:";
  }

  /** Reading a text of at least four segments. */
  lemma PartsOfFour(uri: string, a: string, b: string, c: string, raw: string)
    requires Split(uri, ':') == [a, b, c] + Split(raw, ':')
    ensures ':' !in raw && ParseUuid(a + ":" + c + ":" + raw).Some? ==>
              DecodeParts(uri) == Some((ParseUuid(a + ":" + c + ":" + raw).value, b))
    ensures ':' in raw && DecodeParts(uri).Some? ==> |DecodeParts(uri).value.1| > |b|
  {
    var parts, tail := Split(uri, ':'), Split(raw, ':');
    var n := |parts|;
    if ':' in raw {
      JoinSplit(raw, ':');
      assert |tail| >= 2;
      assert parts[1..n - 2][0] == b && parts[1..n - 2][1] == c;
    } else {
      SplitNone(raw, ':');
      assert parts == [a, b, c, raw] && parts[1..2] == [b];
    }
  }

  lemma DecodeV1(uri: string, id: string)
    requires uri != "" && DecodeParts(uri) == Some((id, V1_PREFIX)) && id != "" && ParseUuid(id).Some?
    ensures Decode(uri) == Some(BulkUri(id, V1))
  {
  }

  lemma DecodeLongPrefix(uri: string)
    requires uri != "" && (DecodeParts(uri).Some? ==> |DecodeParts(uri).value.1| > |V1_PREFIX|)
    ensures Decode(uri).None?
  {
  }

  /** A V1 URI reads back as V1 with the canonical form of its identifier, exactly when that has no colon. */
  lemma V1ReadsBack(raw: string)
    requires raw != "" && ParseUuid(raw).Some?
    ensures Encode(BulkUri(raw, V1)).Some? && Encode(BulkUri(raw, V1)).value != ""
    ensures Decode(Encode(BulkUri(raw, V1)).value)
            == if ':' in raw then None else Some(BulkUri(ParseUuid(raw).value, V1))
  {
    var uri := URN + ":" + V1_PREFIX + ":" + UUID + ":" + raw;
    SplitThree(URN, V1_PREFIX, UUID, raw);
    PartsOfFour(uri, URN, V1_PREFIX, UUID, raw);
    if ':' in raw {
      DecodeLongPrefix(uri);
    } else {
      UrnText(raw);
      UrnPrefixErased(raw);
      var id := ParseUuid(raw).value;
      CanonicalReadsItself(id);
      DecodeV1(uri, id);
    }
  }

  /** Reading a text of three segments. */
  lemma PartsOfThree(uri: string, a: string, b: string, c: string)
    requires Split(uri, ':') == [a, b, c]
    ensures DecodeParts(uri) == var id := ParseUuid(uri); if id.None? then None else Some((id.value, ""))
  {
  }

  /** A V0 URI is printed in normal form, so it reads back as V0 whatever accepted text its identifier was. */
  lemma V0ReadsBack(raw: string)
    requires ParseUuid(raw).Some?
    ensures Encode(BulkUri(raw, V0)).Some? && Encode(BulkUri(raw, V0)).value != ""
    ensures Decode(Encode(BulkUri(raw, V0)).value) == Some(BulkUri(ParseUuid(raw).value, V0))
  {
    var id := ParseUuid(raw).value;
    CanonicalReadsItself(id);
    var uri := Encode(BulkUri(raw, V0)).value;
    SplitNone(id, ':');
    SplitTwo(URN, UUID, id);
    PartsOfThree(uri, URN, UUID, id);
    UrnText(id);
    UrnPrefixErased(id);
  }

  /** Every UUID has such an unreadable spelling: its own URN, accepted as an identifier and printed. */
  lemma UrnIdentifierIsLost(id: string)
    requires Canonical(id)
    ensures var raw := "urn:uuid:" + id;
      && Make(raw, V1) == Some(BulkUri(raw, V1))
      && Decode(Encode(BulkUri(raw, V1)).value).None?
      && Decode(Encode(BulkUri(raw, V0)).value) == Some(BulkUri(id, V0))
  {
    var raw := "urn:uuid:" + id;
    CanonicalReadsItself(id);
    UrnPrefixErased(id);
    assert raw[3] == ':';
    V1ReadsBack(raw);
    V0ReadsBack(raw);
  }

  /** On canonical identifiers decoding undoes encoding, version included. */
  lemma DecodeUndoesEncode(u: BulkUri)
    requires Canonical(u.bulkId) && !u.version.Invalid?
    ensures Encode(u).Some? && Encode(u).value != "" && Decode(Encode(u).value) == Some(u)
  {
    CanonicalReadsItself(u.bulkId);
    if u.version.V1? { V1ReadsBack(u.bulkId); } else { V0ReadsBack(u.bulkId); }
  }

  lemma EncodeIsInjective(u: BulkUri, v: BulkUri)
    requires Canonical(u.bulkId) && !u.version.Invalid? && Canonical(v.bulkId) && !v.version.Invalid?
    ensures Encode(u) == Encode(v) <==> u == v
  {
    DecodeUndoesEncode(u);
    DecodeUndoesEncode(v);
  }

  /** Every accepted text has a normal form: what it decodes to is canonical and survives being printed again. */
  lemma DecodeNormalForm(s: string)
    requires s != "" && Decode(s).Some?
    ensures var u := Decode(s).value;
      && IsValid(u) && Canonical(u.bulkId)
      && Encode(u).Some? && Decode(Encode(u).value) == Some(u)
  {
    var d := DecodeParts(s).value;
    CanonicalReadsItself(d.0);
    DecodeUndoesEncode(Decode(s).value);
  }

  // ---------- which texts denote which UUID ----------

  lemma HexLetters(c: char)
    ensures IsHex(c) <==> c in "0123456789abcdef"
  {
    var s := "0123456789abcdef";
    if IsDigit(c) { assert s[c as int - '0' as int] == c; }
    if 'a' <= c <= 'f' { assert s[c as int - 'a' as int + 10] == c; }
  }

  /** Hyphens after 8, 12, 16 and 20 digits, and nothing else between them. */
  lemma HyphensAt(d: string)
    requires HexWord(d)
    ensures var s := Hyphenate(d);
      && s[8] == s[13] == s[18] == s[23] == '-' && Erase(s, "-") == d
      && forall i | 0 <= i < 36 && i !in {8, 13, 18, 23} :: s[i] != '-'
  {
    DashesErased(d);
    var s := Hyphenate(d);
    assert forall i | 0 <= i < 8 :: s[i] == d[i];
    assert forall i | 9 <= i < 13 :: s[i] == d[i - 1];
    assert forall i | 14 <= i < 18 :: s[i] == d[i - 2];
    assert forall i | 19 <= i < 23 :: s[i] == d[i - 3];
    assert forall i | 24 <= i < 36 :: s[i] == d[i - 4];
  }

  /** What the bare 32 characters denote, once nothing else is left to remove. */
  lemma BareReads(hex: string, digits: string)
    requires |hex| == 32 && ':' !in hex && '-' !in hex && !IsBrace(hex[0]) && !IsBrace(hex[31])
    requires HexLiteral(hex) == Some(digits) && |digits| <= 32
    ensures HexWord(Zeros(32 - |digits|) + digits)
    ensures ParseUuid(hex) == Some(Hyphenate(Zeros(32 - |digits|) + digits))
  {
    NothingToErase(hex);
    StripNothing(hex, IsBrace);
    EraseAbsent(hex, "-", '-');
  }

  /** Thirty-two digits in either case, with hyphens wherever they are. */
  lemma DigitsRead(t: string)
    requires t != "" && ':' !in t && !IsBrace(t[0]) && !IsBrace(t[|t| - 1])
    requires |Erase(t, "-")| == 32 && AnyHex(Erase(t, "-"))
    ensures HexWord(LowerText(Erase(t, "-"))) && ParseUuid(t) == Some(Hyphenate(LowerText(Erase(t, "-"))))
  {
    NothingToErase(t);
    StripNothing(t, IsBrace);
    HexLiteralInAnyCase(Erase(t, "-"));
    assert Zeros(0) + LowerText(Erase(t, "-")) == LowerText(Erase(t, "-"));
  }

  lemma {:induction false} EraseThenLower(t: string)
    ensures LowerText(Erase(t, "-")) == Erase(LowerText(t), "-")
  {
    var l := LowerText(t);
    if t != "" {
      assert l[1..] == LowerText(t[1..]);
      assert t[..1] == "-" <==> t[0] == '-';
      assert l[..1] == "-" <==> l[0] == '-';
      EraseThenLower(t[1..]);
      if t[0] != '-' {
        var rest := Erase(t[1..], "-");
        assert LowerText([t[0]] + rest) == [Lower(t[0])] + LowerText(rest);
      }
    }
  }

  lemma {:induction false} ErasedCharacters(t: string, i: nat)
    requires i < |Erase(t, "-")|
    ensures Erase(t, "-")[i] in t
  {
    if t != "" {
      if t[..1] == "-" { ErasedCharacters(t[1..], i); }
      else if i > 0 { ErasedCharacters(t[1..], i - 1); }
    }
  }

  /** The printed form in any letter case denotes the UUID of its lower-case form. */
  lemma AnyCaseReads(t: string)
    requires Canonical(LowerText(t))
    ensures ParseUuid(t) == Some(LowerText(t))
  {
    var d :| HexWord(d) && LowerText(t) == Hyphenate(d);
    forall i | 0 <= i < |t| ensures t[i] != ':' && !IsBrace(t[i]) {
      HyphenatedChars(d, i);
      assert Lower(t[i]) == LowerText(t)[i];
    }
    DashesErased(d);
    EraseThenLower(t);
    var h := Erase(t, "-");
    assert forall i | 0 <= i < |h| :: LowerText(h)[i] == Lower(h[i]);
    DigitsRead(t);
  }

  /** Two such texts denote the same UUID exactly when they differ in letter case only. */
  lemma SameUuidIffSameLetters(t: string, u: string)
    requires Canonical(LowerText(t)) && Canonical(LowerText(u))
    ensures ParseUuid(t) == ParseUuid(u) <==> LowerText(t) == LowerText(u)
  {
    AnyCaseReads(t);
    AnyCaseReads(u);
  }

  /** Different digits are different UUIDs. */
  lemma HyphenateIsInjective(d: string, e: string)
    requires HexWord(d) && HexWord(e)
    ensures Hyphenate(d) == Hyphenate(e) <==> d == e
  {
    DashesErased(d);
    DashesErased(e);
  }

  /** Braces around a text change nothing. */
  lemma BracesErased(t: string)
    requires t != "" && ':' !in t && !IsBrace(t[0]) && !IsBrace(t[|t| - 1])
    ensures ParseUuid("{" + t + "}") == ParseUuid(t)
  {
    var s := "{" + t + "}";
    NothingToErase(t);
    NothingToErase(s);
    assert s[1..] == t + "}";
    assert (t + "}")[..|t|] == t && (t + "}")[0] == t[0];
    StripNothing(t, IsBrace);
    assert Strip(t + "}", IsBrace) == Strip(t, IsBrace);
  }

  /** Only 32 characters are accepted once prefixes, braces and hyphens are gone. */
  lemma WrongLengthRejected(t: string)
    requires ':' !in t && t != "" && !IsBrace(t[0]) && !IsBrace(t[|t| - 1]) && |Erase(t, "-")| != 32
    ensures ParseUuid(t).None?
  {
    NothingToErase(t);
    StripNothing(t, IsBrace);
  }

  // ---------- literal forms among the 32 characters ----------

  /** A literal whose ends are no space and whose digits `d` remain after sign and prefix. */
  lemma LiteralReads(s: string, l: string, d: string)
    requires l == LowerText(s) && l != "" && !IsSpace(l[0]) && !IsSpace(l[|l| - 1])
    requires AfterPrefix(l) == d != "" && forall i | 0 <= i < |d| :: IsHex(d[i])
    ensures HexLiteral(s) == Some(d)
  {
    StripNothing(l, IsSpace);
    AllDigitsSeparated(d, IsHex);
  }

  /** What precedes the digits `h` counts among the 32 characters and leaves as many zeros. */
  lemma PrefixedReads(s: string, h: string)
    requires |s| == 32 && 0 < |h| < 32 && AnyHex(h) && s[32 - |h|..] == h
    requires forall i | 0 <= i < 32 - |h| :: s[i] in "+0x"
    requires AfterPrefix(LowerText(s)) == LowerText(h)
    ensures HexWord(Zeros(32 - |h|) + LowerText(h))
    ensures ParseUuid(s) == Some(Hyphenate(Zeros(32 - |h|) + LowerText(h)))
  {
    var k, l, d := 32 - |h|, LowerText(s), LowerText(h);
    assert forall i | 0 <= i < |h| :: s[i + k] == h[i] && d[i] == Lower(h[i]) && IsHex(d[i]);
    forall i | 0 <= i < 32 ensures s[i] != ':' && s[i] != '-' && !IsBrace(s[i]) && !IsSpace(l[i]) {
      if i >= k { assert s[i] == h[i - k]; }
    }
    LiteralReads(s, l, d);
    BareReads(s, d);
  }

  /** A base prefix counts for two characters. */
  lemma BasePrefixReads(h: string)
    requires |h| == 30 && AnyHex(h)
    ensures HexWord("00" + LowerText(h)) && ParseUuid("0x" + h) == Some(Hyphenate("00" + LowerText(h)))
  {
    var s := "0x" + h;
    var l := LowerText(s);
    assert l[2..] == LowerText(h) && l[2] == Lower(h[0]) && IsHex(l[2]) && s[2..] == h;
    PrefixedReads(s, h);
    assert Zeros(2) == "00";
  }

  /** A sign counts for one. */
  lemma SignReads(h: string)
    requires |h| == 31 && AnyHex(h)
    ensures HexWord("0" + LowerText(h)) && ParseUuid("+" + h) == Some(Hyphenate("0" + LowerText(h)))
  {
    var s := "+" + h;
    var l := LowerText(s);
    assert l[1..] == LowerText(h) && l[2] == Lower(h[1]) && IsHex(l[2]) && s[1..] == h;
    PrefixedReads(s, h);
    assert Zeros(1) == "0";
  }

  /** In general: without space at its ends, a literal is a sign, a prefix, and digits with single underscores. */
  lemma LiteralExactly(s: string)
    requires s != "" && !IsSpace(Lower(s[0])) && !IsSpace(Lower(s[|s| - 1]))
    ensures var v := AfterPrefix(LowerText(s));
      && (HexLiteral(s).Some? <==> WellSeparated(v, IsHex))
      && (HexLiteral(s).Some? ==> HexLiteral(s).value == Erase(v, "_"))
  {
    StripNothing(LowerText(s), IsSpace);
    SeparatedExactly(AfterPrefix(LowerText(s)), IsHex);
  }

  /** The printed forms. */
  lemma PrintedForms(id: string)
    requires Canonical(id)
    ensures Encode(BulkUri(id, V1)) == Some("urn:wdms-1:uuid:" + id)
    ensures Encode(BulkUri(id, V0)) == Some("urn:uuid:" + id)
    ensures EncodeForDatasets(BulkUri(id, V1)) == "urn://wdms-1/uuid:" + id
    ensures EncodeForDatasets(BulkUri(id, V0)) == "urn://uuid:" + id
    ensures Decode("urn:wdms-1:uuid:" + id) == Some(BulkUri(id, V1))
    ensures Decode("urn:uuid:" + id) == Some(BulkUri(id, V0))
  {
    CanonicalReadsItself(id);
    UrnText(id);
    V1Text(id);
    DecodeUndoesEncode(BulkUri(id, V1));
    DecodeUndoesEncode(BulkUri(id, V0));
  }

  lemma V1Text(raw: string)
    ensures Encode(BulkUri(raw, V1)) == Some("urn:wdms-1:uuid:" + raw)
    ensures EncodeForDatasets(BulkUri(raw, V1)) == "urn://wdms-1/uuid:" + raw
  {
    assert URN + ":" + V1_PREFIX + ":" + UUID + ":" == "urn:wdms-1:uuid:";
    assert "urn://" + V1_PREFIX + "/uuid:" == "urn://wdms-1/uuid:";
  }

  /** A dataset entry determines storage version and identifier. */
  lemma DatasetFormIsInjective(u: BulkUri, v: BulkUri)
    requires !u.version.Invalid? && !v.version.Invalid?
    ensures EncodeForDatasets(u) == EncodeForDatasets(v) <==> u == v
  {
    V1Text(u.bulkId);
    V1Text(v.bulkId);
    var s, t := EncodeForDatasets(u), EncodeForDatasets(v);
    if s == t {
      assert s[6] == (if u.version.V1? then 'w' else 'u') && t[6] == (if v.version.V1? then 'w' else 'u');
      if u.version.V1? { assert s[18..] == u.bulkId && t[18..] == v.bulkId; }
      else { assert s[11..] == u.bulkId && t[11..] == v.bulkId; }
    }
  }
}
