/** Record identifiers `namespace:type:unique`, optionally followed by `:version`. */
module RecordIds {
  import opened Wrappers
  import opened Text

  predicate IsWord(c: char) { IsDigit(c) || 'a' <= c <= 'z' || 'A' <= c <= 'Z' || c == '_' }

  predicate IsNameChar(c: char) { IsWord(c) || c == '-' || c == '.' }

  predicate IsUniqueChar(c: char) { IsNameChar(c) || c == ':' || c == '%' }

  /** `[\w\-\.]+:[^\:]+:[\w\-\.\:\%]+`, read as a pattern. */
  ghost predicate FitsIdPattern(s: string) {
    exists a, b, c :: Fits(s, a, b, c)
  }

  ghost predicate Fits(s: string, a: string, b: string, c: string) {
    && s == a + ":" + (b + ":" + c)
    && a != "" && b != "" && c != "" && ':' !in b
    && (forall i | 0 <= i < |a| :: IsNameChar(a[i]))
    && (forall i | 0 <= i < |c| :: IsUniqueChar(c[i]))
  }

  /** The same, computed: the first two colons delimit the first two segments. */
  predicate IsRecordId(s: string) {
    var parts := Split(s, ':');
    && |parts| >= 3 && parts[0] != "" && parts[1] != ""
    && var unique := Join(parts[2..], ':');
       && unique != ""
       && (forall i | 0 <= i < |parts[0]| :: IsNameChar(parts[0][i]))
       && (forall i | 0 <= i < |unique| :: IsUniqueChar(unique[i]))
  }

  lemma RecordIdIsPattern(s: string)
    ensures IsRecordId(s) <==> FitsIdPattern(s)
  {
    var parts := Split(s, ':');
    JoinSplit(s, ':');
    if IsRecordId(s) {
      var unique := Join(parts[2..], ':');
      assert parts[1..][1..] == parts[2..];
      assert Fits(s, parts[0], parts[1], unique);
    }
    if FitsIdPattern(s) {
      var a, b, c :| Fits(s, a, b, c);
      SplitCons(b, c, ':');
      SplitCons(a, b + ":" + c, ':');
      JoinSplit(c, ':');
      assert parts == [a] + ([b] + Split(c, ':'));
      assert parts[2..] == Split(c, ':');
    }
  }

  /** A pattern anchored with `$` also accepts one newline at the very end. */
  function Chop(s: string): string { if s != "" && s[|s| - 1] == '\n' then s[..|s| - 1] else s }

  /** Identifier and version: the version is what follows the last colon, when that is a number or nothing. */
  function SplitIdVersion(s: string): (Option<string>, Option<nat>) {
    var t := Chop(s);
    var parts := Split(t, ':');
    var n := |parts|;
    var head, last := Join(parts[..n - 1], ':'), parts[n - 1];
    if n >= 2 && AllDigits(last) && IsRecordId(head) then
      (Some(head), if last == "" then None else Some(TextNat(last)))
    else (if IsRecordId(t) then Some(s) else None, None)
  }

  /**
   The reply `id:version` of the storage yields that version back exactly when the identifier has the
   identifier pattern; otherwise no version is found.
   */
  lemma ReplyYieldsVersion(id: string, version: nat)
    ensures var r := SplitIdVersion(id + ":" + NatText(version));
      (IsRecordId(id) ==> r == (Some(id), Some(version))) && (!IsRecordId(id) ==> r.1.None?)
  {
    var v := NatText(version);
    var s := id + ":" + v;
    assert s[|s| - 1] == v[|v| - 1];
    forall i | 0 <= i < |v| ensures v[i] != ':' { assert IsDigit(v[i]); }
    SplitSnoc(id, v, ':');
    JoinSplit(id, ':');
    var parts := Split(s, ':');
    assert parts[..|parts| - 1] == Split(id, ':');
    NatTextRoundTrip(version);
  }

  /** Identifiers without a colon never fit: neither identifier nor version is found in the reply. */
  lemma NoSegmentsNoVersion(id: string, version: nat)
    requires ':' !in id
    ensures !IsRecordId(id) && SplitIdVersion(id + ":" + NatText(version)) == (None, None)
  {
    var v := NatText(version);
    var s := id + ":" + v;
    SplitNone(id, ':');
    forall i | 0 <= i < |v| ensures v[i] != ':' && v[i] != '\n' { assert IsDigit(v[i]); }
    SplitSnoc(id, v, ':');
    assert Split(s, ':') == [id, v] && [id, v][..1] == [id];
    assert s[|s| - 1] == v[|v| - 1];
  }

  lemma UnreadableReplyExists(version: nat)
    ensures SplitIdVersion("invalid-record" + ":" + NatText(version)) == (None, None)
  {
    NoSegmentsNoVersion("invalid-record", version);
  }

  /** The characters of identifiers. */
  lemma IdentifierCharacters(c: char)
    ensures IsNameChar(c) <==> 'a' <= c <= 'z' || 'A' <= c <= 'Z' || '0' <= c <= '9' || c in "_-."
    ensures IsUniqueChar(c) <==> IsNameChar(c) || c in ":%"
  {
  }

  /** A text `id:version`, where the version may be empty. */
  ghost predicate IsVersioned(s: string, id: string, version: string) {
    s == id + ":" + version && AllDigits(version) && IsRecordId(id)
  }

  lemma VersionedSplits(s: string, id: string, version: string)
    requires IsVersioned(s, id, version)
    ensures SplitIdVersion(s) == (Some(id), if version == "" then None else Some(TextNat(version)))
  {
    forall i | 0 <= i < |version| ensures version[i] != ':' && version[i] != '\n' { assert IsDigit(version[i]); }
    SplitSnoc(id, version, ':');
    JoinSplit(id, ':');
    var parts := Split(s, ':');
    assert parts[..|parts| - 1] == Split(id, ':');
    assert s[|s| - 1] == if version == "" then ':' else version[|version| - 1];
  }

  /**
   Identifier and version of any text that does not end in a newline: those of the pattern with version if it
   fits, else the whole text if it fits the pattern without, else nothing.
   */
  lemma SplitExactly(s: string)
    requires s == "" || s[|s| - 1] != '\n'
    ensures forall id, version | IsVersioned(s, id, version) ::
              SplitIdVersion(s) == (Some(id), if version == "" then None else Some(TextNat(version)))
    ensures (forall id, version :: !IsVersioned(s, id, version)) ==>
              SplitIdVersion(s) == (if IsRecordId(s) then Some(s) else None, None)
  {
    forall id, version | IsVersioned(s, id, version)
      ensures SplitIdVersion(s) == (Some(id), if version == "" then None else Some(TextNat(version)))
    {
      VersionedSplits(s, id, version);
    }
    var parts := Split(s, ':');
    var n := |parts|;
    var head, last := Join(parts[..n - 1], ':'), parts[n - 1];
    if n >= 2 && AllDigits(last) && IsRecordId(head) {
      JoinSplit(s, ':');
      JoinSnoc(parts[..n - 1], last);
      assert parts == parts[..n - 1] + [last];
      assert IsVersioned(s, head, last);
    }
  }

  lemma {:induction false} JoinSnoc(parts: seq<string>, last: string)
    requires |parts| > 0
    ensures Join(parts + [last], ':') == Join(parts, ':') + ":" + last
  {
    var all := parts + [last];
    if |parts| == 1 {
      assert all[1..] == [last];
    } else {
      assert all[1..] == parts[1..] + [last];
      JoinSnoc(parts[1..], last);
    }
  }

  /** One newline at the end is overlooked, and stays part of an identifier without version. */
  lemma NewlineOverlooked(s: string)
    requires s == "" || s[|s| - 1] != '\n'
    ensures SplitIdVersion(s + "\n").1 == SplitIdVersion(s).1
    ensures SplitIdVersion(s + "\n").0 == SplitIdVersion(s).0 || SplitIdVersion(s + "\n").0 == Some(s + "\n")
  {
    assert Chop(s + "\n") == s && Chop(s) == s;
  }

  /** The examples of the documentation. */
  lemma DocumentedIds()
    ensures var id := "namespace" + ":" + ("master-data--custom-type" + ":" + "c7c421a7");
      && SplitIdVersion(id + ":" + "123456") == (Some(id), Some(123456))
      && SplitIdVersion("invalid-record" + ":" + "123456") == (None, None)
  {
    var a, b, c := "namespace", "master-data--custom-type", "c7c421a7";
    var id := a + ":" + (b + ":" + c);
    assert Fits(id, a, b, c);
    RecordIdIsPattern(id);
    assert IsVersioned(id + ":" + "123456", id, "123456");
    VersionedSplits(id + ":" + "123456", id, "123456");
    assert NatText(123456) == "123456" by { SixDigits(); }
    NatTextRoundTrip(123456);
    NoSegmentsNoVersion("invalid-record", 123456);
  }

  lemma SixDigits()
    ensures NatText(123456) == "123456"
  {
    assert NatText(1) == "1";
    assert NatText(12) == "12";
    assert NatText(123) == "123";
    assert NatText(1234) == "1234";
    assert NatText(12345) == "12345";
  }
}
