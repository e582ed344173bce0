/** String operations of the host language that the models rely on. */
module Text {
  import opened Wrappers

  /** Cuts at every occurrence of `c`; the result is never empty. */
  function Split(s: string, c: char): (parts: seq<string>)
    ensures |parts| >= 1
    ensures forall i | 0 <= i < |parts| :: c !in parts[i]
  {
    if s == "" then [""]
    else
      var rest := Split(s[1..], c);
      if s[0] == c then [""] + rest else [[s[0]] + rest[0]] + rest[1..]
  }

  function Join(parts: seq<string>, c: char): string {
    if |parts| == 0 then ""
    else if |parts| == 1 then parts[0]
    else parts[0] + [c] + Join(parts[1..], c)
  }

  lemma {:induction false} SplitCons(a: string, b: string, c: char)
    requires c !in a
    ensures Split(a + [c] + b, c) == [a] + Split(b, c)
  {
    var s := a + [c] + b;
    if a == "" {
      assert s[1..] == b;
    } else {
      assert s[1..] == a[1..] + [c] + b;
      SplitCons(a[1..], b, c);
      assert [a[0]] + a[1..] == a;
    }
  }

  lemma {:induction false} SplitNone(a: string, c: char)
    requires c !in a
    ensures Split(a, c) == [a]
  {
    if a != "" {
      SplitNone(a[1..], c);
      assert [a[0]] + a[1..] == a;
    }
  }

  lemma {:induction false} SplitSnoc(a: string, b: string, c: char)
    requires c !in b
    ensures Split(a + [c] + b, c) == Split(a, c) + [b]
  {
    if a == "" {
      SplitCons("", b, c);
      SplitNone(b, c);
      assert a + [c] + b == "" + [c] + b;
    } else {
      var s := a + [c] + b;
      assert s[1..] == a[1..] + [c] + b;
      SplitSnoc(a[1..], b, c);
      var rest := Split(a[1..], c);
      assert s[0] == a[0] && Split(s[1..], c) == rest + [b];
      if a[0] == c {
        assert [""] + (rest + [b]) == ([""] + rest) + [b];
      } else {
        assert (rest + [b])[0] == rest[0] && (rest + [b])[1..] == rest[1..] + [b];
      }
    }
  }

  lemma {:induction false} JoinSplit(s: string, c: char)
    ensures Join(Split(s, c), c) == s
  {
    if s != "" {
      var rest := Split(s[1..], c);
      JoinSplit(s[1..], c);
      if s[0] == c {
        assert ([""] + rest)[1..] == rest;
        assert s == [c] + s[1..];
      } else {
        var parts := [[s[0]] + rest[0]] + rest[1..];
        assert parts[1..] == rest[1..];
        assert s == [s[0]] + s[1..];
      }
    }
  }

  /** Position of the first colon, or the length. */
  function FirstColon(t: string): (q: nat)
    ensures q <= |t| && (q < |t| ==> t[q] == ':')
    ensures forall i | 0 <= i < q :: t[i] != ':'
  {
    if t == "" || t[0] == ':' then 0 else 1 + FirstColon(t[1..])
  }

  lemma {:induction false} FirstColonAfter(a: string, b: string)
    requires ':' !in a
    ensures FirstColon(a + ":" + b) == |a|
  {
    var t := a + ":" + b;
    if a != "" {
      assert t[1..] == a[1..] + ":" + b;
      FirstColonAfter(a[1..], b);
    }
  }

  function Lower(c: char): char { if 'A' <= c <= 'Z' then c + ('a' - 'A') else c }

  function LowerText(s: string): string { seq(|s|, i requires 0 <= i < |s| => Lower(s[i])) }

  lemma LowerLetters()
    ensures LowerText("ABCDEFGHIJKLMNOPQRSTUVWXYZ") == "abcdefghijklmnopqrstuvwxyz"
    ensures forall c: char | !('A' <= c <= 'Z') :: Lower(c) == c
  {
  }

  /** Removes the occurrences of `pat`, scanning once from the left. */
  function Erase(s: string, pat: string): string
    requires pat != ""
  {
    if |s| < |pat| then s
    else if s[..|pat|] == pat then Erase(s[|pat|..], pat)
    else [s[0]] + Erase(s[1..], pat)
  }

  predicate OccursAt(s: string, pat: string, i: nat) { i + |pat| <= |s| && s[i..i + |pat|] == pat }

  lemma {:induction false} EraseNothing(s: string, pat: string)
    requires pat != "" && forall i: nat :: !OccursAt(s, pat, i)
    ensures Erase(s, pat) == s
  {
    if |s| >= |pat| {
      assert !OccursAt(s, pat, 0);
      var rest := s[1..];
      forall i: nat ensures !OccursAt(rest, pat, i) {
        assert i + |pat| <= |rest| ==> rest[i..i + |pat|] == s[i + 1..i + 1 + |pat|];
        assert !OccursAt(s, pat, i + 1);
      }
      EraseNothing(rest, pat);
      assert [s[0]] + rest == s;
    }
  }

  lemma EraseAbsent(s: string, pat: string, c: char)
    requires pat != "" && c in pat && c !in s
    ensures Erase(s, pat) == s
  {
    var k :| 0 <= k < |pat| && pat[k] == c;
    forall i: nat ensures !OccursAt(s, pat, i) {
      assert i + |pat| <= |s| ==> s[i..i + |pat|][k] == s[i + k];
    }
    EraseNothing(s, pat);
  }

  lemma {:induction false} EraseOne(a: string, b: string, c: char)
    requires c !in a
    ensures Erase(a + b, [c]) == a + Erase(b, [c])
    decreases |a|
  {
    var s := a + b;
    if a == "" {
      assert s == b;
    } else {
      assert s[..1] == [a[0]];
      assert s[1..] == a[1..] + b;
      EraseOne(a[1..], b, c);
    }
  }

  /** Cuts at every occurrence of the text `pat`, scanning once from the left. */
  function SplitText(s: string, pat: string): (parts: seq<string>)
    requires pat != ""
    ensures |parts| >= 1
  {
    if |s| < |pat| then [s]
    else if s[..|pat|] == pat then [""] + SplitText(s[|pat|..], pat)
    else
      var rest := SplitText(s[1..], pat);
      [[s[0]] + rest[0]] + rest[1..]
  }

  predicate IsSpace(c: char) { c in " \t\n\r\U{0B}\U{0C}\U{1C}\U{1D}\U{1E}\U{1F}" }

  /** Drops such characters at both ends. */
  function Strip(s: string, drop: char -> bool): string {
    if s != "" && drop(s[0]) then Strip(s[1..], drop)
    else if s != "" && drop(s[|s| - 1]) then Strip(s[..|s| - 1], drop)
    else s
  }

  lemma {:induction false} StripNothing(s: string, drop: char -> bool)
    requires s == "" || (!drop(s[0]) && !drop(s[|s| - 1]))
    ensures Strip(s, drop) == s
  {
  }

  /** Digits of a numeric literal, where single underscores may separate digits. */
  function Separated(s: string, digit: char -> bool): (r: Option<string>)
    ensures r.Some? ==> 0 < |r.value| <= |s| && forall i | 0 <= i < |r.value| :: digit(r.value[i])
  {
    if s == "" || !digit(s[0]) then None
    else if |s| == 1 then Some(s)
    else
      var rest := Separated(if s[1] == '_' then s[2..] else s[1..], digit);
      if rest.None? then None else Some([s[0]] + rest.value)
  }

  /** Digits with single underscores between them. */
  ghost predicate WellSeparated(s: string, digit: char -> bool) {
    && s != "" && s[0] != '_' && s[|s| - 1] != '_'
    && (forall i | 0 <= i < |s| :: digit(s[i]) || s[i] == '_')
    && (forall i, j | 0 <= i < j < |s| && j == i + 1 :: s[i] != '_' || s[j] != '_')
  }

  lemma SeparatedRest(s: string, digit: char -> bool)
    requires |s| > 1 && !digit('_')
    ensures WellSeparated(s, digit) <==>
            digit(s[0]) && WellSeparated(if s[1] == '_' then s[2..] else s[1..], digit)
  {
    var k := if s[1] == '_' then 2 else 1;
    var rest := s[k..];
    assert forall i | 0 <= i < |rest| :: rest[i] == s[i + k];
    if WellSeparated(s, digit) {
      forall i, j | 0 <= i < j < |rest| && j == i + 1 ensures rest[i] != '_' || rest[j] != '_' {
        assert s[i + k] != '_' || s[j + k] != '_';
      }
    }
    if digit(s[0]) && WellSeparated(rest, digit) {
      forall i | 0 <= i < |s| ensures digit(s[i]) || s[i] == '_' {
        if i >= k { assert s[i] == rest[i - k]; }
      }
      forall i, j | 0 <= i < j < |s| && j == i + 1 ensures s[i] != '_' || s[j] != '_' {
        if i >= k { assert s[i] == rest[i - k] && s[j] == rest[j - k]; }
      }
      assert s[|s| - 1] == rest[|rest| - 1];
    }
  }

  /** Exactly those are accepted, and the underscores dropped. */
  lemma {:induction false} SeparatedExactly(s: string, digit: char -> bool)
    requires !digit('_')
    ensures Separated(s, digit).Some? <==> WellSeparated(s, digit)
    ensures Separated(s, digit).Some? ==> Separated(s, digit).value == Erase(s, "_")
  {
    if |s| > 1 {
      SeparatedRest(s, digit);
      var k := if s[1] == '_' then 2 else 1;
      SeparatedExactly(s[k..], digit);
      if digit(s[0]) {
        EraseOne(s[..1], s[1..], '_');
        assert s == s[..1] + s[1..];
        if k == 2 { assert s[1..][..1] == "_" && s[1..][1..] == s[2..]; }
      }
    } else if |s| == 1 {
      assert s[..1] == [s[0]];
      if digit(s[0]) { EraseAbsent(s, "_", '_'); }
    }
  }

  lemma AllDigitsSeparated(s: string, digit: char -> bool)
    requires s != "" && !digit('_') && forall i | 0 <= i < |s| :: digit(s[i])
    ensures Separated(s, digit) == Some(s)
  {
    SeparatedExactly(s, digit);
    EraseAbsent(s, "_", '_');
  }

  predicate IsDigit(c: char) { '0' <= c <= '9' }

  predicate AllDigits(s: string) { forall i | 0 <= i < |s| :: IsDigit(s[i]) }

  function DigitOf(c: char): (d: nat)
    requires IsDigit(c)
    ensures d < 10
  {
    c as int - '0' as int
  }

  function DigitChar(d: nat): (c: char)
    requires d < 10
    ensures IsDigit(c) && DigitOf(c) == d
  {
    '0' + d as char
  }

  /** Decimal digits, most significant first. */
  function NatText(n: nat): (s: string)
    ensures |s| > 0 && AllDigits(s)
  {
    if n < 10 then [DigitChar(n)] else NatText(n / 10) + [DigitChar(n % 10)]
  }

  function TextNat(s: string): nat
    requires AllDigits(s)
  {
    if s == "" then 0 else 10 * TextNat(s[..|s| - 1]) + DigitOf(s[|s| - 1])
  }

  lemma {:induction false} NatTextRoundTrip(n: nat)
    ensures TextNat(NatText(n)) == n
  {
    if n >= 10 {
      var s := NatText(n);
      assert s[..|s| - 1] == NatText(n / 10);
      NatTextRoundTrip(n / 10);
    }
  }

  lemma NatTextInjective(m: nat, n: nat)
    ensures NatText(m) == NatText(n) ==> m == n
  {
    NatTextRoundTrip(m);
    NatTextRoundTrip(n);
  }

  function IntText(i: int): string { if i < 0 then "-" + NatText(-i) else NatText(i) }
}
