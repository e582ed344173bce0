/**
 Column labels of bulk data.  An array curve `C` has columns `C[0]`, `C[1]`, ...; labels and selections
 are read with the pattern `^(name .+)\[(start [^:]+):?(stop .*)\]$`.  Labels contain no newline.
 */
module ColumnLabels {
  import opened Wrappers
  import opened Text

  // ---------- the label pattern ----------

  datatype Label = Label(name: string, start: string, stop: string)

  /** One way to read `s` with the pattern. */
  ghost predicate Reads(s: string, name: string, start: string, colon: bool, stop: string) {
    && name != "" && start != "" && ':' !in start
    && s == name + "[" + start + (if colon then ":" else "") + stop + "]"
  }

  predicate OpensAt(s: string, p: int) { 1 <= p <= |s| - 3 && s[p] == '[' && s[p + 1] != ':' }

  /** The last bracket, at or before `p`, that can open the index. */
  function LastOpen(s: string, p: int): (r: int)
    requires p <= |s| - 3
    ensures r == 0 || (OpensAt(s, r) && r <= p)
    ensures forall q | OpensAt(s, q) && q <= p :: q <= r
  {
    if p < 1 then 0 else if OpensAt(s, p) then p else LastOpen(s, p - 1)
  }

  function MatchLabel(s: string): Option<Label> {
    if |s| < 4 || s[|s| - 1] != ']' then None
    else
      var p := LastOpen(s, |s| - 3);
      if p == 0 then None
      else
        var t := s[p + 1..|s| - 1];
        var q := FirstColon(t);
        Some(Label(s[..p], t[..q], if q < |t| then t[q + 1..] else ""))
  }

  lemma ReadingOpens(s: string, name: string, start: string, colon: bool, stop: string)
    requires Reads(s, name, start, colon, stop)
    ensures |s| >= 4 && s[|s| - 1] == ']' && OpensAt(s, |name|) && s[..|name|] == name
    ensures s[|name| + 1..|s| - 1] == start + (if colon then ":" else "") + stop
  {
    assert s[|name| + 1] == start[0] && start[0] in start;
  }

  /** Whether the reading found takes a colon. */
  ghost predicate TakesColon(s: string)
    requires MatchLabel(s).Some?
  {
    var t := s[LastOpen(s, |s| - 3) + 1..|s| - 1];
    FirstColon(t) < |t|
  }

  lemma {:induction false} ColonSplits(t: string)
    ensures var q := FirstColon(t);
      t == t[..q] + (if q < |t| then ":" else "") + (if q < |t| then t[q + 1..] else "")
  {
    var q := FirstColon(t);
    if q < |t| { assert t == t[..q] + [t[q]] + t[q + 1..]; }
    else { assert t[..q] + "" + "" == t; }
  }

  lemma BracketSplits(s: string, p: nat)
    requires p + 1 < |s| && s[p] == '[' && s[|s| - 1] == ']'
    ensures s == s[..p] + "[" + s[p + 1..|s| - 1] + "]"
  {
  }

  lemma MatchIsReading(s: string)
    requires MatchLabel(s).Some?
    ensures var m := MatchLabel(s).value; Reads(s, m.name, m.start, TakesColon(s), m.stop)
  {
    var m := MatchLabel(s).value;
    var p := LastOpen(s, |s| - 3);
    var t := s[p + 1..|s| - 1];
    BracketSplits(s, p);
    ColonSplits(t);
    assert t[0] == s[p + 1];
    var colon := if TakesColon(s) then ":" else "";
    Regroup(s[..p], m.start, colon, m.stop);
  }

  lemma Regroup(name: string, start: string, colon: string, stop: string)
    ensures name + "[" + (start + colon + stop) + "]" == name + "[" + start + colon + stop + "]"
  {
  }

  lemma MatchIsMaximal(s: string, n: string, a: string, c: bool, b: string)
    requires Reads(s, n, a, c, b)
    ensures MatchLabel(s).Some?
    ensures var m := MatchLabel(s).value;
      && |n| <= |m.name|
      && (|n| == |m.name| ==> |a| <= |m.start|)
      && (|n| == |m.name| && |a| == |m.start| && c ==> TakesColon(s))
  {
    ReadingOpens(s, n, a, c, b);
    var m := MatchLabel(s).value;
    if |n| == |m.name| {
      var t := s[|n| + 1..|s| - 1];
      assert t == a + (if c then ":" else "") + b;
      var q := FirstColon(t);
      assert forall i | 0 <= i < |a| :: t[i] == a[i];
    }
  }

  /**
   The parser finds a reading whenever there is one, and finds the one a greedy matcher takes: the longest
   name, then the longest start, then the colon if it can be taken.
   */
  lemma MatchIsGreedy(s: string)
    ensures MatchLabel(s).None? <==> forall n, a, c, b :: !Reads(s, n, a, c, b)
    ensures MatchLabel(s).Some? ==>
      var m := MatchLabel(s).value;
      && Reads(s, m.name, m.start, TakesColon(s), m.stop)
      && forall n, a, c, b | Reads(s, n, a, c, b) ::
           && |n| <= |m.name|
           && (|n| == |m.name| ==> |a| <= |m.start|)
           && (|n| == |m.name| && |a| == |m.start| && c ==> TakesColon(s))
  {
    if MatchLabel(s).Some? { MatchIsReading(s); }
    forall n, a, c, b | Reads(s, n, a, c, b)
      ensures MatchLabel(s).Some?
      ensures |n| <= |MatchLabel(s).value.name|
      ensures |n| == |MatchLabel(s).value.name| ==> |a| <= |MatchLabel(s).value.start|
      ensures |n| == |MatchLabel(s).value.name| && |a| == |MatchLabel(s).value.start| && c ==> TakesColon(s)
    {
      MatchIsMaximal(s, n, a, c, b);
    }
  }

  /** Name, start and stop of a complete slice `name[start:stop]`. */
  function FullSlice(s: string): Option<Label> {
    var m := MatchLabel(s);
    if m.Some? && m.value.stop != "" then m else None
  }

  predicate IsArray(col: string) { MatchLabel(col).Some? }

  /** The curve a column belongs to. */
  function CurveOf(col: string): string { if IsArray(col) then MatchLabel(col).value.name else col }

  lemma CurveNamesAreNonEmpty(col: string)
    requires col != ""
    ensures CurveOf(col) != ""
  {
  }

  // ---------- the two groupings ----------

  type Groups = map<string, seq<string>>

  function Members(g: Groups, k: string): seq<string> { if k in g then g[k] else [] }

  function Group(labels: seq<string>, includePlain: bool): Groups {
    if labels == [] then map[]
    else
      AddToGroup(Group(labels[..|labels| - 1], includePlain), labels[|labels| - 1], includePlain)
  }

  function AddToGroup(g: Groups, c: string, includePlain: bool): Groups {
    if IsArray(c) then g[CurveOf(c) := Members(g, CurveOf(c)) + [c]]
    else if includePlain then g[c := [c]]
    else g
  }

  method AddLabelToGroups(g: Groups, c: string, includePlain: bool) returns (groups: Groups)
    ensures groups == AddToGroup(g, c, includePlain)
  {
    groups := g;
    var m := MatchLabel(c);
    if m.Some? {
      if m.value.name !in groups { groups := groups[m.value.name := []]; }
      groups := groups[m.value.name := groups[m.value.name] + [c]];
    } else if includePlain {
      groups := groups[c := [c]];
    }
  }

  method GroupCurveColumns(labels: seq<string>, includePlain: bool) returns (groups: Groups)
    ensures groups == Group(labels, includePlain)
  {
    groups := map[];
    for i := 0 to |labels|
      invariant groups == Group(labels[..i], includePlain)
    {
      assert labels[..i + 1][..i] == labels[..i];
      groups := AddLabelToGroups(groups, labels[i], includePlain);
    }
    assert labels[..|labels|] == labels;
  }

  type Counts = map<string, nat>

  function Count(n: Counts, k: string): nat { if k in n then n[k] else 0 }

  function AddLabel(n: Counts, c: string): Counts {
    if IsArray(c) then n[CurveOf(c) := Count(n, CurveOf(c)) + 1]
    else if c != "" then n[c := 1]
    else n
  }

  function CurveCounts(labels: seq<string>): Counts {
    if labels == [] then map[] else AddLabel(CurveCounts(labels[..|labels| - 1]), labels[|labels| - 1])
  }

  method CurveNameAndColumnCount(labels: seq<string>) returns (counts: Counts)
    ensures counts == CurveCounts(labels)
  {
    counts := map[];
    for i := 0 to |labels|
      invariant counts == CurveCounts(labels[..i])
    {
      var c := labels[i];
      assert labels[..i + 1][..i] == labels[..i];
      ghost var next := AddLabel(counts, c);
      var m := MatchLabel(c);
      if m.Some? {
        counts := counts[m.value.name := Count(counts, m.value.name) + 1];
      } else if c != "" {
        counts := counts[c := 1];
      }
      assert counts == next;
    }
    assert labels[..|labels|] == labels;
  }

  lemma {:induction false} GroupingsAgreeOn(labels: seq<string>, k: string)
    requires k != ""
    ensures k in Group(labels, true) <==> k in CurveCounts(labels)
    ensures Count(CurveCounts(labels), k) == |Members(Group(labels, true), k)|
  {
    if labels != [] { GroupingsAgreeOn(labels[..|labels| - 1], k); }
  }

  lemma {:induction false} EmptyLabels(labels: seq<string>)
    ensures "" in Group(labels, true) <==> "" in labels
    ensures "" !in CurveCounts(labels)
  {
    if labels != [] {
      var before, c := labels[..|labels| - 1], labels[|labels| - 1];
      EmptyLabels(before);
      assert labels == before + [c];
      if c != "" { CurveNamesAreNonEmpty(c); }
    }
  }

  /** Both groupings know the same curves with the same sizes exactly when no label is empty, whatever else collides. */
  lemma GroupingsAgree(labels: seq<string>)
    ensures "" !in labels <==>
            forall k :: (k in Group(labels, true) <==> k in CurveCounts(labels))
                        && Count(CurveCounts(labels), k) == |Members(Group(labels, true), k)|
  {
    EmptyLabels(labels);
    forall k | k != ""
      ensures k in Group(labels, true) <==> k in CurveCounts(labels)
      ensures Count(CurveCounts(labels), k) == |Members(Group(labels, true), k)|
    {
      GroupingsAgreeOn(labels, k);
    }
    if "" in labels { assert "" in Group(labels, true) && "" !in CurveCounts(labels); }
  }

  /** The empty label is a group of its own in one, and nothing in the other. */
  lemma EmptyLabelIsDropped()
    ensures Group([""], true) == map["" := [""]] && CurveCounts([""]) == map[]
  {
    assert [""][..0] == [];
  }

  // ---------- conservation ----------

  /** A plain label replaces the group of its name, so nothing of that name may come before it. */
  ghost predicate NoOverwrite(labels: seq<string>) {
    forall i, j | 0 <= i < j < |labels| :: !IsArray(labels[j]) ==> CurveOf(labels[i]) != labels[j]
  }

  /** Labels of one curve, in order. */
  function OfCurve(labels: seq<string>, k: string): (r: seq<string>)
    ensures forall x :: x in r <==> x in labels && CurveOf(x) == k
  {
    if labels == [] then []
    else
      var before, c := OfCurve(labels[..|labels| - 1], k), labels[|labels| - 1];
      assert labels == labels[..|labels| - 1] + [c];
      if CurveOf(c) == k then before + [c] else before
  }

  /** The labels of a curve keep the order of the input. */
  lemma {:induction false} OfCurveKeepsOrder(a: seq<string>, b: seq<string>, k: string)
    ensures OfCurve(a + b, k) == OfCurve(a, k) + OfCurve(b, k)
  {
    if b == [] {
      assert a + b == a;
    } else {
      var before, c := b[..|b| - 1], b[|b| - 1];
      assert (a + b)[..|a + b| - 1] == a + before && (a + b)[|a + b| - 1] == c;
      OfCurveKeepsOrder(a, before, k);
    }
  }

  lemma {:induction false} NothingOfCurve(labels: seq<string>, k: string)
    requires forall i | 0 <= i < |labels| :: CurveOf(labels[i]) != k
    ensures OfCurve(labels, k) == []
  {
    if labels != [] { NothingOfCurve(labels[..|labels| - 1], k); }
  }

  /** Without overwriting, the groups partition the labels and keep their order. */
  lemma {:induction false} GroupsPartition(labels: seq<string>, k: string)
    requires NoOverwrite(labels)
    ensures Members(Group(labels, true), k) == OfCurve(labels, k)
    ensures k in Group(labels, true) <==> OfCurve(labels, k) != []
  {
    if labels != [] {
      var before, c := labels[..|labels| - 1], labels[|labels| - 1];
      assert forall i | 0 <= i < |before| :: before[i] == labels[i];
      GroupsPartition(before, k);
      if !IsArray(c) && c == k {
        assert labels[|labels| - 1] == c;
        NothingOfCurve(before, k);
      }
    }
  }

  /** An overwritten group lost labels for good. */
  lemma {:induction false} OverwrittenGroupIsShort(labels: seq<string>) returns (k: string)
    requires !NoOverwrite(labels)
    ensures |Members(Group(labels, true), k)| < |OfCurve(labels, k)|
  {
    var before, c := labels[..|labels| - 1], labels[|labels| - 1];
    assert labels == before + [c];
    LastDecides(before, c);
    if NoOverwrite(before) {
      k := c;
      var i :| 0 <= i < |before| && CurveOf(before[i]) == c;
      assert before[i] in OfCurve(before, c);
    } else {
      k := OverwrittenGroupIsShort(before);
    }
  }

  /** The groups partition the labels in order exactly when nothing is overwritten. */
  lemma PartitionIffNoOverwrite(labels: seq<string>)
    ensures (forall k :: Members(Group(labels, true), k) == OfCurve(labels, k)) <==> NoOverwrite(labels)
  {
    if NoOverwrite(labels) {
      forall k ensures Members(Group(labels, true), k) == OfCurve(labels, k) { GroupsPartition(labels, k); }
    } else {
      var k := OverwrittenGroupIsShort(labels);
    }
  }

  /** Distinct labels, none of which is the name of an array, never overwrite. */
  lemma DistinctLabelsPartition(labels: seq<string>)
    requires forall i, j | 0 <= i < j < |labels| :: labels[i] != labels[j]
    requires forall i, j | 0 <= i < |labels| && 0 <= j < |labels| && IsArray(labels[i]) ::
               CurveOf(labels[i]) != labels[j]
    ensures NoOverwrite(labels)
  {
  }

  ghost function Total(n: Counts): nat {
    if n == map[] then 0
    else
      var k :| k in n;
      n[k] + Total(n - {k})
  }

  lemma {:induction false} TotalSplit(n: Counts, k: string)
    requires k in n
    ensures Total(n) == n[k] + Total(n - {k})
    decreases |n|
  {
    var j :| j in n && Total(n) == n[j] + Total(n - {j});
    if j != k {
      assert |n - {j}| < |n| && |n - {k}| < |n| by {
        assert (n - {j}).Keys == n.Keys - {j} && (n - {k}).Keys == n.Keys - {k};
      }
      TotalSplit(n - {j}, k);
      TotalSplit(n - {k}, j);
      assert n - {j} - {k} == n - {k} - {j};
    }
  }

  lemma TotalPut(n: Counts, k: string, v: nat)
    ensures Total(n[k := v]) == Total(n) - Count(n, k) + v
  {
    TotalSplit(n[k := v], k);
    if k in n {
      TotalSplit(n, k);
      assert n[k := v] - {k} == n - {k};
    } else {
      assert n[k := v] - {k} == n;
    }
  }

  lemma {:induction false} CountedIffSeen(labels: seq<string>, k: string)
    requires "" !in labels
    ensures Count(CurveCounts(labels), k) > 0 <==> exists i :: 0 <= i < |labels| && CurveOf(labels[i]) == k
  {
    if labels != [] {
      var before, c := labels[..|labels| - 1], labels[|labels| - 1];
      assert labels == before + [c];
      CountedIffSeen(before, k);
      if exists i :: 0 <= i < |before| && CurveOf(before[i]) == k {
        var i :| 0 <= i < |before| && CurveOf(before[i]) == k;
        assert labels[i] == before[i];
      }
      assert labels[|labels| - 1] == c;
    }
  }

  /** The counts never exceed the number of columns, and add up to it exactly when nothing is overwritten. */
  lemma {:induction false} CountsAddUp(labels: seq<string>)
    requires "" !in labels
    ensures Total(CurveCounts(labels)) <= |labels|
    ensures Total(CurveCounts(labels)) == |labels| <==> NoOverwrite(labels)
  {
    if labels != [] {
      var before, c := labels[..|labels| - 1], labels[|labels| - 1];
      assert labels == before + [c];
      CountsAddUp(before);
      var n := CurveCounts(before);
      TotalPut(n, CurveOf(c), if IsArray(c) then Count(n, CurveOf(c)) + 1 else 1);
      CountedIffSeen(before, c);
      LastDecides(before, c);
    }
  }

  lemma LastDecides(before: seq<string>, c: string)
    ensures NoOverwrite(before + [c]) <==>
            NoOverwrite(before) && (IsArray(c) || forall i | 0 <= i < |before| :: CurveOf(before[i]) != c)
  {
    var labels := before + [c];
    if NoOverwrite(labels) {
      forall i, j | 0 <= i < j < |before| ensures !IsArray(before[j]) ==> CurveOf(before[i]) != before[j] {
        assert labels[i] == before[i] && labels[j] == before[j];
      }
      if !IsArray(c) {
        forall i | 0 <= i < |before| ensures CurveOf(before[i]) != c {
          assert labels[i] == before[i] && labels[|before|] == c;
        }
      }
    }
  }

  // ---------- selecting columns ----------

  /** Conversion of a text to an integer; `None` is its ValueError. */
  function ParseInt(s: string): Option<int> {
    var t := Strip(s, IsSpace);
    var negative := t != "" && t[0] == '-';
    var d := Separated(if t != "" && (t[0] == '-' || t[0] == '+') then t[1..] else t, IsDigit);
    if d.None? then None else Some(if negative then 0 - TextNat(d.value) else 0 + TextNat(d.value))
  }

  function ArrayColumns(name: string, columns: set<string>): set<string> {
    set c | c in columns && IsArray(c) && CurveOf(c) == name
  }

  /** A complete slice whose bounds are integers. */
  predicate IsIntSlice(sel: string) {
    var m := FullSlice(sel);
    m.Some? && ParseInt(m.value.start).Some? && ParseInt(m.value.stop).Some?
  }

  function Element(name: string, i: int): string { name + "[" + IntText(i) + "]" }

  function SliceColumns(sel: string, columns: set<string>): set<string>
    requires IsIntSlice(sel)
  {
    var m := FullSlice(sel).value;
    var a, b := ParseInt(m.start).value, ParseInt(m.stop).value;
    set i | a <= i <= b && Element(m.name, i) in columns :: Element(m.name, i)
  }

  /** The elements a slice asks for are columns of the array it names. */
  lemma ElementBelongs(name: string, i: int)
    requires name != ""
    ensures IsArray(Element(name, i)) && CurveOf(Element(name, i)) == name
  {
    var s, d := Element(name, i), IntText(i);
    forall k | 0 <= k < |d| ensures d[k] != ':' && d[k] != '[' {
      if i < 0 && k > 0 { assert d[k] == NatText(-i)[k - 1]; }
    }
    assert Reads(s, name, d, false, "");
    ReadingOpens(s, name, d, false, "");
    MatchIsMaximal(s, name, d, false, "");
    assert forall k | 0 <= k < |d| :: s[|name| + 1 + k] == d[k];
  }

  lemma SliceWithinArray(sel: string, columns: set<string>)
    requires IsIntSlice(sel)
    ensures SliceColumns(sel, columns) <= ArrayColumns(FullSlice(sel).value.name, columns)
  {
    var m := FullSlice(sel).value;
    MatchIsReading(sel);
    forall c | c in SliceColumns(sel, columns) ensures c in ArrayColumns(m.name, columns) {
      var i :| Element(m.name, i) in columns && c == Element(m.name, i);
      ElementBelongs(m.name, i);
    }
  }

  /** What one selection stands for: a column, else a whole array, else the existing elements of a slice. */
  function Denotes(sel: string, columns: set<string>): set<string> {
    if sel in columns then {sel}
    else if ArrayColumns(sel, columns) != {} then ArrayColumns(sel, columns)
    else if IsIntSlice(sel) then SliceColumns(sel, columns)
    else {}
  }

  predicate Unknown(sel: string, columns: set<string>) {
    sel !in columns && ArrayColumns(sel, columns) == {} && !IsIntSlice(sel)
  }

  function UnknownOf(selection: seq<string>, columns: set<string>): seq<string> {
    if selection == [] then []
    else
      var before, sel := UnknownOf(selection[..|selection| - 1], columns), selection[|selection| - 1];
      if Unknown(sel, columns) then before + [sel] else before
  }

  /** Reported as missing are exactly the selections that denote nothing and are no integer slice. */
  lemma {:induction false} MissingExactly(selection: seq<string>, columns: set<string>, c: string)
    ensures c in UnknownOf(selection, columns) <==>
            c in selection && Denotes(c, columns) == {} && !IsIntSlice(c)
  {
    if selection != [] {
      var before, sel := selection[..|selection| - 1], selection[|selection| - 1];
      assert selection == before + [sel];
      MissingExactly(before, columns, c);
    }
  }

  /** And are reported in the order of the input, each as often as it occurs. */
  lemma {:induction false} MissingInOrder(a: seq<string>, b: seq<string>, columns: set<string>)
    ensures UnknownOf(a + b, columns) == UnknownOf(a, columns) + UnknownOf(b, columns)
  {
    if b == [] {
      assert a + b == a;
    } else {
      var before, sel := b[..|b| - 1], b[|b| - 1];
      assert (a + b)[..|a + b| - 1] == a + before && (a + b)[|a + b| - 1] == sel;
      MissingInOrder(a, before, columns);
    }
  }

  function SliceText(name: string, a: int, b: int): string { name + "[" + IntText(a) + ":" + IntText(b) + "]" }

  /** An optional sign and digits, once the space around them is gone. */
  lemma SignedReads(s: string, t: string, digits: string, d: string)
    requires Strip(s, IsSpace) == t && t != "" && Separated(digits, IsDigit) == Some(d)
    requires digits == if t[0] == '-' || t[0] == '+' then t[1..] else t
    ensures ParseInt(s) == Some(if t[0] == '-' then 0 - TextNat(d) else TextNat(d))
  {
  }

  lemma DigitEnds(s: string)
    requires s != "" && AllDigits(s)
    ensures !IsSpace(s[0]) && !IsSpace(s[|s| - 1]) && s[0] != '-' && s[0] != '+'
    ensures Separated(s, IsDigit) == Some(s) && Strip(s, IsSpace) == s
  {
    assert IsDigit(s[0]) && IsDigit(s[|s| - 1]);
    AllDigitsSeparated(s, IsDigit);
    StripNothing(s, IsSpace);
  }

  lemma SignKept(c: char, s: string)
    requires (c == '-' || c == '+') && s != "" && AllDigits(s)
    ensures Strip([c] + s, IsSpace) == [c] + s && ([c] + s)[1..] == s
  {
    DigitEnds(s);
    StripNothing([c] + s, IsSpace);
  }

  /** Printed integers are read back, negative ones included. */
  lemma IntegersParse(i: int)
    ensures ParseInt(IntText(i)) == Some(i)
  {
    var n := if i < 0 then -i else i;
    var s := NatText(n);
    DigitEnds(s);
    NatTextRoundTrip(n);
    if i < 0 {
      SignKept('-', s);
      SignedReads("-" + s, "-" + s, s, s);
    } else {
      SignedReads(s, s, s, s);
    }
  }

  /** A plus sign and space around the text are accepted. */
  lemma IntegerForms(a: string)
    requires a != "" && AllDigits(a)
    ensures ParseInt("+" + a) == Some(TextNat(a)) && ParseInt(" " + a + " ") == Some(TextNat(a))
  {
    DigitEnds(a);
    SignKept('+', a);
    SignedReads("+" + a, "+" + a, a, a);
    SpacesStripped(a);
    SignedReads(" " + a + " ", a, a, a);
  }

  /** And so are underscores between digits. */
  lemma SeparatedInteger(a: string, b: string)
    requires a != "" && b != "" && AllDigits(a) && AllDigits(b)
    ensures ParseInt(a + "_" + b) == Some(TextNat(a + b))
  {
    var s := a + "_" + b;
    DigitEnds(a);
    DigitEnds(b);
    assert s[0] == a[0] && s[|s| - 1] == b[|b| - 1];
    StripNothing(s, IsSpace);
    SeparatedTwo(a, b);
    SignedReads(s, s, s, a + b);
  }

  lemma SeparatedTwo(a: string, b: string)
    requires a != "" && b != "" && AllDigits(a) && AllDigits(b)
    ensures Separated(a + "_" + b, IsDigit) == Some(a + b)
  {
    var s, t := a + "_" + b, "_" + b;
    SeparatedExactly(s, IsDigit);
    EraseOne(a, t, '_');
    assert s == a + t && t[..1] == "_" && t[1..] == b;
    EraseAbsent(b, "_", '_');
  }

  lemma SpacesStripped(a: string)
    requires a != "" && !IsSpace(a[0]) && !IsSpace(a[|a| - 1])
    ensures Strip(" " + a + " ", IsSpace) == a
  {
    var s := " " + a + " ";
    assert s[1..] == a + " " && (a + " ")[..|a|] == a && (a + " ")[0] == a[0];
    StripNothing(a, IsSpace);
    assert Strip(a + " ", IsSpace) == Strip(a, IsSpace);
  }

  /** Anything else after an optional sign, such as a letter, is an error. */
  lemma NotAnInteger(s: string)
    requires s != "" && !IsSpace(s[0]) && !IsSpace(s[|s| - 1])
    ensures ParseInt(s).Some? <==> WellSeparated(if s[0] == '-' || s[0] == '+' then s[1..] else s, IsDigit)
  {
    StripNothing(s, IsSpace);
    SeparatedExactly(if s[0] == '-' || s[0] == '+' then s[1..] else s, IsDigit);
  }

  lemma NothingOpensLater(s: string, p: nat, t: string)
    requires OpensAt(s, p) && s[p + 1..|s| - 1] == t && '[' !in t
    ensures LastOpen(s, |s| - 3) == p
  {
    assert forall r | p < r < |s| - 1 :: s[r] == t[r - p - 1];
  }

  lemma ColonParts(x: string, y: string)
    requires ':' !in x
    ensures var t := x + ":" + y; FirstColon(t) == |x| < |t| && t[..|x|] == x && t[|x| + 1..] == y
  {
    FirstColonAfter(x, y);
  }

  /** The last bracket that can open the index follows the name, and the first colon the start. */
  ghost predicate SliceShape(s: string, name: string, x: string, y: string) {
    var p, q := |name|, |x|;
    && 1 <= p <= |s| - 3 && s[|s| - 1] == ']' && s[..p] == name && LastOpen(s, |s| - 3) == p
    && var t := s[p + 1..|s| - 1];
       FirstColon(t) == q < |t| - 1 && t[..q] == x && t[q + 1..] == y
  }

  lemma SliceParts(s: string, name: string, x: string, y: string)
    requires Reads(s, name, x, true, y) && y != "" && '[' !in x && '[' !in y
    ensures SliceShape(s, name, x, y)
  {
    ReadingOpens(s, name, x, true, y);
    ColonParts(x, y);
    NothingOpensLater(s, |name|, x + ":" + y);
  }

  /** A slice whose bounds hold no bracket, and its start no colon, is read as written. */
  lemma ShapeReads(s: string, name: string, x: string, y: string)
    requires SliceShape(s, name, x, y)
    ensures FullSlice(s) == Some(Label(name, x, y))
  {
  }

  lemma IntTextChars(i: int, k: nat)
    requires k < |IntText(i)|
    ensures IntText(i)[k] != ':' && IntText(i)[k] != '['
  {
    if i < 0 { if k > 0 { assert IntText(i)[k] == NatText(-i)[k - 1]; } }
    else { assert IsDigit(NatText(i)[k]); }
  }

  lemma SliceTextParses(name: string, a: int, b: int)
    requires name != ""
    ensures FullSlice(SliceText(name, a, b)) == Some(Label(name, IntText(a), IntText(b)))
  {
    var x, y := IntText(a), IntText(b);
    forall k | 0 <= k < |x| ensures x[k] != ':' && x[k] != '[' { IntTextChars(a, k); }
    forall k | 0 <= k < |y| ensures y[k] != '[' { IntTextChars(b, k); }
    SliceParts(SliceText(name, a, b), name, x, y);
    ShapeReads(SliceText(name, a, b), name, x, y);
  }

  /** A slice denotes the existing elements between its bounds, both included, for negative bounds too. */
  lemma SliceDenotes(name: string, a: int, b: int, columns: set<string>)
    requires name != ""
    requires var sel := SliceText(name, a, b); sel !in columns && ArrayColumns(sel, columns) == {}
    ensures var sel := SliceText(name, a, b);
      && !Unknown(sel, columns)
      && Denotes(sel, columns) == set i | a <= i <= b && Element(name, i) in columns :: Element(name, i)
  {
    SliceTextParses(name, a, b);
    IntegersParse(a);
    IntegersParse(b);
  }

  /** A column denotes itself, even if it looks like a slice; an array name denotes all labels of that name. */
  lemma NameDenotes(sel: string, columns: set<string>)
    ensures sel in columns ==> Denotes(sel, columns) == {sel}
    ensures sel !in columns && (exists c :: c in columns && MatchLabel(c).Some? && MatchLabel(c).value.name == sel) ==>
      Denotes(sel, columns) == set c | c in columns && MatchLabel(c).Some? && MatchLabel(c).value.name == sel
  {
    if c :| c in columns && MatchLabel(c).Some? && MatchLabel(c).value.name == sel {
      assert c in ArrayColumns(sel, columns);
    }
  }

  /** Spelled out. */
  lemma SliceSpelling()
    ensures Element("A", 2) == "A[2]" && Element("A", -1) == "A[-1]"
    ensures SliceText("A", 2, 4) == "A[2:4]" && SliceText("A", -1, 12) == "A[-1:12]"
  {
    assert NatText(1) == "1" && NatText(2) == "2" && NatText(4) == "4";
    assert NatText(12) == NatText(1) + "2";
  }

  /** A slice none of whose elements exist selects nothing and is not reported as missing either. */
  lemma EmptySliceIsUnreported(name: string, a: int, b: int, columns: set<string>, sort: set<string> -> seq<string>)
    requires name != "" && Lists(sort)
    requires var sel := SliceText(name, a, b); sel !in columns && ArrayColumns(sel, columns) == {}
    requires forall i | a <= i <= b :: Element(name, i) !in columns
    ensures var sel := SliceText(name, a, b); Selected([sel], columns, sort) == [] && UnknownOf([sel], columns) == []
  {
    var sel := SliceText(name, a, b);
    SliceDenotes(name, a, b, columns);
    assert Denotes(sel, columns) == {};
    assert [sel][..0] == [];
    EmptyListing(sort);
  }

  /** A concrete one. */
  lemma UnreportedSliceExists(sort: set<string> -> seq<string>)
    requires Lists(sort)
    ensures Selected(["A[5:6]"], {"A[0]"}, sort) == [] && UnknownOf(["A[5:6]"], {"A[0]"}) == []
  {
    assert NatText(0) == "0" && NatText(5) == "5" && NatText(6) == "6";
    assert SliceText("A", 5, 6) == "A[5:6]" && Element("A", 0) == "A[0]";
    assert Element("A", 5) == "A[5]" && Element("A", 6) == "A[6]";
    ElementBelongs("A", 0);
    EmptySliceIsUnreported("A", 5, 6, {"A[0]"}, sort);
  }

  ghost predicate NoDuplicates(s: seq<string>) { forall i, j | 0 <= i < j < |s| :: s[i] != s[j] }

  /** Natural sorting is used only as some fixed way to list a set without repetition. */
  ghost predicate Lists(sort: set<string> -> seq<string>) {
    forall s: set<string> :: NoDuplicates(sort(s)) && forall x :: x in sort(s) <==> x in s
  }

  /** Appends the labels that are not there yet, in order. */
  function Extend(selected: seq<string>, more: seq<string>): seq<string>
    decreases |more|
  {
    if more == [] then selected
    else Extend(if more[0] in selected then selected else selected + [more[0]], more[1..])
  }

  lemma {:induction false} ExtendHolds(selected: seq<string>, more: seq<string>, x: string)
    ensures x in Extend(selected, more) <==> x in selected || x in more
    decreases |more|
  {
    if more != [] {
      assert more == [more[0]] + more[1..];
      ExtendHolds(if more[0] in selected then selected else selected + [more[0]], more[1..], x);
    }
  }

  lemma {:induction false} ExtendKeepsDistinct(selected: seq<string>, more: seq<string>)
    requires NoDuplicates(selected)
    ensures NoDuplicates(Extend(selected, more))
    decreases |more|
  {
    if more != [] {
      ExtendKeepsDistinct(if more[0] in selected then selected else selected + [more[0]], more[1..]);
    }
  }

  /** The labels not in `seen`, in order. */
  function Without(more: seq<string>, seen: seq<string>): seq<string> {
    if more == [] then []
    else if more[0] in seen then Without(more[1..], seen)
    else [more[0]] + Without(more[1..], seen)
  }

  lemma {:induction false} WithoutSame(more: seq<string>, a: seq<string>, b: seq<string>)
    requires forall x | x in more :: x in a <==> x in b
    ensures Without(more, a) == Without(more, b)
  {
    if more != [] {
      assert forall x | x in more[1..] :: x in more;
      WithoutSame(more[1..], a, b);
    }
  }

  lemma DistinctRest(more: seq<string>)
    requires more != [] && NoDuplicates(more)
    ensures NoDuplicates(more[1..]) && more[0] !in more[1..]
  {
    forall i, j | 0 <= i < j < |more[1..]| ensures more[1..][i] != more[1..][j] {
      assert more[i + 1] != more[j + 1];
    }
  }

  lemma ExtendOnce(selected: seq<string>, more: seq<string>, next: seq<string>)
    requires more != [] && next == if more[0] in selected then selected else selected + [more[0]]
    ensures Extend(selected, more) == Extend(next, more[1..])
  {
  }

  lemma Regrouped(a: seq<string>, x: string, b: seq<string>)
    ensures a + [x] + b == a + ([x] + b)
  {
  }

  lemma WithoutTaken(rest: seq<string>, selected: seq<string>, x: string)
    requires x !in rest
    ensures Without(rest, selected + [x]) == Without(rest, selected)
  {
    WithoutSame(rest, selected + [x], selected);
  }

  lemma {:induction false} ExtendAppends(selected: seq<string>, more: seq<string>)
    requires NoDuplicates(more)
    ensures Extend(selected, more) == selected + Without(more, selected)
    decreases |more|
  {
    if more == [] {
      assert selected + [] == selected;
    } else if more[0] in selected {
      DistinctRest(more);
      ExtendOnce(selected, more, selected);
      ExtendAppends(selected, more[1..]);
    } else {
      DistinctRest(more);
      ExtendOnce(selected, more, selected + [more[0]]);
      ExtendAppends(selected + [more[0]], more[1..]);
      WithoutTaken(more[1..], selected, more[0]);
      Regrouped(selected, more[0], Without(more[1..], selected));
    }
  }

  /** The result in order: each selection contributes what it denotes, listed by `sort`, minus what is there. */
  function Selected(selection: seq<string>, columns: set<string>, sort: set<string> -> seq<string>): seq<string> {
    if selection == [] then []
    else
      var before, sel := selection[..|selection| - 1], selection[|selection| - 1];
      Extend(Selected(before, columns, sort), sort(Denotes(sel, columns)))
  }

  ghost predicate Denoted(selection: seq<string>, columns: set<string>, c: string) {
    exists i :: 0 <= i < |selection| && c in Denotes(selection[i], columns)
  }

  lemma DenotedLast(before: seq<string>, sel: string, columns: set<string>, c: string)
    ensures Denoted(before + [sel], columns, c) <==> Denoted(before, columns, c) || c in Denotes(sel, columns)
  {
    var selection := before + [sel];
    if Denoted(before, columns, c) {
      var i :| 0 <= i < |before| && c in Denotes(before[i], columns);
      assert selection[i] == before[i];
    }
    if c in Denotes(sel, columns) { assert selection[|before|] == sel; }
  }

  lemma {:induction false} SelectedIffDenoted(selection: seq<string>, columns: set<string>,
                                              sort: set<string> -> seq<string>, c: string)
    requires Lists(sort)
    ensures c in Selected(selection, columns, sort) <==> Denoted(selection, columns, c)
  {
    if selection != [] {
      var before, sel := selection[..|selection| - 1], selection[|selection| - 1];
      assert selection == before + [sel];
      SelectedIffDenoted(before, columns, sort, c);
      ExtendHolds(Selected(before, columns, sort), sort(Denotes(sel, columns)), c);
      DenotedLast(before, sel, columns, c);
    }
  }

  /** The columns selected are distinct and are exactly the union of what the selections denote. */
  lemma {:induction false} SelectionIsUnion(selection: seq<string>, columns: set<string>,
                                            sort: set<string> -> seq<string>)
    requires Lists(sort)
    ensures NoDuplicates(Selected(selection, columns, sort))
    ensures forall c :: c in Selected(selection, columns, sort) <==> Denoted(selection, columns, c)
  {
    forall c ensures c in Selected(selection, columns, sort) <==> Denoted(selection, columns, c) {
      SelectedIffDenoted(selection, columns, sort, c);
    }
    if selection != [] {
      var before := selection[..|selection| - 1];
      SelectionIsUnion(before, columns, sort);
      ExtendKeepsDistinct(Selected(before, columns, sort), sort(Denotes(selection[|selection| - 1], columns)));
    }
  }

  /** Each selection appends what it denotes, as listed, less what is there already. */
  lemma SelectedInOrder(before: seq<string>, sel: string, columns: set<string>, sort: set<string> -> seq<string>)
    requires Lists(sort)
    ensures var was := Selected(before, columns, sort);
      Selected(before + [sel], columns, sort) == was + Without(sort(Denotes(sel, columns)), was)
  {
    var all := before + [sel];
    assert all[..|all| - 1] == before && all[|all| - 1] == sel;
    ExtendAppends(Selected(before, columns, sort), sort(Denotes(sel, columns)));
  }

  // ---------- the selection loop ----------

  /** Any enumeration of a set. */
  method Enumerate(s: set<string>) returns (r: seq<string>)
    ensures forall x :: x in r <==> x in s
  {
    r := [];
    var rest := s;
    while rest != {}
      invariant rest <= s && forall x :: x in r <==> x in s && x !in rest
      decreases rest
    {
      var x :| x in rest;
      r := r + [x];
      rest := rest - {x};
    }
  }

  /** Whatever the enumeration order, the array index holds each array with exactly its columns. */
  lemma {:induction false} IndexHoldsArrays(labels: seq<string>, k: string, x: string)
    ensures x in Members(Group(labels, false), k) <==> x in labels && IsArray(x) && CurveOf(x) == k
    ensures k in Group(labels, false) ==> Group(labels, false)[k] != []
  {
    if labels != [] {
      var before, c := labels[..|labels| - 1], labels[|labels| - 1];
      assert labels == before + [c];
      IndexHoldsArrays(before, k, x);
    }
  }

  lemma IndexIsComplete(labels: seq<string>, columns: set<string>, k: string)
    requires forall x :: x in labels <==> x in columns
    ensures (set x | x in Members(Group(labels, false), k)) == ArrayColumns(k, columns)
    ensures k in Group(labels, false) <==> ArrayColumns(k, columns) != {}
  {
    forall x ensures x in Members(Group(labels, false), k) <==> x in ArrayColumns(k, columns) {
      IndexHoldsArrays(labels, k, x);
    }
    if k in Group(labels, false) {
      IndexHoldsArrays(labels, k, "");
      assert Group(labels, false)[k][0] in ArrayColumns(k, columns);
    }
  }

  method Slice(name: string, a: int, b: int, columns: set<string>) returns (found: set<string>)
    ensures found == set i | a <= i <= b && Element(name, i) in columns :: Element(name, i)
  {
    found := {};
    var i := a;
    while i <= b
      invariant a <= i
      invariant found == set j | a <= j < i && j <= b && Element(name, j) in columns :: Element(name, j)
      decreases b - i
    {
      if Element(name, i) in columns { found := found + {Element(name, i)}; }
      i := i + 1;
    }
  }

  ghost predicate Indexes(index: Groups, columns: set<string>) {
    && (forall k :: k in index <==> ArrayColumns(k, columns) != {})
    && (forall k | k in index :: (set x | x in index[k]) == ArrayColumns(k, columns))
  }

  method ArrayIndex(columns: set<string>) returns (index: Groups)
    ensures Indexes(index, columns)
  {
    var labels := Enumerate(columns);
    index := GroupCurveColumns(labels, false);
    forall k
      ensures k in index <==> ArrayColumns(k, columns) != {}
      ensures k in index ==> (set x | x in index[k]) == ArrayColumns(k, columns)
    {
      IndexIsComplete(labels, columns, k);
    }
  }

  /** One selection that is not itself a column; `None` if it stands for nothing known. */
  method MatchingColumns(sel: string, columns: set<string>, index: Groups) returns (found: Option<set<string>>)
    requires sel !in columns && Indexes(index, columns)
    ensures found.None? <==> Unknown(sel, columns)
    ensures found.Some? ==> found.value == Denotes(sel, columns)
  {
    found := None;
    var m := FullSlice(sel);
    if m.Some? {
      var a, b := ParseInt(m.value.start), ParseInt(m.value.stop);
      if a.Some? && b.Some? {
        var s := Slice(m.value.name, a.value, b.value, columns);
        found := Some(s);
      }
    }
    if sel in index { found := Some(set x | x in index[sel]); }
  }

  /** One more selection: the two results grow accordingly. */
  lemma SelectionGrows(selection: seq<string>, i: nat, columns: set<string>, sort: set<string> -> seq<string>)
    requires Lists(sort) && i < |selection|
    ensures var sel := selection[i];
      var was, now := Selected(selection[..i], columns, sort), Selected(selection[..i + 1], columns, sort);
      && now == Extend(was, sort(Denotes(sel, columns)))
      && (sel in columns ==> now == if sel in was then was else was + [sel])
      && (Unknown(sel, columns) ==> now == was)
      && UnknownOf(selection[..i + 1], columns)
         == UnknownOf(selection[..i], columns) + (if Unknown(sel, columns) then [sel] else [])
  {
    var sel := selection[i];
    assert selection[..i + 1][..i] == selection[..i];
    if sel in columns { SingletonListing(sort, sel); }
    if Unknown(sel, columns) { EmptyListing(sort); }
  }

  /** The selected columns, and the selections that match nothing, both in order; the index is built on first need. */
  method SelectColumns(selection: seq<string>, columns: set<string>, sort: set<string> -> seq<string>)
    returns (selected: seq<string>, missing: seq<string>)
    requires Lists(sort)
    ensures selected == Selected(selection, columns, sort)
    ensures missing == UnknownOf(selection, columns)
  {
    selected, missing := [], [];
    var index: Option<Groups> := None;
    for i := 0 to |selection|
      invariant selected == Selected(selection[..i], columns, sort)
      invariant missing == UnknownOf(selection[..i], columns)
      invariant index.Some? ==> Indexes(index.value, columns)
    {
      var sel := selection[i];
      SelectionGrows(selection, i, columns, sort);
      if sel in columns {
        selected := if sel in selected then selected else selected + [sel];
      } else {
        if index.None? {
          var built := ArrayIndex(columns);
          index := Some(built);
        }
        var found := MatchingColumns(sel, columns, index.value);
        if found.None? {
          missing := missing + [sel];
        } else {
          selected := Extend(selected, sort(found.value));
        }
      }
    }
    assert selection[..|selection|] == selection;
  }

  lemma HasMembers(s: seq<string>)
    ensures |s| > 0 ==> exists x :: x in s
    ensures |s| > 1 && NoDuplicates(s) ==> exists x, y :: x in s && y in s && x != y
  {
    if |s| > 0 { assert s[0] in s; }
    if |s| > 1 && NoDuplicates(s) { assert s[0] in s && s[1] in s && s[0] != s[1]; }
  }

  lemma SingletonListing(sort: set<string> -> seq<string>, x: string)
    requires Lists(sort)
    ensures sort({x}) == [x]
  {
    HasMembers(sort({x}));
    assert x in sort({x});
  }

  lemma EmptyListing(sort: set<string> -> seq<string>)
    requires Lists(sort)
    ensures sort({}) == []
  {
    HasMembers(sort({}));
  }
}
