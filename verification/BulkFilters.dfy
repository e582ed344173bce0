/** Row filters `column:operator:value`; a column containing a colon is enclosed in double quotes. */
module BulkFilters {
  import opened Wrappers
  import opened Text

  datatype Op = Lt | Lte | Gt | Gte | Eq | Neq | In

  datatype Filter = Filter(column: string, op: Op, value: string)

  function OpText(op: Op): (s: string)
    ensures s != "" && ':' !in s && '"' !in s
  {
    match op
    case Lt => "lt"
    case Lte => "lte"
    case Gt => "gt"
    case Gte => "gte"
    case Eq => "eq"
    case Neq => "neq"
    case In => "in"
  }

  lemma OpTextIsInjective(a: Op, b: Op)
    requires OpText(a) == OpText(b)
    ensures a == b
  {
    var s, t := OpText(a), OpText(b);
    assert |s| == |t| && s[0] == t[0] && s[|s| - 1] == t[|t| - 1];
  }

  /** The alternative of the pattern that `s` is, if any. */
  function ParseOp(s: string): (r: Option<Op>)
    ensures r.Some? ==> OpText(r.value) == s
    ensures forall op :: OpText(op) == s ==> r == Some(op)
  {
    if exists op: Op :: OpText(op) == s then
      assert forall a, b | OpText(a) == s && OpText(b) == s :: a == b by {
        forall a, b | OpText(a) == s && OpText(b) == s ensures a == b { OpTextIsInjective(a, b); }
      }
      var op: Op :| OpText(op) == s;
      Some(op)
    else None
  }

  /** The names of the operators. */
  lemma OperatorNames()
    ensures ParseOp("lt") == Some(Lt) && ParseOp("lte") == Some(Lte) && ParseOp("gt") == Some(Gt)
    ensures ParseOp("gte") == Some(Gte) && ParseOp("eq") == Some(Eq) && ParseOp("neq") == Some(Neq)
    ensures ParseOp("in") == Some(In)
  {
    assert OpText(Lt) == "lt" && OpText(Lte) == "lte" && OpText(Gt) == "gt" && OpText(Gte) == "gte";
    assert OpText(Eq) == "eq" && OpText(Neq) == "neq" && OpText(In) == "in";
  }

  lemma OperatorsAreLowerCase(op: Op)
    ensures LowerText(OpText(op)) == OpText(op)
  {
  }

  /** Conversion of a text in any letter case; `None` is the error raised for an unknown operator. */
  function FromString(s: string): (r: Option<Op>)
    ensures r.Some? ==> OpText(r.value) == LowerText(s)
    ensures forall op :: OpText(op) == LowerText(s) ==> r == Some(op)
    ensures ParseOp(s).Some? ==> r == ParseOp(s)
  {
    assert ParseOp(s).Some? ==> LowerText(s) == s by {
      if ParseOp(s).Some? { OperatorsAreLowerCase(ParseOp(s).value); }
    }
    ParseOp(LowerText(s))
  }

  /** Reads `:operator:value`: the pattern admits lower-case operators only, and the text found is converted. */
  function ParseTail(t: string): Option<(Op, string)> {
    if t == "" || t[0] != ':' then None
    else
      var q := FirstColon(t[1..]);
      var text := t[1..q + 1];
      if q == |t| - 1 || ParseOp(text).None? then None else Some((FromString(text).value, t[q + 2..]))
  }

  function TailText(text: string, value: string): string { ":" + text + ":" + value }

  function PrintTail(op: Op, value: string): string { TailText(OpText(op), value) }

  lemma TailReads(text: string, value: string)
    requires ':' !in text
    ensures ParseTail(TailText(text, value)) == if ParseOp(text).None? then None else Some((ParseOp(text).value, value))
  {
    var t := TailText(text, value);
    assert t[1..] == text + ":" + value;
    FirstColonAfter(text, value);
    assert t[1..|text| + 1] == text;
    assert t[|text| + 2..] == value;
  }

  lemma TailRoundTrip(op: Op, value: string)
    ensures ParseTail(PrintTail(op, value)) == Some((op, value))
  {
    TailReads(OpText(op), value);
  }

  /** What reads the operator and the value that follow a column; the rest does not depend on how. */
  type TailReader = string -> Option<(Op, string)>

  /** A closing quote at `q`: the operator and the value follow it. */
  predicate ClosesAt(tail: TailReader, s: string, q: int) { 0 <= q < |s| && s[q] == '"' && tail(s[q + 1..]).Some? }

  /** The last closing quote at or before `q` and after position 1, or 0. */
  function LastClose(tail: TailReader, s: string, q: int): (r: int)
    requires q < |s|
    ensures r == 0 || (2 <= r <= q && ClosesAt(tail, s, r))
    ensures forall p | 2 <= p <= q && ClosesAt(tail, s, p) :: p <= r
  {
    if q < 2 then 0 else if ClosesAt(tail, s, q) then q else LastClose(tail, s, q - 1)
  }

  function ReadPlain(tail: TailReader, s: string): Option<Filter> {
    var q := FirstColon(s);
    var r := tail(s[q..]);
    if q == 0 || r.None? then None else Some(Filter(s[..q], r.value.0, r.value.1))
  }

  function ReadFilter(tail: TailReader, s: string): Option<Filter> {
    var q := if s != "" && s[0] == '"' then LastClose(tail, s, |s| - 1) else 0;
    if q > 0 then
      var r := tail(s[q + 1..]).value;
      Some(Filter(s[1..q], r.0, r.1))
    else ReadPlain(tail, s)
  }

  function ParseFilter(s: string): Option<Filter> { ReadFilter(ParseTail, s) }

  function PrintQuoted(f: Filter): string { "\"" + f.column + "\"" + PrintTail(f.op, f.value) }

  function PrintPlain(f: Filter): string { f.column + PrintTail(f.op, f.value) }

  ghost predicate NeverCloses(tail: TailReader, s: string) { forall q :: !ClosesAt(tail, s, q) }

  /** Closing quotes are found at the same place in a suffix. */
  lemma CloseShifts(tail: TailReader, s: string, v: nat, q: nat)
    requires v <= |s|
    ensures ClosesAt(tail, s[v..], q) <==> ClosesAt(tail, s, v + q)
  {
    if v + q < |s| { assert s[v..][q] == s[v + q] && s[v..][q + 1..] == s[v + q + 1..]; }
  }

  // ---------- quoted columns ----------

  /** `s` is the quoted column, up to the quote at `c`, and a tail whose value starts at `v`. */
  ghost predicate QuotedShape(s: string, column: string, tail: string, value: string, v: nat) {
    var c := |column| + 1;
    && c < v <= |s| && s[0] == '"' && s[1..c] == column && s[c] == '"' && s[c + 1..] == tail && s[v..] == value
    && forall r | c < r < v :: s[r] != '"'
  }

  lemma QuotedParts(column: string, text: string, value: string)
    requires '"' !in text
    ensures QuotedShape("\"" + column + "\"" + TailText(text, value),
                        column, TailText(text, value), value, |column| + |text| + 4)
  {
    var s := "\"" + column + "\"" + TailText(text, value);
    var c := |column| + 1;
    assert s[c + 1] == ':' && s[c + 1 + |text| + 1] == ':';
    forall r | c + 1 < r < c + 1 + |text| + 1 ensures s[r] == text[r - c - 2] {}
  }

  /** The quote at `c` closes the column, and only quotes in the value could close it later. */
  lemma ReadsQuoted(tail: TailReader, s: string, c: nat, v: nat)
    requires 2 <= c < v <= |s| && s[0] == '"' && ClosesAt(tail, s, c) && (forall r | c < r < v :: s[r] != '"')
    ensures NeverCloses(tail, s[v..]) ==>
              ReadFilter(tail, s) == Some(Filter(s[1..c], tail(s[c + 1..]).value.0, tail(s[c + 1..]).value.1))
    ensures !NeverCloses(tail, s[v..]) ==> ReadFilter(tail, s).Some? && |ReadFilter(tail, s).value.column| >= c
  {
    var r := LastClose(tail, s, |s| - 1);
    if NeverCloses(tail, s[v..]) {
      if r >= v { CloseShifts(tail, s, v, r - v); }
      assert r == c;
    } else {
      var q :| ClosesAt(tail, s[v..], q);
      CloseShifts(tail, s, v, q);
      assert r >= v;
    }
  }

  lemma QuotedReadsBack(tail: TailReader, s: string, column: string, t: string, op: Op, value: string, v: nat)
    requires column != "" && QuotedShape(s, column, t, value, v) && tail(t) == Some((op, value))
    ensures ReadFilter(tail, s) == Some(Filter(column, op, value)) <==> NeverCloses(tail, value)
    ensures '"' !in value ==> NeverCloses(tail, value)
  {
    ReadsQuoted(tail, s, |column| + 1, v);
  }

  /**
   A quoted filter reads back as itself exactly when its value holds no quote that could close the column;
   a value without any quote never does.
   */
  lemma QuotedRoundTrip(f: Filter)
    requires f.column != ""
    ensures ParseFilter(PrintQuoted(f)) == Some(f) <==> NeverCloses(ParseTail, f.value)
    ensures '"' !in f.value ==> ParseFilter(PrintQuoted(f)) == Some(f)
  {
    TailRoundTrip(f.op, f.value);
    QuotedParts(f.column, OpText(f.op), f.value);
    var v := |f.column| + |OpText(f.op)| + 4;
    QuotedReadsBack(ParseTail, PrintQuoted(f), f.column, PrintTail(f.op, f.value), f.op, f.value, v);
  }

  // ---------- unquoted columns ----------

  /** A text that holds a colon, but not first, is not what follows its own first character. */
  lemma NotItsOwnShift(s: string, column: string)
    requires ':' in column && column[0] != ':' && column <= s && |column| < |s|
    ensures s[1..|column| + 1] != column
  {
    var c := FirstColon(column);
    assert s[1..|column| + 1][c - 1] == s[c];
  }

  /** Read as a quoted one, an unquoted filter never yields its own column. */
  lemma QuotedReadingDiffers(tail: TailReader, s: string, column: string)
    requires column != "" && column[0] == '"' && column <= s && |column| < |s| && s[|column|] == ':'
    requires LastClose(tail, s, |s| - 1) > 0
    ensures ReadFilter(tail, s).Some? && ReadFilter(tail, s).value.column != column
  {
    var r := LastClose(tail, s, |s| - 1);
    if s[1..r] == column {
      assert column[|column| - 1] == s[|column|];
      NotItsOwnShift(s, column);
    }
  }

  lemma {:induction false} FirstColonIs(s: string, c: nat)
    requires c < |s| && s[c] == ':' && forall i | 0 <= i < c :: s[i] != ':'
    ensures FirstColon(s) == c
  {
  }

  /** The plain reading stops at the first colon. */
  lemma PlainReading(tail: TailReader, s: string, c: nat)
    requires 0 < c < |s| && s[c] == ':' && tail(s[c..]).Some?
    ensures var r := tail(s[c..]).value;
      ReadPlain(tail, s) == Some(Filter(s[..c], r.0, r.1)) <==> forall i | 0 <= i < c :: s[i] != ':'
  {
    if forall i | 0 <= i < c :: s[i] != ':' {
      FirstColonIs(s, c);
    }
  }

  /** Where a quote can close an unquoted column: at its own end, or inside the value. */
  ghost predicate Misleading(tail: TailReader, column: string, value: string) {
    (|column| >= 3 && column[|column| - 1] == '"') || !NeverCloses(tail, value)
  }

  ghost predicate PlainShape(s: string, column: string, tail: string, value: string, v: nat) {
    var c := |column|;
    && c < v <= |s| && s[..c] == column && s[c..] == tail && s[c] == ':' && s[v..] == value
    && forall r | c <= r < v :: s[r] != '"'
  }

  lemma PlainParts(column: string, text: string, value: string)
    requires '"' !in text
    ensures PlainShape(column + TailText(text, value), column, TailText(text, value), value, |column| + |text| + 2)
  {
    var s, c := column + TailText(text, value), |column|;
    assert s[c + |text| + 1] == ':';
    forall r | c < r < c + 1 + |text| ensures s[r] == text[r - c - 1] {}
  }

  ghost predicate StartsWithColon(tail: TailReader) { forall t :: tail(t).Some? ==> t != "" && t[0] == ':' }

  /** A quote that closes lies at the end of the column or in the value. */
  lemma ClosingPlaces(tail: TailReader, s: string, c: nat, v: nat, r: nat)
    requires StartsWithColon(tail) && ClosesAt(tail, s, r)
    requires c < v <= |s| && (forall q | 0 <= q < c :: s[q] != ':') && (forall q | c <= q < v :: s[q] != '"')
    ensures r + 1 == c || (v <= r && ClosesAt(tail, s[v..], r - v))
  {
    assert s[r + 1..][0] == s[r + 1];
    if r >= v { CloseShifts(tail, s, v, r - v); }
  }

  lemma MisleadingCloses(tail: TailReader, s: string, c: nat, v: nat)
    requires 0 < c < v <= |s| && tail(s[c..]).Some? && Misleading(tail, s[..c], s[v..])
    ensures LastClose(tail, s, |s| - 1) > 0
  {
    if q :| ClosesAt(tail, s[v..], q) {
      CloseShifts(tail, s, v, q);
      assert 2 <= v + q <= LastClose(tail, s, |s| - 1);
    } else {
      assert ClosesAt(tail, s, c - 1);
    }
  }

  /** A quote after the first character closes exactly when one of the two places is misleading. */
  lemma ClosesIffMisleading(tail: TailReader, s: string, c: nat, v: nat)
    requires 0 < c < v <= |s| && (forall q | 0 <= q < c :: s[q] != ':') && (forall q | c <= q < v :: s[q] != '"')
    requires StartsWithColon(tail) && tail(s[c..]).Some?
    ensures LastClose(tail, s, |s| - 1) > 0 <==> Misleading(tail, s[..c], s[v..])
  {
    if LastClose(tail, s, |s| - 1) > 0 {
      ClosingPlaces(tail, s, c, v, LastClose(tail, s, |s| - 1));
    } else if Misleading(tail, s[..c], s[v..]) {
      MisleadingCloses(tail, s, c, v);
    }
  }

  /** Which of the two readings is taken decides. */
  lemma ReadsPlain(tail: TailReader, s: string, c: nat, v: nat)
    requires 0 < c < v <= |s| && s[c] == ':' && (forall q | c <= q < v :: s[q] != '"')
    requires StartsWithColon(tail) && tail(s[c..]).Some?
    ensures var r := tail(s[c..]).value;
      ReadFilter(tail, s) == Some(Filter(s[..c], r.0, r.1)) <==>
      ':' !in s[..c] && (s[..c][0] == '"' ==> !Misleading(tail, s[..c], s[v..]))
  {
    PlainReading(tail, s, c);
    assert forall i | 0 <= i < c :: s[..c][i] == s[i];
    if s[0] == '"' && LastClose(tail, s, |s| - 1) > 0 { QuotedReadingDiffers(tail, s, s[..c]); }
    if ':' !in s[..c] { ClosesIffMisleading(tail, s, c, v); }
  }

  lemma PlainReadsBack(tail: TailReader, s: string, column: string, t: string, op: Op, value: string, v: nat)
    requires column != "" && PlainShape(s, column, t, value, v) && StartsWithColon(tail) && tail(t) == Some((op, value))
    ensures ReadFilter(tail, s) == Some(Filter(column, op, value)) <==>
            ':' !in column && (column[0] == '"' ==> !Misleading(tail, column, value))
  {
    ReadsPlain(tail, s, |column|, v);
  }

  /**
   An unquoted filter reads back as itself exactly when its column has no colon and, should it start with
   a quote, nothing after that quote looks like a closing one.
   */
  lemma PlainRoundTrip(f: Filter)
    requires f.column != ""
    ensures ParseFilter(PrintPlain(f)) == Some(f) <==>
            ':' !in f.column && (f.column[0] == '"' ==> !Misleading(ParseTail, f.column, f.value))
  {
    TailRoundTrip(f.op, f.value);
    PlainParts(f.column, OpText(f.op), f.value);
    var v := |f.column| + |OpText(f.op)| + 2;
    PlainReadsBack(ParseTail, PrintPlain(f), f.column, PrintTail(f.op, f.value), f.op, f.value, v);
  }

  lemma TailWasPrinted(t: string)
    requires ParseTail(t).Some?
    ensures t == PrintTail(ParseTail(t).value.0, ParseTail(t).value.1)
  {
    var q := FirstColon(t[1..]);
    assert t[1..][q] == t[q + 1];
    assert t == ":" + t[1..q + 1] + ":" + t[q + 2..];
  }

  ghost predicate ReadsPrinted(tail: TailReader) {
    forall t :: tail(t).Some? ==> t == PrintTail(tail(t).value.0, tail(t).value.1)
  }

  lemma ReadWasPrinted(tail: TailReader, s: string)
    requires ReadsPrinted(tail) && ReadFilter(tail, s).Some?
    ensures var f := ReadFilter(tail, s).value; f.column != "" && (s == PrintQuoted(f) || s == PrintPlain(f))
  {
    var q := if s != "" && s[0] == '"' then LastClose(tail, s, |s| - 1) else 0;
    if q > 0 {
      assert s == "\"" + s[1..q] + "\"" + s[q + 1..];
    } else {
      var c := FirstColon(s);
      assert s == s[..c] + s[c..];
    }
  }

  /** Nothing else is accepted: whatever is read is a quoted or an unquoted filter as printed. */
  lemma ParsedWasPrinted(s: string)
    requires ParseFilter(s).Some?
    ensures var f := ParseFilter(s).value; f.column != "" && (s == PrintQuoted(f) || s == PrintPlain(f))
  {
    forall t | ParseTail(t).Some? ensures t == PrintTail(ParseTail(t).value.0, ParseTail(t).value.1) {
      TailWasPrinted(t);
    }
    ReadWasPrinted(ParseTail, s);
  }

  /** All expressions parsed, in order, or an error as soon as one is malformed. */
  method GetBulkFilters(texts: seq<string>) returns (r: Option<seq<Filter>>)
    ensures r.None? <==> exists i :: 0 <= i < |texts| && ParseFilter(texts[i]).None?
    ensures r.Some? ==> |r.value| == |texts| && forall i | 0 <= i < |texts| :: ParseFilter(texts[i]) == Some(r.value[i])
  {
    var result: seq<Filter> := [];
    for i := 0 to |texts|
      invariant |result| == i && forall j | 0 <= j < i :: ParseFilter(texts[j]) == Some(result[j])
    {
      var f := ParseFilter(texts[i]);
      if f.None? { return None; }
      result := result + [f.value];
    }
    return Some(result);
  }

  ghost predicate Uses(filters: seq<Filter>, column: string, op: Op) {
    exists i :: 0 <= i < |filters| && filters[i].column == column && filters[i].op == op
  }

  ghost predicate Repeats(filters: seq<Filter>) {
    exists i, j :: 0 <= i < j < |filters| && filters[i].column == filters[j].column && filters[i].op == filters[j].op
  }

  lemma UsesLast(before: seq<Filter>, f: Filter, column: string, op: Op)
    ensures Uses(before + [f], column, op) <==> Uses(before, column, op) || (f.column == column && f.op == op)
  {
    var all := before + [f];
    if Uses(before, column, op) {
      var i :| 0 <= i < |before| && before[i].column == column && before[i].op == op;
      assert all[i] == before[i];
    }
    if f.column == column && f.op == op { assert all[|before|] == f; }
  }

  class BulkReadFilters {
    var filters: seq<Filter>

    constructor (filters: seq<Filter>)
      ensures this.filters == filters
    {
      this.filters := filters;
    }
  }

  /** For each column, the operators used on it. */
  ghost predicate Tracks(operators: map<string, set<Op>>, filters: seq<Filter>) {
    forall c, op :: Uses(filters, c, op) <==> c in operators && op in operators[c]
  }

  lemma TracksNext(operators: map<string, set<Op>>, before: seq<Filter>, f: Filter, used: set<Op>)
    requires Tracks(operators, before) && used == if f.column in operators then operators[f.column] else {}
    ensures Tracks(operators[f.column := used + {f.op}], before + [f])
  {
    var next := operators[f.column := used + {f.op}];
    forall c, op ensures Uses(before + [f], c, op) <==> c in next && op in next[c] { UsesLast(before, f, c, op); }
  }

  /** Validates a list of filters and keeps it as it is, or fails. */
  method MakeFilters(filters: seq<Filter>) returns (r: Option<BulkReadFilters>)
    ensures r.Some? <==> !Repeats(filters) && !exists c :: Uses(filters, c, Eq) && Uses(filters, c, In)
    ensures r.Some? ==> r.value.filters == filters
  {
    var operators: map<string, set<Op>> := map[];
    for i := 0 to |filters|
      invariant !Repeats(filters[..i]) && Tracks(operators, filters[..i])
    {
      var f := filters[i];
      assert filters[..i + 1] == filters[..i] + [f];
      var used := if f.column in operators then operators[f.column] else {};
      if f.op in used {
        assert Uses(filters[..i], f.column, f.op);
        ghost var j :| 0 <= j < i && filters[..i][j].column == f.column && filters[..i][j].op == f.op;
        assert filters[j].column == filters[i].column;
        return None;
      }
      NoNewRepeat(filters[..i], f);
      TracksNext(operators, filters[..i], f, used);
      operators := operators[f.column := used + {f.op}];
    }
    assert filters[..|filters|] == filters;
    var clash := exists c :: c in operators && Eq in operators[c] && In in operators[c];
    assert clash <==> exists c :: Uses(filters, c, Eq) && Uses(filters, c, In);
    if clash { return None; }
    var made := new BulkReadFilters(filters);
    r := Some(made);
  }

  lemma NoNewRepeat(before: seq<Filter>, f: Filter)
    requires !Repeats(before) && !Uses(before, f.column, f.op)
    ensures !Repeats(before + [f])
  {
    var all := before + [f];
    forall i, j | 0 <= i < j < |all| ensures !(all[i].column == all[j].column && all[i].op == all[j].op) {
      assert all[i] == before[i];
      if j < |before| { assert all[j] == before[j]; }
    }
  }
}
