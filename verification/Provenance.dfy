/**
 Clients cannot invent bulk URIs.  Record create/update requests are checked against the latest stored
 version and published later; whole-bulk posts and session commits fetch a base version, obtain an
 identifier from the worker and publish later; all of it interleaves.
 */
module Provenance {
  import opened Wrappers
  import opened BulkUris
  import opened Records
  import opened CommitRoute

  // ---------- the check on incoming records ----------

  datatype Fetched = Found(data: Data) | NotFound | Failed

  datatype Decision = Accepted | Rejected | Raised

  /** The URI of a record in printed normal form, `None` if it has no valid one. */
  function NormalUri(data: Data): Result<Option<string>> {
    var u := GetBulkUri(data);
    if u.Err? then Err(u.error)
    else if !IsValid(u.value) then Ok(None)
    else if Encode(u.value).None? then Err(ValueError)
    else Ok(Encode(u.value))
  }

  /** What the previous version allows: nothing without an identifier or a previous version. */
  function PreviousUri(id: string, previous: Fetched): Result<Option<string>> {
    if id == "" || previous.NotFound? then Ok(None)
    else if previous.Failed? then Err(KeyError)
    else NormalUri(previous.data)
  }

  /** The decision table of the check: accepted exactly when the normal form is the one allowed. */
  function CheckBulkUri(id: string, data: Data, previous: Fetched): (d: Decision)
    ensures d.Accepted? <==>
            NormalUri(data).Ok? && PreviousUri(id, previous).Ok? && NormalUri(data) == PreviousUri(id, previous)
  {
    var uri := NormalUri(data);
    if uri.Err? then Raised
    else if id == "" then
      if uri.value.None? then Accepted else Rejected
    else match previous
      case NotFound => if uri.value.None? then Accepted else Rejected
      case Failed => Raised
      case Found(prior) =>
        var priorUri := NormalUri(prior);
        if priorUri.Err? then Raised
        else if priorUri.value.None? && uri.value.Some? then Rejected
        else if uri.value != priorUri.value then Rejected
        else Accepted
  }

  lemma ValidUriIsCanonical(data: Data)
    requires GetBulkUri(data).Ok? && IsValid(GetBulkUri(data).value)
    ensures Canonical(GetBulkUri(data).value.bulkId) && !GetBulkUri(data).value.version.Invalid?
  {
    var text := data[EXTENSION].fields[WDMS].fields[BULK_URI].s;
    DecodeNormalForm(text);
  }

  lemma ValidUriPrints(data: Data)
    requires GetBulkUri(data).Ok? && IsValid(GetBulkUri(data).value)
    ensures NormalUri(data).Ok? && NormalUri(data).value.Some?
    ensures NormalUri(data).value == Encode(GetBulkUri(data).value)
  {
    ValidUriIsCanonical(data);
    DecodeUndoesEncode(GetBulkUri(data).value);
  }

  /** The record has a URI that can be read and is none. */
  predicate HasNone(data: Data) { GetBulkUri(data).Ok? && !IsValid(GetBulkUri(data).value) }

  /** The record has a valid URI. */
  predicate HasOne(data: Data) { GetBulkUri(data).Ok? && IsValid(GetBulkUri(data).value) }

  /**
   The nine cases of the check: a record without a URI is accepted without an identifier, without a previous
   version, or if that has none either; one with a URI exactly if the previous version has the same.
   */
  lemma DecisionTable(id: string, data: Data, previous: Fetched)
    ensures var d := CheckBulkUri(id, data, previous);
      && (d.Accepted? <==>
            || (HasNone(data) && (id == "" || previous.NotFound? || (previous.Found? && HasNone(previous.data))))
            || (HasOne(data) && id != "" && previous.Found? && GetBulkUri(previous.data) == GetBulkUri(data)))
      && (d.Raised? <==>
            || GetBulkUri(data).Err?
            || (id != "" && (previous.Failed? || (previous.Found? && GetBulkUri(previous.data).Err?))))
      && (d.Rejected? <==>
            || (HasOne(data) && (id == "" || previous.NotFound?))
            || (id != "" && previous.Found? && GetBulkUri(data).Ok? && GetBulkUri(previous.data).Ok?
                && (HasOne(data) || HasOne(previous.data)) && GetBulkUri(previous.data) != GetBulkUri(data)))
  {
    if HasOne(data) { ValidUriPrints(data); }
    if id != "" && previous.Found? && HasOne(previous.data) {
      ValidUriPrints(previous.data);
      if HasOne(data) {
        ValidUriIsCanonical(data);
        ValidUriIsCanonical(previous.data);
        EncodeIsInjective(GetBulkUri(data).value, GetBulkUri(previous.data).value);
      }
    }
  }

  /** An accepted record carries no valid URI, or the very URI of the previous version. */
  lemma AcceptedUriIsPrevious(id: string, data: Data, previous: Fetched)
    requires CheckBulkUri(id, data, previous).Accepted?
    requires GetBulkUri(data).Ok? && IsValid(GetBulkUri(data).value)
    ensures id != "" && previous.Found? && GetBulkUri(previous.data) == GetBulkUri(data)
  {
    ValidUriIsCanonical(data);
    DecodeUndoesEncode(GetBulkUri(data).value);
    assert NormalUri(data).value.Some?;
    assert previous.Found?;
    ValidUriIsCanonical(previous.data);
    EncodeIsInjective(GetBulkUri(data).value, GetBulkUri(previous.data).value);
  }

  // ---------- interleaved requests ----------

  /** A request in progress: the record concerned and the data it will publish, or was fetched. */
  datatype Pending = Pending(id: string, data: Data)

  datatype World = World(
    versions: map<string, seq<Data>>,
    issued: set<(string, BulkUri)>,
    checked: map<nat, Pending>,
    fetched: map<nat, Pending>,
    produced: map<nat, Pending>)

  datatype Step =
    | CheckRecord(r: nat, id: string, data: Data, index: nat)
    | PublishRecord(r: nat, newId: string)
    | FetchBase(r: nat, id: string, index: nat)
    | WriteBulk(r: nat, id: string, kind: string, atLeast: VersionOrder, loadCompleted: Option<string>, bulkId: string)
    | PublishBulk(r: nat)
    | DeleteRecord(id: string)

  predicate HasVersion(w: World, id: string, index: nat) { id in w.versions && index < |w.versions[id]| }

  /** What the storage returns as the latest version: one of those stored, whichever its name puts last. */
  function Latest(w: World, id: string, index: nat): Fetched {
    if HasVersion(w, id, index) then Found(w.versions[id][index]) else NotFound
  }

  function Append(w: World, id: string, data: Data): map<string, seq<Data>> {
    w.versions[id := (if id in w.versions then w.versions[id] else []) + [data]]
  }

  ghost predicate Enabled(w: World, s: Step) {
    match s
    case CheckRecord(r, id, data, i) =>
      && r !in w.checked && CheckBulkUri(id, data, Latest(w, id, i)).Accepted?
      && (HasVersion(w, id, 0) ==> HasVersion(w, id, i))
    case PublishRecord(r, newId) => r in w.checked
    case FetchBase(r, id, i) => r !in w.fetched && HasVersion(w, id, i)
    case WriteBulk(r, id, kind, atLeast, load, bulkId) =>
      r in w.fetched && w.fetched[r].id == id && r !in w.produced
      && CanSetBulkUri(w.fetched[r].data, kind, atLeast, bulkId)
    case PublishBulk(r) => r in w.produced
    case DeleteRecord(id) => true
  }

  ghost function Apply(w: World, s: Step): World
    requires Enabled(w, s)
  {
    match s
    case CheckRecord(r, id, data, _) => w.(checked := w.checked[r := Pending(id, data)])
    case PublishRecord(r, newId) =>
      var p := w.checked[r];
      w.(versions := Append(w, if p.id == "" then newId else p.id, p.data), checked := w.checked - {r})
    case FetchBase(r, id, i) => w.(fetched := w.fetched[r := Pending(id, w.versions[id][i])])
    case WriteBulk(r, id, kind, atLeast, load, bulkId) =>
      MarkLoadedKeeps(w.fetched[r].data, load);
      w.(issued := w.issued + {(id, BulkUri(ParseUuid(bulkId).value, V1))},
         produced := w.produced[r := Pending(id, CommitData(w.fetched[r].data, kind, atLeast, load, bulkId))])
    case PublishBulk(r) =>
      w.(versions := Append(w, w.produced[r].id, w.produced[r].data), produced := w.produced - {r})
    case DeleteRecord(id) => w.(versions := w.versions - {id})
  }

  ghost function Run(start: World, steps: seq<Step>): World {
    if |steps| == 0 then start
    else
      var w := Run(start, steps[..|steps| - 1]);
      if Enabled(w, steps[|steps| - 1]) then Apply(w, steps[|steps| - 1]) else w
  }

  /** The data has no valid URI, or one issued for that record. */
  ghost predicate Rightful(issued: set<(string, BulkUri)>, id: string, data: Data) {
    var u := GetBulkUri(data);
    u.Ok? && IsValid(u.value) ==> (id, u.value) in issued
  }

  ghost predicate HasNoUri(data: Data) { GetBulkUri(data).Ok? ==> !IsValid(GetBulkUri(data).value) }

  ghost predicate AllRightful(w: World) {
    && (forall id, i | id in w.versions && 0 <= i < |w.versions[id]| :: Rightful(w.issued, id, w.versions[id][i]))
    && (forall r | r in w.checked ::
          if w.checked[r].id == "" then HasNoUri(w.checked[r].data)
          else Rightful(w.issued, w.checked[r].id, w.checked[r].data))
    && (forall r | r in w.produced :: Rightful(w.issued, w.produced[r].id, w.produced[r].data))
  }

  lemma AppendKeepsRightful(w: World, id: string, data: Data)
    requires AllRightful(w) && Rightful(w.issued, id, data)
    ensures AllRightful(w.(versions := Append(w, id, data)))
  {
    var w' := w.(versions := Append(w, id, data));
    forall k, i | k in w'.versions && 0 <= i < |w'.versions[k]| ensures Rightful(w.issued, k, w'.versions[k][i]) {
      if k == id && !(k in w.versions && i < |w.versions[k]|) {
        assert w'.versions[k][i] == data;
      } else {
        assert w'.versions[k][i] == w.versions[k][i];
      }
    }
  }

  lemma CheckedIsRightful(w: World, s: Step)
    requires AllRightful(w) && s.CheckRecord? && Enabled(w, s)
    ensures if s.id == "" then HasNoUri(s.data) else Rightful(w.issued, s.id, s.data)
  {
    if GetBulkUri(s.data).Ok? && IsValid(GetBulkUri(s.data).value) {
      AcceptedUriIsPrevious(s.id, s.data, Latest(w, s.id, s.index));
    }
  }

  lemma ProducedIsRightful(w: World, s: Step)
    requires s.WriteBulk? && Enabled(w, s)
    ensures Rightful(Apply(w, s).issued, s.id, Apply(w, s).produced[s.r].data)
  {
    var base := w.fetched[s.r].data;
    MarkLoadedKeeps(base, s.loadCompleted);
    WrittenUriReadsBack(MarkLoaded(base, s.loadCompleted), s.kind, s.atLeast, s.bulkId);
  }

  lemma PublishKeepsRightful(w: World, s: Step)
    requires AllRightful(w) && Enabled(w, s) && (s.PublishRecord? || s.PublishBulk?)
    ensures AllRightful(Apply(w, s))
  {
    if s.PublishRecord? {
      var p := w.checked[s.r];
      AppendKeepsRightful(w, if p.id == "" then s.newId else p.id, p.data);
    } else {
      AppendKeepsRightful(w, w.produced[s.r].id, w.produced[s.r].data);
    }
  }

  lemma WriteKeepsRightful(w: World, s: Step)
    requires AllRightful(w) && Enabled(w, s) && s.WriteBulk?
    ensures AllRightful(Apply(w, s))
  {
    ProducedIsRightful(w, s);
    var w' := Apply(w, s);
    assert w.issued <= w'.issued;
    forall id, i | id in w'.versions && 0 <= i < |w'.versions[id]| ensures Rightful(w'.issued, id, w'.versions[id][i]) {
      assert Rightful(w.issued, id, w.versions[id][i]);
    }
  }

  lemma StepKeepsRightful(w: World, s: Step)
    requires AllRightful(w) && Enabled(w, s)
    ensures AllRightful(Apply(w, s))
  {
    match s
    case CheckRecord(_, _, _, _) => CheckedIsRightful(w, s);
    case PublishRecord(_, _) => PublishKeepsRightful(w, s);
    case WriteBulk(_, _, _, _, _, _) => WriteKeepsRightful(w, s);
    case PublishBulk(_) => PublishKeepsRightful(w, s);
    case _ =>
  }

  /** Publishing appends exactly the data that was checked or produced, and nothing else changes the versions kept. */
  lemma StepsStore(w: World, s: Step)
    requires Enabled(w, s)
    ensures var w' := Apply(w, s);
      match s
      case PublishRecord(r, newId) =>
        var id := if w.checked[r].id == "" then newId else w.checked[r].id;
        w'.versions == w.versions[id := VersionsOf(w, id) + [w.checked[r].data]]
      case PublishBulk(r) =>
        var id := w.produced[r].id;
        w'.versions == w.versions[id := VersionsOf(w, id) + [w.produced[r].data]]
      case DeleteRecord(id) => w'.versions == w.versions - {id}
      case CheckRecord(r, id, data, _) =>
        w'.versions == w.versions && r in w'.checked && w'.checked[r] == Pending(id, data)
      case FetchBase(r, id, i) =>
        w'.versions == w.versions && r in w'.fetched && w'.fetched[r] == Pending(id, w.versions[id][i])
      case WriteBulk(r, id, _, _, _, bulkId) =>
        w'.versions == w.versions && r in w'.produced && w'.produced[r].id == id
        && GetBulkUri(w'.produced[r].data)
           == (if ':' in bulkId then Err(ValueError) else Ok(BulkUri(ParseUuid(bulkId).value, V1)))
  {
    if s.WriteBulk? {
      var base := w.fetched[s.r].data;
      MarkLoadedKeeps(base, s.loadCompleted);
      WrittenUriReadsBack(MarkLoaded(base, s.loadCompleted), s.kind, s.atLeast, s.bulkId);
    }
  }

  function VersionsOf(w: World, id: string): seq<Data> { if id in w.versions then w.versions[id] else [] }

  /** The step is a worker call that issued this URI for this record. */
  ghost predicate Issues(s: Step, p: (string, BulkUri)) {
    s.WriteBulk? && s.id == p.0 && ParseUuid(s.bulkId).Some? && p.1 == BulkUri(ParseUuid(s.bulkId).value, V1)
  }

  /**
   Over every interleaving: each valid URI found in any stored version of a record was issued for that
   same record, either before the run or by a worker call of this run for that record.
   */
  lemma {:induction false} EveryUriWasIssued(start: World, steps: seq<Step>)
    requires AllRightful(start)
    ensures AllRightful(Run(start, steps))
    ensures var w := Run(start, steps);
      forall id, i | id in w.versions && 0 <= i < |w.versions[id]| && GetBulkUri(w.versions[id][i]).Ok?
                     && IsValid(GetBulkUri(w.versions[id][i]).value) ::
        (id, GetBulkUri(w.versions[id][i]).value) in w.issued
    ensures forall p | p in Run(start, steps).issued ::
              p in start.issued
              || exists i :: 0 <= i < |steps| && Issues(steps[i], p)
  {
    if |steps| > 0 {
      var before, s := steps[..|steps| - 1], steps[|steps| - 1];
      EveryUriWasIssued(start, before);
      var w := Run(start, before);
      if Enabled(w, s) { StepKeepsRightful(w, s); }
      forall p | p in Run(start, steps).issued && p !in start.issued
        ensures exists i :: 0 <= i < |steps| && Issues(steps[i], p)
      {
        if p in w.issued {
          var i :| 0 <= i < |before| && Issues(before[i], p);
          assert steps[i] == before[i];
        } else {
          assert steps[|steps| - 1] == s;
        }
      }
    }
  }
}
