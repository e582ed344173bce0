/**
 The part of a record that carries the bulk URI: `data.ExtensionProperties.wdms.bulkURI`,
 the DDMSDatasets list, and the partial read that fetches only the `wdms` object.
 */
module Records {
  import opened Wrappers
  import opened Text
  import opened BulkUris

  datatype Json =
    | Null
    | Bool(b: bool)
    | Num(n: int)
    | Str(s: string)
    | Arr(items: seq<Json>)
    | Obj(fields: map<string, Json>)

  type Data = map<string, Json>

  datatype Error = ValueError | AttributeError | TypeError | KeyError

  datatype Result<+T> = Ok(value: T) | Err(error: Error)

  const EXTENSION := "ExtensionProperties"
  const WDMS := "wdms"
  const BULK_URI := "bulkURI"
  const DATASETS := "DDMSDatasets"
  const EXTENDED_LOAD := "IsExtendedLoad"

  predicate Truthy(j: Json) {
    match j
    case Null => false
    case Bool(b) => b
    case Num(n) => n != 0
    case Str(s) => s != ""
    case Arr(a) => a != []
    case Obj(m) => m != map[]
  }

  /** Dictionary lookup with `None` as default. */
  function Get(m: Data, key: string): Json { if key in m then m[key] else Null }

  // ---------- reading the URI ----------

  function DecodeField(j: Json): Result<BulkUri> {
    if !Truthy(j) then Ok(INVALID_URI)
    else if !j.Str? then Err(AttributeError)
    else
      var u := Decode(j.s);
      if u.None? then Err(ValueError) else Ok(u.value)
  }

  function GetBulkUri(data: Data): Result<BulkUri> {
    var ext := Get(data, EXTENSION);
    if !Truthy(ext) then Ok(INVALID_URI)
    else if !ext.Obj? then Err(AttributeError)
    else
      var wdms := Get(ext.fields, WDMS);
      if !Truthy(wdms) then Ok(INVALID_URI)
      else if !wdms.Obj? then Err(AttributeError)
      else DecodeField(Get(wdms.fields, BULK_URI))
  }

  /** The falsy values. */
  lemma FalsyValues(j: Json)
    ensures !Truthy(j) <==> j in {Null, Bool(false), Num(0), Str(""), Arr([]), Obj(map[])}
  {
  }

  /** Where the URI is kept. */
  lemma UriPath(text: string)
    ensures GetBulkUri(map["ExtensionProperties" := Obj(map["wdms" := Obj(map["bulkURI" := Str(text)])])])
            == if text == "" then Ok(INVALID_URI)
               else if Decode(text).None? then Err(ValueError) else Ok(Decode(text).value)
  {
    var wdms := map["bulkURI" := Str(text)];
    var ext := map["wdms" := Obj(wdms)];
    assert "bulkURI" in wdms && "wdms" in ext;
    WrappedUri(wdms);
  }

  /** What reading it yields: a valid URI, none, or one of two errors, by what is found on the way. */
  lemma UriIsWhatIsStored(data: Data)
    ensures var ext := Get(data, EXTENSION);
      var wdms := if ext.Obj? then Get(ext.fields, WDMS) else Null;
      var text := if wdms.Obj? then Get(wdms.fields, BULK_URI) else Null;
      var u := GetBulkUri(data);
      && (u.Ok? && IsValid(u.value) <==> text.Str? && text.s != "" && Decode(text.s).Some?)
      && (u.Ok? && IsValid(u.value) ==> Decode(text.s) == Some(u.value))
      && (u.Err? && u.error.ValueError? <==> text.Str? && text.s != "" && Decode(text.s).None?)
      && (u.Err? && !u.error.ValueError? <==>
            (Truthy(ext) && !ext.Obj?) || (Truthy(wdms) && !wdms.Obj?) || (Truthy(text) && !text.Str?))
      && (u.Ok? && !IsValid(u.value) ==> u.value == INVALID_URI)
      && (u.Err? && !u.error.ValueError? ==> u.error.AttributeError?)
  {
    var ext := Get(data, EXTENSION);
    var wdms := if ext.Obj? then Get(ext.fields, WDMS) else Null;
    var text := if wdms.Obj? then Get(wdms.fields, BULK_URI) else Null;
    if text.Str? && text.s != "" && Decode(text.s).Some? { DecodeNormalForm(text.s); }
  }

  // ---------- writing it ----------

  /** Comparison of two version texts; `None` when one of them is not a version. */
  type VersionOrder = (string, string) -> Option<bool>

  const EARLIEST_WITH_DATASETS: map<string, string> := map[
    "WellboreIntervalSet" := "1.1.0",
    "WellboreTrajectory" := "1.2.0",
    "WellboreMarkerSet" := "1.3.0",
    "WellLog" := "1.3.0",
    "PPFGDataset" := "1.1.0",
    "WellPressureTestRawMeasurement" := "1.0.0"]

  /** Whether records of this kind list their datasets: `...--Name:version` with a recent enough version. */
  function ListsDatasets(kind: string, atLeast: VersionOrder): Result<bool> {
    var halves := SplitText(kind, "--");
    if |halves| != 2 then Ok(false)
    else
      var parts := Split(halves[1], ':');
      if |parts| != 2 || parts[0] !in EARLIEST_WITH_DATASETS then Ok(false)
      else
        var r := atLeast(parts[1], EARLIEST_WITH_DATASETS[parts[0]]);
        if r.None? then Err(ValueError) else Ok(r.value)
  }

  lemma {:induction false} SplitTextOnce(a: string, b: string)
    requires forall i: nat | i < |a| :: !OccursAt(a + "--", "--", i)
    requires forall i: nat :: !OccursAt(b, "--", i)
    ensures SplitText(a + "--" + b, "--") == [a, b]
    decreases |a|
  {
    var s := a + "--" + b;
    if a == "" {
      assert s[..2] == "--" && s[2..] == b;
      SplitTextNever(b);
    } else {
      assert !OccursAt(a + "--", "--", 0);
      assert s[..2] == (a + "--")[..2];
      var rest := a[1..];
      forall i: nat | i < |rest| ensures !OccursAt(rest + "--", "--", i) {
        assert (rest + "--")[i..i + 2] == (a + "--")[i + 1..i + 3];
        assert !OccursAt(a + "--", "--", i + 1);
      }
      assert s[1..] == rest + "--" + b;
      SplitTextOnce(rest, b);
      assert [a[0]] + rest == a;
    }
  }

  lemma {:induction false} SplitTextNever(b: string)
    requires forall i: nat :: !OccursAt(b, "--", i)
    ensures SplitText(b, "--") == [b]
  {
    if |b| >= 2 {
      assert !OccursAt(b, "--", 0);
      var rest := b[1..];
      forall i: nat ensures !OccursAt(rest, "--", i) {
        assert i + 2 <= |rest| ==> rest[i..i + 2] == b[i + 1..i + 3];
        assert !OccursAt(b, "--", i + 1);
      }
      SplitTextNever(rest);
      assert [b[0]] + rest == b;
    }
  }

  const DATASET_ENTITIES: set<string> := {
    "WellboreIntervalSet", "WellboreTrajectory", "WellboreMarkerSet", "WellLog", "PPFGDataset",
    "WellPressureTestRawMeasurement"}

  /** Outcome of a comparison. */
  function Compared(r: Option<bool>): Result<bool> { if r.None? then Err(ValueError) else Ok(r.value) }

  /** A kind whose entity name follows the only double hyphen. */
  ghost predicate IsKindOf(kind: string, name: string, version: string) {
    SplitText(kind, "--") == [SplitText(kind, "--")[0], name + ":" + version] && ':' !in name && ':' !in version
  }

  lemma KindText(prefix: string, name: string, version: string)
    requires ':' !in name && ':' !in version
    requires forall i: nat | i < |prefix| :: !OccursAt(prefix + "--", "--", i)
    requires forall i: nat :: !OccursAt(name + ":" + version, "--", i)
    ensures IsKindOf(prefix + "--" + (name + ":" + version), name, version)
  {
    SplitTextOnce(prefix, name + ":" + version);
  }

  /** Which versions of which entities list their datasets. */
  lemma DatasetRule(kind: string, name: string, version: string, atLeast: VersionOrder)
    requires IsKindOf(kind, name, version)
    ensures var r := ListsDatasets(kind, atLeast);
      && (name == "WellboreIntervalSet" ==> r == Compared(atLeast(version, "1.1.0")))
      && (name == "WellboreTrajectory" ==> r == Compared(atLeast(version, "1.2.0")))
      && (name == "WellboreMarkerSet" ==> r == Compared(atLeast(version, "1.3.0")))
      && (name == "WellLog" ==> r == Compared(atLeast(version, "1.3.0")))
      && (name == "PPFGDataset" ==> r == Compared(atLeast(version, "1.1.0")))
      && (name == "WellPressureTestRawMeasurement" ==> r == Compared(atLeast(version, "1.0.0")))
      && (name !in DATASET_ENTITIES ==> r == Ok(false))
  {
    SplitNone(version, ':');
    SplitCons(name, version, ':');
  }

  /** Kinds of any other shape list none. */
  lemma NoDatasetsOtherwise(kind: string, atLeast: VersionOrder)
    requires |SplitText(kind, "--")| == 2 ==> |Split(SplitText(kind, "--")[1], ':')| != 2
    ensures ListsDatasets(kind, atLeast) == Ok(false)
  {
  }

  /** The objects on the way to the URI, empty where absent or falsy. */
  predicate HasUriPath(data: Data) {
    var ext := Get(data, EXTENSION);
    Truthy(ext) ==> ext.Obj? && (Truthy(Get(ext.fields, WDMS)) ==> Get(ext.fields, WDMS).Obj?)
  }

  function ExtensionOf(data: Data): map<string, Json>
    requires HasUriPath(data)
  {
    if Truthy(Get(data, EXTENSION)) then data[EXTENSION].fields else map[]
  }

  function WdmsOf(data: Data): map<string, Json>
    requires HasUriPath(data)
  {
    var ext := ExtensionOf(data);
    if Truthy(Get(ext, WDMS)) then ext[WDMS].fields else map[]
  }

  function PutUri(data: Data, uri: string): Data
    requires HasUriPath(data)
  {
    data[EXTENSION := Obj(ExtensionOf(data)[WDMS := Obj(WdmsOf(data)[BULK_URI := Str(uri)])])]
  }

  predicate HasDatasetList(data: Data) { Truthy(Get(data, DATASETS)) ==> Get(data, DATASETS).Arr? }

  function DatasetsOf(data: Data): seq<Json>
    requires HasDatasetList(data)
  {
    if Truthy(Get(data, DATASETS)) then data[DATASETS].items else []
  }

  function PutDataset(data: Data, uri: string): Data
    requires HasDatasetList(data)
  {
    data[DATASETS := Arr(DatasetsOf(data) + [Str(uri)])]
  }

  /** When a bulk identifier can be written into a record at all. */
  predicate CanSetBulkUri(data: Data, kind: string, atLeast: VersionOrder, bulkId: string) {
    && HasUriPath(data)
    && bulkId != "" && ParseUuid(bulkId).Some?
    && ListsDatasets(kind, atLeast).Ok?
    && (ListsDatasets(kind, atLeast).value ==> HasDatasetList(data))
  }

  function WithBulkUri(data: Data, kind: string, atLeast: VersionOrder, bulkId: string): Data
    requires CanSetBulkUri(data, kind, atLeast, bulkId)
  {
    var uri := BulkUri(bulkId, V1);
    var d := PutUri(data, Encode(uri).value);
    if ListsDatasets(kind, atLeast).value then PutDataset(d, EncodeForDatasets(uri)) else d
  }

  /** `ExtensionProperties` after its falsy levels were reset. */
  function PreparedExtension(data: Data): map<string, Json>
    requires Truthy(Get(data, EXTENSION)) ==> Get(data, EXTENSION).Obj?
  {
    var ext := Get(data, EXTENSION);
    if !Truthy(ext) then map[]
    else if !Truthy(Get(ext.fields, WDMS)) then ext.fields[WDMS := Obj(map[])]
    else ext.fields
  }

  lemma Overwritten<K, V>(m: map<K, V>, k: K, a: V, b: V)
    ensures m[k := a][k := b] == m[k := b]
  {
  }

  /** Resetting the falsy levels and then assigning is the same as putting the URI in place. */
  lemma PreparedThenAssigned(data: Data, uri: string)
    requires Truthy(Get(data, EXTENSION)) ==> Get(data, EXTENSION).Obj?
    ensures var ext := PreparedExtension(data);
      && (HasUriPath(data) <==> (WDMS in ext ==> ext[WDMS].Obj?))
      && (HasUriPath(data) ==>
            var wdms := if WDMS in ext then ext[WDMS].fields else map[];
            data[EXTENSION := Obj(ext)][EXTENSION := Obj(ext[WDMS := Obj(wdms[BULK_URI := Str(uri)])])]
            == PutUri(data, uri))
  {
    var ext := PreparedExtension(data);
    if HasUriPath(data) {
      var wdms := WdmsOf(data)[BULK_URI := Str(uri)];
      Overwritten(ExtensionOf(data), WDMS, Obj(map[]), Obj(wdms));
      Overwritten(data, EXTENSION, Obj(ext), Obj(ext[WDMS := Obj(wdms)]));
      assert ext[WDMS := Obj(wdms)] == ExtensionOf(data)[WDMS := Obj(wdms)];
    }
  }

  class Record {
    var id: Option<string>
    var kind: string
    var version: Option<nat>
    var data: Data

    constructor (id: Option<string>, kind: string, version: Option<nat>, data: Data)
      ensures this.id == id && this.kind == kind && this.version == version && this.data == data
    {
      this.id, this.kind, this.version, this.data := id, kind, version, data;
    }

    /** Makes `ExtensionProperties` an object, and resets a falsy `wdms` in it. */
    method EnsureExtension() returns (error: Option<Error>)
      modifies this`data
      ensures error.None? <==> (Truthy(Get(old(data), EXTENSION)) ==> Get(old(data), EXTENSION).Obj?)
      ensures error.Some? ==> data == old(data)
      ensures error.None? ==> data == old(data)[EXTENSION := Obj(PreparedExtension(old(data)))]
    {
      if !Truthy(Get(data, EXTENSION)) {
        data := data[EXTENSION := Obj(map[])];
      } else if !data[EXTENSION].Obj? {
        return Some(AttributeError);
      } else if !Truthy(Get(data[EXTENSION].fields, WDMS)) {
        data := data[EXTENSION := Obj(data[EXTENSION].fields[WDMS := Obj(map[])])];
      }
      error := None;
    }

    /** Both `setdefault` calls and the item assignment. */
    method AssignUri(uri: string) returns (error: Option<Error>)
      requires EXTENSION in data && data[EXTENSION].Obj?
      modifies this`data
      ensures var ext := old(data[EXTENSION].fields);
        && (error.None? <==> (WDMS in ext ==> ext[WDMS].Obj?))
        && (error.Some? ==> data == old(data))
        && (error.None? ==>
              var wdms := if WDMS in ext then ext[WDMS].fields else map[];
              data == old(data)[EXTENSION := Obj(ext[WDMS := Obj(wdms[BULK_URI := Str(uri)])])])
    {
      var ext := data[EXTENSION].fields;
      if WDMS !in ext { ext := ext[WDMS := Obj(map[])]; }
      if !ext[WDMS].Obj? { return Some(TypeError); }
      var wdms := Obj(ext[WDMS].fields[BULK_URI := Str(uri)]);
      Overwritten(data[EXTENSION].fields, WDMS, Obj(map[]), wdms);
      data := data[EXTENSION := Obj(ext[WDMS := wdms])];
      error := None;
    }

    /** Writes a V1 URI for `bulkId` into the record, creating the objects on the way. */
    method SetBulkUri(bulkId: string, atLeast: VersionOrder) returns (error: Option<Error>)
      modifies this`data
      ensures error.None? <==> CanSetBulkUri(old(data), kind, atLeast, bulkId)
      ensures error.None? ==> data == WithBulkUri(old(data), kind, atLeast, bulkId)
      ensures forall k | k != EXTENSION && k != DATASETS :: Get(data, k) == Get(old(data), k)
    {
      EmptyIsNotUuid();
      error := EnsureExtension();
      if error.Some? { return; }
      var uri := Make(bulkId, V1);
      if uri.None? { return Some(ValueError); }
      var text := Encode(uri.value);
      if text.None? { return Some(ValueError); }
      error := AssignUri(text.value);
      PreparedThenAssigned(old(data), text.value);
      if error.Some? { return; }
      error := AppendDataset(uri.value, atLeast);
    }

    /** Appends the dataset form of the URI when the kind lists its datasets. */
    method AppendDataset(uri: BulkUri, atLeast: VersionOrder) returns (error: Option<Error>)
      modifies this`data
      ensures error.None? <==> ListsDatasets(kind, atLeast).Ok?
                               && (ListsDatasets(kind, atLeast).value ==> HasDatasetList(old(data)))
      ensures error.None? ==> data == if ListsDatasets(kind, atLeast).value
                                      then PutDataset(old(data), EncodeForDatasets(uri)) else old(data)
      ensures error.None? && ListsDatasets(kind, atLeast).value && uri.version.V1? ==>
        HasDatasetList(data) && DatasetsOf(data) == DatasetsOf(old(data)) + [Str("urn://wdms-1/uuid:" + uri.bulkId)]
      ensures forall k | k != DATASETS :: Get(data, k) == Get(old(data), k)
    {
      V1Text(uri.bulkId);
      var lists := ListsDatasets(kind, atLeast);
      if lists.Err? { return Some(lists.error); }
      if lists.value {
        if !Truthy(Get(data, DATASETS)) { data := data[DATASETS := Arr([])]; }
        if !data[DATASETS].Arr? { return Some(AttributeError); }
        data := data[DATASETS := Arr(data[DATASETS].items + [Str(EncodeForDatasets(uri))])];
      }
      error := None;
    }

    /** After a partial read: pops the projected object and merges it in place. */
    method RestoreWdms() returns (error: Option<Error>)
      modifies this`data
      ensures error == var d := Reconstruct(old(data)); if d.Err? then Some(d.error) else None
      ensures error.None? ==> data == Reconstruct(old(data)).value
    {
      var wdms := Obj(map[]);
      if WDMS_PATH in data {
        wdms := data[WDMS_PATH];
        data := data - {WDMS_PATH};
      }
      assert data == old(data) - {WDMS_PATH};
      var ext := if EXTENSION in data then data[EXTENSION] else Obj(map[]);
      if !ext.Obj? { return Some(AttributeError); }
      var inner := if WDMS in ext.fields then ext.fields[WDMS] else Obj(map[]);
      if !inner.Obj? { return Some(AttributeError); }
      var update := UpdateItems(wdms);
      if update.Err? { return Some(update.error); }
      data := data[EXTENSION := Obj(ext.fields[WDMS := Obj(inner.fields + update.value)])];
      error := None;
    }
  }

  // ---------- what a written record reads back as ----------

  lemma EmptyIsNotUuid()
    ensures ParseUuid("").None? && Encode(INVALID_URI).None?
  {
    assert Strip("", IsBrace) == "";
  }

  lemma PutUriReadsBack(data: Data, uri: string)
    requires HasUriPath(data)
    ensures var d := PutUri(data, uri);
      && GetBulkUri(d) == DecodeField(Str(uri))
      && HasUriPath(d)
      && ExtensionOf(d) == ExtensionOf(data)[WDMS := Obj(WdmsOf(data)[BULK_URI := Str(uri)])]
      && WdmsOf(d) == WdmsOf(data)[BULK_URI := Str(uri)]
  {
    var wdms := WdmsOf(data)[BULK_URI := Str(uri)];
    assert BULK_URI in wdms;
    var ext := ExtensionOf(data)[WDMS := Obj(wdms)];
    assert WDMS in ext;
    var d := PutUri(data, uri);
    assert Get(d, EXTENSION) == Obj(ext) && Get(ext, WDMS) == Obj(wdms);
  }

  /** Writing the dataset list leaves the URI path alone. */
  lemma PutDatasetKeepsUri(data: Data, uri: string)
    requires HasUriPath(data) && HasDatasetList(data)
    ensures var d := PutDataset(data, uri);
      && Get(d, EXTENSION) == Get(data, EXTENSION) && GetBulkUri(d) == GetBulkUri(data)
      && HasDatasetList(d) && DatasetsOf(d) == DatasetsOf(data) + [Str(uri)]
  {
  }

  lemma WithBulkUriShape(data: Data, kind: string, atLeast: VersionOrder, bulkId: string)
    requires CanSetBulkUri(data, kind, atLeast, bulkId)
    ensures var d := WithBulkUri(data, kind, atLeast, bulkId);
      var p := PutUri(data, Encode(BulkUri(bulkId, V1)).value);
      && Get(d, EXTENSION) == Get(p, EXTENSION) && GetBulkUri(d) == GetBulkUri(p)
      && d - {EXTENSION, DATASETS} == data - {EXTENSION, DATASETS}
      && (if ListsDatasets(kind, atLeast).value
          then HasDatasetList(d)
               && DatasetsOf(d) == DatasetsOf(data) + [Str(EncodeForDatasets(BulkUri(bulkId, V1)))]
          else d - {EXTENSION} == data - {EXTENSION})
  {
    var p := PutUri(data, Encode(BulkUri(bulkId, V1)).value);
    PutUriReadsBack(data, Encode(BulkUri(bulkId, V1)).value);
    assert Get(p, DATASETS) == Get(data, DATASETS);
    if ListsDatasets(kind, atLeast).value { PutDatasetKeepsUri(p, EncodeForDatasets(BulkUri(bulkId, V1))); }
  }

  /**
   A record into which `bulkId` was written reads back as storage V1 with the canonical form of that very
   identifier if it has no colon, and is unreadable otherwise; nothing but the URI and the dataset list moved.
   */
  lemma WrittenUriReadsBack(data: Data, kind: string, atLeast: VersionOrder, bulkId: string)
    requires CanSetBulkUri(data, kind, atLeast, bulkId)
    ensures var d := WithBulkUri(data, kind, atLeast, bulkId);
      && GetBulkUri(d) == (if ':' in bulkId then Err(ValueError) else Ok(BulkUri(ParseUuid(bulkId).value, V1)))
      && (Canonical(bulkId) ==> GetBulkUri(d) == Ok(BulkUri(bulkId, V1)))
      && d - {EXTENSION, DATASETS} == data - {EXTENSION, DATASETS}
      && HasUriPath(d)
      && ExtensionOf(d) - {WDMS} == ExtensionOf(data) - {WDMS}
      && WdmsOf(d) == WdmsOf(data)[BULK_URI := Str("urn:wdms-1:uuid:" + bulkId)]
      && (if ListsDatasets(kind, atLeast).value
          then HasDatasetList(d)
               && DatasetsOf(d) == DatasetsOf(data) + [Str("urn://wdms-1/uuid:" + bulkId)]
          else d - {EXTENSION} == data - {EXTENSION})
  {
    V1Text(bulkId);
    var uri := Encode(BulkUri(bulkId, V1)).value;
    WithBulkUriShape(data, kind, atLeast, bulkId);
    PutUriReadsBack(data, uri);
    PrintedUriDecodes(bulkId);
    SamePath(WithBulkUri(data, kind, atLeast, bulkId), PutUri(data, uri));
  }

  /** A record without data, after a bulk identifier was written into it. */
  lemma FreshRecordWritten(kind: string, atLeast: VersionOrder, bulkId: string)
    requires CanSetBulkUri(map[], kind, atLeast, bulkId)
    ensures var wdms := map["bulkURI" := Str("urn:wdms-1:uuid:" + bulkId)];
      var uri := map["ExtensionProperties" := Obj(map["wdms" := Obj(wdms)])];
      WithBulkUri(map[], kind, atLeast, bulkId) ==
      if ListsDatasets(kind, atLeast).value then uri["DDMSDatasets" := Arr([Str("urn://wdms-1/uuid:" + bulkId)])]
      else uri
  {
    V1Text(bulkId);
    var none: Data := map[];
    var wdms := none[BULK_URI := Str("urn:wdms-1:uuid:" + bulkId)];
    assert wdms == map["bulkURI" := Str("urn:wdms-1:uuid:" + bulkId)];
    assert none[WDMS := Obj(wdms)] == map["wdms" := Obj(wdms)];
    var uri := PutUri(none, "urn:wdms-1:uuid:" + bulkId);
    assert uri == map["ExtensionProperties" := Obj(map["wdms" := Obj(wdms)])];
    assert HasDatasetList(uri) && DatasetsOf(uri) == [];
    var entry := Str("urn://wdms-1/uuid:" + bulkId);
    assert DatasetsOf(uri) + [entry] == [entry];
    assert PutDataset(uri, "urn://wdms-1/uuid:" + bulkId) == uri["DDMSDatasets" := Arr([entry])];
  }

  lemma PrintedUriDecodes(bulkId: string)
    requires bulkId != "" && ParseUuid(bulkId).Some?
    ensures var r := DecodeField(Str(Encode(BulkUri(bulkId, V1)).value));
      && r == (if ':' in bulkId then Err(ValueError) else Ok(BulkUri(ParseUuid(bulkId).value, V1)))
      && (Canonical(bulkId) ==> r == Ok(BulkUri(bulkId, V1)))
  {
    V1ReadsBack(bulkId);
    DecodeText(Encode(BulkUri(bulkId, V1)).value);
    if Canonical(bulkId) { CanonicalReadsItself(bulkId); }
  }

  lemma DecodeText(text: string)
    requires text != ""
    ensures DecodeField(Str(text)) == if Decode(text).None? then Err(ValueError) else Ok(Decode(text).value)
  {
  }

  lemma SamePath(d: Data, p: Data)
    requires Get(d, EXTENSION) == Get(p, EXTENSION) && HasUriPath(p)
    ensures HasUriPath(d) && ExtensionOf(d) == ExtensionOf(p) && WdmsOf(d) == WdmsOf(p)
  {
  }

  // ---------- partial read ----------

  const WDMS_PATH := EXTENSION + "." + WDMS
  const WDMS_ATTRIBUTE := "data" + "." + WDMS_PATH

  /** Follows a path of keys; a missing key ends the walk with `Null`. */
  function Walk(node: Json, path: seq<string>): Result<Json> {
    if path == [] then Ok(node)
    else if !node.Obj? then Err(AttributeError)
    else
      var next := Get(node.fields, path[0]);
      if next.Null? then Ok(Null) else Walk(next, path[1..])
  }

  /** The attributes asked for, each under its dotted path. */
  function Projection(data: Data, attributes: seq<string>): Result<Data> {
    if attributes == [] then Ok(map[])
    else
      var rest := Projection(data, attributes[..|attributes| - 1]);
      var path := Split(attributes[|attributes| - 1], '.');
      if rest.Err? then rest
      else if path[0] != "data" then Err(KeyError)
      else
        var node := Walk(Obj(data), path[1..]);
        if node.Err? then Err(node.error)
        else if node.value.Null? then rest
        else Ok(rest.value[Join(path[1..], '.') := node.value])
  }

  /** Reached through the attribute `data.key`. */
  ghost predicate Asked(attributes: seq<string>, key: string) {
    exists i :: 0 <= i < |attributes| && attributes[i] == "data" + "." + key
  }

  lemma AttributeKey(attribute: string, key: string)
    requires Split(attribute, '.')[0] == "data" && key != ""
    ensures Join(Split(attribute, '.')[1..], '.') == key <==> attribute == "data" + "." + key
    ensures attribute == "data" + "." + key ==> Split(attribute, '.')[1..] == Split(key, '.')
  {
    var path := Split(attribute, '.');
    JoinSplit(attribute, '.');
    if attribute == "data" + "." + key {
      SplitCons("data", key, '.');
      JoinSplit(key, '.');
    }
  }

  /** A projection holds exactly the values found at the paths asked for, each under its path. */
  lemma {:induction false} ProjectionExactly(data: Data, attributes: seq<string>, key: string)
    requires Projection(data, attributes).Ok? && key != ""
    ensures var r := Projection(data, attributes).value; var node := Walk(Obj(data), Split(key, '.'));
      && (Asked(attributes, key) ==> node.Ok?)
      && (key in r <==> Asked(attributes, key) && !node.value.Null?)
      && (key in r ==> r[key] == node.value)
  {
    if attributes != [] {
      var before, last := attributes[..|attributes| - 1], attributes[|attributes| - 1];
      assert attributes == before + [last];
      ProjectionExactly(data, before, key);
      AttributeKey(last, key);
      AskedLast(before, last, key);
    }
  }

  lemma AskedLast(before: seq<string>, last: string, key: string)
    ensures Asked(before + [last], key) <==> Asked(before, key) || last == "data" + "." + key
  {
    var all := before + [last];
    if Asked(before, key) {
      var i :| 0 <= i < |before| && before[i] == "data" + "." + key;
      assert all[i] == before[i];
    }
    assert all[|before|] == last;
  }

  /** It fails exactly on an attribute outside the data, or one whose path leads through something that is no object. */
  lemma {:induction false} ProjectionFailsExactly(data: Data, attributes: seq<string>)
    ensures Projection(data, attributes).Err? <==>
            exists i :: 0 <= i < |attributes| && AttributeFails(data, attributes[i])
  {
    if attributes != [] {
      var before, last := attributes[..|attributes| - 1], attributes[|attributes| - 1];
      assert attributes == before + [last];
      ProjectionFailsExactly(data, before);
      if Projection(data, before).Err? {
        var i :| 0 <= i < |before| && AttributeFails(data, before[i]);
        assert attributes[i] == before[i];
      }
      assert attributes[|attributes| - 1] == last;
    }
  }

  predicate AttributeFails(data: Data, attribute: string) {
    var path := Split(attribute, '.');
    path[0] != "data" || Walk(Obj(data), path[1..]).Err?
  }

  method ProjectAttributes(data: Data, attributes: seq<string>) returns (r: Result<Data>)
    ensures r == Projection(data, attributes)
  {
    var restricted: Data := map[];
    for i := 0 to |attributes|
      invariant Projection(data, attributes[..i]) == Ok(restricted)
    {
      assert attributes[..i + 1][..i] == attributes[..i];
      var path := Split(attributes[i], '.');
      if path[0] != "data" {
        ProjectionFails(data, attributes, i + 1);
        return Err(KeyError);
      }
      var node := Obj(data);
      var j := 1;
      while j < |path| && !node.Null?
        invariant 1 <= j <= |path|
        invariant node.Null? ==> Walk(Obj(data), path[1..]) == Ok(Null)
        invariant !node.Null? ==> Walk(Obj(data), path[1..]) == Walk(node, path[j..])
      {
        if !node.Obj? {
          ProjectionFails(data, attributes, i + 1);
          return Err(AttributeError);
        }
        node := Get(node.fields, path[j]);
        assert path[j..][1..] == path[j + 1..];
        j := j + 1;
      }
      if !node.Null? { restricted := restricted[Join(path[1..], '.') := node]; }
    }
    assert attributes[..|attributes|] == attributes;
    return Ok(restricted);
  }

  lemma {:induction false} ProjectionFails(data: Data, attributes: seq<string>, i: nat)
    requires i <= |attributes| && Projection(data, attributes[..i]).Err?
    ensures Projection(data, attributes) == Projection(data, attributes[..i])
    decreases |attributes| - i
  {
    if i == |attributes| {
      assert attributes[..i] == attributes;
    } else {
      assert attributes[..i + 1][..i] == attributes[..i];
      ProjectionFails(data, attributes, i + 1);
    }
  }

  /** What updating a dictionary with a value puts into it; an empty text or list puts nothing. */
  function UpdateItems(j: Json): Result<map<string, Json>> {
    match j
    case Obj(fields) => Ok(fields)
    case Str(s) => if s == "" then Ok(map[]) else Err(ValueError)
    case Arr(items) => PairItems(items)
    case _ => Err(TypeError)
  }

  /** A list of pairs, later ones winning; a text of two characters is a pair too. */
  function PairItems(items: seq<Json>): (r: Result<map<string, Json>>)
    ensures r.Err? ==> r.error in {ValueError, TypeError}
  {
    if items == [] then Ok(map[])
    else
      var before := PairItems(items[..|items| - 1]);
      var pair := PairOf(items[|items| - 1]);
      if before.Err? then before
      else if pair.Err? then Err(pair.error)
      else Ok(if pair.value.0.Str? then before.value[pair.value.0.s := pair.value.1] else before.value)
  }

  /** What merging a value that is no list does: objects are taken over, and the rest fails by its type. */
  lemma MergedItems(fields: map<string, Json>, j: Json)
    ensures UpdateItems(Obj(fields)) == Ok(fields)
    ensures UpdateItems(Str("")) == Ok(map[]) && UpdateItems(Arr([])) == Ok(map[])
    ensures j.Null? || j.Bool? || j.Num? ==> UpdateItems(j) == Err(TypeError)
    ensures j.Str? && j.s != "" ==> UpdateItems(j) == Err(ValueError)
  {
  }

  lemma PairsGrow(before: seq<Json>, last: Json)
    requires PairItems(before).Ok?
    ensures PairOf(last).Err? ==> PairItems(before + [last]) == Err(PairOf(last).error)
    ensures PairOf(last).Ok? && PairOf(last).value.0.Str? ==>
      PairItems(before + [last]) == Ok(PairItems(before).value[PairOf(last).value.0.s := PairOf(last).value.1])
  {
    var all := before + [last];
    assert all[..|all| - 1] == before && all[|all| - 1] == last;
  }

  /** A list is merged pair by pair, later ones winning; a text of two characters is a pair, other scalars fail. */
  lemma MergedPairs(before: seq<Json>, key: string, value: Json, j: Json)
    requires PairItems(before).Ok?
    ensures UpdateItems(Arr(before + [Arr([Str(key), value])])) == Ok(PairItems(before).value[key := value])
    ensures |key| == 2 ==>
      UpdateItems(Arr(before + [Str(key)])) == Ok(PairItems(before).value[[key[0]] := Str([key[1]])])
    ensures |key| != 2 ==> UpdateItems(Arr(before + [Str(key)])) == Err(ValueError)
    ensures j.Null? || j.Bool? || j.Num? ==> UpdateItems(Arr(before + [j])) == Err(TypeError)
  {
    PairsGrow(before, Arr([Str(key), value]));
    PairsGrow(before, Str(key));
    PairsGrow(before, j);
  }

  /** Key and value of one pair; keys that are no texts can be stored but are never looked up, and are not kept here. */
  function PairOf(j: Json): (r: Result<(Json, Json)>)
    ensures r.Err? ==> r.error in {ValueError, TypeError}
  {
    match j
    case Arr(p) =>
      if |p| != 2 then Err(ValueError) else if p[0].Arr? || p[0].Obj? then Err(TypeError) else Ok((p[0], p[1]))
    case Str(s) => if |s| != 2 then Err(ValueError) else Ok((Str([s[0]]), Str([s[1]])))
    case Obj(_) => Err(ValueError)
    case _ => Err(TypeError)
  }

  /** Puts the projected `wdms` object back where a whole record has it. */
  function Reconstruct(data: Data): Result<Data> {
    var wdms := if WDMS_PATH in data then data[WDMS_PATH] else Obj(map[]);
    var rest := data - {WDMS_PATH};
    var ext := if EXTENSION in rest then rest[EXTENSION] else Obj(map[]);
    if !ext.Obj? then Err(AttributeError)
    else
      var prior := if WDMS in ext.fields then ext.fields[WDMS] else Obj(map[]);
      if !prior.Obj? then Err(AttributeError)
      else if UpdateItems(wdms).Err? then Err(UpdateItems(wdms).error)
      else Ok(rest[EXTENSION := Obj(ext.fields[WDMS := Obj(prior.fields + UpdateItems(wdms).value)])])
  }

  /** The bulk URI of a record after a partial read. */
  method UriOfRestored(projected: Data) returns (r: Result<BulkUri>)
    ensures r == var d := Reconstruct(projected); if d.Err? then Err(d.error) else GetBulkUri(d.value)
  {
    var rec := new Record(None, "", None, projected);
    var error := rec.RestoreWdms();
    r := if error.Some? then Err(error.value) else GetBulkUri(rec.data);
  }

  /** The bulk URI seen through the partial read. */
  function PartialBulkUri(data: Data): Result<BulkUri> {
    var p := Projection(data, [WDMS_ATTRIBUTE]);
    if p.Err? then Err(p.error)
    else
      var r := Reconstruct(p.value);
      if r.Err? then Err(r.error) else GetBulkUri(r.value)
  }

  /** The node the partial read asks for. */
  function WdmsNode(data: Data): Json {
    var ext := Get(data, EXTENSION);
    if ext.Obj? then Get(ext.fields, WDMS) else Null
  }

  predicate IsEmptyOrObject(j: Json) { j in {Null, Str(""), Arr([])} || j.Obj? }

  /** A list of pairs that puts something in place of the URI on which both reads fail alike. */
  predicate IsOddList(j: Json) {
    j.Arr? && PairItems(j.items).Ok?
    && var uri := Get(PairItems(j.items).value, BULK_URI);
       Truthy(uri) && !uri.Str?
  }

  /** What the partial read can reproduce: objects on the way, or nothing, or values on which both reads fail alike. */
  predicate ReadsAlike(data: Data) {
    var ext := Get(data, EXTENSION);
    if ext.Obj? || ext.Null? then IsEmptyOrObject(WdmsNode(data)) || IsOddList(WdmsNode(data)) else Truthy(ext)
  }

  lemma SplitThree(a: string, b: string, c: string)
    requires '.' !in a && '.' !in b && '.' !in c
    ensures Split(a + "." + (b + "." + c), '.') == [a, b, c]
    ensures Join([b, c], '.') == b + "." + c
  {
    SplitNone(c, '.');
    SplitCons(b, c, '.');
    SplitCons(a, b + "." + c, '.');
    assert [b, c][1..] == [c];
  }

  lemma ProjectTwo(data: Data, attribute: string, e: string, w: string)
    requires Split(attribute, '.') == ["data", e, w]
    ensures var ext := Get(data, e); var wdms := if ext.Obj? then Get(ext.fields, w) else Null;
      Projection(data, [attribute]) ==
      if ext.Obj? || ext.Null? then Ok(if wdms.Null? then map[] else map[Join([e, w], '.') := wdms])
      else Err(AttributeError)
  {
    var path := Split(attribute, '.');
    var tail := path[1..];
    assert tail == [e, w] && tail[1..] == [w] && tail[1..][1..] == [];
    assert [attribute][..0] == [];
    var ext := Get(data, e);
    var wdms := if ext.Obj? then Get(ext.fields, w) else Null;
    if ext.Obj? { assert Walk(ext, tail[1..]) == Ok(wdms); }
    assert Walk(Obj(data), tail) == if ext.Obj? || ext.Null? then Ok(wdms) else Err(AttributeError);
  }

  lemma ReconstructOne(wdms: Json)
    ensures var projected: Data := if wdms.Null? then map[] else map[WDMS_PATH := wdms];
      var items := if wdms.Null? then Ok(map[]) else UpdateItems(wdms);
      Reconstruct(projected) ==
      if items.Err? then Err(items.error) else Ok(map[EXTENSION := Obj(map[WDMS := Obj(items.value)])])
  {
    var projected: Data := if wdms.Null? then map[] else map[WDMS_PATH := wdms];
    var items := if wdms.Null? then Ok(map[]) else UpdateItems(wdms);
    assert projected - {WDMS_PATH} == map[];
    if items.Ok? { assert map[] + items.value == items.value; }
  }

  lemma WrappedUri(inner: map<string, Json>)
    ensures GetBulkUri(map[EXTENSION := Obj(map[WDMS := Obj(inner)])]) == DecodeField(Get(inner, BULK_URI))
  {
    var ext := map[WDMS := Obj(inner)];
    assert WDMS in ext;
  }

  /** The partial read by what it finds. */
  lemma PartialReadFinds(data: Data)
    ensures var ext, wdms := Get(data, EXTENSION), WdmsNode(data);
      var items := if wdms.Null? then Ok(map[]) else UpdateItems(wdms);
      PartialBulkUri(data) ==
      if !(ext.Obj? || ext.Null?) then Err(AttributeError)
      else if items.Err? then Err(items.error)
      else DecodeField(Get(items.value, BULK_URI))
  {
    SplitThree("data", EXTENSION, WDMS);
    ProjectTwo(data, WDMS_ATTRIBUTE, EXTENSION, WDMS);
    var wdms := WdmsNode(data);
    ReconstructOne(wdms);
    var items := if wdms.Null? then Ok(map[]) else UpdateItems(wdms);
    if items.Ok? { WrappedUri(items.value); }
  }

  /**
   Asking only for the `wdms` object finds the same URI, or the same error, as reading the whole record exactly
   for these records; they include all whose ExtensionProperties and wdms are objects or absent.
   */
  lemma PartialReadAgrees(data: Data)
    ensures PartialBulkUri(data) == GetBulkUri(data) <==> ReadsAlike(data)
  {
    PartialReadFinds(data);
  }

  /** A record the full read takes for one without a URI, and the partial read fails on. */
  lemma PartialReadDiffers()
    ensures var data: Data := map[EXTENSION := Bool(false)];
      GetBulkUri(data) == Ok(INVALID_URI) && PartialBulkUri(data) == Err(AttributeError)
  {
    PartialReadFinds(map[EXTENSION := Bool(false)]);
  }
}
