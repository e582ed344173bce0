/** Which kinds of records the routes of an entity accept: kinds are `authority:source:type:version`. */
module EntityKinds {
  import opened Wrappers
  import opened Text

  const ENTITY_NAMES: map<string, string> := map[
    "well" := "master-data--Well",
    "wellbore" := "master-data--Wellbore",
    "welllog" := "work-product-component--WellLog",
    "trajectory" := "work-product-component--WellboreTrajectory",
    "marker" := "work-product-component--WellboreMarkerSet",
    "wellboreintervalset" := "work-product-component--WellboreIntervalSet",
    "ppfgdatset" := "work-product-component--PPFGDataset",
    "wellpressuretestrawmeasurement" := "work-product-component--WellPressureTestRawMeasurement"]

  /** The entities that have routes. */
  const ROUTED: set<string> := {
    "well", "wellbore", "welllog", "trajectory", "marker", "wellboreintervalset", "welllogacquisition", "ppfgdataset",
    "wellpressuretestrawmeasurement"}

  predicate IsWellFormed(kind: string) { |Split(kind, ':')| == 4 }

  /** Whether the route of an entity accepts records of this kind; routes without one accept all. */
  predicate ServesKind(entity: Option<string>, kind: string) {
    entity.Some? ==>
      IsWellFormed(kind) && (entity.value in ENTITY_NAMES ==> Split(kind, ':')[2] == ENTITY_NAMES[entity.value])
  }

  /** The entity type each route accepts. */
  lemma ServedTypes(a: string, b: string, name: string, version: string)
    requires ':' !in a && ':' !in b && ':' !in name && ':' !in version
    ensures var kind := a + ":" + (b + ":" + (name + ":" + version));
      && (ServesKind(Some("well"), kind) <==> name == "master-data--Well")
      && (ServesKind(Some("wellbore"), kind) <==> name == "master-data--Wellbore")
      && (ServesKind(Some("welllog"), kind) <==> name == "work-product-component--WellLog")
      && (ServesKind(Some("trajectory"), kind) <==> name == "work-product-component--WellboreTrajectory")
      && (ServesKind(Some("marker"), kind) <==> name == "work-product-component--WellboreMarkerSet")
      && (ServesKind(Some("wellboreintervalset"), kind) <==> name == "work-product-component--WellboreIntervalSet")
      && (ServesKind(Some("wellpressuretestrawmeasurement"), kind) <==>
            name == "work-product-component--WellPressureTestRawMeasurement")
      && ServesKind(None, kind)
  {
    SplitNone(version, ':');
    SplitCons(name, version, ':');
    SplitCons(b, name + ":" + version, ':');
    SplitCons(a, b + ":" + (name + ":" + version), ':');
    var parts := Split(a + ":" + (b + ":" + (name + ":" + version)), ':');
    assert parts == [a, b, name, version];
  }

  /** Kinds of more or fewer than four segments are rejected on every route of an entity. */
  lemma MalformedKindRejected(entity: string, kind: string)
    requires |Split(kind, ':')| != 4
    ensures !ServesKind(Some(entity), kind)
  {
  }

  /** The route rejects some well-formed kind. */
  ghost predicate Discriminates(entity: string) { exists kind :: IsWellFormed(kind) && !ServesKind(Some(entity), kind) }

  lemma UntypedKind()
    ensures Split("a:b::1", ':') == ["a", "b", "", "1"]
  {
    SplitNone("1", ':');
    SplitCons("", "1", ':');
    SplitCons("b", ":1", ':');
    SplitCons("a", "b::1", ':');
    assert "a" + ":" + "b::1" == "a:b::1" && "b" + ":" + ":1" == "b::1" && "" + ":" + "1" == ":1";
  }

  /** The check rejects something exactly for the entities in the table. */
  lemma CheckedIffNamed(entity: string)
    ensures Discriminates(entity) <==> entity in ENTITY_NAMES
  {
    UntypedKind();
    if entity in ENTITY_NAMES { assert !ServesKind(Some(entity), "a:b::1"); }
  }

  /**
   Two entities with routes are not in the table, one for being spelled differently there and one for being
   absent; their routes accept every well-formed kind.
   */
  lemma UncheckedRoutes()
    ensures {"ppfgdataset", "welllogacquisition"} <= ROUTED
    ensures forall entity | entity in ROUTED ::
              !Discriminates(entity) <==> entity in {"ppfgdataset", "welllogacquisition"}
  {
    forall entity | entity in ROUTED
      ensures !Discriminates(entity) <==> entity in {"ppfgdataset", "welllogacquisition"}
    {
      CheckedIffNamed(entity);
      NotNamed();
    }
  }

  lemma NotNamed()
    ensures "ppfgdataset" !in ENTITY_NAMES && "welllogacquisition" !in ENTITY_NAMES
  {
    assert forall k | k in ENTITY_NAMES :: |k| != 11 && |k| != 18;
    assert |"ppfgdataset"| == 11 && |"welllogacquisition"| == 18;
  }
}
