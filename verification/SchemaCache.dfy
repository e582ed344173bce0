/** The schema library: four dictionaries filled together, in front of the schema service. */
module SchemaCache {
  import opened Wrappers
  import opened Text

  datatype Mode = Original | Optimised | ExtraForbid | ExtraForbidOptimised

  /** The schema tools, and the kind a schema names as its own. */
  datatype Tools<!D> = Tools(clean: D -> D, optimise: D -> D, forbid: D -> D, source: D -> string)

  datatype Versions<D> = Versions(original: D, optimised: D, extraForbid: D, extraForbidOptimised: D)

  function Pick<D>(v: Versions<D>, mode: Mode): D {
    match mode
    case Original => v.original
    case Optimised => v.optimised
    case ExtraForbid => v.extraForbid
    case ExtraForbidOptimised => v.extraForbidOptimised
  }

  function Build<D>(tools: Tools<D>, schema: D): Versions<D> {
    var original := tools.clean(schema);
    var forbidding := tools.forbid(original);
    Versions(original, tools.optimise(original), forbidding, tools.optimise(forbidding))
  }

  /** The version of a schema that a request in some mode asks for. */
  function Wanted<D>(tools: Tools<D>, schema: D, mode: Mode): D {
    match mode
    case Original => tools.clean(schema)
    case Optimised => tools.optimise(tools.clean(schema))
    case ExtraForbid => tools.forbid(tools.clean(schema))
    case ExtraForbidOptimised => tools.optimise(tools.forbid(tools.clean(schema)))
  }

  /** The four versions built are those asked for. */
  lemma BuiltAsWanted<D>(tools: Tools<D>, schema: D, mode: Mode)
    ensures Pick(Build(tools, schema), mode) == Wanted(tools, schema, mode)
  {
  }

  const AUTHORITY := "osdu:wks"

  predicate IsWellKnown(kind: string) { AUTHORITY <= LowerText(kind) }

  /** Kinds of the authority, in any letter case. */
  lemma WellKnownKinds(kind: string)
    ensures IsWellKnown(kind) <==> |kind| >= 8 && LowerText(kind[..8]) == "osdu:wks"
  {
    if |kind| >= 8 { assert LowerText(kind)[..8] == LowerText(kind[..8]); }
  }

  function OwnKind<D>(tools: Tools<D>, schema: D): string { tools.source(tools.clean(schema)) }

  type Cache<D> = map<string, Versions<D>>

  /** One request and what the service would answer to it at that moment. */
  datatype Call<D> = Call(kind: string, mode: Mode, reply: D)

  /** What one request does to the cache. */
  function After<D>(tools: Tools<D>, cache: Cache<D>, call: Call<D>): Cache<D> {
    if call.kind in cache || !IsWellKnown(OwnKind(tools, call.reply)) then cache
    else cache[OwnKind(tools, call.reply) := Build(tools, call.reply)]
  }

  function Answer<D>(tools: Tools<D>, cache: Cache<D>, call: Call<D>): D {
    Pick(if call.kind in cache then cache[call.kind] else Build(tools, call.reply), call.mode)
  }

  function CacheAfter<D>(tools: Tools<D>, start: Cache<D>, calls: seq<Call<D>>): Cache<D> {
    if calls == [] then start
    else After(tools, CacheAfter(tools, start, calls[..|calls| - 1]), calls[|calls| - 1])
  }

  /** Preloading: a later schema naming the same kind replaces an earlier one. */
  function Loaded<D>(tools: Tools<D>, start: Cache<D>, schemas: seq<D>): Cache<D> {
    if schemas == [] then start
    else
      var last := schemas[|schemas| - 1];
      Loaded(tools, start, schemas[..|schemas| - 1])[OwnKind(tools, last) := Build(tools, last)]
  }

  /** Preloaded schemas that agree with the service make a truthful cache of exactly the kinds they name. */
  lemma {:induction false} PreloadedIsTruthful<D>(tools: Tools<D>, schemas: seq<D>, truth: string -> D, k: string)
    requires forall i | 0 <= i < |schemas| :: schemas[i] == truth(OwnKind(tools, schemas[i]))
    ensures k in Loaded(tools, map[], schemas) <==> exists i :: 0 <= i < |schemas| && OwnKind(tools, schemas[i]) == k
    ensures k in Loaded(tools, map[], schemas) ==> Loaded(tools, map[], schemas)[k] == Build(tools, truth(k))
  {
    if schemas != [] {
      var before, last := schemas[..|schemas| - 1], schemas[|schemas| - 1];
      assert forall i | 0 <= i < |before| :: before[i] == schemas[i];
      PreloadedIsTruthful(tools, before, truth, k);
    }
  }

  class SchemaManager<!D> {
    const tools: Tools<D>
    var library: map<string, D>
    var optimised: map<string, D>
    var forbidding: map<string, D>
    var optimisedForbidding: map<string, D>

    ghost predicate Valid()
      reads this
    {
      library.Keys == optimised.Keys == forbidding.Keys == optimisedForbidding.Keys
    }

    ghost function View(): Cache<D>
      reads this
      requires Valid()
    {
      map k | k in library :: Versions(library[k], optimised[k], forbidding[k], optimisedForbidding[k])
    }

    constructor (tools: Tools<D>)
      ensures Valid() && View() == map[] && this.tools == tools
    {
      this.tools := tools;
      library, optimised, forbidding, optimisedForbidding := map[], map[], map[], map[];
    }

    method Store(kind: string, v: Versions<D>)
      requires Valid()
      modifies this
      ensures Valid() && View() == old(View())[kind := v]
    {
      library := library[kind := v.original];
      optimised := optimised[kind := v.optimised];
      forbidding := forbidding[kind := v.extraForbid];
      optimisedForbidding := optimisedForbidding[kind := v.extraForbidOptimised];
    }

    /** Loads the schemas shipped with the service, each under the kind it names. */
    method LoadKnown(schemas: seq<D>)
      requires Valid()
      modifies this
      ensures Valid()
      ensures View() == Loaded(tools, old(View()), schemas)
    {
      for i := 0 to |schemas|
        invariant Valid()
        invariant View() == Loaded(tools, old(View()), schemas[..i])
      {
        assert schemas[..i + 1][..i] == schemas[..i];
        var v := Build(tools, schemas[i]);
        Store(tools.source(v.original), v);
      }
      assert schemas[..|schemas|] == schemas;
    }

    method Known(kind: string, mode: Mode) returns (r: Option<D>)
      requires Valid()
      ensures r.Some? <==> kind in View()
      ensures r.Some? ==> r.value == Pick(View()[kind], mode)
    {
      var from := match mode
        case Original => library
        case Optimised => optimised
        case ExtraForbid => forbidding
        case ExtraForbidOptimised => optimisedForbidding;
      r := if kind in from then Some(from[kind]) else None;
    }

    method GetSchema(call: Call<D>) returns (r: D)
      requires Valid()
      modifies this
      ensures Valid()
      ensures r == Answer(tools, old(View()), call)
      ensures View() == After(tools, old(View()), call)
    {
      var known := Known(call.kind, call.mode);
      if known.Some? { return known.value; }
      var v := Build(tools, call.reply);
      var kind := tools.source(v.original);
      if IsWellKnown(kind) { Store(kind, v); }
      r := Pick(v, call.mode);
    }
  }

  // ---------- when the cache is transparent ----------

  /** The answers the service may give to a request for a kind, now or later. */
  type Service<!D> = (string, D) -> bool

  ghost predicate Served<D(!new)>(serves: Service<D>, calls: seq<Call<D>>) {
    forall i | 0 <= i < |calls| :: serves(calls[i].kind, calls[i].reply)
  }

  /** After any requests, the next one is answered as if the service had been asked. */
  ghost predicate Transparent<D(!new)>(tools: Tools<D>, start: Cache<D>, serves: Service<D>) {
    forall calls: seq<Call<D>>, next: Call<D> | Served(serves, calls) && serves(next.kind, next.reply) ::
      Answer(tools, CacheAfter(tools, start, calls), next) == Wanted(tools, next.reply, next.mode)
  }

  /**
   Preloaded schemas are built like the service's, and so is a well-known schema, obtained under whatever kind
   is not preloaded, for the kind it names.
   */
  ghost predicate NamesAgree<D(!new)>(tools: Tools<D>, start: Cache<D>, serves: Service<D>) {
    && (forall k, d | k in start && serves(k, d) :: start[k] == Build(tools, d))
    && (forall k, d, e |
          k !in start && serves(k, d) && IsWellKnown(OwnKind(tools, d)) && serves(OwnKind(tools, d), e) ::
          Build(tools, d) == Build(tools, e))
  }

  /** Where a cached entry comes from: it was preloaded, or a schema obtained from the service names it. */
  ghost predicate ComesFrom<D(!new)>(tools: Tools<D>, start: Cache<D>, serves: Service<D>, k: string, v: Versions<D>) {
    || (k in start && v == start[k])
    || (IsWellKnown(k) && exists asked, d ::
          asked !in start && serves(asked, d) && OwnKind(tools, d) == k && v == Build(tools, d))
  }

  /** In every sequence of requests, whatever the service answers; nothing is ever forgotten. */
  lemma {:induction false} CacheComesFrom<D(!new)>(tools: Tools<D>, start: Cache<D>, serves: Service<D>,
                                                   calls: seq<Call<D>>)
    requires Served(serves, calls)
    ensures start.Keys <= CacheAfter(tools, start, calls).Keys
    ensures forall k | k in CacheAfter(tools, start, calls) ::
              ComesFrom(tools, start, serves, k, CacheAfter(tools, start, calls)[k])
  {
    if calls != [] {
      var before, call := calls[..|calls| - 1], calls[|calls| - 1];
      CacheComesFrom(tools, start, serves, before);
      assert serves(call.kind, call.reply);
    }
  }

  /** If the names agree the cache is transparent, and nothing outside the well-known authority is ever added. */
  lemma CacheIsTransparent<D(!new)>(tools: Tools<D>, start: Cache<D>, serves: Service<D>, calls: seq<Call<D>>,
                                    next: Call<D>)
    requires NamesAgree(tools, start, serves) && Served(serves, calls) && serves(next.kind, next.reply)
    ensures Answer(tools, CacheAfter(tools, start, calls), next) == Wanted(tools, next.reply, next.mode)
    ensures forall k | k in CacheAfter(tools, start, calls) :: k in start || IsWellKnown(k)
  {
    CacheComesFrom(tools, start, serves, calls);
    var cache := CacheAfter(tools, start, calls);
    if next.kind in cache { assert ComesFrom(tools, start, serves, next.kind, cache[next.kind]); }
    forall k | k in cache ensures k in start || IsWellKnown(k) {
      assert ComesFrom(tools, start, serves, k, cache[k]);
    }
  }

  lemma SameInEveryMode<D>(v: Versions<D>, w: Versions<D>)
    requires forall mode :: Pick(v, mode) == Pick(w, mode)
    ensures v == w
  {
    assert Pick(v, Original) == Pick(w, Original) && Pick(v, Optimised) == Pick(w, Optimised);
    assert Pick(v, ExtraForbid) == Pick(w, ExtraForbid);
    assert Pick(v, ExtraForbidOptimised) == Pick(w, ExtraForbidOptimised);
  }

  lemma AfterOne<D>(tools: Tools<D>, start: Cache<D>, call: Call<D>)
    ensures CacheAfter(tools, start, [call]) == After(tools, start, call)
  {
    assert [call][..0] == [];
  }

  /** One request is enough to show a preloaded schema that differs. */
  lemma PreloadedAgree<D(!new)>(tools: Tools<D>, start: Cache<D>, serves: Service<D>, k: string, d: D)
    requires Transparent(tools, start, serves) && k in start && serves(k, d)
    ensures start[k] == Build(tools, d)
  {
    forall mode ensures Pick(start[k], mode) == Pick(Build(tools, d), mode) {
      var none: seq<Call<D>> := [];
      assert Served(serves, none) && CacheAfter(tools, start, none) == start;
      assert Answer(tools, CacheAfter(tools, start, none), Call(k, mode, d)) == Wanted(tools, d, mode);
    }
    SameInEveryMode(start[k], Build(tools, d));
  }

  /** Two requests are enough to show a schema served for a kind whose own schema differs. */
  lemma NamedAgree<D(!new)>(tools: Tools<D>, start: Cache<D>, serves: Service<D>, k: string, d: D, e: D)
    requires Transparent(tools, start, serves)
    requires k !in start && serves(k, d) && IsWellKnown(OwnKind(tools, d)) && serves(OwnKind(tools, d), e)
    ensures Build(tools, d) == Build(tools, e)
  {
    var first := Call(k, Original, d);
    forall mode ensures Pick(Build(tools, d), mode) == Pick(Build(tools, e), mode) {
      var next := Call(OwnKind(tools, d), mode, e);
      AfterOne(tools, start, first);
      assert Served(serves, [first]);
      assert Answer(tools, CacheAfter(tools, start, [first]), next) == Wanted(tools, e, mode);
    }
    SameInEveryMode(Build(tools, d), Build(tools, e));
  }

  /** The exact condition: the cache is transparent if and only if the names agree. */
  lemma TransparentIffNamesAgree<D(!new)>(tools: Tools<D>, start: Cache<D>, serves: Service<D>)
    ensures Transparent(tools, start, serves) <==> NamesAgree(tools, start, serves)
  {
    if Transparent(tools, start, serves) {
      forall k, d | k in start && serves(k, d) ensures start[k] == Build(tools, d) {
        PreloadedAgree(tools, start, serves, k, d);
      }
      forall k, d, e | k !in start && serves(k, d) && IsWellKnown(OwnKind(tools, d)) && serves(OwnKind(tools, d), e)
        ensures Build(tools, d) == Build(tools, e)
      {
        NamedAgree(tools, start, serves, k, d, e);
      }
    }
    if NamesAgree(tools, start, serves) {
      forall calls: seq<Call<D>>, next: Call<D> | Served(serves, calls) && serves(next.kind, next.reply)
        ensures Answer(tools, CacheAfter(tools, start, calls), next) == Wanted(tools, next.reply, next.mode)
      {
        CacheIsTransparent(tools, start, serves, calls, next);
      }
    }
  }

  /**
   A service whose well-known schemas never change, and that answers a request with a well-known schema only if
   this is the schema of the kind it names: its own kind, or an alias or other spelling of it.
   */
  ghost predicate Faithful<D(!new)>(tools: Tools<D>, serves: Service<D>, truth: string -> D) {
    && (forall k, d | serves(k, d) && IsWellKnown(OwnKind(tools, d)) :: d == truth(OwnKind(tools, d)))
    && (forall k, d | serves(k, d) && IsWellKnown(k) :: d == truth(k))
  }

  /** With such a service and preloaded schemas that are its own, the cache is transparent. */
  lemma FaithfulIsTransparent<D(!new)>(tools: Tools<D>, schemas: seq<D>, serves: Service<D>, truth: string -> D)
    requires Faithful(tools, serves, truth)
    requires forall i | 0 <= i < |schemas| ::
               schemas[i] == truth(OwnKind(tools, schemas[i])) && IsWellKnown(OwnKind(tools, schemas[i]))
    ensures Transparent(tools, Loaded(tools, map[], schemas), serves)
  {
    var start := Loaded(tools, map[], schemas);
    forall k, d | k in start && serves(k, d) ensures start[k] == Build(tools, d) {
      PreloadedIsTruthful(tools, schemas, truth, k);
    }
    TransparentIffNamesAgree(tools, start, serves);
  }

  /** A schema obtained under another kind but naming a well-known one is served for it from then on. */
  lemma ForeignSchemaIsServed<D>(tools: Tools<D>, asked: string, foreign: D, right: D)
    requires IsWellKnown(OwnKind(tools, foreign)) && asked != OwnKind(tools, foreign)
    ensures var kind := OwnKind(tools, foreign);
      Answer(tools, CacheAfter(tools, map[], [Call(asked, Original, foreign)]), Call(kind, Original, right))
      == tools.clean(foreign)
  {
    AfterOne(tools, map[], Call(asked, Original, foreign));
  }
}
