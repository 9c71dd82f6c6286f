/**
 * `Casts`: the configuration object that assigns a caster to every discovered
 * model, runs it over the model's columns, publishes the result as a
 * six-key manifest, and answers `for`/`forColumn` from a published manifest.
 */
module Casts {
  import opened Wrappers
  import opened Str
  import opened PhpArray
  import opened Schema
  import TM = TypeMapper
  import opened Runtime
  import BC = BaseCaster
  import DC = DefaultCaster

  /** The JSON-shaped values a manifest holds. */
  datatype Json = JNull | JString(s: string) | JObject(entries: Arr<Json>)

  /** A configured instance. */
  datatype Casts = Casts(
    discoverModelsUsing: DiscoveryParams,
    defaultTypesMap: TM.TypesMap,
    typeMapper: string,
    defaultCaster: string,
    customCasters: Arr<string>)

  /** `$a ?: []` for a nullable array. */
  function OrEmpty<V>(a: Option<Arr<V>>): (r: Arr<V>)
    ensures a.Some? ==> r == a.value
    ensures a.None? ==> r == []
  {
    if a.Some? then a.value else []
  }

  /** `$s ?: $default` for a nullable string: `null`, `""` and `"0"` take the default. */
  function OrDefault(s: Option<string>, default: string): (r: string)
    ensures TruthyOpt(s) ==> r == s.value
    ensures !TruthyOpt(s) ==> r == default
  {
    if TruthyOpt(s) then s.value else default
  }

  /** `Casts::new(...)`: every null or falsy argument is replaced by its default. */
  function New(discoverModelsUsing: Option<DiscoveryParams>, defaultTypesMap: Option<TM.TypesMap>,
               typeMapper: Option<string>, defaultCaster: Option<string>, customCasters: Option<Arr<string>>)
    : (c: Casts)
    ensures Truthy(c.typeMapper) && Truthy(c.defaultCaster)
    ensures c.discoverModelsUsing == if discoverModelsUsing.Some? then discoverModelsUsing.value else []
    ensures c.defaultTypesMap == if defaultTypesMap.Some? then defaultTypesMap.value else []
    ensures c.customCasters == if customCasters.Some? then customCasters.value else []
    ensures TruthyOpt(typeMapper) ==> c.typeMapper == typeMapper.value
    ensures !TruthyOpt(typeMapper) ==> c.typeMapper == TypeMapperClass
    ensures TruthyOpt(defaultCaster) ==> c.defaultCaster == defaultCaster.value
    ensures !TruthyOpt(defaultCaster) ==> c.defaultCaster == DefaultCasterClass
  {
    Casts(OrEmpty(discoverModelsUsing), OrEmpty(defaultTypesMap),
          OrDefault(typeMapper, TypeMapperClass), OrDefault(defaultCaster, DefaultCasterClass),
          OrEmpty(customCasters))
  }

  /** `Casts::new()` with no arguments. */
  lemma NewDefaults()
    ensures New(None, None, None, None, None) == Casts([], [], TypeMapperClass, DefaultCasterClass, [])
  {
  }

  /** Normalisation is idempotent: rebuilding an instance from its own fields changes nothing. */
  lemma NewIdempotent(a: Option<DiscoveryParams>, b: Option<TM.TypesMap>, m: Option<string>,
                      d: Option<string>, e: Option<Arr<string>>)
    ensures var c := New(a, b, m, d, e);
      New(Some(c.discoverModelsUsing), Some(c.defaultTypesMap), Some(c.typeMapper),
          Some(c.defaultCaster), Some(c.customCasters)) == c
  {
  }

  // ---------------------------------------------------------------------
  // Fluent setters
  // ---------------------------------------------------------------------

  /** `discoverModelsUsing(directory, basePath, baseNamespace)`. */
  function DiscoverModelsUsing(c: Casts, directory: Option<string>, basePath: Option<string>,
                               baseNamespace: Option<string>): (r: Casts)
    ensures Keys(r.discoverModelsUsing) == ["directory", "basePath", "baseNamespace"]
    ensures Get(r.discoverModelsUsing, "directory") == Some(directory)
    ensures Get(r.discoverModelsUsing, "basePath") == Some(basePath)
    ensures Get(r.discoverModelsUsing, "baseNamespace") == Some(baseNamespace)
    ensures r.defaultTypesMap == c.defaultTypesMap && r.typeMapper == c.typeMapper
    ensures r.defaultCaster == c.defaultCaster && r.customCasters == c.customCasters
  {
    c.(discoverModelsUsing := [("directory", directory), ("basePath", basePath), ("baseNamespace", baseNamespace)])
  }

  /** `useTypeMapper($value)`. */
  function UseTypeMapper(c: Casts, value: string): (r: Casts)
    ensures r.typeMapper == value
    ensures r.discoverModelsUsing == c.discoverModelsUsing && r.defaultTypesMap == c.defaultTypesMap
    ensures r.defaultCaster == c.defaultCaster && r.customCasters == c.customCasters
  {
    c.(typeMapper := value)
  }

  /** `useDefaultCaster($value)`. */
  function UseDefaultCaster(c: Casts, value: string): (r: Casts)
    ensures r.defaultCaster == value
    ensures r.discoverModelsUsing == c.discoverModelsUsing && r.defaultTypesMap == c.defaultTypesMap
    ensures r.typeMapper == c.typeMapper && r.customCasters == c.customCasters
  {
    c.(defaultCaster := value)
  }

  /** `withDefaultTypesMap($values)`. */
  function WithDefaultTypesMap(c: Casts, values: TM.TypesMap): (r: Casts)
    ensures r.defaultTypesMap == values
    ensures r.discoverModelsUsing == c.discoverModelsUsing && r.typeMapper == c.typeMapper
    ensures r.defaultCaster == c.defaultCaster && r.customCasters == c.customCasters
  {
    c.(defaultTypesMap := values)
  }

  /** `withCustomCasters($values)`. */
  function WithCustomCasters(c: Casts, values: Arr<string>): (r: Casts)
    ensures r.customCasters == values
    ensures r.discoverModelsUsing == c.discoverModelsUsing && r.defaultTypesMap == c.defaultTypesMap
    ensures r.typeMapper == c.typeMapper && r.defaultCaster == c.defaultCaster
  {
    c.(customCasters := values)
  }

  /** One fluent setter call with its arguments. */
  datatype Setter =
    | SetDiscovery(directory: Option<string>, basePath: Option<string>, baseNamespace: Option<string>)
    | SetTypeMapper(mapper: string)
    | SetDefaultCaster(caster: string)
    | SetDefaultTypesMap(typesMap: TM.TypesMap)
    | SetCustomCasters(casters: Arr<string>)

  /** Applies one setter call. */
  function Apply(c: Casts, s: Setter): Casts {
    match s
    case SetDiscovery(d, b, n) => DiscoverModelsUsing(c, d, b, n)
    case SetTypeMapper(v) => UseTypeMapper(c, v)
    case SetDefaultCaster(v) => UseDefaultCaster(c, v)
    case SetDefaultTypesMap(v) => WithDefaultTypesMap(c, v)
    case SetCustomCasters(v) => WithCustomCasters(c, v)
  }

  /**
   * Any two setter calls on different fields commute, and of two calls of the
   * same setter the second wins.
   */
  lemma SettersCommute(c: Casts, s1: Setter, s2: Setter)
    ensures !SameSetter(s1, s2) ==> Apply(Apply(c, s1), s2) == Apply(Apply(c, s2), s1)
    ensures SameSetter(s1, s2) ==> Apply(Apply(c, s1), s2) == Apply(c, s2)
  {
  }

  /** Both calls are of the same setter. */
  predicate SameSetter(s1: Setter, s2: Setter) {
    (s1.SetDiscovery? && s2.SetDiscovery?) || (s1.SetTypeMapper? && s2.SetTypeMapper?)
    || (s1.SetDefaultCaster? && s2.SetDefaultCaster?) || (s1.SetDefaultTypesMap? && s2.SetDefaultTypesMap?)
    || (s1.SetCustomCasters? && s2.SetCustomCasters?)
  }

  // ---------------------------------------------------------------------
  // Caster assignment
  // ---------------------------------------------------------------------

  /** `is_subclass_of($caster, BaseCaster::class)`: strict, and DefaultCaster qualifies. */
  predicate ExtendsBaseCaster(cls: Classes, name: string) {
    name != BaseCasterClass && (name == DefaultCasterClass || cls.extendsBaseCaster(name))
  }

  /** `$this->customCasters[$model] ?? $this->defaultCaster`. */
  function CasterFor(c: Casts, model: string): (r: string)
    ensures HasKey(c.customCasters, model) ==> Get(c.customCasters, model) == Some(r)
    ensures !HasKey(c.customCasters, model) ==> r == c.defaultCaster
  {
    match Get(c.customCasters, model)
    case Some(caster) => caster
    case None => c.defaultCaster
  }

  /** The reduce of `casters`, from accumulator `acc`. */
  function CastersFrom(c: Casts, cls: Classes, models: seq<string>, acc: Arr<string>): Result<Arr<string>, Error>
    decreases |models|
  {
    if models == [] then Success(acc)
    else
      var caster := CasterFor(c, models[0]);
      if !ExtendsBaseCaster(cls, caster) then Failure(InvalidCaster(caster))
      else CastersFrom(c, cls, models[1..], Put(acc, models[0], caster))
  }

  /** `casters($models)`. */
  function Casters(c: Casts, cls: Classes, models: seq<string>): Result<Arr<string>, Error> {
    CastersFrom(c, cls, models, [])
  }

  /** Every discovered model is assigned a caster that extends BaseCaster. */
  predicate AllAssignable(c: Casts, cls: Classes, models: seq<string>) {
    forall i :: 0 <= i < |models| ==> ExtendsBaseCaster(cls, CasterFor(c, models[i]))
  }

  /** The position of the first model `ok` rejects. */
  function FirstRejected(models: seq<string>, ok: string -> bool): (i: nat)
    requires exists k :: 0 <= k < |models| && !ok(models[k])
    ensures i < |models| && !ok(models[i])
    ensures forall j :: 0 <= j < i ==> ok(models[j])
  {
    if !ok(models[0]) then 0
    else
      assert exists k :: 0 <= k < |models[1..]| && !ok(models[1..][k]) by {
        var k :| 0 <= k < |models| && !ok(models[k]);
        assert models[1..][k - 1] == models[k];
      }
      var j := FirstRejected(models[1..], ok);
      assert models[1..][j] == models[j + 1];
      assert forall m :: 1 <= m < j + 1 ==> models[m] == models[1..][m - 1];
      j + 1
  }

  /** The first discovered model whose assigned caster does not extend BaseCaster. */
  function FirstUnassignable(c: Casts, cls: Classes, models: seq<string>): (i: nat)
    requires !AllAssignable(c, cls, models)
    ensures i < |models| && !ExtendsBaseCaster(cls, CasterFor(c, models[i]))
    ensures forall j :: 0 <= j < i ==> ExtendsBaseCaster(cls, CasterFor(c, models[j]))
  {
    FirstRejected(models, m => ExtendsBaseCaster(cls, CasterFor(c, m)))
  }

  lemma AllAssignableTail(c: Casts, cls: Classes, models: seq<string>)
    requires models != []
    ensures AllAssignable(c, cls, models) <==>
      ExtendsBaseCaster(cls, CasterFor(c, models[0])) && AllAssignable(c, cls, models[1..])
  {
    if ExtendsBaseCaster(cls, CasterFor(c, models[0])) && AllAssignable(c, cls, models[1..]) {
      forall i | 0 <= i < |models|
        ensures ExtendsBaseCaster(cls, CasterFor(c, models[i]))
      {
        if i > 0 {
          assert models[i] == models[1..][i - 1];
        }
      }
    }
  }

  /** The assignment succeeds exactly when every model's caster extends BaseCaster. */
  lemma {:induction false} CastersFromSucceeds(c: Casts, cls: Classes, models: seq<string>, acc: Arr<string>)
    ensures CastersFrom(c, cls, models, acc).Success? <==> AllAssignable(c, cls, models)
    decreases |models|
  {
    if models != [] {
      AllAssignableTail(c, cls, models);
      CastersFromSucceeds(c, cls, models[1..], Put(acc, models[0], CasterFor(c, models[0])));
    }
  }

  /** A successful assignment maps each model to its caster and leaves every other key as it was. */
  lemma {:induction false} CastersFromGet(c: Casts, cls: Classes, models: seq<string>, acc: Arr<string>, m: string)
    requires CastersFrom(c, cls, models, acc).Success?
    ensures Get(CastersFrom(c, cls, models, acc).value, m)
      == if m in models then Some(CasterFor(c, m)) else Get(acc, m)
    decreases |models|
  {
    if models != [] {
      var caster := CasterFor(c, models[0]);
      var acc' := Put(acc, models[0], caster);
      assert CastersFrom(c, cls, models, acc) == CastersFrom(c, cls, models[1..], acc');
      CastersFromGet(c, cls, models[1..], acc', m);
      PutGet(acc, models[0], caster, m);
      InCons(models, m);
    }
  }

  lemma InCons(s: seq<string>, x: string)
    requires s != []
    ensures x in s <==> x == s[0] || x in s[1..]
  {
    assert s == [s[0]] + s[1..];
  }

  /** The assignment never repeats a model. */
  lemma {:induction false} CastersFromUnique(c: Casts, cls: Classes, models: seq<string>, acc: Arr<string>)
    requires UniqueKeys(acc)
    requires CastersFrom(c, cls, models, acc).Success?
    ensures UniqueKeys(CastersFrom(c, cls, models, acc).value)
    decreases |models|
  {
    if models != [] {
      var caster := CasterFor(c, models[0]);
      PutUnique(acc, models[0], caster);
      CastersFromUnique(c, cls, models[1..], Put(acc, models[0], caster));
    }
  }

  /**
   * `casters` succeeds exactly when every model's caster extends BaseCaster;
   * then it holds each discovered model once, mapped to its caster.
   */
  lemma CastersAssigns(c: Casts, cls: Classes, models: seq<string>)
    ensures Casters(c, cls, models).Success? <==> AllAssignable(c, cls, models)
    ensures Casters(c, cls, models).Success? ==>
      var r := Casters(c, cls, models).value;
      UniqueKeys(r)
      && (forall m :: HasKey(r, m) <==> m in models)
      && (forall m :: m in models ==> Get(r, m) == Some(CasterFor(c, m)))
  {
    var empty: Arr<string> := [];
    CastersFromSucceeds(c, cls, models, empty);
    if Casters(c, cls, models).Success? {
      CastersFromUnique(c, cls, models, empty);
      forall m
        ensures Get(Casters(c, cls, models).value, m) == if m in models then Some(CasterFor(c, m)) else None
      {
        CastersFromGet(c, cls, models, empty, m);
      }
    }
  }

  /** The first model, in discovery order, with an unusable caster aborts the assignment with that caster. */
  lemma {:induction false} CastersFromFailsAt(c: Casts, cls: Classes, models: seq<string>, acc: Arr<string>, i: nat)
    requires i < |models| && !ExtendsBaseCaster(cls, CasterFor(c, models[i]))
    requires forall j :: 0 <= j < i ==> ExtendsBaseCaster(cls, CasterFor(c, models[j]))
    ensures CastersFrom(c, cls, models, acc) == Failure(InvalidCaster(CasterFor(c, models[i])))
    decreases i
  {
    if i > 0 {
      var rest := models[1..];
      assert ExtendsBaseCaster(cls, CasterFor(c, models[0]));
      assert rest[i - 1] == models[i];
      forall j | 0 <= j < i - 1
        ensures ExtendsBaseCaster(cls, CasterFor(c, rest[j]))
      {
        assert rest[j] == models[j + 1];
      }
      CastersFromFailsAt(c, cls, rest, Put(acc, models[0], CasterFor(c, models[0])), i - 1);
    }
  }

  /** `casters` fails with `invalidCaster` of the first model's unusable caster, in discovery order. */
  lemma CastersFirstFailure(c: Casts, cls: Classes, models: seq<string>)
    requires !AllAssignable(c, cls, models)
    ensures Casters(c, cls, models)
      == Failure(InvalidCaster(CasterFor(c, models[FirstUnassignable(c, cls, models)])))
  {
    CastersFromFailsAt(c, cls, models, [], FirstUnassignable(c, cls, models));
  }

  /** BaseCaster itself is never an acceptable caster: the subclass check is strict. */
  lemma BaseCasterRejected(c: Casts, cls: Classes, model: string)
    requires CasterFor(c, model) == BaseCasterClass
    ensures Casters(c, cls, [model]) == Failure(InvalidCaster(BaseCasterClass))
  {
  }

  /** Models distinct from each other and from the accumulated keys. */
  predicate FreshModels(models: seq<string>, acc: Arr<string>) {
    (forall i, j :: 0 <= i < j < |models| ==> models[i] != models[j])
    && forall i :: 0 <= i < |models| ==> !HasKey(acc, models[i])
  }

  /** Appending the first fresh model keeps the rest fresh. */
  lemma FreshModelsStep(models: seq<string>, acc: Arr<string>, caster: string)
    requires models != [] && FreshModels(models, acc)
    ensures Keys(Put(acc, models[0], caster)) == Keys(acc) + [models[0]]
    ensures FreshModels(models[1..], Put(acc, models[0], caster))
  {
    var acc' := Put(acc, models[0], caster);
    var rest := models[1..];
    forall i | 0 <= i < |rest|
      ensures !HasKey(acc', rest[i])
    {
      assert rest[i] == models[i + 1];
    }
    forall i, j | 0 <= i < j < |rest|
      ensures rest[i] != rest[j]
    {
      assert rest[i] == models[i + 1] && rest[j] == models[j + 1];
    }
  }

  lemma AppendCons(ks: seq<string>, models: seq<string>)
    requires models != []
    ensures (ks + [models[0]]) + models[1..] == ks + models
  {
    assert models == [models[0]] + models[1..];
  }

  /** With distinct models, the assignment lists them in discovery order. */
  lemma {:induction false} CastersOrder(c: Casts, cls: Classes, models: seq<string>, acc: Arr<string>)
    requires FreshModels(models, acc)
    requires CastersFrom(c, cls, models, acc).Success?
    ensures Keys(CastersFrom(c, cls, models, acc).value) == Keys(acc) + models
    decreases |models|
  {
    if models == [] {
      assert Keys(acc) + [] == Keys(acc);
    } else {
      var caster := CasterFor(c, models[0]);
      var acc' := Put(acc, models[0], caster);
      var rest := models[1..];
      assert CastersFrom(c, cls, models, acc) == CastersFrom(c, cls, rest, acc');
      FreshModelsStep(models, acc, caster);
      CastersOrder(c, cls, rest, acc');
      AppendCons(Keys(acc), models);
    }
  }

  // ---------------------------------------------------------------------
  // Casting every model
  // ---------------------------------------------------------------------

  /** What a caster class does: DefaultCaster's own rule, or whatever reflection reports. */
  function StrategyOf(cls: Classes, name: string): (s: Strategy)
    ensures name == DefaultCasterClass ==> s == DC.Strategy()
  {
    if name == DefaultCasterClass then DC.Strategy() else cls.casterStrategy(name)
  }

  /** `new $casterFQCN($this->typeMapper, $this->defaultTypesMap)`. */
  function CasterInstance(c: Casts, cls: Classes, casterName: string): (k: BC.Caster)
    ensures k.typeMapper == Some(c.typeMapper) && k.typesMap == Some(c.defaultTypesMap)
    ensures k.strategy == StrategyOf(cls, casterName)
  {
    BC.Caster(Some(c.typeMapper), Some(c.defaultTypesMap), StrategyOf(cls, casterName))
  }

  /** One model's casts: instantiate it, introspect its table, run its caster. */
  function ModelCasts(c: Casts, cls: Classes, env: Env, model: string, casterName: string): Result<Arr<string>, Error> {
    var facts := env.model(model);
    BC.HandleColumns(CasterInstance(c, cls, casterName), cls, env.columns(facts.table, facts.connection), facts)
  }

  /** The reduce of `performCasting`, from accumulator `acc`. */
  function PerformCastingFrom(c: Casts, cls: Classes, env: Env, casters: Arr<string>, acc: Arr<Arr<string>>)
    : Result<Arr<Arr<string>>, Error>
    decreases |casters|
  {
    if casters == [] then Success(acc)
    else
      var handled :- ModelCasts(c, cls, env, casters[0].0, casters[0].1);
      PerformCastingFrom(c, cls, env, casters[1..], Put(acc, casters[0].0, handled))
  }

  /** `performCasting($casters)`. */
  function PerformCasting(c: Casts, cls: Classes, env: Env, casters: Arr<string>): Result<Arr<Arr<string>>, Error> {
    PerformCastingFrom(c, cls, env, casters, [])
  }

  /** `all()`: discover, assign casters, cast. */
  function All(c: Casts, cls: Classes, env: Env): Result<Arr<Arr<string>>, Error> {
    var casters :- Casters(c, cls, env.discover(c.discoverModelsUsing));
    PerformCasting(c, cls, env, casters)
  }

  /**
   * Each model of the assignment maps to its caster's output over its
   * columns; every other key keeps its accumulated value.
   */
  lemma {:induction false} PerformCastingFromGet(c: Casts, cls: Classes, env: Env, casters: Arr<string>,
                                                acc: Arr<Arr<string>>, k: string)
    requires UniqueKeys(casters)
    requires PerformCastingFrom(c, cls, env, casters, acc).Success?
    ensures HasKey(casters, k) ==> ModelCasts(c, cls, env, k, Get(casters, k).value).Success?
    ensures Get(PerformCastingFrom(c, cls, env, casters, acc).value, k)
      == if HasKey(casters, k) then Some(ModelCasts(c, cls, env, k, Get(casters, k).value).value) else Get(acc, k)
    decreases |casters|
  {
    if casters != [] {
      var k0 := casters[0].0;
      var handled := ModelCasts(c, cls, env, k0, casters[0].1);
      var acc' := Put(acc, k0, handled.value);
      var rest := casters[1..];
      assert PerformCastingFrom(c, cls, env, casters, acc) == PerformCastingFrom(c, cls, env, rest, acc');
      UniqueKeysTail(casters);
      PerformCastingFromGet(c, cls, env, rest, acc', k);
      PutGet(acc, k0, handled.value, k);
    }
  }

  /** The assignment's models are distinct and none is already in the accumulator. */
  predicate FreshAssignment(casters: Arr<string>, acc: Arr<Arr<string>>) {
    UniqueKeys(casters) && forall i :: 0 <= i < |casters| ==> !HasKey(acc, casters[i].0)
  }

  /** Casting the first model of a fresh assignment appends it and keeps the rest fresh. */
  lemma FreshAssignmentStep(casters: Arr<string>, acc: Arr<Arr<string>>, handled: Arr<string>)
    requires casters != [] && FreshAssignment(casters, acc)
    ensures Keys(Put(acc, casters[0].0, handled)) == Keys(acc) + [casters[0].0]
    ensures FreshAssignment(casters[1..], Put(acc, casters[0].0, handled))
    ensures Keys(casters) == [casters[0].0] + Keys(casters[1..])
  {
    var k0 := casters[0].0;
    var acc' := Put(acc, k0, handled);
    PutFresh(acc, k0, handled);
    assert Keys(acc') == Keys(acc) + [k0];
    UniqueKeysTail(casters);
    var rest := casters[1..];
    forall i | 0 <= i < |rest|
      ensures !HasKey(acc', rest[i].0)
    {
      assert rest[i] == casters[i + 1];
      assert rest[i].0 != k0;
    }
  }

  /** With a fresh assignment, `performCasting` appends the models in the assignment's order. */
  lemma {:induction false} PerformCastingOrder(c: Casts, cls: Classes, env: Env, casters: Arr<string>,
                                              acc: Arr<Arr<string>>)
    requires FreshAssignment(casters, acc)
    requires PerformCastingFrom(c, cls, env, casters, acc).Success?
    ensures Keys(PerformCastingFrom(c, cls, env, casters, acc).value) == Keys(acc) + Keys(casters)
    decreases |casters|
  {
    if casters == [] {
      assert Keys(acc) + Keys(casters) == Keys(acc);
    } else {
      var k0 := casters[0].0;
      var handled := ModelCasts(c, cls, env, k0, casters[0].1);
      var acc' := Put(acc, k0, handled.value);
      var rest := casters[1..];
      assert PerformCastingFrom(c, cls, env, casters, acc) == PerformCastingFrom(c, cls, env, rest, acc');
      FreshAssignmentStep(casters, acc, handled.value);
      PerformCastingOrder(c, cls, env, rest, acc');
      AppendCons(Keys(acc), Keys(casters));
    }
  }

  /**
   * With distinct discovered models, `all()` and the published `casts` object
   * list the models in discovery order.
   */
  lemma AllOrder(c: Casts, cls: Classes, env: Env)
    requires All(c, cls, env).Success?
    requires var models := env.discover(c.discoverModelsUsing);
      forall i, j :: 0 <= i < j < |models| ==> models[i] != models[j]
    ensures Keys(All(c, cls, env).value) == env.discover(c.discoverModelsUsing)
    ensures var published := Get(ToArray(c, cls, env).value.entries, "casts");
      published.Some? && published.value.JObject?
      && Keys(published.value.entries) == env.discover(c.discoverModelsUsing)
  {
    var models := env.discover(c.discoverModelsUsing);
    var none: Arr<string> := [];
    var empty: Arr<Arr<string>> := [];
    assert FreshModels(models, none);
    CastersOrder(c, cls, models, none);
    CastersAssigns(c, cls, models);
    var casters := Casters(c, cls, models).value;
    assert Keys(casters) == models;
    assert FreshAssignment(casters, empty);
    assert All(c, cls, env) == PerformCastingFrom(c, cls, env, casters, empty);
    PerformCastingOrder(c, cls, env, casters, empty);
    assert Keys(empty) + Keys(casters) == models;
    ManifestEntries(c, All(c, cls, env).value);
  }

  /**
   * `all()` keys each discovered model to the output of its assigned caster,
   * built with the instance's type mapper and types map, over its columns.
   */
  lemma AllPerModel(c: Casts, cls: Classes, env: Env)
    requires All(c, cls, env).Success?
    ensures var models := env.discover(c.discoverModelsUsing);
      var r := All(c, cls, env).value;
      (forall m :: HasKey(r, m) <==> m in models)
      && forall m :: m in models ==>
           ModelCasts(c, cls, env, m, CasterFor(c, m)).Success?
           && Get(r, m) == Some(ModelCasts(c, cls, env, m, CasterFor(c, m)).value)
  {
    var models := env.discover(c.discoverModelsUsing);
    CastersAssigns(c, cls, models);
    var casters := Casters(c, cls, models).value;
    var empty: Arr<Arr<string>> := [];
    var r := All(c, cls, env).value;
    assert r == PerformCastingFrom(c, cls, env, casters, empty).value;
    forall m
      ensures HasKey(r, m) <==> m in models
      ensures m in models ==>
           ModelCasts(c, cls, env, m, CasterFor(c, m)).Success?
           && Get(r, m) == Some(ModelCasts(c, cls, env, m, CasterFor(c, m)).value)
    {
      PerformCastingFromGet(c, cls, env, casters, empty, m);
    }
  }

  /**
   * Custom-caster entries for models that were not discovered play no part:
   * two instances that agree on the discovered models assign the same casters.
   */
  lemma {:induction false} UndiscoveredCustomCastersIgnoredFrom(c: Casts, c': Casts, cls: Classes,
                                                               models: seq<string>, acc: Arr<string>)
    requires c'.defaultCaster == c.defaultCaster
    requires forall m :: m in models ==> Get(c'.customCasters, m) == Get(c.customCasters, m)
    ensures CastersFrom(c', cls, models, acc) == CastersFrom(c, cls, models, acc)
    decreases |models|
  {
    if models != [] {
      assert models[0] in models;
      var caster := CasterFor(c, models[0]);
      assert CasterFor(c', models[0]) == caster;
      forall m | m in models[1..]
        ensures Get(c'.customCasters, m) == Get(c.customCasters, m)
      {
        assert m in models;
      }
      UndiscoveredCustomCastersIgnoredFrom(c, c', cls, models[1..], Put(acc, models[0], caster));
    }
  }

  /** Casting depends on the instance only through its type mapper and its default types map. */
  lemma {:induction false} PerformCastingSameMapper(c: Casts, c': Casts, cls: Classes, env: Env,
                                                   casters: Arr<string>, acc: Arr<Arr<string>>)
    requires c'.typeMapper == c.typeMapper && c'.defaultTypesMap == c.defaultTypesMap
    ensures PerformCastingFrom(c', cls, env, casters, acc) == PerformCastingFrom(c, cls, env, casters, acc)
    decreases |casters|
  {
    if casters != [] {
      var handled := ModelCasts(c, cls, env, casters[0].0, casters[0].1);
      assert ModelCasts(c', cls, env, casters[0].0, casters[0].1) == handled;
      if handled.Success? {
        PerformCastingSameMapper(c, c', cls, env, casters[1..], Put(acc, casters[0].0, handled.value));
      }
    }
  }

  lemma UndiscoveredCustomCastersIgnored(c: Casts, custom: Arr<string>, cls: Classes, env: Env)
    requires forall m :: m in env.discover(c.discoverModelsUsing) ==> Get(custom, m) == Get(c.customCasters, m)
    ensures All(WithCustomCasters(c, custom), cls, env) == All(c, cls, env)
  {
    var c' := WithCustomCasters(c, custom);
    var models := env.discover(c.discoverModelsUsing);
    var empty: Arr<string> := [];
    UndiscoveredCustomCastersIgnoredFrom(c, c', cls, models, empty);
    var casters := Casters(c, cls, models);
    if casters.Success? {
      PerformCastingSameMapper(c, c', cls, env, casters.value, []);
    }
  }

  /** An empty default types map leaves the TypeMapper on its `defaults()`. */
  lemma EmptyTypesMapMeansDefaults(c: Casts, cls: Classes, casterName: string, column: Column)
    requires c.defaultTypesMap == [] && c.typeMapper == TypeMapperClass
    ensures var k := CasterInstance(c, cls, casterName);
      BC.DetermineCastType(k, cls, column) == Success(TM.Handle(TM.New(Some(TM.Defaults())), column, column.tag))
  {
    TM.FalsyMapMeansDefaults(Some([]), column, column.tag);
  }

  /**
   * The caster `performCasting` builds always receives a type mapper class
   * name: it resolves a column through the configured types map when that
   * class is TypeMapper, and fails with `invalidTypeMapper` exactly when the
   * class is neither TypeMapper nor a subclass of it.
   */
  lemma CasterInstanceResolves(c: Casts, cls: Classes, casterName: string, column: Column)
    ensures var k := CasterInstance(c, cls, casterName);
      BC.DetermineCastType(k, cls, column).Failure?
      <==> c.typeMapper != TypeMapperClass && !cls.extendsTypeMapper(c.typeMapper)
    ensures var k := CasterInstance(c, cls, casterName);
      c.typeMapper == TypeMapperClass ==>
        BC.DetermineCastType(k, cls, column) == Success(TM.Handle(TM.New(Some(c.defaultTypesMap)), column, column.tag))
    ensures var k := CasterInstance(c, cls, casterName);
      casterName == DefaultCasterClass ==> forall m :: BC.Handle(k, cls, column, m) == BC.HandleColumn(k, cls, column)
  {
  }

  // ---------------------------------------------------------------------
  // The manifest
  // ---------------------------------------------------------------------

  function StringsJson(a: Arr<string>): (r: Arr<Json>)
    ensures Keys(r) == Keys(a)
  {
    MapValues(a, (s: string) => JString(s))
  }

  function NullableJson(o: Option<string>): Json {
    match o
    case Some(s) => JString(s)
    case None => JNull
  }

  /** The `casts` part of the manifest: model => column => cast type. */
  function CastsJson(casts: Arr<Arr<string>>): (j: Json)
    ensures j.JObject? && Keys(j.entries) == Keys(casts)
  {
    JObject(MapValues(casts, (a: Arr<string>) => JObject(StringsJson(a))))
  }

  /** `toArray()` once `all()` has produced `casts`. */
  function Manifest(c: Casts, casts: Arr<Arr<string>>): Json {
    JObject([
      ("discover_models_using", JObject(MapValues(c.discoverModelsUsing, NullableJson))),
      ("default_types_map", JObject(MapValues(c.defaultTypesMap, NullableJson))),
      ("type_mapper", JString(c.typeMapper)),
      ("default_caster", JString(c.defaultCaster)),
      ("custom_casters", JObject(StringsJson(c.customCasters))),
      ("casts", CastsJson(casts))
    ])
  }

  /** `toArray()`; `jsonSerialize()` returns the same value. */
  function ToArray(c: Casts, cls: Classes, env: Env): (r: Result<Json, Error>)
    ensures r.Success? <==> All(c, cls, env).Success?
    ensures r.Success? ==> (r.value.JObject?
      && Keys(r.value.entries)
         == ["discover_models_using", "default_types_map", "type_mapper", "default_caster", "custom_casters", "casts"])
  {
    var casts :- All(c, cls, env);
    Success(Manifest(c, casts))
  }

  /**
   * `toJson()` over an encoder standing for `json_encode`: a failed or falsy
   * encoding raises `jsonUnencodable`. `__toString()` is the same call.
   */
  function ToJson(c: Casts, cls: Classes, env: Env, encode: Json -> Option<string>): (r: Result<string, Error>)
    ensures All(c, cls, env).Failure? ==> r == Failure(All(c, cls, env).error)
    ensures All(c, cls, env).Success? ==>
      var e := encode(Manifest(c, All(c, cls, env).value));
      if e.Some? && Truthy(e.value) then r == Success(e.value) else r == Failure(JsonUnencodable)
  {
    var json :- ToArray(c, cls, env);
    var e := encode(json);
    if e.None? || !Truthy(e.value) then Failure(JsonUnencodable) else Success(e.value)
  }

  /**
   * For any decoder that inverts the encoder, a successful `toJson()` decodes
   * back to `toArray()`; and it fails exactly when `all()` fails or the
   * encoding is missing or falsy.
   */
  lemma ToJsonRoundTrip(c: Casts, cls: Classes, env: Env, encode: Json -> Option<string>,
                        decode: string -> Option<Json>)
    requires forall j :: encode(j).Some? ==> decode(encode(j).value) == Some(j)
    ensures ToJson(c, cls, env, encode).Success? <==>
      ToArray(c, cls, env).Success?
      && encode(ToArray(c, cls, env).value).Some? && Truthy(encode(ToArray(c, cls, env).value).value)
    ensures ToJson(c, cls, env, encode).Success? ==>
      decode(ToJson(c, cls, env, encode).value) == Some(ToArray(c, cls, env).value)
  {
  }

  // ---------------------------------------------------------------------
  // Reading a published manifest
  // ---------------------------------------------------------------------

  /** Decodes the entries of an object of strings; any other value is not a column map. */
  function DecodeStrings(entries: Arr<Json>): Option<Arr<string>> {
    if entries == [] then Some([])
    else
      var rest := DecodeStrings(entries[1..]);
      if rest.Some? && entries[0].1.JString? then Some([(entries[0].0, entries[0].1.s)] + rest.value) else None
  }

  /** Decoding a published column map gives back the column map. */
  lemma {:induction false} DecodeStringsJson(a: Arr<string>)
    ensures DecodeStrings(StringsJson(a)) == Some(a)
  {
    if a != [] {
      assert StringsJson(a)[1..] == StringsJson(a[1..]);
      DecodeStringsJson(a[1..]);
      assert a == [(a[0].0, a[0].1)] + a[1..];
    }
  }

  /** How `for` and `forColumn` name a model: by class name or by instance (reduced to its class). */
  datatype ModelRef = ModelClass(fqcn: string) | ModelInstance(fqcn: string)

  /** How `forColumn` names a column: by name or by introspected column (reduced to its name). */
  datatype ColumnRef = ColumnName(name: string) | ColumnObject(column: Column)

  function ColumnKey(col: ColumnRef): string {
    match col
    case ColumnName(name) => name
    case ColumnObject(column) => column.name
  }

  /** `forModelFqcn($model)`: the manifest's `casts.<model>` entry, `[]` when absent. */
  function ForModelFqcn(config: Json, model: string): Arr<Json> {
    if !config.JObject? then []
    else
      var byModel: Option<Json> := Get(config.entries, "casts");
      if byModel.Some? && byModel.value.JObject? then
        var columns: Option<Json> := Get(byModel.value.entries, model);
        if columns.Some? && columns.value.JObject? then columns.value.entries else []
      else []
  }

  /** `for($model)`; `forModel($model)` is the instance case. */
  function For(config: Json, model: ModelRef): Arr<Json> {
    ForModelFqcn(config, model.fqcn)
  }

  /** `forColumn($model, $column)`: `null` for an unknown model or column. */
  function ForColumn(config: Json, model: ModelRef, col: ColumnRef): Option<string> {
    var v: Option<Json> := Get(For(config, model), ColumnKey(col));
    if v.Some? && v.value.JString? then Some(v.value.s) else None
  }

  /** The keys of `toArray()`, in order. */
  const ManifestKeys: seq<string> :=
    ["discover_models_using", "default_types_map", "type_mapper", "default_caster", "custom_casters", "casts"]

  lemma ManifestKeysDistinct()
    ensures forall i, j :: 0 <= i < j < |ManifestKeys| ==> ManifestKeys[i] != ManifestKeys[j]
  {
  }

  /**
   * The manifest echoes the configuration verbatim, custom casters for
   * undiscovered models included, next to the casts `all()` produced.
   */
  lemma ManifestEntries(c: Casts, casts: Arr<Arr<string>>)
    ensures Manifest(c, casts).JObject?
    ensures var es := Manifest(c, casts).entries;
      UniqueKeys(es)
      && Get(es, "discover_models_using") == Some(JObject(MapValues(c.discoverModelsUsing, NullableJson)))
      && Get(es, "default_types_map") == Some(JObject(MapValues(c.defaultTypesMap, NullableJson)))
      && Get(es, "type_mapper") == Some(JString(c.typeMapper))
      && Get(es, "default_caster") == Some(JString(c.defaultCaster))
      && Get(es, "custom_casters") == Some(JObject(StringsJson(c.customCasters)))
      && Get(es, "casts") == Some(CastsJson(casts))
  {
    var es := Manifest(c, casts).entries;
    assert Keys(es) == ManifestKeys;
    ManifestKeysDistinct();
    GetAt(es, 0);
    GetAt(es, 1);
    GetAt(es, 2);
    GetAt(es, 3);
    GetAt(es, 4);
    GetAt(es, 5);
  }

  /**
   * After publishing, `for` returns each model's computed casts, and `[]` for
   * a model that was not discovered.
   */
  lemma ForAfterPublish(c: Casts, cls: Classes, env: Env, model: ModelRef)
    requires All(c, cls, env).Success?
    ensures var casts := All(c, cls, env).value;
      var published := ToArray(c, cls, env).value;
      For(published, model) == match Get(casts, model.fqcn)
                               case Some(columns) => StringsJson(columns)
                               case None => []
  {
    var casts := All(c, cls, env).value;
    ManifestEntries(c, casts);
    MapValuesGet(casts, (a: Arr<string>) => JObject(StringsJson(a)), model.fqcn);
  }

  /**
   * After publishing, `forColumn` returns the computed cast of that column,
   * and `null` for an unknown model or column.
   */
  lemma ForColumnAfterPublish(c: Casts, cls: Classes, env: Env, model: ModelRef, col: ColumnRef)
    requires All(c, cls, env).Success?
    ensures var casts := All(c, cls, env).value;
      var published := ToArray(c, cls, env).value;
      ForColumn(published, model, col) == match Get(casts, model.fqcn)
                                          case Some(columns) => Get(columns, ColumnKey(col))
                                          case None => None
  {
    ForAfterPublish(c, cls, env, model);
    var casts := All(c, cls, env).value;
    match Get(casts, model.fqcn)
    case Some(columns) =>
      MapValuesGet(columns, (s: string) => JString(s), ColumnKey(col));
    case None =>
  }

  /** Without a manifest entry `for` gives `[]` and `forColumn` gives `null`. */
  lemma UnknownModel(config: Json, model: ModelRef, col: ColumnRef)
    requires config.JObject?
    requires forall byModel :: Get(config.entries, "casts") == Some(JObject(byModel)) ==> !HasKey(byModel, model.fqcn)
    ensures For(config, model) == []
    ensures ForColumn(config, model, col) == None
  {
  }
}
