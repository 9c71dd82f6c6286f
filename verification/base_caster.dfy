/**
 * `BaseCaster`: turns a table's columns into a column => cast type array,
 * resolving each eligible column through a type mapper and validating the
 * candidate it gets back.
 */
module BaseCaster {
  import opened Wrappers
  import opened Str
  import opened PhpArray
  import D = DoctrineType
  import C = CastType
  import opened Schema
  import TM = TypeMapper
  import opened Runtime

  /** An instance: the type mapper class and types map it was built with, and its class's behaviour. */
  datatype Caster = Caster(typeMapper: Option<string>, typesMap: Option<TM.TypesMap>, strategy: Strategy)

  /** A TypeMapper class name is usable when it is TypeMapper itself or a subclass. */
  predicate IsTypeMapper(cls: Classes, name: string) {
    name == TypeMapperClass || cls.extendsTypeMapper(name)
  }

  /** `new $mapper($typesMap)`: the base class overrides no handler. */
  function MapperFor(cls: Classes, name: string, typesMap: Option<TM.TypesMap>): (m: TM.Mapper)
    ensures m.typesMap == typesMap
    ensures name == TypeMapperClass ==> m == TM.New(typesMap)
  {
    TM.Mapper(typesMap, if name == TypeMapperClass then TM.NoHooks() else cls.mapperHooks(name))
  }

  /** `determineCastType`: check the mapper's identity, then let it handle the column. */
  function DetermineCastType(c: Caster, cls: Classes, column: Column): (r: Result<Option<string>, Error>)
    ensures r.Failure? <==> c.typeMapper.None? || !IsTypeMapper(cls, c.typeMapper.value)
    ensures r.Failure? ==> r.error == InvalidTypeMapper
    ensures r.Success? ==>
      r.value == TM.Handle(MapperFor(cls, c.typeMapper.value, c.typesMap), column, column.tag)
  {
    match c.typeMapper
    case None => Failure(InvalidTypeMapper)
    case Some(name) =>
      if !IsTypeMapper(cls, name) then Failure(InvalidTypeMapper)
      else Success(TM.Handle(MapperFor(cls, name, c.typesMap), column, column.tag))
  }

  /**
   * `isValidCastType`: only the part before the first `:` is examined; it
   * must be a castable class, a custom cast class, an inbound cast class, an
   * enum, or a built-in keyword.
   */
  predicate IsValidCastType(cls: Classes, castType: string) {
    var p := Before(castType, ':');
    cls.isCastable(p) || cls.isCastsAttributes(p) || cls.isCastsInbound(p) || cls.isEnum(p)
      || C.IsSupported(p)
  }

  /** `handleColumn`: a truthy candidate that fails validation aborts with the column, tag and candidate. */
  function HandleColumn(c: Caster, cls: Classes, column: Column): (r: Result<Option<string>, Error>)
    ensures r.Success? ==> r == DetermineCastType(c, cls, column)
    ensures r.Success? ==> TruthyOpt(r.value) ==> IsValidCastType(cls, r.value.value)
  {
    var castType :- DetermineCastType(c, cls, column);
    if TruthyOpt(castType) && !IsValidCastType(cls, castType.value) then
      Failure(InvalidCastType(column.name, column.tag, castType.value))
    else
      Success(castType)
  }

  /** `handle`, as the caster class defines it. */
  function Handle(c: Caster, cls: Classes, column: Column, model: ModelFacts): Result<Option<string>, Error> {
    match c.strategy.handler
    case ViaHandleColumn => HandleColumn(c, cls, column)
    case OwnHandle(run) => run(HandleColumn(c, cls, column), column, model)
  }

  /**
   * What one column contributes to `handleColumns`: nothing when it is not
   * eligible or its result is falsy, the result otherwise, or the error.
   */
  function Outcome(c: Caster, cls: Classes, column: Column, model: ModelFacts): (r: Result<Option<string>, Error>)
    ensures r.Success? && r.value.Some? ==> Truthy(r.value.value)
    ensures !c.strategy.shouldBeHandled(column, model) ==> r == Success(None)
  {
    if !c.strategy.shouldBeHandled(column, model) then Success(None)
    else
      var handled :- Handle(c, cls, column, model);
      if TruthyOpt(handled) then Success(handled) else Success(None)
  }

  /** The reduce of `handleColumns`, from accumulator `acc`. */
  function HandleColumnsFrom(c: Caster, cls: Classes, cols: seq<Column>, model: ModelFacts, acc: Arr<string>)
    : Result<Arr<string>, Error>
    decreases |cols|
  {
    if cols == [] then Success(acc)
    else
      var o :- Outcome(c, cls, cols[0], model);
      var acc' := if o.Some? then Put(acc, cols[0].name, o.value) else acc;
      HandleColumnsFrom(c, cls, cols[1..], model, acc')
  }

  /** `handleColumns($columns, $model)`. */
  function HandleColumns(c: Caster, cls: Classes, cols: seq<Column>, model: ModelFacts): Result<Arr<string>, Error> {
    HandleColumnsFrom(c, cls, cols, model, [])
  }

  // ---------------------------------------------------------------------
  // Reference definitions
  // ---------------------------------------------------------------------

  /** Every column's outcome succeeds. */
  predicate AllResolve(c: Caster, cls: Classes, cols: seq<Column>, model: ModelFacts) {
    forall i :: 0 <= i < |cols| ==> Outcome(c, cls, cols[i], model).Success?
  }

  /** The entries the columns contribute, in column order, when every outcome succeeds. */
  function Collected(c: Caster, cls: Classes, cols: seq<Column>, model: ModelFacts): Arr<string>
    requires AllResolve(c, cls, cols, model)
  {
    if cols == [] then []
    else
      var o := Outcome(c, cls, cols[0], model).value;
      (if o.Some? then [(cols[0].name, o.value)] else []) + Collected(c, cls, cols[1..], model)
  }

  /** The position of the first column whose outcome fails, when there is one. */
  function FirstFailure(c: Caster, cls: Classes, cols: seq<Column>, model: ModelFacts): (i: nat)
    requires !AllResolve(c, cls, cols, model)
    ensures i < |cols| && Outcome(c, cls, cols[i], model).Failure?
    ensures forall j :: 0 <= j < i ==> Outcome(c, cls, cols[j], model).Success?
  {
    if Outcome(c, cls, cols[0], model).Failure? then 0
    else
      assert !AllResolve(c, cls, cols[1..], model) by {
        var k :| 0 <= k < |cols| && Outcome(c, cls, cols[k], model).Failure?;
        assert cols[1..][k - 1] == cols[k];
      }
      var j := FirstFailure(c, cls, cols[1..], model);
      assert cols[1..][j] == cols[j + 1];
      assert forall m :: 1 <= m < j + 1 ==> cols[m] == cols[1..][m - 1];
      j + 1
  }

  // ---------------------------------------------------------------------
  // The fold against the reference
  // ---------------------------------------------------------------------

  lemma AllResolveTail(c: Caster, cls: Classes, cols: seq<Column>, model: ModelFacts)
    requires cols != []
    ensures AllResolve(c, cls, cols, model) <==>
      Outcome(c, cls, cols[0], model).Success? && AllResolve(c, cls, cols[1..], model)
  {
    if Outcome(c, cls, cols[0], model).Success? && AllResolve(c, cls, cols[1..], model) {
      forall i | 0 <= i < |cols|
        ensures Outcome(c, cls, cols[i], model).Success?
      {
        if i > 0 {
          assert cols[i] == cols[1..][i - 1];
        }
      }
    }
  }

  /** The fold succeeds exactly when every column's outcome does. */
  lemma {:induction false} HandleColumnsFromSucceeds(c: Caster, cls: Classes, cols: seq<Column>,
                                                    model: ModelFacts, acc: Arr<string>)
    ensures HandleColumnsFrom(c, cls, cols, model, acc).Success? <==> AllResolve(c, cls, cols, model)
    decreases |cols|
  {
    if cols != [] {
      AllResolveTail(c, cls, cols, model);
      var o := Outcome(c, cls, cols[0], model);
      if o.Success? {
        var acc' := if o.value.Some? then Put(acc, cols[0].name, o.value.value) else acc;
        HandleColumnsFromSucceeds(c, cls, cols[1..], model, acc');
      }
    }
  }

  /** `handleColumns` succeeds exactly when no eligible column's `handle` fails. */
  lemma HandleColumnsSucceeds(c: Caster, cls: Classes, cols: seq<Column>, model: ModelFacts)
    ensures HandleColumns(c, cls, cols, model).Success? <==> AllResolve(c, cls, cols, model)
  {
    HandleColumnsFromSucceeds(c, cls, cols, model, []);
  }

  /** When the fold fails, it fails with the error of the first failing column. */
  lemma {:induction false} HandleColumnsFromFirstFailure(c: Caster, cls: Classes, cols: seq<Column>,
                                                        model: ModelFacts, acc: Arr<string>)
    requires !AllResolve(c, cls, cols, model)
    ensures HandleColumnsFrom(c, cls, cols, model, acc)
      == Failure(Outcome(c, cls, cols[FirstFailure(c, cls, cols, model)], model).error)
    decreases |cols|
  {
    var o := Outcome(c, cls, cols[0], model);
    if o.Success? {
      AllResolveTail(c, cls, cols, model);
      var acc' := if o.value.Some? then Put(acc, cols[0].name, o.value.value) else acc;
      HandleColumnsFromFirstFailure(c, cls, cols[1..], model, acc');
    }
  }

  /** The first column, in order, whose `handle` fails aborts `handleColumns` with its error. */
  lemma HandleColumnsFirstFailure(c: Caster, cls: Classes, cols: seq<Column>, model: ModelFacts)
    requires !AllResolve(c, cls, cols, model)
    ensures var i := FirstFailure(c, cls, cols, model);
      HandleColumns(c, cls, cols, model) == Failure(Outcome(c, cls, cols[i], model).error)
  {
    HandleColumnsFromFirstFailure(c, cls, cols, model, []);
  }

  /** With distinct column names, every `Put` of the fold appends a fresh key. */
  lemma {:induction false} HandleColumnsFromCollects(c: Caster, cls: Classes, cols: seq<Column>,
                                                    model: ModelFacts, acc: Arr<string>)
    requires UniqueNames(cols)
    requires forall i :: 0 <= i < |cols| ==> !HasKey(acc, cols[i].name)
    requires AllResolve(c, cls, cols, model)
    ensures HandleColumnsFrom(c, cls, cols, model, acc) == Success(acc + Collected(c, cls, cols, model))
    decreases |cols|
  {
    if cols != [] {
      AllResolveTail(c, cls, cols, model);
      var o := Outcome(c, cls, cols[0], model).value;
      var acc' := if o.Some? then Put(acc, cols[0].name, o.value) else acc;
      var rest := cols[1..];
      if o.Some? {
        PutFresh(acc, cols[0].name, o.value);
        forall i | 0 <= i < |rest|
          ensures !HasKey(acc', rest[i].name)
        {
          assert rest[i] == cols[i + 1];
          assert Keys(acc') == Keys(acc) + [cols[0].name];
        }
      }
      assert UniqueNames(rest) by {
        forall i, j | 0 <= i < j < |rest|
          ensures rest[i].name != rest[j].name
        {
          assert rest[i] == cols[i + 1] && rest[j] == cols[j + 1];
        }
      }
      assert forall i :: 0 <= i < |rest| ==> !HasKey(acc', rest[i].name) by {
        if o.None? {
          forall i | 0 <= i < |rest|
            ensures !HasKey(acc', rest[i].name)
          {
            assert rest[i] == cols[i + 1];
          }
        }
      }
      HandleColumnsFromCollects(c, cls, rest, model, acc');
      var head: Arr<string> := if o.Some? then [(cols[0].name, o.value)] else [];
      var tail := Collected(c, cls, rest, model);
      assert acc' == acc + head;
      assert Collected(c, cls, cols, model) == head + tail;
      AppendAssoc(acc, head, tail);
    } else {
      assert acc + [] == acc;
    }
  }

  lemma AppendAssoc<T>(a: seq<T>, b: seq<T>, c: seq<T>)
    ensures (a + b) + c == a + (b + c)
  {
  }

  /**
   * With distinct column names, `handleColumns` returns exactly the eligible
   * columns with a truthy result, in column order, each keyed by its name.
   */
  lemma HandleColumnsCollects(c: Caster, cls: Classes, cols: seq<Column>, model: ModelFacts)
    requires UniqueNames(cols)
    requires AllResolve(c, cls, cols, model)
    ensures HandleColumns(c, cls, cols, model) == Success(Collected(c, cls, cols, model))
  {
    HandleColumnsFromCollects(c, cls, cols, model, []);
    assert [] + Collected(c, cls, cols, model) == Collected(c, cls, cols, model);
  }

  /** Some eligible column named `e.0` resolves to `e.1`. */
  predicate ContributedBy(c: Caster, cls: Classes, cols: seq<Column>, model: ModelFacts, e: (string, string)) {
    exists i :: 0 <= i < |cols| && cols[i].name == e.0 && c.strategy.shouldBeHandled(cols[i], model)
      && Outcome(c, cls, cols[i], model) == Success(Some(e.1))
  }

  /** Each collected entry comes from an eligible column of that name, with a truthy value. */
  lemma {:induction false} CollectedEntries(c: Caster, cls: Classes, cols: seq<Column>, model: ModelFacts,
                                           k: nat)
    requires AllResolve(c, cls, cols, model)
    requires k < |Collected(c, cls, cols, model)|
    ensures var e := Collected(c, cls, cols, model)[k];
      Truthy(e.1) && ContributedBy(c, cls, cols, model, e)
  {
    AllResolveTail(c, cls, cols, model);
    var o := Outcome(c, cls, cols[0], model).value;
    var head: Arr<string> := if o.Some? then [(cols[0].name, o.value)] else [];
    var e := Collected(c, cls, cols, model)[k];
    if k < |head| {
      assert e == (cols[0].name, o.value);
    } else {
      assert e == Collected(c, cls, cols[1..], model)[k - |head|];
      CollectedEntries(c, cls, cols[1..], model, k - |head|);
      var i :| 0 <= i < |cols[1..]| && cols[1..][i].name == e.0
        && c.strategy.shouldBeHandled(cols[1..][i], model)
        && Outcome(c, cls, cols[1..][i], model) == Success(Some(e.1));
      assert cols[i + 1] == cols[1..][i];
    }
  }

  // ---------------------------------------------------------------------
  // Eligibility
  // ---------------------------------------------------------------------

  /** The base eligibility rule: every column is handled. */
  function AlwaysHandle(): (f: (Column, ModelFacts) -> bool)
    ensures forall column, model :: f(column, model)
  {
    (column: Column, model: ModelFacts) => true
  }

  /** The columns a rule lets through, in order. */
  function Eligible(f: (Column, ModelFacts) -> bool, cols: seq<Column>, model: ModelFacts): (r: seq<Column>)
    ensures forall x :: x in r <==> x in cols && f(x, model)
    ensures |r| <= |cols|
    ensures (forall i :: 0 <= i < |cols| ==> f(cols[i], model)) ==> r == cols
  {
    if cols == [] then []
    else (if f(cols[0], model) then [cols[0]] else []) + Eligible(f, cols[1..], model)
  }

  /** The base rule lets every column through, in order. */
  lemma EligibleUnderAlwaysHandle(cols: seq<Column>, model: ModelFacts)
    ensures Eligible(AlwaysHandle(), cols, model) == cols
  {
  }

  /** The same caster with the base eligibility rule. */
  function HandleEverything(c: Caster): (c': Caster)
    ensures c'.typeMapper == c.typeMapper && c'.typesMap == c.typesMap
    ensures c'.strategy.handler == c.strategy.handler
  {
    c.(strategy := Strategy(AlwaysHandle(), c.strategy.handler))
  }

  /**
   * Filtering on eligibility inside the fold is the same as running the
   * always-eligible caster over the eligible columns.
   */
  lemma {:induction false} FilterThenHandleFrom(c: Caster, cls: Classes, cols: seq<Column>,
                                               model: ModelFacts, acc: Arr<string>)
    ensures HandleColumnsFrom(c, cls, cols, model, acc)
      == HandleColumnsFrom(HandleEverything(c), cls, Eligible(c.strategy.shouldBeHandled, cols, model), model, acc)
    decreases |cols|
  {
    if cols != [] {
      var f := c.strategy.shouldBeHandled;
      var e := HandleEverything(c);
      var rest := Eligible(f, cols[1..], model);
      if f(cols[0], model) {
        assert Eligible(f, cols, model) == [cols[0]] + rest;
        assert ([cols[0]] + rest)[1..] == rest;
        assert Outcome(e, cls, cols[0], model) == Outcome(c, cls, cols[0], model);
        var o := Outcome(c, cls, cols[0], model);
        if o.Success? {
          var acc' := if o.value.Some? then Put(acc, cols[0].name, o.value.value) else acc;
          FilterThenHandleFrom(c, cls, cols[1..], model, acc');
        }
      } else {
        assert Eligible(f, cols, model) == rest;
        FilterThenHandleFrom(c, cls, cols[1..], model, acc);
      }
    }
  }

  lemma FilterThenHandle(c: Caster, cls: Classes, cols: seq<Column>, model: ModelFacts)
    ensures HandleColumns(c, cls, cols, model)
      == HandleColumns(HandleEverything(c), cls, Eligible(c.strategy.shouldBeHandled, cols, model), model)
  {
    FilterThenHandleFrom(c, cls, cols, model, []);
  }

  // ---------------------------------------------------------------------
  // Validation and the type mapper check
  // ---------------------------------------------------------------------

  /** The parameter after the first `:` is never examined. */
  lemma ParameterIgnored(cls: Classes, p: string, param: string)
    requires ':' !in p
    ensures IsValidCastType(cls, p + ":" + param) <==> IsValidCastType(cls, p)
  {
    BeforeAppend(p, ':', param);
    assert p + ":" + param == p + [':'] + param;
  }

  /** A built-in keyword is valid whatever reflection says, parameterised or not. */
  lemma KeywordsValid(cls: Classes, k: C.Kind, param: string)
    requires ':' !in C.Value(k)
    ensures IsValidCastType(cls, C.Value(k))
    ensures IsValidCastType(cls, C.Value(k) + ":" + param)
  {
    C.ValueSupported(k);
    ParameterIgnored(cls, C.Value(k), param);
  }

  /** A string no capability claims is valid exactly when its prefix is a built-in keyword. */
  lemma ValidWithoutClasses(cls: Classes, s: string)
    requires var p := Before(s, ':');
      !cls.isCastable(p) && !cls.isCastsAttributes(p) && !cls.isCastsInbound(p) && !cls.isEnum(p)
    ensures IsValidCastType(cls, s) <==> C.IsSupported(Before(s, ':'))
  {
  }

  /**
   * `handleColumn` fails with `invalidCastType` exactly when the mapper is
   * usable and its candidate is truthy but invalid; the error carries that
   * column's name and tag and the candidate.
   */
  lemma InvalidCastTypeExactly(c: Caster, cls: Classes, column: Column)
    ensures var d := DetermineCastType(c, cls, column);
      HandleColumn(c, cls, column).Failure? && HandleColumn(c, cls, column).error.InvalidCastType? <==>
        d.Success? && TruthyOpt(d.value) && !IsValidCastType(cls, d.value.value)
    ensures var d := DetermineCastType(c, cls, column);
      d.Success? && TruthyOpt(d.value) && !IsValidCastType(cls, d.value.value) ==>
        HandleColumn(c, cls, column) == Failure(InvalidCastType(column.name, column.tag, d.value.value))
  {
  }

  /** With the base TypeMapper class, `handleColumn` yields the mapper's own result when it is valid. */
  lemma HandleColumnIsMapperResult(typesMap: Option<TM.TypesMap>, strategy: Strategy, cls: Classes, column: Column)
    ensures var c := Caster(Some(TypeMapperClass), typesMap, strategy);
      var v := TM.Handle(TM.New(typesMap), column, column.tag);
      HandleColumn(c, cls, column) ==
        if TruthyOpt(v) && !IsValidCastType(cls, v.value)
        then Failure(InvalidCastType(column.name, column.tag, v.value))
        else Success(v)
  {
  }

  /**
   * A TypeMapper subclass that overrides no handler resolves every column
   * exactly as TypeMapper itself does.
   */
  lemma InheritingSubclassIsBase(c: Caster, cls: Classes, column: Column)
    requires c.typeMapper.Some? && cls.extendsTypeMapper(c.typeMapper.value)
    requires forall tm, t, col :: cls.mapperHooks(c.typeMapper.value)(tm, t, col) == TM.Inherit
    ensures DetermineCastType(c, cls, column) == DetermineCastType(c.(typeMapper := Some(TypeMapperClass)), cls, column)
    ensures DetermineCastType(c, cls, column) == Success(TM.Handle(TM.New(c.typesMap), column, column.tag))
  {
    var m := MapperFor(cls, c.typeMapper.value, c.typesMap);
    assert m.hooks(TM.EffectiveMap(m), column.tag, column) == TM.Inherit;
  }

  /**
   * An overriding `handle<Tag>` method of a TypeMapper subclass decides the
   * candidate alone: the types map and the base handler are not consulted.
   */
  lemma OverridingHookDecides(c: Caster, cls: Classes, column: Column, r: Option<string>)
    requires c.typeMapper.Some? && c.typeMapper.value != TypeMapperClass && cls.extendsTypeMapper(c.typeMapper.value)
    requires var m := MapperFor(cls, c.typeMapper.value, c.typesMap);
      cls.mapperHooks(c.typeMapper.value)(TM.EffectiveMap(m), column.tag, column) == TM.Replace(r)
    ensures DetermineCastType(c, cls, column) == Success(r)
  {
  }

  /** A falsy candidate is returned without validation. */
  lemma FalsyCandidateNotValidated(c: Caster, cls: Classes, column: Column)
    requires DetermineCastType(c, cls, column).Success?
    requires !TruthyOpt(DetermineCastType(c, cls, column).value)
    ensures HandleColumn(c, cls, column) == DetermineCastType(c, cls, column)
  {
  }

  /**
   * The type mapper is checked lazily: with an unusable mapper, a caster that
   * resolves through `handleColumn` fails exactly when some column is
   * eligible, and otherwise returns an empty array.
   */
  lemma {:induction false} InvalidMapperIsLazy(c: Caster, cls: Classes, cols: seq<Column>, model: ModelFacts)
    requires c.typeMapper.None? || !IsTypeMapper(cls, c.typeMapper.value)
    requires c.strategy.handler.ViaHandleColumn?
    ensures var eligible := exists i :: 0 <= i < |cols| && c.strategy.shouldBeHandled(cols[i], model);
      HandleColumns(c, cls, cols, model) == if eligible then Failure(InvalidTypeMapper) else Success([])
  {
    var eligible := exists i :: 0 <= i < |cols| && c.strategy.shouldBeHandled(cols[i], model);
    if eligible {
      assert !AllResolve(c, cls, cols, model);
      HandleColumnsFirstFailure(c, cls, cols, model);
    } else {
      assert AllResolve(c, cls, cols, model);
      HandleColumnsSucceeds(c, cls, cols, model);
      NothingEligibleCollectsNothing(c, cls, cols, model);
      HandleColumnsFromSucceeds(c, cls, cols, model, []);
      HandleColumnsFromEmpty(c, cls, cols, model, []);
    }
  }

  /** When no column is eligible the fold leaves its accumulator as it is. */
  lemma {:induction false} HandleColumnsFromEmpty(c: Caster, cls: Classes, cols: seq<Column>,
                                                 model: ModelFacts, acc: Arr<string>)
    requires forall i :: 0 <= i < |cols| ==> !c.strategy.shouldBeHandled(cols[i], model)
    ensures HandleColumnsFrom(c, cls, cols, model, acc) == Success(acc)
    decreases |cols|
  {
    if cols != [] {
      assert forall i :: 0 <= i < |cols[1..]| ==> cols[1..][i] == cols[i + 1];
      HandleColumnsFromEmpty(c, cls, cols[1..], model, acc);
    }
  }

  lemma NothingEligibleCollectsNothing(c: Caster, cls: Classes, cols: seq<Column>, model: ModelFacts)
    requires forall i :: 0 <= i < |cols| ==> !c.strategy.shouldBeHandled(cols[i], model)
    ensures AllResolve(c, cls, cols, model)
  {
  }
}
