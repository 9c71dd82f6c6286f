/**
 * `TypeMapper`: maps a column's Doctrine storage tag to a Laravel cast type
 * through a types map, with one overridable handler per tag and a precision
 * rule for DECIMAL.
 */
module TypeMapper {
  import opened Wrappers
  import opened Str
  import opened PhpArray
  import D = DoctrineType
  import C = CastType
  import opened Schema

  /** Doctrine tag value => cast type, `null` meaning "no cast". */
  type TypesMap = Arr<Option<string>>

  /** The cast keyword `defaults()` gives each tag; UNKNOWN has none. */
  function DefaultKind(t: D.Tag): Option<C.Kind> {
    match t
    case AsciiString => Some(C.String)
    case Bigint => Some(C.String)
    case Binary => Some(C.String)
    case Blob => Some(C.String)
    case Boolean => Some(C.Bool)
    case Date => Some(C.Date)
    case DateImmutable => Some(C.ImmutableDate)
    case DateInterval => Some(C.Date)
    case Datetime => Some(C.Datetime)
    case DatetimeImmutable => Some(C.ImmutableDatetime)
    case Datetimetz => Some(C.Datetime)
    case DatetimetzImmutable => Some(C.ImmutableDatetime)
    case Decimal => Some(C.Decimal)
    case Float => Some(C.Float)
    case Guid => Some(C.String)
    case Integer => Some(C.Int)
    case Json => Some(C.Json)
    case SimpleArray => Some(C.Array)
    case Smallint => Some(C.Int)
    case String => Some(C.String)
    case Text => Some(C.String)
    case Time => Some(C.String)
    case TimeImmutable => Some(C.String)
    case Unknown => None
  }

  function KindValue(k: Option<C.Kind>): Option<string> {
    match k
    case Some(kind) => Some(C.Value(kind))
    case None => None
  }

  /** A types map with one entry per tag, in dispatch order, taken from `f`. */
  function TableOf(f: D.Tag -> Option<C.Kind>): (tm: TypesMap)
    ensures |tm| == |D.AllTags|
    ensures forall i :: 0 <= i < |D.AllTags| ==> tm[i] == (D.Value(D.AllTags[i]), KindValue(f(D.AllTags[i])))
  {
    seq(|D.AllTags|, i requires 0 <= i < |D.AllTags| => (D.Value(D.AllTags[i]), KindValue(f(D.AllTags[i]))))
  }

  /** `TypeMapper::defaults()`: each tag mapped to its homologous cast type. */
  function Defaults(): TypesMap {
    TableOf(DefaultKind)
  }

  /** The tags `opinionated()` overrides, in the order it lists them. */
  const OverriddenTags: seq<D.Tag> := [D.Bigint, D.Date, D.DateInterval, D.Datetime, D.Datetimetz, D.Json]

  /** The keyword `opinionated()` gives each tag: six overrides, the default elsewhere. */
  function OpinionatedKind(t: D.Tag): Option<C.Kind> {
    match t
    case Bigint => Some(C.Int)
    case Date | DateInterval => Some(C.ImmutableDate)
    case Datetime | Datetimetz => Some(C.ImmutableDatetime)
    case Json => Some(C.AsArrayObjectClass)
    case _ => DefaultKind(t)
  }

  /** The entries `opinionated()` writes over the defaults, one per overridden tag. */
  function OpinionatedOverrides(): (o: TypesMap)
    ensures |o| == |OverriddenTags|
    ensures forall i :: 0 <= i < |OverriddenTags| ==>
      o[i] == (D.Value(OverriddenTags[i]), KindValue(OpinionatedKind(OverriddenTags[i])))
  {
    seq(|OverriddenTags|, i requires 0 <= i < |OverriddenTags| =>
      (D.Value(OverriddenTags[i]), KindValue(OpinionatedKind(OverriddenTags[i]))))
  }

  /**
   * `TypeMapper::opinionated()`, as the per-tag table it evaluates to;
   * `OpinionatedIsSpread` proves it equals `[...defaults(), ...overrides]`.
   */
  function Opinionated(): TypesMap {
    TableOf(OpinionatedKind)
  }

  /** What a `handle<Tag>` method of a TypeMapper subclass does for a tag. */
  datatype Hook = Inherit | Replace(result: Option<string>)

  /**
   * The handler overrides of a TypeMapper subclass. An override sees the
   * effective types map, the tag and the column.
   */
  type Hooks = (TypesMap, D.Tag, Column) -> Hook

  /** The base class overrides nothing. */
  function NoHooks(): Hooks {
    (m: TypesMap, t: D.Tag, c: Column) => Inherit
  }

  /** An instance: the constructor's types map and the class's overrides. */
  datatype Mapper = Mapper(typesMap: Option<TypesMap>, hooks: Hooks)

  /** `TypeMapper::new($typesMap)`. */
  function New(typesMap: Option<TypesMap>): Mapper {
    Mapper(typesMap, NoHooks())
  }

  /** A `null` or empty array is falsy in PHP. */
  predicate FalsyMap(m: Option<TypesMap>) {
    m.None? || m.value == []
  }

  /** `getTypesMap()`: the constructor's map, or the defaults when it is falsy. */
  function EffectiveMap(m: Mapper): (r: TypesMap)
    ensures FalsyMap(m.typesMap) ==> r == Defaults()
    ensures !FalsyMap(m.typesMap) ==> r == m.typesMap.value
  {
    if FalsyMap(m.typesMap) then Defaults() else m.typesMap.value
  }

  /** `$map[$type->value] ?? null`: a missing key and an explicit null both give null. */
  function Lookup(tm: TypesMap, t: D.Tag): (r: Option<string>)
    ensures r.Some? <==> Get(tm, D.Value(t)).Some? && Get(tm, D.Value(t)).value.Some?
    ensures r.Some? ==> Get(tm, D.Value(t)) == Some(r)
  {
    var e := Get(tm, D.Value(t));
    if e.Some? then e.value else None
  }

  /** `getCastFromDoctrineType($type)`. */
  function CastFromDoctrineType(m: Mapper, t: D.Tag): Option<string> {
    Lookup(EffectiveMap(m), t)
  }

  /**
   * `handleDecimal`: a truthy entry without a `:` parameter gets the column's
   * precision appended; anything else comes back unchanged.
   */
  function HandleDecimal(m: Mapper, column: Column): (r: Option<string>)
    ensures var v := CastFromDoctrineType(m, D.Decimal);
      if TruthyOpt(v) && ':' !in v.value
      then r.Some? && Before(r.value, ':') == v.value && ':' in r.value
      else r == v
  {
    var v := CastFromDoctrineType(m, D.Decimal);
    if !TruthyOpt(v) then v
    else
      ContainsIsMembership(v.value, ':');
      if Contains(v.value, ':') then v
      else
        BeforeAppend(v.value, ':', Interpolate(column.precision));
        Some(v.value + [':'] + Interpolate(column.precision))
  }

  /** The handler the base class runs for a tag. */
  function BaseHandler(m: Mapper, column: Column, t: D.Tag): Option<string> {
    if t == D.Decimal then HandleDecimal(m, column) else CastFromDoctrineType(m, t)
  }

  /** `handle($column, $type)`: the total dispatch over the 24 tags. */
  function Handle(m: Mapper, column: Column, t: D.Tag): Option<string> {
    match m.hooks(EffectiveMap(m), t, column)
    case Replace(r) => r
    case Inherit => BaseHandler(m, column, t)
  }

  // ---------------------------------------------------------------------
  // Properties of the base class (no handler overridden)
  // ---------------------------------------------------------------------

  /** Every tag except DECIMAL resolves to its map entry, whatever the column. */
  lemma HandleIsLookup(typesMap: Option<TypesMap>, column: Column, t: D.Tag)
    requires t != D.Decimal
    ensures Handle(New(typesMap), column, t) == Lookup(EffectiveMap(New(typesMap)), t)
  {
  }

  /** A falsy constructor map behaves exactly like the defaults. */
  lemma FalsyMapMeansDefaults(typesMap: Option<TypesMap>, column: Column, t: D.Tag)
    requires FalsyMap(typesMap)
    ensures Handle(New(typesMap), column, t) == Handle(New(Some(Defaults())), column, t)
  {
    assert |Defaults()| == |D.AllTags| > 0;
    assert EffectiveMap(New(typesMap)) == EffectiveMap(New(Some(Defaults())));
  }

  /** A tag the (non-empty) map does not mention resolves to null, not to an error. */
  lemma MissingTagIsNull(tm: TypesMap, column: Column, t: D.Tag)
    requires tm != []
    requires !HasKey(tm, D.Value(t))
    ensures Handle(New(Some(tm)), column, t) == None
  {
  }

  /** DECIMAL with a bare truthy entry gets `:<precision>` appended. */
  lemma DecimalAppendsPrecision(tm: TypesMap, column: Column, v: string)
    requires Get(tm, D.Value(D.Decimal)) == Some(Some(v))
    requires Truthy(v) && ':' !in v
    ensures Handle(New(Some(tm)), column, D.Decimal) == Some(v + ":" + Interpolate(column.precision))
  {
  }

  /** DECIMAL leaves a falsy entry, or one that already has a parameter, unchanged. */
  lemma DecimalKeepsEntry(tm: TypesMap, column: Column)
    requires tm != []
    requires var v := Lookup(tm, D.Decimal); !TruthyOpt(v) || ':' in v.value
    ensures Handle(New(Some(tm)), column, D.Decimal) == Lookup(tm, D.Decimal)
  {
  }

  /**
   * Re-parameterisation is idempotent: writing DECIMAL's result back into the
   * map and resolving again, for any column, gives the same result.
   */
  lemma DecimalIdempotent(typesMap: Option<TypesMap>, column: Column, other: Column)
    ensures var m := New(typesMap);
      var r := Handle(m, column, D.Decimal);
      var tm' := Put(EffectiveMap(m), D.Value(D.Decimal), r);
      Handle(New(Some(tm')), other, D.Decimal) == r
  {
    var m := New(typesMap);
    var r := Handle(m, column, D.Decimal);
    var tm' := Put(EffectiveMap(m), D.Value(D.Decimal), r);
    PutGet(EffectiveMap(m), D.Value(D.Decimal), r, D.Value(D.Decimal));
    assert tm' != [] by {
      assert |Keys(tm')| > 0 by {
        if HasKey(EffectiveMap(m), D.Value(D.Decimal)) {
          assert Keys(EffectiveMap(m)) != [];
        }
      }
    }
  }

  /**
   * The part of any result before its first `:` is the map entry itself, when
   * the map's entries carry no parameters.
   */
  lemma HandlePrefixIsEntry(typesMap: Option<TypesMap>, column: Column, t: D.Tag)
    requires var v := Lookup(EffectiveMap(New(typesMap)), t); v.Some? ==> ':' !in v.value
    ensures var r := Handle(New(typesMap), column, t);
      r.Some? ==> Before(r.value, ':') == Lookup(EffectiveMap(New(typesMap)), t).value
  {
  }

  // ---------------------------------------------------------------------
  // The two canonical tables
  // ---------------------------------------------------------------------

  /** The twelve keywords `defaults()` and `opinionated()` use. */
  predicate TableKind(k: C.Kind) {
    k in {C.String, C.Bool, C.Date, C.ImmutableDate, C.Datetime, C.ImmutableDatetime, C.Decimal, C.Float,
          C.Int, C.Json, C.Array, C.AsArrayObjectClass}
  }

  /** None of those keywords carries a `:` parameter. */
  lemma TableKindHasNoParameter(k: C.Kind)
    requires TableKind(k)
    ensures ':' !in C.Value(k)
  {
    if k == C.AsArrayObjectClass {
      assert C.Value(k) == C.CastsNamespace + "AsArrayObject";
      assert ':' !in C.CastsNamespace;
    } else if k in {C.String, C.Bool, C.Date, C.ImmutableDate, C.Datetime, C.ImmutableDatetime} {
      TemporalOrScalarHasNoParameter(k);
    } else {
      NumericOrStructuredHasNoParameter(k);
    }
  }

  lemma TemporalOrScalarHasNoParameter(k: C.Kind)
    requires k in {C.String, C.Bool, C.Date, C.ImmutableDate, C.Datetime, C.ImmutableDatetime}
    ensures ':' !in C.Value(k)
  {
    match k
    case String =>
    case Bool =>
    case Date =>
    case ImmutableDate =>
    case Datetime =>
    case ImmutableDatetime =>
    case _ => assert false;
  }

  lemma NumericOrStructuredHasNoParameter(k: C.Kind)
    requires k in {C.Decimal, C.Float, C.Int, C.Json, C.Array}
    ensures ':' !in C.Value(k)
  {
    match k
    case Decimal =>
    case Float =>
    case Int =>
    case Json =>
    case Array =>
    case _ => assert false;
  }

  /** Both canonical tables map every tag to one of those keywords, or to null. */
  lemma CanonicalKinds(t: D.Tag)
    ensures DefaultKind(t).Some? ==> TableKind(DefaultKind(t).value)
    ensures OpinionatedKind(t).Some? ==> TableKind(OpinionatedKind(t).value)
  {
  }

  /** A per-tag table whose keywords are canonical has no entry with a `:` parameter. */
  lemma TableEntryHasNoParameter(f: D.Tag -> Option<C.Kind>, t: D.Tag)
    requires f(t).Some? ==> TableKind(f(t).value)
    ensures var v := Lookup(TableOf(f), t); v.Some? ==> ':' !in v.value
  {
    LookupTable(f, t);
    if f(t).Some? {
      TableKindHasNoParameter(f(t).value);
    }
  }

  /** No entry of `defaults()` or `opinionated()` carries a `:` parameter. */
  lemma CanonicalEntriesHaveNoParameter(t: D.Tag)
    ensures var v := Lookup(Defaults(), t); v.Some? ==> ':' !in v.value
    ensures var v := Lookup(Opinionated(), t); v.Some? ==> ':' !in v.value
  {
    CanonicalKinds(t);
    TableEntryHasNoParameter(DefaultKind, t);
    TableEntryHasNoParameter(OpinionatedKind, t);
  }

  /** The prefix of any result of a mapper built with such a table is the table's entry. */
  lemma TablePrefixIsEntry(f: D.Tag -> Option<C.Kind>, column: Column, t: D.Tag)
    requires f(t).Some? ==> TableKind(f(t).value)
    ensures var r := Handle(New(Some(TableOf(f))), column, t);
      r.Some? ==> Lookup(TableOf(f), t).Some? && Before(r.value, ':') == Lookup(TableOf(f), t).value
  {
    assert |TableOf(f)| > 0;
    TableEntryHasNoParameter(f, t);
    HandlePrefixIsEntry(Some(TableOf(f)), column, t);
  }

  /**
   * A mapper built with `opinionated()` returns, for every column and tag, a
   * result whose part before the first `:` is the table's entry: only
   * DECIMAL's precision is ever appended.
   */
  lemma OpinionatedPrefixIsEntry(column: Column, t: D.Tag)
    ensures var r := Handle(New(Some(Opinionated())), column, t);
      r.Some? ==> Lookup(Opinionated(), t).Some? && Before(r.value, ':') == Lookup(Opinionated(), t).value
  {
    CanonicalKinds(t);
    TablePrefixIsEntry(OpinionatedKind, column, t);
  }

  /** The same holds for a mapper built with `defaults()`. */
  lemma DefaultsPrefixIsEntry(column: Column, t: D.Tag)
    ensures var r := Handle(New(Some(Defaults())), column, t);
      r.Some? ==> Lookup(Defaults(), t).Some? && Before(r.value, ':') == Lookup(Defaults(), t).value
  {
    CanonicalKinds(t);
    TablePrefixIsEntry(DefaultKind, column, t);
  }

  /** A per-tag table has exactly one entry per tag, in order, with no key repeated. */
  lemma TableOfCoversEveryTag(f: D.Tag -> Option<C.Kind>, t: D.Tag)
    ensures Keys(TableOf(f)) == D.AllValues()
    ensures UniqueKeys(TableOf(f))
    ensures Get(TableOf(f), D.Value(t)) == Some(KindValue(f(t)))
  {
    var tm := TableOf(f);
    forall i, j | 0 <= i < j < |tm|
      ensures tm[i].0 != tm[j].0
    {
      D.AllValuesDistinct(i, j);
    }
    GetAt(tm, D.Index(t));
  }

  /** Looking a tag up in a per-tag table gives that tag's keyword. */
  lemma LookupTable(f: D.Tag -> Option<C.Kind>, t: D.Tag)
    ensures Lookup(TableOf(f), t) == KindValue(f(t))
  {
    TableOfCoversEveryTag(f, t);
  }

  /** Every tag has an entry in `defaults()`; UNKNOWN's is an explicit null. */
  lemma DefaultsComplete(t: D.Tag)
    ensures Keys(Defaults()) == D.AllValues() && UniqueKeys(Defaults())
    ensures HasKey(Defaults(), D.Value(t))
    ensures t == D.Unknown <==> Get(Defaults(), D.Value(t)) == Some(None)
  {
    TableOfCoversEveryTag(DefaultKind, t);
  }

  lemma OverridesShape()
    ensures UniqueKeys(OpinionatedOverrides())
  {
    var o := OpinionatedOverrides();
    var ts := OverriddenTags;
    forall i, j | 0 <= i < j < |o|
      ensures o[i].0 != o[j].0
    {
      assert ts[i] != ts[j];
      D.ValueInjective(ts[i], ts[j]);
    }
  }

  /** The overrides hold exactly the six overridden tags, each with its opinionated keyword. */
  lemma OverridesLookup(t: D.Tag)
    ensures HasKey(OpinionatedOverrides(), D.Value(t)) <==> t in OverriddenTags
    ensures t in OverriddenTags ==>
      Get(OpinionatedOverrides(), D.Value(t)) == Some(KindValue(OpinionatedKind(t)))
    ensures t !in OverriddenTags ==> OpinionatedKind(t) == DefaultKind(t)
  {
    if t in OverriddenTags {
      OverriddenLookup(t);
    } else {
      NotOverriddenLookup(t);
    }
  }

  lemma OverriddenLookup(t: D.Tag)
    requires t in OverriddenTags
    ensures Get(OpinionatedOverrides(), D.Value(t)) == Some(KindValue(OpinionatedKind(t)))
  {
    var o := OpinionatedOverrides();
    var ts := OverriddenTags;
    OverridesShape();
    var i :| 0 <= i < |ts| && ts[i] == t;
    assert o[i].0 == D.Value(t);
    GetAt(o, i);
  }

  lemma NotOverriddenLookup(t: D.Tag)
    requires t !in OverriddenTags
    ensures !HasKey(OpinionatedOverrides(), D.Value(t))
    ensures OpinionatedKind(t) == DefaultKind(t)
  {
    var o := OpinionatedOverrides();
    var ts := OverriddenTags;
    forall i | 0 <= i < |o|
      ensures o[i].0 != D.Value(t)
    {
      D.ValueInjective(ts[i], t);
    }
    assert forall i :: 0 <= i < |o| ==> Keys(o)[i] != D.Value(t);
  }

  /** Every key `opinionated()` overrides already exists in `defaults()`. */
  lemma OverridesInDefaults()
    ensures forall k :: k in Keys(OpinionatedOverrides()) ==> k in Keys(Defaults())
  {
    var o := OpinionatedOverrides();
    forall k | k in Keys(o)
      ensures k in Keys(Defaults())
    {
      OverridesShape();
      var i :| 0 <= i < |o| && o[i].0 == k;
      DefaultsComplete(OverriddenTags[i]);
    }
  }

  /** An array that overwrites `defaults()` in place with the overrides is the opinionated table. */
  lemma InPlaceOverrideIsTable(r: TypesMap)
    requires |r| == |Defaults()|
    requires forall i :: 0 <= i < |Defaults()| ==> r[i] == (Defaults()[i].0,
      if HasKey(OpinionatedOverrides(), Defaults()[i].0)
      then Get(OpinionatedOverrides(), Defaults()[i].0).value else Defaults()[i].1)
    ensures r == Opinionated()
  {
    forall i | 0 <= i < |D.AllTags|
      ensures r[i] == Opinionated()[i]
    {
      OverridesLookup(D.AllTags[i]);
    }
  }

  /** The preconditions of an in-place spread hold for `opinionated()`. */
  lemma OpinionatedSpreadsInPlace()
    ensures UniqueKeys(Defaults()) && UniqueKeys(OpinionatedOverrides())
    ensures forall k :: k in Keys(OpinionatedOverrides()) ==> k in Keys(Defaults())
  {
    OverridesInDefaults();
    DefaultsComplete(D.Unknown);
    OverridesShape();
  }

  /**
   * `opinionated()` is the per-tag table of `OpinionatedKind`: it keeps the
   * defaults' keys and order and differs from them exactly at BIGINT, DATE,
   * DATEINTERVAL, DATETIME, DATETIMETZ and JSON.
   */
  lemma OpinionatedIsSpread()
    ensures Spread(Defaults(), OpinionatedOverrides()) == Opinionated()
  {
    OpinionatedSpreadsInPlace();
    SpreadInPlace(Defaults(), OpinionatedOverrides());
    InPlaceOverrideIsTable(Spread(Defaults(), OpinionatedOverrides()));
  }

  /** Every non-null entry of a per-tag table is a supported cast keyword. */
  lemma TableSupported(f: D.Tag -> Option<C.Kind>, t: D.Tag)
    ensures var v := Lookup(TableOf(f), t); v.Some? ==> C.IsSupported(v.value)
  {
    TableOfCoversEveryTag(f, t);
    if f(t).Some? {
      C.ValueSupported(f(t).value);
    }
  }

  /** Every non-null entry of `defaults()` is a supported cast keyword. */
  lemma DefaultsSupported(t: D.Tag)
    ensures var v := Lookup(Defaults(), t); v.Some? ==> C.IsSupported(v.value)
  {
    TableSupported(DefaultKind, t);
  }

  /** Every non-null entry of `opinionated()` is a supported cast keyword. */
  lemma OpinionatedSupported(t: D.Tag)
    ensures var v := Lookup(Opinionated(), t); v.Some? ==> C.IsSupported(v.value)
  {
    TableSupported(OpinionatedKind, t);
  }
}
