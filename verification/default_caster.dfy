/**
 * `DefaultCaster`: resolves every column through `handleColumn`, skipping
 * string-like columns and the model's default timestamp columns.
 */
module DefaultCaster {
  import opened Wrappers
  import opened PhpArray
  import D = DoctrineType
  import C = CastType
  import opened Schema
  import TM = TypeMapper
  import opened Runtime
  import BC = BaseCaster

  /** Tags whose values PHP already treats as strings. */
  predicate IsStringLikeColumn(column: Column) {
    column.tag in [D.AsciiString, D.String, D.Text]
  }

  /** `in_array($name, [createdAt, updatedAt], true)`: a `null` timestamp name matches nothing. */
  predicate IsDefaultTimestampsColumn(column: Column, model: ModelFacts) {
    Some(column.name) in [model.createdAt, model.updatedAt]
  }

  /** `shouldBeHandled`. */
  predicate ShouldBeHandled(column: Column, model: ModelFacts) {
    !IsStringLikeColumn(column) && !IsDefaultTimestampsColumn(column, model)
  }

  /** The class's behaviour: its own eligibility rule, and `handle` is `handleColumn`. */
  function Strategy(): (s: Runtime.Strategy)
    ensures s.handler == ViaHandleColumn
    ensures forall column, model :: s.shouldBeHandled(column, model) <==>
      column.tag !in {D.AsciiString, D.String, D.Text}
      && (model.createdAt != Some(column.name) && model.updatedAt != Some(column.name))
  {
    Runtime.Strategy((column: Column, model: ModelFacts) => ShouldBeHandled(column, model), ViaHandleColumn)
  }

  /** A DefaultCaster instance built with a type mapper class and a types map. */
  function New(typeMapper: Option<string>, typesMap: Option<TM.TypesMap>): (c: BC.Caster)
    ensures c.typeMapper == typeMapper && c.typesMap == typesMap
    ensures c.strategy == Strategy()
  {
    BC.Caster(typeMapper, typesMap, Strategy())
  }

  /** `handle` is exactly `handleColumn`, whatever the model. */
  lemma HandleIsHandleColumn(c: BC.Caster, cls: Classes, column: Column, model: ModelFacts)
    requires c.strategy == Strategy()
    ensures BC.Handle(c, cls, column, model) == BC.HandleColumn(c, cls, column)
  {
  }

  /**
   * Eligibility depends on the storage tag and the name only, never on the
   * cast the column would get: BINARY, BLOB, GUID and TIME columns are
   * handled even though `defaults()` maps them to `string`.
   */
  lemma ExclusionByTagNotByCast(column: Column, model: ModelFacts)
    requires column.tag in {D.Binary, D.Time, D.Guid, D.Blob}
    requires !IsDefaultTimestampsColumn(column, model)
    ensures ShouldBeHandled(column, model)
    ensures TM.Lookup(TM.Defaults(), column.tag) == Some(C.Value(C.String))
  {
    TM.LookupTable(TM.DefaultKind, column.tag);
    assert TM.DefaultKind(column.tag) == Some(C.String) by {
      match column.tag
      case Binary =>
      case Time =>
      case Guid =>
      case Blob =>
      case _ => assert false;
    }
  }

  /** A string-like column, or one named like a default timestamp, is never in the output. */
  lemma ExcludedNeverHandled(c: BC.Caster, cls: Classes, column: Column, model: ModelFacts)
    requires c.strategy == Strategy()
    requires IsStringLikeColumn(column) || IsDefaultTimestampsColumn(column, model)
    ensures BC.Outcome(c, cls, column, model) == Success(None)
  {
  }

  /**
   * The DefaultCaster's output is the always-eligible caster's output over
   * the columns that are neither string-like nor default timestamps.
   */
  lemma IsAlwaysEligibleOnFiltered(typeMapper: Option<string>, typesMap: Option<TM.TypesMap>, cls: Classes,
                                   cols: seq<Column>, model: ModelFacts)
    ensures var kept := BC.Eligible(Strategy().shouldBeHandled, cols, model);
      (forall x :: x in kept <==> x in cols && ShouldBeHandled(x, model))
      && BC.HandleColumns(New(typeMapper, typesMap), cls, cols, model)
         == BC.HandleColumns(BC.Caster(typeMapper, typesMap, Runtime.Strategy(BC.AlwaysHandle(), ViaHandleColumn)),
                             cls, kept, model)
  {
    BC.FilterThenHandle(New(typeMapper, typesMap), cls, cols, model);
  }
}
