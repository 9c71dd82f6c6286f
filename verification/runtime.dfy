/**
 * What the package learns from the running application rather than from its
 * own code: class identities, the answers PHP reflection gives about them,
 * what a model instance reports, and the errors the package raises.
 */
module Runtime {
  import opened Wrappers
  import D = DoctrineType
  import opened Schema
  import TypeMapper

  const TypeMapperClass: string := "VicGutt\\AutoModelCast\\Support\\TypeMapper"
  const BaseCasterClass: string := "VicGutt\\AutoModelCast\\Support\\Casters\\BaseCaster"
  const DefaultCasterClass: string := "VicGutt\\AutoModelCast\\Support\\Casters\\DefaultCaster"

  /** The errors the package raises, with the data each exception message carries. */
  datatype Error =
    | InvalidCaster(provided: string)
    | InvalidTypeMapper
    | InvalidCastType(column: string, tag: D.Tag, castType: string)
    | JsonUnencodable

  /**
   * What a model instance reports: its table, its connection name and the
   * names of its created-at and updated-at columns (each may be `null`).
   */
  datatype ModelFacts = ModelFacts(
    table: string,
    connection: Option<string>,
    createdAt: Option<string>,
    updatedAt: Option<string>)

  /**
   * What a caster's `handle` does for one column. An own `handle` receives
   * what `$this->handleColumn($column)` gives for that instance, the
   * result or the exception, and may use it, alter it or ignore it.
   */
  datatype Handler =
    | ViaHandleColumn
    | OwnHandle(run: (Result<Option<string>, Error>, Column, ModelFacts) -> Result<Option<string>, Error>)

  /** A caster class's behaviour: its eligibility rule and its `handle`. */
  datatype Strategy = Strategy(shouldBeHandled: (Column, ModelFacts) -> bool, handler: Handler)

  /**
   * The answers reflection gives about class names: the four capability
   * checks of cast validation (`is_subclass_of` of Castable, CastsAttributes,
   * CastsInboundAttributes, and `enum_exists`), strict subclassing of
   * TypeMapper and BaseCaster, and what the subclasses override.
   */
  datatype Classes = Classes(
    isCastable: string -> bool,
    isCastsAttributes: string -> bool,
    isCastsInbound: string -> bool,
    isEnum: string -> bool,
    extendsTypeMapper: string -> bool,
    mapperHooks: string -> TypeMapper.Hooks,
    extendsBaseCaster: string -> bool,
    casterStrategy: string -> Strategy)

  /** Which constructor arguments `ModelsFinder::find` receives, by parameter name. */
  type DiscoveryParams = seq<(string, Option<string>)>

  /**
   * The I/O the package performs: model discovery (class names in discovery
   * order), model instantiation and column introspection of a table.
   */
  datatype Env = Env(
    discover: DiscoveryParams -> seq<string>,
    model: string -> ModelFacts,
    columns: (string, Option<string>) -> seq<Column>)
}
