# laravel-auto-model-cast, modelled in Dafny

This project models the package's schema-to-cast process as pure functions and proves properties about them:

- A table's columns, each tagged with one of Doctrine's 24 storage types, go through a **type mapper**. The mapper is a types map from storage type to cast keyword, plus a DECIMAL rule that appends the column's precision.
- A **caster** then filters the columns on eligibility, resolves each one and validates the candidate it gets. It collects the truthy results into a column ⇒ cast array.
- The **`Casts`** configuration assigns a caster to every discovered model and runs it. It publishes the result as a six-key manifest and answers `for` / `forColumn` from a published manifest.
- The **`HasAutoCasting`** trait merges a model's published casts under the casts it declares itself.

| file | module | models |
|---|---|---|
| `wrappers.dfy` | `Wrappers` | `Option` and `Result` |
| `str.dfy` | `Str` | PHP string truthiness, `str_contains`, `Str::before`, and interpolation of a nullable int |
| `php_array.dfy` | `PhpArray` | PHP ordered string-keyed arrays: `$a[$k] = $v`, `$a[$k] ?? null`, `[...$a, ...$b]`, and `array_map` on values |
| `doctrine_type.dfy` | `DoctrineType` | the 24 storage tags and their key strings |
| `cast_type.dfy` | `CastType` | `CastTypeEnum`: the 30 built-in cast keywords in four groups |
| `schema.dfy` | `Schema` | an introspected column (name, storage tag, precision) |
| `type_mapper.dfy` | `TypeMapper` | `defaults()`, `opinionated()`, the `handle` dispatch, `handleDecimal`, `getCastFromDoctrineType` and `getTypesMap` |
| `runtime.dfy` | `Runtime` | class names, the reflection answers, the environment's I/O and the exceptions |
| `base_caster.dfy` | `BaseCaster` | `handleColumns`, `handleColumn`, `determineCastType`, `isValidCastType` and the base eligibility rule |
| `default_caster.dfy` | `DefaultCaster` | the default caster's eligibility rule and `handle` |
| `casts.dfy` | `Casts` | `new`, the setters, `casters`, `all`/`performCasting`, `toArray`/`toJson`, and `for`/`forModel`/`forColumn` |
| `has_auto_casting.dfy` | `HasAutoCasting` | `getAutoCasts`, `mergeAutoCastsIntoCasts` and `initializeHasAutoCasting` |

Modelling choices:

- **PHP arrays.** A PHP array is a sequence of key/value pairs.
  - `Put` overwrites a present key in place and appends a new one.
  - `Spread` is a left-to-right fold of `Put`, which is what `[...$a, ...$b]` does with string keys.
- **Falsiness.** A string is falsy when it is `""` or `"0"`; an array is falsy when it is empty or `null`.
- **Errors.** Exceptions become `Runtime.Error`, returned in a `Result`. Each error carries the data its exception message is built from:
  - `invalidCaster(caster)`;
  - `invalidTypeMapper`;
  - `invalidCastType(column, type, castType)`;
  - `jsonUnencodable`.
- **Reflection.** `is_subclass_of`, `enum_exists` and instantiation by class name are what `Runtime.Classes` reports.
  - TypeMapper subclasses are a per-tag override function, `Hooks`.
  - Caster subclasses are a `Strategy`: an eligibility rule plus either `handleColumn` or a handler of their own, which receives what `handleColumn` gives for the instance.
  - The package's own classes (`TypeMapper`, `BaseCaster` and `DefaultCaster`) are modelled by their code, not by the reflection parameters.
- **Environment.** `Runtime.Env` supplies three things as input:
  - model discovery, as a sequence of class names in discovery order;
  - model instantiation: table, connection, and the created-at and updated-at column names;
  - column introspection.
- **Configuration.** The published configuration is a `Casts.Json` value, the manifest `toArray()` returned, and `for` / `forColumn` navigate it.
- **`json_encode`.** This is an encoder parameter of `ToJson`.
- **`opinionated()`.** It is defined as the per-tag table of `OpinionatedKind`. `TypeMapper.OpinionatedIsSpread` proves that this table equals the source's expression `[...defaults(), BIGINT => int, …]`.

## Model

Functions that only compute have no row of their own. Their rows are the lemmas that state their properties:

- `TypeMapper.EffectiveMap`, `TypeMapper.CastFromDoctrineType` and `TypeMapper.Handle`: `HandleIsLookup`, `FalsyMapMeansDefaults`, `MissingTagIsNull`, the DECIMAL lemmas and the prefix lemmas.
- `BaseCaster.DetermineCastType`: `InheritingSubclassIsBase`, `OverridingHookDecides`, `HandleColumnIsMapperResult` and `InvalidMapperIsLazy`.
- `BaseCaster.IsValidCastType`: `ParameterIgnored`, `ValidWithoutClasses` and `KeywordsValid`.
- `BaseCaster.HandleColumns`: `HandleColumnsSucceeds`, `HandleColumnsFirstFailure` and `HandleColumnsCollects`.
- `DefaultCaster.New`: `HandleIsHandleColumn` and `IsAlwaysEligibleOnFiltered`.
- `Casts.Casters`: `CastersAssigns`, `CastersFirstFailure` and `CastersOrder`.
- `Casts.CasterInstance`: `CasterInstanceResolves` and `EmptyTypesMapMeansDefaults`.
- `Casts.All`: `AllPerModel`, `AllOrder` and `UndiscoveredCustomCastersIgnored`.
- `Casts.ToJson`: `ToJsonRoundTrip`.
- `Casts.For` and `Casts.ForColumn`: `ForAfterPublish`, `ForColumnAfterPublish` and `UnknownModel`.
- `HasAutoCasting.GetAutoCasts`: `GetAutoCastsAfterPublish` and `InitializedCasts`.

| member | source | states |
|---|---|---|
| TypeMapper.DefaultsComplete | src/Support/TypeMapper.php:21-49 | `defaults()` has exactly one entry per storage tag, all 24 of them, in tag order with no key repeated. The entry is an explicit `null` exactly for UNKNOWN. |
| TypeMapper.DefaultsSupported | src/Support/TypeMapper.php:21-49 | Every non-null entry of `defaults()` is one of the built-in cast keywords. |
| TypeMapper.LookupTable | src/Support/TypeMapper.php:21-67 | Looking a tag up in a per-tag table gives the keyword the table assigns to that tag. |
| TypeMapper.OverridesLookup | src/Support/TypeMapper.php:60-65 | The overrides cover exactly BIGINT, DATE, DATEINTERVAL, DATETIME, DATETIMETZ and JSON, each with its new keyword. Every other tag keeps its `defaults()` keyword. |
| TypeMapper.OverridesInDefaults | src/Support/TypeMapper.php:56-67 | Every key the overrides write already exists in `defaults()`, so the spread overwrites in place. |
| TypeMapper.OpinionatedIsSpread | src/Support/TypeMapper.php:56-67 | The spread of `defaults()` and the six overrides equals the per-tag opinionated table. That table has the defaults' keys and order, and differs from them only at the six overridden tags. |
| TypeMapper.OpinionatedSupported | src/Support/TypeMapper.php:56-67 | Every non-null entry of `opinionated()` is one of the built-in cast keywords. |
| TypeMapper.FalsyMapMeansDefaults | src/Support/TypeMapper.php:235-238 | A mapper built with a falsy map resolves every tag and column exactly as one built with `defaults()`. |
| TypeMapper.Lookup | src/Support/TypeMapper.php:230-233 | The result is non-null exactly when the map has the tag's key with a non-null entry, and then it is that entry. |
| TypeMapper.MissingTagIsNull | src/Support/TypeMapper.php:230-233 | A tag absent from a non-empty map resolves to `null`, not to an error. |
| TypeMapper.HandleIsLookup | src/Support/TypeMapper.php:74-101 | For every tag except DECIMAL, `handle` returns the effective map's entry for that tag, whatever the column. |
| TypeMapper.HandleDecimal | src/Support/TypeMapper.php:164-173 | If the entry is truthy and has no `:`, the result extends it with `:` and a suffix, so its part before the first `:` is the entry. Otherwise the entry comes back unchanged. |
| TypeMapper.DecimalAppendsPrecision | src/Support/TypeMapper.php:164-173 | A truthy DECIMAL entry `v` without `:` yields `v:<precision>`. |
| TypeMapper.DecimalKeepsEntry | src/Support/TypeMapper.php:168-170 | A falsy DECIMAL entry, or one that already has a `:`, is returned unchanged. |
| TypeMapper.DecimalIdempotent | src/Support/TypeMapper.php:164-173 | Write DECIMAL's result back into the map, then resolve DECIMAL again for any column: the result is the same. |
| TypeMapper.HandlePrefixIsEntry | src/Support/TypeMapper.php:164-173 | When the map's entries carry no parameter, the part of any result before its first `:` is the map entry. |
| TypeMapper.CanonicalEntriesHaveNoParameter | src/Support/TypeMapper.php:21-67 | No entry of `defaults()` or `opinionated()` carries a `:` parameter. |
| TypeMapper.OpinionatedPrefixIsEntry | tests/src/Support/CastMapperTest.php:54-62 | A mapper built with `opinionated()` gives, for every column and tag with a non-null result, a result whose part before the first `:` is the table's entry for that tag. |
| TypeMapper.DefaultsPrefixIsEntry | src/Support/TypeMapper.php:21-49 | The same holds for a mapper built with `defaults()`. |
| DoctrineType.AllTagsComplete | src/Support/TypeMapper.php:74-101 | The tag list names every one of the 24 tags. |
| DoctrineType.ValueInjective | src/Support/TypeMapper.php:24-47 | Distinct tags have distinct key strings, so types-map keys never collide. |
| CastType.TryFromValue | src/Enums/CastTypeEnum.php:26-67 | Reading a keyword's string back gives the keyword, so the 30 strings are pairwise distinct. |
| CastType.ValuesDistinct | src/Enums/CastTypeEnum.php:26-67 | No two positions of `values()` hold the same string. |
| CastType.ValueSupported | src/Enums/CastTypeEnum.php:26-67 | Every keyword's string is in the supported list. |
| CastType.SupportedHasKind | src/Enums/CastTypeEnum.php:26-67 | A supported string is exactly the string of the keyword `tryFrom` finds for it. |
| CastType.ParameterizablesSupported | src/Enums/CastTypeEnum.php:44-49 | `decimal`, `encrypted` and `encrypted:array` are supported, as whole strings. |
| CastType.AliasesSupported | src/Enums/CastTypeEnum.php:54-56 | The aliases `int`, `bool` and `json` are supported. |
| CastType.UnsupportedExamples | src/Enums/CastTypeEnum.php:44-44 | Membership is of whole strings: `decimal:4` is not supported, and neither is `nope!`. |
| Str.Before | src/Support/Casters/BaseCaster.php:98-98 | `Str::before($s, ':')` is the prefix of `s` up to its first `:`, or all of `s` when it has none. |
| BaseCaster.AlwaysHandle | src/Support/Casters/BaseCaster.php:27-30 | The base eligibility rule accepts every column of every model. |
| BaseCaster.EligibleUnderAlwaysHandle | src/Support/Casters/BaseCaster.php:27-30 | Under the base rule every column reaches `handle`, in order. |
| BaseCaster.InheritingSubclassIsBase | src/Support/Casters/BaseCaster.php:82-94 | A TypeMapper subclass that overrides no handler resolves every column exactly as TypeMapper itself does. |
| BaseCaster.OverridingHookDecides | src/Support/Casters/BaseCaster.php:90-93 | When a TypeMapper subclass overrides the handler for a column's tag, its result is the candidate. The types map and the base handler are not consulted. |
| BaseCaster.HandleColumn | src/Support/Casters/BaseCaster.php:57-67 | On success it returns the mapper's candidate unchanged, and a truthy candidate it returns is always valid. |
| BaseCaster.InvalidCastTypeExactly | src/Support/Casters/BaseCaster.php:57-67 | It fails with `invalidCastType` exactly when the mapper is usable and its candidate is truthy but invalid. The error carries the column's name, its tag and the candidate. |
| BaseCaster.FalsyCandidateNotValidated | src/Support/Casters/BaseCaster.php:62-66 | A null or falsy candidate is returned without validation. |
| BaseCaster.HandleColumnIsMapperResult | src/Support/Casters/BaseCaster.php:57-67 | With the base TypeMapper class, the result is the types-map resolution of the column, or the `invalidCastType` error when that is truthy and invalid. |
| BaseCaster.ParameterIgnored | src/Support/Casters/BaseCaster.php:96-98 | A cast `p:param` is valid exactly when `p` is, whatever the parameter. |
| BaseCaster.ValidWithoutClasses | src/Support/Casters/BaseCaster.php:99-105 | When no class capability and no enum claims the prefix, a cast is valid exactly when its prefix is a built-in keyword. |
| BaseCaster.KeywordsValid | src/Support/Casters/BaseCaster.php:115-118 | A parameter-free built-in keyword is valid on its own and with any parameter, whatever reflection reports. |
| BaseCaster.Outcome | src/Support/Casters/BaseCaster.php:37-47 | An ineligible column contributes nothing, and any value a column does contribute is truthy. |
| BaseCaster.HandleColumnsSucceeds | src/Support/Casters/BaseCaster.php:35-52 | `handleColumns` succeeds exactly when no eligible column's `handle` fails. |
| BaseCaster.HandleColumnsFirstFailure | src/Support/Casters/BaseCaster.php:35-52 | On failure, the error is the one from the first column in order whose outcome fails. |
| BaseCaster.HandleColumnsCollects | src/Support/Casters/BaseCaster.php:35-52 | With distinct column names, the result is the reference list of eligible columns with truthy results, in column order, keyed by name. |
| BaseCaster.CollectedEntries | src/Support/Casters/BaseCaster.php:44-48 | Every collected entry has a truthy value, and comes from an eligible column of that name whose `handle` produced it. |
| BaseCaster.FilterThenHandle | src/Support/Casters/BaseCaster.php:37-40 | Filtering on eligibility inside the fold equals running the always-eligible caster over the eligible columns. |
| BaseCaster.InvalidMapperIsLazy | src/Support/Casters/BaseCaster.php:82-88 | With an unusable mapper, a `handleColumn` caster fails with `invalidTypeMapper` exactly when some column is eligible. Otherwise it returns `[]`. |
| DefaultCaster.Strategy | src/Support/Casters/DefaultCaster.php:18-27 | A column is handled exactly when its tag is not ASCII_STRING, STRING or TEXT and its name is neither model timestamp name. Handling is `handleColumn`. |
| DefaultCaster.HandleIsHandleColumn | src/Support/Casters/DefaultCaster.php:13-16 | `handle` is `handleColumn` for every model. |
| DefaultCaster.ExclusionByTagNotByCast | src/Support/Casters/DefaultCaster.php:29-36 | BINARY, TIME, GUID and BLOB columns are handled even though `defaults()` maps them to `string`. |
| DefaultCaster.ExcludedNeverHandled | src/Support/Casters/DefaultCaster.php:38-44 | A string-like column, or one named like a default timestamp, never appears in the output. |
| DefaultCaster.IsAlwaysEligibleOnFiltered | src/Support/Casters/DefaultCaster.php:18-27 | The output equals the always-eligible caster's output over the columns that are neither string-like nor default timestamps. |
| Casts.New | src/Support/Casts.php:36-50 | Null arrays become `[]`, and falsy class names become TypeMapper and DefaultCaster. Everything else is kept, so both class names are always truthy. |
| Casts.NewDefaults | src/Support/Casts.php:36-50 | `new()` with no arguments is `([], [], TypeMapper, DefaultCaster, [])`. |
| Casts.NewIdempotent | src/Support/Casts.php:36-50 | Rebuilding an instance from its own fields changes nothing. |
| Casts.DiscoverModelsUsing | src/Support/Casts.php:99-111 | It stores exactly the keys `directory`, `basePath` and `baseNamespace` with the given values. Every other field is unchanged. |
| Casts.UseTypeMapper | src/Support/Casts.php:118-123 | It replaces the type mapper and nothing else. |
| Casts.UseDefaultCaster | src/Support/Casts.php:130-135 | It replaces the default caster and nothing else. |
| Casts.WithDefaultTypesMap | src/Support/Casts.php:152-157 | It replaces the default types map and nothing else. |
| Casts.WithCustomCasters | src/Support/Casts.php:168-173 | It replaces the custom casters and nothing else. |
| Casts.SettersCommute | src/Support/Casts.php:99-173 | Any two calls of the five fluent setters (`discoverModelsUsing`, `useTypeMapper`, `useDefaultCaster`, `withDefaultTypesMap`, `withCustomCasters`) commute when they set different fields; of two calls of the same setter, the second wins. |
| Casts.CasterFor | src/Support/Casts.php:200-200 | A model keyed in the custom casters gets that caster. Any other model gets the default caster. |
| Casts.CastersAssigns | src/Support/Casts.php:195-210 | The assignment succeeds exactly when every discovered model's caster strictly extends BaseCaster. It then holds each discovered model once, and only those, mapped to its caster. |
| Casts.CastersFirstFailure | src/Support/Casts.php:202-204 | Otherwise it fails with `invalidCaster` of the first model's unusable caster, in discovery order. |
| Casts.BaseCasterRejected | src/Support/Casts.php:202-204 | BaseCaster itself is rejected: the subclass check is strict. |
| Casts.CastersOrder | src/Support/Casts.php:195-210 | With distinct models, the assignment's keys are the models in discovery order. |
| Casts.CasterInstanceResolves | src/Support/Casts.php:279-283 | A caster built by `performCasting` fails with `invalidTypeMapper` exactly when the configured class is neither TypeMapper nor a subclass of it. With TypeMapper, a column resolves through the configured default types map. A DefaultCaster's `handle` is `handleColumn` for every model. |
| Casts.AllPerModel | src/Support/Casts.php:271-287 | `all()` keys exactly the discovered models. Each maps to its assigned caster's `handleColumns` over the columns of its table and connection. |
| Casts.PerformCastingOrder | src/Support/Casts.php:271-287 | When no caster key is already in the accumulator, the accumulated result lists the accumulator's keys and then the casters' keys, in that order. |
| Casts.AllOrder | src/Support/Casts.php:220-226 | When discovery lists each model once, `all()`, and the published `casts` object, key the models in discovery order. |
| Casts.UndiscoveredCustomCastersIgnored | src/Support/Casts.php:195-210 | Custom-caster entries for models that were not discovered do not change `all()`. |
| Casts.EmptyTypesMapMeansDefaults | src/Support/Casts.php:280-280 | With the base TypeMapper class and an empty default types map, every column resolves through `defaults()`. |
| Casts.ToArray | src/Support/Casts.php:231-241 | It succeeds exactly when `all()` does, and then has exactly the six manifest keys, in order. |
| Casts.ManifestEntries | src/Support/Casts.php:231-241 | The manifest echoes every configuration field verbatim, custom casters of undiscovered models included, next to the computed casts. |
| Casts.DecodeStringsJson | src/Support/Casts.php:231-241 | Decoding a published column map gives back the column map. |
| Casts.ToJsonRoundTrip | src/Support/Casts.php:248-265 | It succeeds exactly when `toArray()` does and the encoding is present and truthy. Then, for any decoder that inverts the encoder, the JSON decodes back to `toArray()`. |
| Casts.ForAfterPublish | src/Support/Casts.php:55-88 | Once a manifest is published, `for` returns each discovered model's computed casts, and `[]` for any other model. This holds whether the model is named by class or by instance. |
| Casts.ForColumnAfterPublish | src/Support/Casts.php:75-82 | Once a manifest is published, `forColumn` returns the computed cast of that column, reduced to its name, or `null` for an unknown model or column. |
| Casts.UnknownModel | src/Support/Casts.php:84-88 | Without a manifest entry, `for` gives `[]` and `forColumn` gives `null`. |
| HasAutoCasting.GetAutoCastsAfterPublish | src/Concerns/HasAutoCasting.php:22-25 | Once `toArray()` is the configuration, a model receives the casts computed for its class, which decode back to that column map. It receives `[]` when its class was not discovered. |
| HasAutoCasting.MergeGet | src/Concerns/HasAutoCasting.php:33-36 | On a key both sides have, the declared cast wins. Any other key keeps the value of the side that has it. |
| HasAutoCasting.MergeKeys | src/Concerns/HasAutoCasting.php:33-36 | The merged keys are the union of the auto keys and the declared keys. |
| HasAutoCasting.MergeOrder | src/Concerns/HasAutoCasting.php:33-36 | The key order is the auto keys in their order, then the keys only the model declares. No key is repeated. |
| HasAutoCasting.NothingPublishedKeepsDeclared | src/Concerns/HasAutoCasting.php:33-36 | A model with no published casts keeps exactly its declared casts. |
| HasAutoCasting.MergeIdempotent | src/Concerns/HasAutoCasting.php:14-17 | Merging the same auto casts a second time changes nothing. |
| HasAutoCasting.InitializeHasAutoCasting | src/Concerns/HasAutoCasting.php:14-17 | Initialisation replaces only the model's casts. |
| HasAutoCasting.InitializedCasts | src/Concerns/HasAutoCasting.php:14-36 | After publishing, each column of a new model has its declared cast if it declares one, and otherwise the cast its caster computed. |

## Left out

- Model discovery (`ModelsFinder::find`), column introspection (`Inspect::columns`) and model instantiation are file system and database I/O. They are the `Runtime.Env` parameter.
- `is_subclass_of`, `enum_exists` and instantiating classes by name are PHP reflection. They are the `Runtime.Classes` parameter, except for the package's own TypeMapper, BaseCaster and DefaultCaster.
- `DoctrineTypeEnum` and `DoctrineTypeEnum::fromString` belong to the external inspect-db package, which is not part of this model.
  - A column carries its storage tag directly.
  - The key strings of the tags (`ascii_string`, `bigint`, …, `unknown`) are taken to be Doctrine's type names.
- `json_encode` and its flags are left out: `Casts.ToJson` takes the encoder as a parameter. `jsonSerialize()` and `__toString()` are the same calls as `toArray()` and `toJson()`, so they have no members of their own.
- The global `config()` read in `forModelFqcn` becomes an explicit configuration argument. Dotted-path lookup is modelled only for the `casts.<model>` path, assuming a class name holds no `.`.
- Exception message wording is left out. Each error keeps only the data its message is built from.
- PHP's conversion of numeric-string keys to integers is not modelled. Every key is a string, which suits class names, column names and storage-type names.
- Values a PHP type declaration would reject are not modelled (a non-array manifest entry, a non-string cast). The model reads such values as "absent".
- Casts.ForColumn: a manifest value that is not a string reads as `null`. PHP raises a TypeError instead, since `forColumn` is declared `?string` under strict types. Published manifests only hold strings.
- Subclass hooks of a custom TypeMapper are an arbitrary per-tag function. The model states that a hook's result is the candidate and that a subclass with no hook behaves as the base class; it does not characterise particular subclasses.
- Overrides of BaseCaster's protected methods are not modelled. A caster subclass is its eligibility rule and its `handle`, which receives what `handleColumn` gives for the instance. Overridden `getTypeMapper`, `getTypesMap`, `getSupportedCastTypes`, `isValidCastType`, `handleInvalidCastType`, `getColumnName` and `getColumnDoctrineTypeEnum` are fixed to the base behaviour, because each would add another reflection parameter for behaviour the package's own classes never change.
- Casts.SettersCommute: the setters are modelled as pure updates that return the new configuration. PHP changes the object and returns it. This agrees with the fluent chain in config/auto-model-cast.php, which uses each setter's result. A call whose result is discarded, but whose object is used later, is not modelled.
- Casts.CasterFor: a custom-caster entry holding `null` is not modelled; PHP's `??` falls back to the default caster for it. `withCustomCasters` is documented to take class-name strings, so the model's entries are strings.
- Runtime value casting (dates, floats and the like, applied by Eloquent once the casts are set) is out of scope.
