/**
 * `HasAutoCasting`: the model trait that reads the published casts of its
 * class and merges them under the casts the model declares itself.
 */
module HasAutoCasting {
  import opened Wrappers
  import opened PhpArray
  import opened Runtime
  import Casts

  /** The part of a model instance the trait touches: its class and its `$casts`. */
  datatype Model = Model(fqcn: string, casts: Arr<Casts.Json>)

  /**
   * `getAutoCasts()`: `Casts::forModel($this)`, the published entry for the
   * model's class; asking with the instance or with its class name is the same.
   */
  function GetAutoCasts(config: Casts.Json, model: Model): (r: Arr<Casts.Json>)
    ensures r == Casts.For(config, Casts.ModelClass(model.fqcn))
  {
    Casts.For(config, Casts.ModelInstance(model.fqcn))
  }

  /**
   * Once `toArray()` is the configuration, a model receives the casts its
   * caster computed for its class, which decode back to that column map, and
   * `[]` when its class was not discovered.
   */
  lemma GetAutoCastsAfterPublish(c: Casts.Casts, cls: Classes, env: Env, model: Model)
    requires Casts.All(c, cls, env).Success?
    ensures var auto := GetAutoCasts(Casts.ToArray(c, cls, env).value, model);
      var computed := Get(Casts.All(c, cls, env).value, model.fqcn);
      && (computed.Some? ==> Casts.DecodeStrings(auto) == computed)
      && (computed.None? ==> auto == [])
  {
    Casts.ForAfterPublish(c, cls, env, Casts.ModelInstance(model.fqcn));
    var computed := Get(Casts.All(c, cls, env).value, model.fqcn);
    if computed.Some? {
      Casts.DecodeStringsJson(computed.value);
    }
  }

  /** `[...$auto, ...$declared]`. */
  function MergeAutoCastsIntoCasts<V>(auto: Arr<V>, declared: Arr<V>): Arr<V> {
    Spread(auto, declared)
  }

  /** `initializeHasAutoCasting()`: the one merge performed when the model is created. */
  function InitializeHasAutoCasting(config: Casts.Json, model: Model): (r: Model)
    ensures r.fqcn == model.fqcn
  {
    model.(casts := MergeAutoCastsIntoCasts(GetAutoCasts(config, model), model.casts))
  }

  /** On a key both sides have, the declared cast wins; elsewhere the key keeps the side it came from. */
  lemma MergeGet<V>(auto: Arr<V>, declared: Arr<V>, k: string)
    requires UniqueKeys(declared)
    ensures HasKey(declared, k) ==> Get(MergeAutoCastsIntoCasts(auto, declared), k) == Get(declared, k)
    ensures !HasKey(declared, k) ==> Get(MergeAutoCastsIntoCasts(auto, declared), k) == Get(auto, k)
  {
    SpreadGet(auto, declared, k);
  }

  /** The merged keys are the union of both sides' keys. */
  lemma MergeKeys<V>(auto: Arr<V>, declared: Arr<V>)
    requires UniqueKeys(declared)
    ensures forall k :: HasKey(MergeAutoCastsIntoCasts(auto, declared), k) <==> HasKey(auto, k) || HasKey(declared, k)
  {
    forall k
      ensures HasKey(MergeAutoCastsIntoCasts(auto, declared), k) <==> HasKey(auto, k) || HasKey(declared, k)
    {
      SpreadGet(auto, declared, k);
    }
  }

  /** Key order: the auto keys in their order, then the keys only the model declares. */
  lemma MergeOrder<V>(auto: Arr<V>, declared: Arr<V>)
    requires UniqueKeys(auto) && UniqueKeys(declared)
    ensures Keys(MergeAutoCastsIntoCasts(auto, declared)) == Keys(auto) + KeysNotIn(Keys(declared), Keys(auto))
    ensures UniqueKeys(MergeAutoCastsIntoCasts(auto, declared))
  {
    SpreadKeys(auto, declared);
    SpreadUnique(auto, declared);
  }

  /** Merging the same auto casts again changes nothing: repeating the merge is harmless. */
  lemma MergeIdempotent<V>(auto: Arr<V>, declared: Arr<V>)
    requires UniqueKeys(auto) && UniqueKeys(declared)
    ensures var m := MergeAutoCastsIntoCasts(auto, declared);
      MergeAutoCastsIntoCasts(auto, m) == m
  {
    var m := MergeAutoCastsIntoCasts(auto, declared);
    var mm := MergeAutoCastsIntoCasts(auto, m);
    MergeOrder(auto, declared);
    MergeOrder(auto, m);
    var ka := Keys(auto);
    var rest := KeysNotIn(Keys(declared), ka);
    forall k | k in ka
      ensures k in ka
    {
    }
    KeysNotInSkip(ka, rest, ka);
    KeysNotInIdempotent(Keys(declared), ka);
    assert Keys(mm) == Keys(m);
    forall k
      ensures Get(mm, k) == Get(m, k)
    {
      SpreadGet(auto, m, k);
      SpreadGet(auto, declared, k);
    }
    Extensionality(mm, m);
  }

  /** A model with no published entry keeps exactly the casts it declares. */
  lemma NothingPublishedKeepsDeclared(declared: Arr<Casts.Json>)
    requires UniqueKeys(declared)
    ensures MergeAutoCastsIntoCasts([], declared) == declared
  {
    var m := MergeAutoCastsIntoCasts([], declared);
    SpreadKeys([], declared);
    KeysNotInNothing(Keys(declared));
    assert Keys(m) == Keys(declared);
    SpreadUnique([], declared);
    forall k
      ensures Get(m, k) == Get(declared, k)
    {
      SpreadGet([], declared, k);
    }
    Extensionality(m, declared);
  }

  /**
   * After `toArray()` is published as the configuration, a freshly created
   * model carries, for each column, its declared cast when it declares one
   * and otherwise the cast its caster computed.
   */
  lemma InitializedCasts(c: Casts.Casts, cls: Classes, env: Env, model: Model, column: string)
    requires Casts.All(c, cls, env).Success?
    requires UniqueKeys(model.casts)
    ensures var config := Casts.ToArray(c, cls, env).value;
      var merged := InitializeHasAutoCasting(config, model).casts;
      Get(merged, column) ==
        if HasKey(model.casts, column) then Get(model.casts, column)
        else match Get(Casts.All(c, cls, env).value, model.fqcn)
             case Some(columns) => (match Get(columns, column) case Some(s) => Some(Casts.JString(s)) case None => None)
             case None => None
  {
    var config := Casts.ToArray(c, cls, env).value;
    var auto := GetAutoCasts(config, model);
    Casts.ForAfterPublish(c, cls, env, Casts.ModelInstance(model.fqcn));
    MergeGet(auto, model.casts, column);
    match Get(Casts.All(c, cls, env).value, model.fqcn)
    case Some(columns) =>
      MapValuesGet(columns, (s: string) => Casts.JString(s), column);
    case None =>
  }
}
