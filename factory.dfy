/**
 * ParameterizedObjectFactory from dune/common/parameterizedobject.hh: a
 * registry from keys to creator functions.  A creator is an opaque tag (the
 * implementation type it constructs); creating an object is modelled as the
 * record of which creator was called with which constructor arguments.
 */
module ParameterizedObjects {
  import opened Wrappers

  /** The object a creator builds from the constructor arguments. */
  datatype Created<C, A> = Created(creator: C, args: A)

  datatype FactoryError = InvalidStateException

  /** The result of create(key, args...) against a given registry. */
  function CreateFrom<K, C, A>(registry: map<K, C>, key: K, args: A): (r: Result<Created<C, A>, FactoryError>)
    ensures r.Failure? <==> key !in registry
    ensures r.Success? ==> r.value == Created(registry[key], args)
  {
    if key !in registry then Failure(InvalidStateException) else Success(Created(registry[key], args))
  }

  class ParameterizedObjectFactory<K(==), C, A> {
    var registry: map<K, C>

    constructor ()
      ensures registry == map[]
    {
      registry := map[];
    }

    /** create(key, args...): throws when the key was never defined. */
    method Create(key: K, args: A) returns (r: Result<Created<C, A>, FactoryError>)
      ensures key !in registry ==> r == Failure(InvalidStateException)
      ensures key in registry ==> r == Success(Created(registry[key], args))
    {
      if key !in registry {
        r := Failure(InvalidStateException);
      } else {
        r := Success(Created(registry[key], args));
      }
    }

    /** define<Impl>(key): `registry_[key] = create_func<Impl>`, overwriting. */
    method Define(key: K, impl: C)
      modifies this
      ensures registry == old(registry)[key := impl]
    {
      registry := registry[key := impl];
    }
  }

  /** After define(key, impl), create(key, ...) calls impl's creator. */
  lemma CreateAfterDefine<K, C, A>(registry: map<K, C>, key: K, impl: C, args: A)
    ensures CreateFrom(registry[key := impl], key, args) == Success(Created(impl, args))
  {
  }

  /** define(key, ...) leaves what every other key creates unchanged. */
  lemma DefineKeepsOtherKeys<K, C, A>(registry: map<K, C>, key: K, impl: C, other: K, args: A)
    requires other != key
    ensures CreateFrom(registry[key := impl], other, args) == CreateFrom(registry, other, args)
  {
  }

  /** A key never defined in a fresh factory cannot be created. */
  method CreateUndefined<K(==), C, A>(key: K, args: A) returns (r: Result<Created<C, A>, FactoryError>)
    ensures r == Failure(InvalidStateException)
  {
    var factory := new ParameterizedObjectFactory<K, C, A>();
    r := factory.Create(key, args);
  }

  /**
   * Defining the same key twice keeps the second creator, and create leaves
   * the registry as it was.
   */
  method RedefineThenCreate<K(==), C(==), A>(key: K, first: C, second: C, args: A)
    returns (r: Result<Created<C, A>, FactoryError>, registryUnchanged: bool)
    ensures r == Success(Created(second, args))
    ensures registryUnchanged
  {
    var factory := new ParameterizedObjectFactory<K, C, A>();
    factory.Define(key, first);
    factory.Define(key, second);
    var before := factory.registry;
    r := factory.Create(key, args);
    registryUnchanged := factory.registry == before;
  }
}
