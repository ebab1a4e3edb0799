/**
 * RegularCompositeInvocationHandler: the invocation handler of a composite
 * proxy, routing each call to the mixin that implements the method's
 * declaring type, with a per-handler cache of mixins keyed by type.
 */
module CompositeInvocation {
  import opened Wrappers
  import opened JavaLang

  /**
   * A map from mixin type to mixin. `concurrent` records whether the object is
   * a ConcurrentHashMap, which decides whether setMixins may adopt it.
   */
  class MixinMap {
    const concurrent: bool
    var entries: map<ClassName, ObjectRef>

    constructor (concurrent: bool, entries: map<ClassName, ObjectRef>)
      ensures this.concurrent == concurrent && this.entries == entries
    {
      this.concurrent := concurrent;
      this.entries := entries;
    }

    /** Map.put. */
    method Put(key: ClassName, value: ObjectRef)
      modifies this
      ensures entries == old(entries)[key := value]
    {
      entries := entries[key := value];
    }
  }

  /** Where invoke sends a call. */
  datatype Invocation =
      /** context.getInvocationInstance(method).invoke(composite, method, args, mixin, mixinType) */
    | Delegated(composite: ObjectRef, meth: MethodRef, args: seq<ObjectRef>, mixin: ObjectRef, mixinType: ClassName)
      /** invokeObject(composite, method, args) */
    | ObjectMethod(composite: ObjectRef, meth: MethodRef, args: seq<ObjectRef>)
      /** InvalidCompositeException(message, compositeClass) is thrown */
    | ImplementationMissing(message: string, compositeClass: ClassName)

  /** The message of the exception invoke throws when a type has no mixin. */
  function MissingMessage(mixinType: ClassName, compositeClass: ClassName): (message: string)
  {
    "Implementation missing for " + mixinType.name + " in " + compositeClass.name
  }

  class RegularCompositeInvocationHandler {
    /** context.getCompositeModel().getCompositeClass() */
    const compositeClass: ClassName
    var mixins: MixinMap

    /** A new handler starts with an empty cache of its own. */
    constructor (compositeClass: ClassName)
      ensures this.compositeClass == compositeClass
      ensures fresh(mixins) && mixins.concurrent && mixins.entries == map[]
    {
      this.compositeClass := compositeClass;
      mixins := new MixinMap(true, map[]);
    }

    /**
     * getMixin: the cached mixin for the type, or else, for any type but
     * Object, the one initializeMixin yields (`initialize`, possibly null).
     */
    function GetMixin(mixinType: ClassName, proxy: ObjectRef, initialize: (ClassName, ObjectRef) -> Option<ObjectRef>): (mixin: Option<ObjectRef>)
      reads this, mixins
    {
      if mixinType in mixins.entries then Some(mixins.entries[mixinType])
      else if mixinType == ObjectClass then None
      else initialize(mixinType, proxy)
    }

    /** invoke: route a call on `composite` by the declaring class of `method`. */
    function Invoke(composite: ObjectRef, meth: MethodRef, args: seq<ObjectRef>,
                    initialize: (ClassName, ObjectRef) -> Option<ObjectRef>): (call: Invocation)
      reads this, mixins
    {
      var mixinType := meth.declaringClass;
      match GetMixin(mixinType, composite, initialize)
      case Some(mixin) => Delegated(composite, meth, args, mixin, mixinType)
      case None =>
        if mixinType == ObjectClass then ObjectMethod(composite, meth, args)
        else ImplementationMissing(MissingMessage(mixinType, compositeClass), compositeClass)
    }

    /** getMixins: the cache object itself, not a copy. */
    method GetMixins() returns (m: MixinMap)
      ensures m == mixins
    {
      m := mixins;
    }

    /**
     * setMixins: with `keep` and a concurrent map, adopt `m` itself; otherwise
     * install a fresh concurrent map holding exactly `m`'s entries.
     */
    method SetMixins(m: MixinMap, keep: bool)
      modifies this
      ensures keep && m.concurrent ==> mixins == m
      ensures !(keep && m.concurrent) ==> fresh(mixins) && mixins.concurrent && mixins.entries == m.entries
    {
      if keep && m.concurrent {
        mixins := m;
      } else {
        mixins := new MixinMap(true, map[]);
        mixins.entries := m.entries;   // putAll into the empty map
      }
    }

    /** putMixin: set the entry for one type, every other entry unchanged. */
    method PutMixin(mixinType: ClassName, value: ObjectRef)
      modifies mixins
      ensures mixins.entries == old(mixins.entries)[mixinType := value]
      ensures forall t :: t != mixinType && t in old(mixins.entries) ==> t in mixins.entries && mixins.entries[t] == old(mixins.entries)[t]
      ensures mixins.entries.Keys == old(mixins.entries).Keys + {mixinType}
    {
      mixins.Put(mixinType, value);
    }
  }

  /**
   * A cached mixin is returned as is and initializeMixin is not consulted:
   * any two initializers give the same result.
   */
  lemma CachedMixinIgnoresInitializer(h: RegularCompositeInvocationHandler, mixinType: ClassName, proxy: ObjectRef,
                                      init1: (ClassName, ObjectRef) -> Option<ObjectRef>, init2: (ClassName, ObjectRef) -> Option<ObjectRef>)
    requires mixinType in h.mixins.entries
    ensures h.GetMixin(mixinType, proxy, init1) == h.GetMixin(mixinType, proxy, init2) == Some(h.mixins.entries[mixinType])
  {
  }

  /**
   * No mixin is ever initialized for Object: its lookup depends on the cache
   * alone, and without an entry it is null.
   */
  lemma ObjectMixinNeverInitialized(h: RegularCompositeInvocationHandler, proxy: ObjectRef,
                                    init1: (ClassName, ObjectRef) -> Option<ObjectRef>, init2: (ClassName, ObjectRef) -> Option<ObjectRef>)
    ensures h.GetMixin(ObjectClass, proxy, init1) == h.GetMixin(ObjectClass, proxy, init2)
    ensures ObjectClass !in h.mixins.entries ==> h.GetMixin(ObjectClass, proxy, init1).None?
  {
  }

  /**
   * Without a cached entry, any type but Object gets exactly what
   * initializeMixin yields for it and the proxy (possibly null).
   */
  lemma UncachedMixinInitialized(h: RegularCompositeInvocationHandler, mixinType: ClassName, proxy: ObjectRef,
                                 initialize: (ClassName, ObjectRef) -> Option<ObjectRef>)
    requires mixinType !in h.mixins.entries && mixinType != ObjectClass
    ensures h.GetMixin(mixinType, proxy, initialize) == initialize(mixinType, proxy)
  {
  }

  /**
   * How invoke routes: a found mixin, cached or just initialized, receives the
   * call with the same composite, method, arguments and mixin type; Object
   * methods never fail; the
   * "Implementation missing" failure happens exactly for a non-Object type with
   * no cached mixin for which initialization yields none.
   */
  lemma InvokeRouting(h: RegularCompositeInvocationHandler, composite: ObjectRef, meth: MethodRef, args: seq<ObjectRef>,
                      initialize: (ClassName, ObjectRef) -> Option<ObjectRef>)
    ensures var r := h.Invoke(composite, meth, args, initialize);
            && (r.Delegated? ==> r == Delegated(composite, meth, args, h.GetMixin(meth.declaringClass, composite, initialize).value, meth.declaringClass))
            && (h.GetMixin(meth.declaringClass, composite, initialize).Some? ==>
                  r == Delegated(composite, meth, args, h.GetMixin(meth.declaringClass, composite, initialize).value, meth.declaringClass))
            && (meth.declaringClass !in h.mixins.entries && meth.declaringClass != ObjectClass &&
                initialize(meth.declaringClass, composite).Some? ==>
                  r == Delegated(composite, meth, args, initialize(meth.declaringClass, composite).value, meth.declaringClass))
            && (meth.declaringClass in h.mixins.entries ==> r == Delegated(composite, meth, args, h.mixins.entries[meth.declaringClass], meth.declaringClass))
            && (meth.declaringClass == ObjectClass ==> !r.ImplementationMissing?)
            && (meth.declaringClass == ObjectClass && ObjectClass !in h.mixins.entries ==> r == ObjectMethod(composite, meth, args))
            && (r.ImplementationMissing? <==>
                  meth.declaringClass !in h.mixins.entries && meth.declaringClass != ObjectClass &&
                  initialize(meth.declaringClass, composite).None?)
            && (r.ImplementationMissing? ==>
                  r.compositeClass == h.compositeClass &&
                  r.message == "Implementation missing for " + meth.declaringClass.name + " in " + h.compositeClass.name)
  {
  }

  /**
   * setMixins(m, true) with a concurrent map shares it: a later putMixin on the
   * handler is seen through m.
   */
  method PutThroughAdoptedMap(compositeClass: ClassName, entries: map<ClassName, ObjectRef>, t: ClassName, v: ObjectRef)
    returns (seenByCaller: map<ClassName, ObjectRef>, seenByHandler: map<ClassName, ObjectRef>)
    ensures seenByCaller == seenByHandler == entries[t := v]
  {
    var h := new RegularCompositeInvocationHandler(compositeClass);
    var m := new MixinMap(true, entries);
    h.SetMixins(m, true);
    h.PutMixin(t, v);
    seenByCaller := m.entries;
    seenByHandler := h.mixins.entries;
  }

  /**
   * setMixins otherwise copies: puts on the caller's map and on the handler's
   * cache afterwards are not seen by the other side.
   */
  method PutAfterCopy(compositeClass: ClassName, concurrent: bool, keep: bool, entries: map<ClassName, ObjectRef>,
                      t1: ClassName, v1: ObjectRef, t2: ClassName, v2: ObjectRef)
    returns (seenByCaller: map<ClassName, ObjectRef>, seenByHandler: map<ClassName, ObjectRef>)
    requires !(keep && concurrent)
    ensures seenByCaller == entries[t1 := v1]
    ensures seenByHandler == entries[t2 := v2]
  {
    var h := new RegularCompositeInvocationHandler(compositeClass);
    var m := new MixinMap(concurrent, entries);
    h.SetMixins(m, keep);
    m.Put(t1, v1);
    h.PutMixin(t2, v2);
    seenByCaller := m.entries;
    seenByHandler := h.mixins.entries;
  }
}
