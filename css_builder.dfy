/**
 * CssBuilder: the factory of class lists. A process-wide registry gives each
 * options object its own cache; a builder binds the cache of its own options
 * as its default.
 */
module CssBuilders {
  import opened Wrappers
  import opened Caching
  import opened Options
  import opened ClassListSpec
  import opened ClassLists

  /** The static _caches dictionary: one cache per options object, compared by reference. */
  class CacheRegistry {
    var caches: map<CssBuilderOptions, ThreadsafeCssBuilderCache>

    /** Distinct options objects have distinct caches, and every cache holds extractors that fit their types. */
    ghost predicate Valid()
      reads this, caches.Values
    {
      && (forall a, b :: a in caches && b in caches && a != b ==> caches[a] != caches[b])
      && (forall options :: options in caches ==> ExtractorsValid(caches[options].cssExtractors))
    }

    constructor()
      ensures caches == map[] && Valid()
    {
      caches := map[];
    }

    /**
     * _caches.GetOrAdd(options, CreateCacheForOptions): the options' cache,
     * created empty on first use; existing entries never change.
     */
    method GetOrAdd(options: CssBuilderOptions) returns (cache: ThreadsafeCssBuilderCache)
      requires Valid()
      modifies this
      ensures Valid()
      ensures options in old(caches) ==> caches == old(caches) && cache == caches[options]
      ensures options !in old(caches) ==> fresh(cache) && caches == old(caches)[options := cache]
      ensures options !in old(caches) ==> cache.cssExtractors == map[] && cache.enumName == map[]
    {
      if options in caches {
        cache := caches[options];
      } else {
        cache := new ThreadsafeCssBuilderCache();
        caches := caches[options := cache];
      }
    }
  }

  /** Whether a class list can be constructed with `options`: both converters set. */
  predicate Usable(options: CssBuilderOptions)
    reads options
  {
    options.enumToClassNameConverter.Some? && options.propertyToClassNameConverter.Some?
  }

  class CssBuilder {
    /** _options */
    const options: CssBuilderOptions
    /** _defaultCache */
    const defaultCache: ThreadsafeCssBuilderCache
    /** The static _caches, shared by every builder. */
    const registry: CacheRegistry

    /** The default cache is the registry's cache for the builder's options. */
    ghost predicate Valid()
      reads this, registry, registry.caches.Values
    {
      registry.Valid() && options in registry.caches && registry.caches[options] == defaultCache
    }

    /** The constructor for non-null options: the default cache is taken from, or added to, the registry. */
    constructor Init(options: CssBuilderOptions, registry: CacheRegistry)
      requires registry.Valid()
      modifies registry
      ensures this.options == options && this.registry == registry && Valid()
      ensures options in old(registry.caches) ==> registry.caches == old(registry.caches)
      ensures options !in old(registry.caches) ==> registry.caches == old(registry.caches)[options := defaultCache] && fresh(defaultCache)
    {
      this.options := options;
      this.registry := registry;
      var cache := registry.GetOrAdd(options);
      defaultCache := cache;
    }

    /** CssBuilder(options): null options throw ArgumentNullException. */
    static method New(options: CssBuilderOptions?, registry: CacheRegistry) returns (r: Result<CssBuilder, Error>)
      requires registry.Valid()
      modifies registry
      ensures registry.Valid()
      ensures options == null ==> r == Failure(ArgumentNull("options")) && registry.caches == old(registry.caches)
      ensures options != null ==> r.Success? && fresh(r.value) && r.value.options == options && r.value.registry == registry && r.value.Valid()
    {
      if options == null {
        return Failure(ArgumentNull("options"));
      }
      var builder := new CssBuilder.Init(options, registry);
      r := Success(builder);
    }

    /**
     * Create(options): a new, empty list with the given options and their
     * registry cache, or, for null, with the builder's options and default
     * cache. The list's constructor rejects options whose converters are null.
     */
    method Create(o: CssBuilderOptions?) returns (r: Result<CssClassList, Error>)
      requires Valid()
      modifies registry
      ensures Valid()
      ensures o == null ==> registry.caches == old(registry.caches)
      ensures forall k :: k in old(registry.caches) ==> k in registry.caches && registry.caches[k] == old(registry.caches)[k]
      ensures o != null ==> o in registry.caches && registry.caches.Keys == old(registry.caches).Keys + {o}
      ensures r.Success? <==> Usable(if o == null then options else o)
      ensures r.Success? ==> && fresh(r.value) && r.value.classes == [] && r.value.Valid()
                             && r.value.options == (if o == null then options else o)
                             && r.value.cache == (if o == null then defaultCache else registry.caches[o])
    {
      var cache := defaultCache;
      if o != null {
        cache := registry.GetOrAdd(o);
      }
      r := CssClassList.New(if o != null then o else options, cache);
    }

    /** this[params object[] arguments]: Create() followed by AddMultiple(arguments). */
    method Index(arguments: seq<CssInput>) returns (r: Result<CssClassList, Error>, outcome: Outcome<Error>)
      requires Valid() && forall i :: 0 <= i < |arguments| ==> InputOk(arguments[i])
      modifies registry, defaultCache
      ensures Valid() && registry.caches == old(registry.caches)
      ensures r.Success? <==> Usable(options)
      ensures r.Success? ==> && fresh(r.value) && r.value.options == options && r.value.cache == defaultCache
                             && (r.value.State(), outcome)
                                == ApplyAll(options.Settings(), CssState([], old(defaultCache.cssExtractors), old(defaultCache.enumName)), arguments)
    {
      r := Create(null);
      outcome := Pass;
      if r.Success? {
        outcome := r.value.AddMultiple(arguments);
      }
    }
  }
}
