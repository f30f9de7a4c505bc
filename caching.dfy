/**
 * The builders' caches: ConcurrentDictionary.GetOrAdd and Clear, with the
 * concurrency abstracted away to a sequential map.
 */
module Caching {
  import opened Wrappers
  import opened Reflection

  /**
   * GetOrAdd(key, create) on `m`, where `created` is what create(key) would
   * give: the stored value on a hit (create unused); on a miss the created
   * value is stored and returned, and a factory that throws stores nothing.
   */
  function MapGetOrAdd<K, V, E>(m: map<K, V>, key: K, created: Result<V, E>): (map<K, V>, Result<V, E>) {
    if key in m then (m, Success(m[key]))
    else if created.Success? then (m[key := created.value], created)
    else (m, created)
  }

  /** A hit returns the stored value and changes nothing, whatever the factory would do. */
  lemma GetOrAddHit<K, V, E>(m: map<K, V>, key: K, created: Result<V, E>)
    requires key in m
    ensures MapGetOrAdd(m, key, created) == (m, Success(m[key]))
  {
  }

  /** A miss stores and returns the created value, or stores nothing when the factory throws. */
  lemma GetOrAddMiss<K, V, E>(m: map<K, V>, key: K, created: Result<V, E>)
    requires key !in m
    ensures created.Success? ==> MapGetOrAdd(m, key, created) == (m[key := created.value], created)
    ensures created.Failure? ==> MapGetOrAdd(m, key, created) == (m, created)
  {
  }

  /** Keys other than the one looked up keep their values, and no key is lost. */
  lemma GetOrAddFrame<K, V, E>(m: map<K, V>, key: K, created: Result<V, E>)
    ensures m.Keys <= MapGetOrAdd(m, key, created).0.Keys <= m.Keys + {key}
    ensures forall k :: k in m ==> MapGetOrAdd(m, key, created).0[k] == m[k]
  {
  }

  /**
   * Repeated lookups are stable: once a key is stored, a second GetOrAdd
   * returns the same value and changes nothing, even with a different
   * factory (a converter changed in between has no effect on cached keys).
   */
  lemma GetOrAddStable<K, V, E>(m: map<K, V>, key: K, created: Result<V, E>, createdLater: Result<V, E>)
    requires MapGetOrAdd(m, key, created).1.Success?
    ensures var (m', r) := MapGetOrAdd(m, key, created);
            MapGetOrAdd(m', key, createdLater) == (m', r)
  {
  }

  /** ThreadsafeCssBuilderCache: extractors by type and class names by enum member. */
  class ThreadsafeCssBuilderCache {
    /** _cssExtractors: for each record type, the converted class name of each of its properties. */
    var cssExtractors: map<Shape, seq<string>>
    /** _enumName: keyed by EnumEqualityComparer's identity, the enum type and underlying value. */
    var enumName: map<EnumKey, string>

    constructor()
      ensures cssExtractors == map[] && enumName == map[]
    {
      cssExtractors := map[];
      enumName := map[];
    }

    /** GetOrAdd(Type, Func<Type, ProcessCssDelegate>); the enum map is untouched. */
    method GetOrAddExtractor(shape: Shape, created: Result<seq<string>, Error>) returns (r: Result<seq<string>, Error>)
      modifies this
      ensures (cssExtractors, r) == MapGetOrAdd(old(cssExtractors), shape, created)
      ensures enumName == old(enumName)
    {
      if shape in cssExtractors {
        r := Success(cssExtractors[shape]);
      } else {
        r := created;
        if created.Success? {
          cssExtractors := cssExtractors[shape := created.value];
        }
      }
    }

    /** GetOrAdd(Enum, Func<Enum, string>); the extractor map is untouched. */
    method GetOrAddEnumName(value: EnumValue, created: Result<string, Error>) returns (r: Result<string, Error>)
      modifies this
      ensures (enumName, r) == MapGetOrAdd(old(enumName), KeyOf(value), created)
      ensures cssExtractors == old(cssExtractors)
    {
      var key := KeyOf(value);
      if key in enumName {
        r := Success(enumName[key]);
      } else {
        r := created;
        if created.Success? {
          enumName := enumName[key := created.value];
        }
      }
    }

    /** ClearCache(): empties both maps. */
    method ClearCache()
      modifies this
      ensures cssExtractors == map[] && enumName == map[]
    {
      cssExtractors := map[];
      enumName := map[];
    }
  }

  /** ThreadsafeStyleBuilderCache: style extractors by type. */
  class ThreadsafeStyleBuilderCache {
    /** _styleExtractors: for each record type, the style property name of each of its properties. */
    var styleExtractors: map<Shape, seq<string>>

    constructor()
      ensures styleExtractors == map[]
    {
      styleExtractors := map[];
    }

    /** GetOrAdd(Type, Func<Type, ProcessStyleDelegate>); the style factory never throws. */
    method GetOrAdd(shape: Shape, created: seq<string>) returns (r: seq<string>)
      modifies this
      ensures (styleExtractors, Success(r)) == MapGetOrAdd<Shape, seq<string>, Error>(old(styleExtractors), shape, Success(created))
    {
      if shape !in styleExtractors {
        styleExtractors := styleExtractors[shape := created];
      }
      r := styleExtractors[shape];
    }

    /** ClearCache(): empties the map. */
    method ClearCache()
      modifies this
      ensures styleExtractors == map[]
    {
      styleExtractors := map[];
    }
  }
}
