/** StyleBuilder: the factory of style declaration blocks, all sharing the builder's one cache. */
module StyleBuilders {
  import opened Wrappers
  import opened Caching
  import opened StyleBlockSpec
  import opened StyleBlocks

  class StyleBuilder {
    /** _cache */
    const cache: ThreadsafeStyleBuilderCache

    /** The cache holds, for each type, the extractor CreateExtractor makes for it. */
    ghost predicate Valid()
      reads this, cache
    {
      forall shape :: shape in cache.styleExtractors ==> cache.styleExtractors[shape] == StyleExtractor(shape)
    }

    /** StyleBuilder(): a builder with a new, empty cache. */
    constructor()
      ensures fresh(cache) && cache.styleExtractors == map[] && Valid()
    {
      cache := new ThreadsafeStyleBuilderCache();
    }

    /** Create(): a new, empty block bound to the builder's cache. */
    method Create() returns (block: StyleDeclarationBlock)
      requires Valid()
      ensures fresh(block) && block.styles == [] && block.cache == cache && block.Valid()
    {
      block := new StyleDeclarationBlock(cache);
    }

    /** this[params object[] arguments]: Create() followed by AddMultiple(arguments). */
    method Index(arguments: seq<StyleInput>) returns (block: StyleDeclarationBlock, outcome: Outcome<Error>)
      requires Valid() && forall i :: 0 <= i < |arguments| ==> InputOk(arguments[i])
      modifies cache
      ensures Valid()
      ensures fresh(block) && block.cache == cache
      ensures (block.State(), outcome) == ApplyAll(StyleState([], old(cache.styleExtractors)), arguments)
    {
      block := Create();
      outcome := block.AddMultiple(arguments);
    }

    /** ClearCache(): empties the shared cache. */
    method ClearCache()
      modifies cache
      ensures cache.styleExtractors == map[] && Valid()
    {
      cache.ClearCache();
    }
  }
}
