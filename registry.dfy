/**
 * The module-level `model_cache` and `get_model_and_tokenizer`: an unbounded,
 * never-evicted map from model identifier to the `(tokenizer, model)` pair
 * loaded for it, filled on first use.
 */
module Registry {
  import opened Wrappers
  import opened MlRuntime

  /** `after` keeps every key of `before`, with the same value. */
  ghost predicate Extends(before: map<string, Pair>, after: map<string, Pair>) {
    before.Keys <= after.Keys && forall name | name in before :: after[name] == before[name]
  }

  class ModelCache {
    /** `model_cache`. */
    var entries: map<string, Pair>
    /** How many calls missed the cache and went to the hub. */
    ghost var loads: nat

    /** Every entry holds the pair loaded for its own identifier. */
    ghost predicate Valid()
      reads this
    {
      forall name | name in entries :: entries[name].LoadedFrom(name)
    }

    constructor ()
      ensures Valid() && entries == map[] && loads == 0
    {
      entries := map[];
      loads := 0;
    }

    /**
     * `get_model_and_tokenizer(name)`. A hit returns the cached pair and touches
     * nothing. A miss loads the tokenizer, then the causal language model; if
     * both loads succeed it adds exactly the key `name`, mapped to the fresh
     * pair; if either raises, the cache is as it was.
     */
    method GetModelAndTokenizer(name: string, hub: ModelHub) returns (r: Result<Pair, string>)
      requires Valid()
      modifies this, hub
      ensures Valid() && Extends(old(entries), entries)
      ensures name in old(entries) ==>
        r == Success(old(entries)[name]) && entries == old(entries) && loads == old(loads) && unchanged(hub)
      ensures name !in old(entries) ==>
        && loads == old(loads) + 1
        && hub.fetches == old(hub.fetches) + (if ArtifactId(name, Tokenizer) in hub.published then 2 else 1)
        && (r.Success? <==> ArtifactId(name, Tokenizer) in hub.published && ArtifactId(name, CausalLM) in hub.published)
        && (r.Success? ==> r.value == Pair(Handle(ArtifactId(name, Tokenizer), old(hub.fetches)),
                                           Handle(ArtifactId(name, CausalLM), old(hub.fetches) + 1)))
        && (r.Success? ==> entries == old(entries)[name := r.value])
        && (r.Failure? ==> r.error == Unavailable(name) && entries == old(entries))
      ensures r.Success? ==> name in entries && entries[name] == r.value && r.value.LoadedFrom(name)
    {
      if name !in entries {
        loads := loads + 1;
        var tokenizer :- hub.FromPretrained(name, Tokenizer);
        var model :- hub.FromPretrained(name, CausalLM);
        entries := entries[name := Pair(tokenizer, model)];
      }
      r := Success(entries[name]);
    }
  }

  /**
   * Two resolutions of the same identifier in a row: the second is a hit, so it
   * returns the very pair the first one returned and loads nothing more.
   */
  method ResolveTwice(cache: ModelCache, hub: ModelHub, name: string) returns (first: Result<Pair, string>, second: Result<Pair, string>)
    requires cache.Valid()
    modifies cache, hub
    ensures cache.Valid()
    ensures first.Success? ==> second == first && cache.loads <= old(cache.loads) + 1
    ensures first.Success? && name !in old(cache.entries) ==>
            cache.loads == old(cache.loads) + 1 && hub.fetches == old(hub.fetches) + 2
    ensures first.Success? && name in old(cache.entries) ==> cache.loads == old(cache.loads) && unchanged(hub)
  {
    first := cache.GetModelAndTokenizer(name, hub);
    ghost var loadsBetween := cache.loads;
    second := cache.GetModelAndTokenizer(name, hub);
    assert first.Success? ==> cache.loads == loadsBetween;
  }
}
