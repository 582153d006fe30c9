/** The application cache, reduced to the keys that currently hold a value.
    Only invalidation (`Cache::forget`) is part of this model; the listing
    side that stores entries belongs to the query-gate package. */
module Cache {

  class Cache {
    /** The keys that currently hold a cached listing. */
    var keys: set<string>

    constructor (keys: set<string>)
      ensures this.keys == keys
    {
      this.keys := keys;
    }

    /** `Cache::forget(key)`: the entry is gone afterwards, every other entry stays. */
    method Forget(key: string)
      modifies this
      ensures keys == old(keys) - {key}
    {
      keys := keys - {key};
    }
  }
}
