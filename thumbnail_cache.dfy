/**
 * The thumbnail store (ThumbnailCache) and the process-wide registry of
 * stores (CACHES / getThumbnailCache).
 *
 * The sqlite table `Thumbs(Time INTEGER PRIMARY KEY, Jpeg BLOB)` is a finite
 * map from a time in nanoseconds to an encoded image. Rows come back in
 * ascending `Time` order (the integer primary key is the row id), so "the
 * first row" is the least time and "all times" is the ascending listing of
 * the keys. JPEG encoding and decoding are not modelled: a write receives the
 * outcome of the encoder, `None` when compression failed.
 */
module ThumbnailStore {
  import opened Seqs

  /** An encoded thumbnail and the size of the image it decodes to. */
  datatype Jpeg = Jpeg(width: nat, height: nat, data: seq<bv8>)

  /** Outcome of `cache[key]`: the image, or the `KeyError` raised on a miss. */
  datatype Lookup = Found(image: Jpeg) | KeyError(key: int)

  class ThumbnailCache {
    const uri: string
    /** The `Thumbs` table as seen by this connection. */
    var table: map<int, Jpeg>
    /** The table as last committed to the database file. */
    var committed: map<int, Jpeg>

    /** Opens the store of `uri`; `onDisk` is what earlier sessions saved. */
    constructor (uri: string, onDisk: map<int, Jpeg>)
      ensures this.uri == uri && table == onDisk && committed == onDisk
    {
      this.uri := uri;
      table := onDisk;
      committed := onDisk;
    }

    /** `key in cache`. */
    method Contains(key: int) returns (present: bool)
      ensures present <==> key in table
    {
      present := key in table;
    }

    /** `cache[key]`: the stored image, or `KeyError(key)` on a miss. */
    method Get(key: int) returns (r: Lookup)
      ensures r.Found? <==> key in table
      ensures r.Found? ==> r.image == table[key]
      ensures r.KeyError? ==> r.key == key
    {
      if key in table {
        r := Found(table[key]);
      } else {
        r := KeyError(key);
      }
    }

    /**
     * `cache[key] = image`, where `encoded` is the JPEG compression outcome.
     * On failure the table is untouched; otherwise the row for `key` is
     * deleted and the new one inserted, which replaces any earlier entry.
     */
    method Set(key: int, encoded: Option<Jpeg>)
      modifies this
      ensures encoded.None? ==> table == old(table)
      ensures encoded.Some? ==> table == old(table)[key := encoded.value]
      ensures committed == old(committed)
    {
      if encoded.None? {
        // JPEG compression failed
        return;
      }
      table := table - {key};
      table := table[key := encoded.value];
    }

    /** Width and height of the first stored image, `None` if the store is empty. */
    method GetImagesSize() returns (r: Option<(nat, nat)>)
      ensures r.None? <==> table == map[]
      ensures r.Some? ==> var first := table[Ascending(table.Keys)[0]];
                          r.value == (first.width, first.height)
    {
      var times := SortedKeys(table.Keys);
      if times == [] {
        return None;
      }
      var first := table[times[0]];
      r := Some((first.width, first.height));
    }

    /**
     * The thumbnail "in the middle" of the store: the one at index `len / 2`
     * of the ascending list of stored times; `None` if the store is empty.
     */
    method GetPreviewThumbnail() returns (r: Option<Jpeg>)
      ensures r.None? <==> table == map[]
      ensures r.Some? ==> r.value == table[Ascending(table.Keys)[|table| / 2]]
    {
      var times := SortedKeys(table.Keys);
      if times == [] {
        return None;
      }
      var found := Get(times[|times| / 2]);
      r := Some(found.image);
    }

    /** Saves the table to the database file; `false` stops the GLib timer. */
    method Commit() returns (again: bool)
      modifies this
      ensures committed == table && table == old(table) && !again
    {
      committed := table;
      again := false;
    }
  }

  /** The `CACHES` dictionary: one store per URI, created on first use, never evicted. */
  class CacheRegistry {
    var caches: map<string, ThumbnailCache>

    /** Each registered store belongs to the URI it is filed under. */
    ghost predicate Valid()
      reads this
    {
      forall u | u in caches :: caches[u].uri == u
    }

    constructor ()
      ensures Valid() && caches == map[]
    {
      caches := map[];
    }

    /**
     * `getThumbnailCache(uri)`: the registered store for `uri`, or a new one
     * (opened over `onDisk`, the rows already in its database file) that is
     * registered before it is returned.
     */
    method GetThumbnailCache(uri: string, onDisk: map<int, Jpeg>) returns (c: ThumbnailCache)
      requires Valid()
      modifies this
      ensures Valid()
      ensures c.uri == uri && uri in caches && caches[uri] == c
      ensures uri in old(caches) ==> c == old(caches)[uri] && caches == old(caches)
      ensures uri !in old(caches) ==> fresh(c) && c.table == onDisk && caches == old(caches)[uri := c]
    {
      if uri in caches {
        return caches[uri];
      }
      c := new ThumbnailCache(uri, onDisk);
      caches := caches[uri := c];
    }
  }

  /**
   * Asking the registry twice for the same URI yields the same store, and the
   * second request creates nothing.
   */
  method RegistryMemoises(registry: CacheRegistry, uri: string, onDisk: map<int, Jpeg>, later: map<int, Jpeg>)
    returns (first: ThumbnailCache, second: ThumbnailCache)
    requires registry.Valid()
    modifies registry
    ensures first == second && registry.caches.Keys == old(registry.caches.Keys) + {uri}
  {
    first := registry.GetThumbnailCache(uri, onDisk);
    second := registry.GetThumbnailCache(uri, later);
  }
}
