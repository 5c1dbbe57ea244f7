/**
  The statement cache of the connection pool: a map from cache key to
  prepared-statement handle, a fixed admission size, and hit, miss and
  insertion counters. `Get` checks a handle out by flipping its
  `logicallyClosed` flag from true (available) to false; `Put` admits a
  handle under a fresh key while the map's saturated size is at most
  `cacheSize`; `Clear` force-closes every resident handle and empties the map.
  Every operation is one sequential step.
*/
module StatementCaches {
  import opened JavaInt
  import opened Wrappers
  import CacheKey

  /** The parts of a prepared-statement handle that the cache reads or writes. */
  class StatementHandle {
    /** True while the handle is available to be checked out. */
    var logicallyClosed: bool
    /** Set by the cache when it admits the handle. */
    var inCache: bool
    /** How many times the handle's forced close has been invoked. */
    var closeCount: nat

    constructor (available: bool)
      ensures logicallyClosed == available && !inCache && closeCount == 0
    {
      logicallyClosed := available;
      inCache := false;
      closeCount := 0;
    }

    /** The handle's forced close. The underlying statement may fail to
        close; `raised` says whether an SQLException was thrown, and is not
        determined by the model. */
    method InternalClose() returns (raised: bool)
      modifies this`closeCount
      ensures closeCount == old(closeCount) + 1
    {
      closeCount := closeCount + 1;
      raised :| true;
    }
  }

  /** The number of entries of `m` whose handle is `h`. */
  ghost function EntriesOf(m: map<string, StatementHandle>, h: StatementHandle): nat
  {
    |set k | k in m && m[k] == h|
  }

  /** True if no handle is stored under two keys. */
  ghost predicate Injective(m: map<string, StatementHandle>)
  {
    forall k1, k2 :: k1 in m && k2 in m && m[k1] == m[k2] ==> k1 == k2
  }

  /** A resident handle has at least one entry, and exactly one when no
      handle is stored under two keys. */
  lemma ResidentHandleEntries(m: map<string, StatementHandle>, h: StatementHandle)
    requires h in m.Values
    ensures EntriesOf(m, h) >= 1
    ensures Injective(m) ==> EntriesOf(m, h) == 1
  {
    var k :| k in m && m[k] == h;
    var s := set k' | k' in m && m[k'] == h;
    assert k in s;
    if Injective(m) {
      assert s == {k};
    }
  }

  /** Adding one more entry to the part of `m` already visited adds one
      entry for its handle and none for any other. */
  lemma EntriesOfStep(m: map<string, StatementHandle>, pending: set<string>, k: string, h: StatementHandle)
    requires k in pending && pending <= m.Keys
    ensures EntriesOf(m - (pending - {k}), h) == EntriesOf(m - pending, h) + (if m[k] == h then 1 else 0)
  {
    var before, after := m - pending, m - (pending - {k});
    var s := set k' | k' in before && before[k'] == h;
    var t := set k' | k' in after && after[k'] == h;
    if m[k] == h {
      assert t == s + {k};
      assert k !in s;
    } else {
      assert t == s;
    }
  }

  lemma EntriesOfStepAll(m: map<string, StatementHandle>, pending: set<string>, k: string)
    requires k in pending && pending <= m.Keys
    ensures forall h :: h in m.Values ==>
              EntriesOf(m - (pending - {k}), h) == EntriesOf(m - pending, h) + (if m[k] == h then 1 else 0)
  {
    forall h | h in m.Values
      ensures EntriesOf(m - (pending - {k}), h) == EntriesOf(m - pending, h) + (if m[k] == h then 1 else 0)
    {
      EntriesOfStep(m, pending, k, h);
    }
  }

  class StatementCache {
    /** The cached statements by key. */
    var cache: map<string, StatementHandle>
    /** How many items to cache; the admission gate compares against it. */
    const cacheSize: int32
    /** If true, keep the counters below. */
    const maintainStats: bool
    var cacheHits: nat
    var cacheMiss: nat
    var statementsCached: nat

    /** The entry count as the map's `size()` reports it: saturated at
        the largest 32-bit int. */
    function JavaSize(): int
      reads this
    {
      if |cache| > 0x7fff_ffff then 0x7fff_ffff else |cache|
    }

    /** The most entries the gate `size() <= cacheSize` lets the map reach
        when `cacheSize` is below the largest 32-bit int: one more than
        `cacheSize`, and none when `cacheSize` is negative. At the largest
        int the saturated size always passes the gate, so there is no bound. */
    function SizeBound(): nat
      reads this
    {
      if cacheSize < 0 then 0 else cacheSize as int + 1
    }

    ghost predicate Valid()
      reads this, cache.Values
    {
      && (cacheSize as int < 0x7fff_ffff ==> |cache| <= SizeBound())
      && forall h :: h in cache.Values ==> h.inCache
    }

    constructor (size: int32, maintainStats: bool)
      ensures Valid()
      ensures cache == map[] && cacheSize == size && this.maintainStats == maintainStats
      ensures cacheHits == 0 && cacheMiss == 0 && statementsCached == 0
    {
      this.maintainStats := maintainStats;
      cache := map[];
      cacheSize := size;
      cacheHits, cacheMiss, statementsCached := 0, 0, 0;
    }

    /** The outcome of one checkout of `key`: the map is unchanged; a handle
        is returned exactly when one is stored under `key` and was available,
        and then it is that handle, now checked out; no other handle's flag
        changes; with statistics on, exactly one of hits and misses grows. */
    twostate predicate CheckedOut(key: string, new statement: StatementHandle?)
      reads this, cache.Values
    {
      && cache == old(cache)
      && (statement != null <==> key in cache && old(cache[key].logicallyClosed))
      && (statement != null ==> statement == cache[key] && !statement.logicallyClosed)
      && (forall h :: h in cache.Values && h != statement ==> h.logicallyClosed == old(h.logicallyClosed))
      && cacheHits == old(cacheHits) + (if maintainStats && statement != null then 1 else 0)
      && cacheMiss == old(cacheMiss) + (if maintainStats && statement == null then 1 else 0)
    }

    method Get(key: string) returns (statement: StatementHandle?)
      requires Valid()
      modifies this`cacheHits, this`cacheMiss, cache.Values`logicallyClosed
      ensures Valid() && CheckedOut(key, statement)
    {
      statement := if key in cache then cache[key] else null;
      if statement != null {
        // compareAndSet(true, false)
        if statement.logicallyClosed {
          statement.logicallyClosed := false;
        } else {
          statement := null;
        }
      }
      if maintainStats {
        if statement != null {
          cacheHits := cacheHits + 1;
        } else {
          cacheMiss := cacheMiss + 1;
        }
      }
    }

    method GetByHoldability(sql: string, resultSetType: int32, resultSetConcurrency: int32,
                            resultSetHoldability: int32) returns (statement: StatementHandle?)
      requires Valid()
      modifies this`cacheHits, this`cacheMiss, cache.Values`logicallyClosed
      ensures Valid()
      ensures CheckedOut(CacheKey.HoldabilityKey(sql, resultSetType, resultSetConcurrency, resultSetHoldability), statement)
    {
      statement := Get(CacheKey.HoldabilityKey(sql, resultSetType, resultSetConcurrency, resultSetHoldability));
    }

    method GetByTypeAndConcurrency(sql: string, resultSetType: int32, resultSetConcurrency: int32)
      returns (statement: StatementHandle?)
      requires Valid()
      modifies this`cacheHits, this`cacheMiss, cache.Values`logicallyClosed
      ensures Valid()
      ensures CheckedOut(CacheKey.TypeConcurrencyKey(sql, resultSetType, resultSetConcurrency), statement)
    {
      statement := Get(CacheKey.TypeConcurrencyKey(sql, resultSetType, resultSetConcurrency));
    }

    method GetByAutoGeneratedKeys(sql: string, autoGeneratedKeys: int32) returns (statement: StatementHandle?)
      requires Valid()
      modifies this`cacheHits, this`cacheMiss, cache.Values`logicallyClosed
      ensures Valid()
      ensures CheckedOut(CacheKey.AutoGeneratedKeysKey(sql, autoGeneratedKeys), statement)
    {
      statement := Get(CacheKey.AutoGeneratedKeysKey(sql, autoGeneratedKeys));
    }

    method GetByColumnIndexes(sql: string, columnIndexes: array<int32>) returns (statement: StatementHandle?)
      requires Valid()
      modifies this`cacheHits, this`cacheMiss, cache.Values`logicallyClosed
      ensures Valid()
      ensures CheckedOut(CacheKey.ColumnIndexesKey(sql, columnIndexes[..]), statement)
    {
      var key := CacheKey.CalculateColumnIndexesKey(sql, columnIndexes);
      statement := Get(key);
    }

    method GetByColumnNames(sql: string, columnNames: array<Option<string>>) returns (statement: StatementHandle?)
      requires Valid()
      modifies this`cacheHits, this`cacheMiss, cache.Values`logicallyClosed
      ensures Valid()
      ensures CheckedOut(CacheKey.ColumnNamesKey(sql, columnNames[..]), statement)
    {
      var key := CacheKey.CalculateColumnNamesKey(sql, columnNames);
      statement := Get(key);
    }

    /** Admits `handle` under `key` when the key is not null, `JavaSize()`
        (the entry count saturated at the largest 32-bit int) is at most
        `cacheSize` and `key` is absent; otherwise nothing changes. Entries
        under other keys never change. */
    method Put(key: Option<string>, handle: StatementHandle)
      requires Valid()
      modifies this`cache, this`statementsCached, handle`inCache
      ensures Valid()
      ensures var admitted := old(JavaSize()) <= cacheSize as int && key.Some? && key.value !in old(cache);
              && cache == (if admitted then old(cache)[key.value := handle] else old(cache))
              && handle.inCache == (admitted || old(handle.inCache))
              && statementsCached == old(statementsCached) + (if admitted && maintainStats then 1 else 0)
    {
      if JavaSize() <= cacheSize as int && key.Some? {
        // putIfAbsent
        if key.value !in cache {
          cache := cache[key.value := handle];
          handle.inCache := true;
          if maintainStats {
            statementsCached := statementsCached + 1;
          }
        }
      }
    }

    method Size() returns (n: int32)
      ensures n as int == (if |cache| > 0x7fff_ffff then 0x7fff_ffff else |cache|)
      ensures |cache| <= 0x7fff_ffff ==> n as int == |cache|
    {
      n := JavaSize() as int32;
    }

    /** Invokes the forced close once per entry, ignoring any failure it
        reports, then empties the map. */
    method Clear()
      requires Valid()
      modifies this`cache, cache.Values`closeCount
      ensures Valid() && cache == map[]
      ensures forall h :: h in old(cache.Values) ==> h.closeCount == old(h.closeCount) + EntriesOf(old(cache), h)
    {
      var pending := cache.Keys;
      while pending != {}
        invariant cache == old(cache) && pending <= cache.Keys && Valid()
        invariant forall h :: h in cache.Values ==> h.closeCount == old(h.closeCount) + EntriesOf(cache - pending, h)
        decreases pending
      {
        var k :| k in pending;
        var statement := cache[k];
        EntriesOfStepAll(cache, pending, k);
        var _ := statement.InternalClose();
        forall h | h in cache.Values
          ensures h.closeCount == old(h.closeCount) + EntriesOf(cache - (pending - {k}), h)
        {
          if h != statement {
            assert h.closeCount == old(h.closeCount) + EntriesOf(cache - pending, h);
          }
        }
        pending := pending - {k};
      }
      assert cache - pending == cache;
      cache := map[];
    }
  }
}
