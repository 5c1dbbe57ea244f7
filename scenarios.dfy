/**
  Callers of the statement cache, proved from the cache's contracts alone.
*/
module Scenarios {
  import opened Wrappers
  import opened StatementCaches

  /** Two checkouts of one key with no return in between: at most the first
      succeeds, and it succeeds exactly when the stored handle was available. */
  method CheckoutTwice(c: StatementCache, key: string) returns (first: StatementHandle?, second: StatementHandle?)
    requires c.Valid()
    modifies c`cacheHits, c`cacheMiss, c.cache.Values`logicallyClosed
    ensures c.Valid() && c.cache == old(c.cache)
    ensures first != null <==> key in c.cache && old(c.cache[key].logicallyClosed)
    ensures second == null
  {
    first := c.Get(key);
    second := c.Get(key);
  }

  /** A cache of size 1 with statistics on. The second admission still
      succeeds, because the gate compares the size before the insert with
      `cacheSize`, so the map reaches two entries; the third is refused. */
  method AdmissionPastCacheSize() returns (sizes: seq<int>, admitted: seq<bool>, cached: nat)
    ensures sizes == [1, 2, 2] && admitted == [true, true, false] && cached == 2
  {
    var c := new StatementCache(1, true);
    var h1 := new StatementHandle(true);
    var h2 := new StatementHandle(true);
    var h3 := new StatementHandle(true);
    c.Put(Some("a"), h1);
    assert c.cache == map["a" := h1] && c.statementsCached == 1;
    var n1 := c.Size();
    assert "b" !in c.cache;
    c.Put(Some("b"), h2);
    assert c.cache == map["a" := h1, "b" := h2] && c.statementsCached == 2;
    var n2 := c.Size();
    assert n2 == 2;
    c.Put(Some("c"), h3);
    assert c.cache == map["a" := h1, "b" := h2] && !h3.inCache;
    var n3 := c.Size();
    sizes := [n1 as int, n2 as int, n3 as int];
    admitted := [h1.inCache, h2.inCache, h3.inCache];
    cached := c.statementsCached;
  }

  /** One handle admitted: the first checkout returns it, a second
      checkout of its key misses. */
  method CheckoutMisses() returns (gotFirst: bool, gotSecond: bool, hits: nat, misses: nat)
    ensures gotFirst && !gotSecond && hits == 1 && misses == 1
  {
    var c := new StatementCache(2, true);
    var h := new StatementHandle(true);
    c.Put(Some("a"), h);
    assert c.cache == map["a" := h];
    var s1 := c.Get("a");
    var s2 := c.Get("a");
    gotFirst, gotSecond := s1 == h, s2 != null;
    hits, misses := c.cacheHits, c.cacheMiss;
  }

  /** Two handles admitted, then the cache cleared: each resident handle is
      closed once and a handle that was never admitted is left alone. */
  method TeardownClosesEach() returns (closes: seq<nat>, finalSize: int)
    ensures closes == [1, 1, 0] && finalSize == 0
  {
    var c := new StatementCache(2, true);
    var h1 := new StatementHandle(true);
    var h2 := new StatementHandle(true);
    var other := new StatementHandle(true);
    c.Put(Some("a"), h1);
    assert c.cache == map["a" := h1];
    assert "b" !in c.cache;
    c.Put(Some("b"), h2);
    assert c.cache == map["a" := h1, "b" := h2];
    assert c.cache["a"] == h1 && c.cache["b"] == h2;
    assert forall k :: k in c.cache ==> c.cache[k] != other;
    assert other !in c.cache.Values;
    assert Injective(c.cache);
    ResidentHandleEntries(c.cache, h1);
    ResidentHandleEntries(c.cache, h2);
    c.Clear();
    assert h1.closeCount == 1 && h2.closeCount == 1 && other.closeCount == 0;
    closes := [h1.closeCount, h2.closeCount, other.closeCount];
    var n := c.Size();
    finalSize := n as int;
  }
}
