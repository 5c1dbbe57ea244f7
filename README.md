# BoneCP statement cache, modelled in Dafny

This project models `StatementCache` of the BoneCP connection pool. The class caches
prepared-statement handles under a string key. The key is derived from the SQL text and the
options the statement was prepared with.

It has two parts:

- **The cache-key encoder** (module `CacheKey`). The five `calculateCacheKey` overloads and
  `calculateCacheKeyInternal` are string functions. Each one concatenates the SQL text with
  the options and fixed tags: `", T"`, `", C"`, `", H:"`, `"CI,"` and `"CN,"`. The
  auto-generated-keys form uses no tag at all. The two overloads that loop over an array are
  modelled twice: as recursive functions, and as methods with the source's `for` loop, proved
  to build the same string. Java's `StringBuilder.append(int)` is modelled by `JavaInt.IntToString`.
  Its parser `JavaInt.ParseInt` is there to prove that the decimal text determines the number.
  The lemmas prove which keys are unique and which collide. The three-option and holdability
  keys determine their SQL text and their options. For one SQL text, the auto-generated-keys
  and column-index keys determine their options. The column-name key does not: a name that contains `"CN,"` gives the same key as
  two names split at that tag, and a null name gives the same key as the name `"null"` at the
  same position. The untagged auto-generated-keys key collides across SQL texts: `("a1", 2)`
  and `("a", 12)` give the same key. It also collides with the three-option key: an
  auto-generated-keys key whose SQL text ends in `", T"`, the type and `", C"` equals the
  three-option key of the plain SQL text.
- **The cache** (module `StatementCaches`). `StatementCache` is a class holding:
  - the map from key to `StatementHandle`;
  - the fixed `cacheSize` and `maintainStats`;
  - the counters for hits, misses and cached statements.

  The `StatementHandle` class keeps only the fields the cache uses:
  - `logicallyClosed`, which is true while the handle is available;
  - `inCache`;
  - a count of the forced closes made on it.

  `Get` checks a handle out. It is a test-and-set of `logicallyClosed` from true to false; a
  missing key or a handle already checked out gives null. `Put` inserts the handle only if the
  key is absent, and only if the map passes the size gate. `Clear` force-closes every entry,
  ignores any failure, and empties the map. The object invariant `Valid` says:
  - every resident handle has `inCache` set;
  - the map never holds more than `SizeBound` entries: `cacheSize + 1` when `cacheSize` is
    zero or more, and 0 when it is negative. There is no bound when `cacheSize` is the largest
    32-bit int.

The gate is `size() <= cacheSize`, evaluated before the insert. The map's `size()` saturates at
the largest 32-bit int, and the model's `JavaSize` does the same. So when `cacheSize` is that
largest int, the gate always passes and the map has no bound. For any `cacheSize`, a cache that already holds
`cacheSize` entries still admits one more, even with no concurrency. The model follows the code
as written. The design intent for this cache is that a full cache refuses admission; the
code differs from that intent. `Scenarios.AdmissionPastCacheSize` shows a cache of size 1
reaching two entries.

Module `Scenarios` holds callers that check, from the contracts alone, what the design
promises.

## Model

| member | source | states |
|---|---|---|
| JavaInt.NatToString | bonecp/src/main/java/com/jolbox/bonecp/StatementCache.java:98-101 | the decimal text of a magnitude is non-empty, all digits, and has no leading zero unless it is "0" |
| JavaInt.IntToString | bonecp/src/main/java/com/jolbox/bonecp/StatementCache.java:98-101 | the text appended for a Java `int` is non-empty, starts with '-' exactly when the value is negative, and is otherwise digits |
| JavaInt.NatToStringRoundTrip | bonecp/src/main/java/com/jolbox/bonecp/StatementCache.java:98-101 | parsing the decimal digits of n gives back n |
| JavaInt.IntToStringRoundTrip | bonecp/src/main/java/com/jolbox/bonecp/StatementCache.java:98-101 | parsing the appended text of an `int` gives back the `int`, negatives included |
| JavaInt.IntToStringInjective | bonecp/src/main/java/com/jolbox/bonecp/StatementCache.java:98-101 | two `int`s have the same appended text exactly when they are equal |
| JavaInt.IntToStringCommaFree | bonecp/src/main/java/com/jolbox/bonecp/StatementCache.java:98-101 | the appended text of an `int` never holds a comma, which is what makes the tags separate the fields |
| CacheKey.TypeConcurrencyKey | bonecp/src/main/java/com/jolbox/bonecp/StatementCache.java:80-103 | the three-option key, the one that calculateCacheKeyInternal builds, is strictly longer than the SQL text and starts with it |
| CacheKey.HoldabilityKey | bonecp/src/main/java/com/jolbox/bonecp/StatementCache.java:64-72 | the holdability key starts with the three-option key for the same SQL, type and concurrency, which is followed by ", H:" and more text |
| CacheKey.AutoGeneratedKeysKey | bonecp/src/main/java/com/jolbox/bonecp/StatementCache.java:111-116 | the auto-generated-keys key is strictly longer than the SQL text and starts with it |
| CacheKey.ColumnIndexesKey | bonecp/src/main/java/com/jolbox/bonecp/StatementCache.java:123-131 | the column-index key starts with the SQL text, and equals it exactly when the index array is empty |
| CacheKey.ColumnNamesKey | bonecp/src/main/java/com/jolbox/bonecp/StatementCache.java:138-147 | the column-name key starts with the SQL text, and equals it exactly when the name array is empty |
| CacheKey.CalculateColumnIndexesKey | bonecp/src/main/java/com/jolbox/bonecp/StatementCache.java:123-131 | the append loop over the index array builds exactly ColumnIndexesKey of the array's contents, one piece per index in array order |
| CacheKey.CalculateColumnNamesKey | bonecp/src/main/java/com/jolbox/bonecp/StatementCache.java:138-147 | the append loop over the name array builds exactly ColumnNamesKey of the array's contents, one piece per name in array order |
| CacheKey.IndexesSuffixAppend | bonecp/src/main/java/com/jolbox/bonecp/StatementCache.java:126-129 | the index text of two concatenated arrays is the concatenation of their index texts |
| CacheKey.NamesSuffixAppend | bonecp/src/main/java/com/jolbox/bonecp/StatementCache.java:141-144 | the name text of two concatenated arrays is the concatenation of their name texts |
| CacheKey.IndexesSuffixEndsWithTag | bonecp/src/main/java/com/jolbox/bonecp/StatementCache.java:126-129 | the text for a non-empty index array ends with "CI," |
| CacheKey.NamesSuffixEndsWithTag | bonecp/src/main/java/com/jolbox/bonecp/StatementCache.java:141-144 | the text for a non-empty name array ends with "CN," |
| CacheKey.TypeConcurrencyKeyInjective | bonecp/src/main/java/com/jolbox/bonecp/StatementCache.java:93-103 | two three-option keys are equal exactly when their SQL texts, their types and their concurrencies are equal |
| CacheKey.HoldabilityKeyInjective | bonecp/src/main/java/com/jolbox/bonecp/StatementCache.java:64-72 | two holdability keys are equal exactly when their SQL texts, types, concurrencies and holdabilities are equal |
| CacheKey.HoldabilityKeyNeverTypeConcurrencyKey | bonecp/src/main/java/com/jolbox/bonecp/StatementCache.java:64-103 | no holdability key equals any three-option key, whatever the two SQL texts are |
| CacheKey.AutoGeneratedKeysKeyInjective | bonecp/src/main/java/com/jolbox/bonecp/StatementCache.java:111-116 | for one SQL text, two auto-generated-keys keys are equal exactly when their flags are equal |
| CacheKey.AutoGeneratedKeysKeyCollision | bonecp/src/main/java/com/jolbox/bonecp/StatementCache.java:111-116 | the untagged flag runs into the SQL text: ("a1", 2) and ("a", 12) give the same key |
| CacheKey.AutoGeneratedKeysKeyMeetsTypeConcurrencyKey | bonecp/src/main/java/com/jolbox/bonecp/StatementCache.java:93-116 | an auto-generated-keys key equals a three-option key when its SQL text is that key's SQL followed by ", T", the type and ", C" |
| CacheKey.IndexesSuffixHead | bonecp/src/main/java/com/jolbox/bonecp/StatementCache.java:126-129 | two non-empty index arrays with the same text agree on their first index and on the text of the rest |
| CacheKey.IndexesSuffixInjective | bonecp/src/main/java/com/jolbox/bonecp/StatementCache.java:126-129 | two index arrays give the same text exactly when they are equal |
| CacheKey.ColumnIndexesKeyInjective | bonecp/src/main/java/com/jolbox/bonecp/StatementCache.java:123-131 | for one SQL text, two column-index keys are equal exactly when the index arrays are equal |
| CacheKey.ColumnNamesKeyTagCollision | bonecp/src/main/java/com/jolbox/bonecp/StatementCache.java:138-147 | the names are not escaped: for any SQL text, any texts `a` and `b` and any names around it, the one name `a + "CN," + b` gives the same key as the two names `a` and `b` in its place |
| CacheKey.ColumnNamesKeyNullCollision | bonecp/src/main/java/com/jolbox/bonecp/StatementCache.java:141-143 | a null name and the name "null" give the same key, whatever the other names are |
| CacheKey.ColumnIndexesKeyNeverColumnNamesKey | bonecp/src/main/java/com/jolbox/bonecp/StatementCache.java:123-147 | with both arrays non-empty, no column-index key equals any column-name key, whatever the SQL texts |
| StatementCaches.StatementHandle.InternalClose | bonecp/src/main/java/com/jolbox/bonecp/StatementCache.java:242-247 | the forced close is counted once per call; whether it throws is left open and the result is ignored |
| StatementCaches.ResidentHandleEntries | bonecp/src/main/java/com/jolbox/bonecp/StatementCache.java:240-250 | a resident handle has at least one entry, and exactly one when no handle is stored under two keys, so clear closes it exactly once |
| StatementCaches.StatementCache.constructor | bonecp/src/main/java/com/jolbox/bonecp/StatementCache.java:48-55 | a new cache is empty and valid, with the given size and statistics flag and zero counters |
| StatementCaches.StatementCache.Get | bonecp/src/main/java/com/jolbox/bonecp/StatementCache.java:155-170 | the map is unchanged. A handle is returned exactly when the key is present and its handle was available; it is that handle, now checked out. No other handle's flag changes. With statistics on, hits or misses (and only one of them) grows by one; with statistics off, neither changes |
| StatementCaches.StatementCache.GetByHoldability | bonecp/src/main/java/com/jolbox/bonecp/StatementCache.java:173-175 | a checkout, as Get states it, of the holdability key |
| StatementCaches.StatementCache.GetByTypeAndConcurrency | bonecp/src/main/java/com/jolbox/bonecp/StatementCache.java:179-181 | a checkout, as Get states it, of the three-option key |
| StatementCaches.StatementCache.GetByAutoGeneratedKeys | bonecp/src/main/java/com/jolbox/bonecp/StatementCache.java:184-186 | a checkout, as Get states it, of the auto-generated-keys key |
| StatementCaches.StatementCache.GetByColumnIndexes | bonecp/src/main/java/com/jolbox/bonecp/StatementCache.java:190-192 | a checkout, as Get states it, of the column-index key of the array's contents |
| StatementCaches.StatementCache.GetByColumnNames | bonecp/src/main/java/com/jolbox/bonecp/StatementCache.java:196-198 | a checkout, as Get states it, of the column-name key of the array's contents |
| StatementCaches.StatementCache.Put | bonecp/src/main/java/com/jolbox/bonecp/StatementCache.java:208-219 | the handle is admitted exactly when the key is non-null, the saturated size (the entry count capped at the largest 32-bit int) was at most cacheSize, and the key was absent. Then the map gains exactly that entry, the handle is marked in cache, and the cached counter grows when statistics are on. Otherwise the map, the flag and the counter are unchanged. Entries under other keys never change, and the invariant holds: when cacheSize is below the largest int, at most cacheSize + 1 entries, or none when cacheSize is negative; and every resident handle marked |
| StatementCaches.StatementCache.Size | bonecp/src/main/java/com/jolbox/bonecp/StatementCache.java:228-230 | the map's size as a 32-bit int: the number of entries, saturated at the largest int, and exactly the number of entries when that fits |
| StatementCaches.StatementCache.Clear | bonecp/src/main/java/com/jolbox/bonecp/StatementCache.java:240-250 | afterwards the map is empty. Each previously resident handle has been force-closed once for every entry that held it, whatever the closes raised. No other state changes |
| Scenarios.CheckoutTwice | bonecp/src/main/java/com/jolbox/bonecp/StatementCache.java:155-160 | two checkouts of one key with no return in between: the first succeeds exactly when the handle was available, and the second always gets null |
| Scenarios.AdmissionPastCacheSize | bonecp/src/main/java/com/jolbox/bonecp/StatementCache.java:208-219 | with cacheSize 1, the second admission still succeeds and the map reaches 2 entries; the third is refused and leaves its handle unmarked |
| Scenarios.CheckoutMisses | bonecp/src/main/java/com/jolbox/bonecp/StatementCache.java:155-168 | with statistics on, a checkout that succeeds counts one hit, and a second checkout of the same key misses and counts one miss |
| Scenarios.TeardownClosesEach | bonecp/src/main/java/com/jolbox/bonecp/StatementCache.java:240-250 | clearing a cache of two handles closes each of them once, leaves a handle that was never admitted alone, and leaves size 0 |

## Left out

- Concurrency: the map's concurrency level of 32, the atomicity of `compareAndSet`, and the
  race between the size read and the insert in `put`. Every operation is one sequential step.
  Under concurrent admissions the map can exceed `SizeBound`; the invariant `Valid` holds
  only for sequential runs.
- The Guava concurrent map is modelled as a Dafny `map` field. The order in which `clear` visits
  the entries is not modelled: the model visits the keys in an arbitrary order.
- `checkForProperClosure` (lines 253-259): it only writes to the logger and changes nothing.
- The logger, and the global `Statistics` counters. The counters are fields of the cache, start at
  zero, and are unbounded naturals. Neither their sharing between caches nor their overflow is
  modelled.
- The internals of `StatementHandle`: the JDBC statement itself, what `internalClose` does besides
  being counted, `isClosed` and `getOpenStackTrace`. The constructor of `StatementHandle` only
  sets the three fields the cache uses. Returning a handle, which sets `logicallyClosed` back to
  true, is done outside the cache and is not modelled.
- Null arguments that make the source throw a `NullPointerException`: a null SQL text, a null
  index or name array, or a null handle given to `put`. The model's parameters for these are
  non-null. A null key given to `get` is not modelled either: what the map does with it depends
  on the map implementation, which is not part of this model. A null key given to `put`, which the source checks, is
  modelled; so is a null element of the name array, which appends "null".
- `cacheSize` is a `const`. The source's field is not final, but only the constructor assigns it.
- CacheKey.TypeConcurrencyKey, CacheKey.HoldabilityKey, CacheKey.AutoGeneratedKeysKey,
  CacheKey.ColumnIndexesKey and CacheKey.ColumnNamesKey are total over unbounded strings. The
  source sizes its builders with 32-bit arithmetic, `sql.length()+20` and `sql.length()+4`. For a
  SQL text within that margin of the largest int, the sum wraps to a negative capacity and the
  builder's constructor throws. An append past Java's largest string length throws as well. The
  model returns a key in both cases: the builder capacity, its wrap-around and the maximum
  string length are not modelled. The loop methods `CalculateColumnIndexesKey` and
  `CalculateColumnNamesKey` share this gap.
- Strings are sequences of Dafny `char`s, which are Unicode scalar values. Java strings are
  sequences of UTF-16 code units, so a Java string with an unpaired surrogate has no
  counterpart in the model.
- Closing once per handle: `cache.values()` yields a handle once per key holding it, so the
  count of closes that `Clear` states is per entry. "Exactly once per handle" is
  proved by `StatementCaches.ResidentHandleEntries` only for a map that stores no handle
  under two keys.
- The `IStatementCache` interface that the class implements is not part of this model.
