/**
  The cache-key encoder of `StatementCache`: every `calculateCacheKey`
  overload builds a string from the SQL text and the preparation options by
  tagged concatenation. The functions state what each key is; the two methods
  follow the source's loops over the option arrays and are proved to build
  the same strings.
*/
module CacheKey {
  import opened JavaInt
  import opened Wrappers

  /** `calculateCacheKeyInternal`, which the three-argument overload returns
      as is: the SQL, ", T" and the result-set type, ", C" and the
      concurrency. */
  function TypeConcurrencyKey(sql: string, resultSetType: int32, resultSetConcurrency: int32): (key: string)
    ensures |sql| < |key| && key[..|sql|] == sql
  {
    sql + ", T" + IntToString(resultSetType) + ", C" + IntToString(resultSetConcurrency)
  }

  /** The holdability overload: the three-argument key, then ", H:" and the
      holdability. */
  function HoldabilityKey(sql: string, resultSetType: int32, resultSetConcurrency: int32,
                          resultSetHoldability: int32): (key: string)
    ensures var prefix := TypeConcurrencyKey(sql, resultSetType, resultSetConcurrency);
            |prefix| < |key| && key[..|prefix|] == prefix && |prefix| + 4 < |key| && key[|prefix|..|prefix| + 4] == ", H:"
  {
    TypeConcurrencyKey(sql, resultSetType, resultSetConcurrency) + ", H:" + IntToString(resultSetHoldability)
  }

  /** The auto-generated-keys overload: the flag is appended with no tag. */
  function AutoGeneratedKeysKey(sql: string, autoGeneratedKeys: int32): (key: string)
    ensures |sql| < |key| && key[..|sql|] == sql
  {
    sql + IntToString(autoGeneratedKeys)
  }

  /** What the column-index overload appends for one index. */
  function IndexPiece(x: int32): string
  {
    IntToString(x) + "CI,"
  }

  /** What the column-index overload appends: each index followed by "CI,". */
  function IndexesSuffix(columnIndexes: seq<int32>): string
  {
    if columnIndexes == [] then ""
    else IndexPiece(columnIndexes[0]) + IndexesSuffix(columnIndexes[1..])
  }

  function ColumnIndexesKey(sql: string, columnIndexes: seq<int32>): (key: string)
    ensures |sql| <= |key| && key[..|sql|] == sql
    ensures columnIndexes == [] <==> key == sql
  {
    assert columnIndexes != [] ==> |IndexesSuffix(columnIndexes)| > 0;
    sql + IndexesSuffix(columnIndexes)
  }

  /** The text `StringBuilder.append(String)` adds: "null" for a null
      reference. */
  function AppendedText(name: Option<string>): string
  {
    match name
    case None => "null"
    case Some(s) => s
  }

  /** What the column-name overload appends for one name. */
  function NamePiece(name: Option<string>): string
  {
    AppendedText(name) + "CN,"
  }

  /** What the column-name overload appends: each name followed by "CN,". */
  function NamesSuffix(columnNames: seq<Option<string>>): string
  {
    if columnNames == [] then ""
    else NamePiece(columnNames[0]) + NamesSuffix(columnNames[1..])
  }

  function ColumnNamesKey(sql: string, columnNames: seq<Option<string>>): (key: string)
    ensures |sql| <= |key| && key[..|sql|] == sql
    ensures columnNames == [] <==> key == sql
  {
    assert columnNames != [] ==> |NamesSuffix(columnNames)| > 0;
    sql + NamesSuffix(columnNames)
  }

  /** The loop of the column-index overload, appending to a builder that
      starts with the SQL. */
  method CalculateColumnIndexesKey(sql: string, columnIndexes: array<int32>) returns (key: string)
    ensures key == ColumnIndexesKey(sql, columnIndexes[..])
  {
    key := sql;
    for i := 0 to columnIndexes.Length
      invariant key == sql + IndexesSuffix(columnIndexes[..i])
    {
      ghost var done := columnIndexes[..i];
      var x := columnIndexes[i];
      key := key + IntToString(x);
      key := key + "CI,";
      assert columnIndexes[..i + 1] == done + [x];
      IndexesKeyStep(sql, done, x);
    }
    assert columnIndexes[..columnIndexes.Length] == columnIndexes[..];
  }

  /** The loop of the column-name overload. */
  method CalculateColumnNamesKey(sql: string, columnNames: array<Option<string>>) returns (key: string)
    ensures key == ColumnNamesKey(sql, columnNames[..])
  {
    key := sql;
    for i := 0 to columnNames.Length
      invariant key == sql + NamesSuffix(columnNames[..i])
    {
      ghost var done := columnNames[..i];
      var name := columnNames[i];
      key := key + AppendedText(name);
      key := key + "CN,";
      assert columnNames[..i + 1] == done + [name];
      NamesKeyStep(sql, done, name);
    }
    assert columnNames[..columnNames.Length] == columnNames[..];
  }

  // ---------------------------------------------------------------------
  // Structure of the array suffixes

  lemma {:induction false} IndexesSuffixAppend(xs: seq<int32>, ys: seq<int32>)
    ensures IndexesSuffix(xs + ys) == IndexesSuffix(xs) + IndexesSuffix(ys)
    decreases |xs|
  {
    if xs == [] {
      assert xs + ys == ys;
    } else {
      assert (xs + ys)[1..] == xs[1..] + ys;
      IndexesSuffixAppend(xs[1..], ys);
    }
  }

  lemma {:induction false} NamesSuffixAppend(ns: seq<Option<string>>, ms: seq<Option<string>>)
    ensures NamesSuffix(ns + ms) == NamesSuffix(ns) + NamesSuffix(ms)
    decreases |ns|
  {
    if ns == [] {
      assert ns + ms == ms;
    } else {
      assert (ns + ms)[1..] == ns[1..] + ms;
      NamesSuffixAppend(ns[1..], ms);
    }
  }


  /** One loop step of the column-index overload. */
  lemma IndexesSuffixSnoc(xs: seq<int32>, x: int32)
    ensures IndexesSuffix(xs + [x]) == IndexesSuffix(xs) + IndexPiece(x)
  {
    IndexesSuffixAppend(xs, [x]);
    assert IndexesSuffix([x]) == IndexPiece(x) + IndexesSuffix([]);
  }

  /** One loop step of the column-index overload, with the two appends
      of that step. */
  lemma IndexesKeyStep(sql: string, xs: seq<int32>, x: int32)
    ensures sql + IndexesSuffix(xs + [x]) == sql + IndexesSuffix(xs) + IntToString(x) + "CI,"
  {
    IndexesSuffixSnoc(xs, x);
    var done, text := IndexesSuffix(xs), IntToString(x);
    assert sql + (done + (text + "CI,")) == sql + done + text + "CI,";
  }

  /** One loop step of the column-name overload, with the two appends of
      that step. */
  lemma NamesKeyStep(sql: string, ns: seq<Option<string>>, n: Option<string>)
    ensures sql + NamesSuffix(ns + [n]) == sql + NamesSuffix(ns) + AppendedText(n) + "CN,"
  {
    NamesSuffixSnoc(ns, n);
    var done, text := NamesSuffix(ns), AppendedText(n);
    assert sql + (done + (text + "CN,")) == sql + done + text + "CN,";
  }

  /** One loop step of the column-name overload. */
  lemma NamesSuffixSnoc(ns: seq<Option<string>>, n: Option<string>)
    ensures NamesSuffix(ns + [n]) == NamesSuffix(ns) + NamePiece(n)
  {
    NamesSuffixAppend(ns, [n]);
    assert NamesSuffix([n]) == NamePiece(n) + NamesSuffix([]);
  }

  /** A non-empty index list always ends the key with "CI,". */
  lemma {:induction false} IndexesSuffixEndsWithTag(xs: seq<int32>)
    requires xs != []
    ensures var s := IndexesSuffix(xs); |s| >= 3 && s[|s| - 3..] == "CI,"
    decreases |xs|
  {
    if xs[1..] != [] {
      IndexesSuffixEndsWithTag(xs[1..]);
    }
  }

  /** A non-empty name list always ends the key with "CN,". */
  lemma {:induction false} NamesSuffixEndsWithTag(ns: seq<Option<string>>)
    requires ns != []
    ensures var s := NamesSuffix(ns); |s| >= 3 && s[|s| - 3..] == "CN,"
    decreases |ns|
  {
    if ns[1..] != [] {
      NamesSuffixEndsWithTag(ns[1..]);
    }
  }

  /** Two strings with the same prefix are equal exactly when the rests are. */
  lemma CancelPrefix(p: string, x: string, y: string)
    ensures p + x == p + y <==> x == y
  {
    if p + x == p + y {
      assert x == (p + x)[|p|..];
      assert y == (p + y)[|p|..];
    }
  }

  // ---------------------------------------------------------------------
  // Uniqueness and collisions

  /** Splitting before a final comma-led tag: what follows the tag is
      comma-free on both sides, so both parts agree. */
  lemma LastTagSplit(tag: string, a1: string, s1: string, a2: string, s2: string)
    requires |tag| > 0 && tag[0] == ',' && CommaFree(tag[1..])
    requires CommaFree(s1) && CommaFree(s2)
    requires a1 + tag + s1 == a2 + tag + s2
    ensures a1 == a2 && s1 == s2
  {
    var b1, b2 := tag[1..] + s1, tag[1..] + s2;
    assert tag == "," + tag[1..];
    assert a1 + tag + s1 == a1 + "," + b1;
    assert a2 + tag + s2 == a2 + "," + b2;
    SplitAtLastComma(a1, b1, a2, b2);
    CancelPrefix(tag[1..], s1, s2);
  }

  /** The three-argument key determines the SQL text, the type and the
      concurrency: each tag is the last of its kind before comma-free text. */
  lemma TypeConcurrencyKeyInjective(sql1: string, t1: int32, c1: int32, sql2: string, t2: int32, c2: int32)
    ensures TypeConcurrencyKey(sql1, t1, c1) == TypeConcurrencyKey(sql2, t2, c2)
            <==> sql1 == sql2 && t1 == t2 && c1 == c2
  {
    if TypeConcurrencyKey(sql1, t1, c1) == TypeConcurrencyKey(sql2, t2, c2) {
      IntToStringCommaFree(t1);
      IntToStringCommaFree(t2);
      IntToStringCommaFree(c1);
      IntToStringCommaFree(c2);
      LastTagSplit(", C", sql1 + ", T" + IntToString(t1), IntToString(c1),
                          sql2 + ", T" + IntToString(t2), IntToString(c2));
      LastTagSplit(", T", sql1, IntToString(t1), sql2, IntToString(t2));
      IntToStringInjective(t1, t2);
      IntToStringInjective(c1, c2);
    }
  }

  /** The holdability key determines the SQL text and all three options. */
  lemma HoldabilityKeyInjective(sql1: string, t1: int32, c1: int32, h1: int32,
                                sql2: string, t2: int32, c2: int32, h2: int32)
    ensures HoldabilityKey(sql1, t1, c1, h1) == HoldabilityKey(sql2, t2, c2, h2)
            <==> sql1 == sql2 && t1 == t2 && c1 == c2 && h1 == h2
  {
    if HoldabilityKey(sql1, t1, c1, h1) == HoldabilityKey(sql2, t2, c2, h2) {
      IntToStringCommaFree(h1);
      IntToStringCommaFree(h2);
      LastTagSplit(", H:", TypeConcurrencyKey(sql1, t1, c1), IntToString(h1),
                           TypeConcurrencyKey(sql2, t2, c2), IntToString(h2));
      IntToStringInjective(h1, h2);
      TypeConcurrencyKeyInjective(sql1, t1, c1, sql2, t2, c2);
    }
  }

  /** No holdability key equals any three-argument key, whatever the SQL
      texts: after the last comma one has " H:", the other " C". */
  lemma HoldabilityKeyNeverTypeConcurrencyKey(sql1: string, t1: int32, c1: int32, h1: int32,
                                              sql2: string, t2: int32, c2: int32)
    ensures HoldabilityKey(sql1, t1, c1, h1) != TypeConcurrencyKey(sql2, t2, c2)
  {
    IntToStringCommaFree(h1);
    IntToStringCommaFree(c2);
    LastTagsDiffer(TypeConcurrencyKey(sql1, t1, c1), IntToString(h1),
                   sql2 + ", T" + IntToString(t2), IntToString(c2));
  }

  lemma LastTagsDiffer(a1: string, s1: string, a2: string, s2: string)
    requires CommaFree(s1) && CommaFree(s2)
    ensures a1 + ", H:" + s1 != a2 + ", C" + s2
  {
    var b1, b2 := " H:" + s1, " C" + s2;
    assert a1 + ", H:" + s1 == a1 + "," + b1;
    assert a2 + ", C" + s2 == a2 + "," + b2;
    assert b1[1] == 'H' && b2[1] == 'C';
    if a1 + "," + b1 == a2 + "," + b2 {
      SplitAtLastComma(a1, b1, a2, b2);
    }
  }

  /** For one SQL text, the auto-generated-keys key determines the flag. */
  lemma AutoGeneratedKeysKeyInjective(sql: string, f1: int32, f2: int32)
    ensures AutoGeneratedKeysKey(sql, f1) == AutoGeneratedKeysKey(sql, f2) <==> f1 == f2
  {
    CancelPrefix(sql, IntToString(f1), IntToString(f2));
    IntToStringInjective(f1, f2);
  }

  /** Without a tag the flag's digits run into the SQL: ("a1", 2) and
      ("a", 12) give the same key. */
  lemma AutoGeneratedKeysKeyCollision()
    ensures AutoGeneratedKeysKey("a1", 2) == AutoGeneratedKeysKey("a", 12)
  {
    assert IntToString(2) == "2";
    assert IntToString(12) == "12";
  }

  /** An auto-generated-keys key collides with a three-argument key when the
      SQL text itself ends in the tags. */
  lemma AutoGeneratedKeysKeyMeetsTypeConcurrencyKey(sql: string, t: int32, c: int32)
    ensures AutoGeneratedKeysKey(sql + ", T" + IntToString(t) + ", C", c) == TypeConcurrencyKey(sql, t, c)
  {
  }

  /** Two non-empty index lists with the same suffix agree on the first
      index and on the suffix of the rest. */
  lemma IndexesSuffixHead(xs: seq<int32>, ys: seq<int32>)
    requires xs != [] && ys != [] && IndexesSuffix(xs) == IndexesSuffix(ys)
    ensures xs[0] == ys[0] && IndexesSuffix(xs[1..]) == IndexesSuffix(ys[1..])
  {
    var a1, a2 := IntToString(xs[0]) + "CI", IntToString(ys[0]) + "CI";
    assert IndexPiece(xs[0]) == a1 + ",";
    assert IndexPiece(ys[0]) == a2 + ",";
    assert IndexesSuffix(xs) == a1 + "," + IndexesSuffix(xs[1..]);
    assert IndexesSuffix(ys) == a2 + "," + IndexesSuffix(ys[1..]);
    IntToStringCommaFree(xs[0]);
    IntToStringCommaFree(ys[0]);
    SplitAtFirstComma(a1, IndexesSuffix(xs[1..]), a2, IndexesSuffix(ys[1..]));
    assert IntToString(xs[0]) == a1[..|a1| - 2] == a2[..|a2| - 2] == IntToString(ys[0]);
    IntToStringInjective(xs[0], ys[0]);
  }

  /** For one SQL text, the column-index key determines the index array. */
  lemma {:induction false} IndexesSuffixInjective(xs: seq<int32>, ys: seq<int32>)
    ensures IndexesSuffix(xs) == IndexesSuffix(ys) <==> xs == ys
    decreases |xs|
  {
    if IndexesSuffix(xs) == IndexesSuffix(ys) {
      if xs != [] && ys != [] {
        IndexesSuffixHead(xs, ys);
        IndexesSuffixInjective(xs[1..], ys[1..]);
        assert xs == [xs[0]] + xs[1..];
        assert ys == [ys[0]] + ys[1..];
      } else if xs != [] {
        IndexesSuffixEndsWithTag(xs);
      } else if ys != [] {
        IndexesSuffixEndsWithTag(ys);
      }
    }
  }

  lemma ColumnIndexesKeyInjective(sql: string, xs: seq<int32>, ys: seq<int32>)
    ensures ColumnIndexesKey(sql, xs) == ColumnIndexesKey(sql, ys) <==> xs == ys
  {
    CancelPrefix(sql, IndexesSuffix(xs), IndexesSuffix(ys));
    IndexesSuffixInjective(xs, ys);
  }

  /** Column names are appended unescaped, so the name key does not
      determine the names: a name holding the tag gives the key of the two
      names it splits into, wherever it stands. */
  lemma ColumnNamesKeyTagCollision(sql: string, a: string, b: string,
                                   before: seq<Option<string>>, after: seq<Option<string>>)
    ensures ColumnNamesKey(sql, before + [Some(a + "CN," + b)] + after)
            == ColumnNamesKey(sql, before + [Some(a), Some(b)] + after)
  {
    SplitNameText(a, b);
    NamesSuffixReplace(before, [Some(a + "CN," + b)], [Some(a), Some(b)], after);
  }

  /** The text of the one name `a + "CN," + b` is the text of `a` then `b`. */
  lemma SplitNameText(a: string, b: string)
    ensures NamesSuffix([Some(a + "CN," + b)]) == NamesSuffix([Some(a), Some(b)])
  {
    var one, two := [Some(a + "CN," + b)], [Some(a), Some(b)];
    assert one[1..] == [] && two[1..] == [Some(b)];
    assert NamesSuffix(one) == NamePiece(Some(a + "CN," + b));
    assert NamesSuffix(two[1..]) == NamePiece(Some(b));
  }

  /** Names with the same text can replace each other anywhere in the list. */
  lemma NamesSuffixReplace(before: seq<Option<string>>, one: seq<Option<string>>,
                           two: seq<Option<string>>, after: seq<Option<string>>)
    requires NamesSuffix(one) == NamesSuffix(two)
    ensures NamesSuffix(before + one + after) == NamesSuffix(before + two + after)
  {
    NamesSuffixAppend(before + one, after);
    NamesSuffixAppend(before, one);
    NamesSuffixAppend(before + two, after);
    NamesSuffixAppend(before, two);
  }

  /** A null column name and the name "null" give the same key. */
  lemma ColumnNamesKeyNullCollision(sql: string, before: seq<Option<string>>, after: seq<Option<string>>)
    ensures ColumnNamesKey(sql, before + [None] + after) == ColumnNamesKey(sql, before + [Some("null")] + after)
  {
    NamesSuffixAppend(before + [None], after);
    NamesSuffixAppend(before, [None]);
    NamesSuffixAppend(before + [Some("null")], after);
    NamesSuffixAppend(before, [Some("null")]);
  }

  /** With both arrays non-empty, a column-index key never equals a
      column-name key, whatever the SQL texts: the last tag differs. */
  lemma ColumnIndexesKeyNeverColumnNamesKey(sql1: string, xs: seq<int32>, sql2: string, ns: seq<Option<string>>)
    requires xs != [] && ns != []
    ensures ColumnIndexesKey(sql1, xs) != ColumnNamesKey(sql2, ns)
  {
    IndexesSuffixEndsWithTag(xs);
    NamesSuffixEndsWithTag(ns);
    var k1, k2 := ColumnIndexesKey(sql1, xs), ColumnNamesKey(sql2, ns);
    assert k1[|k1| - 2] == IndexesSuffix(xs)[|IndexesSuffix(xs)| - 2] == 'I';
    assert k2[|k2| - 2] == NamesSuffix(ns)[|NamesSuffix(ns)| - 2] == 'N';
  }
}
