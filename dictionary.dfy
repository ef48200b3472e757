/** Keyed views of a fetched row list, and the two dictionary-building loops
    the batch functions run over it: "the last row with this key wins" and
    "all rows with this key, in fetch order". */
module Dictionary {
  import opened Rows

  /** The position of the last row, in fetch order, whose key is `k`. */
  function LastIndexWith<R>(rows: seq<R>, keyOf: R -> Key, k: Key): (r: Option<nat>)
    ensures r.None? <==> forall i | 0 <= i < |rows| :: keyOf(rows[i]) != k
    ensures r.Some? ==> r.value < |rows| && keyOf(rows[r.value]) == k
    ensures r.Some? ==> forall j | r.value < j < |rows| :: keyOf(rows[j]) != k
  {
    if rows == [] then None
    else if keyOf(rows[|rows| - 1]) == k then Some(|rows| - 1)
    else
      var front := rows[..|rows| - 1];
      assert forall i | 0 <= i < |front| :: front[i] == rows[i];
      LastIndexWith(front, keyOf, k)
  }

  /** The last row, in fetch order, whose key is `k`: the row at `LastIndexWith`. */
  function LastWith<R>(rows: seq<R>, keyOf: R -> Key, k: Key): (r: Option<R>)
    ensures r.None? <==> forall i | 0 <= i < |rows| :: keyOf(rows[i]) != k
    ensures r.Some? ==> r.value in rows && keyOf(r.value) == k
    ensures r.Some? ==> LastIndexWith(rows, keyOf, k).Some? && r.value == rows[LastIndexWith(rows, keyOf, k).value]
  {
    match LastIndexWith(rows, keyOf, k)
    case None => None
    case Some(i) => Some(rows[i])
  }

  /** The rows whose key is `k`, in fetch order. */
  function Select<R>(rows: seq<R>, keyOf: R -> Key, k: Key): (r: seq<R>)
    ensures |r| <= |rows|
    ensures forall i | 0 <= i < |r| :: r[i] in rows && keyOf(r[i]) == k
    ensures forall i | 0 <= i < |rows| && keyOf(rows[i]) == k :: rows[i] in r
  {
    if rows == [] then []
    else
      var front := rows[..|rows| - 1];
      assert rows == front + [rows[|rows| - 1]];
      Select(front, keyOf, k) + (if keyOf(rows[|rows| - 1]) == k then [rows[|rows| - 1]] else [])
  }

  /** The rows whose key is one of `keys`, in fetch order: what a query
      filtered by "key in keys" returns from a table in that order. */
  function SelectAmong<R>(rows: seq<R>, keyOf: R -> Key, keys: seq<Key>): (r: seq<R>)
    ensures |r| <= |rows|
    ensures forall i | 0 <= i < |r| :: r[i] in rows && keyOf(r[i]) in keys
    ensures forall i | 0 <= i < |rows| && keyOf(rows[i]) in keys :: rows[i] in r
  {
    if rows == [] then []
    else
      var front := rows[..|rows| - 1];
      assert rows == front + [rows[|rows| - 1]];
      SelectAmong(front, keyOf, keys) + (if keyOf(rows[|rows| - 1]) in keys then [rows[|rows| - 1]] else [])
  }

  /** The sum, over `keys`, of the number of rows selected for each key. */
  function SelectedCount<R>(rows: seq<R>, keyOf: R -> Key, keys: seq<Key>): nat
  {
    if keys == [] then 0
    else |Select(rows, keyOf, keys[0])| + SelectedCount(rows, keyOf, keys[1..])
  }

  /** Builds the dictionary that assigns `m[keyOf(row)] := valueOf(row)`
      for each row in order, so that the last row with a key wins. */
  method BuildIndex<R, V>(rows: seq<R>, keyOf: R -> Key, valueOf: R -> V) returns (m: map<Key, V>)
    ensures forall k :: k in m <==> LastWith(rows, keyOf, k).Some?
    ensures forall k | k in m :: m[k] == valueOf(LastWith(rows, keyOf, k).value)
  {
    m := map[];
    for i := 0 to |rows|
      invariant forall k :: k in m <==> LastWith(rows[..i], keyOf, k).Some?
      invariant forall k | k in m :: m[k] == valueOf(LastWith(rows[..i], keyOf, k).value)
    {
      assert rows[..i + 1][..i] == rows[..i];
      m := m[keyOf(rows[i]) := valueOf(rows[i])];
    }
    assert rows[..|rows|] == rows;
  }

  /** Builds the dictionary of groups: for each row in order, creates the
      row's group when it has none yet, then appends the row to it. */
  method GroupByKey<R>(rows: seq<R>, keyOf: R -> Key) returns (g: map<Key, seq<R>>)
    ensures forall k :: k in g <==> Select(rows, keyOf, k) != []
    ensures forall k | k in g :: g[k] == Select(rows, keyOf, k)
  {
    g := map[];
    for i := 0 to |rows|
      invariant forall k :: k in g <==> Select(rows[..i], keyOf, k) != []
      invariant forall k | k in g :: g[k] == Select(rows[..i], keyOf, k)
    {
      var k := keyOf(rows[i]);
      ghost var before := g;
      if k !in g {
        g := g[k := []];
      }
      g := g[k := g[k] + [rows[i]]];
      GroupedSnoc(rows[..i], keyOf, rows[i], before);
      assert rows[..i + 1] == rows[..i] + [rows[i]];
    }
    assert rows[..|rows|] == rows;
  }

  /** Appending a row extends the group of its own key only. */
  lemma SelectSnoc<R>(rows: seq<R>, keyOf: R -> Key, x: R, k: Key)
    ensures Select(rows + [x], keyOf, k) == Select(rows, keyOf, k) + (if keyOf(x) == k then [x] else [])
  {
    assert (rows + [x])[..|rows|] == rows;
  }

  /** The groups of `rows`, with `x` appended to its key's group (created
      when missing), are the groups of `rows + [x]`. */
  lemma GroupedSnoc<R>(rows: seq<R>, keyOf: R -> Key, x: R, g: map<Key, seq<R>>)
    requires forall k :: k in g <==> Select(rows, keyOf, k) != []
    requires forall k | k in g :: g[k] == Select(rows, keyOf, k)
    ensures var g' := g[keyOf(x) := (if keyOf(x) in g then g[keyOf(x)] else []) + [x]];
      && (forall k :: k in g' <==> Select(rows + [x], keyOf, k) != [])
      && (forall k | k in g' :: g'[k] == Select(rows + [x], keyOf, k))
  {
    forall k {
      SelectSnoc(rows, keyOf, x, k);
    }
  }

  /** Appending a row makes it the last row of its own key and leaves the
      last row of every other key as it was. */
  lemma LastWithSnoc<R>(rows: seq<R>, keyOf: R -> Key, x: R, k: Key)
    ensures LastWith(rows + [x], keyOf, k) == if keyOf(x) == k then Some(x) else LastWith(rows, keyOf, k)
  {
    assert (rows + [x])[..|rows|] == rows;
  }

  /** Filtering the rows down to `keys` first does not change the last row
      of any key among `keys`. */
  lemma {:induction false} LastWithAmong<R>(rows: seq<R>, keyOf: R -> Key, keys: seq<Key>, k: Key)
    requires k in keys
    ensures LastWith(SelectAmong(rows, keyOf, keys), keyOf, k) == LastWith(rows, keyOf, k)
  {
    if rows != [] {
      var front, x := rows[..|rows| - 1], rows[|rows| - 1];
      assert rows == front + [x];
      LastWithAmong(front, keyOf, keys, k);
      LastWithSnoc(front, keyOf, x, k);
      var sa := SelectAmong(front, keyOf, keys);
      if keyOf(x) in keys {
        assert SelectAmong(rows, keyOf, keys) == sa + [x];
        LastWithSnoc(sa, keyOf, x, k);
      } else {
        assert SelectAmong(rows, keyOf, keys) == sa;
      }
    }
  }

  /** Filtering the rows down to `keys` first does not change the group of
      any key among `keys`. */
  lemma {:induction false} SelectAmongThenSelect<R>(rows: seq<R>, keyOf: R -> Key, keys: seq<Key>, k: Key)
    requires k in keys
    ensures Select(SelectAmong(rows, keyOf, keys), keyOf, k) == Select(rows, keyOf, k)
  {
    if rows != [] {
      var front, x := rows[..|rows| - 1], rows[|rows| - 1];
      SelectAmongThenSelect(front, keyOf, keys, k);
      var sa := SelectAmong(front, keyOf, keys);
      if keyOf(x) in keys {
        assert SelectAmong(rows, keyOf, keys) == sa + [x];
        assert (sa + [x])[..|sa + [x]| - 1] == sa;
      } else {
        assert SelectAmong(rows, keyOf, keys) == sa;
      }
    }
  }

  /** Selecting among no keys selects no rows. */
  lemma {:induction false} SelectAmongNothing<R>(rows: seq<R>, keyOf: R -> Key)
    ensures SelectAmong(rows, keyOf, []) == []
  {
    if rows != [] {
      SelectAmongNothing(rows[..|rows| - 1], keyOf);
    }
  }

  /** Selecting among `[k] + rest`, with `k` not in `rest`, splits into the
      group of `k` and the selection among `rest`. */
  lemma {:induction false} SelectAmongSplit<R>(rows: seq<R>, keyOf: R -> Key, k: Key, rest: seq<Key>)
    requires k !in rest
    ensures multiset(SelectAmong(rows, keyOf, [k] + rest)) ==
      multiset(Select(rows, keyOf, k)) + multiset(SelectAmong(rows, keyOf, rest))
    ensures |SelectAmong(rows, keyOf, [k] + rest)| == |Select(rows, keyOf, k)| + |SelectAmong(rows, keyOf, rest)|
  {
    if rows != [] {
      SelectAmongSplit(rows[..|rows| - 1], keyOf, k, rest);
    }
  }

  /** Grouping conserves rows: over distinct keys, the group sizes add up to
      the number of rows whose key is among the keys. */
  lemma {:induction false} GroupSizesConserveRows<R>(rows: seq<R>, keyOf: R -> Key, keys: seq<Key>)
    requires Distinct(keys)
    ensures SelectedCount(rows, keyOf, keys) == |SelectAmong(rows, keyOf, keys)|
  {
    if keys == [] {
      SelectAmongNothing(rows, keyOf);
    } else {
      var rest := keys[1..];
      assert keys == [keys[0]] + rest;
      assert Distinct(rest) by {
        forall i, j | 0 <= i < |rest| && 0 <= j < |rest| && i != j
          ensures rest[i] != rest[j]
        {
          assert rest[i] == keys[i + 1] && rest[j] == keys[j + 1];
        }
      }
      assert keys[0] !in rest by {
        forall i | 0 <= i < |rest| ensures rest[i] != keys[0] {
          assert rest[i] == keys[i + 1];
        }
      }
      GroupSizesConserveRows(rows, keyOf, rest);
      SelectAmongSplit(rows, keyOf, keys[0], rest);
    }
  }
}
