/** The data-frame reductions the reports use, over a sequence of rows: a column is a
    projection `R -> K`, `groupby(key)[value].sum()` is `GroupSum`, `.nunique()` per
    group is `GroupIds`, `idxmax` is `ArgMax`, `sort_values` is `SortBy` and
    `.tail(n)` of a sorted series is `Top`. Each fold is proved against a direct
    reference definition (`SumWhere`, `IdsWhere`). */
module Frames {
  import opened Seqs

  // ---------------------------------------------------------------------------
  // Columns and group keys

  /** The values of one column, row by row. */
  function Column<R, K>(rows: seq<R>, key: R -> K): (c: seq<K>)
    ensures |c| == |rows|
    ensures forall i :: 0 <= i < |rows| ==> c[i] == key(rows[i])
  {
    seq(|rows|, i requires 0 <= i < |rows| => key(rows[i]))
  }

  /** The groups of `groupby(key)`: the distinct keys, in order of first appearance. */
  function Keys<R, K(==)>(rows: seq<R>, key: R -> K): seq<K> {
    Dedup(Column(rows, key))
  }

  /** The keys that occur, as a set. */
  function KeySet<R, K>(rows: seq<R>, key: R -> K): set<K> {
    set i | 0 <= i < |rows| :: key(rows[i])
  }

  /** Some row has this key. */
  predicate HasKey<R, K(==)>(rows: seq<R>, key: R -> K, k: K) {
    exists i :: 0 <= i < |rows| && key(rows[i]) == k
  }

  /** Every key of a row is a group, there is no other group, and no group appears twice. */
  lemma KeysMembers<R, K>(rows: seq<R>, key: R -> K)
    ensures NoDuplicates(Keys(rows, key))
    ensures forall k :: k in Keys(rows, key) <==> HasKey(rows, key, k)
  {
    var c := Column(rows, key);
    DedupMembers(c);
    DedupNoDuplicates(c);
    forall k ensures k in c <==> HasKey(rows, key, k) {
      if k in c {
        var i :| 0 <= i < |c| && c[i] == k;
        assert key(rows[i]) == k;
      }
    }
  }

  /** Every row's key sits at some position of the groups. */
  lemma KeysCoverRows<R, K>(rows: seq<R>, key: R -> K)
    ensures forall k :: 0 <= k < |rows| ==> exists i :: 0 <= i < |Keys(rows, key)| && Keys(rows, key)[i] == key(rows[k])
  {
    var ks := Keys(rows, key);
    KeysMembers(rows, key);
    forall k | 0 <= k < |rows| ensures exists i :: 0 <= i < |ks| && ks[i] == key(rows[k]) {
      assert HasKey(rows, key, key(rows[k]));
    }
  }

  /** Every group is the key of some row. */
  lemma KeysFromRows<R, K>(rows: seq<R>, key: R -> K)
    ensures forall i :: 0 <= i < |Keys(rows, key)| ==> exists k :: 0 <= k < |rows| && key(rows[k]) == Keys(rows, key)[i]
  {
    var ks := Keys(rows, key);
    KeysMembers(rows, key);
    forall i | 0 <= i < |ks| ensures exists k :: 0 <= k < |rows| && key(rows[k]) == ks[i] {
      assert ks[i] in ks;
      assert HasKey(rows, key, ks[i]);
    }
  }

  /** Entries that carry the groups in order, one each, are about exactly the keys of the rows. */
  lemma LabelsAreKeys<R, K, L>(rows: seq<R>, key: R -> K, entries: seq<L>, tag: L -> K)
    requires |entries| == |Keys(rows, key)|
    requires forall i :: 0 <= i < |entries| ==> tag(entries[i]) == Keys(rows, key)[i]
    ensures KeySet(entries, tag) == KeySet(rows, key)
  {
    var ks := Keys(rows, key);
    var mine := KeySet(entries, tag);
    var theirs := KeySet(rows, key);
    forall x | x in mine ensures x in theirs {
      var i :| 0 <= i < |entries| && tag(entries[i]) == x;
      KeysFromRows(rows, key);
      var k :| 0 <= k < |rows| && key(rows[k]) == ks[i];
    }
    forall x | x in theirs ensures x in mine {
      var k :| 0 <= k < |rows| && key(rows[k]) == x;
      KeysCoverRows(rows, key);
      var i :| 0 <= i < |ks| && ks[i] == key(rows[k]);
    }
  }

  /** A new row adds its key at the end when the key is new, and nothing otherwise. */
  lemma KeysStep<R, K>(rows: seq<R>, key: R -> K, r: R)
    ensures Keys(rows + [r], key) ==
      if key(r) in Keys(rows, key) then Keys(rows, key) else Keys(rows, key) + [key(r)]
  {
    var c := Column(rows + [r], key);
    assert c[..|c| - 1] == Column(rows, key);
    assert c[|c| - 1] == key(r);
    assert Keys(rows + [r], key) == Dedup(c);
    DedupMembers(Column(rows, key));
    assert key(r) in Keys(rows, key) <==> key(r) in Column(rows, key);
  }

  lemma HasKeyStep<R, K>(rows: seq<R>, key: R -> K, r: R, k: K)
    ensures HasKey(rows + [r], key, k) <==> HasKey(rows, key, k) || key(r) == k
  {
    if HasKey(rows + [r], key, k) {
      var i :| 0 <= i < |rows| + 1 && key((rows + [r])[i]) == k;
      if i < |rows| { assert (rows + [r])[i] == rows[i]; }
    }
    if HasKey(rows, key, k) {
      var i :| 0 <= i < |rows| && key(rows[i]) == k;
      assert (rows + [r])[i] == rows[i];
    }
    if key(r) == k {
      assert (rows + [r])[|rows|] == r;
    }
  }

  /** `df[df[key] == k]`: the rows with this key, in order. */
  function Where<R(==), K(==)>(rows: seq<R>, key: R -> K, k: K): (r: seq<R>)
    ensures |r| <= |rows|
    ensures forall i :: 0 <= i < |r| ==> r[i] in rows && key(r[i]) == k
    ensures forall i :: 0 <= i < |rows| && key(rows[i]) == k ==> rows[i] in r
  {
    if rows == [] then []
    else
      var init, last := rows[..|rows| - 1], rows[|rows| - 1];
      assert rows == init + [last];
      Where(init, key, k) + (if key(last) == k then [last] else [])
  }

  /** The selection is empty exactly when no row has the key. */
  lemma WhereEmpty<R, K>(rows: seq<R>, key: R -> K, k: K)
    ensures Where(rows, key, k) == [] <==> !HasKey(rows, key, k)
  {
    if HasKey(rows, key, k) {
      var i :| 0 <= i < |rows| && key(rows[i]) == k;
      assert rows[i] in Where(rows, key, k);
    }
  }

  // ---------------------------------------------------------------------------
  // Sums

  /** The sum of `value` over all rows: `df[value].sum()`. */
  function Total<R>(rows: seq<R>, value: R -> real): real {
    if rows == [] then 0.0 else Total(rows[..|rows| - 1], value) + value(rows[|rows| - 1])
  }

  /** The sum of `value` over the rows whose key is `k`. */
  function SumWhere<R, K(==)>(rows: seq<R>, key: R -> K, k: K, value: R -> real): real {
    if rows == [] then 0.0
    else
      var r := rows[|rows| - 1];
      SumWhere(rows[..|rows| - 1], key, k, value) + (if key(r) == k then value(r) else 0.0)
  }

  lemma SumWhereStep<R, K>(rows: seq<R>, key: R -> K, r: R, k: K, value: R -> real)
    ensures SumWhere(rows + [r], key, k, value) == SumWhere(rows, key, k, value) + (if key(r) == k then value(r) else 0.0)
    ensures Total(rows + [r], value) == Total(rows, value) + value(r)
  {
    assert (rows + [r])[..|rows|] == rows;
  }

  /** A key no row has sums to zero. */
  lemma {:induction false} SumWhereAbsent<R, K>(rows: seq<R>, key: R -> K, k: K, value: R -> real)
    ensures !HasKey(rows, key, k) ==> SumWhere(rows, key, k, value) == 0.0
  {
    if rows != [] && !HasKey(rows, key, k) {
      var init := rows[..|rows| - 1];
      assert rows == init + [rows[|rows| - 1]];
      HasKeyStep(init, key, rows[|rows| - 1], k);
      SumWhereAbsent(init, key, k, value);
    }
  }

  /** `groupby(key)[value].sum()`, folded row by row: one entry per group, holding the
      sum over that group's rows. */
  function GroupSum<R, K(==,!new)>(rows: seq<R>, key: R -> K, value: R -> real): (m: map<K, real>)
    ensures forall k :: k in m <==> HasKey(rows, key, k)
    ensures forall k :: k in m ==> m[k] == SumWhere(rows, key, k, value)
  {
    if rows == [] then map[]
    else
      var init, r := rows[..|rows| - 1], rows[|rows| - 1];
      var m := GroupSum(init, key, value);
      assert rows == init + [r];
      SumWhereAbsent(init, key, key(r), value);
      assert forall k :: HasKey(rows, key, k) <==> HasKey(init, key, k) || key(r) == k by {
        forall k ensures HasKey(rows, key, k) <==> HasKey(init, key, k) || key(r) == k {
          HasKeyStep(init, key, r, k);
        }
      }
      m[key(r) := (if key(r) in m then m[key(r)] else 0.0) + value(r)]
  }

  /** The group sums in group order: `groupby(key)[value].sum().values`. */
  function GroupTotals<R, K(==)>(rows: seq<R>, key: R -> K, value: R -> real, ks: seq<K>): (t: seq<real>)
    ensures |t| == |ks|
    ensures forall i :: 0 <= i < |ks| ==> t[i] == SumWhere(rows, key, ks[i], value)
  {
    if ks == [] then [] else GroupTotals(rows, key, value, ks[..|ks| - 1]) + [SumWhere(rows, key, ks[|ks| - 1], value)]
  }

  /** The sum of a sequence of numbers. */
  function SumOf(xs: seq<real>): real {
    if xs == [] then 0.0 else SumOf(xs[..|xs| - 1]) + xs[|xs| - 1]
  }

  lemma SumOfTotalsStep<R, K>(rows: seq<R>, key: R -> K, value: R -> real, ks: seq<K>, k: K)
    ensures SumOf(GroupTotals(rows, key, value, ks + [k])) ==
      SumOf(GroupTotals(rows, key, value, ks)) + SumWhere(rows, key, k, value)
  {
    assert (ks + [k])[..|ks|] == ks;
    var t := GroupTotals(rows, key, value, ks + [k]);
    assert t[..|t| - 1] == GroupTotals(rows, key, value, ks);
  }

  /** Adding a row adds its value to the total of its own group and to no other. */
  lemma {:induction false} SumOfTotalsAddRow<R, K>(rows: seq<R>, key: R -> K, value: R -> real, ks: seq<K>, r: R)
    requires NoDuplicates(ks)
    ensures SumOf(GroupTotals(rows + [r], key, value, ks)) ==
      SumOf(GroupTotals(rows, key, value, ks)) + (if key(r) in ks then value(r) else 0.0)
  {
    if ks != [] {
      var init, k := ks[..|ks| - 1], ks[|ks| - 1];
      assert ks == init + [k];
      assert NoDuplicates(init);
      assert k !in init by {
        forall j | 0 <= j < |init| ensures init[j] != k {
          assert ks[j] != ks[|ks| - 1];
        }
      }
      SumOfTotalsAddRow(rows, key, value, init, r);
      SumOfTotalsStep(rows + [r], key, value, init, k);
      SumOfTotalsStep(rows, key, value, init, k);
      SumWhereStep(rows, key, r, k, value);
    }
  }

  /** The group sums add up to the column total: grouping neither loses nor counts
      twice any row. */
  lemma {:induction false} GroupTotalsConserve<R, K>(rows: seq<R>, key: R -> K, value: R -> real)
    ensures SumOf(GroupTotals(rows, key, value, Keys(rows, key))) == Total(rows, value)
  {
    if rows != [] {
      var init, r := rows[..|rows| - 1], rows[|rows| - 1];
      assert rows == init + [r];
      GroupTotalsConserve(init, key, value);
      LastRowConserves(init, r, key, value);
    }
  }

  /** Adding one row adds its value to exactly one group: an existing one, or a new last one. */
  lemma LastRowConserves<R, K>(init: seq<R>, r: R, key: R -> K, value: R -> real)
    requires SumOf(GroupTotals(init, key, value, Keys(init, key))) == Total(init, value)
    ensures SumOf(GroupTotals(init + [r], key, value, Keys(init + [r], key))) == Total(init + [r], value)
  {
    var rows := init + [r];
    var ks, kr := Keys(init, key), key(r);
    KeysMembers(init, key);
    KeysStep(init, key, r);
    SumOfTotalsAddRow(init, key, value, ks, r);
    SumWhereStep(init, key, r, kr, value);
    if kr in ks {
      assert Keys(rows, key) == ks;
    } else {
      assert Keys(rows, key) == ks + [kr];
      SumOfTotalsStep(rows, key, value, ks, kr);
      assert SumOf(GroupTotals(rows, key, value, ks)) == Total(init, value);
      assert !HasKey(init, key, kr);
      SumWhereAbsent(init, key, kr, value);
      assert SumWhere(rows, key, kr, value) == value(r);
    }
  }

  // ---------------------------------------------------------------------------
  // Distinct counts

  /** The distinct `id`s among the rows whose key is `k`. */
  function IdsWhere<R, K(==), I(==)>(rows: seq<R>, key: R -> K, k: K, id: R -> I): set<I> {
    if rows == [] then {}
    else
      var r := rows[|rows| - 1];
      IdsWhere(rows[..|rows| - 1], key, k, id) + (if key(r) == k then {id(r)} else {})
  }

  /** An id is counted for a key exactly when some row has both. */
  lemma {:induction false} IdsWhereMembers<R, K, I>(rows: seq<R>, key: R -> K, k: K, id: R -> I)
    ensures forall x :: x in IdsWhere(rows, key, k, id) <==>
      exists i :: 0 <= i < |rows| && key(rows[i]) == k && id(rows[i]) == x
  {
    if rows != [] {
      var init, r := rows[..|rows| - 1], rows[|rows| - 1];
      IdsWhereMembers(init, key, k, id);
      forall x ensures x in IdsWhere(rows, key, k, id) <==>
        exists i :: 0 <= i < |rows| && key(rows[i]) == k && id(rows[i]) == x
      {
        if x in IdsWhere(init, key, k, id) {
          var i :| 0 <= i < |init| && key(init[i]) == k && id(init[i]) == x;
          assert rows[i] == init[i];
        }
        if exists i :: 0 <= i < |rows| && key(rows[i]) == k && id(rows[i]) == x {
          var i :| 0 <= i < |rows| && key(rows[i]) == k && id(rows[i]) == x;
          if i < |init| {
            assert rows[i] == init[i];
          }
        }
      }
    }
  }

  /** `groupby(key)[id]` collected into sets, folded row by row: per group, the ids of
      its rows. `.nunique()` is the size of each set. */
  function GroupIds<R, K(==,!new), I(==)>(rows: seq<R>, key: R -> K, id: R -> I): (m: map<K, set<I>>)
    ensures forall k :: k in m <==> HasKey(rows, key, k)
    ensures forall k :: k in m ==> m[k] == IdsWhere(rows, key, k, id)
  {
    if rows == [] then map[]
    else
      var init, r := rows[..|rows| - 1], rows[|rows| - 1];
      var m := GroupIds(init, key, id);
      assert rows == init + [r];
      IdsWhereAbsent(init, key, key(r), id);
      assert forall k :: HasKey(rows, key, k) <==> HasKey(init, key, k) || key(r) == k by {
        forall k ensures HasKey(rows, key, k) <==> HasKey(init, key, k) || key(r) == k {
          HasKeyStep(init, key, r, k);
        }
      }
      assert forall k :: (IdsWhere(rows, key, k, id) ==
        IdsWhere(init, key, k, id) + (if key(r) == k then {id(r)} else {})) by {
        forall k ensures IdsWhere(rows, key, k, id) == IdsWhere(init, key, k, id) + (if key(r) == k then {id(r)} else {}) {
          IdsWhereStep(init, key, r, k, id);
        }
      }
      m[key(r) := (if key(r) in m then m[key(r)] else {}) + {id(r)}]
  }

  /** Each row's id is among the ids of its key. */
  lemma {:induction false} IdsWhereHas<R, K, I>(rows: seq<R>, key: R -> K, id: R -> I, i: nat)
    requires i < |rows|
    ensures id(rows[i]) in IdsWhere(rows, key, key(rows[i]), id)
  {
    if i < |rows| - 1 {
      var init := rows[..|rows| - 1];
      IdsWhereHas(init, key, id, i);
      assert init[i] == rows[i];
    }
  }

  /** A key no row has has no ids. */
  lemma IdsWhereAbsent<R, K, I>(rows: seq<R>, key: R -> K, k: K, id: R -> I)
    ensures !HasKey(rows, key, k) ==> IdsWhere(rows, key, k, id) == {}
  {
    IdsWhereMembers(rows, key, k, id);
    if IdsWhere(rows, key, k, id) != {} {
      var x :| x in IdsWhere(rows, key, k, id);
      var i :| 0 <= i < |rows| && key(rows[i]) == k && id(rows[i]) == x;
      assert HasKey(rows, key, k);
    }
  }

  lemma IdsWhereStep<R, K, I>(rows: seq<R>, key: R -> K, r: R, k: K, id: R -> I)
    ensures IdsWhere(rows + [r], key, k, id) == IdsWhere(rows, key, k, id) + (if key(r) == k then {id(r)} else {})
  {
    assert (rows + [r])[..|rows|] == rows;
  }

  /** Every group has at least one distinct id, so a per-group average is defined. */
  lemma GroupIdsNonEmpty<R, K(!new), I>(rows: seq<R>, key: R -> K, id: R -> I, k: K)
    requires HasKey(rows, key, k)
    ensures |GroupIds(rows, key, id)[k]| >= 1
  {
    var i :| 0 <= i < |rows| && key(rows[i]) == k;
    IdsWhereHas(rows, key, id, i);
  }

  /** `df[id].nunique()`: the number of distinct values of a column, which is the
      number of groups of `groupby(id)`. */
  lemma DistinctIsGroupCount<R, I>(rows: seq<R>, id: R -> I)
    ensures |Keys(rows, id)| == |KeySet(rows, id)|
  {
    var c := Column(rows, id);
    DedupCardinality(c);
    assert Elements(c) == KeySet(rows, id) by {
      forall x | x in Elements(c) ensures x in KeySet(rows, id) {
        var i :| 0 <= i < |c| && c[i] == x;
      }
    }
  }

  // ---------------------------------------------------------------------------
  // Mean, maximum, minimum

  function MaxOf(xs: seq<real>): (m: real)
    requires |xs| > 0
    ensures m in xs
    ensures forall i :: 0 <= i < |xs| ==> xs[i] <= m
  {
    if |xs| == 1 then xs[0]
    else
      var rest := MaxOf(xs[1..]);
      assert forall i :: 0 < i < |xs| ==> xs[i] == xs[1..][i - 1];
      if xs[0] >= rest then xs[0] else rest
  }

  function MinOf(xs: seq<real>): (m: real)
    requires |xs| > 0
    ensures m in xs
    ensures forall i :: 0 <= i < |xs| ==> m <= xs[i]
  {
    if |xs| == 1 then xs[0]
    else
      var rest := MinOf(xs[1..]);
      assert forall i :: 0 < i < |xs| ==> xs[i] == xs[1..][i - 1];
      if xs[0] <= rest then xs[0] else rest
  }

  function Mean(xs: seq<real>): real
    requires |xs| > 0
  {
    SumOf(xs) / |xs| as real
  }

  lemma {:induction false} SumOfBounds(xs: seq<real>, lo: real, hi: real)
    requires forall i :: 0 <= i < |xs| ==> lo <= xs[i] <= hi
    ensures |xs| as real * lo <= SumOf(xs) <= |xs| as real * hi
  {
    if xs != [] {
      SumOfBounds(xs[..|xs| - 1], lo, hi);
    }
  }

  /** The mean lies between the smallest and the largest value. */
  lemma MinMeanMax(xs: seq<real>)
    requires |xs| > 0
    ensures MinOf(xs) <= Mean(xs) <= MaxOf(xs)
  {
    MeanBounds(xs, MinOf(xs), MaxOf(xs));
  }

  /** Over the group totals of non-empty rows, the largest and the smallest are the totals
      of some group, and every group's total lies between them. */
  lemma GroupExtremes<R, K>(rows: seq<R>, key: R -> K, value: R -> real)
    requires |rows| > 0
    ensures var t := GroupTotals(rows, key, value, Keys(rows, key));
      && |t| > 0
      && (forall k :: 0 <= k < |rows| ==> MinOf(t) <= SumWhere(rows, key, key(rows[k]), value) <= MaxOf(t))
      && (exists k :: 0 <= k < |rows| && SumWhere(rows, key, key(rows[k]), value) == MaxOf(t))
      && (exists k :: 0 <= k < |rows| && SumWhere(rows, key, key(rows[k]), value) == MinOf(t))
  {
    var ks := Keys(rows, key);
    var t := GroupTotals(rows, key, value, ks);
    KeysMembers(rows, key);
    assert HasKey(rows, key, key(rows[0]));
    forall k | 0 <= k < |rows| ensures MinOf(t) <= SumWhere(rows, key, key(rows[k]), value) <= MaxOf(t) {
      assert HasKey(rows, key, key(rows[k]));
      var j :| 0 <= j < |ks| && ks[j] == key(rows[k]);
      assert t[j] == SumWhere(rows, key, key(rows[k]), value);
    }
    var imax :| 0 <= imax < |t| && t[imax] == MaxOf(t);
    assert ks[imax] in ks;
    var kmax :| 0 <= kmax < |rows| && key(rows[kmax]) == ks[imax];
    assert SumWhere(rows, key, key(rows[kmax]), value) == MaxOf(t);
    var imin :| 0 <= imin < |t| && t[imin] == MinOf(t);
    assert ks[imin] in ks;
    var kmin :| 0 <= kmin < |rows| && key(rows[kmin]) == ks[imin];
    assert SumWhere(rows, key, key(rows[kmin]), value) == MinOf(t);
  }

  lemma MeanBounds(xs: seq<real>, lo: real, hi: real)
    requires |xs| > 0
    requires forall i :: 0 <= i < |xs| ==> lo <= xs[i] <= hi
    ensures lo <= Mean(xs) <= hi
  {
    SumOfBounds(xs, lo, hi);
    DivideBounds(SumOf(xs), |xs| as real, lo, hi);
  }

  lemma DivideBounds(s: real, n: real, lo: real, hi: real)
    requires n > 0.0 && n * lo <= s <= n * hi
    ensures lo <= s / n <= hi
  {
    var q := s / n;
    assert q * n == s;
    assert (q - lo) * n == s - lo * n;
    assert (hi - q) * n == hi * n - s;
  }

  // ---------------------------------------------------------------------------
  // idxmax

  /** `idxmax` over a group index (pandas keeps group keys in ascending order): the key
      with the largest score, and the smallest such key when several share it. */
  function ArgMax(keys: seq<nat>, score: nat -> real): (k: nat)
    requires |keys| > 0
    ensures k in keys
    ensures forall j :: j in keys ==> score(j) <= score(k)
    ensures forall j :: j in keys && score(j) == score(k) ==> k <= j
  {
    if |keys| == 1 then keys[0]
    else
      var best := ArgMax(keys[1..], score);
      assert forall j :: j in keys ==> j == keys[0] || j in keys[1..];
      if score(keys[0]) > score(best) || (score(keys[0]) == score(best) && keys[0] <= best) then keys[0] else best
  }

  // ---------------------------------------------------------------------------
  // Sorting and the top entries

  predicate SortedBy<T>(xs: seq<T>, score: T -> real) {
    forall i, j :: 0 <= i < j < |xs| ==> score(xs[i]) <= score(xs[j])
  }

  function Insert<T(==)>(x: T, xs: seq<T>, score: T -> real): (r: seq<T>)
    requires SortedBy(xs, score)
    ensures SortedBy(r, score)
    ensures multiset(r) == multiset(xs) + multiset{x}
  {
    if xs == [] then [x]
    else if score(x) <= score(xs[0]) then [x] + xs
    else
      var rest := Insert(x, xs[1..], score);
      LeastStaysFirst(xs, x, rest, score);
      SortedCons(xs[0], rest, score);
      assert multiset([xs[0]] + rest) == multiset(xs) + multiset{x} by {
        assert xs == [xs[0]] + xs[1..];
      }
      [xs[0]] + rest
  }

  /** The head of a sorted list is at most every entry of the tail and of `x`, when `x`
      scores above it. */
  lemma LeastStaysFirst<T>(xs: seq<T>, x: T, rest: seq<T>, score: T -> real)
    requires SortedBy(xs, score) && xs != [] && score(xs[0]) < score(x)
    requires multiset(rest) == multiset(xs[1..]) + multiset{x}
    ensures forall y :: y in rest ==> score(xs[0]) <= score(y)
  {
    forall y | y in rest ensures score(xs[0]) <= score(y) {
      assert y in multiset(rest);
      if y != x {
        assert y in multiset(xs[1..]);
        var j :| 0 <= j < |xs[1..]| && xs[1..][j] == y;
        assert xs[j + 1] == y;
      }
    }
  }

  lemma SortedCons<T>(h: T, rest: seq<T>, score: T -> real)
    requires SortedBy(rest, score) && forall y :: y in rest ==> score(h) <= score(y)
    ensures SortedBy([h] + rest, score)
  {
    var r := [h] + rest;
    assert forall j :: 0 < j < |r| ==> r[j] == rest[j - 1];
    assert forall j :: 0 < j < |r| ==> r[j] in rest;
  }

  /** `sort_values(ascending=True)`: the same entries, by non-decreasing score. Ties are
      left in an order pandas does not promise either. */
  function SortBy<T(==)>(xs: seq<T>, score: T -> real): (r: seq<T>)
    ensures SortedBy(r, score)
    ensures multiset(r) == multiset(xs)
  {
    if xs == [] then []
    else
      assert xs == [xs[0]] + xs[1..];
      Insert(xs[0], SortBy(xs[1..], score), score)
  }

  /** `.sort_values(ascending=True).tail(n)`. */
  function Top<T(==)>(xs: seq<T>, score: T -> real, n: nat): seq<T> {
    var sorted := SortBy(xs, score);
    var cut := if |sorted| <= n then 0 else |sorted| - n;
    sorted[cut..]
  }

  /** The top entries: at most `n` (exactly `n` when there are enough), ascending, taken
      from the input, and none of the entries left out scores above any entry kept. */
  lemma TopDominates<T>(xs: seq<T>, score: T -> real, n: nat)
    ensures |Top(xs, score, n)| == (if |xs| <= n then |xs| else n)
    ensures SortedBy(Top(xs, score, n), score)
    ensures multiset(Top(xs, score, n)) <= multiset(xs)
    ensures forall x, y :: x in xs && x !in Top(xs, score, n) && y in Top(xs, score, n) ==> score(x) <= score(y)
  {
    var sorted := SortBy(xs, score);
    assert |sorted| == |multiset(sorted)| == |multiset(xs)| == |xs|;
    var cut := if |sorted| <= n then 0 else |sorted| - n;
    var top := sorted[cut..];
    assert sorted == sorted[..cut] + top;
    assert multiset(sorted) == multiset(sorted[..cut]) + multiset(top);
    forall x, y | x in xs && x !in top && y in top ensures score(x) <= score(y) {
      assert x in multiset(xs);
      assert x in multiset(sorted);
      var i :| 0 <= i < |sorted| && sorted[i] == x;
      var j :| 0 <= j < |top| && top[j] == y;
      assert sorted[cut + j] == y;
    }
  }
}
