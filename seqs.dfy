/** Sequence operations shared by the scripts: first-occurrence de-duplication
    (pandas `drop_duplicates`, `unique`), concatenation of pieces (`list.extend`
    in a loop) and the all-or-nothing collection of results that may have failed. */
module Seqs {
  import opened Wrappers

  predicate NoDuplicates<T(==)>(s: seq<T>) {
    forall i, j :: 0 <= i < j < |s| ==> s[i] != s[j]
  }

  /** The position of the first occurrence of `x` in `s`. */
  function FirstIndex<T(==)>(s: seq<T>, x: T): (i: nat)
    requires x in s
    ensures i < |s| && s[i] == x && x !in s[..i]
  {
    if s[0] == x then 0 else 1 + FirstIndex(s[1..], x)
  }

  /** The first occurrence of every element, in the order of first occurrence. */
  function Dedup<T(==)>(s: seq<T>): seq<T> {
    if s == [] then []
    else
      var init := s[..|s| - 1];
      if s[|s| - 1] in init then Dedup(init) else Dedup(init) + [s[|s| - 1]]
  }

  /** De-duplication loses no element and invents none. */
  lemma {:induction false} DedupMembers<T>(s: seq<T>)
    ensures forall x :: x in Dedup(s) <==> x in s
  {
    if s != [] {
      var init := s[..|s| - 1];
      DedupMembers(init);
      assert s == init + [s[|s| - 1]];
    }
  }

  /** No element survives twice. */
  lemma {:induction false} DedupNoDuplicates<T>(s: seq<T>)
    ensures NoDuplicates(Dedup(s))
  {
    if s != [] {
      var init := s[..|s| - 1];
      DedupNoDuplicates(init);
      DedupMembers(init);
    }
  }

  /** A sequence without duplicates is left as it is. */
  lemma {:induction false} DedupOfDistinct<T>(s: seq<T>)
    requires NoDuplicates(s)
    ensures Dedup(s) == s
  {
    if s != [] {
      var init := s[..|s| - 1];
      assert NoDuplicates(init);
      DedupOfDistinct(init);
      assert s[|s| - 1] !in init by {
        forall k | 0 <= k < |init| ensures init[k] != s[|s| - 1] {
          assert s[k] != s[|s| - 1];
        }
      }
      assert s == init + [s[|s| - 1]];
    }
  }

  /** The elements of `d` occur in `s`, and in the order of their first occurrences there. */
  predicate InFirstOrder<T(==)>(d: seq<T>, s: seq<T>) {
    (forall i :: 0 <= i < |d| ==> d[i] in s)
    && forall i, j :: 0 <= i < j < |d| ==> FirstIndex(s, d[i]) < FirstIndex(s, d[j])
  }

  /** The survivors keep the order of their first occurrences in the input. */
  lemma {:induction false} DedupKeepsFirstOrder<T>(s: seq<T>)
    ensures InFirstOrder(Dedup(s), s)
  {
    if s != [] {
      var init, x := s[..|s| - 1], s[|s| - 1];
      assert s == init + [x];
      DedupKeepsFirstOrder(init);
      DedupMembers(init);
      InFirstOrderExtend(Dedup(init), init, x);
      if x !in init {
        InFirstOrderAppend(Dedup(init), init, x);
      }
    }
  }

  /** Appending to the sequence keeps the order of elements already in it. */
  lemma InFirstOrderExtend<T>(d: seq<T>, s: seq<T>, x: T)
    requires InFirstOrder(d, s)
    ensures InFirstOrder(d, s + [x])
  {
    forall i | 0 <= i < |d| ensures d[i] in s + [x] && FirstIndex(s + [x], d[i]) == FirstIndex(s, d[i]) {
      FirstIndexPrefix(s, [x], d[i]);
    }
  }

  /** A new element appended to both comes after all the others. */
  lemma InFirstOrderAppend<T>(d: seq<T>, s: seq<T>, x: T)
    requires InFirstOrder(d, s + [x]) && x !in s
    requires forall i :: 0 <= i < |d| ==> d[i] in s
    ensures InFirstOrder(d + [x], s + [x])
  {
    FirstIndexLast(s, x);
    forall i | 0 <= i < |d|
      ensures FirstIndex(s + [x], d[i]) < |s|
    {
      FirstIndexPrefix(s, [x], d[i]);
    }
    var e := d + [x];
    forall i | 0 <= i < |e| ensures e[i] in s + [x] {
      if i < |d| {
        assert e[i] == d[i];
      }
    }
    forall i, j | 0 <= i < j < |e|
      ensures FirstIndex(s + [x], e[i]) < FirstIndex(s + [x], e[j])
    {
      assert e[i] == d[i];
      if j < |d| {
        assert e[j] == d[j];
      }
    }
  }

  lemma {:induction false} FirstIndexPrefix<T>(a: seq<T>, b: seq<T>, y: T)
    requires y in a
    ensures y in a + b && FirstIndex(a + b, y) == FirstIndex(a, y)
  {
    if a[0] != y {
      assert (a + b)[1..] == a[1..] + b;
      FirstIndexPrefix(a[1..], b, y);
    }
  }

  lemma {:induction false} FirstIndexLast<T>(a: seq<T>, x: T)
    requires x !in a
    ensures FirstIndex(a + [x], x) == |a|
  {
    if a != [] {
      assert (a + [x])[1..] == a[1..] + [x];
      FirstIndexLast(a[1..], x);
    }
  }

  /** The elements of `s`, as a set. */
  function Elements<T>(s: seq<T>): set<T> {
    set x | x in s
  }

  /** As many survivors as there are distinct elements. */
  lemma {:induction false} DedupCardinality<T>(s: seq<T>)
    ensures |Dedup(s)| == |Elements(s)|
  {
    if s != [] {
      var init, x := s[..|s| - 1], s[|s| - 1];
      assert s == init + [x];
      DedupCardinality(init);
      var before, after := Elements(init), Elements(s);
      assert after == before + {x};
      if x in init {
        assert x in before;
        assert after == before;
      } else {
        assert x !in before;
        assert |after| == |before| + 1;
      }
    }
  }

  /** Appending is associative; stated once for element types whose equality is costly. */
  lemma AppendAssoc<T>(a: seq<T>, b: seq<T>, c: seq<T>)
    ensures a + (b + c) == (a + b) + c
  {
  }

  /** Concatenation of all pieces, in order. */
  function Flatten<T>(ss: seq<seq<T>>): seq<T> {
    if ss == [] then [] else Flatten(ss[..|ss| - 1]) + ss[|ss| - 1]
  }

  lemma {:induction false} FlattenAppend<T>(a: seq<seq<T>>, b: seq<seq<T>>)
    ensures Flatten(a + b) == Flatten(a) + Flatten(b)
  {
    if b != [] {
      assert (a + b)[..|a + b| - 1] == a + b[..|b| - 1];
      FlattenAppend(a, b[..|b| - 1]);
    } else {
      assert a + b == a;
    }
  }

  /** The total length of the pieces. */
  function TotalLength<T>(ss: seq<seq<T>>): nat {
    if ss == [] then 0 else TotalLength(ss[..|ss| - 1]) + |ss[|ss| - 1]|
  }

  lemma {:induction false} FlattenLength<T>(ss: seq<seq<T>>)
    ensures |Flatten(ss)| == TotalLength(ss)
  {
    if ss != [] {
      FlattenLength(ss[..|ss| - 1]);
    }
  }

  /** All pieces in order when every one is present; nothing as soon as one is missing
      (a loop that an exception anywhere aborts). */
  function Collect<T>(xs: seq<Option<seq<T>>>): (r: Option<seq<T>>)
    ensures r.None? <==> exists i :: 0 <= i < |xs| && xs[i].None?
  {
    if xs == [] then Some([])
    else
      var init := xs[..|xs| - 1];
      match (Collect(init), xs[|xs| - 1])
      case (Some(a), Some(b)) => Some(a + b)
      case _ => None
  }

  /** One more piece: Collect extends what the earlier pieces gave, or fails. */
  lemma CollectStep<T>(xs: seq<Option<seq<T>>>, n: nat)
    requires n < |xs|
    ensures Collect(xs[..n + 1]) == match (Collect(xs[..n]), xs[n])
      case (Some(a), Some(b)) => Some(a + b)
      case _ => None
  {
    assert xs[..n + 1][..n] == xs[..n];
  }

  /** With every piece present, the collection is their concatenation. */
  lemma {:induction false} CollectAllPresent<T>(xs: seq<Option<seq<T>>>)
    requires forall i :: 0 <= i < |xs| ==> xs[i].Some?
    ensures Collect(xs) == Some(Flatten(seq(|xs|, i requires 0 <= i < |xs| => xs[i].value)))
  {
    if xs != [] {
      var init := xs[..|xs| - 1];
      CollectAllPresent(init);
      var all := seq(|xs|, i requires 0 <= i < |xs| => xs[i].value);
      assert all[..|all| - 1] == seq(|init|, i requires 0 <= i < |init| => init[i].value);
    }
  }
}
