/** List operations the pipeline takes from the standard library: filtering in place
    and the stable sort by a descending key. */
module Seqs {

  function Retain<T>(s: seq<T>, keep: T -> bool): (r: seq<T>)
    ensures |r| <= |s|
  {
    if s == [] then []
    else
      var x := s[|s| - 1];
      Retain(s[..|s| - 1], keep) + (if keep(x) then [x] else [])
  }

  /** `Retain` keeps exactly the elements that pass. */
  lemma {:induction false} RetainHas<T>(s: seq<T>, keep: T -> bool, x: T)
    ensures x in Retain(s, keep) <==> x in s && keep(x)
  {
    if s != [] {
      assert s == s[..|s| - 1] + [s[|s| - 1]];
      RetainHas(s[..|s| - 1], keep, x);
    }
  }

  lemma RetainAppend<T>(s: seq<T>, x: T, keep: T -> bool)
    ensures Retain(s + [x], keep) == Retain(s, keep) + (if keep(x) then [x] else [])
  {
    assert (s + [x])[..|s|] == s;
  }

  function Map<T, U>(s: seq<T>, f: T -> U): (r: seq<U>)
    ensures |r| == |s| && forall i | 0 <= i < |s| :: r[i] == f(s[i])
  {
    if s == [] then [] else Map(s[..|s| - 1], f) + [f(s[|s| - 1])]
  }

  lemma MapAppend<T, U>(s: seq<T>, x: T, f: T -> U)
    ensures Map(s + [x], f) == Map(s, f) + [f(x)]
  {
    assert (s + [x])[..|s|] == s;
  }

  lemma MapTake<T, U>(s: seq<T>, n: nat, f: T -> U)
    requires n <= |s|
    ensures Map(s[..n], f) == Map(s, f)[..n]
  {}

  /** Filtering commutes with a map that preserves the test. */
  lemma {:induction false} MapRetain<T, U>(s: seq<T>, f: T -> U, keep: T -> bool, keep': U -> bool)
    requires forall x | x in s :: keep'(f(x)) == keep(x)
    ensures Map(Retain(s, keep), f) == Retain(Map(s, f), keep')
  {
    if s != [] {
      var front, x := s[..|s| - 1], s[|s| - 1];
      var r := Retain(front, keep);
      assert x in s && (forall y | y in front :: y in s) && r + [] == r;
      assert Map(s, f)[..|s| - 1] == Map(front, f);
      MapAppend(r, x, f);
      MapRetain(front, f, keep, keep');
    }
  }

  // ---- sorting ----

  /** Inserts after every element with at least the same key. */
  function InsertDesc<T>(s: seq<T>, x: T, key: T -> nat): (r: seq<T>)
    ensures |r| == |s| + 1
  {
    if s == [] || key(s[|s| - 1]) >= key(x) then s + [x]
    else InsertDesc(s[..|s| - 1], x, key) + [s[|s| - 1]]
  }

  /** The stable sort by descending key. */
  function SortDesc<T>(s: seq<T>, key: T -> nat): (r: seq<T>)
    ensures |r| == |s|
  {
    if s == [] then [] else InsertDesc(SortDesc(s[..|s| - 1], key), s[|s| - 1], key)
  }

  predicate Descending<T>(s: seq<T>, key: T -> nat) {
    forall i, j | 0 <= i < j < |s| :: key(s[i]) >= key(s[j])
  }

  function HasKey<T>(key: T -> nat, k: nat): T -> bool {
    x => key(x) == k
  }

  /** The elements with one key, in order. */
  function WithKey<T>(s: seq<T>, key: T -> nat, k: nat): seq<T> {
    Retain(s, HasKey(key, k))
  }

  lemma {:induction false} InsertPermutes<T>(s: seq<T>, x: T, key: T -> nat)
    ensures multiset(InsertDesc(s, x, key)) == multiset(s) + multiset{x}
  {
    if s != [] && key(s[|s| - 1]) < key(x) {
      assert s == s[..|s| - 1] + [s[|s| - 1]];
      InsertPermutes(s[..|s| - 1], x, key);
    }
  }

  lemma {:induction false} InsertHas<T>(s: seq<T>, x: T, key: T -> nat, y: T)
    requires y in InsertDesc(s, x, key)
    ensures y in s || y == x
  {
    if s != [] && key(s[|s| - 1]) < key(x) && y != s[|s| - 1] {
      InsertHas(s[..|s| - 1], x, key, y);
    }
  }

  lemma {:induction false} InsertDescends<T>(s: seq<T>, x: T, key: T -> nat)
    requires Descending(s, key)
    ensures Descending(InsertDesc(s, x, key), key)
  {
    if s != [] && key(s[|s| - 1]) < key(x) {
      var front, last := s[..|s| - 1], s[|s| - 1];
      InsertDescends(front, x, key);
      var r := InsertDesc(front, x, key);
      forall i | 0 <= i < |r| ensures key(r[i]) >= key(last) {
        InsertHas(front, x, key, r[i]);
      }
    }
  }

  lemma WithKeyAppend<T>(s: seq<T>, x: T, key: T -> nat, k: nat)
    ensures WithKey(s + [x], key, k) == WithKey(s, key, k) + (if key(x) == k then [x] else [])
  {
    RetainAppend(s, x, HasKey(key, k));
  }

  lemma {:induction false} InsertIsStable<T>(s: seq<T>, x: T, key: T -> nat, k: nat)
    ensures WithKey(InsertDesc(s, x, key), key, k) == WithKey(s, key, k) + (if key(x) == k then [x] else [])
  {
    WithKeyAppend(s, x, key, k);
    if s != [] && key(s[|s| - 1]) < key(x) {
      var front, last := s[..|s| - 1], s[|s| - 1];
      assert s == front + [last];
      InsertIsStable(front, x, key, k);
      WithKeyAppend(front, last, key, k);
      WithKeyAppend(InsertDesc(front, x, key), last, key, k);
    }
  }

  /** The sort is a permutation, descending in the key, and stable: elements with one
      key keep their order. */
  lemma {:induction false} SortDescIs<T>(s: seq<T>, key: T -> nat, k: nat)
    ensures var r := SortDesc(s, key);
            && Descending(r, key)
            && multiset(r) == multiset(s)
            && WithKey(r, key, k) == WithKey(s, key, k)
  {
    if s != [] {
      var front, x := s[..|s| - 1], s[|s| - 1];
      assert s == front + [x];
      SortDescIs(front, key, k);
      InsertDescends(SortDesc(front, key), x, key);
      InsertPermutes(SortDesc(front, key), x, key);
      InsertIsStable(SortDesc(front, key), x, key, k);
      WithKeyAppend(front, x, key, k);
    }
  }

  lemma SameElements<T>(a: seq<T>, b: seq<T>)
    requires multiset(a) == multiset(b)
    ensures forall x :: x in a <==> x in b
  {
    forall x ensures x in a <==> x in b {
      assert x in a <==> x in multiset(a);
      assert x in b <==> x in multiset(b);
    }
  }

  /** In a descending list, what is outside a prefix has no greater key than what is
      in it. */
  lemma PrefixIsGreatest<T>(sorted: seq<T>, n: nat, key: T -> nat, cut: T, kept: T)
    requires Descending(sorted, key) && n <= |sorted|
    requires cut in sorted && cut !in sorted[..n] && kept in sorted[..n]
    ensures key(cut) <= key(kept)
  {
    var j :| 0 <= j < n && sorted[..n][j] == kept;
    var i :| 0 <= i < |sorted| && sorted[i] == cut;
    assert sorted[j] == kept;
  }

  lemma {:induction false} MapInsert<T(!new), U>(s: seq<T>, x: T, f: T -> U, key: T -> nat, key': U -> nat)
    requires forall y :: key'(f(y)) == key(y)
    ensures Map(InsertDesc(s, x, key), f) == InsertDesc(Map(s, f), f(x), key')
  {
    MapAppend(s, x, f);
    if s != [] && key(s[|s| - 1]) < key(x) {
      var front, last := s[..|s| - 1], s[|s| - 1];
      assert Map(s, f)[..|s| - 1] == Map(front, f);
      MapInsert(front, x, f, key, key');
      MapAppend(InsertDesc(front, x, key), last, f);
    }
  }

  /** Sorting commutes with a map that preserves the key. */
  lemma {:induction false} MapSort<T(!new), U>(s: seq<T>, f: T -> U, key: T -> nat, key': U -> nat)
    requires forall x :: key'(f(x)) == key(x)
    ensures Map(SortDesc(s, key), f) == SortDesc(Map(s, f), key')
  {
    if s != [] {
      var front, x := s[..|s| - 1], s[|s| - 1];
      assert Map(s, f)[..|s| - 1] == Map(front, f);
      MapSort(front, f, key, key');
      MapInsert(SortDesc(front, key), x, f, key, key');
    }
  }

  // ---- where the sort puts an element ----

  /** How many elements have at least the key. */
  function AtLeast<T>(s: seq<T>, key: T -> nat, k: nat): (r: nat)
    ensures r <= |s|
  {
    if s == [] then 0 else AtLeast(s[..|s| - 1], key, k) + (if key(s[|s| - 1]) >= k then 1 else 0)
  }

  /** How many elements come before `x` by descending key and, within a key, by order. */
  function Ahead<T(==)>(s: seq<T>, x: T, key: T -> nat): (r: nat)
    ensures r <= |s| && (x in s ==> r < |s|)
  {
    if s == [] then 0
    else
      var front, y := s[..|s| - 1], s[|s| - 1];
      Ahead(front, x, key) + (if key(y) > key(x) || (key(y) == key(x) && y != x && x !in front) then 1 else 0)
  }

  lemma {:induction false} AtLeastInserted<T>(s: seq<T>, x: T, key: T -> nat, k: nat)
    ensures AtLeast(InsertDesc(s, x, key), key, k) == AtLeast(s, key, k) + (if key(x) >= k then 1 else 0)
  {
    assert (s + [x])[..|s|] == s;
    if s != [] && key(s[|s| - 1]) < key(x) {
      var front, last := s[..|s| - 1], s[|s| - 1];
      var r := InsertDesc(front, x, key);
      assert (r + [last])[..|r|] == r;
      AtLeastInserted(front, x, key, k);
    }
  }

  lemma {:induction false} AtLeastSorted<T>(s: seq<T>, key: T -> nat, k: nat)
    ensures AtLeast(SortDesc(s, key), key, k) == AtLeast(s, key, k)
  {
    if s != [] {
      AtLeastSorted(s[..|s| - 1], key, k);
      AtLeastInserted(SortDesc(s[..|s| - 1], key), s[|s| - 1], key, k);
    }
  }

  /** In a descending list those with at least the key come first. */
  lemma {:induction false} AtLeastComeFirst<T>(s: seq<T>, key: T -> nat, k: nat, i: nat)
    requires Descending(s, key) && i < |s|
    ensures i < AtLeast(s, key, k) <==> key(s[i]) >= k
  {
    var front := s[..|s| - 1];
    if i < |s| - 1 {
      AtLeastComeFirst(front, key, k, i);
      if key(s[|s| - 1]) >= k {
        assert key(s[i]) >= key(s[|s| - 1]);
      }
    } else if key(s[i]) >= k {
      AllAtLeast(front, key, k);
    }
  }

  lemma {:induction false} AllAtLeast<T>(s: seq<T>, key: T -> nat, k: nat)
    requires forall i | 0 <= i < |s| :: key(s[i]) >= k
    ensures AtLeast(s, key, k) == |s|
  {
    if s != [] {
      AllAtLeast(s[..|s| - 1], key, k);
    }
  }

  /** An insertion goes behind everything with at least its key. */
  lemma {:induction false} InsertedAt<T>(s: seq<T>, x: T, key: T -> nat)
    requires Descending(s, key)
    ensures var n := AtLeast(s, key, key(x)); InsertDesc(s, x, key) == s[..n] + [x] + s[n..]
  {
    if s == [] || key(s[|s| - 1]) >= key(x) {
      AllAtLeast(s, key, key(x));
    } else {
      InsertedAt(s[..|s| - 1], x, key);
    }
  }

  /** Nothing new is counted for an element that is not there yet. */
  lemma {:induction false} AheadOfNew<T>(s: seq<T>, x: T, key: T -> nat)
    requires x !in s
    ensures Ahead(s, x, key) == AtLeast(s, key, key(x))
  {
    if s != [] {
      AheadOfNew(s[..|s| - 1], x, key);
    }
  }

  lemma Spliced<T>(s: seq<T>, n: nat, y: T, i: nat)
    requires n <= |s|
    ensures var r := s[..n] + [y] + s[n..]; r[n] == y && (i < |s| ==> r[if i < n then i else i + 1] == s[i])
  {}

  /** What an insertion does to positions. */
  lemma InsertedShifts<T>(s: seq<T>, y: T, key: T -> nat, i: nat)
    requires Descending(s, key)
    ensures var r := InsertDesc(s, y, key);
            && r[AtLeast(s, key, key(y))] == y
            && (i < |s| ==> r[if key(s[i]) >= key(y) then i else i + 1] == s[i])
  {
    InsertedAt(s, y, key);
    Spliced(s, AtLeast(s, key, key(y)), y, i);
    if i < |s| {
      AtLeastComeFirst(s, key, key(y), i);
    }
  }

  lemma SortDescends<T>(s: seq<T>, key: T -> nat)
    ensures Descending(SortDesc(s, key), key)
  {
    SortDescIs(s, key, 0);
  }

  lemma SortedLast<T>(s: seq<T>, key: T -> nat)
    requires s != [] && s[|s| - 1] !in s[..|s| - 1]
    ensures var x := s[|s| - 1]; SortDesc(s, key)[Ahead(s, x, key)] == x
  {
    var front, x := s[..|s| - 1], s[|s| - 1];
    SortDescends(front, key);
    AheadOfNew(front, x, key);
    AtLeastSorted(front, key, key(x));
    InsertedShifts(SortDesc(front, key), x, key, |front|);
  }

  lemma SortedEarlier<T>(s: seq<T>, x: T, key: T -> nat)
    requires s != [] && x in s[..|s| - 1]
    requires var front := s[..|s| - 1]; SortDesc(front, key)[Ahead(front, x, key)] == x
    ensures SortDesc(s, key)[Ahead(s, x, key)] == x
  {
    var front, y := s[..|s| - 1], s[|s| - 1];
    var i := Ahead(front, x, key);
    SortDescends(front, key);
    InsertedShifts(SortDesc(front, key), y, key, i);
    assert Ahead(s, x, key) == if key(x) >= key(y) then i else i + 1;
  }

  /** The sort puts each element behind exactly those ahead of it. */
  lemma {:induction false} SortedAt<T, K>(s: seq<T>, x: T, key: T -> nat, f: T -> K)
    requires DistinctBy(s, f) && x in s
    ensures SortDesc(s, key)[Ahead(s, x, key)] == x
  {
    var front := s[..|s| - 1];
    if x in front {
      SortedAt(front, x, key, f);
      SortedEarlier(s, x, key);
    } else {
      SortedLast(s, key);
    }
  }

  // ---- distinct images ----

  predicate DistinctBy<T, K(==)>(s: seq<T>, f: T -> K) {
    forall i, j | 0 <= i < j < |s| :: f(s[i]) != f(s[j])
  }

  lemma {:induction false} RetainDistinct<T, K>(s: seq<T>, keep: T -> bool, f: T -> K)
    requires DistinctBy(s, f)
    ensures DistinctBy(Retain(s, keep), f)
  {
    if s != [] {
      var front, x := s[..|s| - 1], s[|s| - 1];
      RetainDistinct(front, keep, f);
      var r := Retain(front, keep);
      forall i | 0 <= i < |r| ensures f(r[i]) != f(x) {
        RetainHas(front, keep, r[i]);
      }
    }
  }

  /** A list with distinct images stays so under permutation. */
  lemma PermutedDistinct<T, K>(a: seq<T>, b: seq<T>, f: T -> K)
    requires multiset(a) == multiset(b) && DistinctBy(a, f)
    ensures DistinctBy(b, f)
  {
    SameElements(a, b);
    forall i, j | 0 <= i < j < |b| ensures f(b[i]) != f(b[j]) {
      assert b[i] in a && b[j] in a;
      OnceInSeq(a, b[i], f);
      TwiceInSeq(b, i, j);
    }
  }

  lemma TwiceInSeq<T>(s: seq<T>, i: nat, j: nat)
    requires i < j < |s|
    ensures s[i] == s[j] ==> multiset(s)[s[i]] >= 2
  {
    assert s == s[..j] + s[j..];
    assert s[i] in s[..j] && s[j] in s[j..];
  }

  lemma {:induction false} OnceInSeq<T, K>(s: seq<T>, x: T, f: T -> K)
    requires DistinctBy(s, f)
    ensures multiset(s)[x] <= 1
  {
    if s != [] {
      assert s == s[..|s| - 1] + [s[|s| - 1]];
      OnceInSeq(s[..|s| - 1], x, f);
      if x == s[|s| - 1] {
        assert x !in s[..|s| - 1];
      }
    }
  }
}
