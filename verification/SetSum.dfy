/** Sums of multisets over a finite set, independent of the order of summation. */
module SetSum {

  ghost function Pick<A>(s: set<A>): A
    requires s != {}
  {
    var x :| x in s; x
  }

  ghost function Sum<A, B>(s: set<A>, weight: A -> multiset<B>): multiset<B> {
    if s == {} then multiset{}
    else
      var x := Pick(s);
      weight(x) + Sum(s - {x}, weight)
  }

  lemma {:induction false} SumInsert<A, B>(s: set<A>, x: A, weight: A -> multiset<B>)
    requires x !in s
    ensures Sum(s + {x}, weight) == weight(x) + Sum(s, weight)
    decreases s
  {
    var t := s + {x};
    var y := Pick(t);
    if y == x {
      assert t - {x} == s;
    } else {
      assert t - {y} == s - {y} + {x};
      SumInsert(s - {y}, x, weight);
      SumInsert(s - {y}, y, weight);
      assert s - {y} + {y} == s;
    }
  }

  lemma {:induction false} SumUnion<A, B>(a: set<A>, b: set<A>, weight: A -> multiset<B>)
    requires a !! b
    ensures Sum(a + b, weight) == Sum(a, weight) + Sum(b, weight)
    decreases b
  {
    if b == {} {
      assert a + b == a;
    } else {
      var x := Pick(b);
      SumUnion(a, b - {x}, weight);
      SumInsert(a + (b - {x}), x, weight);
      assert a + (b - {x}) + {x} == a + b;
    }
  }

  /** A sum with a single weighty element. */
  lemma {:induction false} SumSingle<A, B>(s: set<A>, x: A, weight: A -> multiset<B>)
    requires x in s && forall y | y in s && y != x :: weight(y) == multiset{}
    ensures Sum(s, weight) == weight(x)
  {
    SumInsert(s - {x}, x, weight);
    assert s - {x} + {x} == s;
    SumZero(s - {x}, weight);
  }

  lemma {:induction false} SumZero<A, B>(s: set<A>, weight: A -> multiset<B>)
    requires forall y | y in s :: weight(y) == multiset{}
    ensures Sum(s, weight) == multiset{}
  {
    if s != {} {
      SumZero(s - {Pick(s)}, weight);
    }
  }

  lemma Regroup<B>(a: multiset<B>, b: multiset<B>, c: multiset<B>, x: multiset<B>, y: multiset<B>)
    ensures a + (b + c) + x + y == a + ((b + x) + (c + y))
  {}

  lemma {:induction false} SubsetSize<A>(a: set<A>, b: set<A>)
    requires a <= b
    ensures |a| <= |b|
    decreases a
  {
    if a != {} {
      var x := Pick(a);
      SubsetSize(a - {x}, b - {x});
    }
  }
}
