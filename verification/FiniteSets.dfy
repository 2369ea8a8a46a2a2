/** Cardinality facts about finite sets that several protocols share. */
module FiniteSets {

  /** A subset is no larger than the set it lies in. */
  lemma {:induction false} SubsetSize<T>(a: set<T>, b: set<T>)
    requires a <= b
    ensures |a| <= |b|
  {
    if a != {} {
      var x :| x in a;
      SubsetSize(a - {x}, b - {x});
    }
  }

  lemma NothingLeft<T>(a: set<T>, b: set<T>)
    requires a - b == {}
    ensures a <= b
  {
    forall x | x in a
      ensures x in b
    {
      assert x !in a - b;
    }
  }

  /** Some element of a set that is not empty. */
  lemma Pick<T>(s: set<T>) returns (x: T)
    requires s != {}
    ensures x in s
  {
    x :| x in s;
  }

  /** The next element of an iteration in no particular order. */
  method Take<T(==)>(s: set<T>) returns (x: T)
    requires s != {}
    ensures x in s
  {
    x :| x in s;
  }

  /** The indices below n, as a set. */
  function Below(n: nat): (s: set<nat>)
    ensures forall i: nat :: i in s <==> i < n
    ensures |s| == n
  {
    if n == 0 then {} else Below(n - 1) + {n - 1}
  }

  /** Two sets of indices below n whose sizes add up to more than n share an index. */
  lemma Pigeonhole(a: set<nat>, b: set<nat>, n: nat)
    requires a <= Below(n) && b <= Below(n)
    requires |a| + |b| > n
    ensures a * b != {}
  {
    if a * b == {} {
      assert |a + b| == |a| + |b|;
      SubsetSize(a + b, Below(n));
    }
  }
}
