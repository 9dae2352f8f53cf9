/** Cardinality of finite sets. */
module Sets {
  lemma Pick<T>(s: set<T>) returns (x: T)
    requires s != {}
    ensures x in s
  {
    x :| x in s;
  }

  lemma SubsetSmaller<T>(a: set<T>, b: set<T>)
    requires a < b
    ensures |a| < |b|
  {
    var x :| x in b && x !in a;
    SubsetAtMost(a, b - {x});
  }

  lemma {:induction false} SubsetAtMost<T>(a: set<T>, b: set<T>)
    requires a <= b
    ensures |a| <= |b|
  {
    if a != {} {
      var x :| x in a;
      SubsetAtMost(a - {x}, b - {x});
    }
  }

  ghost function Numbers(n: nat): (s: set<nat>)
    ensures (forall j: nat :: j in s <==> j < n) && |s| == n
  {
    if n == 0 then {} else Numbers(n - 1) + {n - 1}
  }

  /** The numbers below n that have the property. */
  ghost function Chosen(n: nat, p: nat -> bool): set<nat> {
    set i | i in Numbers(n) && p(i)
  }

  lemma ChosenNext(n: nat, p: nat -> bool)
    ensures n !in Chosen(n, p) && Chosen(n + 1, p) == if p(n) then Chosen(n, p) + {n} else Chosen(n, p)
  {
    forall i ensures i in Chosen(n + 1, p) <==> i in Chosen(n, p) || (i == n && p(n)) {
    }
  }

  lemma ChosenGrows(n: nat, p: nat -> bool)
    ensures |Chosen(n + 1, p)| == |Chosen(n, p)| + (if p(n) then 1 else 0) && |Chosen(0, p)| == 0
  {
    assert Chosen(0, p) == {};
    hide Chosen;
    ChosenNext(n, p);
  }

  lemma ChosenAtMost(n: nat, p: nat -> bool)
    ensures |Chosen(n, p)| <= n
  {
    SubsetAtMost(Chosen(n, p), Numbers(n));
  }

  lemma ChosenAll(n: nat, p: nat -> bool)
    requires forall i: nat | i < n :: p(i)
    ensures Chosen(n, p) == Numbers(n)
  {}

  /** Those that have it and those that have not are all. */
  lemma ChosenOrNot(n: nat, p: nat -> bool, q: nat -> bool)
    requires forall i: nat | i < n :: p(i) != q(i)
    ensures |Chosen(n, p)| + |Chosen(n, q)| == n
  {
    assert Chosen(n, p) + Chosen(n, q) == Numbers(n) && Chosen(n, p) !! Chosen(n, q);
  }

  ghost function Row(i: nat, js: set<nat>): set<(nat, nat)> {
    set j | j in js :: (i, j)
  }

  lemma {:induction false} RowSize(i: nat, js: set<nat>)
    ensures |Row(i, js)| == |js|
  {
    if js != {} {
      var k :| k in js;
      RowSize(i, js - {k});
      assert Row(i, js) == Row(i, js - {k}) + {(i, k)} && (i, k) !in Row(i, js - {k});
    }
  }

  /** The pairs of a number below n and a member of its row. */
  ghost function Pairs(n: nat, rows: nat -> set<nat>): set<(nat, nat)> {
    set i, j | i in Numbers(n) && j in rows(i) :: (i, j)
  }

  lemma PairsGrow(n: nat, rows: nat -> set<nat>)
    ensures |Pairs(n + 1, rows)| == |Pairs(n, rows)| + |rows(n)| && |Pairs(0, rows)| == 0
  {
    RowSize(n, rows(n));
    assert Pairs(n + 1, rows) == Pairs(n, rows) + Row(n, rows(n)) && Pairs(n, rows) !! Row(n, rows(n));
    assert Pairs(0, rows) == {};
  }

  lemma PairsSame(n: nat, a: nat -> set<nat>, b: nat -> set<nat>)
    requires forall i: nat | i < n :: a(i) == b(i)
    ensures Pairs(n, a) == Pairs(n, b)
    ensures forall i: nat, j: nat | i < n && j in a(i) :: (i, j) in Pairs(n, a)
  {}

  lemma PairsSubset(n: nat, a: nat -> set<nat>, b: nat -> set<nat>)
    requires forall i: nat | i < n :: a(i) <= b(i)
    ensures Pairs(n, a) <= Pairs(n, b)
  {}
}
