/** Sums over finite sets of ids, how they split, and the size of subsets. */
module Sums {
  ghost function Sum(f: nat -> int, s: set<nat>): int {
    if s == {} then 0 else var x :| x in s; f(x) + Sum(f, s - {x})
  }

  /** Any element may be taken out first. */
  lemma {:induction false} SumTakeOut(f: nat -> int, s: set<nat>, x: nat)
    requires x in s
    ensures Sum(f, s) == f(x) + Sum(f, s - {x})
    decreases s
  {
    var y :| y in s && Sum(f, s) == f(y) + Sum(f, s - {y});
    if y != x {
      SumTakeOut(f, s - {y}, x);
      SumTakeOut(f, s - {x}, y);
      assert s - {y} - {x} == s - {x} - {y};
    }
  }

  lemma SumAdd(f: nat -> int, s: set<nat>, x: nat)
    requires x !in s
    ensures Sum(f, s + {x}) == Sum(f, s) + f(x)
  {
    SumTakeOut(f, s + {x}, x);
    assert s + {x} - {x} == s;
  }

  lemma {:induction false} SumUnion(f: nat -> int, s: set<nat>, t: set<nat>)
    requires s !! t
    ensures Sum(f, s + t) == Sum(f, s) + Sum(f, t)
    decreases t
  {
    if t == {} {
      assert s + t == s;
    } else {
      var x :| x in t;
      SumUnion(f, s, t - {x});
      SumAdd(f, s + (t - {x}), x);
      SumTakeOut(f, t, x);
      assert s + (t - {x}) + {x} == s + t;
    }
  }

  lemma {:induction false} SumSame(f: nat -> int, g: nat -> int, s: set<nat>)
    requires forall x :: x in s ==> f(x) == g(x)
    ensures Sum(f, s) == Sum(g, s)
    decreases s
  {
    if s != {} {
      var x :| x in s;
      SumTakeOut(f, s, x);
      SumTakeOut(g, s, x);
      SumSame(f, g, s - {x});
    }
  }

  lemma {:induction false} SumNonNegative(f: nat -> int, s: set<nat>)
    requires forall x :: x in s ==> f(x) >= 0
    ensures Sum(f, s) >= 0
    decreases s
  {
    if s != {} {
      var x :| x in s;
      SumTakeOut(f, s, x);
      SumNonNegative(f, s - {x});
    }
  }

  lemma SubsetSize(a: set<nat>, b: set<nat>)
    requires a <= b
    ensures |a| <= |b|
  {
    assert b == a + (b - a);
  }

  lemma {:induction false} SumPlus(f: nat -> int, g: nat -> int, h: nat -> int, s: set<nat>)
    requires forall x :: x in s ==> h(x) == f(x) + g(x)
    ensures Sum(h, s) == Sum(f, s) + Sum(g, s)
    decreases s
  {
    if s != {} {
      var x :| x in s;
      SumTakeOut(f, s, x);
      SumTakeOut(g, s, x);
      SumTakeOut(h, s, x);
      SumPlus(f, g, h, s - {x});
    }
  }

  lemma {:induction false} SumZero(f: nat -> int, s: set<nat>)
    requires forall x :: x in s ==> f(x) == 0
    ensures Sum(f, s) == 0
    decreases s
  {
    if s != {} {
      var x :| x in s;
      SumTakeOut(f, s, x);
      SumZero(f, s - {x});
    }
  }

  /** The function that sums one row of a table over the columns t. */
  ghost function Rows(table: (nat, nat) -> int, t: set<nat>): nat -> int {
    (x: nat) => Sum((y: nat) => table(x, y), t)
  }

  ghost function Columns(table: (nat, nat) -> int, s: set<nat>): nat -> int {
    (y: nat) => Sum((x: nat) => table(x, y), s)
  }

  /** A table may be summed by rows or by columns. */
  lemma {:induction false} SumSwap(table: (nat, nat) -> int, s: set<nat>, t: set<nat>)
    ensures Sum(Rows(table, t), s) == Sum(Columns(table, s), t)
    decreases s
  {
    if s == {} {
      SumZero(Columns(table, s), t);
    } else {
      var x :| x in s;
      SumTakeOut(Rows(table, t), s, x);
      SumSwap(table, s - {x}, t);
      forall y | y in t ensures Columns(table, s)(y) == ((z: nat) => table(x, z))(y) + Columns(table, s - {x})(y) {
        SumTakeOut((z: nat) => table(z, y), s, x);
      }
      SumPlus((z: nat) => table(x, z), Columns(table, s - {x}), Columns(table, s), t);
    }
  }

  /** If every summand is at least one, the sum is the number of summands exactly when each is one. */
  lemma {:induction false} SumOfOnes(f: nat -> int, s: set<nat>)
    requires forall x :: x in s ==> f(x) >= 1
    ensures Sum(f, s) >= |s|
    ensures Sum(f, s) == |s| <==> forall x :: x in s ==> f(x) == 1
    decreases s
  {
    if s != {} {
      var x :| x in s;
      SumTakeOut(f, s, x);
      SumOfOnes(f, s - {x});
    }
  }
}
