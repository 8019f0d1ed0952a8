/** Finite sums over accounts: the arithmetic behind "sum(balances.values())" and the
    stake-weighted quorums. */
module Sums {

  type Address = nat

  /** Python's `m.get(a, 0)`. */
  function Get(m: map<Address, int>, a: Address): int {
    if a in m then m[a] else 0
  }

  /** Python's `m[a] = m.get(a, 0) + x`. */
  function Credit(m: map<Address, int>, a: Address, x: int): map<Address, int> {
    m[a := Get(m, a) + x]
  }

  lemma {:induction false} LeastExists(s: set<Address>)
    requires s != {}
    ensures exists a :: a in s && forall b :: b in s ==> a <= b
    decreases |s|
  {
    var x :| x in s;
    if below :| below in s && below < x {
      var rest := s - {x};
      assert below in rest;
      LeastExists(rest);
      var y :| y in rest && forall b :: b in rest ==> y <= b;
      forall b | b in s ensures y <= b {
        assert b == x || b in rest;
      }
    }
  }

  /** The least address of a set: what sorting puts first. */
  function Least(s: set<Address>): (a: Address)
    requires s != {}
    ensures a in s
    ensures forall b :: b in s ==> a <= b
  {
    LeastExists(s);
    var a :| a in s && forall b :: b in s ==> a <= b;
    a
  }

  /** The sum of m over the addresses of s, absent keys counting zero. */
  function Sum(s: set<Address>, m: map<Address, int>): int
    decreases |s|
  {
    if s == {} then 0 else
      var a := Least(s);
      Get(m, a) + Sum(s - {a}, m)
  }

  function Total(m: map<Address, int>): int {
    Sum(m.Keys, m)
  }

  /** Any element may be taken out first. */
  lemma {:induction false} SumTake(s: set<Address>, m: map<Address, int>, x: Address)
    requires x in s
    ensures Sum(s, m) == Get(m, x) + Sum(s - {x}, m)
    decreases |s|
  {
    var a := Least(s);
    if a != x {
      SumTake(s - {a}, m, x);
      assert s - {a} - {x} == s - {x} - {a};
      SumTake(s - {x}, m, a);
    }
  }

  lemma {:induction false} SumSame(s: set<Address>, m: map<Address, int>, n: map<Address, int>)
    requires forall a :: a in s ==> Get(m, a) == Get(n, a)
    ensures Sum(s, m) == Sum(s, n)
    decreases |s|
  {
    if s != {} {
      SumSame(s - {Least(s)}, m, n);
    }
  }

  lemma {:induction false} SumPlus(s: set<Address>, m: map<Address, int>, n: map<Address, int>, r: map<Address, int>)
    requires forall a :: a in s ==> Get(r, a) == Get(m, a) + Get(n, a)
    ensures Sum(s, r) == Sum(s, m) + Sum(s, n)
    decreases |s|
  {
    if s != {} {
      SumPlus(s - {Least(s)}, m, n, r);
    }
  }

  /** Addresses outside the map add nothing. */
  lemma {:induction false} SumWiden(s: set<Address>, m: map<Address, int>)
    requires m.Keys <= s
    ensures Sum(s, m) == Total(m)
    decreases |s|
  {
    if s == m.Keys {
    } else {
      var x :| x in s && x !in m;
      SumTake(s, m, x);
      SumWiden(s - {x}, m);
    }
  }

  lemma {:induction false} SumDisjoint(s: set<Address>, t: set<Address>, m: map<Address, int>)
    requires s !! t
    ensures Sum(s + t, m) == Sum(s, m) + Sum(t, m)
    decreases |s|
  {
    if s == {} {
      assert s + t == t;
    } else {
      var a := Least(s);
      SumTake(s + t, m, a);
      assert s + t - {a} == (s - {a}) + t;
      SumDisjoint(s - {a}, t, m);
    }
  }

  ghost predicate NonNegative(m: map<Address, int>) {
    forall a :: a in m ==> 0 <= m[a]
  }

  lemma {:induction false} SumNonNegative(s: set<Address>, m: map<Address, int>)
    requires NonNegative(m)
    ensures 0 <= Sum(s, m)
    decreases |s|
  {
    if s != {} {
      SumNonNegative(s - {Least(s)}, m);
    }
  }

  lemma SumSubset(s: set<Address>, t: set<Address>, m: map<Address, int>)
    requires NonNegative(m)
    requires s <= t
    ensures Sum(s, m) <= Sum(t, m)
  {
    assert s + (t - s) == t;
    SumDisjoint(s, t - s, m);
    SumNonNegative(t - s, m);
  }

  /** No set of addresses weighs more than the whole map. */
  lemma SumAtMostTotal(s: set<Address>, m: map<Address, int>)
    requires NonNegative(m)
    ensures Sum(s, m) <= Total(m)
  {
    SumSubset(s, s + m.Keys, m);
    SumWiden(s + m.Keys, m);
  }

  /** Two sets together weigh as much as their union and intersection. */
  lemma SumInclusionExclusion(s: set<Address>, t: set<Address>, m: map<Address, int>)
    ensures Sum(s, m) + Sum(t, m) == Sum(s + t, m) + Sum(s * t, m)
  {
    assert s + t == s + (t - s);
    SumDisjoint(s, t - s, m);
    assert t == (t - s) + s * t;
    SumDisjoint(t - s, s * t, m);
  }

  /** One written entry changes the total by its own change. */
  lemma TotalUpdate(m: map<Address, int>, a: Address, v: int)
    ensures Total(m[a := v]) == Total(m) - Get(m, a) + v
  {
    var n := m[a := v];
    var s := m.Keys + {a};
    assert n.Keys == s;
    SumWiden(s, m);
    SumTake(s, m, a);
    SumTake(s, n, a);
    SumSame(s - {a}, m, n);
  }

  lemma TotalCredit(m: map<Address, int>, a: Address, x: int)
    ensures Total(Credit(m, a, x)) == Total(m) + x
  {
    TotalUpdate(m, a, Get(m, a) + x);
  }

  lemma TotalRemove(m: map<Address, int>, a: Address)
    ensures Total(m - {a}) == Total(m) - Get(m, a)
  {
    if a in m {
      SumTake(m.Keys, m, a);
      assert (m - {a}).Keys == m.Keys - {a};
      SumSame(m.Keys - {a}, m, m - {a});
    } else {
      assert m - {a} == m;
    }
  }

  /** What the accounts of a set hold together: the total of the map cut down to them. */
  function Held(m: map<Address, int>, who: set<Address>): int {
    Total(map a | a in m && a in who :: m[a])
  }

  lemma HeldIsSum(m: map<Address, int>, who: set<Address>)
    ensures Held(m, who) == Sum(who, m)
  {
    var r := map a | a in m && a in who :: m[a];
    SumSame(who, m, r);
    SumWiden(who, r);
  }
}
