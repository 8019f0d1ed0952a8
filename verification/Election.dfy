/** consensus.py's elect_validator: deterministic, stake-weighted, exactly proportional. */
module Election {
  import opened Arithmetic
  import opened Sums
  import opened Records

  /** The addresses with positive stake. */
  function Active(stakes: map<Address, int>): set<Address> {
    set a | a in stakes && stakes[a] > 0
  }

  function Sorted(s: set<Address>): seq<Address>
    decreases |s|
  {
    if s == {} then [] else [Least(s)] + Sorted(s - {Least(s)})
  }

  lemma {:induction false} SortedElements(s: set<Address>)
    ensures forall a :: a in Sorted(s) <==> a in s
    decreases |s|
  {
    if s != {} {
      var rest := s - {Least(s)};
      SortedElements(rest);
      forall a ensures a in Sorted(s) <==> a in s {
        assert a in Sorted(s) <==> a == Least(s) || a in Sorted(rest);
      }
    }
  }

  /** The stake the candidates vs hold together. */
  function Width(vs: seq<Address>, stakes: map<Address, int>): int {
    if vs == [] then 0 else Get(stakes, vs[0]) + Width(vs[1..], stakes)
  }

  /** The candidate whose stake interval contains pick. */
  function Pick(vs: seq<Address>, stakes: map<Address, int>, pick: int): Option<Address> {
    if vs == [] then None
    else if pick < Get(stakes, vs[0]) then Some(vs[0])
    else Pick(vs[1..], stakes, pick - Get(stakes, vs[0]))
  }

  function Candidates(stakes: map<Address, int>): seq<Address> {
    Sorted(Active(stakes))
  }

  /** The elected proposer, or None when nobody has stake. */
  function Elect(stakes: map<Address, int>, seed: nat): Option<Address> {
    var vs := Candidates(stakes);
    var total := Width(vs, stakes);
    if total <= 0 then None else Pick(vs, stakes, seed % total)
  }

  lemma {:induction false} WidthIsSum(s: set<Address>, stakes: map<Address, int>)
    ensures Width(Sorted(s), stakes) == Sum(s, stakes)
    decreases |s|
  {
    if s != {} {
      var rest := s - {Least(s)};
      WidthIsSum(rest, stakes);
      assert Sorted(s)[1..] == Sorted(rest);
    }
  }

  lemma {:induction false} ActiveWidth(stakes: map<Address, int>)
    ensures 0 <= Width(Candidates(stakes), stakes)
    ensures Active(stakes) != {} ==> 0 < Width(Candidates(stakes), stakes)
    ensures NonNegative(stakes) ==> Width(Candidates(stakes), stakes) == Total(stakes)
  {
    var s := Active(stakes);
    WidthIsSum(s, stakes);
    var positive := map a | a in s :: stakes[a];
    SumSame(s, stakes, positive);
    SumNonNegative(s, positive);
    if s != {} {
      SumTake(s, positive, Least(s));
      SumNonNegative(s - {Least(s)}, positive);
    }
    if NonNegative(stakes) {
      SumSame(stakes.Keys, stakes, positive);
      SumWiden(stakes.Keys, positive);
      assert positive.Keys == s;
    }
  }

  /** The loop of elect_validator: its running sum finds the same candidate, and its last line, the
      fallback to the final candidate, is never reached. */
  method ElectValidator(stakes: map<Address, int>, seed: nat) returns (r: Option<Address>)
    ensures r == Elect(stakes, seed)
  {
    var validators := Candidates(stakes);
    var total := Width(validators, stakes);
    if total <= 0 {
      return None;
    }
    var pick := seed % total;
    var cumulative := 0;
    var i := 0;
    while i < |validators|
      invariant 0 <= i <= |validators|
      invariant cumulative <= pick
      invariant Width(validators[i..], stakes) == total - cumulative
      invariant Pick(validators[i..], stakes, pick - cumulative) == Pick(validators, stakes, pick)
    {
      assert validators[i..][1..] == validators[i + 1..];
      cumulative := cumulative + Get(stakes, validators[i]);
      if pick < cumulative {
        return Some(validators[i]);
      }
      i := i + 1;
    }
    assert false;
  }

  ghost predicate Positive(vs: seq<Address>, stakes: map<Address, int>) {
    forall i :: 0 <= i < |vs| ==> 0 < Get(stakes, vs[i])
  }

  lemma {:induction false} WidthNonNegative(vs: seq<Address>, stakes: map<Address, int>)
    requires Positive(vs, stakes)
    ensures 0 <= Width(vs, stakes)
  {
    if vs != [] {
      WidthNonNegative(vs[1..], stakes);
    }
  }

  lemma {:induction false} PickInRange(vs: seq<Address>, stakes: map<Address, int>, pick: int)
    requires 0 <= pick < Width(vs, stakes)
    ensures Pick(vs, stakes, pick).Some?
    ensures Pick(vs, stakes, pick).value in vs
  {
    if vs != [] && Get(stakes, vs[0]) <= pick {
      PickInRange(vs[1..], stakes, pick - Get(stakes, vs[0]));
    }
  }

  /** The elected proposer always has positive stake. */
  lemma ElectedHasStake(stakes: map<Address, int>, seed: nat)
    ensures Elect(stakes, seed).Some? ==>
              Elect(stakes, seed).value in stakes && 0 < stakes[Elect(stakes, seed).value]
  {
    var vs := Candidates(stakes);
    var total := Width(vs, stakes);
    if total > 0 {
      PickInRange(vs, stakes, seed % total);
      SortedElements(Active(stakes));
    }
  }

  /** An elected proposer exists exactly when somebody has stake. */
  lemma ElectionExists(stakes: map<Address, int>, seed: nat)
    ensures Elect(stakes, seed).Some? <==> Active(stakes) != {}
  {
    ActiveWidth(stakes);
    var vs := Candidates(stakes);
    var total := Width(vs, stakes);
    if total > 0 {
      PickInRange(vs, stakes, seed % total);
      SortedElements(Active(stakes));
    }
  }

  /** How many of the picks 0..n-1 fall to a. */
  function PickCount(vs: seq<Address>, stakes: map<Address, int>, a: Address, n: nat): nat {
    if n == 0 then 0
    else PickCount(vs, stakes, a, n - 1) + (if Pick(vs, stakes, n - 1) == Some(a) then 1 else 0)
  }

  /** Picks below the first candidate's stake are his; the rest go to the others, shifted. */
  lemma {:induction false} PickCountHead(vs: seq<Address>, stakes: map<Address, int>, a: Address, n: nat)
    requires vs != [] && 0 < Get(stakes, vs[0])
    ensures n <= Get(stakes, vs[0]) ==> PickCount(vs, stakes, a, n) == if vs[0] == a then n else 0
    ensures Get(stakes, vs[0]) <= n ==>
              PickCount(vs, stakes, a, n) == (if vs[0] == a then Get(stakes, vs[0]) else 0)
                                             + PickCount(vs[1..], stakes, a, n - Get(stakes, vs[0]))
  {
    if n > 0 {
      PickCountHead(vs, stakes, a, n - 1);
    }
  }

  lemma {:induction false} PickCountAbsent(vs: seq<Address>, stakes: map<Address, int>, a: Address, n: nat)
    requires a !in vs
    requires n <= Width(vs, stakes)
    ensures PickCount(vs, stakes, a, n) == 0
  {
    if n > 0 {
      PickCountAbsent(vs, stakes, a, n - 1);
      PickInRange(vs, stakes, n - 1);
    }
  }

  ghost predicate NoRepeats(vs: seq<Address>) {
    forall i, j :: 0 <= i < j < |vs| ==> vs[i] != vs[j]
  }

  lemma {:induction false} PickCountWhole(vs: seq<Address>, stakes: map<Address, int>, a: Address)
    requires Positive(vs, stakes) && NoRepeats(vs)
    requires a in vs
    ensures 0 <= Width(vs, stakes)
    ensures PickCount(vs, stakes, a, Width(vs, stakes)) == Get(stakes, a)
  {
    WidthNonNegative(vs, stakes);
    var rest := vs[1..];
    WidthNonNegative(rest, stakes);
    PickCountHead(vs, stakes, a, Width(vs, stakes));
    if vs[0] == a {
      assert forall i :: 0 <= i < |rest| ==> rest[i] == vs[i + 1] != a;
      PickCountAbsent(rest, stakes, a, Width(rest, stakes));
    } else {
      assert a in rest;
      PickCountWhole(rest, stakes, a);
    }
  }

  lemma {:induction false} SortedNoRepeats(s: set<Address>)
    ensures NoRepeats(Sorted(s))
    decreases |s|
  {
    if s != {} {
      var rest := s - {Least(s)};
      SortedNoRepeats(rest);
      SortedElements(rest);
      assert forall j :: 0 <= j < |Sorted(rest)| ==> Sorted(rest)[j] in rest;
      assert Sorted(s) == [Least(s)] + Sorted(rest);
    }
  }

  lemma CandidatesPositive(stakes: map<Address, int>)
    ensures Positive(Candidates(stakes), stakes) && NoRepeats(Candidates(stakes))
  {
    SortedElements(Active(stakes));
    SortedNoRepeats(Active(stakes));
    var vs := Candidates(stakes);
    forall i | 0 <= i < |vs| ensures 0 < Get(stakes, vs[i]) {
      assert vs[i] in vs;
    }
  }

  /** How many of the seeds 0..n-1 elect a. */
  function ElectionCount(stakes: map<Address, int>, a: Address, n: nat): nat {
    if n == 0 then 0
    else ElectionCount(stakes, a, n - 1) + (if Elect(stakes, n - 1) == Some(a) then 1 else 0)
  }

  /** Over one full round of picks, each address is elected exactly as often as its stake. */
  lemma ProportionalElection(stakes: map<Address, int>, a: Address)
    requires NonNegative(stakes) && 0 < Total(stakes)
    ensures PickCount(Candidates(stakes), stakes, a, Total(stakes)) == Get(stakes, a)
  {
    var vs := Candidates(stakes);
    ActiveWidth(stakes);
    CandidatesPositive(stakes);
    SortedElements(Active(stakes));
    if a in vs {
      PickCountWhole(vs, stakes, a);
    } else {
      PickCountAbsent(vs, stakes, a, Width(vs, stakes));
    }
  }

  lemma {:induction false} PickCountMonotone(vs: seq<Address>, stakes: map<Address, int>, a: Address, m: nat, n: nat)
    requires m <= n
    ensures PickCount(vs, stakes, a, m) <= PickCount(vs, stakes, a, n)
    decreases n
  {
    if m < n {
      PickCountMonotone(vs, stakes, a, m, n - 1);
    }
  }

  /** q full rounds of seeds and r more. */
  lemma {:induction false} ElectionRounds(stakes: map<Address, int>, a: Address, q: nat, r: nat)
    requires NonNegative(stakes) && 0 < Total(stakes) && r <= Total(stakes)
    ensures ElectionCount(stakes, a, q * Total(stakes) + r)
         == q * Get(stakes, a) + PickCount(Candidates(stakes), stakes, a, r)
    decreases q, r
  {
    hide Pick;
    hide Candidates;
    ActiveWidth(stakes);
    var total := Total(stakes);
    if r > 0 {
      ElectionRounds(stakes, a, q, r - 1);
      RemainderOf(q, r - 1, total);
      assert Elect(stakes, q * total + (r - 1)) == Pick(Candidates(stakes), stakes, r - 1);
    } else if q > 0 {
      ElectionRounds(stakes, a, q - 1, total);
      ProportionalElection(stakes, a);
      assert (q - 1) * total + total == q * total;
      assert (q - 1) * Get(stakes, a) + Get(stakes, a) == q * Get(stakes, a);
    }
  }

  /** Over n consecutive seeds an address is elected between floor(n/total) and one more times its stake. */
  lemma ElectionFrequency(stakes: map<Address, int>, a: Address, n: nat)
    requires NonNegative(stakes) && 0 < Total(stakes)
    ensures (n / Total(stakes)) * Get(stakes, a) <= ElectionCount(stakes, a, n)
    ensures ElectionCount(stakes, a, n) <= (n / Total(stakes) + 1) * Get(stakes, a)
  {
    hide ElectionCount;
    hide PickCount;
    hide Candidates;
    hide Total;
    hide Get;
    var total := Total(stakes);
    var q, r := n / total, n % total;
    assert n == q * total + r;
    ElectionRounds(stakes, a, q, r);
    ProportionalElection(stakes, a);
    PickCountMonotone(Candidates(stakes), stakes, a, r, total);
    MulSuccessor(q, Get(stakes, a));
  }

  // -- whose turn it is ----------------------------------------------------------------------------

  /** The members of s before a in the order of addresses. */
  function Before(s: set<Address>, a: Address): set<Address> {
    set b | b in s && b < a
  }

  lemma {:induction false} PickInterval(s: set<Address>, stakes: map<Address, int>, pick: int, a: Address)
    requires forall b :: b in s ==> 0 < Get(stakes, b)
    requires 0 <= pick
    ensures Pick(Sorted(s), stakes, pick) == Some(a)
       <==> a in s && Sum(Before(s, a), stakes) <= pick < Sum(Before(s, a), stakes) + Get(stakes, a)
    decreases |s|
  {
    if s != {} {
      var first := Least(s);
      var rest, left := s - {first}, pick - Get(stakes, first);
      assert Sorted(s)[1..] == Sorted(rest);
      assert a == first ==> Before(s, a) == {};
      if a in rest {
        assert Before(s, a) - {first} == Before(rest, a);
        SumTake(Before(s, a), stakes, first);
        BeforeNonNegative(s, stakes, Before(rest, a));
      }
      if 0 <= left {
        PickInterval(rest, stakes, left, a);
      }
    }
  }

  lemma {:induction false} BeforeNonNegative(s: set<Address>, stakes: map<Address, int>, t: set<Address>)
    requires t <= s && forall b :: b in s ==> 0 < Get(stakes, b)
    ensures 0 <= Sum(t, stakes)
    decreases |t|
  {
    if t != {} {
      BeforeNonNegative(s, stakes, t - {Least(t)});
    }
  }

  /** Whose turn it is, without the election: lay the positive stakes end to end in the order of their
      addresses; a is elected exactly when the seed, modulo their sum, falls on a's stretch. */
  lemma ElectedExactly(stakes: map<Address, int>, seed: nat, a: Address)
    ensures var staked := set b | b in stakes && 0 < stakes[b];
            var before := set b | b in staked && b < a;
            var total, below := Sum(staked, stakes), Sum(before, stakes);
            Elect(stakes, seed) == Some(a) <==>
              && a in staked && 0 < total
              && below <= seed % total < below + stakes[a]
  {
    var staked := Active(stakes);
    assert staked == set b | b in stakes && 0 < stakes[b];
    WidthIsSum(staked, stakes);
    ActiveWidth(stakes);
    var total := Width(Sorted(staked), stakes);
    assert Before(staked, a) == set b | b in staked && b < a;
    if 0 < total {
      PickInterval(staked, stakes, seed % total, a);
    }
  }
}
