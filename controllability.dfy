/**
 * SCOAP-style controllability of a gate output (Node.set_controllability):
 * cc0 and cc1 estimate how many primary-input assignments it takes to drive
 * a signal to 0 and to 1.
 */
module Controllability {
  import opened Logic

  datatype Cc = Cc(cc0: nat, cc1: nat)

  /** The starting value of the running minimum in xor_cc1_xnor_cc0. */
  const Sentinel: nat := 1000000

  function Sum(s: seq<nat>): nat
  {
    if |s| == 0 then 0 else Sum(s[..|s| - 1]) + s[|s| - 1]
  }

  /** Python's min over a non-empty list. */
  function Min(s: seq<nat>): (m: nat)
    requires |s| > 0
    ensures exists i :: 0 <= i < |s| && s[i] == m
    ensures forall i :: 0 <= i < |s| ==> m <= s[i]
  {
    if |s| == 1 then s[0]
    else
      var m := Min(s[..|s| - 1]);
      if s[|s| - 1] < m then s[|s| - 1] else m
  }

  // ---------------------------------------------------------------------
  // construct_odds
  // ---------------------------------------------------------------------

  predicate Increasing(c: seq<nat>)
  {
    forall i, j :: 0 <= i < j < |c| ==> c[i] < c[j]
  }

  predicate InRange(c: seq<nat>, lo: nat, hi: nat)
  {
    forall i :: 0 <= i < |c| ==> lo <= c[i] < hi
  }

  function Prepend(x: nat, cs: seq<seq<nat>>): (r: seq<seq<nat>>)
    ensures |r| == |cs|
    ensures forall i :: 0 <= i < |r| ==> r[i] == [x] + cs[i]
  {
    if |cs| == 0 then [] else [[x] + cs[0]] + Prepend(x, cs[1..])
  }

  /**
   * itertools.combinations(range(lo, hi), k): the k-element selections of
   * lo, ..., hi - 1, each in increasing order, listed lexicographically.
   */
  function Combinations(lo: nat, hi: nat, k: nat): seq<seq<nat>>
    decreases hi - lo
  {
    if k == 0 then [[]]
    else if hi <= lo then []
    else Prepend(lo, Combinations(lo + 1, hi, k - 1)) + Combinations(lo + 1, hi, k)
  }

  /** The odd sizes k, k + 2, ... up to n, each contributing its combinations of 1..n. */
  function OddSizedFrom(k: nat, n: nat): seq<seq<nat>>
    decreases n + 1 - k
  {
    if k > n then []
    else (if k % 2 == 1 then Combinations(1, n + 1, k) else []) + OddSizedFrom(k + 1, n)
  }

  /**
   * construct_odds(n): every selection of an odd number of the input
   * positions 1..n, by size and then lexicographically.
   */
  function ConstructOdds(n: nat): seq<seq<nat>>
  {
    OddSizedFrom(1, n)
  }

  lemma PrependMember(x: nat, cs: seq<seq<nat>>, c: seq<nat>)
    ensures c in Prepend(x, cs) <==> |c| > 0 && c[0] == x && c[1..] in cs
  {
    var r := Prepend(x, cs);
    if c in r {
      var i :| 0 <= i < |r| && r[i] == c;
      assert c[1..] == cs[i];
    }
    if |c| > 0 && c[0] == x && c[1..] in cs {
      var i :| 0 <= i < |cs| && cs[i] == c[1..];
      assert r[i] == c;
    }
  }

  /** c is listed by Combinations(lo, hi, k) exactly when it is an increasing k-element sequence over lo..hi-1. */
  predicate ListedExactly(lo: nat, hi: nat, k: nat, c: seq<nat>)
  {
    c in Combinations(lo, hi, k) <==> |c| == k && Increasing(c) && InRange(c, lo, hi)
  }

  /** Combinations lists exactly the increasing k-element sequences over lo..hi-1. */
  lemma {:induction false} CombinationsExact(lo: nat, hi: nat, k: nat, c: seq<nat>)
    ensures c in Combinations(lo, hi, k) <==> |c| == k && Increasing(c) && InRange(c, lo, hi)
  {
    CombinationsListedExactly(lo, hi, k, c);
  }

  lemma {:induction false} CombinationsListedExactly(lo: nat, hi: nat, k: nat, c: seq<nat>)
    ensures ListedExactly(lo, hi, k, c)
    decreases hi - lo
  {
    if k == 0 || hi <= lo {
      CombinationsBase(lo, hi, k, c);
    } else {
      CombinationsListedExactly(lo + 1, hi, k, c);
      if |c| > 0 {
        CombinationsListedExactly(lo + 1, hi, k - 1, c[1..]);
      }
      CombinationsExactStep(lo, hi, k, c);
    }
  }

  /** No elements to choose, or nothing left to choose from. */
  lemma CombinationsBase(lo: nat, hi: nat, k: nat, c: seq<nat>)
    requires k == 0 || hi <= lo
    ensures ListedExactly(lo, hi, k, c)
  {
    if k == 0 {
      assert Combinations(lo, hi, k) == [[]];
    } else {
      assert Combinations(lo, hi, k) == [];
      assert |c| > 0 ==> !(lo <= c[0] < hi);
    }
  }

  /** The inductive step, given the claim for lo + 1. */
  lemma CombinationsExactStep(lo: nat, hi: nat, k: nat, c: seq<nat>)
    requires k > 0 && lo < hi
    requires ListedExactly(lo + 1, hi, k, c)
    requires |c| > 0 ==> ListedExactly(lo + 1, hi, k - 1, c[1..])
    ensures ListedExactly(lo, hi, k, c)
  {
    var with, without := Combinations(lo + 1, hi, k - 1), Combinations(lo + 1, hi, k);
    assert Combinations(lo, hi, k) == Prepend(lo, with) + without;
    assert c in Combinations(lo, hi, k) <==> c in Prepend(lo, with) || c in without;
    PrependMember(lo, with, c);
    if |c| > 0 {
      if c[0] == lo {
        StartingAtLo(c, lo, hi);
      } else {
        NotStartingAtLo(c, lo, hi);
      }
    }
  }

  lemma StartingAtLo(c: seq<nat>, lo: nat, hi: nat)
    requires |c| > 0 && c[0] == lo && lo < hi
    ensures !InRange(c, lo + 1, hi)
    ensures Increasing(c) && InRange(c, lo, hi) <==> Increasing(c[1..]) && InRange(c[1..], lo + 1, hi)
  {
    if Increasing(c) && InRange(c, lo, hi) {
      forall i | 0 <= i < |c| - 1 ensures lo < c[1..][i] {
        assert c[0] < c[i + 1];
      }
    }
    if Increasing(c[1..]) && InRange(c[1..], lo + 1, hi) {
      forall i, j | 0 <= i < j < |c| ensures c[i] < c[j] {
        if i > 0 { assert c[1..][i - 1] < c[1..][j - 1]; } else { assert c[1..][j - 1] == c[j]; }
      }
    }
  }

  lemma NotStartingAtLo(c: seq<nat>, lo: nat, hi: nat)
    requires |c| > 0 && c[0] != lo
    ensures Increasing(c) && InRange(c, lo, hi) <==> Increasing(c) && InRange(c, lo + 1, hi)
  {
    if Increasing(c) && InRange(c, lo, hi) {
      forall i | 0 <= i < |c| ensures lo < c[i] {
        if i > 0 { assert c[0] < c[i]; }
      }
    }
  }

  /** An increasing sequence over lo..hi-1 has at most hi - lo elements. */
  lemma {:induction false} IncreasingLength(c: seq<nat>, lo: nat, hi: nat)
    requires lo <= hi && Increasing(c) && InRange(c, lo, hi)
    ensures |c| <= hi - lo
    decreases |c|
  {
    if |c| > 0 {
      assert lo <= c[0] < hi;
      forall i | 0 <= i < |c| - 1 ensures c[0] + 1 <= c[1..][i] < hi {
        assert c[0] < c[i + 1];
      }
      IncreasingLength(c[1..], c[0] + 1, hi);
    }
  }

  /** c is listed by OddSizedFrom(k, n) exactly when it is an odd-sized increasing sequence over 1..n of size at least k. */
  predicate OddListedExactly(k: nat, n: nat, c: seq<nat>)
  {
    c in OddSizedFrom(k, n) <==> k <= |c| && |c| % 2 == 1 && Increasing(c) && InRange(c, 1, n + 1)
  }

  lemma {:induction false} OddSizedFromExact(k: nat, n: nat, c: seq<nat>)
    ensures OddListedExactly(k, n, c)
    decreases n + 1 - k
  {
    if k > n {
      if Increasing(c) && InRange(c, 1, n + 1) {
        IncreasingLength(c, 1, n + 1);
      }
    } else {
      CombinationsListedExactly(1, n + 1, k, c);
      OddSizedFromExact(k + 1, n, c);
      OddSizedFromStep(k, n, c);
    }
  }

  /** The step of OddSizedFromExact, given the claims for size k and for k + 1 onwards. */
  lemma OddSizedFromStep(k: nat, n: nat, c: seq<nat>)
    requires k <= n
    requires ListedExactly(1, n + 1, k, c) && OddListedExactly(k + 1, n, c)
    ensures OddListedExactly(k, n, c)
  {
    var here := if k % 2 == 1 then Combinations(1, n + 1, k) else [];
    assert OddSizedFrom(k, n) == here + OddSizedFrom(k + 1, n);
    assert c in OddSizedFrom(k, n) <==> c in here || c in OddSizedFrom(k + 1, n);
  }

  /** construct_odds(n) holds exactly the odd-sized subsets of 1..n, each as an increasing sequence. */
  lemma ConstructOddsExact(n: nat, c: seq<nat>)
    ensures c in ConstructOdds(n) <==> |c| % 2 == 1 && Increasing(c) && InRange(c, 1, n + 1)
  {
    OddSizedFromExact(1, n, c);
  }

  lemma {:induction false} CombinationsOfOne(lo: nat, hi: nat)
    requires lo <= hi
    ensures |Combinations(lo, hi, 1)| == hi - lo
    ensures forall i :: 0 <= i < hi - lo ==> Combinations(lo, hi, 1)[i] == [lo + i]
    decreases hi - lo
  {
    if lo < hi {
      CombinationsOfOne(lo + 1, hi);
      var c := Combinations(lo, hi, 1);
      assert Combinations(lo + 1, hi, 0) == [[]];
      assert c == Prepend(lo, [[]]) + Combinations(lo + 1, hi, 1);
    }
  }

  lemma {:induction false} CombinationsTooMany(lo: nat, hi: nat, k: nat)
    requires k > 0 && k > hi - lo
    ensures Combinations(lo, hi, k) == []
    decreases hi - lo
  {
    if lo < hi {
      CombinationsTooMany(lo + 1, hi, k - 1);
      CombinationsTooMany(lo + 1, hi, k);
    }
  }

  /** One unfolding of Combinations, with the first element taken or skipped. */
  lemma CombinationsStep(lo: nat, hi: nat, k: nat)
    requires k > 0 && lo < hi
    ensures Combinations(lo, hi, k) == Prepend(lo, Combinations(lo + 1, hi, k - 1)) + Combinations(lo + 1, hi, k)
  {
  }

  lemma PrependOne(x: nat, a: seq<nat>)
    ensures Prepend(x, [a]) == [[x] + a]
  {
    assert [a][1..] == [];
  }

  lemma PrependTwo(x: nat, a: seq<nat>, b: seq<nat>)
    ensures Prepend(x, [a, b]) == [[x] + a, [x] + b]
  {
    assert [a, b][1..] == [b];
    PrependOne(x, b);
  }

  lemma PrependThree(x: nat, a: seq<nat>, b: seq<nat>, c: seq<nat>)
    ensures Prepend(x, [a, b, c]) == [[x] + a, [x] + b, [x] + c]
  {
    assert [a, b, c][1..] == [b, c];
    PrependTwo(x, b, c);
  }

  // The combinations behind the docstring examples, over any starting point.

  lemma CombOneOfTwo(a: nat)
    ensures Combinations(a, a + 2, 1) == [[a], [a + 1]]
  {
    CombinationsOfOne(a, a + 2);
  }

  lemma CombOneOfThree(a: nat)
    ensures Combinations(a, a + 3, 1) == [[a], [a + 1], [a + 2]]
  {
    CombinationsOfOne(a, a + 3);
  }

  lemma CombOneOfFour(a: nat)
    ensures Combinations(a, a + 4, 1) == [[a], [a + 1], [a + 2], [a + 3]]
  {
    CombinationsOfOne(a, a + 4);
  }

  lemma CombTwoOfTwo(a: nat)
    ensures Combinations(a, a + 2, 2) == [[a, a + 1]]
  {
    CombinationsStep(a, a + 2, 2);
    CombinationsOfOne(a + 1, a + 2);
    assert Combinations(a + 1, a + 2, 1) == [[a + 1]];
    CombinationsTooMany(a + 1, a + 2, 2);
    PrependOne(a, [a + 1]);
    assert [a] + [a + 1] == [a, a + 1];
  }

  lemma CombThreeOfThree(a: nat)
    ensures Combinations(a, a + 3, 3) == [[a, a + 1, a + 2]]
  {
    CombinationsStep(a, a + 3, 3);
    CombTwoOfTwo(a + 1);
    CombinationsTooMany(a + 1, a + 3, 3);
    PrependOne(a, [a + 1, a + 2]);
    assert [a] + [a + 1, a + 2] == [a, a + 1, a + 2];
  }

  lemma CombTwoOfThree(a: nat)
    ensures Combinations(a, a + 3, 2) == [[a, a + 1], [a, a + 2], [a + 1, a + 2]]
  {
    CombinationsStep(a, a + 3, 2);
    CombOneOfTwo(a + 1);
    CombTwoOfTwo(a + 1);
    PrependTwo(a, [a + 1], [a + 2]);
    assert [a] + [a + 1] == [a, a + 1];
    assert [a] + [a + 2] == [a, a + 2];
  }

  lemma CombThreeOfFour(a: nat)
    ensures Combinations(a, a + 4, 3) ==
      [[a, a + 1, a + 2], [a, a + 1, a + 3], [a, a + 2, a + 3], [a + 1, a + 2, a + 3]]
  {
    CombinationsStep(a, a + 4, 3);
    CombTwoOfThree(a + 1);
    CombThreeOfThree(a + 1);
    PrependThree(a, [a + 1, a + 2], [a + 1, a + 3], [a + 2, a + 3]);
    assert [a] + [a + 1, a + 2] == [a, a + 1, a + 2];
    assert [a] + [a + 1, a + 3] == [a, a + 1, a + 3];
    assert [a] + [a + 2, a + 3] == [a, a + 2, a + 3];
  }

  /** construct_odds(n) lists the size-1 selections, then the size-3 ones, when n is 3 or 4. */
  lemma OddSizedUpToFour(n: nat)
    requires n == 3 || n == 4
    ensures ConstructOdds(n) == Combinations(1, n + 1, 1) + Combinations(1, n + 1, 3)
  {
    assert OddSizedFrom(5, n) == [];
    assert OddSizedFrom(4, n) == [];
    assert OddSizedFrom(3, n) == Combinations(1, n + 1, 3);
    assert OddSizedFrom(2, n) == Combinations(1, n + 1, 3);
  }

  lemma ConstructOddsOfTwo()
    ensures ConstructOdds(2) == [[1], [2]]
  {
    CombOneOfTwo(1);
    assert OddSizedFrom(3, 2) == [];
    assert OddSizedFrom(2, 2) == [];
  }

  lemma ConstructOddsOfThree()
    ensures ConstructOdds(3) == [[1], [2], [3], [1, 2, 3]]
  {
    OddSizedUpToFour(3);
    CombOneOfThree(1);
    CombThreeOfThree(1);
  }

  lemma OddsOfFour(a: nat)
    ensures Combinations(a, a + 4, 1) + Combinations(a, a + 4, 3) ==
      [[a], [a + 1], [a + 2], [a + 3],
       [a, a + 1, a + 2], [a, a + 1, a + 3], [a, a + 2, a + 3], [a + 1, a + 2, a + 3]]
  {
    var ones := [[a], [a + 1], [a + 2], [a + 3]];
    var threes := [[a, a + 1, a + 2], [a, a + 1, a + 3], [a, a + 2, a + 3], [a + 1, a + 2, a + 3]];
    CombOneOfFour(a);
    CombThreeOfFour(a);
    assert Combinations(a, a + 4, 1) + Combinations(a, a + 4, 3) == ones + threes;
  }

  lemma ConstructOddsOfFour()
    ensures ConstructOdds(4) == [[1], [2], [3], [4], [1, 2, 3], [1, 2, 4], [1, 3, 4], [2, 3, 4]]
  {
    OddSizedUpToFour(4);
    OddsOfFour(1);
  }

  /** The examples of the construct_odds docstring, in the order the docstring lists them. */
  lemma ConstructOddsExamples()
    ensures ConstructOdds(2) == [[1], [2]]
    ensures ConstructOdds(3) == [[1], [2], [3], [1, 2, 3]]
    ensures ConstructOdds(4) == [[1], [2], [3], [4], [1, 2, 3], [1, 2, 4], [1, 3, 4], [2, 3, 4]]
  {
    ConstructOddsOfTwo();
    ConstructOddsOfThree();
    ConstructOddsOfFour();
  }

  // ---------------------------------------------------------------------
  // xor_cc1_xnor_cc0
  // ---------------------------------------------------------------------

  /**
   * The cost of driving the inputs at the (1-based) positions in comb to 1
   * and every other input to 0, summed over the first k inputs.
   */
  function Term(comb: seq<nat>, c0s: seq<nat>, c1s: seq<nat>, k: nat): nat
    requires k <= |c0s| && |c0s| == |c1s|
  {
    if k == 0 then 0
    else Term(comb, c0s, c1s, k - 1) + (if k in comb then c1s[k - 1] else c0s[k - 1])
  }

  function SubsetCost(comb: seq<nat>, c0s: seq<nat>, c1s: seq<nat>): nat
    requires |c0s| == |c1s|
  {
    Term(comb, c0s, c1s, |c0s|)
  }

  /**
   * The running minimum of xor_cc1_xnor_cc0 after the given combinations:
   * it starts at Sentinel and keeps every strictly smaller term.
   */
  function MinTerm(combs: seq<seq<nat>>, c0s: seq<nat>, c1s: seq<nat>): (m: nat)
    requires |c0s| == |c1s|
    ensures m <= Sentinel
    ensures forall j :: 0 <= j < |combs| ==> m <= SubsetCost(combs[j], c0s, c1s)
    ensures m == Sentinel || exists j :: 0 <= j < |combs| && m == SubsetCost(combs[j], c0s, c1s)
  {
    if |combs| == 0 then Sentinel
    else
      var m := MinTerm(combs[..|combs| - 1], c0s, c1s);
      var term := SubsetCost(combs[|combs| - 1], c0s, c1s);
      if term < m then term else m
  }

  /** XOR cc1 and XNOR cc0 as xor_cc1_xnor_cc0 computes them. */
  function OddParityCost(c0s: seq<nat>, c1s: seq<nat>): nat
    requires |c0s| == |c1s|
  {
    MinTerm(ConstructOdds(|c0s|), c0s, c1s) + 1
  }

  /** xor_cc1_xnor_cc0: the two nested loops over the odd combinations and the inputs. */
  method XorCc1XnorCc0(c0s: seq<nat>, c1s: seq<nat>) returns (r: nat)
    requires |c0s| == |c1s|
    ensures r == OddParityCost(c0s, c1s)
  {
    var odds := ConstructOdds(|c0s|);
    var min := Sentinel;
    for j := 0 to |odds|
      invariant min == MinTerm(odds[..j], c0s, c1s)
    {
      var combination := odds[j];
      var term := 0;
      for idx := 0 to |c0s|
        invariant term == Term(combination, c0s, c1s, idx)
      {
        if idx + 1 in combination {
          term := term + c1s[idx];
        } else {
          term := term + c0s[idx];
        }
      }
      assert odds[..j + 1][..j] == odds[..j];
      if term < min {
        min := term;
      }
    }
    assert odds[..|odds|] == odds;
    r := min + 1;
  }

  /**
   * What xor_cc1_xnor_cc0 computes: one more than the cheapest way to drive
   * an odd number of inputs to 1, over every odd-sized set of input
   * positions, capped by the sentinel.
   */
  lemma OddParityCostIsMinimum(c0s: seq<nat>, c1s: seq<nat>)
    requires |c0s| == |c1s|
    ensures forall c :: |c| % 2 == 1 && Increasing(c) && InRange(c, 1, |c0s| + 1) ==>
      OddParityCost(c0s, c1s) <= SubsetCost(c, c0s, c1s) + 1
    ensures OddParityCost(c0s, c1s) == Sentinel + 1 ||
      exists c :: |c| % 2 == 1 && Increasing(c) && InRange(c, 1, |c0s| + 1) &&
        OddParityCost(c0s, c1s) == SubsetCost(c, c0s, c1s) + 1
  {
    var odds := ConstructOdds(|c0s|);
    forall c | |c| % 2 == 1 && Increasing(c) && InRange(c, 1, |c0s| + 1)
      ensures OddParityCost(c0s, c1s) <= SubsetCost(c, c0s, c1s) + 1
    {
      ConstructOddsExact(|c0s|, c);
      var j :| 0 <= j < |odds| && odds[j] == c;
    }
    if OddParityCost(c0s, c1s) != Sentinel + 1 {
      var j :| 0 <= j < |odds| && MinTerm(odds, c0s, c1s) == SubsetCost(odds[j], c0s, c1s);
      ConstructOddsExact(|c0s|, odds[j]);
    }
  }

  // ---------------------------------------------------------------------
  // The per-type formulas of set_controllability
  // ---------------------------------------------------------------------

  /**
   * The input counts the formulas accept: NOT reads its first input, and
   * AND, NAND, OR and NOR take a min over the inputs, which fails on none.
   */
  predicate CcDefined(t: GateType, n: nat)
  {
    t == Xor || t == Xnor || n >= 1
  }

  /** The (cc0, cc1) that set_controllability gives the output of a gate of type t. */
  function GateCc(t: GateType, c0s: seq<nat>, c1s: seq<nat>): (r: Cc)
    requires |c0s| == |c1s| && CcDefined(t, |c0s|)
    ensures r.cc0 >= 1 && r.cc1 >= 1
  {
    match t
    case Not => Cc(c1s[0] + 1, c0s[0] + 1)
    case And => Cc(Min(c0s) + 1, Sum(c1s) + 1)
    case Nand => Cc(Sum(c1s) + 1, Min(c0s) + 1)
    case Or => Cc(Sum(c0s) + 1, Min(c1s) + 1)
    case Nor => Cc(Min(c1s) + 1, Sum(c0s) + 1)
    case Xor => Cc(Min([Sum(c0s), Sum(c1s)]) + 1, OddParityCost(c0s, c1s))
    case Xnor => Cc(OddParityCost(c0s, c1s), Min([Sum(c0s), Sum(c1s)]) + 1)
  }

  /** The branches of set_controllability for a gate output, running the XOR loop where it applies. */
  method GateControllability(t: GateType, c0s: seq<nat>, c1s: seq<nat>) returns (r: Cc)
    requires |c0s| == |c1s| && CcDefined(t, |c0s|)
    ensures r == GateCc(t, c0s, c1s)
  {
    match t
    case Xor =>
      var cc1 := XorCc1XnorCc0(c0s, c1s);
      r := Cc(Min([Sum(c0s), Sum(c1s)]) + 1, cc1);
    case Xnor =>
      var cc0 := XorCc1XnorCc0(c0s, c1s);
      r := Cc(cc0, Min([Sum(c0s), Sum(c1s)]) + 1);
    case _ =>
      r := GateCc(t, c0s, c1s);
  }

  function Swap(c: Cc): Cc { Cc(c.cc1, c.cc0) }

  /** NAND, NOR and XNOR get the swapped pair of AND, OR and XOR. */
  lemma InvertingGatesSwapCc(c0s: seq<nat>, c1s: seq<nat>)
    requires |c0s| == |c1s| && |c0s| >= 1
    ensures GateCc(Nand, c0s, c1s) == Swap(GateCc(And, c0s, c1s))
    ensures GateCc(Nor, c0s, c1s) == Swap(GateCc(Or, c0s, c1s))
    ensures GateCc(Xnor, c0s, c1s) == Swap(GateCc(Xor, c0s, c1s))
  {
  }

  /** AND: cc0 is one more than the cheapest input to drive to 0. */
  lemma AndCc0IsCheapestInput(c0s: seq<nat>, c1s: seq<nat>)
    requires |c0s| == |c1s| && |c0s| >= 1
    ensures forall i :: 0 <= i < |c0s| ==> GateCc(And, c0s, c1s).cc0 <= c0s[i] + 1
    ensures exists i :: 0 <= i < |c0s| && GateCc(And, c0s, c1s).cc0 == c0s[i] + 1
  {
    var i :| 0 <= i < |c0s| && c0s[i] == Min(c0s);
    assert GateCc(And, c0s, c1s).cc0 == c0s[i] + 1;
  }

  /** A gate over two primary inputs (each (1, 1)): AND gets (2, 3) and XOR (3, 3). */
  lemma TwoPrimaryInputs()
    ensures GateCc(And, [1, 1], [1, 1]) == Cc(2, 3)
    ensures GateCc(Or, [1, 1], [1, 1]) == Cc(3, 2)
    ensures GateCc(Xor, [1, 1], [1, 1]) == Cc(3, 3)
    ensures GateCc(Xnor, [1, 1], [1, 1]) == Cc(3, 3)
  {
    SumOfTwoOnes();
    OddParityCostOfTwoOnes();
  }

  lemma SumOfTwoOnes()
    ensures Sum([1, 1]) == 2
  {
    var ones: seq<nat> := [1, 1];
    assert ones[..1] == [1] && [1][..0] == [];
  }

  lemma OddParityCostOfTwoOnes()
    ensures OddParityCost([1, 1], [1, 1]) == 3
  {
    var ones: seq<nat> := [1, 1];
    ConstructOddsOfTwo();
    assert Term([1], ones, ones, 2) == 2;
    assert Term([2], ones, ones, 2) == 2;
    assert [[1], [2]][..1] == [[1]] && [[1]][..0] == [];
    assert MinTerm([[1], [2]], ones, ones) == 2;
  }

  // ---------------------------------------------------------------------
  // Monotonicity: harder inputs never make an output easier
  // ---------------------------------------------------------------------

  predicate PointwiseLe(a: seq<nat>, b: seq<nat>)
  {
    |a| == |b| && forall i :: 0 <= i < |a| ==> a[i] <= b[i]
  }

  lemma {:induction false} SumMonotone(a: seq<nat>, b: seq<nat>)
    requires PointwiseLe(a, b)
    ensures Sum(a) <= Sum(b)
  {
    if |a| > 0 {
      SumMonotone(a[..|a| - 1], b[..|b| - 1]);
    }
  }

  lemma MinMonotone(a: seq<nat>, b: seq<nat>)
    requires PointwiseLe(a, b) && |a| > 0
    ensures Min(a) <= Min(b)
  {
    var i :| 0 <= i < |b| && b[i] == Min(b);
    assert Min(a) <= a[i];
  }

  lemma {:induction false} TermMonotone(comb: seq<nat>, a0: seq<nat>, a1: seq<nat>, b0: seq<nat>, b1: seq<nat>, k: nat)
    requires PointwiseLe(a0, b0) && PointwiseLe(a1, b1) && |a0| == |a1| && k <= |a0|
    ensures Term(comb, a0, a1, k) <= Term(comb, b0, b1, k)
  {
    if k > 0 {
      TermMonotone(comb, a0, a1, b0, b1, k - 1);
    }
  }

  lemma {:induction false} MinTermMonotone(combs: seq<seq<nat>>, a0: seq<nat>, a1: seq<nat>, b0: seq<nat>, b1: seq<nat>)
    requires PointwiseLe(a0, b0) && PointwiseLe(a1, b1) && |a0| == |a1|
    ensures MinTerm(combs, a0, a1) <= MinTerm(combs, b0, b1)
  {
    if |combs| > 0 {
      MinTermMonotone(combs[..|combs| - 1], a0, a1, b0, b1);
      TermMonotone(combs[|combs| - 1], a0, a1, b0, b1, |a0|);
    }
  }

  /**
   * Raising the controllability of any input never lowers the
   * controllability of the output, for every gate type.
   */
  lemma GateCcMonotone(t: GateType, a0: seq<nat>, a1: seq<nat>, b0: seq<nat>, b1: seq<nat>)
    requires PointwiseLe(a0, b0) && PointwiseLe(a1, b1) && |a0| == |a1|
    requires CcDefined(t, |a0|)
    ensures GateCc(t, a0, a1).cc0 <= GateCc(t, b0, b1).cc0
    ensures GateCc(t, a0, a1).cc1 <= GateCc(t, b0, b1).cc1
  {
    SumMonotone(a0, b0);
    SumMonotone(a1, b1);
    if |a0| > 0 {
      MinMonotone(a0, b0);
      MinMonotone(a1, b1);
    }
    MinTermMonotone(ConstructOdds(|a0|), a0, a1, b0, b1);
  }

  // ---------------------------------------------------------------------
  // The XOR cc0 formula considers only the all-0 and all-1 assignments
  // ---------------------------------------------------------------------

  /** The cost of the input assignment bs: cc1 where an input is 1, cc0 where it is 0. */
  function AssignmentCost(bs: seq<bool>, c0s: seq<nat>, c1s: seq<nat>): nat
    requires |bs| == |c0s| == |c1s|
  {
    if |bs| == 0 then 0
    else AssignmentCost(bs[1..], c0s[1..], c1s[1..]) + (if bs[0] then c1s[0] else c0s[0])
  }

  /**
   * For three or more XOR inputs, the all-1 assignment that the cc0 formula
   * counts drives the output to 1, not 0. With cc0 = 10 and cc1 = 1 on three
   * inputs the formula gives cc0 = 4, while every assignment that does drive
   * the XOR to 0 costs at least 12.
   */
  lemma XorCc0CountsAnOddAssignment(bs: seq<bool>)
    requires |bs| == 3 && !Parity(bs)
    ensures GateCc(Xor, [10, 10, 10], [1, 1, 1]).cc0 == 4
    ensures Eval(Xor, [One, One, One]) == One
    ensures AssignmentCost(bs, [10, 10, 10], [1, 1, 1]) >= 12
  {
    XorCc0OfThreeInputs();
    XorOfThreeOnes();
    EvenAssignmentsOfThreeInputs(bs);
  }

  lemma XorCc0OfThreeInputs()
    ensures GateCc(Xor, [10, 10, 10], [1, 1, 1]).cc0 == 4
  {
    var tens: seq<nat>, ones: seq<nat> := [10, 10, 10], [1, 1, 1];
    assert tens[..2] == [10, 10] && tens[..2][..1] == [10] && [10][..0] == [];
    assert ones[..2] == [1, 1] && ones[..2][..1] == [1] && [1][..0] == [];
    assert Sum(tens) == 30;
    assert Sum(ones) == 3;
  }

  lemma XorOfThreeOnes()
    ensures Eval(Xor, [One, One, One]) == One
  {
    assert [One, One, One][1..] == [One, One] && [One, One][1..] == [One];
    Xor2GoodFaulty(One, One);
    Xor2GoodFaulty(Zero, One);
  }

  lemma EvenAssignmentsOfThreeInputs(bs: seq<bool>)
    requires |bs| == 3 && !Parity(bs)
    ensures AssignmentCost(bs, [10, 10, 10], [1, 1, 1]) >= 12
  {
    var b0, b1, b2 := bs[0], bs[1], bs[2];
    assert bs == [b0, b1, b2];
    ParityOfThree(b0, b1, b2);
    CostOfThree(b0, b1, b2);
  }

  lemma ParityOfThree(b0: bool, b1: bool, b2: bool)
    ensures Parity([b0, b1, b2]) == (b0 != (b1 != b2))
  {
    assert [b2][1..] == [];
    assert Parity([b2]) == b2;
    assert [b1, b2][1..] == [b2];
    assert Parity([b1, b2]) == (b2 != b1);
    assert [b0, b1, b2][1..] == [b1, b2];
  }

  lemma CostOfThree(b0: bool, b1: bool, b2: bool)
    ensures AssignmentCost([b0, b1, b2], [10, 10, 10], [1, 1, 1]) ==
      (if b0 then 1 else 10) + (if b1 then 1 else 10) + (if b2 then 1 else 10)
  {
    var tens: seq<nat>, ones: seq<nat> := [10, 10, 10], [1, 1, 1];
    assert [b2][1..] == [] && [10][1..] == [] && [1][1..] == [];
    assert AssignmentCost([b2], [10], [1]) == (if b2 then 1 else 10);
    assert [b1, b2][1..] == [b2] && [10, 10][1..] == [10] && [1, 1][1..] == [1];
    assert AssignmentCost([b1, b2], [10, 10], [1, 1]) == (if b1 then 1 else 10) + (if b2 then 1 else 10);
    assert [b0, b1, b2][1..] == [b1, b2] && tens[1..] == [10, 10] && ones[1..] == [1, 1];
  }
}
