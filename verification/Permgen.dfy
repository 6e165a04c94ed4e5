/**
 The permutation generator of Spider/x.lua. The script swaps elements of one table in place, recurses, and
 swaps them back; the coroutine's yields are collected, each as the content of the table when it happens.
 */
module Permgen {

  function Swapped<T>(s: seq<T>, i: nat, j: nat): seq<T>
    requires i < |s| && j < |s|
  {
    s[i := s[j]][j := s[i]]
  }

  /** What permgen yields on a table with content `s`. */
  function Gen<T>(s: seq<T>, n: nat): seq<seq<T>>
    requires n <= |s|
    decreases n, 0
  {
    if n == 0 then [s] else GenUpTo(s, n, n)
  }

  /** What the first `i` turns of its loop yield. */
  function GenUpTo<T>(s: seq<T>, n: nat, i: nat): seq<seq<T>>
    requires 0 < n <= |s| && i <= n
    decreases n - 1, 1, i
  {
    if i == 0 then [] else GenUpTo(s, n, i - 1) + Gen(Swapped(s, i - 1, n - 1), n - 1)
  }

  method Permgen<T>(a: array<T>, n: nat) returns (perms: seq<seq<T>>)
    requires n <= a.Length
    modifies a
    ensures a[..] == old(a[..])
    ensures perms == Gen(old(a[..]), n)
    decreases n
  {
    if n == 0 {
      perms := [a[..]];
    } else {
      perms := [];
      for i := 0 to n
        invariant a[..] == old(a[..])
        invariant perms == GenUpTo(old(a[..]), n, i)
      {
        a[n - 1], a[i] := a[i], a[n - 1];
        assert a[..] == Swapped(old(a[..]), i, n - 1);
        var inner := Permgen(a, n - 1);
        a[n - 1], a[i] := a[i], a[n - 1];
        perms := perms + inner;
      }
    }
  }

  // ---------- What is generated ----------

  /** The first n elements in any order, the others untouched. */
  ghost predicate Rearrangement<T>(t: seq<T>, s: seq<T>, n: nat) {
    n <= |s| == |t| && t[n..] == s[n..] && multiset(t[..n]) == multiset(s[..n])
  }

  ghost predicate Distinct<T>(s: seq<T>) {
    forall i, j | 0 <= i < j < |s| :: s[i] != s[j]
  }

  function Factorial(n: nat): nat {
    if n == 0 then 1 else n * Factorial(n - 1)
  }

  /** The yields of turn i, which leaves element i in position n - 1. */
  function Block<T>(s: seq<T>, n: nat, i: nat): seq<seq<T>>
    requires i < n <= |s|
  {
    Gen(Swapped(s, i, n - 1), n - 1)
  }

  lemma SwapKeepsElements<T>(s: seq<T>, n: nat, i: nat)
    requires i < n <= |s|
    ensures multiset(Swapped(s, i, n - 1)[..n - 1]) + multiset{s[i]} == multiset(s[..n])
  {
    SameElements(s[..n], i, n - 1);
    assert Swapped(s, i, n - 1)[..n] == Swapped(s[..n], i, n - 1);
    assert Swapped(s, i, n - 1)[..n] == Swapped(s, i, n - 1)[..n - 1] + [s[i]];
  }

  lemma Cancel<T>(a: multiset<T>, b: multiset<T>, x: T)
    requires a + multiset{x} == b + multiset{x}
    ensures a == b
  {
    assert a == (a + multiset{x}) - multiset{x};
  }

  lemma SameElements<T>(s: seq<T>, i: nat, j: nat)
    requires i < |s| && j < |s|
    ensures multiset(Swapped(s, i, j)) == multiset(s)
  {
    var once := s[i := s[j]];
    assert multiset(once) == multiset(s) - multiset{s[i]} + multiset{s[j]};
    assert multiset(once[j := s[i]]) == multiset(once) - multiset{once[j]} + multiset{s[i]};
  }

  lemma SwapKeepsSuffix<T>(s: seq<T>, n: nat, i: nat)
    requires i < n <= |s|
    ensures Swapped(s, i, n - 1)[n - 1..] == [s[i]] + s[n..]
  {
  }

  lemma {:induction false} FindBlock<T>(s: seq<T>, n: nat, i: nat, t: seq<T>) returns (j: nat)
    requires 0 < n <= |s| && i <= n && t in GenUpTo(s, n, i)
    ensures j < i && t in Block(s, n, j)
  {
    if t in Block(s, n, i - 1) {
      j := i - 1;
    } else {
      j := FindBlock(s, n, i - 1, t);
    }
  }

  lemma {:induction false} BlockIsGenerated<T>(s: seq<T>, n: nat, i: nat, j: nat, t: seq<T>)
    requires 0 < n <= |s| && j < i <= n && t in Block(s, n, j)
    ensures t in GenUpTo(s, n, i)
  {
    if j < i - 1 {
      BlockIsGenerated(s, n, i - 1, j, t);
    }
  }

  /** Whatever is yielded is a rearrangement. */
  lemma {:induction false} YieldsRearrangements<T>(s: seq<T>, n: nat, t: seq<T>)
    requires n <= |s| && t in Gen(s, n)
    ensures Rearrangement(t, s, n)
    decreases n
  {
    if n > 0 {
      var i := FindBlock(s, n, n, t);
      BlockYields(s, n, i, t);
      SwapKeepsElements(s, n, i);
      SwapKeepsSuffix(s, n, i);
      assert t[..n] == t[..n - 1] + [t[n - 1]];
      assert t[n..] == t[n - 1..][1..];
    }
  }

  lemma {:induction false} BlockYields<T>(s: seq<T>, n: nat, i: nat, t: seq<T>)
    requires i < n <= |s| && t in Block(s, n, i)
    ensures Rearrangement(t, Swapped(s, i, n - 1), n - 1) && t[n - 1] == s[i]
    decreases n, 0
  {
    YieldsRearrangements(Swapped(s, i, n - 1), n - 1, t);
    SwapKeepsSuffix(s, n, i);
    assert t[n - 1] == t[n - 1..][0];
  }

  /** Every rearrangement is yielded. */
  lemma {:induction false} YieldsEveryRearrangement<T>(s: seq<T>, n: nat, t: seq<T>)
    requires Rearrangement(t, s, n)
    ensures t in Gen(s, n)
    decreases n
  {
    if n == 0 {
      assert t == t[n..] == s[n..] == s;
    } else {
      var i := TurnFor(s, n, t);
      YieldsEveryRearrangement(Swapped(s, i, n - 1), n - 1, t);
      BlockIsGenerated(s, n, n, i, t);
    }
  }

  /** The turn that puts the right element into position n - 1. */
  lemma TurnFor<T>(s: seq<T>, n: nat, t: seq<T>) returns (i: nat)
    requires 0 < n && Rearrangement(t, s, n)
    ensures i < n && s[i] == t[n - 1] && Rearrangement(t, Swapped(s, i, n - 1), n - 1)
  {
    assert t[..n] == t[..n - 1] + [t[n - 1]];
    assert t[n - 1] in multiset(s[..n]);
    i :| 0 <= i < n && s[..n][i] == t[n - 1];
    SwapKeepsElements(s, n, i);
    SwapKeepsSuffix(s, n, i);
    assert t[n - 1..] == [t[n - 1]] + t[n..];
    Cancel(multiset(t[..n - 1]), multiset(Swapped(s, i, n - 1)[..n - 1]), s[i]);
  }

  lemma {:induction false} BlockCount<T>(s: seq<T>, n: nat, i: nat)
    requires 0 < n <= |s| && i <= n
    ensures |GenUpTo(s, n, i)| == i * Factorial(n - 1)
    decreases n, 0, i
  {
    if i > 0 {
      BlockCount(s, n, i - 1);
      YieldCount(Swapped(s, i - 1, n - 1), n - 1);
      assert (i - 1) * Factorial(n - 1) + Factorial(n - 1) == i * Factorial(n - 1);
    }
  }

  lemma {:induction false} YieldCount<T>(s: seq<T>, n: nat)
    requires n <= |s|
    ensures |Gen(s, n)| == Factorial(n)
    decreases n, 1
  {
    if n > 0 {
      BlockCount(s, n, n);
    }
  }

  lemma {:induction false} DistinctTurns<T>(s: seq<T>, n: nat, i: nat)
    requires 0 < n <= |s| && i <= n && Distinct(s[..n])
    ensures Distinct(GenUpTo(s, n, i))
    decreases n, 0, i
  {
    if i > 0 {
      var earlier, block := GenUpTo(s, n, i - 1), Block(s, n, i - 1);
      DistinctTurns(s, n, i - 1);
      DistinctPrefix(s, n, i - 1);
      DistinctYields(Swapped(s, i - 1, n - 1), n - 1);
      forall t | t in earlier
        ensures t !in block
      {
        var j := FindBlock(s, n, i - 1, t);
        NotInBoth(s, n, j, i - 1, t);
      }
      DistinctConcat(earlier, block);
    }
  }

  /** Blocks of different turns differ in position n - 1. */
  lemma NotInBoth<T>(s: seq<T>, n: nat, j: nat, i: nat, t: seq<T>)
    requires j < i < n <= |s| && s[j] != s[i] && t in Block(s, n, j)
    ensures t !in Block(s, n, i)
  {
    BlockYields(s, n, j, t);
    if t in Block(s, n, i) {
      BlockYields(s, n, i, t);
    }
  }

  lemma DistinctConcat<T>(a: seq<T>, b: seq<T>)
    requires Distinct(a) && Distinct(b) && forall t | t in a :: t !in b
    ensures Distinct(a + b)
  {
    assert forall i | 0 <= i < |a| :: a[i] in a;
  }

  lemma DistinctPrefix<T>(s: seq<T>, n: nat, i: nat)
    requires i < n <= |s| && Distinct(s[..n])
    ensures Distinct(Swapped(s, i, n - 1)[..n - 1])
    ensures forall j | 0 <= j < i :: s[j] != s[i]
  {
    assert forall j | 0 <= j < n :: s[..n][j] == s[j];
  }

  lemma {:induction false} DistinctYields<T>(s: seq<T>, n: nat)
    requires n <= |s| && Distinct(s[..n])
    ensures Distinct(Gen(s, n))
    decreases n, 1
  {
    if n > 0 {
      DistinctTurns(s, n, n);
    }
  }

  /** Two equal elements have turns that yield a common arrangement. */
  lemma RepeatedElementRepeatsAYield<T>(s: seq<T>, n: nat, i: nat, j: nat)
    requires i < j < n <= |s| && s[i] == s[j]
    ensures !Distinct(Gen(s, n))
  {
    var t := CommonYield(s, n, i, j);
    var p := Position(s, n, n, i, t);
    var q := Position(s, n, n, j, t);
    Ordered(i + 1, j, Factorial(n - 1));
    assert Gen(s, n)[p] == Gen(s, n)[q] && p < q;
  }

  lemma CommonYield<T>(s: seq<T>, n: nat, i: nat, j: nat) returns (t: seq<T>)
    requires i < j < n <= |s| && s[i] == s[j]
    ensures t in Block(s, n, i) && t in Block(s, n, j)
  {
    t := Swapped(s, j, n - 1);
    SwapKeepsElements(s, n, i);
    SwapKeepsElements(s, n, j);
    SwapKeepsSuffix(s, n, i);
    SwapKeepsSuffix(s, n, j);
    Cancel(multiset(t[..n - 1]), multiset(Swapped(s, i, n - 1)[..n - 1]), s[i]);
    YieldsEveryRearrangement(t, n - 1, t);
    YieldsEveryRearrangement(Swapped(s, i, n - 1), n - 1, t);
  }

  lemma Ordered(a: nat, b: nat, f: nat)
    requires a <= b
    ensures a * f <= b * f
  {
  }

  /** A place of a block's yield among all yields; places of later blocks come later. */
  lemma {:induction false} Position<T>(s: seq<T>, n: nat, i: nat, j: nat, t: seq<T>) returns (p: nat)
    requires 0 < n <= |s| && j < i <= n && t in Block(s, n, j)
    ensures p < |GenUpTo(s, n, i)| && GenUpTo(s, n, i)[p] == t
    ensures j * Factorial(n - 1) <= p < (j + 1) * Factorial(n - 1)
  {
    if j < i - 1 {
      p := Position(s, n, i - 1, j, t);
    } else {
      var k :| 0 <= k < |Block(s, n, j)| && Block(s, n, j)[k] == t;
      BlockCount(s, n, j);
      YieldCount(Swapped(s, j, n - 1), n - 1);
      p := j * Factorial(n - 1) + k;
      assert (j + 1) * Factorial(n - 1) == j * Factorial(n - 1) + Factorial(n - 1);
    }
  }

  // ---------- Main results ----------

  /** permgen yields exactly the rearrangements of the first n elements, n! of them. */
  lemma YieldsExactlyTheRearrangements<T>(s: seq<T>, n: nat, t: seq<T>)
    requires n <= |s|
    ensures t in Gen(s, n) <==> Rearrangement(t, s, n)
    ensures |Gen(s, n)| == Factorial(n)
  {
    YieldCount(s, n);
    if t in Gen(s, n) {
      YieldsRearrangements(s, n, t);
    } else if Rearrangement(t, s, n) {
      YieldsEveryRearrangement(s, n, t);
    }
  }

  /** No rearrangement is yielded twice exactly when the elements are pairwise distinct. */
  lemma YieldsDistinctIffElementsDistinct<T>(s: seq<T>, n: nat)
    requires n <= |s|
    ensures Distinct(Gen(s, n)) <==> Distinct(s[..n])
  {
    if Distinct(s[..n]) {
      DistinctYields(s, n);
    } else {
      var i, j :| 0 <= i < j < n && s[..n][i] == s[..n][j];
      RepeatedElementRepeatsAYield(s, n, i, j);
    }
  }

  // ---------- In which order ----------

  lemma {:induction false} TurnEnds<T>(s: seq<T>, n: nat, i: nat, j: nat, p: nat)
    requires 0 < n <= |s| && j < i <= n
    requires j * Factorial(n - 1) <= p < (j + 1) * Factorial(n - 1)
    ensures p < |GenUpTo(s, n, i)| && GenUpTo(s, n, i)[p] in Block(s, n, j)
  {
    Ordered(j + 1, i, Factorial(n - 1));
    BlockCount(s, n, i);
    BlockCount(s, n, i - 1);
    if j < i - 1 {
      TurnEnds(s, n, i - 1, j, p);
    }
  }

  /** The yields come in n equal runs, one for each element, in order: that element comes last in all of them. */
  lemma ElementsComeLastInTurn<T>(s: seq<T>, n: nat, j: nat, p: nat)
    requires j < n <= |s| && j * Factorial(n - 1) <= p < (j + 1) * Factorial(n - 1)
    ensures p < |Gen(s, n)| && |Gen(s, n)[p]| == |s| && Gen(s, n)[p][n - 1] == s[j]
  {
    TurnEnds(s, n, n, j, p);
    BlockYields(s, n, j, Gen(s, n)[p]);
  }

  lemma NextTurn<T>(s: seq<T>, n: nat, i: nat, swapped: seq<T>, earlier: seq<seq<T>>, turn: seq<seq<T>>)
    requires i < n <= |s| && Swapped(s, i, n - 1) == swapped && n - 1 <= |swapped|
    requires GenUpTo(s, n, i) == earlier && Gen(swapped, n - 1) == turn
    ensures GenUpTo(s, n, i + 1) == earlier + turn
  {
  }

  lemma YieldsOfOne<T>(s: seq<T>)
    requires |s| >= 1
    ensures Gen(s, 1) == [s]
  {
    NextTurn(s, 1, 0, s, [], [s]);
  }

  lemma FirstOfTwo<T>(s: seq<T>, t: seq<T>)
    requires |s| >= 2 && t == Swapped(s, 0, 1)
    ensures GenUpTo(s, 2, 1) == [t]
  {
    YieldsOfOne(t);
    NextTurn(s, 2, 0, t, [], [t]);
  }

  lemma YieldsOfTwo<T>(s: seq<T>, t: seq<T>)
    requires |s| >= 2 && t == Swapped(s, 0, 1)
    ensures Gen(s, 2) == [t, s]
  {
    FirstOfTwo(s, t);
    YieldsOfOne(s);
    NextTurn(s, 2, 1, s, [t], [s]);
  }

  /** What the script prints for the three elements it is called with. */
  lemma YieldsOfThree<T>(a: T, b: T, c: T)
    ensures Gen([a, b, c], 3) == [[b, c, a], [c, b, a], [c, a, b], [a, c, b], [b, a, c], [a, b, c]]
  {
    var s := [a, b, c];
    YieldsOfTwo([c, b, a], [b, c, a]);
    YieldsOfTwo([a, c, b], [c, a, b]);
    YieldsOfTwo(s, [b, a, c]);
    NextTurn(s, 3, 0, [c, b, a], [], [[b, c, a], [c, b, a]]);
    NextTurn(s, 3, 1, [a, c, b], [[b, c, a], [c, b, a]], [[c, a, b], [a, c, b]]);
    NextTurn(s, 3, 2, s, [[b, c, a], [c, b, a], [c, a, b], [a, c, b]], [[b, a, c], s]);
  }
}
