/**
 * The client's in-place Fisher-Yates shuffle and the five budgeting tips it picks after a
 * successful calculation. `Math.random()` is an input: the sequence of values it returns,
 * each in [0, 1), consumed one per loop iteration.
 */
module TipShuffle {

  const Recommendations: seq<string> := [
    "Automate Savings: Schedule an automatic transfer to your savings or investment account each month.",
    "Track Expenses: Use a budgeting app (e.g., Seedly, YNAB) to keep tabs on your daily spending.",
    "Review Subscriptions: Cancel any unused subscriptions or memberships to free up extra cash. (e.g, Netflix, Disney+, ChatGPT Plus, etc.)",
    "Pay High-Interest Debts First: Focus on credit cards or personal loans before other expenses.",
    "Leverage CPF & Government Schemes: Top up your CPF or explore local grants for housing and healthcare.",
    "Build an Emergency Fund: Aim for 3-6 months of expenses in a liquid savings account.",
    "Invest Regularly: Consider dollar-cost averaging into ETFs or REITs for long-term growth.",
    "Plan for Retirement Early: Explore SRS or CPF top-ups to enhance your retirement nest egg."
  ]

  /** How many tips are shown. */
  const TipCount: nat := 5

  /** Every value `Math.random()` returned lies in [0, 1). */
  predicate ValidRolls(rolls: seq<real>) {
    forall k :: 0 <= k < |rolls| ==> 0.0 <= rolls[k] < 1.0
  }

  lemma ScaledRollInRange(roll: real, n: real)
    requires 0.0 <= roll < 1.0 && n > 0.0
    ensures 0.0 <= roll * n < n
  {
    assert n - roll * n == (1.0 - roll) * n;
  }

  /** `Math.floor(roll * (i + 1))`: an index from 0 to `i`. */
  function RandomIndex(roll: real, i: nat): (j: nat)
    requires 0.0 <= roll < 1.0
    ensures j <= i
  {
    ScaledRollInRange(roll, (i + 1) as real);
    (roll * (i + 1) as real).Floor
  }

  /** The sequence with the elements at `i` and `j` exchanged. */
  function Swap<T>(s: seq<T>, i: nat, j: nat): (r: seq<T>)
    requires i < |s| && j < |s|
    ensures |r| == |s| && r[i] == s[j] && r[j] == s[i]
    ensures forall k :: 0 <= k < |s| && k != i && k != j ==> r[k] == s[k]
  {
    s[i := s[j]][j := s[i]]
  }

  lemma SwapPermutes<T>(s: seq<T>, i: nat, j: nat)
    requires i < |s| && j < |s|
    ensures multiset(Swap(s, i, j)) == multiset(s)
  {
    var t := s[i := s[j]];
    assert multiset(t) == multiset(s) - multiset{s[i]} + multiset{s[j]};
    assert multiset(t[j := s[i]]) == multiset(t) - multiset{t[j]} + multiset{s[i]};
  }

  /**
   * What the loop does to positions `i` down to 1: the swap at position `i` uses the
   * roll drawn in iteration `|s| - 1 - i`.
   */
  function ShuffleFrom<T>(s: seq<T>, i: int, rolls: seq<real>): seq<T>
    requires i < |s| && |s| - 1 <= |rolls| && ValidRolls(rolls)
    decreases i
  {
    if i <= 0 then s
    else ShuffleFrom(Swap(s, i, RandomIndex(rolls[|s| - 1 - i], i)), i - 1, rolls)
  }

  /** The whole shuffle of `s` under the given random values. */
  function Shuffled<T>(s: seq<T>, rolls: seq<real>): seq<T>
    requires |s| - 1 <= |rolls| && ValidRolls(rolls)
  {
    ShuffleFrom(s, |s| - 1, rolls)
  }

  /** Whatever the random values, the shuffle is a permutation of its input. */
  lemma {:induction false} ShuffleFromPermutes<T>(s: seq<T>, i: int, rolls: seq<real>)
    requires i < |s| && |s| - 1 <= |rolls| && ValidRolls(rolls)
    ensures |ShuffleFrom(s, i, rolls)| == |s|
    ensures multiset(ShuffleFrom(s, i, rolls)) == multiset(s)
    decreases i
  {
    if i > 0 {
      var j := RandomIndex(rolls[|s| - 1 - i], i);
      SwapPermutes(s, i, j);
      ShuffleFromPermutes(Swap(s, i, j), i - 1, rolls);
    }
  }

  lemma ShuffledPermutes<T>(s: seq<T>, rolls: seq<real>)
    requires |s| - 1 <= |rolls| && ValidRolls(rolls)
    ensures |Shuffled(s, rolls)| == |s| && multiset(Shuffled(s, rolls)) == multiset(s)
  {
    ShuffleFromPermutes(s, |s| - 1, rolls);
  }

  /** `shuffleArray`: the descending swap loop, in place. */
  method ShuffleArray<T>(arr: array<T>, rolls: seq<real>)
    requires arr.Length - 1 <= |rolls| && ValidRolls(rolls)
    modifies arr
    ensures arr[..] == Shuffled(old(arr[..]), rolls)
    ensures multiset(arr[..]) == multiset(old(arr[..]))
  {
    var i := arr.Length - 1;
    while i > 0
      invariant -1 <= i < arr.Length
      invariant ShuffleFrom(arr[..], i, rolls) == Shuffled(old(arr[..]), rolls)
    {
      var j := RandomIndex(rolls[arr.Length - 1 - i], i);
      ghost var before := arr[..];
      var t := arr[i];
      arr[i] := arr[j];
      arr[j] := t;
      assert arr[..] == Swap(before, i, j);
      i := i - 1;
    }
    ShuffledPermutes(old(arr[..]), rolls);
  }

  predicate NoDuplicates<T(==)>(s: seq<T>) {
    forall i, j :: 0 <= i < j < |s| ==> s[i] != s[j]
  }

  lemma {:induction false} DistinctCountsAtMostOnce<T>(s: seq<T>, x: T)
    requires NoDuplicates(s)
    ensures multiset(s)[x] <= 1
  {
    if s != [] {
      var last := |s| - 1;
      var init := s[..last];
      assert s == init + [s[last]];
      DistinctCountsAtMostOnce(init, x);
      if x == s[last] {
        assert forall k :: 0 <= k < |init| ==> init[k] == s[k] != s[last];
      }
    }
  }

  lemma RepeatCountsTwice<T>(s: seq<T>, i: nat, j: nat)
    requires i < j < |s| && s[i] == s[j]
    ensures multiset(s)[s[i]] >= 2
  {
    assert s == s[..j] + s[j..];
    assert s[i] in s[..j];
    assert s[j..] == [s[j]] + s[j + 1..];
  }

  /** A permutation of a sequence without repeats has no repeats either. */
  lemma PermutationKeepsDistinct<T>(s: seq<T>, t: seq<T>)
    requires NoDuplicates(s) && multiset(s) == multiset(t)
    ensures NoDuplicates(t)
  {
    forall i, j | 0 <= i < j < |t|
      ensures t[i] != t[j]
    {
      if t[i] == t[j] {
        RepeatCountsTwice(t, i, j);
        DistinctCountsAtMostOnce(s, t[i]);
      }
    }
  }

  lemma RecommendationsDistinct()
    ensures NoDuplicates(Recommendations)
  {
    var r := Recommendations;
    assert |r[0]| == 98 && |r[1]| == 93 && |r[2]| == 135 && |r[3]| == 93;
    assert |r[4]| == 102 && |r[5]| == 84 && |r[6]| == 89 && |r[7]| == 90;
    assert r[1][91] == 'g' && r[3][91] == 's';
  }

  /** `Array.prototype.slice(0, n)`: the first `n` elements, or all when there are fewer. */
  function Take<T>(s: seq<T>, n: nat): (r: seq<T>)
    ensures |r| == if n < |s| then n else |s|
    ensures r <= s
  {
    s[..if n < |s| then n else |s|]
  }

  /** Shuffle a copy of the recommendations and keep the first five. */
  method SelectTips(rolls: seq<real>) returns (tips: seq<string>)
    requires |Recommendations| - 1 <= |rolls| && ValidRolls(rolls)
    ensures tips == Take(Shuffled(Recommendations, rolls), TipCount)
    ensures |tips| == TipCount
    ensures forall t :: t in tips ==> t in Recommendations
    ensures NoDuplicates(tips)
  {
    RecommendationsDistinct();
    tips := ShuffledPrefix(Recommendations, rolls, TipCount);
  }

  /** `shuffleArray([...items]).slice(0, n)`: shuffle a fresh copy and keep its first `n` elements. */
  method ShuffledPrefix<T(==)>(items: seq<T>, rolls: seq<real>, n: nat) returns (picked: seq<T>)
    requires |items| - 1 <= |rolls| && ValidRolls(rolls) && NoDuplicates(items)
    ensures picked == Take(Shuffled(items, rolls), n)
    ensures |picked| == if n < |items| then n else |items|
    ensures forall t :: t in picked ==> t in items
    ensures NoDuplicates(picked)
  {
    var copy := new T[|items|](k requires 0 <= k < |items| => items[k]);
    assert copy[..] == items;
    ShuffleArray(copy, rolls);
    picked := Take(copy[..], n);
    ShuffledPermutes(items, rolls);
    PermutationKeepsDistinct(items, copy[..]);
    forall t | t in picked
      ensures t in items
    {
      assert t in multiset(copy[..]);
    }
  }
}
