/** `List.shuffled()`, which copies the list and runs `java.util.Collections.shuffle`
    on it: for i from size down to 2, swap element i-1 with element nextInt(i).
    The random source is an input here: `draws[k]` is the value `nextInt` returned
    on the k-th iteration. */
module Shuffling {
  import opened Lists

  /** The draws a random source can produce for a list of length n: n-1 of them
      (none for an empty list), the k-th one below n-k. */
  predicate ValidDraws(draws: seq<nat>, n: nat)
  {
    && |draws| == (if n == 0 then 0 else n - 1)
    && forall k :: 0 <= k < |draws| ==> draws[k] < n - k
  }

  /** Fisher–Yates from the top: swap the last slot with the drawn one, then
      shuffle everything before it. */
  function Shuffle<T>(s: seq<T>, draws: seq<nat>): (r: seq<T>)
    requires ValidDraws(draws, |s|)
    ensures |r| == |s|
    ensures multiset(r) == multiset(s)
    ensures NoDuplicates(s) ==> NoDuplicates(r)
    decreases |s|
  {
    if |s| <= 1 then s
    else
      var last := |s| - 1;
      var t := Swap(s, last, draws[0]);
      assert t == t[..last] + [t[last]];
      var rest := Shuffle(t[..last], draws[1..]);
      AppendKeepsPermutation(t[..last], rest, t[last]);
      rest + [t[last]]
  }

  /** Putting the same value after two permutations of each other gives two
      permutations of each other, and keeps the result duplicate-free. */
  lemma AppendKeepsPermutation<T>(init: seq<T>, rest: seq<T>, x: T)
    requires multiset(rest) == multiset(init)
    requires NoDuplicates(init + [x]) ==> NoDuplicates(rest)
    ensures multiset(rest + [x]) == multiset(init + [x])
    ensures NoDuplicates(init + [x]) ==> NoDuplicates(rest + [x])
  {
    if NoDuplicates(init + [x]) {
      assert forall k :: 0 <= k < |init| ==> (init + [x])[k] == init[k];
      assert (init + [x])[|init|] == x;
      assert x !in init;
      assert x !in multiset(rest);
      forall i, j | 0 <= i < j < |rest + [x]|
        ensures (rest + [x])[i] != (rest + [x])[j]
      {
        if j == |rest| {
          assert (rest + [x])[i] == rest[i];
        }
      }
    }
  }

  /** The draws that make the shuffle produce a chosen permutation `t` of `s`:
      every permutation is a possible outcome, so the shuffle is arbitrary. */
  function DrawsFor<T(==)>(s: seq<T>, t: seq<T>): (draws: seq<nat>)
    requires multiset(s) == multiset(t)
    ensures ValidDraws(draws, |s|)
    ensures Shuffle(s, draws) == t
    decreases |s|
  {
    assert |s| == |multiset(s)| == |t|;
    if |s| == 0 then []
    else if |s| == 1 then
      assert s == [s[0]] && t == [t[0]];
      assert multiset(s) == multiset{s[0]};
      assert t[0] in multiset(s);
      []
    else
      var last := |s| - 1;
      assert t[last] in multiset(s);
      var j: nat := IndexOf(s, t[last]);
      var u := Swap(s, last, j);
      SamePrefixes(u, t);
      var rest := DrawsFor(u[..last], t[..last]);
      FirstDraw(s, j, rest);
      [j] + rest
  }

  /** What one draw `j` followed by the draws `rest` does: swap the last slot
      with slot j, fix it, and let `rest` shuffle the others. */
  lemma FirstDraw<T>(s: seq<T>, j: nat, rest: seq<nat>)
    requires |s| >= 2 && j < |s|
    requires ValidDraws(rest, |s| - 1)
    ensures ValidDraws([j] + rest, |s|)
    ensures Shuffle(s, [j] + rest)
         == Shuffle(Swap(s, |s| - 1, j)[..|s| - 1], rest) + [s[j]]
  {
  }

  /** Two permutations of each other that end in the same value are
      permutations of each other without it; the second is its prefix plus
      that value. */
  lemma SamePrefixes<T>(u: seq<T>, t: seq<T>)
    requires |u| == |t| > 0
    requires multiset(u) == multiset(t)
    requires u[|u| - 1] == t[|t| - 1]
    ensures multiset(u[..|u| - 1]) == multiset(t[..|t| - 1])
    ensures t == t[..|t| - 1] + [t[|t| - 1]]
  {
    var n := |u| - 1;
    assert u == u[..n] + [u[n]];
    assert t == t[..n] + [t[n]];
    calc {
      multiset(u[..n]);
      multiset(u) - multiset{u[n]};
      multiset(t) - multiset{t[n]};
      multiset(t[..n]);
    }
  }
}
