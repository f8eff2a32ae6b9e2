/** The reordering done by `questions.sort(() => Math.random() - 0.5)`.
    The comparator answers at random, so the engine may return the
    questions in any order; the random answers are modelled as a supply of
    choices, and each choice picks which of the remaining questions comes
    next. Every supply yields a permutation (Shuffle's contract), and every
    permutation is produced by some supply (ShuffleReachesEveryPermutation),
    so the model admits exactly the outcomes a sort can have. */
module Shuffling {

  /** The next random choice, or 0 once the supply is exhausted. */
  function NextChoice(choices: seq<nat>): nat {
    if choices == [] then 0 else choices[0]
  }

  /** The supply after one choice is used. */
  function LaterChoices(choices: seq<nat>): seq<nat> {
    if choices == [] then [] else choices[1..]
  }

  /** `s` with its `j`-th element taken out. */
  function Without<T>(s: seq<T>, j: nat): (r: seq<T>)
    requires j < |s|
    ensures |r| == |s| - 1
    ensures multiset(s) == multiset(r) + multiset{s[j]}
  {
    assert s == s[..j] + [s[j]] + s[j + 1..];
    s[..j] + s[j + 1..]
  }

  /** The order the sort leaves `data` in, given the random choices. */
  function Shuffle<T>(data: seq<T>, choices: seq<nat>): (r: seq<T>)
    ensures |r| == |data|
    ensures multiset(r) == multiset(data)
    decreases |data|
  {
    if data == [] then []
    else
      var j := NextChoice(choices) % |data|;
      [data[j]] + Shuffle(Without(data, j), LaterChoices(choices))
  }

  lemma SmallRemainder(j: nat, n: nat)
    requires j < n
    ensures j % n == j
  {
  }

  lemma CancelOne<T>(a: multiset<T>, b: multiset<T>, x: T)
    requires a + multiset{x} == b + multiset{x}
    ensures a == b
  {
    assert a == (a + multiset{x}) - multiset{x};
  }

  /** No ordering of the data is ruled out: for each permutation `target`
      there is a supply of random choices that produces it. */
  lemma {:induction false} ShuffleReachesEveryPermutation<T>(data: seq<T>, target: seq<T>)
    returns (choices: seq<nat>)
    requires multiset(target) == multiset(data)
    ensures Shuffle(data, choices) == target
    decreases |data|
  {
    assert |target| == |multiset(target)| == |multiset(data)| == |data|;
    if data == [] {
      choices := [];
    } else {
      var first, tail := target[0], target[1..];
      assert first in multiset(data);
      var j :| 0 <= j < |data| && data[j] == first;
      var rest := Without(data, j);
      assert target == [first] + tail;
      CancelOne(multiset(tail), multiset(rest), first);
      var later := ShuffleReachesEveryPermutation(rest, tail);
      choices := [j] + later;
      SmallRemainder(j, |data|);
      assert NextChoice(choices) == j && LaterChoices(choices) == later;
    }
  }
}
