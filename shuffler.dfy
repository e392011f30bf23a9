/** The shuffle `sort(() => Math.random() - .5)`, applied to the question
    list and to each question's answers. A comparator-based sort driven by
    random answers can yield any reordering of its input and nothing else,
    so the randomness is modelled as a parameter: `picks` stands for the
    random outcomes, and each pick chooses which remaining element comes
    next. */
module Shuffler {

  /** The reordering that the outcomes `picks` produce. A missing or
      out-of-range pick chooses the first remaining element. */
  function Shuffle<T>(s: seq<T>, picks: seq<nat>): (r: seq<T>)
    ensures |r| == |s|
    decreases |s|
  {
    if s == [] then []
    else
      var k := if picks == [] || picks[0] >= |s| then 0 else picks[0];
      var rest := if picks == [] then [] else picks[1..];
      [s[k]] + Shuffle(s[..k] + s[k + 1..], rest)
  }

  /** One step of the shuffle: the first pick (or the first element, when
      the pick is missing or out of range) comes first. */
  lemma ShuffleUnfold<T>(s: seq<T>, picks: seq<nat>, k: nat, rest: seq<nat>)
    requires s != []
    requires k == if picks == [] || picks[0] >= |s| then 0 else picks[0]
    requires rest == if picks == [] then [] else picks[1..]
    ensures k < |s|
    ensures Shuffle(s, picks) == [s[k]] + Shuffle(s[..k] + s[k + 1..], rest)
  {
  }

  /** Whatever the random outcomes, the shuffle returns a permutation of its
      input: nothing is dropped or duplicated. */
  lemma {:induction false} ShufflePermutes<T>(s: seq<T>, picks: seq<nat>)
    ensures multiset(Shuffle(s, picks)) == multiset(s)
    decreases |s|
  {
    if s != [] {
      var k := if picks == [] || picks[0] >= |s| then 0 else picks[0];
      var rest := if picks == [] then [] else picks[1..];
      var others := s[..k] + s[k + 1..];
      ShuffleUnfold(s, picks, k, rest);
      ShufflePermutes(others, rest);
      RemoveAt(s, k);
      assert multiset([s[k]] + Shuffle(others, rest)) == multiset{s[k]} + multiset(Shuffle(others, rest));
    }
  }

  /** The shuffle as a step of the session: the caller learns only that
      the result is a reordering of the input, which is all the source
      relies on. */
  method Shuffled<T>(s: seq<T>, picks: seq<nat>) returns (r: seq<T>)
    ensures |r| == |s|
    ensures multiset(r) == multiset(s)
  {
    r := Shuffle(s, picks);
    ShufflePermutes(s, picks);
  }

  /** Taking the element at `k` out of `s` removes one occurrence of it. */
  lemma RemoveAt<T>(s: seq<T>, k: nat)
    requires k < |s|
    ensures multiset(s) == multiset{s[k]} + multiset(s[..k] + s[k + 1..])
  {
    assert s == s[..k] + [s[k]] + s[k + 1..];
  }

  /** One occurrence of the same element can be cancelled on both sides. */
  lemma Cancel<T>(a: multiset<T>, b: multiset<T>, x: T)
    requires multiset{x} + a == multiset{x} + b
    ensures a == b
  {
    assert forall y :: a[y] == (multiset{x} + a)[y] - multiset{x}[y];
  }

  /** The step that puts `t[0]` first, picked at position `k`. */
  lemma ShuffleStep<T>(s: seq<T>, k: nat, rest: seq<nat>, t: seq<T>)
    requires k < |s| && t != [] && s[k] == t[0]
    requires Shuffle(s[..k] + s[k + 1..], rest) == t[1..]
    ensures Shuffle(s, [k] + rest) == t
  {
    ShuffleUnfold(s, [k] + rest, k, ([k] + rest)[1..]);
    assert ([k] + rest)[1..] == rest;
    assert [t[0]] + t[1..] == t;
  }

  /** Every permutation of the input is the outcome of some random draws:
      together with ShufflePermutes, the possible results are exactly the
      permutations. */
  lemma {:induction false} ShuffleReaches<T>(s: seq<T>, t: seq<T>)
    requires multiset(t) == multiset(s)
    ensures exists picks :: Shuffle(s, picks) == t
  {
    if t == [] {
      assert |s| == |multiset(s)| == 0;
      assert Shuffle(s, []) == t;
    } else {
      assert t[0] in multiset(s) by { assert t[0] in multiset(t); }
      var k :| 0 <= k < |s| && s[k] == t[0];
      var others := s[..k] + s[k + 1..];
      RemoveAt(s, k);
      assert multiset(s) == multiset{t[0]} + multiset(others);
      assert t == [t[0]] + t[1..];
      assert multiset(t) == multiset{t[0]} + multiset(t[1..]);
      Cancel(multiset(t[1..]), multiset(others), t[0]);
      ShuffleReaches(others, t[1..]);
      var rest :| Shuffle(others, rest) == t[1..];
      var picks := [k] + rest;
      ShuffleStep(s, k, rest, t);
      assert Shuffle(s, picks) == t;
    }
  }
}
