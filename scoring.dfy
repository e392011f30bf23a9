/** The final percentage and the persisted high score (script.js,
    showFinalScore, loadHighScore and saveHighScore). */
module Scoring {
  import opened Wrappers

  /** `Math.round(score / total * 100)`. Both operands are non-negative and
      Math.round breaks ties upward, so the result is the whole number
      nearest to 100 * score / total, with halves rounded up. */
  function Percentage(score: nat, total: nat): nat
    requires total > 0
  {
    (200 * score + total) / (2 * total)
  }

  /** The percentage is 100 * score / total rounded half up (that value lies
      in [p - 1/2, p + 1/2)); it is at most 100 when the score does not
      exceed the number of questions, 100 when every answer was correct
      and 0 when none was. */
  lemma PercentageRounds(score: nat, total: nat)
    requires total > 0
    ensures var p := Percentage(score, total);
      2 * total * p - total <= 200 * score < 2 * total * p + total
    ensures score <= total ==> Percentage(score, total) <= 100
    ensures score == total ==> Percentage(score, total) == 100
    ensures score == 0 ==> Percentage(score, total) == 0
  {
    var p := Percentage(score, total);
    var d, n := 2 * total, 200 * score + total;
    var m := n % d;
    assert n == d * p + m && 0 <= m < d;
    assert d * p == 2 * total * p;
    if score <= total && p > 100 {
      MultiplyMonotone(d, 101, p);
      assert false;
    }
    if score == total {
      DivUnique(n, d, 100, total);
    }
    if score == 0 {
      DivUnique(n, d, 0, total);
    }
  }

  /** Integer division has a single quotient. */
  lemma DivUnique(n: int, d: int, q: int, r: int)
    requires d > 0 && 0 <= r < d && n == d * q + r
    ensures n / d == q
  {
    var q', r' := n / d, n % d;
    assert n == d * q' + r' && 0 <= r' < d;
    if q' > q {
      MultiplyMonotone(d, q + 1, q');
      assert false;
    } else if q' < q {
      MultiplyMonotone(d, q' + 1, q);
      assert false;
    }
  }

  lemma MultiplyMonotone(a: nat, x: int, y: int)
    requires x <= y
    ensures a * x <= a * y
  {
    assert a * y - a * x == a * (y - x);
  }

  /** Two sessions of the same length: more correct answers never give a
      lower percentage. */
  lemma {:induction false} PercentageMonotone(s1: nat, s2: nat, total: nat)
    requires total > 0 && s1 <= s2
    ensures Percentage(s1, total) <= Percentage(s2, total)
  {
    var p1, p2 := Percentage(s1, total), Percentage(s2, total);
    PercentageRounds(s1, total);
    PercentageRounds(s2, total);
    var d := 2 * total;
    assert d * p1 == 2 * total * p1 && d * p2 == 2 * total * p2;
    if p1 > p2 {
      MultiplyMonotone(d, p2 + 1, p1);
      assert false;
    }
  }

  /** The browser key under which the best percentage is kept. */
  const HighScoreKey: string := "quizHighScore"

  /** The stored best, with an absent value counting as 0 (`|| 0`). */
  function Best(items: map<string, int>): int {
    if HighScoreKey in items then items[HighScoreKey] else 0
  }

  /** The store after offering `p` as a new record: written only on a strict
      improvement over the stored best, every other key untouched. */
  function Recorded(items: map<string, int>, p: int): (r: map<string, int>)
    ensures Best(r) == if p > Best(items) then p else Best(items)
    ensures p > Best(items) ==> HighScoreKey in r && r[HighScoreKey] == p
    ensures p <= Best(items) ==> r == items
    ensures forall k :: k != HighScoreKey ==> (k in r <==> k in items)
    ensures forall k :: k != HighScoreKey && k in items ==> r[k] == items[k]
  {
    if p > Best(items) then items[HighScoreKey := p] else items
  }

  /** Offering scores one after another keeps the largest of them. */
  lemma RecordedTwice(items: map<string, int>, p: int, q: int)
    ensures Best(Recorded(Recorded(items, p), q))
         == Best(Recorded(Recorded(items, q), p))
  {
  }

  /** The browser's key-value store, as far as the high score uses it. */
  class HighScoreStore {
    var items: map<string, int>

    constructor (items: map<string, int>)
      ensures this.items == items
    {
      this.items := items;
    }

    /** loadHighScore: the saved value, if any. */
    function LoadHighScore(): Option<int>
      reads this
    {
      if HighScoreKey in items then Some(items[HighScoreKey]) else None
    }

    /** saveHighScore: writes `percentage` and answers true exactly when it
        beats the stored best; otherwise the store is left as it was. A load
        after a new record returns that record; otherwise a load returns
        what it returned before. */
    method SaveHighScore(percentage: int) returns (isNewRecord: bool)
      modifies this
      ensures isNewRecord <==> percentage > Best(old(items))
      ensures items == Recorded(old(items), percentage)
      ensures isNewRecord ==> LoadHighScore() == Some(percentage)
      ensures !isNewRecord ==> LoadHighScore() == old(LoadHighScore())
    {
      var current := Best(items);
      if percentage > current {
        items := items[HighScoreKey := percentage];
        return true;
      }
      return false;
    }
  }
}
