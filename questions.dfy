/** The question repository: a read-only bank of questions, filtered by
    category and difficulty and capped by the difficulty tier
    (script.js, getQuestionsByCategory). */
module Questions {
  import opened Wrappers

  /** One answer button's data. The source attaches the `correct` flag to a
      button only when it is true; reading it back is truthy exactly when
      this flag is set. */
  datatype Answer = Answer(text: string, correct: bool)

  /** A bank entry. Category and difficulty are free strings, as in the
      source: a difficulty outside the three tiers is possible and simply
      has no cap. */
  datatype Question = Question(
    category: string,
    difficulty: string,
    prompt: string,
    answers: seq<Answer>,
    explanation: Option<string>)

  /** The per-tier question counts. `None` stands for a difficulty that is
      not a key of the counts object at all, for which `slice(0, undefined)`
      keeps every match; names inherited from the object's prototype are
      not modelled. */
  function Cap(difficulty: string): (cap: Option<nat>)
    ensures cap.Some? <==> difficulty in {"beginner", "intermediate", "advanced"}
  {
    if difficulty == "beginner" then Some(10)
    else if difficulty == "intermediate" then Some(7)
    else if difficulty == "advanced" then Some(5)
    else None
  }

  predicate Matches(q: Question, category: string, difficulty: string) {
    q.category == category && q.difficulty == difficulty
  }

  /** The bank entries whose category and difficulty both match, in bank
      order (the `filter` step). */
  function Matching(bank: seq<Question>, category: string, difficulty: string): (r: seq<Question>)
    ensures |r| <= |bank|
    ensures forall q :: q in r ==> q in bank && Matches(q, category, difficulty)
  {
    if bank == [] then []
    else
      (if Matches(bank[0], category, difficulty) then [bank[0]] else [])
      + Matching(bank[1..], category, difficulty)
  }

  /** Filtering keeps every matching entry as often as the bank holds it and
      drops every other entry. */
  lemma {:induction false} MatchingMultiplicity(bank: seq<Question>, category: string, difficulty: string, q: Question)
    ensures multiset(Matching(bank, category, difficulty))[q]
         == if Matches(q, category, difficulty) then multiset(bank)[q] else 0
  {
    if bank != [] {
      MatchingMultiplicity(bank[1..], category, difficulty, q);
      assert bank == [bank[0]] + bank[1..];
    }
  }

  /** Filtering commutes with concatenation: entries keep their bank order. */
  lemma {:induction false} MatchingAppend(a: seq<Question>, b: seq<Question>, category: string, difficulty: string)
    ensures Matching(a + b, category, difficulty)
         == Matching(a, category, difficulty) + Matching(b, category, difficulty)
  {
    if a == [] {
      assert a + b == b;
    } else {
      assert (a + b)[0] == a[0];
      assert (a + b)[1..] == a[1..] + b;
      MatchingAppend(a[1..], b, category, difficulty);
    }
  }

  function Min(x: nat, y: nat): nat {
    if x <= y then x else y
  }

  /** getQuestionsByCategory: the first `cap` matching entries in bank order,
      or all of them when the difficulty has no cap. */
  function Select(bank: seq<Question>, category: string, difficulty: string): (r: seq<Question>)
    ensures r <= Matching(bank, category, difficulty)
    ensures forall q :: q in r ==> q in bank && Matches(q, category, difficulty)
    ensures Cap(difficulty).Some? ==>
              |r| == Min(|Matching(bank, category, difficulty)|, Cap(difficulty).value)
    ensures Cap(difficulty).None? ==> r == Matching(bank, category, difficulty)
  {
    var matches := Matching(bank, category, difficulty);
    match Cap(difficulty)
    case Some(n) => if n < |matches| then matches[..n] else matches
    case None => matches
  }
}
