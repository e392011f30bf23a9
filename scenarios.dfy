/** Clients of the session that walk through concrete runs; each asserts
    what the contracts alone let a caller conclude. */
module Scenarios {
  import opened Wrappers
  import opened Questions
  import opened Scoring
  import opened Session

  /** Two javascript/beginner entries among others: both are selected. */
  method SelectBelowCap() {
    var a := Question("javascript", "beginner", "q1", [Answer("x", true)], None);
    var b := Question("css", "beginner", "q2", [Answer("y", true)], None);
    var c := Question("javascript", "beginner", "q3", [Answer("z", true)], None);
    var d := Question("javascript", "advanced", "q4", [Answer("w", true)], None);
    var bank := [a, b, c, d];
    assert bank[1..] == [b, c, d] && bank[1..][1..] == [c, d] && bank[1..][1..][1..] == [d];
    assert Matching([d], "javascript", "beginner") == [] by {
      assert d.difficulty != "beginner";
    }
    assert Matching([c, d], "javascript", "beginner") == [c];
    assert Matching([b, c, d], "javascript", "beginner") == [c] by {
      assert b.category != "javascript";
    }
    assert Matching(bank, "javascript", "beginner") == [a, c];
    var chosen := Select(bank, "javascript", "beginner");
    assert chosen == [a, c];
  }

  /** A one-question session answered correctly before the countdown ends
      finishes at 100% and, against an empty store, sets a new record. */
  method OneCorrectAnswer() {
    var q := Question("javascript", "beginner", "q", [Answer("right", true), Answer("wrong", false)], None);
    var store := new HighScoreStore(map[]);
    var session := new QuizSession([q], store);
    assert Matching([q], "javascript", "beginner") == [q];
    session.Start("javascript", "beginner", [], []);
    // the buttons show the two answers in some order: click the correct one
    var right, wrong := Answer("right", true), Answer("wrong", false);
    assert multiset(session.buttons) == multiset{right, wrong};
    assert |session.buttons| == 2;
    assert session.buttons[0] in multiset(session.buttons);
    assert session.buttons[1] in multiset(session.buttons);
    var choice := if session.buttons[0].correct then 0 else 1;
    assert session.buttons[choice] == right;
    session.SelectAnswer(choice);
    assert session.phase == Complete && session.score == 1;
    assert session.percentage == 100 && session.newRecord;
    assert store.items[HighScoreKey] == 100;
    // the buttons are gone: further clicks change nothing
    session.SelectAnswer(0);
    assert session.score == 1;
  }

  /** A one-question session left to run out: fifteen ticks end it at 0%
      with the score untouched, and the store is not written. */
  method OneTimeout() {
    var q := Question("javascript", "beginner", "q", [Answer("right", true)], None);
    var store := new HighScoreStore(map[]);
    var session := new QuizSession([q], store);
    assert Matching([q], "javascript", "beginner") == [q];
    session.Start("javascript", "beginner", [], []);
    while session.phase == AwaitingAnswer
      invariant session.Valid() && session.store == store
      invariant session.phase == AwaitingAnswer || session.phase == Complete
      invariant session.score == 0 && |session.questions| == 1
      invariant session.phase == AwaitingAnswer ==> store.items == map[]
      invariant session.phase == Complete ==> session.percentage == 0 && !session.newRecord && store.items == map[]
      decreases session.timeLeft
    {
      session.Tick();
    }
    assert session.percentage == 0;
    assert HighScoreKey !in store.items;
  }

  /** A stored best of 70: 65 is not a record and leaves it, 85 is and
      replaces it. */
  method HighScoreUpdates() {
    var store := new HighScoreStore(map[HighScoreKey := 70]);
    var isNew := store.SaveHighScore(65);
    assert !isNew && store.items[HighScoreKey] == 70;
    isNew := store.SaveHighScore(85);
    assert isNew && store.items[HighScoreKey] == 85;
    assert store.LoadHighScore() == Some(85);
  }
}
