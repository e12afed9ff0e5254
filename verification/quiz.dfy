/** The backend's dummy question banks and its answer checking
    (`get_quiz_for_lesson`, `check_lesson_quiz_answers`,
    `get_final_quiz_questions`, `check_final_quiz_answers`). */
module Quiz {
  import opened Wrappers
  import opened Text

  /** A multiple-choice question as far as scoring sees it: its id and the
      index of its correct option. The question text and options are not
      consulted when answers are checked. */
  datatype Question = Question(id: string, correctIndex: int)

  /** One submitted answer: `ans.get("id")` and `ans.get("choice")`, each
      None when the key is absent. */
  datatype Answer = Answer(id: Option<string>, choice: Option<int>)

  /** The two questions of every lesson. */
  function LessonQuestions(lesson: int): (qs: seq<Question>)
    ensures |qs| == 2
    ensures qs[0].id == "q" + IntToString(lesson) + "_1" && qs[0].correctIndex == 3
    ensures qs[1].id == "q" + IntToString(lesson) + "_2" && qs[1].correctIndex == 1
    ensures qs[0].id != qs[1].id
  {
    var stem := "q" + IntToString(lesson);
    var qs := [Question(stem + "_1", 3), Question(stem + "_2", 1)];
    assert qs[0].id[|qs[0].id| - 1] != qs[1].id[|qs[1].id| - 1];
    qs
  }

  /** The two questions of the final quiz. */
  function FinalQuestions(): (qs: seq<Question>)
    ensures |qs| == 2
    ensures qs[0] == Question("final1", 2) && qs[1] == Question("final2", 0)
  {
    [Question("final1", 2), Question("final2", 0)]
  }

  /** `{q["id"]: q for q in questions}[id]`: the LAST question with that id
      wins, None when there is none. */
  function Lookup(qs: seq<Question>, id: string): (r: Option<Question>)
    ensures r.Some? ==> r.value.id == id && r.value in qs
  {
    if |qs| == 0 then None
    else if qs[|qs| - 1].id == id then Some(qs[|qs| - 1])
    else Lookup(qs[..|qs| - 1], id)
  }

  /** Lookup finds the last question carrying the id, and fails exactly
      when no question carries it. */
  lemma {:induction false} LookupIsLastMatch(qs: seq<Question>, id: string)
    ensures Lookup(qs, id).None? <==> forall i :: 0 <= i < |qs| ==> qs[i].id != id
    ensures Lookup(qs, id).Some? ==>
              exists i :: 0 <= i < |qs| && qs[i] == Lookup(qs, id).value &&
                          forall j :: i < j < |qs| ==> qs[j].id != id
    decreases |qs|
  {
    if |qs| > 0 && qs[|qs| - 1].id != id {
      var init := qs[..|qs| - 1];
      LookupIsLastMatch(init, id);
      assert forall i :: 0 <= i < |init| ==> init[i] == qs[i];
      if Lookup(qs, id).Some? {
        var i :| 0 <= i < |init| && init[i] == Lookup(init, id).value &&
                 forall j :: i < j < |init| ==> init[j].id != id;
        assert qs[i] == Lookup(qs, id).value;
      }
    }
  }

  /** An answer scores when its id names a question and its choice is that
      question's correct index. */
  predicate Accepted(qs: seq<Question>, a: Answer) {
    && a.id.Some?
    && Lookup(qs, a.id.value).Some?
    && a.choice == Some(Lookup(qs, a.id.value).value.correctIndex)
  }

  /** The number of accepted answers, each answer counted on its own. */
  function CountCorrect(qs: seq<Question>, answers: seq<Answer>): (n: nat)
    ensures n <= |answers|
  {
    if |answers| == 0 then 0
    else CountCorrect(qs, answers[..|answers| - 1]) + (if Accepted(qs, answers[|answers| - 1]) then 1 else 0)
  }

  /** The answer-checking loop shared by the lesson and final quizzes. */
  method CheckAnswers(qs: seq<Question>, answers: seq<Answer>) returns (correct: nat, total: nat)
    ensures correct == |AcceptedIndices(qs, answers)|
    ensures total == |qs|
  {
    correct := 0;
    var k := 0;
    while k < |answers|
      invariant 0 <= k <= |answers|
      invariant correct == CountCorrect(qs, answers[..k])
    {
      assert answers[..k + 1][..k] == answers[..k];
      if Accepted(qs, answers[k]) {
        correct := correct + 1;
      }
      k := k + 1;
    }
    assert answers[..k] == answers;
    CountCorrectIsAcceptedIndices(qs, answers);
    total := |qs|;
  }

  method CheckLessonQuizAnswers(lesson: int, answers: seq<Answer>) returns (correct: nat, total: nat)
    ensures correct == CountCorrect(LessonQuestions(lesson), answers)
    ensures total == 2
  {
    correct, total := CheckAnswers(LessonQuestions(lesson), answers);
    CountCorrectIsAcceptedIndices(LessonQuestions(lesson), answers);
  }

  method CheckFinalQuizAnswers(answers: seq<Answer>) returns (correct: nat, total: nat)
    ensures correct == CountCorrect(FinalQuestions(), answers)
    ensures total == 2
  {
    correct, total := CheckAnswers(FinalQuestions(), answers);
    CountCorrectIsAcceptedIndices(FinalQuestions(), answers);
  }

  // ---------------------------------------------------------------------
  // Properties of the count
  // ---------------------------------------------------------------------

  /** The positions of the accepted answers. */
  function AcceptedIndices(qs: seq<Question>, answers: seq<Answer>): set<nat> {
    set i: nat | i < |answers| && Accepted(qs, answers[i])
  }

  /** The count is exactly the number of positions holding an accepted
      answer. */
  lemma {:induction false} CountCorrectIsAcceptedIndices(qs: seq<Question>, answers: seq<Answer>)
    ensures CountCorrect(qs, answers) == |AcceptedIndices(qs, answers)|
    decreases |answers|
  {
    if |answers| == 0 {
      assert AcceptedIndices(qs, answers) == {};
    } else {
      var n := |answers| - 1;
      var init := answers[..n];
      CountCorrectIsAcceptedIndices(qs, init);
      var extra: set<nat> := if Accepted(qs, answers[n]) then {n} else {};
      forall i: nat ensures i in AcceptedIndices(qs, answers) <==> i in AcceptedIndices(qs, init) + extra {
        if i < n {
          assert init[i] == answers[i];
        }
      }
      assert AcceptedIndices(qs, answers) == AcceptedIndices(qs, init) + extra;
      assert n !in AcceptedIndices(qs, init);
    }
  }

  /** Splitting the answers splits the count. */
  lemma {:induction false} CountCorrectAppend(qs: seq<Question>, a: seq<Answer>, b: seq<Answer>)
    ensures CountCorrect(qs, a + b) == CountCorrect(qs, a) + CountCorrect(qs, b)
    decreases |b|
  {
    if |b| == 0 {
      assert a + b == a;
    } else {
      assert (a + b)[..|a + b| - 1] == a + b[..|b| - 1];
      CountCorrectAppend(qs, a, b[..|b| - 1]);
    }
  }

  function Copies(a: Answer, k: nat): (r: seq<Answer>)
    ensures |r| == k && forall i :: 0 <= i < k ==> r[i] == a
  {
    seq(k, i => a)
  }

  /** Nothing stops the same correct answer from being counted again: k
      copies of an accepted answer score k, whatever the number of
      questions. */
  lemma {:induction false} RepeatedAnswerCountsEachTime(qs: seq<Question>, a: Answer, k: nat)
    ensures CountCorrect(qs, Copies(a, k)) == if Accepted(qs, a) then k else 0
  {
    if k > 0 {
      assert Copies(a, k)[..k - 1] == Copies(a, k - 1);
      RepeatedAnswerCountsEachTime(qs, a, k - 1);
    }
  }

  /** So the final quiz can report more correct answers than questions. */
  lemma CorrectCanExceedTotal()
    ensures CountCorrect(FinalQuestions(), Copies(Answer(Some("final1"), Some(2)), 3)) == 3
  {
    var a := Answer(Some("final1"), Some(2));
    assert Lookup(FinalQuestions(), "final1") == Some(Question("final1", 2));
    assert Accepted(FinalQuestions(), a);
    RepeatedAnswerCountsEachTime(FinalQuestions(), a, 3);
  }

  /** The ids answered correctly. */
  function AcceptedIds(qs: seq<Question>, answers: seq<Answer>): (ids: set<string>)
    ensures forall id :: id in ids ==> Lookup(qs, id).Some?
  {
    if |answers| == 0 then {}
    else
      var last := answers[|answers| - 1];
      AcceptedIds(qs, answers[..|answers| - 1]) + (if Accepted(qs, last) then {last.id.value} else {})
  }

  function QuestionIds(qs: seq<Question>): (ids: set<string>)
    ensures |ids| <= |qs|
  {
    if |qs| == 0 then {}
    else QuestionIds(qs[..|qs| - 1]) + {qs[|qs| - 1].id}
  }

  lemma {:induction false} QuestionIdsAreLookups(qs: seq<Question>, id: string)
    ensures id in QuestionIds(qs) <==> Lookup(qs, id).Some?
    decreases |qs|
  {
    if |qs| > 0 {
      QuestionIdsAreLookups(qs[..|qs| - 1], id);
    }
  }

  /** No two answers carry the same id. */
  predicate DistinctIds(answers: seq<Answer>) {
    forall i, j :: 0 <= i < j < |answers| && answers[i].id.Some? ==> answers[i].id != answers[j].id
  }

  lemma {:induction false} DistinctCountIsIdCount(qs: seq<Question>, answers: seq<Answer>)
    requires DistinctIds(answers)
    ensures CountCorrect(qs, answers) == |AcceptedIds(qs, answers)|
    ensures forall id :: id in AcceptedIds(qs, answers) ==>
              exists i :: 0 <= i < |answers| && answers[i].id == Some(id)
    decreases |answers|
  {
    if |answers| > 0 {
      var n := |answers| - 1;
      var init := answers[..n];
      assert DistinctIds(init) by {
        forall i, j | 0 <= i < j < |init| && init[i].id.Some? ensures init[i].id != init[j].id {
          assert init[i] == answers[i] && init[j] == answers[j];
        }
      }
      DistinctCountIsIdCount(qs, init);
      var last := answers[n];
      if Accepted(qs, last) {
        forall i | 0 <= i < |init| ensures init[i].id != Some(last.id.value) {
          assert init[i] == answers[i];
        }
        assert last.id.value !in AcceptedIds(qs, init);
      }
      forall id | id in AcceptedIds(qs, answers)
        ensures exists i :: 0 <= i < |answers| && answers[i].id == Some(id)
      {
        if id in AcceptedIds(qs, init) {
          var i :| 0 <= i < |init| && init[i].id == Some(id);
          assert answers[i].id == Some(id);
        } else {
          assert answers[n].id == Some(id);
        }
      }
    }
  }

  /** When every answer names a different question, the count cannot exceed
      the number of questions. */
  lemma DistinctAnswersBoundedByQuestions(qs: seq<Question>, answers: seq<Answer>)
    requires DistinctIds(answers)
    ensures CountCorrect(qs, answers) <= |qs|
  {
    DistinctCountIsIdCount(qs, answers);
    var a, q := AcceptedIds(qs, answers), QuestionIds(qs);
    forall id | id in a ensures id in q {
      QuestionIdsAreLookups(qs, id);
    }
    assert q == a + (q - a);
    assert |q| == |a| + |q - a|;
  }

  /** Two right answers, one per question, score full marks on any
      lesson. */
  lemma LessonFullMarks(lesson: int)
    ensures var qs := LessonQuestions(lesson);
            CountCorrect(qs, [Answer(Some(qs[0].id), Some(3)), Answer(Some(qs[1].id), Some(1))]) == 2
  {
    var qs := LessonQuestions(lesson);
    var answers := [Answer(Some(qs[0].id), Some(3)), Answer(Some(qs[1].id), Some(1))];
    assert Lookup(qs, qs[1].id) == Some(qs[1]);
    assert Lookup(qs[..1], qs[0].id) == Some(qs[0]);
    assert Lookup(qs, qs[0].id) == Some(qs[0]);
    assert answers[..1] == [answers[0]];
    assert [answers[0]][..0] == [];
  }
}
