/** The backend's in-memory session store and the state changes of its
    session routes (`create_session`, `get_session`, the lesson-quiz and
    final-quiz submissions). */
module Sessions {
  import opened Wrappers
  import opened Quiz

  /** One player's progress. */
  datatype Session = Session(sessionId: string, numLessons: int, currentLesson: int, score: int, finished: bool)

  /** `SESSIONS`: session id to session. */
  type Store = map<string, Session>

  const InvalidSession: string := "Invalid session_id"

  /** A fresh session: lesson 1, no score, not finished. The id comes from
      outside (the backend draws a random UUID). */
  function NewSession(id: string, numLessons: int): (s: Session)
    ensures s.sessionId == id && s.numLessons == numLessons
    ensures s.currentLesson == 1 && s.score == 0 && !s.finished
  {
    Session(id, numLessons, 1, 0, false)
  }

  /** `create_session`: the new session is stored under its id. */
  function CreateSession(store: Store, id: string, numLessons: int): (r: (Store, Session))
    ensures r.1 == NewSession(id, numLessons)
    ensures id in r.0 && r.0[id] == r.1
    ensures forall k :: k in store && k != id ==> k in r.0 && r.0[k] == store[k]
    ensures r.0.Keys == store.Keys + {id}
  {
    var s := NewSession(id, numLessons);
    (store[id := s], s)
  }

  /** `start-session`: `num_lessons` defaults to 1 when absent. */
  function StartSession(store: Store, id: string, numLessons: Option<int>): (r: (Store, Session))
    ensures numLessons.None? ==> r.1.numLessons == 1
    ensures numLessons.Some? ==> r.1.numLessons == numLessons.value
    ensures id in r.0 && r.0[id] == r.1 && r.1.currentLesson == 1 && r.1.score == 0
  {
    CreateSession(store, id, if numLessons.Some? then numLessons.value else 1)
  }

  /** `get_session`: the stored session, or the invalid-session error. */
  function GetSession(store: Store, id: string): (r: Result<Session, string>)
    ensures r.Success? <==> id in store
    ensures r.Success? ==> r.value == store[id]
    ensures r.Failure? ==> r.error == InvalidSession
  {
    if id in store then Success(store[id]) else Failure(InvalidSession)
  }

  /** The JSON reply of a lesson-quiz submission. */
  datatype LessonReply = LessonReply(correct: nat, total: nat, newScore: int, currentLesson: int)

  /** The session after a lesson quiz: 10 points per correct answer, and
      the lesson counter moves past the submitted lesson when it is not
      already beyond it. */
  function ScoreLesson(s: Session, lesson: int, correct: nat): (t: Session)
    ensures t.score == s.score + 10 * correct
    ensures t.currentLesson >= s.currentLesson && t.currentLesson > lesson
    ensures t.currentLesson == s.currentLesson || t.currentLesson == lesson + 1
    ensures t.sessionId == s.sessionId && t.numLessons == s.numLessons && t.finished == s.finished
  {
    var scored := s.(score := s.score + correct * 10);
    if lesson >= scored.currentLesson then scored.(currentLesson := lesson + 1) else scored
  }

  /** `submit_lesson_quiz` once the body is parsed: only the submitting
      session changes. */
  function SubmitLessonQuiz(store: Store, id: string, lesson: int, answers: seq<Answer>): (r: Result<(Store, LessonReply), string>)
    ensures r.Failure? <==> id !in store
    ensures r.Failure? ==> r.error == InvalidSession
    ensures r.Success? ==>
              var (st, reply) := r.value;
              && reply.correct == CountCorrect(LessonQuestions(lesson), answers)
              && reply.total == 2
              && st == store[id := ScoreLesson(store[id], lesson, reply.correct)]
              && reply.newScore == st[id].score && reply.currentLesson == st[id].currentLesson
  {
    match GetSession(store, id)
    case Failure(e) => Failure(e)
    case Success(s) =>
      var correct := CountCorrect(LessonQuestions(lesson), answers);
      var t := ScoreLesson(s, lesson, correct);
      Success((store[id := t], LessonReply(correct, |LessonQuestions(lesson)|, t.score, t.currentLesson)))
  }

  /** The JSON reply of the final-quiz submission. */
  datatype FinalReply = FinalReply(correct: nat, total: nat, finalScore: int, won: bool)

  /** The win rule: at least 70 per cent of the questions answered
      correctly, and at least one question. */
  predicate Won(correct: nat, total: nat) {
    total > 0 && 10 * correct >= 7 * total
  }

  /** The integer form of the rule agrees with the ratio it stands for. */
  lemma WonIsSeventyPercent(correct: nat, total: nat)
    ensures Won(correct, total) <==> total > 0 && (correct as real) / (total as real) >= 0.7
  {
    if total > 0 {
      var ratio := (correct as real) / (total as real);
      assert ratio * (total as real) == correct as real;
      if 10 * correct >= 7 * total {
        assert (correct as real) >= 0.7 * (total as real);
      }
    }
  }

  /** `submit_final_quiz` once the body is parsed: 20 points per correct
      answer and the session is finished. */
  function SubmitFinalQuiz(store: Store, id: string, answers: seq<Answer>): (r: Result<(Store, FinalReply), string>)
    ensures r.Failure? <==> id !in store
    ensures r.Failure? ==> r.error == InvalidSession
    ensures r.Success? ==>
              var (st, reply) := r.value;
              && reply.correct == CountCorrect(FinalQuestions(), answers)
              && reply.total == 2
              && st == store[id := store[id].(score := store[id].score + 20 * reply.correct, finished := true)]
              && reply.finalScore == st[id].score
              && (reply.won <==> reply.correct >= 2)
  {
    match GetSession(store, id)
    case Failure(e) => Failure(e)
    case Success(s) =>
      var correct := CountCorrect(FinalQuestions(), answers);
      var total := |FinalQuestions()|;
      var t := s.(score := s.score + correct * 20, finished := true);
      Success((store[id := t], FinalReply(correct, total, t.score, Won(correct, total))))
  }

  /** The final quiz is won by answering "final1" correctly twice and never
      answering "final2": the check counts answers, not questions. */
  lemma RepeatedAnswerWinsFinal(store: Store, id: string)
    requires id in store
    ensures var a := Answer(Some("final1"), Some(2));
            var r := SubmitFinalQuiz(store, id, [a, a]);
            r.Success? && r.value.1.correct == 2 && r.value.1.won
  {
  }

  // ---------------------------------------------------------------------
  // Progress over a sequence of submissions
  // ---------------------------------------------------------------------

  /** Scores and lesson counters only go up. */
  predicate Progressed(before: Store, after: Store) {
    && before.Keys <= after.Keys
    && forall k :: k in before ==>
         && after[k].score >= before[k].score
         && after[k].currentLesson >= before[k].currentLesson
         && (before[k].finished ==> after[k].finished)
  }

  /** A submission, lesson or final, naming the session it is for. */
  datatype Submission =
    | LessonSubmit(id: string, lesson: int, answers: seq<Answer>)
    | FinalSubmit(id: string, answers: seq<Answer>)

  /** The store after a submission; an invalid session leaves it as it
      was. */
  function Apply(store: Store, sub: Submission): Store {
    match sub
    case LessonSubmit(id, lesson, answers) =>
      (match SubmitLessonQuiz(store, id, lesson, answers)
       case Success(v) => v.0
       case Failure(_) => store)
    case FinalSubmit(id, answers) =>
      (match SubmitFinalQuiz(store, id, answers)
       case Success(v) => v.0
       case Failure(_) => store)
  }

  function ApplyAll(store: Store, subs: seq<Submission>): Store
    decreases |subs|
  {
    if |subs| == 0 then store else ApplyAll(Apply(store, subs[0]), subs[1..])
  }

  /** Whatever is submitted, for whichever sessions and in whatever order,
      no session loses score, falls back a lesson or becomes unfinished,
      and no session vanishes. */
  lemma {:induction false} SubmissionsOnlyProgress(store: Store, subs: seq<Submission>)
    ensures Progressed(store, ApplyAll(store, subs))
    decreases |subs|
  {
    if |subs| > 0 {
      var next := Apply(store, subs[0]);
      assert Progressed(store, next);
      SubmissionsOnlyProgress(next, subs[1..]);
    }
  }

  /** Submissions for other sessions leave a session exactly as it was, so
      interleaving players do not disturb one another. */
  lemma {:induction false} OtherSessionsUntouched(store: Store, subs: seq<Submission>, k: string)
    requires k in store
    requires forall i :: 0 <= i < |subs| ==> subs[i].id != k
    ensures var st := ApplyAll(store, subs);
            k in st && st[k] == store[k]
    decreases |subs|
  {
    if |subs| > 0 {
      var next := Apply(store, subs[0]);
      assert k in next && next[k] == store[k];
      OtherSessionsUntouched(next, subs[1..], k);
    }
  }

  /** Resubmitting an earlier lesson scores again but never moves the
      lesson counter. */
  lemma EarlierLessonKeepsCounter(store: Store, id: string, lesson: int, answers: seq<Answer>)
    requires id in store && lesson < store[id].currentLesson
    ensures var r := SubmitLessonQuiz(store, id, lesson, answers);
            r.Success? && r.value.0[id].currentLesson == store[id].currentLesson
  {
  }

  /** Passing lessons 1, 2, ..., n in order from a fresh session leaves the
      counter at n + 1. */
  lemma {:induction false} LessonsInOrder(store: Store, id: string, n: nat)
    requires id in store && store[id].currentLesson == 1
    ensures var st := ApplyAll(store, LessonRun(id, n));
            id in st && st[id].currentLesson == n + 1
  {
    if n > 0 {
      LessonsInOrder(store, id, n - 1);
      ApplyAllAppend(store, LessonRun(id, n - 1), [LessonSubmit(id, n, [])]);
      assert LessonRun(id, n) == LessonRun(id, n - 1) + [LessonSubmit(id, n, [])];
    }
  }

  /** Submissions of lessons 1 to n with no answers, all for session id. */
  function LessonRun(id: string, n: nat): (r: seq<Submission>)
    ensures |r| == n
  {
    if n == 0 then [] else LessonRun(id, n - 1) + [LessonSubmit(id, n, [])]
  }

  lemma {:induction false} ApplyAllAppend(store: Store, a: seq<Submission>, b: seq<Submission>)
    ensures ApplyAll(store, a + b) == ApplyAll(ApplyAll(store, a), b)
    decreases |a|
  {
    if |a| == 0 {
      assert a + b == b;
    } else {
      assert (a + b)[0] == a[0] && (a + b)[1..] == a[1..] + b;
      ApplyAllAppend(Apply(store, a[0]), a[1..], b);
    }
  }
}
