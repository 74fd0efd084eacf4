/** The test page of the client: the question being shown, the options
    picked so far (an object keyed by question index), the array sent to
    the server, and the answer-key review shown after submitting. Rendering
    is not modelled; the component's state and its handlers are. */
module TestSession {
  import opened Common
  import opened Scoring

  /** `answers[idx] !== undefined ? answers[idx] : -1`: the option picked
      for a question, or the sentinel -1 when none was. */
  function AnswerAt(answers: map<int, int>, idx: int): (a: int)
    ensures a != -1 ==> idx in answers && answers[idx] == a
    ensures (forall k :: k in answers ==> 0 <= answers[k]) ==> (a == -1 <==> idx !in answers)
  {
    if idx in answers then answers[idx] else -1
  }

  /** The array built for the submit request, one entry per question. */
  function SubmissionOf(answers: map<int, int>, n: nat): (data: seq<int>)
    ensures |data| == n
  {
    seq(n, i requires 0 <= i < n => AnswerAt(answers, i))
  }

  /** The index after `handleNext`: it stops at the last question. */
  function NextIndex(idx: int, n: int): int
  {
    if idx < n - 1 then idx + 1 else idx
  }

  /** The index after `handlePrev`: it stops at the first question. */
  function PrevIndex(idx: int): int
  {
    if idx > 0 then idx - 1 else idx
  }

  /** The shown index names a question, or is the initial 0 while there are none. */
  predicate InRange(idx: int, n: int)
  {
    0 <= idx && (idx < n || idx == 0)
  }

  /** What a user can do on the page before submitting. */
  datatype Move = Select(option: int) | Next | Prev

  /** The part of the component's state the moves change. */
  datatype View = View(idx: int, answers: map<int, int>)

  function Step(v: View, n: int, m: Move): View
  {
    match m
    case Select(option) => View(v.idx, v.answers[v.idx := option])
    case Next => View(NextIndex(v.idx, n), v.answers)
    case Prev => View(PrevIndex(v.idx), v.answers)
  }

  function Run(v: View, n: int, moves: seq<Move>): View
    decreases |moves|
  {
    if moves == [] then v else Run(Step(v, n, moves[0]), n, moves[1..])
  }

  /** A state of the page showing `questions`: the index is in range, and
      every answer is keyed by a question's index and is the position of one
      of that question's options. */
  predicate Reachable(v: View, questions: seq<ClientQuestion>)
  {
    && InRange(v.idx, |questions|)
    && (forall k :: k in v.answers ==> 0 <= k < |questions| && 0 <= v.answers[k] < |questions[k].options|)
  }

  /** A move the page offers: an option is picked by clicking one of the
      buttons rendered for the shown question, at positions 0 to its option
      count minus one; Next and Prev are always offered. */
  predicate Offered(v: View, questions: seq<ClientQuestion>, m: Move)
  {
    m.Select? ==> 0 <= v.idx < |questions| && 0 <= m.option < |questions[v.idx].options|
  }

  /** Every move of the sequence is offered in the state it is made in. */
  predicate OfferedRun(v: View, questions: seq<ClientQuestion>, moves: seq<Move>)
    decreases |moves|
  {
    moves == [] || (Offered(v, questions, moves[0]) && OfferedRun(Step(v, |questions|, moves[0]), questions, moves[1..]))
  }

  /** Whatever the user does, the index never leaves the questions, and every
      answer is one of its question's options (so never the -1 sentinel). */
  lemma {:induction false} RunStaysReachable(v: View, questions: seq<ClientQuestion>, moves: seq<Move>)
    requires Reachable(v, questions)
    requires OfferedRun(v, questions, moves)
    ensures Reachable(Run(v, |questions|, moves), questions)
    decreases |moves|
  {
    if moves != [] {
      var w := Step(v, |questions|, moves[0]);
      assert Reachable(w, questions);
      RunStaysReachable(w, questions, moves[1..]);
    }
  }

  /** On the server's questions every answer is a question index 0..29 and
      an option 0..3. */
  lemma ReachableOnServerQuestions(v: View)
    requires Reachable(v, ClientQuestions())
    ensures forall k :: k in v.answers ==> 0 <= k < TotalQuestions && 0 <= v.answers[k] < 4
  {
  }

  /** Prev undoes Next away from the last question, and Next undoes Prev
      away from the first. */
  lemma NavigationUndoes(idx: int, n: int)
    requires InRange(idx, n)
    ensures idx < n - 1 ==> PrevIndex(NextIndex(idx, n)) == idx
    ensures 0 < idx ==> NextIndex(PrevIndex(idx), n) == idx
  {
  }

  /** Picking again on the same question replaces the earlier pick. */
  lemma LastPickWins(v: View, n: int, first: int, second: int)
    ensures Step(Step(v, n, Select(first)), n, Select(second)) == Step(v, n, Select(second))
  {
  }

  /** When every answer belongs to a question and none is the sentinel, the
      submitted array loses nothing: an entry is -1 exactly where no option
      was picked, and holds the pick elsewhere. */
  lemma SubmissionKeepsAnswers(answers: map<int, int>, n: nat)
    requires forall k :: k in answers ==> 0 <= k < n && 0 <= answers[k]
    ensures forall i :: 0 <= i < n ==> (SubmissionOf(answers, n)[i] == -1 <==> i !in answers)
    ensures forall k :: k in answers ==> SubmissionOf(answers, n)[k] == answers[k]
  {
  }

  /** `answerKey.find(a => a.id === q.id)?.correctAnswer`. */
  function FindSolution(key: seq<Solution>, id: int): (c: Option<int>)
    ensures c.Some? ==> exists i :: 0 <= i < |key| && key[i].id == id && key[i].correctAnswer == c.value
    ensures c.None? <==> forall i :: 0 <= i < |key| ==> key[i].id != id
  {
    if key == [] then None
    else if key[0].id == id then Some(key[0].correctAnswer)
    else
      var rest := FindSolution(key[1..], id);
      assert forall i :: 1 <= i < |key| ==> key[i] == key[1..][i - 1];
      rest
  }

  /** The first entry with an id is the one found. */
  lemma {:induction false} FindSolutionAt(key: seq<Solution>, i: int)
    requires 0 <= i < |key|
    requires forall j :: 0 <= j < i ==> key[j].id != key[i].id
    ensures FindSolution(key, key[i].id) == Some(key[i].correctAnswer)
  {
    if i > 0 {
      assert forall j :: 0 <= j < i - 1 ==> key[1..][j] == key[j + 1];
      FindSolutionAt(key[1..], i - 1);
    }
  }

  /** The review marks a question correct when the submitted value is the
      option the key gives for that question's id; a question the key does
      not list is never correct. */
  function IsCorrect(answers: map<int, int>, questions: seq<ClientQuestion>, key: seq<Solution>, idx: int): (correct: bool)
    requires 0 <= idx < |questions|
    ensures correct ==> exists i :: (0 <= i < |key| && key[i].id == questions[idx].id
                                     && key[i].correctAnswer == AnswerAt(answers, idx))
  {
    FindSolution(key, questions[idx].id) == Some(AnswerAt(answers, idx))
  }

  /** An unanswered question is marked wrong, since no key option is -1. */
  lemma UnansweredIsWrong(answers: map<int, int>, questions: seq<ClientQuestion>, key: seq<Solution>, idx: int)
    requires 0 <= idx < |questions|
    requires forall i :: 0 <= i < |key| ==> 0 <= key[i].correctAnswer
    requires idx !in answers
    ensures !IsCorrect(answers, questions, key, idx)
  {
  }

  /** The number of the first n questions the review marks correct. */
  function CorrectCount(answers: map<int, int>, questions: seq<ClientQuestion>, key: seq<Solution>, n: nat): (count: nat)
    requires n <= |questions|
    ensures count <= n
  {
    if n == 0 then 0
    else CorrectCount(answers, questions, key, n - 1) + (if IsCorrect(answers, questions, key, n - 1) then 1 else 0)
  }

  /** Question i is marked correct exactly when the server counts position i. */
  lemma ReviewStep(answers: map<int, int>, i: nat)
    requires i < TotalQuestions
    ensures |ClientQuestions()| == TotalQuestions
    ensures IsCorrect(answers, ClientQuestions(), Solutions(), i)
        <==> AsJson(SubmissionOf(answers, TotalQuestions))[i] == JInt(AnswerKey[i])
  {
    BankShape();
    var qs, sols := ClientQuestions(), Solutions();
    ProjectionsRebuildBank();
    assert forall j :: 0 <= j < i ==> sols[j].id != sols[i].id;
    FindSolutionAt(sols, i);
    assert qs[i].id == sols[i].id;
    assert FindSolution(sols, qs[i].id) == Some(AnswerKey[i]);
    var data := AsJson(SubmissionOf(answers, TotalQuestions));
    assert data[i] == JInt(AnswerAt(answers, i));
  }

  /** With the questions and the key the server hands out, the review
      marks exactly as many questions correct as the server scores for the
      array the client submitted. */
  lemma {:induction false} ReviewAgreesWithScore(answers: map<int, int>, n: nat)
    requires n <= TotalQuestions
    ensures CorrectCount(answers, ClientQuestions(), Solutions(), n)
         == Matches(AsJson(SubmissionOf(answers, TotalQuestions)), AnswerKey, n)
  {
    BankShape();
    if n > 0 {
      ReviewAgreesWithScore(answers, n - 1);
      ReviewStep(answers, n - 1);
    }
  }

  /** The test page's state once the fetch effect has stored the question
      list and the key (both empty when the fetch failed). */
  class Session {
    var questions: seq<ClientQuestion>
    var answerKey: seq<Solution>
    var currentIdx: int
    var answers: map<int, int>

    ghost predicate Valid()
      reads this
    {
      Reachable(View(currentIdx, answers), questions)
    }

    function Current(): View
      reads this
    {
      View(currentIdx, answers)
    }

    constructor (questions: seq<ClientQuestion>, answerKey: seq<Solution>)
      ensures Valid()
      ensures this.questions == questions && this.answerKey == answerKey
      ensures currentIdx == 0 && answers == map[]
    {
      this.questions := questions;
      this.answerKey := answerKey;
      currentIdx := 0;
      answers := map[];
    }

    /** `handleSelectOption`: record the option for the shown question. It
        is called only from the option buttons of the shown question, so a
        question is shown and the index is one of its options'. */
    method SelectOption(optionIndex: int)
      requires Valid()
      requires Offered(Current(), questions, Select(optionIndex))
      modifies this
      ensures Valid()
      ensures answers == old(answers)[currentIdx := optionIndex]
      ensures Current() == Step(old(Current()), |questions|, Select(optionIndex))
      ensures currentIdx == old(currentIdx) && questions == old(questions) && answerKey == old(answerKey)
    {
      answers := answers[currentIdx := optionIndex];
    }

    /** `handleNext`. */
    method HandleNext()
      requires Valid()
      modifies this
      ensures Valid()
      ensures currentIdx == NextIndex(old(currentIdx), |questions|)
      ensures Current() == Step(old(Current()), |questions|, Next)
      ensures answers == old(answers) && questions == old(questions) && answerKey == old(answerKey)
    {
      if currentIdx < |questions| - 1 {
        currentIdx := currentIdx + 1;
      }
    }

    /** `handlePrev`. */
    method HandlePrev()
      requires Valid()
      modifies this
      ensures Valid()
      ensures currentIdx == PrevIndex(old(currentIdx))
      ensures Current() == Step(old(Current()), |questions|, Prev)
      ensures answers == old(answers) && questions == old(questions) && answerKey == old(answerKey)
    {
      if currentIdx > 0 {
        currentIdx := currentIdx - 1;
      }
    }

    /** The loop of `handleSubmit` that builds the request body: one entry
        per question, the pick or -1. */
    method SubmitData() returns (data: seq<int>)
      ensures |data| == |questions|
      ensures forall i :: 0 <= i < |data| ==> data[i] == (if i in answers then answers[i] else -1)
      ensures data == SubmissionOf(answers, |questions|)
    {
      data := [];
      var i := 0;
      while i < |questions|
        invariant 0 <= i <= |questions|
        invariant |data| == i
        invariant forall j :: 0 <= j < i ==> data[j] == AnswerAt(answers, j)
      {
        data := data + [if i in answers then answers[i] else -1];
        i := i + 1;
      }
    }
  }
}
