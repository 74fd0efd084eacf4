/** The scoring core of the test routes: the fixed 30-question bank and its
    answer key, the raw-score count, the raw-score to band mapping, and the two
    read-only projections of the bank served to clients. Bands are integer
    tenths (band 6.5 is 65). */
module Scoring {

  datatype Question = Question(id: int, text: string, options: seq<string>, correctAnswer: int)

  /** The bank, in the order the routes serve and score it. */
  const Bank: seq<Question> := [
    Question(1, "Despite the bad weather, they _____ to go hiking.",
      ["decides", "deciding", "decided", "have decided"], 2),
    Question(2, "By the time we arrive at the station, the train _____.",
      ["will leave", "has left", "will have left", "left"], 2),
    Question(3, "If I _____ you were coming, I would have baked a cake.",
      ["knew", "know", "had known", "have known"], 2),
    Question(4, "The company's profits have _____ significantly over the last quarter.",
      ["decreased", "declining", "dwindle", "collapse"], 0),
    Question(5, "She is highly _____ in several programming languages.",
      ["proficient", "fluent", "capable", "learned"], 0),
    Question(6, "The new regulation will have a profound _____ on the local economy.",
      ["affect", "effect", "result", "consequence"], 1),
    Question(7, "The professor asked the students to _____ their assignments by Friday.",
      ["hand out", "hand over", "hand in", "hand down"], 2),
    Question(8, "It is essential that every student _____ a uniform.",
      ["wears", "wear", "wearing", "to wear"], 1),
    Question(9, "Hardly _____ closed my eyes when the telephone rang.",
      ["I had", "had I", "I", "did I"], 1),
    Question(10, "He was accused _____ stealing the confidential documents.",
      ["for", "of", "with", "about"], 1),
    Question(11, "The architecture of the building is highly _____, featuring unique modern elements.",
      ["innovative", "ancient", "redundant", "ordinary"], 0),
    Question(12, "_____ being exhausted, she managed to finish the marathon.",
      ["Although", "In spite of", "However", "Because of"], 1),
    Question(13, "The committee will _____ the proposal before making a final decision.",
      ["look up", "look into", "look after", "look out"], 1),
    Question(14, "The manager was _____ when he found out about the massive data breach.",
      ["furious", "delighted", "indifferent", "apathetic"], 0),
    Question(15, "We need to _____ the root cause of the problem to prevent it from happening again.",
      ["identify", "predict", "ignore", "conceal"], 0),
    Question(16, "The researchers conducted a _____ study on the effects of climate change.",
      ["comprehensive", "trivial", "superficial", "fleeting"], 0),
    Question(17, "I would rather you _____ not tell anyone about this secret.",
      ["do", "did", "have", "are"], 1),
    Question(18, "The rapid _____ of technology has changed how we communicate.",
      ["evolution", "stagnation", "regression", "decline"], 0),
    Question(19, "Students are expected to _____ strictly to the school's code of conduct.",
      ["comply", "follow", "adhere", "obey"], 2),
    Question(20, "The government has implemented _____ measures to control inflation.",
      ["stringent", "lenient", "flexible", "loose"], 0),
    Question(21, "Not only _____ the exam, but she also got the highest score.",
      ["did she pass", "she passed", "she did pass", "passed she"], 0),
    Question(22, "The factory has been releasing toxic _____ into the nearby river.",
      ["emissions", "effluents", "pollutants", "smog"], 2),
    Question(23, "Please ensure that your seatbelt is securely _____ before takeoff.",
      ["fastened", "tightened", "attached", "bound"], 0),
    Question(24, "The team is working _____ to meet the project deadline.",
      ["hardly", "lazily", "diligently", "scarcely"], 2),
    Question(25, "Many species are on the _____ of extinction due to habitat loss.",
      ["border", "edge", "brink", "margin"], 2),
    Question(26, "She couldn't attend the conference _____ a sudden family emergency.",
      ["because", "owing to", "since", "as"], 1),
    Question(27, "The novel was so _____ that I couldn't put it down until I finished it.",
      ["tedious", "monotonous", "gripping", "bland"], 2),
    Question(28, "It's imperative to _____ the data before making any strategic decisions.",
      ["synthesize", "analyze", "fabricate", "compromise"], 1),
    Question(29, "Due to unforeseen _____, the outdoor concert has been canceled.",
      ["circumstances", "occurrences", "scenarios", "incidents"], 0),
    Question(30, "The CEO gave a _____ presentation that clearly outlined the company's future.",
      ["vague", "coherent", "ambiguous", "perplexing"], 1)
  ]

  /** The `total` field of a submission reply. */
  const TotalQuestions: nat := 30

  /** The correct option of every question, in bank order. */
  const AnswerKey: seq<int> := seq(|Bank|, i requires 0 <= i < |Bank| => Bank[i].correctAnswer)

  /** The shape of the bank: 30 questions with ids 1..30 in order, four options
      each, and a correct option that indexes one of them. */
  lemma BankShape()
    ensures |Bank| == TotalQuestions == |AnswerKey|
    ensures forall i :: 0 <= i < |Bank| ==> Bank[i].id == i + 1
    ensures forall i :: 0 <= i < |Bank| ==> |Bank[i].options| == 4
    ensures forall i :: 0 <= i < |AnswerKey| ==> 0 <= AnswerKey[i] < 4
  {
  }

  // ---------------------------------------------------------------------
  // Raw score to band

  /** The twelve bands the mapping can produce. */
  const BandValues: set<int> := {0, 40, 45, 50, 55, 60, 65, 70, 75, 80, 85, 90}

  /** `calculateBandScore`: descending threshold checks, the first that holds wins. */
  function BandScore(score: int): (band: int)
    ensures band in BandValues
    ensures 0 <= band <= 90
  {
    if score >= 29 then 90
    else if score >= 27 then 85
    else if score >= 25 then 80
    else if score >= 23 then 75
    else if score >= 20 then 70
    else if score >= 17 then 65
    else if score >= 14 then 60
    else if score >= 11 then 55
    else if score >= 8 then 50
    else if score >= 6 then 45
    else if score >= 4 then 40
    else 0
  }

  /** The breakpoint table as data: (lowest raw score, band), highest first. */
  const Breakpoints: seq<(int, int)> :=
    [(29, 90), (27, 85), (25, 80), (23, 75), (20, 70), (17, 65), (14, 60), (11, 55), (8, 50), (6, 45), (4, 40)]

  /** The band of the first row of `table` whose threshold the score reaches; 0 if none. */
  function FirstMatch(table: seq<(int, int)>, score: int): int
  {
    if table == [] then 0
    else if score >= table[0].0 then table[0].1
    else FirstMatch(table[1..], score)
  }

  /** The thresholds and their bands both strictly decrease down the table. */
  ghost predicate Descending(table: seq<(int, int)>)
  {
    forall i, j :: 0 <= i < j < |table| ==> table[i].0 > table[j].0 && table[i].1 > table[j].1
  }

  /** In a descending table, a score that reaches no threshold of the
      first k rows is mapped by the remaining rows. */
  lemma {:induction false} FirstMatchSkips(table: seq<(int, int)>, k: nat, score: int)
    requires k <= |table|
    requires forall i :: 0 <= i < k ==> score < table[i].0
    ensures FirstMatch(table, score) == FirstMatch(table[k..], score)
  {
    if k > 0 {
      assert table[1..][k - 1..] == table[k..];
      FirstMatchSkips(table[1..], k - 1, score);
    }
  }

  /** The breakpoint table is strictly descending in thresholds and bands. */
  lemma BreakpointsDescend()
    ensures Descending(Breakpoints)
  {
  }

  /** The chain of checks is exactly the table read top-down. */
  lemma BandFollowsTable(score: int)
    ensures BandScore(score) == FirstMatch(Breakpoints, score)
  {
    if score >= 29 {
    } else if score >= 27 {
      FirstMatchSkips(Breakpoints, 1, score);
    } else if score >= 25 {
      FirstMatchSkips(Breakpoints, 2, score);
    } else if score >= 23 {
      FirstMatchSkips(Breakpoints, 3, score);
    } else if score >= 20 {
      FirstMatchSkips(Breakpoints, 4, score);
    } else if score >= 17 {
      FirstMatchSkips(Breakpoints, 5, score);
    } else if score >= 14 {
      FirstMatchSkips(Breakpoints, 6, score);
    } else if score >= 11 {
      FirstMatchSkips(Breakpoints, 7, score);
    } else if score >= 8 {
      FirstMatchSkips(Breakpoints, 8, score);
    } else if score >= 6 {
      FirstMatchSkips(Breakpoints, 9, score);
    } else if score >= 4 {
      FirstMatchSkips(Breakpoints, 10, score);
    } else {
      FirstMatchSkips(Breakpoints, 11, score);
    }
  }

  /** A higher raw score never gives a lower band. */
  lemma BandMonotone(a: int, b: int)
    requires a <= b
    ensures BandScore(a) <= BandScore(b)
  {
  }

  /** The breakpoints and their neighbours. */
  lemma BandBoundaries()
    ensures BandScore(0) == 0 && BandScore(3) == 0
    ensures BandScore(4) == 40 && BandScore(5) == 40
    ensures BandScore(6) == 45 && BandScore(7) == 45
    ensures BandScore(8) == 50 && BandScore(10) == 50
    ensures BandScore(11) == 55 && BandScore(13) == 55
    ensures BandScore(14) == 60 && BandScore(16) == 60
    ensures BandScore(17) == 65 && BandScore(19) == 65
    ensures BandScore(20) == 70 && BandScore(22) == 70
    ensures BandScore(23) == 75 && BandScore(24) == 75
    ensures BandScore(25) == 80 && BandScore(26) == 80
    ensures BandScore(27) == 85 && BandScore(28) == 85
    ensures BandScore(29) == 90 && BandScore(30) == 90
  {
  }

  /** Every one of the twelve bands is reached by some raw score out of 30. */
  lemma BandOnto(band: int)
    requires band in BandValues
    ensures exists score :: 0 <= score <= TotalQuestions && BandScore(score) == band
  {
    var score :|
      score in {0, 4, 6, 8, 11, 14, 17, 20, 23, 25, 27, 29} && BandScore(score) == band;
  }

  /** Taking the larger of two raw scores and taking the larger of their bands agree. */
  lemma BandOfMax(a: int, b: int)
    ensures BandScore(if a >= b then a else b) == (if BandScore(a) >= BandScore(b) then BandScore(a) else BandScore(b))
  {
    if a <= b { BandMonotone(a, b); } else { BandMonotone(b, a); }
  }

  // ---------------------------------------------------------------------
  // Raw score

  /** An element of the submitted JSON array. Comparison is `===`, so only an
      integer number can equal a key entry; `JOther` is any other value
      (a string such as "2", a fraction, a boolean, null, an object).
      Decoding the request body into these values is not modelled; `AsJson`
      is the encoding of a client array of integers. */
  datatype Json = JInt(n: int) | JOther

  /** The number of positions i < n at which the submission holds the key's
      option; a position past the end of the submission is `undefined` and
      never matches. */
  function Matches(answers: seq<Json>, key: seq<int>, n: nat): (count: nat)
    requires n <= |key|
    ensures count <= n
  {
    if n == 0 then 0
    else Matches(answers, key, n - 1) + (if n - 1 < |answers| && answers[n - 1] == JInt(key[n - 1]) then 1 else 0)
  }

  /** The positions that match, as a set. */
  ghost function MatchSet(answers: seq<Json>, key: seq<int>, n: nat): set<int>
    requires n <= |key|
  {
    set i | 0 <= i < n && i < |answers| && answers[i] == JInt(key[i])
  }

  /** The count is the size of the set of matching positions. */
  lemma {:induction false} MatchesCountsMatchSet(answers: seq<Json>, key: seq<int>, n: nat)
    requires n <= |key|
    ensures Matches(answers, key, n) == |MatchSet(answers, key, n)|
  {
    if n > 0 {
      MatchesCountsMatchSet(answers, key, n - 1);
      var hit := n - 1 < |answers| && answers[n - 1] == JInt(key[n - 1]);
      if hit {
        assert MatchSet(answers, key, n) == MatchSet(answers, key, n - 1) + {n - 1};
      } else {
        assert MatchSet(answers, key, n) == MatchSet(answers, key, n - 1);
      }
    }
  }

  /** Entries past the n-th are ignored. */
  lemma {:induction false} MatchesIgnoresExtra(answers: seq<Json>, extra: seq<Json>, key: seq<int>, n: nat)
    requires n <= |key| && n <= |answers|
    ensures Matches(answers + extra, key, n) == Matches(answers, key, n)
  {
    if n > 0 {
      MatchesIgnoresExtra(answers, extra, key, n - 1);
      assert (answers + extra)[n - 1] == answers[n - 1];
    }
  }

  /** A short submission scores as its own length: the missing positions count as wrong. */
  lemma {:induction false} MatchesMissingAreWrong(answers: seq<Json>, key: seq<int>, n: nat)
    requires |answers| <= n <= |key|
    ensures Matches(answers, key, n) == Matches(answers, key, |answers|)
  {
    if n > |answers| {
      MatchesMissingAreWrong(answers, key, n - 1);
    }
  }

  /** A submission agreeing with the key everywhere scores n. */
  lemma {:induction false} MatchesOfKey(answers: seq<Json>, key: seq<int>, n: nat)
    requires n <= |key| && n <= |answers|
    requires forall i :: 0 <= i < n ==> answers[i] == JInt(key[i])
    ensures Matches(answers, key, n) == n
  {
    if n > 0 {
      MatchesOfKey(answers, key, n - 1);
    }
  }

  /** A submission agreeing with the key nowhere scores 0. */
  lemma {:induction false} MatchesOfNone(answers: seq<Json>, key: seq<int>, n: nat)
    requires n <= |key|
    requires forall i :: 0 <= i < n && i < |answers| ==> answers[i] != JInt(key[i])
    ensures Matches(answers, key, n) == 0
  {
    if n > 0 {
      MatchesOfNone(answers, key, n - 1);
    }
  }

  /** The integers of a client array as JSON values. */
  function AsJson(xs: seq<int>): (js: seq<Json>)
    ensures |js| == |xs| && forall i :: 0 <= i < |xs| ==> js[i] == JInt(xs[i])
  {
    seq(|xs|, i requires 0 <= i < |xs| => JInt(xs[i]))
  }

  /** The submit handler's loop: one point per question whose answer is `===`
      the key's option; positions past 29 are never read. */
  method ScoreAnswers(answers: seq<Json>) returns (score: nat)
    ensures score == Matches(answers, AnswerKey, |Bank|)
    ensures score <= TotalQuestions
  {
    score := 0;
    var i := 0;
    while i < |Bank|
      invariant 0 <= i <= |Bank|
      invariant score == Matches(answers, AnswerKey, i)
    {
      if i < |answers| && answers[i] == JInt(Bank[i].correctAnswer) {
        score := score + 1;
      }
      i := i + 1;
    }
  }

  /** Submitting the key itself scores 30, band 9.0. */
  lemma KeyScoresFull(extra: seq<Json>)
    ensures Matches(AsJson(AnswerKey) + extra, AnswerKey, |Bank|) == 30
    ensures BandScore(30) == 90
  {
    BankShape();
    MatchesIgnoresExtra(AsJson(AnswerKey), extra, AnswerKey, |Bank|);
    MatchesOfKey(AsJson(AnswerKey), AnswerKey, |Bank|);
  }

  /** An array of `-1` (nothing answered), of any length, scores 0, band 0.0. */
  lemma BlankScoresZero(len: nat)
    ensures Matches(AsJson(seq(len, _ => -1)), AnswerKey, |Bank|) == 0
    ensures BandScore(0) == 0
  {
    BankShape();
    MatchesOfNone(AsJson(seq(len, _ => -1)), AnswerKey, |Bank|);
  }

  /** The vector [2, 2, 2, 2, 0, 1, ...] below differs from the key only at
      question ids 4, 24 and 25, so it scores 27 (band 8.5), not 30. */
  lemma VectorOffByThreeScores27()
    ensures Matches(AsJson([2, 2, 2, 2, 0, 1, 2, 1, 1, 1, 0, 1, 1, 0, 0, 0, 1, 0, 2, 0, 0, 2, 0, 0, 0, 1, 2, 1, 0, 1]),
                    AnswerKey, |Bank|) == 27
    ensures BandScore(27) == 85
  {
    var v := AsJson([2, 2, 2, 2, 0, 1, 2, 1, 1, 1, 0, 1, 1, 0, 0, 0, 1, 0, 2, 0, 0, 2, 0, 0, 0, 1, 2, 1, 0, 1]);
    var k := 0;
    while k < |Bank|
      invariant 0 <= k <= |Bank|
      invariant Matches(v, AnswerKey, k) ==
        k - (if k > 3 then 1 else 0) - (if k > 23 then 1 else 0) - (if k > 24 then 1 else 0)
    {
      k := k + 1;
    }
  }

  // ---------------------------------------------------------------------
  // The two projections served to clients

  /** A question as `/questions` serves it: no correct answer. */
  datatype ClientQuestion = ClientQuestion(id: int, text: string, options: seq<string>)

  /** An entry of `/answers`. */
  datatype Solution = Solution(id: int, correctAnswer: int)

  /** `/questions`: the bank in order, each question without its key. */
  function ClientQuestions(): (qs: seq<ClientQuestion>)
    ensures |qs| == TotalQuestions
    ensures forall i :: 0 <= i < |qs| ==> qs[i].id == i + 1 && |qs[i].options| == 4
  {
    BankShape();
    seq(|Bank|, i requires 0 <= i < |Bank| => ClientQuestion(Bank[i].id, Bank[i].text, Bank[i].options))
  }

  /** `/answers`: id and correct option of every question, in bank order. */
  function Solutions(): (sols: seq<Solution>)
    ensures |sols| == TotalQuestions
    ensures forall i :: 0 <= i < |sols| ==> sols[i].id == i + 1 && 0 <= sols[i].correctAnswer < 4
  {
    BankShape();
    seq(|Bank|, i requires 0 <= i < |Bank| => Solution(Bank[i].id, Bank[i].correctAnswer))
  }

  /** Zipping the two projections by position rebuilds the bank, so the key
      withheld by `/questions` is exactly what `/answers` returns, in the same order. */
  lemma ProjectionsRebuildBank()
    ensures |ClientQuestions()| == |Solutions()| == |Bank|
    ensures forall i :: 0 <= i < |Bank| ==>
      var q, s := ClientQuestions()[i], Solutions()[i];
      q.id == s.id && Question(q.id, q.text, q.options, s.correctAnswer) == Bank[i]
    ensures forall i :: 0 <= i < |Bank| ==> Solutions()[i].correctAnswer == AnswerKey[i]
  {
  }
}
