/** The quiz endpoints' own logic: scoring a multiple-choice attempt,
    reading the `answers[i]` parameters of a submission, and the public view
    of a stored quiz that hides the correct answers.

    The database is a map from quiz id to quiz document; the LLM call that
    writes explanations is replaced by its parsed reply (None when the reply
    could not be parsed). */
module Quiz {
  import opened Base
  import opened Text

  /** A stored question; `correctIndex` is None when the generator gave
      none. */
  datatype QuizQuestion = QuizQuestion(question: string, options: seq<string>, correctIndex: Option<int>)

  /** One object of the LLM's JSON reply; a missing field reads as "". */
  datatype FeedbackItem = FeedbackItem(explanation: Option<string>, tip: Option<string>)

  /** What is sent to the LLM for each question. */
  datatype Entry = Entry(index: nat, question: string, options: seq<string>, correctIndex: int,
                         chosenIndex: Option<int>, isCorrect: bool)

  datatype QuestionResult = QuestionResult(index: nat, question: string, chosenIndex: Option<int>, correctIndex: int,
                                           isCorrect: bool, explanation: string, tip: string)

  datatype Evaluation = Evaluation(scoreRaw: nat, scorePct: nat, perQuestion: seq<QuestionResult>, maxScore: nat)

  // ---------------------------------------------------------------------
  // Scoring

  /** The key compared against: the stored index, or -1 without one. */
  function CorrectIndexOf(q: QuizQuestion): int { q.correctIndex.GetOr(-1) }

  /** The answer given for question i, None when there are fewer answers
      or the answer was not a number. */
  function ChosenAt(answers: seq<Option<int>>, i: nat): Option<int> {
    if i < |answers| then answers[i] else None
  }

  predicate IsCorrectAt(questions: seq<QuizQuestion>, answers: seq<Option<int>>, i: nat)
    requires i < |questions|
  {
    ChosenAt(answers, i) == Some(CorrectIndexOf(questions[i]))
  }

  /** Correct answers among the first n questions. */
  function CountCorrect(questions: seq<QuizQuestion>, answers: seq<Option<int>>, n: nat): nat
    requires n <= |questions|
  {
    if n == 0 then 0 else CountCorrect(questions, answers, n - 1) + (if IsCorrectAt(questions, answers, n - 1) then 1 else 0)
  }

  /** At most one point per question; full marks exactly when every answer
      is correct, none exactly when no answer is. */
  lemma {:induction false} CountCorrectSpec(questions: seq<QuizQuestion>, answers: seq<Option<int>>, n: nat)
    requires n <= |questions|
    ensures CountCorrect(questions, answers, n) <= n
    ensures CountCorrect(questions, answers, n) == n <==> forall k :: 0 <= k < n ==> IsCorrectAt(questions, answers, k)
    ensures CountCorrect(questions, answers, n) == 0 <==> forall k :: 0 <= k < n ==> !IsCorrectAt(questions, answers, k)
  {
    if n > 0 {
      CountCorrectSpec(questions, answers, n - 1);
    }
  }

  /** The questions among the first n that were answered correctly. */
  function CorrectSet(questions: seq<QuizQuestion>, answers: seq<Option<int>>, n: nat): set<nat>
    requires n <= |questions|
  {
    set k: nat | k < n && IsCorrectAt(questions, answers, k)
  }

  /** The raw score counts exactly the correctly answered questions. */
  lemma {:induction false} CountCorrectIsSize(questions: seq<QuizQuestion>, answers: seq<Option<int>>, n: nat)
    requires n <= |questions|
    ensures CountCorrect(questions, answers, n) == |CorrectSet(questions, answers, n)|
  {
    if n > 0 {
      CountCorrectIsSize(questions, answers, n - 1);
      var prev := CorrectSet(questions, answers, n - 1);
      if IsCorrectAt(questions, answers, n - 1) {
        assert CorrectSet(questions, answers, n) == prev + {n - 1};
        assert n - 1 !in prev;
      } else {
        assert CorrectSet(questions, answers, n) == prev;
      }
    }
  }

  /** With one verdict per question, the raw score is the number of
      questions marked correct. */
  lemma ScoreCountsCorrect(questions: seq<QuizQuestion>, answers: seq<Option<int>>, perQ: seq<QuestionResult>)
    requires |perQ| == |questions|
    requires forall k :: 0 <= k < |questions| ==> perQ[k].isCorrect == IsCorrectAt(questions, answers, k)
    ensures CountCorrect(questions, answers, |questions|) == |set k: nat | k < |perQ| && perQ[k].isCorrect|
  {
    CountCorrectIsSize(questions, answers, |questions|);
    assert (set k: nat | k < |perQ| && perQ[k].isCorrect) == CorrectSet(questions, answers, |questions|);
  }

  /** A question stored without a correct index accepts the answer -1. */
  lemma MissingKeyAcceptsMinusOne(questions: seq<QuizQuestion>, answers: seq<Option<int>>, i: nat)
    requires i < |questions| && i < |answers|
    requires questions[i].correctIndex.None? && answers[i] == Some(-1)
    ensures IsCorrectAt(questions, answers, i)
  {
  }

  /** `int(total / max_total * 100)`, or 0 without questions, computed
      exactly. */
  function ScorePct(raw: nat, max: nat): (p: nat)
    requires raw <= max
    ensures p <= 100
    ensures raw == 0 ==> p == 0
    ensures max > 0 ==> (p == 100 <==> raw == max)
    ensures max > 0 ==> p * max <= raw * 100 < (p + 1) * max
  {
    if max == 0 then 0
    else
      PercentBounds(raw, max);
      (raw * 100) / max
  }

  lemma PercentBounds(raw: nat, max: nat)
    requires 0 < max && raw <= max
    ensures var p := (raw * 100) / max;
      && p <= 100 && (p == 100 <==> raw == max) && p * max <= raw * 100 < (p + 1) * max
  {
    var p := (raw * 100) / max;
    assert p * max <= raw * 100 < (p + 1) * max;
  }

  function EntryAt(questions: seq<QuizQuestion>, answers: seq<Option<int>>, i: nat): Entry
    requires i < |questions|
  {
    var q := questions[i];
    Entry(i, q.question, q.options, CorrectIndexOf(q), ChosenAt(answers, i), IsCorrectAt(questions, answers, i))
  }

  /** The feedback object for question idx: the parsed one when there is
      one, empty strings when the reply was shorter or unparsable. */
  function FeedbackAt(parsed: Option<seq<FeedbackItem>>, idx: nat): FeedbackItem {
    if parsed.Some? && idx < |parsed.value| then parsed.value[idx] else FeedbackItem(Some(""), Some(""))
  }

  function ResultOf(e: Entry, f: FeedbackItem): QuestionResult {
    QuestionResult(e.index, e.question, e.chosenIndex, e.correctIndex, e.isCorrect, f.explanation.GetOr(""), f.tip.GetOr(""))
  }

  /** The second loop of `evaluate_answers_with_gemini`: each entry with
      the explanation and tip of its feedback object. */
  method AttachFeedback(entries: seq<Entry>, parsed: Option<seq<FeedbackItem>>) returns (perQ: seq<QuestionResult>)
    ensures |perQ| == |entries|
    ensures forall k :: 0 <= k < |entries| ==> perQ[k] == ResultOf(entries[k], FeedbackAt(parsed, k))
  {
    var feedback := parsed;
    if feedback.None? {
      feedback := Some(seq(|entries|, _ => FeedbackItem(Some(""), Some(""))));
    }
    perQ := [];
    for idx := 0 to |entries|
      invariant |perQ| == idx
      invariant forall k :: 0 <= k < idx ==> perQ[k] == ResultOf(entries[k], FeedbackAt(parsed, k))
    {
      var f := if idx < |feedback.value| then feedback.value[idx] else FeedbackItem(Some(""), Some(""));
      assert f == FeedbackAt(parsed, idx);
      var v := entries[idx];
      perQ := perQ + [QuestionResult(v.index, v.question, v.chosenIndex, v.correctIndex, v.isCorrect,
                                     f.explanation.GetOr(""), f.tip.GetOr(""))];
    }
  }

  /** `evaluate_answers_with_gemini`: one point per correct choice, the
      percentage, and per question the choice, the key, the verdict and
      the explanation and tip of the parsed reply. */
  method EvaluateAnswers(questions: seq<QuizQuestion>, answers: seq<Option<int>>, parsed: Option<seq<FeedbackItem>>)
    returns (e: Evaluation)
    ensures e.maxScore == |questions|
    ensures e.scoreRaw == CountCorrect(questions, answers, |questions|) && e.scoreRaw <= e.maxScore
    ensures e.scorePct == ScorePct(e.scoreRaw, e.maxScore)
    ensures |e.perQuestion| == |questions|
    ensures forall k :: 0 <= k < |questions| ==>
      e.perQuestion[k] == ResultOf(EntryAt(questions, answers, k), FeedbackAt(parsed, k))
    ensures forall k :: 0 <= k < |questions| ==>
      var r := e.perQuestion[k];
      r.index == k && r.question == questions[k].question && r.chosenIndex == ChosenAt(answers, k)
      && (r.isCorrect <==> r.chosenIndex == Some(r.correctIndex))
      && (r.correctIndex == if questions[k].correctIndex.Some? then questions[k].correctIndex.value else -1)
  {
    var maxTotal := |questions|;
    var entries, total := GradeAll(questions, answers);
    var perQ := AttachFeedback(entries, parsed);
    CountCorrectSpec(questions, answers, |questions|);
    var scorePct := if maxTotal > 0 then (total * 100) / maxTotal else 0;
    assert scorePct == ScorePct(total, maxTotal);
    e := Evaluation(total, scorePct, perQ, maxTotal);
  }

  /** The first loop of `evaluate_answers_with_gemini`: one point per
      correct choice and one entry per question. */
  method GradeAll(questions: seq<QuizQuestion>, answers: seq<Option<int>>) returns (entries: seq<Entry>, total: nat)
    ensures total == CountCorrect(questions, answers, |questions|)
    ensures |entries| == |questions|
    ensures forall k :: 0 <= k < |questions| ==> entries[k] == EntryAt(questions, answers, k)
  {
    total := 0;
    entries := [];
    for i := 0 to |questions|
      invariant |entries| == i && total == CountCorrect(questions, answers, i)
      invariant forall k :: 0 <= k < i ==> entries[k] == EntryAt(questions, answers, k)
    {
      var q := questions[i];
      var correctIdx := if q.correctIndex.Some? then q.correctIndex.value else -1;
      var chosenIdx := if i < |answers| then answers[i] else None;
      var correct := chosenIdx == Some(correctIdx);
      var score := if correct then 1 else 0;
      total := total + score;
      entries := entries + [Entry(i, q.question, q.options, correctIdx, chosenIdx, correct)];
    }
  }

  // ---------------------------------------------------------------------
  // Reading the submitted answers

  /** The query-parameter name of answer i. */
  function AnswerKey(i: nat): string { "answers[" + NatToString(i) + "]" }

  lemma AnswerKeyInjective(i: nat, j: nat)
    requires AnswerKey(i) == AnswerKey(j)
    ensures i == j
  {
    var a, b := AnswerKey(i), AnswerKey(j);
    assert a[8..|a| - 1] == NatToString(i);
    assert b[8..|b| - 1] == NatToString(j);
    NatToStringInjective(i, j);
  }

  function KeysBelow(n: nat): set<string> {
    set j | 0 <= j < n :: AnswerKey(j)
  }

  lemma {:induction false} KeysBelowCount(n: nat)
    ensures |KeysBelow(n)| == n
  {
    if n > 0 {
      KeysBelowCount(n - 1);
      KeysBelowStep(n - 1);
      KeysBelowFresh(n - 1);
    }
  }

  lemma KeysBelowStep(n: nat)
    ensures KeysBelow(n + 1) == KeysBelow(n) + {AnswerKey(n)}
  {
  }

  /** The key of answer n is not among the keys of the earlier answers. */
  lemma KeysBelowFresh(n: nat)
    ensures AnswerKey(n) !in KeysBelow(n)
  {
    if AnswerKey(n) in KeysBelow(n) {
      var j :| 0 <= j < n && AnswerKey(j) == AnswerKey(n);
      AnswerKeyInjective(j, n);
    }
  }

  lemma {:induction false} SubsetCount(a: set<string>, b: set<string>)
    requires a <= b
    ensures |a| <= |b|
  {
    assert b == a + (b - a);
  }

  /** The ASCII separators U+001C to U+001F: `str.isspace` holds for them,
      but `int()` does not skip them, since it skips only the six ASCII
      blanks and maps non-ASCII whitespace to a space. */
  predicate IsSeparator(c: char) { 28 <= c as int <= 31 }

  predicate NoSeparator(s: string) { forall k :: 0 <= k < |s| ==> !IsSeparator(s[k]) }

  /** Digits, with or without a minus sign, hold no separator. */
  lemma DigitsNoSeparator(digits: string)
    requires AllDigits(digits)
    ensures NoSeparator(digits) && NoSeparator("-" + digits)
  {
    var t := "-" + digits;
    forall k | 1 <= k < |t| ensures !IsSeparator(t[k]) {
      assert t[k] == digits[k - 1];
    }
  }

  /** Python `int(s)` on a string: surrounding whitespace, an optional
      sign, then decimal digits; anything else, a separator character
      among them, is None (the caught exception). */
  function ParseInt(s: string): (r: Option<int>)
    ensures r.Some? ==> Strip(s) != []
    ensures r.Some? ==> NoSeparator(s)
  {
    if !NoSeparator(s) then None
    else ParseStripped(Strip(s))
  }

  /** `int()` once the surrounding whitespace is gone. */
  function ParseStripped(t: string): (r: Option<int>)
    ensures r.Some? ==> t != []
  {
    if t != [] && (t[0] == '+' || t[0] == '-') && |t| > 1 && AllDigits(t[1..]) then
      Some(if t[0] == '-' then -(DecimalValue(t[1..]) as int) else DecimalValue(t[1..]))
    else if t != [] && AllDigits(t) then Some(DecimalValue(t))
    else None
  }

  /** What `str(n)` writes parses back to n. */
  lemma ParseIntRoundTrip(n: nat)
    ensures ParseInt(NatToString(n)) == Some(n)
  {
    var s := NatToString(n);
    DecimalRoundTrip(n);
    assert IsDigit(s[0]) && IsDigit(s[|s| - 1]);
    StripTrimmed(s);
    DigitsNoSeparator(s);
    assert s[0] != '+' && s[0] != '-';
  }

  /** What `str(-n)` writes parses back to -n. */
  lemma ParseIntNegativeRoundTrip(n: nat)
    ensures ParseInt("-" + NatToString(n)) == Some(-(n as int))
  {
    DecimalRoundTrip(n);
    ParseNegative(NatToString(n), n);
  }

  /** A minus sign followed by digits parses to the negated value. */
  lemma ParseNegative(digits: string, n: nat)
    requires digits != [] && AllDigits(digits) && DecimalValue(digits) == n
    ensures ParseInt("-" + digits) == Some(-(n as int))
  {
    var t := "-" + digits;
    assert IsDigit(t[|t| - 1]);
    StripTrimmed(t);
    DigitsNoSeparator(digits);
    assert ParseInt(t) == ParseStripped(t);
    NegativeStripped(digits);
  }

  lemma NegativeStripped(digits: string)
    requires digits != [] && AllDigits(digits)
    ensures ParseStripped("-" + digits) == Some(-(DecimalValue(digits) as int))
  {
    assert ("-" + digits)[1..] == digits;
  }

  /** The `while True` loop of `submit_quiz`: read `answers[0]`,
      `answers[1]`, … until the first missing key, each value parsed as an
      integer or None. */
  method ReadAnswers(params: map<string, string>) returns (answers: seq<Option<int>>)
    ensures forall j :: 0 <= j < |answers| ==> AnswerKey(j) in params && answers[j] == ParseInt(params[AnswerKey(j)])
    ensures AnswerKey(|answers|) !in params
    ensures |answers| <= |params|
  {
    answers := [];
    var i := 0;
    KeysBelowCount(0);
    while AnswerKey(i) in params
      invariant i == |answers| && i <= |params.Keys|
      invariant KeysBelow(i) <= params.Keys
      invariant forall j :: 0 <= j < i ==> AnswerKey(j) in params && answers[j] == ParseInt(params[AnswerKey(j)])
      decreases |params.Keys| - i
    {
      answers := answers + [ParseInt(params[AnswerKey(i)])];
      KeysBelowGrow(i, params.Keys);
      i := i + 1;
    }
  }

  lemma KeysBelowGrow(i: nat, keys: set<string>)
    requires KeysBelow(i) <= keys && AnswerKey(i) in keys
    ensures KeysBelow(i + 1) <= keys && i + 1 <= |keys|
  {
    KeysBelowStep(i);
    KeysBelowCount(i + 1);
    SubsetCount(KeysBelow(i + 1), keys);
  }

  // ---------------------------------------------------------------------
  // Endpoints

  datatype QuizDoc = QuizDoc(jobId: string, resumeId: string, questions: seq<QuizQuestion>)

  datatype PublicQuestion = PublicQuestion(question: string, options: seq<string>)

  datatype PublicQuiz = PublicQuiz(quizId: string, jobId: string, resumeId: string, questions: seq<PublicQuestion>)

  /** An HTTP error: status code and detail. */
  datatype HttpError = HttpError(status: nat, detail: string)

  const QuizNotFound := HttpError(404, "Quiz not found")

  /** `get_quiz`: the stored questions without their correct indices, in
      order, or 404. */
  method GetQuiz(quizzes: map<string, QuizDoc>, quizId: string) returns (r: Result<PublicQuiz, HttpError>)
    ensures quizId !in quizzes <==> r == Failure(QuizNotFound)
    ensures r.Success? ==>
      var doc := quizzes[quizId];
      && r.value.quizId == quizId && r.value.jobId == doc.jobId && r.value.resumeId == doc.resumeId
      && |r.value.questions| == |doc.questions|
      && forall k :: 0 <= k < |doc.questions| ==>
           r.value.questions[k] == PublicQuestion(doc.questions[k].question, doc.questions[k].options)
  {
    if quizId !in quizzes {
      return Failure(QuizNotFound);
    }
    var doc := quizzes[quizId];
    var publicQuestions: seq<PublicQuestion> := [];
    for i := 0 to |doc.questions|
      invariant |publicQuestions| == i
      invariant forall k :: 0 <= k < i ==>
        publicQuestions[k] == PublicQuestion(doc.questions[k].question, doc.questions[k].options)
    {
      var q := doc.questions[i];
      publicQuestions := publicQuestions + [PublicQuestion(q.question, q.options)];
    }
    r := Success(PublicQuiz(quizId, doc.jobId, doc.resumeId, publicQuestions));
  }

  /** The evaluation record that `submit_quiz` stores. */
  datatype StoredEvaluation = StoredEvaluation(quizId: string, resumeId: string, jobId: string, evaluation: Evaluation)

  /** `submit_quiz`: 404 for an unknown quiz, otherwise the answers read
      from the query parameters scored against the stored questions. */
  method SubmitQuiz(quizzes: map<string, QuizDoc>, quizId: string, resumeId: string, params: map<string, string>,
                    parsed: Option<seq<FeedbackItem>>)
    returns (r: Result<StoredEvaluation, HttpError>)
    ensures quizId !in quizzes <==> r == Failure(QuizNotFound)
    ensures r.Success? ==>
      var doc, ev := quizzes[quizId], r.value.evaluation;
      && r.value.quizId == quizId && r.value.resumeId == resumeId && r.value.jobId == doc.jobId
      && ev.maxScore == |doc.questions| && ev.scoreRaw <= ev.maxScore && ev.scorePct <= 100
      && ev.scoreRaw == |set k: nat | k < |ev.perQuestion| && ev.perQuestion[k].isCorrect|
      && ev.scorePct == ScorePct(ev.scoreRaw, ev.maxScore)
      && |ev.perQuestion| == |doc.questions|
      && forall k :: 0 <= k < |doc.questions| ==>
           (ev.perQuestion[k].isCorrect <==>
              AnswerKey(k) in params && ParseInt(params[AnswerKey(k)]) == Some(CorrectIndexOf(doc.questions[k]))
              && forall j :: 0 <= j < k ==> AnswerKey(j) in params)
  {
    if quizId !in quizzes {
      return Failure(QuizNotFound);
    }
    var doc := quizzes[quizId];
    var answers := ReadAnswers(params);
    var ev := EvaluateAnswers(doc.questions, answers, parsed);
    forall k | 0 <= k < |doc.questions|
      ensures (ev.perQuestion[k].isCorrect <==>
              AnswerKey(k) in params && ParseInt(params[AnswerKey(k)]) == Some(CorrectIndexOf(doc.questions[k]))
              && forall j :: 0 <= j < k ==> AnswerKey(j) in params)
    {
      assert k > |answers| ==> !(forall j :: 0 <= j < k ==> AnswerKey(j) in params) by {
        if k > |answers| { assert |answers| < k && AnswerKey(|answers|) !in params; }
      }
    }
    ScoreCountsCorrect(doc.questions, answers, ev.perQuestion);
    r := Success(StoredEvaluation(quizId, resumeId, doc.jobId, ev));
  }
}
