/**
 * The quiz server actions: adding and updating a question with its correct
 * answer (staff only, unique question text, unique option values, a correct
 * option that exists), serving all questions in a Fisher–Yates shuffled
 * order, scoring one user's submissions, and the leaderboard. The database is
 * a value: the two tables the actions write and the rows the queries return
 * are parameters and results. The caller is the payload `verifyAuth()`
 * returned, and `Math.random()` is a sequence of draws.
 */
module QuizActions {
  import opened Wrappers
  import opened Text
  import opened Sorting
  import opened Dal
  import PyRandom

  /** An answer option as the admin form sends it: an id such as "A" and its text. */
  datatype QuestionOption = QuestionOption(id: string, value: string)

  datatype QuestionRow = QuestionRow(question: string, options: seq<QuestionOption>, subject: Option<string>)

  /** The `questions` and `correctAnswers` tables, keyed by question id, and the next serial id. */
  datatype QuizDb = QuizDb(questions: map<int, QuestionRow>, correctAnswers: map<int, string>, nextId: int)

  datatype Reply = Reply(success: bool, message: string)

  // ---------------------------------------------------------------- validation

  /** The form option values are compared in: trimmed, then lower-cased. */
  function Normalise(s: string): string {
    ToLower(Trim(s))
  }

  function Elements<T>(s: seq<T>): set<T> {
    set x | x in s
  }

  /** A set built from a sequence is as large as the sequence exactly when the sequence has no repeats. */
  lemma {:induction false} ElementsSize<T>(s: seq<T>)
    ensures |Elements(s)| <= |s|
    ensures |Elements(s)| == |s| <==> PyRandom.Distinct(s)
  {
    if |s| > 0 {
      ElementsSize(s[1..]);
      assert Elements(s) == Elements(s[1..]) + {s[0]};
      if s[0] in s[1..] {
        var m :| 0 <= m < |s[1..]| && s[1..][m] == s[0];
        assert s[m + 1] == s[0];
        assert Elements(s) == Elements(s[1..]);
      } else {
        assert PyRandom.Distinct(s) <==> PyRandom.Distinct(s[1..]) by {
          if PyRandom.Distinct(s[1..]) {
            forall i, j | 0 <= i < j < |s| ensures s[i] != s[j] {
              if i > 0 {
                assert s[i] == s[1..][i - 1] && s[j] == s[1..][j - 1];
              } else {
                assert s[j] in s[1..];
              }
            }
          }
          if PyRandom.Distinct(s) {
            forall i, j | 0 <= i < j < |s[1..]| ensures s[1..][i] != s[1..][j] {
              assert s[1..][i] == s[i + 1] && s[1..][j] == s[j + 1];
            }
          }
        }
      }
    }
  }

  /** `options.map(o => o.value.trim().toLowerCase())`. */
  function NormalisedValues(options: seq<QuestionOption>): (r: seq<string>)
    ensures |r| == |options|
    ensures forall i :: 0 <= i < |options| ==> r[i] == Normalise(options[i].value)
  {
    if options == [] then [] else [Normalise(options[0].value)] + NormalisedValues(options[1..])
  }

  /** `new Set(values).size === values.length` on the normalised option values. */
  predicate OptionValuesUnique(options: seq<QuestionOption>) {
    |Elements(NormalisedValues(options))| == |options|
  }

  /** The uniqueness check accepts exactly the option lists in which no two values agree once trimmed and lower-cased. */
  lemma OptionValuesUniqueMeansPairwise(options: seq<QuestionOption>)
    ensures OptionValuesUnique(options) <==>
      forall i, j :: 0 <= i < j < |options| ==> Normalise(options[i].value) != Normalise(options[j].value)
  {
    ElementsSize(NormalisedValues(options));
    DistinctPointwise(options, NormalisedValues(options), (o: QuestionOption) => Normalise(o.value));
  }

  /** A mapped list is repeat-free exactly when the map separates every two positions. */
  lemma DistinctPointwise<T, U>(xs: seq<T>, ys: seq<U>, f: T -> U)
    requires |ys| == |xs| && forall i :: 0 <= i < |xs| ==> ys[i] == f(xs[i])
    ensures PyRandom.Distinct(ys) <==> forall i, j :: 0 <= i < j < |xs| ==> f(xs[i]) != f(xs[j])
  {
    if !PyRandom.Distinct(ys) {
      var i, j :| 0 <= i < j < |ys| && ys[i] == ys[j];
      assert f(xs[i]) == f(xs[j]);
    }
  }

  /** `options.some(o => o.id === id)`. */
  predicate HasOptionId(options: seq<QuestionOption>, id: string) {
    exists i :: 0 <= i < |options| && options[i].id == id
  }

  /** Only admins and superadmins may change questions. */
  predicate IsStaff(caller: Option<Payload>) {
    caller.Some? && (caller.value.role == AdminRole || caller.value.role == SuperAdminRole)
  }

  /** Some stored question other than `except` already has this text. */
  predicate TextTaken(db: QuizDb, text: string, except: Option<int>) {
    exists id :: id in db.questions && db.questions[id].question == text && (except.None? || id != except.value)
  }

  /**
   * What the stored tables promise once every write went through these
   * actions: each question has a correct answer naming one of its options,
   * its option values are unique, question texts are unique, and the serial
   * id is past every stored id.
   */
  ghost predicate Consistent(db: QuizDb) {
    && (forall id :: id in db.questions <==> id in db.correctAnswers)
    && (forall id :: id in db.questions ==> id < db.nextId)
    && (forall id :: id in db.questions ==>
          OptionValuesUnique(db.questions[id].options) && HasOptionId(db.questions[id].options, db.correctAnswers[id]))
    && (forall a, b :: a in db.questions && b in db.questions && a != b ==> db.questions[a].question != db.questions[b].question)
  }

  // ---------------------------------------------------------------- addQuestion and updateQuestion

  /** The replies of the question actions. */
  const ADD_UNAUTHORIZED := "Unauthorized: You do not have permission to add questions"
  const QUESTION_EXISTS := "This question already exists"
  const OPTIONS_NOT_UNIQUE := "All options must be unique."
  const ADD_BAD_CORRECT := "Correct option is not valid."
  const ADD_FAILED := "Failed to add question: "
  const ADDED := "Question added successfully"
  const UPDATE_UNAUTHORIZED := "Unauthorized: You do not have permission to update questions"
  const QUESTION_NOT_FOUND := "Question not found"
  const TEXT_TAKEN := "A question with this text already exists"
  const UPDATE_BAD_CORRECT := "Correct option ID is not valid."
  const UPDATE_FAILED := "Failed to update question: "
  const UPDATED := "Question updated successfully"

  /** The message `addQuestion` answers with when a check fails or the transaction throws, in the order they are made. */
  function AddRefusal(caller: Option<Payload>, question: string, options: seq<QuestionOption>, correctOption: string,
                      db: QuizDb, txError: Option<string>): (err: Option<string>)
    ensures err.None? <==> IsStaff(caller) && !TextTaken(db, question, None) && OptionValuesUnique(options)
                           && HasOptionId(options, correctOption) && txError.None?
    ensures !IsStaff(caller) ==> err == Some(ADD_UNAUTHORIZED)
    ensures IsStaff(caller) && TextTaken(db, question, None) ==> err == Some(QUESTION_EXISTS)
  {
    if !IsStaff(caller) then Some(ADD_UNAUTHORIZED)
    else if TextTaken(db, question, None) then Some(QUESTION_EXISTS)
    else if !OptionValuesUnique(options) then Some(OPTIONS_NOT_UNIQUE)
    else if !HasOptionId(options, correctOption) then Some(ADD_BAD_CORRECT)
    else if txError.Some? then Some(ADD_FAILED + txError.value)
    else None
  }

  /** The message `updateQuestion` answers with when a check fails or the transaction throws, in the order they are made. */
  function UpdateRefusal(caller: Option<Payload>, questionId: int, newText: string, newOptions: seq<QuestionOption>,
                         newCorrectOptionId: string, db: QuizDb, txError: Option<string>): (err: Option<string>)
    ensures err.None? <==> IsStaff(caller) && questionId in db.questions && !TextTaken(db, newText, Some(questionId))
                           && OptionValuesUnique(newOptions) && HasOptionId(newOptions, newCorrectOptionId) && txError.None?
    ensures !IsStaff(caller) ==> err == Some(UPDATE_UNAUTHORIZED)
    ensures IsStaff(caller) && questionId !in db.questions ==> err == Some(QUESTION_NOT_FOUND)
  {
    if !IsStaff(caller) then Some(UPDATE_UNAUTHORIZED)
    else if questionId !in db.questions then Some(QUESTION_NOT_FOUND)
    else if TextTaken(db, newText, Some(questionId)) then Some(TEXT_TAKEN)
    else if !OptionValuesUnique(newOptions) then Some(OPTIONS_NOT_UNIQUE)
    else if !HasOptionId(newOptions, newCorrectOptionId) then Some(UPDATE_BAD_CORRECT)
    else if txError.Some? then Some(UPDATE_FAILED + txError.value)
    else None
  }

  /**
   * `addQuestion`: the checks run in order (role, duplicate text, unique
   * options, valid correct option); when all pass, the question row and its
   * correct-answer row are written in one transaction. `txError` is the
   * message the transaction throws, if it fails; nothing is written then.
   */
  function AddQuestion(caller: Option<Payload>, question: string, options: seq<QuestionOption>, correctOption: string,
                       subject: string, db: QuizDb, txError: Option<string>): (r: (Reply, QuizDb))
    ensures r.0.success <==> IsStaff(caller) && !TextTaken(db, question, None) && OptionValuesUnique(options)
                             && HasOptionId(options, correctOption) && txError.None?
    ensures !r.0.success ==> r.1 == db
    ensures r.0.success ==> r.1 == QuizDb(db.questions[db.nextId := QuestionRow(question, options, Some(subject))],
                                          db.correctAnswers[db.nextId := correctOption], db.nextId + 1)
  {
    var err := AddRefusal(caller, question, options, correctOption, db, txError);
    if err.Some? then (Reply(false, err.value), db)
    else
      var id := db.nextId;
      (Reply(true, ADDED),
       QuizDb(db.questions[id := QuestionRow(question, options, Some(subject))], db.correctAnswers[id := correctOption], id + 1))
  }

  /** Adding a question keeps the tables consistent, whatever the outcome. */
  lemma AddQuestionKeepsConsistent(caller: Option<Payload>, question: string, options: seq<QuestionOption>, correctOption: string,
                                   subject: string, db: QuizDb, txError: Option<string>)
    requires Consistent(db)
    ensures Consistent(AddQuestion(caller, question, options, correctOption, subject, db, txError).1)
  {
    var r := AddQuestion(caller, question, options, correctOption, subject, db, txError);
    if r.0.success {
      var d := r.1;
      forall a, b | a in d.questions && b in d.questions && a != b
        ensures d.questions[a].question != d.questions[b].question
      {
        if a == db.nextId {
          assert !TextTaken(db, question, None);
          assert b in db.questions;
        } else if b == db.nextId {
          assert a in db.questions;
        }
      }
    }
  }

  /**
   * `updateQuestion`: the checks run in order (role, question exists, no other
   * question has the new text, unique options, valid correct option); then
   * the row takes the new text, options and subject (an absent subject leaves
   * the stored one), and the existing correct-answer row takes the new id.
   */
  function UpdateQuestion(caller: Option<Payload>, questionId: int, newText: string, newOptions: seq<QuestionOption>,
                          newCorrectOptionId: string, newSubject: Option<string>, db: QuizDb, txError: Option<string>): (r: (Reply, QuizDb))
    ensures r.0.success <==> IsStaff(caller) && questionId in db.questions && !TextTaken(db, newText, Some(questionId))
                             && OptionValuesUnique(newOptions) && HasOptionId(newOptions, newCorrectOptionId) && txError.None?
    ensures !r.0.success ==> r.1 == db
    ensures r.0.success ==> r.1.nextId == db.nextId && r.1.questions.Keys == db.questions.Keys
                            && r.1.correctAnswers.Keys == db.correctAnswers.Keys
    ensures r.0.success ==> forall id :: id in db.questions && id != questionId ==> r.1.questions[id] == db.questions[id]
    ensures r.0.success ==> forall id :: id in db.correctAnswers && id != questionId ==> r.1.correctAnswers[id] == db.correctAnswers[id]
    ensures r.0.success ==> r.1.questions[questionId].question == newText && r.1.questions[questionId].options == newOptions
    ensures r.0.success ==> r.1.questions[questionId].subject == (if newSubject.Some? then newSubject else db.questions[questionId].subject)
    ensures r.0.success && questionId in db.correctAnswers ==> r.1.correctAnswers[questionId] == newCorrectOptionId
  {
    var err := UpdateRefusal(caller, questionId, newText, newOptions, newCorrectOptionId, db, txError);
    if err.Some? then (Reply(false, err.value), db)
    else (Reply(true, UPDATED), Rewritten(db, questionId, newText, newOptions, newCorrectOptionId, newSubject))
  }

  /** The tables after the update transaction: the row is rewritten and an existing correct-answer row takes the new id. */
  function Rewritten(db: QuizDb, questionId: int, newText: string, newOptions: seq<QuestionOption>,
                     newCorrectOptionId: string, newSubject: Option<string>): (d: QuizDb)
    requires questionId in db.questions
    ensures d.nextId == db.nextId && d.questions.Keys == db.questions.Keys && d.correctAnswers.Keys == db.correctAnswers.Keys
    ensures forall id :: id in db.questions && id != questionId ==> d.questions[id] == db.questions[id]
    ensures forall id :: id in db.correctAnswers && id != questionId ==> d.correctAnswers[id] == db.correctAnswers[id]
    ensures d.questions[questionId].question == newText && d.questions[questionId].options == newOptions
    ensures d.questions[questionId].subject == (if newSubject.Some? then newSubject else db.questions[questionId].subject)
    ensures questionId in db.correctAnswers ==> d.correctAnswers[questionId] == newCorrectOptionId
  {
    var stored := db.questions[questionId];
    var subject := if newSubject.Some? then newSubject else stored.subject;
    var answers := if questionId in db.correctAnswers then db.correctAnswers[questionId := newCorrectOptionId] else db.correctAnswers;
    QuizDb(db.questions[questionId := QuestionRow(newText, newOptions, subject)], answers, db.nextId)
  }

  /** Updating a question keeps the tables consistent, whatever the outcome. */
  lemma UpdateQuestionKeepsConsistent(caller: Option<Payload>, questionId: int, newText: string, newOptions: seq<QuestionOption>,
                                      newCorrectOptionId: string, newSubject: Option<string>, db: QuizDb, txError: Option<string>)
    requires Consistent(db)
    ensures Consistent(UpdateQuestion(caller, questionId, newText, newOptions, newCorrectOptionId, newSubject, db, txError).1)
  {
    var r := UpdateQuestion(caller, questionId, newText, newOptions, newCorrectOptionId, newSubject, db, txError);
    if r.0.success {
      var stored := db.questions[questionId];
      var row := QuestionRow(newText, newOptions, if newSubject.Some? then newSubject else stored.subject);
      var qs := db.questions[questionId := row];
      var cs := db.correctAnswers[questionId := newCorrectOptionId];
      assert r.1 == QuizDb(qs, cs, db.nextId);
      forall id | id in qs
        ensures OptionValuesUnique(qs[id].options) && HasOptionId(qs[id].options, cs[id])
      {
        if id == questionId {
          assert qs[id] == row && cs[id] == newCorrectOptionId;
        } else {
          assert qs[id] == db.questions[id] && cs[id] == db.correctAnswers[id];
        }
      }
      forall a, b | a in qs && b in qs && a != b
        ensures qs[a].question != qs[b].question
      {
        if a == questionId {
          assert !TextTaken(db, newText, Some(questionId));
          assert qs[b] == db.questions[b];
        } else if b == questionId {
          assert !TextTaken(db, newText, Some(questionId));
          assert qs[a] == db.questions[a];
        } else {
          assert qs[a] == db.questions[a] && qs[b] == db.questions[b];
        }
      }
    }
  }

  // ---------------------------------------------------------------- getAllQuestions

  /** A question as served to the quiz page. */
  datatype ClientQuestion = ClientQuestion(id: int, text: string, options: seq<QuestionOption>, subject: Option<string>)

  function Swap<T>(s: seq<T>, i: nat, j: nat): (r: seq<T>)
    requires i < |s| && j < |s|
    ensures |r| == |s|
  {
    s[i := s[j]][j := s[i]]
  }

  lemma SwapPermutes<T>(s: seq<T>, i: nat, j: nat)
    requires i < |s| && j < |s|
    ensures multiset(Swap(s, i, j)) == multiset(s)
  {
  }

  /**
   * The Fisher–Yates steps for positions `i` down to 1, the `k`-th draw
   * choosing the partner `draw % (i + 1)` of position `i`.
   */
  function ShuffleDown<T>(s: seq<T>, i: nat, draws: seq<nat>, k: nat): (r: seq<T>)
    requires i < |s|
    ensures |r| == |s|
    ensures forall m :: i < m < |s| ==> r[m] == s[m]
    decreases i
  {
    if i == 0 then s
    else ShuffleDown(Swap(s, i, PyRandom.DrawAt(draws, k) % (i + 1)), i - 1, draws, k + 1)
  }

  /** The order the shuffle loop leaves `s` in, given the draws. */
  function Shuffle<T>(s: seq<T>, draws: seq<nat>): (r: seq<T>)
    ensures |r| == |s|
    ensures multiset(r) == multiset(s)
  {
    if |s| == 0 then s
    else
      ShuffleDownPermutes(s, |s| - 1, draws, 0);
      ShuffleDown(s, |s| - 1, draws, 0)
  }

  lemma {:induction false} ShuffleDownPermutes<T>(s: seq<T>, i: nat, draws: seq<nat>, k: nat)
    requires i < |s|
    ensures |ShuffleDown(s, i, draws, k)| == |s|
    ensures multiset(ShuffleDown(s, i, draws, k)) == multiset(s)
    decreases i
  {
    if i > 0 {
      SwapPermutes(s, i, PyRandom.DrawAt(draws, k) % (i + 1));
      ShuffleDownPermutes(Swap(s, i, PyRandom.DrawAt(draws, k) % (i + 1)), i - 1, draws, k + 1);
    }
  }

  /** Whatever the draws, the shuffle is a permutation of the questions. */
  lemma ShufflePermutes<T>(s: seq<T>, draws: seq<nat>)
    ensures |Shuffle(s, draws)| == |s|
    ensures multiset(Shuffle(s, draws)) == multiset(s)
  {
    if |s| > 0 {
      ShuffleDownPermutes(s, |s| - 1, draws, 0);
    }
  }

  /** A draw that always picks the position itself leaves every element in place. */
  lemma {:induction false} ShuffleDownFixed<T>(s: seq<T>, i: nat, draws: seq<nat>, k: nat)
    requires i < |s|
    requires forall m :: k <= m < k + i ==> PyRandom.DrawAt(draws, m) % (i - (m - k) + 1) == i - (m - k)
    ensures ShuffleDown(s, i, draws, k) == s
    decreases i
  {
    if i > 0 {
      assert PyRandom.DrawAt(draws, k) % (i + 1) == i;
      assert Swap(s, i, i) == s;
      ShuffleDownFixed(s, i - 1, draws, k + 1);
    }
  }

  /** The in-place swap loop of `getAllQuestions`. */
  method ShuffleInPlace<T>(a: array<T>, draws: seq<nat>)
    modifies a
    ensures a[..] == Shuffle(old(a[..]), draws)
  {
    if a.Length == 0 {
      return;
    }
    ghost var target := Shuffle(a[..], draws);
    var i := a.Length - 1;
    while i > 0
      invariant 0 <= i < a.Length
      invariant ShuffleDown(a[..], i, draws, a.Length - 1 - i) == target
    {
      var k := a.Length - 1 - i;
      var j := PyRandom.DrawAt(draws, k) % (i + 1);
      ghost var next := Swap(a[..], i, j);
      assert ShuffleDown(a[..], i, draws, k) == ShuffleDown(next, i - 1, draws, k + 1);
      var t := a[i];
      a[i] := a[j];
      a[j] := t;
      assert a[..] == next;
      i := i - 1;
    }
  }

  /**
   * `getAllQuestions`: every stored question (as the query returns them)
   * becomes a client question, and the list is shuffled in place.
   */
  method GetAllQuestions(rows: seq<(int, QuestionRow)>, draws: seq<nat>) returns (r: seq<ClientQuestion>)
    ensures r == Shuffle(Formatted(rows), draws)
    ensures multiset(r) == multiset(Formatted(rows))
  {
    var formatted := Formatted(rows);
    var a := new ClientQuestion[|formatted|](i requires 0 <= i < |formatted| => formatted[i]);
    assert a[..] == formatted;
    ShuffleInPlace(a, draws);
    r := a[..];
    ShufflePermutes(formatted, draws);
  }

  /** The client form of each row, in query order. */
  function Formatted(rows: seq<(int, QuestionRow)>): (r: seq<ClientQuestion>)
    ensures |r| == |rows|
    ensures forall i :: 0 <= i < |rows| ==> r[i] == ClientQuestion(rows[i].0, rows[i].1.question, rows[i].1.options, rows[i].1.subject)
  {
    if rows == [] then []
    else [ClientQuestion(rows[0].0, rows[0].1.question, rows[0].1.options, rows[0].1.subject)] + Formatted(rows[1..])
  }

  // ---------------------------------------------------------------- correct-answer map

  datatype CorrectAnswerRow = CorrectAnswerRow(id: int, questionId: Option<int>, correctOption: string)

  /** The map `forEach(answer => map.set(...))` builds: rows without a question are skipped and a later row overrides an earlier one. */
  function AnswerMap(rows: seq<CorrectAnswerRow>): (m: map<int, string>)
    ensures forall q :: q in m <==> exists i :: 0 <= i < |rows| && rows[i].questionId == Some(q)
  {
    if rows == [] then map[]
    else
      var front := AnswerMap(rows[..|rows| - 1]);
      var last := rows[|rows| - 1];
      assert forall i :: 0 <= i < |rows| - 1 ==> rows[..|rows| - 1][i] == rows[i];
      if last.questionId.Some? then front[last.questionId.value := last.correctOption] else front
  }

  /** The map holds, for each question, the answer of the last row that names it. */
  lemma {:induction false} AnswerMapLastWins(rows: seq<CorrectAnswerRow>, i: nat, q: int)
    requires i < |rows| && rows[i].questionId == Some(q)
    requires forall j :: i < j < |rows| ==> rows[j].questionId != Some(q)
    ensures q in AnswerMap(rows) && AnswerMap(rows)[q] == rows[i].correctOption
  {
    if i < |rows| - 1 {
      var front := rows[..|rows| - 1];
      AnswerMapLastWins(front, i, q);
    }
  }

  /** The `forEach` loop that fills the map. */
  method BuildAnswerMap(rows: seq<CorrectAnswerRow>) returns (m: map<int, string>)
    ensures m == AnswerMap(rows)
  {
    m := map[];
    var i := 0;
    while i < |rows|
      invariant 0 <= i <= |rows|
      invariant m == AnswerMap(rows[..i])
    {
      assert rows[..i + 1][..i] == rows[..i];
      if rows[i].questionId.Some? {
        m := m[rows[i].questionId.value := rows[i].correctOption];
      }
      i := i + 1;
    }
    assert rows[..i] == rows;
  }

  // ---------------------------------------------------------------- getQuizResults

  datatype Submission = Submission(id: int, option: string, userId: Option<int>, questionId: Option<int>, question: Option<QuestionRow>)

  datatype QuestionResult = QuestionResult(questionId: int, question: string, options: seq<QuestionOption>,
                                           selectedOption: string, correctOption: Option<string>, isCorrect: bool)

  datatype Summary = Summary(totalQuestions: nat, attemptedQuestions: nat, correctAnswers: nat, score: real)

  datatype QuizResults = QuizResults(summary: Summary, questions: seq<QuestionResult>)

  /** A submission is right when its question has a correct answer equal to the chosen option. */
  predicate IsCorrect(option: string, questionId: int, answers: map<int, string>) {
    questionId in answers && answers[questionId] == option
  }

  /** The text a result line shows when its question row is missing. */
  const MISSING_QUESTION_TEXT := "Question not found"

  /** The result line of one submission; none for a submission without a question id. */
  function ResultOf(s: Submission, answers: map<int, string>): (r: Option<QuestionResult>)
    ensures r.None? <==> s.questionId.None?
    ensures r.Some? ==> r.value.questionId == s.questionId.value && r.value.selectedOption == s.option
    ensures r.Some? ==> (r.value.isCorrect <==> s.questionId.value in answers && answers[s.questionId.value] == s.option)
    ensures r.Some? ==> (r.value.correctOption.Some? <==> s.questionId.value in answers)
  {
    match s.questionId
    case None => None
    case Some(q) =>
      Some(QuestionResult(q, if s.question.Some? then s.question.value.question else MISSING_QUESTION_TEXT,
                          if s.question.Some? then s.question.value.options else [],
                          s.option, if q in answers then Some(answers[q]) else None, IsCorrect(s.option, q, answers)))
  }

  /** The result lines of the submissions that have a question id, in submission order. */
  function Results(subs: seq<Submission>, answers: map<int, string>): (r: seq<QuestionResult>)
    ensures |r| <= |subs|
    ensures forall k :: 0 <= k < |r| ==> r[k].isCorrect == IsCorrect(r[k].selectedOption, r[k].questionId, answers)
  {
    if subs == [] then []
    else
      var front := Results(subs[..|subs| - 1], answers);
      match ResultOf(subs[|subs| - 1], answers)
      case None => front
      case Some(line) => front + [line]
  }

  function CountCorrect(rs: seq<QuestionResult>): (n: nat)
    ensures n <= |rs|
  {
    if rs == [] then 0 else CountCorrect(rs[..|rs| - 1]) + (if rs[|rs| - 1].isCorrect then 1 else 0)
  }

  function CountAttempted(rs: seq<QuestionResult>): (n: nat)
    ensures n <= |rs|
  {
    if rs == [] then 0 else CountAttempted(rs[..|rs| - 1]) + (if rs[|rs| - 1].selectedOption != "" then 1 else 0)
  }

  /** `part / whole * 100`, and 0 when `whole` is 0. */
  function Percentage(part: nat, whole: nat): (r: real)
    ensures whole == 0 ==> r == 0.0
    ensures whole > 0 ==> r * whole as real == part as real * 100.0
  {
    if whole > 0 then
      var f := part as real / whole as real;
      assert f * whole as real == part as real;
      assert f * 100.0 * whole as real == f * whole as real * 100.0;
      f * 100.0
    else 0.0
  }

  lemma ScaleStrict(a: real, b: real, w: real)
    requires a < b && w > 0.0
    ensures a * w < b * w
  {
    assert b * w - a * w == (b - a) * w;
  }

  lemma PercentageBounds(part: nat, whole: nat)
    requires part <= whole
    ensures 0.0 <= Percentage(part, whole) <= 100.0
    ensures Percentage(part, whole) == 100.0 <==> whole > 0 && part == whole
    ensures Percentage(part, whole) == 0.0 <==> part == 0
  {
    if whole > 0 {
      var p, w := part as real, whole as real;
      var f := p / w;
      assert f * w == p;
      assert 0.0 <= f <= 1.0;
      if part == whole {
        if f < 1.0 {
          ScaleStrict(f, 1.0, w);
        } else if f > 1.0 {
          ScaleStrict(1.0, f, w);
        }
      }
      if f == 1.0 {
        assert p == w;
      }
      if f == 0.0 {
        assert p == 0.0;
      }
    }
  }

  lemma ResultsStep(subs: seq<Submission>, i: nat, answers: map<int, string>)
    requires i < |subs|
    ensures Results(subs[..i + 1], answers) ==
      Results(subs[..i], answers) + (if ResultOf(subs[i], answers).Some? then [ResultOf(subs[i], answers).value] else [])
  {
    assert subs[..i + 1][..i] == subs[..i];
  }

  lemma CountsStep(lines: seq<QuestionResult>, line: QuestionResult)
    ensures CountCorrect(lines + [line]) == CountCorrect(lines) + (if line.isCorrect then 1 else 0)
    ensures CountAttempted(lines + [line]) == CountAttempted(lines) + (if line.selectedOption != "" then 1 else 0)
  {
    assert (lines + [line])[..|lines|] == lines;
  }

  /** One step of the scoring loop: count the line if it is right and if an option was chosen, then keep it. */
  method Tally(lines: seq<QuestionResult>, correct: nat, attempted: nat, line: QuestionResult)
    returns (lines': seq<QuestionResult>, correct': nat, attempted': nat)
    requires correct == CountCorrect(lines) && attempted == CountAttempted(lines)
    ensures lines' == lines + [line]
    ensures correct' == CountCorrect(lines') && attempted' == CountAttempted(lines')
  {
    CountsStep(lines, line);
    correct', attempted' := correct, attempted;
    if line.isCorrect {
      correct' := correct' + 1;
    }
    if line.selectedOption != "" {
      attempted' := attempted' + 1;
    }
    lines' := lines + [line];
  }

  /** The scoring loop: one result line per submission with a question id, and the two counters. */
  method ScoreSubmissions(subs: seq<Submission>, answers: map<int, string>) returns (lines: seq<QuestionResult>, correct: nat, attempted: nat)
    ensures lines == Results(subs, answers)
    ensures correct == CountCorrect(lines) && attempted == CountAttempted(lines)
  {
    lines, correct, attempted := [], 0, 0;
    var i := 0;
    while i < |subs|
      invariant 0 <= i <= |subs|
      invariant lines == Results(subs[..i], answers)
      invariant correct == CountCorrect(lines) && attempted == CountAttempted(lines)
    {
      lines, correct, attempted := ScoreOne(subs, i, answers, lines, correct, attempted);
      i := i + 1;
    }
    assert subs[..i] == subs;
  }

  /** The body of the scoring loop for submission `i`. */
  method ScoreOne(subs: seq<Submission>, i: nat, answers: map<int, string>, lines: seq<QuestionResult>, correct: nat, attempted: nat)
    returns (lines': seq<QuestionResult>, correct': nat, attempted': nat)
    requires i < |subs|
    requires lines == Results(subs[..i], answers)
    requires correct == CountCorrect(lines) && attempted == CountAttempted(lines)
    ensures lines' == Results(subs[..i + 1], answers)
    ensures correct' == CountCorrect(lines') && attempted' == CountAttempted(lines')
  {
    var line := ResultOf(subs[i], answers);
    ResultsStep(subs, i, answers);
    lines', correct', attempted' := lines, correct, attempted;
    if line.Some? {
      lines', correct', attempted' := Tally(lines, correct, attempted, line.value);
    }
  }

  /**
   * `getQuizResults(userId)`: a signed-in caller may read anyone's results
   * unless its role is 'user', which may read only its own. `subs` are the
   * rows the submissions query returned and `rows` the correct-answer table.
   */
  method GetQuizResults(caller: Option<Payload>, userId: int, subs: seq<Submission>, rows: seq<CorrectAnswerRow>)
    returns (r: Result<QuizResults, string>)
    ensures r.Success? <==> caller.Some? && (caller.value.role != UserRole || caller.value.userId == userId)
    ensures caller.None? ==> r == Failure("Unauthorized: You must be logged in to view quiz results")
    ensures r.Success? ==> r.value.questions == Results(subs, AnswerMap(rows))
    ensures r.Success? ==> r.value.summary.totalQuestions == |r.value.questions|
    ensures r.Success? ==> r.value.summary.correctAnswers == CountCorrect(r.value.questions) <= r.value.summary.totalQuestions
    ensures r.Success? ==> r.value.summary.attemptedQuestions == CountAttempted(r.value.questions) <= r.value.summary.totalQuestions
    ensures r.Success? ==> r.value.summary.score == Percentage(r.value.summary.correctAnswers, r.value.summary.totalQuestions)
  {
    if caller.None? {
      return Failure("Unauthorized: You must be logged in to view quiz results");
    }
    if caller.value.role == UserRole && caller.value.userId != userId {
      return Failure("Unauthorized: You can only view your own quiz results");
    }
    var answers := BuildAnswerMap(rows);
    var lines, correct, attempted := ScoreSubmissions(subs, answers);
    var summary := Summary(|lines|, attempted, correct, Percentage(correct, |lines|));
    r := Success(QuizResults(summary, lines));
  }

  /** The score of a results summary lies in 0..100 and is 100 exactly when every counted answer is right. */
  lemma SummaryScoreBounds(subs: seq<Submission>, answers: map<int, string>)
    ensures var rs := Results(subs, answers);
      0.0 <= Percentage(CountCorrect(rs), |rs|) <= 100.0
      && (Percentage(CountCorrect(rs), |rs|) == 100.0 <==> |rs| > 0 && CountCorrect(rs) == |rs|)
  {
    var rs := Results(subs, answers);
    PercentageBounds(CountCorrect(rs), |rs|);
  }

  /** Submissions without a question id leave the results untouched. */
  lemma {:induction false} NullQuestionsAreSkipped(subs: seq<Submission>, extra: Submission, answers: map<int, string>)
    requires extra.questionId.None?
    ensures Results(subs + [extra], answers) == Results(subs, answers)
  {
    assert (subs + [extra])[..|subs|] == subs;
  }

  // ---------------------------------------------------------------- getLeaderboard

  datatype UserRow = UserRow(id: int, name: string, email: string, school: string)

  datatype LeaderboardEntry = LeaderboardEntry(userId: int, name: string, email: string, school: string,
                                               totalAnswered: nat, correctAnswers: nat, accuracy: real, score: int)

  datatype RankedEntry = RankedEntry(entry: LeaderboardEntry, rank: nat)

  /** `allSubmissions.filter(s => s.userId === user.id)`. */
  function SubmissionsOf(all: seq<Submission>, userId: int): (r: seq<Submission>)
    ensures |r| <= |all|
    ensures forall k :: 0 <= k < |r| ==> r[k] in all && r[k].userId == Some(userId)
    ensures forall k :: 0 <= k < |all| && all[k].userId == Some(userId) ==> all[k] in r
  {
    if all == [] then []
    else (if all[0].userId == Some(userId) then [all[0]] else []) + SubmissionsOf(all[1..], userId)
  }

  /** The filter keeps every submission of the user as often as the query returns it, and nothing else. */
  lemma {:induction false} SubmissionsOfMultiset(all: seq<Submission>, userId: int)
    ensures forall s :: multiset(SubmissionsOf(all, userId))[s] == if s.userId == Some(userId) then multiset(all)[s] else 0
  {
    if all != [] {
      assert all == [all[0]] + all[1..];
      SubmissionsOfMultiset(all[1..], userId);
    }
  }

  /** The filter keeps the order of the query: filtering a concatenation concatenates the filtered parts. */
  lemma {:induction false} SubmissionsOfAppend(a: seq<Submission>, b: seq<Submission>, userId: int)
    ensures SubmissionsOf(a + b, userId) == SubmissionsOf(a, userId) + SubmissionsOf(b, userId)
  {
    if a == [] {
      assert a + b == b;
    } else {
      assert (a + b)[0] == a[0] && (a + b)[1..] == a[1..] + b;
      SubmissionsOfAppend(a[1..], b, userId);
    }
  }

  /** The submissions that name a question whose correct answer they chose. */
  function CorrectCount(subs: seq<Submission>, answers: map<int, string>): (n: nat)
    ensures n <= |subs|
  {
    if subs == [] then 0
    else
      var last := subs[|subs| - 1];
      CorrectCount(subs[..|subs| - 1], answers)
        + (if last.questionId.Some? && IsCorrect(last.option, last.questionId.value, answers) then 1 else 0)
  }

  /** The `forEach` counter over one user's submissions. */
  method CountCorrectAnswers(subs: seq<Submission>, answers: map<int, string>) returns (n: nat)
    ensures n == CorrectCount(subs, answers)
  {
    n := 0;
    var i := 0;
    while i < |subs|
      invariant 0 <= i <= |subs|
      invariant n == CorrectCount(subs[..i], answers)
    {
      assert subs[..i + 1][..i] == subs[..i];
      if subs[i].questionId.Some? && IsCorrect(subs[i].option, subs[i].questionId.value, answers) {
        n := n + 1;
      }
      i := i + 1;
    }
    assert subs[..i] == subs;
  }

  /** One user's leaderboard entry: 10 points per correct answer, and the accuracy over everything answered. */
  function EntryFor(user: UserRow, all: seq<Submission>, answers: map<int, string>): (e: LeaderboardEntry)
    ensures e.score == 10 * e.correctAnswers && e.correctAnswers <= e.totalAnswered
    ensures 0.0 <= e.accuracy <= 100.0
    ensures e.totalAnswered == 0 ==> e.accuracy == 0.0
    ensures e.userId == user.id && e.name == user.name && e.email == user.email && e.school == user.school
    ensures e.totalAnswered == |SubmissionsOf(all, user.id)|
    ensures e.correctAnswers == CorrectCount(SubmissionsOf(all, user.id), answers)
    ensures e.accuracy == Percentage(e.correctAnswers, e.totalAnswered)
  {
    var mine := SubmissionsOf(all, user.id);
    var correct := CorrectCount(mine, answers);
    PercentageBounds(correct, |mine|);
    LeaderboardEntry(user.id, user.name, user.email, user.school, |mine|, correct, Percentage(correct, |mine|), correct * 10)
  }

  /** `b.score - a.score`: a higher score comes first. */
  predicate ByScoreDesc(a: LeaderboardEntry, b: LeaderboardEntry) {
    a.score >= b.score
  }

  lemma ByScoreDescIsTotalPreorder()
    ensures TotalPreorder(ByScoreDesc)
  {
  }

  /** `map((user, index) => ({...user, rank: index + 1}))`. */
  function Ranked(entries: seq<LeaderboardEntry>): (r: seq<RankedEntry>)
    ensures |r| == |entries|
    ensures forall k :: 0 <= k < |r| ==> r[k] == RankedEntry(entries[k], k + 1)
  {
    seq(|entries|, k requires 0 <= k < |entries| => RankedEntry(entries[k], k + 1))
  }

  /** The body of the per-user callback: filter the user's submissions and count the right ones. */
  method ScoreUser(user: UserRow, all: seq<Submission>, answers: map<int, string>) returns (entry: LeaderboardEntry)
    ensures entry == EntryFor(user, all, answers)
  {
    var mine := SubmissionsOf(all, user.id);
    var correct := CountCorrectAnswers(mine, answers);
    entry := LeaderboardEntry(user.id, user.name, user.email, user.school, |mine|, correct, Percentage(correct, |mine|), correct * 10);
  }

  /** The `Promise.all(allUsers.map(...))` step: one entry per user, in the users query's order. */
  method BuildEntries(users: seq<UserRow>, all: seq<Submission>, answers: map<int, string>) returns (entries: seq<LeaderboardEntry>)
    ensures entries == Entries(users, all, answers)
  {
    entries := [];
    var i := 0;
    while i < |users|
      invariant 0 <= i <= |users|
      invariant |entries| == i
      invariant forall k :: 0 <= k < i ==> entries[k] == EntryFor(users[k], all, answers)
    {
      var entry := ScoreUser(users[i], all, answers);
      entries := entries + [entry];
      i := i + 1;
    }
  }

  lemma SortedEntriesComeFromInput(entries: seq<LeaderboardEntry>)
    ensures forall k :: 0 <= k < |entries| ==> SortBy(entries, ByScoreDesc)[k] in entries
  {
    var sorted := SortBy(entries, ByScoreDesc);
    forall k | 0 <= k < |sorted| ensures sorted[k] in entries {
      assert sorted[k] in multiset(entries);
    }
  }

  /**
   * `getLeaderboard`: one entry per user in the users query's order, sorted
   * by score, highest first, with ties kept in that order, then ranked 1, 2, …
   */
  method GetLeaderboard(users: seq<UserRow>, all: seq<Submission>, rows: seq<CorrectAnswerRow>) returns (board: seq<RankedEntry>)
    ensures |board| == |users|
    ensures forall k :: 0 <= k < |board| ==> board[k].rank == k + 1
    ensures forall i, j :: 0 <= i < j < |board| ==> board[i].entry.score >= board[j].entry.score
    ensures forall k :: 0 <= k < |board| ==> board[k].entry in Entries(users, all, AnswerMap(rows))
    ensures board == Ranked(SortBy(Entries(users, all, AnswerMap(rows)), ByScoreDesc))
  {
    var answers := BuildAnswerMap(rows);
    var entries := BuildEntries(users, all, answers);
    var sorted := SortBy(entries, ByScoreDesc);
    ByScoreDescIsTotalPreorder();
    SortBySorted(entries, ByScoreDesc);
    SortedEntriesComeFromInput(entries);
    board := Ranked(sorted);
  }

  /** The entries of the users, in their order. */
  function Entries(users: seq<UserRow>, all: seq<Submission>, answers: map<int, string>): (r: seq<LeaderboardEntry>)
    ensures |r| == |users|
    ensures forall k :: 0 <= k < |users| ==> r[k] == EntryFor(users[k], all, answers)
  {
    seq(|users|, k requires 0 <= k < |users| => EntryFor(users[k], all, answers))
  }

  /** Users with equal scores keep the order in which the users query returned them. */
  lemma LeaderboardTiesKeepUserOrder(users: seq<UserRow>, all: seq<Submission>, answers: map<int, string>, x: LeaderboardEntry)
    ensures Ties(SortBy(Entries(users, all, answers), ByScoreDesc), x, ByScoreDesc) == Ties(Entries(users, all, answers), x, ByScoreDesc)
  {
    ByScoreDescIsTotalPreorder();
    SortByStable(Entries(users, all, answers), x, ByScoreDesc);
  }
}
