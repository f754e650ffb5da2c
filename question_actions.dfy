/**
 * The document-store question actions: adding a question (duplicate text is
 * refused before the options are looked at), updating one in place (the
 * fetched document's fields are assigned, then its correct answer is
 * upserted), and the formatting that gives stored options without an id the
 * id `index + 1`. The two collections are the fields of a store object.
 */
module QuestionActions {
  import opened Wrappers
  import QuizActions
  import PyRandom

  /** An option as the question form and the `options` array of a question document hold it. */
  datatype AnswerOption = AnswerOption(id: int, text: string)

  datatype QuestionDoc = QuestionDoc(text: string, options: seq<AnswerOption>, subject: string)

  /** `options.map(o => o.text.trim().toLowerCase())`. */
  function NormalisedTexts(options: seq<AnswerOption>): (r: seq<string>)
    ensures |r| == |options|
    ensures forall i :: 0 <= i < |options| ==> r[i] == QuizActions.Normalise(options[i].text)
  {
    if options == [] then [] else [QuizActions.Normalise(options[0].text)] + NormalisedTexts(options[1..])
  }

  /** `new Set(texts).size === texts.length` on the normalised option texts. */
  predicate OptionTextsUnique(options: seq<AnswerOption>) {
    |QuizActions.Elements(NormalisedTexts(options))| == |options|
  }

  /** The uniqueness check accepts exactly the option lists in which no two texts agree once trimmed and lower-cased. */
  lemma OptionTextsUniqueMeansPairwise(options: seq<AnswerOption>)
    ensures OptionTextsUnique(options) <==>
      forall i, j :: 0 <= i < j < |options| ==> QuizActions.Normalise(options[i].text) != QuizActions.Normalise(options[j].text)
  {
    var ts := NormalisedTexts(options);
    QuizActions.ElementsSize(ts);
    assert OptionTextsUnique(options) <==> PyRandom.Distinct(ts);
    assert PyRandom.Distinct(ts) <==> forall i, j :: 0 <= i < j < |ts| ==> ts[i] != ts[j];
  }

  /** `options.some(o => o.id === id)`. */
  predicate HasOptionId(options: seq<AnswerOption>, id: int) {
    exists i :: 0 <= i < |options| && options[i].id == id
  }

  /** `Question.findOne({ text })` finds a document. */
  predicate TextStored(questions: map<string, QuestionDoc>, text: string) {
    exists id :: id in questions && questions[id].text == text
  }

  /**
   * The checks of `addQuestion`, in order: duplicate text, then unique
   * option texts, then a correct option id that names an option. `duplicate`
   * is whether the text lookup found a document.
   */
  function CheckNewQuestion(duplicate: bool, options: seq<AnswerOption>, correctOptionId: int): (err: Option<string>)
    ensures err.None? <==> !duplicate && OptionTextsUnique(options) && HasOptionId(options, correctOptionId)
    ensures duplicate ==> err == Some("This question already exists")
  {
    if duplicate then Some("This question already exists")
    else if !OptionTextsUnique(options) then Some("All options must be unique for each question.")
    else if !HasOptionId(options, correctOptionId) then Some("Correct option ID is not valid.")
    else None
  }

  /** The checks of `updateQuestion` on the new options, in order. */
  function CheckUpdate(options: seq<AnswerOption>, correctOptionId: int): (err: Option<string>)
    ensures err.None? <==> OptionTextsUnique(options) && HasOptionId(options, correctOptionId)
    ensures !OptionTextsUnique(options) ==> err == Some("All options must be unique for each question.")
  {
    if !OptionTextsUnique(options) then Some("All options must be unique for each question.")
    else if !HasOptionId(options, correctOptionId) then Some("Correct option ID is not valid.")
    else None
  }

  /** A duplicate text is reported whatever is wrong with the options. */
  lemma DuplicateTextReportedFirst(options: seq<AnswerOption>, correctOptionId: int)
    ensures CheckNewQuestion(true, options, correctOptionId) == Some("This question already exists")
    ensures !CheckNewQuestion(false, options, correctOptionId).Some? ==> CheckUpdate(options, correctOptionId).None?
  {
  }

  /** What a stored question promises: its option texts are unique and its correct answer names one of its options. */
  predicate WellFormed(doc: QuestionDoc, correctOptionId: int) {
    OptionTextsUnique(doc.options) && HasOptionId(doc.options, correctOptionId)
  }

  /** Every question has exactly one correct answer, and each stored question is well formed. */
  ghost predicate StoreValid(questions: map<string, QuestionDoc>, correctAnswers: map<string, int>) {
    && questions.Keys == correctAnswers.Keys
    && forall id :: id in questions ==> WellFormed(questions[id], correctAnswers[id])
  }

  /** Storing a well-formed question with its answer keeps the collections valid. */
  lemma PutKeepsValid(questions: map<string, QuestionDoc>, correctAnswers: map<string, int>, id: string, doc: QuestionDoc, answer: int)
    requires StoreValid(questions, correctAnswers)
    requires WellFormed(doc, answer)
    ensures StoreValid(questions[id := doc], correctAnswers[id := answer])
  {
    var qs, cs := questions[id := doc], correctAnswers[id := answer];
    assert qs.Keys == cs.Keys;
    forall k | k in qs ensures WellFormed(qs[k], cs[k]) {
      if k == id {
        assert qs[k] == doc && cs[k] == answer;
      } else {
        assert qs[k] == questions[k] && cs[k] == correctAnswers[k];
        StoredIsWellFormed(questions, correctAnswers, k);
      }
    }
  }

  lemma StoredIsWellFormed(questions: map<string, QuestionDoc>, correctAnswers: map<string, int>, k: string)
    requires StoreValid(questions, correctAnswers) && k in questions
    ensures WellFormed(questions[k], correctAnswers[k])
  {
  }

  /** The `questions` and `correctanswers` collections, keyed by question id. */
  class QuestionStore {
    var questions: map<string, QuestionDoc>
    var correctAnswers: map<string, int>

    ghost predicate Valid()
      reads this
    {
      StoreValid(questions, correctAnswers)
    }

    constructor()
      ensures Valid()
      ensures questions == map[] && correctAnswers == map[]
    {
      questions := map[];
      correctAnswers := map[];
    }

    /**
     * `addQuestion`: when the checks pass, the question document is saved
     * under the id the database assigns (`newId`), then its correct answer.
     */
    method AddQuestion(newId: string, text: string, options: seq<AnswerOption>, correctOptionId: int, subject: string)
      returns (r: Result<string, string>)
      requires newId !in questions && newId !in correctAnswers
      requires Valid()
      modifies this
      ensures Valid()
      ensures r.Failure? <==> CheckNewQuestion(TextStored(old(questions), text), options, correctOptionId).Some?
      ensures r.Failure? ==> r.error == CheckNewQuestion(TextStored(old(questions), text), options, correctOptionId).value
                              && questions == old(questions) && correctAnswers == old(correctAnswers)
      ensures r.Success? ==> r.value == "Question added successfully"
                              && questions == old(questions)[newId := QuestionDoc(text, options, subject)]
                              && correctAnswers == old(correctAnswers)[newId := correctOptionId]
    {
      var err := CheckNewQuestion(TextStored(questions, text), options, correctOptionId);
      if err.Some? {
        return Failure(err.value);
      }
      PutKeepsValid(questions, correctAnswers, newId, QuestionDoc(text, options, subject), correctOptionId);
      questions := questions[newId := QuestionDoc(text, options, subject)];
      correctAnswers := correctAnswers[newId := correctOptionId];
      r := Success("Question added successfully");
    }

    /**
     * `updateQuestion`: the fetched document takes the new text, options and
     * subject, and the correct answer is updated or inserted. Unlike adding,
     * updating does not look for another question with the same text.
     */
    method UpdateQuestion(questionId: string, newText: string, newOptions: seq<AnswerOption>, newCorrectOptionId: int, newSubject: string)
      returns (r: Result<string, string>)
      requires Valid()
      modifies this
      ensures Valid()
      ensures r.Failure? <==> questionId !in old(questions) || CheckUpdate(newOptions, newCorrectOptionId).Some?
      ensures questionId !in old(questions) ==> r == Failure("Question not found")
      ensures questionId in old(questions) && CheckUpdate(newOptions, newCorrectOptionId).Some? ==>
                r == Failure(CheckUpdate(newOptions, newCorrectOptionId).value)
      ensures r.Failure? ==> questions == old(questions) && correctAnswers == old(correctAnswers)
      ensures r.Success? ==> r.value == "Question updated successfully"
                              && questions == old(questions)[questionId := QuestionDoc(newText, newOptions, newSubject)]
                              && correctAnswers == old(correctAnswers)[questionId := newCorrectOptionId]
    {
      if questionId !in questions {
        return Failure("Question not found");
      }
      var err := CheckUpdate(newOptions, newCorrectOptionId);
      if err.Some? {
        return Failure(err.value);
      }
      var doc := questions[questionId];
      doc := doc.(text := newText, options := newOptions, subject := newSubject);
      PutKeepsValid(questions, correctAnswers, questionId, doc, newCorrectOptionId);
      questions := questions[questionId := doc];
      correctAnswers := correctAnswers[questionId := newCorrectOptionId];
      r := Success("Question updated successfully");
    }
  }

  // ---------------------------------------------------------------- option formatting

  /** An element of a stored `options` array: an object (whose id may be missing) or a bare string from older data. */
  datatype StoredOption = OptionObject(id: Option<int>, text: string) | Bare(value: string)

  /**
   * The option formatting of `getAllQuestionsWithAnswers`: an object keeps a
   * truthy id (a missing id and 0 both fall back), everything else gets
   * `index + 1`; a bare string becomes the text.
   */
  function FormatOption(o: StoredOption, index: nat): (r: AnswerOption)
    ensures r.id != 0
    ensures o.OptionObject? && o.id.Some? && o.id.value != 0 ==> r == AnswerOption(o.id.value, o.text)
    ensures !(o.OptionObject? && o.id.Some? && o.id.value != 0) ==> r.id == index + 1
  {
    var id := if o.OptionObject? && o.id.Some? && o.id.value != 0 then o.id.value else index + 1;
    match o
    case OptionObject(_, text) => AnswerOption(id, text)
    case Bare(value) => AnswerOption(id, value)
  }

  function FormatOptions(opts: seq<StoredOption>): (r: seq<AnswerOption>)
    ensures |r| == |opts|
    ensures forall i :: 0 <= i < |opts| ==> r[i] == FormatOption(opts[i], i)
  {
    seq(|opts|, i requires 0 <= i < |opts| => FormatOption(opts[i], i))
  }

  /** `String(o)` for a plain object. */
  const OBJECT_STRING: string := "[object Object]"

  /**
   * The option formatting of `getAllQuestions`: an object with an `id` key is
   * passed on as it is, an id of 0 included; anything else gets `index + 1`
   * and its string conversion, which for an object without an id is
   * "[object Object]" rather than its text.
   */
  function ListOption(o: StoredOption, index: nat): (r: AnswerOption)
    ensures o.OptionObject? && o.id.Some? ==> r == AnswerOption(o.id.value, o.text)
    ensures o.Bare? ==> r == AnswerOption(index + 1, o.value)
    ensures o.OptionObject? && o.id.None? ==> r == AnswerOption(index + 1, OBJECT_STRING)
  {
    match o
    case OptionObject(id, text) => if id.Some? then AnswerOption(id.value, text) else AnswerOption(index + 1, OBJECT_STRING)
    case Bare(value) => AnswerOption(index + 1, value)
  }

  function ListOptions(opts: seq<StoredOption>): (r: seq<AnswerOption>)
    ensures |r| == |opts|
    ensures forall i :: 0 <= i < |opts| ==> r[i] == ListOption(opts[i], i)
  {
    seq(|opts|, i requires 0 <= i < |opts| => ListOption(opts[i], i))
  }

  /**
   * The two formatters agree on bare strings and on objects with a non-zero
   * id; they differ on an id of 0, and on an object without an id unless its
   * text happens to be "[object Object]".
   */
  lemma ListAndFormatAgree(o: StoredOption, index: nat)
    ensures o.Bare? || (o.id.Some? && o.id.value != 0) ==> ListOption(o, index) == FormatOption(o, index)
    ensures o.OptionObject? && o.id == Some(0) ==> ListOption(o, index) != FormatOption(o, index)
    ensures o.OptionObject? && o.id.None? ==> (ListOption(o, index) == FormatOption(o, index) <==> o.text == OBJECT_STRING)
  {
  }

  /** An option as it would be stored again. */
  function Stored(o: AnswerOption): StoredOption {
    OptionObject(Some(o.id), o.text)
  }

  /** Formatting is idempotent: options already formatted come back unchanged. */
  lemma FormatOptionsIdempotent(opts: seq<StoredOption>)
    ensures var once := FormatOptions(opts);
      FormatOptions(seq(|once|, i requires 0 <= i < |once| => Stored(once[i]))) == once
  {
  }

  /** Listing options already listed gives them back unchanged. */
  lemma ListOptionsIdempotent(opts: seq<StoredOption>)
    ensures var once := ListOptions(opts);
      ListOptions(seq(|once|, i requires 0 <= i < |once| => Stored(once[i]))) == once
  {
  }

  /** Bare strings from older data are numbered 1, 2, … in their order, with their text kept. */
  lemma BareOptionsAreNumbered(values: seq<string>)
    ensures var r := FormatOptions(seq(|values|, i requires 0 <= i < |values| => Bare(values[i])));
      forall i :: 0 <= i < |values| ==> r[i] == AnswerOption(i + 1, values[i])
  {
  }
}
