/**
 * The quiz-taking screen: the list of questions with a status each, the
 * index of the question on screen, the option selected for it, and the
 * answers map keyed by question id. Each button handler reads the state of
 * the render it was created in and queues updates: a new questions list
 * (the last one queued wins), a new index, a new selection, and functional
 * updates of the answers map (which compose). `View` is one render's state;
 * the functions below give the state after a handler, and the class
 * `QuizSession` performs the same updates step by step.
 */
module QuizView {
  import opened Wrappers
  import QuestionActions
  import QuestionParser

  /** The five statuses a question can have. */
  datatype Status = NotVisited | NotAnswered | Answered | MarkedReview | AnsweredMarked

  datatype Question = Question(id: string, text: string, options: seq<QuestionActions.AnswerOption>, status: Status, userAnswer: Option<string>)

  /** A question as `getAllQuestions` returns it. */
  datatype Fetched = Fetched(id: string, text: string, options: seq<QuestionActions.AnswerOption>)

  datatype View = View(questions: seq<Question>, current: int, selected: string, answers: map<string, string>)

  /** `q.userAnswer || ''`. */
  function AnswerShown(q: Question): string {
    match q.userAnswer
    case None => ""
    case Some(a) => a
  }

  predicate OnScreen(v: View) {
    0 <= v.current < |v.questions|
  }

  predicate IdsDistinct(qs: seq<Question>) {
    forall i, j :: 0 <= i < j < |qs| ==> qs[i].id != qs[j].id
  }

  /** The answers map holds exactly the questions with a non-empty stored answer, with that answer. */
  predicate AnswersAgree(qs: seq<Question>, answers: map<string, string>) {
    forall i :: 0 <= i < |qs| ==>
      (qs[i].id in answers <==> AnswerShown(qs[i]) != "") && (qs[i].id in answers ==> answers[qs[i].id] == AnswerShown(qs[i]))
  }

  /**
   * What the screen keeps true between clicks: the index is on a question,
   * ids are distinct, the answers map agrees with the stored answers, and a
   * question whose answer is in the map shows a selection.
   */
  predicate Consistent(v: View) {
    && OnScreen(v)
    && IdsDistinct(v.questions)
    && AnswersAgree(v.questions, v.answers)
    && (v.questions[v.current].id in v.answers ==> v.selected != "")
  }

  // ---------------------------------------------------------------- loading

  /** The statuses given on load: the first question is `not-answered`, every other `not-visited`, and no answer is stored. */
  function Initialised(fetched: seq<Fetched>): (r: seq<Question>)
    ensures |r| == |fetched|
    ensures forall i :: 0 <= i < |fetched| ==>
      r[i] == Question(fetched[i].id, fetched[i].text, fetched[i].options, if i == 0 then NotAnswered else NotVisited, None)
  {
    seq(|fetched|, i requires 0 <= i < |fetched| =>
      Question(fetched[i].id, fetched[i].text, fetched[i].options, if i == 0 then NotAnswered else NotVisited, None))
  }

  /** `fetchQuestions`: a successful reply carrying a list is initialised, anything else becomes the error shown. */
  function FetchOutcome(success: bool, questions: Option<seq<Fetched>>, error: string): (r: Result<seq<Question>, string>)
    ensures r.Success? <==> success && questions.Some?
    ensures r.Success? ==> r.value == Initialised(questions.value)
    ensures r.Failure? ==> r.error == (if error != "" then error else "Failed to fetch questions")
  {
    if success && questions.Some? then Success(Initialised(questions.value))
    else Failure(if error != "" then error else "Failed to fetch questions")
  }

  /** The screen right after loading. */
  function Loaded(fetched: seq<Fetched>): (r: View)
    ensures r.current == 0 && r.selected == "" && r.answers == map[]
    ensures |r.questions| == |fetched|
    ensures forall i :: 0 <= i < |fetched| ==> r.questions[i].id == fetched[i].id && r.questions[i].userAnswer.None?
  {
    View(Initialised(fetched), 0, "", map[])
  }

  /** A freshly loaded, non-empty quiz with distinct ids is consistent. */
  lemma LoadedIsConsistent(fetched: seq<Fetched>)
    requires |fetched| > 0
    requires forall i, j :: 0 <= i < j < |fetched| ==> fetched[i].id != fetched[j].id
    ensures Consistent(Loaded(fetched))
  {
  }

  // ---------------------------------------------------------------- the handlers

  /** The status a navigation saves: answered exactly when something is selected. */
  function NavStatus(selected: string): Status {
    if selected != "" then Answered else NotAnswered
  }

  /** `saveCurrentQuestionState(status)`. */
  function Saved(v: View, status: Status): (r: View)
    requires OnScreen(v)
    ensures r.current == v.current && r.selected == v.selected && |r.questions| == |v.questions|
  {
    var q := v.questions[v.current];
    v.(questions := v.questions[v.current := q.(status := status, userAnswer := Some(v.selected))],
       answers := if v.selected != "" then v.answers[q.id := v.selected] else v.answers)
  }

  /** `handleNavigation(direction)`: outside the list nothing happens. */
  function Navigated(v: View, next: bool): (r: View)
    requires OnScreen(v)
    ensures OnScreen(r)
  {
    var target := if next then v.current + 1 else v.current - 1;
    if 0 <= target < |v.questions| then
      Saved(v, NavStatus(v.selected)).(current := target, selected := AnswerShown(v.questions[target]))
    else v
  }

  /** `handleSaveAndNext`: with no selection only a warning is shown. */
  function SavedAndNext(v: View): (r: View)
    requires OnScreen(v)
    ensures OnScreen(r)
  {
    if v.selected == "" then v
    else
      var saved := Saved(v, Answered);
      if v.current + 1 < |v.questions| then Navigated(v.(answers := saved.answers), true) else saved
  }

  /** `handleClear`. */
  function Cleared(v: View): (r: View)
    requires OnScreen(v)
    ensures OnScreen(r)
  {
    var q := v.questions[v.current];
    View(v.questions[v.current := q.(status := NotAnswered, userAnswer := None)], v.current, "", v.answers - {q.id})
  }

  function MarkStatus(saveAnswer: bool): Status {
    if saveAnswer then AnsweredMarked else MarkedReview
  }

  /**
   * `handleMarkForReview(saveAnswer)` as written: the marked list is queued,
   * then the navigation queues its own save, built from the same render's
   * list, which replaces it whenever there is a next question.
   */
  function MarkedForReview(v: View, saveAnswer: bool): (r: View)
    requires OnScreen(v)
    ensures OnScreen(r)
  {
    var marked := Saved(v, MarkStatus(saveAnswer));
    if v.current + 1 < |v.questions| then Navigated(v.(answers := marked.answers), true) else marked
  }

  /** Mark for review as intended: the mark is saved and the next question is shown. */
  function MarkedForReviewIntended(v: View, saveAnswer: bool): (r: View)
    requires OnScreen(v)
    ensures OnScreen(r)
  {
    var marked := Saved(v, MarkStatus(saveAnswer));
    var target := v.current + 1;
    if target < |v.questions| then marked.(current := target, selected := AnswerShown(v.questions[target])) else marked
  }

  /** Choosing an option. */
  function Selected(v: View, answer: string): View {
    v.(selected := answer)
  }

  /** A palette click as written: only the index changes, the selection stays. */
  function Jumped(v: View, index: int): (r: View)
    requires 0 <= index < |v.questions|
    ensures OnScreen(r) && r.current == index
    ensures r.questions == v.questions && r.answers == v.answers
    ensures r.selected == v.selected
  {
    v.(current := index)
  }

  /** A palette click as intended: the target's stored answer is shown, as navigation does. */
  function JumpedIntended(v: View, index: int): (r: View)
    requires 0 <= index < |v.questions|
    ensures OnScreen(r) && r.current == index
    ensures r.questions == v.questions && r.answers == v.answers
    ensures r.selected == AnswerShown(v.questions[index])
  {
    v.(current := index, selected := AnswerShown(v.questions[index]))
  }

  // ---------------------------------------------------------------- what the handlers do

  /** Saving changes the question on screen only, and the answers map only when something is selected. */
  lemma SaveTouchesOnlyCurrent(v: View, status: Status)
    requires OnScreen(v)
    ensures var r := Saved(v, status);
      && r.questions[v.current].status == status
      && AnswerShown(r.questions[v.current]) == v.selected
      && (forall j :: 0 <= j < |v.questions| && j != v.current ==> r.questions[j] == v.questions[j])
      && (v.selected == "" ==> r.answers == v.answers)
      && (v.selected != "" ==> r.answers == v.answers[v.questions[v.current].id := v.selected])
  {
  }

  /** Navigation past either end changes nothing. */
  lemma NavigationOutsideIsNoop(v: View)
    requires OnScreen(v)
    ensures v.current == 0 ==> Navigated(v, false) == v
    ensures v.current == |v.questions| - 1 ==> Navigated(v, true) == v
  {
  }

  /** Navigation inside the list saves the question left and shows the target with its stored answer. */
  lemma NavigationSavesAndLoads(v: View, next: bool)
    requires OnScreen(v)
    requires var t := if next then v.current + 1 else v.current - 1; 0 <= t < |v.questions|
    ensures var t := if next then v.current + 1 else v.current - 1;
      var r := Navigated(v, next);
      && r.current == t
      && r.selected == AnswerShown(v.questions[t])
      && r.questions[t] == v.questions[t]
      && r.questions[v.current].status == (if v.selected != "" then Answered else NotAnswered)
  {
  }

  /** Save & Next with nothing selected changes nothing. */
  lemma SaveAndNextNeedsAnswer(v: View)
    requires OnScreen(v) && v.selected == ""
    ensures SavedAndNext(v) == v
  {
  }

  /** Save & Next with a selection stores it as answered and moves on when it can. */
  lemma SaveAndNextStoresAnswer(v: View)
    requires OnScreen(v) && v.selected != ""
    ensures var r := SavedAndNext(v);
      && r.questions[v.current].status == Answered
      && r.answers == v.answers[v.questions[v.current].id := v.selected]
      && r.current == (if v.current + 1 < |v.questions| then v.current + 1 else v.current)
  {
  }

  /** Clearing unselects, marks the question not answered, forgets its stored answer and removes it from the map. */
  lemma ClearForgetsAnswer(v: View)
    requires OnScreen(v)
    ensures var r := Cleared(v);
      && r.selected == ""
      && r.questions[v.current].status == NotAnswered
      && r.questions[v.current].userAnswer.None?
      && v.questions[v.current].id !in r.answers
      && (forall k :: k in v.answers && k != v.questions[v.current].id ==> k in r.answers && r.answers[k] == v.answers[k])
  {
  }

  /**
   * As written, marking a question that has a next one does exactly what
   * plain navigation does: the mark is lost.
   */
  lemma MarkForReviewIsPlainNavigation(v: View, saveAnswer: bool)
    requires OnScreen(v) && v.current + 1 < |v.questions|
    ensures MarkedForReview(v, saveAnswer) == Navigated(v, true)
    ensures MarkedForReview(v, saveAnswer).questions[v.current].status == NavStatus(v.selected)
  {
  }

  /** On the last question the mark does stick, and the screen stays there. */
  lemma MarkOnLastQuestionSticks(v: View, saveAnswer: bool)
    requires OnScreen(v) && v.current + 1 == |v.questions|
    ensures MarkedForReview(v, saveAnswer) == Saved(v, MarkStatus(saveAnswer))
  {
  }

  /** As intended, the mark is kept, the selection stored, and the next question shown. */
  lemma MarkForReviewIntendedKeepsMark(v: View, saveAnswer: bool)
    requires OnScreen(v)
    ensures var r := MarkedForReviewIntended(v, saveAnswer);
      && r.questions[v.current].status == (if saveAnswer then AnsweredMarked else MarkedReview)
      && AnswerShown(r.questions[v.current]) == v.selected
      && r.current == (if v.current + 1 < |v.questions| then v.current + 1 else v.current)
      && (v.current + 1 < |v.questions| ==> r.selected == AnswerShown(v.questions[v.current + 1]))
  {
  }

  // ---------------------------------------------------------------- consistency

  /** A save keeps the answers map in agreement with the stored answers. */
  lemma SavedKeepsAgreement(v: View, status: Status)
    requires Consistent(v)
    ensures IdsDistinct(Saved(v, status).questions) && AnswersAgree(Saved(v, status).questions, Saved(v, status).answers)
  {
    var r := Saved(v, status);
    var c := v.current;
    var id := v.questions[c].id;
    forall i | 0 <= i < |r.questions|
      ensures (r.questions[i].id in r.answers <==> AnswerShown(r.questions[i]) != "")
      ensures (r.questions[i].id in r.answers ==> r.answers[r.questions[i].id] == AnswerShown(r.questions[i]))
    {
      if i != c {
        assert r.questions[i] == v.questions[i];
        assert v.questions[i].id != id;
      }
    }
    assert forall i, j :: 0 <= i < j < |r.questions| ==> r.questions[i].id == v.questions[i].id && r.questions[j].id == v.questions[j].id;
  }

  /** Showing question `t` with its stored answer keeps the screen consistent. */
  lemma ShowKeepsConsistent(v: View, t: int)
    requires OnScreen(v) && IdsDistinct(v.questions) && AnswersAgree(v.questions, v.answers)
    requires 0 <= t < |v.questions|
    ensures Consistent(v.(current := t, selected := AnswerShown(v.questions[t])))
  {
  }

  lemma NavigatedKeepsConsistent(v: View, next: bool)
    requires Consistent(v)
    ensures Consistent(Navigated(v, next))
  {
    var t := if next then v.current + 1 else v.current - 1;
    if 0 <= t < |v.questions| {
      var s := Saved(v, NavStatus(v.selected));
      SavedKeepsAgreement(v, NavStatus(v.selected));
      assert s.questions[t] == v.questions[t];
      ShowKeepsConsistent(s, t);
    }
  }

  lemma SavedAndNextKeepsConsistent(v: View)
    requires Consistent(v)
    ensures Consistent(SavedAndNext(v))
  {
    if v.selected != "" {
      SavedKeepsAgreement(v, Answered);
      if v.current + 1 < |v.questions| {
        assert v.(answers := Saved(v, Answered).answers) == v.(answers := v.answers[v.questions[v.current].id := v.selected]);
        NavigatedKeepsConsistent(v.(answers := v.answers), true);
        assert Navigated(v.(answers := Saved(v, Answered).answers), true) == Navigated(v, true);
      }
    }
  }

  lemma ClearedKeepsConsistent(v: View)
    requires Consistent(v)
    ensures Consistent(Cleared(v))
  {
    var r := Cleared(v);
    var c := v.current;
    forall i | 0 <= i < |r.questions|
      ensures (r.questions[i].id in r.answers <==> AnswerShown(r.questions[i]) != "")
      ensures (r.questions[i].id in r.answers ==> r.answers[r.questions[i].id] == AnswerShown(r.questions[i]))
    {
      if i != c {
        assert r.questions[i] == v.questions[i];
        assert v.questions[i].id != v.questions[c].id;
      }
    }
    assert forall i, j :: 0 <= i < j < |r.questions| ==> r.questions[i].id == v.questions[i].id && r.questions[j].id == v.questions[j].id;
  }

  lemma MarkedForReviewKeepsConsistent(v: View, saveAnswer: bool)
    requires Consistent(v)
    ensures Consistent(MarkedForReview(v, saveAnswer))
    ensures Consistent(MarkedForReviewIntended(v, saveAnswer))
  {
    var m := Saved(v, MarkStatus(saveAnswer));
    SavedKeepsAgreement(v, MarkStatus(saveAnswer));
    if v.current + 1 < |v.questions| {
      MarkForReviewIsPlainNavigation(v, saveAnswer);
      NavigatedKeepsConsistent(v, true);
      assert m.questions[v.current + 1] == v.questions[v.current + 1];
      ShowKeepsConsistent(m, v.current + 1);
    }
  }

  /** Choosing a (non-empty) option keeps the screen consistent. */
  lemma SelectedKeepsConsistent(v: View, answer: string)
    requires Consistent(v) && answer != ""
    ensures Consistent(Selected(v, answer))
  {
  }

  /** The intended palette click keeps the screen consistent. */
  lemma JumpedIntendedKeepsConsistent(v: View, index: int)
    requires Consistent(v) && 0 <= index < |v.questions|
    ensures Consistent(JumpedIntended(v, index))
  {
  }

  /**
   * As written, a palette click keeps the previous question's selection: from
   * an unanswered question, jumping to one answered with "B" and pressing Next
   * shows that question as not answered while the answers map still holds "B".
   */
  lemma PaletteJumpLeavesStaleAnswer()
    ensures var q1 := Question("q1", "first", [], Answered, Some("B"));
      var q2 := Question("q2", "second", [], NotAnswered, None);
      var v := View([q1, q2], 1, "", map["q1" := "B"]);
      var r := Navigated(Jumped(v, 0), true);
      && Consistent(v)
      && r.questions[0].status == NotAnswered && AnswerShown(r.questions[0]) == ""
      && r.answers["q1"] == "B"
      && !AnswersAgree(r.questions, r.answers)
  {
    var q1 := Question("q1", "first", [], Answered, Some("B"));
    var q2 := Question("q2", "second", [], NotAnswered, None);
    var v := View([q1, q2], 1, "", map["q1" := "B"]);
    var r := Navigated(Jumped(v, 0), true);
    assert r.questions[0] == q1.(status := NotAnswered, userAnswer := Some(""));
    assert r.questions[0].id in r.answers && AnswerShown(r.questions[0]) == "";
  }

  // ---------------------------------------------------------------- unanswered count

  predicate Unanswered(q: Question) {
    q.status == NotVisited || q.status == NotAnswered
  }

  /** The number of `not-visited` and `not-answered` questions, asked about before submitting. */
  function UnansweredCount(qs: seq<Question>): (n: nat)
    ensures n <= |qs|
  {
    if qs == [] then 0 else (if Unanswered(qs[0]) then 1 else 0) + UnansweredCount(qs[1..])
  }

  function Indicator(b: bool): nat { if b then 1 else 0 }

  /** Replacing one question changes the count by what the old and the new question contribute. */
  lemma {:induction false} UnansweredCountUpdate(qs: seq<Question>, i: nat, q: Question)
    requires i < |qs|
    ensures UnansweredCount(qs[i := q]) + Indicator(Unanswered(qs[i])) == UnansweredCount(qs) + Indicator(Unanswered(q))
    decreases i
  {
    if i == 0 {
      assert qs[i := q][1..] == qs[1..];
    } else {
      assert qs[i := q][1..] == qs[1..][i - 1 := q];
      UnansweredCountUpdate(qs[1..], i - 1, q);
    }
  }

  /** When every question is unanswered, the count is the length. */
  lemma {:induction false} AllUnansweredCount(qs: seq<Question>)
    requires forall i :: 0 <= i < |qs| ==> Unanswered(qs[i])
    ensures UnansweredCount(qs) == |qs|
  {
    if qs != [] {
      AllUnansweredCount(qs[1..]);
    }
  }

  /** Right after loading, every question counts as unanswered. */
  lemma LoadedAllUnanswered(fetched: seq<Fetched>)
    ensures UnansweredCount(Initialised(fetched)) == |fetched|
  {
    AllUnansweredCount(Initialised(fetched));
  }

  /** Answering an unanswered question with Save & Next lowers the count by exactly one. */
  lemma SaveAndNextCountsOneAnswer(v: View)
    requires OnScreen(v) && v.selected != "" && Unanswered(v.questions[v.current])
    ensures UnansweredCount(SavedAndNext(v).questions) == UnansweredCount(v.questions) - 1
  {
    var q := v.questions[v.current];
    UnansweredCountUpdate(v.questions, v.current, q.(status := Answered, userAnswer := Some(v.selected)));
    SaveAndNextStoresAnswer(v);
    assert SavedAndNext(v).questions == v.questions[v.current := q.(status := Answered, userAnswer := Some(v.selected))];
  }

  // ---------------------------------------------------------------- option letters

  /** `OptionsMapping`: option ids 1..4 shown as letters. */
  const OPTIONS_MAPPING: map<int, string> := map[1 := "A", 2 := "B", 3 := "C", 4 := "D"]

  /** The letters shown are the inverse of the importer's letter-to-id map, in both directions. */
  lemma OptionsMappingInvertsOptionMap()
    ensures forall c :: c in QuestionParser.OPTION_MAP ==> QuestionParser.OPTION_MAP[c] in OPTIONS_MAPPING && OPTIONS_MAPPING[QuestionParser.OPTION_MAP[c]] == [c]
    ensures forall n :: n in OPTIONS_MAPPING <==> 1 <= n <= 4
    ensures forall n :: n in OPTIONS_MAPPING ==> |OPTIONS_MAPPING[n]| == 1 && QuestionParser.OPTION_MAP[OPTIONS_MAPPING[n][0]] == n
  {
  }

  // ---------------------------------------------------------------- the component state

  /** The component's state; each handler receives the render's snapshot it closed over. */
  class QuizSession {
    var questions: seq<Question>
    var current: int
    var selected: string
    var answers: map<string, string>

    function State(): View
      reads this
    {
      View(questions, current, selected, answers)
    }

    /** The screen once `fetchQuestions` has succeeded. */
    constructor(fetched: seq<Fetched>)
      ensures State() == Loaded(fetched)
    {
      questions := Initialised(fetched);
      current := 0;
      selected := "";
      answers := map[];
    }

    /** `saveCurrentQuestionState(status)` in the render whose state is `snapshot`. */
    method SaveCurrentQuestionState(snapshot: View, status: Status)
      requires OnScreen(snapshot)
      modifies this
      ensures questions == Saved(snapshot, status).questions
      ensures answers == (if snapshot.selected != "" then old(answers)[snapshot.questions[snapshot.current].id := snapshot.selected] else old(answers))
      ensures current == old(current) && selected == old(selected)
    {
      var updated := snapshot.questions;
      var q := updated[snapshot.current];
      updated := updated[snapshot.current := q.(status := status, userAnswer := Some(snapshot.selected))];
      questions := updated;
      if snapshot.selected != "" {
        answers := answers[q.id := snapshot.selected];
      }
    }

    /** `handleNavigation(direction)` in the render holding `snapshot`. */
    method HandleNavigation(snapshot: View, next: bool)
      requires OnScreen(snapshot)
      modifies this
      ensures var t := if next then snapshot.current + 1 else snapshot.current - 1;
        if 0 <= t < |snapshot.questions| then
          State() == Navigated(snapshot.(answers := old(answers)), next)
        else State() == old(State())
    {
      var newIndex := if next then snapshot.current + 1 else snapshot.current - 1;
      if 0 <= newIndex < |snapshot.questions| {
        SaveCurrentQuestionState(snapshot, NavStatus(snapshot.selected));
        current := newIndex;
        selected := AnswerShown(snapshot.questions[newIndex]);
      }
    }

    method HandleSaveAndNext() returns (warned: bool)
      requires OnScreen(State())
      modifies this
      ensures warned <==> old(selected) == ""
      ensures State() == SavedAndNext(old(State()))
    {
      var snapshot := State();
      if snapshot.selected != "" {
        SaveCurrentQuestionState(snapshot, Answered);
        HandleNavigation(snapshot, true);
        warned := false;
      } else {
        warned := true;
      }
    }

    method HandleClear()
      requires OnScreen(State())
      modifies this
      ensures State() == Cleared(old(State()))
    {
      var q := questions[current];
      selected := "";
      questions := questions[current := q.(status := NotAnswered, userAnswer := None)];
      answers := answers - {q.id};
    }

    /** `handleMarkForReview(saveAnswer)` as written. */
    method HandleMarkForReview(saveAnswer: bool)
      requires OnScreen(State())
      modifies this
      ensures State() == MarkedForReview(old(State()), saveAnswer)
    {
      var snapshot := State();
      SaveCurrentQuestionState(snapshot, MarkStatus(saveAnswer));
      HandleNavigation(snapshot, true);
    }

    /** Mark for review as intended: navigation does not save over the mark. */
    method HandleMarkForReviewIntended(saveAnswer: bool)
      requires OnScreen(State())
      modifies this
      ensures State() == MarkedForReviewIntended(old(State()), saveAnswer)
    {
      var snapshot := State();
      SaveCurrentQuestionState(snapshot, MarkStatus(saveAnswer));
      if snapshot.current + 1 < |snapshot.questions| {
        current := snapshot.current + 1;
        selected := AnswerShown(snapshot.questions[snapshot.current + 1]);
      }
    }

    method SelectAnswer(answer: string)
      modifies this
      ensures State() == Selected(old(State()), answer)
    {
      selected := answer;
    }

    /** A palette click as written. */
    method JumpTo(index: int)
      requires 0 <= index < |questions|
      modifies this
      ensures State() == Jumped(old(State()), index)
    {
      current := index;
    }

    /** A palette click as intended. */
    method JumpToIntended(index: int)
      requires 0 <= index < |questions|
      modifies this
      ensures State() == JumpedIntended(old(State()), index)
    {
      current := index;
      selected := AnswerShown(questions[index]);
    }
  }
}
