/**
 * The admin quiz control panel: a list of quizzes, each active, inactive or
 * scheduled, with a start and end time and a time limit in minutes. Every
 * action rewrites the quiz with the given id and leaves the others alone.
 * Times are milliseconds since the epoch; the clock is a parameter.
 */
module QuizControl {
  import opened Wrappers
  import opened Text

  datatype Status = Active | Inactive | Scheduled

  datatype Quiz = Quiz(id: string, title: string, status: Status, startTime: Option<int>, endTime: Option<int>, timeLimit: int)

  /** The per-quiz rewrite each panel action applies to the quiz it names. */
  datatype Action =
    | Toggle
    | Start(now: int)
    | Stop(now: int)
    | Schedule(start: int, end: int)
    | SetTimeLimit(minutes: int)

  const MINUTE: int := 60 * 1000

  /** What an action does to the quiz it is aimed at. */
  function Apply(q: Quiz, a: Action): (r: Quiz)
    ensures r.id == q.id && r.title == q.title
    ensures !a.SetTimeLimit? ==> r.timeLimit == q.timeLimit
    ensures a.SetTimeLimit? ==> r.(timeLimit := q.timeLimit) == q
  {
    match a
    case Toggle => q.(status := if q.status == Active then Inactive else Active)
    case Start(now) => q.(status := Active, startTime := Some(now), endTime := Some(now + q.timeLimit * MINUTE))
    case Stop(now) => q.(status := Inactive, endTime := Some(now))
    case Schedule(start, end) => q.(status := Scheduled, startTime := Some(start), endTime := Some(end))
    case SetTimeLimit(minutes) => q.(timeLimit := minutes)
  }

  /** `quizzes.map(quiz => quiz.id === id ? <rewritten> : quiz)`. */
  function Updated(quizzes: seq<Quiz>, id: string, a: Action): (r: seq<Quiz>)
    ensures |r| == |quizzes|
    ensures forall i :: 0 <= i < |r| ==> r[i].id == quizzes[i].id && r[i].title == quizzes[i].title
    ensures forall i :: 0 <= i < |r| && quizzes[i].id != id ==> r[i] == quizzes[i]
  {
    seq(|quizzes|, i requires 0 <= i < |quizzes| => if quizzes[i].id == id then Apply(quizzes[i], a) else quizzes[i])
  }

  /** Only quizzes with the matching id change, they change exactly as the action says, and no quiz is added or lost. */
  lemma UpdatedTouchesOnlyMatching(quizzes: seq<Quiz>, id: string, a: Action)
    ensures |Updated(quizzes, id, a)| == |quizzes|
    ensures forall i :: 0 <= i < |quizzes| && quizzes[i].id != id ==> Updated(quizzes, id, a)[i] == quizzes[i]
    ensures forall i :: 0 <= i < |quizzes| && quizzes[i].id == id ==> Updated(quizzes, id, a)[i] == Apply(quizzes[i], a)
    ensures forall i :: 0 <= i < |quizzes| ==> Updated(quizzes, id, a)[i].id == quizzes[i].id
  {
  }

  /** An id no quiz has leaves the list as it was. */
  lemma UnknownIdChangesNothing(quizzes: seq<Quiz>, id: string, a: Action)
    requires forall i :: 0 <= i < |quizzes| ==> quizzes[i].id != id
    ensures Updated(quizzes, id, a) == quizzes
  {
  }

  /** The switch: an active quiz becomes inactive and any other becomes active; nothing else about it changes. */
  lemma ToggleFlipsActive(q: Quiz)
    ensures Apply(q, Toggle).status == Active <==> q.status != Active
    ensures Apply(q, Toggle).status != Scheduled
    ensures Apply(q, Toggle).(status := q.status) == q
  {
  }

  /** Toggling twice restores an active or inactive quiz; a scheduled one ends up inactive. */
  lemma ToggleTwice(q: Quiz)
    ensures q.status != Scheduled ==> Apply(Apply(q, Toggle), Toggle) == q
    ensures q.status == Scheduled ==> Apply(Apply(q, Toggle), Toggle).status == Inactive
  {
  }

  /** Starting opens a window of exactly the time limit from now; stopping closes it now. */
  lemma StartAndStopWindow(q: Quiz, now: int, later: int)
    ensures Apply(q, Start(now)).status == Active
    ensures Apply(q, Start(now)).endTime.value - Apply(q, Start(now)).startTime.value == q.timeLimit * 60000
    ensures Apply(Apply(q, Start(now)), Stop(later)).startTime == Some(now)
    ensures Apply(Apply(q, Start(now)), Stop(later)).endTime == Some(later)
    ensures Apply(Apply(q, Start(now)), Stop(later)).status == Inactive
  {
  }

  /** Scheduling and setting the time limit are idempotent, and the last one of each kind wins. */
  lemma LastSettingWins(q: Quiz, s1: int, e1: int, s2: int, e2: int, m1: int, m2: int)
    ensures Apply(Apply(q, Schedule(s1, e1)), Schedule(s2, e2)) == Apply(q, Schedule(s2, e2))
    ensures Apply(Apply(q, SetTimeLimit(m1)), SetTimeLimit(m2)) == Apply(q, SetTimeLimit(m2))
  {
  }

  /** The start-date picker: the end is kept when set, else the start plus the time limit. */
  function StartPicked(q: Quiz, date: int): (a: Action)
    ensures a.Schedule? && a.start == date
    ensures q.endTime.Some? ==> a.end == q.endTime.value
    ensures q.endTime.None? ==> a.end - a.start == q.timeLimit * 60000
  {
    Schedule(date, if q.endTime.Some? then q.endTime.value else date + q.timeLimit * MINUTE)
  }

  /** The end-date picker: the start is kept when set, else it is now. */
  function EndPicked(q: Quiz, date: int, now: int): (a: Action)
    ensures a.Schedule? && a.end == date
    ensures a.start == if q.startTime.Some? then q.startTime.value else now
  {
    Schedule(if q.startTime.Some? then q.startTime.value else now, date)
  }

  /** The longest prefix of `s` made of decimal digits. */
  function DigitPrefix(s: string): (r: string)
    ensures |r| <= |s| && r == s[..|r|]
    ensures forall i :: 0 <= i < |r| ==> IsDigit(r[i])
    ensures |r| == |s| || !IsDigit(s[|r|])
  {
    if s != [] && IsDigit(s[0]) then
      var r := [s[0]] + DigitPrefix(s[1..]);
      assert r[1..] == DigitPrefix(s[1..]);
      r
    else []
  }

  /** `Number.parseInt(s)`: leading white space, an optional sign and the leading digits; `None` stands for NaN. */
  function ParseInt(s: string): (r: Option<int>)
    ensures r.Some? ==> TrimStart(s) != [] && (r.value < 0 ==> TrimStart(s)[0] == '-')
    ensures TrimStart(s) == [] ==> r.None?
  {
    var t := TrimStart(s);
    var body := if t != [] && (t[0] == '-' || t[0] == '+') then t[1..] else t;
    var digits := DigitPrefix(body);
    if digits == [] then None
    else if t[0] == '-' then Some(-(DecimalValue(digits) as int))
    else Some(DecimalValue(digits))
  }

  /** `Number.parseInt(value) || 30`: NaN and zero are falsy and give the default of 30 minutes. */
  function TimeLimitInput(value: string): (minutes: int)
    ensures minutes != 0
  {
    match ParseInt(value)
    case None => 30
    case Some(v) => if v == 0 then 30 else v
  }

  /** A typed positive number is taken as it is. */
  lemma TimeLimitOfNumber(n: nat)
    requires n > 0
    ensures TimeLimitInput(NatToString(n)) == n
  {
    ParseDigits(NatToString(n));
    DecimalValueOfNatToString(n);
  }

  /** A plain string of digits parses to its decimal value. */
  lemma ParseDigits(s: string)
    requires s != [] && forall i :: 0 <= i < |s| ==> IsDigit(s[i])
    ensures ParseInt(s) == Some(DecimalValue(s) as int)
  {
    DigitIsNotSpace(s[0]);
    NoLeadingSpace(s);
    assert s[0] != '-' && s[0] != '+';
    DigitsArePrefix(s);
  }

  lemma DigitIsNotSpace(c: char)
    requires IsDigit(c)
    ensures !IsSpace(c)
  {
  }

  lemma NoLeadingSpace(s: string)
    requires s != [] && !IsSpace(s[0])
    ensures TrimStart(s) == s
  {
  }

  lemma {:induction false} DigitsArePrefix(s: string)
    requires forall i :: 0 <= i < |s| ==> IsDigit(s[i])
    ensures DigitPrefix(s) == s
  {
    if s != [] {
      DigitsArePrefix(s[1..]);
      assert s == [s[0]] + s[1..];
    }
  }

  /** An empty field or one that does not start with a number gives 30 minutes. */
  lemma TimeLimitFallback(value: string)
    requires TrimStart(value) == [] || (!IsDigit(TrimStart(value)[0]) && TrimStart(value)[0] != '-' && TrimStart(value)[0] != '+')
    ensures TimeLimitInput(value) == 30
  {
  }

  /** The panel's state: the list of quizzes. */
  class QuizControlPanel {
    var quizzes: seq<Quiz>

    /** The three quizzes the panel starts with, relative to the time it is opened. */
    constructor(now: int)
      ensures |quizzes| == 3
      ensures quizzes[0].status == Active && quizzes[0].endTime == Some(now + 3600000)
      ensures quizzes[1].status == Inactive && quizzes[1].startTime.None? && quizzes[1].endTime.None?
      ensures quizzes[2].status == Scheduled && quizzes[2].startTime == Some(now + 86400000)
      ensures forall i, j :: 0 <= i < j < |quizzes| ==> quizzes[i].id != quizzes[j].id
    {
      quizzes := [
        Quiz("1", "Mathematics Quiz - Algebra", Active, Some(now), Some(now + 3600000), 30),
        Quiz("2", "Science Quiz - Physics", Inactive, None, None, 45),
        Quiz("3", "History Quiz - World War II", Scheduled, Some(now + 86400000), Some(now + 90000000), 60)
      ];
    }

    method ToggleQuizStatus(id: string)
      modifies this
      ensures quizzes == Updated(old(quizzes), id, Toggle)
    {
      quizzes := Updated(quizzes, id, Toggle);
    }

    method StartQuiz(id: string, now: int)
      modifies this
      ensures quizzes == Updated(old(quizzes), id, Start(now))
    {
      quizzes := Updated(quizzes, id, Start(now));
    }

    method StopQuiz(id: string, now: int)
      modifies this
      ensures quizzes == Updated(old(quizzes), id, Stop(now))
    {
      quizzes := Updated(quizzes, id, Stop(now));
    }

    method ScheduleQuiz(id: string, start: int, end: int)
      modifies this
      ensures quizzes == Updated(old(quizzes), id, Schedule(start, end))
    {
      quizzes := Updated(quizzes, id, Schedule(start, end));
    }

    method UpdateTimeLimit(id: string, minutes: int)
      modifies this
      ensures quizzes == Updated(old(quizzes), id, SetTimeLimit(minutes))
    {
      quizzes := Updated(quizzes, id, SetTimeLimit(minutes));
    }
  }
}
