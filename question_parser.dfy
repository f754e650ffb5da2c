/**
 * The markdown question importer's parser. The input is cut into sections at
 * every `---`; a section holding a `Quiz:` header sets the subject for the
 * sections after it, and any other section holding a `### **N. text**`
 * heading becomes a question when exactly four of its lines carry an option
 * `X) text`. Each regular expression is modelled by a function giving its
 * leftmost match, with JavaScript's greedy matching and backtracking.
 */
module QuestionParser {
  import opened Wrappers
  import opened Text

  datatype ParsedOption = ParsedOption(id: int, text: string)
  datatype ParsedQuestion = ParsedQuestion(text: string, options: seq<ParsedOption>, correctOptionId: int, subject: string)

  /** Option letters and the ids they stand for. */
  const OPTION_MAP: map<char, int> := map['A' := 1, 'B' := 2, 'C' := 3, 'D' := 4]

  predicate IsOptionLetter(c: char) { 'A' <= c <= 'D' }

  lemma OptionMapIsLetterToId()
    ensures forall c :: c in OPTION_MAP <==> IsOptionLetter(c)
    ensures forall c :: c in OPTION_MAP ==> OPTION_MAP[c] == c as int - 'A' as int + 1
  {
  }

  function OptionId(letter: char): (id: int)
    requires IsOptionLetter(letter)
    ensures 1 <= id <= 4 && id == letter as int - 'A' as int + 1
  {
    OptionMapIsLetterToId();
    OPTION_MAP[letter]
  }

  /** The length of the longest run of characters satisfying `p` that starts at `j`. */
  function RunLength(s: string, j: nat, p: char -> bool): (n: nat)
    requires j <= |s|
    ensures j + n <= |s|
    ensures forall k :: j <= k < j + n ==> p(s[k])
    ensures j + n == |s| || !p(s[j + n])
    decreases |s| - j
  {
    if j < |s| && p(s[j]) then 1 + RunLength(s, j + 1, p) else 0
  }

  /**
   * The leftmost position at or after `from` where `at` matches, with what it
   * matched: how a regular expression without the `g` flag is searched.
   */
  function Leftmost<X>(s: string, from: nat, at: (string, nat) -> Option<X>): (r: Option<(nat, X)>)
    ensures r.Some? ==> from <= r.value.0 <= |s| && at(s, r.value.0) == Some(r.value.1)
    decreases |s| + 1 - from
  {
    if from > |s| then None
    else match at(s, from)
      case Some(x) => Some((from, x))
      case None => Leftmost(s, from + 1, at)
  }

  /** No position before the reported one matches, and no position at all when none is reported. */
  lemma {:induction false} LeftmostIsLeftmost<X>(s: string, from: nat, at: (string, nat) -> Option<X>)
    ensures var r := Leftmost(s, from, at);
      && (r.Some? ==> forall m :: from <= m < r.value.0 ==> at(s, m).None?)
      && (r.None? ==> forall m :: from <= m <= |s| ==> at(s, m).None?)
    decreases |s| + 1 - from
  {
    if from <= |s| && at(s, from).None? {
      LeftmostIsLeftmost(s, from + 1, at);
    }
  }

  function NotParen(c: char): bool { c != '(' }
  function NotStar(c: char): bool { c != '*' }
  function NotLineTerminator(c: char): bool { !IsLineTerminator(c) }

  /** `/Quiz: ([^(]+)/` tried at position i: the capture is the whole run of non-'(' characters. */
  function SubjectAt(s: string, i: nat): (r: Option<string>)
    ensures r.Some? ==> |r.value| > 0 && forall k :: 0 <= k < |r.value| ==> r.value[k] != '('
  {
    if OccursAt(s, "Quiz: ", i) && i + 6 < |s| && s[i + 6] != '(' then
      Some(s[i + 6..i + 6 + RunLength(s, i + 6, NotParen)])
    else None
  }

  // The question heading pattern `###\s*\*\*(\d+)\.\s*([^*]+)\*\*` tried at
  // position i; the result is the second group. `[^*]+` must reach a `**`;
  // when everything after the number is white space, `\s*` gives back one
  // character for it.
  function QuestionAt(s: string, i: nat): Option<string> {
    if !OccursAt(s, "###", i) then None
    else
      var a := i + 3 + RunLength(s, i + 3, IsSpace);
      if !OccursAt(s, "**", a) then None
      else
        var d := a + 2;
        var nd := RunLength(s, d, IsDigit);
        if nd == 0 || d + nd >= |s| || s[d + nd] != '.' then None
        else
          var t := d + nd + 1;
          var w := RunLength(s, t, IsSpace);
          var n := RunLength(s, t, NotStar);
          if n == 0 || !OccursAt(s, "**", t + n) then None
          else if w < n then Some(s[t + w..t + n])
          else Some(s[t + n - 1..t + n])
  }

  /** The last position in [p, q] where `.` can match, searching down from q. */
  function LastDotStart(s: string, p: nat, q: nat): (r: Option<nat>)
    requires p <= q
    ensures r.Some? ==> p <= r.value <= q && r.value < |s| && !IsLineTerminator(s[r.value])
    decreases q - p
  {
    if q < |s| && !IsLineTerminator(s[q]) then Some(q)
    else if q == p then None
    else LastDotStart(s, p, q - 1)
  }

  /**
   * `/([A-D])\)\s*(.+)/` tried at position i: the letter and the second group,
   * which runs to the end of the line. `\s*` backs off when the white space
   * ends the string or a line terminator follows it.
   */
  function OptionAt(s: string, i: nat): (r: Option<(char, string)>)
    ensures r.Some? ==> IsOptionLetter(r.value.0) && |r.value.1| > 0
  {
    if i + 1 >= |s| || !IsOptionLetter(s[i]) || s[i + 1] != ')' then None
    else
      var p := i + 2;
      var w := RunLength(s, p, IsSpace);
      match LastDotStart(s, p, p + w)
      case None => None
      case Some(q) => Some((s[i], s[q..q + RunLength(s, q, NotLineTerminator)]))
  }

  // The answer pattern `\*\*Answer:\*\*\s*([A-D])\)` tried at position i: the letter.
  function AnswerAt(s: string, i: nat): (r: Option<char>)
    ensures r.Some? ==> IsOptionLetter(r.value)
  {
    if !OccursAt(s, "**Answer:**", i) then None
    else
      var a := i + 11 + RunLength(s, i + 11, IsSpace);
      if a + 1 < |s| && IsOptionLetter(s[a]) && s[a + 1] == ')' then Some(s[a]) else None
  }

  /** The option a line contributes, if its leftmost option match exists. */
  function LineOption(line: string): (r: seq<ParsedOption>)
    ensures |r| <= 1
    ensures forall o :: o in r ==> 1 <= o.id <= 4 && IsTrimmed(o.text)
    ensures r == [] <==> forall i :: 0 <= i <= |line| ==> OptionAt(line, i).None?
    ensures |r| == 1 ==> exists i ::
      && 0 <= i <= |line| && OptionAt(line, i).Some?
      && (forall m :: 0 <= m < i ==> OptionAt(line, m).None?)
      && r[0] == ParsedOption(OptionId(OptionAt(line, i).value.0), Trim(OptionAt(line, i).value.1))
  {
    LeftmostIsLeftmost(line, 0, OptionAt);
    var m := Leftmost(line, 0, OptionAt);
    if m.None? then []
    else
      var letter := m.value.1.0;
      assert OptionAt(line, m.value.0) == Some((letter, m.value.1.1));
      var o := ParsedOption(OptionId(letter), Trim(m.value.1.1));
      assert forall x :: x in [o] ==> x == o;
      [o]
  }

  /** The answer letter a line names, if any. */
  function LineAnswer(line: string): (r: Option<char>)
    ensures r.Some? ==> IsOptionLetter(r.value)
  {
    var m := Leftmost(line, 0, AnswerAt);
    if m.None? then None else Some(m.value.1)
  }

  /**
   * The options and the correct id the line loop collects over `lines`: every
   * option match is appended, and the last answer line sets the correct id,
   * which starts at 1.
   */
  function ScanLines(lines: seq<string>): (r: (seq<ParsedOption>, int))
    ensures forall o :: o in r.0 ==> 1 <= o.id <= 4 && IsTrimmed(o.text)
    ensures 1 <= r.1 <= 4
    ensures |r.0| <= |lines|
  {
    if |lines| == 0 then ([], 1)
    else
      var prev := ScanLines(lines[..|lines| - 1]);
      var line := lines[|lines| - 1];
      (prev.0 + LineOption(line),
       match LineAnswer(line) case Some(c) => OptionId(c) case None => prev.1)
  }

  /** `currentSubject.toLowerCase().replace(/[^a-z]/g, '-')`. */
  function SubjectSlug(subject: string): (r: string)
    ensures |r| == |subject|
    ensures forall k :: 0 <= k < |r| ==> ('a' <= r[k] <= 'z' || r[k] == '-')
    ensures forall k :: 0 <= k < |r| && 'a' <= subject[k] <= 'z' ==> r[k] == subject[k]
    ensures forall k :: 0 <= k < |r| && 'A' <= subject[k] <= 'Z' ==> r[k] as int == subject[k] as int + 32
    ensures forall k :: 0 <= k < |r| && !('a' <= subject[k] <= 'z') && !('A' <= subject[k] <= 'Z') ==> r[k] == '-'
  {
    seq(|subject|, k requires 0 <= k < |subject| =>
      var c := LowerChar(subject[k]);
      if 'a' <= c <= 'z' then c else '-')
  }

  /** The question a non-header section yields under the current subject, if any. */
  function SectionQuestion(section: string, subject: string): Option<ParsedQuestion> {
    match Leftmost(section, 0, QuestionAt)
    case None => None
    case Some((_, captured)) =>
      var text := Trim(captured);
      var scan := ScanLines(Split(section, "\n"));
      if |scan.0| == 4 && text != "" then
        Some(ParsedQuestion(text, scan.0, scan.1, SubjectSlug(subject)))
      else None
  }

  /** The subject a section's header sets, if it is a header section. */
  function SectionSubject(section: string): Option<string> {
    match Leftmost(section, 0, SubjectAt)
    case Some((_, captured)) => Some(Trim(captured))
    case None => None
  }

  /**
   * One section read under `subject`: a header section sets the subject and
   * yields nothing; any other section keeps the subject and yields its question, if any.
   */
  function SectionStep(section: string, subject: string): (string, seq<ParsedQuestion>) {
    match SectionSubject(section)
    case Some(next) => (next, [])
    case None => (subject, match SectionQuestion(section, subject) case Some(q) => [q] case None => [])
  }

  /** What a loop over `sections` collects when each pass is `step` on the state so far. */
  function ReadSections<S, Q>(sections: seq<string>, state: S, step: (string, S) -> (S, seq<Q>)): seq<Q> {
    if |sections| == 0 then []
    else
      var st := step(sections[0], state);
      st.1 + ReadSections(sections[1..], st.0, step)
  }

  /** The state such a loop leaves. */
  function StateAfter<S, Q>(sections: seq<string>, state: S, step: (string, S) -> (S, seq<Q>)): S {
    if |sections| == 0 then state
    else StateAfter(sections[1..], step(sections[0], state).0, step)
  }

  /** The output of `a + b` is the output of `a`, then that of `b` from the state `a` leaves: output follows section order. */
  lemma {:induction false} ReadSectionsAppend<S, Q>(a: seq<string>, b: seq<string>, state: S, step: (string, S) -> (S, seq<Q>))
    ensures ReadSections(a + b, state, step) == ReadSections(a, state, step) + ReadSections(b, StateAfter(a, state, step), step)
  {
    if |a| == 0 {
      assert a + b == b;
    } else {
      assert (a + b)[0] == a[0] && (a + b)[1..] == a[1..] + b;
      ReadSectionsAppend(a[1..], b, step(a[0], state).0, step);
    }
  }

  lemma ReadSectionsStep<S, Q>(sections: seq<string>, i: nat, state: S, step: (string, S) -> (S, seq<Q>))
    requires i < |sections|
    ensures ReadSections(sections[i..], state, step)
      == step(sections[i], state).1 + ReadSections(sections[i + 1..], step(sections[i], state).0, step)
  {
    assert sections[i..][0] == sections[i] && sections[i..][1..] == sections[i + 1..];
  }

  /** One more pass of the loop keeps "collected so far, then the rest" equal to the whole output. */
  lemma ReadSectionsAdvance<S, Q>(sections: seq<string>, i: nat, state: S, acc: seq<Q>,
                                  step: (string, S) -> (S, seq<Q>), next: S, found: seq<Q>)
    requires i < |sections|
    requires (next, found) == step(sections[i], state)
    ensures acc + ReadSections(sections[i..], state, step) == (acc + found) + ReadSections(sections[i + 1..], next, step)
  {
    ReadSectionsStep(sections, i, state, step);
  }

  function Parse(markdown: string): (r: seq<ParsedQuestion>)
    ensures forall q :: q in r ==> WellFormed(q)
  {
    ReadSectionsWellFormed(Split(markdown, "---"), "");
    ReadSections(Split(markdown, "---"), "", SectionStep)
  }

  lemma ScanLinesStep(lines: seq<string>, j: nat)
    requires j < |lines|
    ensures ScanLines(lines[..j + 1]) == (ScanLines(lines[..j]).0 + LineOption(lines[j]),
      match LineAnswer(lines[j]) case Some(c) => OptionId(c) case None => ScanLines(lines[..j]).1)
  {
    assert lines[..j + 1][..j] == lines[..j];
    assert lines[..j + 1][j] == lines[j];
  }

  /** The line loop of `parseMarkdownQuestions` for one section. */
  method ScanSectionLines(lines: seq<string>) returns (options: seq<ParsedOption>, correctOptionId: int)
    ensures (options, correctOptionId) == ScanLines(lines)
  {
    options := [];
    correctOptionId := 1;
    var j := 0;
    while j < |lines|
      invariant 0 <= j <= |lines|
      invariant options == ScanLines(lines[..j]).0
      invariant correctOptionId == ScanLines(lines[..j]).1
    {
      var line := lines[j];
      ScanLinesStep(lines, j);
      options := options + LineOption(line);
      var answer := LineAnswer(line);
      if answer.Some? {
        correctOptionId := OptionId(answer.value);
      }
      j := j + 1;
    }
    assert lines[..j] == lines;
  }

  /** One pass of the section loop: the subject it leaves and the question it adds. */
  method ReadSection(section: string, currentSubject: string) returns (subject: string, found: seq<ParsedQuestion>)
    ensures (subject, found) == SectionStep(section, currentSubject)
  {
    subject, found := currentSubject, [];
    var subjectMatch := SectionSubject(section);
    if subjectMatch.Some? {
      subject := subjectMatch.value;
      return;
    }
    var questionMatch := Leftmost(section, 0, QuestionAt);
    if questionMatch.None? {
      return;
    }
    var questionText := Trim(questionMatch.value.1);
    var options, correctOptionId := ScanSectionLines(Split(section, "\n"));
    if |options| == 4 && questionText != "" {
      found := [ParsedQuestion(questionText, options, correctOptionId, SubjectSlug(currentSubject))];
    }
  }

  /** `parseMarkdownQuestions`. */
  method ParseMarkdownQuestions(markdown: string) returns (questions: seq<ParsedQuestion>)
    ensures questions == Parse(markdown)
  {
    var sections := Split(markdown, "---");
    questions := ReadAllSections(sections);
  }

  /** The section loop of `parseMarkdownQuestions`, the subject starting empty. */
  method ReadAllSections(sections: seq<string>) returns (questions: seq<ParsedQuestion>)
    ensures questions == ReadSections(sections, "", SectionStep)
  {
    questions := [];
    var currentSubject := "";
    var i := 0;
    while i < |sections|
      invariant 0 <= i <= |sections|
      invariant questions + ReadSections(sections[i..], currentSubject, SectionStep) == ReadSections(sections, "", SectionStep)
    {
      var found, next;
      next, found := ReadSection(sections[i], currentSubject);
      ReadSectionsAdvance(sections, i, currentSubject, questions, SectionStep, next, found);
      currentSubject := next;
      questions := questions + found;
      i := i + 1;
    }
    assert sections[i..] == [];
  }

  /** Every question the parser returns has four options, a non-empty trimmed text, ids in 1..4 and a slug subject. */
  predicate WellFormed(q: ParsedQuestion) {
    && |q.options| == 4
    && q.text != [] && IsTrimmed(q.text)
    && (forall o :: o in q.options ==> 1 <= o.id <= 4 && IsTrimmed(o.text))
    && 1 <= q.correctOptionId <= 4
    && (forall k :: 0 <= k < |q.subject| ==> 'a' <= q.subject[k] <= 'z' || q.subject[k] == '-')
  }

  lemma SectionStepWellFormed(section: string, subject: string)
    ensures forall q :: q in SectionStep(section, subject).1 ==> WellFormed(q)
  {
    SectionQuestionWellFormed(section, subject);
  }

  lemma SectionQuestionWellFormed(section: string, subject: string)
    ensures SectionQuestion(section, subject).Some? ==> WellFormed(SectionQuestion(section, subject).value)
  {
  }

  lemma {:induction false} ReadSectionsWellFormed(sections: seq<string>, subject: string)
    ensures forall q :: q in ReadSections(sections, subject, SectionStep) ==> WellFormed(q)
  {
    if |sections| > 0 {
      var st := SectionStep(sections[0], subject);
      SectionStepWellFormed(sections[0], subject);
      ReadSectionsWellFormed(sections[1..], st.0);
      assert ReadSections(sections, subject, SectionStep) == st.1 + ReadSections(sections[1..], st.0, SectionStep);
    }
  }

  lemma ParseWellFormed(markdown: string)
    ensures forall q :: q in Parse(markdown) ==> WellFormed(q)
  {
    ReadSectionsWellFormed(Split(markdown, "---"), "");
  }

  /** Without an answer line the correct option stays 1. */
  lemma {:induction false} NoAnswerLineMeansFirstOption(lines: seq<string>)
    requires forall k :: 0 <= k < |lines| ==> LineAnswer(lines[k]).None?
    ensures ScanLines(lines).1 == 1
  {
    if |lines| > 0 {
      var front := lines[..|lines| - 1];
      assert forall k :: 0 <= k < |front| ==> front[k] == lines[k];
      NoAnswerLineMeansFirstOption(front);
    }
  }

  /** With answer lines, the last one decides the correct option. */
  lemma {:induction false} LastAnswerLineWins(lines: seq<string>, k: nat, c: char)
    requires k < |lines| && LineAnswer(lines[k]) == Some(c)
    requires forall m :: k < m < |lines| ==> LineAnswer(lines[m]).None?
    ensures ScanLines(lines).1 == OptionId(c)
  {
    var front := lines[..|lines| - 1];
    if k < |lines| - 1 {
      assert forall m :: 0 <= m < |front| ==> front[m] == lines[m];
      LastAnswerLineWins(front, k, c);
    }
  }

  /** A section whose `Quiz:` header matches yields no question and sets the subject to the trimmed capture. */
  lemma HeaderSectionSetsSubject(section: string, subject: string, rest: seq<string>)
    requires SectionSubject(section).Some?
    ensures ReadSections([section] + rest, subject, SectionStep)
      == ReadSections(rest, SectionSubject(section).value, SectionStep)
  {
    assert ([section] + rest)[0] == section && ([section] + rest)[1..] == rest;
  }

  /** When `at` fails everywhere in [from, p) and matches at p, the leftmost match is at p. */
  lemma {:induction false} LeftmostAt<X>(s: string, from: nat, p: nat, at: (string, nat) -> Option<X>)
    requires from <= p <= |s|
    requires forall m :: from <= m < p ==> at(s, m).None?
    requires at(s, p).Some?
    ensures Leftmost(s, from, at) == Some((p, at(s, p).value))
    decreases p - from
  {
    if from < p {
      LeftmostAt(s, from + 1, p, at);
    }
  }

  /** An option line in the form `X) text`. */
  function OptionLine(letter: char, text: string): (r: string)
    ensures |r| == |text| + 3 && r[..3] == [letter, ')', ' '] && r[3..] == text
  {
    [letter] + ") " + text
  }

  /** A plain option line contributes its letter's option with the trimmed text. */
  lemma OptionLineParses(letter: char, text: string)
    requires IsOptionLetter(letter)
    requires |text| > 0 && !IsSpace(text[0])
    requires forall k :: 0 <= k < |text| ==> !IsLineTerminator(text[k])
    ensures LineOption(OptionLine(letter, text)) == [ParsedOption(OptionId(letter), Trim(text))]
  {
    var line := OptionLine(letter, text);
    assert |line| == 3 + |text|;
    assert line[0] == letter && line[1] == ')' && line[2] == ' ';
    assert line[3..] == text;
    assert line[3] == text[0];
    assert RunLength(line, 3, IsSpace) == 0;
    assert RunLength(line, 2, IsSpace) == 1;
    assert LastDotStart(line, 2, 3) == Some(3);
    var n := RunLength(line, 3, NotLineTerminator);
    assert forall k :: 3 <= k < |line| ==> line[k] == text[k - 3];
    assert n == |text|;
    assert line[3..3 + n] == text;
    assert OptionAt(line, 0) == Some((letter, text));
    LeftmostAt(line, 0, 0, OptionAt);
  }

  /** An answer line in the form `**Answer:** X) text`. */
  function AnswerLine(letter: char, text: string): (r: string)
    ensures |r| == |text| + 15
    ensures StartsWith(r, "**Answer:** ") && OccursAt(r, OptionLine(letter, text), 12)
  {
    "**Answer:** " + [letter] + ") " + text
  }

  /**
   * Such a line also matches the option pattern: it adds an option carrying
   * the answer's letter and text, besides setting the correct option.
   */
  lemma AnswerLineIsAlsoAnOption(letter: char, text: string)
    requires IsOptionLetter(letter)
    requires |text| > 0 && !IsSpace(text[0])
    requires forall k :: 0 <= k < |text| ==> !IsLineTerminator(text[k])
    ensures LineOption(AnswerLine(letter, text)) == [ParsedOption(OptionId(letter), Trim(text))]
    ensures LineAnswer(AnswerLine(letter, text)) == Some(letter)
  {
    var line := AnswerLine(letter, text);
    AnswerLineNoEarlierOption(letter, text);
    AnswerLineOptionAt(letter, text);
    LeftmostAt(line, 0, 12, OptionAt);
    AnswerLineAnswerAt(letter, text);
    LeftmostAt(line, 0, 0, AnswerAt);
  }

  lemma AnswerLineNoEarlierOption(letter: char, text: string)
    ensures forall m :: 0 <= m < 12 ==> OptionAt(AnswerLine(letter, text), m).None?
  {
    var line := AnswerLine(letter, text);
    assert line[..12] == "**Answer:** ";
    forall m | 0 <= m < 12 ensures OptionAt(line, m).None? {
      assert line[m] == "**Answer:** "[m];
      if m == 2 { assert line[3] == 'n'; }
    }
  }

  lemma AnswerLineAnswerAt(letter: char, text: string)
    requires IsOptionLetter(letter)
    ensures AnswerAt(AnswerLine(letter, text), 0) == Some(letter)
  {
    var line := AnswerLine(letter, text);
    assert line[..11] == "**Answer:**";
    assert OccursAt(line, "**Answer:**", 0);
    assert line[11] == ' ' && line[12] == letter && line[13] == ')';
    assert RunLength(line, 12, IsSpace) == 0;
    assert RunLength(line, 11, IsSpace) == 1;
  }

  lemma AnswerLineOptionAt(letter: char, text: string)
    requires IsOptionLetter(letter)
    requires |text| > 0 && !IsSpace(text[0])
    requires forall k :: 0 <= k < |text| ==> !IsLineTerminator(text[k])
    ensures OptionAt(AnswerLine(letter, text), 12) == Some((letter, text))
  {
    var line := AnswerLine(letter, text);
    assert |line| == 15 + |text|;
    assert line[12] == letter && line[13] == ')' && line[14] == ' ';
    assert line[15..] == text;
    assert line[15] == text[0];
    assert RunLength(line, 15, IsSpace) == 0;
    assert RunLength(line, 14, IsSpace) == 1;
    assert LastDotStart(line, 14, 15) == Some(15);
    var n := RunLength(line, 15, NotLineTerminator);
    assert forall k :: 15 <= k < |line| ==> line[k] == text[k - 15];
    assert n == |text|;
    assert line[15..15 + n] == text;
  }

  /**
   * Consequently a section with four option lines and an answer line in that
   * form collects five options, and the parser drops the question.
   */
  lemma AnswerLineMakesFiveOptions(lines: seq<string>, letter: char, text: string)
    requires |ScanLines(lines).0| == 4
    requires IsOptionLetter(letter)
    requires |text| > 0 && !IsSpace(text[0])
    requires forall k :: 0 <= k < |text| ==> !IsLineTerminator(text[k])
    ensures |ScanLines(lines + [AnswerLine(letter, text)]).0| == 5
    ensures ScanLines(lines + [AnswerLine(letter, text)]).1 == OptionId(letter)
  {
    var all := lines + [AnswerLine(letter, text)];
    AnswerLineIsAlsoAnOption(letter, text);
    assert all[..|all| - 1] == lines;
  }

  /**
   * The line loop as evidently intended: a line that names the answer is not
   * also read as an option.
   */
  function ScanLinesIntended(lines: seq<string>): (r: (seq<ParsedOption>, int))
    ensures forall o :: o in r.0 ==> 1 <= o.id <= 4 && IsTrimmed(o.text)
    ensures 1 <= r.1 <= 4
  {
    if |lines| == 0 then ([], 1)
    else
      var prev := ScanLinesIntended(lines[..|lines| - 1]);
      var line := lines[|lines| - 1];
      match LineAnswer(line)
      case Some(c) => (prev.0, OptionId(c))
      case None => (prev.0 + LineOption(line), prev.1)
  }

  /** On sections without answer lines the intended loop is the written one. */
  lemma {:induction false} IntendedAgreesWithoutAnswers(lines: seq<string>)
    requires forall k :: 0 <= k < |lines| ==> LineAnswer(lines[k]).None?
    ensures ScanLinesIntended(lines) == ScanLines(lines)
  {
    if |lines| > 0 {
      var front := lines[..|lines| - 1];
      assert forall k :: 0 <= k < |front| ==> front[k] == lines[k];
      IntendedAgreesWithoutAnswers(front);
    }
  }

  /** With the intended loop, the answer line sets the correct option and the four options stay four. */
  lemma IntendedAnswerLineKeepsOptions(lines: seq<string>, letter: char, text: string)
    requires IsOptionLetter(letter)
    requires |text| > 0 && !IsSpace(text[0])
    requires forall k :: 0 <= k < |text| ==> !IsLineTerminator(text[k])
    ensures ScanLinesIntended(lines + [AnswerLine(letter, text)]) == (ScanLinesIntended(lines).0, OptionId(letter))
  {
    var all := lines + [AnswerLine(letter, text)];
    AnswerLineIsAlsoAnOption(letter, text);
    assert all[..|all| - 1] == lines;
  }
}
