/**
 * Career guidance from the subjects a student selected: the selection's keys
 * are mapped to the configuration's keys, an analysis written for exactly
 * that combination is returned when there is one, and otherwise the
 * analyses of the single subjects are joined, under a header when more than
 * one subject was selected. The cookie, the configuration and the analysis
 * files are inputs; `files` maps a file name to its text, and a name it
 * lacks is a file that cannot be read.
 */
module CareerGuidance {
  import opened Wrappers
  import opened Text
  import Sorting

  /** The selection's subject keys and the configuration's keys they stand for. */
  const SUBJECT_KEY_MAPPING: map<string, string> := map[
    "physics" := "physics",
    "chemistry" := "chemistry",
    "math" := "mathematics",
    "biology" := "biology",
    "social" := "social_science",
    "english" := "english",
    "gk" := "general_knowledge",
    "computer" := "computer_science",
    "commerce" := "commerce"
  ]

  const NO_SUBJECTS := "No subjects selected. Please select subjects to get career guidance."
  const NO_CONTENT := "No guidance content available for the selected subjects."
  const FAILED := "An error occurred while fetching career guidance. Please try again later."

  /** The three tables of the analysis configuration, each from a key to a file name or a display name. */
  datatype Config = Config(singleSubjects: map<string, string>, combinedSubjects: map<string, string>, displayNames: map<string, string>)

  /**
   * The `selectedSubjects` cookie as the handler sees it after decoding and parsing it.
   * - NoCookie: the cookie is absent or empty, or it parses to a value whose `length`
   *   is falsy (an object such as `{}`, a number, a boolean, the empty JSON string);
   *   the handler answers these with the no-selection message.
   * - Malformed: what reaches the `catch`: a decoding or JSON error, JSON `null`,
   *   or a non-empty JSON string (it has a length but no `map`).
   * - Subjects: the JSON list of subject keys.
   */
  datatype Cookie = NoCookie | Malformed | Subjects(list: seq<string>)

  /** A table entry as a condition sees it: a missing entry and the empty string are both false. */
  function Lookup(m: map<string, string>, k: string): (r: Option<string>)
    ensures r.Some? <==> k in m && m[k] != ""
    ensures r.Some? ==> r.value == m[k]
  {
    if k in m && m[k] != "" then Some(m[k]) else None
  }

  /** `subjectKeyMapping[subject] || subject`. */
  function MapKey(subject: string): (r: string)
    ensures subject in SUBJECT_KEY_MAPPING ==> r == SUBJECT_KEY_MAPPING[subject]
    ensures subject !in SUBJECT_KEY_MAPPING ==> r == subject
  {
    match Lookup(SUBJECT_KEY_MAPPING, subject)
    case Some(k) => k
    case None => subject
  }

  function MappedSubjects(selected: seq<string>): (r: seq<string>)
    ensures |r| == |selected|
    ensures forall i :: 0 <= i < |selected| ==> r[i] == MapKey(selected[i])
  {
    seq(|selected|, i requires 0 <= i < |selected| => MapKey(selected[i]))
  }

  /** The key of a combination: the mapped subjects in ascending string order, joined by commas. */
  function CombinedKey(mapped: seq<string>): (r: string)
    ensures mapped == [] ==> r == ""
    ensures |mapped| == 1 ==> r == mapped[0]
  {
    var sorted := Sorting.SortBy(mapped, StrLe);
    if |mapped| == 1 then
      assert sorted[0] in multiset(mapped);
      Join(sorted, ",")
    else Join(sorted, ",")
  }

  lemma StrLeIsTotalOrder()
    ensures Sorting.TotalPreorder(StrLe) && Sorting.Antisymmetric(StrLe)
  {
    forall a, b ensures StrLe(a, b) || StrLe(b, a) { StrLeTotal(a, b); }
    forall a, b, c | StrLe(a, b) && StrLe(b, c) ensures StrLe(a, c) { StrLeTransitive(a, b, c); }
    forall a, b | StrLe(a, b) && StrLe(b, a) ensures a == b { StrLeAntisymmetric(a, b); }
  }

  /** The same subjects selected in any order give the same combined key. */
  lemma CombinedKeyIgnoresOrder(a: seq<string>, b: seq<string>)
    requires multiset(a) == multiset(b)
    ensures CombinedKey(a) == CombinedKey(b)
  {
    StrLeIsTotalOrder();
    Sorting.SortByPermutationInvariant(a, b, StrLe);
  }

  /** The header's name for a subject: its display name, or the key itself. */
  function DisplayName(config: Config, subject: string): string {
    match Lookup(config.displayNames, subject)
    case Some(n) => n
    case None => subject
  }

  function DisplayNames(config: Config, mapped: seq<string>): (r: seq<string>)
    ensures |r| == |mapped|
    ensures forall i :: 0 <= i < |mapped| ==> r[i] == DisplayName(config, mapped[i])
  {
    seq(|mapped|, i requires 0 <= i < |mapped| => DisplayName(config, mapped[i]))
  }

  /** The header written above the single analyses when several subjects were selected. */
  function Header(names: seq<string>): (h: string)
    ensures |h| > 0 && h[0] == '#'
  {
    var listed := Join(names, ", ");
    HEADER_TITLE + listed + "\n\n" + HEADER_BASIS + listed + "*\n\n" + HEADER_NOTE
  }

  const HEADER_TITLE := "# Career Guidance for "
  const HEADER_BASIS := "*This guidance is based on your selection of multiple subjects: "
  const HEADER_NOTE := "Since this specific combination doesn't have a dedicated analysis, we're providing individual analysis for each subject.\n\n"

  /** The separator's name for a subject: the display name, interpolated as "undefined" when there is none. */
  function SeparatorName(config: Config, subject: string): string {
    if subject in config.displayNames then config.displayNames[subject] else "undefined"
  }

  /**
   * What one subject adds: nothing when it has no single analysis, its file's
   * text (after a separator when several subjects were selected) when it
   * has one, and `None` when that file cannot be read.
   */
  function Piece(config: Config, files: map<string, string>, multiple: bool, subject: string): (r: Option<string>)
    ensures Lookup(config.singleSubjects, subject).None? ==> r == Some("")
    ensures r.None? <==> Lookup(config.singleSubjects, subject).Some? && Lookup(config.singleSubjects, subject).value !in files
  {
    match Lookup(config.singleSubjects, subject)
    case None => Some("")
    case Some(file) =>
      if file !in files then None
      else
        var separator := if multiple then "\n\n---\n\n## " + SeparatorName(config, subject) + "\n\n" else "";
        Some(separator + files[file])
  }

  /** Two texts appended, or `None` when either is missing. */
  function AndThen(x: Option<string>, y: Option<string>): (r: Option<string>)
    ensures r.Some? <==> x.Some? && y.Some?
    ensures r.Some? ==> r.value == x.value + y.value
  {
    if x.Some? && y.Some? then Some(x.value + y.value) else None
  }

  lemma AndThenAssociative(x: Option<string>, y: Option<string>, z: Option<string>)
    ensures AndThen(AndThen(x, y), z) == AndThen(x, AndThen(y, z))
  {
    if x.Some? && y.Some? && z.Some? {
      assert (x.value + y.value) + z.value == x.value + (y.value + z.value);
    }
  }

  /** The pieces of `subjects` appended in order; `None` as soon as a file cannot be read. */
  function Sections(config: Config, files: map<string, string>, multiple: bool, subjects: seq<string>): (r: Option<string>)
    ensures r.None? <==> exists i :: 0 <= i < |subjects| && Piece(config, files, multiple, subjects[i]).None?
  {
    if subjects == [] then Some("")
    else AndThen(Sections(config, files, multiple, subjects[..|subjects| - 1]), Piece(config, files, multiple, subjects[|subjects| - 1]))
  }

  /** Subjects without a single analysis contribute nothing. */
  lemma {:induction false} SectionsSkipAbsent(config: Config, files: map<string, string>, multiple: bool, subjects: seq<string>)
    requires forall i :: 0 <= i < |subjects| ==> Lookup(config.singleSubjects, subjects[i]).None?
    ensures Sections(config, files, multiple, subjects) == Some("")
  {
    if subjects != [] {
      var prefix := subjects[..|subjects| - 1];
      assert forall i :: 0 <= i < |prefix| ==> prefix[i] == subjects[i];
      SectionsSkipAbsent(config, files, multiple, prefix);
      assert Piece(config, files, multiple, subjects[|subjects| - 1]) == Some("");
    }
  }

  /** The text follows the selection's order: the sections of a selection are those of its first part, then those of the rest. */
  lemma {:induction false} SectionsConcat(config: Config, files: map<string, string>, multiple: bool, a: seq<string>, b: seq<string>)
    ensures Sections(config, files, multiple, a + b) == AndThen(Sections(config, files, multiple, a), Sections(config, files, multiple, b))
    decreases |b|
  {
    var sa := Sections(config, files, multiple, a);
    if b == [] {
      assert a + b == a;
      if sa.Some? { assert sa.value + "" == sa.value; }
    } else {
      var b' := b[..|b| - 1];
      var last := Piece(config, files, multiple, b[|b| - 1]);
      assert (a + b)[..|a + b| - 1] == a + b';
      assert (a + b)[|a + b| - 1] == b[|b| - 1];
      SectionsConcat(config, files, multiple, a, b');
      AndThenAssociative(sa, Sections(config, files, multiple, b'), last);
    }
  }

  /** The guidance assembled from single analyses, when no combination matched. */
  function Assembled(config: Config, files: map<string, string>, mapped: seq<string>): (r: string)
    ensures r != ""
    ensures Sections(config, files, |mapped| > 1, mapped).None? ==> r == FAILED
  {
    var multiple := |mapped| > 1;
    var header := if multiple then Header(DisplayNames(config, mapped)) else "";
    match Sections(config, files, multiple, mapped)
    case None => FAILED
    case Some(body) => if header + body == "" then NO_CONTENT else header + body
  }

  /** The guidance for the mapped subjects: the matching combination's file, or the assembled analyses. */
  function ForSubjects(config: Config, files: map<string, string>, mapped: seq<string>): (r: string)
    ensures var c := Lookup(config.combinedSubjects, CombinedKey(mapped));
      && (c.Some? && c.value in files ==> r == files[c.value])
      && (c.Some? && c.value !in files ==> r == FAILED)
      && (c.None? ==> r != "")
  {
    match Lookup(config.combinedSubjects, CombinedKey(mapped))
    case Some(file) => if file in files then files[file] else FAILED
    case None => Assembled(config, files, mapped)
  }

  /** The guidance shown for a cookie, a configuration (`None` when it cannot be read) and the analysis files. */
  function Guidance(cookie: Cookie, config: Option<Config>, files: map<string, string>): (r: string)
    ensures cookie.NoCookie? || (cookie.Subjects? && cookie.list == []) ==> r == NO_SUBJECTS
    ensures cookie.Malformed? ==> r == FAILED
    ensures cookie.Subjects? && cookie.list != [] && config.None? ==> r == FAILED
    ensures cookie.Subjects? && cookie.list != [] && config.Some? ==> r == ForSubjects(config.value, files, MappedSubjects(cookie.list))
  {
    match cookie
    case NoCookie => NO_SUBJECTS
    case Malformed => FAILED
    case Subjects(selected) =>
      if |selected| == 0 then NO_SUBJECTS
      else if config.None? then FAILED
      else ForSubjects(config.value, files, MappedSubjects(selected))
  }

  /** The per-subject loop, appending each subject's piece to the text so far. */
  method AppendSections(config: Config, files: map<string, string>, multiple: bool, subjects: seq<string>) returns (r: Option<string>)
    ensures r == Sections(config, files, multiple, subjects)
  {
    var combined := "";
    var i := 0;
    while i < |subjects|
      invariant 0 <= i <= |subjects|
      invariant Sections(config, files, multiple, subjects[..i]) == Some(combined)
    {
      assert subjects[..i + 1][..i] == subjects[..i];
      var piece := Piece(config, files, multiple, subjects[i]);
      if piece.None? {
        NoneStaysNone(config, files, multiple, subjects[..i + 1], subjects[i + 1..]);
        assert subjects[..i + 1] + subjects[i + 1..] == subjects;
        return None;
      }
      combined := combined + piece.value;
      i := i + 1;
    }
    assert subjects[..i] == subjects;
    r := Some(combined);
  }

  /** Once a file cannot be read, nothing after it matters. */
  lemma NoneStaysNone(config: Config, files: map<string, string>, multiple: bool, a: seq<string>, b: seq<string>)
    requires Sections(config, files, multiple, a).None?
    ensures Sections(config, files, multiple, a + b).None?
  {
    SectionsConcat(config, files, multiple, a, b);
  }

  /** `getCareerGuidance`. */
  method GetCareerGuidance(cookie: Cookie, config: Option<Config>, files: map<string, string>) returns (text: string)
    ensures text == Guidance(cookie, config, files)
  {
    if cookie.NoCookie? || (cookie.Subjects? && |cookie.list| == 0) {
      return NO_SUBJECTS;
    }
    if cookie.Malformed? || config.None? {
      return FAILED;
    }
    var c := config.value;
    var mapped := MappedSubjects(cookie.list);
    var combined := Lookup(c.combinedSubjects, CombinedKey(mapped));
    if combined.Some? {
      if combined.value !in files {
        return FAILED;
      }
      return files[combined.value];
    }
    text := Assemble(c, files, mapped);
  }

  /** The branch of `getCareerGuidance` that joins the single analyses. */
  method Assemble(config: Config, files: map<string, string>, mapped: seq<string>) returns (text: string)
    ensures text == Assembled(config, files, mapped)
  {
    var content := "";
    if |mapped| > 1 {
      content := Header(DisplayNames(config, mapped));
    }
    var body := AppendSections(config, files, |mapped| > 1, mapped);
    if body.None? {
      return FAILED;
    }
    content := content + body.value;
    text := if content == "" then NO_CONTENT else content;
  }

  // ---------------------------------------------------------------- what the guidance promises

  /** Without a selection the fixed message is shown, whatever the configuration. */
  lemma NoSelectionMessage(config: Option<Config>, files: map<string, string>)
    ensures Guidance(NoCookie, config, files) == NO_SUBJECTS
    ensures Guidance(Subjects([]), config, files) == NO_SUBJECTS
  {
  }

  /** An analysis written for exactly the selected combination is returned alone, without a header. */
  lemma ExactCombinationReturnsItsFile(selected: seq<string>, config: Config, files: map<string, string>)
    requires |selected| > 0
    requires Lookup(config.combinedSubjects, CombinedKey(MappedSubjects(selected))).Some?
    requires Lookup(config.combinedSubjects, CombinedKey(MappedSubjects(selected))).value in files
    ensures Guidance(Subjects(selected), Some(config), files) == files[config.combinedSubjects[CombinedKey(MappedSubjects(selected))]]
  {
  }

  /** Two selections of the same subjects in different orders get the same guidance when a combination matches. */
  lemma CombinationFoundInAnyOrder(a: seq<string>, b: seq<string>, config: Config)
    requires multiset(a) == multiset(b)
    ensures Lookup(config.combinedSubjects, CombinedKey(MappedSubjects(a))) == Lookup(config.combinedSubjects, CombinedKey(MappedSubjects(b)))
  {
    assert MappedSubjects(a) == seq(|a|, i requires 0 <= i < |a| => MapKey(a[i]));
    MappedPreservesMultiset(a, b);
    CombinedKeyIgnoresOrder(MappedSubjects(a), MappedSubjects(b));
  }

  lemma {:induction false} MappedPreservesMultiset(a: seq<string>, b: seq<string>)
    requires multiset(a) == multiset(b)
    ensures multiset(MappedSubjects(a)) == multiset(MappedSubjects(b))
    decreases |a|
  {
    if a != [] {
      var k := Sorting.IndexInPermutation(a, b);
      MappedPreservesMultiset(a[1..], b[..k] + b[k + 1..]);
      MappedMultisetStep(a, b, k);
    }
  }

  /** Putting the first element of `a` back at position `k` of `b` keeps the mapped multisets equal. */
  lemma MappedMultisetStep(a: seq<string>, b: seq<string>, k: nat)
    requires |a| > 0 && k < |b| && b[k] == a[0]
    requires multiset(MappedSubjects(a[1..])) == multiset(MappedSubjects(b[..k] + b[k + 1..]))
    ensures multiset(MappedSubjects(a)) == multiset(MappedSubjects(b))
  {
    var x := a[0];
    var head, pre, post := MappedSubjects([x]), MappedSubjects(b[..k]), MappedSubjects(b[k + 1..]);
    assert MappedSubjects(a) == head + MappedSubjects(a[1..]) by {
      assert a == [x] + a[1..];
      MappedConcat([x], a[1..]);
    }
    assert MappedSubjects(b) == pre + (head + post) by {
      assert b == b[..k] + ([x] + b[k + 1..]);
      MappedConcat(b[..k], [x] + b[k + 1..]);
      MappedConcat([x], b[k + 1..]);
    }
    MappedConcat(b[..k], b[k + 1..]);
    Sorting.MultisetMiddle(pre, head, post);
  }

  lemma MappedConcat(u: seq<string>, v: seq<string>)
    ensures MappedSubjects(u + v) == MappedSubjects(u) + MappedSubjects(v)
  {
  }

  /**
   * One subject without a combination gets its analysis with no header and
   * no separator, or the fallback message when it has none.
   */
  lemma OneSubjectHasNoHeader(subject: string, config: Config, files: map<string, string>)
    requires Lookup(config.combinedSubjects, CombinedKey([MapKey(subject)])).None?
    ensures var file := Lookup(config.singleSubjects, MapKey(subject));
      Guidance(Subjects([subject]), Some(config), files) ==
        if file.None? then NO_CONTENT
        else if file.value !in files then FAILED
        else if files[file.value] == "" then NO_CONTENT
        else files[file.value]
  {
    var m := MapKey(subject);
    assert MappedSubjects([subject]) == [m];
    assert [m][..0] == [];
    assert Sections(config, files, false, [m]) == AndThen(Some(""), Piece(config, files, false, m));
  }

  /**
   * Several subjects without a combination always start with the header, so
   * the fallback message is never chosen for them, even when none of them
   * has an analysis.
   */
  lemma SeveralSubjectsStartWithHeader(selected: seq<string>, config: Config, files: map<string, string>)
    requires |selected| > 1
    requires Lookup(config.combinedSubjects, CombinedKey(MappedSubjects(selected))).None?
    requires Sections(config, files, true, MappedSubjects(selected)).Some?
    ensures var g := Guidance(Subjects(selected), Some(config), files);
      g == Header(DisplayNames(config, MappedSubjects(selected))) + Sections(config, files, true, MappedSubjects(selected)).value
  {
    var mapped := MappedSubjects(selected);
    assert Guidance(Subjects(selected), Some(config), files) == Assembled(config, files, mapped);
    AssembledWithHeader(config, files, mapped);
  }

  /** Several subjects whose analyses are all found: the header, then the sections. */
  lemma AssembledWithHeader(config: Config, files: map<string, string>, mapped: seq<string>)
    requires |mapped| > 1 && Sections(config, files, true, mapped).Some?
    ensures Assembled(config, files, mapped) == Header(DisplayNames(config, mapped)) + Sections(config, files, true, mapped).value
  {
    var h := Header(DisplayNames(config, mapped));
    assert (h + Sections(config, files, true, mapped).value)[0] == h[0];
  }

  /** With several subjects and no analysis for any of them, only the header is shown. */
  lemma SeveralSubjectsWithoutAnalysesShowOnlyHeader(selected: seq<string>, config: Config, files: map<string, string>)
    requires |selected| > 1
    requires Lookup(config.combinedSubjects, CombinedKey(MappedSubjects(selected))).None?
    requires forall i :: 0 <= i < |selected| ==> Lookup(config.singleSubjects, MapKey(selected[i])).None?
    ensures Guidance(Subjects(selected), Some(config), files) == Header(DisplayNames(config, MappedSubjects(selected)))
  {
    var mapped := MappedSubjects(selected);
    SectionsSkipAbsent(config, files, true, mapped);
    assert Guidance(Subjects(selected), Some(config), files) == Assembled(config, files, mapped);
    AssembledWithHeader(config, files, mapped);
    var h := Header(DisplayNames(config, mapped));
    assert h + "" == h;
  }
}
