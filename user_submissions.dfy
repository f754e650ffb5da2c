/**
 * The super-admin submissions table: the leaderboard entries filtered by a
 * search box, sorted by a chosen column in a chosen direction, a score badge
 * per row, and a reset action that refuses a blank e-mail before calling the
 * server. Loading the entries and the reset call itself are inputs.
 */
module UserSubmissions {
  import opened Wrappers
  import opened Text
  import Sorting

  datatype Entry = Entry(userId: int, name: string, email: string, school: string, rank: nat, score: int,
                         attemptedQuestions: Option<int>, totalAnswered: Option<int>, correctAnswers: int, accuracy: real)

  datatype SortField = Name | Score | AttemptedQuestions | CorrectAnswers | Accuracy

  datatype SortDirection = Asc | Desc

  /** `handleSort`: the same column flips the direction, another column is taken in descending order. */
  function SortToggled(field: SortField, direction: SortDirection, clicked: SortField): (SortField, SortDirection) {
    if field == clicked then (field, if direction == Asc then Desc else Asc)
    else (clicked, Desc)
  }

  /** Clicking a column always sorts by it; clicking it twice in a row restores the direction it had. */
  lemma SortToggleCycles(field: SortField, direction: SortDirection, clicked: SortField)
    ensures SortToggled(field, direction, clicked).0 == clicked
    ensures field != clicked ==> SortToggled(field, direction, clicked).1 == Desc
    ensures field == clicked ==> SortToggled(field, direction, clicked).1 != direction
    ensures var (f, d) := SortToggled(field, direction, clicked);
      SortToggled(f, d, clicked) == (clicked, if d == Asc then Desc else Asc)
    ensures field == clicked ==> SortToggled(clicked, SortToggled(field, direction, clicked).1, clicked) == (field, direction)
  {
  }

  /** The search: a case-insensitive substring of the name, the e-mail (when there is one) or the school. */
  predicate Matches(u: Entry, query: string) {
    var q := ToLower(query);
    || Contains(ToLower(u.name), q)
    || (u.email != "" && Contains(ToLower(u.email), q))
    || Contains(ToLower(u.school), q)
  }

  function Filtered(users: seq<Entry>, query: string): (r: seq<Entry>)
    ensures |r| <= |users|
    ensures forall u :: u in r <==> u in users && Matches(u, query)
  {
    if users == [] then []
    else
      var rest := Filtered(users[1..], query);
      assert forall u :: u in users <==> u == users[0] || u in users[1..];
      if Matches(users[0], query) then [users[0]] + rest else rest
  }

  lemma LowerCharIdempotent(c: char)
    ensures LowerChar(LowerChar(c)) == LowerChar(c)
  {
  }

  lemma ToLowerIdempotent(s: string)
    ensures ToLower(ToLower(s)) == ToLower(s)
  {
    forall i | 0 <= i < |s| ensures ToLower(ToLower(s))[i] == ToLower(s)[i] {
      LowerCharIdempotent(s[i]);
    }
  }

  /** The case of the query does not matter. */
  lemma QueryCaseIgnored(u: Entry, query: string)
    ensures Matches(u, query) <==> Matches(u, ToLower(query))
  {
    ToLowerIdempotent(query);
  }

  lemma EmptyOccursEverywhere(s: string)
    ensures Contains(s, "")
  {
    assert OccursAt(s, "", 0);
  }

  /** An empty search box shows every user. */
  lemma {:induction false} EmptyQueryKeepsAll(users: seq<Entry>)
    ensures Filtered(users, "") == users
  {
    if users != [] {
      EmptyOccursEverywhere(ToLower(users[0].name));
      assert ToLower("") == "";
      EmptyQueryKeepsAll(users[1..]);
      assert users == [users[0]] + users[1..];
    }
  }

  /** The number a numeric column sorts by; the attempted column falls back to `totalAnswered`, then to 0. */
  function NumericKey(u: Entry, field: SortField): real
    requires field != Name
  {
    match field
    case Score => u.score as real
    case AttemptedQuestions => (if u.attemptedQuestions.Some? then u.attemptedQuestions.value
                                else if u.totalAnswered.Some? then u.totalAnswered.value else 0) as real
    case CorrectAnswers => u.correctAnswers as real
    case Accuracy => u.accuracy
  }

  /** `a` may come before `b` in ascending order of the column. */
  predicate FieldLe(field: SortField, a: Entry, b: Entry) {
    if field == Name then StrLe(a.name, b.name) else NumericKey(a, field) <= NumericKey(b, field)
  }

  /**
   * The order the comparator sorts by: ascending puts `a` first unless its
   * value is greater, descending unless it is smaller.
   */
  function Before(field: SortField, direction: SortDirection): (le: (Entry, Entry) -> bool)
    ensures forall a, b :: le(a, b) || le(b, a)
  {
    FieldLeTotal(field);
    (a: Entry, b: Entry) => if direction == Asc then FieldLe(field, a, b) else FieldLe(field, b, a)
  }

  /** Any two entries are ordered one way or the other by any column. */
  lemma FieldLeTotal(field: SortField)
    ensures forall a, b :: FieldLe(field, a, b) || FieldLe(field, b, a)
  {
    forall a, b ensures FieldLe(field, a, b) || FieldLe(field, b, a) {
      if field == Name { StrLeTotal(a.name, b.name); }
    }
  }

  lemma BeforeIsTotalPreorder(field: SortField, direction: SortDirection)
    ensures Sorting.TotalPreorder(Before(field, direction))
  {
    var le := Before(field, direction);
    forall a, b ensures le(a, b) || le(b, a) {
      if field == Name { StrLeTotal(a.name, b.name); }
    }
    forall a, b, c | le(a, b) && le(b, c) ensures le(a, c) {
      if field == Name {
        if direction == Asc { StrLeTransitive(a.name, b.name, c.name); }
        else { StrLeTransitive(c.name, b.name, a.name); }
      }
    }
  }

  /** The rows on screen: the matching users, sorted by the chosen column. */
  function Rows(users: seq<Entry>, query: string, field: SortField, direction: SortDirection): (r: seq<Entry>)
    ensures |r| <= |users|
    ensures multiset(r) == multiset(Filtered(users, query))
  {
    Sorting.SortBy(Filtered(users, query), Before(field, direction))
  }

  /** The table shows exactly the matching users, each as often as it is loaded, in the chosen order. */
  lemma RowsAreSortedMatches(users: seq<Entry>, query: string, field: SortField, direction: SortDirection)
    ensures multiset(Rows(users, query, field, direction)) == multiset(Filtered(users, query))
    ensures forall u :: u in Rows(users, query, field, direction) <==> u in users && Matches(u, query)
    ensures Sorting.SortedBy(Rows(users, query, field, direction), Before(field, direction))
  {
    var r := Rows(users, query, field, direction);
    assert forall u :: u in r <==> u in multiset(r);
    BeforeIsTotalPreorder(field, direction);
    Sorting.SortBySorted(Filtered(users, query), Before(field, direction));
  }

  /** Leaderboard entries carry no `attemptedQuestions`, so that column sorts them by `totalAnswered`. */
  lemma AttemptedSortsByTotalAnswered(users: seq<Entry>, query: string)
    requires forall u :: u in users ==> u.attemptedQuestions.None? && u.totalAnswered.Some?
    ensures var r := Rows(users, query, AttemptedQuestions, Desc);
      forall i, j :: 0 <= i < j < |r| ==> r[i].totalAnswered.GetOr(0) >= r[j].totalAnswered.GetOr(0)
  {
    var r := Rows(users, query, AttemptedQuestions, Desc);
    RowsAreSortedMatches(users, query, AttemptedQuestions, Desc);
    forall i, j | 0 <= i < j < |r| ensures r[i].totalAnswered.GetOr(0) >= r[j].totalAnswered.GetOr(0) {
      assert r[i] in r && r[j] in r;
      assert Before(AttemptedQuestions, Desc)(r[i], r[j]);
    }
  }

  datatype Badge = Excellent | Good | Average | NeedsImprovement

  /** `getScoreBadge`. */
  function ScoreBadge(score: real): (b: Badge)
    ensures b == Excellent <==> score >= 90.0
    ensures b == Good <==> 75.0 <= score < 90.0
    ensures b == Average <==> 60.0 <= score < 75.0
    ensures b == NeedsImprovement <==> score < 60.0
  {
    if score >= 90.0 then Excellent
    else if score >= 75.0 then Good
    else if score >= 60.0 then Average
    else NeedsImprovement
  }

  /** The badges ranked from the lowest band (0) to the highest (3). */
  function BadgeLevel(b: Badge): (r: nat)
    ensures r <= 3
    ensures r == 3 <==> b == Excellent
    ensures r == 0 <==> b == NeedsImprovement
  {
    match b
    case NeedsImprovement => 0
    case Average => 1
    case Good => 2
    case Excellent => 3
  }

  /** A higher score never earns a lower badge, and each badge covers the band between its thresholds. */
  lemma ScoreBadgeMonotone(s: real, t: real)
    requires s <= t
    ensures BadgeLevel(ScoreBadge(s)) <= BadgeLevel(ScoreBadge(t))
    ensures ScoreBadge(s) == Excellent <==> s >= 90.0
    ensures ScoreBadge(s) == Good <==> 75.0 <= s < 90.0
    ensures ScoreBadge(s) == Average <==> 60.0 <= s < 75.0
    ensures ScoreBadge(s) == NeedsImprovement <==> s < 60.0
  {
  }

  const EMAIL_REQUIRED := "Email is required to reset user submissions"
  const RESET_DONE := "Successfully reset user submissions"
  const RESET_FAILED := "Failed to reset user submissions"
  const RESET_ERROR := "An error occurred while resetting submissions"

  /** The reply of `resetUserSubmissions`; an empty `message` stands for a missing one. */
  datatype ResetReply = ResetReply(success: bool, message: string)

  /** A toast: its variant (destructive for errors) and its description. */
  datatype Toast = Toast(destructive: bool, description: string)

  /** `message || fallback`. */
  function OrDefault(message: string, fallback: string): (r: string)
    requires fallback != ""
    ensures r != ""
    ensures message != "" ==> r == message
    ensures message == "" ==> r == fallback
  {
    if message == "" then fallback else message
  }

  /** The table's component state. */
  class SubmissionsTable {
    var users: seq<Entry>
    var searchQuery: string
    var sortField: SortField
    var sortDirection: SortDirection
    /** The e-mails a reset has been requested for, in order. */
    var resetRequests: seq<string>

    function Shown(): seq<Entry>
      reads this
    {
      Rows(users, searchQuery, sortField, sortDirection)
    }

    constructor()
      ensures users == [] && searchQuery == "" && sortField == Score && sortDirection == Desc && resetRequests == []
    {
      users := [];
      searchQuery := "";
      sortField := Score;
      sortDirection := Desc;
      resetRequests := [];
    }

    /** `loadUsers`: the entries replace the list when the request succeeded, else the list stays. */
    method LoadUsers(leaderboard: Option<seq<Entry>>)
      modifies this
      ensures users == if leaderboard.Some? then leaderboard.value else old(users)
      ensures searchQuery == old(searchQuery) && sortField == old(sortField) && sortDirection == old(sortDirection)
      ensures resetRequests == old(resetRequests)
    {
      if leaderboard.Some? {
        users := leaderboard.value;
      }
    }

    method HandleSort(clicked: SortField)
      modifies this
      ensures (sortField, sortDirection) == SortToggled(old(sortField), old(sortDirection), clicked)
      ensures users == old(users) && searchQuery == old(searchQuery) && resetRequests == old(resetRequests)
    {
      if sortField == clicked {
        sortDirection := if sortDirection == Asc then Desc else Asc;
      } else {
        sortField := clicked;
        sortDirection := Desc;
      }
    }

    method SetSearchQuery(query: string)
      modifies this
      ensures searchQuery == query
      ensures users == old(users) && sortField == old(sortField) && sortDirection == old(sortDirection)
      ensures resetRequests == old(resetRequests)
    {
      searchQuery := query;
    }

    /**
     * `handleReset`: an empty or blank e-mail is refused before any request is
     * made. Otherwise the reset is requested; `reply` is its reply, or None
     * when the call threw. After a successful reset the list is reloaded,
     * and `leaderboard` is the reply of that reload as in `LoadUsers`.
     */
    method HandleReset(email: string, reply: Option<ResetReply>, leaderboard: Option<seq<Entry>>)
      returns (error: Option<string>, toast: Toast)
      modifies this
      ensures error.Some? <==> Trim(email) == ""
      ensures error.Some? ==> error.value == EMAIL_REQUIRED && resetRequests == old(resetRequests)
                              && toast == Toast(true, EMAIL_REQUIRED)
      ensures error.None? ==> resetRequests == old(resetRequests) + [email]
      ensures error.None? && reply.Some? && reply.value.success ==>
                toast == Toast(false, OrDefault(reply.value.message, RESET_DONE))
                && users == if leaderboard.Some? then leaderboard.value else old(users)
      ensures error.None? && reply.Some? && !reply.value.success ==>
                toast == Toast(true, OrDefault(reply.value.message, RESET_FAILED)) && users == old(users)
      ensures error.None? && reply.None? ==> toast == Toast(true, RESET_ERROR) && users == old(users)
      ensures error.Some? ==> users == old(users)
      ensures searchQuery == old(searchQuery)
      ensures sortField == old(sortField) && sortDirection == old(sortDirection)
    {
      if email == "" || Trim(email) == "" {
        return Some(EMAIL_REQUIRED), Toast(true, EMAIL_REQUIRED);
      }
      resetRequests := resetRequests + [email];
      error := None;
      if reply.None? {
        toast := Toast(true, RESET_ERROR);
      } else if reply.value.success {
        toast := Toast(false, OrDefault(reply.value.message, RESET_DONE));
        LoadUsers(leaderboard);
      } else {
        toast := Toast(true, OrDefault(reply.value.message, RESET_FAILED));
      }
    }
  }
}
