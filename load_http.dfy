/**
 * The HTTP load test: the same phases as the direct test, but each selected
 * user first logs in through the application, only users whose login
 * produced cookies submit, and outcomes are tagged after the phase. HTTP
 * replies, the clock and randomness are inputs.
 */
module HttpLoadTest {
  import opened Wrappers
  import Text
  import PyRandom
  import opened LoadAnalysis

  const PHASES: seq<nat> := [50, 100, 150, 200, 250, 300, 350, 400, 450, 500]
  const QUESTIONS_PER_SUBMISSION: nat := 20
  const PAUSE_MS: nat := 5000

  /** A user record from the users file; `id` is assigned by the script. */
  datatype TestUser = TestUser(id: string, email: string, password: string)
  datatype TestQuestion = TestQuestion(id: string, text: string)

  datatype Cookie = Cookie(name: string, value: string)

  /** What one POST does: it answers with a status and body (and cookies), or it raises. */
  datatype HttpReply =
    | Responded(status: int, elapsedMs: nat, body: string, cookies: seq<Cookie>)
    | Raised(elapsedMs: nat, message: string)

  datatype SubmittedAnswer = SubmittedAnswer(questionId: string, selectedOptionId: int)

  /** The draws and reply one submission consumes. */
  datatype SubmitEnv = SubmitEnv(sampleDraws: seq<nat>, optionDraws: seq<nat>, reply: HttpReply)

  /** The draws and replies one phase consumes. */
  datatype PhaseEnv = PhaseEnv(userDraws: seq<nat>, loginReplies: seq<HttpReply>, submits: seq<SubmitEnv>)

  function ReplyAt(rs: seq<HttpReply>, i: nat): HttpReply {
    if i < |rs| then rs[i] else Raised(0, "no reply")
  }

  function SubmitAt(es: seq<SubmitEnv>, i: nat): SubmitEnv {
    if i < |es| then es[i] else SubmitEnv([], [], Raised(0, "no reply"))
  }

  function PhaseAt(es: seq<PhaseEnv>, i: nat): PhaseEnv {
    if i < |es| then es[i] else PhaseEnv([], [], [])
  }

  /** `login_user`: the cookies on HTTP 200, nothing on any other status or an exception. */
  function LoginUser(user: TestUser, reply: HttpReply): (r: Option<seq<Cookie>>)
    ensures r.Some? <==> reply.Responded? && reply.status == 200
    ensures r.Some? ==> r.value == reply.cookies
  {
    match reply
    case Responded(status, _, _, cookies) => if status == 200 then Some(cookies) else None
    case Raised(_, _) => None
  }

  /** Python truthiness of a login result: None and an empty cookie jar are both false. */
  predicate LoggedIn(login: Option<seq<Cookie>>) {
    login.Some? && |login.value| > 0
  }

  /** The positions of the logins that count as successful, ascending. */
  function KeptIndices(logins: seq<Option<seq<Cookie>>>): (r: seq<nat>)
    ensures forall k :: 0 <= k < |r| ==> r[k] < |logins| && LoggedIn(logins[r[k]])
    ensures forall i :: 0 <= i < |logins| && LoggedIn(logins[i]) ==> i in r
    ensures forall k, m :: 0 <= k < m < |r| ==> r[k] < r[m]
    ensures |r| <= |logins|
  {
    if |logins| == 0 then []
    else
      var front := KeptIndices(logins[..|logins| - 1]);
      assert forall i :: 0 <= i < |logins| - 1 ==> logins[..|logins| - 1][i] == logins[i];
      if LoggedIn(logins[|logins| - 1]) then front + [|logins| - 1] else front
  }

  /**
   * The filter of `run_phase`: the users whose login succeeded and their
   * cookies, kept in two index-aligned lists.
   */
  method FilterLoggedIn(selected: seq<TestUser>, logins: seq<Option<seq<Cookie>>>)
    returns (validUsers: seq<TestUser>, validCookies: seq<seq<Cookie>>)
    requires |logins| == |selected|
    ensures |validUsers| == |validCookies| == |KeptIndices(logins)|
    ensures forall k :: 0 <= k < |validUsers| ==>
      validUsers[k] == selected[KeptIndices(logins)[k]]
      && Some(validCookies[k]) == logins[KeptIndices(logins)[k]]
  {
    validUsers, validCookies := [], [];
    var i := 0;
    while i < |logins|
      invariant 0 <= i <= |logins|
      invariant |validUsers| == |validCookies| == |KeptIndices(logins[..i])|
      invariant forall k :: 0 <= k < |validUsers| ==>
        validUsers[k] == selected[KeptIndices(logins[..i])[k]]
        && Some(validCookies[k]) == logins[KeptIndices(logins[..i])[k]]
    {
      KeptIndicesStep(logins, i);
      if LoggedIn(logins[i]) {
        validUsers := validUsers + [selected[i]];
        validCookies := validCookies + [logins[i].value];
      }
      i := i + 1;
    }
    assert logins[..i] == logins;
  }

  lemma KeptIndicesStep(logins: seq<Option<seq<Cookie>>>, i: nat)
    requires i < |logins|
    ensures KeptIndices(logins[..i + 1])
      == KeptIndices(logins[..i]) + (if LoggedIn(logins[i]) then [i] else [])
  {
    assert logins[..i + 1][..i] == logins[..i];
  }

  /** The answers of one submission: a random option id in 1..4 per selected question. */
  method BuildAnswers(selected: seq<TestQuestion>, optionDraws: seq<nat>) returns (answers: seq<SubmittedAnswer>)
    ensures |answers| == |selected|
    ensures forall i :: 0 <= i < |answers| ==>
      answers[i].questionId == selected[i].id && 1 <= answers[i].selectedOptionId <= 4
  {
    answers := [];
    for i := 0 to |selected|
      invariant |answers| == i
      invariant forall k :: 0 <= k < i ==>
        answers[k].questionId == selected[k].id && 1 <= answers[k].selectedOptionId <= 4
    {
      var option := PyRandom.RandInt(1, 4, PyRandom.DrawAt(optionDraws, i));
      answers := answers + [SubmittedAnswer(selected[i].id, option)];
    }
  }

  /** The record `submit_quiz` returns: success only on HTTP 200, the latency always. */
  function SubmitOutcome(userId: string, reply: HttpReply): (o: Outcome)
    ensures o.success <==> reply.Responded? && reply.status == 200
    ensures o.responseTime == reply.elapsedMs && o.userId == userId
    ensures o.numAnswers == None && o.concurrentUsers == None
    ensures o.success <==> o.error == None
    ensures !o.success && reply.Responded? ==> o.error == Some(reply.body)
    ensures reply.Raised? ==> o.error == Some(reply.message)
  {
    match reply
    case Responded(status, ms, body, _) =>
      if status == 200 then Outcome(true, ms, userId, None, None, None)
      else Outcome(false, ms, userId, None, Some(body), None)
    case Raised(ms, msg) => Outcome(false, ms, userId, None, Some(msg), None)
  }

  predicate DistinctIds(qs: seq<TestQuestion>) {
    forall i, j :: 0 <= i < j < |qs| ==> qs[i].id != qs[j].id
  }

  /** `submit_quiz`: answer min(20, |questions|) distinct questions and post them. */
  method SubmitQuiz(userId: string, questions: seq<TestQuestion>, env: SubmitEnv)
    returns (outcome: Outcome, answers: seq<SubmittedAnswer>)
    ensures outcome == SubmitOutcome(userId, env.reply)
    ensures |answers| == if |questions| < QUESTIONS_PER_SUBMISSION then |questions| else QUESTIONS_PER_SUBMISSION
    ensures forall i :: 0 <= i < |answers| ==> 1 <= answers[i].selectedOptionId <= 4
    ensures forall i :: 0 <= i < |answers| ==> exists q :: q in questions && q.id == answers[i].questionId
    ensures DistinctIds(questions) ==>
      forall i, j :: 0 <= i < j < |answers| ==> answers[i].questionId != answers[j].questionId
  {
    var k := if |questions| < QUESTIONS_PER_SUBMISSION then |questions| else QUESTIONS_PER_SUBMISSION;
    var sample := PyRandom.Sample(questions, k, env.sampleDraws);
    var selected := sample.value;
    forall i | 0 <= i < |selected| ensures selected[i] in questions {
      assert selected[i] in multiset(selected);
    }
    if DistinctIds(questions) {
      PyRandom.SubMultisetOfDistinct(questions, selected);
    }
    answers := BuildAnswers(selected, env.optionDraws);
    outcome := SubmitOutcome(userId, env.reply);
  }

  /** The login result of each drawn user, in draw order. */
  function Logins(selected: seq<TestUser>, env: PhaseEnv): seq<Option<seq<Cookie>>> {
    seq(|selected|, i requires 0 <= i < |selected| => LoginUser(selected[i], ReplyAt(env.loginReplies, i)))
  }

  /**
   * What one successful phase of size `level` returned, before tagging:
   * `selected` is a draw of `level` users from the pool, and the k-th outcome
   * is the submission of the k-th drawn user whose login succeeded, run on
   * the k-th submission environment.
   */
  ghost predicate PhaseRun(level: nat, users: seq<TestUser>, env: PhaseEnv, selected: seq<TestUser>, outcomes: seq<Outcome>) {
    && |selected| == level
    && multiset(selected) <= multiset(users)
    && (var kept := KeptIndices(Logins(selected, env));
        && |outcomes| == |kept|
        && forall k :: 0 <= k < |kept| ==> outcomes[k] == SubmitOutcome(selected[kept[k]].id, SubmitAt(env.submits, k).reply))
  }

  predicate DistinctUserIds(users: seq<TestUser>) {
    forall i, j :: 0 <= i < j < |users| ==> users[i].id != users[j].id
  }

  /**
   * A phase returns at most one outcome per drawn user, each naming a user of
   * the pool, and no user twice when the pool's ids are distinct.
   */
  lemma PhaseRunUsers(level: nat, users: seq<TestUser>, env: PhaseEnv, selected: seq<TestUser>, outcomes: seq<Outcome>)
    requires PhaseRun(level, users, env, selected, outcomes)
    ensures |outcomes| <= level
    ensures forall k :: 0 <= k < |outcomes| ==> exists u :: u in users && u.id == outcomes[k].userId
    ensures DistinctUserIds(users) ==>
      forall i, j :: 0 <= i < j < |outcomes| ==> outcomes[i].userId != outcomes[j].userId
  {
    if DistinctUserIds(users) {
      PhaseRunDistinct(level, users, env, selected, outcomes);
    }
    var kept := KeptIndices(Logins(selected, env));
    forall k | 0 <= k < |outcomes| ensures exists u :: u in users && u.id == outcomes[k].userId {
      assert outcomes[k].userId == selected[kept[k]].id;
      assert selected[kept[k]] in multiset(selected);
      assert selected[kept[k]] in users;
    }
  }

  lemma PhaseRunDistinct(level: nat, users: seq<TestUser>, env: PhaseEnv, selected: seq<TestUser>, outcomes: seq<Outcome>)
    requires PhaseRun(level, users, env, selected, outcomes) && DistinctUserIds(users)
    ensures forall i, j :: 0 <= i < j < |outcomes| ==> outcomes[i].userId != outcomes[j].userId
  {
    var kept := KeptIndices(Logins(selected, env));
    assert PyRandom.Distinct(users);
    PyRandom.SubMultisetOfDistinct(users, selected);
    forall i, j | 0 <= i < j < |outcomes| ensures outcomes[i].userId != outcomes[j].userId {
      DrawnIdsDiffer(users, selected, kept[i], kept[j]);
    }
  }

  /** Two different draws from a pool with distinct ids carry different ids. */
  lemma DrawnIdsDiffer(users: seq<TestUser>, selected: seq<TestUser>, a: nat, b: nat)
    requires DistinctUserIds(users) && PyRandom.Distinct(selected)
    requires multiset(selected) <= multiset(users)
    requires a < b < |selected|
    ensures selected[a].id != selected[b].id
  {
    assert selected[a] in multiset(selected) && selected[b] in multiset(selected);
    var ia :| 0 <= ia < |users| && users[ia] == selected[a];
    var ib :| 0 <= ib < |users| && users[ib] == selected[b];
  }

  /**
   * `run_phase`: draw `numUsers` distinct users (ValueError when there are not
   * enough), log each in, and have only the users that logged in submit. The
   * outcomes come back untagged.
   */
  method RunPhase(numUsers: nat, users: seq<TestUser>, questions: seq<TestQuestion>, env: PhaseEnv)
    returns (r: Result<seq<Outcome>, string>, ghost selected: seq<TestUser>)
    ensures r.Failure? <==> numUsers > |users|
    ensures r.Success? ==> PhaseRun(numUsers, users, env, selected, r.value)
    ensures r.Success? ==> |r.value| <= numUsers
    ensures r.Success? ==> forall i :: 0 <= i < |r.value| ==>
      r.value[i].concurrentUsers == None && exists u :: u in users && u.id == r.value[i].userId
  {
    var sample := PyRandom.Sample(users, numUsers, env.userDraws);
    if sample.Failure? {
      return Failure(sample.error), [];
    }
    var drawn := sample.value;
    var logins := seq(|drawn|, i requires 0 <= i < |drawn| => LoginUser(drawn[i], ReplyAt(env.loginReplies, i)));
    assert logins == Logins(drawn, env);
    var validUsers, validCookies := FilterLoggedIn(drawn, logins);
    forall k | 0 <= k < |validUsers| ensures validUsers[k] in users {
      assert validUsers[k] in multiset(drawn);
    }
    var results := SubmitAll(validUsers, questions, env.submits);
    forall k | 0 <= k < |results| ensures exists u :: u in users && u.id == results[k].userId {
      assert validUsers[k] in users;
    }
    r, selected := Success(results), drawn;
  }

  /** One submission per logged-in user, in order, each tagged with no level yet. */
  method SubmitAll(validUsers: seq<TestUser>, questions: seq<TestQuestion>, submits: seq<SubmitEnv>)
    returns (results: seq<Outcome>)
    ensures |results| == |validUsers|
    ensures forall k :: 0 <= k < |results| ==> results[k] == SubmitOutcome(validUsers[k].id, SubmitAt(submits, k).reply)
  {
    results := [];
    for i := 0 to |validUsers|
      invariant |results| == i
      invariant forall k :: 0 <= k < i ==> results[k] == SubmitOutcome(validUsers[k].id, SubmitAt(submits, k).reply)
    {
      var outcome, _ := SubmitQuiz(validUsers[i].id, questions, SubmitAt(submits, i));
      results := results + [outcome];
    }
  }

  /** A phase's results with every outcome tagged with the phase's level. */
  function Tag(results: seq<Outcome>, level: nat): seq<Outcome> {
    seq(|results|, i requires 0 <= i < |results| => results[i].(concurrentUsers := Some(level)))
  }

  /** The tagging loop after a phase: every result gets the phase's level, nothing else changes. */
  method TagPhase(results: seq<Outcome>, level: nat) returns (tagged: seq<Outcome>)
    ensures |tagged| == |results|
    ensures forall i :: 0 <= i < |results| ==> tagged[i] == results[i].(concurrentUsers := Some(level))
    ensures tagged == Tag(results, level)
  {
    tagged := results;
    for i := 0 to |results|
      invariant |tagged| == |results|
      invariant forall k :: 0 <= k < i ==> tagged[k] == results[k].(concurrentUsers := Some(level))
      invariant forall k :: i <= k < |results| ==> tagged[k] == results[k]
    {
      tagged := tagged[i := tagged[i].(concurrentUsers := Some(level))];
    }
  }

  /** The ids the script gives the users file: `user_1`, `user_2`, ... in file order. */
  function UserId(i: nat): string {
    "user_" + Text.NatToString(i + 1)
  }

  function QuestionId(i: nat): string {
    "question_" + Text.NatToString(i + 1)
  }

  method AssignUserIds(users: seq<TestUser>) returns (r: seq<TestUser>)
    ensures |r| == |users|
    ensures forall i :: 0 <= i < |users| ==> r[i] == users[i].(id := UserId(i))
  {
    r := users;
    for i := 0 to |users|
      invariant |r| == |users|
      invariant forall k :: 0 <= k < i ==> r[k] == users[k].(id := UserId(k))
      invariant forall k :: i <= k < |users| ==> r[k] == users[k]
    {
      r := r[i := r[i].(id := UserId(i))];
    }
  }

  method AssignQuestionIds(questions: seq<TestQuestion>) returns (r: seq<TestQuestion>)
    ensures |r| == |questions|
    ensures forall i :: 0 <= i < |questions| ==> r[i] == questions[i].(id := QuestionId(i))
  {
    r := questions;
    for i := 0 to |questions|
      invariant |r| == |questions|
      invariant forall k :: 0 <= k < i ==> r[k] == questions[k].(id := QuestionId(k))
      invariant forall k :: i <= k < |questions| ==> r[k] == questions[k]
    {
      r := r[i := r[i].(id := QuestionId(i))];
    }
  }

  lemma PrefixedNumbersDiffer(prefix: string, m: nat, n: nat)
    requires m != n
    ensures prefix + Text.NatToString(m) != prefix + Text.NatToString(n)
  {
    if prefix + Text.NatToString(m) == prefix + Text.NatToString(n) {
      assert Text.NatToString(m) == (prefix + Text.NatToString(m))[|prefix|..];
      assert Text.NatToString(n) == (prefix + Text.NatToString(n))[|prefix|..];
      Text.NatToStringInjective(m, n);
    }
  }

  /** The assigned ids are distinct, so each outcome's user id names one user. */
  lemma AssignedIdsDistinct(i: nat, j: nat)
    requires i != j
    ensures UserId(i) != UserId(j) && QuestionId(i) != QuestionId(j)
  {
    PrefixedNumbersDiffer("user_", i + 1, j + 1);
    PrefixedNumbersDiffer("question_", i + 1, j + 1);
  }

  /** The tags of a run in which phase k had counts[k] logged-in users. */
  function CountedPhaseTags(phases: seq<nat>, counts: seq<nat>): seq<Option<nat>>
    requires |counts| == |phases|
  {
    if |phases| == 0 then []
    else seq(counts[0], _ => Some(phases[0])) + CountedPhaseTags(phases[1..], counts[1..])
  }

  class HttpLoadRunner {
    /** Milliseconds spent in the pauses between phases. */
    var clockMs: nat

    constructor ()
      ensures clockMs == 0
    {
      clockMs := 0;
    }

    /**
     * `run_load_test`: number the users and questions, then run the phases in
     * PHASES order, tag each phase's outcomes with its level after the phase,
     * append them and pause, also after the last phase.
     */
    method RunLoadTest(users: seq<TestUser>, questions: seq<TestQuestion>, envs: seq<PhaseEnv>)
      returns (r: Result<seq<Outcome>, string>, ghost counts: seq<nat>, ghost pool: seq<TestUser>,
               ghost raw: seq<seq<Outcome>>, ghost samples: seq<seq<TestUser>>, ghost tagged: seq<seq<Outcome>>)
      modifies this
      ensures |pool| == |users| && forall i :: 0 <= i < |users| ==> pool[i] == users[i].(id := UserId(i))
      ensures r.Failure? <==> exists k :: 0 <= k < |PHASES| && PHASES[k] > |users|
      ensures r.Success? ==>
        && |raw| == |PHASES| && |samples| == |PHASES| && |tagged| == |PHASES|
        && r.value == Flatten(tagged)
        && forall k :: 0 <= k < |PHASES| ==>
             PhaseRun(PHASES[k], pool, PhaseAt(envs, k), samples[k], raw[k]) && tagged[k] == Tag(raw[k], PHASES[k])
      ensures r.Success? ==> forall k, i, j :: 0 <= k < |PHASES| && 0 <= i < j < |raw[k]| ==>
        raw[k][i].userId != raw[k][j].userId
      ensures r.Success? ==>
        && |counts| == |PHASES|
        && (forall k :: 0 <= k < |PHASES| ==> counts[k] <= PHASES[k])
        && TagsOf(r.value) == CountedPhaseTags(PHASES, counts)
      ensures r.Success? ==> clockMs == old(clockMs) + PAUSE_MS * |PHASES|
    {
      var numbered := AssignUserIds(users);
      var numberedQuestions := AssignQuestionIds(questions);
      pool := numbered;
      forall i, j | 0 <= i < j < |pool| ensures pool[i].id != pool[j].id {
        AssignedIdsDistinct(i, j);
      }
      r, counts, raw, samples, tagged := RunPhases(PHASES, numbered, numberedQuestions, envs);
      if r.Success? {
        forall k | 0 <= k < |PHASES| ensures forall i, j :: 0 <= i < j < |raw[k]| ==> raw[k][i].userId != raw[k][j].userId {
          PhaseRunUsers(PHASES[k], pool, PhaseAt(envs, k), samples[k], raw[k]);
        }
      }
    }

    /** The phase loop of `run_load_test`, over any list of phase levels. */
    method RunPhases(levels: seq<nat>, users: seq<TestUser>, questions: seq<TestQuestion>, envs: seq<PhaseEnv>)
      returns (r: Result<seq<Outcome>, string>, ghost counts: seq<nat>,
               ghost raw: seq<seq<Outcome>>, ghost samples: seq<seq<TestUser>>, ghost tagged: seq<seq<Outcome>>)
      modifies this
      ensures r.Failure? <==> exists k :: 0 <= k < |levels| && levels[k] > |users|
      ensures r.Success? ==> Recorded(levels, |levels|, users, envs, r.value, raw, samples, tagged)
      ensures r.Success? ==>
        && |counts| == |levels|
        && (forall k :: 0 <= k < |levels| ==> counts[k] <= levels[k])
        && TagsOf(r.value) == CountedPhaseTags(levels, counts)
      ensures r.Success? ==> clockMs == old(clockMs) + PAUSE_MS * |levels|
    {
      var all: seq<Outcome> := [];
      counts, raw, samples, tagged := [], [], [], [];
      var p := 0;
      while p < |levels|
        invariant 0 <= p <= |levels| && |counts| == p
        invariant Recorded(levels, p, users, envs, all, raw, samples, tagged)
        invariant forall k :: 0 <= k < p ==> counts[k] <= levels[k]
        invariant TagsOf(all) == CountedPhaseTags(levels[..p], counts)
        invariant clockMs == old(clockMs) + PAUSE_MS * p
      {
        var phase, selected := RunPhase(levels[p], users, questions, PhaseAt(envs, p));
        if phase.Failure? {
          return Failure(phase.error), counts, raw, samples, tagged;
        }
        var taggedPhase := TagPhase(phase.value, levels[p]);
        PhaseRunUsers(levels[p], users, PhaseAt(envs, p), selected, phase.value);
        CountedTagsStep(all, taggedPhase, levels[..p], counts, levels[p]);
        RecordedStep(levels, p, users, envs, all, raw, samples, tagged, selected, phase.value);
        assert levels[..p + 1] == levels[..p] + [levels[p]];
        all := all + taggedPhase;
        counts := counts + [|taggedPhase|];
        raw, samples, tagged := raw + [phase.value], samples + [selected], tagged + [taggedPhase];
        clockMs := clockMs + PAUSE_MS;
        p := p + 1;
      }
      assert levels[..p] == levels;
      r := Success(all);
    }
  }

  /**
   * The first `p` of the phases `levels` have run: each fitted the user pool,
   * `raw` and `samples` record each one's untagged results and draw, `tagged`
   * the results with the level, and `all` is the concatenation of the tagged results.
   */
  ghost predicate Recorded(levels: seq<nat>, p: nat, users: seq<TestUser>, envs: seq<PhaseEnv>, all: seq<Outcome>,
                           raw: seq<seq<Outcome>>, samples: seq<seq<TestUser>>, tagged: seq<seq<Outcome>>)
    requires p <= |levels|
  {
    && (forall k :: 0 <= k < p ==> levels[k] <= |users|)
    && |raw| == p && |samples| == p && |tagged| == p && all == Flatten(tagged)
    && (forall k :: 0 <= k < p ==>
         PhaseRun(levels[k], users, PhaseAt(envs, k), samples[k], raw[k]) && tagged[k] == Tag(raw[k], levels[k]))
  }

  /** Recording phase `p`'s run extends the record to the first `p + 1` phases. */
  lemma RecordedStep(levels: seq<nat>, p: nat, users: seq<TestUser>, envs: seq<PhaseEnv>, all: seq<Outcome>,
                     raw: seq<seq<Outcome>>, samples: seq<seq<TestUser>>, tagged: seq<seq<Outcome>>,
                     selected: seq<TestUser>, outcomes: seq<Outcome>)
    requires p < |levels| && Recorded(levels, p, users, envs, all, raw, samples, tagged)
    requires levels[p] <= |users|
    requires PhaseRun(levels[p], users, PhaseAt(envs, p), selected, outcomes)
    ensures Recorded(levels, p + 1, users, envs, all + Tag(outcomes, levels[p]),
                     raw + [outcomes], samples + [selected], tagged + [Tag(outcomes, levels[p])])
  {
    var tagged' := tagged + [Tag(outcomes, levels[p])];
    assert tagged'[..p] == tagged;
    var raw', samples' := raw + [outcomes], samples + [selected];
    assert forall k :: 0 <= k < p ==> raw'[k] == raw[k] && samples'[k] == samples[k] && tagged'[k] == tagged[k];
  }

  lemma {:induction false} CountedTagsAppend(phases: seq<nat>, counts: seq<nat>, level: nat, c: nat)
    requires |counts| == |phases|
    ensures CountedPhaseTags(phases + [level], counts + [c])
      == CountedPhaseTags(phases, counts) + seq(c, _ => Some(level))
  {
    if |phases| == 0 {
      assert phases + [level] == [level] && counts + [c] == [c];
    } else {
      assert (phases + [level])[1..] == phases[1..] + [level];
      assert (counts + [c])[1..] == counts[1..] + [c];
      CountedTagsAppend(phases[1..], counts[1..], level, c);
    }
  }

  lemma CountedTagsStep(all: seq<Outcome>, tagged: seq<Outcome>, phases: seq<nat>, counts: seq<nat>, level: nat)
    requires |counts| == |phases|
    requires TagsOf(all) == CountedPhaseTags(phases, counts)
    requires forall i :: 0 <= i < |tagged| ==> tagged[i].concurrentUsers == Some(level)
    ensures TagsOf(all + tagged) == CountedPhaseTags(phases + [level], counts + [|tagged|])
  {
    CountedTagsAppend(phases, counts, level, |tagged|);
    assert TagsOf(all + tagged) == TagsOf(all) + seq(|tagged|, _ => Some(level));
  }
}
