/**
 * The direct-to-database load test: phases of growing size, each drawing that
 * many distinct users and having each of them insert one batch of 20 random
 * answers, timed. Randomness, the clock and the database's reply are inputs.
 */
module DirectLoadTest {
  import opened Wrappers
  import PyRandom
  import opened LoadAnalysis

  /** The concurrency level of each phase, in the order the phases run. */
  const PHASES: seq<nat> := [50, 100, 150, 200, 250, 300, 350, 400, 450, 500]
  /** Questions answered per submission (the `num_questions` default). */
  const NUM_QUESTIONS: nat := 20
  /** The pause after each phase, in milliseconds. */
  const PAUSE_MS: nat := 5000

  datatype GeneratedOption = GeneratedOption(id: int, text: string)
  datatype GeneratedQuestion = GeneratedQuestion(id: string, text: string, options: seq<GeneratedOption>, correctOptionId: int)

  /** One submitted-answer document. Timestamps are left out. */
  datatype Answer = Answer(questionId: string, userId: string, selectedOptionId: int, timeTakenSeconds: int)

  /** What the database does with one `insert_many`: it returns, or it raises. */
  datatype StoreReply = Inserted(elapsedMs: nat) | Raised(elapsedMs: nat, message: string)

  /** The draws and the reply one submission consumes. */
  datatype OpEnv = OpEnv(sampleDraws: seq<nat>, optionDraws: seq<nat>, timeDraws: seq<nat>, reply: StoreReply)

  /** The draws one phase consumes: the user sample, then one OpEnv per selected user. */
  datatype PhaseEnv = PhaseEnv(userDraws: seq<nat>, ops: seq<OpEnv>)

  function OpAt(ops: seq<OpEnv>, i: nat): OpEnv {
    if i < |ops| then ops[i] else OpEnv([], [], [], Inserted(0))
  }

  function PhaseAt(envs: seq<PhaseEnv>, i: nat): PhaseEnv {
    if i < |envs| then envs[i] else PhaseEnv([], [])
  }

  function Min(a: nat, b: nat): nat { if a <= b then a else b }

  /** The `submittedanswers` collection. */
  class SubmissionStore {
    var submitted: seq<Answer>

    constructor ()
      ensures submitted == []
    {
      submitted := [];
    }

    /** `insert_many`: the batch is stored only when the insert returns. */
    method InsertMany(batch: seq<Answer>, reply: StoreReply)
      modifies this
      ensures submitted == if reply.Inserted? then old(submitted) + batch else old(submitted)
    {
      if reply.Inserted? {
        submitted := submitted + batch;
      }
    }

    /** `delete_many({})`. */
    method DeleteAll()
      modifies this
      ensures submitted == []
    {
      submitted := [];
    }
  }

  /**
   * The four options of a generated question, numbered 1 to 4 in order,
   * and a correct option drawn with `randint(1, 4)`.
   */
  method GenerateQuestion(id: string, text: string, optionTexts: seq<string>, correctDraw: nat)
    returns (q: GeneratedQuestion)
    requires |optionTexts| == 4
    ensures q.id == id && q.text == text && |q.options| == 4
    ensures forall j :: 0 <= j < 4 ==> q.options[j] == GeneratedOption(j + 1, optionTexts[j])
    ensures 1 <= q.correctOptionId <= 4
    ensures exists j :: 0 <= j < 4 && q.options[j].id == q.correctOptionId
  {
    var options: seq<GeneratedOption> := [];
    for j := 0 to 4
      invariant |options| == j
      invariant forall k :: 0 <= k < j ==> options[k] == GeneratedOption(k + 1, optionTexts[k])
    {
      options := options + [GeneratedOption(j + 1, optionTexts[j])];
    }
    var correct := PyRandom.RandInt(1, 4, correctDraw);
    assert options[correct - 1].id == correct;
    q := GeneratedQuestion(id, text, options, correct);
  }

  /** The answer documents for the selected questions: one each, in selection order. */
  method BuildAnswers(userId: string, selected: seq<string>, optionDraws: seq<nat>, timeDraws: seq<nat>)
    returns (answers: seq<Answer>)
    ensures |answers| == |selected|
    ensures forall i :: 0 <= i < |answers| ==>
      answers[i].questionId == selected[i] && answers[i].userId == userId
      && 1 <= answers[i].selectedOptionId <= 4
      && 30 <= answers[i].timeTakenSeconds <= 300
  {
    answers := [];
    var i := 0;
    while i < |selected|
      invariant 0 <= i <= |selected| && |answers| == i
      invariant forall k :: 0 <= k < i ==>
        answers[k].questionId == selected[k] && answers[k].userId == userId
        && 1 <= answers[k].selectedOptionId <= 4
        && 30 <= answers[k].timeTakenSeconds <= 300
    {
      var option := PyRandom.RandInt(1, 4, PyRandom.DrawAt(optionDraws, i));
      var seconds := PyRandom.RandInt(30, 300, PyRandom.DrawAt(timeDraws, i));
      answers := answers + [Answer(selected[i], userId, option, seconds)];
      i := i + 1;
    }
  }

  /** The record `submit_quiz_answers` returns for a batch of `count` answers. */
  function SubmissionOutcome(userId: string, count: nat, reply: StoreReply): (o: Outcome)
    ensures o.success <==> reply.Inserted?
    ensures o.responseTime == reply.elapsedMs && o.userId == userId && o.concurrentUsers == None
    ensures o.success ==> o.numAnswers == Some(count) && o.error == None
    ensures !o.success ==> o.numAnswers == None && o.error == Some(reply.message)
  {
    match reply
    case Inserted(ms) => Outcome(true, ms, userId, Some(count), None, None)
    case Raised(ms, msg) => Outcome(false, ms, userId, None, Some(msg), None)
  }

  /**
   * `submit_quiz_answers`: answer min(20, pool size) distinct questions with
   * random options, insert them in one batch and report the outcome. The
   * latency is reported on both the success and the failure path.
   */
  method SubmitQuizAnswers(store: SubmissionStore, userId: string, questionIds: seq<string>, env: OpEnv)
    returns (outcome: Outcome, batch: seq<Answer>)
    modifies store
    ensures outcome == SubmissionOutcome(userId, Min(NUM_QUESTIONS, |questionIds|), env.reply)
    ensures |batch| == Min(NUM_QUESTIONS, |questionIds|)
    ensures forall i :: 0 <= i < |batch| ==>
      batch[i].questionId in questionIds && batch[i].userId == userId
      && 1 <= batch[i].selectedOptionId <= 4
    ensures PyRandom.Distinct(questionIds) ==>
      forall i, j :: 0 <= i < j < |batch| ==> batch[i].questionId != batch[j].questionId
    ensures store.submitted == old(store.submitted) + (if outcome.success then batch else [])
  {
    var k := Min(NUM_QUESTIONS, |questionIds|);
    var sample := PyRandom.Sample(questionIds, k, env.sampleDraws);
    var selected := sample.value;
    forall i | 0 <= i < |selected| ensures selected[i] in questionIds {
      assert selected[i] in multiset(selected);
    }
    if PyRandom.Distinct(questionIds) {
      PyRandom.SubMultisetOfDistinct(questionIds, selected);
    }
    batch := BuildAnswers(userId, selected, env.optionDraws, env.timeDraws);
    store.InsertMany(batch, env.reply);
    outcome := SubmissionOutcome(userId, |batch|, env.reply);
  }

  /** The outcome of one submission of a phase of size `level`: the submission's record, tagged with the level. */
  function TaggedOutcome(level: nat, userId: string, questionIds: seq<string>, op: OpEnv): (o: Outcome)
    ensures o.concurrentUsers == Some(level) && o.userId == userId
    ensures o.success <==> op.reply.Inserted?
  {
    SubmissionOutcome(userId, Min(NUM_QUESTIONS, |questionIds|), op.reply).(concurrentUsers := Some(level))
  }

  /**
   * What one successful phase of size `level` produced: `selected` is a draw of
   * `level` users from the pool, and the k-th outcome is the k-th drawn user's
   * submission, run on the k-th operation environment and tagged with the level.
   */
  ghost predicate PhaseRun(level: nat, userIds: seq<string>, questionIds: seq<string>, env: PhaseEnv,
                           selected: seq<string>, outcomes: seq<Outcome>)
  {
    && |selected| == level && |outcomes| == level
    && multiset(selected) <= multiset(userIds)
    && (forall k :: 0 <= k < level ==> outcomes[k] == TaggedOutcome(level, selected[k], questionIds, OpAt(env.ops, k)))
  }

  /**
   * Every outcome of a phase names a user of the pool and carries the phase's
   * level, and no user submits twice when the pool's ids are distinct.
   */
  lemma PhaseRunUsers(level: nat, userIds: seq<string>, questionIds: seq<string>, env: PhaseEnv,
                      selected: seq<string>, outcomes: seq<Outcome>)
    requires PhaseRun(level, userIds, questionIds, env, selected, outcomes)
    ensures forall k :: 0 <= k < level ==>
      outcomes[k].userId in userIds && outcomes[k].concurrentUsers == Some(level)
    ensures PyRandom.Distinct(userIds) ==>
      forall i, j :: 0 <= i < j < level ==> outcomes[i].userId != outcomes[j].userId
  {
    forall k | 0 <= k < level ensures outcomes[k].userId in userIds {
      assert selected[k] in multiset(selected);
    }
    if PyRandom.Distinct(userIds) {
      PyRandom.SubMultisetOfDistinct(userIds, selected);
    }
  }

  /** The stored batches of a phase: one per outcome, full when the insert returned and empty when it raised. */
  ghost predicate BatchesFit(outcomes: seq<Outcome>, batches: seq<seq<Answer>>, questionIds: seq<string>) {
    && |batches| == |outcomes|
    && (forall k :: 0 <= k < |outcomes| ==>
         |batches[k]| == (if outcomes[k].success then Min(NUM_QUESTIONS, |questionIds|) else 0))
  }

  /**
   * The submissions of one phase, one per selected user in selection order,
   * each outcome tagged with the phase's level.
   */
  method SubmitAll(store: SubmissionStore, level: nat, selected: seq<string>, questionIds: seq<string>, ops: seq<OpEnv>)
    returns (results: seq<Outcome>, batches: seq<seq<Answer>>)
    modifies store
    ensures |results| == |selected| && |batches| == |selected|
    ensures forall k :: 0 <= k < |selected| ==>
      results[k].concurrentUsers == Some(level) && results[k].userId == selected[k]
    ensures forall k :: 0 <= k < |selected| ==>
      results[k] == TaggedOutcome(level, selected[k], questionIds, OpAt(ops, k))
    ensures forall k :: 0 <= k < |selected| ==>
      |batches[k]| == (if results[k].success then Min(NUM_QUESTIONS, |questionIds|) else 0)
    ensures store.submitted == old(store.submitted) + Flatten(batches)
  {
    results, batches := [], [];
    var i := 0;
    while i < |selected|
      invariant 0 <= i <= |selected| && |results| == i && |batches| == i
      invariant forall k :: 0 <= k < i ==>
        results[k] == TaggedOutcome(level, selected[k], questionIds, OpAt(ops, k))
      invariant forall k :: 0 <= k < i ==>
        |batches[k]| == (if results[k].success then Min(NUM_QUESTIONS, |questionIds|) else 0)
      invariant store.submitted == old(store.submitted) + Flatten(batches)
    {
      var outcome, batch := SubmitQuizAnswers(store, selected[i], questionIds, OpAt(ops, i));
      var stored := if outcome.success then batch else [];
      assert (batches + [stored])[..i] == batches;
      results := results + [outcome.(concurrentUsers := Some(level))];
      batches := batches + [stored];
      i := i + 1;
    }
  }

  /**
   * `run_phase`: draw `numUsers` distinct users (a ValueError when there are
   * not enough) and run one submission per user, tagging every outcome with
   * the phase's level.
   */
  method RunPhase(store: SubmissionStore, numUsers: nat, userIds: seq<string>, questionIds: seq<string>, env: PhaseEnv)
    returns (r: Result<seq<Outcome>, string>, batches: seq<seq<Answer>>, ghost selected: seq<string>)
    modifies store
    ensures r.Failure? <==> numUsers > |userIds|
    ensures r.Success? ==> PhaseRun(numUsers, userIds, questionIds, env, selected, r.value)
    ensures r.Success? ==> BatchesFit(r.value, batches, questionIds)
    ensures r.Success? ==> |r.value| == numUsers && |batches| == numUsers
    ensures r.Success? ==> forall i :: 0 <= i < numUsers ==>
      r.value[i].concurrentUsers == Some(numUsers) && r.value[i].userId in userIds
    ensures r.Success? && PyRandom.Distinct(userIds) ==>
      forall i, j :: 0 <= i < j < numUsers ==> r.value[i].userId != r.value[j].userId
    ensures r.Success? ==> forall i :: 0 <= i < numUsers ==>
      |batches[i]| == (if r.value[i].success then Min(NUM_QUESTIONS, |questionIds|) else 0)
    ensures store.submitted == old(store.submitted) + Flatten(batches)
  {
    var sample := PyRandom.Sample(userIds, numUsers, env.userDraws);
    if sample.Failure? {
      return Failure(sample.error), [], [];
    }
    var drawn := sample.value;
    forall i | 0 <= i < |drawn| ensures drawn[i] in userIds {
      assert drawn[i] in multiset(drawn);
    }
    if PyRandom.Distinct(userIds) {
      PyRandom.SubMultisetOfDistinct(userIds, drawn);
    }
    var results;
    results, batches := SubmitAll(store, numUsers, drawn, questionIds, env.ops);
    selected := drawn;
    r := Success(results);
  }

  /** The level tags a full run produces: `p` copies of each phase's level `p`, phase by phase. */
  function PhaseTags(phases: seq<nat>): seq<Option<nat>> {
    if |phases| == 0 then [] else seq(phases[0], _ => Some(phases[0])) + PhaseTags(phases[1..])
  }

  class LoadRunner {
    const store: SubmissionStore
    /** Milliseconds spent in the pauses between phases. */
    var clockMs: nat

    constructor (store: SubmissionStore)
      ensures this.store == store && clockMs == 0
    {
      this.store := store;
      clockMs := 0;
    }

    /**
     * `run_load_test`: the phases in PHASES order, the submitted answers wiped
     * before each, results appended phase by phase, a pause after every phase
     * including the last. A phase larger than the user pool raises and ends the run.
     */
    method RunLoadTest(userIds: seq<string>, questionIds: seq<string>, envs: seq<PhaseEnv>)
      returns (r: Result<seq<Outcome>, string>,
               ghost phases: seq<seq<Outcome>>, ghost samples: seq<seq<string>>, ghost lastBatches: seq<seq<Answer>>)
      modifies this, store
      ensures r.Failure? <==> exists k :: 0 <= k < |PHASES| && PHASES[k] > |userIds|
      ensures r.Success? ==> |phases| == |PHASES| && |samples| == |PHASES| && r.value == Flatten(phases)
      ensures r.Success? ==> forall k :: 0 <= k < |PHASES| ==>
        PhaseRun(PHASES[k], userIds, questionIds, PhaseAt(envs, k), samples[k], phases[k])
      ensures r.Success? ==>
        store.submitted == Flatten(lastBatches) && BatchesFit(phases[|PHASES| - 1], lastBatches, questionIds)
      ensures r.Success? ==> TagsOf(r.value) == PhaseTags(PHASES)
      ensures r.Success? ==> clockMs == old(clockMs) + PAUSE_MS * |PHASES|
      ensures r.Success? ==> |store.submitted| <= NUM_QUESTIONS * PHASES[|PHASES| - 1]
    {
      r, phases, samples, lastBatches := RunPhases(PHASES, userIds, questionIds, envs);
    }

    /** The loop of `run_load_test`, over any non-empty list of phase levels. */
    method RunPhases(levels: seq<nat>, userIds: seq<string>, questionIds: seq<string>, envs: seq<PhaseEnv>)
      returns (r: Result<seq<Outcome>, string>,
               ghost phases: seq<seq<Outcome>>, ghost samples: seq<seq<string>>, ghost lastBatches: seq<seq<Answer>>)
      requires |levels| > 0
      modifies this, store
      ensures r.Failure? <==> exists k :: 0 <= k < |levels| && levels[k] > |userIds|
      ensures r.Success? ==> |phases| == |levels| && |samples| == |levels| && r.value == Flatten(phases)
      ensures r.Success? ==> forall k :: 0 <= k < |levels| ==>
        PhaseRun(levels[k], userIds, questionIds, PhaseAt(envs, k), samples[k], phases[k])
      ensures r.Success? ==>
        store.submitted == Flatten(lastBatches) && BatchesFit(phases[|levels| - 1], lastBatches, questionIds)
      ensures r.Success? ==> TagsOf(r.value) == PhaseTags(levels)
      ensures r.Success? ==> clockMs == old(clockMs) + PAUSE_MS * |levels|
      ensures r.Success? ==> |store.submitted| <= NUM_QUESTIONS * levels[|levels| - 1]
    {
      var all: seq<Outcome> := [];
      phases, samples, lastBatches := [], [], [];
      var p := 0;
      while p < |levels|
        invariant 0 <= p <= |levels|
        invariant Recorded(levels, p, userIds, questionIds, envs, all, phases, samples)
        invariant p > 0 ==>
          store.submitted == Flatten(lastBatches) && BatchesFit(phases[p - 1], lastBatches, questionIds)
        invariant clockMs == old(clockMs) + PAUSE_MS * p
        invariant p > 0 ==> |store.submitted| <= NUM_QUESTIONS * levels[p - 1]
      {
        store.DeleteAll();
        var phase, batches, selected := RunPhase(store, levels[p], userIds, questionIds, PhaseAt(envs, p));
        if phase.Failure? {
          return Failure(phase.error), phases, samples, lastBatches;
        }
        FlattenBound(batches, NUM_QUESTIONS);
        RecordedStep(levels, p, userIds, questionIds, envs, all, phases, samples, selected, phase.value);
        all := all + phase.value;
        phases, samples, lastBatches := phases + [phase.value], samples + [selected], batches;
        clockMs := clockMs + PAUSE_MS;
        p := p + 1;
      }
      assert levels[p..] == [];
      r := Success(all);
    }
  }

  /**
   * The first `p` of the phases `levels` have run: each fitted the user pool,
   * `phases` and `samples` record each one's results and draw, `all` is their
   * concatenation, and its tags are those of the first `p` phases.
   */
  ghost predicate Recorded(levels: seq<nat>, p: nat, userIds: seq<string>, questionIds: seq<string>, envs: seq<PhaseEnv>,
                           all: seq<Outcome>, phases: seq<seq<Outcome>>, samples: seq<seq<string>>)
    requires p <= |levels|
  {
    && (forall k :: 0 <= k < p ==> levels[k] <= |userIds|)
    && |phases| == p && |samples| == p && all == Flatten(phases)
    && (forall k :: 0 <= k < p ==>
         PhaseRun(levels[k], userIds, questionIds, PhaseAt(envs, k), samples[k], phases[k]))
    && TagsOf(all) + PhaseTags(levels[p..]) == PhaseTags(levels)
  }

  /** Recording phase `p`'s run extends the record to the first `p + 1` phases. */
  lemma RecordedStep(levels: seq<nat>, p: nat, userIds: seq<string>, questionIds: seq<string>, envs: seq<PhaseEnv>,
                     all: seq<Outcome>, phases: seq<seq<Outcome>>, samples: seq<seq<string>>,
                     selected: seq<string>, outcomes: seq<Outcome>)
    requires p < |levels| && Recorded(levels, p, userIds, questionIds, envs, all, phases, samples)
    requires levels[p] <= |userIds|
    requires PhaseRun(levels[p], userIds, questionIds, PhaseAt(envs, p), selected, outcomes)
    ensures Recorded(levels, p + 1, userIds, questionIds, envs, all + outcomes, phases + [outcomes], samples + [selected])
  {
    var phases', samples' := phases + [outcomes], samples + [selected];
    assert phases'[..p] == phases;
    assert forall k :: 0 <= k < p ==> phases'[k] == phases[k] && samples'[k] == samples[k];
    TagsOfPhase(all, outcomes, levels[p..]);
    assert levels[p..][1..] == levels[p + 1..];
  }

  /** Appending a full phase of level `ps[0]` moves one phase from the pending tags to the collected ones. */
  lemma TagsOfPhase(all: seq<Outcome>, phase: seq<Outcome>, ps: seq<nat>)
    requires |ps| > 0 && |phase| == ps[0]
    requires forall i :: 0 <= i < |phase| ==> phase[i].concurrentUsers == Some(ps[0])
    ensures TagsOf(all + phase) + PhaseTags(ps[1..]) == TagsOf(all) + PhaseTags(ps)
  {
    var u := seq(ps[0], _ => Some(ps[0]));
    TagsOfConcat(all, phase);
    TagsOfUniform(phase, ps[0]);
    PhaseTagsHead(ps);
    Associative(TagsOf(all), u, PhaseTags(ps[1..]));
  }

  lemma Associative<T>(a: seq<T>, b: seq<T>, c: seq<T>)
    ensures (a + b) + c == a + (b + c)
  {
  }

  lemma TagsOfUniform(phase: seq<Outcome>, n: nat)
    requires |phase| == n
    requires forall i :: 0 <= i < |phase| ==> phase[i].concurrentUsers == Some(n)
    ensures TagsOf(phase) == seq(n, _ => Some(n))
  {
  }

  lemma PhaseTagsHead(ps: seq<nat>)
    requires |ps| > 0
    ensures PhaseTags(ps) == seq(ps[0], _ => Some(ps[0])) + PhaseTags(ps[1..])
  {
  }

  lemma TagsOfConcat(a: seq<Outcome>, b: seq<Outcome>)
    ensures TagsOf(a + b) == TagsOf(a) + TagsOf(b)
  {
    assert forall i :: 0 <= i < |a| + |b| ==> TagsOf(a + b)[i] == (TagsOf(a) + TagsOf(b))[i];
  }

  lemma {:induction false} FlattenBound<T>(bs: seq<seq<T>>, m: nat)
    requires forall i :: 0 <= i < |bs| ==> |bs[i]| <= m
    ensures |Flatten(bs)| <= m * |bs|
  {
    if |bs| > 0 {
      FlattenBound(bs[..|bs| - 1], m);
    }
  }
}

module DirectLoadStatistics {
  import opened Wrappers
  import opened LoadAnalysis
  import opened DirectLoadTest

  lemma {:induction false} ConstantSeqCount(n: nat, x: nat, y: nat)
    ensures multiset(seq(n, _ => Some(x)))[Some(y)] == if x == y then n else 0
  {
    if n > 0 {
      var s := seq(n, _ => Some(x));
      assert s == seq(n - 1, _ => Some(x)) + [Some(x)];
      ConstantSeqCount(n - 1, x, y);
    }
  }

  lemma {:induction false} PhaseTagsCount(ps: seq<nat>, l: nat)
    requires StrictlyIncreasing(ps)
    ensures multiset(PhaseTags(ps))[Some(l)] == if l in ps then l else 0
  {
    if |ps| > 0 {
      ConstantSeqCount(ps[0], ps[0], l);
      PhaseTagsCount(ps[1..], l);
      if l == ps[0] {
        assert l !in ps[1..];
      }
    }
  }

  lemma {:induction false} LatenciesCount(rs: seq<Outcome>, l: nat)
    ensures |Latencies(rs, l)| == multiset(TagsOf(rs))[Some(l)]
  {
    if |rs| > 0 {
      LatenciesCount(rs[1..], l);
      assert TagsOf(rs) == [rs[0].concurrentUsers] + TagsOf(rs[1..]);
    }
  }

  lemma {:induction false} PhaseTagsMembership(ps: seq<nat>, l: nat)
    ensures Some(l) in PhaseTags(ps) <==> l in ps && l > 0
  {
    if |ps| > 0 {
      PhaseTagsMembership(ps[1..], l);
      if l == ps[0] && l > 0 {
        assert seq(ps[0], _ => Some(ps[0]))[0] == Some(l);
      }
    }
  }

  lemma HeadIsMember(s: seq<nat>)
    requires |s| > 0
    ensures s[0] in s
  {
  }

  /** Two ascending sequences without repeats that hold the same values are equal. */
  lemma {:induction false} StrictlyIncreasingUnique(a: seq<nat>, b: seq<nat>)
    requires StrictlyIncreasing(a) && StrictlyIncreasing(b)
    requires forall x :: x in a <==> x in b
    ensures a == b
  {
    if |a| > 0 && |b| > 0 {
      assert a[0] == b[0] by {
        assert a[0] in b && b[0] in a;
      }
      forall x ensures x in a[1..] <==> x in b[1..] {
        if x in a[1..] { assert x in b && x != b[0]; }
        if x in b[1..] { assert x in a && x != a[0]; }
      }
      StrictlyIncreasingUnique(a[1..], b[1..]);
      assert a == [a[0]] + a[1..] && b == [b[0]] + b[1..];
    } else if |a| > 0 {
      HeadIsMember(a);
      assert false;
    } else if |b| > 0 {
      HeadIsMember(b);
      assert false;
    }
  }

  lemma PhasesAscending()
    ensures StrictlyIncreasing(PHASES)
  {
  }

  /** Some outcome carries level `l` exactly when its tag is among the tags. */
  lemma TaggedIffInTags(rs: seq<Outcome>, l: nat)
    ensures (exists o :: o in rs && o.concurrentUsers == Some(l)) <==> Some(l) in TagsOf(rs)
  {
    if o :| o in rs && o.concurrentUsers == Some(l) {
      var i :| 0 <= i < |rs| && rs[i] == o;
      assert TagsOf(rs)[i] == Some(l);
    }
    if Some(l) in TagsOf(rs) {
      var i :| 0 <= i < |rs| && TagsOf(rs)[i] == Some(l);
      assert rs[i] in rs;
    }
  }

  /** The tags of a complete run name exactly the phase levels. */
  lemma FullRunLevels(rs: seq<Outcome>)
    requires TagsOf(rs) == PhaseTags(PHASES)
    ensures Levels(rs) == PHASES
  {
    PhasesAscending();
    LevelsAreTheTaggedLevels(rs);
    forall l ensures l in Levels(rs) <==> l in PHASES {
      PhaseTagsMembership(PHASES, l);
      TaggedIffInTags(rs, l);
    }
    StrictlyIncreasingUnique(Levels(rs), PHASES);
  }

  /**
   * The statistics table of a complete run has one row per phase, in PHASES
   * order, and each row counts exactly that phase's number of users; such a
   * run always carries the level column, so the analysis does not fail.
   */
  lemma FullRunStatistics(rs: seq<Outcome>)
    requires TagsOf(rs) == PhaseTags(PHASES)
    ensures AnalyzeResults(rs) == Success(Analyze(rs))
    ensures |Analyze(rs)| == |PHASES|
    ensures forall k :: 0 <= k < |PHASES| ==> Analyze(rs)[k].level == PHASES[k] && Analyze(rs)[k].count == PHASES[k]
  {
    FullRunLevels(rs);
    PhasesAscending();
    LevelsAreTheTaggedLevels(rs);
    assert PHASES[0] in Levels(rs);
    forall k | 0 <= k < |PHASES| ensures Analyze(rs)[k].count == PHASES[k] {
      LatenciesCount(rs, PHASES[k]);
      PhaseTagsCount(PHASES, PHASES[k]);
    }
  }
}
