/** One supervised attempt: local executor rounds, frontier plan, reviews or takeover, and the
    rule that decides whether the candidate is accepted. */
module SupervisedAttempt {
  import opened Basics
  import opened Candidates
  import opened Executor

  const HYBRID_RISK_TAGS := {
    "authorization", "bounded_mechanical", "deletion", "external_write", "migration", "security"}

  /** The attempt ends with a candidate, or an exception stops the trajectory. */
  datatype Outcome = Produced(candidate: Generated) | Aborted

  datatype Route = Route(gated: bool, takeover: bool, planFirst: bool, tags: seq<string>)

  predicate ValidRoute(route: Route) {
    && |route.tags| <= 8 && Distinct(route.tags)
    && (forall t | t in route.tags :: t in HYBRID_RISK_TAGS)
    && (route.planFirst ==> route.tags != [])
  }

  predicate Parsed(c: Generated) {
    c.response.Some? && c.invalid == 0
  }

  /** A candidate that may be accepted: parsed, nothing invalid, and a report on the base with its
      changes that finds no mismatch and verifies every changed field. */
  predicate Sound(c: Generated, report: Report) {
    Parsed(c) && !report.mismatch && c.changes.Keys !! report.unverifiable
  }

  function ExecutorUsage(results: seq<Generated>): Usage {
    if results == [] then NO_USAGE else Plus(results[0].actualUsage, ExecutorUsage(results[1..]))
  }

  function ExecutorCalls(results: seq<Generated>): nat {
    if results == [] then 0 else results[0].modelCalls + ExecutorCalls(results[1..])
  }

  function ExecutorLatency(results: seq<Generated>): nat {
    if results == [] then 0 else results[0].latency + ExecutorLatency(results[1..])
  }

  function InvalidChanges(results: seq<Generated>): nat {
    if results == [] then 0 else results[0].invalid + InvalidChanges(results[1..])
  }

  function FrontierUsage(results: seq<FrontierResult>): Usage {
    if results == [] then NO_USAGE else Plus(results[0].usage, FrontierUsage(results[1..]))
  }

  function FrontierLatency(results: seq<FrontierResult>): nat {
    if results == [] then 0 else results[0].latency + FrontierLatency(results[1..])
  }

  function CallsFor(results: seq<FrontierResult>, purpose: Purpose): nat {
    if results == [] then 0 else (if results[0].purpose == purpose then 1 else 0) + CallsFor(results[1..], purpose)
  }

  /** The fields a repair is credited with: flagged by the advisor, mismatched at first, changed in
      the end. */
  function Lessons(flagged: seq<Field>, violations: seq<Field>, changes: Config): seq<Field> {
    if flagged == [] then [] else
      var first := if flagged[0] in violations && flagged[0] in changes then [flagged[0]] else [];
      first + Lessons(flagged[1..], violations, changes)
  }

  lemma {:induction false} LessonsAre(flagged: seq<Field>, violations: seq<Field>, changes: Config)
    requires Distinct(flagged)
    ensures var lessons := Lessons(flagged, violations, changes);
      && Distinct(lessons) && |lessons| <= |flagged|
      && forall f :: f in lessons <==> f in flagged && f in violations && f in changes
  {
    if flagged != [] {
      LessonsAre(flagged[1..], violations, changes);
      assert flagged == [flagged[0]] + flagged[1..];
    }
  }

  function TakenOver(result: FrontierResult, schema: Schema, base: Config): Generated {
    var (valid, invalid) := ValidChanges(schema, result.response);
    var changes := EffectiveChanges(valid, base);
    var response := if result.response.None? then None else Some(result.response.value.(changes := Some(changes)));
    Generated(response, changes, invalid, result.usage, result.latency, 1, [], 0, 1, NO_USAGE, result.usage,
              [], false, [], [], Some(result.provider), Some(result.model), 0, NotApplicable, 0)
  }

  /** What an attempt is given. */
  datatype Task = Task(verify: Verifier, schema: Schema, candidateBase: Config, basePrompt: BasePrompt, route: Route)

  /** What an attempt has done so far. */
  datatype Books = Books(
    executorBase: Prompt,
    executorResults: seq<Generated>,
    frontierResults: seq<FrontierResult>,
    frontierPrompts: seq<Prompt>,
    statuses: seq<ReviewStatus>,
    reports: seq<Report>)

  // ----- The decision -----

  /** A call that raises, answers for another purpose or comes from another advisor than the first
      stops the attempt. */
  predicate Usable(b: Books, result: Option<FrontierResult>, purpose: Purpose) {
    && result.Some? && result.value.purpose == purpose
    && (b.frontierResults != [] ==>
         && result.value.provider == b.frontierResults[0].provider
         && result.value.model == b.frontierResults[0].model)
  }

  /** What a frontier call with this prompt asks for. */
  function PurposeOf(prompt: Prompt): Purpose {
    match prompt
    case Planning(_, _) => Plan
    case Reviewing(_, _, _) => Advice
    case _ => Direct
  }

  /** The last frontier call got no usable answer: its prompt is on record, its answer is not. */
  ghost predicate Interrupted(frontier: (nat, Purpose, Prompt) -> Option<FrontierResult>, b: Books) {
    var n := |b.frontierResults|;
    && |b.frontierPrompts| == n + 1
    && var prompt := b.frontierPrompts[n];
       !Usable(b, frontier(n, PurposeOf(prompt), prompt), PurposeOf(prompt))
  }

  function StatusOf(review: Option<Review>): ReviewStatus {
    if review.None? then InvalidReview else Reviewed(review.value.status)
  }

  /** The candidate is what the last reply of its round says, at that round's cost. */
  ghost predicate Answers(executor: LocalModel, c: Generated, start: nat, prompt: Prompt) {
    var round := executor.RoundFrom(start, prompt);
    && c.response == Final(round).response
    && c.changes == ValidChanges(executor.schema, c.response).0
    && c.invalid == ValidChanges(executor.schema, c.response).1
    && ExecutorOnly(c, TotalUsage(round), Latency(round), |round|)
  }

  /** Everything on record stays on record. */
  ghost predicate Extends(b: Books, b': Books) {
    && b.executorBase == b'.executorBase
    && b.executorResults <= b'.executorResults && b.frontierResults <= b'.frontierResults
    && b.frontierPrompts <= b'.frontierPrompts && b.statuses <= b'.statuses && b.reports <= b'.reports
  }

  predicate Gated(task: Task) {
    task.route.gated && !task.route.planFirst
  }

  function Lead(task: Task): nat {
    if task.route.planFirst then 1 else 0
  }

  ghost predicate Accepted(g: Generated, c: Generated, report: Report) {
    && !g.escalation && Sound(c, report)
    && g.response == c.response && g.changes == c.changes
  }

  ghost predicate Rejected(g: Generated) {
    g.escalation && g.response == None && g.changes == map[] && g.lessonFields == []
  }

  /** Nothing happened after the first executor round. */
  ghost predicate Stopped(task: Task, b: Books) {
    && |b.executorResults| == |b.reports| == 1 && b.statuses == []
    && |b.frontierResults| == |b.frontierPrompts| == Lead(task)
  }

  /** One direct call replaced the local candidate. */
  ghost predicate TookOver(task: Task, b: Books, g: Generated) {
    && |b.executorResults| == 1 && |b.reports| == 2 && b.statuses == []
    && |b.frontierResults| == 1 && b.frontierPrompts == [b.executorBase] && b.frontierResults[0].purpose == Direct
    && var taken := TakenOver(b.frontierResults[0], task.schema, task.candidateBase);
       && b.reports[1] == Check(task.verify, task.candidateBase, taken.changes)
       && (if Sound(taken, b.reports[1]) then Accepted(g, taken, b.reports[1]) && g.lessonFields == [] else Rejected(g))
  }

  /** The k-th frontier call asked for a review of `c`; `review` is what was read from its answer. */
  ghost predicate ReviewCalled(task: Task, b: Books, k: nat, j: nat, c: Generated, round: Round,
      review: Option<Review>) {
    && k < |b.frontierResults| && k < |b.frontierPrompts| && j < |b.statuses|
    && b.frontierPrompts[k] == Reviewing(b.executorBase, c.changes, round)
    && b.frontierResults[k].purpose == Advice
    && b.frontierResults[k].provider == b.frontierResults[0].provider
    && b.frontierResults[k].model == b.frontierResults[0].model
    && review == ParseReview(task.schema, b.frontierResults[k].review)
    && b.statuses[j] == StatusOf(review)
  }

  predicate Says(review: Option<Review>, verdict: Verdict) {
    review.Some? && review.value.status == verdict
  }

  /** A second executor round ran on the repair packet, and has its report. */
  ghost predicate RepairMade(task: Task, executor: LocalModel, start: nat, b: Books, review: Review) {
    && |b.executorResults| == |b.reports| == 2
    && var initial, final, report := b.executorResults[0], b.executorResults[1], b.reports[1];
       && Answers(executor, final, start + executor.CallsIn(1), Repairing(b.executorBase, initial.changes, review))
       && report == Check(task.verify, task.candidateBase, final.changes)
  }

  /** What follows a review that asks for a repair. */
  ghost predicate Repaired(task: Task, executor: LocalModel, start: nat, b: Books, review: Review, g: Generated) {
    var n := Lead(task);
    && RepairMade(task, executor, start, b, review)
    && var final, report := b.executorResults[1], b.reports[1];
       if !Parsed(final) then
            |b.statuses| == 1 && |b.frontierResults| == |b.frontierPrompts| == n + 1 && Rejected(g)
          else
            && |b.statuses| == 2 && |b.frontierResults| == |b.frontierPrompts| == n + 2
            && var second := ParseReview(task.schema, b.frontierResults[n + 1].review);
               && ReviewCalled(task, b, n + 1, 1, final, FinalRound, second)
               && if Says(second, Pass) && Sound(final, report)
                  then Accepted(g, final, report)
                    && g.lessonFields == Lessons(review.failedFields, b.reports[0].violations, final.changes)
                  else Rejected(g)
  }

  /** The supervised path: a review, then acceptance, rejection or one repair. */
  ghost predicate Supervised(task: Task, executor: LocalModel, start: nat, b: Books, g: Generated) {
    var n := Lead(task);
    && |b.executorResults| >= 1 && |b.reports| >= 1 && |b.frontierResults| > n
    && var initial, report := b.executorResults[0], b.reports[0];
       var first := ParseReview(task.schema, b.frontierResults[n].review);
       && ReviewCalled(task, b, n, 0, initial, InitialRound, first)
       && if Says(first, Repair) then Repaired(task, executor, start, b, first.value, g)
          else
            && |b.executorResults| == |b.reports| == |b.statuses| == 1
            && |b.frontierResults| == |b.frontierPrompts| == n + 1
            && if Says(first, Pass) && Sound(initial, report) then Accepted(g, initial, report) && g.lessonFields == []
               else Rejected(g)
  }

  /** The first executor round ran on the base prompt, or on the frontier's plan. */
  ghost predicate Began(task: Task, executor: LocalModel, start: nat, b: Books) {
    && |b.executorResults| >= 1 && |b.reports| >= 1
    && Answers(executor, b.executorResults[0], start, b.executorBase)
    && b.reports[0] == Check(task.verify, task.candidateBase, b.executorResults[0].changes)
    && if !task.route.planFirst then b.executorBase == task.basePrompt
       else
         && |b.frontierResults| >= 1 && |b.frontierPrompts| >= 1
         && b.frontierPrompts[0] == Planning(task.basePrompt, task.route.tags)
         && b.frontierResults[0].purpose == Plan && b.frontierResults[0].plan.Some?
         && b.executorBase == Executing(task.basePrompt, b.frontierResults[0].plan.value)
  }

  ghost predicate Decided(task: Task, executor: LocalModel, start: nat, b: Books, g: Generated)
    requires Began(task, executor, start, b)
  {
    var initial, report := b.executorResults[0], b.reports[0];
    if Gated(task) && Sound(initial, report) then
      Stopped(task, b) && Accepted(g, initial, report) && g.lessonFields == []
    else if Gated(task) && task.route.takeover then TookOver(task, b, g)
    else if !Gated(task) && !task.route.planFirst && !Parsed(initial) then Stopped(task, b) && Rejected(g)
    else Supervised(task, executor, start, b, g)
  }

  /** The candidate reports the books of the attempt; `extra` are invalid changes of a takeover. */
  ghost predicate Records(task: Task, b: Books, g: Generated, extra: nat) {
    && Accounted(g)
    && g.invalid == InvalidChanges(b.executorResults) + extra
    && g.provider == (if b.frontierResults != [] then Some(b.frontierResults[0].provider) else None)
    && g.model == (if b.frontierResults != [] then Some(b.frontierResults[0].model) else None)
    && g.routing == (if task.route.planFirst then FrontierPlanFirst else LocalFirst)
    && g.executorUsage == ExecutorUsage(b.executorResults) && g.frontierUsage == FrontierUsage(b.frontierResults)
    && g.executorCalls == ExecutorCalls(b.executorResults) && g.frontierCalls == |b.frontierResults|
    && g.latency == ExecutorLatency(b.executorResults) + FrontierLatency(b.frontierResults)
    && g.planCalls == CallsFor(b.frontierResults, Plan) && g.takeoverCalls == CallsFor(b.frontierResults, Direct)
    && g.frontierPrompts == b.frontierPrompts && g.statuses == b.statuses && g.reports == b.reports
  }

  /** The plan was received but is not a valid plan. */
  ghost predicate UnreadablePlan(b: Books) {
    |b.frontierResults| == |b.frontierPrompts| == 1
    && b.frontierResults[0].purpose == Plan && b.frontierResults[0].plan == None
  }

  lemma StillUnusable(b: Books, b': Books,
      frontier: (nat, Purpose, Prompt) -> Option<FrontierResult>, purpose: Purpose)
    requires |b.frontierPrompts| == |b.frontierResults| && |b'.frontierPrompts| == |b.frontierPrompts| + 1
    requires b'.frontierResults == b.frontierResults && purpose == PurposeOf(b'.frontierPrompts[|b.frontierPrompts|])
    requires !Usable(b, frontier(|b.frontierPrompts|, purpose, b'.frontierPrompts[|b.frontierPrompts|]), purpose)
    ensures Interrupted(frontier, b')
  {}

  lemma RepairIs(task: Task, executor: LocalModel, start: nat, b: Books, b': Books,
                                    review: Review, final: Generated, report: Report)
    requires |b.executorResults| == |b.reports| == 1
    requires b' == b.(executorResults := b.executorResults + [final], reports := b.reports + [report])
    requires Answers(executor, final, start + executor.CallsIn(1),
                     Repairing(b.executorBase, b.executorResults[0].changes, review))
    requires report == Check(task.verify, task.candidateBase, final.changes)
    ensures RepairMade(task, executor, start, b', review)
    ensures b'.executorResults[0] == b.executorResults[0] && b'.reports[0] == b.reports[0]
  {}

  lemma RepairedIsSupervised(task: Task, executor: LocalModel, start: nat, b: Books, b': Books,
                             review: Option<Review>, g: Generated)
    requires |b.executorResults| == |b.reports| == |b.statuses| == 1
    requires |b.frontierResults| == |b.frontierPrompts| == Lead(task) + 1
    requires ReviewCalled(task, b, Lead(task), 0, b.executorResults[0], InitialRound, review) && Says(review, Repair)
    requires Extends(b, b') && Repaired(task, executor, start, b', review.value, g)
    ensures Supervised(task, executor, start, b', g)
  {}

  class Attempt {
    const task: Task
    const executor: LocalModel
    /** The frontier's answer to its n-th call; none when the call raises. */
    const frontier: (nat, Purpose, Prompt) -> Option<FrontierResult>
    var books: Books

    constructor (task: Task, executor: LocalModel, frontier: (nat, Purpose, Prompt) -> Option<FrontierResult>)
      ensures this.task == task && this.executor == executor && this.frontier == frontier
      ensures books == Books(task.basePrompt, [], [], [], [], [])
    {
      this.task, this.executor, this.frontier := task, executor, frontier;
      books := Books(task.basePrompt, [], [], [], [], []);
    }

    method CallExecutor(prompt: Prompt) returns (c: Generated)
      modifies this, executor
      ensures books == old(books).(executorResults := old(books).executorResults + [c])
      ensures Answers(executor, c, old(executor.requests), prompt)
      ensures executor.requests == old(executor.requests) + executor.CallsIn(1)
    {
      ghost var made;
      c, made := executor.Generate(prompt, false, task.verify, map[]);
      books := books.(executorResults := books.executorResults + [c]);
    }

    method ConsistencyReport(c: Generated) returns (report: Report)
      modifies this
      ensures report == Check(task.verify, task.candidateBase, c.changes)
      ensures books == old(books).(reports := old(books).reports + [report])
    {
      report := Check(task.verify, task.candidateBase, c.changes);
      books := books.(reports := books.reports + [report]);
    }

    /** The prompt is on record before the call is made. */
    method CallFrontier(purpose: Purpose, prompt: Prompt) returns (result: Option<FrontierResult>)
      modifies this
      ensures result.None? ==> books == old(books).(frontierPrompts := old(books).frontierPrompts + [prompt])
      ensures result.None? ==> !Usable(old(books), frontier(|old(books).frontierPrompts|, purpose, prompt), purpose)
      ensures var answer, first := frontier(|old(books).frontierPrompts|, purpose, prompt), old(books).frontierResults;
        result.None? <==>
          || answer.None? || answer.value.purpose != purpose
          || (first != [] && (answer.value.provider, answer.value.model) != (first[0].provider, first[0].model))
      ensures result.Some? ==>
        && result == frontier(|old(books).frontierPrompts|, purpose, prompt)
        && Usable(old(books), result, purpose)
        && books == old(books).(
             frontierPrompts := old(books).frontierPrompts + [prompt],
             frontierResults := old(books).frontierResults + [result.value])
    {
      result := frontier(|books.frontierPrompts|, purpose, prompt);
      books := books.(frontierPrompts := books.frontierPrompts + [prompt]);
      if !Usable(books, result, purpose) {
        return None;
      }
      books := books.(frontierResults := books.frontierResults + [result.value]);
    }

    /** `received` when the advisor answered; no review when its text is unacceptable. */
    method CallAdvisor(c: Generated, round: Round) returns (received: bool, review: Option<Review>)
      requires |books.frontierPrompts| == |books.frontierResults|
      modifies this
      ensures books.executorBase == old(books).executorBase
      ensures books.executorResults == old(books).executorResults && books.reports == old(books).reports
      ensures !received ==> Interrupted(frontier, books)
      ensures received ==> |books.frontierPrompts| == |books.frontierResults| == |old(books).frontierResults| + 1
      ensures received ==> |books.statuses| == |old(books).statuses| + 1
      ensures received ==> Extends(old(books), books)
      ensures received ==>
        ReviewCalled(task, books, |old(books).frontierResults|, |old(books).statuses|, c, round, review)
    {
      ghost var before := books;
      var result := CallFrontier(Advice, Reviewing(books.executorBase, c.changes, round));
      if result.None? {
        StillUnusable(before, books, frontier, Advice);
        return false, None;
      }
      review := ParseReview(task.schema, result.value.review);
      books := books.(statuses := books.statuses + [StatusOf(review)]);
      received := true;
    }

    method Finish(c: Generated, accepted: bool, lessonFields: seq<Field>, additionalInvalid: nat) returns (g: Generated)
      requires |books.frontierPrompts| == |books.frontierResults|
      ensures Records(task, books, g, additionalInvalid)
      ensures g.escalation == !accepted && g.lessonFields == lessonFields
      ensures g.response == if accepted then c.response else None
      ensures g.changes == if accepted then c.changes else map[]
    {
      var executorUsage, frontierUsage := ExecutorUsage(books.executorResults), FrontierUsage(books.frontierResults);
      var executorCalls := ExecutorCalls(books.executorResults);
      g := Generated(
        if accepted then c.response else None,
        if accepted then c.changes else map[],
        InvalidChanges(books.executorResults) + additionalInvalid,
        Plus(executorUsage, frontierUsage),
        ExecutorLatency(books.executorResults) + FrontierLatency(books.frontierResults),
        executorCalls + |books.frontierResults|,
        books.reports, executorCalls, |books.frontierResults|, executorUsage, frontierUsage, books.statuses,
        !accepted, lessonFields, books.frontierPrompts,
        if books.frontierResults != [] then Some(books.frontierResults[0].provider) else None,
        if books.frontierResults != [] then Some(books.frontierResults[0].model) else None,
        CallsFor(books.frontierResults, Plan),
        if task.route.planFirst then FrontierPlanFirst else LocalFirst,
        CallsFor(books.frontierResults, Direct));
    }

    method RepairRound(review: Review, ghost start: nat)
      requires |books.executorResults| == |books.reports| == 1
      requires executor.schema == task.schema && executor.requests == start + executor.CallsIn(1)
      modifies this, executor
      ensures RepairMade(task, executor, start, books, review)
      ensures books.executorResults[0] == old(books).executorResults[0] && books.reports[0] == old(books).reports[0]
      ensures books == old(books).(executorResults := books.executorResults, reports := books.reports)
    {
      ghost var before := books;
      var final := CallExecutor(Repairing(books.executorBase, books.executorResults[0].changes, review));
      var report := ConsistencyReport(final);
      RepairIs(task, executor, start, before, books, review, final, report);
    }

    /** The second review, of a repaired candidate. */
    method RepairAndReview(review: Review, ghost start: nat) returns (outcome: Outcome)
      requires |books.executorResults| == |books.reports| == |books.statuses| == 1
      requires |books.frontierResults| == |books.frontierPrompts| == Lead(task) + 1
      requires executor.schema == task.schema && executor.requests == start + executor.CallsIn(1)
      modifies this, executor
      ensures outcome.Aborted? ==> Interrupted(frontier, books)
      ensures outcome.Produced? ==> Records(task, books, outcome.candidate, 0)
      ensures outcome.Produced? ==> Extends(old(books), books)
      ensures outcome.Produced? ==> Repaired(task, executor, start, books, review, outcome.candidate)
    {
      RepairRound(review, start);
      var final, report := books.executorResults[1], books.reports[1];
      if !Parsed(final) {
        var g := Finish(final, false, [], 0);
        return Produced(g);
      }
      var received, second := CallAdvisor(final, FinalRound);
      if !received {
        return Aborted;
      }
      var accepted := Says(second, Pass) && Sound(final, report);
      var lessonFields :=
        if accepted then Lessons(review.failedFields, books.reports[0].violations, final.changes) else [];
      var g := Finish(final, accepted, lessonFields, 0);
      return Produced(g);
    }

    /** The first review, and what it leads to. */
    method ReviewAndRepair(initial: Generated, initialReport: Report, ghost start: nat) returns (outcome: Outcome)
      requires books.executorResults == [initial] && books.reports == [initialReport] && books.statuses == []
      requires |books.frontierResults| == |books.frontierPrompts| == Lead(task)
      requires executor.schema == task.schema && executor.requests == start + executor.CallsIn(1)
      modifies this, executor
      ensures outcome.Aborted? ==> Interrupted(frontier, books)
      ensures outcome.Produced? ==> Records(task, books, outcome.candidate, 0)
      ensures outcome.Produced? ==> Extends(old(books), books)
      ensures outcome.Produced? ==> Supervised(task, executor, start, books, outcome.candidate)
    {
      var received, review := CallAdvisor(initial, InitialRound);
      if !received {
        return Aborted;
      }
      if Says(review, Repair) {
        ghost var before := books;
        outcome := RepairAndReview(review.value, start);
        if outcome.Produced? {
          RepairedIsSupervised(task, executor, start, before, books, review, outcome.candidate);
        }
        return;
      }
      var g := Finish(initial, Says(review, Pass) && Sound(initial, initialReport), [], 0);
      return Produced(g);
    }

    /** The frontier answers in place of a failed local candidate; no review follows. */
    method TakeOver() returns (outcome: Outcome)
      requires |books.executorResults| == |books.reports| == 1 && books.statuses == []
      requires books.frontierResults == [] && books.frontierPrompts == [] && books.executorBase == task.basePrompt
      modifies this
      ensures outcome.Aborted? ==> Interrupted(frontier, books)
      ensures outcome.Produced? ==> TookOver(task, books, outcome.candidate)
      ensures outcome.Produced? ==>
        Records(task, books, outcome.candidate,
                TakenOver(books.frontierResults[0], task.schema, task.candidateBase).invalid)
      ensures outcome.Produced? ==> Extends(old(books), books)
    {
      ghost var before := books;
      var result := CallFrontier(Direct, books.executorBase);
      if result.None? {
        StillUnusable(before, books, frontier, Direct);
        return Aborted;
      }
      var taken := TakenOver(result.value, task.schema, task.candidateBase);
      var report := ConsistencyReport(taken);
      var g := Finish(taken, Sound(taken, report), [], taken.invalid);
      return Produced(g);
    }

    /** The frontier plan, when the route starts with one; its answer must be a valid plan. */
    method CallPlan() returns (ok: bool)
      requires books == Books(task.basePrompt, [], [], [], [], [])
      modifies this
      ensures !ok ==> Interrupted(frontier, books) || UnreadablePlan(books)
      ensures ok ==>
        && |books.frontierResults| == 1
        && books.frontierPrompts == [Planning(task.basePrompt, task.route.tags)]
        && books.frontierResults[0].purpose == Plan && books.frontierResults[0].plan.Some?
        && books.executorBase == Executing(task.basePrompt, books.frontierResults[0].plan.value)
        && books.executorResults == [] && books.statuses == [] && books.reports == []
    {
      ghost var before := books;
      var result := CallFrontier(Plan, Planning(task.basePrompt, task.route.tags));
      if result.None? {
        StillUnusable(before, books, frontier, Plan);
        return false;
      }
      if result.value.plan.None? {
        return false;
      }
      books := books.(executorBase := Executing(task.basePrompt, result.value.plan.value));
      ok := true;
    }

    /** The first executor round, on the plan when there is one. */
    method Begin() returns (ok: bool)
      requires books == Books(task.basePrompt, [], [], [], [], [])
      requires executor.schema == task.schema
      modifies this, executor
      ensures !ok ==> task.route.planFirst && (Interrupted(frontier, books) || UnreadablePlan(books))
      ensures ok ==>
        && Began(task, executor, old(executor.requests), books)
        && |books.executorResults| == |books.reports| == 1 && books.statuses == []
        && |books.frontierResults| == |books.frontierPrompts| == Lead(task)
        && executor.requests == old(executor.requests) + executor.CallsIn(1)
    {
      if task.route.planFirst {
        ok := CallPlan();
        if !ok {
          return false;
        }
      }
      var initial := CallExecutor(books.executorBase);
      var report := ConsistencyReport(initial);
      ok := true;
    }

    /** What the first candidate leads to. */
    method Decide(initial: Generated, report: Report, ghost start: nat) returns (outcome: Outcome)
      requires books.executorResults == [initial] && books.reports == [report] && books.statuses == []
      requires |books.frontierResults| == |books.frontierPrompts| == Lead(task)
      requires Began(task, executor, start, books)
      requires executor.schema == task.schema && executor.requests == start + executor.CallsIn(1)
      modifies this, executor
      ensures outcome.Aborted? ==> Interrupted(frontier, books)
      ensures outcome.Produced? ==> Followed(task, executor, start, books, outcome.candidate)
    {
      ghost var before := books;
      if !Gated(task) && !task.route.planFirst && !Parsed(initial) {
        var g := Finish(initial, false, [], 0);
        return Produced(g);
      }
      if Gated(task) && Sound(initial, report) {
        var g := Finish(initial, true, [], 0);
        return Produced(g);
      }
      if Gated(task) && task.route.takeover {
        outcome := TakeOver();
        if outcome.Produced? {
          TakeoverFollowed(task, executor, start, before, books, outcome.candidate);
        }
      } else {
        outcome := ReviewAndRepair(initial, report, start);
        if outcome.Produced? {
          SupervisedFollowed(task, executor, start, before, books, outcome.candidate);
        }
      }
    }

    method Generate() returns (outcome: Outcome)
      requires books == Books(task.basePrompt, [], [], [], [], [])
      requires executor.schema == task.schema
      modifies this, executor
      ensures !ValidRoute(task.route) ==> outcome.Aborted? && books == old(books)
      ensures outcome.Produced? ==>
        && |task.route.tags| <= 8 && Distinct(task.route.tags) && (task.route.planFirst ==> task.route.tags != [])
        && forall t | t in task.route.tags :: t in HYBRID_RISK_TAGS
      ensures outcome.Aborted? && ValidRoute(task.route) ==>
        Interrupted(frontier, books) || (task.route.planFirst && UnreadablePlan(books))
      ensures outcome.Produced? ==>
        Followed(task, executor, old(executor.requests), books, outcome.candidate)
    {
      if !ValidRoute(task.route) {
        return Aborted;
      }
      ghost var start := executor.requests;
      var begun := Begin();
      if !begun {
        return Aborted;
      }
      outcome := Decide(books.executorResults[0], books.reports[0], start);
    }
  }

  /** The invalid changes of a takeover, if there was one. */
  function TakeoverInvalid(task: Task, b: Books): nat {
    if Gated(task) && task.route.takeover && b.executorResults != [] && b.reports != [] && b.frontierResults != []
       && !Sound(b.executorResults[0], b.reports[0])
    then TakenOver(b.frontierResults[0], task.schema, task.candidateBase).invalid
    else 0
  }

  /** A finished attempt: how it began, how it was decided, and that its candidate says so. */
  ghost predicate Followed(task: Task, executor: LocalModel, start: nat, b: Books, g: Generated) {
    && Began(task, executor, start, b) && Decided(task, executor, start, b, g)
    && Records(task, b, g, TakeoverInvalid(task, b))
  }

  lemma {:induction false} TakeoverFollowed(task: Task, executor: LocalModel, start: nat, b: Books, b': Books,
      g: Generated)
    requires Began(task, executor, start, b) && Extends(b, b') && TookOver(task, b', g)
    requires Gated(task) && task.route.takeover && !Sound(b.executorResults[0], b.reports[0])
    requires Records(task, b', g, TakenOver(b'.frontierResults[0], task.schema, task.candidateBase).invalid)
    ensures Followed(task, executor, start, b', g)
  {
    BeganStays(task, executor, start, b, b');
  }

  lemma {:induction false} SupervisedFollowed(task: Task, executor: LocalModel, start: nat, b: Books, b': Books,
      g: Generated)
    requires Began(task, executor, start, b) && Extends(b, b') && Supervised(task, executor, start, b', g)
    requires Records(task, b', g, 0)
    requires Gated(task) ==> !Sound(b.executorResults[0], b.reports[0]) && !task.route.takeover
    requires Gated(task) || task.route.planFirst || Parsed(b.executorResults[0])
    ensures Followed(task, executor, start, b', g)
  {
    BeganStays(task, executor, start, b, b');
  }

  lemma BeganStays(task: Task, executor: LocalModel, start: nat, b: Books, b': Books)
    requires Began(task, executor, start, b) && Extends(b, b')
    ensures Began(task, executor, start, b')
    ensures b'.executorResults[0] == b.executorResults[0] && b'.reports[0] == b.reports[0]
  {}
}
