/** What an attempt and a trajectory cost, as sums over the single replies and sessions. */
module Costs {
  import opened Basics
  import opened Candidates
  import opened Executor
  import opened SupervisedAttempt
  import opened SupervisedLaws
  import opened Trajectory

  /** Every counter of `u` is the sum of that counter over the items. */
  ghost predicate SumsTo<T(!new)>(u: Usage, items: seq<T>, of: T -> Usage) {
    && u.promptTokens == Total(items, (x: T) => of(x).promptTokens)
    && u.outputTokens == Total(items, (x: T) => of(x).outputTokens)
    && u.cachedTokens == Total(items, (x: T) => of(x).cachedTokens)
    && u.reasoningTokens == Total(items, (x: T) => of(x).reasoningTokens)
    && u.totalDuration == Total(items, (x: T) => of(x).totalDuration)
    && u.loadDuration == Total(items, (x: T) => of(x).loadDuration)
    && u.promptDuration == Total(items, (x: T) => of(x).promptDuration)
    && u.evalDuration == Total(items, (x: T) => of(x).evalDuration)
  }

  lemma {:induction false} ReplyUsage(replies: seq<Reply>)
    ensures SumsTo(TotalUsage(replies), replies, (r: Reply) => r.usage)
  {
    if replies != [] {
      ReplyUsage(replies[1..]);
    }
  }

  lemma {:induction false} ExecutorUsageIs(results: seq<Generated>)
    ensures SumsTo(ExecutorUsage(results), results, (g: Generated) => g.actualUsage)
  {
    if results != [] {
      ExecutorUsageIs(results[1..]);
    }
  }

  lemma {:induction false} FrontierUsageIs(results: seq<FrontierResult>)
    ensures SumsTo(FrontierUsage(results), results, (r: FrontierResult) => r.usage)
  {
    if results != [] {
      FrontierUsageIs(results[1..]);
    }
  }

  lemma {:induction false} ReplyLatency(replies: seq<Reply>)
    ensures Latency(replies) == Total(replies, (r: Reply) => r.latency)
  {
    if replies != [] {
      ReplyLatency(replies[1..]);
    }
  }

  lemma {:induction false} ExecutorCountsAre(results: seq<Generated>)
    ensures ExecutorLatency(results) == Total(results, (g: Generated) => g.latency)
    ensures ExecutorCalls(results) == Total(results, (g: Generated) => g.modelCalls)
    ensures InvalidChanges(results) == Total(results, (g: Generated) => g.invalid)
  {
    if results != [] {
      ExecutorCountsAre(results[1..]);
    }
  }

  lemma {:induction false} FrontierLatencyIs(results: seq<FrontierResult>)
    ensures FrontierLatency(results) == Total(results, (r: FrontierResult) => r.latency)
  {
    if results != [] {
      FrontierLatencyIs(results[1..]);
    }
  }

  // ----- One attempt -----

  /** The executor's replies in an attempt: those of its first round, and of the repair round if there
      was one. */
  function AttemptReplies(task: Task, executor: LocalModel, start: nat, b: Books): seq<Reply> {
    var first := executor.RoundFrom(start, b.executorBase);
    if |b.executorResults| < 2 || |b.frontierResults| <= Lead(task) then first else
      var review := ParseReview(task.schema, b.frontierResults[Lead(task)].review);
      if review.None? then first
      else
        first + executor.RoundFrom(start + executor.CallsIn(1),
                                   Repairing(b.executorBase, b.executorResults[0].changes, review.value))
  }

  lemma {:induction false} RoundCost(executor: LocalModel, c: Generated, start: nat, prompt: Prompt)
    requires Answers(executor, c, start, prompt)
    ensures var round := executor.RoundFrom(start, prompt);
      c.actualUsage == TotalUsage(round) && c.latency == Latency(round) && c.modelCalls == |round|
  {
    PlusAssociative(c.executorUsage, NO_USAGE, NO_USAGE);
  }

  lemma {:induction false} OneResult(c: Generated)
    ensures ExecutorUsage([c]) == c.actualUsage
    ensures ExecutorLatency([c]) == c.latency && ExecutorCalls([c]) == c.modelCalls
  {
    var none: seq<Generated> := [c][1..];
    PlusAssociative(c.actualUsage, NO_USAGE, NO_USAGE);
    assert none == [];
  }

  lemma {:induction false} OneMoreResult(c: Generated, rest: seq<Generated>)
    ensures ExecutorUsage([c] + rest) == Plus(c.actualUsage, ExecutorUsage(rest))
    ensures ExecutorLatency([c] + rest) == c.latency + ExecutorLatency(rest)
    ensures ExecutorCalls([c] + rest) == c.modelCalls + ExecutorCalls(rest)
  {
    assert ([c] + rest)[1..] == rest;
  }

  /** The books cost what these replies cost. */
  ghost predicate Costing(results: seq<Generated>, made: seq<Reply>) {
    && ExecutorUsage(results) == TotalUsage(made) && ExecutorLatency(results) == Latency(made)
    && ExecutorCalls(results) == |made|
  }

  lemma {:induction false} OneRound(executor: LocalModel, c: Generated, start: nat, prompt: Prompt)
    requires Answers(executor, c, start, prompt)
    ensures Costing([c], executor.RoundFrom(start, prompt))
  {
    RoundCost(executor, c, start, prompt);
    OneResult(c);
  }

  lemma {:induction false} TwoRounds(executor: LocalModel, c: Generated, start: nat, prompt: Prompt,
      later: Generated, next: nat, second: Prompt)
    requires Answers(executor, c, start, prompt) && Answers(executor, later, next, second)
    ensures Costing([c] + [later], executor.RoundFrom(start, prompt) + executor.RoundFrom(next, second))
  {
    RoundCost(executor, c, start, prompt);
    OneRound(executor, later, next, second);
    OneMoreResult(c, [later]);
    UsageConcat(executor.RoundFrom(start, prompt), executor.RoundFrom(next, second));
    LatencyConcat(executor.RoundFrom(start, prompt), executor.RoundFrom(next, second));
  }

  /** Two results come from a review that asked for a repair. */
  lemma {:induction false} SecondResult(task: Task, executor: LocalModel, start: nat, b: Books, g: Generated)
    requires Followed(task, executor, start, b, g) && |b.executorResults| != 1
    ensures |b.executorResults| == 2 && |b.frontierResults| > Lead(task)
    ensures var review := ParseReview(task.schema, b.frontierResults[Lead(task)].review);
      review.Some? && RepairMade(task, executor, start, b, review.value)
  {
    assert Supervised(task, executor, start, b, g);
  }

  lemma {:induction false} OneRoundMade(task: Task, executor: LocalModel, start: nat, b: Books)
    requires |b.executorResults| == 1 && Answers(executor, b.executorResults[0], start, b.executorBase)
    ensures Costing(b.executorResults, AttemptReplies(task, executor, start, b))
  {
    OneRound(executor, b.executorResults[0], start, b.executorBase);
    assert b.executorResults == [b.executorResults[0]];
  }

  lemma {:induction false} TwoRoundsMade(task: Task, executor: LocalModel, start: nat, b: Books, review: Review)
    requires RepairMade(task, executor, start, b, review) && |b.frontierResults| > Lead(task)
    requires ParseReview(task.schema, b.frontierResults[Lead(task)].review) == Some(review)
    requires Answers(executor, b.executorResults[0], start, b.executorBase)
    ensures Costing(b.executorResults, AttemptReplies(task, executor, start, b))
  {
    var results, prompt := b.executorResults, Repairing(b.executorBase, b.executorResults[0].changes, review);
    TwoRounds(executor, results[0], start, b.executorBase, results[1], start + executor.CallsIn(1), prompt);
    assert results == [results[0]] + [results[1]];
  }

  lemma {:induction false} RoundsMade(task: Task, executor: LocalModel, start: nat, b: Books, g: Generated)
    requires Followed(task, executor, start, b, g)
    ensures Costing(b.executorResults, AttemptReplies(task, executor, start, b))
  {
    if |b.executorResults| == 1 {
      OneRoundMade(task, executor, start, b);
    } else {
      SecondResult(task, executor, start, b, g);
      TwoRoundsMade(task, executor, start, b, ParseReview(task.schema, b.frontierResults[Lead(task)].review).value);
    }
  }

  /** What a finished attempt says it cost is what its replies cost: every counter of the executor's
      usage is the sum over its replies, which number its calls, the frontier's the sum over the
      frontier's answers, and the latency the sum over both. */
  lemma {:induction false} AttemptCosts(task: Task, executor: LocalModel, start: nat, b: Books, g: Generated)
    requires Followed(task, executor, start, b, g)
    ensures var made := AttemptReplies(task, executor, start, b);
      && SumsTo(g.executorUsage, made, (r: Reply) => r.usage) && g.executorCalls == |made|
      && SumsTo(g.frontierUsage, b.frontierResults, (r: FrontierResult) => r.usage)
      && g.latency == Total(made, (r: Reply) => r.latency) + Total(b.frontierResults, (r: FrontierResult) => r.latency)
  {
    RoundsMade(task, executor, start, b, g);
    ReplyUsage(AttemptReplies(task, executor, start, b));
    ReplyLatency(AttemptReplies(task, executor, start, b));
    FrontierUsageIs(b.frontierResults);
    FrontierLatencyIs(b.frontierResults);
  }

  /** Its invalid changes are those of its executor rounds and of a takeover. */
  lemma {:induction false} AttemptInvalid(task: Task, executor: LocalModel, start: nat, b: Books, g: Generated)
    requires Followed(task, executor, start, b, g)
    ensures g.invalid == Total(b.executorResults, (c: Generated) => c.invalid)
      + if g.takeoverCalls > 0 then ValidChanges(task.schema, b.frontierResults[0].response).1 else 0
  {
    ExecutorCountsAre(b.executorResults);
    CallsBounded(task, executor, start, b, g);
    if Gated(task) && task.route.takeover && !Sound(b.executorResults[0], b.reports[0]) {
      assert TookOver(task, b, g);
      CountThree(b.frontierResults, Direct);
    } else {
      NoTakeover(task, executor, start, b, g);
    }
  }

  lemma {:induction false} NoTakeover(task: Task, executor: LocalModel, start: nat, b: Books, g: Generated)
    requires Followed(task, executor, start, b, g)
    requires !Gated(task) || !task.route.takeover || Sound(b.executorResults[0], b.reports[0])
    ensures g.takeoverCalls == 0
  {
    CallsBounded(task, executor, start, b, g);
    CountThree(b.frontierResults, Direct);
  }

  // ----- A trajectory -----

  /** Every total is the sum over the sessions that ran. */
  lemma {:induction false} TotalsAre(ran: seq<Generated>)
    ensures var t := TotalsOf(ran);
      && t.promptTokens == Total(ran, (g: Generated) => g.actualUsage.promptTokens)
      && t.outputTokens == Total(ran, (g: Generated) => g.actualUsage.outputTokens)
      && t.latency == Total(ran, (g: Generated) => g.latency)
      && t.executorPromptTokens == Total(ran, (g: Generated) => g.executorUsage.promptTokens)
      && t.executorOutputTokens == Total(ran, (g: Generated) => g.executorUsage.outputTokens)
      && t.executorCalls == Total(ran, (g: Generated) => g.executorCalls)
      && t.frontierPromptTokens == Total(ran, (g: Generated) => g.frontierUsage.promptTokens)
      && t.frontierOutputTokens == Total(ran, (g: Generated) => g.frontierUsage.outputTokens)
      && t.frontierCalls == Total(ran, (g: Generated) => g.frontierCalls)
      && t.planCalls == Total(ran, (g: Generated) => g.planCalls)
      && t.takeoverCalls == Total(ran, (g: Generated) => g.takeoverCalls)
      && t.escalations == Total(ran, (g: Generated) => if g.escalation then 1 else 0)
      && t.lessons == Total(ran, (g: Generated) => if g.lessonFields != [] then 1 else 0)
  {
    if ran != [] {
      TotalsAre(ran[..|ran| - 1]);
      TotalLast(ran, (g: Generated) => g.actualUsage.promptTokens);
      TotalLast(ran, (g: Generated) => g.actualUsage.outputTokens);
      TotalLast(ran, (g: Generated) => g.latency);
      TotalLast(ran, (g: Generated) => g.executorUsage.promptTokens);
      TotalLast(ran, (g: Generated) => g.executorUsage.outputTokens);
      TotalLast(ran, (g: Generated) => g.executorCalls);
      TotalLast(ran, (g: Generated) => g.frontierUsage.promptTokens);
      TotalLast(ran, (g: Generated) => g.frontierUsage.outputTokens);
      TotalLast(ran, (g: Generated) => g.frontierCalls);
      TotalLast(ran, (g: Generated) => g.planCalls);
      TotalLast(ran, (g: Generated) => g.takeoverCalls);
      TotalLast(ran, (g: Generated) => if g.escalation then 1 else 0);
      TotalLast(ran, (g: Generated) => if g.lessonFields != [] then 1 else 0);
    }
  }
}
