/** What a finished supervised attempt guarantees, on every path through it. */
module SupervisedLaws {
  import opened Basics
  import opened Candidates
  import opened Executor
  import opened SupervisedAttempt
  import Trajectory

  /** What a caller may rely on when a candidate is accepted. */
  ghost predicate Trustworthy(task: Task, b: Books, g: Generated) {
    && g.response.Some? && g.response.value.changes == Some(g.changes)
    && (forall n | n in g.changes :: Permitted(task.schema, n, g.changes[n]))
    && b.reports != [] && b.reports[|b.reports| - 1] == Check(task.verify, task.candidateBase, g.changes)
    && !Check(task.verify, task.candidateBase, g.changes).mismatch
    && g.changes.Keys !! Check(task.verify, task.candidateBase, g.changes).unverifiable
    && (b.statuses != [] ==> b.statuses[|b.statuses| - 1] == Reviewed(Pass))
  }

  /** An executor candidate without invalid changes proposes exactly what it changes. */
  lemma {:induction false} ExecutorProposal(executor: LocalModel, c: Generated, start: nat, prompt: Prompt)
    requires Answers(executor, c, start, prompt) && Parsed(c)
    ensures c.response.value.changes == Some(c.changes)
    ensures forall n | n in c.changes :: Permitted(executor.schema, n, c.changes[n])
  {
    ValidChangesSound(executor.schema, c.response);
  }

  lemma {:induction false} TakeoverProposal(result: FrontierResult, schema: Schema, base: Config)
    requires Parsed(TakenOver(result, schema, base))
    ensures var c := TakenOver(result, schema, base);
      && c.response.value.changes == Some(c.changes)
      && forall n | n in c.changes :: Permitted(schema, n, c.changes[n])
  {
    ValidChangesSound(schema, result.response);
  }

  lemma Trusted(task: Task, b: Books, g: Generated, c: Generated, report: Report)
    requires Accepted(g, c, report) && report == Check(task.verify, task.candidateBase, c.changes)
    requires c.response.value.changes == Some(c.changes)
    requires forall n | n in c.changes :: Permitted(task.schema, n, c.changes[n])
    requires b.reports != [] && b.reports[|b.reports| - 1] == report
    requires b.statuses != [] ==> b.statuses[|b.statuses| - 1] == Reviewed(Pass)
    ensures Trustworthy(task, b, g)
  {}

  lemma {:induction false} FirstAccepted(task: Task, executor: LocalModel, start: nat, b: Books, g: Generated)
    requires executor.schema == task.schema && Began(task, executor, start, b)
    requires |b.reports| == 1 && Accepted(g, b.executorResults[0], b.reports[0])
    requires b.statuses != [] ==> b.statuses[|b.statuses| - 1] == Reviewed(Pass)
    ensures Trustworthy(task, b, g)
  {
    ExecutorProposal(executor, b.executorResults[0], start, b.executorBase);
    Trusted(task, b, g, b.executorResults[0], b.reports[0]);
  }

  lemma {:induction false} TakeoverAccepted(task: Task, b: Books, g: Generated)
    requires TookOver(task, b, g) && !g.escalation
    ensures Trustworthy(task, b, g)
  {
    TakeoverProposal(b.frontierResults[0], task.schema, task.candidateBase);
    Trusted(task, b, g, TakenOver(b.frontierResults[0], task.schema, task.candidateBase), b.reports[1]);
  }

  lemma {:induction false} RepairAccepted(task: Task, executor: LocalModel, start: nat, b: Books, review: Review,
      g: Generated)
    requires executor.schema == task.schema
    requires Repaired(task, executor, start, b, review, g) && !g.escalation
    ensures Trustworthy(task, b, g)
  {
    var prompt := Repairing(b.executorBase, b.executorResults[0].changes, review);
    ExecutorProposal(executor, b.executorResults[1], start + executor.CallsIn(1), prompt);
    Trusted(task, b, g, b.executorResults[1], b.reports[1]);
  }

  lemma {:induction false} SupervisedAccepted(task: Task, executor: LocalModel, start: nat, b: Books, g: Generated)
    requires executor.schema == task.schema && Began(task, executor, start, b)
    requires Supervised(task, executor, start, b, g) && !g.escalation
    ensures Trustworthy(task, b, g)
  {
    var first := ParseReview(task.schema, b.frontierResults[Lead(task)].review);
    if Says(first, Repair) {
      RepairAccepted(task, executor, start, b, first.value, g);
    } else {
      FirstAccepted(task, executor, start, b, g);
    }
  }

  /** Soundness of acceptance on every path: gated, reviewed, repaired, plan-first, takeover. */
  lemma {:induction false} AcceptanceSound(task: Task, executor: LocalModel, start: nat, b: Books, g: Generated)
    requires executor.schema == task.schema && Followed(task, executor, start, b, g)
    ensures !g.escalation ==> Trustworthy(task, b, g)
    ensures g.escalation ==> Rejected(g)
  {
    if !g.escalation {
      if Gated(task) && Sound(b.executorResults[0], b.reports[0]) {
        FirstAccepted(task, executor, start, b, g);
      } else if Gated(task) && task.route.takeover {
        TakeoverAccepted(task, b, g);
      } else {
        SupervisedAccepted(task, executor, start, b, g);
      }
    }
  }

  /** The reviews ended in a pass, on a sound candidate. */
  ghost predicate PassedReview(b: Books) {
    || (b.statuses == [Reviewed(Pass)] && |b.executorResults| == |b.reports| == 1
        && Sound(b.executorResults[0], b.reports[0]))
    || (b.statuses == [Reviewed(Repair), Reviewed(Pass)] && |b.executorResults| == |b.reports| == 2
        && Sound(b.executorResults[1], b.reports[1]))
  }

  lemma RepairedIff(task: Task, executor: LocalModel, start: nat, b: Books, review: Review, g: Generated)
    requires Repaired(task, executor, start, b, review, g) && |b.statuses| >= 1 && b.statuses[0] == Reviewed(Repair)
    ensures !g.escalation <==> PassedReview(b)
  {}

  lemma {:induction false} SupervisedIff(task: Task, executor: LocalModel, start: nat, b: Books, g: Generated)
    requires Supervised(task, executor, start, b, g)
    ensures b.statuses != [] && (!g.escalation <==> PassedReview(b))
  {
    var first := ParseReview(task.schema, b.frontierResults[Lead(task)].review);
    if Says(first, Repair) {
      RepairedIff(task, executor, start, b, first.value, g);
    }
  }

  lemma {:induction false} WhichAccepted(task: Task, executor: LocalModel, start: nat, b: Books, g: Generated)
    requires Followed(task, executor, start, b, g)
    ensures |b.statuses| == 2 ==> |b.executorResults| == |b.reports| == 2
    ensures !g.escalation <==>
      || (b.statuses == [] && |b.reports| == 1 && Gated(task) && Sound(b.executorResults[0], b.reports[0]))
      || (b.statuses == [] && |b.reports| == 2 && |b.frontierResults| == 1
          && Sound(TakenOver(b.frontierResults[0], task.schema, task.candidateBase), b.reports[1]))
      || PassedReview(b)
  {
    var initial, report := b.executorResults[0], b.reports[0];
    if Gated(task) && Sound(initial, report) {
      assert Stopped(task, b);
    } else if Gated(task) && task.route.takeover {
      assert TookOver(task, b, g);
    } else if !Gated(task) && !task.route.planFirst && !Parsed(initial) {
      assert Stopped(task, b);
    } else {
      SupervisedIff(task, executor, start, b, g);
    }
  }

  /** What a response must be to be acceptable: every entry it proposes is permitted, and the report on
      the base with all of them finds no mismatch and verifies every field that `changed`. */
  ghost predicate Deserves(task: Task, response: Option<Response>, changed: set<Field>) {
    && response.Some? && response.value.changes.Some?
    && (forall n | n in Proposed(response) :: Permitted(task.schema, n, Proposed(response)[n]))
    && var report := task.verify(task.candidateBase + Proposed(response));
       !report.mismatch && changed !! report.unverifiable
  }

  /** The proposed entries that are new or differ from the base. */
  function Differing(response: Option<Response>, base: Config): set<Field> {
    set n | n in Proposed(response) && (n !in base || base[n] != Proposed(response)[n])
  }

  /** An executor candidate is sound exactly when its reply deserves it, */
  lemma {:induction false} ExecutorSoundIff(task: Task, executor: LocalModel, c: Generated, start: nat, prompt: Prompt)
    requires executor.schema == task.schema && Answers(executor, c, start, prompt)
    ensures Sound(c, Check(task.verify, task.candidateBase, c.changes))
      <==> Deserves(task, c.response, Proposed(c.response).Keys)
  {
    ValidChangesSound(task.schema, c.response);
  }

  /** and a takeover exactly when the frontier's answer does; its changes are the proposed entries that
      differ from the base. */
  lemma {:induction false} TakeoverSoundIff(task: Task, result: FrontierResult)
    ensures var c := TakenOver(result, task.schema, task.candidateBase);
      && (Sound(c, Check(task.verify, task.candidateBase, c.changes))
          <==> Deserves(task, result.response, Differing(result.response, task.candidateBase)))
      && (c.invalid == 0 ==>
            && c.changes.Keys == Differing(result.response, task.candidateBase)
            && forall n | n in c.changes :: c.changes[n] == Proposed(result.response)[n])
  {
    ValidChangesSound(task.schema, result.response);
    var valid := ValidChanges(task.schema, result.response).0;
    EffectiveChangesMinimal(valid, task.candidateBase, valid);
  }

  /** Exactly when an attempt is accepted: a first reply that deserves it, when the route is gated and
      has no plan; a deserving takeover; or a deserving reply, the first or the repair, that the last review
      passed. */
  lemma {:induction false} AcceptedIff(task: Task, executor: LocalModel, start: nat, b: Books, g: Generated)
    requires executor.schema == task.schema && Followed(task, executor, start, b, g)
    ensures |b.statuses| == 2 ==> |b.executorResults| == 2
    ensures var first := b.executorResults[0].response;
      !g.escalation <==>
      || (b.statuses == [] && |b.reports| == 1 && task.route.gated && !task.route.planFirst
          && Deserves(task, first, Proposed(first).Keys))
      || (b.statuses == [] && |b.reports| == 2 && |b.frontierResults| == 1
          && var direct := b.frontierResults[0].response;
             Deserves(task, direct, Differing(direct, task.candidateBase)))
      || (b.statuses == [Reviewed(Pass)] && Deserves(task, first, Proposed(first).Keys))
      || (b.statuses == [Reviewed(Repair), Reviewed(Pass)]
          && var repaired := b.executorResults[1].response;
             Deserves(task, repaired, Proposed(repaired).Keys))
  {
    WhichAccepted(task, executor, start, b, g);
    ExecutorSoundIff(task, executor, b.executorResults[0], start, b.executorBase);
    if b.statuses == [] && |b.reports| == 2 && |b.frontierResults| == 1 {
      TakeoverReported(task, executor, start, b, g);
      TakeoverSoundIff(task, b.frontierResults[0]);
    } else if b.statuses == [Reviewed(Repair), Reviewed(Pass)] {
      RepairSoundIff(task, executor, start, b, g);
    }
  }

  lemma {:induction false} TakeoverReported(task: Task, executor: LocalModel, start: nat, b: Books, g: Generated)
    requires Followed(task, executor, start, b, g)
    requires b.statuses == [] && |b.reports| == 2 && |b.frontierResults| == 1
    ensures var c := TakenOver(b.frontierResults[0], task.schema, task.candidateBase);
      b.reports[1] == Check(task.verify, task.candidateBase, c.changes)
  {
    assert TookOver(task, b, g);
  }

  lemma {:induction false} RepairSoundIff(task: Task, executor: LocalModel, start: nat, b: Books, g: Generated)
    requires executor.schema == task.schema && Followed(task, executor, start, b, g)
    requires b.statuses == [Reviewed(Repair), Reviewed(Pass)] && |b.executorResults| == |b.reports| == 2
    ensures var repaired := b.executorResults[1].response;
      Sound(b.executorResults[1], b.reports[1]) <==> Deserves(task, repaired, Proposed(repaired).Keys)
  {
    assert Supervised(task, executor, start, b, g);
    var first := ParseReview(task.schema, b.frontierResults[Lead(task)].review);
    assert Repaired(task, executor, start, b, first.value, g);
    ExecutorSoundIff(task, executor, b.executorResults[1], start + executor.CallsIn(1),
                     Repairing(b.executorBase, b.executorResults[0].changes, first.value));
  }

  /** A supervised attempt is bounded, and a takeover is never reviewed. */
  lemma {:induction false} CallsBounded(task: Task, executor: LocalModel, start: nat, b: Books, g: Generated)
    requires Followed(task, executor, start, b, g)
    ensures 1 <= |b.executorResults| <= 2 && |b.statuses| <= 2
    ensures g.planCalls == (if task.route.planFirst then 1 else 0) && g.takeoverCalls <= 1
    ensures g.takeoverCalls == 1 ==> b.statuses == [] && |b.executorResults| == 1 && g.planCalls == 0
    ensures g.frontierCalls == g.planCalls + g.takeoverCalls + |b.statuses| == |g.frontierPrompts|
    ensures g.executorCalls == |b.executorResults| * executor.CallsIn(1)
  {
    CountExecutor(task, executor, start, b, g);
    CountFrontier(task, executor, start, b, g);
  }

  lemma {:induction false} CountExecutor(task: Task, executor: LocalModel, start: nat, b: Books, g: Generated)
    requires Followed(task, executor, start, b, g)
    ensures 1 <= |b.executorResults| <= 2
    ensures g.executorCalls == |b.executorResults| * executor.CallsIn(1)
  {
    var results := b.executorResults;
    var n := Lead(task);
    assert results[0].modelCalls == executor.CallsIn(1);
    if |results| == 1 {
      assert ExecutorCalls(results) == results[0].modelCalls + ExecutorCalls(results[1..]);
    } else {
      assert Supervised(task, executor, start, b, g);
      assert Repaired(task, executor, start, b, ParseReview(task.schema, b.frontierResults[n].review).value, g);
      assert results[1].modelCalls == executor.CallsIn(1);
      assert results[1..][0] == results[1] && results[1..][1..] == [];
    }
  }

  lemma {:induction false} CountFrontier(task: Task, executor: LocalModel, start: nat, b: Books, g: Generated)
    requires Followed(task, executor, start, b, g)
    ensures |b.statuses| <= 2 && g.planCalls == Lead(task) && g.takeoverCalls <= 1
    ensures g.takeoverCalls == 1 ==> b.statuses == [] && |b.executorResults| == 1 && g.planCalls == 0
    ensures g.frontierCalls == g.planCalls + g.takeoverCalls + |b.statuses| == |g.frontierPrompts|
  {
    var r := b.frontierResults;
    assert |r| <= 3;
    CountThree(r, Plan);
    CountThree(r, Direct);
  }

  lemma {:induction false} CountThree(r: seq<FrontierResult>, purpose: Purpose)
    requires |r| <= 3
    ensures CallsFor(r, purpose)
      == (if 0 < |r| && r[0].purpose == purpose then 1 else 0)
       + (if 1 < |r| && r[1].purpose == purpose then 1 else 0)
       + (if 2 < |r| && r[2].purpose == purpose then 1 else 0)
  {
    if |r| > 0 {
      CountHead(r, purpose);
    }
    if |r| > 1 {
      CountHead(r[1..], purpose);
    }
    if |r| > 2 {
      CountHead(r[2..], purpose);
      assert r[1..][1..] == r[2..];
    }
  }

  lemma CountHead(r: seq<FrontierResult>, purpose: Purpose)
    requires r != []
    ensures CallsFor(r, purpose) == (if r[0].purpose == purpose then 1 else 0) + CallsFor(r[1..], purpose)
    ensures |r| == 1 ==> CallsFor(r[1..], purpose) == 0
    ensures |r| > 1 ==> r[1..][0] == r[1] && r[1..][1..] == r[2..]
  {}

  /** One advisor answers throughout an attempt. */
  lemma {:induction false} OneAdvisor(task: Task, executor: LocalModel, start: nat, b: Books, g: Generated)
    requires Followed(task, executor, start, b, g)
    ensures |b.frontierResults| <= 3
    ensures forall k | 0 <= k < |b.frontierResults| ::
      && b.frontierResults[k].provider == b.frontierResults[0].provider
      && b.frontierResults[k].model == b.frontierResults[0].model
  {
    if |b.frontierResults| > 1 {
      assert Supervised(task, executor, start, b, g);
      SupervisedAdvisor(task, executor, start, b, g);
    }
  }

  lemma {:induction false} SupervisedAdvisor(task: Task, executor: LocalModel, start: nat, b: Books, g: Generated)
    requires Supervised(task, executor, start, b, g)
    ensures |b.frontierResults| <= 3
    ensures forall k | 0 <= k < |b.frontierResults| ::
      && b.frontierResults[k].provider == b.frontierResults[0].provider
      && b.frontierResults[k].model == b.frontierResults[0].model
  {
    var n := Lead(task);
    SameAdvisor(task, b, n, 0, b.executorResults[0], InitialRound);
    if |b.frontierResults| == n + 2 {
      SameAdvisor(task, b, n + 1, 1, b.executorResults[1], FinalRound);
    }
  }

  lemma SameAdvisor(task: Task, b: Books, k: nat, j: nat, c: Generated, round: Round)
    requires k < |b.frontierResults|
    requires ReviewCalled(task, b, k, j, c, round, ParseReview(task.schema, b.frontierResults[k].review))
    ensures b.frontierResults[k].provider == b.frontierResults[0].provider
    ensures b.frontierResults[k].model == b.frontierResults[0].model
  {}

  /** Lessons name fields the advisor flagged, that mismatched at first and were changed in the
      end; there are few enough, and no repeats, for the memory to take them. */
  lemma {:induction false} LessonsSupported(task: Task, executor: LocalModel, start: nat, b: Books, g: Generated)
    requires Followed(task, executor, start, b, g)
    ensures |g.lessonFields| <= 8 && Distinct(g.lessonFields)
    ensures forall f | f in g.lessonFields ::
      f in task.schema.initial && f in g.changes && f in b.reports[0].violations
    ensures g.lessonFields != [] ==> !g.escalation && b.statuses == [Reviewed(Repair), Reviewed(Pass)]
  {
    if g.lessonFields != [] {
      assert Supervised(task, executor, start, b, g);
      var first := ParseReview(task.schema, b.frontierResults[Lead(task)].review);
      assert Says(first, Repair);
      RepairLessons(task, executor, start, b, first.value, g);
    }
  }

  lemma {:induction false} RepairLessons(task: Task, executor: LocalModel, start: nat, b: Books, review: Review,
      g: Generated)
    requires Repaired(task, executor, start, b, review, g) && AcceptableReview(task.schema, review)
    requires |b.statuses| >= 1 && b.statuses[0] == Reviewed(Repair)
    ensures |g.lessonFields| <= 8 && Distinct(g.lessonFields)
    ensures forall f | f in g.lessonFields ::
      f in task.schema.initial && f in g.changes && f in b.reports[0].violations
    ensures g.lessonFields != [] ==> !g.escalation && b.statuses == [Reviewed(Repair), Reviewed(Pass)]
  {
    LessonsAre(review.failedFields, b.reports[0].violations, b.executorResults[1].changes);
  }

  /** What the repair round is asked for: it is told at least one field and one step, within the bounds
      of a review. */
  lemma {:induction false} RepairNamesFields(task: Task, executor: LocalModel, start: nat, b: Books, g: Generated)
      returns (review: Review)
    requires Followed(task, executor, start, b, g) && |b.executorResults| == 2
    ensures b.frontierResults[Lead(task)].review == Some(review)
    ensures Answers(executor, b.executorResults[1], start + executor.CallsIn(1),
                    Repairing(b.executorBase, b.executorResults[0].changes, review))
    ensures 1 <= |review.failedFields| <= 8 && 1 <= |review.repairSteps| <= 8 && |review.uncertainty| <= 240
    ensures forall f | f in review.failedFields :: f in task.schema.initial
    ensures forall step | step in review.repairSteps ::
      |step| <= 240 && exists c :: c in step && !Space(c)
  {
    assert Supervised(task, executor, start, b, g);
    var first := ParseReview(task.schema, b.frontierResults[Lead(task)].review);
    assert Says(first, Repair);
    review := first.value;
  }

  /** An accepted, reviewed candidate was passed by a review that found nothing to repair. */
  lemma {:induction false} PassFindsNothing(task: Task, executor: LocalModel, start: nat, b: Books, g: Generated)
    requires Followed(task, executor, start, b, g) && !g.escalation && b.statuses != []
    ensures b.frontierResults != []
    ensures var said := b.frontierResults[|b.frontierResults| - 1].review;
      said.Some? && said.value.status == Pass && said.value.failedFields == [] && said.value.repairSteps == []
  {
    assert Supervised(task, executor, start, b, g);
    SupervisedIff(task, executor, start, b, g);
    var first := ParseReview(task.schema, b.frontierResults[Lead(task)].review);
    if Says(first, Repair) {
      assert Repaired(task, executor, start, b, first.value, g);
    }
  }

  /** A configuration the schema allows: the fields are those it starts with, and a field that was
      changed has a listed value, a text, or a status code where that is asked for. */
  ghost predicate InSchema(schema: Schema, config: Config) {
    && config.Keys == schema.initial.Keys
    && forall n | n in config && config[n] != schema.initial[n] ::
         && (n in schema.allowed ==> exists v :: v in schema.allowed[n] && PythonEqual(v, config[n]))
         && (n == "timezone" || n == "idempotency_key" ==> config[n].Text?)
         && (n == "conflict_status" ==> config[n].Number? && 100 <= config[n].number <= 599)
  }

  /** No number of accepted sessions takes the configuration out of the schema. */
  lemma {:induction false} SessionsStayInSchema(schema: Schema, sessions: seq<Generated>)
    requires forall g, n | g in sessions && n in g.changes :: Permitted(schema, n, g.changes[n])
    ensures InSchema(schema, Trajectory.Applied(schema.initial, sessions))
  {
    if sessions != [] {
      var init, last := sessions[..|sessions| - 1], sessions[|sessions| - 1];
      SessionsStayInSchema(schema, init);
      assert last in sessions;
      var config := Trajectory.Applied(schema.initial, init);
      assert (config + last.changes).Keys == config.Keys;
    }
  }

  /** A supervised candidate is what the session loop expects: its books balance, its frontier calls
      are its plans, takeovers and reviews, and an unresolved one changes nothing. */
  lemma {:induction false} AttemptIsProper(task: Task, executor: LocalModel, start: nat, b: Books, g: Generated)
    requires executor.schema == task.schema && Followed(task, executor, start, b, g)
    ensures Trajectory.Proper(g)
    ensures g.frontierCalls == g.planCalls + g.takeoverCalls + |g.statuses|
  {
    AcceptanceSound(task, executor, start, b, g);
    CallsBounded(task, executor, start, b, g);
  }
}
