/** The local executor: one candidate, with up to two repair retries guided by the deterministic
    report, and the direct frontier candidate it is compared with. */
module Executor {
  import opened Basics
  import opened Candidates

  function TotalUsage(replies: seq<Reply>): Usage {
    if replies == [] then NO_USAGE else Plus(replies[0].usage, TotalUsage(replies[1..]))
  }

  function Latency(replies: seq<Reply>): nat {
    if replies == [] then 0 else replies[0].latency + Latency(replies[1..])
  }

  /** Every report but the last is a mismatch, and there are at most three. */
  ghost predicate Retried(reports: seq<Report>) {
    && 1 <= |reports| <= 3
    && forall i | 0 <= i < |reports| - 1 :: reports[i].mismatch
  }

  /** How a generation with the given reports may have gone: it retries exactly after a mismatch,
      at most twice. */
  ghost predicate RetriesOnMismatch(reports: seq<Report>) {
    Retried(reports) && (|reports| < 3 ==> !reports[|reports| - 1].mismatch)
  }

  ghost predicate ReportsOn(reports: seq<Report>, last: Report) {
    RetriesOnMismatch(reports) && reports[|reports| - 1] == last
  }

  lemma RetriedOnce(reports: seq<Report>, report: Report)
    requires Retried(reports) && reports[|reports| - 1].mismatch && |reports| < 3
    ensures Retried(reports + [report])
  {}

  class LocalModel {
    /** The model's answer to its n-th request. */
    const post: (nat, Prompt) -> Reply
    const schema: Schema
    const twoPhase: bool
    var requests: nat

    constructor (post: (nat, Prompt) -> Reply, schema: Schema, twoPhase: bool)
      ensures this.post == post && this.schema == schema && this.twoPhase == twoPhase && requests == 0
    {
      this.post, this.schema, this.twoPhase, requests := post, schema, twoPhase, 0;
    }

    method Ask(prompt: Prompt) returns (reply: Reply)
      modifies this
      ensures reply == post(old(requests), prompt)
      ensures requests == old(requests) + 1
    {
      reply := post(requests, prompt);
      requests := requests + 1;
    }

    /** Requests sent in `n` rounds. */
    function CallsIn(n: nat): nat {
      if twoPhase then n + n else n
    }

    /** The replies of one round begun after `start` requests: a transient reasoning call comes
        first when the strategy has two phases. */
    function RoundFrom(start: nat, prompt: Prompt): (round: seq<Reply>)
      ensures |round| == CallsIn(1) && round != []
      ensures twoPhase ==> round[0] == post(start, Reasoning(prompt))
      ensures var asked := if twoPhase then AfterReasoning(prompt, round[0].thoughts) else prompt;
        round[|round| - 1] == post(start + |round| - 1, asked)
    {
      if twoPhase then
        var reasoning := post(start, Reasoning(prompt));
        [reasoning, post(start + 1, AfterReasoning(prompt, reasoning.thoughts))]
      else [post(start, prompt)]
    }

    /** The replies to consecutive rounds on the given prompts. */
    function RoundsFrom(start: nat, prompts: seq<Prompt>): seq<Reply> {
      if prompts == [] then [] else
        var n := |prompts| - 1;
        RoundsFrom(start, prompts[..n]) + RoundFrom(start + CallsIn(n), prompts[n])
    }

    /** The replies are those to the prompts the reports led to. */
    ghost predicate Conversed(start: nat, base: Prompt, reports: seq<Report>, made: seq<Reply>) {
      && |made| == CallsIn(|reports|) && |Prompted(base, reports)| == |reports|
      && made == RoundsFrom(start, Prompted(base, reports))
    }

    lemma CallsGrow(k: nat)
      ensures CallsIn(k) < CallsIn(k + 1) == CallsIn(k) + CallsIn(1)
    {}

    lemma {:induction false} RoundsLength(start: nat, prompts: seq<Prompt>)
      ensures |RoundsFrom(start, prompts)| == CallsIn(|prompts|)
    {
      if prompts != [] {
        RoundsLength(start, prompts[..|prompts| - 1]);
      }
    }

    /** The rounds follow one another, each begun when those before are over. */
    lemma {:induction false} RoundAt(start: nat, prompts: seq<Prompt>, k: nat, j: nat)
      requires k < |prompts| && j < CallsIn(1)
      ensures CallsIn(k) + j < |RoundsFrom(start, prompts)|
      ensures RoundsFrom(start, prompts)[CallsIn(k) + j] == RoundFrom(start + CallsIn(k), prompts[k])[j]
    {
      var n := |prompts| - 1;
      var init := prompts[..n];
      RoundsLength(start, init);
      if k < n {
        RoundAt(start, init, k, j);
      }
    }

    lemma {:induction false} FirstRound(start: nat, base: Prompt, reports: seq<Report>, made: seq<Reply>)
      requires |reports| == 1 && made == RoundFrom(start, base)
      ensures Conversed(start, base, reports, made)
    {
      var prompts := [base];
      assert prompts[..0] == [] && Prompted(base, reports) == prompts;
      assert start + CallsIn(0) == start;
      assert RoundsFrom(start, prompts) == [] + made;
    }

    lemma {:induction false} NextRound(start: nat, base: Prompt, reports: seq<Report>, made: seq<Reply>,
        round: seq<Reply>, report: Report)
      requires reports != [] && Conversed(start, base, reports, made)
      requires round == RoundFrom(start + |made|, Consistency(base, reports[|reports| - 1]))
      ensures Conversed(start, base, reports + [report], made + round)
    {
      var next, prompts := reports + [report], Prompted(base, reports);
      assert next[..|next| - 1] == reports;
      assert Prompted(base, next) == prompts + [Consistency(base, reports[|reports| - 1])];
      assert Prompted(base, next)[..|prompts|] == prompts;
    }

    method AskCandidate(prompt: Prompt) returns (made: seq<Reply>)
      modifies this
      ensures made == RoundFrom(old(requests), prompt)
      ensures requests == old(requests) + |made|
    {
      if twoPhase {
        var reasoning := Ask(Reasoning(prompt));
        var final := Ask(AfterReasoning(prompt, reasoning.thoughts));
        made := [reasoning, final];
      } else {
        var final := Ask(prompt);
        made := [final];
      }
    }

    /** One more round's replies read into the draft. */
    function Extend(d: Draft, round: seq<Reply>, verify: Verifier, candidateBase: Config): Draft
      requires round != []
    {
      var response := Final(round).response;
      var (changes, invalid) := ValidChanges(schema, response);
      Draft(response, changes, invalid, Plus(d.usage, TotalUsage(round)), d.latency + Latency(round), d.calls + |round|,
            d.reports + [Check(verify, candidateBase, changes)])
    }

    /** The draft is read from the last reply. */
    ghost predicate ReadFrom(d: Draft, made: seq<Reply>) {
      && made != [] && d.response == Final(made).response
      && d.changes == ValidChanges(schema, d.response).0 && d.invalid == ValidChanges(schema, d.response).1
    }

    /** The draft is what the replies so far say and cost, and they answer the prompts its reports
        led to. */
    ghost predicate Drafted(start: nat, base: Prompt, verify: Verifier, candidateBase: Config, d: Draft,
        made: seq<Reply>) {
      && ReadFrom(d, made) && Paid(d, made)
      && Retried(d.reports) && d.reports[|d.reports| - 1] == Check(verify, candidateBase, d.changes)
      && Conversed(start, base, d.reports, made)
    }

    lemma {:induction false} FirstDraft(start: nat, base: Prompt, verify: Verifier, candidateBase: Config)
      ensures var round := RoundFrom(start, base);
        Drafted(start, base, verify, candidateBase, Extend(NO_DRAFT, round, verify, candidateBase), round)
    {
      var round := RoundFrom(start, base);
      PlusAssociative(TotalUsage(round), NO_USAGE, NO_USAGE);
      FirstRound(start, base, Extend(NO_DRAFT, round, verify, candidateBase).reports, round);
    }

    lemma {:induction false} NextRead(d: Draft, made: seq<Reply>, round: seq<Reply>, verify: Verifier,
        candidateBase: Config)
      requires round != []
      ensures ReadFrom(Extend(d, round, verify, candidateBase), made + round)
    {
      assert Final(made + round) == Final(round);
    }

    lemma {:induction false} NextPaid(d: Draft, made: seq<Reply>, round: seq<Reply>, verify: Verifier,
        candidateBase: Config)
      requires round != [] && Paid(d, made)
      ensures Paid(Extend(d, round, verify, candidateBase), made + round)
    {
      UsageConcat(made, round);
      LatencyConcat(made, round);
    }

    lemma {:induction false} NextDraft(start: nat, base: Prompt, verify: Verifier, candidateBase: Config, d: Draft,
        made: seq<Reply>, round: seq<Reply>)
      requires Drafted(start, base, verify, candidateBase, d, made) && round != []
      requires d.reports[|d.reports| - 1].mismatch && |d.reports| < 3
      requires Conversed(start, base, Extend(d, round, verify, candidateBase).reports, made + round)
      ensures Drafted(start, base, verify, candidateBase, Extend(d, round, verify, candidateBase), made + round)
    {
      NextRead(d, made, round, verify, candidateBase);
      NextPaid(d, made, round, verify, candidateBase);
      RetriedOnce(d.reports, Check(verify, candidateBase, Extend(d, round, verify, candidateBase).changes));
    }

    /** Asks for a repair of what the last report found; whatever the next report is, the replies
        are those the reports led to. */
    method AskAgain(basePrompt: Prompt, reports: seq<Report>, ghost start: nat, ghost made: seq<Reply>)
        returns (round: seq<Reply>)
      requires reports != [] && Conversed(start, basePrompt, reports, made) && requests == start + |made|
      modifies this
      ensures round != [] && requests == start + |made| + |round|
      ensures forall r: Report :: Conversed(start, basePrompt, reports + [r], made + round)
    {
      round := AskCandidate(Consistency(basePrompt, reports[|reports| - 1]));
      forall r: Report ensures Conversed(start, basePrompt, reports + [r], made + round) {
        NextRound(start, basePrompt, reports, made, round, r);
      }
    }

    /** One more round, on the report of the last. */
    method RefineOnce(basePrompt: Prompt, verify: Verifier, candidateBase: Config, d: Draft, ghost start: nat,
        ghost made: seq<Reply>)
      returns (next: Draft, ghost more: seq<Reply>)
      requires Drafted(start, basePrompt, verify, candidateBase, d, made) && requests == start + |made|
      requires d.reports[|d.reports| - 1].mismatch && |d.reports| < 3
      modifies this
      ensures Drafted(start, basePrompt, verify, candidateBase, next, more) && requests == start + |more|
      ensures |next.reports| == |d.reports| + 1
    {
      var round := AskAgain(basePrompt, d.reports, start, made);
      next, more := Extend(d, round, verify, candidateBase), made + round;
      NextDraft(start, basePrompt, verify, candidateBase, d, made, round);
    }

    /** At most two more rounds while the report is a mismatch. */
    method Refine(basePrompt: Prompt, verify: Verifier, candidateBase: Config, first: Draft, ghost start: nat,
        ghost asked: seq<Reply>)
      returns (d: Draft, ghost made: seq<Reply>)
      requires Drafted(start, basePrompt, verify, candidateBase, first, asked) && requests == start + |asked|
      modifies this
      ensures Drafted(start, basePrompt, verify, candidateBase, d, made) && requests == start + |made|
      ensures RetriesOnMismatch(d.reports)
    {
      d, made := first, asked;
      while d.reports[|d.reports| - 1].mismatch && |d.reports| < 3
        invariant Drafted(start, basePrompt, verify, candidateBase, d, made)
        invariant requests == start + |made|
        decreases 3 - |d.reports|
      {
        d, made := RefineOnce(basePrompt, verify, candidateBase, d, start, made);
      }
    }

    /** `verified`: there are memory atoms to verify the candidate against. */
    method Generate(basePrompt: Prompt, verified: bool, verify: Verifier, candidateBase: Config)
      returns (g: Generated, ghost made: seq<Reply>)
      modifies this
      ensures requests == old(requests) + |made| && made != []
      ensures g.response == Final(made).response
      ensures g.changes == ValidChanges(schema, g.response).0 && g.invalid == ValidChanges(schema, g.response).1
      ensures ExecutorOnly(g, TotalUsage(made), Latency(made), |made|)
      ensures !verified ==> g.reports == [] && made == RoundFrom(old(requests), basePrompt)
      ensures verified ==> ReportsOn(g.reports, Check(verify, candidateBase, g.changes))
      ensures verified ==> Conversed(old(requests), basePrompt, g.reports, made)
    {
      ghost var start := requests;
      var round := AskCandidate(basePrompt);
      made := round;
      var response := Final(round).response;
      var (changes, invalid) := ValidChanges(schema, response);
      if verified {
        FirstDraft(start, basePrompt, verify, candidateBase);
        var d;
        var first := Extend(NO_DRAFT, round, verify, candidateBase);
        d, made := Refine(basePrompt, verify, candidateBase, first, start, round);
        g := Candidate(d);
      } else {
        g := Candidate(Draft(response, changes, invalid, TotalUsage(round), Latency(round), |round|, []));
      }
    }
  }

  /** What a generation holds between rounds. */
  datatype Draft = Draft(
    response: Option<Response>, changes: Config, invalid: nat, usage: Usage, latency: nat, calls: nat,
    reports: seq<Report>)

  ghost predicate Paid(d: Draft, made: seq<Reply>) {
    d.usage == TotalUsage(made) && d.latency == Latency(made) && d.calls == |made|
  }

  const NO_DRAFT := Draft(None, map[], 0, NO_USAGE, 0, 0, [])

  function Candidate(d: Draft): (g: Generated)
    ensures ExecutorOnly(g, d.usage, d.latency, d.calls)
    ensures g.response == d.response && g.changes == d.changes && g.invalid == d.invalid && g.reports == d.reports
  {
    PlusAssociative(d.usage, NO_USAGE, NO_USAGE);
    Generated(d.response, d.changes, d.invalid, d.usage, d.latency, d.calls, d.reports, d.calls, 0,
              d.usage, NO_USAGE, [], false, [], [], None, None, 0, NotApplicable, 0)
  }

  /** The prompts that lead to the given reports: the base prompt, then one retry for every report
      but the last, carrying it. */
  function Prompted(base: Prompt, reports: seq<Report>): seq<Prompt> {
    if |reports| <= 1 then [base]
    else Prompted(base, reports[..|reports| - 1]) + [Consistency(base, reports[|reports| - 2])]
  }

  /** One prompt for each report: the base prompt, then a retry carrying the report before it. */
  lemma {:induction false} PromptsAre(base: Prompt, reports: seq<Report>)
    requires reports != []
    ensures |Prompted(base, reports)| == |reports| && Prompted(base, reports)[0] == base
    ensures forall k | 0 < k < |reports| :: Prompted(base, reports)[k] == Consistency(base, reports[k - 1])
  {
    if |reports| > 1 {
      PromptsAre(base, reports[..|reports| - 1]);
    }
  }

  /** The last reply, the one read as a candidate. */
  function Final(made: seq<Reply>): Reply
    requires made != []
  {
    made[|made| - 1]
  }

  /** A candidate made by the executor alone, at this cost. */
  ghost predicate ExecutorOnly(g: Generated, usage: Usage, latency: nat, calls: nat) {
    && Accounted(g)
    && g.executorUsage == usage && g.frontierUsage == NO_USAGE
    && g.latency == latency
    && g.executorCalls == calls && g.frontierCalls == g.planCalls == g.takeoverCalls == 0
    && g.statuses == [] && g.lessonFields == [] && !g.escalation
  }

  lemma {:induction false} LatencyConcat(a: seq<Reply>, b: seq<Reply>)
    ensures Latency(a + b) == Latency(a) + Latency(b)
  {
    if a == [] {
      assert a + b == b;
    } else {
      assert (a + b)[1..] == a[1..] + b;
      LatencyConcat(a[1..], b);
    }
  }

  lemma {:induction false} UsageConcat(a: seq<Reply>, b: seq<Reply>)
    ensures TotalUsage(a + b) == Plus(TotalUsage(a), TotalUsage(b))
  {
    if a == [] {
      assert a + b == b;
      PlusAssociative(TotalUsage(b), NO_USAGE, NO_USAGE);
    } else {
      assert (a + b)[1..] == a[1..] + b;
      UsageConcat(a[1..], b);
      PlusAssociative(a[0].usage, TotalUsage(a[1..]), TotalUsage(b));
    }
  }
}
