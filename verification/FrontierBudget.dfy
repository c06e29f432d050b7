/** The two built-in frontier adapters under their budgets: calls and money for OpenAI, calls and
    tokens for the Codex CLI.  Money is a real number; rounding is not modelled. */
module FrontierBudget {

  const MAXIMUM_PROMPT_BYTES: nat := 65_536

  /** What comes back from a send. `wellFormed`: the result passes its own field checks. */
  datatype Answer =
    | SendRaises
    | Unusable
    | Usage(inputTokens: nat, outputTokens: nat, wellFormed: bool)

  datatype Request = Request(knownPurpose: bool, promptBytes: nat, answer: Answer)

  datatype Outcome = Refused | Failed | OverLimit | Returned

  predicate Acceptable(r: Request) {
    r.knownPurpose && 0 < r.promptBytes <= MAXIMUM_PROMPT_BYTES
  }

  // ----- OpenAI: calls and money -----

  datatype Prices = Prices(
    maximumCalls: nat, maximumCost: real, inputRate: real, outputRate: real, maximumOutputTokens: nat)

  ghost predicate Sensible(p: Prices) {
    p.maximumCost >= 0.0 && p.inputRate >= 0.0 && p.outputRate >= 0.0
  }

  function Cost(p: Prices, input: nat, output: nat): real {
    (input as real * p.inputRate + output as real * p.outputRate) / 1_000_000.0
  }

  /** Rates are prices of a million tokens, input and output apart, and costs add up. */
  lemma {:induction false} CostIs(p: Prices, input: nat, output: nat, input': nat, output': nat)
    ensures Cost(p, 1_000_000, 0) == p.inputRate && Cost(p, 0, 1_000_000) == p.outputRate
    ensures Cost(p, input + input', output + output') == Cost(p, input, output) + Cost(p, input', output')
  {
    RateAdds(input, input', p.inputRate);
    RateAdds(output, output', p.outputRate);
  }

  lemma RateAdds(a: nat, b: nat, rate: real)
    ensures (a + b) as real * rate == a as real * rate + b as real * rate
  {}

  datatype Spend = Spend(calls: nat, recorded: real)

  /** One call: the state it leaves and how it ended. */
  function OpenAiStep(p: Prices, s: Spend, r: Request): (Spend, Outcome) {
    if !Acceptable(r) || s.calls >= p.maximumCalls then (s, Refused)
    else if s.recorded + Cost(p, r.promptBytes, p.maximumOutputTokens) > p.maximumCost then (s, Refused)
    else if !r.answer.Usage? then (s.(calls := s.calls + 1), Failed)
    else
      var recorded := s.recorded + Cost(p, r.answer.inputTokens, r.answer.outputTokens);
      (Spend(s.calls + 1, recorded),
       if recorded > p.maximumCost then OverLimit else if r.answer.wellFormed then Returned else Failed)
  }

  class OpenAiFrontier {
    const prices: Prices
    var callCount: nat
    var conservativeSpend: real

    constructor (prices: Prices)
      ensures this.prices == prices && callCount == 0 && conservativeSpend == 0.0
    {
      this.prices, callCount, conservativeSpend := prices, 0, 0.0;
    }

    method Call(r: Request) returns (outcome: Outcome)
      modifies this
      ensures (Spend(callCount, conservativeSpend), outcome)
        == OpenAiStep(prices, Spend(old(callCount), old(conservativeSpend)), r)
    {
      if !Acceptable(r) || callCount >= prices.maximumCalls {
        return Refused;
      }
      var maximumRequestCost := Cost(prices, r.promptBytes, prices.maximumOutputTokens);
      if conservativeSpend + maximumRequestCost > prices.maximumCost {
        return Refused;
      }
      callCount := callCount + 1;
      if !r.answer.Usage? {
        return Failed;
      }
      conservativeSpend := conservativeSpend + Cost(prices, r.answer.inputTokens, r.answer.outputTokens);
      if conservativeSpend > prices.maximumCost {
        return OverLimit;
      }
      outcome := if r.answer.wellFormed then Returned else Failed;
    }
  }

  /** A sequence of calls: the state reached, and how each ended. */
  function OpenAiRun(p: Prices, run: seq<Request>): (Spend, seq<Outcome>) {
    if run == [] then (Spend(0, 0.0), []) else
      var (s, outcomes) := OpenAiRun(p, run[..|run| - 1]);
      var (s', outcome) := OpenAiStep(p, s, run[|run| - 1]);
      (s', outcomes + [outcome])
  }

  /** Requests that left the process. */
  function Sends(outcomes: seq<Outcome>): nat {
    if outcomes == [] then 0
    else Sends(outcomes[..|outcomes| - 1]) + if outcomes[|outcomes| - 1].Refused? then 0 else 1
  }

  function Ends(outcomes: seq<Outcome>, outcome: Outcome): nat {
    if outcomes == [] then 0
    else Ends(outcomes[..|outcomes| - 1], outcome) + if outcomes[|outcomes| - 1] == outcome then 1 else 0
  }

  /** The cost of every usage a send reported. */
  function Reported(p: Prices, run: seq<Request>, outcomes: seq<Outcome>): real
    requires |run| == |outcomes|
  {
    if run == [] then 0.0 else
      var n := |run| - 1;
      var before := Reported(p, run[..n], outcomes[..n]);
      if !outcomes[n].Refused? && run[n].answer.Usage?
      then before + Cost(p, run[n].answer.inputTokens, run[n].answer.outputTokens) else before
  }

  /** Whatever fails, the adapter sends at most the configured number of requests, and it records
      exactly what they reported. */
  lemma {:induction false} OpenAiSendsWithinLimit(p: Prices, run: seq<Request>)
    ensures var (s, outcomes) := OpenAiRun(p, run);
      && |outcomes| == |run|
      && Sends(outcomes) == s.calls <= p.maximumCalls
      && s.recorded == Reported(p, run, outcomes)
  {
    if run != [] {
      var n := |run| - 1;
      OpenAiSendsWithinLimit(p, run[..n]);
      var before := OpenAiRun(p, run[..n]);
      var after := OpenAiRun(p, run);
      assert after.1[..n] == before.1;
    }
  }

  lemma {:induction false} CostMonotone(p: Prices, input: nat, output: nat, input': nat, output': nat)
    requires Sensible(p) && input <= input' && output <= output'
    ensures 0.0 <= Cost(p, input, output) <= Cost(p, input', output')
  {
    TimesRate(input, input', p.inputRate);
    TimesRate(output, output', p.outputRate);
  }

  lemma {:induction false} TimesRate(n: nat, n': nat, rate: real)
    requires n <= n' && rate >= 0.0
    ensures 0.0 <= n as real * rate <= n' as real * rate
  {
    assert n' as real * rate - n as real * rate == (n' - n) as real * rate;
  }

  /** The provider reports no more than the prompt's bytes and the requested output. */
  ghost predicate WithinRequest(p: Prices, r: Request) {
    r.answer.Usage? ==>
      r.answer.inputTokens <= r.promptBytes && r.answer.outputTokens <= p.maximumOutputTokens
  }

  /** If usage stays within what was asked for, the recorded spend never exceeds the limit and the
      check after the send never fires. */
  lemma {:induction false} OpenAiSpendWithinLimit(p: Prices, run: seq<Request>)
    requires Sensible(p) && forall r | r in run :: WithinRequest(p, r)
    ensures var (s, outcomes) := OpenAiRun(p, run);
      0.0 <= s.recorded <= p.maximumCost && Ends(outcomes, OverLimit) == 0
  {
    if run != [] {
      var n := |run| - 1;
      OpenAiSpendWithinLimit(p, run[..n]);
      var before := OpenAiRun(p, run[..n]);
      var r := run[n];
      assert WithinRequest(p, r);
      if r.answer.Usage? {
        CostMonotone(p, r.answer.inputTokens, r.answer.outputTokens, r.promptBytes, p.maximumOutputTokens);
      }
      assert (before.1 + [OpenAiStep(p, before.0, r).1])[..n] == before.1 by {
        OpenAiSendsWithinLimit(p, run[..n]);
      }
    }
  }

  /** After a report that breaks the limit nothing is sent. */
  lemma {:induction false} OpenAiOverspentSendsNothing(p: Prices, s: Spend, r: Request)
    requires Sensible(p) && s.recorded > p.maximumCost
    ensures OpenAiStep(p, s, r) == (s, Refused)
  {
    CostMonotone(p, 0, 0, r.promptBytes, p.maximumOutputTokens);
  }

  lemma {:induction false} OpenAiLast(p: Prices, run: seq<Request>)
    requires run != []
    ensures var (s, outcomes), before := OpenAiRun(p, run), OpenAiRun(p, run[..|run| - 1]);
      && |outcomes| == |run| && outcomes[..|run| - 1] == before.1
      && (s, outcomes[|run| - 1]) == OpenAiStep(p, before.0, run[|run| - 1])
  {
    OpenAiSendsWithinLimit(p, run[..|run| - 1]);
  }

  /** When a send is reported over the limit: exactly when it was admitted and what it reports costs
      more than was left. */
  lemma {:induction false} OpenAiOverLimitWhen(p: Prices, run: seq<Request>, i: nat)
    requires i < |run|
    ensures var outcomes, left := OpenAiRun(p, run).1, p.maximumCost - OpenAiRun(p, run[..i]).0.recorded;
      && |outcomes| == |run|
      && (outcomes[i].OverLimit? <==>
           !outcomes[i].Refused? && run[i].answer.Usage?
           && Cost(p, run[i].answer.inputTokens, run[i].answer.outputTokens) > left)
  {
    OpenAiLast(p, run);
    if i < |run| - 1 {
      OpenAiOverLimitWhen(p, run[..|run| - 1], i);
      assert run[..|run| - 1][..i] == run[..i];
    }
  }

  /** Exactly which calls are sent: those with a known purpose and a prompt of a size that is taken,
      while fewer than the limit were sent and what was reported so far leaves room for the worst
      cost of this one. */
  lemma {:induction false} OpenAiSentWhen(p: Prices, run: seq<Request>, i: nat)
    requires i < |run|
    ensures var outcomes := OpenAiRun(p, run).1;
      && |outcomes| == |run|
      && (!outcomes[i].Refused? <==>
           && run[i].knownPurpose && 0 < run[i].promptBytes <= 65_536
           && Sends(outcomes[..i]) < p.maximumCalls
           && Reported(p, run[..i], outcomes[..i]) + Cost(p, run[i].promptBytes, p.maximumOutputTokens)
                <= p.maximumCost)
      && (outcomes[i].Returned? ==> run[i].answer.Usage? && run[i].answer.wellFormed)
  {
    OpenAiLast(p, run);
    var outcomes, n := OpenAiRun(p, run).1, |run| - 1;
    if i < n {
      OpenAiSentWhen(p, run[..n], i);
      assert run[..n][..i] == run[..i] && outcomes[..n][..i] == outcomes[..i];
    } else {
      OpenAiSendsWithinLimit(p, run[..n]);
    }
  }

  /** It happens at most once, and exactly in the runs whose recorded spend ends above the limit. */
  lemma {:induction false} OpenAiOverLimitIff(p: Prices, run: seq<Request>)
    requires Sensible(p)
    ensures var (s, outcomes) := OpenAiRun(p, run);
      Ends(outcomes, OverLimit) == if s.recorded > p.maximumCost then 1 else 0
  {
    if run != [] {
      var n := |run| - 1;
      var before := OpenAiRun(p, run[..n]).0;
      OpenAiOverLimitIff(p, run[..n]);
      OpenAiLast(p, run);
      if before.recorded > p.maximumCost {
        OpenAiOverspentSendsNothing(p, before, run[n]);
      }
    }
  }

  lemma {:induction false} FirstCall(p: Prices, r: Request)
    ensures OpenAiRun(p, [r]) == (OpenAiStep(p, Spend(0, 0.0), r).0, [OpenAiStep(p, Spend(0, 0.0), r).1])
  {
    var run := [r];
    var before: (Spend, seq<Outcome>) := (Spend(0, 0.0), []);
    assert run[..|run| - 1] == [] && run[|run| - 1] == r;
    assert OpenAiRun(p, []) == before;
    assert before.1 + [OpenAiStep(p, before.0, r).1] == [OpenAiStep(p, Spend(0, 0.0), r).1];
  }

  /** The assumption on usage is needed: a report above the request overspends. */
  lemma {:induction false} OpenAiMayOverspend()
    ensures var p := Prices(1, 1.0, 1_000_000.0, 0.0, 1);
      OpenAiRun(p, [Request(true, 1, Usage(2, 0, true))]) == (Spend(1, 2.0), [OverLimit])
  {
    var p := Prices(1, 1.0, 1_000_000.0, 0.0, 1);
    var r := Request(true, 1, Usage(2, 0, true));
    assert Cost(p, 1, 1) == 1.0 && Cost(p, 2, 0) == 2.0;
    FirstCall(p, r);
    assert OpenAiStep(p, Spend(0, 0.0), r) == (Spend(1, 2.0), OverLimit);
  }

  // ----- Codex CLI: calls and tokens -----

  datatype Caps = Caps(maximumCalls: nat, maximumTokens: nat)

  datatype Tokens = Tokens(calls: nat, cumulative: nat, exceeded: bool)

  function CodexStep(c: Caps, s: Tokens, r: Request): (Tokens, Outcome) {
    if !Acceptable(r) || s.exceeded || s.cumulative >= c.maximumTokens || s.calls >= c.maximumCalls then (s, Refused)
    else if !r.answer.Usage? then (s.(calls := s.calls + 1), Failed)
    else
      var cumulative := s.cumulative + r.answer.inputTokens + r.answer.outputTokens;
      if cumulative > c.maximumTokens then (Tokens(s.calls + 1, cumulative, true), OverLimit)
      else (Tokens(s.calls + 1, cumulative, s.exceeded), if r.answer.wellFormed then Returned else Failed)
  }

  class CodexFrontier {
    const caps: Caps
    var callCount: nat
    var cumulativeTokens: nat
    var tokenLimitExceeded: bool

    constructor (caps: Caps)
      ensures this.caps == caps && callCount == 0 && cumulativeTokens == 0 && !tokenLimitExceeded
    {
      this.caps, callCount, cumulativeTokens, tokenLimitExceeded := caps, 0, 0, false;
    }

    method Call(r: Request) returns (outcome: Outcome)
      modifies this
      ensures (Tokens(callCount, cumulativeTokens, tokenLimitExceeded), outcome)
        == CodexStep(caps, Tokens(old(callCount), old(cumulativeTokens), old(tokenLimitExceeded)), r)
    {
      if !Acceptable(r) || tokenLimitExceeded || cumulativeTokens >= caps.maximumTokens
         || callCount >= caps.maximumCalls {
        return Refused;
      }
      callCount := callCount + 1;
      if !r.answer.Usage? {
        return Failed;
      }
      cumulativeTokens := cumulativeTokens + r.answer.inputTokens + r.answer.outputTokens;
      if cumulativeTokens > caps.maximumTokens {
        tokenLimitExceeded := true;
        return OverLimit;
      }
      outcome := if r.answer.wellFormed then Returned else Failed;
    }
  }

  function CodexRun(c: Caps, run: seq<Request>): (Tokens, seq<Outcome>) {
    if run == [] then (Tokens(0, 0, false), []) else
      var (s, outcomes) := CodexRun(c, run[..|run| - 1]);
      var (s', outcome) := CodexStep(c, s, run[|run| - 1]);
      (s', outcomes + [outcome])
  }

  /** Tokens of the calls that returned. */
  function ReturnedTokens(run: seq<Request>, outcomes: seq<Outcome>): nat
    requires |run| == |outcomes|
  {
    if run == [] then 0 else
      var n := |run| - 1;
      var before := ReturnedTokens(run[..n], outcomes[..n]);
      if outcomes[n].Returned? && run[n].answer.Usage?
      then before + run[n].answer.inputTokens + run[n].answer.outputTokens else before
  }

  /** Tokens that sends reported. */
  function ReportedTokens(run: seq<Request>, outcomes: seq<Outcome>): nat
    requires |run| == |outcomes|
  {
    if run == [] then 0 else
      var n := |run| - 1;
      var before := ReportedTokens(run[..n], outcomes[..n]);
      if !outcomes[n].Refused? && run[n].answer.Usage?
      then before + run[n].answer.inputTokens + run[n].answer.outputTokens else before
  }

  lemma {:induction false} CodexLast(c: Caps, run: seq<Request>)
    requires run != []
    ensures var (s, outcomes), before := CodexRun(c, run), CodexRun(c, run[..|run| - 1]);
      && |outcomes| == |run| && outcomes[..|run| - 1] == before.1
      && (s, outcomes[|run| - 1]) == CodexStep(c, before.0, run[|run| - 1])
  {
    CodexWithinLimits(c, run[..|run| - 1]);
  }

  lemma {:induction false} CodexCounts(c: Caps, run: seq<Request>)
    ensures var (s, outcomes) := CodexRun(c, run);
      |outcomes| == |run| && s.cumulative == ReportedTokens(run, outcomes)
  {
    if run != [] {
      CodexLast(c, run);
      CodexCounts(c, run[..|run| - 1]);
    }
  }

  /** Exactly which calls are sent, by what was sent and reported before, and how they end. */
  lemma {:induction false} CodexSentWhen(c: Caps, run: seq<Request>, i: nat)
    requires i < |run|
    ensures var outcomes := CodexRun(c, run).1;
      && |outcomes| == |run|
      && var before, answer := ReportedTokens(run[..i], outcomes[..i]), run[i].answer;
         && (!outcomes[i].Refused? <==>
              && run[i].knownPurpose && 0 < run[i].promptBytes <= 65_536
              && Sends(outcomes[..i]) < c.maximumCalls && before < c.maximumTokens)
         && (!outcomes[i].Refused? && answer.Usage? ==>
              var total := before + answer.inputTokens + answer.outputTokens;
              && (outcomes[i].OverLimit? <==> total > c.maximumTokens)
              && (outcomes[i].Returned? <==> total <= c.maximumTokens && answer.wellFormed))
         && (!outcomes[i].Refused? && !answer.Usage? ==> outcomes[i].Failed?)
  {
    CodexLast(c, run);
    var outcomes, n := CodexRun(c, run).1, |run| - 1;
    if i < n {
      CodexSentWhen(c, run[..n], i);
      assert run[..n][..i] == run[..i] && outcomes[..n][..i] == outcomes[..i];
    } else {
      CodexWithinLimits(c, run[..n]);
      CodexCounts(c, run[..n]);
    }
  }

  /** Sends never exceed the call limit, tokens of returned calls never exceed the cap, and at most
      one send reports past it. */
  lemma {:induction false} CodexWithinLimits(c: Caps, run: seq<Request>)
    ensures var (s, outcomes) := CodexRun(c, run);
      && |outcomes| == |run|
      && Sends(outcomes) == s.calls <= c.maximumCalls
      && ReturnedTokens(run, outcomes) <= c.maximumTokens
      && ReturnedTokens(run, outcomes) <= s.cumulative
      && Ends(outcomes, OverLimit) == (if s.exceeded then 1 else 0)
      && (s.exceeded <==> s.cumulative > c.maximumTokens)
  {
    if run != [] {
      var n := |run| - 1;
      CodexWithinLimits(c, run[..n]);
      var before := CodexRun(c, run[..n]);
      var after := CodexRun(c, run);
      assert after.1[..n] == before.1;
    }
  }

  /** Nothing is sent after the report that went past the cap. */
  lemma {:induction false} CodexExceededIsLast(c: Caps, run: seq<Request>, more: seq<Request>)
    requires CodexRun(c, run).0.exceeded
    ensures CodexRun(c, run + more).0 == CodexRun(c, run).0
    ensures Sends(CodexRun(c, run + more).1) == Sends(CodexRun(c, run).1)
    decreases |more|
  {
    if more == [] {
      assert run + more == run;
    } else {
      var n := |more| - 1;
      CodexExceededIsLast(c, run, more[..n]);
      assert (run + more)[..|run| + n] == run + more[..n];
      var before := CodexRun(c, run + more[..n]);
      var after := CodexRun(c, run + more);
      assert after.1 == before.1 + [Refused];
      assert after.1[..|before.1|] == before.1;
    }
  }
}
