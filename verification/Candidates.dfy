/** Candidate values shared by the generators: configurations, validated changes, token usage,
    memory reports, and the prompts that lead to them.  A prompt is kept as its own structure, so
    its digest is the prompt itself. */
module Candidates {
  import opened Basics

  type Field = string

  datatype Value = Text(text: string) | Number(number: int) | Flag(flag: bool) | Null

  type Config = map<Field, Value>

  /** A parsed JSON object: its `changes` member when that is an object, and the rest of it. */
  datatype Response = Response(changes: Option<Config>, rest: nat)

  datatype Schema = Schema(initial: Config, allowed: map<Field, set<Value>>)

  /** Python equality: `True == 1` and `False == 0` across types. */
  predicate PythonEqual(a: Value, b: Value): (r: bool)
    ensures r <==> || a == b
                   || (a, b) == (Flag(true), Number(1)) || (a, b) == (Number(1), Flag(true))
                   || (a, b) == (Flag(false), Number(0)) || (a, b) == (Number(0), Flag(false))
  {
    AsNumber(a) == AsNumber(b)
  }

  function AsNumber(v: Value): Value {
    if v.Flag? then Number(if v.flag then 1 else 0) else v
  }

  predicate Permitted(schema: Schema, name: Field, value: Value) {
    && name in schema.initial
    && (name in schema.allowed ==> exists v :: v in schema.allowed[name] && PythonEqual(v, value))
    && (name in {"timezone", "idempotency_key"} ==> value.Text?)
    && (name == "conflict_status" ==> value.Number? && 100 <= value.number <= 599)
  }

  const RULED_FIELDS := {"timezone", "idempotency_key", "conflict_status"}

  /** Which values a field may take: any, unless its values are listed or it is one of three with a rule
      of their own. */
  lemma PermittedWhen(schema: Schema, name: Field, value: Value)
    ensures name !in schema.initial ==> !Permitted(schema, name, value)
    ensures name in schema.initial && name !in schema.allowed ==>
      match name
      case "timezone" => Permitted(schema, name, value) <==> value.Text?
      case "idempotency_key" => Permitted(schema, name, value) <==> value.Text?
      case "conflict_status" => Permitted(schema, name, value) <==> exists k :: 100 <= k < 600 && value == Number(k)
      case _ => Permitted(schema, name, value)
    ensures name in schema.initial && name in schema.allowed && name !in RULED_FIELDS ==>
      (Permitted(schema, name, value) <==>
        exists v :: v in schema.allowed[name] && (v == value || (v.Flag? != value.Flag? && PythonEqual(v, value))))
  {
    if value.Number? && 100 <= value.number < 600 {
      assert value == Number(value.number);
    }
  }

  /** The changes a response may make, and how many of its entries are invalid. */
  function ValidChanges(schema: Schema, response: Option<Response>): (Config, nat) {
    if response.None? || response.value.changes.None? then (map[], 1) else
      var proposed := response.value.changes.value;
      var valid := map n | n in proposed && Permitted(schema, n, proposed[n]) :: proposed[n];
      (valid, |proposed.Keys - valid.Keys|)
  }

  /** The entries a response proposes; none when it has no changes object. */
  function Proposed(response: Option<Response>): Config {
    if response.Some? && response.value.changes.Some? then response.value.changes.value else map[]
  }

  ghost predicate PermittedEntry(schema: Schema, response: Option<Response>, name: Field) {
    name in Proposed(response) && Permitted(schema, name, Proposed(response)[name])
  }

  /** Every permitted entry is kept as proposed, whatever stands beside it, and nothing else; the
      others are counted. */
  lemma {:induction false} ValidChangesSound(schema: Schema, response: Option<Response>)
    ensures var (valid, invalid) := ValidChanges(schema, response);
      && (forall n :: n in valid <==> PermittedEntry(schema, response, n))
      && (forall n | n in valid :: valid[n] == Proposed(response)[n])
      && (response.Some? && response.value.changes.Some? ==> invalid == |Proposed(response)| - |valid|)
      && (invalid == 0 <==>
            && response.Some? && response.value.changes.Some?
            && forall n | n in Proposed(response) :: PermittedEntry(schema, response, n))
      && (invalid == 0 ==> valid == Proposed(response))
  {
    if response.Some? && response.value.changes.Some? {
      var proposed := response.value.changes.value;
      var valid := ValidChanges(schema, response).0;
      assert valid.Keys <= proposed.Keys;
      KeysLeft(valid, proposed);
      if forall n | n in proposed :: PermittedEntry(schema, response, n) {
        assert proposed.Keys - valid.Keys == {};
      }
    }
  }

  lemma {:induction false} KeysLeft(valid: Config, proposed: Config)
    requires valid.Keys <= proposed.Keys && forall n | n in valid :: valid[n] == proposed[n]
    ensures |proposed.Keys - valid.Keys| == 0 ==> valid == proposed
    ensures |proposed.Keys - valid.Keys| == |proposed| - |valid|
  {
    if |proposed.Keys - valid.Keys| == 0 {
      assert proposed.Keys - valid.Keys == {};
      assert valid.Keys == proposed.Keys;
    }
  }

  /** A full-state response reduced to the entries that differ from the base in type or value. */
  function EffectiveChanges(changes: Config, base: Config): Config {
    map n | n in changes && (n !in base || changes[n] != base[n]) :: changes[n]
  }

  /** Dropping what repeats the base does not change the configuration it leads to, and nothing
      smaller does the same. */
  lemma {:induction false} EffectiveChangesMinimal(changes: Config, base: Config, smaller: Config)
    ensures base + EffectiveChanges(changes, base) == base + changes
    ensures base + smaller == base + changes ==> EffectiveChanges(changes, base).Keys <= smaller.Keys
  {
    var target := base + changes;
    forall n | n in EffectiveChanges(changes, base) && n !in smaller ensures base + smaller != target {
      assert n in target && target[n] == changes[n];
      assert n in base + smaller ==> n in base && (base + smaller)[n] == base[n];
    }
  }

  /** The deterministic consistency report on a configuration. */
  datatype Report = Report(mismatch: bool, violations: seq<Field>, unverifiable: set<Field>)

  type Verifier = Config -> Report

  /** The report on the base configuration with the changes applied. */
  function Check(verify: Verifier, base: Config, changes: Config): Report {
    verify(base + changes)
  }

  /** `changes` over `base`: every field of either, and the changed ones changed. */
  ghost predicate Overlaid(base: Config, changes: Config, config: Config) {
    && (forall n :: n in config <==> n in base || n in changes)
    && forall n | n in config :: config[n] == if n in changes then changes[n] else base[n]
  }

  /** The report is on the configuration the changes would lead to. */
  lemma {:induction false} CheckIs(verify: Verifier, base: Config, changes: Config, config: Config)
    requires Overlaid(base, changes, config)
    ensures Check(verify, base, changes) == verify(config)
  {
    assert config == base + changes;
  }

  datatype Usage = Usage(
    promptTokens: nat, outputTokens: nat, cachedTokens: nat, reasoningTokens: nat,
    totalDuration: nat, loadDuration: nat, promptDuration: nat, evalDuration: nat)

  const NO_USAGE := Usage(0, 0, 0, 0, 0, 0, 0, 0)

  function Plus(a: Usage, b: Usage): Usage {
    Usage(a.promptTokens + b.promptTokens, a.outputTokens + b.outputTokens,
          a.cachedTokens + b.cachedTokens, a.reasoningTokens + b.reasoningTokens,
          a.totalDuration + b.totalDuration, a.loadDuration + b.loadDuration,
          a.promptDuration + b.promptDuration, a.evalDuration + b.evalDuration)
  }

  lemma PlusAssociative(a: Usage, b: Usage, c: Usage)
    ensures Plus(Plus(a, b), c) == Plus(a, Plus(b, c))
    ensures Plus(NO_USAGE, a) == a == Plus(a, NO_USAGE)
  {}

  datatype Round = InitialRound | FinalRound

  datatype Prompt =
    | Base(text: nat)
    | Consistency(base: Prompt, report: Report)
    | Reasoning(of: Prompt)
    | AfterReasoning(of: Prompt, thoughts: nat)
    | Planning(base: Prompt, tags: seq<string>)
    | Executing(base: Prompt, plan: nat)
    | Reviewing(base: Prompt, changes: Config, round: Round)
    | Repairing(base: Prompt, changes: Config, review: Review)

  /** A prompt no call was made from yet. */
  type BasePrompt = p: Prompt | p.Base? witness Base(0)

  datatype Verdict = Pass | Repair | Escalate

  /** An advisor review as its parser accepts it. */
  datatype Review = Review(status: Verdict, failedFields: seq<Field>, repairSteps: seq<string>, uncertainty: string)

  /** White space as `strip` knows it, up to the Latin-1 characters. */
  predicate Space(c: char) {
    c in {' ', '\U{85}', '\U{A0}'} || '\t' <= c <= '\r' || '\U{1C}' <= c <= '\U{1F}'
  }

  predicate Blank(s: string) {
    forall c | c in s :: Space(c)
  }

  /** The parser's bounds; a review with other keys, types or status never gets this far. */
  predicate AcceptableReview(schema: Schema, r: Review) {
    && |r.failedFields| <= 8 && |r.repairSteps| <= 8 && |r.uncertainty| <= 240
    && (forall f | f in r.failedFields :: f in schema.initial)
    && Distinct(r.failedFields)
    && (forall step | step in r.repairSteps :: !Blank(step) && |step| <= 240)
    && (r.status.Pass? ==> r.failedFields == [] && r.repairSteps == [])
    && (r.status.Repair? ==> r.failedFields != [] && r.repairSteps != [])
  }

  function ParseReview(schema: Schema, found: Option<Review>): (r: Option<Review>)
    ensures r.Some? <==> found.Some? && AcceptableReview(schema, found.value)
    ensures r.Some? ==> r == found
  {
    if found.Some? && AcceptableReview(schema, found.value) then found else None
  }

  /** One reply of the local model. */
  datatype Reply = Reply(response: Option<Response>, thoughts: nat, usage: Usage, latency: nat)

  datatype Purpose = Direct | Plan | Advice

  /** What a frontier call returns: text, read as a candidate, a plan or a review. */
  datatype FrontierResult = FrontierResult(
    purpose: Purpose, response: Option<Response>, plan: Option<nat>, review: Option<Review>,
    usage: Usage, latency: nat, provider: string, model: string)

  datatype ReviewStatus = Reviewed(verdict: Verdict) | InvalidReview

  datatype Routing = NotApplicable | LocalFirst | FrontierPlanFirst

  datatype Generated = Generated(
    response: Option<Response>,
    changes: Config,
    invalid: nat,
    actualUsage: Usage,
    latency: nat,
    modelCalls: nat,
    reports: seq<Report>,
    executorCalls: nat,
    frontierCalls: nat,
    executorUsage: Usage,
    frontierUsage: Usage,
    statuses: seq<ReviewStatus>,
    escalation: bool,
    lessonFields: seq<Field>,
    frontierPrompts: seq<Prompt>,
    provider: Option<string>,
    model: Option<string>,
    planCalls: nat,
    routing: Routing,
    takeoverCalls: nat)

  /** Usage and calls split between executor and frontier without loss. */
  ghost predicate Accounted(g: Generated) {
    && g.actualUsage == Plus(g.executorUsage, g.frontierUsage)
    && g.modelCalls == g.executorCalls + g.frontierCalls
    && |g.frontierPrompts| == g.frontierCalls
  }
}
