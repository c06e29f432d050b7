/** The session loop around the candidates: the configuration they build up, the memories saved,
    and the totals that keep executor and frontier apart. */
module Trajectory {
  import opened Basics
  import opened Candidates

  datatype Totals = Totals(
    promptTokens: nat, outputTokens: nat, latency: nat,
    executorPromptTokens: nat, executorOutputTokens: nat, executorCalls: nat,
    frontierPromptTokens: nat, frontierOutputTokens: nat, frontierCalls: nat,
    planCalls: nat, takeoverCalls: nat, escalations: nat, lessons: nat)

  const NOTHING := Totals(0, 0, 0, 0, 0, 0, 0, 0, 0, 0, 0, 0, 0)

  function AddSession(t: Totals, g: Generated): Totals {
    Totals(
      t.promptTokens + g.actualUsage.promptTokens, t.outputTokens + g.actualUsage.outputTokens, t.latency + g.latency,
      t.executorPromptTokens + g.executorUsage.promptTokens, t.executorOutputTokens + g.executorUsage.outputTokens,
      t.executorCalls + g.executorCalls,
      t.frontierPromptTokens + g.frontierUsage.promptTokens, t.frontierOutputTokens + g.frontierUsage.outputTokens,
      t.frontierCalls + g.frontierCalls,
      t.planCalls + g.planCalls, t.takeoverCalls + g.takeoverCalls,
      t.escalations + (if g.escalation then 1 else 0), t.lessons + (if g.lessonFields != [] then 1 else 0))
  }

  function TotalsOf(ran: seq<Generated>): Totals {
    if ran == [] then NOTHING else AddSession(TotalsOf(ran[..|ran| - 1]), ran[|ran| - 1])
  }

  function ModelCalls(ran: seq<Generated>): nat {
    if ran == [] then 0 else ModelCalls(ran[..|ran| - 1]) + ran[|ran| - 1].modelCalls
  }

  function Reviews(ran: seq<Generated>): nat {
    if ran == [] then 0 else Reviews(ran[..|ran| - 1]) + |ran[|ran| - 1].statuses|
  }

  function HashCount(ran: seq<Generated>): nat {
    if ran == [] then 0 else HashCount(ran[..|ran| - 1]) + |ran[|ran| - 1].frontierPrompts|
  }

  /** What every generator guarantees of its candidate. */
  ghost predicate Proper(g: Generated) {
    && Accounted(g)
    && (g.escalation ==> g.changes == map[])
  }

  /** Over any number of sessions nothing is lost between the totals and their two halves, and
      every frontier call has its prompt hash. */
  lemma {:induction false} TotalsSplit(ran: seq<Generated>)
    requires forall g | g in ran :: Proper(g)
    ensures var t := TotalsOf(ran);
      && t.promptTokens == t.executorPromptTokens + t.frontierPromptTokens
      && t.outputTokens == t.executorOutputTokens + t.frontierOutputTokens
      && ModelCalls(ran) == t.executorCalls + t.frontierCalls
      && HashCount(ran) == t.frontierCalls
  {
    if ran != [] {
      TotalsSplit(ran[..|ran| - 1]);
      assert Proper(ran[|ran| - 1]);
    }
  }

  /** Frontier calls are plans, takeovers and reviews, nothing else. */
  lemma {:induction false} FrontierCallsAre(ran: seq<Generated>)
    requires forall g | g in ran :: g.frontierCalls == g.planCalls + g.takeoverCalls + |g.statuses|
    ensures TotalsOf(ran).frontierCalls == TotalsOf(ran).planCalls + TotalsOf(ran).takeoverCalls + Reviews(ran)
  {
    if ran != [] {
      var last := ran[|ran| - 1];
      FrontierCallsAre(ran[..|ran| - 1]);
      assert last in ran;
    }
  }

  function Applied(config: Config, sessions: seq<Generated>): Config {
    if sessions == [] then config
    else Applied(config, sessions[..|sessions| - 1]) + sessions[|sessions| - 1].changes
  }

  /** The last of the sessions that changes the field. */
  ghost predicate LastToChange(sessions: seq<Generated>, i: nat, name: Field)
    requires i < |sessions|
  {
    name in sessions[i].changes && forall j | i < j < |sessions| :: name !in sessions[j].changes
  }

  /** A field holds what the last session to change it set, or its initial value. */
  ghost predicate HoldsLast(config: Config, initial: Config, sessions: seq<Generated>) {
    && (forall name :: name in config <==>
          name in initial || exists i :: 0 <= i < |sessions| && name in sessions[i].changes)
    && (forall i, name | 0 <= i < |sessions| && LastToChange(sessions, i, name) ::
          name in config && config[name] == sessions[i].changes[name])
    && (forall name | name in initial && forall i | 0 <= i < |sessions| :: name !in sessions[i].changes ::
          config[name] == initial[name])
  }

  lemma {:induction false} HoldsLastStep(config: Config, initial: Config, sessions: seq<Generated>, g: Generated)
    requires HoldsLast(config, initial, sessions)
    ensures HoldsLast(config + g.changes, initial, sessions + [g])
  {
    var n, more, next := |sessions|, sessions + [g], config + g.changes;
    forall name
      ensures name in next <==> name in initial || exists i :: 0 <= i < |more| && name in more[i].changes
    {
      if name in g.changes {
        assert name in more[n].changes;
      } else if i :| 0 <= i < n && name in sessions[i].changes {
        assert name in more[i].changes;
      }
    }
    forall i, name | 0 <= i < |more| && LastToChange(more, i, name)
      ensures name in next && next[name] == more[i].changes[name]
    {
      if i < n {
        assert name !in more[n].changes;
        assert forall j | i < j < n :: sessions[j] == more[j];
        assert LastToChange(sessions, i, name);
      }
    }
    forall name | name in initial && forall i | 0 <= i < |more| :: name !in more[i].changes
      ensures next[name] == initial[name]
    {
      assert name !in more[n].changes;
      assert forall i | 0 <= i < n :: sessions[i] == more[i];
    }
  }

  /** Later sessions overwrite earlier ones, field by field. */
  lemma {:induction false} AppliedHoldsLast(initial: Config, sessions: seq<Generated>)
    ensures HoldsLast(Applied(initial, sessions), initial, sessions)
  {
    if sessions != [] {
      var init, last := sessions[..|sessions| - 1], sessions[|sessions| - 1];
      assert sessions == init + [last];
      AppliedHoldsLast(initial, init);
      HoldsLastStep(Applied(initial, init), initial, init, last);
    }
  }

  /** What a completed session's checkpoint is written from. */
  datatype Memory = Memory(config: Config, response: Option<Response>, lessonFields: seq<Field>)

  function MemoriesOf(initial: Config, completed: seq<Generated>): seq<Memory> {
    if completed == [] then [] else
      var last := completed[|completed| - 1];
      MemoriesOf(initial, completed[..|completed| - 1])
        + [Memory(Applied(initial, completed), last.response, last.lessonFields)]
  }

  lemma {:induction false} MemoryCount(initial: Config, completed: seq<Generated>)
    ensures |MemoriesOf(initial, completed)| == |completed|
  {
    if completed != [] {
      MemoryCount(initial, completed[..|completed| - 1]);
    }
  }

  lemma {:induction false} MemoryIs(initial: Config, completed: seq<Generated>, i: nat)
    requires i < |completed| == |MemoriesOf(initial, completed)|
    ensures MemoriesOf(initial, completed)[i]
      == Memory(Applied(initial, completed[..i + 1]), completed[i].response, completed[i].lessonFields)
  {
    var n := |completed| - 1;
    MemoryCount(initial, completed[..n]);
    if i < n {
      MemoryIs(initial, completed[..n], i);
      assert completed[..n][..i + 1] == completed[..i + 1];
    } else {
      assert completed[..n + 1] == completed;
    }
  }

  /** One memory per completed session, holding the configuration as that session left it. */
  lemma {:induction false} MemoryAt(initial: Config, completed: seq<Generated>, i: nat)
    requires i < |completed|
    ensures var memories := MemoriesOf(initial, completed);
      && |memories| == |completed|
      && HoldsLast(memories[i].config, initial, completed[..i + 1])
      && memories[i].response == completed[i].response && memories[i].lessonFields == completed[i].lessonFields
  {
    MemoryCount(initial, completed);
    MemoryIs(initial, completed, i);
    AppliedHoldsLast(initial, completed[..i + 1]);
  }

  /** Where the loop stands after the sessions in `ran`, each completed. */
  ghost predicate Standing(initial: Config, ran: seq<Generated>, remembers: bool,
                           config: Config, t: Totals, memories: seq<Memory>) {
    && config == Applied(initial, ran) && t == TotalsOf(ran)
    && memories == if remembers then MemoriesOf(initial, ran) else []
  }

  /** The session that stops a supervised trajectory. */
  predicate Stops(g: Generated, supervised: bool) {
    supervised && g.escalation
  }

  ghost predicate NoneStops(ran: seq<Generated>, supervised: bool) {
    forall g | g in ran :: !Stops(g, supervised)
  }

  /** One session counted and, when it completes, applied and remembered. */
  method RunSession(config: Config, t: Totals, memories: seq<Memory>, g: Generated, supervised: bool, remembers: bool,
                    ghost initial: Config, ghost ran: seq<Generated>)
    returns (config': Config, t': Totals, memories': seq<Memory>, stopped: bool)
    requires Proper(g) && Standing(initial, ran, remembers, config, t, memories)
    ensures t' == TotalsOf(ran + [g]) && (stopped <==> Stops(g, supervised))
    ensures stopped ==> config' == config && memories' == memories
    ensures !stopped ==> Standing(initial, ran + [g], remembers, config', t', memories')
  {
    assert (ran + [g])[..|ran|] == ran;
    config', t', memories', stopped := config + g.changes, AddSession(t, g), memories, supervised && g.escalation;
    if !stopped && remembers {
      memories' := memories + [Memory(config', g.response, g.lessonFields)];
    }
  }

  /** Runs the sessions in order until one stays unresolved.  The first `completed` sessions are in
      the configuration, and each has left its memory when the condition keeps memories.  A session
      that stops the trajectory counts in the totals but changes and saves nothing. */
  method RunSessions(initial: Config, sessions: seq<Generated>, supervised: bool, remembers: bool)
    returns (config: Config, t: Totals, memories: seq<Memory>, completed: nat, stopped: bool)
    requires forall g | g in sessions :: Proper(g)
    ensures completed <= |sessions| && (stopped <==> completed < |sessions|)
    ensures NoneStops(sessions[..completed], supervised)
    ensures stopped ==> Stops(sessions[completed], supervised)
    ensures HoldsLast(config, initial, sessions[..completed])
    ensures memories == if remembers then MemoriesOf(initial, sessions[..completed]) else []
    ensures t == TotalsOf(if stopped then sessions[..completed + 1] else sessions)
  {
    config, t, memories, completed, stopped := initial, TotalsOf([]), [], 0, false;
    while completed < |sessions|
      invariant completed <= |sessions| && !stopped
      invariant NoneStops(sessions[..completed], supervised)
      invariant Standing(initial, sessions[..completed], remembers, config, t, memories)
    {
      ghost var ran := sessions[..completed];
      assert sessions[..completed + 1] == ran + [sessions[completed]];
      config, t, memories, stopped :=
        RunSession(config, t, memories, sessions[completed], supervised, remembers, initial, ran);
      if stopped {
        AppliedHoldsLast(initial, ran);
        return;
      }
      completed := completed + 1;
    }
    assert sessions[..completed] == sessions;
    AppliedHoldsLast(initial, sessions);
  }
}
