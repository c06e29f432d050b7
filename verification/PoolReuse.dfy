/** What becomes of connections over whole runs of the pool: good ones are kept and used again, a
    failed rollback ends one for good, and a close is final. */
module PoolReuse {
  import opened Basics
  import opened ConnectionPool
  import opened PoolProtocol

  // ----- Good connections are kept -----

  /** Nobody closes the pool and every rollback succeeds. */
  ghost predicate Gentle(run: seq<Event>) {
    forall e | e in run :: !e.EnterCloseRegion? && (e.RollbackEnds? ==> e.succeeded)
  }

  predicate KeepsConnection(a: Agent) {
    !a.Retiring? && !a.Closing? && (a.Returning? ==> a.reusable)
  }

  ghost predicate NothingRetired(w: World) {
    !w.pool.closed && w.retired == [] && forall k | 0 <= k < |w.agents| :: KeepsConnection(w.agents[k])
  }

  lemma {:induction false} GentleStep(w: World, e: Event)
    requires NothingRetired(w) && Enabled(w, e) && !e.EnterCloseRegion? && (e.RollbackEnds? ==> e.succeeded)
    ensures NothingRetired(Step(w, e))
  {
    assert KeepsConnection(w.agents[e.agent]);
  }

  lemma {:induction false} GentleRun(w: World, run: seq<Event>)
    requires NothingRetired(w) && Possible(w, run) && Gentle(run)
    ensures NothingRetired(After(w, run))
    decreases |run|
  {
    if run != [] {
      assert run[0] in run;
      GentleStep(w, run[0]);
      GentleRun(Step(w, run[0]), run[1..]);
    }
  }

  lemma {:induction false} NonePending(agents: seq<Agent>)
    requires forall k | 0 <= k < |agents| :: KeepsConnection(agents[k])
    ensures PendingCloses(agents) == 0
  {
    if agents != [] {
      assert KeepsConnection(agents[0]);
      NonePending(agents[1..]);
    }
  }

  /** Without a close and without a failed rollback nothing is ever closed physically, and the pool
      never makes more connections than its maximum, however long it runs. */
  lemma {:induction false} GoodConnectionsStay(w: World, maximum: nat, n: nat, run: seq<Event>)
    requires Reached(w, maximum, n, run) && Gentle(run)
    ensures w.retired == [] && w.made <= maximum && !w.pool.closed
  {
    GentleRun(Start(maximum, n), run);
    NonePending(w.agents);
    OpenIsExact(w, maximum, n, run);
    PoolConserves(w, maximum, n, run);
  }

  // ----- Failed ones are not used again -----

  /** The connection is on its way to being closed, or was. */
  ghost predicate Doomed(w: World, c: Connection) {
    c in w.retired || exists k :: 0 <= k < |w.agents| && OnItsWayOut(w.agents[k], c)
  }

  predicate OnItsWayOut(a: Agent, c: Connection) {
    a == Returning(c, false) || a == Retiring(c)
  }

  lemma {:induction false} NotifyAllWakesQueue(w: World, k: nat)
    requires k < |w.agents|
    ensures |NotifyAll(w).agents| == |w.agents| && NotifyAll(w).retired == w.retired
    ensures NotifyAll(w).agents[k] == w.agents[k] || k in w.waiters
    decreases |w.waiters|
  {
    if w.waiters != [] && w.waiters[0] < |w.agents| {
      NotifyAllWakesQueue(Notify(w), k);
      assert k in w.waiters[1..] ==> k in w.waiters;
    }
  }

  /** What one step does to an agent that is neither queued nor its own. */
  lemma {:induction false} OthersStay(w: World, e: Event, k: nat)
    requires Invariant(w) && Enabled(w, e) && k < |w.agents| && k != e.agent && !Blocked(w.agents[k])
    ensures |Step(w, e).agents| == |w.agents| && Step(w, e).agents[k] == w.agents[k]
  {
    assert k !in w.waiters;
    if e.EnterCloseRegion? && !w.pool.closed {
      var (pool, taken) := EnterClose(w.pool);
      NotifyAllWakesQueue(Become(w.(pool := pool), e.agent, Closing(taken)), k);
    }
  }

  lemma {:induction false} RetiredStay(w: World, e: Event, c: Connection)
    requires Enabled(w, e) && c in w.retired
    ensures c in Step(w, e).retired
  {
    if e.EnterCloseRegion? && !w.pool.closed {
      var (pool, taken) := EnterClose(w.pool);
      NotifyAllWakesQueue(Become(w.(pool := pool), e.agent, Closing(taken)), e.agent);
    }
  }

  lemma {:induction false} OwnWayOut(w: World, e: Event, c: Connection)
    requires Invariant(w) && Enabled(w, e) && OnItsWayOut(w.agents[e.agent], c)
    ensures Doomed(Step(w, e), c)
  {
    var w' := Step(w, e);
    if e.EnterReleaseRegion? {
      assert e.agent !in w.waiters;
      assert OnItsWayOut(w'.agents[e.agent], c);
    } else {
      assert w'.retired[|w.retired|] == c;
    }
  }

  lemma {:induction false} DoomedStep(w: World, e: Event, c: Connection)
    requires Invariant(w) && Enabled(w, e) && Doomed(w, c)
    ensures Doomed(Step(w, e), c)
  {
    if c in w.retired {
      RetiredStay(w, e, c);
    } else {
      var k :| 0 <= k < |w.agents| && OnItsWayOut(w.agents[k], c);
      if k == e.agent {
        OwnWayOut(w, e, c);
      } else {
        OthersStay(w, e, k);
        assert OnItsWayOut(Step(w, e).agents[k], c);
      }
    }
  }

  lemma {:induction false} DoomedRun(w: World, run: seq<Event>, c: Connection)
    requires Invariant(w) && Possible(w, run) && Doomed(w, c)
    ensures Doomed(After(w, run), c) && Invariant(After(w, run))
    decreases |run|
  {
    if run != [] {
      DoomedStep(w, run[0], c);
      StepKeeps(w, run[0]);
      DoomedRun(Step(w, run[0]), run[1..], c);
    }
  }

  lemma {:induction false} DoomedUnused(w: World, c: Connection, j: nat)
    requires Invariant(w) && Doomed(w, c)
    ensures c !in w.pool.idle
    ensures j < |w.agents| ==> w.agents[j] != Holding(c)
  {
    assert Copies(w.pool.idle, c) + AllHeldBy(w.agents, c) + Copies(w.retired, c) == Made(w.made, c);
    CopiesBound(w.pool.idle);
    CopiesBound(w.retired);
    if k :| 0 <= k < |w.agents| && OnItsWayOut(w.agents[k], c) {
      TwoHolders(w.agents, k, c);
    }
    if j < |w.agents| {
      TwoHolders(w.agents, j, c);
    }
  }

  /** After a rollback failed, its connection is never idle and never lent again, in any
      continuation. */
  lemma {:induction false} FailedNeverReused(w: World, maximum: nat, n: nat, run: seq<Event>, i: nat,
      more: seq<Event>, j: nat)
    requires Reached(w, maximum, n, run) && Enabled(w, RollbackEnds(i, false))
    requires Possible(Step(w, RollbackEnds(i, false)), more)
    ensures var c, later := w.agents[i].connection, After(Step(w, RollbackEnds(i, false)), more);
      c !in later.pool.idle && (j < |later.agents| ==> later.agents[j] != Holding(c))
  {
    var e, c := RollbackEnds(i, false), w.agents[i].connection;
    ReachedHolds(w, maximum, n, run);
    StepKeeps(w, e);
    assert OnItsWayOut(Step(w, e).agents[i], c);
    DoomedRun(Step(w, e), more, c);
    DoomedUnused(After(Step(w, e), more), c, j);
  }

  // ----- A close is final -----

  lemma {:induction false} ClosedStep(w: World, e: Event)
    requires Invariant(w) && Enabled(w, e) && w.pool.closed
    ensures Step(w, e).pool.closed && Connectors(Step(w, e).agents) <= Connectors(w.agents)
    ensures Step(w, e).made + Connectors(Step(w, e).agents) <= w.made + Connectors(w.agents)
  {
    ConnectorsChange(w.agents, e.agent, Step(w, e).agents[e.agent]);
    assert Step(w, e).agents == w.agents[e.agent := Step(w, e).agents[e.agent]];
  }

  lemma {:induction false} ConnectorsChange(agents: seq<Agent>, i: nat, a: Agent)
    requires i < |agents|
    ensures Connectors(agents[i := a])
      == Connectors(agents) - (if agents[i].Connecting? then 1 else 0) + (if a.Connecting? then 1 else 0)
  {
    if i == 0 {
      assert agents[0 := a][1..] == agents[1..];
    } else {
      assert agents[i := a][1..] == agents[1..][i - 1 := a];
      ConnectorsChange(agents[1..], i - 1, a);
    }
  }

  lemma {:induction false} ClosedRun(w: World, run: seq<Event>)
    requires Invariant(w) && Possible(w, run) && w.pool.closed
    ensures After(w, run).pool.closed && Invariant(After(w, run))
    ensures After(w, run).made + Connectors(After(w, run).agents) <= w.made + Connectors(w.agents)
    decreases |run|
  {
    if run != [] {
      ClosedStep(w, run[0]);
      StepKeeps(w, run[0]);
      ClosedRun(Step(w, run[0]), run[1..]);
    }
  }

  lemma {:induction false} CloseRegionCloses(w: World, i: nat)
    requires Invariant(w) && Enabled(w, EnterCloseRegion(i))
    ensures var w' := Step(w, EnterCloseRegion(i));
      w'.pool.closed && w'.made == w.made && w'.waiters == [] && Invariant(w')
  {
    StepKeeps(w, EnterCloseRegion(i));
    if !w.pool.closed {
      var (pool, taken) := EnterClose(w.pool);
      ClosingLeaves(Become(w.(pool := pool), i, Closing(taken)));
    }
  }

  lemma {:induction false} ClosingLeaves(w: World)
    ensures NotifyAll(w).made == w.made && NotifyAll(w).pool == w.pool
    decreases |w.waiters|
  {
    if w.waiters != [] && w.waiters[0] < |w.agents| {
      ClosingLeaves(Notify(w));
    }
  }

  /** Once a close has passed its lock region, the pool stays closed with nothing idle and nobody
      queued, and only connects already begun can still make a connection. */
  lemma {:induction false} CloseIsFinal(w: World, maximum: nat, n: nat, run: seq<Event>, i: nat, more: seq<Event>)
    requires Reached(w, maximum, n, run) && Enabled(w, EnterCloseRegion(i))
    requires Possible(Step(w, EnterCloseRegion(i)), more)
    ensures var closed, later := Step(w, EnterCloseRegion(i)), After(Step(w, EnterCloseRegion(i)), more);
      && later.pool.closed && later.pool.idle == [] && later.waiters == []
      && later.made <= w.made + Connectors(closed.agents)
  {
    ReachedHolds(w, maximum, n, run);
    CloseRegionCloses(w, i);
    ClosedRun(Step(w, EnterCloseRegion(i)), more);
  }

  // ----- Waiters are woken in order -----

  lemma {:induction false} WithoutAt(s: seq<nat>, p: nat)
    requires Distinct(s) && p < |s|
    ensures Without(s, s[p]) == s[..p] + s[p + 1..]
  {
    if p == 0 {
      assert s == [s[0]] + s[1..];
      WithoutAbsent(s[1..], s[0]);
    } else {
      WithoutAt(s[1..], p - 1);
      assert s[..p] == [s[0]] + s[1..][..p - 1] && s[p + 1..] == s[1..][p..];
    }
  }

  lemma {:induction false} WithoutAbsent(s: seq<nat>, x: nat)
    requires x !in s
    ensures Without(s, x) == s
  {
    if s != [] {
      assert s[0] in s;
      WithoutAbsent(s[1..], x);
      assert s == [s[0]] + s[1..];
    }
  }

  lemma {:induction false} NotifyAllWakesAll(w: World)
    requires forall k | k in w.waiters :: k < |w.agents|
    ensures NotifyAll(w).waiters == [] && |NotifyAll(w).agents| == |w.agents|
    ensures forall k: nat | k < |w.agents| ::
      NotifyAll(w).agents[k] == if k in w.waiters then Notified else w.agents[k]
    decreases |w.waiters|
  {
    if w.waiters != [] {
      assert w.waiters[0] in w.waiters;
      forall k | k in Notify(w).waiters ensures k < |w.agents| {
        assert k in w.waiters;
      }
      NotifyAllWakesAll(Notify(w));
      assert w.waiters == [w.waiters[0]] + w.waiters[1..];
    }
  }

  /** A release or a failed connect wakes the agent that has waited longest; */
  lemma {:induction false} WakesLongestWaiting(w: World, maximum: nat, n: nat, run: seq<Event>, e: Event)
    requires Reached(w, maximum, n, run) && Enabled(w, e) && (e.EnterReleaseRegion? || e.ConnectRaises?)
    ensures var w' := Step(w, e);
      if w.waiters == [] then w'.waiters == []
      else
        && w.waiters[0] < |w'.agents| && w'.agents[w.waiters[0]] == Notified
        && w'.waiters == w.waiters[1..]
  {
    ReachedHolds(w, maximum, n, run);
    if w.waiters != [] {
      assert w.waiters[0] in w.waiters;
    }
  }

  /** the close wakes all of them; */
  lemma {:induction false} CloseWakesAll(w: World, maximum: nat, n: nat, run: seq<Event>, i: nat)
    requires Reached(w, maximum, n, run) && Enabled(w, EnterCloseRegion(i))
    ensures var w' := Step(w, EnterCloseRegion(i));
      && w'.waiters == [] && |w'.agents| == |w.agents|
      && forall k: nat | k in w.waiters && k < |w.agents| :: w'.agents[k] == Notified
  {
    ReachedHolds(w, maximum, n, run);
    if !w.pool.closed {
      var (pool, taken) := EnterClose(w.pool);
      assert i !in w.waiters;
      NotifyAllWakesAll(Become(w.(pool := pool), i, Closing(taken)));
    }
  }

  lemma EntersQueue(w: World, i: nat, expired: bool)
    requires Enabled(w, EnterAcquireRegion(i, expired))
    ensures var w' := Step(w, EnterAcquireRegion(i, expired));
      w'.waiters == Without(w.waiters, i) + if w'.agents[i].Waiting? then [i] else []
  {}

  /** and nobody else overtakes: an agent that enters leaves its own place in the queue, and joins at the
      end if it has to wait. */
  lemma {:induction false} EntersInOrder(w: World, maximum: nat, n: nat, run: seq<Event>, i: nat, expired: bool, p: nat)
    requires Reached(w, maximum, n, run) && Enabled(w, EnterAcquireRegion(i, expired))
    requires if i in w.waiters then p < |w.waiters| && w.waiters[p] == i else p == |w.waiters|
    ensures var w' := Step(w, EnterAcquireRegion(i, expired));
      var rest := if p < |w.waiters| then w.waiters[..p] + w.waiters[p + 1..] else w.waiters;
      w'.waiters == rest + if w'.agents[i].Waiting? then [i] else []
  {
    ReachedHolds(w, maximum, n, run);
    EntersQueue(w, i, expired);
    if i in w.waiters {
      WithoutAt(w.waiters, p);
    } else {
      WithoutAbsent(w.waiters, i);
    }
  }
}
