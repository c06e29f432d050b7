/** The pool under concurrency: every interleaving of lock regions, waits, wake-ups, time-outs,
    connects, rollbacks and physical closes by any number of agents.

    An agent is one use of the pool in progress: a call that acquires, the wrapper it got, or a
    call to `close`.  The condition variable keeps its waiters in arrival order; a waiter that
    timed out stays queued until it has the lock again, and can still absorb a notification. */
module PoolProtocol {
  import opened Basics
  import opened ConnectionPool

  datatype Agent =
    | Outside
    | Waiting
    | TimedOut
    | Notified
    | Connecting
    | Holding(connection: Connection)
    | RollingBack(connection: Connection)
    | Returning(connection: Connection, reusable: bool)
    | Retiring(connection: Connection)
    | Closing(pending: seq<Connection>)

  datatype World = World(
    pool: Pool, agents: seq<Agent>, waiters: seq<nat>, made: nat, retired: seq<Connection>)

  datatype Event =
    | EnterAcquireRegion(agent: nat, expired: bool)
    | WaitTimesOut(agent: nat)
    | ConnectSucceeds(agent: nat)
    | ConnectRaises(agent: nat)
    | CloseWrapper(agent: nat)
    | RollbackEnds(agent: nat, succeeded: bool)
    | EnterReleaseRegion(agent: nat)
    | ClosePhysically(agent: nat)
    | EnterCloseRegion(agent: nat)
    | CloseNextIdle(agent: nat)

  predicate Enabled(w: World, e: Event) {
    && e.agent < |w.agents|
    && var a := w.agents[e.agent];
       match e
       case EnterAcquireRegion(_, _) => a.Outside? || a.Notified? || a.TimedOut?
       case WaitTimesOut(_) => a.Waiting?
       case ConnectSucceeds(_) => a.Connecting?
       case ConnectRaises(_) => a.Connecting?
       case CloseWrapper(_) => a.Holding?
       case RollbackEnds(_, _) => a.RollingBack?
       case EnterReleaseRegion(_) => a.Returning?
       case ClosePhysically(_) => a.Retiring?
       case EnterCloseRegion(_) => a.Outside?
       case CloseNextIdle(_) => a.Closing?
  }

  function Without(s: seq<nat>, x: nat): seq<nat> {
    if s == [] then [] else (if s[0] == x then [] else [s[0]]) + Without(s[1..], x)
  }

  /** `notify()`: the longest waiter is woken and leaves the queue. */
  function Notify(w: World): World {
    if w.waiters == [] || w.waiters[0] >= |w.agents| then w
    else w.(agents := w.agents[w.waiters[0] := Notified], waiters := w.waiters[1..])
  }

  function NotifyAll(w: World): World
    decreases |w.waiters|
  {
    if w.waiters == [] || w.waiters[0] >= |w.agents| then w else NotifyAll(Notify(w))
  }

  function Become(w: World, i: nat, a: Agent): World
    requires i < |w.agents|
  {
    w.(agents := w.agents[i := a])
  }

  function Step(w: World, e: Event): World
    requires Enabled(w, e)
  {
    var i, a := e.agent, w.agents[e.agent];
    match e
    case EnterAcquireRegion(_, expired) =>
      var (pool, entry) := EnterAcquire(w.pool, expired);
      var w' := w.(pool := pool, waiters := Without(w.waiters, i));
      (match entry
       case Unavailable => Become(w', i, Outside)
       case Reused(c) => Become(w', i, Holding(c))
       case Reserved => Become(w', i, Connecting)
       case MustWait => Become(w'.(waiters := w'.waiters + [i]), i, Waiting))
    case WaitTimesOut(_) => Become(w, i, TimedOut)
    case ConnectSucceeds(_) => Become(w.(made := w.made + 1), i, Holding(w.made))
    case ConnectRaises(_) => Notify(Become(w.(pool := AfterFailedConnect(w.pool)), i, Outside))
    case CloseWrapper(_) => Become(w, i, RollingBack(a.connection))
    case RollbackEnds(_, succeeded) => Become(w, i, Returning(a.connection, succeeded))
    case EnterReleaseRegion(_) =>
      var (pool, retire) := EnterRelease(w.pool, a.connection, a.reusable);
      Notify(Become(w.(pool := pool), i, if retire then Retiring(a.connection) else Outside))
    case ClosePhysically(_) => Become(w.(retired := w.retired + [a.connection]), i, Outside)
    case EnterCloseRegion(_) =>
      var (pool, taken) := EnterClose(w.pool);
      if w.pool.closed then w else NotifyAll(Become(w.(pool := pool), i, Closing(taken)))
    case CloseNextIdle(_) =>
      if a.pending == [] then Become(w, i, Outside)
      else Become(w.(retired := w.retired + [a.pending[0]]), i, Closing(a.pending[1..]))
  }

  function Start(maximum: nat, n: nat): World {
    World(Pool(maximum, [], 0, false), seq(n, _ => Outside), [], 0, [])
  }

  predicate Possible(w: World, run: seq<Event>)
    decreases |run|
  {
    run == [] || (Enabled(w, run[0]) && Possible(Step(w, run[0]), run[1..]))
  }

  function After(w: World, run: seq<Event>): World
    requires Possible(w, run)
    decreases |run|
  {
    if run == [] then w else After(Step(w, run[0]), run[1..])
  }

  // ----- What the agents hold -----

  function Slot(a: Agent): int {
    if a.Connecting? || a.Holding? || a.RollingBack? || a.Returning? then 1 else 0
  }

  function Slots(agents: seq<Agent>): int {
    if agents == [] then 0 else Slot(agents[0]) + Slots(agents[1..])
  }

  function Woken(agents: seq<Agent>): int {
    if agents == [] then 0 else IsWoken(agents[0]) + Woken(agents[1..])
  }

  /** How many times an agent has connection `c` in hand. */
  function HeldBy(a: Agent, c: Connection): nat {
    match a
    case Holding(d) => if c == d then 1 else 0
    case RollingBack(d) => if c == d then 1 else 0
    case Returning(d, _) => if c == d then 1 else 0
    case Retiring(d) => if c == d then 1 else 0
    case Closing(pending) => Copies(pending, c)
    case _ => 0
  }

  function AllHeldBy(agents: seq<Agent>, c: Connection): nat {
    if agents == [] then 0 else HeldBy(agents[0], c) + AllHeldBy(agents[1..], c)
  }

  function IsWoken(a: Agent): int {
    if a.Notified? then 1 else 0
  }

  lemma {:induction false} ReplaceCounts(agents: seq<Agent>, i: nat, a: Agent)
    requires i < |agents|
    ensures Slots(agents[i := a]) == Slots(agents) - Slot(agents[i]) + Slot(a)
    ensures Woken(agents[i := a]) == Woken(agents) - IsWoken(agents[i]) + IsWoken(a)
  {
    if i == 0 {
      assert agents[0 := a][1..] == agents[1..];
    } else {
      assert agents[i := a][1..] == agents[1..][i - 1 := a];
      ReplaceCounts(agents[1..], i - 1, a);
    }
  }

  lemma {:induction false} ReplaceHeld(agents: seq<Agent>, i: nat, a: Agent, c: Connection)
    requires i < |agents|
    ensures AllHeldBy(agents[i := a], c) == AllHeldBy(agents, c) - HeldBy(agents[i], c) + HeldBy(a, c)
  {
    if i == 0 {
      assert agents[0 := a][1..] == agents[1..];
    } else {
      assert agents[i := a][1..] == agents[1..][i - 1 := a];
      ReplaceHeld(agents[1..], i - 1, a, c);
    }
  }

  lemma {:induction false} Bounds(agents: seq<Agent>)
    ensures 0 <= Slots(agents) && 0 <= Woken(agents)
  {
    if agents != [] {
      Bounds(agents[1..]);
    }
  }

  // ----- The invariant -----

  /** Idle, held and retired connections are together every connection made, each once. */
  ghost predicate Conserved(w: World) {
    forall c :: Copies(w.pool.idle, c) + AllHeldBy(w.agents, c) + Copies(w.retired, c) == Made(w.made, c)
  }

  ghost predicate Counted(w: World) {
    && w.pool.created == |w.pool.idle| + Slots(w.agents)
    && w.pool.created <= w.pool.maximum
    && (w.pool.closed ==> w.pool.idle == [])
  }

  predicate Blocked(a: Agent) {
    a.Waiting? || a.TimedOut?
  }

  /** The queue holds exactly the agents that wait or timed out waiting, each once. */
  ghost predicate Queued(agents: seq<Agent>, waiters: seq<nat>) {
    && (forall k: nat :: k in waiters <==> k < |agents| && Blocked(agents[k]))
    && Distinct(waiters)
  }

  /** Capacity neither lent out nor being connected. */
  function Free(w: World): int {
    w.pool.maximum - Slots(w.agents)
  }

  /** While anyone is queued, every free slot has a woken agent on its way. */
  ghost predicate WakeUpsCover(w: World) {
    w.waiters != [] ==> Free(w) <= Woken(w.agents)
  }

  ghost predicate Invariant(w: World) {
    && Conserved(w) && Counted(w) && Queued(w.agents, w.waiters) && WakeUpsCover(w)
    && (w.pool.closed ==> w.waiters == [])
  }

  lemma {:induction false} StartOutside(n: nat)
    ensures var agents := seq(n, _ => Outside);
      Slots(agents) == 0 && Woken(agents) == 0 && forall c :: AllHeldBy(agents, c) == 0
  {
    if n > 0 {
      StartOutside(n - 1);
      assert seq(n, _ => Outside)[1..] == seq(n - 1, _ => Outside);
    }
  }

  lemma {:induction false} StartHolds(maximum: nat, n: nat)
    ensures Invariant(Start(maximum, n))
  {
    StartOutside(n);
    var agents := Start(maximum, n).agents;
    forall k: nat | k < |agents| ensures !Blocked(agents[k]) {
      assert agents[k] == Outside;
    }
  }

  // ----- One agent changes -----

  /** What one agent, the pool and the books gain and lose of each connection cancels out. */
  ghost predicate Balanced(w: World, a: Agent, a': Agent, idle: seq<Connection>, made: nat, retired: seq<Connection>) {
    forall c :: Copies(idle, c) + HeldBy(a', c) + Copies(retired, c) - Made(made, c)
      == Copies(w.pool.idle, c) + HeldBy(a, c) + Copies(w.retired, c) - Made(w.made, c)
  }

  lemma {:induction false} Balance(w: World, i: nat, a: Agent, pool: Pool, made: nat, retired: seq<Connection>)
    requires i < |w.agents| && Conserved(w) && Counted(w)
    requires Balanced(w, w.agents[i], a, pool.idle, made, retired)
    requires pool.created - |pool.idle| - Slot(a) == w.pool.created - |w.pool.idle| - Slot(w.agents[i])
    requires pool.created <= pool.maximum && (pool.closed ==> pool.idle == [])
    ensures var w' := World(pool, w.agents[i := a], w.waiters, made, retired);
      Conserved(w') && Counted(w')
  {
    ReplaceCounts(w.agents, i, a);
    forall c
      ensures Copies(pool.idle, c) + AllHeldBy(w.agents[i := a], c) + Copies(retired, c) == Made(made, c)
    {
      ReplaceHeld(w.agents, i, a, c);
    }
  }

  lemma QueueUntouched(agents: seq<Agent>, waiters: seq<nat>, i: nat, a: Agent)
    requires Queued(agents, waiters) && i < |agents| && Blocked(agents[i]) == Blocked(a)
    ensures Queued(agents[i := a], waiters)
  {}

  lemma {:induction false} WithoutIs(s: seq<nat>, x: nat)
    requires Distinct(s)
    ensures forall y :: y in Without(s, x) <==> y in s && y != x
    ensures Distinct(Without(s, x))
    ensures s == [] ==> Without(s, x) == []
  {
    if s != [] {
      var rest := Without(s[1..], x);
      WithoutIs(s[1..], x);
      assert s == [s[0]] + s[1..];
      forall k | 0 <= k < |rest| ensures rest[k] != s[0] {
        assert rest[k] in rest;
        assert rest[k] in s[1..];
      }
    }
  }

  lemma {:induction false} QueueLeft(agents: seq<Agent>, waiters: seq<nat>, i: nat, a: Agent)
    requires Queued(agents, waiters) && i < |agents| && !Blocked(a)
    ensures Queued(agents[i := a], Without(waiters, i))
  {
    WithoutIs(waiters, i);
  }

  lemma {:induction false} QueueJoined(agents: seq<Agent>, waiters: seq<nat>, i: nat)
    requires Queued(agents, waiters) && i < |agents|
    ensures Queued(agents[i := Waiting], Without(waiters, i) + [i])
  {
    WithoutIs(waiters, i);
    var rest := Without(waiters, i);
    forall k | 0 <= k < |rest| ensures rest[k] != i {
      assert rest[k] in rest;
    }
    forall k: nat ensures k in rest + [i] <==> k in rest || k == i {}
  }

  lemma {:induction false} HeadLeaves(s: seq<nat>)
    requires Distinct(s) && s != []
    ensures Distinct(s[1..])
    ensures forall y :: y in s[1..] <==> y in s && y != s[0]
  {
    assert s == [s[0]] + s[1..];
    forall k | 0 <= k < |s[1..]| ensures s[1..][k] != s[0] {}
  }

  /** Waking the head of the queue. */
  lemma {:induction false} NotifyKeeps(w: World)
    requires Conserved(w) && Counted(w) && Queued(w.agents, w.waiters)
    ensures var n := Notify(w);
      && Conserved(n) && Counted(n) && Queued(n.agents, n.waiters) && n.pool == w.pool
      && Slots(n.agents) == Slots(w.agents)
      && Woken(n.agents) == Woken(w.agents) + (if w.waiters == [] then 0 else 1)
      && n.waiters == if w.waiters == [] then [] else w.waiters[1..]
  {
    if w.waiters != [] {
      var h := w.waiters[0];
      assert h in w.waiters;
      ReplaceCounts(w.agents, h, Notified);
      Balance(w, h, Notified, w.pool, w.made, w.retired);
      HeadLeaves(w.waiters);
    }
  }

  lemma {:induction false} NotifyAllKeeps(w: World)
    requires Conserved(w) && Counted(w) && Queued(w.agents, w.waiters)
    ensures var n := NotifyAll(w);
      Conserved(n) && Counted(n) && Queued(n.agents, n.waiters) && n.waiters == [] && n.pool == w.pool
    decreases |w.waiters|
  {
    if w.waiters != [] {
      assert w.waiters[0] in w.waiters;
      NotifyKeeps(w);
      NotifyAllKeeps(Notify(w));
    }
  }

  // ----- Every step keeps the invariant -----

  /** A change of one agent that neither frees a slot nor uses up a wake-up. */
  lemma {:induction false} Quietly(w: World, i: nat, a: Agent, made: nat, retired: seq<Connection>)
    requires Invariant(w) && i < |w.agents|
    requires Balanced(w, w.agents[i], a, w.pool.idle, made, retired)
    requires Slot(a) == Slot(w.agents[i]) && IsWoken(a) == IsWoken(w.agents[i]) && Blocked(a) == Blocked(w.agents[i])
    ensures Invariant(World(w.pool, w.agents[i := a], w.waiters, made, retired))
  {
    Balance(w, i, a, w.pool, made, retired);
    QueueUntouched(w.agents, w.waiters, i, a);
    ReplaceCounts(w.agents, i, a);
  }

  /** A freed slot with a notification. */
  lemma {:induction false} FreesAndNotifies(w: World, i: nat, a: Agent, pool: Pool)
    requires Invariant(w) && i < |w.agents| && Slot(w.agents[i]) == 1 && Slot(a) == 0 && !a.Notified? && !Blocked(a)
    requires Balanced(w, w.agents[i], a, pool.idle, w.made, w.retired)
    requires pool.created - |pool.idle| == w.pool.created - |w.pool.idle| - 1
    requires pool.created <= pool.maximum == w.pool.maximum && (pool.closed ==> pool.idle == [])
    requires pool.closed == w.pool.closed
    ensures Invariant(Notify(Become(w.(pool := pool), i, a)))
  {
    Balance(w, i, a, pool, w.made, w.retired);
    QueueUntouched(w.agents, w.waiters, i, a);
    ReplaceCounts(w.agents, i, a);
    NotifyKeeps(Become(w.(pool := pool), i, a));
  }

  function Entered(entry: Entry): Agent {
    match entry
    case Unavailable => Outside
    case Reused(c) => Holding(c)
    case Reserved => Connecting
    case MustWait => Waiting
  }

  lemma {:induction false} AcquireConserves(w: World, i: nat, expired: bool)
    requires Conserved(w) && Counted(w) && Enabled(w, EnterAcquireRegion(i, expired))
    ensures var (pool, entry) := EnterAcquire(w.pool, expired);
      var w' := World(pool, w.agents[i := Entered(entry)], w.waiters, w.made, w.retired);
      Conserved(w') && Counted(w')
  {
    var (pool, entry) := EnterAcquire(w.pool, expired);
    if entry.Reused? {
      TakeLast(w.pool.idle);
    }
    Balance(w, i, Entered(entry), pool, w.made, w.retired);
  }

  lemma {:induction false} AcquireWakeUps(w: World, i: nat, expired: bool)
    requires Counted(w) && WakeUpsCover(w) && Enabled(w, EnterAcquireRegion(i, expired))
    requires w.pool.closed ==> w.waiters == []
    ensures var (pool, entry) := EnterAcquire(w.pool, expired);
      var agents := w.agents[i := Entered(entry)];
      entry.MustWait? || w.waiters != [] ==> pool.maximum - Slots(agents) <= Woken(agents)
  {
    var (pool, entry) := EnterAcquire(w.pool, expired);
    ReplaceCounts(w.agents, i, Entered(entry));
    Bounds(w.agents[i := Entered(entry)]);
  }

  lemma {:induction false} AcquireKeeps(w: World, i: nat, expired: bool)
    requires Invariant(w) && Enabled(w, EnterAcquireRegion(i, expired))
    ensures Invariant(Step(w, EnterAcquireRegion(i, expired)))
  {
    var (pool, entry) := EnterAcquire(w.pool, expired);
    AcquireConserves(w, i, expired);
    AcquireWakeUps(w, i, expired);
    WithoutIs(w.waiters, i);
    if entry.MustWait? {
      QueueJoined(w.agents, w.waiters, i);
    } else {
      QueueLeft(w.agents, w.waiters, i, Entered(entry));
    }
  }

  lemma {:induction false} ReleaseKeeps(w: World, i: nat)
    requires Invariant(w) && Enabled(w, EnterReleaseRegion(i))
    ensures Invariant(Step(w, EnterReleaseRegion(i)))
  {
    var a := w.agents[i];
    var (pool, retire) := EnterRelease(w.pool, a.connection, a.reusable);
    AppendEach(w.pool.idle, a.connection);
    FreesAndNotifies(w, i, if retire then Retiring(a.connection) else Outside, pool);
  }

  lemma {:induction false} CloseKeeps(w: World, i: nat)
    requires Invariant(w) && Enabled(w, EnterCloseRegion(i))
    ensures Invariant(Step(w, EnterCloseRegion(i)))
  {
    if !w.pool.closed {
      var (pool, taken) := EnterClose(w.pool);
      Balance(w, i, Closing(taken), pool, w.made, w.retired);
      QueueUntouched(w.agents, w.waiters, i, Closing(taken));
      NotifyAllKeeps(Become(w.(pool := pool), i, Closing(taken)));
    }
  }

  lemma {:induction false} CloseNextKeeps(w: World, i: nat)
    requires Invariant(w) && Enabled(w, CloseNextIdle(i))
    ensures Invariant(Step(w, CloseNextIdle(i)))
  {
    var pending := w.agents[i].pending;
    if pending == [] {
      Quietly(w, i, Outside, w.made, w.retired);
    } else {
      AppendEach(w.retired, pending[0]);
      Quietly(w, i, Closing(pending[1..]), w.made, w.retired + [pending[0]]);
    }
  }

  lemma {:induction false} ConnectKeeps(w: World, i: nat)
    requires Invariant(w) && Enabled(w, ConnectSucceeds(i))
    ensures Invariant(Step(w, ConnectSucceeds(i)))
  {
    Quietly(w, i, Holding(w.made), w.made + 1, w.retired);
  }

  lemma {:induction false} RetireKeeps(w: World, i: nat)
    requires Invariant(w) && Enabled(w, ClosePhysically(i))
    ensures Invariant(Step(w, ClosePhysically(i)))
  {
    var c := w.agents[i].connection;
    AppendEach(w.retired, c);
    Quietly(w, i, Outside, w.made, w.retired + [c]);
  }

  /** A step that only moves one agent on. */
  lemma {:induction false} AgentMoves(w: World, e: Event, a: Agent)
    requires Invariant(w) && Enabled(w, e) && Step(w, e) == Become(w, e.agent, a)
    requires (a == TimedOut && w.agents[e.agent].Waiting?)
      || (w.agents[e.agent].Holding? && a == RollingBack(w.agents[e.agent].connection))
      || (w.agents[e.agent].RollingBack? && a.Returning? && a.connection == w.agents[e.agent].connection)
    ensures Invariant(Step(w, e))
  {
    Quietly(w, e.agent, a, w.made, w.retired);
  }

  lemma {:induction false} StepKeeps(w: World, e: Event)
    requires Invariant(w) && Enabled(w, e)
    ensures Invariant(Step(w, e))
  {
    match e
    case EnterAcquireRegion(i, expired) => AcquireKeeps(w, i, expired);
    case WaitTimesOut(_) => AgentMoves(w, e, TimedOut);
    case ConnectSucceeds(i) => ConnectKeeps(w, i);
    case ConnectRaises(i) => FreesAndNotifies(w, i, Outside, AfterFailedConnect(w.pool));
    case CloseWrapper(i) => AgentMoves(w, e, RollingBack(w.agents[i].connection));
    case RollbackEnds(i, succeeded) => AgentMoves(w, e, Returning(w.agents[i].connection, succeeded));
    case EnterReleaseRegion(i) => ReleaseKeeps(w, i);
    case ClosePhysically(i) => RetireKeeps(w, i);
    case EnterCloseRegion(i) => CloseKeeps(w, i);
    case CloseNextIdle(i) => CloseNextKeeps(w, i);
  }

  lemma {:induction false} RunKeeps(w: World, run: seq<Event>)
    requires Invariant(w) && Possible(w, run)
    ensures Invariant(After(w, run))
    decreases |run|
  {
    if run != [] {
      StepKeeps(w, run[0]);
      RunKeeps(Step(w, run[0]), run[1..]);
    }
  }

  // ----- What holds in every run -----

  /** `w` can be reached from a new pool by some interleaving. */
  ghost predicate Reached(w: World, maximum: nat, n: nat, run: seq<Event>) {
    Possible(Start(maximum, n), run) && w == After(Start(maximum, n), run)
  }

  lemma {:induction false} NotifyAllLeavesPool(w: World)
    ensures NotifyAll(w).pool == w.pool
    decreases |w.waiters|
  {
    if w.waiters != [] && w.waiters[0] < |w.agents| {
      NotifyAllLeavesPool(Notify(w));
    }
  }

  lemma {:induction false} MaximumStays(w: World, e: Event)
    requires Enabled(w, e)
    ensures Step(w, e).pool.maximum == w.pool.maximum
  {
    if e.EnterCloseRegion? {
      var (pool, taken) := EnterClose(w.pool);
      NotifyAllLeavesPool(Become(w.(pool := pool), e.agent, Closing(taken)));
    }
  }

  /** The maximum is the configured one throughout. */
  lemma {:induction false} MaximumKept(w: World, run: seq<Event>)
    requires Possible(w, run)
    ensures After(w, run).pool.maximum == w.pool.maximum
    decreases |run|
  {
    if run != [] {
      MaximumStays(w, run[0]);
      MaximumKept(Step(w, run[0]), run[1..]);
    }
  }

  lemma {:induction false} ReachedHolds(w: World, maximum: nat, n: nat, run: seq<Event>)
    requires Reached(w, maximum, n, run)
    ensures Invariant(w) && w.pool.maximum == maximum
  {
    StartHolds(maximum, n);
    RunKeeps(Start(maximum, n), run);
    MaximumKept(Start(maximum, n), run);
  }

  lemma {:induction false} CopiesBound(s: seq<Connection>)
    ensures forall c :: c in s <==> Copies(s, c) > 0
    ensures (forall c :: Copies(s, c) <= 1) ==> forall j, k | 0 <= j < k < |s| :: s[j] != s[k]
  {
    if s != [] {
      CopiesBound(s[1..]);
      assert s == [s[0]] + s[1..];
      if forall c :: Copies(s, c) <= 1 {
        forall c ensures Copies(s[1..], c) <= 1 {
          assert Copies(s, c) <= 1;
        }
        forall k | 0 <= k < |s[1..]| ensures s[1..][k] != s[0] {
          assert s[1..][k] in s[1..];
          assert Copies(s, s[0]) <= 1;
        }
      }
    }
  }

  lemma {:induction false} TwoHolders(agents: seq<Agent>, i: nat, c: Connection)
    requires i < |agents|
    ensures HeldBy(agents[i], c) <= AllHeldBy(agents, c)
    ensures forall j | 0 <= j < |agents| && j != i ::
      HeldBy(agents[i], c) + HeldBy(agents[j], c) <= AllHeldBy(agents, c)
  {
    if i == 0 {
      forall j | 1 <= j < |agents| ensures HeldBy(agents[0], c) + HeldBy(agents[j], c) <= AllHeldBy(agents, c) {
        TwoHolders(agents[1..], j - 1, c);
      }
    } else {
      TwoHolders(agents[1..], i - 1, c);
      forall j | 0 <= j < |agents| && j != i
        ensures HeldBy(agents[i], c) + HeldBy(agents[j], c) <= AllHeldBy(agents, c)
      {
        if j > 0 {
          assert agents[1..][j - 1] == agents[j];
        }
      }
    }
  }

  /** Conservation: the count is exact and bounded, idle connections are distinct and in nobody's
      hands, no connection is in two hands, and none is retired twice. */
  lemma {:induction false} PoolConserves(w: World, maximum: nat, n: nat, run: seq<Event>)
    requires Reached(w, maximum, n, run)
    ensures 0 <= w.pool.created == |w.pool.idle| + Slots(w.agents) <= maximum == w.pool.maximum
    ensures w.pool.closed ==> w.pool.idle == []
    ensures forall j, k | 0 <= j < k < |w.pool.idle| :: w.pool.idle[j] != w.pool.idle[k]
    ensures forall j, k | 0 <= j < k < |w.retired| :: w.retired[j] != w.retired[k]
    ensures forall i, c: Connection | 0 <= i < |w.agents| && HeldBy(w.agents[i], c) > 0 ::
      c !in w.pool.idle && c !in w.retired && c < w.made
    ensures forall i, j, c | 0 <= i < |w.agents| && 0 <= j < |w.agents| && i != j ::
      HeldBy(w.agents[i], c) == 0 || HeldBy(w.agents[j], c) == 0
    ensures forall c | c in w.pool.idle :: c !in w.retired && c < w.made
  {
    ReachedHolds(w, maximum, n, run);
    Bounds(w.agents);
    CopiesBound(w.pool.idle);
    CopiesBound(w.retired);
    forall c ensures Copies(w.pool.idle, c) <= 1 && Copies(w.retired, c) <= 1 {
      assert Copies(w.pool.idle, c) + AllHeldBy(w.agents, c) + Copies(w.retired, c) == Made(w.made, c);
    }
    forall i, c: Connection | 0 <= i < |w.agents| && HeldBy(w.agents[i], c) > 0
      ensures c !in w.pool.idle && c !in w.retired && c < w.made
    {
      TwoHolders(w.agents, i, c);
      assert Copies(w.pool.idle, c) + AllHeldBy(w.agents, c) + Copies(w.retired, c) == Made(w.made, c);
    }
    forall i, j, c | 0 <= i < |w.agents| && 0 <= j < |w.agents| && i != j
      ensures HeldBy(w.agents[i], c) == 0 || HeldBy(w.agents[j], c) == 0
    {
      TwoHolders(w.agents, i, c);
      assert Copies(w.pool.idle, c) + AllHeldBy(w.agents, c) + Copies(w.retired, c) == Made(w.made, c);
    }
    forall c | c in w.pool.idle ensures c !in w.retired && c < w.made {
      assert Copies(w.pool.idle, c) + AllHeldBy(w.agents, c) + Copies(w.retired, c) == Made(w.made, c);
    }
  }

  lemma {:induction false} AllOutside(agents: seq<Agent>, c: Connection)
    requires forall i | 0 <= i < |agents| :: agents[i] == Outside
    ensures Slots(agents) == 0 && AllHeldBy(agents, c) == 0
  {
    if agents != [] {
      AllOutside(agents[1..], c);
    }
  }

  /** No leak: once the pool is closed and every agent has finished, nothing counts as created and
      every connection ever made was retired exactly once. */
  lemma {:induction false} ClosedPoolRetiresAll(w: World, maximum: nat, n: nat, run: seq<Event>)
    requires Reached(w, maximum, n, run)
    requires w.pool.closed && forall i | 0 <= i < |w.agents| :: w.agents[i] == Outside
    ensures w.pool.created == 0 && w.pool.idle == []
    ensures forall c: Connection :: Copies(w.retired, c) == if c < w.made then 1 else 0
  {
    ReachedHolds(w, maximum, n, run);
    AllOutside(w.agents, 0);
    forall c: Connection ensures Copies(w.retired, c) == if c < w.made then 1 else 0 {
      AllOutside(w.agents, c);
      assert Copies(w.pool.idle, c) + AllHeldBy(w.agents, c) + Copies(w.retired, c) == Made(w.made, c);
    }
  }

  /** No lost wake-up: at every moment of every run, the woken agents are at least as many as the
      free slots or the queued agents, whichever is fewer; with no agent woken and one queued,
      every slot is taken. */
  lemma {:induction false} NoLostWakeUp(w: World, maximum: nat, n: nat, run: seq<Event>)
    requires Reached(w, maximum, n, run)
    ensures Woken(w.agents) >= maximum - Slots(w.agents) || Woken(w.agents) >= |w.waiters|
    ensures w.waiters != [] && Woken(w.agents) == 0 ==> Slots(w.agents) == maximum && w.pool.idle == []
    ensures w.waiters != [] ==> !w.pool.closed
  {
    ReachedHolds(w, maximum, n, run);
    Bounds(w.agents);
  }

  /** A woken agent that finds a free slot leaves with a connection or a reservation, whatever its
      deadline says; only a full or a closed pool turns it away. */
  lemma {:induction false} WokenAgentServed(w: World, maximum: nat, n: nat, run: seq<Event>, i: nat, expired: bool)
    requires Reached(w, maximum, n, run) && Enabled(w, EnterAcquireRegion(i, expired))
    ensures var a := Step(w, EnterAcquireRegion(i, expired)).agents[i];
      && (a.Holding? || a.Connecting? <==> !w.pool.closed && Free(w) > 0)
      && (a.Waiting? <==> !w.pool.closed && Free(w) <= 0 && !expired)
  {
    ReachedHolds(w, maximum, n, run);
  }

  // ----- Physically open connections -----

  function PendingClose(a: Agent): nat {
    match a
    case Retiring(_) => 1
    case Closing(pending) => |pending|
    case _ => 0
  }

  function PendingCloses(agents: seq<Agent>): nat {
    if agents == [] then 0 else PendingClose(agents[0]) + PendingCloses(agents[1..])
  }

  /** The connections an agent has in hand. */
  function Hand(a: Agent): seq<Connection> {
    match a
    case Holding(c) => [c]
    case RollingBack(c) => [c]
    case Returning(c, _) => [c]
    case Retiring(c) => [c]
    case Closing(pending) => pending
    case _ => []
  }

  function Hands(agents: seq<Agent>): seq<Connection> {
    if agents == [] then [] else Hand(agents[0]) + Hands(agents[1..])
  }

  function Connectors(agents: seq<Agent>): nat {
    if agents == [] then 0 else (if agents[0].Connecting? then 1 else 0) + Connectors(agents[1..])
  }

  /** Connections made whose physical close has not been attempted. */
  function PhysicallyOpen(w: World): int {
    w.made - |w.retired|
  }

  lemma {:induction false} CopiesConcat(s: seq<Connection>, t: seq<Connection>, c: Connection)
    ensures Copies(s + t, c) == Copies(s, c) + Copies(t, c)
  {
    if s == [] {
      assert s + t == t;
    } else {
      assert (s + t)[1..] == s[1..] + t;
      CopiesConcat(s[1..], t, c);
    }
  }

  lemma {:induction false} HandsAre(agents: seq<Agent>)
    ensures forall c :: Copies(Hands(agents), c) == AllHeldBy(agents, c)
    ensures |Hands(agents)| + Connectors(agents) == Slots(agents) + PendingCloses(agents)
  {
    if agents != [] {
      HandsAre(agents[1..]);
      forall c ensures Copies(Hands(agents), c) == AllHeldBy(agents, c) {
        CopiesConcat(Hand(agents[0]), Hands(agents[1..]), c);
        HandHeld(agents[0], c);
      }
    }
  }

  lemma HandHeld(a: Agent, c: Connection)
    ensures Copies(Hand(a), c) == HeldBy(a, c)
  {}

  /** A list that holds each of 0 to m - 1 once and nothing else has m elements. */
  lemma {:induction false} EachOnce(s: seq<Connection>, m: nat)
    requires forall c :: Copies(s, c) == Made(m, c)
    ensures |s| == m
  {
    CopiesBound(s);
    assert s == [] ==> Copies(s, 0) == Made(m, 0);
    if s != [] {
      assert s[0] in s && Made(m, s[0]) > 0;
      assert Copies(s, m - 1) == Made(m, m - 1) == 1;
      assert m - 1 in s;
      var i :| 0 <= i < |s| && s[i] == m - 1;
      var rest := s[..i] + s[i + 1..];
      assert s == s[..i] + ([s[i]] + s[i + 1..]);
      forall c ensures Copies(rest, c) == Made(m - 1, c) {
        CopiesConcat(s[..i], [s[i]] + s[i + 1..], c);
        CopiesConcat([s[i]], s[i + 1..], c);
        CopiesConcat(s[..i], s[i + 1..], c);
      }
      EachOnce(rest, m - 1);
    }
  }

  /** The connections open are exactly the idle ones and those in some hand. */
  lemma {:induction false} OpenAreHeld(w: World)
    requires Conserved(w)
    ensures PhysicallyOpen(w) == |w.pool.idle| + |Hands(w.agents)|
  {
    var held := Hands(w.agents) + w.retired;
    HandsAre(w.agents);
    forall c ensures Copies(w.pool.idle + held, c) == Made(w.made, c) {
      CopiesConcat(Hands(w.agents), w.retired, c);
      CopiesConcat(w.pool.idle, held, c);
    }
    EachOnce(w.pool.idle + held, w.made);
  }

  /** At every moment of every run: open connections and reservations are together the pool's count
      and the closes still pending.  So the pool's maximum bounds the open connections exactly while
      the pending closes fit in its free and reserved slots. */
  lemma {:induction false} OpenIsExact(w: World, maximum: nat, n: nat, run: seq<Event>)
    requires Reached(w, maximum, n, run)
    ensures PhysicallyOpen(w) + Connectors(w.agents) == w.pool.created + PendingCloses(w.agents)
    ensures PhysicallyOpen(w) <= maximum <==>
      PendingCloses(w.agents) <= maximum - w.pool.created + Connectors(w.agents)
  {
    ReachedHolds(w, maximum, n, run);
    OpenAreHeld(w);
    HandsAre(w.agents);
  }

  function ExampleEvent(k: nat): Event
    requires k < 7
  {
    [EnterAcquireRegion(0, false), ConnectSucceeds(0), CloseWrapper(0), RollbackEnds(0, false),
     EnterReleaseRegion(0), EnterAcquireRegion(1, false), ConnectSucceeds(1)][k]
  }

  function ExampleWorld(k: nat): World
    requires k <= 7
  {
    var first := [Outside, Connecting, Holding(0), RollingBack(0), Returning(0, false), Retiring(0)]
      [if k < 5 then k else 5];
    var second := if k < 6 then Outside else if k == 6 then Connecting else Holding(1);
    var created := if k == 0 || k == 5 then 0 else 1;
    var made := if k < 2 then 0 else if k < 7 then 1 else 2;
    World(Pool(1, [], created, false), [first, second], [], made, [])
  }

  lemma {:induction false} ExampleStep(k: nat)
    requires k < 7
    ensures Enabled(ExampleWorld(k), ExampleEvent(k))
    ensures Step(ExampleWorld(k), ExampleEvent(k)) == ExampleWorld(k + 1)
  {
    var w := ExampleWorld(k);
    assert w.waiters == [] && Without(w.waiters, 0) == [] && Without(w.waiters, 1) == [];
    if k < 5 {
      assert w.agents[0 := ExampleWorld(k + 1).agents[0]] == ExampleWorld(k + 1).agents;
    } else {
      assert w.agents[1 := ExampleWorld(k + 1).agents[1]] == ExampleWorld(k + 1).agents;
    }
  }

  lemma {:induction false} ExampleRun(k: nat) returns (run: seq<Event>)
    requires k <= 7
    ensures Possible(ExampleWorld(k), run) && After(ExampleWorld(k), run) == ExampleWorld(7)
    decreases 7 - k
  {
    if k == 7 {
      run := [];
    } else {
      var rest := ExampleRun(k + 1);
      ExampleStep(k);
      run := [ExampleEvent(k)] + rest;
      assert run[1..] == rest;
    }
  }

  /** A run in which they do not fit: a pool of one, two connections open. */
  lemma {:induction false} OpenMayExceedMaximum() returns (run: seq<Event>)
    ensures Reached(ExampleWorld(7), 1, 2, run)
    ensures ExampleWorld(7).pool.maximum == 1 && PhysicallyOpen(ExampleWorld(7)) == 2
  {
    assert Start(1, 2).agents == ExampleWorld(0).agents;
    run := ExampleRun(0);
  }
}
