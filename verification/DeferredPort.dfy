/** The local MCP port that puts off building its session until a tool call needs it: lazy
    construction, one source refresh, one close, under any interleaving of calls. */
module DeferredPort {
  import opened Basics

  /** A session, by the order in which sessions were built. */
  type Session = nat

  datatype Port = Port(session: Option<Session>, refreshed: bool, closed: bool, built: nat)

  const UNBUILT := Port(None, false, false, 0)

  // ----- Lock regions -----

  /** `_initialized_session`: the session, or none when the port is closed or building fails. */
  function EnterInitialize(p: Port, buildFails: bool): (Port, Option<Session>) {
    if p.closed then (p, None)
    else if p.session.Some? then (p, p.session)
    else if buildFails then (p, None)
    else (p.(session := Some(p.built), built := p.built + 1), Some(p.built))
  }

  /** `_refresh_source_once`: the flag says a refresh was completed here; a refresh that raises is
      tried again by a later call. */
  function EnterRefresh(p: Port, refreshRaises: bool): (Port, bool) {
    if p.refreshed || refreshRaises then (p, false) else (p.(refreshed := true), true)
  }

  /** `close`: the session to close after the lock region, if any. */
  function EnterClose(p: Port): (Port, Option<Session>) {
    if p.closed then (p, None) else (p.(closed := true, session := None), p.session)
  }

  class DeferredMcpContextPort {
    var session: Option<Session>
    var sourceRefreshed: bool
    var closed: bool
    var built: nat

    function State(): Port
      reads this
    {
      Port(session, sourceRefreshed, closed, built)
    }

    constructor ()
      ensures State() == UNBUILT
    {
      session, sourceRefreshed, closed, built := None, false, false, 0;
    }

    method InitializedSession(buildFails: bool) returns (s: Option<Session>)
      modifies this
      ensures (State(), s) == EnterInitialize(old(State()), buildFails)
      ensures s.Some? <==> !old(closed) && (old(session).Some? || !buildFails)
      ensures old(session).Some? || s.None? ==> State() == old(State())
      ensures s.Some? ==> s == session && closed == old(closed) && sourceRefreshed == old(sourceRefreshed)
      ensures s.Some? && old(session).None? ==> session == Some(old(built)) && built == old(built) + 1
    {
      if closed {
        return None;
      }
      if session.None? {
        if buildFails {
          return None;
        }
        session, built := Some(built), built + 1;
      }
      return session;
    }

    method RefreshSourceOnce(refreshRaises: bool) returns (completed: bool)
      modifies this
      ensures (State(), completed) == EnterRefresh(old(State()), refreshRaises)
      ensures completed <==> !old(sourceRefreshed) && !refreshRaises
      ensures sourceRefreshed <==> old(sourceRefreshed) || completed
      ensures session == old(session) && closed == old(closed) && built == old(built)
    {
      if sourceRefreshed || refreshRaises {
        return false;
      }
      sourceRefreshed := true;
      return true;
    }

    method Close() returns (toClose: Option<Session>)
      modifies this
      ensures (State(), toClose) == EnterClose(old(State()))
      ensures closed && toClose == if old(closed) then None else old(session)
      ensures session == if old(closed) then old(session) else None
      ensures sourceRefreshed == old(sourceRefreshed) && built == old(built)
    {
      if closed {
        return None;
      }
      closed := true;
      toClose := session;
      session := None;
    }
  }

  // ----- Any interleaving -----

  datatype Agent = Outside | Refreshing(session: Session) | Calling(session: Session) | Closing(session: Session)

  /** `refreshes` counts completed refreshes; `ended` lists the sessions closed, in order. */
  datatype World = World(port: Port, agents: seq<Agent>, refreshes: nat, ended: seq<Session>)

  datatype Event =
    | Initialize(agent: nat, buildFails: bool, sourceNeeded: bool)
    | Refresh(agent: nat, refreshRaises: bool)
    | FinishCall(agent: nat)
    | EnterCloseRegion(agent: nat)
    | CloseSession(agent: nat)

  predicate Enabled(w: World, e: Event) {
    && e.agent < |w.agents|
    && match e
       case Initialize(_, _, _) => w.agents[e.agent].Outside?
       case Refresh(_, _) => w.agents[e.agent].Refreshing?
       case FinishCall(_) => w.agents[e.agent].Calling?
       case EnterCloseRegion(_) => w.agents[e.agent].Outside?
       case CloseSession(_) => w.agents[e.agent].Closing?
  }

  function Step(w: World, e: Event): World
    requires Enabled(w, e)
  {
    var i := e.agent;
    match e
    case Initialize(_, buildFails, sourceNeeded) =>
      var (port, s) := EnterInitialize(w.port, buildFails);
      var next := if s.None? then Outside else if sourceNeeded then Refreshing(s.value) else Calling(s.value);
      w.(port := port, agents := w.agents[i := next])
    case Refresh(_, refreshRaises) =>
      var (port, completed) := EnterRefresh(w.port, refreshRaises);
      var raised := refreshRaises && !w.port.refreshed;
      w.(port := port,
         agents := w.agents[i := if raised then Outside else Calling(w.agents[i].session)],
         refreshes := w.refreshes + if completed then 1 else 0)
    case FinishCall(_) => w.(agents := w.agents[i := Outside])
    case EnterCloseRegion(_) =>
      var (port, s) := EnterClose(w.port);
      w.(port := port, agents := w.agents[i := if s.None? then Outside else Closing(s.value)])
    case CloseSession(_) =>
      w.(agents := w.agents[i := Outside], ended := w.ended + [w.agents[i].session])
  }

  predicate Possible(w: World, run: seq<Event>)
    decreases |run|
  {
    run == [] || (Enabled(w, run[0]) && Possible(Step(w, run[0]), run[1..]))
  }

  function After(w: World, run: seq<Event>): World
    requires Possible(w, run)
    decreases |run|
  {
    if run == [] then w else After(Step(w, run[0]), run[1..])
  }

  function Start(n: nat): World {
    World(UNBUILT, seq(n, _ => Outside), 0, [])
  }

  function ClosersOf(agents: seq<Agent>, s: Session): nat {
    if agents == [] then 0 else (if agents[0] == Closing(s) then 1 else 0) + ClosersOf(agents[1..], s)
  }

  function Ended(ended: seq<Session>, s: Session): nat {
    if ended == [] then 0 else Ended(ended[..|ended| - 1], s) + if ended[|ended| - 1] == s then 1 else 0
  }

  /** The places a session is in: open in the port, in the hands of a closer, or closed. */
  function Places(w: World, s: Session): nat {
    (if w.port.session == Some(s) then 1 else 0) + ClosersOf(w.agents, s) + Ended(w.ended, s)
  }

  ghost predicate PortSound(w: World) {
    && w.port.built <= 1
    && w.refreshes == (if w.port.refreshed then 1 else 0)
    && (w.port.closed ==> w.port.session == None)
    && (!w.port.closed ==> w.port.session == if w.port.built == 0 then None else Some(0))
  }

  /** Every session built is in one place. */
  ghost predicate Invariant(w: World) {
    && PortSound(w)
    && forall s: Session :: Places(w, s) == if s < w.port.built then 1 else 0
  }

  lemma {:induction false} ReplaceCloser(agents: seq<Agent>, i: nat, a: Agent, s: Session)
    requires i < |agents|
    ensures ClosersOf(agents[i := a], s)
      == ClosersOf(agents, s) - (if agents[i] == Closing(s) then 1 else 0) + (if a == Closing(s) then 1 else 0)
  {
    if i == 0 {
      assert agents[0 := a][1..] == agents[1..];
    } else {
      assert agents[i := a][1..] == agents[1..][i - 1 := a];
      ReplaceCloser(agents[1..], i - 1, a, s);
    }
  }

  lemma {:induction false} StartHolds(n: nat)
    ensures Invariant(Start(n))
  {
    forall s: Session ensures Places(Start(n), s) == 0 {
      NoClosers(n, s);
    }
  }

  lemma {:induction false} NoClosers(n: nat, s: Session)
    ensures ClosersOf(seq(n, _ => Outside), s) == 0
  {
    if n > 0 {
      NoClosers(n - 1, s);
      assert seq(n, _ => Outside)[1..] == seq(n - 1, _ => Outside);
    }
  }

  /** One step builds at most the session it opens, and takes a session from one place to the next. */
  lemma {:induction false} StepMoves(w: World, e: Event, s: Session)
    requires PortSound(w) && Enabled(w, e)
    ensures var w' := Step(w, e);
      Places(w', s) - Places(w, s) == (if s < w'.port.built then 1 else 0) - (if s < w.port.built then 1 else 0)
  {
    var w', i := Step(w, e), e.agent;
    assert w'.agents == w.agents[i := w'.agents[i]];
    ReplaceCloser(w.agents, i, w'.agents[i], s);
    if e.CloseSession? {
      assert w'.ended[..|w.ended|] == w.ended;
    }
  }

  lemma PortStays(w: World, e: Event)
    requires PortSound(w) && Enabled(w, e)
    ensures PortSound(Step(w, e))
    ensures w.port.closed ==> Step(w, e).port.closed && Step(w, e).port.built == w.port.built
    ensures w.port.built <= Step(w, e).port.built
  {}

  lemma {:induction false} StepKeeps(w: World, e: Event)
    requires Invariant(w) && Enabled(w, e)
    ensures Invariant(Step(w, e))
    ensures w.port.closed ==> Step(w, e).port.closed && Step(w, e).port.built == w.port.built
    ensures w.port.built <= Step(w, e).port.built
  {
    var w' := Step(w, e);
    PortStays(w, e);
    forall s: Session ensures Places(w', s) == if s < w'.port.built then 1 else 0 {
      StepMoves(w, e, s);
      assert Places(w, s) == if s < w.port.built then 1 else 0;
    }
  }

  lemma {:induction false} RunKeeps(w: World, run: seq<Event>)
    requires Invariant(w) && Possible(w, run)
    ensures Invariant(After(w, run))
    ensures w.port.closed ==> After(w, run).port.closed && After(w, run).port.built == w.port.built
    decreases |run|
  {
    if run != [] {
      StepKeeps(w, run[0]);
      RunKeeps(Step(w, run[0]), run[1..]);
    }
  }

  /** Over any run: at most one session is built, it is closed at most once, and a source refresh
      completes at most once; once the port is closed and its closer is done, the session that was
      built has been closed exactly once. */
  lemma {:induction false} OneSession(n: nat, run: seq<Event>, s: Session)
    requires Possible(Start(n), run)
    ensures var w := After(Start(n), run);
      && w.port.built <= 1 && w.refreshes <= 1
      && Ended(w.ended, s) <= (if s < w.port.built then 1 else 0)
      && (w.port.closed && (forall i | 0 <= i < n && i < |w.agents| :: !w.agents[i].Closing?) ==>
            Ended(w.ended, s) == if s < w.port.built then 1 else 0)
  {
    StartHolds(n);
    RunKeeps(Start(n), run);
    var w := After(Start(n), run);
    SameAgents(Start(n), run);
    if forall i | 0 <= i < n && i < |w.agents| :: !w.agents[i].Closing? {
      NoneClosing(w.agents, s);
    }
    assert Places(w, s) == if s < w.port.built then 1 else 0;
  }

  lemma {:induction false} SameAgents(w: World, run: seq<Event>)
    requires Possible(w, run)
    ensures |After(w, run).agents| == |w.agents|
    decreases |run|
  {
    if run != [] {
      SameAgents(Step(w, run[0]), run[1..]);
    }
  }

  lemma {:induction false} NoneClosing(agents: seq<Agent>, s: Session)
    requires forall i | 0 <= i < |agents| :: !agents[i].Closing?
    ensures ClosersOf(agents, s) == 0
  {
    if agents != [] {
      NoneClosing(agents[1..], s);
    }
  }

  /** Nothing is built after a close, in any continuation. */
  lemma {:induction false} NothingBuiltAfterClose(n: nat, run: seq<Event>, more: seq<Event>)
    requires Possible(Start(n), run) && After(Start(n), run).port.closed
    requires Possible(After(Start(n), run), more)
    ensures After(After(Start(n), run), more).port.built == After(Start(n), run).port.built
  {
    StartHolds(n);
    RunKeeps(Start(n), run);
    RunKeeps(After(Start(n), run), more);
  }

  // ----- Calls that need the source -----

  /** A refresh that completes, now or before, lets the call go on with its session; one that raises ends
      it. */
  lemma RefreshLetsCall(w: World, i: nat, refreshRaises: bool)
    requires Enabled(w, Refresh(i, refreshRaises))
    ensures var w' := Step(w, Refresh(i, refreshRaises));
      && (w'.port.refreshed <==> w.port.refreshed || !refreshRaises)
      && w'.agents[i] == if w'.port.refreshed then Calling(w.agents[i].session) else Outside
  {}

  ghost predicate AlwaysNeeded(run: seq<Event>) {
    forall e | e in run :: e.Initialize? ==> e.sourceNeeded
  }

  ghost predicate CallsRefreshed(w: World) {
    forall i | 0 <= i < |w.agents| && w.agents[i].Calling? :: w.port.refreshed
  }

  lemma {:induction false} CallsRefreshedRun(w: World, run: seq<Event>)
    requires Possible(w, run) && AlwaysNeeded(run) && CallsRefreshed(w)
    ensures CallsRefreshed(After(w, run))
    decreases |run|
  {
    if run != [] {
      assert run[0] in run;
      CallsRefreshedRun(Step(w, run[0]), run[1..]);
    }
  }

  /** When every call needs the source, none is under way before a refresh has completed. */
  lemma {:induction false} NoCallBeforeRefresh(n: nat, run: seq<Event>, i: nat)
    requires Possible(Start(n), run) && AlwaysNeeded(run)
    requires i < |After(Start(n), run).agents| && After(Start(n), run).agents[i].Calling?
    ensures After(Start(n), run).port.refreshed
  {
    CallsRefreshedRun(Start(n), run);
  }
}
