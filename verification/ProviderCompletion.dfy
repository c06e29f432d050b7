/** Why processes end, and which run directories can still be completed. */
module ProviderCompletion {
  import opened Basics
  import opened ProviderJournal
  import opened ProviderJournalLaws
  import opened ProviderAnswers

  /** The process is between logging the key's call as started and logging its outcome. */
  predicate InFlight(w: World, key: Key) {
    w.process.Up? && match w.process.at
      case Send(k) => k == key
      case LogIncluded(k, _) => k == key
      case LogFailed(k) => k == key
      case _ => false
  }

  lemma {:induction false} FlightContinues(w: World, schedule: seq<Row>, e: Event, key: Key)
    requires Enabled(w, e) && InFlight(Step(w, schedule, e), key) && !InFlight(w, key)
    ensures w.process.Up? && w.process.at == LogStarted(key)
  {
    var w' := Step(w, schedule, e);
    if w'.process.at.Send? {
      SendFollowsStarted(w, schedule, e, key);
    } else {
      LogsWhatItHears(w, schedule, e);
    }
  }

  /** What the journal says of a key that is not in flight is never changed. */
  lemma {:induction false} RestingStep(w: World, schedule: seq<Row>, e: Event, key: Key)
    requires LiveMaterial(schedule) && Invariant(w, schedule) && Enabled(w, e)
    requires key in StatesOf(w) && !InFlight(w, key)
    ensures var w' := Step(w, schedule, e);
      key in StatesOf(w') && StatesOf(w')[key] == StatesOf(w)[key] && !InFlight(w', key)
  {
    var w' := Step(w, schedule, e);
    StepWrites(w, schedule, e);
    if e.Proceed? && Logging(w.process.at).Some? {
      JournalAppend(w.journal, Logging(w.process.at).value);
    }
    if InFlight(w', key) {
      FlightContinues(w, schedule, e, key);
    }
  }

  lemma {:induction false} RestingRun(w: World, schedule: seq<Row>, more: seq<Event>, key: Key)
    requires LiveMaterial(schedule) && Invariant(w, schedule) && Possible(w, schedule, more)
    requires key in StatesOf(w) && !InFlight(w, key)
    ensures var w' := After(w, schedule, more); key in StatesOf(w') && StatesOf(w')[key] == StatesOf(w)[key]
    decreases |more|
  {
    if more != [] {
      RestingStep(w, schedule, more[0], key);
      StepKeeps(w, schedule, more[0]);
      RestingRun(Step(w, schedule, more[0]), schedule, more[1..], key);
    }
  }

  // ----- Why processes end -----

  function FailedCalls(stops: seq<Stop>): seq<Key> {
    if stops == [] then [] else
      var before, last := FailedCalls(stops[..|stops| - 1]), stops[|stops| - 1];
      if last.CallFailed? then before + [last.key] else before
  }

  /** An orphan is a call without an outcome, a failure one that raised. */
  ghost predicate Explains(w: World, stop: Stop) {
    match stop
    case Orphaned(k) => k in StatesOf(w) && StatesOf(w)[k].Started? && !InFlight(w, k)
    case PreviouslyFailed(k) => k in StatesOf(w) && StatesOf(w)[k].Failed? && !InFlight(w, k)
    case CallFailed(k) => k in StatesOf(w) && StatesOf(w)[k].Failed? && !InFlight(w, k)
    case _ => true
  }

  ghost predicate StopsSound(w: World) {
    (forall stop | stop in w.stops :: Explains(w, stop)) && w.failures == FailedCalls(w.stops)
  }

  lemma {:induction false} ExplainsStill(w: World, schedule: seq<Row>, e: Event, stop: Stop)
    requires LiveMaterial(schedule) && Invariant(w, schedule) && Enabled(w, e) && Explains(w, stop)
    ensures Explains(Step(w, schedule, e), stop)
  {
    if stop.Orphaned? || stop.PreviouslyFailed? || stop.CallFailed? {
      RestingStep(w, schedule, e, stop.key);
    }
  }

  /** A process that ends leaves one stop, which the files explain. */
  ghost predicate EndsWith(w: World, w': World) {
    || (w'.stops == w.stops && w'.failures == w.failures)
    || exists stop :: w'.stops == w.stops + [stop] && Explains(w', stop)
         && w'.failures == if stop.CallFailed? then w.failures + [stop.key] else w.failures
  }

  lemma EndedBy(w: World, stop: Stop, w': World)
    requires w'.stops == w.stops + [stop] && Explains(w', stop)
    requires w'.failures == if stop.CallFailed? then w.failures + [stop.key] else w.failures
    ensures EndsWith(w, w')
  {}

  lemma {:induction false} CallStateEnds(w: World, key: Key)
    requires w.process.Up? && key in StatesOf(w) && !StatesOf(w)[key].Included?
    ensures EndsWith(w, Ends(w, if StatesOf(w)[key].Started? then Orphaned(key) else PreviouslyFailed(key)))
  {
    var stop := if StatesOf(w)[key].Started? then Orphaned(key) else PreviouslyFailed(key);
    assert StatesOf(Ends(w, stop)) == StatesOf(w);
    EndedBy(w, stop, Ends(w, stop));
  }

  lemma {:induction false} NextRowEnds(w: World, schedule: seq<Row>)
    requires LiveMaterial(schedule) && Invariant(w, schedule) && w.process.Up? && w.process.at.NextRow?
    ensures EndsWith(w, NextRowStep(w, schedule))
  {
    var w' := NextRowStep(w, schedule);
    if w.process.index < |schedule| && w'.process.Down? {
      var key := Primary(schedule[w.process.index].id);
      if key in StatesOf(w) {
        CallStateEnds(w, key);
      } else {
        EndedBy(w, CallLimitReached, w');
      }
    }
  }

  /** The points at which a process may end, other than in the loop. */
  lemma {:induction false} PointEnds(w: World, schedule: seq<Row>)
    requires LiveMaterial(schedule) && Invariant(w, schedule) && w.process.Up?
    requires w.process.at.CheckPreflight? || w.process.at.NoteFailure? || w.process.at.Finish?
    ensures EndsWith(w, ProceedStep(w, schedule, Raises))
  {
    var w' := ProceedStep(w, schedule, Raises);
    assert StatesOf(w') == StatesOf(w) || w.process.at.CheckPreflight?;
    if w.process.at.NoteFailure? {
      EndedBy(w, CallFailed(w.process.at.key), w');
    } else if w.process.at.Finish? {
      EndedBy(w, w'.stops[|w.stops|], w');
    } else if Preflight in StatesOf(w) && !StatesOf(w)[Preflight].Included? {
      CallStateEnds(w, Preflight);
    }
  }

  /** Elsewhere it ends only by a guard. */
  lemma {:induction false} GuardEnds(w: World, schedule: seq<Row>, answer: Answer)
    requires w.process.Up? && !w.process.at.CheckPreflight? && !w.process.at.NoteFailure? && !w.process.at.Finish?
    requires !w.process.at.NextRow?
    ensures EndsWith(w, ProceedStep(w, schedule, answer))
  {
    var w' := ProceedStep(w, schedule, answer);
    if w'.process.Down? {
      EndedBy(w, w'.stops[|w.stops|], w');
    }
  }

  lemma {:induction false} StepEnds(w: World, schedule: seq<Row>, e: Event)
    requires LiveMaterial(schedule) && Invariant(w, schedule) && Enabled(w, e)
    ensures EndsWith(w, Step(w, schedule, e))
  {
    match e
    case Crash => EndedBy(w, Crashed, Step(w, schedule, e));
    case Launch(resume) =>
      var w' := LaunchStep(w, resume);
      if w'.process.Down? {
        EndedBy(w, w'.stops[|w.stops|], w');
      }
    case Proceed(answer) =>
      match w.process.at
      case CheckPreflight => PointEnds(w, schedule); AnswerUnused(w, schedule, answer);
      case NoteFailure(_) => PointEnds(w, schedule); AnswerUnused(w, schedule, answer);
      case Finish => PointEnds(w, schedule); AnswerUnused(w, schedule, answer);
      case NextRow => NextRowEnds(w, schedule);
      case _ => GuardEnds(w, schedule, answer);
  }

  lemma {:induction false} StopsStep(w: World, schedule: seq<Row>, e: Event)
    requires LiveMaterial(schedule) && Invariant(w, schedule) && Enabled(w, e) && StopsSound(w)
    ensures StopsSound(Step(w, schedule, e))
  {
    var w' := Step(w, schedule, e);
    StepEnds(w, schedule, e);
    forall stop | stop in w'.stops ensures Explains(w', stop) {
      if stop in w.stops {
        ExplainsStill(w, schedule, e, stop);
      }
    }
    if w'.stops != w.stops {
      assert w'.stops[..|w.stops|] == w.stops;
    }
  }

  lemma {:induction false} StopsRun(w: World, schedule: seq<Row>, history: seq<Event>)
    requires LiveMaterial(schedule) && Invariant(w, schedule) && StopsSound(w) && Possible(w, schedule, history)
    ensures StopsSound(After(w, schedule, history))
    decreases |history|
  {
    if history != [] {
      StopsStep(w, schedule, history[0]);
      StepKeeps(w, schedule, history[0]);
      StopsRun(Step(w, schedule, history[0]), schedule, history[1..]);
    }
  }

  /** In every history a process reports an orphan only for a call without an outcome, and a failure
      only for one that raised, and that stays so; the failure file lists exactly the calls that
      failed in a process, in order. */
  lemma {:induction false} StopsExplained(w: World, schedule: seq<Row>, history: seq<Event>, key: Key)
    requires LiveMaterial(schedule) && Reached(w, schedule, history)
    ensures Orphaned(key) in w.stops ==> key in StatesOf(w) && StatesOf(w)[key].Started?
    ensures PreviouslyFailed(key) in w.stops || CallFailed(key) in w.stops ==>
      key in StatesOf(w) && StatesOf(w)[key].Failed?
    ensures w.failures == FailedCalls(w.stops)
  {
    FreshHolds(schedule);
    StopsRun(FRESH, schedule, history);
    assert Orphaned(key) in w.stops ==> Explains(w, Orphaned(key));
    assert PreviouslyFailed(key) in w.stops ==> Explains(w, PreviouslyFailed(key));
    assert CallFailed(key) in w.stops ==> Explains(w, CallFailed(key));
  }

  // ----- Completing a run directory -----

  /** Every call made so far was included. */
  ghost predicate AllIncluded(w: World) {
    forall k | k in StatesOf(w) :: StatesOf(w)[k].Included?
  }

  /** A process under way whose calls all succeed. */
  ghost predicate Healthy(w: World, schedule: seq<Row>) {
    && Invariant(w, schedule) && w.process.Up? && !w.process.at.LogFailed? && !w.process.at.NoteFailure?
    && forall k | k in StatesOf(w) :: StatesOf(w)[k].Included? || InFlight(w, k)
  }

  /** How much is left to do: the rows to come, and the steps of the row or call at hand. */
  function Left(w: World, rows: nat): nat
    requires w.process.Up?
  {
    var n := 6 * if w.process.index < rows then rows - w.process.index else 0;
    var call := (key: Key) => if key.Preflight? then 6 * rows + 5 else n;
    match w.process.at
    case Configure => 6 * rows + 12
    case CheckPreflight => 6 * rows + 11
    case LogStarted(key) => call(key) + 5
    case Send(key) => call(key) + 4
    case LogIncluded(key, _) => call(key) + 3
    case LoadResults => 6 * rows + 7
    case NextRow => n + 6
    case AppendResult(_) => n + 2
    case VerifyFirst => n + 1
    case _ => 0
  }

  /** The process went on, with less left to do, or has completed the run. */
  ghost predicate Advanced(w: World, schedule: seq<Row>, w': World)
    requires w.process.Up?
  {
    if w'.process.Up? then Healthy(w', schedule) && Left(w', |schedule|) < Left(w, |schedule|)
    else w'.finished && w'.stops == w.stops + [Returned]
  }

  /** A step with no call in flight that leaves the journal alone keeps a process healthy. */
  lemma {:induction false} StaysHealthy(w: World, schedule: seq<Row>, w': World)
    requires Healthy(w, schedule) && Invariant(w', schedule) && w'.journal == w.journal && w'.process.Up?
    requires !w.process.at.Send? && !w.process.at.LogIncluded?
    requires !w'.process.at.LogFailed? && !w'.process.at.NoteFailure?
    ensures Healthy(w', schedule)
  {
    assert StatesOf(w') == StatesOf(w);
    assert forall k :: !InFlight(w, k);
  }

  lemma {:induction false} Logged(w: World, row: JournalRow, w': World)
    requires JournalStates(w.journal).Some? && w'.journal == w.journal + [row]
    requires row.key in StatesOf(w) ==> StatesOf(w)[row.key].Started?
    ensures StatesOf(w') == StatesOf(w)[row.key := row.status]
  {
    JournalAppend(w.journal, row);
  }

  /** A step that logs the call at hand keeps a process healthy. */
  lemma StaysHealthyBut(w: World, schedule: seq<Row>, key: Key, w': World)
    requires Healthy(w, schedule) && Invariant(w', schedule) && w'.process.Up?
    requires !w'.process.at.LogFailed? && !w'.process.at.NoteFailure?
    requires forall k | k != key :: !InFlight(w, k)
    requires forall k | k in StatesOf(w') && k != key :: k in StatesOf(w) && StatesOf(w')[k] == StatesOf(w)[k]
    requires key in StatesOf(w') ==> StatesOf(w')[key].Included? || InFlight(w', key)
    ensures Healthy(w', schedule)
  {}

  lemma {:induction false} StartedAdvances(w: World, schedule: seq<Row>)
    requires LiveMaterial(schedule) && Healthy(w, schedule) && w.process.at.LogStarted?
    ensures Advanced(w, schedule, ProceedStep(w, schedule, Raises))
  {
    var w', key := ProceedStep(w, schedule, Raises), w.process.at.key;
    StartedKeeps(w, schedule);
    Logged(w, JournalRow(key, Started), w');
    StaysHealthyBut(w, schedule, key, w');
  }

  lemma {:induction false} SendAdvances(w: World, schedule: seq<Row>, metadata: Metadata)
    requires LiveMaterial(schedule) && Healthy(w, schedule) && w.process.at.Send?
    ensures Advanced(w, schedule, ProceedStep(w, schedule, Succeeds(metadata)))
  {
    SendKeeps(w, schedule, Succeeds(metadata));
  }

  lemma {:induction false} IncludedAdvances(w: World, schedule: seq<Row>)
    requires LiveMaterial(schedule) && Healthy(w, schedule) && w.process.at.LogIncluded?
    ensures Advanced(w, schedule, ProceedStep(w, schedule, Raises))
  {
    var w', key := ProceedStep(w, schedule, Raises), w.process.at.key;
    IncludedKeeps(w, schedule);
    Logged(w, JournalRow(key, Included(w.process.at.metadata)), w');
    StaysHealthyBut(w, schedule, key, w');
  }

  lemma {:induction false} StartAdvances(w: World, schedule: seq<Row>, metadata: Metadata)
    requires LiveMaterial(schedule) && Healthy(w, schedule)
    requires w.process.at.Configure? || w.process.at.CheckPreflight? || w.process.at.LoadResults?
    ensures Advanced(w, schedule, ProceedStep(w, schedule, Succeeds(metadata)))
  {
    ProceedKeeps(w, schedule, Succeeds(metadata));
    ResultIdsCount(w, schedule);
  }

  /** A provider row still to write is called, or its result written. */
  lemma {:induction false} ProviderRowGoesOn(w: World, schedule: seq<Row>)
    requires LiveMaterial(schedule) && Healthy(w, schedule) && w.process.at.NextRow?
    requires w.process.index < |schedule| && schedule[w.process.index].provider
    requires schedule[w.process.index].id !in w.process.completed
    ensures var key := Primary(schedule[w.process.index].id);
      NextRowStep(w, schedule)
        == Go(w, if key in StatesOf(w) then AppendResult(StatesOf(w)[key].provider) else LogStarted(key))
    ensures Primary(schedule[w.process.index].id) in StatesOf(w) ==>
      StatesOf(w)[Primary(schedule[w.process.index].id)].Included?
  {
    var id := schedule[w.process.index].id;
    CompletedIsWritten(w, schedule, w.process.index);
    assert id in ProviderIds(schedule);
    if Primary(id) !in StatesOf(w) {
      LimitNotReached(w, schedule, id);
    }
  }

  lemma {:induction false} RowAdvances(w: World, schedule: seq<Row>)
    requires LiveMaterial(schedule) && Healthy(w, schedule) && w.process.at.NextRow?
    ensures Advanced(w, schedule, NextRowStep(w, schedule))
  {
    var w' := NextRowStep(w, schedule);
    NextRowKeeps(w, schedule);
    if w.process.index < |schedule| && schedule[w.process.index].id !in w.process.completed {
      if schedule[w.process.index].provider {
        ProviderRowGoesOn(w, schedule);
      }
    }
    StaysHealthy(w, schedule, w');
  }

  lemma {:induction false} AppendAdvances(w: World, schedule: seq<Row>)
    requires LiveMaterial(schedule) && Healthy(w, schedule) && w.process.at.AppendResult?
    ensures Advanced(w, schedule, ProceedStep(w, schedule, Raises))
  {
    AppendKeeps(w, schedule);
    StaysHealthy(w, schedule, ProceedStep(w, schedule, Raises));
  }

  lemma {:induction false} VerifyAdvances(w: World, schedule: seq<Row>)
    requires LiveMaterial(schedule) && Healthy(w, schedule) && w.process.at.VerifyFirst?
    ensures Advanced(w, schedule, ProceedStep(w, schedule, Raises))
  {
    VerifyKeeps(w, schedule);
    assert RowSound(w, schedule[w.process.index], w.results[w.process.index]);
    StaysHealthy(w, schedule, ProceedStep(w, schedule, Raises));
  }

  lemma {:induction false} FinishAdvances(w: World, schedule: seq<Row>)
    requires LiveMaterial(schedule) && Healthy(w, schedule) && w.process.at.Finish?
    ensures Advanced(w, schedule, ProceedStep(w, schedule, Raises))
  {
    CompleteRows(w, schedule);
  }

  lemma {:induction false} HealthyAdvances(w: World, schedule: seq<Row>, metadata: Metadata)
    requires LiveMaterial(schedule) && Healthy(w, schedule)
    ensures Advanced(w, schedule, ProceedStep(w, schedule, Succeeds(metadata)))
  {
    match w.process.at
    case LogStarted(_) => StartedAdvances(w, schedule);
    case Send(_) => SendAdvances(w, schedule, metadata);
    case LogIncluded(_, _) => IncludedAdvances(w, schedule);
    case Configure => StartAdvances(w, schedule, metadata);
    case CheckPreflight => StartAdvances(w, schedule, metadata);
    case LoadResults => StartAdvances(w, schedule, metadata);
    case NextRow => RowAdvances(w, schedule);
    case AppendResult(_) => AppendAdvances(w, schedule);
    case VerifyFirst => VerifyAdvances(w, schedule);
    case Finish => FinishAdvances(w, schedule);
  }

  /** Nothing but steps of the process, with every call answered. */
  ghost predicate Undisturbed(more: seq<Event>) {
    forall e | e in more :: e.Proceed? && e.answer.Succeeds?
  }

  lemma {:induction false} HealthyCompletes(w: World, schedule: seq<Row>, metadata: nat -> Metadata)
    returns (more: seq<Event>)
    requires LiveMaterial(schedule) && Healthy(w, schedule)
    ensures Undisturbed(more) && Possible(w, schedule, more)
    ensures After(w, schedule, more).finished && After(w, schedule, more).process.Down?
    decreases Left(w, |schedule|)
  {
    var answer := Succeeds(metadata(Left(w, |schedule|)));
    var w' := ProceedStep(w, schedule, answer);
    HealthyAdvances(w, schedule, answer.metadata);
    var rest: seq<Event> := [];
    if w'.process.Up? {
      rest := HealthyCompletes(w', schedule, metadata);
    }
    more := [Proceed(answer)] + rest;
    assert more[1..] == rest && Step(w, schedule, more[0]) == w';
  }

  /** A process that is launched on a directory where every call was included, and is neither
      interrupted nor refused by the provider, completes the run. */
  lemma {:induction false} LaunchCompletes(w: World, schedule: seq<Row>, resume: bool, metadata: nat -> Metadata)
    returns (more: seq<Event>)
    requires LiveMaterial(schedule) && Invariant(w, schedule) && AllIncluded(w)
    requires w.process.Down? && !w.finished
    requires w.directory.Absent? || (w.directory.Configured? && resume)
    ensures Undisturbed(more) && Possible(w, schedule, [Launch(resume)] + more)
    ensures After(w, schedule, [Launch(resume)] + more).finished
  {
    var w' := LaunchStep(w, resume);
    LaunchKeeps(w, schedule, resume);
    assert StatesOf(w') == StatesOf(w);
    more := HealthyCompletes(w', schedule, metadata);
    assert ([Launch(resume)] + more)[1..] == more;
  }

  /** A directory left without its configuration stays so. */
  lemma {:induction false} BareStays(w: World, schedule: seq<Row>, more: seq<Event>)
    requires Possible(w, schedule, more) && w.process.Down? && w.directory.Bare? && !w.finished
    ensures !After(w, schedule, more).finished
    decreases |more|
  {
    if more != [] {
      BareStays(Step(w, schedule, more[0]), schedule, more[1..]);
    }
  }

  lemma {:induction false} FinishedAllIncluded(w: World, schedule: seq<Row>, key: Key)
    requires Invariant(w, schedule) && w.finished && key in StatesOf(w)
    ensures StatesOf(w)[key].Included?
  {
    if key.Primary? {
      var r :| r in schedule && r.provider && r.id == key.id;
      var j :| 0 <= j < |schedule| && schedule[j] == r;
      assert RowSound(w, schedule[j], w.results[j]);
    }
  }

  ghost predicate Completes(w: World, schedule: seq<Row>, more: seq<Event>) {
    Possible(w, schedule, more) && After(w, schedule, more).finished
  }

  /** Which run directories can still be completed, when no process runs: those already finished, and
      those that hold their configuration, or nothing at all, and in which no call failed or was left
      without an outcome. */
  lemma {:induction false} CompletableIff(w: World, schedule: seq<Row>, history: seq<Event>)
    requires LiveMaterial(schedule) && Reached(w, schedule, history) && w.process.Down?
    ensures (exists more :: Completes(w, schedule, more))
      <==> w.finished || (AllIncluded(w) && !w.directory.Bare?)
  {
    ReachedHolds(w, schedule, history);
    if w.finished {
      var none: seq<Event> := [];
      assert Completes(w, schedule, none);
    } else if AllIncluded(w) && !w.directory.Bare? {
      var more := LaunchCompletes(w, schedule, true, (i: nat) => 0);
      assert Completes(w, schedule, [Launch(true)] + more);
    } else {
      forall more | Possible(w, schedule, more) ensures !After(w, schedule, more).finished {
        if w.directory.Bare? {
          BareStays(w, schedule, more);
        } else {
          NotCompletable(w, schedule, more);
        }
      }
    }
  }

  lemma {:induction false} NotCompletable(w: World, schedule: seq<Row>, more: seq<Event>)
    requires LiveMaterial(schedule) && Invariant(w, schedule) && Possible(w, schedule, more)
    requires w.process.Down? && !AllIncluded(w)
    ensures !After(w, schedule, more).finished
  {
    var key :| key in StatesOf(w) && !StatesOf(w)[key].Included?;
    RestingRun(w, schedule, more, key);
    HistoryKeeps(w, schedule, more);
    if After(w, schedule, more).finished {
      FinishedAllIncluded(After(w, schedule, more), schedule, key);
    }
  }

  // ----- Launches, and the first provider row -----

  /** A launch starts a process on an absent directory, or as a resume of a configured run that is not
      finished; any other only leaves its stop. */
  lemma LaunchStarts(w: World, schedule: seq<Row>, resume: bool)
    requires w.process.Down?
    ensures var w' := Step(w, schedule, Launch(resume));
      && (w'.process.Up? <==> w.directory.Absent? || (resume && w.directory.Configured? && !w.finished))
      && (w'.process.Down? ==> |w'.stops| == |w.stops| + 1 && w' == w.(stops := w'.stops))
      && w'.journal == w.journal && w'.results == w.results && w'.sent == w.sent
  {}

  predicate InRows(at: Point) {
    match at
    case LogStarted(k) => k.Primary?
    case Send(k) => k.Primary?
    case LogIncluded(k, _) => k.Primary?
    case NextRow => true
    case AppendResult(_) => true
    case _ => false
  }

  ghost predicate SomeProviderRow(results: seq<ResultRow>) {
    exists r :: r in results && r.provider
  }

  /** While it works through the rows a process knows whether the file has a provider row yet. */
  ghost predicate FlagTrue(w: World) {
    w.process.Up? && InRows(w.process.at) ==> (w.process.firstVerified <==> SomeProviderRow(w.results))
  }

  lemma {:induction false} ProviderRowAdded(results: seq<ResultRow>, r: ResultRow)
    ensures SomeProviderRow(results + [r]) <==> SomeProviderRow(results) || r.provider
  {
    if r.provider {
      assert r in results + [r];
    } else if q :| q in results && q.provider {
      assert q in results + [r];
    }
  }

  lemma {:induction false} FlagRow(w: World, schedule: seq<Row>)
    requires w.process.Up? && w.process.at.NextRow? && FlagTrue(w)
    ensures FlagTrue(NextRowStep(w, schedule))
  {
    var p := w.process;
    if p.index < |schedule| {
      ProviderRowAdded(w.results, ResultRow(schedule[p.index].id, false, None));
    }
  }

  lemma {:induction false} FlagAppend(w: World, schedule: seq<Row>)
    requires w.process.Up? && w.process.at.AppendResult? && w.process.index < |schedule| && FlagTrue(w)
    ensures FlagTrue(ProceedStep(w, schedule, Raises))
  {
    ProviderRowAdded(w.results, ResultRow(schedule[w.process.index].id, true, Some(w.process.at.metadata)));
  }

  lemma {:induction false} FlagVerify(w: World, schedule: seq<Row>)
    requires Invariant(w, schedule) && w.process.Up? && w.process.at.VerifyFirst?
    ensures FlagTrue(ProceedStep(w, schedule, Raises))
  {
    var j := |w.results| - 1;
    assert RowSound(w, schedule[j], w.results[j]) && w.results[j] in w.results;
  }

  lemma {:induction false} FlagStep(w: World, schedule: seq<Row>, e: Event)
    requires Invariant(w, schedule) && Enabled(w, e) && FlagTrue(w)
    ensures FlagTrue(Step(w, schedule, e))
  {
    if e.Proceed? {
      match w.process.at
      case NextRow => FlagRow(w, schedule);
      case AppendResult(_) => FlagAppend(w, schedule); AnswerUnused(w, schedule, e.answer);
      case VerifyFirst => FlagVerify(w, schedule); AnswerUnused(w, schedule, e.answer);
      case _ =>
    }
  }

  lemma {:induction false} FlagRun(w: World, schedule: seq<Row>, history: seq<Event>)
    requires LiveMaterial(schedule) && Invariant(w, schedule) && Possible(w, schedule, history) && FlagTrue(w)
    ensures FlagTrue(After(w, schedule, history))
    decreases |history|
  {
    if history != [] {
      FlagStep(w, schedule, history[0]);
      StepKeeps(w, schedule, history[0]);
      FlagRun(Step(w, schedule, history[0]), schedule, history[1..]);
    }
  }

  /** In every history: the first provider row of the file is read back before the process goes on,
      and no later one is. */
  lemma {:induction false} FirstRowReadBack(w: World, schedule: seq<Row>, history: seq<Event>, answer: Answer)
    requires LiveMaterial(schedule) && Reached(w, schedule, history)
    requires w.process.Up? && w.process.at.AppendResult?
    ensures var w' := Step(w, schedule, Proceed(answer));
      w'.process.Up? && w'.process.at == if SomeProviderRow(w.results) then NextRow else VerifyFirst
  {
    FreshHolds(schedule);
    FlagRun(FRESH, schedule, history);
    ReachedHolds(w, schedule, history);
  }
}
