/** What every history of one run directory keeps, whatever crashes, failures and resumes it
    holds: no provider key is sent twice, results follow the schedule, and a run that returns has
    made each call exactly once. */
module ProviderJournalLaws {
  import opened Basics
  import opened ProviderJournal

  function StatesOf(w: World): States {
    var s := JournalStates(w.journal);
    if s.Some? then s.value else map[]
  }

  ghost predicate Scheduled(key: Key, schedule: seq<Row>) {
    key.Preflight? || key.id in ProviderIds(schedule)
  }

  /** The journal is readable, names only scheduled calls, and covers every send: a durable
      started row comes before it, a terminal row only after it, and no key is sent twice. */
  ghost predicate JournalSound(w: World, schedule: seq<Row>) {
    && JournalStates(w.journal).Some?
    && (forall k | k in StatesOf(w) :: Scheduled(k, schedule))
    && (forall k | k in w.sent :: k in StatesOf(w))
    && (forall k | k in StatesOf(w) && !StatesOf(w)[k].Started? :: k in w.sent)
    && Distinct(w.sent)
  }

  ghost predicate PreflightDone(w: World) {
    Preflight in StatesOf(w) && StatesOf(w)[Preflight].Included?
  }

  /** One result row as scheduled; a provider row carries the metadata its call was journaled with. */
  ghost predicate RowSound(w: World, row: Row, r: ResultRow) {
    && r.id == row.id && r.provider == row.provider
    && (row.provider ==>
         && r.metadata.Some?
         && Primary(row.id) in StatesOf(w)
         && StatesOf(w)[Primary(row.id)] == Included(r.metadata.value))
    && (!row.provider ==> r.metadata.None?)
  }

  ghost predicate ResultsSound(w: World, schedule: seq<Row>) {
    && |w.results| <= |schedule|
    && (forall j | 0 <= j < |w.results| :: RowSound(w, schedule[j], w.results[j]))
    && (w.results != [] ==> PreflightDone(w))
    && (w.finished ==> |w.results| == |schedule| && PreflightDone(w))
  }

  /** The memory of a process that has loaded the results agrees with the files. */
  ghost predicate Loaded(w: World, schedule: seq<Row>) {
    && w.process.Up? && PreflightDone(w)
    && w.process.completed == ResultIds(w.results)
    && w.process.index <= |w.results|
  }

  /** The call in progress is the one for the next row to write. */
  ghost predicate Calling(w: World, schedule: seq<Row>, key: Key) {
    key.Primary? ==>
      && Loaded(w, schedule)
      && w.process.index == |w.results| < |schedule|
      && schedule[w.process.index].provider
      && key == Primary(schedule[w.process.index].id)
  }

  ghost predicate PointSound(w: World, schedule: seq<Row>) {
    w.process.Up? ==>
      var s := StatesOf(w);
      match w.process.at
      case Configure => w.directory.Bare?
      case CheckPreflight => true
      case LogStarted(k) => Calling(w, schedule, k) && Scheduled(k, schedule) && k !in s
      case Send(k) => Calling(w, schedule, k) && k in s && s[k].Started? && k !in w.sent
      case LogIncluded(k, _) => Calling(w, schedule, k) && k in s && s[k].Started? && k in w.sent
      case LogFailed(k) => Calling(w, schedule, k) && k in s && s[k].Started? && k in w.sent
      case NoteFailure(k) => k in s && s[k].Failed?
      case LoadResults => PreflightDone(w)
      case NextRow => Loaded(w, schedule) && w.process.states == s
      case AppendResult(m) =>
        && Loaded(w, schedule) && w.process.states == s
        && w.process.index == |w.results| < |schedule|
        && schedule[w.process.index].provider
        && Primary(schedule[w.process.index].id) in s
        && s[Primary(schedule[w.process.index].id)] == Included(m)
      case VerifyFirst =>
        && Loaded(w, schedule) && w.process.states == s
        && w.process.index == |w.results| - 1 < |schedule| && schedule[w.process.index].provider
      case Finish => PreflightDone(w) && |w.results| == |schedule|
  }

  /** The ways a process can end; the other guards of the runner never fire. */
  predicate Expected(stop: Stop) {
    match stop
    case TerminalReplay => false
    case DuplicateRow => false
    case CallLimitReached => false
    case FirstNotRecorded => false
    case RowsIncomplete => false
    case _ => true
  }

  ghost predicate Invariant(w: World, schedule: seq<Row>) {
    && JournalSound(w, schedule)
    && ResultsSound(w, schedule)
    && PointSound(w, schedule)
    && (forall stop | stop in w.stops :: Expected(stop))
    && (Returned in w.stops ==> w.finished)
  }

  lemma FreshHolds(schedule: seq<Row>)
    ensures Invariant(FRESH, schedule)
  {}

  lemma ResultIdsAppend(results: seq<ResultRow>, r: ResultRow)
    ensures ResultIds(results + [r]) == ResultIds(results) + {r.id}
  {}

  ghost predicate DistinctResults(results: seq<ResultRow>) {
    forall i, j | 0 <= i < j < |results| :: results[i].id != results[j].id
  }

  lemma AddNew(ids: set<nat>, id: nat)
    requires id !in ids
    ensures |ids + {id}| == |ids| + 1
  {}

  lemma {:induction false} DistinctResultIds(results: seq<ResultRow>)
    requires DistinctResults(results)
    ensures |ResultIds(results)| == |results|
  {
    if results != [] {
      var init, last := results[..|results| - 1], results[|results| - 1];
      assert results == init + [last];
      DistinctResultIds(init);
      ResultIdsAppend(init, last);
      assert last.id !in ResultIds(init);
      AddNew(ResultIds(init), last.id);
    }
  }

  /** The ids of written rows are those of the schedule, so they are distinct. */
  lemma {:induction false} ResultIdsCount(w: World, schedule: seq<Row>)
    requires LiveMaterial(schedule) && ResultsSound(w, schedule)
    ensures |ResultIds(w.results)| == |w.results|
  {
    forall i, j | 0 <= i < j < |w.results| ensures w.results[i].id != w.results[j].id {
      assert RowSound(w, schedule[i], w.results[i]) && RowSound(w, schedule[j], w.results[j]);
    }
    DistinctResultIds(w.results);
  }

  lemma {:induction false} ProviderIdsAppend(schedule: seq<Row>, row: Row)
    requires forall r | r in schedule :: r.id != row.id
    ensures |ProviderIds(schedule + [row])| == |ProviderIds(schedule)| + if row.provider then 1 else 0
  {
    if row.provider {
      assert ProviderIds(schedule + [row]) == ProviderIds(schedule) + {row.id};
    } else {
      assert ProviderIds(schedule + [row]) == ProviderIds(schedule);
    }
  }

  lemma {:induction false} SameProviders(results: seq<ResultRow>, schedule: seq<Row>)
    requires |results| == |schedule| && forall j | 0 <= j < |results| :: results[j].provider == schedule[j].provider
    requires forall i, j | 0 <= i < j < |schedule| :: schedule[i].id != schedule[j].id
    ensures ProviderResults(results) == |ProviderIds(schedule)|
  {
    if results != [] {
      var n := |results| - 1;
      SameProviders(results[..n], schedule[..n]);
      assert schedule == schedule[..n] + [schedule[n]];
      ProviderIdsAppend(schedule[..n], schedule[n]);
    }
  }

  /** Finishing with every scheduled row written passes the final check. */
  lemma {:induction false} CompleteRows(w: World, schedule: seq<Row>)
    requires LiveMaterial(schedule) && ResultsSound(w, schedule) && |w.results| == |schedule|
    ensures RowsComplete(w.results)
  {
    ResultIdsCount(w, schedule);
    forall j | 0 <= j < |w.results|
      ensures w.results[j].provider == schedule[j].provider && (w.results[j].provider ==> w.results[j].metadata.Some?)
    {
      assert RowSound(w, schedule[j], w.results[j]);
    }
    SameProviders(w.results, schedule);
  }

  /** With a provider row still to call, fewer than the limit have started. */
  lemma {:induction false} LimitNotReached(w: World, schedule: seq<Row>, id: nat)
    requires LiveMaterial(schedule) && JournalSound(w, schedule)
    requires id in ProviderIds(schedule) && Primary(id) !in StatesOf(w)
    ensures |StartedPrimaries(StatesOf(w))| < PRIMARY_CALL_LIMIT
  {
    var started := StartedPrimaries(StatesOf(w));
    PrimariesWithin(started, ProviderIds(schedule) - {id});
  }

  lemma {:induction false} PrimariesWithin(keys: set<Key>, ids: set<nat>)
    requires forall k | k in keys :: k.Primary? && k.id in ids
    ensures |keys| <= |ids|
  {
    if keys != {} {
      var k :| k in keys;
      PrimariesWithin(keys - {k}, ids - {k.id});
    }
  }

  // ----- Journal rows -----

  lemma {:induction false} JournalGrows(w: World, schedule: seq<Row>, row: JournalRow, w': World)
    requires JournalSound(w, schedule) && Scheduled(row.key, schedule)
    requires row.key in StatesOf(w) ==> StatesOf(w)[row.key].Started?
    requires w'.journal == w.journal + [row] && w'.sent == w.sent
    requires !row.status.Started? ==> row.key in w.sent
    ensures JournalSound(w', schedule)
    ensures StatesOf(w') == StatesOf(w)[row.key := row.status]
  {
    JournalAppend(w.journal, row);
  }

  /** A row for a key that is not terminal leaves written results sound. */
  lemma {:induction false} ResultsStay(w: World, schedule: seq<Row>, w': World)
    requires ResultsSound(w, schedule)
    requires w'.results == w.results && w'.finished == w.finished
    requires forall k | k in StatesOf(w) && !StatesOf(w)[k].Started? ::
      k in StatesOf(w') && StatesOf(w')[k] == StatesOf(w)[k]
    ensures ResultsSound(w', schedule)
  {
    forall j | 0 <= j < |w'.results| ensures RowSound(w', schedule[j], w'.results[j]) {
      assert RowSound(w, schedule[j], w.results[j]);
    }
  }

  // ----- Every step -----

  lemma {:induction false} EndsKeep(w: World, schedule: seq<Row>, stop: Stop)
    requires Invariant(w, schedule) && Expected(stop) && (stop.Returned? ==> w.finished)
    ensures Invariant(Ends(w, stop), schedule)
  {
    ResultsStay(w, schedule, Ends(w, stop));
  }

  /** Moving on to another point, with the files as they are. */
  lemma {:induction false} MoveKeeps(w: World, schedule: seq<Row>, w': World)
    requires Invariant(w, schedule) && w' == w.(process := w'.process, directory := w'.directory)
    requires PointSound(w', schedule)
    ensures Invariant(w', schedule)
  {
    ResultsStay(w, schedule, w');
  }

  lemma {:induction false} LaunchKeeps(w: World, schedule: seq<Row>, resume: bool)
    requires Invariant(w, schedule) && w.process.Down?
    ensures Invariant(LaunchStep(w, resume), schedule)
  {
    if w.directory.Absent? {
      MoveKeeps(w, schedule, LaunchStep(w, resume));
    } else if !resume {
      EndsKeep(w, schedule, AlreadyExists);
    } else if w.finished {
      EndsKeep(w, schedule, Returned);
    } else if w.directory.Bare? {
      EndsKeep(w, schedule, NoConfiguration);
    } else {
      MoveKeeps(w, schedule, LaunchStep(w, resume));
    }
  }

  lemma {:induction false} PreflightKeeps(w: World, schedule: seq<Row>)
    requires Invariant(w, schedule) && w.process.Up? && w.process.at.CheckPreflight?
    ensures Invariant(ProceedStep(w, schedule, Raises), schedule)
  {
    var w' := ProceedStep(w, schedule, Raises);
    assert w'.journal == w.journal && w'.results == w.results && w'.finished == w.finished;
    ResultsStay(w, schedule, w');
  }

  lemma {:induction false} StartedKeeps(w: World, schedule: seq<Row>)
    requires Invariant(w, schedule) && w.process.Up? && w.process.at.LogStarted?
    ensures Invariant(ProceedStep(w, schedule, Raises), schedule)
  {
    var w' := ProceedStep(w, schedule, Raises);
    JournalGrows(w, schedule, JournalRow(w.process.at.key, Started), w');
    ResultsStay(w, schedule, w');
  }

  lemma {:induction false} SendKeeps(w: World, schedule: seq<Row>, answer: Answer)
    requires Invariant(w, schedule) && w.process.Up? && w.process.at.Send?
    ensures Invariant(ProceedStep(w, schedule, answer), schedule)
  {
    var w' := ProceedStep(w, schedule, answer);
    assert StatesOf(w') == StatesOf(w);
    forall i | 0 <= i < |w.sent| ensures w.sent[i] != w.process.at.key {
      assert w.sent[i] in w.sent;
    }
    ResultsStay(w, schedule, w');
  }

  lemma {:induction false} IncludedKeeps(w: World, schedule: seq<Row>)
    requires Invariant(w, schedule) && w.process.Up? && w.process.at.LogIncluded?
    ensures Invariant(ProceedStep(w, schedule, Raises), schedule)
  {
    var w' := ProceedStep(w, schedule, Raises);
    var row := JournalRow(w.process.at.key, Included(w.process.at.metadata));
    JournalAppend(w.journal, row);
    JournalGrows(w, schedule, row, w');
    ResultsStay(w, schedule, w');
  }

  lemma {:induction false} FailedKeeps(w: World, schedule: seq<Row>)
    requires Invariant(w, schedule) && w.process.Up? && w.process.at.LogFailed?
    ensures Invariant(ProceedStep(w, schedule, Raises), schedule)
  {
    var w' := ProceedStep(w, schedule, Raises);
    JournalGrows(w, schedule, JournalRow(w.process.at.key, Failed), w');
    ResultsStay(w, schedule, w');
  }

  lemma {:induction false} LoadKeeps(w: World, schedule: seq<Row>)
    requires LiveMaterial(schedule)
    requires Invariant(w, schedule) && w.process.Up? && w.process.at.LoadResults?
    ensures Invariant(ProceedStep(w, schedule, Raises), schedule)
  {
    var w' := ProceedStep(w, schedule, Raises);
    ResultIdsCount(w, schedule);
    ResultsStay(w, schedule, w');
  }

  /** In the loop, a row is already written exactly when its index is below the file's length. */
  lemma {:induction false} CompletedIsWritten(w: World, schedule: seq<Row>, i: nat)
    requires LiveMaterial(schedule) && ResultsSound(w, schedule) && i < |schedule|
    ensures schedule[i].id in ResultIds(w.results) <==> i < |w.results|
  {
    if i < |w.results| {
      assert RowSound(w, schedule[i], w.results[i]);
      assert w.results[i] in w.results;
    } else {
      forall j | 0 <= j < |w.results| ensures w.results[j].id != schedule[i].id {
        assert RowSound(w, schedule[j], w.results[j]);
      }
    }
  }

  /** Writing the next scheduled row. */
  lemma {:induction false} RowWritten(w: World, schedule: seq<Row>, r: ResultRow, w': World)
    requires ResultsSound(w, schedule) && PreflightDone(w) && |w.results| < |schedule|
    requires RowSound(w, schedule[|w.results|], r)
    requires w'.results == w.results + [r] && w'.journal == w.journal && w'.finished == w.finished
    ensures ResultsSound(w', schedule) && PreflightDone(w')
    ensures ResultIds(w'.results) == ResultIds(w.results) + {r.id}
  {
    forall j | 0 <= j < |w'.results| ensures RowSound(w', schedule[j], w'.results[j]) {
      if j < |w.results| {
        assert RowSound(w, schedule[j], w.results[j]);
      }
    }
    ResultIdsAppend(w.results, r);
  }

  lemma NextRowWrites(w: World, schedule: seq<Row>)
    requires w.process.Up?
    ensures NextRowStep(w, schedule).journal == w.journal && NextRowStep(w, schedule).sent == w.sent
    ensures var w' := NextRowStep(w, schedule); w'.process.Up? ==> !w'.process.at.Send? || w'.process.at == w.process.at
  {}

  lemma {:induction false} ProviderRowKeeps(w: World, schedule: seq<Row>)
    requires LiveMaterial(schedule)
    requires Invariant(w, schedule) && w.process.Up? && w.process.at.NextRow?
    requires w.process.index == |w.results| < |schedule| && schedule[w.process.index].provider
    requires schedule[w.process.index].id !in w.process.completed
    ensures Invariant(NextRowStep(w, schedule), schedule)
  {
    var id := schedule[w.process.index].id;
    var key := Primary(id);
    assert id in ProviderIds(schedule);
    if key !in StatesOf(w) {
      LimitNotReached(w, schedule, id);
      assert NextRowStep(w, schedule) == Go(w, LogStarted(key));
      MoveKeeps(w, schedule, Go(w, LogStarted(key)));
    } else if StatesOf(w)[key].Included? {
      assert NextRowStep(w, schedule) == Go(w, AppendResult(StatesOf(w)[key].provider));
      MoveKeeps(w, schedule, Go(w, AppendResult(StatesOf(w)[key].provider)));
    } else if StatesOf(w)[key].Started? {
      assert NextRowStep(w, schedule) == Ends(w, Orphaned(key));
      EndsKeep(w, schedule, Orphaned(key));
    } else {
      assert NextRowStep(w, schedule) == Ends(w, PreviouslyFailed(key));
      EndsKeep(w, schedule, PreviouslyFailed(key));
    }
  }

  lemma {:induction false} FreeRowKeeps(w: World, schedule: seq<Row>)
    requires Invariant(w, schedule) && w.process.Up? && w.process.at.NextRow?
    requires w.process.index == |w.results| < |schedule| && !schedule[w.process.index].provider
    requires schedule[w.process.index].id !in w.process.completed
    ensures Invariant(NextRowStep(w, schedule), schedule)
  {
    RowWritten(w, schedule, ResultRow(schedule[w.process.index].id, false, None), NextRowStep(w, schedule));
  }

  lemma {:induction false} NextRowKeeps(w: World, schedule: seq<Row>)
    requires LiveMaterial(schedule)
    requires Invariant(w, schedule) && w.process.Up? && w.process.at.NextRow?
    ensures Invariant(ProceedStep(w, schedule, Raises), schedule)
  {
    var p := w.process;
    if p.index < |schedule| {
      CompletedIsWritten(w, schedule, p.index);
      if schedule[p.index].id !in p.completed {
        if schedule[p.index].provider {
          ProviderRowKeeps(w, schedule);
        } else {
          FreeRowKeeps(w, schedule);
        }
      } else {
        MoveKeeps(w, schedule, w.(process := p.(index := p.index + 1)));
      }
    } else {
      MoveKeeps(w, schedule, Go(w, Finish));
    }
  }

  lemma {:induction false} AppendKeeps(w: World, schedule: seq<Row>)
    requires Invariant(w, schedule) && w.process.Up? && w.process.at.AppendResult?
    ensures Invariant(ProceedStep(w, schedule, Raises), schedule)
  {
    var w' := ProceedStep(w, schedule, Raises);
    RowWritten(w, schedule, ResultRow(schedule[w.process.index].id, true, Some(w.process.at.metadata)), w');
  }

  lemma {:induction false} VerifyKeeps(w: World, schedule: seq<Row>)
    requires Invariant(w, schedule) && w.process.Up? && w.process.at.VerifyFirst?
    ensures Invariant(ProceedStep(w, schedule, Raises), schedule)
  {
    var w' := ProceedStep(w, schedule, Raises);
    var j := w.process.index;
    assert RowSound(w, schedule[j], w.results[j]);
    ResultsStay(w, schedule, w');
  }

  lemma {:induction false} FinishKeeps(w: World, schedule: seq<Row>)
    requires LiveMaterial(schedule)
    requires Invariant(w, schedule) && w.process.Up? && w.process.at.Finish?
    ensures Invariant(ProceedStep(w, schedule, Raises), schedule)
  {
    var w' := ProceedStep(w, schedule, Raises);
    CompleteRows(w, schedule);
    forall j | 0 <= j < |w.results| ensures RowSound(w', schedule[j], w'.results[j]) {
      assert RowSound(w, schedule[j], w.results[j]);
    }
  }

  lemma {:induction false} ConfigureKeeps(w: World, schedule: seq<Row>)
    requires Invariant(w, schedule) && w.process.Up? && w.process.at.Configure?
    ensures Invariant(ProceedStep(w, schedule, Raises), schedule)
  {
    MoveKeeps(w, schedule, ProceedStep(w, schedule, Raises));
  }

  lemma {:induction false} NoteKeeps(w: World, schedule: seq<Row>)
    requires Invariant(w, schedule) && w.process.Up? && w.process.at.NoteFailure?
    ensures Invariant(ProceedStep(w, schedule, Raises), schedule)
  {
    ResultsStay(w, schedule, ProceedStep(w, schedule, Raises));
  }

  /** Only a send depends on the provider's answer. */
  lemma AnswerUnused(w: World, schedule: seq<Row>, answer: Answer)
    requires w.process.Up? && !w.process.at.Send?
    ensures ProceedStep(w, schedule, answer) == ProceedStep(w, schedule, Raises)
  {}

  lemma {:induction false} ProceedKeeps(w: World, schedule: seq<Row>, answer: Answer)
    requires LiveMaterial(schedule) && Invariant(w, schedule) && w.process.Up?
    ensures Invariant(ProceedStep(w, schedule, answer), schedule)
  {
    if w.process.at.Send? {
      SendKeeps(w, schedule, answer);
    } else {
      AnswerUnused(w, schedule, answer);
      match w.process.at
      case Configure => ConfigureKeeps(w, schedule);
      case CheckPreflight => PreflightKeeps(w, schedule);
      case LogStarted(_) => StartedKeeps(w, schedule);
      case LogIncluded(_, _) => IncludedKeeps(w, schedule);
      case LogFailed(_) => FailedKeeps(w, schedule);
      case NoteFailure(_) => NoteKeeps(w, schedule);
      case LoadResults => LoadKeeps(w, schedule);
      case NextRow => NextRowKeeps(w, schedule);
      case AppendResult(_) => AppendKeeps(w, schedule);
      case VerifyFirst => VerifyKeeps(w, schedule);
      case Finish => FinishKeeps(w, schedule);
    }
  }

  lemma {:induction false} StepKeeps(w: World, schedule: seq<Row>, e: Event)
    requires LiveMaterial(schedule) && Invariant(w, schedule) && Enabled(w, e)
    ensures Invariant(Step(w, schedule, e), schedule)
  {
    match e
    case Launch(resume) => LaunchKeeps(w, schedule, resume);
    case Crash => EndsKeep(w, schedule, Crashed);
    case Proceed(answer) => ProceedKeeps(w, schedule, answer);
  }

  lemma {:induction false} HistoryKeeps(w: World, schedule: seq<Row>, history: seq<Event>)
    requires LiveMaterial(schedule) && Invariant(w, schedule) && Possible(w, schedule, history)
    ensures Invariant(After(w, schedule, history), schedule)
    decreases |history|
  {
    if history != [] {
      StepKeeps(w, schedule, history[0]);
      HistoryKeeps(Step(w, schedule, history[0]), schedule, history[1..]);
    }
  }

  // ----- What a whole history shows -----

  /** `w` is what one run directory comes to after some history. */
  ghost predicate Reached(w: World, schedule: seq<Row>, history: seq<Event>) {
    Possible(FRESH, schedule, history) && w == After(FRESH, schedule, history)
  }

  lemma {:induction false} ReachedHolds(w: World, schedule: seq<Row>, history: seq<Event>)
    requires LiveMaterial(schedule) && Reached(w, schedule, history)
    ensures Invariant(w, schedule)
  {
    FreshHolds(schedule);
    HistoryKeeps(FRESH, schedule, history);
  }

  /** No provider call is paid for twice, and a terminal row always stands for a call that was
      sent. */
  lemma {:induction false} SentAtMostOnce(w: World, schedule: seq<Row>, history: seq<Event>)
    requires LiveMaterial(schedule) && Reached(w, schedule, history)
    ensures Distinct(w.sent)
    ensures JournalStates(w.journal).Some?
    ensures forall k | k in w.sent :: k in StatesOf(w) && Scheduled(k, schedule)
    ensures forall k | k in StatesOf(w) && !StatesOf(w)[k].Started? :: k in w.sent
  {
    ReachedHolds(w, schedule, history);
  }

  /** However a process ends, it is by a crash, a failed or orphaned call, a refusal to start, or
      success: the journal is never rejected, no duplicate row is found, the call limit is never
      hit, the first call is always found recorded and the final row set is always complete. */
  lemma {:induction false} GuardsNeverFire(w: World, schedule: seq<Row>, history: seq<Event>, stop: Stop)
    requires LiveMaterial(schedule) && Reached(w, schedule, history) && stop in w.stops
    ensures stop !in {TerminalReplay, DuplicateRow, CallLimitReached, FirstNotRecorded, RowsIncomplete}
  {
    ReachedHolds(w, schedule, history);
    assert Expected(stop);
  }

  /** The result file is always a prefix of the schedule, and every provider row in it carries the
      metadata its call was journaled with. */
  lemma {:induction false} ResultsFollowSchedule(w: World, schedule: seq<Row>, history: seq<Event>)
    requires LiveMaterial(schedule) && Reached(w, schedule, history)
    ensures |w.results| <= |schedule|
    ensures forall j | 0 <= j < |w.results| :: RowSound(w, schedule[j], w.results[j])
  {
    ReachedHolds(w, schedule, history);
  }

  /** The key has a journal row and no process is between logging it and sending it. */
  ghost predicate Settled(w: World, key: Key) {
    key in StatesOf(w) && !(w.process.Up? && w.process.at == Send(key))
  }

  function Logging(at: Point): Option<JournalRow> {
    match at
    case LogStarted(k) => Some(JournalRow(k, Started))
    case LogIncluded(k, m) => Some(JournalRow(k, Included(m)))
    case LogFailed(k) => Some(JournalRow(k, Failed))
    case _ => None
  }

  /** What one step does to the journal and to the sends. */
  lemma {:induction false} StepWrites(w: World, schedule: seq<Row>, e: Event)
    requires Enabled(w, e)
    ensures var w' := Step(w, schedule, e);
      && w'.journal == (if e.Proceed? && Logging(w.process.at).Some?
                         then w.journal + [Logging(w.process.at).value] else w.journal)
      && w'.sent == (if e.Proceed? && w.process.at.Send? then w.sent + [w.process.at.key] else w.sent)
  {
    if e.Proceed? && w.process.at.NextRow? {
      NextRowWrites(w, schedule);
    }
  }

  /** The journal holds a started row for the key, and no call for it has been sent. */
  ghost predicate StartedUnsent(w: World, key: Key) {
    key in StatesOf(w) && StatesOf(w)[key].Started? && key !in w.sent
  }

  /** Every send, in every history, is of one scheduled key whose started row is durable and which
      was never sent before. */
  lemma {:induction false} SendsAfterStarted(w: World, schedule: seq<Row>, history: seq<Event>, e: Event)
    requires LiveMaterial(schedule) && Reached(w, schedule, history) && Enabled(w, e)
    ensures var w' := Step(w, schedule, e);
      w'.sent == w.sent ||
      exists key :: w'.sent == w.sent + [key] && Scheduled(key, schedule) && StartedUnsent(w, key)
  {
    ReachedHolds(w, schedule, history);
    StepWrites(w, schedule, e);
    if e.Proceed? && w.process.at.Send? {
      assert StartedUnsent(w, w.process.at.key);
    }
  }

  lemma LaunchNeverSends(w: World, resume: bool)
    requires w.process.Down?
    ensures LaunchStep(w, resume).process.Up? ==> !LaunchStep(w, resume).process.at.Send?
  {}

  lemma {:induction false} ProceedToSend(w: World, schedule: seq<Row>, answer: Answer, key: Key)
    requires w.process.Up? && w.process.at != Send(key)
    requires ProceedStep(w, schedule, answer).process.Up? && ProceedStep(w, schedule, answer).process.at == Send(key)
    ensures w.process.at == LogStarted(key)
  {
    if w.process.at.NextRow? {
      NextRowWrites(w, schedule);
    }
  }

  lemma {:induction false} SendFollowsStarted(w: World, schedule: seq<Row>, e: Event, key: Key)
    requires Enabled(w, e) && !(w.process.Up? && w.process.at == Send(key))
    requires Step(w, schedule, e).process.Up? && Step(w, schedule, e).process.at == Send(key)
    ensures w.process.Up? && w.process.at == LogStarted(key)
  {
    if e.Proceed? {
      ProceedToSend(w, schedule, e.answer, key);
    } else if e.Launch? {
      LaunchNeverSends(w, e.resume);
    }
  }

  lemma {:induction false} SettledStep(w: World, schedule: seq<Row>, e: Event, key: Key)
    requires LiveMaterial(schedule) && Invariant(w, schedule) && Enabled(w, e) && Settled(w, key)
    ensures Settled(Step(w, schedule, e), key)
    ensures multiset(Step(w, schedule, e).sent)[key] == multiset(w.sent)[key]
  {
    var w' := Step(w, schedule, e);
    StepWrites(w, schedule, e);
    if e.Proceed? && Logging(w.process.at).Some? {
      JournalAppend(w.journal, Logging(w.process.at).value);
    }
    assert key in StatesOf(w');
    if w'.process.Up? && w'.process.at == Send(key) {
      SendFollowsStarted(w, schedule, e, key);
      assert false;
    }
  }

  /** A key once journaled and not in flight is never sent again: neither a call that was included,
      nor one that failed, nor one orphaned by a crash, in any continuation. */
  lemma {:induction false} NeverSentAgain(w: World, schedule: seq<Row>, more: seq<Event>, key: Key)
    requires LiveMaterial(schedule) && Invariant(w, schedule) && Possible(w, schedule, more) && Settled(w, key)
    ensures multiset(After(w, schedule, more).sent)[key] == multiset(w.sent)[key]
    decreases |more|
  {
    if more != [] {
      SettledStep(w, schedule, more[0], key);
      StepKeeps(w, schedule, more[0]);
      NeverSentAgain(Step(w, schedule, more[0]), schedule, more[1..], key);
    }
  }

  lemma {:induction false} NoRepeatSize<T>(s: seq<T>)
    requires Distinct(s)
    ensures |set x | x in s| == |s|
  {
    if s != [] {
      NoRepeatSize(s[1..]);
      assert s == [s[0]] + s[1..];
      assert (set x | x in s) == {s[0]} + (set x | x in s[1..]);
    }
  }

  lemma {:induction false} PrimaryKeysSize(ids: set<nat>)
    ensures |set id | id in ids :: Primary(id)| == |ids|
  {
    if ids != {} {
      var id :| id in ids;
      PrimaryKeysSize(ids - {id});
      assert (set i | i in ids :: Primary(i)) == (set i | i in ids - {id} :: Primary(i)) + {Primary(id)};
    }
  }

  /** A run that returns has written every scheduled row and, over its whole history, has sent each
      of the 36 primary calls once, the preflight once, and nothing else. */
  lemma {:induction false} ReturnedRunPaidExactly(w: World, schedule: seq<Row>, history: seq<Event>)
    requires LiveMaterial(schedule) && Reached(w, schedule, history) && Returned in w.stops
    ensures |w.results| == |schedule| == SCHEDULED_ROWS
    ensures forall k :: multiset(w.sent)[k] == if Scheduled(k, schedule) then 1 else 0
    ensures |w.sent| == PRIMARY_CALL_LIMIT + 1
  {
    ReachedHolds(w, schedule, history);
    forall k | Scheduled(k, schedule) ensures k in w.sent {
      if k.Primary? {
        var r :| r in schedule && r.provider && r.id == k.id;
        var j :| 0 <= j < |schedule| && schedule[j] == r;
        assert RowSound(w, schedule[j], w.results[j]);
      }
    }
    EveryScheduledKey(w.sent, schedule);
  }

  lemma {:induction false} EveryScheduledKey(sent: seq<Key>, schedule: seq<Row>)
    requires Distinct(sent) && forall k :: k in sent <==> Scheduled(k, schedule)
    ensures forall k :: multiset(sent)[k] == if Scheduled(k, schedule) then 1 else 0
    ensures |sent| == |ProviderIds(schedule)| + 1
  {
    forall k ensures multiset(sent)[k] == if Scheduled(k, schedule) then 1 else 0 {
      AtMostOneCopy(sent, k);
    }
    var primaries := set id | id in ProviderIds(schedule) :: Primary(id);
    PrimaryKeysSize(ProviderIds(schedule));
    NoRepeatSize(sent);
    forall k ensures k in sent <==> k in primaries + {Preflight} {
      if k.Primary? && k.id in ProviderIds(schedule) {
        assert k in primaries;
      }
    }
    assert (set k | k in sent) == primaries + {Preflight};
  }

  lemma {:induction false} AtMostOneCopy<T>(s: seq<T>, x: T)
    requires Distinct(s)
    ensures multiset(s)[x] == if x in s then 1 else 0
  {
    if s != [] {
      AtMostOneCopy(s[1..], x);
      assert s == [s[0]] + s[1..];
    }
  }
}