/** One run directory of the paid provider evaluation, across processes that may crash at any
    step: a write-ahead call journal, an append-only result file, and resume.

    Appends are atomic and one process at a time owns the directory.  An unexpected exception, an
    exhausted wall clock and a killed process are all the event `Crash`. */
module ProviderJournal {
  import opened Basics

  datatype Key = Preflight | Primary(id: nat)

  type Metadata = nat

  datatype Status = Started | Included(provider: Metadata) | Failed

  datatype JournalRow = JournalRow(key: Key, status: Status)

  type States = map<Key, Status>

  /** A scheduled row; only the FH and MR conditions need the provider. */
  datatype Row = Row(id: nat, provider: bool)

  datatype ResultRow = ResultRow(id: nat, provider: bool, metadata: Option<Metadata>)

  const PRIMARY_CALL_LIMIT: nat := 36

  const SCHEDULED_ROWS: nat := 72

  /** The journal fold; a row after a terminal row for the same key rejects the journal. */
  function JournalStates(journal: seq<JournalRow>): Option<States> {
    if journal == [] then Some(map[]) else
      var row := journal[|journal| - 1];
      var before := JournalStates(journal[..|journal| - 1]);
      if before.None? then None
      else if row.key in before.value && !before.value[row.key].Started? then None
      else Some(before.value[row.key := row.status])
  }

  method ReadJournalStates(journal: seq<JournalRow>) returns (r: Option<States>)
    ensures r == JournalStates(journal)
  {
    var states: States := map[];
    for i := 0 to |journal|
      invariant JournalStates(journal[..i]) == Some(states)
    {
      assert journal[..i + 1][..i] == journal[..i];
      var row := journal[i];
      if row.key in states && !states[row.key].Started? {
        RejectionStays(journal, i + 1);
        return None;
      }
      states := states[row.key := row.status];
    }
    assert journal[..|journal|] == journal;
    return Some(states);
  }

  lemma {:induction false} RejectionStays(journal: seq<JournalRow>, n: nat)
    requires n <= |journal| && JournalStates(journal[..n]).None?
    ensures JournalStates(journal).None?
    decreases |journal| - n
  {
    if n == |journal| {
      assert journal[..n] == journal;
    } else {
      assert journal[..n + 1][..n] == journal[..n];
      RejectionStays(journal, n + 1);
    }
  }

  lemma {:induction false} JournalAppend(journal: seq<JournalRow>, row: JournalRow)
    requires JournalStates(journal).Some?
    requires row.key in JournalStates(journal).value ==> JournalStates(journal).value[row.key].Started?
    ensures JournalStates(journal + [row]) == Some(JournalStates(journal).value[row.key := row.status])
  {
    assert (journal + [row])[..|journal|] == journal;
  }

  /** No row follows a terminal row of its key. */
  ghost predicate Orderly(journal: seq<JournalRow>) {
    forall i, j | 0 <= i < j < |journal| && journal[i].key == journal[j].key :: journal[i].status.Started?
  }

  /** The `i`-th row is the last one of its key. */
  ghost predicate LastOfKey(journal: seq<JournalRow>, i: nat)
    requires i < |journal|
  {
    forall j | i < j < |journal| :: journal[j].key != journal[i].key
  }

  /** `states` holds the keys of the journal, each with the status of its last row. */
  ghost predicate LastStatuses(journal: seq<JournalRow>, states: States) {
    && (forall k :: k in states <==> exists i :: 0 <= i < |journal| && journal[i].key == k)
    && (forall i | 0 <= i < |journal| && LastOfKey(journal, i) ::
          journal[i].key in states && states[journal[i].key] == journal[i].status)
  }

  lemma {:induction false} LastRow(journal: seq<JournalRow>, i: nat) returns (j: nat)
    requires i < |journal|
    ensures i <= j < |journal| && journal[j].key == journal[i].key && LastOfKey(journal, j)
    decreases |journal| - i
  {
    j := i;
    if !LastOfKey(journal, i) {
      var next :| i < next < |journal| && journal[next].key == journal[i].key;
      j := LastRow(journal, next);
    }
  }

  lemma {:induction false} StatusesGrow(init: seq<JournalRow>, row: JournalRow, states: States)
    requires LastStatuses(init, states)
    ensures LastStatuses(init + [row], states[row.key := row.status])
  {
    var journal, states' := init + [row], states[row.key := row.status];
    forall k ensures k in states' <==> exists i :: 0 <= i < |journal| && journal[i].key == k {
      if k == row.key {
        assert journal[|init|].key == k;
      } else if k in states {
        var i :| 0 <= i < |init| && init[i].key == k;
        assert journal[i].key == k;
      }
    }
    forall i | 0 <= i < |journal| && LastOfKey(journal, i)
      ensures journal[i].key in states' && states'[journal[i].key] == journal[i].status
    {
      if i < |init| {
        assert journal[|init|].key != init[i].key;
        assert forall j | i < j < |init| :: journal[j] == init[j];
        assert LastOfKey(init, i);
      }
    }
  }

  /** A key whose last row is not terminal is the only kind that may get another row. */
  lemma {:induction false} OrderlyGrows(init: seq<JournalRow>, row: JournalRow, states: States)
    requires Orderly(init) && LastStatuses(init, states)
    ensures Orderly(init + [row]) <==> (row.key in states ==> states[row.key].Started?)
  {
    var journal := init + [row];
    if row.key in states {
      var i :| 0 <= i < |init| && init[i].key == row.key;
      var last := LastRow(init, i);
      assert journal[last].key == journal[|init|].key;
      if states[row.key].Started? {
        forall i, j | 0 <= i < j < |journal| && journal[i].key == journal[j].key ensures journal[i].status.Started? {
          if j < |init| {
            assert init[i].key == init[j].key;
          } else if i < last {
            assert init[i].key == init[last].key;
          } else {
            assert i == last;
          }
        }
      }
    } else {
      assert forall i | 0 <= i < |init| :: init[i].key != row.key;
      forall i, j | 0 <= i < j < |journal| && journal[i].key == journal[j].key ensures journal[i].status.Started? {
        assert j < |init| && init[i].key == init[j].key;
      }
    }
  }

  /** What the journal fold accepts and keeps: exactly the journals in which no row follows a
      terminal row of its key, each key with the status of its last row. */
  lemma {:induction false} JournalStatesAre(journal: seq<JournalRow>)
    ensures JournalStates(journal).Some? <==> Orderly(journal)
    ensures JournalStates(journal).Some? ==> LastStatuses(journal, JournalStates(journal).value)
  {
    if journal != [] {
      var init, row := journal[..|journal| - 1], journal[|journal| - 1];
      assert journal == init + [row];
      JournalStatesAre(init);
      if JournalStates(init).Some? {
        StatusesGrow(init, row, JournalStates(init).value);
        OrderlyGrows(init, row, JournalStates(init).value);
      } else if Orderly(journal) {
        OrderlyInit(init, row);
      }
    }
  }

  lemma {:induction false} OrderlyInit(init: seq<JournalRow>, row: JournalRow)
    requires Orderly(init + [row])
    ensures Orderly(init)
  {
    var journal := init + [row];
    forall i, j | 0 <= i < j < |init| && init[i].key == init[j].key ensures init[i].status.Started? {
      assert journal[i].key == journal[j].key;
    }
  }

  // ----- The protocol -----

  datatype Directory = Absent | Bare | Configured

  /** How a process ended. */
  datatype Stop =
    | Crashed
    | Returned
    | AlreadyExists
    | NoConfiguration
    | Orphaned(key: Key)
    | PreviouslyFailed(key: Key)
    | CallFailed(key: Key)
    | TerminalReplay
    | DuplicateRow
    | CallLimitReached
    | FirstNotRecorded
    | RowsIncomplete

  datatype Point =
    | Configure
    | CheckPreflight
    | LogStarted(key: Key)
    | Send(key: Key)
    | LogIncluded(key: Key, metadata: Metadata)
    | LogFailed(key: Key)
    | NoteFailure(key: Key)
    | LoadResults
    | NextRow
    | AppendResult(metadata: Metadata)
    | VerifyFirst
    | Finish

  /** The running process: where it is and the variables it keeps in memory. */
  datatype Process = Down | Up(at: Point, index: nat, states: States, completed: set<nat>, firstVerified: bool)

  datatype World = World(
    directory: Directory,
    journal: seq<JournalRow>,
    results: seq<ResultRow>,
    failures: seq<Key>,
    finished: bool,
    process: Process,
    sent: seq<Key>,
    stops: seq<Stop>)

  datatype Answer = Succeeds(metadata: Metadata) | Raises

  datatype Event = Launch(resume: bool) | Proceed(answer: Answer) | Crash

  const FRESH: World := World(Absent, [], [], [], false, Down, [], [])

  predicate Enabled(w: World, e: Event) {
    if e.Launch? then w.process.Down? else w.process.Up?
  }

  function Ends(w: World, stop: Stop): World {
    w.(process := Down, stops := w.stops + [stop])
  }

  function Boot(at: Point): Process {
    Up(at, 0, map[], {}, false)
  }

  function LaunchStep(w: World, resume: bool): World {
    if w.directory.Absent? then w.(directory := Bare, process := Boot(Configure))
    else if !resume then Ends(w, AlreadyExists)
    else if w.finished then Ends(w, Returned)
    else if w.directory.Bare? then Ends(w, NoConfiguration)
    else w.(process := Boot(CheckPreflight))
  }

  function Go(w: World, at: Point): World
    requires w.process.Up?
  {
    w.(process := w.process.(at := at))
  }

  /** `_terminal_provider_metadata` at a call site: skip, refuse, or make the call. */
  function OnState(w: World, states: States, key: Key, included: Metadata -> World, missing: World): World {
    if key !in states then missing
    else match states[key]
      case Included(metadata) => included(metadata)
      case Started => Ends(w, Orphaned(key))
      case Failed => Ends(w, PreviouslyFailed(key))
  }

  function StartedPrimaries(states: States): set<Key> {
    set k | k in states && k.Primary?
  }

  function NextRowStep(w: World, schedule: seq<Row>): World
    requires w.process.Up?
  {
    var p := w.process;
    if p.index >= |schedule| then Go(w, Finish) else
      var row := schedule[p.index];
      var onward := p.(index := p.index + 1);
      if row.id in p.completed then w.(process := onward)
      else if !row.provider then
        w.(results := w.results + [ResultRow(row.id, false, None)],
           process := onward.(completed := p.completed + {row.id}))
      else
        OnState(w, p.states, Primary(row.id),
                (metadata: Metadata) => Go(w, AppendResult(metadata)),
                if |StartedPrimaries(p.states)| >= PRIMARY_CALL_LIMIT then Ends(w, CallLimitReached)
                else Go(w, LogStarted(Primary(row.id))))
  }

  function ResultIds(results: seq<ResultRow>): set<nat> {
    set r | r in results :: r.id
  }

  function ProviderResults(results: seq<ResultRow>): nat {
    if results == [] then 0
    else ProviderResults(results[..|results| - 1]) + if results[|results| - 1].provider then 1 else 0
  }

  predicate RowsComplete(results: seq<ResultRow>) {
    && |results| == SCHEDULED_ROWS && |ResultIds(results)| == SCHEDULED_ROWS
    && ProviderResults(results) == PRIMARY_CALL_LIMIT
    && forall r | r in results && r.provider :: r.metadata.Some?
  }

  function ProceedStep(w: World, schedule: seq<Row>, answer: Answer): World
    requires w.process.Up?
  {
    var p := w.process;
    match p.at
    case Configure => Go(w.(directory := Configured), CheckPreflight)
    case CheckPreflight =>
      (match JournalStates(w.journal)
       case None => Ends(w, TerminalReplay)
       case Some(states) =>
         OnState(w, states, Preflight, (_: Metadata) => Go(w, LoadResults), Go(w, LogStarted(Preflight))))
    case LogStarted(key) => Go(w.(journal := w.journal + [JournalRow(key, Started)]), Send(key))
    case Send(key) =>
      Go(w.(sent := w.sent + [key]),
         match answer
         case Succeeds(metadata) => LogIncluded(key, metadata)
         case Raises => LogFailed(key))
    case LogIncluded(key, metadata) =>
      var journal := w.journal + [JournalRow(key, Included(metadata))];
      var w' := w.(journal := journal);
      if key.Preflight? then Go(w', LoadResults)
      else (match JournalStates(journal)
            case None => Ends(w', TerminalReplay)
            case Some(states) => w'.(process := p.(at := AppendResult(metadata), states := states)))
    case LogFailed(key) => Go(w.(journal := w.journal + [JournalRow(key, Failed)]), NoteFailure(key))
    case NoteFailure(key) => Ends(w.(failures := w.failures + [key]), CallFailed(key))
    case LoadResults =>
      if |ResultIds(w.results)| != |w.results| then Ends(w, DuplicateRow)
      else (match JournalStates(w.journal)
            case None => Ends(w, TerminalReplay)
            case Some(states) =>
              w.(process := Up(NextRow, 0, states, ResultIds(w.results), exists r :: r in w.results && r.provider)))
    case NextRow => NextRowStep(w, schedule)
    case AppendResult(metadata) =>
      if p.index >= |schedule| then Go(w, Finish) else
      var id := schedule[p.index].id;
      var w' := w.(results := w.results + [ResultRow(id, true, Some(metadata))]);
      var p' := p.(completed := p.completed + {id});
      w'.(process := if p.firstVerified then p'.(at := NextRow, index := p.index + 1) else p'.(at := VerifyFirst))
    case VerifyFirst =>
      if p.index < |schedule| && w.results != []
         && var last := w.results[|w.results| - 1]; last.id == schedule[p.index].id && last.metadata.Some?
      then w.(process := p.(at := NextRow, index := p.index + 1, firstVerified := true))
      else Ends(w, FirstNotRecorded)
    case Finish =>
      if RowsComplete(w.results) then Ends(w.(finished := true), Returned) else Ends(w, RowsIncomplete)
  }

  function Step(w: World, schedule: seq<Row>, e: Event): World
    requires Enabled(w, e)
  {
    match e
    case Launch(resume) => LaunchStep(w, resume)
    case Proceed(answer) => ProceedStep(w, schedule, answer)
    case Crash => Ends(w, Crashed)
  }

  predicate Possible(w: World, schedule: seq<Row>, history: seq<Event>)
    decreases |history|
  {
    history == [] || (Enabled(w, history[0]) && Possible(Step(w, schedule, history[0]), schedule, history[1..]))
  }

  function After(w: World, schedule: seq<Row>, history: seq<Event>): World
    requires Possible(w, schedule, history)
    decreases |history|
  {
    if history == [] then w else After(Step(w, schedule, history[0]), schedule, history[1..])
  }

  // ----- The schedule -----

  function ProviderIds(schedule: seq<Row>): set<nat> {
    set r | r in schedule && r.provider :: r.id
  }

  /** What `_build_live_material` checks before any primary call, for rows with distinct keys as the
      offline builder makes them. */
  ghost predicate LiveMaterial(schedule: seq<Row>) {
    && |schedule| == SCHEDULED_ROWS
    && (forall i, j | 0 <= i < j < |schedule| :: schedule[i].id != schedule[j].id)
    && |ProviderIds(schedule)| == PRIMARY_CALL_LIMIT
  }
}
