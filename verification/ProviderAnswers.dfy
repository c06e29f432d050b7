/** What the provider answered, against what the run directory records: the journal and the result
    file hold the answers that were given, and a run directory can be completed exactly when no call
    failed or was orphaned. */
module ProviderAnswers {
  import opened Basics
  import opened ProviderJournal
  import opened ProviderJournalLaws

  // ----- Answers on record -----

  /** The calls sent in a history, each with the answer it got, in order. */
  function Answered(w: World, schedule: seq<Row>, history: seq<Event>): seq<(Key, Answer)>
    requires Possible(w, schedule, history)
    decreases |history|
  {
    if history == [] then [] else
      var e, rest := history[0], Answered(Step(w, schedule, history[0]), schedule, history[1..]);
      if e.Proceed? && w.process.at.Send? then [(w.process.at.key, e.answer)] + rest else rest
  }

  /** A terminal row repeats the answer its call got. */
  ghost predicate Backed(row: JournalRow, said: seq<(Key, Answer)>) {
    match row.status
    case Started => true
    case Included(metadata) => (row.key, Succeeds(metadata)) in said
    case Failed => (row.key, Raises) in said
  }

  ghost predicate AboutTo(w: World, said: seq<(Key, Answer)>) {
    w.process.Up? && Logging(w.process.at).Some? ==> Backed(Logging(w.process.at).value, said)
  }

  ghost predicate Told(w: World, said: seq<(Key, Answer)>) {
    && |said| == |w.sent| && (forall i | 0 <= i < |said| :: said[i].0 == w.sent[i])
    && (forall row | row in w.journal :: Backed(row, said))
    && AboutTo(w, said)
  }

  function SaidIn(w: World, e: Event): seq<(Key, Answer)>
    requires Enabled(w, e)
  {
    if e.Proceed? && w.process.at.Send? then [(w.process.at.key, e.answer)] else []
  }

  lemma BackedLater(row: JournalRow, said: seq<(Key, Answer)>, more: seq<(Key, Answer)>)
    requires Backed(row, said)
    ensures Backed(row, said + more)
  {}

  /** Where a process is about to log after a step, it logs what it was just told. */
  lemma {:induction false} LogsWhatItHears(w: World, schedule: seq<Row>, e: Event)
    requires Enabled(w, e)
    ensures var w' := Step(w, schedule, e);
      w'.process.Up? && Logging(w'.process.at).Some? && !Logging(w'.process.at).value.status.Started? ==>
        && e.Proceed? && w.process.at.Send?
        && Backed(Logging(w'.process.at).value, [(w.process.at.key, e.answer)])
  {
    if e.Proceed? && w.process.at.NextRow? {
      NextRowLogs(w, schedule);
    } else if e.Proceed? && w.process.at.Send? {
      assert Step(w, schedule, e).process.at
        == if e.answer.Succeeds? then LogIncluded(w.process.at.key, e.answer.metadata) else LogFailed(w.process.at.key);
    }
  }

  lemma NextRowLogs(w: World, schedule: seq<Row>)
    requires w.process.Up? && w.process.at.NextRow?
    ensures var w' := NextRowStep(w, schedule);
      w'.process.Up? && Logging(w'.process.at).Some? ==> Logging(w'.process.at).value.status.Started?
  {}

  lemma {:induction false} StepTells(w: World, schedule: seq<Row>, e: Event, said: seq<(Key, Answer)>)
    requires Enabled(w, e) && Told(w, said)
    ensures Told(Step(w, schedule, e), said + SaidIn(w, e))
  {
    var w', more := Step(w, schedule, e), SaidIn(w, e);
    StepWrites(w, schedule, e);
    LogsWhatItHears(w, schedule, e);
    forall row | row in w'.journal ensures Backed(row, said + more) {
      if row in w.journal {
        BackedLater(row, said, more);
      } else {
        assert row == Logging(w.process.at).value;
        BackedLater(row, said, more);
      }
    }
    assert AboutTo(w', said + more);
  }

  lemma {:induction false} HistoryTells(w: World, schedule: seq<Row>, history: seq<Event>, said: seq<(Key, Answer)>)
    requires Possible(w, schedule, history) && Told(w, said)
    ensures Told(After(w, schedule, history), said + Answered(w, schedule, history))
    decreases |history|
  {
    if history == [] {
      assert said + [] == said;
    } else {
      var e := history[0];
      StepTells(w, schedule, e, said);
      HistoryTells(Step(w, schedule, e), schedule, history[1..], said + SaidIn(w, e));
      Regroup(said, SaidIn(w, e), Answered(Step(w, schedule, e), schedule, history[1..]));
    }
  }

  lemma Regroup<T>(a: seq<T>, b: seq<T>, c: seq<T>)
    ensures (a + b) + c == a + (b + c)
    ensures [] + c == c
  {}

  lemma {:induction false} ReachedTold(w: World, schedule: seq<Row>, history: seq<Event>)
    requires LiveMaterial(schedule) && Reached(w, schedule, history)
    ensures Told(w, Answered(FRESH, schedule, history)) && Invariant(w, schedule)
  {
    ReachedHolds(w, schedule, history);
    HistoryTells(FRESH, schedule, history, []);
    Regroup<(Key, Answer)>([], [], Answered(FRESH, schedule, history));
  }

  /** Every key's last row stands in the journal. */
  lemma {:induction false} StateHasRow(journal: seq<JournalRow>, key: Key)
    requires JournalStates(journal).Some? && key in JournalStates(journal).value
    ensures JournalRow(key, JournalStates(journal).value[key]) in journal
  {
    JournalStatesAre(journal);
    var i :| 0 <= i < |journal| && journal[i].key == key;
    var last := LastRow(journal, i);
    assert journal[last] == JournalRow(key, JournalStates(journal).value[key]);
  }

  /** The journal never says anything the provider did not: in every history, each call that was sent
      has one answer, an included row carries the metadata of that answer, and a failed row stands for
      a call that raised. */
  lemma {:induction false} JournalRepeatsAnswers(w: World, schedule: seq<Row>, history: seq<Event>)
    requires LiveMaterial(schedule) && Reached(w, schedule, history)
    ensures var said := Answered(FRESH, schedule, history);
      && |said| == |w.sent| && Distinct(w.sent) && (forall i | 0 <= i < |said| :: said[i].0 == w.sent[i])
      && (forall row | row in w.journal && row.status.Included? :: (row.key, Succeeds(row.status.provider)) in said)
      && (forall row | row in w.journal && row.status.Failed? :: (row.key, Raises) in said)
  {
    ReachedTold(w, schedule, history);
    forall row | row in w.journal ensures Backed(row, Answered(FRESH, schedule, history)) {}
  }

  /** And what the journal says of a call that was sent is its answer, or nothing yet. */
  lemma {:induction false} AnswersReachJournal(w: World, schedule: seq<Row>, history: seq<Event>, i: nat)
    requires LiveMaterial(schedule) && Reached(w, schedule, history)
    requires i < |Answered(FRESH, schedule, history)|
    ensures var (key, answer) := Answered(FRESH, schedule, history)[i];
      && key in StatesOf(w)
      && (StatesOf(w)[key].Included? ==> answer == Succeeds(StatesOf(w)[key].provider))
      && (StatesOf(w)[key].Failed? ==> answer == Raises)
  {
    var said := Answered(FRESH, schedule, history);
    var key := said[i].0;
    ReachedTold(w, schedule, history);
    assert w.sent[i] in w.sent;
    StateHasRow(w.journal, key);
    var row := JournalRow(key, StatesOf(w)[key]);
    assert Backed(row, said);
    if !row.status.Started? {
      var told := if row.status.Included? then Succeeds(row.status.provider) else Raises;
      var j :| 0 <= j < |said| && said[j] == (key, told);
      assert w.sent[j] == w.sent[i];
    }
  }

  /** Each provider row of the result file carries the metadata the provider gave for that very
      call. */
  lemma {:induction false} ResultsCarryAnswers(w: World, schedule: seq<Row>, history: seq<Event>, j: nat)
    requires LiveMaterial(schedule) && Reached(w, schedule, history)
    requires j < |w.results| && w.results[j].provider
    ensures w.results[j].metadata.Some?
    ensures (Primary(w.results[j].id), Succeeds(w.results[j].metadata.value)) in Answered(FRESH, schedule, history)
  {
    ReachedTold(w, schedule, history);
    assert RowSound(w, schedule[j], w.results[j]);
    var key := Primary(w.results[j].id);
    StateHasRow(w.journal, key);
    assert Backed(JournalRow(key, StatesOf(w)[key]), Answered(FRESH, schedule, history));
  }
}
