/** The error counters of a trajectory, against the runs of wrong observations they stand for. */
module SessionCounters {
  import opened Basics

  type Field = string

  /** One expected field in one session, and whether the configuration had it right. */
  datatype Observation = Observation(name: Field, correct: bool)

  // ----- One field over time -----

  /** What was seen of one field, in order. */
  function Column(seen: seq<Observation>, name: Field): seq<bool> {
    if seen == [] then [] else
      var rest, last := Column(seen[..|seen| - 1], name), seen[|seen| - 1];
      if last.name == name then rest + [last.correct] else rest
  }

  predicate EndsWrong(column: seq<bool>) {
    column != [] && !column[|column| - 1]
  }

  function Wrong(column: seq<bool>): nat {
    if column == [] then 0
    else Wrong(column[..|column| - 1]) + if column[|column| - 1] then 0 else 1
  }

  /** Maximal runs of wrong observations, each counted where it starts. */
  function WrongRuns(column: seq<bool>): nat {
    if column == [] then 0 else
      var before := column[..|column| - 1];
      WrongRuns(before) + if !column[|column| - 1] && !EndsWrong(before) then 1 else 0
  }

  /** Wrong runs that a correct observation ended. */
  function EndedRuns(column: seq<bool>): nat {
    if column == [] then 0 else
      var before := column[..|column| - 1];
      EndedRuns(before) + if column[|column| - 1] && EndsWrong(before) then 1 else 0
  }

  /** The wrong observations at the end. */
  function Trailing(column: seq<bool>): nat {
    if EndsWrong(column) then 1 + Trailing(column[..|column| - 1]) else 0
  }

  lemma {:induction false} ColumnGrows(column: seq<bool>, correct: bool)
    ensures var next := column + [correct];
      && EndsWrong(next) == !correct
      && Wrong(next) == Wrong(column) + (if correct then 0 else 1)
      && WrongRuns(next) == WrongRuns(column) + (if !correct && !EndsWrong(column) then 1 else 0)
      && EndedRuns(next) == EndedRuns(column) + (if correct && EndsWrong(column) then 1 else 0)
      && Trailing(next) == (if correct then 0 else 1 + Trailing(column))
  {
    assert (column + [correct])[..|column|] == column;
  }

  predicate IsWrong(column: seq<bool>, i: nat) {
    i < |column| && !column[i]
  }

  /** A maximal run of wrong observations starts at `i`. */
  predicate Starts(column: seq<bool>, i: nat) {
    IsWrong(column, i) && (i == 0 || column[i - 1])
  }

  /** A correct observation at `i` follows a wrong one. */
  predicate Ends(column: seq<bool>, i: nat) {
    i < |column| && column[i] && 0 < i && !column[i - 1]
  }

  ghost function WrongAt(column: seq<bool>): set<nat> {
    set i: nat | i < |column| && IsWrong(column, i)
  }

  ghost function StartsAt(column: seq<bool>): set<nat> {
    set i: nat | i < |column| && Starts(column, i)
  }

  ghost function EndsAt(column: seq<bool>): set<nat> {
    set i: nat | i < |column| && Ends(column, i)
  }

  lemma {:induction false} PlaceAdded(before: set<nat>, places: set<nat>, n: nat)
    requires forall i :: i in before <==> i in places && i < n
    requires forall i | i in places :: i <= n
    ensures |places| == |before| + if n in places then 1 else 0
  {
    assert places == before + if n in places then {n} else {};
  }

  lemma {:induction false} WrongIs(column: seq<bool>)
    ensures Wrong(column) == |WrongAt(column)|
  {
    if column != [] {
      var n := |column| - 1;
      var before := column[..n];
      WrongIs(before);
      assert forall i: nat | i < n :: IsWrong(before, i) <==> IsWrong(column, i);
      PlaceAdded(WrongAt(before), WrongAt(column), n);
    }
  }

  lemma {:induction false} WrongRunsAre(column: seq<bool>)
    ensures WrongRuns(column) == |StartsAt(column)|
  {
    if column != [] {
      var n := |column| - 1;
      var before := column[..n];
      WrongRunsAre(before);
      assert forall i: nat | i < n :: Starts(before, i) <==> Starts(column, i);
      PlaceAdded(StartsAt(before), StartsAt(column), n);
    }
  }

  lemma {:induction false} EndedRunsAre(column: seq<bool>)
    ensures EndedRuns(column) == |EndsAt(column)|
  {
    if column != [] {
      var n := |column| - 1;
      var before := column[..n];
      EndedRunsAre(before);
      assert forall i: nat | i < n :: Ends(before, i) <==> Ends(column, i);
      PlaceAdded(EndsAt(before), EndsAt(column), n);
    }
  }

  /** A column keeps the observations of one field, all of them and in order. */
  lemma {:induction false} ColumnIs(seen: seq<Observation>, name: Field) returns (at: seq<nat>)
    ensures |at| == |Column(seen, name)| && forall j, k | 0 <= j < k < |at| :: at[j] < at[k]
    ensures forall i :: i in at <==> 0 <= i < |seen| && seen[i].name == name
    ensures forall k | 0 <= k < |at| :: at[k] in at && Column(seen, name)[k] == seen[at[k]].correct
  {
    at := [];
    if seen != [] {
      var n := |seen| - 1;
      at := ColumnIs(seen[..n], name);
      assert forall k | 0 <= k < |at| :: at[k] < n;
      if seen[n].name == name {
        at := at + [n];
      }
    }
  }

  /** Every wrong run was ended by a correct value or is still going. */
  lemma {:induction false} RunsEndOrLast(column: seq<bool>)
    ensures WrongRuns(column) == EndedRuns(column) + if EndsWrong(column) then 1 else 0
    ensures WrongRuns(column) <= Wrong(column)
  {
    if column != [] {
      RunsEndOrLast(column[..|column| - 1]);
    }
  }

  // ----- All fields -----

  datatype Totals = Totals(wrong: nat, wrongRuns: nat, endedRuns: nat, wrongAtEnd: nat)

  function ColumnTotals(column: seq<bool>): Totals {
    Totals(Wrong(column), WrongRuns(column), EndedRuns(column), if EndsWrong(column) then 1 else 0)
  }

  function Add(a: Totals, b: Totals): Totals {
    Totals(a.wrong + b.wrong, a.wrongRuns + b.wrongRuns, a.endedRuns + b.endedRuns, a.wrongAtEnd + b.wrongAtEnd)
  }

  /** Summed over the given fields. */
  function Sum(seen: seq<Observation>, names: seq<Field>): Totals {
    if names == [] then Totals(0, 0, 0, 0)
    else Add(ColumnTotals(Column(seen, names[0])), Sum(seen, names[1..]))
  }

  ghost function WrongOf(seen: seq<Observation>, name: Field): nat {
    |WrongAt(Column(seen, name))|
  }

  ghost function StartedOf(seen: seq<Observation>, name: Field): nat {
    |StartsAt(Column(seen, name))|
  }

  ghost function EndedOf(seen: seq<Observation>, name: Field): nat {
    |EndsAt(Column(seen, name))|
  }

  lemma {:induction false} SumHead(seen: seq<Observation>, names: seq<Field>)
    requires names != []
    ensures var all, rest := Sum(seen, names), Sum(seen, names[1..]);
      && all.wrong == WrongOf(seen, names[0]) + rest.wrong
      && all.wrongRuns == StartedOf(seen, names[0]) + rest.wrongRuns
      && all.endedRuns == EndedOf(seen, names[0]) + rest.endedRuns
  {
    WrongIs(Column(seen, names[0]));
    WrongRunsAre(Column(seen, names[0]));
    EndedRunsAre(Column(seen, names[0]));
  }

  /** The sums count the wrong observations, the starts and the ends of their runs, field by field. */
  lemma {:induction false} SumIs(seen: seq<Observation>, names: seq<Field>,
      wrong: Field -> nat, started: Field -> nat, ended: Field -> nat)
    requires forall n: Field ::
      wrong(n) == WrongOf(seen, n) && started(n) == StartedOf(seen, n) && ended(n) == EndedOf(seen, n)
    ensures Sum(seen, names).wrong == Total(names, wrong)
    ensures Sum(seen, names).wrongRuns == Total(names, started)
    ensures Sum(seen, names).endedRuns == Total(names, ended)
  {
    if names == [] {
      assert Total(names, wrong) == 0;
      assert Total(names, started) == 0;
      assert Total(names, ended) == 0;
      assert Sum(seen, names).wrong == 0;
    } else {
      SumHead(seen, names);
      SumIs(seen, names[1..], wrong, started, ended);
      assert Total(names, wrong) == wrong(names[0]) + Total(names[1..], wrong);
    }
  }

  lemma {:induction false} ColumnStep(seen: seq<Observation>, o: Observation, name: Field)
    ensures Column(seen + [o], name) == if o.name == name then Column(seen, name) + [o.correct] else Column(seen, name)
  {
    assert (seen + [o])[..|seen|] == seen;
  }

  lemma {:induction false} SumUntouched(seen: seq<Observation>, o: Observation, names: seq<Field>)
    requires o.name !in names
    ensures Sum(seen + [o], names) == Sum(seen, names)
  {
    if names != [] {
      ColumnStep(seen, o, names[0]);
      SumUntouched(seen, o, names[1..]);
    }
  }

  /** An observation moves the sums by what it does to its own field. */
  lemma {:induction false} SumStep(seen: seq<Observation>, o: Observation, names: seq<Field>)
    requires Distinct(names) && o.name in names
    ensures var before, after, ended := Sum(seen, names), Sum(seen + [o], names), EndsWrong(Column(seen, o.name));
      && after.wrong == before.wrong + (if o.correct then 0 else 1)
      && after.wrongRuns == before.wrongRuns + (if !o.correct && !ended then 1 else 0)
      && after.endedRuns == before.endedRuns + (if o.correct && ended then 1 else 0)
  {
    ColumnStep(seen, o, names[0]);
    if names[0] == o.name {
      ColumnGrows(Column(seen, o.name), o.correct);
      SumUntouched(seen, o, names[1..]);
    } else {
      SumStep(seen, o, names[1..]);
    }
  }

  lemma {:induction false} SumBalance(seen: seq<Observation>, names: seq<Field>)
    ensures Sum(seen, names).wrongRuns == Sum(seen, names).endedRuns + Sum(seen, names).wrongAtEnd
    ensures Sum(seen, names).wrongRuns <= Sum(seen, names).wrong
  {
    if names != [] {
      RunsEndOrLast(Column(seen, names[0]));
      SumBalance(seen, names[1..]);
    }
  }

  function Flatten(sessions: seq<seq<Observation>>): seq<Observation> {
    if sessions == [] then [] else Flatten(sessions[..|sessions| - 1]) + sessions[|sessions| - 1]
  }

  /** `incorrect_runs`, where an absent field counts zero. */
  function RunOf(runs: map<Field, nat>, name: Field): nat {
    if name in runs then runs[name] else 0
  }

  ghost predicate Tracks(runs: map<Field, nat>, seen: seq<Observation>) {
    forall n: Field :: RunOf(runs, n) == Trailing(Column(seen, n))
  }

  lemma {:induction false} TracksStep(runs: map<Field, nat>, seen: seq<Observation>, o: Observation)
    requires Tracks(runs, seen)
    ensures Tracks(runs[o.name := if o.correct then 0 else RunOf(runs, o.name) + 1], seen + [o])
    ensures RunOf(runs, o.name) > 0 <==> EndsWrong(Column(seen, o.name))
  {
    var runs' := runs[o.name := if o.correct then 0 else RunOf(runs, o.name) + 1];
    assert RunOf(runs, o.name) == Trailing(Column(seen, o.name));
    forall n: Field ensures RunOf(runs', n) == Trailing(Column(seen + [o], n)) {
      ColumnStep(seen, o, n);
      ColumnGrows(Column(seen, n), o.correct);
      assert RunOf(runs, n) == Trailing(Column(seen, n));
    }
  }

  ghost predicate Counted(seen: seq<Observation>, names: seq<Field>, repeatedErrors: nat, selfCorrections: nat) {
    var t := Sum(seen, names);
    t.wrong == repeatedErrors + t.wrongRuns && selfCorrections == t.endedRuns
  }

  lemma {:induction false} StartSums(seen: seq<Observation>, names: seq<Field>)
    requires seen == []
    ensures Sum(seen, names) == Totals(0, 0, 0, 0)
  {
    if names != [] {
      StartSums(seen, names[1..]);
      StartColumn(Column(seen, names[0]));
    }
  }

  lemma StartColumn(column: seq<bool>)
    requires column == []
    ensures ColumnTotals(column) == Totals(0, 0, 0, 0)
  {}

  lemma {:induction false} CountedStep(seen: seq<Observation>, o: Observation, names: seq<Field>,
      runs: map<Field, nat>, repeatedErrors: nat, selfCorrections: nat)
    requires Distinct(names) && o.name in names
    requires Counted(seen, names, repeatedErrors, selfCorrections) && Tracks(runs, seen)
    ensures Counted(seen + [o], names,
                    repeatedErrors + (if !o.correct && RunOf(runs, o.name) > 0 then 1 else 0),
                    selfCorrections + (if o.correct && RunOf(runs, o.name) > 0 then 1 else 0))
  {
    SumStep(seen, o, names);
    TracksStep(runs, seen, o);
  }

  /** One field of one session: a wrong field that was wrong before is a repeated error, a right
      one that was wrong before is a self-correction. */
  method Observe(o: Observation, repeatedErrors: nat, selfCorrections: nat, incorrectRuns: map<Field, nat>,
                 ghost seen: seq<Observation>, ghost names: seq<Field>)
    returns (repeatedErrors': nat, selfCorrections': nat, incorrectRuns': map<Field, nat>)
    requires Distinct(names) && o.name in names
    requires Counted(seen, names, repeatedErrors, selfCorrections) && Tracks(incorrectRuns, seen)
    ensures Counted(seen + [o], names, repeatedErrors', selfCorrections') && Tracks(incorrectRuns', seen + [o])
  {
    CountedStep(seen, o, names, incorrectRuns, repeatedErrors, selfCorrections);
    TracksStep(incorrectRuns, seen, o);
    repeatedErrors', selfCorrections' := repeatedErrors, selfCorrections;
    var run := RunOf(incorrectRuns, o.name);
    if o.correct {
      if run > 0 {
        selfCorrections' := selfCorrections + 1;
      }
      incorrectRuns' := incorrectRuns[o.name := 0];
    } else {
      if run > 0 {
        repeatedErrors' := repeatedErrors + 1;
      }
      incorrectRuns' := incorrectRuns[o.name := run + 1];
    }
  }

  /** The counters of a trajectory.  `names` lists every field seen. */
  method CountErrors(sessions: seq<seq<Observation>>, ghost names: seq<Field>)
    returns (repeatedErrors: nat, selfCorrections: nat, incorrectRuns: map<Field, nat>)
    requires Distinct(names) && forall o | o in Flatten(sessions) :: o.name in names
    ensures Tracks(incorrectRuns, Flatten(sessions))
    ensures Counted(Flatten(sessions), names, repeatedErrors, selfCorrections)
  {
    repeatedErrors, selfCorrections, incorrectRuns := 0, 0, map[];
    StartSums([], names);
    StartTracks();
    for i := 0 to |sessions|
      invariant Tracks(incorrectRuns, Flatten(sessions[..i]))
      invariant Counted(Flatten(sessions[..i]), names, repeatedErrors, selfCorrections)
    {
      FlattenStep(sessions, i);
      forall k | 0 <= k < |sessions[i]| ensures sessions[i][k].name in names {
        FlattenMember(sessions, i, k);
      }
      repeatedErrors, selfCorrections, incorrectRuns :=
        CountSession(sessions[i], repeatedErrors, selfCorrections, incorrectRuns, Flatten(sessions[..i]), names);
    }
    assert sessions[..|sessions|] == sessions;
  }

  lemma {:induction false} StartTracks()
    ensures Tracks(map[], [])
  {
    forall n: Field ensures RunOf(map[], n) == Trailing(Column([], n)) {
      assert Column([], n) == [];
    }
  }

  method CountSession(session: seq<Observation>, repeatedErrors: nat, selfCorrections: nat,
      incorrectRuns: map<Field, nat>,
                      ghost seen: seq<Observation>, ghost names: seq<Field>)
    returns (repeatedErrors': nat, selfCorrections': nat, incorrectRuns': map<Field, nat>)
    requires Distinct(names) && forall k | 0 <= k < |session| :: session[k].name in names
    requires Counted(seen, names, repeatedErrors, selfCorrections) && Tracks(incorrectRuns, seen)
    ensures Counted(seen + session, names, repeatedErrors', selfCorrections') && Tracks(incorrectRuns', seen + session)
  {
    repeatedErrors', selfCorrections', incorrectRuns' := repeatedErrors, selfCorrections, incorrectRuns;
    ghost var now := seen;
    for k := 0 to |session|
      invariant now == seen + session[..k]
      invariant Counted(now, names, repeatedErrors', selfCorrections')
      invariant Tracks(incorrectRuns', now)
    {
      repeatedErrors', selfCorrections', incorrectRuns' :=
        Observe(session[k], repeatedErrors', selfCorrections', incorrectRuns', now, names);
      PrefixGrows(seen, session, k);
      now := now + [session[k]];
    }
    assert session[..|session|] == session;
  }

  lemma PrefixGrows(seen: seq<Observation>, session: seq<Observation>, k: nat)
    requires k < |session|
    ensures (seen + session[..k]) + [session[k]] == seen + session[..k + 1]
  {}

  /** What the counters say: repeated errors are wrong observations beyond the first of each
      maximal run, self-corrections are runs that a correct value ended, and every wrong
      observation is one of these or belongs to a field still wrong at the end. */
  lemma {:induction false} CountersRefineRuns(seen: seq<Observation>, names: seq<Field>, repeatedErrors: nat,
      selfCorrections: nat)
    requires Counted(seen, names, repeatedErrors, selfCorrections)
    ensures var t := Sum(seen, names);
      && repeatedErrors == t.wrong - t.wrongRuns
      && selfCorrections == t.wrongRuns - t.wrongAtEnd
      && t.wrong == repeatedErrors + selfCorrections + t.wrongAtEnd
  {
    SumBalance(seen, names);
  }

  lemma {:induction false} FlattenStep(sessions: seq<seq<Observation>>, i: nat)
    requires i < |sessions|
    ensures Flatten(sessions[..i + 1]) == Flatten(sessions[..i]) + sessions[i]
  {
    assert sessions[..i + 1][..i] == sessions[..i];
  }

  lemma {:induction false} FlattenMember(sessions: seq<seq<Observation>>, i: nat, k: nat)
    requires i < |sessions| && k < |sessions[i]|
    ensures sessions[i][k] in Flatten(sessions)
    decreases |sessions|
  {
    if i < |sessions| - 1 {
      FlattenMember(sessions[..|sessions| - 1], i, k);
    }
  }
}
