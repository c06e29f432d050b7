/** The background note judge: batches under a queue, several limits at once, a cache that stops
    it from asking again, and the priming loop that uses the same core. */
module NoteJudge {
  import opened Basics
  import opened NoteVerdicts

  const JUDGE_IN_FLIGHT: nat := 4

  const MAXIMUM_QUEUED_NOTES: nat := 256

  datatype Tally = Tally(asked: nat, answered: nat, failed: nat, blocked: bool)

  const NO_TALLY := Tally(0, 0, 0, false)

  function Plus(a: Tally, b: Tally): Tally {
    Tally(a.asked + b.asked, a.answered + b.answered, a.failed + b.failed, a.blocked || b.blocked)
  }

  function Answers(asks: seq<Ask>): nat {
    if asks == [] then 0
    else Answers(asks[..|asks| - 1]) + if asks[|asks| - 1].reply.Answered? then 1 else 0
  }

  function Blocks(asks: seq<Ask>): nat {
    if asks == [] then 0
    else Blocks(asks[..|asks| - 1]) + if asks[|asks| - 1].reply.Blocked? then 1 else 0
  }

  /** What a run of asks adds up to: each was answered, failed, or blocked by policy. */
  ghost predicate Tallies(t: Tally, asks: seq<Ask>) {
    && t.asked == |asks| == t.answered + t.failed + Blocks(asks)
    && t.answered == Answers(asks)
    && (t.blocked <==> Blocks(asks) > 0)
  }

  method NoTally() returns (t: Tally)
    ensures Tallies(t, [])
  {
    t := NO_TALLY;
  }

  lemma {:induction false} CountConcat(a: seq<Ask>, b: seq<Ask>)
    ensures Answers(a + b) == Answers(a) + Answers(b)
    ensures Blocks(a + b) == Blocks(a) + Blocks(b)
  {
    if b == [] {
      assert a + b == a;
    } else {
      assert (a + b)[..|a + b| - 1] == a + b[..|b| - 1];
      CountConcat(a, b[..|b| - 1]);
    }
  }

  lemma {:induction false} TalliesConcat(t: Tally, a: seq<Ask>, u: Tally, b: seq<Ask>)
    requires Tallies(t, a) && Tallies(u, b)
    ensures Tallies(Plus(t, u), a + b)
  {
    CountConcat(a, b);
  }

  lemma {:induction false} RecordedCount(batch: seq<Ask>)
    ensures |Recordable(batch)| == |batch| - Blocks(batch)
    ensures AnsweredIn(Recordable(batch)) == Answers(batch) <= |Recordable(batch)|
  {
    if batch != [] {
      var init, last := batch[..|batch| - 1], batch[|batch| - 1];
      RecordedCount(init);
      if !last.reply.Blocked? {
        assert Recordable(batch)[..|Recordable(init)|] == Recordable(init);
      }
    }
  }

  function AnsweredIn(recorded: seq<(Key, Option<real>)>): nat {
    if recorded == [] then 0
    else AnsweredIn(recorded[..|recorded| - 1]) + if recorded[|recorded| - 1].1.Some? then 1 else 0
  }

  method CountReplies(batch: seq<Ask>, recorded: seq<(Key, Option<real>)>) returns (t: Tally)
    requires recorded == Recordable(batch)
    ensures Tallies(t, batch)
  {
    RecordedCount(batch);
    var answered := AnsweredIn(recorded);
    t := Tally(|batch|, answered, |recorded| - answered, |recorded| < |batch|);
  }

  // ----- The queue -----

  datatype Note = Note(item: nat, scope: nat)

  function AddNew(notes: seq<Note>, added: seq<Note>): seq<Note> {
    if added == [] then notes else
      var before := AddNew(notes, added[..|added| - 1]);
      if added[|added| - 1] in before then before else before + [added[|added| - 1]]
  }

  lemma {:induction false} AddNewNoRepeat(notes: seq<Note>, added: seq<Note>)
    requires Distinct(notes)
    ensures Distinct(AddNew(notes, added))
    ensures forall n :: n in AddNew(notes, added) <==> n in notes || n in added
  {
    if added != [] {
      AddNewNoRepeat(notes, added[..|added| - 1]);
      assert added == added[..|added| - 1] + [added[|added| - 1]];
    }
  }

  /** New notes join at the end, each once, in their order. */
  lemma {:induction false} AddNewInOrder(notes: seq<Note>, a: seq<Note>, x: Note, b: seq<Note>)
    ensures AddNew(notes, [x]) == if x in notes then notes else notes + [x]
    ensures AddNew(notes, a + b) == AddNew(AddNew(notes, a), b)
    ensures notes <= AddNew(notes, a)
  {
    AddOne(notes, x);
    KeepsOld(notes, a);
    if b == [] {
      assert a + b == a;
    } else {
      assert (a + b)[..|a + b| - 1] == a + b[..|b| - 1];
      AddNewInOrder(notes, a, x, b[..|b| - 1]);
    }
  }

  lemma {:induction false} AddOne(notes: seq<Note>, x: Note)
    ensures AddNew(notes, [x]) == if x in notes then notes else notes + [x]
  {
    assert [x][..0] == [];
  }

  lemma {:induction false} KeepsOld(notes: seq<Note>, added: seq<Note>)
    ensures notes <= AddNew(notes, added)
  {
    if added != [] {
      KeepsOld(notes, added[..|added| - 1]);
    }
  }

  class NoteQueue {
    var notes: seq<Note>

    ghost predicate Valid()
      reads this
    {
      Distinct(notes) && |notes| <= MAXIMUM_QUEUED_NOTES
    }

    constructor ()
      ensures Valid() && notes == []
    {
      notes := [];
    }

    /** A prompt queues notes: each once, the newest 256 stay. */
    method Append(added: seq<Note>)
      requires Valid()
      modifies this
      ensures Valid()
      ensures var merged := AddNew(old(notes), added);
        notes == if |merged| <= MAXIMUM_QUEUED_NOTES then merged else merged[|merged| - MAXIMUM_QUEUED_NOTES..]
    {
      AddNewNoRepeat(notes, added);
      var merged := AddNew(notes, added);
      notes := if |merged| <= MAXIMUM_QUEUED_NOTES then merged else merged[|merged| - MAXIMUM_QUEUED_NOTES..];
    }

    /** Removes and returns the oldest notes. */
    method Take(limit: nat) returns (taken: seq<Note>)
      requires Valid()
      modifies this
      ensures Valid() && Distinct(taken)
      ensures taken + notes == old(notes) && |taken| <= limit
      ensures taken == [] ==> limit == 0 || old(notes) == []
    {
      var n := if |notes| < limit then |notes| else limit;
      taken, notes := notes[..n], notes[n..];
      assert taken + notes == old(notes);
    }

    /** A take after whatever prompts have queued meanwhile; it may fail with the file. */
    method TakeNext(arrived: seq<Note>, fails: bool, limit: nat) returns (ok: bool, taken: seq<Note>)
      requires Valid()
      modifies this
      ensures Valid() && |taken| <= limit
      ensures ok <==> !fails
      ensures ok && taken == [] ==> limit == 0 || notes == []
    {
      Append(arrived);
      if fails {
        return false, [];
      }
      taken := Take(limit);
      ok := true;
    }
  }

  // ----- Re-reading notes -----

  /** A scope's notes as judged texts; none when the scope cannot be read. */
  type Reader = (nat, seq<nat>) -> Option<seq<Key>>

  /** The reader serves each requested note at most once. */
  ghost predicate AtMostRequested(read: Reader) {
    forall scope, items :: read(scope, items).Some? ==> |read(scope, items).value| <= |items|
  }

  function Items(notes: seq<Note>, scope: nat): seq<nat> {
    if notes == [] then [] else
      var before := Items(notes[..|notes| - 1], scope);
      if notes[|notes| - 1].scope == scope then before + [notes[|notes| - 1].item] else before
  }

  function Scopes(notes: seq<Note>): seq<nat> {
    if notes == [] then [] else
      var before := Scopes(notes[..|notes| - 1]);
      if notes[|notes| - 1].scope in before then before else before + [notes[|notes| - 1].scope]
  }

  function Served(notes: seq<Note>, scope: nat, read: Reader): seq<Key> {
    var keys := read(scope, Items(notes, scope));
    if keys.Some? then keys.value else []
  }

  function Gather(scopes: seq<nat>, notes: seq<Note>, read: Reader): seq<Key> {
    if scopes == [] then []
    else Gather(scopes[..|scopes| - 1], notes, read) + Served(notes, scopes[|scopes| - 1], read)
  }

  /** The candidates of the taken notes, scope by scope in order of first appearance. */
  function Candidates(notes: seq<Note>, read: Reader): seq<Key> {
    Gather(Scopes(notes), notes, read)
  }

  function CountItems(scopes: seq<nat>, notes: seq<Note>): nat {
    if scopes == [] then 0 else CountItems(scopes[..|scopes| - 1], notes) + |Items(notes, scopes[|scopes| - 1])|
  }

  lemma {:induction false} ScopesAre(notes: seq<Note>)
    ensures Distinct(Scopes(notes))
    ensures forall n | n in notes :: n.scope in Scopes(notes)
  {
    if notes != [] {
      var init, last := notes[..|notes| - 1], notes[|notes| - 1];
      ScopesAre(init);
      assert notes == init + [last];
    }
  }

  lemma {:induction false} CountGrows(scopes: seq<nat>, init: seq<Note>, last: Note)
    requires Distinct(scopes)
    ensures CountItems(scopes, init + [last]) == CountItems(scopes, init) + if last.scope in scopes then 1 else 0
  {
    assert (init + [last])[..|init|] == init;
    if scopes != [] {
      var n := |scopes| - 1;
      CountGrows(scopes[..n], init, last);
      assert scopes == scopes[..n] + [scopes[n]];
    }
  }

  lemma {:induction false} CountNothing(scopes: seq<nat>, notes: seq<Note>)
    requires notes == []
    ensures CountItems(scopes, notes) == 0
  {
    if scopes != [] {
      CountNothing(scopes[..|scopes| - 1], notes);
    }
  }

  /** Grouping by scope neither loses nor repeats a note. */
  lemma {:induction false} GroupsCover(scopes: seq<nat>, notes: seq<Note>)
    requires Distinct(scopes) && forall n | n in notes :: n.scope in scopes
    ensures CountItems(scopes, notes) == |notes|
  {
    if notes == [] {
      CountNothing(scopes, notes);
    } else {
      var init, last := notes[..|notes| - 1], notes[|notes| - 1];
      assert notes == init + [last];
      GroupsCover(scopes, init);
      CountGrows(scopes, init, last);
    }
  }

  lemma {:induction false} GatherBound(scopes: seq<nat>, notes: seq<Note>, read: Reader)
    requires AtMostRequested(read)
    ensures |Gather(scopes, notes, read)| <= CountItems(scopes, notes)
  {
    if scopes != [] {
      GatherBound(scopes[..|scopes| - 1], notes, read);
      assert |Served(notes, scopes[|scopes| - 1], read)| <= |Items(notes, scopes[|scopes| - 1])|;
    }
  }

  lemma {:induction false} CandidatesBound(notes: seq<Note>, read: Reader)
    requires AtMostRequested(read)
    ensures |Candidates(notes, read)| <= |notes|
  {
    ScopesAre(notes);
    GroupsCover(Scopes(notes), notes);
    GatherBound(Scopes(notes), notes, read);
  }

  /** A candidate is what some taken note's scope is read to hold, and everything read is one. */
  lemma {:induction false} CandidatesHold(notes: seq<Note>, read: Reader, key: Key)
    ensures key in Candidates(notes, read) <==>
      exists n :: n in notes && var keys := read(n.scope, Items(notes, n.scope)); keys.Some? && key in keys.value
  {
    ScopesAre(notes);
    ScopesFrom(notes);
    GatherHolds(Scopes(notes), notes, read, key);
    if n :| n in notes && var keys := read(n.scope, Items(notes, n.scope)); keys.Some? && key in keys.value {
      assert key in Served(notes, n.scope, read);
    }
  }

  lemma {:induction false} ScopesFrom(notes: seq<Note>)
    ensures forall s | s in Scopes(notes) :: exists n :: n in notes && n.scope == s
  {
    if notes != [] {
      var init, last := notes[..|notes| - 1], notes[|notes| - 1];
      assert notes == init + [last];
      ScopesFrom(init);
      assert last in notes;
    }
  }

  lemma {:induction false} GatherHolds(scopes: seq<nat>, notes: seq<Note>, read: Reader, key: Key)
    ensures key in Gather(scopes, notes, read) <==> exists s :: s in scopes && key in Served(notes, s, read)
  {
    if scopes != [] {
      var init, last := scopes[..|scopes| - 1], scopes[|scopes| - 1];
      assert scopes == init + [last];
      GatherHolds(init, notes, read, key);
    }
  }

  /** The notes read so far, grouped by scope. */
  ghost predicate Grouped(order: seq<nat>, byScope: map<nat, seq<nat>>, notes: seq<Note>) {
    && order == Scopes(notes)
    && (forall s :: s in byScope <==> s in order)
    && (forall s: nat :: Items(notes, s) == if s in byScope then byScope[s] else [])
  }

  lemma {:induction false} ItemsStep(init: seq<Note>, last: Note, scope: nat)
    ensures Items(init + [last], scope)
      == if last.scope == scope then Items(init, scope) + [last.item] else Items(init, scope)
  {
    assert (init + [last])[..|init|] == init;
  }

  lemma {:induction false} ScopesStep(init: seq<Note>, last: Note)
    ensures Scopes(init + [last])
      == if last.scope in Scopes(init) then Scopes(init) else Scopes(init) + [last.scope]
  {
    assert (init + [last])[..|init|] == init;
  }

  lemma {:induction false} GatherStep(scopes: seq<nat>, scope: nat, notes: seq<Note>, read: Reader)
    ensures Gather(scopes + [scope], notes, read) == Gather(scopes, notes, read) + Served(notes, scope, read)
  {
    assert (scopes + [scope])[..|scopes|] == scopes;
  }

  method AddToGroup(order: seq<nat>, byScope: map<nat, seq<nat>>, ghost notes: seq<Note>, note: Note)
    returns (order': seq<nat>, byScope': map<nat, seq<nat>>)
    requires Grouped(order, byScope, notes)
    ensures Grouped(order', byScope', notes + [note])
  {
    order', byScope' := order, byScope;
    if note.scope !in byScope {
      byScope' := byScope'[note.scope := []];
      order' := order' + [note.scope];
    }
    byScope' := byScope'[note.scope := byScope'[note.scope] + [note.item]];
    ScopesStep(notes, note);
    forall s: nat ensures Items(notes + [note], s) == if s in byScope' then byScope'[s] else [] {
      ItemsStep(notes, note, s);
    }
  }

  method Read(notes: seq<Note>, read: Reader) returns (candidates: seq<Key>)
    ensures candidates == Candidates(notes, read)
  {
    var order: seq<nat> := [];
    var byScope: map<nat, seq<nat>> := map[];
    for i := 0 to |notes|
      invariant Grouped(order, byScope, notes[..i])
    {
      assert notes[..i + 1] == notes[..i] + [notes[i]];
      order, byScope := AddToGroup(order, byScope, notes[..i], notes[i]);
    }
    assert notes[..|notes|] == notes;
    candidates := [];
    for i := 0 to |order|
      invariant candidates == Gather(order[..i], notes, read)
    {
      assert order[..i + 1] == order[..i] + [order[i]];
      GatherStep(order[..i], order[i], notes, read);
      var scope := order[i];
      assert scope in order && byScope[scope] == Items(notes, scope);
      var keys := read(scope, byScope[scope]);
      if keys.Some? {
        candidates := candidates + keys.value;
      }
    }
    assert order[..|order|] == order;
  }

  // ----- Judging -----

  /** Some use of a store fails. */
  ghost predicate Failing(fails: nat -> bool) {
    exists n :: fails(n)
  }

  class Judge {
    /** The reply to the n-th note ever sent, the seconds before the n-th clock reading, and
        whether the n-th write of the cache fails. */
    const replies: nat -> Reply
    const delays: nat -> nat
    const fails: nat -> bool
    /** The cache, and the number of notes ever sent. */
    var entries: Entries
    var sent: nat
    var now: int
    var readings: nat
    var writes: nat

    constructor (replies: nat -> Reply, delays: nat -> nat, fails: nat -> bool, entries: Entries, now: int)
      ensures this.replies == replies && this.delays == delays && this.fails == fails
      ensures this.entries == entries && this.now == now && sent == 0
    {
      this.replies, this.delays, this.fails := replies, delays, fails;
      this.entries, this.now := entries, now;
      sent, readings, writes := 0, 0, 0;
    }

    method ReadClock()
      modifies `now, `readings
      ensures old(now) <= now
    {
      now, readings := now + delays(readings), readings + 1;
    }

    /** `ask_each`: every note of the batch is sent. */
    method AskEach(keys: seq<Key>) returns (batch: seq<Ask>)
      modifies `sent
      ensures AskedKeys(batch) == keys && sent == old(sent) + |keys|
      ensures forall i | 0 <= i < |keys| :: batch[i].reply == replies(old(sent) + i)
    {
      var start := sent;
      batch := seq(|keys|, i requires 0 <= i < |keys| => Ask(keys[i], replies(start + i)));
      sent := sent + |keys|;
    }

    /** One batch: sent together, every outcome but a policy block recorded in one write. */
    method JudgeBatch(keys: seq<Key>) returns (ok: bool, tally: Tally, batch: seq<Ask>)
      modifies this
      ensures old(now) <= now && sent == old(sent) + |keys|
      ensures AskedKeys(batch) == keys
      ensures ok ==> Tallies(tally, batch) && entries == Recorded(old(entries), Recordable(batch), now)
      ensures !ok ==> entries == old(entries) && fails(old(writes))
    {
      batch := AskEach(keys);
      ReadClock();
      var recorded := Recordable(batch);
      var failed := recorded != [] && fails(writes);
      writes := writes + 1;
      tally := NoTally();
      if failed {
        return false, tally, batch;
      }
      entries := Recorded(entries, recorded, now);
      tally := CountReplies(batch, recorded);
      ok := true;
    }

    /** The shared core: batches of four until all are judged, a policy block, or a failed write.
        `more` are the recorded batches; they are a proper run when the notes are distinct and
        need judging. */
    method JudgeCandidates(keys: seq<Key>) returns (ok: bool, tally: Tally, ghost more: seq<Pass>)
      modifies this
      ensures old(now) <= now && Latest(more, old(now)) <= now
      ensures entries == EntriesAfter(old(entries), more)
      ensures var asks := AllAsks(more); |asks| <= |keys| && AskedKeys(asks) == keys[..|asks|]
      ensures sent <= old(sent) + |keys|
      ensures ok ==> Tallies(tally, AllAsks(more)) && sent == old(sent) + |AllAsks(more)|
      ensures ok && !tally.blocked ==> |AllAsks(more)| == |keys|
      ensures !ok ==> Failing(fails)
      ensures Askable(old(entries), keys, old(now)) ==>
        Judged(old(entries), more, old(now)) && PastStamps(entries, now)
    {
      more, ok := [], true;
      tally := NoTally();
      ghost var entries0, now0 := entries, now;
      var start := 0;
      while start < |keys| && !tally.blocked
        invariant now0 <= now && Latest(more, now0) <= now
        invariant entries == EntriesAfter(entries0, more)
        invariant start <= |keys| && start == |AllAsks(more)| && AskedKeys(AllAsks(more)) == keys[..start]
        invariant sent == old(sent) + start
        invariant Tallies(tally, AllAsks(more))
        invariant Askable(entries0, keys, now0) ==> Underway(entries0, more, keys[start..], now0, now)
        decreases |keys| - start
      {
        var end := if start + JUDGE_IN_FLIGHT < |keys| then start + JUDGE_IN_FLIGHT else |keys|;
        ghost var before, asks := now, AllAsks(more);
        var ok', t, batch := JudgeBatch(keys[start..end]);
        if !ok' {
          return false, tally, more;
        }
        TalliesConcat(tally, asks, t, batch);
        JoinAsks(asks, batch, keys, start, end);
        AddPass(entries0, more, Pass(batch, now), now0);
        if Askable(entries0, keys, now0) {
          StillUnderway(entries0, more, keys, start, end, batch, now0, before, now);
        }
        tally, more, start := Plus(tally, t), more + [Pass(batch, now)], end;
      }
    }

    /** What is left to ask about, by a fresh look at the clock. */
    method Unjudged(keys: seq<Key>) returns (pending: seq<Key>)
      modifies `now, `readings
      ensures old(now) <= now && pending == Needing(entries, keys, now)
    {
      ReadClock();
      pending := Needing(entries, keys, now);
    }

    /** One take's worth: re-read, drop what is settled, judge the rest. */
    method JudgeNotes(notes: seq<Note>, read: Reader) returns (ok: bool, tally: Tally, ghost more: seq<Pass>)
      requires AtMostRequested(read)
      modifies this
      ensures old(now) <= now && Latest(more, old(now)) <= now
      ensures entries == EntriesAfter(old(entries), more)
      ensures sent <= old(sent) + |notes|
      ensures ok ==> Tallies(tally, AllAsks(more)) && sent == old(sent) + |AllAsks(more)|
      ensures !ok ==> Failing(fails)
      ensures Distinct(Candidates(notes, read)) && PastStamps(old(entries), old(now)) ==>
        Judged(old(entries), more, old(now)) && PastStamps(entries, now)
    {
      var candidates := Read(notes, read);
      CandidatesBound(notes, read);
      var pending := Unjudged(candidates);
      NeedingIs(entries, candidates, now);
      ghost var entries0, checked := entries, now;
      ok, tally, more := JudgeCandidates(pending);
      if Judged(entries0, more, checked) {
        JudgedEarlier(entries0, more, old(now), checked);
      }
    }

    /** One turn of the drain: a take, and its notes judged.  `asks` are the asks tallied so far:
        all recorded ones, but for those of a turn that a failure cuts short. */
    method DrainTurn(queue: NoteQueue, read: Reader, room: nat, arrived: seq<Note>, takeFails: bool, tally: Tally,
                     ghost entries0: Entries, ghost now0: int,
                     ghost more: seq<Pass>, ghost takes: seq<seq<Note>>, ghost asks: seq<Ask>)
      returns (ok: bool, taken: nat, tally': Tally, ghost more': seq<Pass>, ghost takes': seq<seq<Note>>,
               ghost asks': seq<Ask>)
      requires queue.Valid() && AtMostRequested(read)
      requires Drained(entries0, more, takes, read, now0, entries, now) && Booked(tally, more, asks, true)
      modifies this, queue
      ensures queue.Valid()
      ensures Drained(entries0, more', takes', read, now0, entries, now) && Booked(tally', more', asks', ok)
      ensures taken <= room && sent <= old(sent) + taken
      ensures !Failing(fails) ==> sent - old(sent) == |AllAsks(more')| - |AllAsks(more)|
      ensures ok ==> sent - old(sent) == tally'.asked - tally.asked
      ensures ok && taken == 0 ==> room == 0 || queue.notes == []
      ensures !ok ==> Failing(fails) || takeFails
    {
      tally', more', takes', asks', taken := tally, more, takes, asks, 0;
      var notes;
      ok, notes := queue.TakeNext(arrived, takeFails, room);
      if !ok || notes == [] {
        return;
      }
      taken := |notes|;
      ghost var before, earlier := now, entries;
      ghost var batches;
      var t;
      ok, t, batches := JudgeNotes(notes, read);
      DrainOn(entries0, more, takes, read, now0, earlier, before, notes, batches, entries, now);
      BookTurn(tally, more, asks, t, batches, ok);
      AllAsksConcat(more, batches);
      more', takes' := more + batches, takes + [notes];
      if ok {
        tally', asks' := Plus(tally, t), asks + AllAsks(batches);
      }
    }

    /** One turn after another while each finds notes, room is left under `limit` and under a queue's
        worth of notes, nothing was blocked and the stores work.  Prompts queue more notes between
        two takes. */
    method Drain(queue: NoteQueue, read: Reader, limit: nat, arrivals: nat -> seq<Note>, takeFails: nat -> bool)
      returns (tally: Tally, taken: nat, ok: bool, ghost more: seq<Pass>, ghost takes: seq<seq<Note>>,
               ghost asks: seq<Ask>)
      requires queue.Valid() && AtMostRequested(read)
      modifies this, queue
      ensures queue.Valid()
      ensures Drained(old(entries), more, takes, read, old(now), entries, now) && Booked(tally, more, asks, ok)
      ensures sent - old(sent) <= limit
      ensures !Failing(fails) ==> sent == old(sent) + |AllAsks(more)|
      ensures taken < MAXIMUM_QUEUED_NOTES + JUDGE_IN_FLIGHT
      ensures ok ==> sent == old(sent) + tally.asked
      ensures !ok ==> Failing(fails) || Failing(takeFails)
      ensures ok && !tally.blocked && tally.asked < limit && taken < MAXIMUM_QUEUED_NOTES ==> queue.notes == []
    {
      taken, ok, more, takes, asks := 0, true, [], [], [];
      tally := NoTally();
      ghost var entries0, now0 := entries, now;
      var round, going := 0, true;
      while going && tally.asked < limit && !tally.blocked && taken < MAXIMUM_QUEUED_NOTES
        invariant queue.Valid()
        invariant Drained(entries0, more, takes, read, now0, entries, now) && Booked(tally, more, asks, ok)
        invariant going ==> ok
        invariant !Failing(fails) ==> sent == old(sent) + |AllAsks(more)|
        invariant ok ==> sent == old(sent) + tally.asked
        invariant sent <= old(sent) + limit && taken < MAXIMUM_QUEUED_NOTES + JUDGE_IN_FLIGHT
        invariant !ok ==> Failing(fails) || Failing(takeFails)
        invariant !going && ok ==> queue.notes == []
        decreases going, MAXIMUM_QUEUED_NOTES - taken
      {
        var room := if limit - tally.asked < JUDGE_IN_FLIGHT then limit - tally.asked else JUDGE_IN_FLIGHT;
        var count;
        ok, count, tally, more, takes, asks :=
          DrainTurn(queue, read, room, arrivals(round), takeFails(round), tally, entries0, now0, more, takes, asks);
        taken, round, going := taken + count, round + 1, ok && count > 0;
      }
    }

    /** What starting the judge in the background comes to: a drain if the model is pinned, the lock
        free and a guard at hand, and otherwise nothing. */
    method RunNoteJudge(queue: NoteQueue, run: BackgroundRun)
      returns (tally: Option<Tally>, ghost ok: bool, ghost more: seq<Pass>, ghost takes: seq<seq<Note>>,
               ghost asks: seq<Ask>)
      requires queue.Valid() && AtMostRequested(run.read)
      modifies this, queue
      ensures queue.Valid()
      ensures Drained(old(entries), more, takes, run.read, old(now), entries, now)
      ensures sent - old(sent) <= run.limit
      ensures !Failing(fails) ==> sent == old(sent) + |AllAsks(more)|
      ensures tally.None? <==> run.pinned && !run.locked
      ensures run.Starts() ==> tally.Some? && Booked(tally.value, more, asks, ok)
      ensures !run.Starts() ==>
        entries == old(entries) && sent == old(sent) && queue.notes == old(queue.notes) && more == []
      ensures !run.Starts() && tally.Some? ==> tally.value == NO_TALLY.(blocked := true)
    {
      ok, more, takes, asks := true, [], [], [];
      if !run.pinned {
        return Some(NO_TALLY.(blocked := true)), ok, more, takes, asks;
      }
      if !run.locked {
        return None, ok, more, takes, asks;
      }
      if !run.guarded {
        return Some(NO_TALLY.(blocked := true)), ok, more, takes, asks;
      }
      var t, taken, done;
      t, taken, done, more, takes, asks := Drain(queue, run.read, run.limit, run.arrivals, run.takeFails);
      return Some(t), done, more, takes, asks;
    }

    /** Any number of background runs, one after another, on one cache and one queue.  When no take of
        any of them yields a text twice, all their batches together are a proper run, so the bound on
        asks holds across runs for every note the cache did not hold at first.  While no write of the
        cache fails, these are all the asks sent. */
    method RunInTurn(queue: NoteQueue, runs: seq<BackgroundRun>)
      returns (ghost all: seq<Pass>, ghost takes: seq<seq<seq<Note>>>)
      requires queue.Valid() && forall r | r in runs :: AtMostRequested(r.read)
      modifies this, queue
      ensures queue.Valid()
      ensures InTurn(old(entries), old(now), runs, all, takes, entries, now)
      ensures !Failing(fails) ==> sent == old(sent) + |AllAsks(all)|
      ensures PastStamps(old(entries), old(now)) && AllDistinct(runs, takes) ==>
        forall k | k !in old(entries) :: AskedWithin(all, old(now), k)
    {
      all, takes := [], [];
      ghost var entries0, now0 := entries, now;
      for i := 0 to |runs|
        invariant queue.Valid() && InTurn(entries0, now0, runs[..i], all, takes, entries, now)
        invariant !Failing(fails) ==> sent == old(sent) + |AllAsks(all)|
      {
        ghost var earlier, before := entries, now;
        var tally;
        ghost var ok, more, taken, asks;
        tally, ok, more, taken, asks := RunNoteJudge(queue, runs[i]);
        TurnTaken(entries0, now0, runs, i, all, takes, earlier, before, more, taken, entries, now);
        AllAsksConcat(all, more);
        all, takes := all + more, takes + [taken];
      }
      assert runs[..|runs|] == runs;
      TurnsBounded(entries0, now0, runs, all, takes, entries, now);
    }
  }

  /** What a background run meets: the notes it reads and queued meanwhile, its limit, which takes
      fail, and whether the model is pinned, the run lock taken and a guard built. */
  datatype BackgroundRun = BackgroundRun(
    read: Reader, limit: nat, arrivals: nat -> seq<Note>, takeFails: nat -> bool,
    pinned: bool, locked: bool, guarded: bool)
  {
    predicate Starts() {
      pinned && locked && guarded
    }
  }

  /** No take of any run yields one judged text twice. */
  ghost predicate AllDistinct(runs: seq<BackgroundRun>, takes: seq<seq<seq<Note>>>) {
    |takes| == |runs| && forall i | 0 <= i < |runs| :: DistinctTakes(takes[i], runs[i].read)
  }

  /** Where the cache stands after some runs: `all` are their recorded batches. */
  ghost predicate InTurn(entries0: Entries, now0: int, runs: seq<BackgroundRun>, all: seq<Pass>,
      takes: seq<seq<seq<Note>>>, entries: Entries, now: int) {
    && |takes| == |runs| && now0 <= now && Latest(all, now0) <= now
    && entries == EntriesAfter(entries0, all)
    && (PastStamps(entries0, now0) && AllDistinct(runs, takes) ==>
          Judged(entries0, all, now0) && PastStamps(entries, now))
  }

  lemma {:induction false} DistinctTurn(runs: seq<BackgroundRun>, i: nat, takes: seq<seq<seq<Note>>>,
      taken: seq<seq<Note>>)
    requires i < |runs| && |takes| == i
    ensures AllDistinct(runs[..i + 1], takes + [taken]) <==>
      AllDistinct(runs[..i], takes) && DistinctTakes(taken, runs[i].read)
  {
    var all := takes + [taken];
    assert all[i] == taken && runs[..i + 1][i] == runs[i];
    assert forall j | 0 <= j < i :: all[j] == takes[j] && runs[..i + 1][j] == runs[..i][j];
  }

  lemma {:induction false} TurnTaken(entries0: Entries, now0: int, runs: seq<BackgroundRun>, i: nat, all: seq<Pass>,
      takes: seq<seq<seq<Note>>>, earlier: Entries, before: int, more: seq<Pass>, taken: seq<seq<Note>>,
      entries: Entries, now: int)
    requires i < |runs| && InTurn(entries0, now0, runs[..i], all, takes, earlier, before)
    requires Drained(earlier, more, taken, runs[i].read, before, entries, now)
    ensures InTurn(entries0, now0, runs[..i + 1], all + more, takes + [taken], entries, now)
  {
    JoinRuns(entries0, all, more, now0, before);
    DistinctTurn(runs, i, takes, taken);
  }

  lemma {:induction false} TurnsBounded(entries0: Entries, now0: int, runs: seq<BackgroundRun>, all: seq<Pass>,
      takes: seq<seq<seq<Note>>>, entries: Entries, now: int)
    requires InTurn(entries0, now0, runs, all, takes, entries, now)
    ensures PastStamps(entries0, now0) && AllDistinct(runs, takes) ==>
      forall k | k !in entries0 :: AskedWithin(all, now0, k)
  {
    if PastStamps(entries0, now0) && AllDistinct(runs, takes) {
      forall k | k !in entries0 ensures AskedWithin(all, now0, k) {
        AsksBounded(entries0, all, now0, k);
      }
    }
  }

  /** Distinct notes that need judging now, in a cache without future stamps. */
  ghost predicate Askable(entries: Entries, keys: seq<Key>, now: int) {
    PastStamps(entries, now) && Distinct(keys) && NeedAll(entries, keys, now)
  }

  /** The batches so far are a proper run, and the rest still need judging. */
  ghost predicate Underway(entries: Entries, more: seq<Pass>, rest: seq<Key>, first: int, now: int) {
    && Judged(entries, more, first) && PastStamps(EntriesAfter(entries, more), now)
    && NeedAll(EntriesAfter(entries, more), rest, now)
  }

  lemma {:induction false} StillUnderway(entries: Entries, more: seq<Pass>, keys: seq<Key>, start: nat, end: nat,
      batch: seq<Ask>, first: int, before: int, now: int)
    requires start <= end <= |keys| && Distinct(keys) && AskedKeys(batch) == keys[start..end]
    requires Underway(entries, more, keys[start..], first, before)
    requires Latest(more, first) <= before <= now
    ensures Underway(entries, more + [Pass(batch, now)], keys[end..], first, now)
  {
    var after := EntriesAfter(entries, more);
    SplitKeys(keys, start, end);
    forall k | k in AskedKeys(batch) ensures NeedsJudging(Look(after, k), now) {
      NeedStays(after, batch, before, now, k);
    }
    AddPass(entries, more, Pass(batch, now), first);
    NeedRest(after, batch, keys[end..], before, now);
    RecordedPast(after, Recordable(batch), now);
  }

  lemma {:induction false} JudgedEarlier(entries: Entries, passes: seq<Pass>, first: int, later: int)
    requires Judged(entries, passes, later) && first <= later
    ensures Judged(entries, passes, first)
  {
    if passes != [] {
      JudgedEarlier(entries, passes[..|passes| - 1], first, later);
    }
  }

  lemma {:induction false} JoinRuns(entries: Entries, a: seq<Pass>, b: seq<Pass>, first: int, now: int)
    requires Latest(a, first) <= now
    ensures EntriesAfter(entries, a + b) == EntriesAfter(EntriesAfter(entries, a), b)
    ensures AllAsks(a + b) == AllAsks(a) + AllAsks(b)
    ensures (a + b)[..|a|] == a
    ensures Latest(a + b, first) == if b == [] then Latest(a, first) else Latest(b, now)
    ensures Judged(entries, a, first) && Judged(EntriesAfter(entries, a), b, now) ==> Judged(entries, a + b, first)
  {
    EntriesConcat(entries, a, b);
    AllAsksConcat(a, b);
    if Judged(entries, a, first) && Judged(EntriesAfter(entries, a), b, now) {
      JudgedConcat(entries, a, b, first, now);
    }
    if b == [] {
      assert a + b == a;
    }
  }

  /** No take yields one judged text twice. */
  ghost predicate DistinctTakes(takes: seq<seq<Note>>, read: Reader) {
    forall i | 0 <= i < |takes| :: Distinct(Candidates(takes[i], read))
  }

  lemma {:induction false} DistinctTake(takes: seq<seq<Note>>, notes: seq<Note>, read: Reader)
    ensures DistinctTakes(takes + [notes], read) <==> DistinctTakes(takes, read) && Distinct(Candidates(notes, read))
  {
    var all := takes + [notes];
    assert all[|takes|] == notes;
    assert forall i | 0 <= i < |takes| :: all[i] == takes[i];
  }

  /** Where a drain stands: the cache is what the recorded batches made of it, and they are a proper
      run if no take so far yielded a text twice. */
  ghost predicate Drained(entries0: Entries, more: seq<Pass>, takes: seq<seq<Note>>, read: Reader, now0: int,
      entries: Entries, now: int) {
    && now0 <= now && Latest(more, now0) <= now
    && entries == EntriesAfter(entries0, more)
    && (PastStamps(entries0, now0) && DistinctTakes(takes, read) ==>
          Judged(entries0, more, now0) && PastStamps(entries, now))
  }

  /** The tallied asks are the recorded ones; after a failure, a prefix of them. */
  ghost predicate Booked(tally: Tally, more: seq<Pass>, asks: seq<Ask>, ok: bool) {
    Tallies(tally, asks) && if ok then asks == AllAsks(more) else asks <= AllAsks(more)
  }

  lemma {:induction false} BookTurn(tally: Tally, more: seq<Pass>, asks: seq<Ask>, t: Tally, batches: seq<Pass>,
                                    ok: bool)
    requires Booked(tally, more, asks, true) && (ok ==> Tallies(t, AllAsks(batches)))
    ensures if ok then Booked(Plus(tally, t), more + batches, asks + AllAsks(batches), true)
      else Booked(tally, more + batches, asks, false)
  {
    var next := AllAsks(batches);
    AllAsksConcat(more, batches);
    if ok {
      TalliesConcat(tally, asks, t, next);
    }
  }

  lemma {:induction false} DrainOn(entries0: Entries, more: seq<Pass>, takes: seq<seq<Note>>, read: Reader,
      now0: int, earlier: Entries, before: int,
                                   notes: seq<Note>, batches: seq<Pass>, entries: Entries, now: int)
    requires Drained(entries0, more, takes, read, now0, earlier, before)
    requires before <= now && Latest(batches, before) <= now && entries == EntriesAfter(earlier, batches)
    requires Distinct(Candidates(notes, read)) && PastStamps(earlier, before) ==>
      Judged(earlier, batches, before) && PastStamps(entries, now)
    ensures Drained(entries0, more + batches, takes + [notes], read, now0, entries, now)
  {
    JoinRuns(entries0, more, batches, now0, before);
    DistinctTake(takes, notes, read);
  }

  // ----- One text in two scopes -----

  /** Two queued notes of two scopes with one item id, whose reader serves one text for both: the
      take yields its key twice. */
  lemma {:induction false} TwoScopesOneKey(notes: seq<Note>, item: nat, s: nat, t: nat, key: Key, read: Reader)
    requires s != t && notes == [Note(item, s), Note(item, t)]
    requires read(s, [item]) == Some([key]) && read(t, [item]) == Some([key])
    ensures Distinct(notes) && Candidates(notes, read) == [key, key]
  {
    var none: seq<Note> := [];
    var a, b := notes[0], notes[1];
    var one := none + [a];
    assert notes == one + [b];
    forall scope ensures Items(notes, scope) == if scope == s || scope == t then [item] else [] {
      ItemsStep(none, a, scope);
      ItemsStep(one, b, scope);
    }
    ScopesStep(none, a);
    ScopesStep(one, b);
    var noScopes: seq<nat> := [];
    assert Scopes(notes) == (noScopes + [s]) + [t];
    GatherStep(noScopes, s, notes, read);
    GatherStep(noScopes + [s], t, notes, read);
  }

  /** And the bound on failed asks then fails: from a cache without the text, two takes of these
      notes, each left unanswered, make four failed asks in a row. */
  lemma {:induction false} TwoScopesBreakBound(notes: seq<Note>, item: nat, s: nat, t: nat, key: Key, read: Reader,
      entries: Entries, log: seq<Ask>, now: int)
    requires s != t && notes == [Note(item, s), Note(item, t)]
    requires read(s, [item]) == Some([key]) && read(t, [item]) == Some([key])
    requires key !in entries && Trailing(History(log, key)) == 0
    ensures var batch := AllFail([key, key]);
      && Needing(entries, Candidates(notes, read), now) == AskedKeys(batch)
      && Needing(Recorded(entries, Recordable(batch), now), Candidates(notes, read), now) == AskedKeys(batch)
      && Trailing(History(log + batch + batch, key)) == 4
  {
    var keys := [key, key];
    TwoScopesOneKey(notes, item, s, t, key, read);
    RepeatedKeyBreaksBound(entries, log, keys, key, now);
    AllNeeded(entries, keys, now);
    AllNeeded(Recorded(entries, Recordable(AllFail(keys)), now), keys, now);
  }

  lemma {:induction false} AllNeeded(entries: Entries, keys: seq<Key>, now: int)
    requires NeedAll(entries, keys, now)
    ensures Needing(entries, keys, now) == keys
  {
    if keys != [] {
      var init, last := keys[..|keys| - 1], keys[|keys| - 1];
      assert keys == init + [last];
      AllNeeded(entries, init, now);
      NeedingStep(entries, init, last, now);
    }
  }

  function Needing(entries: Entries, keys: seq<Key>, now: int): seq<Key> {
    if keys == [] then [] else
      var before, last := Needing(entries, keys[..|keys| - 1], now), keys[|keys| - 1];
      if NeedsJudging(Look(entries, last), now) then before + [last] else before
  }

  lemma {:induction false} NeedingStep(entries: Entries, init: seq<Key>, last: Key, now: int)
    ensures Needing(entries, init + [last], now)
      == if NeedsJudging(Look(entries, last), now) then Needing(entries, init, now) + [last]
         else Needing(entries, init, now)
  {
    assert (init + [last])[..|init|] == init;
  }

  lemma {:induction false} NeedingIs(entries: Entries, keys: seq<Key>, now: int)
    ensures |Needing(entries, keys, now)| <= |keys|
    ensures forall k :: k in Needing(entries, keys, now) <==> k in keys && NeedsJudging(Look(entries, k), now)
    ensures Distinct(keys) ==> Distinct(Needing(entries, keys, now))
  {
    if keys != [] {
      var init, last := keys[..|keys| - 1], keys[|keys| - 1];
      assert keys == init + [last];
      NeedingIs(entries, init, now);
      NeedingStep(entries, init, last, now);
      if Distinct(keys) {
        assert forall j | 0 <= j < |init| :: init[j] == keys[j] != keys[|init|];
        assert last !in init;
      }
    }
  }

  lemma {:induction false} SplitKeys(keys: seq<Key>, start: nat, end: nat)
    requires Distinct(keys) && start <= end <= |keys|
    ensures Distinct(keys[start..end])
    ensures forall k | k in keys[start..end] :: k in keys[start..] && k !in keys[end..]
    ensures forall k | k in keys[end..] :: k in keys[start..]
  {
    forall k | k in keys[end..] ensures k in keys[start..] {
      var i :| 0 <= i < |keys[end..]| && keys[end..][i] == k;
      assert keys[start..][end - start + i] == k;
    }
    forall k | k in keys[start..end] ensures k in keys[start..] {
      var i :| 0 <= i < end - start && keys[start..end][i] == k;
      assert keys[start..][i] == k;
    }
  }

  lemma {:induction false} NeedRest(entries: Entries, batch: seq<Ask>, rest: seq<Key>, now: int, later: int)
    requires NeedAll(entries, rest, now) && now <= later
    requires forall k | k in entries :: entries[k].stamp <= now
    requires Distinct(AskedKeys(batch)) && forall k | k in AskedKeys(batch) :: k !in rest
    ensures NeedAll(Recorded(entries, Recordable(batch), later), rest, later)
  {
    forall k | k in rest ensures NeedsJudging(Look(Recorded(entries, Recordable(batch), later), k), later) {
      NeedStays(entries, batch, now, later, k);
    }
  }

  lemma {:induction false} JoinAsks(asks: seq<Ask>, batch: seq<Ask>, keys: seq<Key>, start: nat, end: nat)
    requires start <= end <= |keys|
    requires AskedKeys(asks) == keys[..start] && AskedKeys(batch) == keys[start..end]
    ensures AskedKeys(asks + batch) == keys[..end]
  {
    assert keys[..start] + keys[start..end] == keys[..end];
    assert AskedKeys(asks + batch) == AskedKeys(asks) + AskedKeys(batch);
  }
}
