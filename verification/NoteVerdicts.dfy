/** The note verdict cache, and what its entries say about the asks that led to them.

    A key stands for one exact note text under one pinned model; times are whole seconds and the
    clock never goes back.  Entries are not evicted for size. */
module NoteVerdicts {
  import opened Basics

  type Key = nat

  datatype Entry = Verdict(p: real, stamp: int) | Attempts(count: nat, stamp: int)

  type Entries = map<Key, Entry>

  const MAXIMUM_NOTE_VERDICT_ATTEMPTS: nat := 3

  const MAXIMUM_STORED_ATTEMPTS: nat := 1_000

  const NOTE_VERDICT_TTL: int := 30 * 24 * 60 * 60

  const CLOCK_SKEW: int := 5 * 60

  predicate Fresh(stamp: int, now: int) {
    -CLOCK_SKEW <= now - stamp < NOTE_VERDICT_TTL
  }

  function Look(entries: Entries, key: Key): Option<Entry> {
    if key in entries then Some(entries[key]) else None
  }

  /** Whether the judge would still ask about a note with this entry. */
  predicate NeedsJudging(entry: Option<Entry>, now: int) {
    match entry
    case None => true
    case Some(Verdict(_, stamp)) => !Fresh(stamp, now)
    case Some(Attempts(count, _)) => count < MAXIMUM_NOTE_VERDICT_ATTEMPTS
  }

  /** One key's entry after an answer, or after a failed attempt. */
  function EntryAfter(previous: Option<Entry>, answer: Option<real>, now: int): Entry {
    if answer.Some? then Verdict(answer.value, now)
    else match previous
      case None => Attempts(1, now)
      case Some(Verdict(p, stamp)) => if Fresh(stamp, now) then Verdict(p, stamp) else Attempts(1, now)
      case Some(Attempts(count, _)) => Attempts(if count < MAXIMUM_STORED_ATTEMPTS then count + 1 else count, now)
  }

  /** When a note is asked about: always without an entry, fewer than three failures apart, and after a
      verdict exactly from thirty days on; a stamp more than five minutes ahead is not trusted. */
  lemma AskedWhen(p: real, stamp: int, count: nat, now: int)
    ensures NeedsJudging(None, now)
    ensures NeedsJudging(Some(Attempts(count, stamp)), now) <==> count <= 2
    ensures stamp <= now ==> (NeedsJudging(Some(Verdict(p, stamp)), now) <==> stamp + 2_592_000 <= now)
    ensures now < stamp ==> (NeedsJudging(Some(Verdict(p, stamp)), now) <==> now + 300 < stamp)
  {}

  predicate Live(entry: Entry, now: int) {
    entry.Verdict? ==> Fresh(entry.stamp, now)
  }

  function Applied(entries: Entries, outcomes: seq<(Key, Option<real>)>, now: int): Entries {
    if outcomes == [] then entries else
      var before := Applied(entries, outcomes[..|outcomes| - 1], now);
      var (key, answer) := outcomes[|outcomes| - 1];
      before[key := EntryAfter(Look(before, key), answer, now)]
  }

  /** A write: the outcomes applied, then stale verdicts dropped. An empty batch writes nothing. */
  function Recorded(entries: Entries, outcomes: seq<(Key, Option<real>)>, now: int): Entries {
    if outcomes == [] then entries else
      var applied := Applied(entries, outcomes, now);
      map k | k in applied && Live(applied[k], now) :: applied[k]
  }

  function Keys(outcomes: seq<(Key, Option<real>)>): (r: seq<Key>)
    ensures |r| == |outcomes|
    ensures forall i | 0 <= i < |r| :: r[i] == outcomes[i].0
  {
    seq(|outcomes|, i requires 0 <= i < |outcomes| => outcomes[i].0)
  }

  lemma {:induction false} AppliedElsewhere(entries: Entries, outcomes: seq<(Key, Option<real>)>, now: int, key: Key)
    requires forall o | o in outcomes :: o.0 != key
    ensures Look(Applied(entries, outcomes, now), key) == Look(entries, key)
  {
    if outcomes != [] {
      var last := outcomes[|outcomes| - 1];
      assert last in outcomes;
      AppliedElsewhere(entries, outcomes[..|outcomes| - 1], now, key);
    }
  }

  /** With distinct keys each outcome meets the entry its key had before the write. */
  lemma {:induction false} AppliedAt(entries: Entries, outcomes: seq<(Key, Option<real>)>, now: int, i: nat)
    requires Distinct(Keys(outcomes)) && i < |outcomes|
    ensures Look(Applied(entries, outcomes, now), outcomes[i].0)
      == Some(EntryAfter(Look(entries, outcomes[i].0), outcomes[i].1, now))
  {
    var n := |outcomes| - 1;
    var init := outcomes[..n];
    var keys := Keys(outcomes);
    forall j, k | 0 <= j < k < n ensures Keys(init)[j] != Keys(init)[k] {
      assert keys[j] != keys[k];
    }
    if i == n {
      forall o | o in init ensures o.0 != outcomes[n].0 {
        var j :| 0 <= j < n && init[j] == o;
        assert keys[j] != keys[n];
      }
      AppliedElsewhere(entries, init, now, outcomes[n].0);
    } else {
      AppliedAt(entries, init, now, i);
      assert keys[i] != keys[n];
    }
  }

  /** What a write leaves at a key: what was applied there, unless that is a stale verdict. */
  lemma RecordedLook(entries: Entries, outcomes: seq<(Key, Option<real>)>, now: int, key: Key)
    requires outcomes != []
    ensures var applied := Look(Applied(entries, outcomes, now), key);
      Look(Recorded(entries, outcomes, now), key) == if applied.Some? && Live(applied.value, now) then applied else None
  {}

  // ----- Asks -----

  /** What a note's request came to. */
  datatype Reply = Blocked | NoAnswer | Answered(p: real)

  datatype Ask = Ask(key: Key, reply: Reply)

  /** The non-blocked asks about one key, in order: was it answered? */
  function History(log: seq<Ask>, key: Key): seq<bool> {
    if log == [] then [] else
      var last, before := log[|log| - 1], History(log[..|log| - 1], key);
      if last.key == key && !last.reply.Blocked? then before + [last.reply.Answered?] else before
  }

  /** The last answer about one key. */
  function LastAnswer(log: seq<Ask>, key: Key): Option<real> {
    if log == [] then None else
      var last := log[|log| - 1];
      if last.key == key && last.reply.Answered? then Some(last.reply.p) else LastAnswer(log[..|log| - 1], key)
  }

  /** Failed asks since the last answer. */
  function Trailing(history: seq<bool>): nat {
    if history == [] || history[|history| - 1] then 0 else 1 + Trailing(history[..|history| - 1])
  }

  /** At any time: a failed-attempt record counts the failures since the last answer, and there are
      at most three. */
  ghost predicate Explained(entry: Option<Entry>, history: seq<bool>) {
    match entry
    case None => Trailing(history) == 0
    case Some(Verdict(_, _)) => Trailing(history) == 0
    case Some(Attempts(count, _)) => count == Trailing(history) <= MAXIMUM_NOTE_VERDICT_ATTEMPTS
  }

  /** While no verdict has expired: at most three asks, none after an answer. */
  ghost predicate Settled(entry: Option<Entry>, history: seq<bool>) {
    && |history| <= MAXIMUM_NOTE_VERDICT_ATTEMPTS
    && (forall i | 0 <= i < |history| - 1 :: !history[i])
    && match entry
       case None => history == []
       case Some(Verdict(_, _)) => history != [] && history[|history| - 1]
       case Some(Attempts(count, _)) => count == |history| && history != [] && !history[|history| - 1]
  }

  /** No stamp lies in the future. */
  ghost predicate PastStamps(entries: Entries, now: int) {
    forall k | k in entries :: entries[k].stamp <= now
  }

  /** What a batch records: every reply that is not a policy block. */
  function Recordable(batch: seq<Ask>): seq<(Key, Option<real>)> {
    if batch == [] then [] else
      var last, before := batch[|batch| - 1], Recordable(batch[..|batch| - 1]);
      match last.reply
      case Blocked => before
      case NoAnswer => before + [(last.key, None)]
      case Answered(p) => before + [(last.key, Some(p))]
  }

  function AskedKeys(batch: seq<Ask>): (r: seq<Key>)
    ensures |r| == |batch|
    ensures forall i | 0 <= i < |r| :: r[i] == batch[i].key
  {
    seq(|batch|, i requires 0 <= i < |batch| => batch[i].key)
  }

  lemma {:induction false} HistoryConcat(log: seq<Ask>, batch: seq<Ask>, key: Key)
    ensures History(log + batch, key) == History(log, key) + History(batch, key)
  {
    if batch == [] {
      assert log + batch == log;
    } else {
      var n := |batch| - 1;
      assert (log + batch)[..|log| + n] == log + batch[..n];
      HistoryConcat(log, batch[..n], key);
    }
  }

  lemma {:induction false} HistoryAbsent(batch: seq<Ask>, key: Key)
    requires key !in AskedKeys(batch)
    ensures History(batch, key) == [] && LastAnswer(batch, key) == None
    ensures forall o | o in Recordable(batch) :: o.0 != key
  {
    if batch != [] {
      var init, last := batch[..|batch| - 1], batch[|batch| - 1];
      assert AskedKeys(batch)[|batch| - 1] == last.key;
      forall i | 0 <= i < |init| ensures AskedKeys(init)[i] != key {
        assert AskedKeys(batch)[i] == init[i].key;
      }
      HistoryAbsent(init, key);
    }
  }

  lemma {:induction false} InitKeys(batch: seq<Ask>)
    requires batch != [] && Distinct(AskedKeys(batch))
    ensures Distinct(AskedKeys(batch[..|batch| - 1]))
    ensures batch[|batch| - 1].key !in AskedKeys(batch[..|batch| - 1])
  {
    var keys, n := AskedKeys(batch), |batch| - 1;
    forall j, k | 0 <= j < k < n ensures batch[j].key != batch[k].key {
      assert keys[j] != keys[k];
    }
    forall j | 0 <= j < n ensures batch[j].key != batch[n].key {
      assert keys[j] != keys[n];
    }
  }

  lemma {:induction false} AppliedStep(entries: Entries, outcomes: seq<(Key, Option<real>)>, key: Key,
      answer: Option<real>, now: int)
    ensures Applied(entries, outcomes + [(key, answer)], now)
      == Applied(entries, outcomes, now)[key := EntryAfter(Look(Applied(entries, outcomes, now), key), answer, now)]
  {
    var all := outcomes + [(key, answer)];
    assert all[..|all| - 1] == outcomes;
  }

  function AnswerOf(reply: Reply): Option<real> {
    if reply.Answered? then Some(reply.p) else None
  }

  lemma {:induction false} AskSteps(batch: seq<Ask>, ask: Ask, key: Key)
    ensures Recordable(batch + [ask])
      == if ask.reply.Blocked? then Recordable(batch) else Recordable(batch) + [(ask.key, AnswerOf(ask.reply))]
    ensures History(batch + [ask], key)
      == if ask.key != key || ask.reply.Blocked? then History(batch, key)
         else History(batch, key) + [ask.reply.Answered?]
    ensures AskedKeys(batch + [ask]) == AskedKeys(batch) + [ask.key]
    ensures LastAnswer(batch + [ask], key)
      == if ask.key == key && ask.reply.Answered? then Some(ask.reply.p) else LastAnswer(batch, key)
  {
    assert (batch + [ask])[..|batch|] == batch;
  }

  /** One key's share of a batch with distinct keys: nothing, or one reply. */
  ghost predicate Share(before: Option<Entry>, after: Option<Entry>, history: seq<bool>, answer: Option<real>,
      now: int) {
    if history == [] then after == before
    else history == [answer.Some?] && after == Some(EntryAfter(before, answer, now))
  }

  lemma {:induction false} BatchAt(entries: Entries, batch: seq<Ask>, now: int, key: Key) returns (answer: Option<real>)
    requires Distinct(AskedKeys(batch))
    ensures Share(Look(entries, key), Look(Applied(entries, Recordable(batch), now), key), History(batch, key),
                  answer, now)
    ensures answer == LastAnswer(batch, key)
  {
    answer := None;
    if batch != [] {
      var init, last := batch[..|batch| - 1], batch[|batch| - 1];
      assert batch == init + [last];
      InitKeys(batch);
      var earlier := BatchAt(entries, init, now, key);
      AskSteps(init, last, key);
      AppliedStep(entries, Recordable(init), last.key, AnswerOf(last.reply), now);
      if last.key == key {
        HistoryAbsent(init, key);
        answer := AnswerOf(last.reply);
      } else {
        answer := earlier;
      }
    }
  }

  /** What was asked about a key was asked, and is recorded. */
  lemma {:induction false} HistoryAsked(batch: seq<Ask>, key: Key)
    requires History(batch, key) != []
    ensures key in AskedKeys(batch) && Recordable(batch) != []
  {
    var init, last := batch[..|batch| - 1], batch[|batch| - 1];
    assert batch == init + [last];
    AskSteps(init, last, key);
    if History(init, key) != [] {
      HistoryAsked(init, key);
    }
  }

  lemma {:induction false} WriteAt(entries: Entries, batch: seq<Ask>, now: int, key: Key) returns (answer: Option<real>)
    requires Distinct(AskedKeys(batch))
    ensures var h, e := History(batch, key), Look(entries, key);
      var e' := Look(Recorded(entries, Recordable(batch), now), key);
      && (h == [] ==> e' == e || (e' == None && e.Some? && !Live(e.value, now)))
      && (h != [] ==> h == [answer.Some?] && key in AskedKeys(batch) && e' == Some(EntryAfter(e, answer, now)))
      && answer == LastAnswer(batch, key) && (h == [] ==> answer == None)
  {
    answer := BatchAt(entries, batch, now, key);
    if History(batch, key) == [] {
      NoAnswerUnasked(batch, key);
    } else {
      HistoryAsked(batch, key);
    }
    if Recordable(batch) != [] {
      RecordedLook(entries, Recordable(batch), now, key);
    }
  }

  ghost predicate NeedAll(entries: Entries, keys: seq<Key>, now: int) {
    forall k | k in keys :: NeedsJudging(Look(entries, k), now)
  }

  /** A batch of notes that need judging keeps every key explained, whatever the replies. */
  lemma {:induction false} BatchExplains(entries: Entries, log: seq<Ask>, batch: seq<Ask>, now: int, key: Key)
    requires Distinct(AskedKeys(batch)) && NeedAll(entries, AskedKeys(batch), now)
    requires Explained(Look(entries, key), History(log, key))
    ensures Explained(Look(Recorded(entries, Recordable(batch), now), key), History(log + batch, key))
  {
    var answer := WriteAt(entries, batch, now, key);
    HistoryConcat(log, batch, key);
    var h := History(log, key);
    if History(batch, key) == [] {
      assert h + [] == h;
    } else {
      assert (h + [answer.Some?])[..|h|] == h;
      assert NeedsJudging(Look(entries, key), now);
    }
  }

  /** While its verdict cannot expire, it keeps a key settled. */
  lemma {:induction false} BatchSettles(entries: Entries, log: seq<Ask>, batch: seq<Ask>, first: int, now: int,
      key: Key)
    requires Distinct(AskedKeys(batch)) && NeedAll(entries, AskedKeys(batch), now)
    requires key in entries ==> first <= entries[key].stamp <= now < first + NOTE_VERDICT_TTL
    requires Settled(Look(entries, key), History(log, key))
    ensures Settled(Look(Recorded(entries, Recordable(batch), now), key), History(log + batch, key))
  {
    var answer := WriteAt(entries, batch, now, key);
    HistoryConcat(log, batch, key);
    var h := History(log, key);
    if History(batch, key) == [] {
      assert h + [] == h;
    } else {
      assert NeedsJudging(Look(entries, key), now);
      assert forall i | 0 <= i < |h| :: !h[i];
    }
  }

  lemma {:induction false} WriteStamps(entries: Entries, outcomes: seq<(Key, Option<real>)>, now: int, key: Key)
    ensures var e, e' := Look(entries, key), Look(Applied(entries, outcomes, now), key);
      e'.Some? ==> e'.value.stamp == now || (e.Some? && e'.value.stamp == e.value.stamp)
  {
    if outcomes != [] {
      WriteStamps(entries, outcomes[..|outcomes| - 1], now, key);
    }
  }

  lemma {:induction false} RecordedStamps(entries: Entries, outcomes: seq<(Key, Option<real>)>, now: int, key: Key)
    ensures var e, e' := Look(entries, key), Look(Recorded(entries, outcomes, now), key);
      e'.Some? ==> e'.value.stamp == now || (e.Some? && e'.value.stamp == e.value.stamp)
  {
    WriteStamps(entries, outcomes, now, key);
    if outcomes != [] {
      RecordedLook(entries, outcomes, now, key);
    }
  }

  lemma {:induction false} RecordedPast(entries: Entries, outcomes: seq<(Key, Option<real>)>, now: int)
    requires PastStamps(entries, now)
    ensures PastStamps(Recorded(entries, outcomes, now), now)
  {
    forall k | k in Recorded(entries, outcomes, now) ensures Recorded(entries, outcomes, now)[k].stamp <= now {
      RecordedStamps(entries, outcomes, now, k);
    }
  }

  /** A note that needs judging still does later, and after a write that does not concern it. */
  lemma {:induction false} NeedStays(entries: Entries, batch: seq<Ask>, now: int, later: int, key: Key)
    requires NeedsJudging(Look(entries, key), now) && now <= later
    requires key in entries ==> entries[key].stamp <= now
    ensures NeedsJudging(Look(entries, key), later)
    ensures Distinct(AskedKeys(batch)) && key !in AskedKeys(batch) ==>
      NeedsJudging(Look(Recorded(entries, Recordable(batch), later), key), later)
  {
    if Distinct(AskedKeys(batch)) && key !in AskedKeys(batch) {
      HistoryAbsent(batch, key);
      var answer := WriteAt(entries, batch, later, key);
    }
  }

  // ----- Any number of runs -----

  /** One recorded batch and the time its outcomes were recorded. */
  datatype Pass = Pass(batch: seq<Ask>, at: int)

  function EntriesAfter(entries: Entries, passes: seq<Pass>): Entries {
    if passes == [] then entries else
      var last := passes[|passes| - 1];
      Recorded(EntriesAfter(entries, passes[..|passes| - 1]), Recordable(last.batch), last.at)
  }

  function AllAsks(passes: seq<Pass>): seq<Ask> {
    if passes == [] then [] else AllAsks(passes[..|passes| - 1]) + passes[|passes| - 1].batch
  }

  function Latest(passes: seq<Pass>, first: int): int {
    if passes == [] then first else passes[|passes| - 1].at
  }

  /** Batches of distinct notes, each needing judging when its outcomes are recorded. */
  ghost predicate Judged(entries: Entries, passes: seq<Pass>, first: int) {
    passes == [] ||
      var init, last := passes[..|passes| - 1], passes[|passes| - 1];
      && Judged(entries, init, first) && Latest(init, first) <= last.at
      && Distinct(AskedKeys(last.batch)) && NeedAll(EntriesAfter(entries, init), AskedKeys(last.batch), last.at)
  }

  lemma {:induction false} AddPass(entries: Entries, passes: seq<Pass>, pass: Pass, first: int)
    ensures EntriesAfter(entries, passes + [pass])
      == Recorded(EntriesAfter(entries, passes), Recordable(pass.batch), pass.at)
    ensures AllAsks(passes + [pass]) == AllAsks(passes) + pass.batch
    ensures Latest(passes + [pass], first) == pass.at
    ensures Judged(entries, passes + [pass], first) <==>
      (&& Judged(entries, passes, first) && Latest(passes, first) <= pass.at
       && Distinct(AskedKeys(pass.batch))
       && NeedAll(EntriesAfter(entries, passes), AskedKeys(pass.batch), pass.at))
  {
    assert (passes + [pass])[..|passes|] == passes;
  }

  lemma SplitLast(a: seq<Pass>, b: seq<Pass>)
    requires b != []
    ensures a + b == (a + b[..|b| - 1]) + [b[|b| - 1]]
    ensures b == b[..|b| - 1] + [b[|b| - 1]]
  {}

  lemma {:induction false} EntriesConcat(entries: Entries, a: seq<Pass>, b: seq<Pass>)
    ensures EntriesAfter(entries, a + b) == EntriesAfter(EntriesAfter(entries, a), b)
  {
    if b == [] {
      assert a + b == a;
    } else {
      SplitLast(a, b);
      EntriesConcat(entries, a, b[..|b| - 1]);
      AddPass(entries, a + b[..|b| - 1], b[|b| - 1], 0);
    }
  }

  lemma {:induction false} AllAsksConcat(a: seq<Pass>, b: seq<Pass>)
    ensures AllAsks(a + b) == AllAsks(a) + AllAsks(b)
  {
    if b == [] {
      assert a + b == a;
    } else {
      SplitLast(a, b);
      AllAsksConcat(a, b[..|b| - 1]);
      AddPass(map[], a + b[..|b| - 1], b[|b| - 1], 0);
    }
  }

  /** A run followed by a run is a run. */
  lemma {:induction false} JudgedConcat(entries: Entries, a: seq<Pass>, b: seq<Pass>, first: int, now: int)
    requires Judged(entries, a, first) && Latest(a, first) <= now && Judged(EntriesAfter(entries, a), b, now)
    ensures Judged(entries, a + b, first)
  {
    if b == [] {
      assert a + b == a;
    } else {
      var init, last := b[..|b| - 1], b[|b| - 1];
      SplitLast(a, b);
      JudgedConcat(entries, a, init, first, now);
      EntriesConcat(entries, a, init);
      AddPass(entries, a + init, last, first);
      assert init == [] ==> a + init == a;
    }
  }

  /** A key without an entry at first, over any run: its entry is explained by the asks about it,
      and settled while no verdict can expire. */
  lemma {:induction false} RunKept(entries: Entries, passes: seq<Pass>, first: int, key: Key)
    requires key !in entries && Judged(entries, passes, first)
    ensures var after, h, latest := EntriesAfter(entries, passes), History(AllAsks(passes), key), Latest(passes, first);
      && first <= latest
      && (key in after ==> first <= after[key].stamp <= latest)
      && Explained(Look(after, key), h)
      && (latest < first + NOTE_VERDICT_TTL ==> Settled(Look(after, key), h))
  {
    if passes != [] {
      var init, last := passes[..|passes| - 1], passes[|passes| - 1];
      var before := EntriesAfter(entries, init);
      RunKept(entries, init, first, key);
      RecordedStamps(before, Recordable(last.batch), last.at, key);
      BatchExplains(before, AllAsks(init), last.batch, last.at, key);
      if last.at < first + NOTE_VERDICT_TTL {
        BatchSettles(before, AllAsks(init), last.batch, first, last.at, key);
      }
    }
  }

  /** What a run may have asked about one note: never more than three failed asks in a row; and until
      a verdict may expire, at most three asks in all and none after an answer. */
  ghost predicate AskedWithin(passes: seq<Pass>, first: int, key: Key) {
    var h := History(AllAsks(passes), key);
    && Trailing(h) <= MAXIMUM_NOTE_VERDICT_ATTEMPTS
    && (Latest(passes, first) < first + NOTE_VERDICT_TTL ==>
          |h| <= MAXIMUM_NOTE_VERDICT_ATTEMPTS && forall i | 0 <= i < |h| - 1 :: !h[i])
  }

  /** Over any number of batches, from a cache without the note. */
  lemma {:induction false} AsksBounded(entries: Entries, passes: seq<Pass>, first: int, key: Key)
    requires key !in entries && Judged(entries, passes, first)
    ensures AskedWithin(passes, first, key)
  {
    RunKept(entries, passes, first, key);
  }

  lemma {:induction false} LastAnswerConcat(log: seq<Ask>, batch: seq<Ask>, key: Key)
    ensures LastAnswer(log + batch, key)
      == if LastAnswer(batch, key).Some? then LastAnswer(batch, key) else LastAnswer(log, key)
  {
    if batch == [] {
      assert log + batch == log;
    } else {
      var n := |batch| - 1;
      assert (log + batch)[..|log| + n] == log + batch[..n];
      LastAnswerConcat(log, batch[..n], key);
    }
  }

  lemma {:induction false} NoAnswerUnasked(batch: seq<Ask>, key: Key)
    requires History(batch, key) == []
    ensures LastAnswer(batch, key) == None
  {
    if batch != [] {
      NoAnswerUnasked(batch[..|batch| - 1], key);
    }
  }

  /** Over any run from a cache without the note: a verdict in the cache is the last answer about the
      note, and after an answer the verdict is there while it cannot have expired. */
  lemma {:induction false} VerdictIsLastAnswer(entries: Entries, passes: seq<Pass>, first: int, key: Key)
    requires key !in entries && Judged(entries, passes, first)
    ensures var e, said := Look(EntriesAfter(entries, passes), key), LastAnswer(AllAsks(passes), key);
      && (e.Some? && e.value.Verdict? ==> said == Some(e.value.p))
      && (said.Some? && Latest(passes, first) < first + NOTE_VERDICT_TTL ==> e.Some? && e.value.Verdict?)
  {
    if passes != [] {
      var init, last := passes[..|passes| - 1], passes[|passes| - 1];
      var before := EntriesAfter(entries, init);
      VerdictIsLastAnswer(entries, init, first, key);
      RunKept(entries, init, first, key);
      var answer := WriteAt(before, last.batch, last.at, key);
      LastAnswerConcat(AllAsks(init), last.batch, key);
      if History(last.batch, key) != [] {
        assert NeedsJudging(Look(before, key), last.at);
      }
    }
  }

  // ----- Exactly when a batch keeps the bound -----

  function Copies(keys: seq<Key>, key: Key): nat {
    if keys == [] then 0 else Copies(keys[..|keys| - 1], key) + if keys[|keys| - 1] == key then 1 else 0
  }

  /** At most three failed asks in a row about each note. */
  ghost predicate Bounded(log: seq<Ask>) {
    forall k: Key :: Trailing(History(log, k)) <= MAXIMUM_NOTE_VERDICT_ATTEMPTS
  }

  lemma {:induction false} AskStep(log: seq<Ask>, ask: Ask, key: Key)
    ensures Trailing(History(log + [ask], key)) ==
      if ask.key != key || ask.reply.Blocked? then Trailing(History(log, key))
      else if ask.reply.Answered? then 0
      else 1 + Trailing(History(log, key))
  {
    var h := History(log, key);
    assert (log + [ask])[..|log|] == log;
    assert (h + [ask.reply.Answered?])[..|h|] == h;
  }

  /** Each ask adds at most one failure, and failing asks add exactly their copies. */
  lemma {:induction false} CopiesBound(log: seq<Ask>, batch: seq<Ask>, key: Key)
    ensures Trailing(History(log + batch, key)) <= Trailing(History(log, key)) + Copies(AskedKeys(batch), key)
    ensures (forall a | a in batch :: a.reply == NoAnswer) ==>
      Trailing(History(log + batch, key)) == Trailing(History(log, key)) + Copies(AskedKeys(batch), key)
  {
    if batch == [] {
      assert log + batch == log;
    } else {
      var init, last := batch[..|batch| - 1], batch[|batch| - 1];
      assert batch == init + [last] && log + batch == (log + init) + [last];
      CopiesBound(log, init, key);
      AskStep(log + init, last, key);
      assert AskedKeys(batch)[..|init|] == AskedKeys(init);
    }
  }

  /** Whatever the replies, asking for these notes keeps the bound. */
  ghost predicate AlwaysBounded(log: seq<Ask>, keys: seq<Key>) {
    forall batch | AskedKeys(batch) == keys :: Bounded(log + batch)
  }

  /** Failed asks so far and copies in the batch are together at most three, for each note. */
  ghost predicate Fits(log: seq<Ask>, keys: seq<Key>) {
    forall k: Key :: Trailing(History(log, k)) + Copies(keys, k) <= MAXIMUM_NOTE_VERDICT_ATTEMPTS
  }

  lemma {:induction false} FittingIsBounded(log: seq<Ask>, batch: seq<Ask>)
    requires Fits(log, AskedKeys(batch))
    ensures Bounded(log + batch)
  {
    forall k: Key ensures Trailing(History(log + batch, k)) <= MAXIMUM_NOTE_VERDICT_ATTEMPTS {
      CopiesBound(log, batch, k);
    }
  }

  lemma {:induction false} FailingFits(log: seq<Ask>, keys: seq<Key>)
    requires Bounded(log + AllFail(keys))
    ensures Fits(log, keys)
  {
    forall k: Key ensures Trailing(History(log, k)) + Copies(keys, k) <= MAXIMUM_NOTE_VERDICT_ATTEMPTS {
      CopiesBound(log, AllFail(keys), k);
      assert Trailing(History(log + AllFail(keys), k)) <= MAXIMUM_NOTE_VERDICT_ATTEMPTS;
    }
  }

  /** A batch keeps the bound, whatever the replies, if and only if for each note its failed asks
      since the last answer and its copies in the batch are together at most three. */
  lemma {:induction false} BatchBoundIff(log: seq<Ask>, keys: seq<Key>)
    ensures AlwaysBounded(log, keys) <==> Fits(log, keys)
  {
    if Fits(log, keys) {
      forall batch | AskedKeys(batch) == keys ensures Bounded(log + batch) {
        FittingIsBounded(log, batch);
      }
      assert AlwaysBounded(log, keys);
    } else {
      if AlwaysBounded(log, keys) {
        assert Bounded(log + AllFail(keys));
        FailingFits(log, keys);
      }
    }
  }

  function AllFail(keys: seq<Key>): (batch: seq<Ask>)
    ensures AskedKeys(batch) == keys && forall a | a in batch :: a.reply == NoAnswer
  {
    seq(|keys|, i requires 0 <= i < |keys| => Ask(keys[i], NoAnswer))
  }

  /** The failed attempts a cache entry stands for. */
  function FailedAttempts(entry: Option<Entry>): nat {
    match entry
    case Some(Attempts(count, _)) => count
    case _ => 0
  }

  ghost predicate FitsCache(entries: Entries, keys: seq<Key>) {
    forall k: Key :: FailedAttempts(Look(entries, k)) + Copies(keys, k) <= MAXIMUM_NOTE_VERDICT_ATTEMPTS
  }

  /** The same condition read off the cache, after any run from an empty one. */
  lemma {:induction false} CacheBoundIff(passes: seq<Pass>, first: int, keys: seq<Key>)
    requires Judged(map[], passes, first)
    ensures AlwaysBounded(AllAsks(passes), keys) <==> FitsCache(EntriesAfter(map[], passes), keys)
  {
    var log, after := AllAsks(passes), EntriesAfter(map[], passes);
    BatchBoundIff(log, keys);
    forall k: Key ensures FailedAttempts(Look(after, k)) == Trailing(History(log, k)) {
      RunKept(map[], passes, first, k);
    }
    if FitsCache(after, keys) {
      forall k: Key ensures Trailing(History(log, k)) + Copies(keys, k) <= MAXIMUM_NOTE_VERDICT_ATTEMPTS {
        assert FailedAttempts(Look(after, k)) + Copies(keys, k) <= MAXIMUM_NOTE_VERDICT_ATTEMPTS;
      }
      assert Fits(log, keys);
    }
    if Fits(log, keys) {
      forall k: Key ensures FailedAttempts(Look(after, k)) + Copies(keys, k) <= MAXIMUM_NOTE_VERDICT_ATTEMPTS {
        assert Trailing(History(log, k)) + Copies(keys, k) <= MAXIMUM_NOTE_VERDICT_ATTEMPTS;
      }
      assert FitsCache(after, keys);
    }
  }

  lemma {:induction false} DistinctCopies(keys: seq<Key>, key: Key)
    requires Distinct(keys)
    ensures Copies(keys, key) == if key in keys then 1 else 0
  {
    if keys != [] {
      var init, last := keys[..|keys| - 1], keys[|keys| - 1];
      assert keys == init + [last];
      DistinctCopies(init, key);
    }
  }

  /** Distinct notes that need judging meet it. */
  lemma {:induction false} DistinctFits(passes: seq<Pass>, first: int, keys: seq<Key>, now: int)
    requires Judged(map[], passes, first)
    requires Distinct(keys) && NeedAll(EntriesAfter(map[], passes), keys, now)
    ensures FitsCache(EntriesAfter(map[], passes), keys)
  {
    var after := EntriesAfter(map[], passes);
    forall k: Key ensures FailedAttempts(Look(after, k)) + Copies(keys, k) <= MAXIMUM_NOTE_VERDICT_ATTEMPTS {
      RunKept(map[], passes, first, k);
      DistinctCopies(keys, k);
    }
  }

  lemma {:induction false} TwoCopies(keys: seq<Key>, key: Key)
    requires keys == [key, key]
    ensures Copies(keys, key) == 2
    ensures AllFail(keys) == [Ask(key, NoAnswer), Ask(key, NoAnswer)]
    ensures forall k | k in keys :: k == key
  {
    var one := keys[..1];
    assert one[..0] == [] && one[0] == key;
    assert Copies(one, key) == 1;
  }

  /** One key twice in a pass defeats the bound: from a cache without it, two passes over the same
      pair make four failed asks, although the note needed judging each time. */
  lemma {:induction false} RepeatedKeyBreaksBound(entries: Entries, log: seq<Ask>, keys: seq<Key>, key: Key, now: int)
    requires keys == [key, key]
    requires key !in entries && Trailing(History(log, key)) == 0
    ensures var batch := AllFail(keys);
      && NeedAll(entries, keys, now)
      && NeedAll(Recorded(entries, Recordable(batch), now), keys, now)
      && Trailing(History(log + batch + batch, key)) == 4
  {
    var batch := AllFail(keys);
    TwoCopies(keys, key);
    TwiceRecorded(entries, batch, key, now);
    CopiesBound(log, batch, key);
    CopiesBound(log + batch, batch, key);
  }

  lemma {:induction false} TwiceRecorded(entries: Entries, batch: seq<Ask>, key: Key, now: int)
    requires key !in entries && batch == [Ask(key, NoAnswer), Ask(key, NoAnswer)]
    ensures Look(Recorded(entries, Recordable(batch), now), key) == Some(Attempts(2, now))
  {
    var outcomes := Recordable(batch);
    assert batch[..1][..0] == [] && Recordable(batch[..1]) == Recordable(batch[..1][..0]) + [(key, None)];
    assert outcomes == Recordable(batch[..1]) + [(key, None)];
    var first: seq<(Key, Option<real>)> := outcomes[..1];
    assert first == Recordable(batch[..1]) && first[..0] == [];
    assert Look(Applied(entries, first, now), key) == Some(Attempts(1, now));
  }
}
