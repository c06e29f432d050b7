/** The priming loop of a replay seed: up to three passes of the judge over every seeded note. */
module NotePriming {
  import opened Basics
  import opened NoteVerdicts
  import opened NoteJudge

  predicate WasAnswered(history: seq<bool>) {
    history != [] && history[|history| - 1]
  }

  /** The notes whose latest ask was answered. */
  function AnsweredNotes(keys: seq<Key>, log: seq<Ask>): nat {
    if keys == [] then 0
    else AnsweredNotes(keys[..|keys| - 1], log) + if WasAnswered(History(log, keys[|keys| - 1])) then 1 else 0
  }

  function Trues(history: seq<bool>): nat {
    if history == [] then 0
    else Trues(history[..|history| - 1]) + if history[|history| - 1] then 1 else 0
  }

  function TruesOver(keys: seq<Key>, log: seq<Ask>): nat {
    if keys == [] then 0 else TruesOver(keys[..|keys| - 1], log) + Trues(History(log, keys[|keys| - 1]))
  }

  lemma {:induction false} NoTrues(history: seq<bool>)
    requires forall i | 0 <= i < |history| :: !history[i]
    ensures Trues(history) == 0
  {
    if history != [] {
      NoTrues(history[..|history| - 1]);
    }
  }

  lemma {:induction false} OneTrue(history: seq<bool>)
    requires forall i | 0 <= i < |history| - 1 :: !history[i]
    ensures Trues(history) == if WasAnswered(history) then 1 else 0
  {
    if history != [] {
      NoTrues(history[..|history| - 1]);
    }
  }

  lemma {:induction false} TruesStep(keys: seq<Key>, log: seq<Ask>, ask: Ask)
    requires Distinct(keys)
    ensures TruesOver(keys, log + [ask])
      == TruesOver(keys, log) + if ask.key in keys && ask.reply.Answered? then 1 else 0
  {
    if keys != [] {
      var init, last := keys[..|keys| - 1], keys[|keys| - 1];
      assert keys == init + [last];
      TruesStep(init, log, ask);
      var h := History(log, last);
      assert (log + [ask])[..|log|] == log;
      assert forall b: bool :: (h + [b])[..|h|] == h;
    }
  }

  /** Answers, counted note by note. */
  lemma {:induction false} AnswersByNote(keys: seq<Key>, log: seq<Ask>)
    requires Distinct(keys) && forall a | a in log :: a.key in keys
    ensures Answers(log) == TruesOver(keys, log)
  {
    if log == [] {
      NothingAnswered(keys, log);
    } else {
      var init, last := log[..|log| - 1], log[|log| - 1];
      assert log == init + [last];
      AnswersByNote(keys, init);
      TruesStep(keys, init, last);
    }
  }

  lemma {:induction false} NothingAnswered(keys: seq<Key>, log: seq<Ask>)
    requires log == []
    ensures TruesOver(keys, log) == 0
  {
    if keys != [] {
      NothingAnswered(keys[..|keys| - 1], log);
    }
  }

  lemma {:induction false} EachOnce(keys: seq<Key>, log: seq<Ask>)
    requires forall k | k in keys :: forall i | 0 <= i < |History(log, k)| - 1 :: !History(log, k)[i]
    ensures TruesOver(keys, log) == AnsweredNotes(keys, log)
  {
    if keys != [] {
      EachOnce(keys[..|keys| - 1], log);
      OneTrue(History(log, keys[|keys| - 1]));
    }
  }

  /** A complete, unblocked pass asks each of its notes once. */
  lemma {:induction false} FullPass(asks: seq<Ask>, key: Key)
    requires Distinct(AskedKeys(asks)) && key in AskedKeys(asks) && Blocks(asks) == 0
    ensures |History(asks, key)| == 1
  {
    var init, last := asks[..|asks| - 1], asks[|asks| - 1];
    InitKeys(asks);
    if key == last.key {
      HistoryAbsent(init, key);
    } else {
      assert AskedKeys(asks) == AskedKeys(init) + [last.key];
      FullPass(init, key);
    }
  }

  /** What a complete pass adds to each key's history. */
  lemma {:induction false} PassHistory(log: seq<Ask>, asks: seq<Ask>, key: Key)
    requires Distinct(AskedKeys(asks)) && Blocks(asks) == 0
    ensures |History(log + asks, key)| == |History(log, key)| + if key in AskedKeys(asks) then 1 else 0
    ensures key !in AskedKeys(asks) ==> History(log + asks, key) == History(log, key)
  {
    HistoryConcat(log, asks, key);
    if key in AskedKeys(asks) {
      FullPass(asks, key);
    } else {
      HistoryAbsent(asks, key);
    }
  }

  /** Where the loop stands after some passes: notes still pending failed in each of them, the
      others are answered or given up. */
  ghost predicate Primed(candidates: seq<Key>, pending: seq<Key>, log: seq<Ask>, passes: nat) {
    && (forall k | k in pending :: k in candidates && |History(log, k)| == passes)
    && (forall k | k in candidates && k !in pending :: Done(History(log, k)))
  }

  /** Answered once, or failed three times. */
  ghost predicate Done(history: seq<bool>) {
    WasAnswered(history) || |history| == MAXIMUM_NOTE_VERDICT_ATTEMPTS
  }

  /** Before any verdict can expire, a note without an entry at first needs no judging exactly when
      it is done. */
  lemma {:induction false} DoneIff(entries: Entries, run: seq<Pass>, first: int, now: int, key: Key)
    requires key !in entries && Judged(entries, run, first)
    requires Latest(run, first) <= now < first + NOTE_VERDICT_TTL
    ensures NeedsJudging(Look(EntriesAfter(entries, run), key), now) <==> !Done(History(AllAsks(run), key))
  {
    RunKept(entries, run, first, key);
  }

  ghost predicate Unseen(candidates: seq<Key>, entries: Entries) {
    forall k | k in candidates :: k !in entries
  }

  /** Distinct notes without an entry, in a cache without future stamps. */
  ghost predicate Warmable(candidates: seq<Key>, entries: Entries, now: int) {
    Distinct(candidates) && Unseen(candidates, entries) && PastStamps(entries, now)
  }

  /** A warm-up under way: `run` are the recorded batches since `first`. */
  ghost predicate Priming(candidates: seq<Key>, entries: Entries, run: seq<Pass>, pending: seq<Key>, first: int,
                          now: int, passes: nat) {
    && Unseen(candidates, entries) && Judged(entries, run, first) && Latest(run, first) <= now
    && Askable(EntriesAfter(entries, run), pending, now)
    && (now < first + NOTE_VERDICT_TTL ==> Primed(candidates, pending, AllAsks(run), passes))
  }

  lemma PrimingStarts(candidates: seq<Key>, entries: Entries, now: int)
    requires Warmable(candidates, entries, now)
    ensures Priming(candidates, entries, [], candidates, now, now, 0)
  {}

  /** A complete pass over the pending notes primes them once more. */
  lemma {:induction false} PassPrimes(candidates: seq<Key>, entries: Entries, run: seq<Pass>, pending: seq<Key>,
                                      first: int, before: int, passes: nat, more: seq<Pass>, now: int, later: int)
    requires Priming(candidates, entries, run, pending, first, before, passes)
    requires Judged(EntriesAfter(entries, run), more, before) && before <= now <= later && Latest(more, before) <= now
    requires PastStamps(EntriesAfter(entries, run + more), now)
    requires AskedKeys(AllAsks(more)) == pending && Blocks(AllAsks(more)) == 0
    ensures Priming(candidates, entries, run + more, Needing(EntriesAfter(entries, run + more), pending, later),
                    first, later, passes + 1)
  {
    JoinRuns(entries, run, more, first, before);
    NeedingIs(EntriesAfter(entries, run + more), pending, later);
    if later < first + NOTE_VERDICT_TTL {
      PassCounts(candidates, entries, run, pending, first, passes, more, later);
    }
  }

  lemma {:induction false} PassCounts(candidates: seq<Key>, entries: Entries, run: seq<Pass>, pending: seq<Key>,
                                      first: int, passes: nat, more: seq<Pass>, now: int)
    requires Primed(candidates, pending, AllAsks(run), passes)
    requires Unseen(candidates, entries) && Judged(entries, run + more, first)
    requires AllAsks(run + more) == AllAsks(run) + AllAsks(more)
    requires Latest(run + more, first) <= now < first + NOTE_VERDICT_TTL
    requires AskedKeys(AllAsks(more)) == pending && Distinct(pending) && Blocks(AllAsks(more)) == 0
    ensures Primed(candidates, Needing(EntriesAfter(entries, run + more), pending, now),
                   AllAsks(run + more), passes + 1)
  {
    var log, asks, after := AllAsks(run), AllAsks(more), EntriesAfter(entries, run + more);
    NeedingIs(after, pending, now);
    forall k | k in Needing(after, pending, now) ensures k in candidates && |History(log + asks, k)| == passes + 1 {
      PassHistory(log, asks, k);
    }
    forall k | k in candidates && k !in Needing(after, pending, now) ensures Done(History(log + asks, k)) {
      PassHistory(log, asks, k);
      DoneIff(entries, run + more, first, now, k);
    }
  }

  /** The asks of a run, counted note by note: at most one answer each. */
  lemma {:induction false} AnsweredOnce(candidates: seq<Key>, entries: Entries, run: seq<Pass>, first: int)
    requires Distinct(candidates) && Unseen(candidates, entries) && OnlyAbout(candidates, AllAsks(run))
    requires Judged(entries, run, first) && Latest(run, first) < first + NOTE_VERDICT_TTL
    ensures Answers(AllAsks(run)) == AnsweredNotes(candidates, AllAsks(run))
  {
    var asks := AllAsks(run);
    AnswersByNote(candidates, asks);
    forall k | k in candidates ensures forall i | 0 <= i < |History(asks, k)| - 1 :: !History(asks, k)[i] {
      RunKept(entries, run, first, k);
    }
    EachOnce(candidates, asks);
  }

  /** After three passes, or with nothing pending, every note is done. */
  lemma {:induction false} PrimingEnds(candidates: seq<Key>, entries: Entries, run: seq<Pass>, pending: seq<Key>,
                                       first: int, now: int, passes: nat)
    requires Priming(candidates, entries, run, pending, first, now, passes) && now < first + NOTE_VERDICT_TTL
    requires passes == MAXIMUM_NOTE_VERDICT_ATTEMPTS || pending == []
    ensures pending == []
    ensures forall k | k in candidates :: Done(History(AllAsks(run), k))
  {
    if pending != [] {
      assert pending[0] in pending;
      DoneIff(entries, run, first, now, pending[0]);
    }
  }

  ghost predicate OnlyAbout(candidates: seq<Key>, asks: seq<Ask>) {
    forall a | a in asks :: a.key in candidates
  }

  lemma {:induction false} OnlyMore(candidates: seq<Key>, pending: seq<Key>, run: seq<Pass>, more: seq<Pass>)
    requires (forall k | k in pending :: k in candidates) && OnlyAbout(candidates, AllAsks(run))
    requires |AllAsks(more)| <= |pending| && AskedKeys(AllAsks(more)) == pending[..|AllAsks(more)|]
    ensures OnlyAbout(candidates, AllAsks(run + more))
    ensures Answers(AllAsks(run + more)) == Answers(AllAsks(run)) + Answers(AllAsks(more))
  {
    AllAsksConcat(run, more);
    CountConcat(AllAsks(run), AllAsks(more));
    OnlyAsked(candidates, pending, AllAsks(more));
  }

  lemma {:induction false} OnlyAsked(candidates: seq<Key>, pending: seq<Key>, asks: seq<Ask>)
    requires forall k | k in pending :: k in candidates
    requires |asks| <= |pending| && AskedKeys(asks) == pending[..|asks|]
    ensures OnlyAbout(candidates, asks)
  {
    forall a | a in asks ensures a.key in candidates {
      var i :| 0 <= i < |asks| && asks[i] == a;
      assert AskedKeys(asks)[i] == pending[i];
    }
  }

  /** One pass of the loop, when it is neither blocked nor cut short by a failed write. */
  method PrimePass(judge: Judge, pending: seq<Key>, ghost candidates: seq<Key>, ghost entries0: Entries,
                   ghost run: seq<Pass>, ghost first: int, ghost passes: nat)
    returns (ok: bool, tally: Tally, left: seq<Key>, ghost more: seq<Pass>)
    requires judge.entries == EntriesAfter(entries0, run)
    requires forall k | k in pending :: k in candidates
    modifies judge
    ensures old(judge.now) <= judge.now && judge.entries == EntriesAfter(entries0, run + more)
    ensures |AllAsks(more)| <= |pending| && AskedKeys(AllAsks(more)) == pending[..|AllAsks(more)|]
    ensures forall k | k in left :: k in candidates
    ensures ok ==> Tallies(tally, AllAsks(more))
    ensures !ok ==> Failing(judge.fails)
    ensures ok && !tally.blocked && Priming(candidates, entries0, run, pending, first, old(judge.now), passes) ==>
      Priming(candidates, entries0, run + more, left, first, judge.now, passes + 1)
  {
    ghost var before := judge.now;
    ok, tally, more := judge.JudgeCandidates(pending);
    EntriesConcat(entries0, run, more);
    left := pending;
    if ok && !tally.blocked {
      ghost var now := judge.now;
      left := judge.Unjudged(pending);
      NeedingIs(judge.entries, pending, judge.now);
      if Priming(candidates, entries0, run, pending, first, before, passes) {
        assert pending[..|AllAsks(more)|] == pending;
        PassPrimes(candidates, entries0, run, pending, first, before, passes, more, now, judge.now);
      }
    }
  }

  /** Up to three passes over the notes.  From a cache without an entry for them, and while no
      verdict given since can expire, an unblocked loop leaves no note to judge, and counts each
      answered note exactly once. */
  method PrimeReplaySeed(judge: Judge, candidates: seq<Key>)
    returns (ok: bool, answered: nat, blocked: bool, pending: seq<Key>, ghost run: seq<Pass>)
    modifies judge
    ensures judge.entries == EntriesAfter(old(judge.entries), run)
    ensures ok ==> answered == Answers(AllAsks(run))
    ensures !ok ==> Failing(judge.fails)
    ensures ok && !blocked && Warmable(candidates, old(judge.entries), old(judge.now)) &&
            judge.now < old(judge.now) + NOTE_VERDICT_TTL ==>
      && pending == []
      && answered == AnsweredNotes(candidates, AllAsks(run))
      && forall k | k in candidates :: Done(History(AllAsks(run), k))
  {
    answered, blocked, pending, run, ok := 0, false, candidates, [], true;
    ghost var entries0, first := judge.entries, judge.now;
    ghost var proper := Warmable(candidates, entries0, first);
    if proper {
      PrimingStarts(candidates, entries0, first);
    }
    var passes := 0;
    while passes < MAXIMUM_NOTE_VERDICT_ATTEMPTS && pending != []
      invariant passes <= MAXIMUM_NOTE_VERDICT_ATTEMPTS && ok && !blocked && first <= judge.now
      invariant judge.entries == EntriesAfter(entries0, run)
      invariant (forall k | k in pending :: k in candidates) && OnlyAbout(candidates, AllAsks(run))
      invariant answered == Answers(AllAsks(run))
      invariant proper ==> Priming(candidates, entries0, run, pending, first, judge.now, passes)
    {
      var judged, tally, left;
      ghost var more;
      judged, tally, left, more := PrimePass(judge, pending, candidates, entries0, run, first, passes);
      OnlyMore(candidates, pending, run, more);
      run := run + more;
      if !judged {
        return false, answered, false, pending, run;
      }
      answered := answered + tally.answered;
      if tally.blocked {
        return true, answered, true, pending, run;
      }
      pending, passes := left, passes + 1;
    }
    if proper && judge.now < first + NOTE_VERDICT_TTL {
      PrimingEnds(candidates, entries0, run, pending, first, judge.now, passes);
      AnsweredOnce(candidates, entries0, run, first);
    }
  }
}
