/** What the filler lists and sums hold, position by position. */
module FillerLaws {
  import opened Basics
  import opened FillerNotes

  // ----- Which sixteen -----

  /** Counts the notes the rules let a verdict be asked about. */
  function Counts(p: Packet, pinned: set<Id>, rendered: set<Id>, requestable: Id -> bool): Item -> nat {
    (item: Item) => if Eligible(p, pinned, rendered, requestable, item) then 1 else 0
  }

  lemma {:induction false} AllCandidatesAt(p: Packet, pinned: set<Id>, rendered: set<Id>, requestable: Id -> bool,
      items: seq<Item>, i: nat)
    requires i <= |items|
    ensures var all := AllCandidates(p, pinned, rendered, requestable, items);
      var before := Total(items[..i], Counts(p, pinned, rendered, requestable));
      && |all| == Total(items, Counts(p, pinned, rendered, requestable))
      && (i < |items| && Eligible(p, pinned, rendered, requestable, items[i]) ==>
           before < |all| && all[before] == Candidate(items[i].id, items[i].judged.value))
  {
    var count := Counts(p, pinned, rendered, requestable);
    if items != [] {
      var n := |items| - 1;
      TotalLast(items, count);
      AllCandidatesAt(p, pinned, rendered, requestable, items[..n], if i < n then i else n);
      assert i < n ==> items[..n][..i] == items[..i];
      assert items[..n][..n] == items[..n];
    }
  }

  /** A note is a candidate exactly when it is eligible and fewer than sixteen eligible notes come
      before it, knowledge first; it then stands right after those. */
  lemma {:induction false} CandidateAt(p: Packet, pinned: set<Id>, rendered: set<Id>, requestable: Id -> bool, i: nat)
    requires i < |p.knowledge + p.episodic|
    ensures var notes, candidates := p.knowledge + p.episodic, Candidates(p, pinned, rendered, requestable);
      var before := Total(notes[..i], Counts(p, pinned, rendered, requestable));
      && |candidates| == AtMost(Total(notes, Counts(p, pinned, rendered, requestable)), MAXIMUM_FILLER_CHECKS)
      && (Eligible(p, pinned, rendered, requestable, notes[i]) && before < MAXIMUM_FILLER_CHECKS ==>
           before < |candidates| && candidates[before] == Candidate(notes[i].id, notes[i].judged.value))
  {
    AllCandidatesAt(p, pinned, rendered, requestable, p.knowledge + p.episodic, i);
  }

  function AtMost(n: nat, limit: nat): nat {
    if n <= limit then n else limit
  }

  // ----- Sums -----

  lemma {:induction false} TokensAre(items: seq<Item>)
    ensures Tokens(items) == Total(items, (i: Item) => i.tokens)
  {
    if items != [] {
      TokensAre(items[..|items| - 1]);
      TotalLast(items, (i: Item) => i.tokens);
    }
  }

  lemma {:induction false} NoticeTokensAre(notices: seq<Provenance>)
    ensures NoticeTokens(notices) == Total(notices, (n: Provenance) => n.tokens)
  {
    if notices != [] {
      NoticeTokensAre(notices[..|notices| - 1]);
      TotalLast(notices, (n: Provenance) => n.tokens);
    }
  }

  lemma {:induction false} ConflictTokensAre(conflicts: seq<Conflict>)
    ensures ConflictTokens(conflicts) == Total(conflicts, (c: Conflict) => c.tokens)
  {
    if conflicts != [] {
      ConflictTokensAre(conflicts[..|conflicts| - 1]);
      TotalLast(conflicts, (c: Conflict) => c.tokens);
    }
  }

  lemma {:induction false} TokensConcat(a: seq<Item>, b: seq<Item>)
    ensures Tokens(a + b) == Tokens(a) + Tokens(b)
  {
    TokensAre(a);
    TokensAre(b);
    TokensAre(a + b);
    TotalConcat(a, b, (i: Item) => i.tokens);
  }

  /** The total of a packet is that of all its items, provenance notices and conflicts; a valid packet
      declares it. */
  lemma {:induction false} PacketTokensAre(p: Packet)
    ensures ComputedTokens(p) == Total(Items(p), (i: Item) => i.tokens)
      + Total(p.provenance, (n: Provenance) => n.tokens) + Total(p.conflicts, (c: Conflict) => c.tokens)
    ensures Valid(p) ==> p.declaredTokens == ComputedTokens(p) <= p.budget.total
  {
    NoticeTokensAre(p.provenance);
    ConflictTokensAre(p.conflicts);
    TokensAre(Items(p));
    var first: seq<Item> := if p.checkpoint.None? then [] else [p.checkpoint.value];
    TokensAre(first);
    TokensConcat(first, p.structural);
    TokensConcat(first + p.structural, p.skills);
    TokensConcat(p.episodic, p.knowledge);
    TokensConcat(Notes(p), Fixed(p));
  }

  // ----- Order -----

  /** The removed ids are those of the notes to remove, in the order of the notes. */
  lemma {:induction false} RemovableInOrder(a: seq<Item>, x: Item, b: seq<Item>, requested: set<Id>, protected: set<Id>,
      requestable: Id -> bool)
    ensures Removable(a + b, requested, protected, requestable)
      == Removable(a, requested, protected, requestable) + Removable(b, requested, protected, requestable)
    ensures Removable([x], requested, protected, requestable)
      == if x.id in requested && x.id !in protected && requestable(x.id) then [x.id] else []
  {
    if b == [] {
      assert a + b == a;
    } else {
      assert (a + b)[..|a + b| - 1] == a + b[..|b| - 1];
      RemovableInOrder(a, x, b[..|b| - 1], requested, protected, requestable);
    }
  }

  /** The provenance notices of the notes that stay, in their order. */
  lemma {:induction false} NoticesInOrder(a: seq<Provenance>, x: Provenance, b: seq<Provenance>, dropped: set<Id>)
    ensures KeepNotices(a + b, dropped) == KeepNotices(a, dropped) + KeepNotices(b, dropped)
    ensures KeepNotices([x], dropped) == if x.id in dropped then [] else [x]
  {
    if b == [] {
      assert a + b == a;
    } else {
      assert (a + b)[..|a + b| - 1] == a + b[..|b| - 1];
      NoticesInOrder(a, x, b[..|b| - 1], dropped);
    }
  }

  /** The notes that stay, in their order. */
  lemma {:induction false} KeptInOrder(a: seq<Item>, x: Item, b: seq<Item>, dropped: set<Id>)
    ensures Keep(a + b, dropped) == Keep(a, dropped) + Keep(b, dropped)
    ensures Keep([x], dropped) == if x.id in dropped then [] else [x]
  {
    KeepConcat(a, b, dropped);
  }

  // ----- Notes whose verdict is missing or low -----

  lemma {:induction false} CandidateSource(p: Packet, pinned: set<Id>, rendered: set<Id>, requestable: Id -> bool,
      items: seq<Item>, k: nat) returns (i: nat)
    requires k < |AllCandidates(p, pinned, rendered, requestable, items)|
    ensures i < |items| && Eligible(p, pinned, rendered, requestable, items[i])
    ensures Total(items[..i], Counts(p, pinned, rendered, requestable)) == k
    ensures AllCandidates(p, pinned, rendered, requestable, items)[k].id == items[i].id
  {
    var n, count := |items| - 1, Counts(p, pinned, rendered, requestable);
    AllCandidatesAt(p, pinned, rendered, requestable, items[..n], n);
    if k < |AllCandidates(p, pinned, rendered, requestable, items[..n])| {
      i := CandidateSource(p, pinned, rendered, requestable, items[..n], k);
      assert items[..n][..i] == items[..i];
    } else {
      i := n;
    }
  }

  /** A candidate without a verdict, or with one below the bar, stays in the packet. */
  lemma {:induction false} UnsureStays(p: Packet, pinned: set<Id>, rendered: set<Id>, requestable: Id -> bool,
      verdicts: seq<Option<real>>, dropAt: real, k: nat)
    requires Valid(p) && |verdicts| == |Candidates(p, pinned, rendered, requestable)| && k < |verdicts|
    requires verdicts[k].None? || verdicts[k].value < dropAt
    ensures var candidates := Candidates(p, pinned, rendered, requestable);
      var q := WithoutFillerNotes(p, SetOf(CachedFillerDrops(candidates, verdicts, dropAt)), requestable).0;
      exists item :: item in Items(q) && item.id == candidates[k].id
  {
    var candidates, notes := Candidates(p, pinned, rendered, requestable), p.knowledge + p.episodic;
    var q := WithoutFillerNotes(p, SetOf(CachedFillerDrops(candidates, verdicts, dropAt)), requestable).0;
    var i := CandidateSource(p, pinned, rendered, requestable, notes, k);
    DropsAllRemoved(p, pinned, rendered, requestable, verdicts, dropAt);
    assert notes[i] in Notes(p);
    forall j | 0 <= j < |candidates| && candidates[j].id == candidates[k].id ensures j == k {
      var h := CandidateSource(p, pinned, rendered, requestable, notes, j);
      SameNote(p, h, i);
    }
    assert notes[i] in Items(q);
  }

  lemma {:induction false} SameNote(p: Packet, h: nat, i: nat)
    requires DistinctIds(Items(p)) && h < |p.knowledge + p.episodic| && i < |p.knowledge + p.episodic|
    requires (p.knowledge + p.episodic)[h].id == (p.knowledge + p.episodic)[i].id
    ensures h == i
  {
    var k, e := |p.knowledge|, |p.episodic|;
    assert Items(p)[if h < k then e + h else h - k] == (p.knowledge + p.episodic)[h];
    assert Items(p)[if i < k then e + i else i - k] == (p.knowledge + p.episodic)[i];
  }
}
