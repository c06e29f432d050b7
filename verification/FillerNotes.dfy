/** Which pre-fetched notes are candidates for a filler verdict, which of them are dropped, and the
    packet without them. */
module FillerNotes {
  import opened Basics

  type Id = string

  /** `judged` is the text a verdict would be about: none when the stored note cannot be read, is
      empty, or the secret scan flags it. */
  datatype Item = Item(id: Id, tokens: nat, conflictFree: bool, normal: bool, judged: Option<string>)

  datatype Provenance = Provenance(id: Id, tokens: nat)

  datatype Conflict = Conflict(ids: seq<Id>, tokens: nat)

  datatype Reason = LowerRank | Other(code: nat)

  datatype Omission = Omission(id: Id, reason: Reason, detail: string)

  datatype Budget = Budget(
    checkpoint: nat, episodic: nat, knowledge: nat, structural: nat, skills: nat, notices: nat, total: nat)

  datatype Packet = Packet(
    checkpoint: Option<Item>, episodic: seq<Item>, knowledge: seq<Item>, structural: seq<Item>, skills: seq<Item>,
    provenance: seq<Provenance>, conflicts: seq<Conflict>, omissions: seq<Omission>,
    declaredTokens: int, budget: Budget)

  const MAXIMUM_FILLER_CHECKS: nat := 16

  const FILLER_OMISSION_DETAIL := "judged filler; fetch with get_context item_ids"

  /** The items a removal never looks into. */
  function Fixed(p: Packet): seq<Item> {
    (if p.checkpoint.None? then [] else [p.checkpoint.value]) + p.structural + p.skills
  }

  /** The notes: what may be removed. */
  function Notes(p: Packet): seq<Item> {
    p.episodic + p.knowledge
  }

  function Items(p: Packet): seq<Item> {
    Notes(p) + Fixed(p)
  }

  function Tokens(items: seq<Item>): nat {
    if items == [] then 0 else Tokens(items[..|items| - 1]) + items[|items| - 1].tokens
  }

  function NoticeTokens(notices: seq<Provenance>): nat {
    if notices == [] then 0 else NoticeTokens(notices[..|notices| - 1]) + notices[|notices| - 1].tokens
  }

  function ConflictTokens(conflicts: seq<Conflict>): nat {
    if conflicts == [] then 0 else ConflictTokens(conflicts[..|conflicts| - 1]) + conflicts[|conflicts| - 1].tokens
  }

  function CheckpointTokens(p: Packet): nat {
    if p.checkpoint.None? then 0 else p.checkpoint.value.tokens
  }

  function ComputedTokens(p: Packet): nat {
    CheckpointTokens(p) + Tokens(p.episodic) + Tokens(p.knowledge) + Tokens(p.structural) + Tokens(p.skills)
      + NoticeTokens(p.provenance) + ConflictTokens(p.conflicts)
  }

  predicate DistinctIds(items: seq<Item>) {
    forall i, j | 0 <= i < j < |items| :: items[i].id != items[j].id
  }

  function Ids(items: seq<Item>): set<Id> {
    set i | i in items :: i.id
  }

  function ProvenanceIds(notices: seq<Provenance>): set<Id> {
    set n | n in notices :: n.id
  }

  /** What the packet type checks when one is built. */
  ghost predicate Valid(p: Packet) {
    && DistinctIds(Items(p))
    && Ids(Items(p)) == ProvenanceIds(p.provenance)
    && (forall c, id | c in p.conflicts && id in c.ids :: id in Ids(Items(p)))
    && CheckpointTokens(p) <= p.budget.checkpoint && Tokens(p.episodic) <= p.budget.episodic
    && Tokens(p.knowledge) <= p.budget.knowledge && Tokens(p.structural) <= p.budget.structural
    && Tokens(p.skills) <= p.budget.skills
    && NoticeTokens(p.provenance) + ConflictTokens(p.conflicts) <= p.budget.notices
    && ComputedTokens(p) <= p.budget.total
    && p.declaredTokens == ComputedTokens(p)
  }

  function Protected(p: Packet): set<Id> {
    set c, id | c in p.conflicts && id in c.ids :: id
  }

  // ----- Candidates -----

  datatype Candidate = Candidate(id: Id, text: string)

  /** Whom the rules let a verdict be asked about. */
  predicate Eligible(p: Packet, pinned: set<Id>, rendered: set<Id>, requestable: Id -> bool, item: Item) {
    && item.id in rendered && requestable(item.id)
    && item.id !in pinned && item.id !in Protected(p)
    && item.conflictFree && item.normal && item.judged.Some?
  }

  function AllCandidates(p: Packet, pinned: set<Id>, rendered: set<Id>, requestable: Id -> bool,
      items: seq<Item>): seq<Candidate> {
    if items == [] then [] else
      var before, last := AllCandidates(p, pinned, rendered, requestable, items[..|items| - 1]), items[|items| - 1];
      if !Eligible(p, pinned, rendered, requestable, last) then before
      else before + [Candidate(last.id, last.judged.value)]
  }

  /** The first sixteen eligible notes, knowledge before episodes. */
  function Candidates(p: Packet, pinned: set<Id>, rendered: set<Id>, requestable: Id -> bool): (r: seq<Candidate>)
    ensures |r| <= MAXIMUM_FILLER_CHECKS
  {
    var all := AllCandidates(p, pinned, rendered, requestable, p.knowledge + p.episodic);
    if |all| <= MAXIMUM_FILLER_CHECKS then all else all[..MAXIMUM_FILLER_CHECKS]
  }

  lemma {:induction false} MoreCandidates(p: Packet, pinned: set<Id>, rendered: set<Id>, requestable: Id -> bool,
      items: seq<Item>, n: nat)
    requires n <= |items|
    ensures AllCandidates(p, pinned, rendered, requestable, items[..n])
      <= AllCandidates(p, pinned, rendered, requestable, items)
    decreases |items| - n
  {
    if n == |items| {
      assert items[..n] == items;
    } else {
      assert items[..n + 1][..n] == items[..n];
      MoreCandidates(p, pinned, rendered, requestable, items, n + 1);
    }
  }

  method FillerCandidates(p: Packet, pinned: set<Id>, rendered: set<Id>, requestable: Id -> bool)
    returns (candidates: seq<Candidate>)
    ensures candidates == Candidates(p, pinned, rendered, requestable)
  {
    var notes := p.knowledge + p.episodic;
    var protected := Protected(p);
    candidates := [];
    for i := 0 to |notes|
      invariant candidates == AllCandidates(p, pinned, rendered, requestable, notes[..i])
      invariant |candidates| < MAXIMUM_FILLER_CHECKS
    {
      var item := notes[i];
      assert notes[..i + 1][..i] == notes[..i];
      if item.id !in rendered || !requestable(item.id) || item.id in pinned || item.id in protected
         || !item.conflictFree || !item.normal || item.judged.None? {
        continue;
      }
      candidates := candidates + [Candidate(item.id, item.judged.value)];
      if |candidates| == MAXIMUM_FILLER_CHECKS {
        MoreCandidates(p, pinned, rendered, requestable, notes, i + 1);
        break;
      }
    }
    assert notes[..|notes|] == notes;
  }

  // ----- Removal -----

  function Removable(items: seq<Item>, requested: set<Id>, protected: set<Id>, requestable: Id -> bool): seq<Id> {
    if items == [] then [] else
      var before, last := Removable(items[..|items| - 1], requested, protected, requestable), items[|items| - 1];
      if last.id in requested && last.id !in protected && requestable(last.id) then before + [last.id] else before
  }

  function Keep(items: seq<Item>, dropped: set<Id>): seq<Item> {
    if items == [] then [] else
      var before, last := Keep(items[..|items| - 1], dropped), items[|items| - 1];
      if last.id in dropped then before else before + [last]
  }

  function KeepNotices(notices: seq<Provenance>, dropped: set<Id>): seq<Provenance> {
    if notices == [] then [] else
      var before, last := KeepNotices(notices[..|notices| - 1], dropped), notices[|notices| - 1];
      if last.id in dropped then before else before + [last]
  }

  function DroppedTokens(items: seq<Item>, dropped: set<Id>): nat {
    if items == [] then 0
    else
      var before, last := DroppedTokens(items[..|items| - 1], dropped), items[|items| - 1];
      if last.id in dropped then before + last.tokens else before
  }

  function DroppedNoticeTokens(notices: seq<Provenance>, dropped: set<Id>): nat {
    if notices == [] then 0 else
      var before, last := DroppedNoticeTokens(notices[..|notices| - 1], dropped), notices[|notices| - 1];
      if last.id in dropped then before + last.tokens else before
  }

  function Omissions(ids: seq<Id>): (r: seq<Omission>)
    ensures |r| == |ids|
    ensures forall i | 0 <= i < |ids| :: r[i] == Omission(ids[i], LowerRank, FILLER_OMISSION_DETAIL)
  {
    seq(|ids|, i requires 0 <= i < |ids| => Omission(ids[i], LowerRank, FILLER_OMISSION_DETAIL))
  }

  function SetOf(ids: seq<Id>): set<Id> {
    set id | id in ids
  }

  /** The notes a request actually removes, in packet order. */
  function RemovedIds(p: Packet, requested: set<Id>, requestable: Id -> bool): seq<Id> {
    Removable(Notes(p), requested, Protected(p), requestable)
  }

  function WithoutFillerNotes(p: Packet, requested: set<Id>, requestable: Id -> bool): (Packet, seq<Omission>) {
    var removable := RemovedIds(p, requested, requestable);
    if removable == [] then (p, []) else
      var dropped, notices := SetOf(removable), Omissions(removable);
      var removedTokens := DroppedTokens(Items(p), dropped) + DroppedNoticeTokens(p.provenance, dropped);
      (p.(declaredTokens := p.declaredTokens - removedTokens,
          knowledge := Keep(p.knowledge, dropped),
          episodic := Keep(p.episodic, dropped),
          provenance := KeepNotices(p.provenance, dropped),
          omissions := p.omissions + notices),
       notices)
  }

  lemma {:induction false} KeepTokens(items: seq<Item>, dropped: set<Id>)
    ensures Tokens(items) == Tokens(Keep(items, dropped)) + DroppedTokens(items, dropped)
  {
    if items != [] {
      var init, last := items[..|items| - 1], items[|items| - 1];
      KeepTokens(init, dropped);
      var kept := Keep(init, dropped);
      assert (kept + [last])[..|kept|] == kept;
    }
  }

  lemma {:induction false} KeepNoticeTokens(notices: seq<Provenance>, dropped: set<Id>)
    ensures NoticeTokens(notices) == NoticeTokens(KeepNotices(notices, dropped)) + DroppedNoticeTokens(notices, dropped)
  {
    if notices != [] {
      var init, last := notices[..|notices| - 1], notices[|notices| - 1];
      KeepNoticeTokens(init, dropped);
      var kept := KeepNotices(init, dropped);
      assert (kept + [last])[..|kept|] == kept;
    }
  }

  lemma {:induction false} KeepConcat(a: seq<Item>, b: seq<Item>, dropped: set<Id>)
    ensures Keep(a + b, dropped) == Keep(a, dropped) + Keep(b, dropped)
    ensures DroppedTokens(a + b, dropped) == DroppedTokens(a, dropped) + DroppedTokens(b, dropped)
  {
    if b == [] {
      assert a + b == a;
    } else {
      assert (a + b)[..|a + b| - 1] == a + b[..|b| - 1];
      KeepConcat(a, b[..|b| - 1], dropped);
    }
  }

  lemma {:induction false} KeepAll(items: seq<Item>, dropped: set<Id>)
    requires forall i | i in items :: i.id !in dropped
    ensures Keep(items, dropped) == items && DroppedTokens(items, dropped) == 0
  {
    if items != [] {
      var init, last := items[..|items| - 1], items[|items| - 1];
      assert items == init + [last];
      KeepAll(init, dropped);
    }
  }

  /** The survivors are exactly the items whose id stays. */
  lemma {:induction false} KeepMembers(items: seq<Item>, dropped: set<Id>)
    ensures forall i :: i in Keep(items, dropped) <==> i in items && i.id !in dropped
    ensures DistinctIds(items) ==> DistinctIds(Keep(items, dropped))
    ensures Ids(Keep(items, dropped)) == Ids(items) - dropped
  {
    if items != [] {
      var init, last := items[..|items| - 1], items[|items| - 1];
      assert items == init + [last];
      KeepMembers(init, dropped);
      var kept := Keep(init, dropped);
      if DistinctIds(items) && last.id !in dropped {
        forall j | 0 <= j < |kept| ensures kept[j].id != last.id {
          assert kept[j] in kept;
          assert kept[j] in init;
        }
      }
    }
  }

  lemma {:induction false} KeepNoticeIds(notices: seq<Provenance>, dropped: set<Id>)
    ensures ProvenanceIds(KeepNotices(notices, dropped)) == ProvenanceIds(notices) - dropped
  {
    if notices != [] {
      var init, last := notices[..|notices| - 1], notices[|notices| - 1];
      assert notices == init + [last];
      KeepNoticeIds(init, dropped);
      assert ProvenanceIds(notices) == ProvenanceIds(init) + {last.id};
      var kept := KeepNotices(init, dropped);
      assert ProvenanceIds(kept + [last]) == ProvenanceIds(kept) + {last.id};
    }
  }

  lemma {:induction false} RemovableAre(items: seq<Item>, requested: set<Id>, protected: set<Id>,
      requestable: Id -> bool)
    ensures forall id :: id in Removable(items, requested, protected, requestable) <==>
                    (id in Ids(items) && id in requested && id !in protected && requestable(id))
  {
    if items != [] {
      var init, last := items[..|items| - 1], items[|items| - 1];
      assert items == init + [last];
      RemovableAre(init, requested, protected, requestable);
      assert Ids(items) == Ids(init) + {last.id};
    }
  }

  /** With unique ids each removed id is listed once. */
  lemma {:induction false} RemovableOnce(items: seq<Item>, requested: set<Id>, protected: set<Id>,
      requestable: Id -> bool)
    requires DistinctIds(items)
    ensures Distinct(Removable(items, requested, protected, requestable))
  {
    if items != [] {
      var init, last := items[..|items| - 1], items[|items| - 1];
      var r := Removable(init, requested, protected, requestable);
      RemovableOnce(init, requested, protected, requestable);
      RemovableAre(init, requested, protected, requestable);
      forall i | i in init ensures i.id != last.id {
        var j :| 0 <= j < |init| && init[j] == i;
        assert items[j].id != items[|items| - 1].id;
      }
      assert last.id !in r;
      assert Distinct(r + [last.id]);
    }
  }

  // ----- What a removal guarantees -----

  lemma {:induction false} NotesApart(p: Packet)
    requires DistinctIds(Items(p))
    ensures DistinctIds(Notes(p)) && DistinctIds(Fixed(p))
    ensures forall f | f in Fixed(p) :: f.id !in Ids(Notes(p))
    ensures Ids(Items(p)) == Ids(Notes(p)) + Ids(Fixed(p))
  {
    var notes, fixed, items := Notes(p), Fixed(p), Items(p);
    forall i, j | 0 <= i < j < |notes| ensures notes[i].id != notes[j].id {
      assert items[i] == notes[i] && items[j] == notes[j];
    }
    forall i, j | 0 <= i < j < |fixed| ensures fixed[i].id != fixed[j].id {
      assert items[|notes| + i] == fixed[i] && items[|notes| + j] == fixed[j];
    }
    forall f | f in fixed ensures f.id !in Ids(notes) {
      var j :| 0 <= j < |fixed| && fixed[j] == f;
      assert items[|notes| + j] == f;
      forall i | 0 <= i < |notes| ensures notes[i].id != f.id {
        assert items[i] == notes[i];
      }
    }
  }

  /** `q` is `p` without the notes in `dropped`. */
  ghost predicate IsRemoval(p: Packet, q: Packet, dropped: set<Id>) {
    && q.knowledge == Keep(p.knowledge, dropped) && q.episodic == Keep(p.episodic, dropped)
    && q.checkpoint == p.checkpoint && q.structural == p.structural && q.skills == p.skills
    && q.conflicts == p.conflicts && q.budget == p.budget
    && q.provenance == KeepNotices(p.provenance, dropped)
    && q.declaredTokens == p.declaredTokens - DroppedTokens(Items(p), dropped)
                         - DroppedNoticeTokens(p.provenance, dropped)
  }

  lemma {:induction false} KeepAllNotices(notices: seq<Provenance>, dropped: set<Id>)
    requires dropped == {}
    ensures KeepNotices(notices, dropped) == notices && DroppedNoticeTokens(notices, dropped) == 0
  {
    if notices != [] {
      var init, last := notices[..|notices| - 1], notices[|notices| - 1];
      assert notices == init + [last];
      KeepAllNotices(init, dropped);
    }
  }

  /** The packet after a removal, whether or not anything was removed: exactly one omission, in
      packet order, for each note that goes. */
  lemma {:induction false} RemovalIs(p: Packet, requested: set<Id>, requestable: Id -> bool)
    ensures var (q, notices) := WithoutFillerNotes(p, requested, requestable);
      var removable := RemovedIds(p, requested, requestable);
      && IsRemoval(p, q, SetOf(removable))
      && notices == Omissions(removable) && q.omissions == p.omissions + notices
  {
    var removable := RemovedIds(p, requested, requestable);
    if removable == [] {
      KeepAll(p.knowledge, {});
      KeepAll(p.episodic, {});
      KeepAll(Items(p), {});
      KeepAllNotices(p.provenance, {});
      assert SetOf(removable) == {};
      assert p.omissions + Omissions(removable) == p.omissions;
    }
  }

  /** Nothing outside the notes is removed: an id there belongs to no note. */
  lemma {:induction false} FixedStay(p: Packet, dropped: set<Id>)
    requires DistinctIds(Items(p)) && dropped <= Ids(Notes(p))
    ensures Keep(Fixed(p), dropped) == Fixed(p) && DroppedTokens(Fixed(p), dropped) == 0
  {
    NotesApart(p);
    KeepAll(Fixed(p), dropped);
  }

  lemma {:induction false} RemovalItems(p: Packet, q: Packet, dropped: set<Id>)
    requires DistinctIds(Items(p)) && dropped <= Ids(Notes(p)) && IsRemoval(p, q, dropped)
    ensures Notes(q) == Keep(Notes(p), dropped) && Fixed(q) == Fixed(p)
    ensures Items(q) == Keep(Items(p), dropped)
  {
    FixedStay(p, dropped);
    KeepConcat(p.episodic, p.knowledge, dropped);
    KeepConcat(Notes(p), Fixed(p), dropped);
  }

  lemma {:induction false} RemovalTokens(p: Packet, q: Packet, dropped: set<Id>)
    requires DistinctIds(Items(p)) && dropped <= Ids(Notes(p)) && IsRemoval(p, q, dropped)
    ensures ComputedTokens(q)
      == ComputedTokens(p) - DroppedTokens(Items(p), dropped) - DroppedNoticeTokens(p.provenance, dropped)
    ensures Tokens(q.knowledge) <= Tokens(p.knowledge) && Tokens(q.episodic) <= Tokens(p.episodic)
    ensures NoticeTokens(q.provenance) <= NoticeTokens(p.provenance)
  {
    FixedStay(p, dropped);
    KeepTokens(p.knowledge, dropped);
    KeepTokens(p.episodic, dropped);
    KeepNoticeTokens(p.provenance, dropped);
    KeepConcat(p.episodic, p.knowledge, dropped);
    KeepConcat(Notes(p), Fixed(p), dropped);
  }

  /** What a request removes: requested, fetchable notes outside every conflict. */
  lemma {:induction false} RemovedAre(p: Packet, requested: set<Id>, requestable: Id -> bool)
    ensures var dropped := SetOf(RemovedIds(p, requested, requestable));
      && dropped <= Ids(Notes(p))
      && forall id :: id in dropped <==>
           (id in Ids(Notes(p)) && id in requested && id !in Protected(p) && requestable(id))
  {
    RemovableAre(Notes(p), requested, Protected(p), requestable);
  }

  lemma {:induction false} StructureKept(p: Packet, q: Packet, dropped: set<Id>)
    requires Valid(p) && IsRemoval(p, q, dropped)
    requires dropped <= Ids(Notes(p)) && dropped !! Protected(p)
    ensures DistinctIds(Items(q)) && Ids(Items(q)) == ProvenanceIds(q.provenance)
    ensures forall c, id | c in q.conflicts && id in c.ids :: id in Ids(Items(q))
  {
    RemovalItems(p, q, dropped);
    KeepMembers(Items(p), dropped);
    KeepNoticeIds(p.provenance, dropped);
    forall c, id | c in q.conflicts && id in c.ids ensures id in Ids(Items(q)) {
      assert id in Protected(p);
    }
  }

  /** A removal leaves a valid packet: unique ids, provenance for exactly the items that stay,
      known conflicts, budgets, and a declared total that equals what the sections add up to. */
  lemma {:induction false} RemovalKeepsValid(p: Packet, requested: set<Id>, requestable: Id -> bool)
    requires Valid(p)
    ensures Valid(WithoutFillerNotes(p, requested, requestable).0)
  {
    var q := WithoutFillerNotes(p, requested, requestable).0;
    var dropped := SetOf(RemovedIds(p, requested, requestable));
    RemovalIs(p, requested, requestable);
    RemovedAre(p, requested, requestable);
    StructureKept(p, q, dropped);
    RemovalTokens(p, q, dropped);
  }

  // ----- Candidates and removal agree -----

  /** The ids whose cached verdict meets the drop bar; no verdict keeps the note. */
  function CachedFillerDrops(candidates: seq<Candidate>, verdicts: seq<Option<real>>, dropAt: real): seq<Id>
    requires |candidates| == |verdicts|
  {
    if candidates == [] then [] else
      var n := |candidates| - 1;
      var before := CachedFillerDrops(candidates[..n], verdicts[..n], dropAt);
      if verdicts[n].Some? && verdicts[n].value >= dropAt then before + [candidates[n].id] else before
  }

  /** Some candidate with this id has a verdict at or above the bar. */
  ghost predicate JudgedFiller(candidates: seq<Candidate>, verdicts: seq<Option<real>>, dropAt: real, id: Id)
    requires |candidates| == |verdicts|
  {
    exists i :: 0 <= i < |candidates| && candidates[i].id == id && verdicts[i].Some? && verdicts[i].value >= dropAt
  }

  /** Exactly the ids judged filler are dropped. */
  lemma {:induction false} DropsAre(candidates: seq<Candidate>, verdicts: seq<Option<real>>, dropAt: real, id: Id)
    requires |candidates| == |verdicts|
    ensures id in CachedFillerDrops(candidates, verdicts, dropAt) <==> JudgedFiller(candidates, verdicts, dropAt, id)
  {
    if candidates != [] {
      var n := |candidates| - 1;
      DropsAre(candidates[..n], verdicts[..n], dropAt, id);
      if JudgedFiller(candidates[..n], verdicts[..n], dropAt, id) {
        var i :| 0 <= i < n && candidates[..n][i].id == id
              && verdicts[..n][i].Some? && verdicts[..n][i].value >= dropAt;
        assert candidates[i].id == id && verdicts[i].Some?;
      }
      if JudgedFiller(candidates, verdicts, dropAt, id) {
        var i :| 0 <= i <= n && candidates[i].id == id && verdicts[i].Some? && verdicts[i].value >= dropAt;
        assert i < n ==> candidates[..n][i].id == id && verdicts[..n][i].Some?;
      }
    }
  }

  /** The candidates are exactly the eligible notes, each with the text a verdict would be about. */
  lemma {:induction false} CandidatesAre(p: Packet, pinned: set<Id>, rendered: set<Id>, requestable: Id -> bool,
                                         items: seq<Item>, c: Candidate)
    ensures c in AllCandidates(p, pinned, rendered, requestable, items) <==>
      exists i :: i in items && Eligible(p, pinned, rendered, requestable, i) && c == Candidate(i.id, i.judged.value)
  {
    if items != [] {
      var init, last := items[..|items| - 1], items[|items| - 1];
      assert items == init + [last];
      CandidatesAre(p, pinned, rendered, requestable, init, c);
    }
  }

  /** Every candidate is a rendered, fetchable, unpinned note outside every conflict, of normal
      sensitivity, and its text is the readable, secret-free text of that note. */
  lemma {:induction false} CandidateIs(p: Packet, pinned: set<Id>, rendered: set<Id>, requestable: Id -> bool,
      c: Candidate)
    requires c in Candidates(p, pinned, rendered, requestable)
    ensures c.id in Ids(Notes(p)) && c.id in rendered && requestable(c.id)
    ensures c.id !in pinned && c.id !in Protected(p)
    ensures exists i :: i in Notes(p) && i.id == c.id && i.judged == Some(c.text) && i.normal && i.conflictFree
  {
    var items := p.knowledge + p.episodic;
    assert c in AllCandidates(p, pinned, rendered, requestable, items);
    CandidatesAre(p, pinned, rendered, requestable, items, c);
    var i :| i in items && Eligible(p, pinned, rendered, requestable, i) && c == Candidate(i.id, i.judged.value);
    assert i in Notes(p);
  }

  /** Applied to the packet the candidates came from, a drop list removes exactly its ids, each
      with exactly one omission; pinned notes and conflict participants stay, and the survivors
      keep their order. */
  lemma {:induction false} DropsAllRemoved(p: Packet, pinned: set<Id>, rendered: set<Id>, requestable: Id -> bool,
                                           verdicts: seq<Option<real>>, dropAt: real)
    requires Valid(p) && |verdicts| == |Candidates(p, pinned, rendered, requestable)|
    ensures var drops := SetOf(CachedFillerDrops(Candidates(p, pinned, rendered, requestable), verdicts, dropAt));
      var (q, notices) := WithoutFillerNotes(p, drops, requestable);
      var removed := RemovedIds(p, drops, requestable);
      && SetOf(removed) == drops && Distinct(removed)
      && notices == Omissions(removed) && q.omissions == p.omissions + notices
      && Items(q) == Keep(Items(p), drops)
      && (forall item :: item in Items(q) <==>
            item in Items(p)
            && !JudgedFiller(Candidates(p, pinned, rendered, requestable), verdicts, dropAt, item.id))
      && (forall id | id in Ids(Items(p)) && (id in pinned || id in Protected(p)) :: id in Ids(Items(q)))
  {
    var candidates := Candidates(p, pinned, rendered, requestable);
    var drops := SetOf(CachedFillerDrops(candidates, verdicts, dropAt));
    var removed := RemovedIds(p, drops, requestable);
    forall id ensures id in drops <==> JudgedFiller(candidates, verdicts, dropAt, id) {
      DropsAre(candidates, verdicts, dropAt, id);
    }
    forall id | id in drops
      ensures id in Ids(Notes(p)) && id !in Protected(p) && requestable(id) && id !in pinned
    {
      var i :| 0 <= i < |candidates| && candidates[i].id == id;
      CandidateIs(p, pinned, rendered, requestable, candidates[i]);
    }
    RemovedAre(p, drops, requestable);
    assert SetOf(removed) == drops;
    NotesApart(p);
    RemovableOnce(Notes(p), drops, Protected(p), requestable);
    RemovalIs(p, drops, requestable);
    RemovalItems(p, WithoutFillerNotes(p, drops, requestable).0, drops);
    KeepMembers(Items(p), drops);
  }

  // ----- Removing twice -----

  lemma {:induction false} KeepTwice(items: seq<Item>, a: set<Id>, b: set<Id>)
    ensures Keep(Keep(items, a), b) == Keep(items, a + b)
    ensures DroppedTokens(items, a) + DroppedTokens(Keep(items, a), b) == DroppedTokens(items, a + b)
  {
    if items != [] {
      var init, last := items[..|items| - 1], items[|items| - 1];
      KeepTwice(init, a, b);
      var kept := Keep(init, a);
      assert (kept + [last])[..|kept|] == kept;
    }
  }

  lemma {:induction false} KeepNoticesTwice(notices: seq<Provenance>, a: set<Id>, b: set<Id>)
    ensures KeepNotices(KeepNotices(notices, a), b) == KeepNotices(notices, a + b)
    ensures DroppedNoticeTokens(notices, a) + DroppedNoticeTokens(KeepNotices(notices, a), b)
      == DroppedNoticeTokens(notices, a + b)
  {
    if notices != [] {
      var init, last := notices[..|notices| - 1], notices[|notices| - 1];
      KeepNoticesTwice(init, a, b);
      var kept := KeepNotices(init, a);
      assert (kept + [last])[..|kept|] == kept;
    }
  }

  lemma {:induction false} SecondRemoval(p: Packet, once: Packet, a: set<Id>, b: set<Id>, requestable: Id -> bool)
    requires DistinctIds(Items(p)) && IsRemoval(p, once, SetOf(RemovedIds(p, a, requestable)))
    ensures var da, db := SetOf(RemovedIds(p, a, requestable)), SetOf(RemovedIds(once, b, requestable));
      && Items(once) == Keep(Items(p), da)
      && da + db == SetOf(RemovedIds(p, a + b, requestable)) && da !! db
  {
    var da := SetOf(RemovedIds(p, a, requestable));
    RemovedAre(p, a, requestable);
    RemovedAre(once, b, requestable);
    RemovedAre(p, a + b, requestable);
    RemovalItems(p, once, da);
    KeepMembers(Notes(p), da);
    assert Protected(once) == Protected(p);
  }

  lemma {:induction false} NoRepeatMultiset(ids: seq<Id>, id: Id)
    requires Distinct(ids)
    ensures multiset(ids)[id] == if id in ids then 1 else 0
  {
    if ids != [] {
      var init, last := ids[..|ids| - 1], ids[|ids| - 1];
      assert ids == init + [last];
      assert Distinct(init) && last !in init;
      NoRepeatMultiset(init, id);
    }
  }

  lemma {:induction false} OmissionCount(ids: seq<Id>, o: Omission)
    ensures multiset(Omissions(ids))[o]
      == if o == Omission(o.id, LowerRank, FILLER_OMISSION_DETAIL) then multiset(ids)[o.id] else 0
  {
    if ids != [] {
      var init, last := ids[..|ids| - 1], ids[|ids| - 1];
      assert ids == init + [last];
      assert Omissions(ids) == Omissions(init) + Omissions([last]);
      OmissionCount(init, o);
    }
  }

  /** Two lists that repeat nothing and share nothing make the omissions of any list of both. */
  lemma {:induction false} OmissionsJoin(first: seq<Id>, second: seq<Id>, both: seq<Id>)
    requires Distinct(first) && Distinct(second) && Distinct(both)
    requires SetOf(first) + SetOf(second) == SetOf(both) && SetOf(first) !! SetOf(second)
    ensures multiset(Omissions(first)) + multiset(Omissions(second)) == multiset(Omissions(both))
  {
    forall o ensures multiset(Omissions(first))[o] + multiset(Omissions(second))[o] == multiset(Omissions(both))[o] {
      OmissionCount(first, o);
      OmissionCount(second, o);
      OmissionCount(both, o);
      NoRepeatMultiset(first, o.id);
      NoRepeatMultiset(second, o.id);
      NoRepeatMultiset(both, o.id);
      assert o.id in both <==> o.id in SetOf(first) + SetOf(second);
    }
  }

  lemma {:induction false} RemovedOnce(p: Packet, requested: set<Id>, requestable: Id -> bool)
    requires DistinctIds(Items(p))
    ensures Distinct(RemovedIds(p, requested, requestable))
  {
    NotesApart(p);
    RemovableOnce(Notes(p), requested, Protected(p), requestable);
  }

  lemma {:induction false} RemovalTwice(p: Packet, once: Packet, twice: Packet, a: set<Id>, b: set<Id>)
    requires IsRemoval(p, once, a) && IsRemoval(once, twice, b) && Items(once) == Keep(Items(p), a)
    ensures IsRemoval(p, twice, a + b)
  {
    KeepTwice(p.knowledge, a, b);
    KeepTwice(p.episodic, a, b);
    KeepTwice(Items(p), a, b);
    KeepNoticesTwice(p.provenance, a, b);
  }

  lemma SameRemoval(p: Packet, q: Packet, q': Packet, dropped: set<Id>)
    requires IsRemoval(p, q, dropped) && IsRemoval(p, q', dropped)
    ensures q.(omissions := []) == q'.(omissions := [])
  {}

  /** Removing one list and then another leaves the packet that removing both at once leaves, with
      the same omissions, each as often, and no note is removed twice. */
  lemma {:induction false} RemovalsCompose(p: Packet, a: set<Id>, b: set<Id>, requestable: Id -> bool)
    requires DistinctIds(Items(p))
    ensures var once := WithoutFillerNotes(p, a, requestable).0;
      var twice, both := WithoutFillerNotes(once, b, requestable).0, WithoutFillerNotes(p, a + b, requestable).0;
      && twice.(omissions := []) == both.(omissions := [])
      && multiset(twice.omissions) == multiset(both.omissions)
      && SetOf(RemovedIds(p, a, requestable)) !! SetOf(RemovedIds(once, b, requestable))
  {
    var once := WithoutFillerNotes(p, a, requestable).0;
    var twice, both := WithoutFillerNotes(once, b, requestable).0, WithoutFillerNotes(p, a + b, requestable).0;
    var first, second := RemovedIds(p, a, requestable), RemovedIds(once, b, requestable);
    RemovalIs(p, a, requestable);
    RemovalIs(once, b, requestable);
    RemovalIs(p, a + b, requestable);
    SecondRemoval(p, once, a, b, requestable);
    RemovalTwice(p, once, twice, SetOf(first), SetOf(second));
    SameRemoval(p, twice, both, SetOf(first) + SetOf(second));
    KeepMembers(Items(p), SetOf(first));
    RemovedOnce(p, a, requestable);
    RemovedOnce(once, b, requestable);
    RemovedOnce(p, a + b, requestable);
    OmissionsJoin(first, second, RemovedIds(p, a + b, requestable));
  }
}
