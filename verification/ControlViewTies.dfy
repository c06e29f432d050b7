/** Exactly when the view forgets how a checkpoint's lines arrive arranged: two lines of one section
    with one semantic key keep their input order, and that order must make no difference. */
module ControlViewTies {
  import opened StableSorting
  import opened AliasNormalForm
  import opened ControlView
  import opened ControlViewLaws

  /** Two lines the ordering leaves as they come. */
  predicate Tied(x: Line, y: Line, key: Line -> string) {
    x.tag == y.tag && key(x) == key(y)
  }

  /** The lines with the `i`-th and the next one exchanged. */
  function Exchanged(lines: seq<Line>, i: nat): (r: seq<Line>)
    requires i + 1 < |lines|
    ensures |r| == |lines|
  {
    lines[i := lines[i + 1]][i + 1 := lines[i]]
  }

  /** A one-to-one renaming of aliases that keeps every evidence reference turns `lines` into
      `other`. */
  ghost predicate Renames(lines: seq<Line>, other: seq<Line>, trace: Trace) {
    exists ra, re :: RenamesBy(lines, other, trace, ra, re)
  }

  ghost predicate RenamesBy(lines: seq<Line>, other: seq<Line>, trace: Trace,
                            ra: map<Number, Number>, re: map<Number, Number>) {
    && Bijective(ra, Text(lines), A) && Bijective(re, Text(lines), E)
    && other == RenameLines(lines, ra, re) && TraceRenamed(trace, trace, re)
  }

  /** Exchanging any two neighbours that tie is undone by such a renaming. */
  ghost predicate TiesUndone(ordered: seq<Line>, trace: Trace) {
    forall i: nat | i + 1 < |ordered| && Tied(ordered[i], ordered[i + 1], SemanticKey(trace)) ::
      Renames(ordered, Exchanged(ordered, i), trace)
  }

  /** Lines in some order that finish as the ordered ones do. */
  ghost predicate SameFinishAs(lines: seq<Line>, ordered: seq<Line>, trace: Trace, digest: Digest) {
    && OneLine(lines) && OneLine(ordered) && lines != [] && ordered != []
    && Finish(ordered, trace, digest).Ok? && Finish(lines, trace, digest) == Finish(ordered, trace, digest)
  }

  lemma {:induction false} ExchangedMembers(lines: seq<Line>, i: nat)
    requires i + 1 < |lines|
    ensures multiset(Exchanged(lines, i)) == multiset(lines)
    ensures OneLine(lines) ==> OneLine(Exchanged(lines, i))
    ensures Shown(Exchanged(lines, i)) == Shown(lines)
  {
    var x, y, before, after := lines[i], lines[i + 1], lines[..i], lines[i + 2..];
    assert lines == before + ([x] + [y]) + after;
    assert Exchanged(lines, i) == before + ([y] + [x]) + after;
    SameLinesSameShown(lines, Exchanged(lines, i));
    if OneLine(lines) {
      forall l | l in Exchanged(lines, i) ensures Literal("\n") !in l.rest {
        assert l in multiset(lines);
      }
    }
  }

  lemma {:induction false} FinishShown(lines: seq<Line>, trace: Trace, digest: Digest)
    requires Finish(lines, trace, digest).Ok?
    ensures Shown(lines) == trace.Keys && EvidenceKnown(lines, trace)
  {
    FinishCovers(lines, trace, digest);
    ShownKnown(lines, trace);
  }

  /** Renaming aliases one-to-one, with the references kept, does not change how lines finish. */
  lemma {:induction false} RenamedSame(lines: seq<Line>, other: seq<Line>, trace: Trace, digest: Digest,
                                       ra: map<Number, Number>, re: map<Number, Number>)
    requires RenamesBy(lines, other, trace, ra, re) && Finish(lines, trace, digest).Ok?
    ensures Finish(other, trace, digest) == Finish(lines, trace, digest)
  {
    FinishShown(lines, trace, digest);
    RenamedShown(lines, ra, re);
    CoverageKept(Shown(lines), trace, trace, re);
    RenamedFinish(lines, trace, trace, ra, re, digest);
  }

  /** And lines that finish alike are renamings of each other. */
  lemma {:induction false} SameRenames(lines: seq<Line>, ordered: seq<Line>, trace: Trace, digest: Digest)
    returns (ra: map<Number, Number>, re: map<Number, Number>)
    requires SameFinishAs(lines, ordered, trace, digest)
    ensures RenamesBy(ordered, lines, trace, ra, re)
  {
    ReorderedReflexive(ordered);
    ReorderedReflexive(lines);
    ra, re := SameFinish(ordered, ordered, lines, lines, trace, trace, digest);
  }

  lemma ExchangeRenamed(lines: seq<Line>, i: nat, ra: map<Number, Number>, re: map<Number, Number>)
    requires i + 1 < |lines|
    ensures Exchanged(RenameLines(lines, ra, re), i) == RenameLines(Exchanged(lines, i), ra, re)
  {}

  lemma {:induction false} BijectiveOnSame(r: map<Number, Number>, xs: seq<Line>, ys: seq<Line>, p: Prefix)
    requires multiset(xs) == multiset(ys) && Bijective(r, Text(xs), p)
    ensures Bijective(r, Text(ys), p)
  {
    SameLinesSameAliases(xs, ys, p);
  }

  lemma {:induction false} TieRenamed(lines: seq<Line>, other: seq<Line>, trace: Trace, i: nat,
                                      ra: map<Number, Number>, re: map<Number, Number>)
    requires RenamesBy(lines, other, trace, ra, re) && EvidenceKnown(lines, trace) && i + 1 < |lines|
    ensures Tied(other[i], other[i + 1], SemanticKey(trace)) <==> Tied(lines[i], lines[i + 1], SemanticKey(trace))
  {
    KnownEvidenceKeepsKeys(lines, trace, trace, ra, re);
    assert lines[i] in lines && lines[i + 1] in lines;
  }

  /** An exchange of tied neighbours, in any lines that finish like the ordered ones, again gives
      such lines: it is the renaming of an exchange in the ordered lines themselves. */
  lemma {:induction false} ExchangeKeeps(lines: seq<Line>, ordered: seq<Line>, trace: Trace, digest: Digest, i: nat)
    requires SameFinishAs(lines, ordered, trace, digest) && TiesUndone(ordered, trace)
    requires i + 1 < |lines| && Tied(lines[i], lines[i + 1], SemanticKey(trace))
    ensures SameFinishAs(Exchanged(lines, i), ordered, trace, digest)
  {
    var ra, re := SameRenames(lines, ordered, trace, digest);
    FinishShown(ordered, trace, digest);
    TieRenamed(ordered, lines, trace, i, ra, re);
    var exchanged := Exchanged(ordered, i);
    assert Renames(ordered, exchanged, trace);
    var sa, se :| RenamesBy(ordered, exchanged, trace, sa, se);
    RenamedSame(ordered, exchanged, trace, digest, sa, se);
    ExchangeRenamed(ordered, i, ra, re);
    ExchangedMembers(ordered, i);
    ExchangedMembers(lines, i);
    BijectiveOnSame(ra, ordered, exchanged, A);
    BijectiveOnSame(re, ordered, exchanged, E);
    RenamedSame(exchanged, Exchanged(lines, i), trace, digest, ra, re);
  }

  // ----- From one arrangement to another, one exchange at a time -----

  /** A property of line lists that every exchange of tied neighbours keeps. */
  ghost predicate KeptByExchanges(good: seq<Line> -> bool, key: Line -> string) {
    forall lines: seq<Line>, i: nat | good(lines) && i + 1 < |lines| && Tied(lines[i], lines[i + 1], key) ::
      good(Exchanged(lines, i))
  }

  lemma {:induction false} ExchangeInside(before: seq<Line>, group: seq<Line>, after: seq<Line>, i: nat)
    returns (lines: seq<Line>, k: nat)
    requires i + 1 < |group|
    ensures lines == before + group + after && k + 1 < |lines|
    ensures lines[k] == group[i] && lines[k + 1] == group[i + 1]
    ensures Exchanged(lines, k) == before + Exchanged(group, i) + after
  {
    lines, k := before + group + after, |before| + i;
  }

  lemma {:induction false} ExchangeInsideKeeps(before: seq<Line>, group: seq<Line>, after: seq<Line>, i: nat,
                                               good: seq<Line> -> bool, key: Line -> string)
    requires KeptByExchanges(good, key) && good(before + group + after)
    requires i + 1 < |group| && Tied(group[i], group[i + 1], key)
    ensures good(before + Exchanged(group, i) + after)
  {
    var lines, k := ExchangeInside(before, group, after, i);
    assert good(Exchanged(lines, k));
  }

  /** The `j`-th line, then the others as they were. */
  function ToFront(group: seq<Line>, j: nat): (r: seq<Line>)
    requires j < |group|
    ensures |r| == |group|
  {
    [group[j]] + Without(group, j)
  }

  lemma MovedToFront(group: seq<Line>, j: nat)
    requires 0 < j < |group|
    ensures ToFront(Exchanged(group, j - 1), j - 1) == ToFront(group, j)
    ensures forall k | 0 <= k < j - 1 :: Exchanged(group, j - 1)[k] == group[k]
    ensures Exchanged(group, j - 1)[j - 1] == group[j]
  {}

  ghost predicate TiedBefore(group: seq<Line>, j: nat, key: Line -> string)
    requires j < |group|
  {
    forall k | 0 <= k < j :: Tied(group[k], group[j], key)
  }

  lemma {:induction false} StillTiedBefore(group: seq<Line>, j: nat, key: Line -> string)
    requires 0 < j < |group| && TiedBefore(group, j, key)
    ensures TiedBefore(Exchanged(group, j - 1), j - 1, key)
  {
    MovedToFront(group, j);
  }

  /** A line moves to the front of its section past lines it ties with. */
  lemma {:induction false} MoveKeeps(before: seq<Line>, group: seq<Line>, after: seq<Line>, j: nat,
                                     good: seq<Line> -> bool, key: Line -> string)
    requires KeptByExchanges(good, key) && good(before + group + after)
    requires j < |group| && TiedBefore(group, j, key)
    ensures good(before + ToFront(group, j) + after)
    decreases j
  {
    if j == 0 {
      assert ToFront(group, j) == group;
    } else {
      ExchangeInsideKeeps(before, group, after, j - 1, good, key);
      StillTiedBefore(group, j, key);
      MoveKeeps(before, Exchanged(group, j - 1), after, j - 1, good, key);
      MovedToFront(group, j);
    }
  }

  /** In a sorted section, whatever another sorting of it puts first ties with all lines before. */
  lemma {:induction false} FirstTies(group: seq<Line>, other: seq<Line>, key: Line -> string) returns (j: nat)
    requires OneTag(group) && Sorted(group, key) && Sorted(other, key)
    requires multiset(group) == multiset(other) && other != []
    ensures j < |group| && group[j] == other[0] && TiedBefore(group, j, key)
  {
    assert other[0] in multiset(group);
    j :| 0 <= j < |group| && group[j] == other[0];
    forall k | 0 <= k < j ensures Tied(group[k], group[j], key) {
      assert group[k] in multiset(other);
      var i :| 0 <= i < |other| && other[i] == group[k];
      if i > 0 {
        LeqAntisymmetric(key(group[k]), key(group[j]));
      }
    }
  }

  lemma {:induction false} WithoutKeeps(group: seq<Line>, j: nat, key: Line -> string)
    requires j < |group| && OneTag(group) && Sorted(group, key)
    ensures OneTag(Without(group, j)) && Sorted(Without(group, j), key)
  {
    var rest := Without(group, j);
    forall i | 0 <= i < |rest| ensures rest[i].tag == group[0].tag {
      assert rest[i] == group[if i < j then i else i + 1];
    }
    forall i, k | 0 <= i < k < |rest| ensures Leq(key(rest[i]), key(rest[k])) {
      assert rest[i] == group[if i < j then i else i + 1] && rest[k] == group[if k < j then k else k + 1];
    }
  }

  lemma Regroup(before: seq<Line>, x: Line, rest: seq<Line>, after: seq<Line>)
    ensures before + ([x] + rest) + after == (before + [x]) + rest + after
  {}

  lemma {:induction false} SameTail(group: seq<Line>, other: seq<Line>, j: nat)
    requires multiset(group) == multiset(other) && other != [] && j < |group| && group[j] == other[0]
    ensures multiset(Without(group, j)) == multiset(other[1..])
  {
    TakeOut(group, j);
    assert other == [other[0]] + other[1..];
    assert multiset(Without(group, j)) == multiset(group) - multiset{other[0]};
    assert multiset(other[1..]) == multiset(other) - multiset{other[0]};
  }

  /** The first line of the other sorting is put in its place. */
  lemma {:induction false} FirstKeeps(before: seq<Line>, group: seq<Line>, other: seq<Line>, after: seq<Line>,
                                      good: seq<Line> -> bool, key: Line -> string) returns (rest: seq<Line>)
    requires KeptByExchanges(good, key) && good(before + group + after)
    requires OneTag(group) && Sorted(group, key) && Sorted(other, key)
    requires multiset(group) == multiset(other) && other != []
    ensures OneTag(rest) && Sorted(rest, key) && multiset(rest) == multiset(other[1..])
    ensures good((before + [other[0]]) + rest + after)
  {
    var j := FirstTies(group, other, key);
    MoveKeeps(before, group, after, j, good, key);
    rest := Without(group, j);
    Regroup(before, other[0], rest, after);
    WithoutKeeps(group, j, key);
    SameTail(group, other, j);
  }

  /** One section sorted another way. */
  lemma {:induction false} SectionKeeps(before: seq<Line>, group: seq<Line>, other: seq<Line>, after: seq<Line>,
                                        good: seq<Line> -> bool, key: Line -> string)
    requires KeptByExchanges(good, key) && good(before + group + after)
    requires OneTag(group) && Sorted(group, key) && Sorted(other, key)
    requires multiset(group) == multiset(other)
    ensures good(before + other + after)
    decreases |other|
  {
    if other == [] {
      assert |group| == |multiset(group)| == 0;
      assert group == other;
    } else {
      var rest := FirstKeeps(before, group, other, after, good, key);
      var first, more := other[0], other[1..];
      SectionKeeps(before + [first], rest, more, after, good, key);
      Regroup(before, first, more, after);
      assert other == [first] + more;
    }
  }

  /** Every section is sorted. */
  ghost predicate InOrder(lines: seq<Line>, key: Line -> string)
    decreases |lines|
  {
    lines != [] ==> Sorted(lines[..RunLength(lines)], key) && InOrder(lines[RunLength(lines)..], key)
  }

  lemma {:induction false} StableOrderInOrder(lines: seq<Line>, key: Line -> string)
    ensures InOrder(StableOrder(lines, key), key)
    decreases |lines|
  {
    if lines != [] {
      var n := RunLength(lines);
      var group, more := Sort(lines[..n], key), StableOrder(lines[n..], key);
      SortIsStableSort(lines[..n], key);
      StableOrderInOrder(lines[n..], key);
      OrderStaysInSections(lines[n..], key);
      ReorderedGlue(lines, group, more);
      assert RunLength(group + more) == n && |group| == n;
      assert (group + more)[..n] == group && (group + more)[n..] == more;
    }
  }

  /** All sections sorted another way. */
  lemma {:induction false} SectionsKeep(before: seq<Line>, lines: seq<Line>, other: seq<Line>,
                                        good: seq<Line> -> bool, key: Line -> string)
    requires KeptByExchanges(good, key) && good(before + lines)
    requires Reordered(lines, other) && InOrder(lines, key) && InOrder(other, key)
    ensures good(before + other)
    decreases |lines|
  {
    if lines == [] {
      assert lines == other;
    } else {
      var n := RunLength(lines);
      Rejoin(before, lines, n);
      SectionKeeps(before, lines[..n], other[..n], lines[n..], good, key);
      SectionsKeep(before + other[..n], lines[n..], other[n..], good, key);
      Rejoin(before, other, n);
    }
  }

  lemma Rejoin(before: seq<Line>, lines: seq<Line>, n: nat)
    requires n <= |lines|
    ensures before + lines == before + lines[..n] + lines[n..]
  {}

  lemma {:induction false} AllSectionsKeep(lines: seq<Line>, other: seq<Line>, good: seq<Line> -> bool,
      key: Line -> string)
    requires KeptByExchanges(good, key) && good(lines)
    requires Reordered(lines, other) && InOrder(lines, key) && InOrder(other, key)
    ensures good(other)
  {
    var none: seq<Line> := [];
    assert none + lines == lines && none + other == other;
    SectionsKeep(none, lines, other, good, key);
  }

  lemma {:induction false} SameFinishKept(ordered: seq<Line>, trace: Trace, digest: Digest)
    requires TiesUndone(ordered, trace)
    ensures KeptByExchanges((lines: seq<Line>) => SameFinishAs(lines, ordered, trace, digest), SemanticKey(trace))
  {
    forall lines: seq<Line>, i: nat
      | SameFinishAs(lines, ordered, trace, digest) && i + 1 < |lines|
        && Tied(lines[i], lines[i + 1], SemanticKey(trace))
      ensures SameFinishAs(Exchanged(lines, i), ordered, trace, digest)
    {
      ExchangeKeeps(lines, ordered, trace, digest, i);
    }
  }

  // ----- The exact condition -----

  lemma Halves(lines: seq<Line>, n: nat)
    requires n <= |lines|
    ensures lines[..n] + lines[n..] == lines
  {}

  lemma ExchangedHalves(group: seq<Line>, more: seq<Line>, i: nat)
    requires i + 1 < |group + more| && (i + 1 < |group| || |group| <= i)
    ensures i + 1 < |group| ==> Exchanged(group + more, i) == Exchanged(group, i) + more
    ensures |group| <= i ==> Exchanged(group + more, i) == group + Exchanged(more, i - |group|)
  {}

  /** Exchanging neighbours of one section is an arrangement. */
  lemma {:induction false} ExchangeReorders(lines: seq<Line>, i: nat)
    requires i + 1 < |lines| && lines[i].tag == lines[i + 1].tag
    ensures Reordered(lines, Exchanged(lines, i))
    decreases |lines|
  {
    var n := RunLength(lines);
    var group, more := lines[..n], lines[n..];
    Halves(lines, n);
    ExchangedHalves(group, more, i);
    if i + 1 < n {
      ExchangedMembers(group, i);
      ReorderedReflexive(more);
      ReorderedGlue(lines, Exchanged(group, i), more);
    } else {
      assert more[i - n] == lines[i] && more[i - n + 1] == lines[i + 1];
      ExchangeReorders(more, i - n);
      ReorderedGlue(lines, group, Exchanged(more, i - n));
    }
  }

  lemma {:induction false} SortedIsSorted(group: seq<Line>, key: Line -> string)
    requires Sorted(group, key)
    ensures Sort(group, key) == group
  {
    SortIsStableSort(group, key);
    StableSortUnique(Sort(group, key), group, key);
  }

  lemma {:induction false} InOrderIsOrdered(lines: seq<Line>, key: Line -> string)
    requires InOrder(lines, key)
    ensures StableOrder(lines, key) == lines
    decreases |lines|
  {
    if lines != [] {
      var n := RunLength(lines);
      SortedIsSorted(lines[..n], key);
      InOrderIsOrdered(lines[n..], key);
      Halves(lines, n);
    }
  }

  lemma {:induction false} ExchangeSorted(group: seq<Line>, i: nat, key: Line -> string)
    requires i + 1 < |group| && Sorted(group, key) && key(group[i]) == key(group[i + 1])
    ensures Sorted(Exchanged(group, i), key)
  {
    var other := Exchanged(group, i);
    forall j, k | 0 <= j < k < |other| ensures Leq(key(other[j]), key(other[k])) {
      assert key(other[j]) == key(group[j]) && key(other[k]) == key(group[k]);
    }
  }

  lemma {:induction false} InOrderHalves(group: seq<Line>, more: seq<Line>, key: Line -> string)
    requires group != [] && RunLength(group + more) == |group|
    ensures InOrder(group + more, key) <==> Sorted(group, key) && InOrder(more, key)
  {
    assert (group + more)[..|group|] == group && (group + more)[|group|..] == more;
  }

  lemma {:induction false} ExchangeInOrder(lines: seq<Line>, i: nat, key: Line -> string)
    requires i + 1 < |lines| && InOrder(lines, key) && Tied(lines[i], lines[i + 1], key)
    ensures InOrder(Exchanged(lines, i), key)
    decreases |lines|
  {
    var n := RunLength(lines);
    var group, more := lines[..n], lines[n..];
    ExchangeReorders(lines, i);
    Halves(lines, n);
    ExchangedHalves(group, more, i);
    if i + 1 < n {
      ExchangeSorted(group, i, key);
      InOrderHalves(Exchanged(group, i), more, key);
    } else {
      ExchangeInOrder(more, i - n, key);
      InOrderHalves(group, Exchanged(more, i - n), key);
    }
  }

  /** The order of an accepted checkpoint's lines, and what finishes its view. */
  function TraceOf(m: Memory): Trace {
    if m.last.TraceLine? && ParseTrace(m.last.entries).Some? then ParseTrace(m.last.entries).value else map[]
  }

  function OrderedBody(m: Memory): seq<Line> {
    StableOrder(m.body, SemanticKey(TraceOf(m)))
  }

  lemma {:induction false} Arranged(m: Memory, body: seq<Line>, digest: Digest)
    requires PairedControlMemory(m, digest).Ok? && OneLine(m.body) && Reordered(m.body, body)
    ensures PairedControlMemory(m, digest) == Finish(OrderedBody(m), TraceOf(m), digest)
    ensures PairedControlMemory(m.(body := body), digest)
      == Finish(StableOrder(body, SemanticKey(TraceOf(m))), TraceOf(m), digest)
    ensures Reordered(OrderedBody(m), StableOrder(body, SemanticKey(TraceOf(m))))
    ensures OneLine(OrderedBody(m)) && OrderedBody(m) != []
  {
    var key := SemanticKey(TraceOf(m));
    OrderStaysInSections(m.body, key);
    OrderStaysInSections(body, key);
    ReorderedSymmetric(m.body, OrderedBody(m));
    ReorderedTransitive(OrderedBody(m), m.body, body);
    ReorderedTransitive(OrderedBody(m), body, StableOrder(body, key));
    SameMembers(m.body, OrderedBody(m));
  }

  /** The view is the same however each section's lines arrive arranged. */
  ghost predicate ForgetsArrangement(m: Memory, digest: Digest) {
    forall body | Reordered(m.body, body) ::
      PairedControlMemory(m.(body := body), digest) == PairedControlMemory(m, digest)
  }

  lemma {:induction false} ArrangementForgotten(m: Memory, body: seq<Line>, digest: Digest)
    requires PairedControlMemory(m, digest).Ok? && OneLine(m.body) && Reordered(m.body, body)
    requires TiesUndone(OrderedBody(m), TraceOf(m))
    ensures PairedControlMemory(m.(body := body), digest) == PairedControlMemory(m, digest)
  {
    var key, ordered, other := SemanticKey(TraceOf(m)), OrderedBody(m), StableOrder(body, SemanticKey(TraceOf(m)));
    Arranged(m, body, digest);
    StableOrderInOrder(m.body, key);
    StableOrderInOrder(body, key);
    SameFinishKept(ordered, TraceOf(m), digest);
    AllSectionsKeep(ordered, other, (lines: seq<Line>) => SameFinishAs(lines, ordered, TraceOf(m), digest), key);
  }

  lemma {:induction false} ArrangementShows(m: Memory, i: nat, digest: Digest)
    requires PairedControlMemory(m, digest).Ok? && OneLine(m.body) && ForgetsArrangement(m, digest)
    requires i + 1 < |OrderedBody(m)| && Tied(OrderedBody(m)[i], OrderedBody(m)[i + 1], SemanticKey(TraceOf(m)))
    ensures Renames(OrderedBody(m), Exchanged(OrderedBody(m), i), TraceOf(m))
  {
    var key, ordered, other := SemanticKey(TraceOf(m)), OrderedBody(m), Exchanged(OrderedBody(m), i);
    OrderStaysInSections(m.body, key);
    ExchangeReorders(ordered, i);
    ReorderedTransitive(m.body, ordered, other);
    Arranged(m, other, digest);
    StableOrderInOrder(m.body, key);
    ExchangeInOrder(ordered, i, key);
    InOrderIsOrdered(other, key);
    ExchangedMembers(ordered, i);
    assert PairedControlMemory(m.(body := other), digest) == PairedControlMemory(m, digest);
    var ra, re := SameRenames(other, ordered, TraceOf(m), digest);
  }

  /** How the lines of an accepted checkpoint arrive arranged does not reach its view exactly when
      exchanging any two tied neighbours of its ordered body is undone by a one-to-one renaming of
      aliases that keeps the references. */
  lemma {:induction false} ViewForgetsArrangementIff(m: Memory, digest: Digest)
    requires PairedControlMemory(m, digest).Ok? && OneLine(m.body)
    ensures ForgetsArrangement(m, digest) <==> TiesUndone(OrderedBody(m), TraceOf(m))
  {
    if TiesUndone(OrderedBody(m), TraceOf(m)) {
      forall body | Reordered(m.body, body)
        ensures PairedControlMemory(m.(body := body), digest) == PairedControlMemory(m, digest)
      {
        ArrangementForgotten(m, body, digest);
      }
    }
    if ForgetsArrangement(m, digest) {
      var ordered, trace := OrderedBody(m), TraceOf(m);
      forall i: nat | i + 1 < |ordered| && Tied(ordered[i], ordered[i + 1], SemanticKey(trace))
        ensures Renames(ordered, Exchanged(ordered, i), trace)
      {
        ArrangementShows(m, i, digest);
      }
    }
  }

  // ----- Any presentation -----

  lemma {:induction false} PullBack<T, U>(f: T -> U, xs: seq<T>, ys: seq<U>) returns (zs: seq<T>)
    requires multiset(Map(f, xs)) == multiset(ys)
    ensures multiset(zs) == multiset(xs) && Map(f, zs) == ys
    decreases |ys|
  {
    if ys == [] {
      assert |xs| == |Map(f, xs)| == |multiset(Map(f, xs))| == 0;
      zs := xs;
    } else {
      assert ys[0] in multiset(Map(f, xs));
      var i :| 0 <= i < |xs| && Map(f, xs)[i] == ys[0];
      assert ys == [ys[0]] + ys[1..];
      MapTakeOut(f, xs, i);
      TakeOut(xs, i);
      assert multiset(Map(f, Without(xs, i))) == multiset(ys) - multiset{ys[0]} == multiset(ys[1..]);
      var rest := PullBack(f, Without(xs, i), ys[1..]);
      zs := [xs[i]] + rest;
      MapCons(f, xs[i], rest);
    }
  }

  /** An arrangement of renamed lines is the renaming of an arrangement. */
  lemma {:induction false} ArrangedFirst(xs: seq<Line>, ys: seq<Line>, ra: map<Number, Number>, re: map<Number, Number>)
    returns (zs: seq<Line>)
    requires Reordered(RenameLines(xs, ra, re), ys)
    ensures Reordered(xs, zs) && RenameLines(zs, ra, re) == ys
    decreases |xs|
  {
    if xs == [] {
      zs := [];
    } else {
      var n := RunLength(xs);
      RunLengthRename(xs, ra, re);
      SplitRename(xs, n, ra, re);
      var group := PullBack(RenameLine(ra, re), xs[..n], ys[..n]);
      var more := ArrangedFirst(xs[n..], ys[n..], ra, re);
      ReorderedGlue(xs, group, more);
      MapConcat(RenameLine(ra, re), group, more);
      Halves(ys, n);
      zs := group + more;
    }
  }

  /** Renaming alone does not reach the view. */
  lemma {:induction false} RenamedView(m: Memory, m': Memory, ra: map<Number, Number>, re: map<Number, Number>,
      digest: Digest)
    requires Presents(m, m', ra, re) && m'.body == RenameLines(m.body, ra, re)
    ensures PairedControlMemory(m', digest) == PairedControlMemory(m, digest)
  {
    if m.body != [] && m.first.CompactHeader? && m.last.TraceLine? {
      ParseRenamed(m.last.entries, m'.last.entries, re);
      if m.last.entries != [] && ParseTrace(m.last.entries).Some? {
        FinishRenamed(m.body, TraceOf(m), TraceOf(m'), ra, re, digest);
      }
    }
  }

  lemma {:induction false} PresentationForgotten(m: Memory, m': Memory, ra: map<Number, Number>,
      re: map<Number, Number>, digest: Digest)
    requires PairedControlMemory(m, digest).Ok? && OneLine(m.body) && Presents(m, m', ra, re)
    requires TiesUndone(OrderedBody(m), TraceOf(m))
    ensures PairedControlMemory(m', digest) == PairedControlMemory(m, digest)
  {
    var body := ArrangedFirst(m.body, m'.body, ra, re);
    ArrangementForgotten(m, body, digest);
    ReorderedMembers(m.body, body);
    BijectiveOnSame(ra, m.body, body, A);
    BijectiveOnSame(re, m.body, body, E);
    ReorderedReflexive(m'.body);
    RenamedView(m.(body := body), m', ra, re, digest);
  }

  function Identity(s: set<Number>): map<Number, Number> {
    map n | n in s :: n
  }

  lemma {:induction false} IdentityRenames(lines: seq<Line>, sa: set<Number>, se: set<Number>)
    ensures RenameLines(lines, Identity(sa), Identity(se)) == lines
  {
    forall i | 0 <= i < |lines| ensures RenameLine(Identity(sa), Identity(se))(lines[i]) == lines[i] {
      assert RenameBoth(lines[i].rest, Identity(sa), Identity(se)) == lines[i].rest;
    }
  }

  lemma {:induction false} IdentityBijective(text: seq<Token>, p: Prefix)
    ensures Bijective(Identity(Members(FirstUses(text, p))), text, p)
  {
    FirstUsesListsAliases(text, p);
  }

  lemma IdentityEntries(entries: seq<Entry>, s: set<Number>)
    ensures Map(RenameEntry(Identity(s)), entries) == entries
  {}

  /** The trace of an accepted checkpoint names only evidence its body shows. */
  lemma {:induction false} EntriesShown(m: Memory, digest: Digest)
    requires PairedControlMemory(m, digest).Ok?
    ensures forall n :: EvidenceAlias(n) in Names(m.last.entries) ==> n in Shown(m.body)
  {
    OrderedShown(m.body, SemanticKey(TraceOf(m)));
    FinishCovers(OrderedBody(m), TraceOf(m), digest);
    ParseTraceAccepts(m.last.entries);
    forall n | EvidenceAlias(n) in Names(m.last.entries) ensures n in Shown(m.body) {
      NamedInTrace(m.last.entries, TraceOf(m), n);
    }
  }

  /** Another arrangement is another presentation. */
  lemma {:induction false} ArrangementPresents(m: Memory, body: seq<Line>, digest: Digest)
    returns (ra: map<Number, Number>, re: map<Number, Number>)
    requires PairedControlMemory(m, digest).Ok? && Reordered(m.body, body)
    ensures Presents(m, m.(body := body), ra, re)
  {
    var atoms := Members(FirstUses(Text(m.body), A));
    ra, re := Identity(atoms), Identity(Shown(m.body));
    IdentityBijective(Text(m.body), A);
    IdentityBijective(Text(m.body), E);
    IdentityRenames(m.body, atoms, Shown(m.body));
    IdentityEntries(m.last.entries, Shown(m.body));
    EntriesShown(m, digest);
  }

  /** The view is the same for every presentation of the content. */
  ghost predicate ForgetsPresentation(m: Memory, digest: Digest) {
    forall m', ra, re | Presents(m, m', ra, re) :: PairedControlMemory(m', digest) == PairedControlMemory(m, digest)
  }

  /** The view of an accepted checkpoint depends on its content only exactly when its ties are
      undone.  Views of different contents differ in any case. */
  lemma {:induction false} ViewForgetsPresentationIff(m: Memory, digest: Digest)
    requires PairedControlMemory(m, digest).Ok? && OneLine(m.body)
    ensures ForgetsPresentation(m, digest) <==> TiesUndone(OrderedBody(m), TraceOf(m))
  {
    if TiesUndone(OrderedBody(m), TraceOf(m)) {
      forall m', ra, re | Presents(m, m', ra, re)
        ensures PairedControlMemory(m', digest) == PairedControlMemory(m, digest)
      {
        PresentationForgotten(m, m', ra, re, digest);
      }
    }
    if ForgetsPresentation(m, digest) {
      forall body | Reordered(m.body, body)
        ensures PairedControlMemory(m.(body := body), digest) == PairedControlMemory(m, digest)
      {
        var ra, re := ArrangementPresents(m, body, digest);
      }
      ViewForgetsArrangementIff(m, digest);
    }
  }

  /** Distinct semantic keys are enough. */
  lemma {:induction false} DistinguishableUndone(m: Memory, digest: Digest)
    requires PairedControlMemory(m, digest).Ok? && OneLine(m.body) && Distinguishable(m)
    ensures TiesUndone(OrderedBody(m), TraceOf(m))
  {
    forall m', ra, re | Presents(m, m', ra, re)
      ensures PairedControlMemory(m', digest) == PairedControlMemory(m, digest)
    {
      ViewForgetsPresentation(m, m', ra, re, digest);
    }
    ViewForgetsPresentationIff(m, digest);
  }

  /** Where ties are undone the view is a canonical form: one view means one content. */
  lemma {:induction false} ViewCanonicalWhenUndone(m: Memory, m': Memory, digest: Digest)
    requires OneLine(m.body) && OneLine(m'.body)
    requires PairedControlMemory(m, digest).Ok? && PairedControlMemory(m', digest).Ok?
    requires TiesUndone(OrderedBody(m), TraceOf(m))
    ensures PairedControlMemory(m, digest) == PairedControlMemory(m', digest)
      <==> exists ra, re :: Presents(m, m', ra, re)
  {
    if PairedControlMemory(m, digest) == PairedControlMemory(m', digest) {
      var ra, re := SameViewPresents(m, m', digest);
    }
    if ra, re :| Presents(m, m', ra, re) {
      PresentationForgotten(m, m', ra, re, digest);
    }
  }

  lemma {:induction false} TiedAliases(lines: seq<Line>)
    requires lines == [TIED, TIED_TOO]
    ensures forall n :: Alias(A, n) in Text(lines) ==> n == 1 || n == 2
    ensures forall n :: Alias(E, n) in Text(lines) ==> n == 1
  {
    forall p, n | Alias(p, n) in Text(lines) ensures if p.A? then n == 1 || n == 2 else n == 1 {
      TextAliases(lines, p, n);
    }
  }

  lemma {:induction false} TiedRenamed(lines: seq<Line>, ra: map<Number, Number>, re: map<Number, Number>)
    requires lines == [TIED, TIED_TOO] && ra == map[1 := 2, 2 := 1] && re == map[1 := 1]
    ensures Exchanged(lines, 0) == RenameLines(lines, ra, re)
  {
    assert RenameBoth(TIED.rest, ra, re) == TIED_TOO.rest;
    assert RenameBoth(TIED_TOO.rest, ra, re) == TIED.rest;
    assert RenameLine(ra, re)(TIED) == TIED_TOO && RenameLine(ra, re)(TIED_TOO) == TIED;
  }

  lemma TiedTraceKept(trace: Trace, re: map<Number, Number>)
    requires trace == map[1 := "r"] && re == map[1 := 1]
    ensures TraceRenamed(trace, trace, re)
  {}

  lemma {:induction false} OneTieUndone(lines: seq<Line>, trace: Trace, ra: map<Number, Number>,
      re: map<Number, Number>)
    requires |lines| == 2 && RenamesBy(lines, Exchanged(lines, 0), trace, ra, re)
    ensures TiesUndone(lines, trace)
  {
    assert Renames(lines, Exchanged(lines, 0), trace);
  }

  lemma TiedOneToOne(lines: seq<Line>, ra: map<Number, Number>, re: map<Number, Number>)
    requires ra == map[1 := 2, 2 := 1] && re == map[1 := 1]
    requires forall n :: Alias(A, n) in Text(lines) ==> n == 1 || n == 2
    requires forall n :: Alias(E, n) in Text(lines) ==> n == 1
    ensures Bijective(ra, Text(lines), A) && Bijective(re, Text(lines), E)
  {}

  lemma RenamesByParts(lines: seq<Line>, other: seq<Line>, trace: Trace, ra: map<Number, Number>,
      re: map<Number, Number>)
    requires Bijective(ra, Text(lines), A) && Bijective(re, Text(lines), E)
    requires other == RenameLines(lines, ra, re) && TraceRenamed(trace, trace, re)
    ensures RenamesBy(lines, other, trace, ra, re)
  {}

  lemma {:induction false} TiedRenamesBy(lines: seq<Line>, trace: Trace, ra: map<Number, Number>,
      re: map<Number, Number>)
    requires lines == [TIED, TIED_TOO] && trace == map[1 := "r"]
    requires ra == map[1 := 2, 2 := 1] && re == map[1 := 1]
    ensures RenamesBy(lines, Exchanged(lines, 0), trace, ra, re)
  {
    TiedAliases(lines);
    TiedOneToOne(lines, ra, re);
    TiedRenamed(lines, ra, re);
    TiedTraceKept(trace, re);
    RenamesByParts(lines, Exchanged(lines, 0), trace, ra, re);
  }

  lemma {:induction false} TiedDiffer(lines: seq<Line>)
    requires lines == [TIED, TIED_TOO]
    ensures lines[0] != lines[1] && lines[0].tag == lines[1].tag
  {
    assert lines[0].rest[1] != lines[1].rest[1];
  }

  /** A tie may be undone without distinct keys: two lines that differ in one alias each. */
  lemma {:induction false} HarmlessTie(lines: seq<Line>, trace: Trace)
    requires lines == [TIED, TIED_TOO] && trace == map[1 := "r"]
    ensures lines[0] != lines[1] && Tied(lines[0], lines[1], SemanticKey(trace))
    ensures TiesUndone(lines, trace)
  {
    TieKeys(trace);
    TiedDiffer(lines);
    TiedRenamesBy(lines, trace, map[1 := 2, 2 := 1], map[1 := 1]);
    OneTieUndone(lines, trace, map[1 := 2, 2 := 1], map[1 := 1]);
  }
}
