/** The paired-arm view of a compact checkpoint: evidence trace parsed, renderer ties put in a
    stable order inside each section, aliases renumbered by first use, and the random header
    identity replaced by a digest of what is shown. */
module ControlView {
  import opened Basics
  import opened StableSorting
  import opened AliasNormalForm

  /** One rendered line: its section tag and the text after it. */
  datatype Line = Line(tag: string, rest: seq<Token>)

  datatype EntryName = EvidenceAlias(number: Number) | OtherName(text: string)

  /** One `alias=references` part of the trace line; a part without `=` has no references. */
  datatype Entry = Entry(name: EntryName, references: string)

  datatype FirstLine = CompactHeader(id: string) | OtherFirst(text: string)

  datatype LastLine = TraceLine(entries: seq<Entry>) | OtherLast(text: string)

  datatype Memory = Memory(first: FirstLine, body: seq<Line>, last: LastLine)

  datatype View = View(digest: string, body: seq<Token>, trace: seq<(nat, string)>)

  datatype Error = NotCompact | TraceInvalid | TraceNotCovering

  datatype Result<T> = Ok(value: T) | Err(error: Error)

  type Trace = map<Number, string>

  type Digest = (seq<Token>, seq<(nat, string)>) -> string

  // ----- Evidence trace -----

  function ParseTrace(entries: seq<Entry>): Option<Trace> {
    if entries == [] then Some(map[]) else
      var last := entries[|entries| - 1];
      var before := ParseTrace(entries[..|entries| - 1]);
      if before.None? || !last.name.EvidenceAlias? || last.references == "" || last.name.number in before.value
      then None
      else Some(before.value[last.name.number := last.references])
  }

  ghost predicate AllValid(entries: seq<Entry>) {
    forall e | e in entries :: e.name.EvidenceAlias? && e.references != ""
  }

  function Names(entries: seq<Entry>): set<EntryName> {
    set e | e in entries :: e.name
  }

  lemma {:induction false} NamesGrow(init: seq<Entry>, last: Entry)
    ensures Names(init + [last]) == Names(init) + {last.name}
    ensures AllValid(init + [last]) <==> AllValid(init) && last.name.EvidenceAlias? && last.references != ""
    ensures last.name in Names(init) <==> exists e :: e in init && e.name == last.name
  {
    var all := init + [last];
    assert last in all;
    if AllValid(all) {
      forall e | e in init ensures e in all {}
    }
  }

  /** The map a list of entries describes. */
  ghost predicate Holds(entries: seq<Entry>, trace: Trace) {
    forall n, refs ::
      Entry(EvidenceAlias(n), refs) in entries <==> n in trace && trace[n] == refs
  }

  lemma {:induction false} NamedInTrace(entries: seq<Entry>, trace: Trace, n: Number)
    requires Holds(entries, trace)
    ensures n in trace <==> EvidenceAlias(n) in Names(entries)
  {
    if n in trace {
      assert Entry(EvidenceAlias(n), trace[n]) in entries;
    }
    if e :| e in entries && e.name == EvidenceAlias(n) {
      assert Entry(EvidenceAlias(n), e.references) in entries;
    }
  }

  lemma {:induction false} HoldsOneMore(init: seq<Entry>, trace: Trace, n: Number, refs: string)
    requires Holds(init, trace) && n !in trace
    ensures Holds(init + [Entry(EvidenceAlias(n), refs)], trace[n := refs])
  {
    assert forall r :: Entry(EvidenceAlias(n), r) in init ==> n in trace;
  }

  /** What the trace loop accepts: well-formed entries, no alias twice; the map holds them all. */
  lemma {:induction false} ParseTraceAccepts(entries: seq<Entry>)
    ensures |Names(entries)| <= |entries|
    ensures ParseTrace(entries).Some? <==> AllValid(entries) && |Names(entries)| == |entries|
    ensures ParseTrace(entries).Some? ==> Holds(entries, ParseTrace(entries).value)
  {
    if entries != [] {
      var init, last := entries[..|entries| - 1], entries[|entries| - 1];
      assert entries == init + [last];
      ParseTraceAccepts(init);
      NamesGrow(init, last);
      if ParseTrace(init).Some? && last.name.EvidenceAlias? {
        NamedInTrace(init, ParseTrace(init).value, last.name.number);
        if ParseTrace(entries).Some? {
          HoldsOneMore(init, ParseTrace(init).value, last.name.number, last.references);
        }
      }
    }
  }

  method ReadTrace(entries: seq<Entry>) returns (r: Option<Trace>)
    ensures r == ParseTrace(entries)
  {
    var traceByAlias: Trace := map[];
    for i := 0 to |entries|
      invariant ParseTrace(entries[..i]) == Some(traceByAlias)
    {
      var e := entries[i];
      assert entries[..i + 1][..i] == entries[..i];
      if !e.name.EvidenceAlias? || e.references == "" || e.name.number in traceByAlias {
        ParseFailureStays(entries, i + 1);
        return None;
      }
      traceByAlias := traceByAlias[e.name.number := e.references];
    }
    assert entries[..|entries|] == entries;
    return Some(traceByAlias);
  }

  lemma {:induction false} ParseFailureStays(entries: seq<Entry>, n: nat)
    requires n <= |entries| && ParseTrace(entries[..n]).None?
    ensures ParseTrace(entries).None?
    decreases |entries| - n
  {
    if n == |entries| {
      assert entries[..n] == entries;
    } else {
      assert entries[..n + 1][..n] == entries[..n];
      ParseFailureStays(entries, n + 1);
    }
  }

  // ----- Stable order inside each section -----

  function TokenKey(t: Token, trace: Trace): string {
    match t
    case Literal(text) => text
    case Alias(A, _) => "A"
    case Alias(E, n) => if n in trace then trace[n] else "E" + Decimal(n)
  }

  function TextKey(rest: seq<Token>, trace: Trace): string {
    if rest == [] then "" else TokenKey(rest[0], trace) + TextKey(rest[1..], trace)
  }

  /** What the key of a text is: literal words are kept, */
  lemma {:induction false} TextKeyIs(a: seq<Token>, word: string, b: seq<Token>, trace: Trace)
    ensures TextKey([Literal(word)], trace) == word
    ensures TextKey(a + b, trace) == TextKey(a, trace) + TextKey(b, trace)
  {
    assert [Literal(word)][1..] == [];
    if a == [] {
      assert a + b == b;
    } else {
      assert (a + b)[1..] == a[1..] + b;
      TextKeyIs(a[1..], word, b, trace);
    }
  }

  /** atom aliases all read `A`, an evidence alias reads as its references, and one without references
      as it stands. */
  lemma {:induction false} KeyReads(a: seq<Token>, n: Number, b: seq<Token>, trace: Trace)
    ensures TextKey(a + [Alias(A, n)] + b, trace) == TextKey(a + [Literal("A")] + b, trace)
    ensures n in trace ==> TextKey(a + [Alias(E, n)] + b, trace) == TextKey(a + [Literal(trace[n])] + b, trace)
    ensures n !in trace ==> TextKey(a + [Alias(E, n)] + b, trace) == TextKey(a + [Literal("E" + Decimal(n))] + b, trace)
  {
    KeyInside(a, Alias(A, n), Literal("A"), b, trace);
    KeyInside(a, Alias(E, n), Literal(if n in trace then trace[n] else "E" + Decimal(n)), b, trace);
  }

  lemma {:induction false} KeyInside(a: seq<Token>, s: Token, t: Token, b: seq<Token>, trace: Trace)
    requires TokenKey(s, trace) == TokenKey(t, trace)
    ensures TextKey(a + [s] + b, trace) == TextKey(a + [t] + b, trace)
  {
    TextKeyIs(a, "", [s], trace);
    TextKeyIs(a, "", [t], trace);
    TextKeyIs(a + [s], "", b, trace);
    TextKeyIs(a + [t], "", b, trace);
    assert [s][1..] == [] && [t][1..] == [];
  }

  /** The line with evidence aliases expanded to their references and atom aliases blanked. */
  function SemanticKey(trace: Trace): Line -> string {
    (l: Line) => l.tag + TextKey(l.rest, trace)
  }

  lemma LineKeyIs(l: Line, trace: Trace)
    ensures SemanticKey(trace)(l) == TextKey([Literal(l.tag)] + l.rest, trace)
  {
    assert ([Literal(l.tag)] + l.rest)[1..] == l.rest;
  }

  /** How many leading lines share the first line's tag. */
  function RunLength(lines: seq<Line>): (n: nat)
    ensures n <= |lines| && (lines != [] ==> 0 < n)
    ensures forall i | 0 <= i < n :: lines[i].tag == lines[0].tag
    ensures n < |lines| && lines != [] ==> lines[n].tag != lines[0].tag
  {
    if |lines| <= 1 then |lines|
    else if lines[1].tag != lines[0].tag then 1
    else 1 + RunLength(lines[1..])
  }

  function StableOrder(lines: seq<Line>, key: Line -> string): (r: seq<Line>)
    ensures |r| == |lines|
  {
    if lines == [] then [] else
      var n := RunLength(lines);
      Sort(lines[..n], key) + StableOrder(lines[n..], key)
  }

  lemma {:induction false} RunLengthIs(lines: seq<Line>, n: nat)
    requires 0 < n <= |lines|
    requires forall i | 0 <= i < n :: lines[i].tag == lines[0].tag
    requires n < |lines| ==> lines[n].tag != lines[0].tag
    ensures RunLength(lines) == n
  {
    if |lines| > 1 && lines[1].tag == lines[0].tag {
      RunLengthIs(lines[1..], n - 1);
    }
  }

  method StableCompactBodyOrder(lines: seq<Line>, trace: Trace) returns (ordered: seq<Line>)
    ensures ordered == StableOrder(lines, SemanticKey(trace))
  {
    var key := SemanticKey(trace);
    ordered := [];
    var group: seq<Line> := [];
    var groupTag := "";
    StartPending(lines, key);
    for i := 0 to |lines|
      invariant OneTag(group) && (group != [] ==> group[0].tag == groupTag)
      invariant Pending(ordered, group, lines[i..], lines, key)
    {
      var line := lines[i];
      ghost var next := Collected(ordered, group, line, key);
      StepPending(ordered, group, lines, i, key);
      if group != [] && line.tag != groupTag {
        ordered := ordered + Sort(group, key);
        group := [];
      }
      group := group + [line];
      groupTag := line.tag;
      assert ordered == next.0 && group == next.1;
    }
    EndPending(ordered, group, lines, key);
    ordered := ordered + Sort(group, key);
  }

  ghost predicate OneTag(group: seq<Line>) {
    forall i | 0 <= i < |group| :: group[i].tag == group[0].tag
  }

  /** `ordered` is out, `group` is collected, `more` is unread: the rest of the order follows. */
  ghost predicate Pending(ordered: seq<Line>, group: seq<Line>, more: seq<Line>, lines: seq<Line>,
      key: Line -> string) {
    StableOrder(lines, key) == ordered + StableOrder(group + more, key)
  }

  lemma {:induction false} StartPending(lines: seq<Line>, key: Line -> string)
    ensures Pending([], [], lines[0..], lines, key)
  {
    assert [] + lines[0..] == lines;
  }

  lemma {:induction false} FlushPending(ordered: seq<Line>, group: seq<Line>, more: seq<Line>, lines: seq<Line>,
      key: Line -> string)
    requires group != [] && OneTag(group) && more != [] && more[0].tag != group[0].tag
    requires Pending(ordered, group, more, lines, key)
    ensures Pending(ordered + Sort(group, key), [], more, lines, key)
  {
    OrderFirstGroup(group, more, key);
    assert [] + more == more;
    Reassociate(ordered, Sort(group, key), StableOrder(more, key));
  }

  lemma Reassociate(a: seq<Line>, b: seq<Line>, c: seq<Line>)
    ensures a + (b + c) == (a + b) + c
  {}

  lemma {:induction false} AdmitPending(ordered: seq<Line>, group: seq<Line>, lines: seq<Line>, i: nat,
      key: Line -> string)
    requires i < |lines| && OneTag(group)
    requires group != [] ==> lines[i].tag == group[0].tag
    requires Pending(ordered, group, lines[i..], lines, key)
    ensures OneTag(group + [lines[i]]) && Pending(ordered, group + [lines[i]], lines[i + 1..], lines, key)
  {
    assert group + lines[i..] == (group + [lines[i]]) + lines[i + 1..];
  }

  ghost function Collected(ordered: seq<Line>, group: seq<Line>, line: Line, key: Line -> string): (seq<Line>,
      seq<Line>) {
    if group != [] && line.tag != group[0].tag then (ordered + Sort(group, key), [] + [line])
    else (ordered, group + [line])
  }

  lemma {:induction false} StepPending(ordered: seq<Line>, group: seq<Line>, lines: seq<Line>, i: nat,
      key: Line -> string)
    requires i < |lines| && OneTag(group)
    requires Pending(ordered, group, lines[i..], lines, key)
    ensures var next := Collected(ordered, group, lines[i], key);
      OneTag(next.1) && Pending(next.0, next.1, lines[i + 1..], lines, key)
  {
    if group != [] && lines[i].tag != group[0].tag {
      FlushPending(ordered, group, lines[i..], lines, key);
      AdmitPending(ordered + Sort(group, key), [], lines, i, key);
    } else {
      AdmitPending(ordered, group, lines, i, key);
    }
  }

  lemma {:induction false} EndPending(ordered: seq<Line>, group: seq<Line>, lines: seq<Line>, key: Line -> string)
    requires OneTag(group) && Pending(ordered, group, lines[|lines|..], lines, key)
    ensures StableOrder(lines, key) == ordered + Sort(group, key)
  {
    assert group + lines[|lines|..] == group == group + [];
    if group != [] {
      OrderFirstGroup(group, [], key);
    }
  }

  lemma {:induction false} OrderFirstGroup(group: seq<Line>, more: seq<Line>, key: Line -> string)
    requires group != [] && OneTag(group)
    requires more != [] ==> more[0].tag != group[0].tag
    ensures StableOrder(group + more, key) == Sort(group, key) + StableOrder(more, key)
  {
    var all := group + more;
    RunLengthIs(all, |group|);
    assert all[..|group|] == group && all[|group|..] == more;
  }

  /** The same sections in the same places, each with its lines in some order. */
  ghost predicate Reordered(xs: seq<Line>, ys: seq<Line>)
    decreases |xs|
  {
    |xs| == |ys| && (xs != [] ==>
      var n := RunLength(xs);
      RunLength(ys) == n && multiset(xs[..n]) == multiset(ys[..n]) && Reordered(xs[n..], ys[n..]))
  }

  lemma {:induction false} ReorderedMembers(xs: seq<Line>, ys: seq<Line>)
    requires Reordered(xs, ys)
    ensures multiset(xs) == multiset(ys)
    decreases |xs|
  {
    if xs != [] {
      var n := RunLength(xs);
      ReorderedMembers(xs[n..], ys[n..]);
      assert xs == xs[..n] + xs[n..] && ys == ys[..n] + ys[n..];
    } else {
      assert xs == ys;
    }
  }

  lemma {:induction false} ReorderedHead(xs: seq<Line>, ys: seq<Line>)
    requires Reordered(xs, ys) && xs != []
    ensures ys[0].tag == xs[0].tag
  {
    var n := RunLength(xs);
    assert ys[0] in ys[..n];
    assert ys[0] in multiset(ys[..n]);
    assert ys[0] in xs[..n];
  }

  lemma {:induction false} ReorderedSymmetric(xs: seq<Line>, ys: seq<Line>)
    requires Reordered(xs, ys)
    ensures Reordered(ys, xs)
    decreases |xs|
  {
    if xs != [] {
      var n := RunLength(xs);
      ReorderedSymmetric(xs[n..], ys[n..]);
    }
  }

  lemma {:induction false} ReorderedTransitive(xs: seq<Line>, ys: seq<Line>, zs: seq<Line>)
    requires Reordered(xs, ys) && Reordered(ys, zs)
    ensures Reordered(xs, zs)
    decreases |xs|
  {
    if xs != [] {
      var n := RunLength(xs);
      ReorderedTransitive(xs[n..], ys[n..], zs[n..]);
    }
  }

  lemma {:induction false} ReorderedReflexive(xs: seq<Line>)
    ensures Reordered(xs, xs)
    decreases |xs|
  {
    if xs != [] {
      ReorderedReflexive(xs[RunLength(xs)..]);
    }
  }

  /** Glues a reordered first section to a reordered remainder. */
  lemma {:induction false} ReorderedGlue(xs: seq<Line>, group: seq<Line>, more: seq<Line>)
    requires xs != []
    requires multiset(group) == multiset(xs[..RunLength(xs)])
    requires Reordered(xs[RunLength(xs)..], more)
    ensures Reordered(xs, group + more)
  {
    var n := RunLength(xs);
    var ys := group + more;
    assert |group| == |multiset(group)| == |xs[..n]|;
    forall l | l in group ensures l.tag == xs[0].tag {
      assert l in multiset(group);
      assert l in xs[..n];
    }
    assert group[0] in group;
    if more != [] {
      ReorderedHead(xs[n..], more);
    }
    forall i | 0 <= i < n ensures ys[i].tag == ys[0].tag {
      assert ys[i] in group && ys[0] in group;
    }
    RunLengthIs(ys, n);
    assert ys[..n] == group && ys[n..] == more;
  }

  /** The ordering moves lines only within their section. */
  lemma {:induction false} OrderStaysInSections(lines: seq<Line>, key: Line -> string)
    ensures Reordered(lines, StableOrder(lines, key))
    decreases |lines|
  {
    if lines != [] {
      var n := RunLength(lines);
      OrderStaysInSections(lines[n..], key);
      SortIsStableSort(lines[..n], key);
      ReorderedGlue(lines, Sort(lines[..n], key), StableOrder(lines[n..], key));
    }
  }

  /** `ordered` is `lines` with each section sorted by key, equal keys as they arrived. */
  ghost predicate SectionsSorted(lines: seq<Line>, ordered: seq<Line>, key: Line -> string)
    decreases |lines|
  {
    |ordered| == |lines| && (lines != [] ==>
      var n := RunLength(lines);
      && Sorted(ordered[..n], key)
      && (forall k :: WithKey(ordered[..n], key, k) == WithKey(lines[..n], key, k))
      && SectionsSorted(lines[n..], ordered[n..], key))
  }

  lemma {:induction false} OrderSortsSections(lines: seq<Line>, key: Line -> string)
    ensures SectionsSorted(lines, StableOrder(lines, key), key)
    decreases |lines|
  {
    if lines != [] {
      var n := RunLength(lines);
      var group, more := Sort(lines[..n], key), StableOrder(lines[n..], key);
      OrderSortsSections(lines[n..], key);
      SortIsStableSort(lines[..n], key);
      assert |group| == |multiset(group)| == |multiset(lines[..n])| == n;
      assert (group + more)[..n] == group && (group + more)[n..] == more;
    }
  }

  /** In every section, two lines with one key are one line. */
  ghost predicate SectionsIdentify(lines: seq<Line>, key: Line -> string)
    decreases |lines|
  {
    lines != [] ==>
      KeysIdentify(lines[..RunLength(lines)], key) && SectionsIdentify(lines[RunLength(lines)..], key)
  }

  lemma {:induction false} OrderForgetsArrangement(xs: seq<Line>, ys: seq<Line>, key: Line -> string)
    requires Reordered(xs, ys) && SectionsIdentify(xs, key)
    ensures StableOrder(xs, key) == StableOrder(ys, key)
    decreases |xs|
  {
    if xs != [] {
      var n := RunLength(xs);
      SortForgetsOrder(xs[..n], ys[..n], key);
      OrderForgetsArrangement(xs[n..], ys[n..], key);
    }
  }

  /** Exchanging two different lines with one key, in one section. */
  lemma {:induction false} SwapTie(group: seq<Line>, key: Line -> string) returns (swapped: seq<Line>)
    requires !KeysIdentify(group, key)
    ensures multiset(swapped) == multiset(group) && Sort(swapped, key) != Sort(group, key)
  {
    var x, y :| x in group && y in group && key(x) == key(y) && x != y;
    var i :| 0 <= i < |group| && group[i] == x;
    var j :| 0 <= j < |group| && group[j] == y;
    var lo, hi := if i < j then i else j, if i < j then j else i;
    SortKeepsTieOrder(group, lo, hi, key);
    swapped := group[lo := group[hi]][hi := group[lo]];
  }

  /** A first section and a remainder, put in order one after the other. */
  lemma {:induction false} OrderSplit(xs: seq<Line>, group: seq<Line>, more: seq<Line>, key: Line -> string)
    requires xs != [] && multiset(group) == multiset(xs[..RunLength(xs)])
    requires Reordered(xs[RunLength(xs)..], more)
    ensures StableOrder(group + more, key) == Sort(group, key) + StableOrder(more, key)
    ensures |Sort(group, key)| == RunLength(xs)
  {
    var n := RunLength(xs);
    ReorderedGlue(xs, group, more);
    assert |group| == |multiset(group)| == |xs[..n]|;
    SortIsStableSort(group, key);
    assert RunLength(group + more) == n;
    assert (group + more)[..n] == group && (group + more)[n..] == more;
  }

  lemma {:induction false} ConcatDiffers(a: seq<Line>, b: seq<Line>, a': seq<Line>, b': seq<Line>)
    requires |a| == |a'| && (a != a' || b != b')
    ensures a + b != a' + b'
  {
    assert (a + b)[..|a|] == a && (a + b)[|a|..] == b;
    assert (a' + b')[..|a'|] == a' && (a' + b')[|a'|..] == b';
  }

  /** Rearranging a section or the remainder so that its order changes changes the whole order. */
  lemma {:induction false} RebuiltDiffers(xs: seq<Line>, group: seq<Line>, more: seq<Line>, key: Line -> string)
    requires xs != [] && multiset(group) == multiset(xs[..RunLength(xs)])
    requires Reordered(xs[RunLength(xs)..], more)
    requires Sort(group, key) != Sort(xs[..RunLength(xs)], key)
      || StableOrder(more, key) != StableOrder(xs[RunLength(xs)..], key)
    ensures Reordered(xs, group + more) && StableOrder(group + more, key) != StableOrder(xs, key)
  {
    var n := RunLength(xs);
    ReorderedGlue(xs, group, more);
    OrderSplit(xs, group, more, key);
    SortIsStableSort(xs[..n], key);
    assert |Sort(xs[..n], key)| == |multiset(Sort(xs[..n], key))| == |multiset(xs[..n])| == n;
    ConcatDiffers(Sort(group, key), StableOrder(more, key), Sort(xs[..n], key), StableOrder(xs[n..], key));
  }

  lemma {:induction false} TieBreaksOrder(xs: seq<Line>, key: Line -> string) returns (ys: seq<Line>)
    requires !SectionsIdentify(xs, key)
    ensures Reordered(xs, ys) && StableOrder(xs, key) != StableOrder(ys, key)
    decreases |xs|
  {
    var n := RunLength(xs);
    var group, more := xs[..n], xs[n..];
    if !KeysIdentify(group, key) {
      group := SwapTie(group, key);
      ReorderedReflexive(more);
    } else {
      more := TieBreaksOrder(more, key);
    }
    RebuiltDiffers(xs, group, more, key);
    ys := group + more;
  }

  /** The ordering is independent of how each section arrives arranged exactly when no section
      holds two different lines with one semantic key. */
  lemma {:induction false} OrderIndependentIff(xs: seq<Line>, key: Line -> string)
    ensures (forall ys | Reordered(xs, ys) :: StableOrder(ys, key) == StableOrder(xs, key))
      <==> SectionsIdentify(xs, key)
  {
    if SectionsIdentify(xs, key) {
      forall ys | Reordered(xs, ys) ensures StableOrder(ys, key) == StableOrder(xs, key) {
        OrderForgetsArrangement(xs, ys, key);
      }
    } else {
      var ys := TieBreaksOrder(xs, key);
    }
  }

  // ----- The view -----

  /** The body as one text: lines joined by newlines. */
  function Text(lines: seq<Line>): seq<Token> {
    if lines == [] then []
    else if |lines| == 1 then [Literal(lines[0].tag)] + lines[0].rest
    else [Literal(lines[0].tag)] + lines[0].rest + [Literal("\n")] + Text(lines[1..])
  }

  /** Lines joined by newlines, each with its tag first. */
  lemma {:induction false} TextIs(xs: seq<Line>, l: Line, ys: seq<Line>)
    ensures Text([l]) == [Literal(l.tag)] + l.rest
    ensures xs != [] && ys != [] ==> Text(xs + ys) == Text(xs) + [Literal("\n")] + Text(ys)
  {
    if xs != [] && ys != [] {
      assert (xs + ys)[1..] == xs[1..] + ys;
      if |xs| > 1 {
        TextIs(xs[1..], l, ys);
        Rejoined([Literal(xs[0].tag)] + xs[0].rest, [Literal("\n")], Text(xs[1..]), [Literal("\n")] + Text(ys));
      } else {
        assert xs[1..] + ys == ys;
      }
    }
  }

  lemma Rejoined(a: seq<Token>, b: seq<Token>, c: seq<Token>, d: seq<Token>)
    ensures a + b + (c + d) == a + b + c + d
  {}

  function TraceOut(uses: seq<Number>, trace: Trace): (t: seq<(nat, string)>)
    requires forall n | n in uses :: n in trace
    ensures |t| == |uses|
    ensures forall i | 0 <= i < |uses| :: t[i] == (i + 1, trace[uses[i]])
  {
    seq(|uses|, i requires 0 <= i < |uses| => (i + 1, trace[uses[i]]))
  }

  function Finish(ordered: seq<Line>, trace: Trace, digest: Digest): Result<View> {
    var text := Text(ordered);
    var uses := FirstUses(Renumber(text, A), E);
    if Members(uses) != trace.Keys then Err(TraceNotCovering) else
      var body, out := Canonical(text), TraceOut(uses, trace);
      Ok(View(digest(body, out), body, out))
  }

  function PairedControlMemory(m: Memory, digest: Digest): Result<View> {
    if m.body == [] || !m.first.CompactHeader? || !m.last.TraceLine? then Err(NotCompact)
    else if m.last.entries == [] then Err(TraceInvalid)
    else match ParseTrace(m.last.entries)
      case None => Err(TraceInvalid)
      case Some(trace) => Finish(StableOrder(m.body, SemanticKey(trace)), trace, digest)
  }

  method BuildPairedControlMemory(m: Memory, digest: Digest) returns (r: Result<View>)
    ensures r == PairedControlMemory(m, digest)
  {
    if m.body == [] || !m.first.CompactHeader? || !m.last.TraceLine? {
      return Err(NotCompact);
    }
    if m.last.entries == [] {
      return Err(TraceInvalid);
    }
    var parsed := ReadTrace(m.last.entries);
    if parsed.None? {
      return Err(TraceInvalid);
    }
    var trace := parsed.value;
    var bodyLines := StableCompactBodyOrder(m.body, trace);
    var body, _, _ := RenumberCompactAliases(Text(bodyLines), A);
    var body', order, evidenceAliases := RenumberCompactAliases(body, E);
    if evidenceAliases.Keys != trace.Keys {
      return Err(TraceNotCovering);
    }
    var out := TraceOut(order, trace);
    return Ok(View(digest(body', out), body', out));
  }
}
