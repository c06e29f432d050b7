/** The paired-arm view is a canonical form: two accepted checkpoints get the same view exactly
    when one is the other under new aliases, new line arrangement inside sections, a new trace
    order and a new header identity. */
module ControlViewLaws {
  import opened Basics
  import opened StableSorting
  import opened AliasNormalForm
  import opened ControlView

  function RenameLine(ra: map<Number, Number>, re: map<Number, Number>): Line -> Line {
    (l: Line) => Line(l.tag, RenameBoth(l.rest, ra, re))
  }

  function RenameLines(lines: seq<Line>, ra: map<Number, Number>, re: map<Number, Number>): (r: seq<Line>)
    ensures |r| == |lines|
  {
    Map(RenameLine(ra, re), lines)
  }

  function RenameEntry(re: map<Number, Number>): Entry -> Entry {
    (e: Entry) =>
      if e.name.EvidenceAlias? && e.name.number in re
      then Entry(EvidenceAlias(re[e.name.number]), e.references)
      else e
  }

  ghost predicate OneToOne(r: map<Number, Number>) {
    forall m, n | m in r && n in r && r[m] == r[n] :: m == n
  }

  /** Two memories that show the same atoms and evidence under different run-local identities. */
  ghost predicate Presents(m: Memory, m': Memory, ra: map<Number, Number>, re: map<Number, Number>) {
    && m.first.CompactHeader? == m'.first.CompactHeader?
    && Reordered(RenameLines(m.body, ra, re), m'.body)
    && m.last.TraceLine? == m'.last.TraceLine?
    && (m.last.TraceLine? ==>
         && multiset(m'.last.entries) == multiset(Map(RenameEntry(re), m.last.entries))
         && forall n :: EvidenceAlias(n) in Names(m.last.entries) ==> n in re)
    && Bijective(ra, Text(m.body), A)
    && Bijective(re, Text(m.body), E)
  }

  /** In no section do two different lines share a semantic key. */
  ghost predicate Distinguishable(m: Memory) {
    m.last.TraceLine? && ParseTrace(m.last.entries).Some? ==>
      SectionsIdentify(m.body, SemanticKey(ParseTrace(m.last.entries).value))
  }

  // ----- Text -----

  lemma RenameConcat(a: seq<Token>, b: seq<Token>, p: Prefix, r: map<Number, Number>)
    ensures Rename(a + b, p, r) == Rename(a, p, r) + Rename(b, p, r)
  {}

  lemma {:induction false} RenameBothConcat(a: seq<Token>, b: seq<Token>, ra: map<Number, Number>,
      re: map<Number, Number>)
    ensures RenameBoth(a + b, ra, re) == RenameBoth(a, ra, re) + RenameBoth(b, ra, re)
  {
    RenameConcat(a, b, A, ra);
    RenameConcat(Rename(a, A, ra), Rename(b, A, ra), E, re);
  }

  lemma RenameBothLiteral(text: string, ra: map<Number, Number>, re: map<Number, Number>)
    ensures RenameBoth([Literal(text)], ra, re) == [Literal(text)]
  {}

  lemma {:induction false} TextRename(lines: seq<Line>, ra: map<Number, Number>, re: map<Number, Number>)
    ensures Text(RenameLines(lines, ra, re)) == RenameBoth(Text(lines), ra, re)
  {
    if lines != [] {
      var head := [Literal(lines[0].tag)];
      var renamed := RenameLines(lines, ra, re);
      RenameBothLiteral(lines[0].tag, ra, re);
      RenameBothConcat(head, lines[0].rest, ra, re);
      if |lines| > 1 {
        assert renamed[1..] == RenameLines(lines[1..], ra, re);
        TextRename(lines[1..], ra, re);
        RenameBothLiteral("\n", ra, re);
        RenameBothConcat(head + lines[0].rest, [Literal("\n")], ra, re);
        RenameBothConcat(head + lines[0].rest + [Literal("\n")], Text(lines[1..]), ra, re);
      }
    }
  }

  lemma {:induction false} TextAliases(lines: seq<Line>, p: Prefix, n: Number)
    ensures Alias(p, n) in Text(lines) <==> exists l :: l in lines && Alias(p, n) in l.rest
  {
    if lines != [] {
      assert lines == [lines[0]] + lines[1..];
      TextAliases(lines[1..], p, n);
      if |lines| == 1 {
        assert forall l :: l in lines <==> l == lines[0];
      }
    }
  }

  lemma {:induction false} SameLinesSameAliases(xs: seq<Line>, ys: seq<Line>, p: Prefix)
    requires multiset(xs) == multiset(ys)
    ensures forall n :: Alias(p, n) in Text(xs) <==> Alias(p, n) in Text(ys)
  {
    forall n ensures Alias(p, n) in Text(xs) <==> Alias(p, n) in Text(ys) {
      TextAliases(xs, p, n);
      TextAliases(ys, p, n);
      forall l ensures l in xs <==> l in ys {
        assert l in xs <==> l in multiset(xs);
        assert l in ys <==> l in multiset(ys);
      }
    }
  }

  /** A line as `splitlines` yields it: no newline inside. */
  ghost predicate OneLine(lines: seq<Line>) {
    forall l | l in lines :: Literal("\n") !in l.rest
  }

  lemma {:induction false} FirstNewline(a: seq<Token>, more: seq<Token>, b: seq<Token>, more': seq<Token>)
    requires a + [Literal("\n")] + more == b + [Literal("\n")] + more'
    requires Literal("\n") !in a && Literal("\n") !in b
    ensures a == b && more == more'
  {
    var s, t := a + [Literal("\n")] + more, b + [Literal("\n")] + more';
    assert forall i | 0 <= i < |a| :: s[i] == a[i] && a[i] in a;
    assert forall i | 0 <= i < |b| :: t[i] == b[i] && b[i] in b;
    assert s[|a|] == Literal("\n") && t[|b|] == Literal("\n");
    assert |a| == |b|;
    assert s[..|a|] == a && t[..|a|] == b;
    assert s[|a| + 1..] == more && t[|a| + 1..] == more';
  }

  /** Lines can be read back from their text. */
  lemma {:induction false} TextInjective(xs: seq<Line>, ys: seq<Line>)
    requires OneLine(xs) && OneLine(ys) && xs != [] && ys != []
    requires Text(xs) == Text(ys)
    ensures xs == ys
    decreases |xs|
  {
    var s, t := Text(xs), Text(ys);
    assert s[0] == Literal(xs[0].tag) && t[0] == Literal(ys[0].tag);
    assert xs[0] in xs && ys[0] in ys;
    SplitText(xs);
    SplitText(ys);
    if |xs| > 1 && |ys| > 1 {
      FirstNewline(xs[0].rest, Text(xs[1..]), ys[0].rest, Text(ys[1..]));
      TextInjective(xs[1..], ys[1..]);
    }
    assert xs == [xs[0]] + xs[1..] && ys == [ys[0]] + ys[1..];
  }

  lemma {:induction false} SplitText(xs: seq<Line>)
    requires xs != []
    ensures |xs| == 1 ==> Text(xs)[1..] == xs[0].rest
    ensures |xs| > 1 ==> Text(xs)[1..] == xs[0].rest + [Literal("\n")] + Text(xs[1..])
    ensures |xs| > 1 ==> Literal("\n") in Text(xs)[1..]
  {
    var tag, rest := Literal(xs[0].tag), xs[0].rest;
    if |xs| > 1 {
      DropFirst(tag, rest, Literal("\n"), Text(xs[1..]));
    } else {
      assert ([tag] + rest)[1..] == rest;
    }
  }

  lemma {:induction false} DropFirst(first: Token, rest: seq<Token>, mark: Token, more: seq<Token>)
    ensures ([first] + rest + [mark] + more)[1..] == rest + [mark] + more
    ensures mark in rest + [mark] + more
  {
    assert (rest + [mark] + more)[|rest|] == mark;
  }

  // ----- Trace under renaming -----

  ghost predicate TraceRenamed(trace: Trace, trace': Trace, re: map<Number, Number>) {
    && (forall n | n in trace :: n in re && re[n] in trace' && trace'[re[n]] == trace[n])
    && (forall n' | n' in trace' :: exists n :: n in trace && n in re && re[n] == n')
  }

  function RenameName(re: map<Number, Number>, n: EntryName): EntryName {
    if n.EvidenceAlias? && n.number in re then EvidenceAlias(re[n.number]) else n
  }

  lemma {:induction false} RenamedNamesCount(names: set<EntryName>, re: map<Number, Number>)
    requires OneToOne(re)
    requires forall n :: EvidenceAlias(n) in names ==> n in re
    ensures |set n | n in names :: RenameName(re, n)| == |names|
  {
    if names != {} {
      var x :| x in names;
      var rest := names - {x};
      RenamedNamesCount(rest, re);
      assert (set n | n in names :: RenameName(re, n)) ==
        (set n | n in rest :: RenameName(re, n)) + {RenameName(re, x)};
    }
  }

  lemma {:induction false} NamesRename(entries: seq<Entry>, re: map<Number, Number>)
    ensures Names(Map(RenameEntry(re), entries)) == set n | n in Names(entries) :: RenameName(re, n)
  {
    var f := RenameEntry(re);
    var renamed := Map(f, entries);
    forall e | e in entries ensures RenameName(re, e.name) in Names(renamed) {
      var i :| 0 <= i < |entries| && entries[i] == e;
      assert renamed[i] in renamed;
    }
    forall e: Entry | e in renamed ensures exists n :: n in Names(entries) && e.name == RenameName(re, n) {
      var i :| 0 <= i < |renamed| && renamed[i] == e;
      assert entries[i].name in Names(entries);
    }
  }

  lemma {:induction false} SameEntriesSameNames(a: seq<Entry>, b: seq<Entry>)
    requires multiset(a) == multiset(b)
    ensures |a| == |b| && Names(a) == Names(b) && (AllValid(a) <==> AllValid(b))
    ensures forall e :: e in a <==> e in b
  {
    assert |a| == |multiset(a)| && |b| == |multiset(b)|;
    forall e ensures e in a <==> e in b {
      assert e in a <==> e in multiset(a);
      assert e in b <==> e in multiset(b);
    }
  }

  /** The trace parses the same in any entry order, and its renaming parses to the renamed map. */
  lemma {:induction false} ParseRenamed(entries: seq<Entry>, entries': seq<Entry>, re: map<Number, Number>)
    requires OneToOne(re)
    requires multiset(entries') == multiset(Map(RenameEntry(re), entries))
    requires forall n :: EvidenceAlias(n) in Names(entries) ==> n in re
    ensures |entries| == |entries'|
    ensures ParseTrace(entries).Some? <==> ParseTrace(entries').Some?
    ensures ParseTrace(entries).Some? ==>
      TraceRenamed(ParseTrace(entries).value, ParseTrace(entries').value, re)
  {
    var renamed := Map(RenameEntry(re), entries);
    SameEntriesSameNames(entries', renamed);
    NamesRename(entries, re);
    RenamedNamesCount(Names(entries), re);
    ParseTraceAccepts(entries);
    ParseTraceAccepts(entries');
    assert AllValid(renamed) <==> AllValid(entries) by {
      forall e | e in entries ensures RenameEntry(re)(e) in renamed {
        var i :| 0 <= i < |entries| && entries[i] == e;
        assert renamed[i] in renamed;
      }
      forall e | e in renamed ensures exists d :: d in entries && e == RenameEntry(re)(d) {
        var i :| 0 <= i < |renamed| && renamed[i] == e;
        assert entries[i] in entries;
      }
    }
    if ParseTrace(entries).Some? {
      RenamedMap(entries, entries', re, ParseTrace(entries).value, ParseTrace(entries').value);
    }
  }

  lemma {:induction false} RenamedMap(entries: seq<Entry>, entries': seq<Entry>, re: map<Number, Number>,
      trace: Trace, trace': Trace)
    requires forall e :: e in entries' <==> e in Map(RenameEntry(re), entries)
    requires forall n :: EvidenceAlias(n) in Names(entries) ==> n in re
    requires Holds(entries, trace) && Holds(entries', trace') && AllValid(entries)
    ensures TraceRenamed(trace, trace', re)
  {
    var renamed := Map(RenameEntry(re), entries);
    forall n | n in trace ensures n in re && re[n] in trace' && trace'[re[n]] == trace[n] {
      var e := Entry(EvidenceAlias(n), trace[n]);
      assert e in entries;
      assert e.name in Names(entries);
      var i :| 0 <= i < |entries| && entries[i] == e;
      assert renamed[i] in renamed;
      assert Entry(EvidenceAlias(re[n]), trace[n]) in entries';
    }
    forall n' | n' in trace' ensures exists n :: n in trace && n in re && re[n] == n' {
      var e' := Entry(EvidenceAlias(n'), trace'[n']);
      assert e' in entries';
      var i :| 0 <= i < |renamed| && renamed[i] == e';
      var e := entries[i];
      assert e in entries && e.name in Names(entries);
      assert Entry(EvidenceAlias(e.name.number), e.references) in entries;
    }
  }

  // ----- Order under renaming -----

  ghost predicate EvidenceKnown(lines: seq<Line>, trace: Trace) {
    forall l, n | l in lines && Alias(E, n) in l.rest :: n in trace
  }

  lemma {:induction false} KeyRenamed(rest: seq<Token>, trace: Trace, trace': Trace, ra: map<Number, Number>,
      re: map<Number, Number>)
    requires TraceRenamed(trace, trace', re)
    requires forall n | Alias(E, n) in rest :: n in trace
    ensures TextKey(RenameBoth(rest, ra, re), trace') == TextKey(rest, trace)
  {
    if rest != [] {
      assert rest[0] in rest;
      assert RenameBoth(rest, ra, re)[1..] == RenameBoth(rest[1..], ra, re);
      KeyRenamed(rest[1..], trace, trace', ra, re);
    }
  }

  lemma {:induction false} RunLengthRename(lines: seq<Line>, ra: map<Number, Number>, re: map<Number, Number>)
    ensures RunLength(RenameLines(lines, ra, re)) == RunLength(lines)
  {
    if lines != [] {
      RunLengthIs(RenameLines(lines, ra, re), RunLength(lines));
    }
  }

  ghost predicate KeysKept(lines: seq<Line>, key: Line -> string, key': Line -> string, ra: map<Number, Number>,
      re: map<Number, Number>) {
    forall l | l in lines :: key'(RenameLine(ra, re)(l)) == key(l)
  }

  lemma {:induction false} KnownEvidenceKeepsKeys(lines: seq<Line>, trace: Trace, trace': Trace,
      ra: map<Number, Number>, re: map<Number, Number>)
    requires TraceRenamed(trace, trace', re) && EvidenceKnown(lines, trace)
    ensures KeysKept(lines, SemanticKey(trace), SemanticKey(trace'), ra, re)
  {
    forall l | l in lines
      ensures SemanticKey(trace')(RenameLine(ra, re)(l)) == SemanticKey(trace)(l)
    {
      KeyRenamed(l.rest, trace, trace', ra, re);
    }
  }

  lemma SplitRename(lines: seq<Line>, n: nat, ra: map<Number, Number>, re: map<Number, Number>)
    requires n <= |lines|
    ensures RenameLines(lines, ra, re)[..n] == RenameLines(lines[..n], ra, re)
    ensures RenameLines(lines, ra, re)[n..] == RenameLines(lines[n..], ra, re)
  {}

  lemma {:induction false} OrderRename(lines: seq<Line>, key: Line -> string, key': Line -> string,
      ra: map<Number, Number>, re: map<Number, Number>)
    requires KeysKept(lines, key, key', ra, re)
    ensures StableOrder(RenameLines(lines, ra, re), key') == RenameLines(StableOrder(lines, key), ra, re)
    decreases |lines|
  {
    if lines != [] {
      var n := RunLength(lines);
      var renamed := RenameLines(lines, ra, re);
      RunLengthRename(lines, ra, re);
      SplitRename(lines, n, ra, re);
      forall l | l in lines[..n] ensures l in lines {}
      SortMap(RenameLine(ra, re), lines[..n], key, key');
      OrderRename(lines[n..], key, key', ra, re);
      MapConcat(RenameLine(ra, re), Sort(lines[..n], key), StableOrder(lines[n..], key));
      assert StableOrder(renamed, key') == Sort(renamed[..n], key') + StableOrder(renamed[n..], key');
    }
  }

  lemma MapConcat<T, U>(f: T -> U, a: seq<T>, b: seq<T>)
    ensures Map(f, a + b) == Map(f, a) + Map(f, b)
  {}

  lemma {:induction false} IdentifyRename(group: seq<Line>, key: Line -> string, key': Line -> string,
      ra: map<Number, Number>, re: map<Number, Number>)
    requires KeysKept(group, key, key', ra, re) && KeysIdentify(group, key)
    ensures KeysIdentify(RenameLines(group, ra, re), key')
  {
    var renamed := RenameLines(group, ra, re);
    forall x, y | x in renamed && y in renamed && key'(x) == key'(y) ensures x == y {
      var i :| 0 <= i < |group| && renamed[i] == x;
      var j :| 0 <= j < |group| && renamed[j] == y;
      assert group[i] in group && group[j] in group;
    }
  }

  lemma {:induction false} SectionsIdentifyRename(lines: seq<Line>, key: Line -> string, key': Line -> string,
      ra: map<Number, Number>, re: map<Number, Number>)
    requires KeysKept(lines, key, key', ra, re) && SectionsIdentify(lines, key)
    ensures SectionsIdentify(RenameLines(lines, ra, re), key')
    decreases |lines|
  {
    if lines != [] {
      var n := RunLength(lines);
      RunLengthRename(lines, ra, re);
      SplitRename(lines, n, ra, re);
      IdentifyRename(lines[..n], key, key', ra, re);
      SectionsIdentifyRename(lines[n..], key, key', ra, re);
    }
  }

  // ----- The view forgets the presentation -----

  /** The evidence aliases the body shows. */
  function Shown(lines: seq<Line>): (s: set<Number>) {
    Members(FirstUses(Text(lines), E))
  }

  lemma {:induction false} ShownAliases(lines: seq<Line>)
    ensures forall n :: n in Shown(lines) <==> Alias(E, n) in Text(lines)
  {
    FirstUsesListsAliases(Text(lines), E);
  }

  lemma {:induction false} ShownKnown(lines: seq<Line>, trace: Trace)
    requires Shown(lines) == trace.Keys
    ensures EvidenceKnown(lines, trace)
  {
    ShownAliases(lines);
    forall l, n | l in lines && Alias(E, n) in l.rest ensures n in trace {
      TextAliases(lines, E, n);
    }
  }

  lemma {:induction false} SameLinesSameShown(xs: seq<Line>, ys: seq<Line>)
    requires multiset(xs) == multiset(ys)
    ensures Shown(xs) == Shown(ys)
  {
    ShownAliases(xs);
    ShownAliases(ys);
    SameLinesSameAliases(xs, ys, E);
  }

  lemma {:induction false} OrderedShown(lines: seq<Line>, key: Line -> string)
    ensures Shown(StableOrder(lines, key)) == Shown(lines)
  {
    OrderStaysInSections(lines, key);
    ReorderedMembers(lines, StableOrder(lines, key));
    SameLinesSameShown(lines, StableOrder(lines, key));
  }

  lemma {:induction false} FinishCovers(ordered: seq<Line>, trace: Trace, digest: Digest)
    ensures Finish(ordered, trace, digest).Err? <==> Shown(ordered) != trace.Keys
    ensures Finish(ordered, trace, digest).Err? ==> Finish(ordered, trace, digest) == Err(TraceNotCovering)
    ensures FirstUses(Renumber(Text(ordered), A), E) == FirstUses(Text(ordered), E)
  {
    FirstUsesOther(Text(ordered), E, A, Numbering(FirstUses(Text(ordered), A)));
  }

  lemma {:induction false} RenamedShown(lines: seq<Line>, ra: map<Number, Number>, re: map<Number, Number>)
    requires Bijective(ra, Text(lines), A) && Bijective(re, Text(lines), E)
    ensures forall n | n in Shown(lines) :: n in re
    ensures Shown(RenameLines(lines, ra, re)) == set n | n in Shown(lines) :: re[n]
  {
    var u := FirstUses(Text(lines), E);
    TextRename(lines, ra, re);
    CanonicalForgetsNames(Text(lines), ra, re);
    forall n | n in u ensures re[n] in Through(re, u) {
      assert Through(re, u)[IndexOf(u, n)] == re[n];
    }
  }

  lemma {:induction false} CoverageKept(shown: set<Number>, trace: Trace, trace': Trace, re: map<Number, Number>)
    requires OneToOne(re) && TraceRenamed(trace, trace', re)
    requires forall n | n in shown :: n in re
    ensures shown == trace.Keys <==> (set n | n in shown :: re[n]) == trace'.Keys
  {
    var image := set n | n in shown :: re[n];
    if image == trace'.Keys {
      forall n ensures n in shown <==> n in trace.Keys {
        if n in shown {
          assert re[n] in image;
        }
        if n in trace {
          assert re[n] in image;
        }
      }
    }
  }

  /** Aliases, line arrangement, trace order and header identity do not reach the view; errors
      included. */
  lemma {:induction false} ViewForgetsPresentation(m: Memory, m': Memory, ra: map<Number, Number>,
      re: map<Number, Number>, digest: Digest)
    requires Presents(m, m', ra, re) && Distinguishable(m)
    ensures PairedControlMemory(m', digest) == PairedControlMemory(m, digest)
  {
    assert |m.body| == |m'.body| by {
      assert |RenameLines(m.body, ra, re)| == |m'.body|;
    }
    if m.body != [] && m.first.CompactHeader? && m.last.TraceLine? {
      ParseRenamed(m.last.entries, m'.last.entries, re);
      if m.last.entries != [] && ParseTrace(m.last.entries).Some? {
        FinishForgets(m.body, m'.body, ParseTrace(m.last.entries).value,
                      ParseTrace(m'.last.entries).value, ra, re, digest);
      }
    }
  }

  lemma {:induction false} FinishRenamed(lines: seq<Line>, trace: Trace, trace': Trace, ra: map<Number, Number>,
      re: map<Number, Number>, digest: Digest)
    requires Bijective(ra, Text(lines), A) && Bijective(re, Text(lines), E)
    requires TraceRenamed(trace, trace', re)
    ensures Finish(StableOrder(RenameLines(lines, ra, re), SemanticKey(trace')), trace', digest)
      == Finish(StableOrder(lines, SemanticKey(trace)), trace, digest)
  {
    var key, key' := SemanticKey(trace), SemanticKey(trace');
    var renamed, ordered := RenameLines(lines, ra, re), StableOrder(lines, key);
    FinishCovers(ordered, trace, digest);
    FinishCovers(StableOrder(renamed, key'), trace', digest);
    OrderedShown(lines, key);
    OrderedShown(renamed, key');
    RenamedShown(lines, ra, re);
    CoverageKept(Shown(lines), trace, trace', re);
    if Shown(lines) == trace.Keys {
      ShownKnown(lines, trace);
      KnownEvidenceKeepsKeys(lines, trace, trace', ra, re);
      OrderRename(lines, key, key', ra, re);
      OrderStaysInSections(lines, key);
      ReorderedMembers(lines, ordered);
      SameLinesSameAliases(lines, ordered, A);
      SameLinesSameAliases(lines, ordered, E);
      RenamedFinish(ordered, trace, trace', ra, re, digest);
    }
  }

  lemma {:induction false} FinishForgets(lines: seq<Line>, lines': seq<Line>, trace: Trace, trace': Trace,
      ra: map<Number, Number>, re: map<Number, Number>, digest: Digest)
    requires Reordered(RenameLines(lines, ra, re), lines')
    requires Bijective(ra, Text(lines), A) && Bijective(re, Text(lines), E)
    requires TraceRenamed(trace, trace', re)
    requires SectionsIdentify(lines, SemanticKey(trace))
    ensures Finish(StableOrder(lines', SemanticKey(trace')), trace', digest)
      == Finish(StableOrder(lines, SemanticKey(trace)), trace, digest)
  {
    var key, key' := SemanticKey(trace), SemanticKey(trace');
    var renamed := RenameLines(lines, ra, re);
    FinishRenamed(lines, trace, trace', ra, re, digest);
    FinishCovers(StableOrder(renamed, key'), trace', digest);
    FinishCovers(StableOrder(lines', key'), trace', digest);
    OrderedShown(renamed, key');
    OrderedShown(lines', key');
    ReorderedMembers(renamed, lines');
    SameLinesSameShown(renamed, lines');
    RenamedShown(lines, ra, re);
    CoverageKept(Shown(lines), trace, trace', re);
    if Shown(lines) == trace.Keys {
      ShownKnown(lines, trace);
      KnownEvidenceKeepsKeys(lines, trace, trace', ra, re);
      SectionsIdentifyRename(lines, key, key', ra, re);
      OrderForgetsArrangement(renamed, lines', key');
    }
  }

  lemma {:induction false} RenamedFinish(ordered: seq<Line>, trace: Trace, trace': Trace, ra: map<Number, Number>,
      re: map<Number, Number>, digest: Digest)
    requires Bijective(ra, Text(ordered), A) && Bijective(re, Text(ordered), E)
    requires TraceRenamed(trace, trace', re)
    requires Shown(ordered) == trace.Keys && Shown(RenameLines(ordered, ra, re)) == trace'.Keys
    ensures Finish(RenameLines(ordered, ra, re), trace', digest) == Finish(ordered, trace, digest)
  {
    TextRename(ordered, ra, re);
    CanonicalForgetsNames(Text(ordered), ra, re);
    FinishIs(ordered, trace, digest);
    FinishIs(RenameLines(ordered, ra, re), trace', digest);
    TraceOutRenamed(FirstUses(Text(ordered), E), trace, trace', re);
  }

  lemma {:induction false} FinishIs(ordered: seq<Line>, trace: Trace, digest: Digest)
    requires Shown(ordered) == trace.Keys
    ensures forall n | n in FirstUses(Text(ordered), E) :: n in trace
    ensures var body, out := Canonical(Text(ordered)), TraceOut(FirstUses(Text(ordered), E), trace);
      Finish(ordered, trace, digest) == Ok(View(digest(body, out), body, out))
  {
    FinishCovers(ordered, trace, digest);
    forall n | n in FirstUses(Text(ordered), E) ensures n in trace {
      assert n in Shown(ordered);
    }
  }

  lemma {:induction false} TraceOutRenamed(u: seq<Number>, trace: Trace, trace': Trace, re: map<Number, Number>)
    requires forall n | n in u :: n in trace && n in re
    requires TraceRenamed(trace, trace', re)
    ensures forall n | n in Through(re, u) :: n in trace'
    ensures TraceOut(Through(re, u), trace') == TraceOut(u, trace)
  {
    forall i | 0 <= i < |u| ensures u[i] in trace && trace'[re[u[i]]] == trace[u[i]] {
      assert u[i] in u;
    }
  }

  // ----- Equal views come only from equal content -----

  lemma {:induction false} NoRepeat(entries: seq<Entry>)
    requires |Names(entries)| == |entries|
    ensures multiset(entries) == multiset(set e | e in entries)
  {
    if entries != [] {
      var init, last := entries[..|entries| - 1], entries[|entries| - 1];
      assert entries == init + [last];
      LastIsNew(init, last);
      NoRepeat(init);
      AddMember((set e | e in init), last);
      assert (set e | e in entries) == (set e | e in init) + {last};
    }
  }

  lemma {:induction false} LastIsNew(init: seq<Entry>, last: Entry)
    requires |Names(init + [last])| == |init| + 1
    ensures last !in init && |Names(init)| == |init|
  {
    NamesGrow(init, last);
    NamesBound(init);
  }

  lemma AddMember<T>(d: set<T>, x: T)
    requires x !in d
    ensures multiset(d + {x}) == multiset(d) + multiset{x}
  {}

  lemma {:induction false} NamesBound(entries: seq<Entry>)
    ensures |Names(entries)| <= |entries|
  {
    if entries != [] {
      var init, last := entries[..|entries| - 1], entries[|entries| - 1];
      assert entries == init + [last];
      NamesGrow(init, last);
      NamesBound(init);
    }
  }

  lemma {:induction false} EntriesFromTraces(entries: seq<Entry>, entries': seq<Entry>, re: map<Number, Number>)
    requires OneToOne(re)
    requires ParseTrace(entries).Some? && ParseTrace(entries').Some?
    requires TraceRenamed(ParseTrace(entries).value, ParseTrace(entries').value, re)
    ensures forall n :: EvidenceAlias(n) in Names(entries) ==> n in re
    ensures multiset(entries') == multiset(Map(RenameEntry(re), entries))
  {
    var renamed := Map(RenameEntry(re), entries);
    ParseTraceAccepts(entries);
    ParseTraceAccepts(entries');
    NamesInRenaming(entries, ParseTrace(entries).value, ParseTrace(entries').value, re);
    NamesRename(entries, re);
    RenamedNamesCount(Names(entries), re);
    NoRepeat(renamed);
    NoRepeat(entries');
    SameMembersRenamed(entries, entries', ParseTrace(entries).value, ParseTrace(entries').value, re);
    assert (set e | e in renamed) == (set e | e in entries');
  }

  lemma {:induction false} NamesInRenaming(entries: seq<Entry>, trace: Trace, trace': Trace, re: map<Number, Number>)
    requires Holds(entries, trace) && TraceRenamed(trace, trace', re)
    ensures forall n :: EvidenceAlias(n) in Names(entries) ==> n in re
  {
    forall n | EvidenceAlias(n) in Names(entries) ensures n in re {
      var e :| e in entries && e.name == EvidenceAlias(n);
      assert Entry(EvidenceAlias(n), e.references) in entries;
    }
  }

  lemma {:induction false} SameMembersRenamed(entries: seq<Entry>, entries': seq<Entry>, trace: Trace, trace': Trace,
      re: map<Number, Number>)
    requires AllValid(entries) && AllValid(entries')
    requires Holds(entries, trace) && Holds(entries', trace') && TraceRenamed(trace, trace', re)
    ensures forall e :: e in entries' <==> e in Map(RenameEntry(re), entries)
  {
    var renamed := Map(RenameEntry(re), entries);
    forall e | e in renamed ensures e in entries' {
      var i :| 0 <= i < |renamed| && renamed[i] == e;
      var d := entries[i];
      assert d in entries;
      assert Entry(EvidenceAlias(d.name.number), d.references) in entries;
      assert Entry(EvidenceAlias(re[d.name.number]), d.references) in entries';
    }
    forall e | e in entries' ensures e in renamed {
      assert Entry(EvidenceAlias(e.name.number), e.references) in entries';
      var n :| n in trace && n in re && re[n] == e.name.number;
      assert Entry(EvidenceAlias(n), e.references) in entries;
      var i :| 0 <= i < |entries| && entries[i] == Entry(EvidenceAlias(n), e.references);
      assert renamed[i] == e;
    }
  }

  lemma {:induction false} ReorderedRename(xs: seq<Line>, ys: seq<Line>, ra: map<Number, Number>,
      re: map<Number, Number>)
    requires Reordered(xs, ys)
    ensures Reordered(RenameLines(xs, ra, re), RenameLines(ys, ra, re))
    decreases |xs|
  {
    if xs != [] {
      var n := RunLength(xs);
      RunLengthRename(xs, ra, re);
      RunLengthRename(ys, ra, re);
      SplitRename(xs, n, ra, re);
      SplitRename(ys, n, ra, re);
      MapMultiset(RenameLine(ra, re), xs[..n], ys[..n]);
      ReorderedRename(xs[n..], ys[n..], ra, re);
    }
  }

  function Without<T>(t: seq<T>, i: nat): (r: seq<T>)
    requires i < |t|
    ensures |r| == |t| - 1
  {
    t[..i] + t[i + 1..]
  }

  lemma {:induction false} TakeOut<T>(t: seq<T>, i: nat)
    requires i < |t|
    ensures multiset(t) == multiset{t[i]} + multiset(Without(t, i))
  {
    assert t == t[..i] + ([t[i]] + t[i + 1..]);
  }

  lemma {:induction false} MapTakeOut<T, U>(f: T -> U, t: seq<T>, i: nat)
    requires i < |t|
    ensures multiset(Map(f, t)) == multiset{f(t[i])} + multiset(Map(f, Without(t, i)))
  {
    TakeOut(Map(f, t), i);
    assert Without(Map(f, t), i) == Map(f, Without(t, i));
  }

  lemma {:induction false} SameWithout<T>(s: seq<T>, t: seq<T>) returns (i: nat)
    requires multiset(s) == multiset(t) && s != []
    ensures i < |t| && t[i] == s[0] && multiset(Without(s, 0)) == multiset(Without(t, i))
  {
    assert s[0] in multiset(t);
    i :| i < |t| && t[i] == s[0];
    TakeOut(s, 0);
    TakeOut(t, i);
    assert multiset(s) - multiset{s[0]} == multiset(Without(s, 0));
    assert multiset(t) - multiset{s[0]} == multiset(Without(t, i));
  }

  lemma {:induction false} MapMultiset<T, U>(f: T -> U, s: seq<T>, t: seq<T>)
    requires multiset(s) == multiset(t)
    ensures multiset(Map(f, s)) == multiset(Map(f, t))
  {
    if s == [] {
      assert |t| == |multiset(t)| == |multiset(s)| == 0;
    } else {
      var i := SameWithout(s, t);
      MapMultiset(f, Without(s, 0), Without(t, i));
      MapTakeOut(f, s, 0);
      MapTakeOut(f, t, i);
    }
  }

  /** Two accepted checkpoints with one view present the same content. */
  lemma {:induction false} SameViewPresents(m: Memory, m': Memory, digest: Digest)
    returns (ra: map<Number, Number>, re: map<Number, Number>)
    requires OneLine(m.body) && OneLine(m'.body)
    requires PairedControlMemory(m, digest).Ok?
    requires PairedControlMemory(m, digest) == PairedControlMemory(m', digest)
    ensures Presents(m, m', ra, re)
  {
    var trace, trace' := ParseTrace(m.last.entries).value, ParseTrace(m'.last.entries).value;
    var ordered, ordered' := StableOrder(m.body, SemanticKey(trace)), StableOrder(m'.body, SemanticKey(trace'));
    OrderStaysInSections(m.body, SemanticKey(trace));
    OrderStaysInSections(m'.body, SemanticKey(trace'));
    ra, re := SameFinish(m.body, ordered, m'.body, ordered', trace, trace', digest);
    EntriesFromTraces(m.last.entries, m'.last.entries, re);
    ReorderedRename(m.body, ordered, ra, re);
    ReorderedSymmetric(m'.body, ordered');
    ReorderedTransitive(RenameLines(m.body, ra, re), ordered', m'.body);
    ReorderedMembers(m.body, ordered);
    SameLinesSameAliases(m.body, ordered, A);
    SameLinesSameAliases(m.body, ordered, E);
  }

  lemma {:induction false} SameMembers(xs: seq<Line>, ys: seq<Line>)
    requires Reordered(xs, ys) && OneLine(xs)
    ensures OneLine(ys) && (xs != [] ==> ys != [])
  {
    ReorderedMembers(xs, ys);
    forall l | l in ys ensures l in xs {
      assert l in multiset(ys);
    }
  }

  lemma {:induction false} SameFinish(lines: seq<Line>, ordered: seq<Line>, lines': seq<Line>, ordered': seq<Line>,
      trace: Trace, trace': Trace, digest: Digest)
    returns (ra: map<Number, Number>, re: map<Number, Number>)
    requires Reordered(lines, ordered) && OneLine(lines) && lines != []
    requires Reordered(lines', ordered') && OneLine(lines') && lines' != []
    requires Finish(ordered, trace, digest).Ok?
    requires Finish(ordered, trace, digest) == Finish(ordered', trace', digest)
    ensures Bijective(ra, Text(ordered), A) && Bijective(re, Text(ordered), E)
    ensures ordered' == RenameLines(ordered, ra, re)
    ensures TraceRenamed(trace, trace', re)
  {
    SameMembers(lines, ordered);
    SameMembers(lines', ordered');
    ra, re := CanonicalMatch(Text(ordered), Text(ordered'));
    TextRename(ordered, ra, re);
    RenamedOneLine(ordered, ra, re);
    TextInjective(RenameLines(ordered, ra, re), ordered');
    CanonicalForgetsNames(Text(ordered), ra, re);
    FinishCovers(ordered, trace, digest);
    FinishCovers(ordered', trace', digest);
    var u, u' := FirstUses(Text(ordered), E), FirstUses(Text(ordered'), E);
    forall n | n in u ensures n in trace { assert n in Shown(ordered); }
    forall n | n in u' ensures n in trace' { assert n in Shown(ordered'); }
    assert TraceOut(u, trace) == TraceOut(u', trace');
    TracesMatch(u, trace, trace', re);
  }

  lemma {:induction false} RenamedOneLine(lines: seq<Line>, ra: map<Number, Number>, re: map<Number, Number>)
    requires OneLine(lines)
    ensures OneLine(RenameLines(lines, ra, re))
  {
    var renamed := RenameLines(lines, ra, re);
    forall l | l in renamed ensures Literal("\n") !in l.rest {
      var i :| 0 <= i < |renamed| && renamed[i] == l;
      assert lines[i] in lines;
      forall j | 0 <= j < |l.rest| ensures l.rest[j] != Literal("\n") {
        assert lines[i].rest[j] in lines[i].rest;
      }
    }
  }

  lemma {:induction false} TracesMatch(u: seq<Number>, trace: Trace, trace': Trace, re: map<Number, Number>)
    requires forall n | n in u :: n in re
    requires trace.Keys == Members(u)
    requires trace'.Keys == Members(Through(re, u))
    requires TraceOut(u, trace) == TraceOut(Through(re, u), trace')
    ensures TraceRenamed(trace, trace', re)
  {
    var u' := Through(re, u);
    forall n | n in trace ensures n in re && re[n] in trace' && trace'[re[n]] == trace[n] {
      assert n in trace.Keys;
      var i := IndexOf(u, n);
      assert u'[i] == re[n] && u'[i] in u';
      assert TraceOut(u, trace)[i] == TraceOut(u', trace')[i];
    }
    forall n' | n' in trace' ensures exists n :: n in trace && n in re && re[n] == n' {
      assert n' in trace'.Keys;
      var i := IndexOf(u', n');
      assert u[i] in u;
    }
  }

  /** The view is a canonical form: on accepted checkpoints whose sections hold no key ties, one
      view means one content. */
  lemma {:induction false} ViewCanonical(m: Memory, m': Memory, digest: Digest)
    requires OneLine(m.body) && OneLine(m'.body) && Distinguishable(m)
    requires PairedControlMemory(m, digest).Ok? && PairedControlMemory(m', digest).Ok?
    ensures PairedControlMemory(m, digest) == PairedControlMemory(m', digest)
      <==> exists ra, re :: Presents(m, m', ra, re)
  {
    if PairedControlMemory(m, digest) == PairedControlMemory(m', digest) {
      var ra, re := SameViewPresents(m, m', digest);
    }
    if ra, re :| Presents(m, m', ra, re) {
      ViewForgetsPresentation(m, m', ra, re, digest);
    }
  }

  // ----- What the view keeps -----

  /** Nothing is lost: the view's body is the checkpoint's lines, moved only inside their
      sections, under one-to-one new aliases, and its trace gives every evidence alias, under its
      new name, the references it had. */
  lemma {:induction false} ViewKeepsContent(m: Memory, digest: Digest)
      returns (ordered: seq<Line>, ra: map<Number, Number>, re: map<Number, Number>)
    requires PairedControlMemory(m, digest).Ok?
    ensures Reordered(m.body, ordered)
    ensures SectionsSorted(m.body, ordered, SemanticKey(ParseTrace(m.last.entries).value))
    ensures Bijective(ra, Text(ordered), A) && Bijective(re, Text(ordered), E)
    ensures var view, trace := PairedControlMemory(m, digest).value, ParseTrace(m.last.entries).value;
      && view.body == RenameBoth(Text(ordered), ra, re)
      && view.digest == digest(view.body, view.trace)
      && |view.trace| == |trace|
      && forall n | n in trace :: n in re && (re[n], trace[n]) in view.trace
  {
    var trace := ParseTrace(m.last.entries).value;
    ordered := StableOrder(m.body, SemanticKey(trace));
    OrderStaysInSections(m.body, SemanticKey(trace));
    OrderSortsSections(m.body, SemanticKey(trace));
    var text := Text(ordered);
    ra := Numbering(FirstUses(text, A));
    var uses := FirstUses(Renumber(text, A), E);
    re := Numbering(uses);
    NumberingBijective(text, A);
    NumberingBijective(Renumber(text, A), E);
    BijectiveOther(text, E, A, re, ra);
    FirstUsesListsAliases(Renumber(text, A), E);
    TraceKept(uses, trace);
  }

  lemma {:induction false} TraceKept(uses: seq<Number>, trace: Trace)
    requires Distinct(uses) && trace.Keys == Members(uses)
    ensures |TraceOut(uses, trace)| == |trace|
    ensures forall n | n in trace :: n in Numbering(uses) && (Numbering(uses)[n], trace[n]) in TraceOut(uses, trace)
  {
    DistinctCount(uses);
    assert |trace| == |trace.Keys|;
    forall n | n in trace ensures n in Numbering(uses) && (Numbering(uses)[n], trace[n]) in TraceOut(uses, trace) {
      assert n in trace.Keys;
      assert TraceOut(uses, trace)[IndexOf(uses, n)] == (IndexOf(uses, n) + 1, trace[n]);
    }
  }

  lemma {:induction false} SameTokens(xs: seq<Line>, ys: seq<Line>, text: string)
    requires multiset(xs) == multiset(ys)
    ensures HasLiteral(xs, text) <==> HasLiteral(ys, text)
  {
    forall l ensures l in xs <==> l in ys {
      assert l in xs <==> l in multiset(xs);
      assert l in ys <==> l in multiset(ys);
    }
  }

  ghost predicate HasLiteral(lines: seq<Line>, text: string) {
    exists l :: l in lines && (l.tag == text || Literal(text) in l.rest)
  }

  lemma {:induction false} TextLiterals(lines: seq<Line>, text: string)
    requires text != "\n"
    ensures Literal(text) in Text(lines) <==> HasLiteral(lines, text)
  {
    if lines != [] {
      assert lines == [lines[0]] + lines[1..];
      TextLiterals(lines[1..], text);
      if |lines| == 1 {
        assert forall l :: l in lines <==> l == lines[0];
      }
    }
  }

  lemma {:induction false} CanonicalLiterals(tokens: seq<Token>, text: string)
    ensures Literal(text) in Canonical(tokens) <==> Literal(text) in tokens
  {
    var out := Canonical(tokens);
    if Literal(text) in tokens {
      var i :| 0 <= i < |tokens| && tokens[i] == Literal(text);
      assert out[i] == Literal(text);
    }
    if Literal(text) in out {
      var i :| 0 <= i < |out| && out[i] == Literal(text);
      assert tokens[i] == Literal(text);
    }
  }

  /** Every literal of the body is in the view, and no other. */
  lemma {:induction false} ViewLiterals(m: Memory, digest: Digest, text: string)
    requires PairedControlMemory(m, digest).Ok? && text != "\n"
    ensures Literal(text) in PairedControlMemory(m, digest).value.body <==> HasLiteral(m.body, text)
  {
    var key := SemanticKey(ParseTrace(m.last.entries).value);
    var ordered := StableOrder(m.body, key);
    OrderStaysInSections(m.body, key);
    ReorderedMembers(m.body, ordered);
    SameTokens(m.body, ordered, text);
    TextLiterals(ordered, text);
    CanonicalLiterals(Text(ordered), text);
  }

  /** The checkpoint as rendered for one random identity: the header names it, and so does every
      retrieval handle of an omission line, marked in the body by the literal `mark`. */
  function StampToken(t: Token, mark: string, id: string): Token {
    if t == Literal(mark) then Literal(id) else t
  }

  function StampLine(mark: string, id: string): Line -> Line {
    (l: Line) => Line(l.tag, seq(|l.rest|, i requires 0 <= i < |l.rest| => StampToken(l.rest[i], mark, id)))
  }

  function Stamp(m: Memory, mark: string, id: string): Memory {
    Memory(CompactHeader(id), Map(StampLine(mark, id), m.body), m.last)
  }

  ghost predicate NamesIdentity(m: Memory, mark: string) {
    exists l :: l in m.body && Literal(mark) in l.rest
  }

  lemma {:induction false} MarkBecomesIdentity(m: Memory, mark: string, id: string, l: Line)
    requires l in m.body && Literal(mark) in l.rest
    ensures HasLiteral(Stamp(m, mark, id).body, id)
  {
    var stamped := Stamp(m, mark, id).body;
    var i :| 0 <= i < |m.body| && m.body[i] == l;
    var j :| 0 <= j < |l.rest| && l.rest[j] == Literal(mark);
    assert stamped[i].rest[j] == Literal(id);
    assert stamped[i] in stamped;
  }

  lemma {:induction false} StampedLine(l: Line, mark: string, id: string, text: string)
    requires l.tag != text && Literal(text) !in l.rest
    requires var stamped := StampLine(mark, id)(l); stamped.tag == text || Literal(text) in stamped.rest
    ensures text == id && Literal(mark) in l.rest
  {
    var stamped := StampLine(mark, id)(l);
    var j :| 0 <= j < |stamped.rest| && stamped.rest[j] == Literal(text);
    assert l.rest[j] in l.rest;
  }

  lemma {:induction false} StampedLiteral(m: Memory, mark: string, id: string, text: string)
    requires text != mark && !HasLiteral(m.body, text)
    ensures HasLiteral(Stamp(m, mark, id).body, text) <==> text == id && NamesIdentity(m, mark)
  {
    var stamped := Stamp(m, mark, id).body;
    if text == id && NamesIdentity(m, mark) {
      var l :| l in m.body && Literal(mark) in l.rest;
      MarkBecomesIdentity(m, mark, id, l);
    }
    if HasLiteral(stamped, text) {
      var l :| l in stamped && (l.tag == text || Literal(text) in l.rest);
      var i :| 0 <= i < |stamped| && stamped[i] == l;
      assert m.body[i] in m.body;
      StampedLine(m.body[i], mark, id, text);
    }
  }

  /** The random identity leaves the view exactly when no body line names it.  An omission line
      does name it, in its retrieval handles, so such a view still differs from run to run. */
  lemma {:induction false} IdentityLeavesViewIff(m: Memory, mark: string, id: string, id': string, digest: Digest)
    requires id != id' && id != mark && id != "\n" && !HasLiteral(m.body, id)
    requires PairedControlMemory(Stamp(m, mark, id), digest).Ok?
    requires PairedControlMemory(Stamp(m, mark, id'), digest).Ok?
    ensures PairedControlMemory(Stamp(m, mark, id), digest) == PairedControlMemory(Stamp(m, mark, id'), digest)
      <==> !NamesIdentity(m, mark)
  {
    StampedLiteral(m, mark, id, id);
    StampedLiteral(m, mark, id', id);
    ViewLiterals(Stamp(m, mark, id), digest, id);
    ViewLiterals(Stamp(m, mark, id'), digest, id);
    if !NamesIdentity(m, mark) {
      StampsAgree(m, mark, id, id');
    }
  }

  /** The retrieval handles of the omitted kinds, each with the checkpoint's identity in it. */
  function Handles(kinds: seq<string>, mark: string): seq<Token> {
    if kinds == [] then [] else
      var handle := [Literal("memory:"), Literal(mark), Literal(":" + kinds[0])];
      if |kinds| == 1 then handle else handle + [Literal(",")] + Handles(kinds[1..], mark)
  }

  /** The line a rendering adds when it leaves atoms out; `before` and `after` are the counts,
      the reason and the overrun flag around the handles. */
  function OmissionLine(before: string, kinds: seq<string>, after: string, mark: string): Line {
    Line("OMISSION", [Literal(before)] + Handles(kinds, mark) + [Literal(after)])
  }

  lemma {:induction false} OmissionNames(before: string, kinds: seq<string>, after: string, mark: string)
    requires kinds != []
    ensures Literal(mark) in OmissionLine(before, kinds, after, mark).rest
  {
    assert Handles(kinds, mark)[1] == Literal(mark);
    assert OmissionLine(before, kinds, after, mark).rest[2] == Literal(mark);
  }

  /** So whenever a rendering leaves something out, two runs of it get different views. */
  lemma {:induction false} OmissionShowsIdentity(
      m: Memory, before: string, kinds: seq<string>, after: string, mark: string,
      id: string, id': string, digest: Digest)
    requires kinds != [] && OmissionLine(before, kinds, after, mark) in m.body
    requires id != id' && id != mark && id != "\n" && !HasLiteral(m.body, id)
    requires PairedControlMemory(Stamp(m, mark, id), digest).Ok?
    requires PairedControlMemory(Stamp(m, mark, id'), digest).Ok?
    ensures PairedControlMemory(Stamp(m, mark, id), digest) != PairedControlMemory(Stamp(m, mark, id'), digest)
  {
    OmissionNames(before, kinds, after, mark);
    IdentityLeavesViewIff(m, mark, id, id', digest);
  }

  const FACT := Line("C", [Literal(" x "), Alias(E, 1)])

  function OmissionExample(mark: string): Memory {
    Memory(CompactHeader(mark), [FACT, OmissionLine(" handles=", ["fact"], "", mark)], TraceLine(SHARED_TRACE))
  }

  lemma {:induction false} StampedExampleShown(mark: string, id: string)
    ensures Shown(Stamp(OmissionExample(mark), mark, id).body) == {1}
  {
    var body := Stamp(OmissionExample(mark), mark, id).body;
    ShownAliases(body);
    forall n ensures n in Shown(body) <==> n == 1 {
      TextAliases(body, E, n);
      if n == 1 {
        assert body[0] in body && body[0].rest[1] == Alias(E, 1);
      }
    }
  }

  /** A header, at least one line, and a trace line. */
  predicate Compact(m: Memory) {
    m.first.CompactHeader? && m.body != [] && m.last.TraceLine?
  }

  /** Some entry, every entry an evidence alias with references, none named twice. */
  ghost predicate WellTraced(entries: seq<Entry>) {
    && entries != []
    && (forall e | e in entries :: e.name.EvidenceAlias? && e.references != "")
    && NamedOnce(entries)
  }

  /** The trace has an entry for exactly the evidence aliases in the body. */
  ghost predicate Covers(m: Memory)
    requires m.last.TraceLine?
  {
    forall n :: (exists l :: l in m.body && Alias(E, n) in l.rest)
            <==> exists e :: e in m.last.entries && e.name == EvidenceAlias(n)
  }

  ghost predicate NamedOnce(entries: seq<Entry>) {
    forall i, j | 0 <= i < j < |entries| :: entries[i].name != entries[j].name
  }

  lemma {:induction false} NamedOnceGrows(init: seq<Entry>, last: Entry)
    ensures NamedOnce(init + [last]) <==> NamedOnce(init) && last.name !in Names(init)
  {
    var all, n := init + [last], |init|;
    if last.name in Names(init) {
      var e :| e in init && e.name == last.name;
      var i :| 0 <= i < n && init[i] == e;
      assert all[i].name == all[n].name;
    }
    if NamedOnce(all) {
      assert forall i, j | 0 <= i < j < n :: init[i] == all[i] && init[j] == all[j];
    }
  }

  lemma {:induction false} NamedOnceIff(entries: seq<Entry>)
    ensures |Names(entries)| == |entries| <==> NamedOnce(entries)
  {
    if entries != [] {
      var init, last := entries[..|entries| - 1], entries[|entries| - 1];
      assert entries == init + [last];
      NamedOnceIff(init);
      NamesBound(init);
      NamesGrow(init, last);
      NamedOnceGrows(init, last);
    }
  }

  lemma {:induction false} CoversIff(m: Memory, trace: Trace)
    requires m.last.TraceLine? && Holds(m.last.entries, trace)
    requires forall e | e in m.last.entries :: e.name.EvidenceAlias?
    ensures Shown(m.body) == trace.Keys <==> Covers(m)
  {
    ShownAliases(m.body);
    forall n ensures n in Shown(m.body) <==> exists l :: l in m.body && Alias(E, n) in l.rest {
      TextAliases(m.body, E, n);
    }
    forall n ensures n in trace <==> exists e :: e in m.last.entries && e.name == EvidenceAlias(n) {
      NamedInTrace(m.last.entries, trace, n);
    }
  }

  /** Which checkpoints have a view, and which error the others get. */
  lemma {:induction false} ViewErrorsAre(m: Memory, digest: Digest)
    ensures var r := PairedControlMemory(m, digest);
      && (r == Err(NotCompact) <==> !Compact(m))
      && (r == Err(TraceInvalid) <==> Compact(m) && !WellTraced(m.last.entries))
      && (r == Err(TraceNotCovering) <==> Compact(m) && WellTraced(m.last.entries) && !Covers(m))
      && (r.Ok? <==> Compact(m) && WellTraced(m.last.entries) && Covers(m))
  {
    if Compact(m) && m.last.entries != [] {
      NamedOnceIff(m.last.entries);
      ParseTraceAccepts(m.last.entries);
      if WellTraced(m.last.entries) {
        var trace := ParseTrace(m.last.entries).value;
        CoversIff(m, trace);
        OrderedShown(m.body, SemanticKey(trace));
        FinishCovers(StableOrder(m.body, SemanticKey(trace)), trace, digest);
      }
    }
  }

  lemma {:induction false} CoveredIsAccepted(m: Memory, trace: Trace, digest: Digest)
    requires m.body != [] && m.first.CompactHeader? && m.last.TraceLine? && m.last.entries != []
    requires ParseTrace(m.last.entries) == Some(trace) && Shown(m.body) == trace.Keys
    ensures PairedControlMemory(m, digest).Ok?
  {
    OrderedShown(m.body, SemanticKey(trace));
    FinishCovers(StableOrder(m.body, SemanticKey(trace)), trace, digest);
  }

  /** The first eight characters of a random identity. */
  predicate IdentityPrefix(id: string) {
    |id| == 8 && forall c | c in id :: '0' <= c <= '9' || 'a' <= c <= 'f'
  }

  lemma {:induction false} PrefixIsNot(id: string, text: string)
    requires IdentityPrefix(id) && (|text| != 8 || text[0] == 'O')
    ensures id != text
  {
    assert id[0] in id;
  }

  lemma {:induction false} ExampleLiterals(m: Memory, id: string)
    requires m == OmissionExample("@") && IdentityPrefix(id)
    ensures !HasLiteral(m.body, id) && id != "@" && id != "\n"
  {
    PrefixIsNot(id, "OMISSION");
    forall l | l in m.body ensures l.tag != id && Literal(id) !in l.rest {
      assert l == FACT || l == m.body[1];
      forall t | t in l.rest && t.Literal? ensures |t.text| != 8 {
        ExampleTokens(m, l, t);
      }
    }
  }

  lemma {:induction false} ExampleTokens(m: Memory, l: Line, t: Token)
    requires m == OmissionExample("@") && l in m.body && t in l.rest && t.Literal?
    ensures |t.text| != 8
  {
    if l == m.body[1] {
      assert Handles(["fact"], "@") == [Literal("memory:"), Literal("@"), Literal(":" + "fact")];
    }
  }

  /** One such rendering: a fact and an omission, under any two identities. */
  lemma {:induction false} OmissionExampleDiffers(id: string, id': string, digest: Digest)
    requires IdentityPrefix(id) && IdentityPrefix(id') && id != id'
    ensures var m := OmissionExample("@");
      && PairedControlMemory(Stamp(m, "@", id), digest).Ok?
      && PairedControlMemory(Stamp(m, "@", id'), digest).Ok?
      && PairedControlMemory(Stamp(m, "@", id), digest) != PairedControlMemory(Stamp(m, "@", id'), digest)
  {
    var m := OmissionExample("@");
    SharedTraceParses();
    StampedExampleShown("@", id);
    StampedExampleShown("@", id');
    CoveredIsAccepted(Stamp(m, "@", id), map[1 := "r"], digest);
    CoveredIsAccepted(Stamp(m, "@", id'), map[1 := "r"], digest);
    ExampleLiterals(m, id);
    assert m.body[1] in m.body;
    OmissionShowsIdentity(m, " handles=", ["fact"], "", "@", id, id', digest);
  }

  lemma {:induction false} StampsAgree(m: Memory, mark: string, id: string, id': string)
    requires !NamesIdentity(m, mark)
    ensures Stamp(m, mark, id).body == Stamp(m, mark, id').body
  {
    forall i | 0 <= i < |m.body|
      ensures StampLine(mark, id)(m.body[i]) == StampLine(mark, id')(m.body[i])
    {
      var l := m.body[i];
      assert l in m.body;
      var rest, rest' := StampLine(mark, id)(l).rest, StampLine(mark, id')(l).rest;
      forall j | 0 <= j < |l.rest| ensures rest[j] == rest'[j] {
        assert l.rest[j] in l.rest;
      }
      assert rest == rest';
    }
  }

  // ----- Ties do reach the view -----

  const TIED := Line("C", [Literal(" x "), Alias(A, 1), Alias(E, 1)])

  const TIED_TOO := Line("C", [Literal(" x "), Alias(A, 2), Alias(E, 1)])

  const LATER := Line("D", [Literal(" y "), Alias(A, 1), Alias(E, 1)])

  const SHARED_TRACE: seq<Entry> := [Entry(EvidenceAlias(1), "r")]

  function TieExample(first: Line, second: Line): Memory {
    Memory(CompactHeader("0"), [first, second, LATER], TraceLine(SHARED_TRACE))
  }

  lemma {:induction false} OrderOfTie(first: Line, second: Line, key: Line -> string)
    requires first.tag == second.tag == "C" && key(first) == key(second)
    ensures RunLength([first, second, LATER]) == 2
    ensures StableOrder([first, second, LATER], key) == [first, second, LATER]
  {
    var lines := [first, second, LATER];
    RunLengthIs(lines, 2);
    RunLengthIs([LATER], 1);
    LeqReflexive(key(first));
    assert lines[..2] == [first, second] && lines[2..] == [LATER];
    assert [first, second][1..] == [second] && [second][1..] == [] && [LATER][..1] == [LATER];
    assert Sort([second], key) == Insert(second, [], key) == [second];
    assert Sort([first, second], key) == [first, second];
    assert [LATER][1..] == [];
    assert Sort([LATER], key) == Insert(LATER, [], key) == [LATER];
    assert StableOrder([LATER], key) == [LATER] + StableOrder([], key) == [LATER];
  }

  lemma {:induction false} TieExampleText(first: Line, second: Line)
    requires first == TIED || first == TIED_TOO
    requires second == TIED || second == TIED_TOO
    ensures var text := Text([first, second, LATER]);
      && |text| == 14
      && text[2] == first.rest[1] && text[7] == second.rest[1] && text[12] == Alias(A, 1)
    ensures Shown([first, second, LATER]) == {1}
  {
    var lines := [first, second, LATER];
    assert lines[1..] == [second, LATER] && [second, LATER][1..] == [LATER];
    assert Text([LATER]) == [Literal("D")] + LATER.rest;
    assert Text([second, LATER]) == [Literal("C")] + second.rest + [Literal("\n")] + Text([LATER]);
    ShownAliases(lines);
    forall n ensures n in Shown(lines) <==> n == 1 {
      TextAliases(lines, E, n);
      assert LATER in lines && LATER.rest[2] == Alias(E, 1);
    }
  }

  lemma {:induction false} TieTextsDiffer()
    ensures Canonical(Text([TIED, TIED_TOO, LATER])) != Canonical(Text([TIED_TOO, TIED, LATER]))
  {
    var one, two := Text([TIED, TIED_TOO, LATER]), Text([TIED_TOO, TIED, LATER]);
    TieExampleText(TIED, TIED_TOO);
    TieExampleText(TIED_TOO, TIED);
    if Canonical(one) == Canonical(two) {
      var ra, re := CanonicalMatch(one, two);
      assert false;
    }
  }

  lemma {:induction false} ViewIsFinish(m: Memory, trace: Trace, ordered: seq<Line>, digest: Digest)
    requires m.body != [] && m.first.CompactHeader? && m.last.TraceLine? && m.last.entries != []
    requires ParseTrace(m.last.entries) == Some(trace)
    requires StableOrder(m.body, SemanticKey(trace)) == ordered && Shown(ordered) == trace.Keys
    ensures PairedControlMemory(m, digest).Ok?
    ensures PairedControlMemory(m, digest).value.body == Canonical(Text(ordered))
  {
    FinishCovers(ordered, trace, digest);
  }

  lemma {:induction false} SharedTraceParses()
    ensures ParseTrace(SHARED_TRACE) == Some(map[1 := "r"])
  {
    assert SHARED_TRACE[..0] == [];
  }

  lemma {:induction false} TieExampleView(first: Line, second: Line, digest: Digest)
    requires (first == TIED && second == TIED_TOO) || (first == TIED_TOO && second == TIED)
    ensures PairedControlMemory(TieExample(first, second), digest).Ok?
    ensures PairedControlMemory(TieExample(first, second), digest).value.body == Canonical(Text([first, second, LATER]))
  {
    SharedTraceParses();
    TieKeys(map[1 := "r"]);
    OrderOfTie(first, second, SemanticKey(map[1 := "r"]));
    TieExampleText(first, second);
    ViewIsFinish(TieExample(first, second), map[1 := "r"], [first, second, LATER], digest);
  }

  lemma {:induction false} TieReordered()
    ensures Reordered([TIED, TIED_TOO, LATER], [TIED_TOO, TIED, LATER])
  {
    var one, two := [TIED, TIED_TOO, LATER], [TIED_TOO, TIED, LATER];
    RunLengthIs(one, 2);
    RunLengthIs(two, 2);
    assert one[..2] == [TIED, TIED_TOO] && two[..2] == [TIED_TOO, TIED];
    assert one[2..] == two[2..];
    ReorderedReflexive(one[2..]);
  }

  /** Two lines with one semantic key, told apart by a later mention: swapping them changes the
      view, so distinct keys are needed. */
  lemma {:induction false} TieReachesView(digest: Digest)
    ensures Reordered(TieExample(TIED, TIED_TOO).body, TieExample(TIED_TOO, TIED).body)
    ensures PairedControlMemory(TieExample(TIED, TIED_TOO), digest).Ok?
    ensures PairedControlMemory(TieExample(TIED_TOO, TIED), digest).Ok?
    ensures PairedControlMemory(TieExample(TIED, TIED_TOO), digest)
      != PairedControlMemory(TieExample(TIED_TOO, TIED), digest)
  {
    TieReordered();
    TieTextsDiffer();
    TieExampleView(TIED, TIED_TOO, digest);
    TieExampleView(TIED_TOO, TIED, digest);
  }

  lemma {:induction false} TieKeys(trace: Trace)
    ensures SemanticKey(trace)(TIED) == SemanticKey(trace)(TIED_TOO)
  {
    var a, b := TIED.rest, TIED_TOO.rest;
    assert a[1..][1..] == b[1..][1..] == [Alias(E, 1)];
    assert TextKey(a[1..], trace) == "A" + TextKey(a[1..][1..], trace);
    assert TextKey(b[1..], trace) == "A" + TextKey(b[1..][1..], trace);
  }
}
