/** Renderings of one checkpoint under different aliases.  The renderer copies an atom's meaning as it
    is, so a word such as `A1` in it looks like an alias but is never renamed: exactly when the view
    still does not depend on the aliases. */
module Renderings {
  import opened StableSorting
  import opened AliasNormalForm
  import opened ControlView
  import opened ControlViewLaws
  import opened ControlViewTies

  /** Part of a line: raw text, which may read like an alias, or a mention of an atom or of evidence. */
  datatype Piece = Raw(token: Token) | Mention(prefix: Prefix, of: nat)

  /** The aliases of one rendering. */
  type Naming = (Prefix, nat) -> Number

  function WrittenPiece(piece: Piece, names: Naming): Token {
    match piece
    case Raw(token) => token
    case Mention(prefix, of) => Alias(prefix, names(prefix, of))
  }

  function Written(pieces: seq<Piece>, names: Naming): (text: seq<Token>)
    ensures |text| == |pieces|
    ensures forall i | 0 <= i < |text| :: text[i] == WrittenPiece(pieces[i], names)
  {
    seq(|pieces|, i requires 0 <= i < |pieces| => WrittenPiece(pieces[i], names))
  }

  /** Different mentions have different aliases. */
  ghost predicate Separates(pieces: seq<Piece>, names: Naming) {
    forall p, i, j | Mention(p, i) in pieces && Mention(p, j) in pieces && names(p, i) == names(p, j) :: i == j
  }

  /** A raw word that reads like an alias is the alias of the same mention in both renderings, or of
      none in either. */
  ghost predicate ClashesAgree(pieces: seq<Piece>, a: Naming, b: Naming) {
    forall p, i, n | Mention(p, i) in pieces && Raw(Alias(p, n)) in pieces :: a(p, i) == n <==> b(p, i) == n
  }

  /** The renaming from one rendering to the other: mentions change their aliases, raw words stay. */
  function Renaming(pieces: seq<Piece>, a: Naming, b: Naming, p: Prefix): map<Number, Number> {
    if pieces == [] then map[] else
      var r := Renaming(pieces[1..], a, b, p);
      match pieces[0]
      case Mention(q, i) => if q == p then r[a(p, i) := b(p, i)] else r
      case Raw(Alias(q, n)) => if q == p then r[n := n] else r
      case _ => r
  }

  /** `r` takes what each piece is in the first rendering to what it is in the second. */
  ghost predicate Follows(pieces: seq<Piece>, a: Naming, b: Naming, p: Prefix, r: map<Number, Number>) {
    && (forall i | Mention(p, i) in pieces :: a(p, i) in r && r[a(p, i)] == b(p, i))
    && (forall n | Raw(Alias(p, n)) in pieces :: n in r && r[n] == n)
    && (forall m | m in r :: Raw(Alias(p, m)) in pieces || exists i :: Mention(p, i) in pieces && a(p, i) == m)
  }

  lemma {:induction false} FollowsMention(pieces: seq<Piece>, a: Naming, b: Naming, p: Prefix,
      r: map<Number, Number>, i: nat)
    requires Separates([Mention(p, i)] + pieces, a) && ClashesAgree([Mention(p, i)] + pieces, a, b)
    requires Follows(pieces, a, b, p, r)
    ensures Follows([Mention(p, i)] + pieces, a, b, p, r[a(p, i) := b(p, i)])
  {
    var all, next := [Mention(p, i)] + pieces, r[a(p, i) := b(p, i)];
    assert Mention(p, i) in all;
    forall j | Mention(p, j) in all ensures a(p, j) in next && next[a(p, j)] == b(p, j) {}
    forall n | Raw(Alias(p, n)) in all ensures n in next && next[n] == n {
      assert Raw(Alias(p, n)) in pieces;
    }
    forall m | m in next ensures Raw(Alias(p, m)) in all || exists j :: Mention(p, j) in all && a(p, j) == m {
      if m != a(p, i) && Raw(Alias(p, m)) !in pieces {
        var j :| Mention(p, j) in pieces && a(p, j) == m;
        assert Mention(p, j) in all;
      }
    }
  }

  lemma {:induction false} FollowsRaw(pieces: seq<Piece>, a: Naming, b: Naming, p: Prefix, r: map<Number, Number>,
      n: Number)
    requires ClashesAgree([Raw(Alias(p, n))] + pieces, a, b) && Follows(pieces, a, b, p, r)
    ensures Follows([Raw(Alias(p, n))] + pieces, a, b, p, r[n := n])
  {
    var all, next := [Raw(Alias(p, n))] + pieces, r[n := n];
    assert Raw(Alias(p, n)) in all;
    forall j | Mention(p, j) in all ensures a(p, j) in next && next[a(p, j)] == b(p, j) {
      assert Mention(p, j) in pieces;
    }
    forall m | m in next ensures Raw(Alias(p, m)) in all || exists j :: Mention(p, j) in all && a(p, j) == m {
      if m != n && Raw(Alias(p, m)) !in pieces {
        var j :| Mention(p, j) in pieces && a(p, j) == m;
        assert Mention(p, j) in all;
      }
    }
  }

  lemma {:induction false} FollowsOther(pieces: seq<Piece>, a: Naming, b: Naming, p: Prefix, r: map<Number, Number>,
      x: Piece)
    requires Follows(pieces, a, b, p, r)
    requires (x.Mention? ==> x.prefix != p) && (x.Raw? && x.token.Alias? ==> x.token.prefix != p)
    ensures Follows([x] + pieces, a, b, p, r)
  {
    var all := [x] + pieces;
    forall m | m in r ensures Raw(Alias(p, m)) in all || exists j :: Mention(p, j) in all && a(p, j) == m {
      if Raw(Alias(p, m)) !in pieces {
        var j :| Mention(p, j) in pieces && a(p, j) == m;
        assert Mention(p, j) in all;
      }
    }
  }

  lemma {:induction false} RenamingFollows(pieces: seq<Piece>, a: Naming, b: Naming, p: Prefix)
    requires Separates(pieces, a) && ClashesAgree(pieces, a, b)
    ensures Follows(pieces, a, b, p, Renaming(pieces, a, b, p))
  {
    if pieces != [] {
      var first, rest := pieces[0], pieces[1..];
      assert pieces == [first] + rest;
      RenamingFollows(rest, a, b, p);
      var r := Renaming(rest, a, b, p);
      if first.Mention? && first.prefix == p {
        FollowsMention(rest, a, b, p, r, first.of);
      } else if first.Raw? && first.token.Alias? && first.token.prefix == p {
        FollowsRaw(rest, a, b, p, r, first.token.number);
      } else {
        FollowsOther(rest, a, b, p, r, first);
      }
    }
  }

  lemma {:induction false} OnlyRawToRaw(pieces: seq<Piece>, a: Naming, b: Naming, p: Prefix, r: map<Number, Number>,
      m: Number, n: Number)
    requires ClashesAgree(pieces, a, b) && Follows(pieces, a, b, p, r)
    requires Raw(Alias(p, m)) in pieces && n in r && r[n] == m
    ensures n == m
  {
    if i :| Mention(p, i) in pieces && a(p, i) == n {
      assert b(p, i) == m;
    }
  }

  lemma {:induction false} FollowsOneToOne(pieces: seq<Piece>, a: Naming, b: Naming, p: Prefix, r: map<Number, Number>)
    requires Separates(pieces, b) && ClashesAgree(pieces, a, b) && Follows(pieces, a, b, p, r)
    ensures OneToOne(r)
  {
    forall m, n | m in r && n in r && r[m] == r[n] ensures m == n {
      if Raw(Alias(p, m)) in pieces {
        OnlyRawToRaw(pieces, a, b, p, r, m, n);
      } else if Raw(Alias(p, n)) in pieces {
        OnlyRawToRaw(pieces, a, b, p, r, n, m);
      } else {
        var i :| Mention(p, i) in pieces && a(p, i) == m;
        var j :| Mention(p, j) in pieces && a(p, j) == n;
        assert b(p, i) == b(p, j);
      }
    }
  }

  lemma FollowsPiece(pieces: seq<Piece>, a: Naming, b: Naming,
      ra: map<Number, Number>, re: map<Number, Number>, x: Piece)
    requires Follows(pieces, a, b, A, ra) && Follows(pieces, a, b, E, re) && x in pieces
    ensures RenameToken(RenameToken(WrittenPiece(x, a), A, ra), E, re) == WrittenPiece(x, b)
  {}

  lemma {:induction false} FollowsRenames(pieces: seq<Piece>, part: seq<Piece>, a: Naming, b: Naming,
      ra: map<Number, Number>, re: map<Number, Number>)
    requires Follows(pieces, a, b, A, ra) && Follows(pieces, a, b, E, re) && forall x | x in part :: x in pieces
    ensures RenameBoth(Written(part, a), ra, re) == Written(part, b)
  {
    var once := Rename(Written(part, a), A, ra);
    forall i | 0 <= i < |part| ensures Rename(once, E, re)[i] == Written(part, b)[i] {
      FollowsPiece(pieces, a, b, ra, re, part[i]);
    }
  }

  lemma {:induction false} WrittenAlias(pieces: seq<Piece>, names: Naming, p: Prefix, n: Number)
    ensures Alias(p, n) in Written(pieces, names) <==>
      Raw(Alias(p, n)) in pieces || exists i :: Mention(p, i) in pieces && names(p, i) == n
  {
    var text := Written(pieces, names);
    forall k | 0 <= k < |pieces| ensures WrittenPiece(pieces[k], names) in text && pieces[k] in pieces {
      assert text[k] in text;
    }
    if Alias(p, n) in text {
      var k :| 0 <= k < |text| && text[k] == Alias(p, n);
      assert pieces[k] in pieces;
    }
  }

  lemma {:induction false} FollowsBijective(pieces: seq<Piece>, a: Naming, b: Naming, p: Prefix, r: map<Number, Number>)
    requires Follows(pieces, a, b, p, r) && OneToOne(r)
    ensures Bijective(r, Written(pieces, a), p)
  {
    forall n | Alias(p, n) in Written(pieces, a) ensures n in r {
      WrittenAlias(pieces, a, p, n);
    }
  }

  /** The two texts are renumbered alike exactly when the clashes agree. */
  lemma {:induction false} RenderingsAgreeIff(pieces: seq<Piece>, a: Naming, b: Naming)
    requires Separates(pieces, a) && Separates(pieces, b)
    ensures Canonical(Written(pieces, a)) == Canonical(Written(pieces, b)) <==> ClashesAgree(pieces, a, b)
  {
    if ClashesAgree(pieces, a, b) {
      var ra, re := RenamingBetween(pieces, a, b);
      FollowsBijective(pieces, a, b, A, ra);
      FollowsBijective(pieces, a, b, E, re);
      FollowsRenames(pieces, pieces, a, b, ra, re);
      CanonicalForgetsNames(Written(pieces, a), ra, re);
    }
    if Canonical(Written(pieces, a)) == Canonical(Written(pieces, b)) {
      var ra, re := CanonicalMatch(Written(pieces, a), Written(pieces, b));
      forall p, i, n | Mention(p, i) in pieces && Raw(Alias(p, n)) in pieces
        ensures a(p, i) == n <==> b(p, i) == n
      {
        MatchedPieces(pieces, a, b, ra, re, p, i, n);
      }
    }
  }

  lemma {:induction false} RenamingBetween(pieces: seq<Piece>, a: Naming, b: Naming)
    returns (ra: map<Number, Number>, re: map<Number, Number>)
    requires Separates(pieces, a) && Separates(pieces, b) && ClashesAgree(pieces, a, b)
    ensures Follows(pieces, a, b, A, ra) && OneToOne(ra)
    ensures Follows(pieces, a, b, E, re) && OneToOne(re)
  {
    ra, re := Renaming(pieces, a, b, A), Renaming(pieces, a, b, E);
    RenamingFollows(pieces, a, b, A);
    RenamingFollows(pieces, a, b, E);
    FollowsOneToOne(pieces, a, b, A, ra);
    FollowsOneToOne(pieces, a, b, E, re);
  }

  lemma {:induction false} MatchedPieces(pieces: seq<Piece>, a: Naming, b: Naming,
      ra: map<Number, Number>, re: map<Number, Number>, p: Prefix, i: nat, n: Number)
    requires Bijective(ra, Written(pieces, a), A) && Bijective(re, Written(pieces, a), E)
    requires Written(pieces, b) == RenameBoth(Written(pieces, a), ra, re)
    requires Mention(p, i) in pieces && Raw(Alias(p, n)) in pieces
    ensures a(p, i) == n <==> b(p, i) == n
  {
    var text := Written(pieces, a);
    var j :| 0 <= j < |pieces| && pieces[j] == Mention(p, i);
    var k :| 0 <= k < |pieces| && pieces[k] == Raw(Alias(p, n));
    assert text[j] in text && text[k] in text;
    assert Written(pieces, b)[j] == RenameBoth(text, ra, re)[j];
    assert Written(pieces, b)[k] == RenameBoth(text, ra, re)[k];
  }

  /** Without such words the aliases never matter; with one they may. */
  lemma {:induction false} RawWordShows(pieces: seq<Piece>, a: Naming, b: Naming)
    requires pieces == [Raw(Alias(A, 1)), Mention(A, 0), Mention(A, 1)]
    requires a(A, 0) == 1 && a(A, 1) == 2 && b(A, 0) == 2 && b(A, 1) == 1
    ensures Canonical(Written(pieces, a)) != Canonical(Written(pieces, b))
  {
    assert Mention(A, 0) == pieces[1] && Raw(Alias(A, 1)) == pieces[0];
    assert Separates(pieces, a) && Separates(pieces, b);
    assert !ClashesAgree(pieces, a, b);
    RenderingsAgreeIff(pieces, a, b);
  }

  // ----- Whole checkpoints -----

  datatype PageLine = PageLine(tag: string, pieces: seq<Piece>)

  /** What a checkpoint says, before aliases are chosen: its lines, and the references of each piece of
      evidence. */
  datatype Page = Page(lines: seq<PageLine>, evidence: seq<(nat, string)>)

  function LineOf(names: Naming): PageLine -> Line {
    (l: PageLine) => Line(l.tag, Written(l.pieces, names))
  }

  function EntryOf(names: Naming): ((nat, string)) -> Entry {
    (e: (nat, string)) => Entry(EvidenceAlias(names(E, e.0)), e.1)
  }

  /** `m` shows the page under these aliases, its lines and its trace in some order. */
  ghost predicate Renders(m: Memory, page: Page, names: Naming) {
    && m.first.CompactHeader? && Reordered(Map(LineOf(names), page.lines), m.body)
    && m.last.TraceLine? && multiset(m.last.entries) == multiset(Map(EntryOf(names), page.evidence))
  }

  function LinePieces(lines: seq<PageLine>): seq<Piece> {
    if lines == [] then [] else lines[0].pieces + LinePieces(lines[1..])
  }

  /** Everything on the page, with the evidence of its trace. */
  function Pieces(page: Page): seq<Piece> {
    LinePieces(page.lines) + seq(|page.evidence|, i requires 0 <= i < |page.evidence| => Mention(E, page.evidence[i].0))
  }

  lemma {:induction false} LineInside(lines: seq<PageLine>, l: PageLine, x: Piece)
    requires l in lines && x in l.pieces
    ensures x in LinePieces(lines)
  {
    if l != lines[0] {
      assert lines == [lines[0]] + lines[1..];
      LineInside(lines[1..], l, x);
    }
  }

  lemma {:induction false} LinesFollow(page: Page, a: Naming, b: Naming, ra: map<Number, Number>,
      re: map<Number, Number>)
    requires Follows(Pieces(page), a, b, A, ra) && Follows(Pieces(page), a, b, E, re)
    ensures RenameLines(Map(LineOf(a), page.lines), ra, re) == Map(LineOf(b), page.lines)
  {
    forall i | 0 <= i < |page.lines|
      ensures RenameLine(ra, re)(LineOf(a)(page.lines[i])) == LineOf(b)(page.lines[i])
    {
      var l := page.lines[i];
      forall x | x in l.pieces ensures x in Pieces(page) {
        LineInside(page.lines, l, x);
      }
      FollowsRenames(Pieces(page), l.pieces, a, b, ra, re);
    }
  }

  lemma {:induction false} EvidenceInside(page: Page, i: nat)
    requires i < |page.evidence|
    ensures Mention(E, page.evidence[i].0) in Pieces(page)
  {
    assert Pieces(page)[|LinePieces(page.lines)| + i] == Mention(E, page.evidence[i].0);
  }

  lemma {:induction false} EntriesFollow(page: Page, a: Naming, b: Naming, re: map<Number, Number>)
    requires Follows(Pieces(page), a, b, E, re)
    ensures Map(RenameEntry(re), Map(EntryOf(a), page.evidence)) == Map(EntryOf(b), page.evidence)
    ensures forall n :: EvidenceAlias(n) in Names(Map(EntryOf(a), page.evidence)) ==> n in re
  {
    var entries := Map(EntryOf(a), page.evidence);
    forall i | 0 <= i < |page.evidence| ensures RenameEntry(re)(entries[i]) == EntryOf(b)(page.evidence[i]) {
      EvidenceInside(page, i);
    }
    forall n | EvidenceAlias(n) in Names(entries) ensures n in re {
      var e :| e in entries && e.name == EvidenceAlias(n);
      var i :| 0 <= i < |entries| && entries[i] == e;
      EvidenceInside(page, i);
    }
  }

  lemma {:induction false} LinesBijective(page: Page, body: seq<Line>, a: Naming, b: Naming, p: Prefix,
      r: map<Number, Number>)
    requires Follows(Pieces(page), a, b, p, r) && OneToOne(r)
    requires Reordered(Map(LineOf(a), page.lines), body)
    ensures Bijective(r, Text(body), p)
  {
    var lines := Map(LineOf(a), page.lines);
    ReorderedMembers(lines, body);
    SameLinesSameAliases(lines, body, p);
    forall n | Alias(p, n) in Text(lines) ensures n in r {
      TextAliases(lines, p, n);
      var l :| l in lines && Alias(p, n) in l.rest;
      var i :| 0 <= i < |lines| && lines[i] == l;
      AliasInside(page, page.lines[i], a, b, p, n, r);
    }
  }

  lemma {:induction false} AliasInside(page: Page, l: PageLine, a: Naming, b: Naming, p: Prefix, n: Number,
      r: map<Number, Number>)
    requires Follows(Pieces(page), a, b, p, r)
    requires l in page.lines && Alias(p, n) in Written(l.pieces, a)
    ensures n in r
  {
    WrittenAlias(l.pieces, a, p, n);
    if Raw(Alias(p, n)) in l.pieces {
      LineInside(page.lines, l, Raw(Alias(p, n)));
      assert Raw(Alias(p, n)) in Pieces(page);
    } else {
      var i :| Mention(p, i) in l.pieces && a(p, i) == n;
      LineInside(page.lines, l, Mention(p, i));
      assert Mention(p, i) in Pieces(page);
    }
  }

  /** Two renderings of one page present the same content when the clashes agree. */
  lemma {:induction false} RenderingsPresent(page: Page, a: Naming, b: Naming, m: Memory, m': Memory)
    returns (ra: map<Number, Number>, re: map<Number, Number>)
    requires Separates(Pieces(page), a) && Separates(Pieces(page), b) && ClashesAgree(Pieces(page), a, b)
    requires Renders(m, page, a) && Renders(m', page, b)
    ensures Presents(m, m', ra, re)
  {
    ra, re := RenamingBetween(Pieces(page), a, b);
    LinesBijective(page, m.body, a, b, A, ra);
    LinesBijective(page, m.body, a, b, E, re);
    LinesFollow(page, a, b, ra, re);
    BodiesFollow(Map(LineOf(a), page.lines), m.body, Map(LineOf(b), page.lines), m'.body, ra, re);
    EntriesFollow(page, a, b, re);
    TracesFollow(Map(EntryOf(a), page.evidence), m.last.entries, m'.last.entries, re);
  }

  lemma {:induction false} BodiesFollow(lines: seq<Line>, body: seq<Line>, lines': seq<Line>, body': seq<Line>,
      ra: map<Number, Number>, re: map<Number, Number>)
    requires Reordered(lines, body) && Reordered(lines', body') && RenameLines(lines, ra, re) == lines'
    ensures Reordered(RenameLines(body, ra, re), body')
  {
    ReorderedRename(lines, body, ra, re);
    ReorderedSymmetric(lines', RenameLines(body, ra, re));
    ReorderedTransitive(RenameLines(body, ra, re), lines', body');
  }

  lemma {:induction false} TracesFollow(listed: seq<Entry>, entries: seq<Entry>, entries': seq<Entry>,
      re: map<Number, Number>)
    requires multiset(entries) == multiset(listed) && multiset(entries') == multiset(Map(RenameEntry(re), listed))
    requires forall n :: EvidenceAlias(n) in Names(listed) ==> n in re
    ensures multiset(entries') == multiset(Map(RenameEntry(re), entries))
    ensures forall n :: EvidenceAlias(n) in Names(entries) ==> n in re
  {
    MapMultiset(RenameEntry(re), entries, listed);
    SameEntriesSameNames(entries, listed);
  }

  /** So they have one view, if ties do not matter. */
  lemma {:induction false} RenderingsShowAlike(page: Page, a: Naming, b: Naming, m: Memory, m': Memory, digest: Digest)
    requires Separates(Pieces(page), a) && Separates(Pieces(page), b) && ClashesAgree(Pieces(page), a, b)
    requires Renders(m, page, a) && Renders(m', page, b)
    requires PairedControlMemory(m, digest).Ok? && OneLine(m.body) && TiesUndone(OrderedBody(m), TraceOf(m))
    ensures PairedControlMemory(m', digest) == PairedControlMemory(m, digest)
  {
    var ra, re := RenderingsPresent(page, a, b, m, m');
    PresentationForgotten(m, m', ra, re, digest);
  }

  /** A raw word that reads like an evidence alias outside the trace makes the view fail. */
  lemma {:induction false} RawWordRejected(m: Memory, digest: Digest, l: Line, n: Number)
    requires m.first.CompactHeader? && m.last.TraceLine? && m.last.entries != []
    requires ParseTrace(m.last.entries).Some? && n !in ParseTrace(m.last.entries).value
    requires l in m.body && Alias(E, n) in l.rest
    ensures PairedControlMemory(m, digest) == Err(TraceNotCovering)
  {
    var trace := ParseTrace(m.last.entries).value;
    TextAliases(m.body, E, n);
    ShownAliases(m.body);
    OrderedShown(m.body, SemanticKey(trace));
    FinishCovers(StableOrder(m.body, SemanticKey(trace)), trace, digest);
  }
}
