/** Renumbering the run-local A and E aliases of a compact checkpoint by first visible use.

    Text is a sequence of tokens: literal text, or an alias such as `A3` or `E12` standing at
    word boundaries.  An alias is replaced by an alias, so replacing one never changes where
    the others stand. */
module AliasNormalForm {
  import opened Basics

  type Number = n: int | 0 < n witness 1

  datatype Prefix = A | E

  datatype Token = Literal(text: string) | Alias(prefix: Prefix, number: Number)

  function IndexOf(u: seq<Number>, n: Number): (i: nat)
    requires n in u
    ensures i < |u| && u[i] == n
  {
    if u[0] == n then 0 else 1 + IndexOf(u[1..], n)
  }

  lemma IndexOfUnique(u: seq<Number>, i: nat)
    requires Distinct(u) && i < |u|
    ensures IndexOf(u, u[i]) == i
  {}

  function AddUse(u: seq<Number>, t: Token, p: Prefix): seq<Number> {
    if t.Alias? && t.prefix == p && t.number !in u then u + [t.number] else u
  }

  /** The aliases of one prefix, each once, in order of first use. */
  function FirstUses(text: seq<Token>, p: Prefix): seq<Number> {
    if text == [] then [] else AddUse(FirstUses(text[..|text| - 1], p), text[|text| - 1], p)
  }

  lemma {:induction false} FirstUsesListsAliases(text: seq<Token>, p: Prefix)
    ensures Distinct(FirstUses(text, p))
    ensures forall n :: n in FirstUses(text, p) <==> Alias(p, n) in text
  {
    if text != [] {
      var init, t := text[..|text| - 1], text[|text| - 1];
      FirstUsesListsAliases(init, p);
      assert text == init + [t];
    }
  }

  function Members(u: seq<Number>): set<Number> {
    set n | n in u
  }

  /** The dictionary the substitution builds: alias to its position of first use, from 1. */
  function Numbering(u: seq<Number>): (r: map<Number, Number>)
    ensures r.Keys == Members(u)
    ensures forall n | n in u :: r[n] == IndexOf(u, n) + 1
  {
    map n | n in u :: IndexOf(u, n) + 1
  }

  function RenameToken(t: Token, p: Prefix, r: map<Number, Number>): Token {
    if t.Alias? && t.prefix == p && t.number in r then Alias(p, r[t.number]) else t
  }

  function Rename(text: seq<Token>, p: Prefix, r: map<Number, Number>): (out: seq<Token>)
    ensures |out| == |text|
    ensures forall i | 0 <= i < |text| :: out[i] == RenameToken(text[i], p, r)
  {
    seq(|text|, i requires 0 <= i < |text| => RenameToken(text[i], p, r))
  }

  function Renumber(text: seq<Token>, p: Prefix): seq<Token> {
    Rename(text, p, Numbering(FirstUses(text, p)))
  }

  /** `r` takes the aliases of `text` one to one to other aliases. */
  ghost predicate Bijective(r: map<Number, Number>, text: seq<Token>, p: Prefix) {
    && (forall n :: Alias(p, n) in text ==> n in r)
    && (forall m, n | m in r && n in r && r[m] == r[n] :: m == n)
  }

  lemma {:induction false} FirstUsesStep(text: seq<Token>, t: Token, p: Prefix)
    ensures FirstUses(text + [t], p) == AddUse(FirstUses(text, p), t, p)
  {
    assert (text + [t])[..|text|] == text;
  }

  lemma RenameStep(text: seq<Token>, t: Token, p: Prefix, r: map<Number, Number>)
    ensures Rename(text + [t], p, r) == Rename(text, p, r) + [RenameToken(t, p, r)]
  {}

  lemma {:induction false} FirstUsesExtend(text: seq<Token>, n: nat, p: Prefix)
    requires n <= |text|
    ensures FirstUses(text[..n], p) <= FirstUses(text, p)
    decreases |text| - n
  {
    if n == |text| {
      assert text[..n] == text;
    } else {
      FirstUsesStep(text[..n], text[n], p);
      assert text[..n + 1] == text[..n] + [text[n]];
      FirstUsesExtend(text, n + 1, p);
    }
  }

  function Through(r: map<Number, Number>, u: seq<Number>): (v: seq<Number>)
    requires forall n | n in u :: n in r
    ensures |v| == |u|
    ensures forall i | 0 <= i < |u| :: v[i] == r[u[i]]
  {
    seq(|u|, i requires 0 <= i < |u| => r[u[i]])
  }

  lemma {:induction false} AddUseThrough(u: seq<Number>, t: Token, p: Prefix, r: map<Number, Number>)
    requires forall n | n in u :: n in r
    requires t.Alias? && t.prefix == p ==> t.number in r
    requires forall m, n | m in r && n in r && r[m] == r[n] :: m == n
    ensures forall n | n in AddUse(u, t, p) :: n in r
    ensures AddUse(Through(r, u), RenameToken(t, p, r), p) == Through(r, AddUse(u, t, p))
  {
    if t.Alias? && t.prefix == p {
      if t.number in u {
        assert Through(r, u)[IndexOf(u, t.number)] == r[t.number];
      } else {
        forall i | 0 <= i < |u| ensures r[u[i]] != r[t.number] {
          assert u[i] in u;
        }
      }
    }
  }

  lemma {:induction false} FirstUsesRename(text: seq<Token>, p: Prefix, r: map<Number, Number>)
    requires Bijective(r, text, p)
    ensures forall n | n in FirstUses(text, p) :: n in r
    ensures FirstUses(Rename(text, p, r), p) == Through(r, FirstUses(text, p))
  {
    if text != [] {
      var init, t := text[..|text| - 1], text[|text| - 1];
      assert text == init + [t];
      assert t in text;
      FirstUsesRename(init, p, r);
      RenameStep(init, t, p, r);
      FirstUsesStep(Rename(init, p, r), RenameToken(t, p, r), p);
      AddUseThrough(FirstUses(init, p), t, p, r);
    }
  }

  lemma {:induction false} NumberedAlike(t: Token, p: Prefix, r: map<Number, Number>, u: seq<Number>)
    requires forall n | n in u :: n in r
    requires forall m, n | m in r && n in r && r[m] == r[n] :: m == n
    requires Distinct(u) && Distinct(Through(r, u))
    requires t.Alias? && t.prefix == p ==> t.number in u
    ensures RenameToken(RenameToken(t, p, r), p, Numbering(Through(r, u))) == RenameToken(t, p, Numbering(u))
  {
    if t.Alias? && t.prefix == p {
      var k := IndexOf(u, t.number);
      assert Through(r, u)[k] == r[t.number];
      IndexOfUnique(Through(r, u), k);
    }
  }

  /** Renaming does not change what renumbering produces. */
  lemma {:induction false} RenumberForgetsNames(text: seq<Token>, p: Prefix, r: map<Number, Number>)
    requires Bijective(r, text, p)
    ensures Renumber(Rename(text, p, r), p) == Renumber(text, p)
  {
    var renamed := Rename(text, p, r);
    FirstUsesRename(text, p, r);
    FirstUsesListsAliases(text, p);
    FirstUsesListsAliases(renamed, p);
    var u, v := FirstUses(text, p), FirstUses(renamed, p);
    forall i | 0 <= i < |text|
      ensures Rename(renamed, p, Numbering(v))[i] == Rename(text, p, Numbering(u))[i]
    {
      assert text[i] in text;
      NumberedAlike(text[i], p, r, u);
    }
    assert Rename(renamed, p, Numbering(v)) == Rename(text, p, Numbering(u));
  }

  lemma {:induction false} NumberingBijective(text: seq<Token>, p: Prefix)
    ensures Bijective(Numbering(FirstUses(text, p)), text, p)
  {
    FirstUsesListsAliases(text, p);
  }

  /** The aliases of a renumbered text are 1, 2, ..., k in that order. */
  lemma {:induction false} RenumberedInOrder(text: seq<Token>, p: Prefix)
    ensures var u := FirstUses(Renumber(text, p), p);
      |u| == |FirstUses(text, p)| && forall i | 0 <= i < |u| :: u[i] == i + 1
  {
    var u := FirstUses(text, p);
    NumberingBijective(text, p);
    FirstUsesListsAliases(text, p);
    FirstUsesRename(text, p, Numbering(u));
    forall i | 0 <= i < |u| ensures Numbering(u)[u[i]] == i + 1 {
      IndexOfUnique(u, i);
    }
  }

  lemma {:induction false} RenumberIdempotent(text: seq<Token>, p: Prefix)
    ensures Renumber(Renumber(text, p), p) == Renumber(text, p)
  {
    NumberingBijective(text, p);
    RenumberForgetsNames(text, p, Numbering(FirstUses(text, p)));
  }

  /** The renaming that takes each alias of `u` to the alias at its place in `v`. */
  function Matching(u: seq<Number>, v: seq<Number>): map<Number, Number> {
    map n | n in u && IndexOf(u, n) < |v| :: v[IndexOf(u, n)]
  }

  lemma MatchingToken(s: Token, t: Token, p: Prefix, u: seq<Number>, v: seq<Number>)
    requires s.Alias? && s.prefix == p ==> s.number in u
    requires t.Alias? && t.prefix == p ==> t.number in v
    requires RenameToken(s, p, Numbering(u)) == RenameToken(t, p, Numbering(v))
    ensures t == RenameToken(s, p, Matching(u, v))
  {}

  lemma {:induction false} MatchingInjective(u: seq<Number>, v: seq<Number>)
    requires Distinct(v)
    ensures forall m, n | m in Matching(u, v) && n in Matching(u, v) && Matching(u, v)[m] == Matching(u, v)[n] :: m == n
  {
    forall m, n | m in Matching(u, v) && n in Matching(u, v) && Matching(u, v)[m] == Matching(u, v)[n]
      ensures m == n
    {
      IndexOfUnique(v, IndexOf(u, m));
      IndexOfUnique(v, IndexOf(u, n));
    }
  }

  lemma {:induction false} EqualNumbersMatch(a: seq<Token>, b: seq<Token>, p: Prefix)
    requires Renumber(a, p) == Renumber(b, p)
    ensures var r := Matching(FirstUses(a, p), FirstUses(b, p));
      Bijective(r, a, p) && b == Rename(a, p, r)
  {
    var u, v := FirstUses(a, p), FirstUses(b, p);
    RenumberedInOrder(a, p);
    RenumberedInOrder(b, p);
    FirstUsesListsAliases(a, p);
    FirstUsesListsAliases(b, p);
    MatchingInjective(u, v);
    var x, y := Rename(a, p, Numbering(u)), Rename(b, p, Numbering(v));
    assert x == y && |a| == |b|;
    forall i | 0 <= i < |a| ensures b[i] == RenameToken(a[i], p, Matching(u, v)) {
      assert a[i] in a && b[i] in b;
      assert x[i] == y[i];
      MatchingToken(a[i], b[i], p, u, v);
    }
    assert b == Rename(a, p, Matching(u, v));
  }

  /** Renumbering is a normal form: it identifies two texts exactly when a one-to-one renaming
      takes one to the other. */
  lemma {:induction false} RenumberNormalForm(a: seq<Token>, b: seq<Token>, p: Prefix)
    ensures Renumber(a, p) == Renumber(b, p)
      <==> exists r :: Bijective(r, a, p) && b == Rename(a, p, r)
  {
    if Renumber(a, p) == Renumber(b, p) {
      EqualNumbersMatch(a, b, p);
    }
    if r :| Bijective(r, a, p) && b == Rename(a, p, r) {
      RenumberForgetsNames(a, p, r);
    }
  }

  /** The substitution loop: one pass, each alias entered in the dictionary when first met.
      `order` is the dictionary's insertion order. */
  method RenumberCompactAliases(text: seq<Token>, p: Prefix)
    returns (out: seq<Token>, order: seq<Number>, aliases: map<Number, Number>)
    ensures out == Renumber(text, p)
    ensures order == FirstUses(text, p)
    ensures aliases == Numbering(order)
  {
    out, order, aliases := [], [], map[];
    for i := 0 to |text|
      invariant order == FirstUses(text[..i], p)
      invariant aliases == Numbering(order)
      invariant out == Rename(text[..i], p, Numbering(FirstUses(text, p)))
    {
      var t := text[i];
      RenumberStep(text, i, p);
      if t.Alias? && t.prefix == p {
        if t.number !in aliases {
          aliases := aliases[t.number := |aliases| + 1];
          order := order + [t.number];
        }
        out := out + [Alias(p, aliases[t.number])];
      } else {
        out := out + [t];
      }
    }
    assert text[..|text|] == text;
  }

  /** What one match of the substitution adds. */
  lemma {:induction false} RenumberStep(text: seq<Token>, i: nat, p: Prefix)
    requires i < |text|
    ensures var t, order, next := text[i], FirstUses(text[..i], p), FirstUses(text[..i + 1], p);
      var final := Numbering(FirstUses(text, p));
      && next == AddUse(order, t, p)
      && (t.Alias? && t.prefix == p ==> t.number in final && final[t.number] == Numbering(next)[t.number])
      && (t.Alias? && t.prefix == p && t.number !in order ==>
            Numbering(next) == Numbering(order)[t.number := |Numbering(order)| + 1])
      && Rename(text[..i + 1], p, final) == Rename(text[..i], p, final) + [RenameToken(t, p, final)]
  {
    var t, order := text[i], FirstUses(text[..i], p);
    assert text[..i + 1] == text[..i] + [t];
    FirstUsesStep(text[..i], t, p);
    RenameStep(text[..i], t, p, Numbering(FirstUses(text, p)));
    if t.Alias? && t.prefix == p {
      if t.number !in order {
        FirstUsesListsAliases(text[..i], p);
        NumberingGrows(order, t.number);
      }
      FirstUsesExtend(text, i + 1, p);
      PrefixNumbering(AddUse(order, t, p), FirstUses(text, p), t.number);
    }
  }

  lemma {:induction false} IndexInPrefix(u: seq<Number>, v: seq<Number>, n: Number)
    requires u <= v && n in u
    ensures IndexOf(v, n) == IndexOf(u, n)
  {
    if u[0] != n {
      IndexInPrefix(u[1..], v[1..], n);
    }
  }

  lemma {:induction false} PrefixNumbering(u: seq<Number>, v: seq<Number>, n: Number)
    requires u <= v && n in u
    ensures n in v && Numbering(u)[n] == Numbering(v)[n]
  {
    IndexInPrefix(u, v, n);
  }

  lemma {:induction false} NumberingGrows(u: seq<Number>, n: Number)
    requires Distinct(u) && n !in u
    ensures |Numbering(u)| == |u|
    ensures Numbering(u + [n]) == Numbering(u)[n := |u| + 1]
  {
    DistinctCount(u);
    assert |Numbering(u)| == |Numbering(u).Keys|;
    LastIndex(u, n);
    MembersGrow(u, n);
    var grown, updated := Numbering(u + [n]), Numbering(u)[n := |u| + 1];
    forall m | m in Members(u + [n]) ensures grown[m] == updated[m] {
      if m != n {
        IndexInPrefix(u, u + [n], m);
      }
    }
    SameMaps(grown, updated);
  }

  lemma SameMaps(r: map<Number, Number>, s: map<Number, Number>)
    requires r.Keys == s.Keys
    requires forall m | m in r.Keys :: r[m] == s[m]
    ensures r == s
  {}

  lemma MembersGrow(u: seq<Number>, n: Number)
    ensures Members(u + [n]) == Members(u) + {n}
  {}

  lemma {:induction false} LastIndex(u: seq<Number>, n: Number)
    requires n !in u
    ensures IndexOf(u + [n], n) == |u|
  {
    if u != [] {
      assert (u + [n])[1..] == u[1..] + [n];
      LastIndex(u[1..], n);
    }
  }

  lemma {:induction false} DistinctCount(u: seq<Number>)
    requires Distinct(u)
    ensures |Members(u)| == |u|
  {
    if u != [] {
      var init, last := u[..|u| - 1], u[|u| - 1];
      DistinctInit(u);
      DistinctCount(init);
      MembersGrow(init, last);
      assert |Members(init) + {last}| == |Members(init)| + 1;
    }
  }

  lemma DistinctInit(u: seq<Number>)
    requires Distinct(u) && u != []
    ensures u == u[..|u| - 1] + [u[|u| - 1]]
    ensures Distinct(u[..|u| - 1]) && u[|u| - 1] !in Members(u[..|u| - 1])
  {}

  // ----- Both alias kinds together -----

  function RenameBoth(text: seq<Token>, ra: map<Number, Number>, re: map<Number, Number>): (out: seq<Token>)
    ensures |out| == |text|
  {
    Rename(Rename(text, A, ra), E, re)
  }

  function Canonical(text: seq<Token>): seq<Token> {
    Renumber(Renumber(text, A), E)
  }

  lemma {:induction false} FirstUsesOther(text: seq<Token>, p: Prefix, q: Prefix, r: map<Number, Number>)
    requires p != q
    ensures FirstUses(Rename(text, q, r), p) == FirstUses(text, p)
  {
    if text != [] {
      var init, t := text[..|text| - 1], text[|text| - 1];
      assert text == init + [t];
      FirstUsesOther(init, p, q, r);
      RenameStep(init, t, q, r);
      FirstUsesStep(Rename(init, q, r), RenameToken(t, q, r), p);
    }
  }

  lemma RenamesCommute(text: seq<Token>, p: Prefix, q: Prefix, r: map<Number, Number>, s: map<Number, Number>)
    requires p != q
    ensures Rename(Rename(text, p, r), q, s) == Rename(Rename(text, q, s), p, r)
  {}

  lemma {:induction false} BijectiveOther(text: seq<Token>, p: Prefix, q: Prefix, r: map<Number, Number>,
      s: map<Number, Number>)
    requires p != q
    ensures Bijective(r, Rename(text, q, s), p) <==> Bijective(r, text, p)
  {
    var renamed := Rename(text, q, s);
    forall n ensures Alias(p, n) in renamed <==> Alias(p, n) in text {
      if Alias(p, n) in renamed {
        var i :| 0 <= i < |renamed| && renamed[i] == Alias(p, n);
        assert text[i] == Alias(p, n);
      }
      if Alias(p, n) in text {
        var i :| 0 <= i < |text| && text[i] == Alias(p, n);
        assert renamed[i] == Alias(p, n);
      }
    }
  }

  lemma {:induction false} RenumberOther(text: seq<Token>, p: Prefix, q: Prefix, s: map<Number, Number>)
    requires p != q
    ensures Renumber(Rename(text, q, s), p) == Rename(Renumber(text, p), q, s)
  {
    FirstUsesOther(text, p, q, s);
    RenamesCommute(text, p, q, Numbering(FirstUses(text, p)), s);
  }

  lemma {:induction false} CanonicalForgetsNames(text: seq<Token>, ra: map<Number, Number>, re: map<Number, Number>)
    requires Bijective(ra, text, A) && Bijective(re, text, E)
    ensures Canonical(RenameBoth(text, ra, re)) == Canonical(text)
    ensures FirstUses(Renumber(RenameBoth(text, ra, re), A), E) == FirstUses(RenameBoth(text, ra, re), E)
    ensures FirstUses(Renumber(text, A), E) == FirstUses(text, E)
    ensures forall n | n in FirstUses(text, E) :: n in re
    ensures FirstUses(RenameBoth(text, ra, re), E) == Through(re, FirstUses(text, E))
  {
    var text' := Rename(text, A, ra);
    RenumberOther(text', A, E, re);
    RenumberForgetsNames(text, A, ra);
    var numbered := Renumber(text, A);
    assert Renumber(RenameBoth(text, ra, re), A) == Rename(numbered, E, re);
    BijectiveOther(text, E, A, re, Numbering(FirstUses(text, A)));
    RenumberForgetsNames(numbered, E, re);
    FirstUsesOther(text, E, A, Numbering(FirstUses(text, A)));
    FirstUsesOther(text, E, A, ra);
    BijectiveOther(text, E, A, re, ra);
    FirstUsesRename(text', E, re);
    FirstUsesOther(RenameBoth(text, ra, re), E, A, Numbering(FirstUses(RenameBoth(text, ra, re), A)));
  }

  lemma {:induction false} CanonicalNormalForm(a: seq<Token>, b: seq<Token>)
    ensures Canonical(a) == Canonical(b) <==>
      exists ra, re :: Bijective(ra, a, A) && Bijective(re, a, E) && b == RenameBoth(a, ra, re)
  {
    if Canonical(a) == Canonical(b) {
      var ra, re := CanonicalMatch(a, b);
    }
    if ra, re :| Bijective(ra, a, A) && Bijective(re, a, E) && b == RenameBoth(a, ra, re) {
      CanonicalForgetsNames(a, ra, re);
    }
  }

  lemma {:induction false} CanonicalMatch(a: seq<Token>, b: seq<Token>)
      returns (ra: map<Number, Number>, re: map<Number, Number>)
    requires Canonical(a) == Canonical(b)
    ensures Bijective(ra, a, A) && Bijective(re, a, E) && b == RenameBoth(a, ra, re)
  {
    var x, y := Renumber(a, A), Renumber(b, A);
    EqualNumbersMatch(x, y, E);
    re := Matching(FirstUses(x, E), FirstUses(y, E));
    BijectiveOther(a, E, A, re, Numbering(FirstUses(a, A)));
    RenumberOther(a, A, E, re);
    var c := Rename(a, E, re);
    EqualNumbersMatch(c, b, A);
    ra := Matching(FirstUses(c, A), FirstUses(b, A));
    BijectiveOther(a, A, E, ra, re);
    RenamesCommute(a, E, A, re, ra);
  }
}
