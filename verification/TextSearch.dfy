/** Finding a pattern in text, line by line: what `in`, `split` and `partition` look for. */
module TextSearch {
  import opened Basics

  /** One line of text. */
  predicate Plain(s: string) {
    '\n' !in s && '\r' !in s
  }

  predicate StartsWith(s: string, p: string) {
    p <= s
  }

  predicate EndsWith(s: string, p: string) {
    |p| <= |s| && s[|s| - |p|..] == p
  }

  /** Where `pattern` first occurs. */
  function Find(s: string, pattern: string): (at: Option<nat>)
    ensures at.Some? ==> at.value + |pattern| <= |s|
  {
    if |s| < |pattern| then None
    else if StartsWith(s, pattern) then Some(0)
    else if s == [] then None
    else Later(Find(s[1..], pattern), 1)
  }

  function Later(at: Option<nat>, shift: nat): Option<nat> {
    if at.None? then None else Some(at.value + shift)
  }

  /** The first place where the pattern stands, if it stands anywhere. */
  lemma {:induction false} FindIs(s: string, pattern: string, k: nat)
    requires k + |pattern| <= |s|
    ensures Find(s, pattern).Some? ==> StartsWith(s[Find(s, pattern).value..], pattern)
    ensures StartsWith(s[k..], pattern) ==> Find(s, pattern).Some? && Find(s, pattern).value <= k
  {
    assert s[0..] == s;
    if !StartsWith(s, pattern) && s != [] {
      var rest := s[1..];
      if |rest| >= |pattern| {
        FindIs(rest, pattern, if k > 0 then k - 1 else 0);
        assert k > 0 ==> rest[k - 1..] == s[k..];
        assert Find(rest, pattern).Some? ==> rest[Find(rest, pattern).value..] == s[Find(rest, pattern).value + 1..];
      }
    }
  }

  /** The pattern stands somewhere in the text. */
  ghost predicate Occurs(s: string, pattern: string) {
    exists k: nat :: k <= |s| && StartsWith(s[k..], pattern)
  }

  lemma {:induction false} FoundIff(s: string, pattern: string)
    ensures Find(s, pattern).Some? <==> Occurs(s, pattern)
  {
    if k: nat :| k <= |s| && StartsWith(s[k..], pattern) {
      FindIs(s, pattern, k);
    }
    if Find(s, pattern).Some? {
      FindIs(s, pattern, 0);
    }
  }

  /** A text is split at the first place where the pattern stands. */
  lemma {:induction false} SplitOnce(s: string, pattern: string) returns (before: string, after: string)
    requires Find(s, pattern).Some? && pattern != []
    ensures before == s[..Find(s, pattern).value] && after == s[|before| + |pattern|..]
    ensures s == before + pattern + after && !Occurs(before, pattern)
  {
    var i := Find(s, pattern).value;
    before, after := s[..i], s[i + |pattern|..];
    FindIs(s, pattern, i);
    assert s == before + s[i..] && s[i..] == pattern + after;
    forall k: nat | k <= i ensures !StartsWith(before[k..], pattern) {
      if StartsWith(before[k..], pattern) {
        assert s[k..] == before[k..] + s[i..];
        FindIs(s, pattern, k);
      }
    }
  }

  /** A line and what follows it. */
  function Then(line: string, rest: string): string {
    line + "\n" + rest
  }

  /** A pattern that ends a line is found at the end of the first line, or after it. */
  lemma {:induction false} FindLineEnd(line: string, rest: string, p: string)
    requires Plain(line) && Plain(p)
    ensures Find(Then(line, rest), p + "\n")
      == if EndsWith(line, p) then Some(|line| - |p|) else Later(Find(rest, p + "\n"), |line| + 1)
  {
    var s, pattern := Then(line, rest), p + "\n";
    LineIsPattern(line, rest, p);
    if |s| < |pattern| {
      FindShort(rest, pattern);
    } else if line != p {
      if line == "" {
        assert s[1..] == rest;
      } else {
        assert s[1..] == Then(line[1..], rest);
        FindLineEnd(line[1..], rest, p);
        EndsWithTail(line, p);
      }
    } else {
      assert line[0..] == line;
    }
  }

  lemma {:induction false} EndsWithTail(line: string, p: string)
    requires line != "" && line != p
    ensures EndsWith(line, p) <==> EndsWith(line[1..], p)
  {
    if |p| < |line| {
      assert line[|line| - |p|..] == line[1..][|line[1..]| - |p|..];
    } else if |p| == |line| {
      assert line[|line| - |p|..] == line;
    }
  }

  lemma FindShort(s: string, pattern: string)
    requires |s| < |pattern|
    ensures Find(s, pattern) == None
  {}

  lemma {:induction false} LineIsPattern(line: string, rest: string, p: string)
    requires Plain(line) && Plain(p)
    ensures StartsWith(Then(line, rest), p + "\n") <==> line == p
  {
    var s, pattern := Then(line, rest), p + "\n";
    assert s[|line|] == '\n' && pattern[|p|] == '\n';
    assert |p| < |line| ==> s[|p|] == line[|p|] && line[|p|] in line;
    assert |line| < |p| ==> pattern[|line|] == p[|line|] && p[|line|] in p;
    assert forall i | 0 <= i < |line| :: s[i] == line[i];
    assert forall i | 0 <= i < |p| :: pattern[i] == p[i];
    if line == p {
      assert s[..|pattern|] == pattern;
    }
  }

  lemma {:induction false} BreakStarts(rest: string, q: string)
    ensures StartsWith("\n" + rest, "\n" + q) <==> StartsWith(rest, q)
  {
    var s, pattern := "\n" + rest, "\n" + q;
    assert s[1..] == rest && pattern[1..] == q;
    assert forall i | 0 <= i < |q| && i < |rest| :: s[i + 1] == rest[i] && pattern[i + 1] == q[i];
  }

  /** A pattern that begins with a newline is found at the first line break, or after it. */
  lemma {:induction false} FindBreak(line: string, rest: string, q: string)
    requires Plain(line)
    ensures Find(Then(line, rest), "\n" + q)
      == if StartsWith(rest, q) then Some(|line|) else Later(Find(rest, "\n" + q), |line| + 1)
  {
    var s, pattern := Then(line, rest), "\n" + q;
    if |s| < |pattern| {
      FindShort(rest, pattern);
    } else if line == "" {
      assert s == "\n" + rest && s[1..] == rest;
      BreakStarts(rest, q);
    } else {
      assert s[0] == line[0] && line[0] in line && pattern[0] == '\n';
      assert s[1..] == Then(line[1..], rest);
      FindBreak(line[1..], rest, q);
    }
  }

  lemma {:induction false} EndsWithHas(line: string, p: string, i: nat)
    requires i < |p| && EndsWith(line, p)
    ensures p[i] in line
  {
    assert line[|line| - |p|..][i] == p[i];
    assert line[|line| - |p| + i] in line;
  }

  lemma {:induction false} LacksLetter(line: string, p: string, i: nat)
    requires i < |p| && p[i] !in line
    ensures !EndsWith(line, p)
  {
    if EndsWith(line, p) {
      EndsWithHas(line, p, i);
    }
  }

  lemma BeginsWith(s: string, q: string)
    requires s != [] && q != [] && s[0] != q[0]
    ensures !StartsWith(s, q)
  {}

  lemma FoundAtOnce(tail: string, pattern: string)
    requires StartsWith(tail, pattern)
    ensures Find(tail, pattern) == Some(0)
  {}

  // ----- Reading a text file -----

  /** Text as read back: every carriage return, with the newline after it if there is one, becomes
      a newline. */
  function ReadText(s: string): string {
    if s == "" then ""
    else if s[0] != '\r' then [s[0]] + ReadText(s[1..])
    else "\n" + ReadText(if |s| > 1 && s[1] == '\n' then s[2..] else s[1..])
  }

  lemma {:induction false} ReadAfter(before: string, s: string)
    requires '\r' !in before
    ensures ReadText(before + s) == before + ReadText(s)
  {
    if before == "" {
      assert before + s == s;
    } else {
      assert (before + s)[1..] == before[1..] + s;
      ReadAfter(before[1..], s);
      assert before == [before[0]] + before[1..];
    }
  }

  /** What a line end becomes: each kind is one newline, and none of the others is left. */
  lemma {:induction false} ReadLineEnd(before: string, after: string)
    requires '\r' !in before
    ensures ReadText(before + "\r\n" + after) == before + "\n" + ReadText(after)
    ensures (after == "" || after[0] != '\n') ==> ReadText(before + "\r" + after) == before + "\n" + ReadText(after)
  {
    var both, one := "\r\n" + after, "\r" + after;
    assert both[2..] == after && one[1..] == after;
    assert before + "\r\n" + after == before + both && before + "\r" + after == before + one;
    ReadAfter(before, both);
    ReadAfter(before, one);
    assert before + ("\n" + ReadText(after)) == before + "\n" + ReadText(after);
  }

  lemma {:induction false} ReadThen(line: string, s: string)
    requires '\r' !in line
    ensures ReadText(Then(line, s)) == Then(line, ReadText(s))
  {
    ReadAfter(line + "\n", s);
  }
}
