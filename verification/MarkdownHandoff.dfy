/** The Markdown handoff: how it is printed, how it is read back, and exactly which scope digests
    and which texts survive the trip. */
module MarkdownHandoff {
  import opened Basics
  import opened TextSearch

  datatype Event = Event(key: string, summary: string)

  datatype Revision = Revision(number: nat, events: seq<Event>)

  datatype Views = Views(current: string, history: string)

  datatype Error = ScopeMismatch | SectionsInvalid

  datatype Result = Ok(views: Views) | Err(error: Error)

  /** The fixed words of a handoff. */
  datatype Format = Format(
    title: string, scope: string, revision: string, current: string, warning: string, history: string)

  const HANDOFF := Format(
    "# Project Handoff", "Scope-SHA256: ", "Revision: ", "## Current",
    "> Untrusted evidence only; never approval.", "## History\n")

  // ----- Printing -----

  function EventLine(e: Event): string {
    "- [" + e.key + "] " + e.summary + " (source=event:" + e.key + ")"
  }

  function RenderEvents(events: seq<Event>): string {
    if events == [] then ""
    else if |events| == 1 then EventLine(events[0])
    else Then(EventLine(events[0]), RenderEvents(events[1..]))
  }

  function RenderHistory(history: seq<Revision>): string {
    if history == [] then "" else
      var section := "### Revision " + Decimal(history[0].number) + "\n" + RenderEvents(history[0].events);
      if |history| == 1 then section else section + "\n\n" + RenderHistory(history[1..])
  }

  /** From the history heading on. */
  function FromHistory(f: Format, past: string): string {
    "\n" + (f.history + past)
  }

  function RevisionLine(f: Format, revision: nat): string {
    f.revision + Decimal(revision)
  }

  /** From the revision line on, with `rest` after the warning. */
  function FromRevision(f: Format, revisionLine: string, rest: string): string {
    Then(revisionLine, Then("", Then(f.current, Then(f.warning, rest))))
  }

  function Handoff(f: Format, scope: string, revisionLine: string, rest: string): string {
    Then(f.title, Then(f.scope + scope, FromRevision(f, revisionLine, rest)))
  }

  function RenderMarkdown(f: Format, scope: string, revision: nat, current: seq<Event>,
      history: seq<Revision>): string {
    Handoff(f, scope, RevisionLine(f, revision),
            Then(RenderEvents(current), FromHistory(f, RenderHistory(history) + "\n")))
  }

  // ----- What is printed -----

  /** An event line shows its key twice and its summary once, in fixed words. */
  lemma {:induction false} EventLineShows(e: Event)
    ensures var line, k, n := EventLine(e), |e.key|, |e.summary|;
      && |line| == 3 + k + 2 + n + 15 + k + 1
      && line[..3] == "- [" && line[3..3 + k] == e.key && line[3 + k..5 + k] == "] "
      && line[5 + k..5 + k + n] == e.summary && line[5 + k + n..20 + k + n] == " (source=event:"
      && line[20 + k + n..20 + k + n + k] == e.key && line[20 + k + n + k..] == ")"
  {
    var end := e.key + ")";
    var source := " (source=event:" + end;
    var rest := "] " + (e.summary + source);
    assert EventLine(e) == "- [" + (e.key + rest);
  }

  /** Events are printed in order, one a line. */
  lemma {:induction false} EventsShow(a: seq<Event>, e: Event, b: seq<Event>)
    ensures RenderEvents([]) == "" && RenderEvents([e]) == EventLine(e)
    ensures a != [] && b != [] ==> RenderEvents(a + b) == Then(RenderEvents(a), RenderEvents(b))
  {
    if a != [] && b != [] {
      assert (a + b)[1..] == a[1..] + b;
      if |a| > 1 {
        EventsShow(a[1..], e, b);
        ThenThen(EventLine(a[0]), RenderEvents(a[1..]), RenderEvents(b));
      } else {
        assert a[1..] + b == b;
      }
    }
  }

  lemma ThenThen(a: string, b: string, c: string)
    ensures Then(a, Then(b, c)) == Then(Then(a, b), c)
  {}

  /** Revisions are printed in order, each with its number above its events, a blank line apart. */
  lemma {:induction false} HistoryShows(a: seq<Revision>, r: Revision, b: seq<Revision>)
    ensures RenderHistory([]) == ""
    ensures RenderHistory([r]) == "### Revision " + Decimal(r.number) + "\n" + RenderEvents(r.events)
    ensures a != [] && b != [] ==> RenderHistory(a + b) == RenderHistory(a) + "\n\n" + RenderHistory(b)
  {
    if a != [] && b != [] {
      assert (a + b)[1..] == a[1..] + b;
      var section := "### Revision " + Decimal(a[0].number) + "\n" + RenderEvents(a[0].events);
      if |a| > 1 {
        HistoryShows(a[1..], r, b);
        Apart(section, "\n\n", RenderHistory(a[1..]), "\n\n" + RenderHistory(b));
        Apart(section + "\n\n", RenderHistory(a[1..]), "\n\n", RenderHistory(b));
      } else {
        assert a[1..] + b == b;
      }
    }
  }

  lemma Apart(a: string, b: string, c: string, d: string)
    ensures a + b + (c + d) == a + b + c + d
  {}

  // ----- Reading -----

  /** Up to the first blank line. */
  function Heading(body: string): string {
    var blank := Find(body, "\n" + "\n");
    (if blank.None? then body else body[..blank.value]) + "\n"
  }

  /** What is read from a text. */
  function SplitViews(f: Format, body: string, expectedScope: string): Result {
    if Find(Heading(body), f.scope + expectedScope + "\n").None? then Err(ScopeMismatch)
    else match Find(body, f.current + "\n")
      case None => Err(SectionsInvalid)
      case Some(i) => Sections(f, body[i + |f.current| + 1..])
  }

  function Sections(f: Format, after: string): Result {
    match Find(after, "\n" + f.history)
    case None => Err(SectionsInvalid)
    case Some(j) => Ok(Views(after[..j], f.history + after[j + 1 + |f.history|..]))
  }

  /** What is read from a file that holds `file`. */
  function ReadMarkdownViews(f: Format, file: string, expectedScope: string): Result {
    SplitViews(f, ReadText(file), expectedScope)
  }

  /** What any text is read as: it is refused exactly when the requested scope line does not stand before
      the first blank line; the views are what stands between the section headings, and from the second on;
      without the headings there are none. */
  lemma {:induction false} SplitIs(f: Format, body: string, scope: string) returns (before: string, after: string)
    ensures var r, mark := SplitViews(f, body, scope), f.current + "\n";
      && (r == Err(ScopeMismatch) <==> !Occurs(Heading(body), f.scope + scope + "\n"))
      && (Occurs(body, mark) ==> body == before + mark + after && !Occurs(before, mark))
      && (r == Err(SectionsInvalid) ==> !Occurs(body, mark) || !Occurs(after, "\n" + f.history))
      && (r.Ok? ==>
            && Occurs(body, mark) && after == r.views.current + "\n" + r.views.history
            && f.history <= r.views.history && !Occurs(r.views.current, "\n" + f.history))
  {
    var mark := f.current + "\n";
    before, after := "", "";
    FoundIff(Heading(body), f.scope + scope + "\n");
    FoundIff(body, mark);
    if Find(body, mark).Some? {
      before, after := SplitOnce(body, mark);
      FoundIff(after, "\n" + f.history);
      if Find(after, "\n" + f.history).Some? {
        var current, rest := SplitOnce(after, "\n" + f.history);
        Regrouped(current, f.history, rest);
      }
    }
  }

  lemma Regrouped(a: string, b: string, c: string)
    ensures a + ("\n" + b) + c == a + "\n" + (b + c)
  {}

  // ----- The printed lines -----

  /** What the fixed words must be like: single lines, told apart by their letters. */
  ghost predicate Distinguished(f: Format) {
    && Plain(f.title) && Plain(f.scope) && Plain(f.revision) && Plain(f.current) && Plain(f.warning)
    && |f.scope| > 0 && |f.revision| > 0 && |f.current| > 3
    && f.scope[0] == 'S' && 'S' !in f.title && 'S' !in f.revision
    && f.current[3] == 'C' && 'C' !in f.title && 'C' !in f.revision
    && |f.history| > 0 && f.history[0] == '#' && '\r' !in f.history
    && |f.warning| > 0 && f.warning[0] != f.revision[0]
  }

  lemma TitleIs(title: string)
    requires title == "# Project Handoff"
    ensures Plain(title) && 'S' !in title && 'C' !in title
  {}

  lemma LabelsAre(scope: string, revision: string)
    requires scope == "Scope-SHA256: " && revision == "Revision: "
    ensures Plain(scope) && |scope| > 0 && scope[0] == 'S'
    ensures Plain(revision) && |revision| > 0 && revision[0] == 'R' && 'S' !in revision && 'C' !in revision
  {}

  lemma HeadingsAre(current: string, history: string)
    requires current == "## Current" && history == "## History\n"
    ensures Plain(current) && |current| > 3 && current[3] == 'C'
    ensures |history| > 0 && history[0] == '#' && '\r' !in history
  {}

  lemma {:induction false} WarningIs(warning: string)
    requires warning == "> Untrusted evidence only; never approval."
    ensures Plain(warning) && |warning| > 0 && warning[0] == '>'
  {
    Lacks(warning, '\n');
    Lacks(warning, '\r');
  }

  lemma Lacks(warning: string, c: char)
    requires warning == "> Untrusted evidence only; never approval." && c < ' '
    ensures c !in warning
  {}

  lemma {:induction false} HandoffDistinguished()
    ensures Distinguished(HANDOFF)
  {
    TitleIs(HANDOFF.title);
    LabelsAre(HANDOFF.scope, HANDOFF.revision);
    HeadingsAre(HANDOFF.current, HANDOFF.history);
    WarningIs(HANDOFF.warning);
  }

  /** The revision line stays clear of the headings, and its number is the revision. */
  lemma {:induction false} RevisionIsPlain(f: Format, revision: nat)
    requires Distinguished(f)
    ensures var line, n := RevisionLine(f, revision), |f.revision|;
      IsRevisionLine(f, line) && n < |line| && line[..n] == f.revision && Value(line[n..]) == revision
  {
    DecimalReads(revision);
  }

  ghost predicate PlainEvents(events: seq<Event>) {
    forall e | e in events :: Plain(e.key) && Plain(e.summary)
  }

  lemma EventLineIs(e: Event)
    requires Plain(e.key) && Plain(e.summary)
    ensures Plain(EventLine(e)) && |EventLine(e)| > 0 && EventLine(e)[0] == '-'
  {}

  /** The history heading is first found after the current events. */
  lemma {:induction false} HistoryFound(events: seq<Event>, tail: string, heading: string)
    requires PlainEvents(events) && heading != [] && heading[0] == '#' && StartsWith(tail, "\n" + heading)
    ensures Find(Then(RenderEvents(events), tail), "\n" + heading) == Some(|RenderEvents(events)| + 1)
    decreases |events|, 0
  {
    assert ("\n" + heading)[0] == '\n' && tail[0] == '\n';
    FoundAtOnce(tail, "\n" + heading);
    BeginsWith(tail, heading);
    if events == [] {
      FindBreak("", tail, heading);
    } else {
      assert events[0] in events;
      EventLineIs(events[0]);
      if |events| == 1 {
        FindBreak(EventLine(events[0]), tail, heading);
      } else {
        LaterEvents(EventLine(events[0]), events[1..], tail, heading);
      }
    }
  }

  lemma {:induction false} LaterEvents(line: string, events: seq<Event>, tail: string, heading: string)
    requires Plain(line) && events != [] && PlainEvents(events)
    requires heading != [] && heading[0] == '#' && StartsWith(tail, "\n" + heading)
    ensures Find(Then(Then(line, RenderEvents(events)), tail), "\n" + heading)
      == Some(|line| + 1 + |RenderEvents(events)| + 1)
    decreases |events|, 1
  {
    var more := Then(RenderEvents(events), tail);
    HistoryFound(events, tail, heading);
    assert events[0] in events;
    EventLineIs(events[0]);
    assert more[0] == '-';
    BeginsWith(more, heading);
    FindBreak(line, more, heading);
    assert Then(Then(line, RenderEvents(events)), tail) == Then(line, more);
  }

  /** What follows the heading, at the scope line or at the heading itself. */
  lemma AfterHeading(title: string, scopeLine: string, revisionLine: string, heading: string, from: string)
    ensures var more := Then(revisionLine, Then("", Then(heading, from)));
      var body := Then(title, Then(scopeLine, more));
      var a, b := |title| + 1 + |scopeLine|, |title| + 1 + |scopeLine| + 1 + |revisionLine| + 1 + 1;
      && a + 1 <= |body| && body[a + 1..] == more
      && b + |heading| + 1 <= |body| && body[b + |heading| + 1..] == from
  {}

  lemma {:induction false} SkipLine(line: string, rest: string, p: string, k: nat)
    requires Plain(line) && Plain(p) && !EndsWith(line, p) && Find(rest, p + "\n") == Some(k)
    ensures Find(Then(line, rest), p + "\n") == Some(|line| + 1 + k)
  {
    FindLineEnd(line, rest, p);
  }

  lemma {:induction false} HeadingHere(heading: string, from: string)
    requires Plain(heading)
    ensures Find(Then(heading, from), heading + "\n") == Some(0)
  {
    FindLineEnd(heading, from, heading);
    assert heading[|heading| - |heading|..] == heading;
  }

  lemma {:induction false} HeadingBelow(revisionLine: string, heading: string, from: string)
    requires Plain(revisionLine) && Plain(heading) && heading != [] && !EndsWith(revisionLine, heading)
    ensures Find(Then(revisionLine, Then("", Then(heading, from))), heading + "\n") == Some(|revisionLine| + 1 + 1)
  {
    HeadingHere(heading, from);
    SkipLine("", Then(heading, from), heading, 0);
    SkipLine(revisionLine, Then("", Then(heading, from)), heading, 1);
  }

  /** The first line that ends in the heading, among five. */
  lemma {:induction false} HeadingFound(title: string, scopeLine: string, revisionLine: string, heading: string,
      from: string)
    requires Plain(title) && Plain(scopeLine) && Plain(revisionLine) && Plain(heading) && heading != []
    requires !EndsWith(title, heading) && !EndsWith(revisionLine, heading)
    ensures Find(Then(title, Then(scopeLine, Then(revisionLine, Then("", Then(heading, from))))), heading + "\n")
      == if EndsWith(scopeLine, heading) then Some(|title| + 1 + |scopeLine| - |heading|)
         else Some(|title| + 1 + |scopeLine| + 1 + |revisionLine| + 1 + 1)
  {
    var third := Then(revisionLine, Then("", Then(heading, from)));
    HeadingBelow(revisionLine, heading, from);
    FindLineEnd(scopeLine, third, heading);
    SkipLine(title, Then(scopeLine, third), heading,
             if EndsWith(scopeLine, heading) then |scopeLine| - |heading|
             else |scopeLine| + 1 + |revisionLine| + 1 + 1);
  }

  /** A revision line, as far as the reader can tell. */
  ghost predicate IsRevisionLine(f: Format, line: string) {
    Plain(line) && 'S' !in line && 'C' !in line && |line| > 0 && |f.revision| > 0 && line[0] == f.revision[0]
  }

  lemma {:induction false} CurrentFound(f: Format, scope: string, line: string, rest: string)
    requires Distinguished(f) && Plain(scope) && IsRevisionLine(f, line)
    ensures Find(Handoff(f, scope, line, rest), f.current + "\n")
      == if EndsWith(f.scope + scope, f.current) then Some(|f.title| + 1 + |f.scope + scope| - |f.current|)
         else Some(|f.title| + 1 + |f.scope + scope| + 1 + |line| + 1 + 1)
  {
    LacksLetter(line, f.current, 3);
    LacksLetter(f.title, f.current, 3);
    HeadingFound(f.title, f.scope + scope, line, f.current, Then(f.warning, rest));
  }

  /** The part before the first blank line: title, scope and revision. */
  function Header(f: Format, scope: string, line: string): string {
    Then(f.title, Then(f.scope + scope, Then(line, "")))
  }

  lemma {:induction false} BlankFound(title: string, scopeLine: string, revisionLine: string, more: string)
    requires Plain(title) && Plain(scopeLine) && Plain(revisionLine) && scopeLine != [] && revisionLine != []
    ensures var body := Then(title, Then(scopeLine, Then(revisionLine, Then("", more))));
      var n := |title| + 1 + |scopeLine| + 1 + |revisionLine|;
      && Find(body, "\n" + "\n") == Some(n)
      && body[..n] + "\n" == Then(title, Then(scopeLine, Then(revisionLine, "")))
  {
    var blank, third := Then("", more), Then(revisionLine, Then("", more));
    var second := Then(scopeLine, third);
    assert blank[0] == '\n' && third[0] == revisionLine[0] && second[0] == scopeLine[0];
    FindBreak(revisionLine, blank, "\n");
    BeginsWith(third, "\n");
    FindBreak(scopeLine, third, "\n");
    BeginsWith(second, "\n");
    FindBreak(title, second, "\n");
  }

  lemma {:induction false} HeaderFound(f: Format, scope: string, line: string, rest: string)
    requires Distinguished(f) && Plain(scope) && IsRevisionLine(f, line)
    ensures var body := Handoff(f, scope, line, rest);
      var blank := Find(body, "\n" + "\n");
      blank.Some? && body[..blank.value] + "\n" == Header(f, scope, line)
  {
    BlankFound(f.title, f.scope + scope, line, Then(f.current, Then(f.warning, rest)));
  }

  lemma {:induction false} ScopeLineFound(title: string, scopeLine: string, revisionLine: string, p: string)
    requires Plain(title) && Plain(scopeLine) && Plain(revisionLine) && Plain(p) && p != []
    requires !EndsWith(title, p) && !EndsWith(revisionLine, p)
    ensures Find(Then(title, Then(scopeLine, Then(revisionLine, ""))), p + "\n").Some? <==> EndsWith(scopeLine, p)
  {
    FindShort("", p + "\n");
    FindLineEnd(revisionLine, "", p);
    FindLineEnd(scopeLine, Then(revisionLine, ""), p);
    FindLineEnd(title, Then(scopeLine, Then(revisionLine, "")), p);
  }

  lemma {:induction false} ScopeFound(f: Format, scope: string, line: string, expected: string)
    requires Distinguished(f) && Plain(scope) && IsRevisionLine(f, line) && Plain(expected)
    ensures Find(Header(f, scope, line), f.scope + expected + "\n").Some?
      <==> EndsWith(f.scope + scope, f.scope + expected)
  {
    var p := f.scope + expected;
    assert p[0] == 'S';
    LacksLetter(line, p, 0);
    LacksLetter(f.title, p, 0);
    ScopeLineFound(f.title, f.scope + scope, line, p);
  }

  /** A scope line ends in another exactly when the digests agree, up to a digest that itself ends
      in a whole scope label. */
  lemma {:induction false} ScopeSuffix(tag: string, scope: string, expected: string)
    requires tag == HANDOFF.scope
    ensures EndsWith(tag + scope, tag + expected) <==> expected == scope || EndsWith(scope, tag + expected)
  {
    var s, p := tag + scope, tag + expected;
    if EndsWith(s, p) {
      var k := |s| - |p|;
      if k == 0 {
        assert s[|tag|..] == scope && p[|tag|..] == expected;
      } else {
        assert s[k] == s[k..][0] == p[0] && s[k + 1] == s[k..][1] == p[1];
        NoOverlap(tag, scope, k);
        TailOf(tag, scope, k);
      }
    }
    if EndsWith(scope, p) {
      TailOf(tag, scope, |s| - |p|);
    }
  }

  lemma TailOf(a: string, b: string, k: nat)
    requires |a| <= k <= |a + b|
    ensures (a + b)[k..] == b[k - |a|..]
  {}

  /** The label does not begin again inside itself. */
  lemma {:induction false} NoOverlap(tag: string, scope: string, k: nat)
    requires tag == "Scope-SHA256: " && 0 < k && k + 1 < |tag + scope|
    requires (tag + scope)[k] == 'S' && (tag + scope)[k + 1] == 'c'
    ensures |tag| <= k
  {
    assert forall i | 0 <= i < |tag| :: (tag + scope)[i] == tag[i];
    assert tag[7] == 'H' && tag[13] == ' ';
  }

  lemma {:induction false} CurrentSuffix(tag: string, scope: string, heading: string)
    requires tag == HANDOFF.scope && heading == HANDOFF.current
    ensures EndsWith(tag + scope, heading) <==> EndsWith(scope, heading)
  {
    var s := tag + scope;
    var k := |s| - |heading|;
    assert s[|tag| - 1] == ' ' && s[|tag| - 2] == ':';
    if EndsWith(s, heading) {
      assert forall i | 0 <= i < |heading| :: s[k + i] == heading[i];
      assert k >= |tag|;
      assert scope[k - |tag|..] == s[k..];
    }
    if EndsWith(scope, heading) {
      assert s[k..] == scope[|scope| - |heading|..];
    }
  }

  // ----- The round trip -----

  /** Reading leaves everything up to the warning as it was printed. */
  lemma {:induction false} HandoffRead(f: Format, scope: string, line: string, rest: string)
    requires Distinguished(f) && Plain(scope) && IsRevisionLine(f, line)
    ensures ReadText(Handoff(f, scope, line, rest)) == Handoff(f, scope, line, ReadText(rest))
  {
    ReadThen(f.warning, rest);
    ReadThen(f.current, Then(f.warning, rest));
    ReadThen("", Then(f.current, Then(f.warning, rest)));
    ReadThen(line, Then("", Then(f.current, Then(f.warning, rest))));
    ReadThen(f.scope + scope, FromRevision(f, line, rest));
    ReadThen(f.title, Then(f.scope + scope, FromRevision(f, line, rest)));
  }

  lemma {:induction false} ScopeAccepted(f: Format, scope: string, line: string, rest: string, expected: string)
    requires Distinguished(f) && Plain(scope) && IsRevisionLine(f, line) && Plain(expected)
    ensures SplitViews(f, Handoff(f, scope, line, rest), expected) != Err(ScopeMismatch)
      <==> EndsWith(f.scope + scope, f.scope + expected)
  {
    HeaderFound(f, scope, line, rest);
    ScopeFound(f, scope, line, expected);
  }

  /** Which digests a printed handoff is accepted for, whatever its events hold. */
  lemma {:induction false} ScopeAcceptedIff(
      scope: string, revision: nat, current: seq<Event>, history: seq<Revision>, expected: string)
    requires Plain(scope) && Plain(expected)
    ensures var file := RenderMarkdown(HANDOFF, scope, revision, current, history);
      ReadMarkdownViews(HANDOFF, file, expected) != Err(ScopeMismatch)
      <==> expected == scope || EndsWith(scope, HANDOFF.scope + expected)
  {
    HandoffDistinguished();
    RevisionIsPlain(HANDOFF, revision);
    var line := RevisionLine(HANDOFF, revision);
    var rest := Then(RenderEvents(current), FromHistory(HANDOFF, RenderHistory(history) + "\n"));
    HandoffRead(HANDOFF, scope, line, rest);
    ScopeAccepted(HANDOFF, scope, line, ReadText(rest), expected);
    ScopeSuffix(HANDOFF.scope, scope, expected);
  }

  /** Among digests of one length only the printed one is accepted. */
  lemma {:induction false} OtherDigestsRejected(
      scope: string, revision: nat, current: seq<Event>, history: seq<Revision>, expected: string)
    requires Plain(scope) && Plain(expected) && |expected| == |scope| && expected != scope
    ensures var file := RenderMarkdown(HANDOFF, scope, revision, current, history);
      ReadMarkdownViews(HANDOFF, file, expected) == Err(ScopeMismatch)
  {
    ScopeAcceptedIff(scope, revision, current, history, expected);
  }

  /** Digests of different lengths can be confused. */
  lemma {:induction false} ShorterDigestAccepted(revision: nat, current: seq<Event>, history: seq<Revision>)
    ensures var scope := "0" + (HANDOFF.scope + "1");
      var file := RenderMarkdown(HANDOFF, scope, revision, current, history);
      ReadMarkdownViews(HANDOFF, file, "1") != Err(ScopeMismatch)
  {
    HandoffDistinguished();
    var inner := HANDOFF.scope + "1";
    LabelInside("0", inner);
    ScopeAcceptedIff("0" + inner, revision, current, history, "1");
  }

  lemma {:induction false} LabelInside(before: string, inner: string)
    requires Plain(before) && Plain(inner)
    ensures Plain(before + inner) && EndsWith(before + inner, inner)
  {
    assert (before + inner)[|before + inner| - |inner|..] == inner;
  }

  /** The warning with the current events, and `past` under the history heading. */
  function ExpectedViews(f: Format, current: seq<Event>, past: string): Views {
    Views(f.warning + "\n" + RenderEvents(current) + "\n", f.history + past)
  }

  /** Reading back a handoff for its own digest gives the warning with the current events, and the
      full history as a text file keeps it, exactly when the digest does not end in the heading the
      reader splits at. */
  lemma {:induction false} RoundTripIff(scope: string, revision: nat, current: seq<Event>, history: seq<Revision>)
    requires Plain(scope) && PlainEvents(current)
    ensures var file := RenderMarkdown(HANDOFF, scope, revision, current, history);
      ReadMarkdownViews(HANDOFF, file, scope)
        == Ok(ExpectedViews(HANDOFF, current, ReadText(RenderHistory(history) + "\n")))
      <==> !EndsWith(scope, HANDOFF.current)
  {
    HandoffDistinguished();
    RevisionIsPlain(HANDOFF, revision);
    var line, past := RevisionLine(HANDOFF, revision), RenderHistory(history) + "\n";
    HandoffRead(HANDOFF, scope, line, Then(RenderEvents(current), FromHistory(HANDOFF, past)));
    EventsRead(HANDOFF, current, past);
    ScopeSuffix(HANDOFF.scope, scope, scope);
    CurrentSuffix(HANDOFF.scope, scope, HANDOFF.current);
    RoundTrip(HANDOFF, scope, line, current, ReadText(past));
  }

  lemma {:induction false} EventsHaveNoReturn(events: seq<Event>)
    requires PlainEvents(events)
    ensures '\r' !in RenderEvents(events)
  {
    if events != [] {
      assert events[0] in events;
      EventLineIs(events[0]);
      EventsHaveNoReturn(events[1..]);
    }
  }

  lemma {:induction false} EventsRead(f: Format, current: seq<Event>, past: string)
    requires Distinguished(f) && PlainEvents(current)
    ensures ReadText(Then(RenderEvents(current), FromHistory(f, past)))
      == Then(RenderEvents(current), FromHistory(f, ReadText(past)))
  {
    EventsHaveNoReturn(current);
    ReadThen(RenderEvents(current), FromHistory(f, past));
    ReadAfter(f.history, past);
    ReadAfter("\n", f.history + past);
  }

  /** Where the reader splits a handoff printed for `scope`, and what it has left. */
  lemma {:induction false} Remainder(f: Format, scope: string, line: string, rest: string)
    returns (i: nat, after: string)
    requires Distinguished(f) && Plain(scope) && IsRevisionLine(f, line)
    ensures after == if EndsWith(f.scope + scope, f.current) then FromRevision(f, line, rest) else Then(f.warning, rest)
    ensures var body := Handoff(f, scope, line, rest);
      && Find(body, f.current + "\n") == Some(i)
      && i + |f.current| + 1 <= |body| && body[i + |f.current| + 1..] == after
  {
    CurrentFound(f, scope, line, rest);
    AfterHeading(f.title, f.scope + scope, line, f.current, Then(f.warning, rest));
    if EndsWith(f.scope + scope, f.current) {
      i, after := |f.title| + 1 + |f.scope + scope| - |f.current|, FromRevision(f, line, rest);
    } else {
      i, after := |f.title| + 1 + |f.scope + scope| + 1 + |line| + 1 + 1, Then(f.warning, rest);
    }
  }

  lemma {:induction false} RoundTrip(f: Format, scope: string, line: string, current: seq<Event>, past: string)
    requires Distinguished(f) && Plain(scope) && IsRevisionLine(f, line) && PlainEvents(current)
    requires EndsWith(f.scope + scope, f.scope + scope)
    ensures SplitViews(f, Handoff(f, scope, line, Then(RenderEvents(current), FromHistory(f, past))), scope)
        == Ok(ExpectedViews(f, current, past))
      <==> !EndsWith(f.scope + scope, f.current)
  {
    var rest := Then(RenderEvents(current), FromHistory(f, past));
    HeaderFound(f, scope, line, rest);
    ScopeFound(f, scope, line, scope);
    var i, after := Remainder(f, scope, line, rest);
    SplitsAt(f, Handoff(f, scope, line, rest), scope, i, after);
    SplitsIff(f, scope, line, current, past, after);
  }

  /** A read with the right scope splits what follows the first current heading. */
  lemma SplitsAt(f: Format, body: string, scope: string, i: nat, after: string)
    requires var blank := Find(body, "\n" + "\n");
      blank.Some? && Find(body[..blank.value] + "\n", f.scope + scope + "\n").Some?
    requires Find(body, f.current + "\n") == Some(i) && body[i + |f.current| + 1..] == after
    ensures SplitViews(f, body, scope) == Sections(f, after)
  {}

  lemma {:induction false} SplitsIff(f: Format, scope: string, line: string, current: seq<Event>, past: string,
      after: string)
    requires Distinguished(f) && IsRevisionLine(f, line) && PlainEvents(current)
    requires var rest := Then(RenderEvents(current), FromHistory(f, past));
      after == if EndsWith(f.scope + scope, f.current) then FromRevision(f, line, rest) else Then(f.warning, rest)
    ensures Sections(f, after) == Ok(ExpectedViews(f, current, past)) <==> !EndsWith(f.scope + scope, f.current)
  {
    if EndsWith(f.scope + scope, f.current) {
      WrongStart(f, line, Then(RenderEvents(current), FromHistory(f, past)), ExpectedViews(f, current, past).current);
    } else {
      SplitAfter(f, current, past);
    }
  }

  /** A current view cut from the revision line does not begin like the warning. */
  lemma {:induction false} WrongStart(f: Format, line: string, rest: string, view: string)
    requires Distinguished(f) && IsRevisionLine(f, line) && view != "" && view[0] == f.warning[0]
    ensures forall j: nat | j <= |FromRevision(f, line, rest)| :: FromRevision(f, line, rest)[..j] != view
  {
    var after := FromRevision(f, line, rest);
    assert after[0] == line[0];
    forall j: nat | j <= |after| ensures after[..j] != view {
      if j > 0 {
        assert after[..j][0] == f.revision[0];
      }
    }
  }

  lemma {:induction false} EventsBegin(events: seq<Event>, tail: string, heading: string)
    requires PlainEvents(events) && heading != [] && heading[0] == '#' && tail != "" && tail[0] == '\n'
    ensures !StartsWith(Then(RenderEvents(events), tail), heading)
  {
    var after := Then(RenderEvents(events), tail);
    if events == [] {
      assert after[0] == '\n';
    } else {
      assert events[0] in events;
      EventLineIs(events[0]);
      assert after[0] == '-';
    }
    BeginsWith(after, heading);
  }

  lemma {:induction false} SkipBreak(line: string, rest: string, q: string, k: nat)
    requires Plain(line) && !StartsWith(rest, q) && Find(rest, "\n" + q) == Some(k)
    ensures Find(Then(line, rest), "\n" + q) == Some(|line| + 1 + k)
  {
    FindBreak(line, rest, q);
  }

  lemma Pieces(warning: string, text: string, heading: string, more: string)
    ensures var rest, j := Then(warning, Then(text, "\n" + (heading + more))), |warning| + 1 + |text| + 1;
      && j + 1 + |heading| <= |rest|
      && rest[..j] == warning + "\n" + text + "\n" && rest[j + 1 + |heading|..] == more
  {}

  lemma {:induction false} SplitAt(f: Format, text: string, past: string)
    requires Plain(f.warning) && f.history != []
    requires var after := Then(text, FromHistory(f, past));
      !StartsWith(after, f.history) && Find(after, "\n" + f.history) == Some(|text| + 1)
    ensures Sections(f, Then(f.warning, Then(text, FromHistory(f, past))))
      == Ok(Views(f.warning + "\n" + text + "\n", f.history + past))
  {
    SkipBreak(f.warning, Then(text, FromHistory(f, past)), f.history, |text| + 1);
    Pieces(f.warning, text, f.history, past);
  }

  lemma {:induction false} SplitAfter(f: Format, current: seq<Event>, past: string)
    requires Distinguished(f) && PlainEvents(current)
    ensures Sections(f, Then(f.warning, Then(RenderEvents(current), FromHistory(f, past))))
      == Ok(ExpectedViews(f, current, past))
  {
    var tail := FromHistory(f, past);
    assert tail[..1 + |f.history|] == "\n" + f.history;
    HistoryFound(current, tail, f.history);
    EventsBegin(current, tail, f.history);
    SplitAt(f, RenderEvents(current), past);
  }
}
