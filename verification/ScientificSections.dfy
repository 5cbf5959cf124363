/** The heading parser of scientific text and its front-matter rule (processor/scientific.py). */
module ScientificSections {
  import opened Outcomes
  import Text

  datatype Atx = Atx(level: nat, title: string)

  /** How a stripped line reads as an ATX heading, if it does, and how a heading title is cleaned. */
  datatype Grammar = Grammar(atx: string -> Option<Atx>, clean: string -> string)

  datatype Block = Block(level: nat, title: string, paragraphs: seq<string>)
  datatype Event = Heading(level: nat, title: string) | Blank | Line(text: string)

  const BODY := "Document body"

  // ---- Reading lines -------------------------------------------------------------------------

  predicate AllOf(s: string, c: char) { forall i | 0 <= i < |s| :: s[i] == c }

  /** `=+|-+` */
  predicate Underline(s: string) { s != "" && (AllOf(s, '=') || AllOf(s, '-')) }

  function NextLine(lines: seq<string>, n: nat): string {
    if n + 1 < |lines| then Text.Strip(lines[n + 1]) else ""
  }

  predicate IsSetext(lines: seq<string>, n: nat)
    requires n < |lines|
  {
    Text.Strip(Text.TrimRight(lines[n])) != "" && Underline(NextLine(lines, n))
  }

  /** The event at line `n`; an underlined heading consumes its underline too. */
  function EventAt(g: Grammar, lines: seq<string>, n: nat): Event
    requires n < |lines|
  {
    var raw := Text.TrimRight(lines[n]);
    var stripped := Text.Strip(raw);
    var atx := g.atx(stripped);
    if atx.Some? then Heading(atx.value.level, g.clean(atx.value.title))
    else if IsSetext(lines, n) then Heading(if NextLine(lines, n)[0] == '=' then 1 else 2, g.clean(stripped))
    else if stripped == "" then Blank
    else Line(raw)
  }

  function Width(g: Grammar, lines: seq<string>, n: nat): nat
    requires n < |lines|
  {
    if IsSetext(lines, n) then 2 else 1
  }

  function Events(g: Grammar, lines: seq<string>, n: nat): seq<Event>
    decreases |lines| - n
  {
    if n >= |lines| then [] else [EventAt(g, lines, n)] + Events(g, lines, n + Width(g, lines, n))
  }

  // ---- Blocks as the loop builds them ----------------------------------------------------------

  /** Paragraphs are kept as their lines, so that the text can be accounted for. */
  datatype Group = Group(level: nat, title: string, paragraphs: seq<seq<string>>)

  datatype Building = Building(
    blocks: seq<Group>, level: nat, title: string, paragraphs: seq<seq<string>>, open: seq<string>, detected: Option<string>)

  const START := Building([], 2, BODY, [], [], None)

  function Flushed(b: Building): seq<seq<string>> { b.paragraphs + if b.open == [] then [] else [b.open] }

  function ClosedBlocks(b: Building): seq<Group> {
    b.blocks + if Flushed(b) == [] then [] else [Group(b.level, b.title, Flushed(b))]
  }

  /** The first level-one heading before any block is the document title and opens no section. */
  function Absorb(b: Building, e: Event): Building {
    match e
    case Blank => b.(paragraphs := Flushed(b), open := [])
    case Line(text) => b.(open := b.open + [text])
    case Heading(level, title) =>
      var blocks := ClosedBlocks(b);
      if level == 1 && b.detected.None? && blocks == []
      then Building(blocks, 2, BODY, [], [], if title == "" then None else Some(title))
      else Building(blocks, level, if title == "" then "Section " + Decimal(|blocks| + 1) else title, [], [], b.detected)
  }

  function Decimal(n: nat): string {
    if n < 10 then [Digit(n)] else Decimal(n / 10) + [Digit(n % 10)]
  }

  function Digit(n: nat): char
    requires n < 10
  {
    "0123456789"[n]
  }

  function Absorbed(b: Building, events: seq<Event>): Building
    decreases |events|
  {
    if events == [] then b else Absorbed(Absorb(b, events[0]), events[1..])
  }

  function ParagraphText(lines: seq<string>): string { Text.Strip(Text.Join("\n", lines)) }

  function Texts(paragraphs: seq<seq<string>>): seq<string> {
    seq(|paragraphs|, (i: nat) requires i < |paragraphs| => ParagraphText(paragraphs[i]))
  }

  function BlockOf(g: Group): Block { Block(g.level, g.title, Texts(g.paragraphs)) }

  function Blocks(groups: seq<Group>): seq<Block> {
    seq(|groups|, (i: nat) requires i < |groups| => BlockOf(groups[i]))
  }

  // ---- Every input line is accounted for -----------------------------------------------------

  /** What an event says of the line it was read from. */
  ghost predicate Reads(g: Grammar, lines: seq<string>, i: nat, e: Event)
    requires i < |lines|
  {
    var stripped := Text.Strip(Text.TrimRight(lines[i]));
    match e
    case Heading(level, title) =>
      || (exists t :: g.atx(stripped) == Some(Atx(level, t)) && title == g.clean(t))
      || (g.atx(stripped).None? && Underlines(lines, i + 1) && title == g.clean(stripped)
          && level == if Text.Strip(lines[i + 1])[0] == '=' then 1 else 2)
    case Blank => stripped == "" && g.atx(stripped).None?
    case Line(text) => stripped != "" && g.atx(stripped).None? && !Underlines(lines, i + 1) && text == Text.TrimRight(lines[i])
  }

  /** Line `i` would underline a heading made of the line before it. */
  ghost predicate Underlines(lines: seq<string>, i: nat) {
    && 0 < i < |lines| && Text.Strip(Text.TrimRight(lines[i - 1])) != ""
    && Text.Strip(lines[i]) != "" && (AllOf(Text.Strip(lines[i]), '=') || AllOf(Text.Strip(lines[i]), '-'))
  }

  ghost function Underlined(lines: seq<string>): set<nat> { set i: nat | i < |lines| && Underlines(lines, i) }

  ghost predicate EachReads(g: Grammar, lines: seq<string>, n: nat, events: seq<Event>, at: seq<nat>) {
    |at| == |events| && forall k | 0 <= k < |at| :: n <= at[k] < |lines| && Reads(g, lines, at[k], events[k])
  }

  /** What `at` skips from `n` on is `under`, and follows something that is not skipped. */
  ghost predicate Covers(end: nat, under: set<nat>, n: nat, at: seq<nat>) {
    forall i: nat | n <= i < end :: i !in at <==> n < i && i - 1 in at && i in under
  }

  ghost predicate Ascending(at: seq<nat>) { forall j, k | 0 <= j < k < |at| :: at[j] < at[k] }

  /** The events from line `n` on were read at the lines `at`; the only lines skipped underline the line before. */
  ghost predicate ReadAt(g: Grammar, lines: seq<string>, n: nat, events: seq<Event>, at: seq<nat>) {
    EachReads(g, lines, n, events, at) && Ascending(at) && Covers(|lines|, Underlined(lines), n, at)
  }

  /** Every line is the place of exactly one event, or the underline of the one just before it. */
  lemma EventsCoverLines(g: Grammar, lines: seq<string>)
    ensures exists at: seq<nat> :: ReadAt(g, lines, 0, Events(g, lines, 0), at)
  {
    var at := PlacesFrom(g, lines, 0);
  }

  lemma {:induction false} PlacesFrom(g: Grammar, lines: seq<string>, n: nat) returns (at: seq<nat>)
    ensures ReadAt(g, lines, n, Events(g, lines, n), at)
    decreases |lines| - n
  {
    hide Reads, Underlined, EventAt, Width;
    if n >= |lines| {
      at := [];
    } else {
      WidthUnderlines(g, lines, n);
      var rest := PlacesFrom(g, lines, n + Width(g, lines, n));
      at := [n] + rest;
      ReadsItsLine(g, lines, n);
      FirstPlace(g, lines, n, Width(g, lines, n), EventAt(g, lines, n), Events(g, lines, n + Width(g, lines, n)), rest);
    }
  }

  lemma ReadsItsLine(g: Grammar, lines: seq<string>, n: nat)
    requires n < |lines|
    ensures Reads(g, lines, n, EventAt(g, lines, n))
  {
    hide Text.Strip, Text.TrimRight, AllOf;
  }

  lemma WidthUnderlines(g: Grammar, lines: seq<string>, n: nat)
    requires n < |lines|
    ensures Width(g, lines, n) == if Underlines(lines, n + 1) then 2 else 1
  {
    hide Text.Strip, Text.TrimRight, AllOf;
  }

  lemma FirstPlace(g: Grammar, lines: seq<string>, n: nat, width: nat, e: Event, events: seq<Event>, rest: seq<nat>)
    requires n < |lines| && Reads(g, lines, n, e) && width == if Underlines(lines, n + 1) then 2 else 1
    requires ReadAt(g, lines, n + width, events, rest)
    ensures ReadAt(g, lines, n, [e] + events, [n] + rest)
  {
    hide Reads, Underlines, Covers;
    assert EachReads(g, lines, n + width, events, rest);
    assert width == if n + 1 in Underlined(lines) then 2 else 1 by {
      UnderlinedMeans(lines, n + 1);
    }
    hide Underlined;
    CoversFirst(|lines|, Underlined(lines), n, width, rest);
  }

  lemma UnderlinedMeans(lines: seq<string>, i: nat)
    ensures i in Underlined(lines) <==> Underlines(lines, i)
  {
    hide Text.Strip, Text.TrimRight, AllOf;
  }

  lemma CoversFirst(end: nat, under: set<nat>, n: nat, width: nat, rest: seq<nat>)
    requires width == (if n + 1 in under then 2 else 1) && Covers(end, under, n + width, rest)
    requires forall k | 0 <= k < |rest| :: n + width <= rest[k]
    ensures Covers(end, under, n, [n] + rest)
  {
    forall i: nat | n <= i < end ensures i !in [n] + rest <==> n < i && i - 1 in [n] + rest && i in under {
      assert i in [n] + rest <==> i == n || i in rest;
      if i > n {
        assert i - 1 in [n] + rest <==> i - 1 == n || i - 1 in rest;
      }
    }
  }

  /** Line `i` is the underline of a heading: the line before it is not itself one. */
  ghost predicate IsUnderline(lines: seq<string>, i: nat) { Underlines(lines, i) && !IsUnderline(lines, i - 1) }

  /** Line `i` is text: neither blank, nor a heading, nor an underline. */
  ghost predicate IsText(g: Grammar, lines: seq<string>, i: nat)
    requires i < |lines|
  {
    && Text.Strip(Text.TrimRight(lines[i])) != "" && g.atx(Text.Strip(Text.TrimRight(lines[i]))).None?
    && !IsUnderline(lines, i) && !IsUnderline(lines, i + 1)
  }

  /** The text lines from line `n` on, without the white space at their ends. */
  ghost function TextLines(g: Grammar, lines: seq<string>, n: nat): seq<string>
    decreases |lines| - n
  {
    if n >= |lines| then []
    else (if IsText(g, lines, n) then [Text.TrimRight(lines[n])] else []) + TextLines(g, lines, n + 1)
  }

  function LineTexts(events: seq<Event>): seq<string> {
    if |events| == 0 then []
    else LineTexts(events[..|events| - 1]) + if events[|events| - 1].Line? then [events[|events| - 1].text] else []
  }

  lemma {:induction false} LineTextsFirst(e: Event, events: seq<Event>)
    ensures LineTexts([e] + events) == (if e.Line? then [e.text] else []) + LineTexts(events)
  {
    var all := [e] + events;
    if |events| == 0 {
      assert all[..|all| - 1] == [];
    } else {
      assert all[..|all| - 1] == [e] + events[..|events| - 1];
      LineTextsFirst(e, events[..|events| - 1]);
    }
  }

  lemma {:induction false} EventsShowText(g: Grammar, lines: seq<string>, n: nat)
    requires n <= |lines| && !IsUnderline(lines, n)
    ensures LineTexts(Events(g, lines, n)) == TextLines(g, lines, n)
    decreases |lines| - n
  {
    hide Text.Strip, Text.TrimRight, Underlines, LineTexts, EventAt, Width;
    if n < |lines| {
      var width, e := Width(g, lines, n), EventAt(g, lines, n);
      WidthUnderlines(g, lines, n);
      ReadsItsLine(g, lines, n);
      LineTextsFirst(e, Events(g, lines, n + width));
      assert Underlines(lines, n + 1) ==> IsUnderline(lines, n + 1);
      if width == 2 {
        UnderlineIsInside(lines, n + 1);
        assert !IsUnderline(lines, n + 2);
      }
      EventsShowText(g, lines, n + width);
    } else {
      assert LineTexts([]) == [] by {
        NoLineTexts();
      }
    }
  }

  lemma NoLineTexts()
    ensures LineTexts([]) == []
  {
  }

  lemma UnderlineIsInside(lines: seq<string>, i: nat)
    requires Underlines(lines, i)
    ensures i < |lines|
  {
  }

  // ---- Conservation --------------------------------------------------------------------------

  /** A line and where it went: the number of its block and of its paragraph there, and the block's heading. */
  datatype Placed = Placed(block: nat, paragraph: nat, level: nat, title: string, line: string)

  function PlacedLines(block: nat, paragraph: nat, level: nat, title: string, lines: seq<string>): seq<Placed> {
    seq(|lines|, (i: nat) requires i < |lines| => Placed(block, paragraph, level, title, lines[i]))
  }

  function PlacedParagraphs(block: nat, level: nat, title: string, paragraphs: seq<seq<string>>): seq<Placed> {
    if |paragraphs| == 0 then []
    else
      var n := |paragraphs| - 1;
      PlacedParagraphs(block, level, title, paragraphs[..n]) + PlacedLines(block, n, level, title, paragraphs[n])
  }

  function PlacedBlocks(groups: seq<Group>): seq<Placed> {
    if |groups| == 0 then []
    else
      var n := |groups| - 1;
      PlacedBlocks(groups[..n]) + PlacedParagraphs(n, groups[n].level, groups[n].title, groups[n].paragraphs)
  }

  // What the events before the `k`-th say of the line there, without building anything.

  ghost predicate TextSince(events: seq<Event>, k: nat)
    requires k <= |events|
  {
    k != 0 && (events[k - 1].Line? || (events[k - 1].Blank? && TextSince(events, k - 1)))
  }

  /** Blocks end at headings that follow text. */
  ghost function BlocksBefore(events: seq<Event>, k: nat): nat
    requires k <= |events|
  {
    if k == 0 then 0
    else BlocksBefore(events, k - 1) + if events[k - 1].Heading? && TextSince(events, k - 1) then 1 else 0
  }

  /** Paragraphs of the block in hand end at blank lines that follow a line. */
  ghost function ParagraphsBefore(events: seq<Event>, k: nat): nat
    requires k <= |events|
  {
    if k == 0 || events[k - 1].Heading? then 0
    else ParagraphsBefore(events, k - 1) + if events[k - 1].Blank? && k > 1 && events[k - 2].Line? then 1 else 0
  }

  /** The document's title: the first level-one heading with a title, if no text comes before it. */
  ghost predicate NamesDocument(events: seq<Event>, k: nat)
    requires k < |events|
  {
    && events[k].Heading? && events[k].level == 1
    && (forall i | 0 <= i < k :: !events[i].Line?)
    && forall i | 0 <= i < k && events[i].Heading? && events[i].level == 1 :: events[i].title == ""
  }

  ghost function HeadingInForce(events: seq<Event>, k: nat): (nat, string)
    requires k <= |events|
  {
    if k == 0 then (2, BODY)
    else
      match events[k - 1]
      case Heading(level, title) =>
        if NamesDocument(events, k - 1) then (2, BODY)
        else (level, if title == "" then "Section " + Decimal(BlocksBefore(events, k) + 1) else title)
      case _ => HeadingInForce(events, k - 1)
  }

  ghost function DocumentTitle(events: seq<Event>, k: nat): Option<string>
    requires k <= |events|
  {
    if k == 0 then None
    else if NamesDocument(events, k - 1) && events[k - 1].title != "" then Some(events[k - 1].title)
    else DocumentTitle(events, k - 1)
  }

  /** The lines of the first `k` events, in order and once each, each where it belongs. */
  ghost function Belonging(events: seq<Event>, k: nat): seq<Placed>
    requires k <= |events|
  {
    if k == 0 then []
    else
      Belonging(events, k - 1)
      + if !events[k - 1].Line? then []
        else
          var heading := HeadingInForce(events, k - 1);
          [Placed(BlocksBefore(events, k - 1), ParagraphsBefore(events, k - 1), heading.0, heading.1, events[k - 1].text)]
  }

  /** Everything absorbed so far, including the open paragraph. */
  function Held(b: Building): seq<Placed> {
    PlacedBlocks(b.blocks) + PlacedParagraphs(|b.blocks|, b.level, b.title, b.paragraphs)
    + PlacedLines(|b.blocks|, |b.paragraphs|, b.level, b.title, b.open)
  }

  lemma BlockSnoc(groups: seq<Group>, g: Group)
    ensures PlacedBlocks(groups + [g]) == PlacedBlocks(groups) + PlacedParagraphs(|groups|, g.level, g.title, g.paragraphs)
  {
    assert (groups + [g])[..|groups|] == groups;
  }

  lemma FlushedHolds(b: Building)
    ensures PlacedParagraphs(|b.blocks|, b.level, b.title, Flushed(b))
         == PlacedParagraphs(|b.blocks|, b.level, b.title, b.paragraphs) + PlacedLines(|b.blocks|, |b.paragraphs|, b.level, b.title, b.open)
  {
    if b.open == [] {
      assert Flushed(b) == b.paragraphs;
    } else {
      assert Flushed(b)[..|b.paragraphs|] == b.paragraphs;
    }
  }

  lemma ClosedHolds(b: Building)
    ensures PlacedBlocks(ClosedBlocks(b)) == Held(b)
  {
    FlushedHolds(b);
    if Flushed(b) == [] {
      NothingOpen(b);
    } else {
      BlockSnoc(b.blocks, Group(b.level, b.title, Flushed(b)));
      hide PlacedParagraphs, PlacedLines, PlacedBlocks, Flushed;
      assert Held(b) == PlacedBlocks(b.blocks) + PlacedParagraphs(|b.blocks|, b.level, b.title, Flushed(b));
    }
  }

  lemma NothingOpen(b: Building)
    requires Flushed(b) == []
    ensures Held(b) == PlacedBlocks(b.blocks) && ClosedBlocks(b) == b.blocks
  {
    hide PlacedBlocks;
    assert b.open == [] && b.paragraphs == [];
    assert PlacedParagraphs(|b.blocks|, b.level, b.title, []) == [];
    assert PlacedLines(|b.blocks|, |b.paragraphs|, b.level, b.title, []) == [];
  }

  lemma AbsorbHolds(b: Building, e: Event)
    ensures Held(Absorb(b, e)) ==
              Held(b) + if e.Line? then [Placed(|b.blocks|, |b.paragraphs|, b.level, b.title, e.text)] else []
  {
    match e
    case Blank =>
      FlushedHolds(b);
      assert Held(Absorb(b, e)) == Held(b);
    case Line(text) =>
      var block, paragraph := |b.blocks|, |b.paragraphs|;
      assert PlacedLines(block, paragraph, b.level, b.title, b.open + [text])
          == PlacedLines(block, paragraph, b.level, b.title, b.open) + [Placed(block, paragraph, b.level, b.title, text)];
      assert Held(Absorb(b, e)) == Held(b) + [Placed(block, paragraph, b.level, b.title, text)];
    case Heading(_, _) =>
      ClosedHolds(b);
      assert Held(Absorb(b, e)) == PlacedBlocks(ClosedBlocks(b));
  }

  lemma {:induction false} AbsorbedSnoc(b: Building, events: seq<Event>, e: Event)
    ensures Absorbed(b, events + [e]) == Absorb(Absorbed(b, events), e)
    decreases |events|
  {
    hide Absorb;
    if events == [] {
      assert events + [e] == [e] && [e][1..] == [];
    } else {
      assert (events + [e])[1..] == events[1..] + [e];
      AbsorbedSnoc(Absorb(b, events[0]), events[1..], e);
    }
  }

  /** What is being built after `k` events is what those events say. */
  ghost predicate Follows(b: Building, events: seq<Event>, k: nat)
    requires k <= |events|
  {
    && |b.blocks| == BlocksBefore(events, k)
    && (b.level, b.title) == HeadingInForce(events, k)
    && |b.paragraphs| == ParagraphsBefore(events, k)
    && (b.open != [] <==> k != 0 && events[k - 1].Line?)
    && (Flushed(b) != [] <==> TextSince(events, k))
    && b.detected == DocumentTitle(events, k)
    && (ClosedBlocks(b) == [] <==> forall i | 0 <= i < k :: !events[i].Line?)
    && (b.detected.None? <==> forall i | 0 <= i < k :: !(NamesDocument(events, i) && events[i].title != ""))
  }

  lemma NamedWhenFirst(events: seq<Event>, k: nat)
    requires k < |events| && events[k].Heading? && events[k].level == 1
    ensures NamesDocument(events, k) <==>
              && (forall i | 0 <= i < k :: !events[i].Line?)
              && (forall i | 0 <= i < k :: !(NamesDocument(events, i) && events[i].title != ""))
  {
    if (forall i | 0 <= i < k :: !events[i].Line?) && !NamesDocument(events, k) {
      var i :| 0 <= i < k && events[i].Heading? && events[i].level == 1 && events[i].title != "";
      FirstNamed(events, i);
    }
  }

  lemma {:induction false} FirstNamed(events: seq<Event>, k: nat)
    requires k < |events| && events[k].Heading? && events[k].level == 1 && events[k].title != ""
    requires forall i | 0 <= i < k :: !events[i].Line?
    ensures exists i :: 0 <= i <= k && NamesDocument(events, i) && events[i].title != ""
  {
    if !NamesDocument(events, k) {
      var i :| 0 <= i < k && events[i].Heading? && events[i].level == 1 && events[i].title != "";
      FirstNamed(events, i);
    }
  }

  lemma AbsorbFollows(b: Building, events: seq<Event>, k: nat)
    requires k < |events| && Follows(b, events, k)
    ensures Follows(Absorb(b, events[k]), events, k + 1)
  {
    hide Decimal;
    match events[k]
    case Blank => BlankFollows(b, events, k);
    case Line(_) => LineFollows(b, events, k);
    case Heading(_, _) => HeadingFollows(b, events, k);
  }

  lemma BlankFollows(b: Building, events: seq<Event>, k: nat)
    requires k < |events| && events[k].Blank? && Follows(b, events, k)
    ensures Follows(Absorb(b, events[k]), events, k + 1)
  {
    assert !NamesDocument(events, k);
    hide NamesDocument, Decimal;
    assert Flushed(Absorb(b, events[k])) == Flushed(b);
  }

  lemma LineFollows(b: Building, events: seq<Event>, k: nat)
    requires k < |events| && events[k].Line? && Follows(b, events, k)
    ensures Follows(Absorb(b, events[k]), events, k + 1)
  {
    hide Decimal;
    assert !NamesDocument(events, k);
    hide NamesDocument;
  }

  lemma HeadingFollows(b: Building, events: seq<Event>, k: nat)
    requires k < |events| && events[k].Heading? && Follows(b, events, k)
    ensures Follows(Absorb(b, events[k]), events, k + 1)
  {
    if events[k].level == 1 {
      NamedWhenFirst(events, k);
    }
    assert NamesDocument(events, k) <==> events[k].level == 1 && b.detected.None? && ClosedBlocks(b) == [];
    OpenedFollows(b, events, k, NamesDocument(events, k));
  }

  lemma OpenedFollows(b: Building, events: seq<Event>, k: nat, named: bool)
    requires k < |events| && events[k].Heading? && Follows(b, events, k) && named == NamesDocument(events, k)
    requires named <==> events[k].level == 1 && b.detected.None? && ClosedBlocks(b) == []
    ensures Follows(Absorb(b, events[k]), events, k + 1)
  {
    HeadingSays(events, k, named);
    HeadingOpens(b, events[k].level, events[k].title);
    hide NamesDocument, Decimal, Absorb, Flushed, ClosedBlocks, TextSince, BlocksBefore, ParagraphsBefore, HeadingInForce, DocumentTitle;
  }

  /** What a heading event adds to what the events say. */
  lemma HeadingSays(events: seq<Event>, k: nat, named: bool)
    requires k < |events| && events[k].Heading? && named == NamesDocument(events, k)
    ensures BlocksBefore(events, k + 1) == BlocksBefore(events, k) + if TextSince(events, k) then 1 else 0
    ensures ParagraphsBefore(events, k + 1) == 0 && !TextSince(events, k + 1)
    ensures HeadingInForce(events, k + 1) ==
              if named then (2, BODY)
              else (events[k].level, if events[k].title == "" then "Section " + Decimal(BlocksBefore(events, k + 1) + 1) else events[k].title)
    ensures DocumentTitle(events, k + 1) == if named && events[k].title != "" then Some(events[k].title) else DocumentTitle(events, k)
  {
    hide NamesDocument, Decimal;
  }

  /** What a heading event does to what is being built. */
  lemma HeadingOpens(b: Building, level: nat, title: string)
    ensures var next, naming := Absorb(b, Heading(level, title)), level == 1 && b.detected.None? && ClosedBlocks(b) == [];
            && next.blocks == ClosedBlocks(b) && next.paragraphs == [] && next.open == []
            && Flushed(next) == [] && ClosedBlocks(next) == ClosedBlocks(b)
            && |ClosedBlocks(b)| == |b.blocks| + (if Flushed(b) == [] then 0 else 1)
            && next.detected == (if naming && title != "" then Some(title) else b.detected)
            && (next.level, next.title) ==
                 if naming then (2, BODY) else (level, if title == "" then "Section " + Decimal(|ClosedBlocks(b)| + 1) else title)
  {
    hide Decimal;
  }

  lemma {:induction false} AbsorbedFollows(events: seq<Event>, k: nat)
    requires k <= |events|
    ensures Follows(Absorbed(START, events[..k]), events, k)
    ensures Held(Absorbed(START, events[..k])) == Belonging(events, k)
  {
    hide Absorb, Follows, Held, Absorbed;
    if k == 0 {
      NothingHeld(events);
    } else {
      var b := Absorbed(START, events[..k - 1]);
      AbsorbedFollows(events, k - 1);
      assert events[..k] == events[..k - 1] + [events[k - 1]];
      AbsorbedSnoc(START, events[..k - 1], events[k - 1]);
      AbsorbFollows(b, events, k - 1);
      AbsorbHolds(b, events[k - 1]);
      FollowsMeans(b, events, k - 1);
    }
  }

  lemma FollowsMeans(b: Building, events: seq<Event>, k: nat)
    requires k <= |events| && Follows(b, events, k)
    ensures |b.blocks| == BlocksBefore(events, k) && (b.level, b.title) == HeadingInForce(events, k)
    ensures |b.paragraphs| == ParagraphsBefore(events, k) && b.detected == DocumentTitle(events, k)
  {
  }

  ghost predicate NoEmptyGroup(b: Building) {
    && (forall g | g in b.blocks :: g.paragraphs != [])
    && (forall g, p | g in b.blocks && p in g.paragraphs :: p != [])
    && (forall p | p in b.paragraphs :: p != [])
  }

  lemma {:induction false} AbsorbedNoEmpty(b: Building, events: seq<Event>)
    requires NoEmptyGroup(b)
    ensures NoEmptyGroup(Absorbed(b, events))
    decreases |events|
  {
    if events != [] {
      AbsorbedNoEmpty(Absorb(b, events[0]), events[1..]);
    }
  }

  /**
   The lines of all paragraphs of all blocks are the lines of the events, in order and once each, every one in its
   block, in its paragraph and under its heading. No block and no paragraph is empty, and the document's title is
   detected.
   */
  lemma BlocksConserveLines(events: seq<Event>)
    ensures PlacedBlocks(ClosedBlocks(Absorbed(START, events))) == Belonging(events, |events|)
    ensures Absorbed(START, events).detected == DocumentTitle(events, |events|)
    ensures forall g | g in ClosedBlocks(Absorbed(START, events)) :: g.paragraphs != []
    ensures forall g, p | g in ClosedBlocks(Absorbed(START, events)) && p in g.paragraphs :: p != []
  {
    hide Absorbed, Held, PlacedBlocks, Belonging, NoEmptyGroup, Follows, DocumentTitle;
    var b := Absorbed(START, events);
    assert events[..|events|] == events;
    AbsorbedFollows(events, |events|);
    FollowsMeans(b, events, |events|);
    NothingHeld(events);
    ClosedHolds(b);
    AbsorbedNoEmpty(START, events);
    ClosedNoEmpty(b);
  }

  lemma NothingHeld(events: seq<Event>)
    ensures Held(START) == [] && NoEmptyGroup(START)
    ensures Absorbed(START, events[..0]) == START && Follows(START, events, 0)
  {
  }

  function LinesPlaced(placed: seq<Placed>): seq<string> {
    seq(|placed|, (i: nat) requires i < |placed| => placed[i].line)
  }

  lemma {:induction false} BelongingLines(events: seq<Event>, k: nat)
    requires k <= |events|
    ensures LinesPlaced(Belonging(events, k)) == LineTexts(events[..k])
  {
    hide HeadingInForce, BlocksBefore, ParagraphsBefore;
    if k != 0 {
      BelongingLines(events, k - 1);
      assert events[..k][..k - 1] == events[..k - 1];
    }
  }

  /**
   The scientific parser conserves text: the lines of all paragraphs are exactly the input lines that are neither
   blank, nor a heading, nor the underline of one, in order and once each, without the white space at their ends.
   */
  lemma TextIsConserved(g: Grammar, lines: seq<string>)
    ensures LinesPlaced(PlacedBlocks(ClosedBlocks(Absorbed(START, Events(g, lines, 0))))) == TextLines(g, lines, 0)
  {
    hide Events, Belonging, LineTexts, Absorbed, PlacedBlocks;
    var events := Events(g, lines, 0);
    BlocksConserveLines(events);
    assert events[..|events|] == events;
    BelongingLines(events, |events|);
    EventsShowText(g, lines, 0);
  }

  lemma ClosedNoEmpty(b: Building)
    requires NoEmptyGroup(b)
    ensures forall g | g in ClosedBlocks(b) :: g.paragraphs != []
    ensures forall g, p | g in ClosedBlocks(b) && p in g.paragraphs :: p != []
  {
  }

  // ---- Lines that show -------------------------------------------------------------------------

  /** A line of a paragraph, which `rstrip` left with something to see. */
  predicate Visible(line: string) { Text.Strip(line) != "" }

  lemma {:induction false} TrimLeftKeeps(s: string, i: nat)
    requires i < |s| && !Text.IsSpace(s[i])
    ensures var t := Text.TrimLeft(s); |s| - |t| <= i && |t| <= |s| && t == s[|s| - |t|..]
  {
    if Text.IsSpace(s[0]) {
      assert s[1..][i - 1] == s[i];
      TrimLeftKeeps(s[1..], i - 1);
    }
  }

  lemma VisibleHasLetter(s: string) returns (i: nat)
    requires Visible(s)
    ensures i < |s| && !Text.IsSpace(s[i])
  {
    Text.StripBlank(s);
    i :| i < |s| && !Text.IsSpace(s[i]);
  }

  /** A paragraph of visible lines has a text, so flushing keeps it exactly when it has lines. */
  lemma ParagraphHasText(lines: seq<string>)
    requires forall l | l in lines :: Visible(l)
    ensures ParagraphText(lines) == "" <==> lines == []
  {
    if lines != [] {
      assert lines[0] in lines;
      var i := VisibleHasLetter(lines[0]);
      var all := Text.Join("\n", lines);
      assert i < |all| && all[i] == lines[0][i];
      assert all[i] in all;
      Text.StripBlank(all);
    }
  }

  lemma EventLineVisible(g: Grammar, lines: seq<string>, n: nat)
    requires n < |lines| && EventAt(g, lines, n).Line?
    ensures Visible(EventAt(g, lines, n).text)
  {
  }

  // ---- Paragraph texts -------------------------------------------------------------------------

  /** A line with something to see and no white space at its end. */
  predicate Trimmed(line: string) { Visible(line) && !Text.IsSpace(line[|line| - 1]) }

  lemma {:induction false} TrimRightEnds(s: string)
    ensures var t := Text.TrimRight(s); t != "" ==> !Text.IsSpace(t[|t| - 1])
  {
    if s != "" && Text.IsSpace(s[|s| - 1]) {
      TrimRightEnds(s[..|s| - 1]);
    }
  }

  lemma EventLineTrimmed(g: Grammar, lines: seq<string>, n: nat)
    requires n < |lines| && EventAt(g, lines, n).Line?
    ensures Trimmed(EventAt(g, lines, n).text)
  {
    EventLineVisible(g, lines, n);
    TrimRightEnds(lines[n]);
  }

  lemma {:induction false} EventsTrimmed(g: Grammar, lines: seq<string>, n: nat)
    ensures forall e | e in Events(g, lines, n) && e.Line? :: Trimmed(e.text)
    decreases |lines| - n
  {
    hide Trimmed, EventAt;
    if n < |lines| {
      EventsTrimmed(g, lines, n + Width(g, lines, n));
      if EventAt(g, lines, n).Line? {
        EventLineTrimmed(g, lines, n);
      }
    }
  }

  /** Every line in the building is trimmed. */
  ghost predicate AllTrimmed(b: Building) {
    && (forall g, p, l | g in b.blocks && p in g.paragraphs && l in p :: Trimmed(l))
    && (forall p, l | p in b.paragraphs && l in p :: Trimmed(l))
    && (forall l | l in b.open :: Trimmed(l))
  }

  lemma {:induction false} AbsorbedTrimmed(b: Building, events: seq<Event>)
    requires AllTrimmed(b) && forall e | e in events && e.Line? :: Trimmed(e.text)
    ensures AllTrimmed(Absorbed(b, events))
    decreases |events|
  {
    hide Trimmed;
    if events != [] {
      assert events[0] in events;
      AbsorbedTrimmed(Absorb(b, events[0]), events[1..]);
    }
  }

  lemma {:induction false} TrimLeftFirst(a: string, b: string)
    requires Visible(a)
    ensures Text.TrimLeft(a + b) == Text.TrimLeft(a) + b
  {
    if Text.IsSpace(a[0]) {
      assert (a + b)[1..] == a[1..] + b;
      TrimLeftFirst(a[1..], b);
    } else {
      assert (a + b)[0] == a[0];
    }
  }

  lemma {:induction false} JoinEndsLikeLast(lines: seq<string>)
    requires lines != [] && lines[|lines| - 1] != ""
    ensures var all, last := Text.Join("\n", lines), lines[|lines| - 1]; all != "" && all[|all| - 1] == last[|last| - 1]
  {
    if |lines| != 1 {
      JoinEndsLikeLast(lines[1..]);
    }
  }

  function Tail(lines: seq<string>): string { if lines == [] then "" else "\n" + Text.Join("\n", lines) }

  lemma JoinFirst(first: string, lines: seq<string>)
    ensures Text.Join("\n", [first] + lines) == first + Tail(lines)
  {
    assert ([first] + lines)[1..] == lines;
  }

  /** Stripping text that ends visibly removes the white space it starts with. */
  lemma StripsIndent(first: string, rest: string)
    requires Visible(first) && !Text.IsSpace((first + rest)[|first + rest| - 1])
    ensures Text.Strip(first + rest) == Text.TrimLeft(first) + rest
  {
    TrimLeftFirst(first, rest);
    var i := VisibleHasLetter(first);
    assert (first + rest)[i] == first[i];
    TrimLeftKeeps(first + rest, i);
  }

  /** A paragraph's text is its lines, up to the indentation of the first one. */
  lemma ParagraphTextIsItsLines(lines: seq<string>)
    requires lines != [] && forall l | l in lines :: Trimmed(l)
    ensures ParagraphText(lines) == Text.Join("\n", [Text.TrimLeft(lines[0])] + lines[1..])
  {
    assert Text.Strip("") == "";
    hide Text.Strip, Text.Join, Text.TrimLeft, Tail;
    assert lines[|lines| - 1] in lines && lines[0] in lines && lines == [lines[0]] + lines[1..];
    JoinEndsLikeLast(lines);
    JoinFirst(lines[0], lines[1..]);
    JoinFirst(Text.TrimLeft(lines[0]), lines[1..]);
    StripsIndent(lines[0], Tail(lines[1..]));
  }

  /**
   The texts of the returned blocks lose no line and no character of one, except the white space that starts
   a paragraph.
   */
  lemma ParagraphTextsAreTheirLines(g: Grammar, lines: seq<string>)
    ensures var groups := ClosedBlocks(Absorbed(START, Events(g, lines, 0)));
            && |Blocks(groups)| == |groups|
            && (forall i | 0 <= i < |groups| ::
                  && Blocks(groups)[i].level == groups[i].level && Blocks(groups)[i].title == groups[i].title
                  && |Blocks(groups)[i].paragraphs| == |groups[i].paragraphs|)
            && forall i, j | 0 <= i < |groups| && 0 <= j < |groups[i].paragraphs| ::
              var p := groups[i].paragraphs[j];
              && p != []
              && Blocks(groups)[i].paragraphs[j] == Text.Join("\n", [Text.TrimLeft(p[0])] + p[1..])
  {
    var events := Events(g, lines, 0);
    EventsTrimmed(g, lines, 0);
    AbsorbedTrimmed(START, events);
    BlocksConserveLines(events);
    hide Events, Absorbed, ParagraphText, Trimmed;
    var groups := ClosedBlocks(Absorbed(START, events));
    forall i, j | 0 <= i < |groups| && 0 <= j < |groups[i].paragraphs|
      ensures var p := groups[i].paragraphs[j];
              p != [] && Blocks(groups)[i].paragraphs[j] == Text.Join("\n", [Text.TrimLeft(p[0])] + p[1..])
    {
      assert groups[i] in groups && groups[i].paragraphs[j] in groups[i].paragraphs;
      ParagraphTextIsItsLines(groups[i].paragraphs[j]);
    }
  }

  // ---- The parsing loop ------------------------------------------------------------------------

  method ParseHeadingText(g: Grammar, lines: seq<string>) returns (blocks: seq<Block>, detected: Option<string>)
    ensures var b := Absorbed(START, Events(g, lines, 0));
            blocks == Blocks(ClosedBlocks(b)) && detected == b.detected
  {
    hide Events, ParagraphText, EventAt, Absorbed, Absorb, IsSetext, Decimal, Texts, Blocks, Flushed, ClosedBlocks, Visible;
    StartRepresents();
    blocks, detected := [], None;
    var level: nat, title, paragraphs: seq<string>, paragraphLines: seq<string> := 2, BODY, [], [];
    ghost var b := START;
    var index := 0;
    while index < |lines|
      invariant 0 <= index
      invariant Absorbed(b, Events(g, lines, index)) == Absorbed(START, Events(g, lines, 0))
      invariant Represents(b, blocks, level, title, paragraphs, paragraphLines, detected)
      decreases |lines| - index
    {
      hide Represents, Width;
      var event := EventAt(g, lines, index);
      OneEvent(g, lines, index, b);
      match event {
        case Heading(newLevel, newTitle) =>
          blocks, level, title, detected :=
            OpenHeading(b, blocks, level, title, paragraphs, paragraphLines, detected, newLevel, newTitle);
          paragraphs, paragraphLines := [], [];
        case Blank =>
          paragraphs := FlushParagraph(b, blocks, level, title, paragraphs, paragraphLines, detected);
          paragraphLines := [];
          BlankStep(b, blocks, level, title, paragraphs, detected);
        case Line(text) =>
          EventLineVisible(g, lines, index);
          LineStep(b, blocks, level, title, paragraphs, paragraphLines, detected, text);
          paragraphLines := paragraphLines + [text];
      }
      b := Absorb(b, event);
      index := index + Width(g, lines, index);
    }
    OneEventEnd(g, lines, index, b);
    blocks := FlushBlock(b, blocks, level, title, paragraphs, paragraphLines, detected);
  }

  /** The loop's variables hold what the groups hold, as text. */
  ghost predicate Represents(
    b: Building, blocks: seq<Block>, level: nat, title: string, paragraphs: seq<string>, lines: seq<string>, detected: Option<string>)
  {
    && blocks == Blocks(b.blocks) && level == b.level && title == b.title && paragraphs == Texts(b.paragraphs)
    && lines == b.open && detected == b.detected
    && forall l | l in b.open :: Visible(l)
  }

  lemma StartRepresents()
    ensures Represents(START, [], 2, BODY, [], [], None)
  {
  }

  lemma OneEvent(g: Grammar, lines: seq<string>, n: nat, b: Building)
    requires n < |lines|
    ensures Absorbed(b, Events(g, lines, n)) == Absorbed(Absorb(b, EventAt(g, lines, n)), Events(g, lines, n + Width(g, lines, n)))
  {
    var rest := Events(g, lines, n + Width(g, lines, n));
    assert Events(g, lines, n) == [EventAt(g, lines, n)] + rest;
    assert ([EventAt(g, lines, n)] + rest)[1..] == rest;
  }

  lemma OneEventEnd(g: Grammar, lines: seq<string>, n: nat, b: Building)
    requires n >= |lines|
    ensures Absorbed(b, Events(g, lines, n)) == b
  {
  }

  method FlushParagraph(
    ghost b: Building, ghost blocks: seq<Block>, ghost level: nat, ghost title: string, paragraphs: seq<string>, lines: seq<string>,
    ghost detected: Option<string>)
    returns (flushed: seq<string>)
    requires Represents(b, blocks, level, title, paragraphs, lines, detected)
    ensures flushed == Texts(Flushed(b))
  {
    ParagraphHasText(lines);
    var value := Text.Strip(Text.Join("\n", lines));
    hide Text.Strip, Text.Join, Visible;
    flushed := paragraphs;
    if value != "" {
      flushed := flushed + [value];
      assert Texts(b.paragraphs + [b.open]) == Texts(b.paragraphs) + [ParagraphText(b.open)];
    } else {
      assert Flushed(b) == b.paragraphs;
    }
  }

  method FlushBlock(
    ghost b: Building, blocks: seq<Block>, level: nat, title: string, paragraphs: seq<string>, lines: seq<string>,
    ghost detected: Option<string>)
    returns (flushed: seq<Block>)
    requires Represents(b, blocks, level, title, paragraphs, lines, detected)
    ensures flushed == Blocks(ClosedBlocks(b))
  {
    var all := FlushParagraph(b, blocks, level, title, paragraphs, lines, detected);
    hide Visible, ParagraphText;
    flushed := blocks;
    if all != [] {
      flushed := flushed + [Block(level, title, all)];
      assert Blocks(b.blocks + [Group(level, title, Flushed(b))]) == Blocks(b.blocks) + [Block(level, title, all)];
    } else {
      assert ClosedBlocks(b) == b.blocks;
    }
  }

  /** A heading closes the block in hand; the first level-one heading only names the document. */
  method OpenHeading(
    ghost b: Building, blocks: seq<Block>, level: nat, title: string, paragraphs: seq<string>, lines: seq<string>,
    detected: Option<string>, newLevel: nat, newTitle: string)
    returns (blocks': seq<Block>, level': nat, title': string, detected': Option<string>)
    requires Represents(b, blocks, level, title, paragraphs, lines, detected)
    ensures Represents(Absorb(b, Heading(newLevel, newTitle)), blocks', level', title', [], [], detected')
  {
    assert b.detected == detected;
    blocks' := FlushBlock(b, blocks, level, title, paragraphs, lines, detected);
    hide Flushed, ClosedBlocks, Decimal;
    assert Texts([]) == [];
    assert blocks' == [] <==> ClosedBlocks(b) == [];
    assert |blocks'| == |ClosedBlocks(b)|;
    if newLevel == 1 && detected.None? && blocks' == [] {
      detected' := if newTitle == "" then None else Some(newTitle);
      title', level' := BODY, 2;
    } else {
      detected' := detected;
      title' := if newTitle == "" then "Section " + Decimal(|blocks'| + 1) else newTitle;
      level' := newLevel;
    }
  }

  lemma BlankStep(b: Building, blocks: seq<Block>, level: nat, title: string, flushed: seq<string>, detected: Option<string>)
    requires blocks == Blocks(b.blocks) && level == b.level && title == b.title && detected == b.detected
    requires flushed == Texts(Flushed(b))
    ensures Represents(Absorb(b, Blank), blocks, level, title, flushed, [], detected)
  {
  }

  lemma LineStep(
    b: Building, blocks: seq<Block>, level: nat, title: string, paragraphs: seq<string>, lines: seq<string>, detected: Option<string>,
    text: string)
    requires Represents(b, blocks, level, title, paragraphs, lines, detected) && Visible(text)
    ensures Represents(Absorb(b, Line(text)), blocks, level, title, paragraphs, lines + [text], detected)
  {
    hide Visible;
  }

  // ---- Front matter --------------------------------------------------------------------------

  datatype Paragraph = Paragraph(id: string, text: string, included: bool, reason: Option<string>)
  datatype Section = Section(id: string, title: string, role: string, included: bool, reason: Option<string>, paragraphs: seq<Paragraph>)

  function FirstRole(sections: seq<Section>, role: string): (n: nat)
    ensures n <= |sections|
    ensures n < |sections| ==> sections[n].role == role
    ensures forall i | 0 <= i < n :: sections[i].role != role
  {
    if sections == [] || sections[0].role == role then 0 else 1 + FirstRole(sections[1..], role)
  }

  /** The abstract, else the introduction, else nothing is front matter. */
  function ScientificBodyStart(sections: seq<Section>): (n: nat)
    ensures n <= |sections|
  {
    if FirstRole(sections, "abstract") < |sections| then FirstRole(sections, "abstract")
    else if FirstRole(sections, "introduction") < |sections| then FirstRole(sections, "introduction")
    else 0
  }

  function Excluded(s: Section, reason: Option<string>): Section {
    s.(role := "metadata", included := false, reason := reason,
       paragraphs := seq(|s.paragraphs|, (i: nat) requires i < |s.paragraphs| => s.paragraphs[i].(included := false, reason := reason)))
  }

  function ExcludeFrontMatter(sections: seq<Section>, reason: Option<string>): seq<Section> {
    seq(|sections|, (i: nat) requires i < |sections| =>
      if i < ScientificBodyStart(sections) then Excluded(sections[i], reason) else sections[i])
  }

  lemma FirstRoleUnique(sections: seq<Section>, role: string, n: nat)
    requires n < |sections| && sections[n].role == role && forall i | 0 <= i < n :: sections[i].role != role
    ensures FirstRole(sections, role) == n
  {
  }

  /** The first abstract is the boundary, else the first introduction, else there is none. */
  lemma BoundaryMeans(sections: seq<Section>)
    ensures var n := ScientificBodyStart(sections);
            && ((exists s :: s in sections && s.role == "abstract") ==>
                  n < |sections| && sections[n].role == "abstract" && forall i | 0 <= i < n :: sections[i].role != "abstract")
            && ((forall s | s in sections :: s.role != "abstract") && (exists s :: s in sections && s.role == "introduction") ==>
                  n < |sections| && sections[n].role == "introduction" && forall i | 0 <= i < n :: sections[i].role != "introduction")
            && ((forall s | s in sections :: s.role != "abstract" && s.role != "introduction") ==> n == 0)
  {
    hide FirstRole;
  }

  /** The sections before the boundary leave training with their texts; the rest is left alone. */
  lemma FrontMatterMeans(sections: seq<Section>, reason: Option<string>)
    ensures var n, after := ScientificBodyStart(sections), ExcludeFrontMatter(sections, reason);
            && |after| == |sections| && after[n..] == sections[n..]
            && forall i | 0 <= i < n ::
                 && after[i].role == "metadata" && !after[i].included && after[i].reason == reason
                 && after[i].id == sections[i].id && after[i].title == sections[i].title && |after[i].paragraphs| == |sections[i].paragraphs|
                 && forall j | 0 <= j < |sections[i].paragraphs| ::
                      after[i].paragraphs[j] == Paragraph(sections[i].paragraphs[j].id, sections[i].paragraphs[j].text, false, reason)
  {
    hide ScientificBodyStart, FirstRole;
  }

  /** The boundary does not move when the front matter before it is relabelled. */
  lemma BoundaryIsStable(sections: seq<Section>, reason: Option<string>)
    ensures ScientificBodyStart(ExcludeFrontMatter(sections, reason)) == ScientificBodyStart(sections)
  {
    var after, n := ExcludeFrontMatter(sections, reason), ScientificBodyStart(sections);
    if FirstRole(sections, "abstract") < |sections| {
      FirstRoleUnique(after, "abstract", n);
    } else if FirstRole(sections, "introduction") < |sections| {
      FirstRoleUnique(after, "introduction", n);
    }
  }

  /** Excluding the front matter is idempotent, and leaves nothing before the boundary in training. */
  lemma FrontMatterExcludedOnce(sections: seq<Section>, reason: Option<string>)
    ensures var once := ExcludeFrontMatter(sections, reason);
            && ExcludeFrontMatter(once, reason) == once
            && (forall i | 0 <= i < ScientificBodyStart(once) ::
                  !once[i].included && forall p | p in once[i].paragraphs :: !p.included)
            && once[ScientificBodyStart(sections)..] == sections[ScientificBodyStart(sections)..]
  {
    BoundaryIsStable(sections, reason);
    var once := ExcludeFrontMatter(sections, reason);
    forall i | 0 <= i < |once| ensures ExcludeFrontMatter(once, reason)[i] == once[i] {
    }
  }
}
