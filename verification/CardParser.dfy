/** The line-driven card parser (processor/fetcher.py): front matter, fences, comments, headings and prose. */
module CardParser {
  import opened Outcomes
  import Text

  /** The link, tag and bullet rewriting of one line. Its result is stripped, and may be empty. */
  type Cleaner = string -> string

  datatype Segment = Segment(index: nat, title: string, text: string, words: nat)
  datatype Card = Card(text: string, title: Option<string>, metadata: string, sections: seq<Segment>)

  const TITLE_LIMIT: nat := 2048
  const METADATA_LIMIT: nat := 32768

  // ---- Substrings ----------------------------------------------------------------------------

  function Find(s: string, pattern: string): (n: nat)
    ensures n <= |s|
  {
    if pattern <= s then 0 else if s == [] then 0 else 1 + Find(s[1..], pattern)
  }

  predicate Contains(s: string, pattern: string) {
    pattern <= s || (s != [] && Contains(s[1..], pattern))
  }

  lemma {:induction false} FindWithin(s: string, pattern: string)
    requires Contains(s, pattern)
    ensures Find(s, pattern) + |pattern| <= |s|
  {
    if !(pattern <= s) {
      FindWithin(s[1..], pattern);
    }
  }

  function BeforeFirst(s: string, pattern: string): string { s[..Find(s, pattern)] }

  function AfterFirst(s: string, pattern: string): string
    requires Contains(s, pattern)
  {
    FindWithin(s, pattern);
    s[Find(s, pattern) + |pattern|..]
  }

  function Limit(s: string, n: nat): string { if |s| <= n then s else s[..n] }

  // ---- What one line is ----------------------------------------------------------------------

  datatype Scan = Scan(inFence: bool, marker: string, inComment: bool)
  datatype Event = Skipped | Blank | Heading(text: string) | Prose(text: string)

  const START := Scan(false, "", false)

  predicate IsFence(stripped: string) { "```" <= stripped || "~~~" <= stripped }

  /** The opening marker closes the fence; the other one is ordinary fenced text. */
  function Toggled(st: Scan, marker: string): Scan {
    if !st.inFence then st.(inFence := true, marker := marker)
    else if marker == st.marker then st.(inFence := false)
    else st
  }

  /** What is left of a line around comments, and whether a comment stays open. */
  function Uncommented(stripped: string): (string, bool) {
    if !Contains(stripped, "<!--") then (stripped, false)
    else
      var before, after := BeforeFirst(stripped, "<!--"), AfterFirst(stripped, "<!--");
      if Contains(after, "-->") then (Text.Strip(before + " " + AfterFirst(after, "-->")), false)
      else (Text.Strip(before), true)
  }

  function Classified(clean: Cleaner, visible: string): Event {
    if visible == "" then Blank
    else if clean(visible) == "" then Skipped
    else if visible[0] == '#' then Heading(clean(visible))
    else Prose(clean(visible))
  }

  function ReadLine(clean: Cleaner, st: Scan, raw: string): (Scan, Event) {
    var stripped := Text.Strip(raw);
    if IsFence(stripped) then (Toggled(st, Limit(stripped, 3)), Skipped)
    else if st.inFence then (st, Skipped)
    else if st.inComment && !Contains(stripped, "-->") then (st, Skipped)
    else
      var visible := Uncommented(if st.inComment then Text.Strip(AfterFirst(stripped, "-->")) else stripped);
      (st.(inComment := visible.1), Classified(clean, visible.0))
  }

  function ScanAfter(clean: Cleaner, lines: seq<string>): Scan {
    if lines == [] then START
    else ReadLine(clean, ScanAfter(clean, lines[..|lines| - 1]), lines[|lines| - 1]).0
  }

  function Events(clean: Cleaner, lines: seq<string>): seq<Event> {
    if lines == [] then []
    else
      Events(clean, lines[..|lines| - 1])
      + [ReadLine(clean, ScanAfter(clean, lines[..|lines| - 1]), lines[|lines| - 1]).1]
  }

  // ---- What a line shows, said of the lines before it ------------------------------------------

  ghost predicate At(s: string, pattern: string, i: nat) { i + |pattern| <= |s| && s[i..i + |pattern|] == pattern }

  ghost predicate FirstAt(s: string, pattern: string, i: nat) { At(s, pattern, i) && forall j: nat | j < i :: !At(s, pattern, j) }

  ghost predicate Occurs(s: string, pattern: string) { exists i: nat :: At(s, pattern, i) }

  lemma {:induction false} FindIsFirst(s: string, pattern: string)
    ensures Contains(s, pattern) <==> Occurs(s, pattern)
    ensures Contains(s, pattern) ==> FirstAt(s, pattern, Find(s, pattern))
  {
    if pattern <= s {
      assert At(s, pattern, 0);
    } else if s != [] {
      FindIsFirst(s[1..], pattern);
      assert !At(s, pattern, 0);
      AtTail(s, pattern);
    } else {
      assert forall i: nat :: At(s, pattern, i) ==> i == 0;
    }
  }

  lemma AtTail(s: string, pattern: string)
    requires s != ""
    ensures forall i: nat :: At(s[1..], pattern, i) <==> At(s, pattern, i + 1)
    ensures forall i: nat | i > 0 :: At(s, pattern, i) <==> At(s[1..], pattern, i - 1)
  {
    forall i: nat ensures At(s[1..], pattern, i) <==> At(s, pattern, i + 1) {
      if i + 1 + |pattern| <= |s| {
        assert s[1..][i..i + |pattern|] == s[i + 1..i + 1 + |pattern|];
      }
    }
    forall i: nat | i > 0 ensures At(s, pattern, i) <==> At(s[1..], pattern, i - 1) {
      assert At(s[1..], pattern, i - 1) <==> At(s, pattern, i - 1 + 1);
    }
  }

  ghost predicate FenceLine(content: seq<string>, n: nat) { n < |content| && IsFence(Text.Strip(content[n])) }

  ghost function Marker(content: seq<string>, n: nat): string { if n < |content| then Limit(Text.Strip(content[n]), 3) else "" }

  ghost predicate NoneRepeats(content: seq<string>, m: nat, n: nat) {
    forall k: nat | m < k < n && FenceLine(content, k) :: Marker(content, k) != Marker(content, m)
  }

  /** Line `n` lies in a fence: a fence line outside every fence opened it, and none since repeats its marker. */
  ghost predicate Fenced(content: seq<string>, n: nat) {
    exists m: nat | m < n :: NoneRepeats(content, m, n) && FenceLine(content, m) && !Fenced(content, m)
  }

  ghost predicate OpenSince(content: seq<string>, m: nat, n: nat) {
    m < n && NoneRepeats(content, m, n) && FenceLine(content, m) && !Fenced(content, m)
  }

  /** Line `n` is read: it is no fence line and lies in no fence. */
  ghost predicate Readable(content: seq<string>, n: nat) { n < |content| && !FenceLine(content, n) && !Fenced(content, n) }

  ghost predicate Closes(content: seq<string>, n: nat)
    requires n < |content|
  {
    Contains(Text.Strip(content[n]), "-->")
  }

  /** What of line `n` follows the comment that is open before it, if one is. */
  ghost function Remaining(content: seq<string>, n: nat, commented: bool): string
    requires n < |content|
  {
    if commented && Closes(content, n) then Text.Strip(AfterFirst(Text.Strip(content[n]), "-->")) else Text.Strip(content[n])
  }

  /** Line `m` opens a comment that it does not close. */
  ghost predicate LeavesComment(content: seq<string>, m: nat, commented: bool) {
    && Readable(content, m) && (commented ==> Closes(content, m))
    && Contains(Remaining(content, m, commented), "<!--") && !Contains(AfterFirst(Remaining(content, m, commented), "<!--"), "-->")
  }

  ghost predicate NoneCloses(content: seq<string>, m: nat, n: nat) {
    forall k: nat | m < k < n && Readable(content, k) :: !Closes(content, k)
  }

  /** A comment is open before line `n`: a line left it open, and no line read since closes it. */
  ghost predicate Commented(content: seq<string>, n: nat) {
    exists m: nat | m < n :: NoneCloses(content, m, n) && LeavesComment(content, m, Commented(content, m))
  }

  ghost predicate InsideComment(content: seq<string>, n: nat)
    requires n < |content|
  {
    Commented(content, n) && !Closes(content, n)
  }

  /** `visible` is what `rest` shows around its first comment. */
  ghost predicate Shows(rest: string, visible: string) {
    || (!Occurs(rest, "<!--") && visible == rest)
    || exists i: nat :: FirstAt(rest, "<!--", i) && ShowsAround(rest[..i], rest[i + 4..], visible)
  }

  ghost predicate ShowsAround(before: string, after: string, visible: string) {
    || (!Occurs(after, "-->") && visible == Text.Strip(before))
    || exists j: nat :: FirstAt(after, "-->", j) && visible == Text.Strip(before + " " + after[j + 3..])
  }

  /** How a visible line is told apart, and cleaned. */
  ghost predicate Says(clean: Cleaner, visible: string, e: Event) {
    match e
    case Blank => visible == ""
    case Skipped => visible != "" && clean(visible) == ""
    case Heading(text) => visible != "" && visible[0] == '#' && text == clean(visible) != ""
    case Prose(text) => visible != "" && visible[0] != '#' && text == clean(visible) != ""
  }

  lemma FencedMeans(content: seq<string>, n: nat)
    ensures Fenced(content, n) <==> exists m: nat :: OpenSince(content, m, n)
  {
    if Fenced(content, n) {
      var m: nat :| m < n && NoneRepeats(content, m, n) && FenceLine(content, m) && !Fenced(content, m);
      assert OpenSince(content, m, n);
    }
  }

  lemma FencedInside(content: seq<string>, m: nat, k: nat, n: nat)
    requires OpenSince(content, m, n) && m < k <= n
    ensures Fenced(content, k)
  {
    hide FenceLine, Marker;
    FencedMeans(content, k);
    assert OpenSince(content, m, k);
  }

  lemma FencedOnce(content: seq<string>, m: nat, k: nat, n: nat)
    requires OpenSince(content, m, n) && OpenSince(content, k, n)
    ensures m == k
  {
    hide FenceLine, Marker;
    if m < k {
      FencedInside(content, m, k, n);
    } else if k < m {
      FencedInside(content, k, m, n);
    }
  }

  lemma OpenEarlier(content: seq<string>, k: nat, n: nat)
    requires OpenSince(content, k, n + 1)
    ensures k == n || OpenSince(content, k, n)
  {
    hide FenceLine, Marker, Fenced;
  }

  /** A fence stays open until a line repeats its marker. */
  lemma FencedStays(content: seq<string>, m: nat, n: nat)
    requires OpenSince(content, m, n)
    ensures OpenSince(content, m, n + 1) <==> !(FenceLine(content, n) && Marker(content, n) == Marker(content, m))
    ensures Fenced(content, n) && (Fenced(content, n + 1) <==> OpenSince(content, m, n + 1))
  {
    hide FenceLine, Marker, Fenced, IsFence, Text.Strip, Limit;
    var next := n + 1;
    FencedMeans(content, next);
    FencedInside(content, m, n, n);
    forall k: nat | OpenSince(content, k, next) ensures k == m {
      OpenEarlier(content, k, n);
      if k != n {
        FencedOnce(content, m, k, n);
      }
    }
  }

  /** Outside fences, a fence line opens one and any other line does not. */
  lemma FencedOpens(content: seq<string>, n: nat)
    requires !Fenced(content, n)
    ensures FenceLine(content, n) ==> OpenSince(content, n, n + 1)
    ensures Fenced(content, n + 1) <==> FenceLine(content, n)
  {
    var next := n + 1;
    FencedMeans(content, n);
    FencedMeans(content, next);
    hide FenceLine, Marker, Fenced;
    forall k: nat | OpenSince(content, k, next) ensures k == n {
      OpenEarlier(content, k, n);
    }
  }

  lemma CommentedStep(content: seq<string>, n: nat)
    requires n < |content|
    ensures Commented(content, n + 1) <==>
              if Readable(content, n) && (Commented(content, n) ==> Closes(content, n)) then LeavesComment(content, n, Commented(content, n))
              else Commented(content, n)
  {
    hide Readable, Closes, LeavesComment;
    forall m: nat | m < n
      ensures NoneCloses(content, m, n + 1) <==> NoneCloses(content, m, n) && (Readable(content, n) ==> !Closes(content, n))
    {
    }
    assert NoneCloses(content, n, n + 1);
    LeavesReads(content, n, Commented(content, n));
    if Commented(content, n) {
      var m: nat :| m < n && NoneCloses(content, m, n) && LeavesComment(content, m, Commented(content, m));
      assert NoneCloses(content, m, n + 1) <==> (Readable(content, n) ==> !Closes(content, n));
    }
  }

  lemma LeavesReads(content: seq<string>, n: nat, commented: bool)
    requires n < |content|
    ensures LeavesComment(content, n, commented) ==> Readable(content, n) && (commented ==> Closes(content, n))
  {
    hide Contains, Text.Strip;
  }

  ghost predicate FenceMeans(content: seq<string>, n: nat, st: Scan) {
    && (st.inFence <==> Fenced(content, n))
    && (st.inFence ==> exists m: nat :: OpenSince(content, m, n) && st.marker == Marker(content, m))
  }

  lemma FenceAfter(clean: Cleaner, content: seq<string>, n: nat, st: Scan)
    requires n < |content| && FenceMeans(content, n, st)
    ensures FenceMeans(content, n + 1, ReadLine(clean, st, content[n]).0)
  {
    hide Fenced, OpenSince, Uncommented, Classified;
    if st.inFence {
      var m: nat :| OpenSince(content, m, n) && st.marker == Marker(content, m);
      FencedStays(content, m, n);
    } else {
      FencedOpens(content, n);
    }
    hide Text.Strip, Contains, IsFence, Limit;
  }

  lemma CommentAfter(clean: Cleaner, content: seq<string>, n: nat, st: Scan)
    requires n < |content| && (st.inFence <==> Fenced(content, n)) && (st.inComment <==> Commented(content, n))
    ensures ReadLine(clean, st, content[n]).0.inComment <==> Commented(content, n + 1)
  {
    CommentedStep(content, n);
    hide Text.Strip, Contains, Find, Fenced, Commented, BeforeFirst, AfterFirst, IsFence, Classified;
  }

  /** The scan's three variables say what the lines before say. */
  lemma {:induction false} ScanMeans(clean: Cleaner, content: seq<string>, n: nat)
    requires n <= |content|
    ensures FenceMeans(content, n, ScanAfter(clean, content[..n]))
    ensures ScanAfter(clean, content[..n]).inComment <==> Commented(content, n)
  {
    hide FenceMeans, ReadLine, Commented;
    if n == 0 {
      StartMeans(content);
      assert ScanAfter(clean, content[..0]) == START;
    } else {
      ScanMeans(clean, content, n - 1);
      var st := ScanAfter(clean, content[..n - 1]);
      assert content[..n][..n - 1] == content[..n - 1];
      FenceMeansFence(content, n - 1, st);
      FenceAfter(clean, content, n - 1, st);
      CommentAfter(clean, content, n - 1, st);
    }
  }

  lemma StartMeans(content: seq<string>)
    ensures FenceMeans(content, 0, START) && !Commented(content, 0)
  {
  }

  lemma FenceMeansFence(content: seq<string>, n: nat, st: Scan)
    requires FenceMeans(content, n, st)
    ensures st.inFence <==> Fenced(content, n)
  {
  }

  lemma UncommentedShows(rest: string)
    ensures Shows(rest, Uncommented(rest).0)
  {
    FindIsFirst(rest, "<!--");
    if Contains(rest, "<!--") {
      var i := Find(rest, "<!--");
      FindIsFirst(rest[i + 4..], "-->");
      hide Contains, Find, Occurs, FirstAt, Text.Strip;
      assert AfterFirst(rest, "<!--") == rest[i + 4..];
    }
  }

  lemma {:induction false} EventAt(clean: Cleaner, content: seq<string>, n: nat)
    requires n < |content|
    ensures |Events(clean, content)| == |content|
    ensures Events(clean, content)[n] == ReadLine(clean, ScanAfter(clean, content[..n]), content[n]).1
  {
    hide ReadLine, ScanAfter;
    var front := content[..|content| - 1];
    if n < |front| {
      EventAt(clean, front, n);
      assert front[..n] == content[..n];
    } else {
      assert front == content[..n];
      EventsNotEmpty(clean, front);
    }
  }

  /**
   What the parser makes of line `n`, said of the input lines alone: nothing in or of a fence or inside a comment, and
   else what is left of the line around its first comment, cleaned.
   */
  lemma LineShows(clean: Cleaner, content: seq<string>, n: nat)
    requires n < |content|
    ensures |Events(clean, content)| == |content|
    ensures !Readable(content, n) || InsideComment(content, n) ==> Events(clean, content)[n] == Skipped
    ensures Readable(content, n) && !InsideComment(content, n) ==>
              exists visible: string :: Shows(Remaining(content, n, Commented(content, n)), visible) && Says(clean, visible, Events(clean, content)[n])
  {
    EventAt(clean, content, n);
    ScanMeans(clean, content, n);
    var st := ScanAfter(clean, content[..n]);
    FenceMeansFence(content, n, st);
    hide Text.Strip, Contains, Find, Fenced, Commented, FenceMeans, Shows, Events, ScanAfter, Toggled;
    if Readable(content, n) && !InsideComment(content, n) {
      UncommentedShows(Remaining(content, n, Commented(content, n)));
      hide Uncommented;
      var visible := Uncommented(Remaining(content, n, Commented(content, n))).0;
      assert Says(clean, visible, Classified(clean, visible));
    }
  }

  lemma {:induction false} NeverCommented(content: seq<string>, n: nat)
    requires n <= |content| && forall k: nat | k < n :: !Contains(Text.Strip(content[k]), "<!--")
    ensures !Commented(content, n)
  {
    hide Text.Strip, Contains, Find, FenceLine, Fenced;
    forall m: nat | m < n ensures !LeavesComment(content, m, Commented(content, m)) {
      NeverCommented(content, m);
    }
  }

  /** Where nothing looks like a fence or a comment, every line is read for what it is. */
  lemma PlainLineShows(clean: Cleaner, content: seq<string>, n: nat)
    requires n < |content|
    requires forall k: nat | k <= n :: !IsFence(Text.Strip(content[k])) && !Contains(Text.Strip(content[k]), "<!--")
    ensures |Events(clean, content)| == |content| && Says(clean, Text.Strip(content[n]), Events(clean, content)[n])
  {
    LineShows(clean, content, n);
    NeverCommented(content, n);
    FencedMeans(content, n);
    FindIsFirst(Text.Strip(content[n]), "<!--");
    hide Text.Strip, Contains, Find, Fenced, Commented, Says, Events, IsFence;
    assert forall k: nat | k < n :: !FenceLine(content, k);
  }

  // ---- What the events say -------------------------------------------------------------------

  /** The heading a line stands under: the nearest preceding one. */
  function Under(events: seq<Event>): string {
    if events == [] then "Overview"
    else if events[|events| - 1].Heading? then Limit(events[|events| - 1].text, TITLE_LIMIT)
    else Under(events[..|events| - 1])
  }

  datatype Placed = Placed(title: string, line: string)

  /** Every kept line that is not a heading, in order, under its nearest preceding heading. */
  function PlacedLines(events: seq<Event>): seq<Placed> {
    if events == [] then []
    else
      var before, last := events[..|events| - 1], events[|events| - 1];
      PlacedLines(before) + if last.Prose? then [Placed(Under(before), last.text)] else []
  }

  function TitleAfter(title: Option<string>, e: Event): Option<string> {
    if title.Some? then title else if e.Heading? then Some(Limit(e.text, TITLE_LIMIT)) else None
  }

  function FirstHeading(events: seq<Event>): Option<string> {
    if events == [] then None else TitleAfter(FirstHeading(events[..|events| - 1]), events[|events| - 1])
  }

  /** The title is the first heading, shortened. */
  lemma {:induction false} TitleIsFirstHeading(events: seq<Event>, n: nat)
    requires n < |events| && events[n].Heading? && forall i | 0 <= i < n :: !events[i].Heading?
    ensures FirstHeading(events) == Some(Limit(events[n].text, TITLE_LIMIT))
  {
    var front := events[..|events| - 1];
    if n < |front| {
      TitleIsFirstHeading(front, n);
    } else {
      NoHeadingNoTitle(front);
    }
  }

  lemma {:induction false} NoHeadingNoTitle(events: seq<Event>)
    requires forall e | e in events :: !e.Heading?
    ensures FirstHeading(events).None?
  {
    if events != [] {
      assert events[|events| - 1] in events;
      NoHeadingNoTitle(events[..|events| - 1]);
    }
  }

  function ProseAfter(prose: seq<string>, e: Event): seq<string> {
    match e
    case Skipped => prose
    case Blank => if prose != [] && prose[|prose| - 1] != "" then prose + [""] else prose
    case Heading(text) => prose + [text]
    case Prose(text) => prose + [text]
  }

  /** The projection's lines: headings and prose, with at most one blank between. */
  function Projection(events: seq<Event>): seq<string> {
    if events == [] then [] else ProseAfter(Projection(events[..|events| - 1]), events[|events| - 1])
  }

  function KeptLines(events: seq<Event>): seq<string> {
    if events == [] then []
    else
      var last := events[|events| - 1];
      KeptLines(events[..|events| - 1]) + if last.Heading? || last.Prose? then [last.text] else []
  }

  // ---- Sections as the loop builds them --------------------------------------------------------

  datatype Group = Group(title: string, lines: seq<string>)
  datatype Building = Building(closed: seq<Group>, title: string, open: seq<string>)

  function Closed(b: Building): seq<Group> {
    b.closed + if b.open == [] then [] else [Group(b.title, b.open)]
  }

  function BuildAfter(b: Building, e: Event): Building {
    match e
    case Heading(text) => Building(Closed(b), Limit(text, TITLE_LIMIT), [])
    case Prose(text) => b.(open := b.open + [text])
    case _ => b
  }

  function Build(events: seq<Event>): Building {
    if events == [] then Building([], "Overview", []) else BuildAfter(Build(events[..|events| - 1]), events[|events| - 1])
  }

  function SegmentOf(index: nat, g: Group): Segment {
    var text := Text.Strip(Text.Join("\n", g.lines));
    Segment(index, g.title, text, Text.Words(text))
  }

  function Segments(groups: seq<Group>): seq<Segment> {
    seq(|groups|, (i: nat) requires i < |groups| => SegmentOf(i, groups[i]))
  }

  function PlacedIn(title: string, lines: seq<string>): seq<Placed> {
    seq(|lines|, (i: nat) requires i < |lines| => Placed(title, lines[i]))
  }

  function Flattened(groups: seq<Group>): seq<Placed> {
    if groups == [] then []
    else Flattened(groups[..|groups| - 1]) + PlacedIn(groups[|groups| - 1].title, groups[|groups| - 1].lines)
  }

  lemma {:induction false} FlattenedAppend(a: seq<Group>, b: seq<Group>)
    ensures Flattened(a + b) == Flattened(a) + Flattened(b)
  {
    if b == [] {
      assert a + b == a;
    } else {
      assert (a + b)[..|a + b| - 1] == a + b[..|b| - 1];
      FlattenedAppend(a, b[..|b| - 1]);
    }
  }

  lemma {:induction false} BuildPlaces(events: seq<Event>)
    ensures var b := Build(events);
            && b.title == Under(events)
            && Flattened(b.closed) + PlacedIn(b.title, b.open) == PlacedLines(events)
            && forall g | g in b.closed :: g.lines != []
  {
    if events != [] {
      var before, last := events[..|events| - 1], events[|events| - 1];
      var b := Build(before);
      BuildPlaces(before);
      match last
      case Heading(_) =>
        FlattenedAppend(b.closed, if b.open == [] then [] else [Group(b.title, b.open)]);
        assert PlacedIn("", []) == [];
      case Prose(text) =>
        assert PlacedIn(b.title, b.open + [text]) == PlacedIn(b.title, b.open) + [Placed(b.title, text)];
      case _ =>
    }
  }

  /**
   The card parser conserves text: the lines of all sections, one after the other, are exactly the kept
   lines that are not headings, in order and once each, each under its nearest preceding heading. No
   section is empty.
   */
  lemma SectionsConserveLines(events: seq<Event>)
    ensures Flattened(Closed(Build(events))) == PlacedLines(events)
    ensures forall g | g in Closed(Build(events)) :: g.lines != []
  {
    var b := Build(events);
    BuildPlaces(events);
    FlattenedAppend(b.closed, if b.open == [] then [] else [Group(b.title, b.open)]);
    assert PlacedIn(b.title, []) == [];
  }

  function NonBlank(lines: seq<string>): seq<string> {
    if lines == [] then []
    else NonBlank(lines[..|lines| - 1]) + if lines[|lines| - 1] == "" then [] else [lines[|lines| - 1]]
  }

  ghost predicate NothingEmpty(events: seq<Event>) {
    forall e | e in events :: e.Heading? || e.Prose? ==> e.text != ""
  }

  /** A blank is never first and never follows another one. */
  ghost predicate SingleBlanks(prose: seq<string>) {
    forall i | 0 <= i < |prose| && prose[i] == "" :: i > 0 && prose[i - 1] != ""
  }

  lemma ProseAfterKeeps(prose: seq<string>, e: Event)
    requires e.Heading? || e.Prose? ==> e.text != ""
    requires SingleBlanks(prose)
    ensures SingleBlanks(ProseAfter(prose, e))
    ensures NonBlank(ProseAfter(prose, e)) == NonBlank(prose) + if e.Heading? || e.Prose? then [e.text] else []
  {
    var next := ProseAfter(prose, e);
    if |next| > |prose| {
      assert next[..|prose|] == prose;
    }
  }

  /** The projection holds every kept line, heading or prose, in order; all it adds is single blanks. */
  lemma {:induction false} ProjectionConservesLines(events: seq<Event>)
    requires NothingEmpty(events)
    ensures NonBlank(Projection(events)) == KeptLines(events)
    ensures SingleBlanks(Projection(events))
  {
    hide SingleBlanks, NonBlank, ProseAfter;
    if events != [] {
      var before, last := events[..|events| - 1], events[|events| - 1];
      assert events == before + [last];
      assert last in events;
      ProjectionConservesLines(before);
      ProseAfterKeeps(Projection(before), last);
    } else {
      NothingToConserve();
    }
  }

  lemma NothingToConserve()
    ensures NonBlank([]) == [] && SingleBlanks([])
  {
  }

  lemma {:induction false} EventsNotEmpty(clean: Cleaner, lines: seq<string>)
    ensures NothingEmpty(Events(clean, lines))
    ensures |Events(clean, lines)| == |lines|
  {
    if lines != [] {
      EventsNotEmpty(clean, lines[..|lines| - 1]);
    }
  }

  // ---- The text of a section is its lines ------------------------------------------------------

  predicate Tight(s: string) { s != "" && !Text.IsSpace(s[0]) && !Text.IsSpace(s[|s| - 1]) }

  lemma {:induction false} JoinEnds(lines: seq<string>)
    requires lines != [] && forall l | l in lines :: Tight(l)
    ensures Tight(Text.Join("\n", lines))
  {
    if |lines| > 1 {
      JoinEnds(lines[1..]);
      assert lines[0] in lines;
      var rest := Text.Join("\n", lines[1..]);
      var all := lines[0] + "\n" + rest;
      assert all[0] == lines[0][0] && all[|all| - 1] == rest[|rest| - 1];
    } else {
      assert lines[0] in lines;
    }
  }

  /** Stripping a section's text removes nothing: it is its lines joined by line breaks. */
  lemma SectionTextIsItsLines(index: nat, g: Group)
    requires g.lines != [] && forall l | l in g.lines :: Tight(l)
    ensures SegmentOf(index, g).text == Text.Join("\n", g.lines)
  {
    JoinEnds(g.lines);
  }

  /** `" ".join(cleaned.split())` leaves no outer white space. */
  ghost predicate CleansTight(clean: Cleaner) { forall l :: clean(l) == "" || Tight(clean(l)) }

  lemma {:induction false} EventsTight(clean: Cleaner, lines: seq<string>)
    requires CleansTight(clean)
    ensures forall e | e in Events(clean, lines) && e.Prose? :: Tight(e.text)
  {
    if lines != [] {
      EventsTight(clean, lines[..|lines| - 1]);
    }
  }

  lemma {:induction false} BuildTight(events: seq<Event>)
    requires forall e | e in events && e.Prose? :: Tight(e.text)
    ensures forall g, l | g in Closed(Build(events)) && l in g.lines :: Tight(l)
    ensures forall l | l in Build(events).open :: Tight(l)
    ensures forall g, l | g in Build(events).closed && l in g.lines :: Tight(l)
  {
    hide Tight;
    if events != [] {
      var front, last := events[..|events| - 1], events[|events| - 1];
      assert events == front + [last];
      BuildTight(front);
      assert last in events;
    }
  }

  /** Each section's text is exactly its lines, so no character of a kept line is lost by stripping; its words are counted. */
  lemma SectionTextsAreTheirLines(clean: Cleaner, content: seq<string>)
    requires CleansTight(clean)
    ensures var groups := Closed(Build(Events(clean, content)));
            && |Segments(groups)| == |groups|
            && forall i | 0 <= i < |groups| ::
                 var text := Text.Join("\n", groups[i].lines);
                 Segments(groups)[i] == Segment(i, groups[i].title, text, |Text.SplitWords(text)|)
  {
    var events := Events(clean, content);
    var groups := Closed(Build(events));
    EventsTight(clean, content);
    BuildTight(events);
    SectionsConserveLines(events);
    hide Build, Events, Tight, Text.Strip, Text.Join, Text.SplitWords;
    forall i | 0 <= i < |groups|
      ensures var text := Text.Join("\n", groups[i].lines);
              Segments(groups)[i] == Segment(i, groups[i].title, text, |Text.SplitWords(text)|)
    {
      assert groups[i] in groups;
      SectionTextIsItsLines(i, groups[i]);
      Text.WordsAreCounted(Text.Join("\n", groups[i].lines), "");
    }
  }

  // ---- The loop ------------------------------------------------------------------------------

  predicate ClosesFrontMatter(line: string) { Text.Strip(line) == "---" || Text.Strip(line) == "..." }

  /** The first line after the front matter; unterminated front matter is ordinary text. */
  function BodyStart(lines: seq<string>): (start: nat)
    ensures start <= |lines|
    ensures start != 0 ==> 2 <= start
  {
    if lines == [] || Text.Strip(lines[0]) != "---" then 0
    else
      var n := ClosingLine(lines, 1);
      if n < |lines| then n + 1 else 0
  }

  function ClosingLine(lines: seq<string>, from: nat): (n: nat)
    requires from <= |lines|
    ensures from <= n <= |lines|
    ensures n < |lines| ==> ClosesFrontMatter(lines[n])
    ensures forall i | from <= i < n :: !ClosesFrontMatter(lines[i])
    decreases |lines| - from
  {
    if from == |lines| || ClosesFrontMatter(lines[from]) then from else ClosingLine(lines, from + 1)
  }

  /** There is front matter exactly when a first line `---` is followed by a closing line; it ends at the first of them. */
  lemma BodyStartMeans(lines: seq<string>)
    ensures BodyStart(lines) != 0 <==>
              lines != [] && Text.Strip(lines[0]) == "---" && exists i: nat :: 0 < i < |lines| && ClosesFrontMatter(lines[i])
    ensures var n := BodyStart(lines);
            n != 0 ==> ClosesFrontMatter(lines[n - 1]) && forall i | 0 < i < n - 1 :: !ClosesFrontMatter(lines[i])
  {
  }

  function MetadataOf(lines: seq<string>): string {
    Limit(if BodyStart(lines) == 0 then "" else Text.Join("\n", lines[1..BodyStart(lines) - 1]), METADATA_LIMIT)
  }

  method FrontMatter(lines: seq<string>) returns (metadata: seq<string>, start: nat)
    ensures start == BodyStart(lines)
    ensures metadata == if start == 0 then [] else lines[1..start - 1]
  {
    metadata, start := [], 0;
    if lines != [] && Text.Strip(lines[0]) == "---" {
      for index := 1 to |lines|
        invariant start == 0 && metadata == []
        invariant ClosingLine(lines, 1) == ClosingLine(lines, index)
      {
        if ClosesFrontMatter(lines[index]) {
          metadata, start := lines[1..index], index + 1;
          return;
        }
      }
    }
  }

  lemma OneMoreEvent(clean: Cleaner, content: seq<string>, n: nat)
    requires n < |content|
    ensures var event := ReadLine(clean, ScanAfter(clean, content[..n]), content[n]);
            && Events(clean, content[..n + 1]) == Events(clean, content[..n]) + [event.1]
            && ScanAfter(clean, content[..n + 1]) == event.0
  {
    assert content[..n + 1][..n] == content[..n];
  }

  /** What one event does to the projection, the title and the sections. */
  lemma AfterEvent(events: seq<Event>, e: Event)
    ensures Projection(events + [e]) == ProseAfter(Projection(events), e)
    ensures FirstHeading(events + [e]) == TitleAfter(FirstHeading(events), e)
    ensures Build(events + [e]) == BuildAfter(Build(events), e)
  {
    assert (events + [e])[..|events|] == events;
  }

  /** The document body, line by line. */
  method ParseBody(clean: Cleaner, content: seq<string>) returns (text: string, title: Option<string>, sections: seq<Segment>)
    ensures var events := Events(clean, content);
            && text == Text.Strip(Text.Join("\n", Projection(events)))
            && title == FirstHeading(events)
            && sections == Segments(Closed(Build(events)))
  {
    hide Projection, FirstHeading, Build, ReadLine, Events, ScanAfter, Limit;
    StartOfEvents(clean);
    assert content[..0] == [];
    var prose: seq<string>, sectionLines: seq<string> := [], [];
    sections, title := [], None;
    var sectionTitle := "Overview";
    var inFence, marker, inComment := false, "", false;
    ghost var groups: seq<Group> := [];
    for n := 0 to |content|
      invariant Scan(inFence, marker, inComment) == ScanAfter(clean, content[..n])
      invariant prose == Projection(Events(clean, content[..n]))
      invariant title == FirstHeading(Events(clean, content[..n]))
      invariant Building(groups, sectionTitle, sectionLines) == Build(Events(clean, content[..n]))
      invariant sections == Segments(groups)
    {
      hide Segments, SegmentOf;
      var step := ReadStep(clean, inFence, marker, inComment, content[n]);
      OneMoreEvent(clean, content, n);
      AfterEvent(Events(clean, content[..n]), step.1);
      inFence, marker, inComment := step.0.inFence, step.0.marker, step.0.inComment;
      match step.1 {
        case Skipped =>
        case Blank =>
          if prose != [] && prose[|prose| - 1] != "" {
            prose := prose + [""];
          }
        case Heading(cleaned) =>
          if title.None? {
            title := Some(Limit(cleaned, TITLE_LIMIT));
          }
          if sectionLines != [] {
            sections := sections + [SegmentOf(|sections|, Group(sectionTitle, sectionLines))];
            groups := groups + [Group(sectionTitle, sectionLines)];
            sectionLines := [];
          } else {
            assert groups + [] == groups;
          }
          sectionTitle := Limit(cleaned, TITLE_LIMIT);
          prose := prose + [cleaned];
        case Prose(cleaned) =>
          prose := prose + [cleaned];
          sectionLines := sectionLines + [cleaned];
      }
    }
    assert content[..|content|] == content;
    if sectionLines != [] {
      sections := sections + [SegmentOf(|sections|, Group(sectionTitle, sectionLines))];
    } else {
      assert groups + [] == groups;
    }
    text := Text.Strip(Text.Join("\n", prose));
  }

  lemma StartOfEvents(clean: Cleaner)
    ensures Events(clean, []) == [] && ScanAfter(clean, []) == START
    ensures Projection([]) == [] && FirstHeading([]) == None && Build([]) == Building([], "Overview", [])
  {
  }

  method MarkdownProseSections(clean: Cleaner, lines: seq<string>) returns (card: Card)
    ensures var events := Events(clean, lines[BodyStart(lines)..]);
            card == Card(Text.Strip(Text.Join("\n", Projection(events))), FirstHeading(events), MetadataOf(lines),
                         Segments(Closed(Build(events))))
  {
    var metadata, start := FrontMatter(lines);
    var text, title, sections := ParseBody(clean, lines[start..]);
    card := Card(text, title, Limit(Text.Join("\n", metadata), METADATA_LIMIT), sections);
  }

  /** One pass through the loop body up to the cleaned line. */
  method ReadStep(clean: Cleaner, fence: bool, marker: string, comment: bool, raw: string) returns (r: (Scan, Event))
    ensures r == ReadLine(clean, Scan(fence, marker, comment), raw)
  {
    var inFence, fenceMarker, inComment := fence, marker, comment;
    var stripped := Text.Strip(raw);
    if IsFence(stripped) {
      var found := Limit(stripped, 3);
      if !inFence {
        inFence, fenceMarker := true, found;
      } else if found == fenceMarker {
        inFence := false;
      }
      return (Scan(inFence, fenceMarker, inComment), Skipped);
    }
    if inFence {
      return (Scan(inFence, fenceMarker, inComment), Skipped);
    }
    if inComment {
      if !Contains(stripped, "-->") {
        return (Scan(inFence, fenceMarker, inComment), Skipped);
      }
      stripped := Text.Strip(AfterFirst(stripped, "-->"));
      inComment := false;
    }
    if Contains(stripped, "<!--") {
      var before, after := BeforeFirst(stripped, "<!--"), AfterFirst(stripped, "<!--");
      if Contains(after, "-->") {
        after := AfterFirst(after, "-->");
        stripped := Text.Strip(before + " " + after);
      } else {
        stripped := Text.Strip(before);
        inComment := true;
      }
    }
    var st := Scan(inFence, fenceMarker, inComment);
    if stripped == "" {
      return (st, Blank);
    }
    var isHeading := stripped[0] == '#';
    var cleaned := clean(stripped);
    if cleaned == "" {
      return (st, Skipped);
    }
    r := (st, if isHeading then Heading(cleaned) else Prose(cleaned));
  }
}
