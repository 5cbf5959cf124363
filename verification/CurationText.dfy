/** What becomes of a document's text: sanitized, filtered and projected (processor/curate.py). */
module CurationText {
  import opened Outcomes
  import opened Curation
  import opened CurationRules
  import Ordering
  import Text
  import Near = NearDuplicateIndex
  import Agg = SegmentAggregation

  // ---- Only sanitized text -------------------------------------------------------------------

  /** The source segment with its text replaced by what the sanitizer left of it. */
  function Cleaned(m: Models, s: Segment): Segment { s.(text := m.sanitize(s.text).text) }

  /** Every section keeps its identity and position, and only its sanitized text. */
  lemma SafeIsCleaned(m: Models, silver: Silver, i: nat)
    requires i < |SourceSegments(silver)|
    ensures |Project(m, silver).safe| == |SourceSegments(silver)|
    ensures var raw, safe := SourceSegments(silver)[i], Project(m, silver).safe[i];
            safe == Segment(raw.id, raw.title, raw.role, m.sanitize(raw.text).text)
  {
  }

  lemma {:induction false} KeptElements(m: Models, kind: SourceKind, safe: seq<Segment>, s: Segment)
    ensures s in Kept(m, kind, safe) <==> s in safe && !Excluded(m, kind, s.text)
  {
    if safe != [] {
      KeptElements(m, kind, safe[1..], s);
    }
  }

  /** What stays in the projection: the sanitized source sections that no section gate isolates, and nothing else. */
  lemma KeptIsCleaned(m: Models, silver: Silver, s: Segment)
    ensures s in Project(m, silver).kept <==>
              && (exists raw | raw in SourceSegments(silver) ::
                    s == Segment(raw.id, raw.title, raw.role, m.sanitize(raw.text).text))
              && !(silver.kind in {ModelCard, DatasetCard} && m.placeholder(s.text))
              && !(silver.kind == WebProse && (!m.c4(s.text).curlyBrace || !m.c4(s.text).loremIpsum))
  {
    var source, p := SourceSegments(silver), Project(m, silver);
    KeptElements(m, silver.kind, p.safe, s);
    if s in p.safe {
      var i :| 0 <= i < |p.safe| && p.safe[i] == s;
      SafeIsCleaned(m, silver, i);
      assert source[i] in source;
    }
    if raw :| raw in source && s == Segment(raw.id, raw.title, raw.role, m.sanitize(raw.text).text) {
      var i :| 0 <= i < |source| && source[i] == raw;
      SafeIsCleaned(m, silver, i);
    }
  }

  /** Positions of the kept sections in the source, in order. */
  lemma {:induction false} KeptInOrder(m: Models, kind: SourceKind, safe: seq<Segment>) returns (at: seq<nat>)
    ensures |at| == |Kept(m, kind, safe)|
    ensures forall i | 0 <= i < |at| :: at[i] < |safe| && safe[at[i]] == Kept(m, kind, safe)[i]
    ensures forall i, j | 0 <= i < j < |at| :: at[i] < at[j]
  {
    at := [];
    if safe != [] {
      var rest := KeptInOrder(m, kind, safe[1..]);
      at := seq(|rest|, (i: nat) requires i < |rest| => rest[i] + 1);
      if !Excluded(m, kind, safe[0].text) {
        at := [0] + at;
      }
    }
  }

  // ---- Raw text does not matter --------------------------------------------------------------

  /** The two records differ at most in raw text that the sanitizer maps to the same. */
  ghost predicate SameOnceSanitized(m: Models, a: Silver, b: Silver) {
    && b == a.(segments := b.segments, body := b.body)
    && |a.segments| == |b.segments|
    && (forall i | 0 <= i < |a.segments| ::
          && b.segments[i] == a.segments[i].(text := b.segments[i].text)
          && m.sanitize(a.segments[i].text).text == m.sanitize(b.segments[i].text).text)
    && m.sanitize(a.body).text == m.sanitize(b.body).text
  }

  ghost predicate SameFlagsRaised(m: Models, a: Silver, b: Silver) {
    && |a.segments| == |b.segments|
    && (forall i | 0 <= i < |a.segments| :: m.sanitize(a.segments[i].text).blocking == m.sanitize(b.segments[i].text).blocking)
    && m.sanitize(a.body).blocking == m.sanitize(b.body).blocking
  }

  lemma {:induction false} SameRoles(a: seq<Segment>, b: seq<Segment>, role: string)
    requires |a| == |b| && forall i | 0 <= i < |a| :: a[i].role == b[i].role
    ensures FirstWithRole(a, role) == FirstWithRole(b, role)
  {
    if a != [] {
      SameRoles(a[1..], b[1..], role);
    }
  }

  lemma SameSources(m: Models, a: Silver, b: Silver)
    requires SameOnceSanitized(m, a, b)
    ensures var s, t := SourceSegments(a), SourceSegments(b);
            && |s| == |t|
            && (forall i | 0 <= i < |s| :: t[i] == s[i].(text := t[i].text) && m.sanitize(s[i].text).text == m.sanitize(t[i].text).text)
            && (SameFlagsRaised(m, a, b) ==>
                  forall i | 0 <= i < |s| :: m.sanitize(s[i].text).blocking == m.sanitize(t[i].text).blocking)
  {
    hide FirstWithRole;
    SameRoles(a.segments, b.segments, "abstract");
    SameRoles(a.segments, b.segments, "introduction");
  }

  lemma {:induction false} SameBlocking(sanitize: string -> Sanitization, s: seq<Segment>, t: seq<Segment>)
    requires |s| == |t| && forall i | 0 <= i < |s| :: sanitize(s[i].text).blocking == sanitize(t[i].text).blocking
    ensures BlockingFlags(sanitize, s) == BlockingFlags(sanitize, t)
  {
    if s != [] {
      SameBlocking(sanitize, s[1..], t[1..]);
    }
  }

  /** The projection is a function of the sanitized text. */
  lemma SameProjection(m: Models, a: Silver, b: Silver)
    requires SameOnceSanitized(m, a, b)
    ensures var p, q := Project(m, a), Project(m, b);
            && p.safe == q.safe && p.kept == q.kept && p.modelText == q.modelText && p.text == q.text
            && (SameFlagsRaised(m, a, b) ==> p == q)
  {
    SameSources(m, a, b);
    var s, t := SourceSegments(a), SourceSegments(b);
    assert SafeSegments(m, s) == SafeSegments(m, t);
    if SameFlagsRaised(m, a, b) {
      SameBlocking(m.sanitize, s, t);
    }
  }

  /**
   Raw text reaches neither the classifier nor the stored record: records that the sanitizer makes equal get the
   same projected text and the same classifier report of it, and store the same text. If it also raises the same
   flags, they are rejected for the same reasons and get the same report and scores.
   */
  lemma RawTextDoesNotMatter(m: Models, a: Silver, b: Silver, skipped: bool, near: Near.NearDup)
    requires SameOnceSanitized(m, a, b)
    ensures Project(m, a).text == Project(m, b).text
    ensures ReportOf(m, a, Project(m, a).text) == ReportOf(m, b, Project(m, b).text)
    ensures Curated(m, a, skipped, near).text == Curated(m, b, skipped, near).text
    ensures Curated(m, a, skipped, near).segmentScores == Curated(m, b, skipped, near).segmentScores
    ensures SameFlagsRaised(m, a, b) ==>
              var g, h := Curated(m, a, skipped, near), Curated(m, b, skipped, near);
              && g.report == h.report && g.reject == h.reject && g.pii == h.pii && g.risk == h.risk
              && g.sourceQuality == h.sourceQuality && g.backend == h.backend && g.revision == h.revision
  {
    SameProjection(m, a, b);
    assert Project(m, a).safe == Project(m, b).safe;
    if SameFlagsRaised(m, a, b) {
      SameVerdicts(m, a, b, skipped, near);
    }
  }

  lemma SameFindings(m: Models, a: Silver, b: Silver, report: Option<Report>, duplicate: bool)
    requires SameOnceSanitized(m, a, b) && SameFlagsRaised(m, a, b)
    ensures FindingsOf(m, a, Project(m, a), report, duplicate) == FindingsOf(m, b, Project(m, b), report, duplicate)
    ensures Preflight(m, a).0 == Preflight(m, b).0
  {
    SameProjection(m, a, b);
    PreflightFindings(m, a, report, duplicate);
    PreflightFindings(m, b, report, duplicate);
    hide Project, Preflight, SegmentScores, Text.Words, PerplexityTooHigh;
    assert Metadata(a) == Metadata(b);
  }

  lemma SameVerdicts(m: Models, a: Silver, b: Silver, skipped: bool, near: Near.NearDup)
    requires SameOnceSanitized(m, a, b) && SameFlagsRaised(m, a, b)
    ensures var g, h := Curated(m, a, skipped, near), Curated(m, b, skipped, near);
            && g.report == h.report && g.reject == h.reject && g.pii == h.pii && g.risk == h.risk
            && g.sourceQuality == h.sourceQuality && g.backend == h.backend && g.revision == h.revision
  {
    SameProjection(m, a, b);
    var report := if QualitySkipped(m, a, skipped) then None else Some(ReportOf(m, a, Project(m, a).text));
    SameFindings(m, a, b, report, near.duplicate);
    hide Project, Preflight, SegmentScores, TokenMean, Reasons, FindingsOf, FinalRoute;
  }

  /** The record keeps its identity and the index's answer; its text is the one the preflight decided on. */
  lemma StoredTextIsDecidedText(m: Models, silver: Silver, skipped: bool, near: Near.NearDup)
    ensures Curated(m, silver, skipped, near).text == Preflight(m, silver).1 == Project(m, silver).text
    ensures var gold := Curated(m, silver, skipped, near);
            && gold.docId == silver.docId && gold.traceId == silver.traceId && gold.near == near
            && forall flag :: flag in gold.pii <==>
                 || flag in m.structured(silver.structured).blocking
                 || exists s | s in SourceSegments(silver) :: flag in m.sanitize(s.text).blocking
  {
    PreflightFindings(m, silver, None, false);
    forall flag ensures flag in Project(m, silver).blocking <==>
                          || flag in m.structured(silver.structured).blocking
                          || exists s | s in SourceSegments(silver) :: flag in m.sanitize(s.text).blocking
    {
      BlockingElements(m.sanitize, SourceSegments(silver), flag);
    }
    hide Preflight, Reasons, SegmentScores, FinalRoute, ReportOf, BlockingFlags, SourceSegments;
  }

  lemma {:induction false} BlockingElements(sanitize: string -> Sanitization, segments: seq<Segment>, flag: string)
    ensures flag in BlockingFlags(sanitize, segments) <==> exists s | s in segments :: flag in sanitize(s.text).blocking
  {
    if segments != [] {
      BlockingElements(sanitize, segments[1..], flag);
      assert forall s :: s in segments <==> s == segments[0] || s in segments[1..];
    }
  }

  // ---- No word is lost or invented -----------------------------------------------------------

  /** The words of some sections, in order. */
  function WordsIn(segments: seq<Segment>): seq<string> {
    if segments == [] then [] else Text.SplitWords(segments[0].text) + WordsIn(segments[1..])
  }

  lemma {:induction false} StrippedWords(segments: seq<Segment>)
    ensures Text.AllWords(seq(|segments|, (i: nat) requires i < |segments| => Text.Strip(segments[i].text))) == WordsIn(segments)
  {
    var parts := seq(|segments|, (i: nat) requires i < |segments| => Text.Strip(segments[i].text));
    if segments != [] {
      StrippedWords(segments[1..]);
      Text.StripWords(segments[0].text);
      assert parts[1..] == seq(|segments[1..]|, (i: nat) requires i < |segments[1..]| => Text.Strip(segments[1..][i].text));
    }
  }

  /** The body that the gates measure has exactly the words of the kept sections, in order. */
  lemma BodyKeepsWords(kept: seq<Segment>)
    ensures Text.SplitWords(Body(kept)) == WordsIn(kept)
    ensures Text.Words(Body(kept)) == |WordsIn(kept)|
  {
    hide Text.Strip, Text.Join;
    var parts := seq(|kept|, (i: nat) requires i < |kept| => Text.Strip(kept[i].text));
    StrippedWords(kept);
    Text.JoinWords("\n\n", parts);
    Text.StripWords(Text.Join("\n\n", parts));
    Text.WordsAreCounted(Body(kept), "");
  }

  /** A heading is announced by its marker. */
  function HeadingWords(sameTitle: (string, string) -> bool, title: Option<string>, first: bool, s: Segment): seq<string> {
    if first && title.Some? && sameTitle(s.title, title.value) then [] else ["##"] + Text.SplitWords(s.title)
  }

  /** The words of the sections below their headings. */
  function SectionWords(sameTitle: (string, string) -> bool, title: Option<string>, first: bool, segments: seq<Segment>): seq<string> {
    if segments == [] then []
    else
      HeadingWords(sameTitle, title, first, segments[0]) + Text.SplitWords(segments[0].text)
      + SectionWords(sameTitle, title, false, segments[1..])
  }

  lemma MarkedWords(marker: string, title: string)
    requires marker != "" && forall c | c in marker :: !Text.IsSpace(c)
    ensures Text.SplitWords(marker + " " + title) == [marker] + Text.SplitWords(title)
  {
    Text.SeparatedWords(marker, " ", title);
    Text.SolidIsOneWord(marker, "");
    assert "" + marker == marker;
  }

  lemma BlockWords(sameTitle: (string, string) -> bool, title: Option<string>, first: bool, s: Segment)
    ensures Text.SplitWords(ProjectedBlock(sameTitle, title, first, s))
         == HeadingWords(sameTitle, title, first, s) + Text.SplitWords(s.text)
  {
    Text.StripWords(s.text);
    MarkedWords("##", s.title);
    Text.SeparatedWords("## " + s.title, "\n", Text.Strip(s.text));
    assert "##" + " " + s.title == "## " + s.title;
    assert "## " + s.title + "\n" + Text.Strip(s.text) == ("## " + s.title) + "\n" + Text.Strip(s.text);
  }

  lemma {:induction false} AllWordsAppend(a: seq<string>, b: seq<string>)
    ensures Text.AllWords(a + b) == Text.AllWords(a) + Text.AllWords(b)
  {
    if a == [] {
      assert a + b == b;
    } else {
      assert (a + b)[1..] == a[1..] + b;
      AllWordsAppend(a[1..], b);
    }
  }

  lemma {:induction false} BlocksWords(
    sameTitle: (string, string) -> bool, title: Option<string>, first: bool, segments: seq<Segment>)
    ensures Text.AllWords(seq(|segments|, (i: nat) requires i < |segments| =>
                                ProjectedBlock(sameTitle, title, first && i == 0, segments[i])))
         == SectionWords(sameTitle, title, first, segments)
  {
    var blocks := seq(|segments|, (i: nat) requires i < |segments| => ProjectedBlock(sameTitle, title, first && i == 0, segments[i]));
    if segments != [] {
      var rest := segments[1..];
      BlocksWords(sameTitle, title, false, rest);
      BlockWords(sameTitle, title, first, segments[0]);
      assert blocks[1..] == seq(|rest|, (i: nat) requires i < |rest| => ProjectedBlock(sameTitle, title, false && i == 0, rest[i]));
    }
  }

  /** Dropping blank blocks loses no word. */
  lemma {:induction false} FilterWords(blocks: seq<string>)
    ensures Text.AllWords(Ordering.Filter((b: string) => Text.Strip(b) != "", blocks)) == Text.AllWords(blocks)
  {
    if blocks != [] {
      FilterWords(blocks[1..]);
      Text.StripBlank(blocks[0]);
      if Text.Strip(blocks[0]) == "" {
        Text.BlankHasNoWords(blocks[0]);
      }
    }
  }

  /**
   The projected text has exactly the words of the title, of the kept sections below their headings, and of the
   sanitized structured evidence, in that order.
   */
  lemma ProjectionKeepsWords(sameTitle: (string, string) -> bool, title: Option<string>, segments: seq<Segment>, structured: string)
    ensures Text.SplitWords(TrainingProjection(sameTitle, title, segments, structured))
         == (if title.GetOr("") != "" then ["#"] + Text.SplitWords(title.value) else [])
            + SectionWords(sameTitle, title, true, segments)
            + Text.SplitWords(structured)
  {
    var head := if title.GetOr("") != "" then ["# " + title.value] else [];
    var blocks := seq(|segments|, (i: nat) requires i < |segments| => ProjectedBlock(sameTitle, title, i == 0, segments[i]));
    var tail := if Text.Strip(structured) != "" then [Text.Strip(structured)] else [];
    var all := ProjectedBlocks(sameTitle, title, segments, structured);
    var shown := Ordering.Filter((b: string) => Text.Strip(b) != "", all);
    assert all == head + blocks + tail;
    HeadWords(title);
    TailWords(structured);
    BlocksWords(sameTitle, title, true, segments);
    assert blocks == seq(|segments|, (i: nat) requires i < |segments| => ProjectedBlock(sameTitle, title, true && i == 0, segments[i]));
    hide Text.Strip, Text.Join, Text.SplitWords, Text.AllWords, ProjectedBlock, SectionWords;
    AllWordsAppend(head + blocks, tail);
    AllWordsAppend(head, blocks);
    FilterWords(all);
    Text.JoinWords("\n\n", shown);
    Text.StripWords(Text.Join("\n\n", shown));
  }

  lemma HeadWords(title: Option<string>)
    ensures Text.AllWords(if title.GetOr("") != "" then ["# " + title.value] else [])
         == if title.GetOr("") != "" then ["#"] + Text.SplitWords(title.value) else []
  {
    if title.GetOr("") != "" {
      MarkedWords("#", title.value);
      assert "#" + " " + title.value == "# " + title.value;
      assert Text.AllWords(["# " + title.value][1..]) == [];
    }
  }

  lemma TailWords(structured: string)
    ensures Text.AllWords(if Text.Strip(structured) != "" then [Text.Strip(structured)] else []) == Text.SplitWords(structured)
  {
    Text.StripWords(structured);
    Text.StripBlank(structured);
    if Text.Strip(structured) == "" {
      Text.BlankHasNoWords(structured);
    } else {
      assert Text.AllWords([Text.Strip(structured)][1..]) == [];
    }
  }

  // ---- Where a paper's training text begins --------------------------------------------------

  /** A paper is read from its abstract, without one from its introduction, otherwise whole; anything else whole. */
  lemma SourceBegins(silver: Silver)
    requires silver.segments != []
    ensures exists n: nat :: n < |silver.segments| && SourceSegments(silver) == silver.segments[n..] && Begins(silver, n)
  {
    var n := if silver.kind == ScientificPaper then BodyStart(silver.segments) else 0;
    RoleFirst(silver.segments, "abstract");
    RoleFirst(silver.segments, "introduction");
    assert silver.segments[0..] == silver.segments;
    assert n < |silver.segments| && SourceSegments(silver) == silver.segments[n..] && Begins(silver, n);
  }

  ghost predicate Begins(silver: Silver, n: nat)
    requires n < |silver.segments|
  {
    var s := silver.segments;
    if silver.kind == ScientificPaper && exists i | 0 <= i < |s| :: s[i].role == "abstract" then
      s[n].role == "abstract" && forall i | 0 <= i < n :: s[i].role != "abstract"
    else if silver.kind == ScientificPaper && exists i | 0 <= i < |s| :: s[i].role == "introduction" then
      s[n].role == "introduction" && forall i | 0 <= i < n :: s[i].role != "introduction"
    else n == 0
  }

  lemma {:induction false} RoleFirst(segments: seq<Segment>, role: string)
    ensures var n := FirstWithRole(segments, role);
            && n <= |segments|
            && (n < |segments| ==> segments[n].role == role)
            && forall i | 0 <= i < n :: segments[i].role != role
  {
    if segments != [] && segments[0].role != role {
      RoleFirst(segments[1..], role);
    }
  }
}
