/** Markdown text cut into sections with exact character spans
    (src/modules/parsing/parser.py). */
module Parser {
  import opened Text
  import opened Wrappers

  datatype Heading = Heading(level: nat, title: string)

  /** The heading regular expression is a parameter: nothing here depends on it. */
  type HeadingMatch = string -> Option<Heading>

  datatype ParsedSection = ParsedSection(title: Option<string>, level: nat, text: string, start: nat, end: nat)

  datatype ParsedDocument = ParsedDocument(version: string, normalized: string, sections: seq<ParsedSection>)

  datatype ParserInputError = InvalidMarkdownDocument

  const VERSION := "markdown-1"
  const MAX_BYTES := 10 * 1024 * 1024

  // ----- newline normalization

  function ReplaceCrLf(text: string): string {
    if text == "" then ""
    else if |text| > 1 && text[0] == '\r' && text[1] == '\n' then "\n" + ReplaceCrLf(text[2..])
    else [text[0]] + ReplaceCrLf(text[1..])
  }

  function ReplaceCr(text: string): (r: string)
    ensures '\r' !in r
    ensures '\r' !in text ==> r == text
  {
    seq(|text|, i requires 0 <= i < |text| => if text[i] == '\r' then '\n' else text[i])
  }

  function Normalize(text: string): (r: string)
    ensures '\r' !in r
  {
    ReplaceCr(ReplaceCrLf(text))
  }

  /** Text without carriage returns, in particular normalized text, is left alone. */
  lemma {:induction false} NormalizeFixesClean(text: string)
    requires '\r' !in text
    ensures ReplaceCrLf(text) == text
    ensures Normalize(text) == text
  {
    if text != "" {
      NormalizeFixesClean(text[1..]);
      assert text == [text[0]] + text[1..];
    }
  }

  /** Each carriage return becomes a line feed, together with a line feed behind it; nothing else
      changes, and text may be normalized piece by piece unless such a pair is torn. */
  lemma {:induction false} NormalizeLaws(a: string, b: string)
    ensures Normalize("\r\n") == Normalize("\r") == "\n" && Normalize("") == ""
    ensures forall c: char :: c != '\r' ==> Normalize([c]) == [c]
    ensures !(a != "" && a[|a| - 1] == '\r' && b != "" && b[0] == '\n') ==>
      Normalize(a + b) == Normalize(a) + Normalize(b)
  {
    assert ReplaceCrLf("\r\n") == "\n" && ReplaceCrLf("\r") == "\r";
    forall c: char | c != '\r'
      ensures Normalize([c]) == [c]
    {
      NormalizeFixesClean([c]);
    }
    if !(a != "" && a[|a| - 1] == '\r' && b != "" && b[0] == '\n') {
      ReplaceInPieces(a, b);
    }
  }

  lemma {:induction false} ReplaceInPieces(a: string, b: string)
    requires !(a != "" && a[|a| - 1] == '\r' && b != "" && b[0] == '\n')
    ensures ReplaceCrLf(a + b) == ReplaceCrLf(a) + ReplaceCrLf(b)
  {
    if a == "" {
      assert a + b == b;
    } else if |a| > 1 && a[0] == '\r' && a[1] == '\n' {
      assert (a + b)[2..] == a[2..] + b;
      ReplaceInPieces(a[2..], b);
    } else {
      assert (a + b)[1..] == a[1..] + b;
      ReplaceInPieces(a[1..], b);
    }
  }

  // ----- lines

  /** Length of the first line, its line break included. */
  function LineLength(text: string): (n: nat)
    requires text != ""
    ensures 0 < n <= |text|
    ensures n < |text| ==> IsLineBreak(text[n - 1])
    ensures forall k :: 0 <= k < n - 1 && IsLineBreak(text[k]) ==> k == n - 2 && text[k] == '\r' && text[k + 1] == '\n'
    ensures n < |text| && text[n - 1] == '\r' ==> text[n] != '\n'
  {
    if IsLineBreak(text[0]) then
      if |text| > 1 && text[0] == '\r' && text[1] == '\n' then 2 else 1
    else if |text| == 1 then 1
    else 1 + LineLength(text[1..])
  }

  /** A line break only at its end. */
  ghost predicate OneLine(line: string) {
    forall k :: 0 <= k < |line| - 1 && IsLineBreak(line[k]) ==>
      k == |line| - 2 && line[k] == '\r' && line[k + 1] == '\n'
  }

  /** A carriage return and its line feed on two lines. */
  ghost predicate Torn(line: string, next: string)
    requires line != "" && next != ""
  {
    line[|line| - 1] == '\r' && next[0] == '\n'
  }

  /** `str.splitlines(keepends=True)` */
  function SplitLines(text: string): (lines: seq<string>)
    ensures forall i :: 0 <= i < |lines| ==> lines[i] != ""
    ensures forall i :: 0 <= i < |lines| - 1 ==> IsLineBreak(lines[i][|lines[i]| - 1])
    ensures forall line :: line in lines ==> OneLine(line)
    ensures forall i :: 0 <= i < |lines| - 1 ==> !Torn(lines[i], lines[i + 1])
    ensures text != "" ==> lines != [] && lines[0][0] == text[0]
  {
    if text == "" then []
    else [text[..LineLength(text)]] + SplitLines(text[LineLength(text)..])
  }

  /** Where line `n` begins when the lines are put one after the other. */
  function Offset(lines: seq<string>, n: nat): nat
    requires n <= |lines|
  {
    if n == 0 then 0 else Offset(lines, n - 1) + |lines[n - 1]|
  }

  function Join(lines: seq<string>): string {
    if lines == [] then "" else lines[0] + Join(lines[1..])
  }

  lemma {:induction false} SplitLinesJoin(text: string)
    ensures Join(SplitLines(text)) == text
  {
    if text != "" {
      SplitLinesJoin(text[LineLength(text)..]);
    }
  }

  lemma {:induction false} OffsetOfTail(lines: seq<string>, n: nat)
    requires 0 < n <= |lines|
    ensures Offset(lines, n) == |lines[0]| + Offset(lines[1..], n - 1)
  {
    if n > 1 {
      OffsetOfTail(lines, n - 1);
    }
  }

  /** Line `n` is the slice of the text between its two offsets. */
  lemma {:induction false} LineIsSlice(lines: seq<string>, n: nat)
    requires n < |lines|
    ensures Offset(lines, n + 1) <= |Join(lines)|
    ensures Join(lines)[Offset(lines, n)..Offset(lines, n + 1)] == lines[n]
  {
    OffsetOfTail(lines, n + 1);
    if n > 0 {
      OffsetOfTail(lines, n);
      LineIsSlice(lines[1..], n - 1);
    }
  }

  lemma {:induction false} OffsetOfEnd(lines: seq<string>)
    ensures Offset(lines, |lines|) == |Join(lines)|
  {
    if lines != [] {
      OffsetOfTail(lines, |lines|);
      OffsetOfEnd(lines[1..]);
    }
  }

  lemma {:induction false} OffsetGrows(lines: seq<string>, m: nat, n: nat)
    requires m <= n <= |lines|
    requires forall i :: 0 <= i < |lines| ==> lines[i] != ""
    ensures Offset(lines, m) + (n - m) <= Offset(lines, n)
  {
    if m < n {
      OffsetGrows(lines, m, n - 1);
    }
  }

  // ----- where sections are cut

  function LStrip(line: string): string {
    if line != "" && IsSpace(line[0]) then LStrip(line[1..]) else line
  }

  function Marker(line: string): string {
    var stripped := LStrip(line);
    stripped[..if |stripped| < 3 then |stripped| else 3]
  }

  predicate IsFence(line: string) {
    Marker(line) in {"```", "~~~"}
  }

  /** The marker of the fenced block that line `n` stands in, if any. */
  function FenceBefore(lines: seq<string>, n: nat): Option<string>
    requires n <= |lines|
  {
    if n == 0 then None
    else
      var fence := FenceBefore(lines, n - 1);
      if !IsFence(lines[n - 1]) then fence
      else if fence == None then Some(Marker(lines[n - 1]))
      else if fence == Some(Marker(lines[n - 1])) then None
      else fence
  }

  /** Leading whitespace goes, and nothing else. */
  lemma {:induction false} LStripMeans(line: string) returns (n: nat)
    ensures n <= |line| && LStrip(line) == line[n..] && (forall k :: 0 <= k < n ==> IsSpace(line[k]))
    ensures n < |line| ==> !IsSpace(line[n])
  {
    n := 0;
    if line != "" && IsSpace(line[0]) {
      n := LStripMeans(line[1..]);
      n := n + 1;
    }
  }

  /** A fence is a line that begins, behind whitespace, with three backticks or tildes. */
  lemma FenceBegins(line: string)
    ensures IsFence(line) <==> "```" <= LStrip(line) || "~~~" <= LStrip(line)
    ensures IsFence(line) ==> |Marker(line)| == 3 && Marker(line) <= LStrip(line)
  {
    var stripped := LStrip(line);
    if "```" <= stripped {
      assert stripped[..3] == "```";
    }
    if "~~~" <= stripped {
      assert stripped[..3] == "~~~";
    }
  }

  /** Line `k` opens a block that is still open before line `n`: no line between has its marker. */
  ghost predicate StillOpen(lines: seq<string>, k: nat, n: nat)
    requires k < n <= |lines|
  {
    && IsFence(lines[k]) && FenceBefore(lines, k) == None
    && forall j :: k < j < n && IsFence(lines[j]) ==> Marker(lines[j]) != Marker(lines[k])
  }

  lemma OpenBefore(lines: seq<string>, k: nat, m: nat, n: nat)
    requires k < m <= n <= |lines|
    ensures StillOpen(lines, k, n) ==> StillOpen(lines, k, m)
  {
  }

  /** A block runs from a fence outside all blocks to the next fence with the same marker. */
  lemma {:induction false} FenceMeans(lines: seq<string>, n: nat)
    requires n <= |lines|
    ensures match FenceBefore(lines, n)
            case None => forall k :: 0 <= k < n ==> !StillOpen(lines, k, n)
            case Some(marker) => exists k :: 0 <= k < n && StillOpen(lines, k, n) && Marker(lines[k]) == marker
  {
    if n > 0 {
      FenceMeans(lines, n - 1);
      var fence, line := FenceBefore(lines, n - 1), lines[n - 1];
      hide Marker, IsFence;
      if fence == None {
        forall k | 0 <= k < n - 1
          ensures !StillOpen(lines, k, n)
        {
          OpenBefore(lines, k, n - 1, n);
        }
        assert IsFence(line) <==> StillOpen(lines, n - 1, n);
      } else {
        var k :| 0 <= k < n - 1 && StillOpen(lines, k, n - 1) && Marker(lines[k]) == fence.value;
        OpenAfter(lines, k, n);
        if FenceBefore(lines, n) == None {
          forall other | 0 <= other < n - 1 && other != k
            ensures !StillOpen(lines, other, n)
          {
            if other < k {
              FenceMeans(lines, k);
              OpenBefore(lines, other, k, n);
            } else {
              FenceMeans(lines, other);
              OpenBefore(lines, k, other, n - 1);
            }
          }
        }
      }
    }
  }

  /** A block stays open unless the line has its marker. */
  lemma OpenAfter(lines: seq<string>, k: nat, n: nat)
    requires k < n - 1 < |lines| && StillOpen(lines, k, n - 1)
    ensures StillOpen(lines, k, n) <==> !(IsFence(lines[n - 1]) && Marker(lines[n - 1]) == Marker(lines[k]))
    ensures !StillOpen(lines, n - 1, n) || FenceBefore(lines, n - 1) == None
  {
    hide IsFence, Marker;
  }

  /** The heading that line `n` is, unless it is a fence or stands inside one. */
  function HeadingAt(heading: HeadingMatch, lines: seq<string>, n: nat): Option<Heading>
    requires n < |lines|
  {
    if IsFence(lines[n]) || FenceBefore(lines, n).Some? then None else heading(lines[n])
  }

  /** The lines among the first `n` that begin a section: the first line and every heading. */
  function Heads(heading: HeadingMatch, lines: seq<string>, n: nat): (hs: seq<nat>)
    requires n <= |lines|
    ensures n > 0 ==> hs != [] && hs[0] == 0
    ensures forall k :: 0 <= k < |hs| ==> hs[k] < n
    ensures forall j, k :: 0 <= j < k < |hs| ==> hs[j] < hs[k]
  {
    if n == 0 then []
    else Heads(heading, lines, n - 1)
         + if n == 1 || HeadingAt(heading, lines, n - 1).Some? then [n - 1] else []
  }

  lemma {:induction false} HeadsAreTheHeadings(heading: HeadingMatch, lines: seq<string>, n: nat, i: nat)
    requires i < n <= |lines|
    ensures i in Heads(heading, lines, n) <==> i == 0 || HeadingAt(heading, lines, i).Some?
  {
    if i < n - 1 {
      HeadsAreTheHeadings(heading, lines, n - 1, i);
    }
  }

  /** Line `n` stands in a block. */
  ghost predicate InBlock(lines: seq<string>, n: nat)
    requires n <= |lines|
  {
    exists k :: 0 <= k < n && StillOpen(lines, k, n)
  }

  /** Heads are the first line and the headings that are neither fences nor in a block; a section takes
      title and level from its heading and has neither without one. */
  lemma HeadsAreTitled(heading: HeadingMatch, lines: seq<string>, n: nat, i: nat)
    requires i < n <= |lines|
    ensures var titled := !IsFence(lines[i]) && !InBlock(lines, i) && heading(lines[i]).Some?;
      && (i in Heads(heading, lines, n) <==> i == 0 || titled)
      && TitleAt(heading, lines, i) == (if titled then Some(heading(lines[i]).value.title) else None)
      && LevelAt(heading, lines, i) == (if titled then heading(lines[i]).value.level else 0)
  {
    HeadsAreTheHeadings(heading, lines, n, i);
    FenceMeans(lines, i);
    hide Heads, StillOpen, FenceBefore, IsFence;
  }

  function TitleAt(heading: HeadingMatch, lines: seq<string>, n: nat): Option<string>
    requires n < |lines|
  {
    var h := HeadingAt(heading, lines, n);
    if h.Some? then Some(h.value.title) else None
  }

  function LevelAt(heading: HeadingMatch, lines: seq<string>, n: nat): nat
    requires n < |lines|
  {
    var h := HeadingAt(heading, lines, n);
    if h.Some? then h.value.level else 0
  }

  /** `s` is the section of lines `i` up to `j`, titled by line `i`. */
  ghost predicate Cut(heading: HeadingMatch, lines: seq<string>, text: string, i: nat, j: nat, s: ParsedSection) {
    && i < j <= |lines|
    && Offset(lines, i) <= Offset(lines, j) <= |text|
    && s.title == TitleAt(heading, lines, i) && s.level == LevelAt(heading, lines, i)
    && s.start == Offset(lines, i) && s.end == Offset(lines, j)
    && s.text == text[s.start..s.end]
  }

  /** The line after the section that begins at the k-th head. */
  function HeadAfter(hs: seq<nat>, k: nat, end: nat): nat {
    if k + 1 < |hs| then hs[k + 1] else end
  }

  /** One section for each of the first heads of the first `n` lines. */
  ghost predicate CutTo(heading: HeadingMatch, lines: seq<string>, text: string, n: nat, sections: seq<ParsedSection>)
    requires n <= |lines|
  {
    var hs := Heads(heading, lines, n);
    && |sections| <= |hs|
    && forall k :: 0 <= k < |sections| ==> Cut(heading, lines, text, hs[k], HeadAfter(hs, k, n), sections[k])
  }

  /** Sections run exactly from one head to the next, the last one to the end of the text. */
  ghost predicate CutAtHeads(heading: HeadingMatch, text: string, sections: seq<ParsedSection>) {
    var lines := SplitLines(text);
    && |sections| == |Heads(heading, lines, |lines|)|
    && CutTo(heading, lines, text, |lines|, sections)
  }

  /** The lines of a text: nonempty, put together they are the text, and only the last
      may lack its line break. */
  ghost predicate AreLines(lines: seq<string>, text: string) {
    && Join(lines) == text
    && Offset(lines, |lines|) == |text|
    && (forall i :: 0 <= i < |lines| ==> lines[i] != "")
    && (forall i :: 0 <= i < |lines| - 1 ==> IsLineBreak(lines[i][|lines[i]| - 1]))
  }

  lemma SplitLinesAreLines(text: string)
    ensures AreLines(SplitLines(text), text)
  {
    SplitLinesJoin(text);
    OffsetOfEnd(SplitLines(text));
  }

  /** After `n` lines every section but the open one is closed. */
  ghost predicate CutSoFar(heading: HeadingMatch, lines: seq<string>, text: string, n: nat,
                           sections: seq<ParsedSection>, start: nat, title: Option<string>, level: nat)
    requires n <= |lines|
  {
    var hs := Heads(heading, lines, n);
    if n == 0 then sections == [] && start == 0 && title == None && level == 0
    else
      var open := hs[|hs| - 1];
      && |sections| == |hs| - 1
      && start == Offset(lines, open)
      && title == TitleAt(heading, lines, open)
      && level == LevelAt(heading, lines, open)
      && CutTo(heading, lines, text, n, sections)
  }

  /** Closing the open section after `n` lines completes the sections of those lines. */
  lemma CloseSection(heading: HeadingMatch, lines: seq<string>, text: string, n: nat,
                     sections: seq<ParsedSection>, start: nat, title: Option<string>, level: nat)
    requires AreLines(lines, text) && 0 < n <= |lines|
    requires CutSoFar(heading, lines, text, n, sections, start, title, level)
    ensures start < Offset(lines, n) <= |text|
    ensures CutTo(heading, lines, text, n,
        sections + [ParsedSection(title, level, text[start..Offset(lines, n)], start, Offset(lines, n))])
  {
    hide Heads, TitleAt, LevelAt, AreLines, Offset, Cut;
    var hs := Heads(heading, lines, n);
    OpenIsCut(heading, lines, text, hs[|hs| - 1], n);
  }

  lemma OpenIsCut(heading: HeadingMatch, lines: seq<string>, text: string, open: nat, n: nat)
    requires AreLines(lines, text) && open < n <= |lines|
    ensures Offset(lines, open) < Offset(lines, n) <= |text|
    ensures Cut(heading, lines, text, open, n,
                ParsedSection(TitleAt(heading, lines, open), LevelAt(heading, lines, open),
                              text[Offset(lines, open)..Offset(lines, n)], Offset(lines, open), Offset(lines, n)))
  {
    hide TitleAt, LevelAt, Join;
    OffsetGrows(lines, n, |lines|);
    OffsetGrows(lines, open, n);
  }

  /** The sections after closing the one open from `start`, unless nothing was read yet. */
  function Closed(text: string, cursor: nat, sections: seq<ParsedSection>,
                  start: nat, title: Option<string>, level: nat): seq<ParsedSection>
    requires start <= cursor <= |text|
  {
    if cursor > start then sections + [ParsedSection(title, level, text[start..cursor], start, cursor)] else sections
  }

  /** Reading one more line: a heading closes the open section and opens its own,
      any other line stays inside the open section. */
  lemma ReadLine(heading: HeadingMatch, lines: seq<string>, text: string, n: nat,
                 sections: seq<ParsedSection>, start: nat, title: Option<string>, level: nat)
    requires AreLines(lines, text) && n < |lines|
    requires CutSoFar(heading, lines, text, n, sections, start, title, level)
    ensures start <= Offset(lines, n) <= |text|
    ensures HeadingAt(heading, lines, n) == None ==>
      CutSoFar(heading, lines, text, n + 1, sections, start, title, level)
    ensures HeadingAt(heading, lines, n).Some? ==>
      CutSoFar(heading, lines, text, n + 1, Closed(text, Offset(lines, n), sections, start, title, level),
        Offset(lines, n), TitleAt(heading, lines, n), LevelAt(heading, lines, n))
  {
    OffsetGrows(lines, n, |lines|);
    if n > 0 {
      CloseSection(heading, lines, text, n, sections, start, title, level);
    }
  }

  lemma NothingCut(heading: HeadingMatch, lines: seq<string>, text: string)
    ensures CutSoFar(heading, lines, text, 0, [], 0, None, 0)
  {
  }

  /** After the last line, closing the open section completes the cut. */
  lemma AllCut(heading: HeadingMatch, text: string, sections: seq<ParsedSection>, start: nat, title: Option<string>,
               level: nat)
    requires var lines := SplitLines(text);
      AreLines(lines, text) && CutSoFar(heading, lines, text, |lines|, sections, start, title, level)
    ensures start <= |text| && CutAtHeads(heading, text, Closed(text, |text|, sections, start, title, level))
  {
    var lines := SplitLines(text);
    if lines != [] {
      CloseSection(heading, lines, text, |lines|, sections, start, title, level);
    }
  }

  /** The line scan over decoded text. */
  method ParseText(text: string, heading: HeadingMatch) returns (document: ParsedDocument)
    ensures document.version == VERSION
    ensures document.normalized == Normalize(text)
    ensures CutAtHeads(heading, document.normalized, document.sections)
  {
    hide CutSoFar, CutTo, Cut, AreLines, Heads, Join, SplitLines, CutAtHeads, Normalize;
    var normalized := Normalize(text);
    var lines := SplitLines(normalized);
    NothingCut(heading, lines, normalized);
    var sections: seq<ParsedSection> := [];
    var sectionStart: nat, sectionTitle: Option<string>, sectionLevel: nat := 0, None, 0;
    var cursor := 0;
    var fence: Option<string> := None;
    SplitLinesAreLines(normalized);
    for i := 0 to |lines|
      invariant cursor == Offset(lines, i) && fence == FenceBefore(lines, i)
      invariant CutSoFar(heading, lines, normalized, i, sections, sectionStart, sectionTitle, sectionLevel)
    {
      var line := lines[i];
      ReadLine(heading, lines, normalized, i, sections, sectionStart, sectionTitle, sectionLevel);
      var marker := Marker(line);
      if marker in {"```", "~~~"} {
        if fence == None {
          fence := Some(marker);
        } else if fence == Some(marker) {
          fence := None;
        }
      } else if fence == None {
        var matched := heading(line);
        if matched.Some? {
          if cursor > sectionStart {
            sections := sections + [ParsedSection(sectionTitle, sectionLevel, normalized[sectionStart..cursor],
              sectionStart, cursor)];
          }
          sectionStart := cursor;
          sectionLevel := matched.value.level;
          sectionTitle := Some(matched.value.title);
        }
      }
      cursor := cursor + |line|;
    }
    assert cursor == |normalized| by {
      NoLines(lines, normalized);
    }
    AllCut(heading, normalized, sections, sectionStart, sectionTitle, sectionLevel);
    if cursor > sectionStart {
      sections := sections + [ParsedSection(sectionTitle, sectionLevel, normalized[sectionStart..cursor],
        sectionStart, cursor)];
    }
    document := ParsedDocument(VERSION, normalized, sections);
  }

  /** Bytes are refused when too long, holding a NUL, or not decodable. */
  method Parse(content: seq<bv8>, decode: seq<bv8> -> Option<string>, heading: HeadingMatch)
    returns (r: Result<ParsedDocument, ParserInputError>)
    ensures r.Err? <==> |content| > MAX_BYTES || 0 in content || decode(content) == None
    ensures r.Ok? ==>
      && r.value.version == VERSION
      && r.value.normalized == Normalize(decode(content).value)
      && CutAtHeads(heading, r.value.normalized, r.value.sections)
  {
    if |content| > MAX_BYTES || 0 in content {
      return Err(InvalidMarkdownDocument);
    }
    var text := decode(content);
    if text == None {
      return Err(InvalidMarkdownDocument);
    }
    var document := ParseText(text.value, heading);
    r := Ok(document);
  }

  // ----- what the sections amount to

  /** Consecutive nonempty sections from the start of the text to its end, none of
      them beginning or ending inside a token. */
  ghost predicate Sectioned(text: string, sections: seq<ParsedSection>) {
    && (sections == [] <==> text == "")
    && (sections != [] ==> sections[0].start == 0 && sections[|sections| - 1].end == |text|)
    && (forall k :: 0 <= k < |sections| ==>
          && sections[k].start < sections[k].end <= |text|
          && IsSeam(text, sections[k].start) && IsSeam(text, sections[k].end)
          && sections[k].text == text[sections[k].start..sections[k].end])
    && (forall j, k :: 0 <= j < k < |sections| && k == j + 1 ==> sections[j].end == sections[k].start)
  }

  lemma LineEndsAreSeams(lines: seq<string>, text: string, n: nat)
    requires AreLines(lines, text) && n <= |lines|
    ensures Offset(lines, n) <= |text| && IsSeam(text, Offset(lines, n))
  {
    OffsetGrows(lines, n, |lines|);
    if 0 < n < |lines| {
      LineIsSlice(lines, n - 1);
      assert text[Offset(lines, n) - 1] == lines[n - 1][|lines[n - 1]| - 1];
    }
  }

  lemma CutIsSound(heading: HeadingMatch, lines: seq<string>, text: string, i: nat, j: nat, s: ParsedSection)
    requires AreLines(lines, text) && Cut(heading, lines, text, i, j, s)
    ensures s.start < s.end <= |text| && IsSeam(text, s.start) && IsSeam(text, s.end)
    ensures s.start == Offset(lines, i) && s.end == Offset(lines, j) && s.text == text[s.start..s.end]
  {
    OffsetGrows(lines, i, j);
    LineEndsAreSeams(lines, text, i);
    LineEndsAreSeams(lines, text, j);
  }

  lemma CutToAt(heading: HeadingMatch, lines: seq<string>, text: string, sections: seq<ParsedSection>, k: nat)
    requires AreLines(lines, text) && CutTo(heading, lines, text, |lines|, sections) && k < |sections|
    ensures var hs, s := Heads(heading, lines, |lines|), sections[k];
      && s.start == Offset(lines, hs[k]) && s.end == Offset(lines, HeadAfter(hs, k, |lines|))
      && s.start < s.end <= |text| && s.text == text[s.start..s.end]
      && IsSeam(text, s.start) && IsSeam(text, s.end)
  {
    hide Cut, IsSeam, AreLines, Heads;
    var hs := Heads(heading, lines, |lines|);
    CutIsSound(heading, lines, text, hs[k], HeadAfter(hs, k, |lines|), sections[k]);
  }

  lemma AllMeet(heading: HeadingMatch, lines: seq<string>, text: string, sections: seq<ParsedSection>)
    requires AreLines(lines, text) && CutTo(heading, lines, text, |lines|, sections)
    requires |sections| == |Heads(heading, lines, |lines|)|
    ensures forall j, k :: 0 <= j < k < |sections| && k == j + 1 ==> sections[j].end == sections[k].start
  {
    hide CutTo, IsSeam, AreLines, Offset, Heads;
    forall j, k | 0 <= j < k < |sections| && k == j + 1
      ensures sections[j].end == sections[k].start
    {
      CutToAt(heading, lines, text, sections, j);
      CutToAt(heading, lines, text, sections, k);
    }
  }

  lemma NoLines(lines: seq<string>, text: string)
    requires AreLines(lines, text)
    ensures lines == [] <==> text == ""
    ensures Offset(lines, 0) == 0 && Offset(lines, |lines|) == |text|
  {
  }

  lemma CutToTiles(heading: HeadingMatch, lines: seq<string>, text: string, sections: seq<ParsedSection>)
    requires AreLines(lines, text) && CutTo(heading, lines, text, |lines|, sections)
    requires |sections| == |Heads(heading, lines, |lines|)|
    ensures Sectioned(text, sections)
  {
    NoLines(lines, text);
    AllMeet(heading, lines, text, sections);
    hide CutTo, IsSeam, AreLines, Offset, Heads;
    forall k | 0 <= k < |sections|
      ensures sections[k].start < sections[k].end <= |text|
          && sections[k].text == text[sections[k].start..sections[k].end]
      ensures IsSeam(text, sections[k].start) && IsSeam(text, sections[k].end)
    {
      CutToAt(heading, lines, text, sections, k);
    }
    if sections != [] {
      CutToAt(heading, lines, text, sections, 0);
      CutToAt(heading, lines, text, sections, |sections| - 1);
    }
  }

  /** Sections cut at heads tile the text. */
  lemma SectionsTile(heading: HeadingMatch, text: string, sections: seq<ParsedSection>)
    requires CutAtHeads(heading, text, sections)
    ensures Sectioned(text, sections)
  {
    SplitLinesAreLines(text);
    CutToTiles(heading, SplitLines(text), text, sections);
  }

  /** Parsing normalized text again changes nothing: it is already normalized, and there is
      only one way to cut it. */
  lemma ReparseIsStable(text: string, heading: HeadingMatch)
    ensures Normalize(Normalize(text)) == Normalize(text)
    ensures forall first, again ::
              (CutAtHeads(heading, Normalize(text), first)
                && CutAtHeads(heading, Normalize(Normalize(text)), again)) ==> first == again
  {
    NormalizeFixesClean(Normalize(text));
  }
}
