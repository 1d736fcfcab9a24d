/** Parsed sections merged and split into chunks of bounded token count
    (src/modules/chunking/structural.py). */
module Chunker {
  import opened Text
  import opened Wrappers
  import opened Parser

  datatype Range = Range(start: nat, end: nat)

  datatype ProvenanceSpan = ProvenanceSpan(start: nat, end: nat, title: Option<string>, level: nat)

  datatype Chunk = Chunk(ordinal: nat, text: string, start: nat, end: nat, tokenCount: nat,
                         spans: seq<ProvenanceSpan>, parserVersion: string, chunkerVersion: string)

  const CHUNKER_VERSION := "structural-1"

  // ----- tilings of a stretch of text

  /** Consecutive nonempty ranges from `lo` to `hi` inside the text, meeting at seams. */
  ghost predicate Tiles(text: string, ranges: seq<Range>, lo: nat, hi: nat) {
    && lo <= hi <= |text| && IsSeam(text, lo) && IsSeam(text, hi)
    && if ranges == [] then lo == hi
       else
         && ranges[0].start == lo && lo < ranges[0].end
         && Tiles(text, ranges[1..], ranges[0].end, hi)
  }

  ghost predicate Bounded(text: string, ranges: seq<Range>, max: nat) {
    forall r :: r in ranges ==> r.start <= r.end <= |text| && Count(text, r.start, r.end) <= max
  }

  lemma {:induction false} TilesConcat(text: string, left: seq<Range>, right: seq<Range>, lo: nat, m: nat, hi: nat)
    requires Tiles(text, left, lo, m) && Tiles(text, right, m, hi)
    ensures Tiles(text, left + right, lo, hi)
  {
    if left == [] {
      assert left + right == right;
    } else {
      TilesConcat(text, left[1..], right, left[0].end, m, hi);
      assert (left + right)[1..] == left[1..] + right;
    }
  }

  lemma TilesAppend(text: string, ranges: seq<Range>, lo: nat, m: nat, hi: nat)
    requires Tiles(text, ranges, lo, m) && m < hi <= |text| && IsSeam(text, hi)
    ensures Tiles(text, ranges + [Range(m, hi)], lo, hi)
  {
    TilesConcat(text, ranges, [Range(m, hi)], lo, m, hi);
  }

  lemma {:induction false} TilesInside(text: string, ranges: seq<Range>, lo: nat, hi: nat)
    requires Tiles(text, ranges, lo, hi)
    ensures forall r :: r in ranges ==> lo <= r.start < r.end <= hi && IsSeam(text, r.start) && IsSeam(text, r.end)
  {
    if ranges != [] {
      TilesInside(text, ranges[1..], ranges[0].end, hi);
    }
  }

  // ----- splitting one oversized section

  /** Between the cut after `done` tokens and the start of token number `next` lie `next - done` tokens. */
  lemma CutBeforeToken(text: string, start: nat, end: nat, cursor: nat, next: nat)
    requires start <= cursor <= end <= |text| && IsSeam(text, cursor)
    requires Count(text, start, cursor) < next < |TokenStarts(text, start, end)|
    ensures var boundary := TokenStarts(text, start, end)[next];
            && cursor < boundary < end && IsSeam(text, boundary)
            && Count(text, cursor, boundary) == next - Count(text, start, cursor)
            && Count(text, start, boundary) == next && !IsSpace(text[boundary])
  {
    var boundary := TokenStarts(text, start, end)[next];
    CountBeforeToken(text, start, end, next);
    TokenStartsAreTheTokens(text, start, end);
    if boundary <= cursor {
      CountAcrossSeam(text, start, boundary, cursor);
    } else {
      CountAcrossSeam(text, start, cursor, boundary);
    }
  }

  /** Ranges of exactly `max` tokens each. */
  ghost predicate Full(text: string, ranges: seq<Range>, max: nat) {
    forall r :: r in ranges ==> r.start <= r.end <= |text| && Count(text, r.start, r.end) == max
  }

  /** Each range ends before `end`, at a token. */
  ghost predicate BeforeTokens(text: string, ranges: seq<Range>, end: nat) {
    forall r :: r in ranges ==> r.end < end <= |text| && !IsSpace(text[r.end])
  }

  /** `ranges` are full pieces of `text[start..cursor]`, which has `taken` tokens. */
  ghost predicate CutUpTo(text: string, ranges: seq<Range>, start: nat, cursor: nat, max: nat, taken: nat) {
    && Tiles(text, ranges, start, cursor)
    && Full(text, ranges, max)
    && taken == Times(|ranges|, max) == Count(text, start, cursor)
  }

  function Times(n: nat, max: nat): nat {
    n * max
  }

  lemma TimesNext(n: nat, max: nat)
    ensures Times(n + 1, max) == Times(n, max) + max
  {
  }

  lemma CutOneMore(text: string, ranges: seq<Range>, start: nat, cursor: nat, end: nat, max: nat, taken: nat)
    requires CutUpTo(text, ranges, start, cursor, max, taken)
    requires max > 0 && cursor <= end <= |text| && taken + max < |TokenStarts(text, start, end)|
    ensures var boundary := TokenStarts(text, start, end)[taken + max];
            && cursor < boundary < end && !IsSpace(text[boundary])
            && CutUpTo(text, ranges + [Range(cursor, boundary)], start, boundary, max, taken + max)
  {
    assert start <= cursor && IsSeam(text, cursor);
    hide Tiles, TokenStarts, Count, IsSeam, Times;
    TimesNext(|ranges|, max);
    var boundary := TokenStarts(text, start, end)[taken + max];
    CutBeforeToken(text, start, end, cursor, taken + max);
    TilesAppend(text, ranges, start, cursor, boundary);
  }

  /** Pieces of `text[start..end]`: all but the last have exactly `max` tokens and end where the next
      token begins, and there are no more of them than its tokens need. */
  ghost predicate Split(text: string, ranges: seq<Range>, start: nat, end: nat, max: nat) {
    && Tiles(text, ranges, start, end) && Bounded(text, ranges, max)
    && ranges != [] && Full(text, ranges[..|ranges| - 1], max) && BeforeTokens(text, ranges[..|ranges| - 1], end)
    && (|ranges| == 1 || (|ranges| - 1) * max < Count(text, start, end))
  }

  lemma CutLast(text: string, ranges: seq<Range>, start: nat, cursor: nat, end: nat, max: nat, taken: nat)
    requires CutUpTo(text, ranges, start, cursor, max, taken) && BeforeTokens(text, ranges, end)
    requires cursor < end <= |text| && IsSeam(text, end)
    requires ranges == [] || taken < Count(text, start, end)
    requires Count(text, start, end) <= taken + max
    ensures Split(text, ranges + [Range(cursor, end)], start, end, max)
  {
    CountAcrossSeam(text, start, cursor, end);
    TilesAppend(text, ranges, start, cursor, end);
    assert (ranges + [Range(cursor, end)])[..|ranges|] == ranges;
  }

  /** Cut before every max-th token. */
  method SplitRange(text: string, start: nat, end: nat, max: nat) returns (ranges: seq<Range>)
    requires max > 0 && start < end <= |text|
    requires IsSeam(text, start) && IsSeam(text, end)
    ensures Split(text, ranges, start, end, max)
  {
    var tokens := TokenStarts(text, start, end);
    CountIsNumberOfTokens(text, start, end);
    ranges := [];
    if |tokens| == 0 {
      CutLast(text, ranges, start, start, end, max, 0);
      return [Range(start, end)];
    }
    var cursor: nat := start;
    var offset: nat := max;
    while offset < |tokens|
      invariant max <= offset < |tokens| + max && cursor < end
      invariant CutUpTo(text, ranges, start, cursor, max, offset - max) && BeforeTokens(text, ranges, end)
    {
      var boundary := tokens[offset];
      CutOneMore(text, ranges, start, cursor, end, max, offset - max);
      ranges := ranges + [Range(cursor, boundary)];
      cursor := boundary;
      offset := offset + max;
    }
    CutLast(text, ranges, start, cursor, end, max, offset - max);
    ranges := ranges + [Range(cursor, end)];
  }

  // ----- merging sections

  function EndOf(sections: seq<ParsedSection>, n: nat): nat
    requires n <= |sections|
  {
    if n == 0 then 0 else sections[n - 1].end
  }

  /** The ranges so far, with the pending one closed. */
  function Flush(ranges: seq<Range>, pendingStart: Option<nat>, pendingEnd: nat): seq<Range> {
    if pendingStart.Some? then ranges + [Range(pendingStart.value, pendingEnd)] else ranges
  }

  /** After `n` sections the closed ranges and the pending one tile what was read. */
  ghost predicate Merging(text: string, sections: seq<ParsedSection>, n: nat, max: nat,
                          ranges: seq<Range>, pendingStart: Option<nat>, pendingEnd: nat)
    requires n <= |sections|
  {
    && Tiles(text, Flush(ranges, pendingStart, pendingEnd), 0, EndOf(sections, n))
    && Bounded(text, Flush(ranges, pendingStart, pendingEnd), max)
    && Bounded(text, ranges, max)
    && (pendingStart.Some? ==>
          && pendingEnd == EndOf(sections, n) && pendingStart.value < pendingEnd
          && Tiles(text, ranges, 0, pendingStart.value))
  }

  // ----- dividing the sections

  predicate Oversized(text: string, s: ParsedSection, max: nat) {
    s.start <= s.end <= |text| && Count(text, s.start, s.end) > max
  }

  ghost predicate NoneOversized(text: string, sections: seq<ParsedSection>, max: nat) {
    forall s :: s in sections ==> s.start <= s.end <= |text| && Count(text, s.start, s.end) <= max
  }

  /** The range and the section have nothing in common; or, of an ordinary section the range holds the
      whole, and of an oversized one it is a part. */
  predicate Respects(text: string, s: ParsedSection, r: Range, max: nat) {
    || r.end <= s.start || s.end <= r.start
    || if Oversized(text, s, max) then s.start <= r.start && r.end <= s.end else r.start <= s.start && s.end <= r.end
  }

  ghost predicate Whole(text: string, sections: seq<ParsedSection>, r: Range, max: nat) {
    forall s :: s in sections ==> Respects(text, s, r, max)
  }

  /** A way to divide the text from `lo` on within the bound: ordinary sections are grouped whole, and
      oversized ones cut into pieces on their own. */
  ghost predicate Divides(text: string, sections: seq<ParsedSection>, ranges: seq<Range>, lo: nat, max: nat) {
    && Tiles(text, ranges, lo, |text|) && Bounded(text, ranges, max)
    && forall r :: r in ranges ==> Whole(text, sections, r, max)
  }

  ghost predicate Aligned(sections: seq<ParsedSection>, ranges: seq<Range>) {
    forall r :: r in ranges ==> exists s :: s in sections && s.end == r.end
  }

  /** A way to group consecutive whole sections within the bound. */
  ghost predicate Grouping(text: string, sections: seq<ParsedSection>, ranges: seq<Range>, lo: nat, max: nat) {
    && Tiles(text, ranges, lo, |text|) && Bounded(text, ranges, max) && Aligned(sections, ranges)
  }

  /** No range that begins no later than `a` and ends after it divides within the bound. */
  ghost predicate Stuck(text: string, sections: seq<ParsedSection>, a: Range, max: nat) {
    forall r: Range :: Reaches(text, sections, a, r, max) ==> Count(text, r.start, r.end) > max
  }

  ghost predicate Reaches(text: string, sections: seq<ParsedSection>, a: Range, r: Range, max: nat) {
    r.start <= a.start && a.start <= a.end < r.end <= |text| && Whole(text, sections, r, max)
  }

  ghost predicate AllStuck(text: string, sections: seq<ParsedSection>, ranges: seq<Range>, max: nat) {
    forall r :: r in ranges ==> Stuck(text, sections, r, max)
  }

  /** Stuck ranges stay ahead of every division, so no division has fewer. */
  lemma {:induction false} StuckIsFewest(text: string, sections: seq<ParsedSection>, max: nat,
                                         ranges: seq<Range>, lo: nat, other: seq<Range>, otherLo: nat)
    requires Tiles(text, ranges, lo, |text|) && ranges != [] ==> AllStuck(text, sections, ranges[..|ranges| - 1], max)
    requires Tiles(text, ranges, lo, |text|) && Divides(text, sections, other, otherLo, max) && otherLo <= lo
    ensures |ranges| <= |other|
  {
    hide Whole;
    if |ranges| > 1 {
      assert other != [] by {
        TilesForward(text, ranges, lo, |text|);
      }
      assert ranges[0] in ranges[..|ranges| - 1] && other[0] in other;
      assert Reaches(text, sections, ranges[0], other[0], max) || other[0].end <= ranges[0].end;
      assert ranges[1..][..|ranges[1..]| - 1] == ranges[..|ranges| - 1][1..];
      StuckIsFewest(text, sections, max, ranges[1..], ranges[0].end, other[1..], other[0].end);
    } else if |ranges| == 1 {
      assert other != [];
    }
  }

  lemma {:induction false} TilesForward(text: string, ranges: seq<Range>, lo: nat, hi: nat)
    requires Tiles(text, ranges, lo, hi)
    ensures ranges != [] ==> lo < hi
  {
    if ranges != [] {
      TilesForward(text, ranges[1..], ranges[0].end, hi);
    }
  }

  lemma {:induction false} SectionsAreOrdered(text: string, sections: seq<ParsedSection>, i: nat, j: nat)
    requires Sectioned(text, sections) && i < j < |sections|
    ensures sections[i].end <= sections[j].start
  {
    if i + 1 < j {
      SectionsAreOrdered(text, sections, i, j - 1);
    }
  }

  /** A section other than the n-th lies before it or after it. */
  lemma SectionsApart(text: string, sections: seq<ParsedSection>, n: nat, s: ParsedSection)
    requires Sectioned(text, sections) && n < |sections| && s in sections
    ensures s == sections[n] || s.end <= sections[n].start || sections[n].end <= s.start
  {
    var i :| 0 <= i < |sections| && sections[i] == s;
    if i < n {
      SectionsAreOrdered(text, sections, i, n);
    } else if n < i {
      SectionsAreOrdered(text, sections, n, i);
    }
  }

  // ----- what the greedy merge keeps

  /** Closed ranges are stuck, and all ranges, the pending one too, divide the sections. */
  ghost predicate Divided(text: string, sections: seq<ParsedSection>, max: nat,
                          ranges: seq<Range>, pendingStart: Option<nat>, pendingEnd: nat)
  {
    && AllStuck(text, sections, ranges, max)
    && forall r :: r in Flush(ranges, pendingStart, pendingEnd) ==> Whole(text, sections, r, max)
  }

  /** The whole loop invariant. */
  ghost predicate MergedSoFar(text: string, sections: seq<ParsedSection>, n: nat, max: nat,
                              ranges: seq<Range>, pendingStart: Option<nat>, pendingEnd: nat)
    requires n <= |sections|
  {
    && Merging(text, sections, n, max, ranges, pendingStart, pendingEnd)
    && Divided(text, sections, max, ranges, pendingStart, pendingEnd)
    && (pendingStart.Some? ==> n > 0 && !Oversized(text, sections[n - 1], max))
  }

  /** A range that ends where an oversized section begins or ends is stuck there. */
  lemma StuckAtOversized(text: string, sections: seq<ParsedSection>, s: ParsedSection, a: Range, max: nat)
    requires s in sections && Oversized(text, s, max) && s.start < s.end
    requires a.start < a.end && (a.end == s.start || (a.end == s.end && s.start <= a.start))
    ensures Stuck(text, sections, a, max)
  {
    forall r: Range | r.start <= a.start && a.end < r.end
      ensures !Respects(text, s, r, max)
    {
    }
    forall r: Range
      ensures !Reaches(text, sections, a, r, max)
    {
    }
  }

  /** A range that the next ordinary section would make too big. */
  lemma StuckBeforeOrdinary(text: string, sections: seq<ParsedSection>, s: ParsedSection, a: Range, max: nat)
    requires s in sections && s.start < s.end <= |text| && !Oversized(text, s, max)
    requires a.start < a.end == s.start && IsSeam(text, a.start) && IsSeam(text, s.end)
    requires Count(text, a.start, s.end) > max
    ensures Stuck(text, sections, a, max)
  {
    forall r: Range | Reaches(text, sections, a, r, max)
      ensures Count(text, r.start, r.end) > max
    {
      assert Respects(text, s, r, max);
      CountMonotone(text, r.start, a.start, s.end, r.end);
    }
  }

  /** A full piece of an oversized section, before another token. */
  lemma StuckInOversized(text: string, sections: seq<ParsedSection>, s: ParsedSection, a: Range, max: nat)
    requires s in sections && Oversized(text, s, max) && s.start <= a.start < a.end < s.end
    requires IsSeam(text, a.start) && IsSeam(text, a.end) && !IsSpace(text[a.end])
    requires Count(text, a.start, a.end) == max
    ensures Stuck(text, sections, a, max)
  {
    forall r: Range | Reaches(text, sections, a, r, max)
      ensures Count(text, r.start, r.end) > max
    {
      SomeToken(text, a.end, r.end);
      CountAcrossSeam(text, a.start, a.end, r.end);
      CountAcrossSeam(text, r.start, a.start, r.end);
    }
  }

  lemma {:induction false} SomeToken(text: string, lo: nat, hi: nat)
    requires lo < hi <= |text| && !IsSpace(text[lo])
    ensures Count(text, lo, hi) >= 1
    decreases hi
  {
    if lo + 1 < hi {
      SomeToken(text, lo, hi - 1);
    }
  }

  lemma PiecesAreStuck(text: string, sections: seq<ParsedSection>, n: nat, max: nat, pieces: seq<Range>)
    requires Sectioned(text, sections) && n < |sections| && Oversized(text, sections[n], max)
    requires Split(text, pieces, sections[n].start, sections[n].end, max)
    ensures AllStuck(text, sections, pieces, max)
    ensures forall r :: r in pieces ==> Whole(text, sections, r, max)
  {
    var s := sections[n];
    TilesInside(text, pieces, s.start, s.end);
    LastEnds(text, pieces, s.start, s.end);
    var init := pieces[..|pieces| - 1];
    assert pieces == init + [pieces[|pieces| - 1]];
    hide Split, Tiles, Count, IsSeam, Oversized;
    forall r | r in pieces
      ensures Stuck(text, sections, r, max) && Whole(text, sections, r, max)
    {
      if r in init {
        PieceIsFull(text, pieces, s.start, s.end, max, r);
        StuckInOversized(text, sections, s, r, max);
      } else {
        StuckAtOversized(text, sections, s, r, max);
      }
      InsideIsWhole(text, sections, n, r, max);
    }
  }

  lemma PieceIsFull(text: string, pieces: seq<Range>, start: nat, end: nat, max: nat, r: Range)
    requires Split(text, pieces, start, end, max) && r in pieces[..|pieces| - 1]
    ensures r.start <= r.end < end <= |text| && Count(text, r.start, r.end) == max && !IsSpace(text[r.end])
  {
  }

  lemma InsideIsWhole(text: string, sections: seq<ParsedSection>, n: nat, r: Range, max: nat)
    requires Sectioned(text, sections) && n < |sections| && Oversized(text, sections[n], max)
    requires sections[n].start <= r.start < r.end <= sections[n].end
    ensures Whole(text, sections, r, max)
  {
    forall t | t in sections
      ensures Respects(text, t, r, max)
    {
      SectionsApart(text, sections, n, t);
    }
  }

  lemma {:induction false} LastEnds(text: string, ranges: seq<Range>, lo: nat, hi: nat)
    requires Tiles(text, ranges, lo, hi) && ranges != []
    ensures ranges[|ranges| - 1].end == hi
  {
    if |ranges| > 1 {
      LastEnds(text, ranges[1..], ranges[0].end, hi);
    }
  }

  /** An oversized section is split on its own, after the pending range. */
  lemma MergeSplit(text: string, sections: seq<ParsedSection>, n: nat, max: nat,
                   ranges: seq<Range>, pendingStart: Option<nat>, pendingEnd: nat, pieces: seq<Range>)
    requires Sectioned(text, sections) && n < |sections|
    requires MergedSoFar(text, sections, n, max, ranges, pendingStart, pendingEnd)
    requires Split(text, pieces, sections[n].start, sections[n].end, max)
    requires Oversized(text, sections[n], max)
    ensures MergedSoFar(text, sections, n + 1, max, Flush(ranges, pendingStart, pendingEnd) + pieces, None, pendingEnd)
  {
    var closed := Flush(ranges, pendingStart, pendingEnd);
    assert sections[n] in sections && EndOf(sections, n) == sections[n].start;
    TilesConcat(text, closed, pieces, 0, sections[n].start, sections[n].end);
    PiecesAreStuck(text, sections, n, max, pieces);
    if pendingStart.Some? {
      StuckAtOversized(text, sections, sections[n], Range(pendingStart.value, pendingEnd), max);
    }
    hide Stuck, Whole, Tiles, Count, IsSeam, Sectioned;
  }

  /** A section that the pending range cannot take in begins the next one. */
  lemma MergeOpen(text: string, sections: seq<ParsedSection>, n: nat, max: nat,
                  ranges: seq<Range>, pendingStart: Option<nat>, pendingEnd: nat)
    requires Sectioned(text, sections) && n < |sections|
    requires MergedSoFar(text, sections, n, max, ranges, pendingStart, pendingEnd)
    requires !Oversized(text, sections[n], max)
    requires pendingStart.Some? ==> Count(text, pendingStart.value, sections[n].end) > max
    ensures MergedSoFar(text, sections, n + 1, max, Flush(ranges, pendingStart, pendingEnd), Some(sections[n].start),
        sections[n].end)
  {
    var s, closed := sections[n], Flush(ranges, pendingStart, pendingEnd);
    assert s in sections && EndOf(sections, n) == s.start;
    TilesAppend(text, closed, 0, s.start, s.end);
    if pendingStart.Some? {
      StuckBeforeOrdinary(text, sections, s, Range(pendingStart.value, pendingEnd), max);
    }
    OrdinaryIsWhole(text, sections, n, max);
    hide Stuck, Whole, Tiles, IsSeam, Sectioned;
  }

  lemma OrdinaryIsWhole(text: string, sections: seq<ParsedSection>, n: nat, max: nat)
    requires Sectioned(text, sections) && n < |sections| && !Oversized(text, sections[n], max)
    ensures Whole(text, sections, Range(sections[n].start, sections[n].end), max)
  {
    forall t | t in sections
      ensures Respects(text, t, Range(sections[n].start, sections[n].end), max)
    {
      SectionsApart(text, sections, n, t);
    }
  }

  /** The pending range takes in the next section. */
  lemma MergeExtend(text: string, sections: seq<ParsedSection>, n: nat, max: nat,
                    ranges: seq<Range>, start: nat, pendingEnd: nat)
    requires Sectioned(text, sections) && n < |sections|
    requires MergedSoFar(text, sections, n, max, ranges, Some(start), pendingEnd)
    requires !Oversized(text, sections[n], max) && Count(text, start, sections[n].end) <= max
    ensures MergedSoFar(text, sections, n + 1, max, ranges, Some(start), sections[n].end)
  {
    assert EndOf(sections, n) == sections[n].start;
    TilesAppend(text, ranges, 0, start, sections[n].end);
    assert Range(start, pendingEnd) in Flush(ranges, Some(start), pendingEnd);
    ExtendedIsWhole(text, sections, n, max, start);
    hide Stuck, Whole, Tiles, IsSeam, Sectioned;
    assert forall r :: r in ranges ==> r in Flush(ranges, Some(start), pendingEnd);
  }

  lemma ExtendedIsWhole(text: string, sections: seq<ParsedSection>, n: nat, max: nat, start: nat)
    requires Sectioned(text, sections) && 0 < n < |sections|
    requires !Oversized(text, sections[n - 1], max) && !Oversized(text, sections[n], max)
    requires start < sections[n].start && Whole(text, sections, Range(start, sections[n].start), max)
    ensures Whole(text, sections, Range(start, sections[n].end), max)
  {
    forall t | t in sections
      ensures Respects(text, t, Range(start, sections[n].end), max)
    {
      SectionsApart(text, sections, n, t);
      SectionsApart(text, sections, n - 1, t);
      assert sections[n - 1].end == sections[n].start;
      assert Respects(text, t, Range(start, sections[n].start), max);
    }
  }

  /** The merge loop. */
  method MergeSections(document: ParsedDocument, max: nat) returns (ranges: seq<Range>)
    requires max > 0 && Sectioned(document.normalized, document.sections)
    ensures Divides(document.normalized, document.sections, ranges, 0, max)
    ensures ranges != [] ==> AllStuck(document.normalized, document.sections, ranges[..|ranges| - 1], max)
  {
    hide Stuck, Whole, Split;
    var text, sections := document.normalized, document.sections;
    ranges := [];
    var pendingStart: Option<nat> := None;
    var pendingEnd: nat := 0;
    for n := 0 to |sections|
      invariant MergedSoFar(text, sections, n, max, ranges, pendingStart, pendingEnd)
    {
      var section := sections[n];
      if Count(text, section.start, section.end) > max {
        ghost var before, open := ranges, pendingStart;
        if pendingStart.Some? {
          ranges := ranges + [Range(pendingStart.value, pendingEnd)];
          pendingStart := None;
        }
        var pieces := SplitRange(text, section.start, section.end, max);
        MergeSplit(text, sections, n, max, before, open, pendingEnd, pieces);
        ranges := ranges + pieces;
      } else {
        var proposedStart := if pendingStart.None? then section.start else pendingStart.value;
        var proposedTokens := Count(text, proposedStart, section.end);
        if pendingStart.Some? && proposedTokens > max {
          MergeOpen(text, sections, n, max, ranges, pendingStart, pendingEnd);
          ranges := ranges + [Range(pendingStart.value, pendingEnd)];
          pendingStart := Some(section.start);
        } else if pendingStart.None? {
          MergeOpen(text, sections, n, max, ranges, pendingStart, pendingEnd);
          pendingStart := Some(section.start);
        } else {
          MergeExtend(text, sections, n, max, ranges, pendingStart.value, pendingEnd);
        }
        pendingEnd := section.end;
      }
    }
    if pendingStart.Some? {
      ranges := ranges + [Range(pendingStart.value, pendingEnd)];
    }
  }

  // ----- chunks and their provenance

  /** The parts of the sections from `k` on that fall inside `start..end`. */
  function SpansFrom(sections: seq<ParsedSection>, k: nat, start: nat, end: nat): seq<ProvenanceSpan>
    requires k <= |sections|
    decreases |sections| - k
  {
    if k == |sections| then []
    else
      var s := sections[k];
      (if s.start < end && s.end > start then
         [ProvenanceSpan(if start < s.start then s.start else start, if s.end < end then s.end else end, s.title,
           s.level)]
       else [])
      + SpansFrom(sections, k + 1, start, end)
  }

  function SpanRanges(spans: seq<ProvenanceSpan>): (ranges: seq<Range>)
    ensures |ranges| == |spans|
  {
    if spans == [] then [] else [Range(spans[0].start, spans[0].end)] + SpanRanges(spans[1..])
  }

  lemma {:induction false} SpansFromTile(text: string, sections: seq<ParsedSection>, k: nat, start: nat, end: nat)
    requires Sectioned(text, sections) && k <= |sections|
    requires start < end <= |text| && IsSeam(text, start) && IsSeam(text, end)
    ensures var lo := if k == |sections| then |text| else sections[k].start;
            var spans := SpanRanges(SpansFrom(sections, k, start, end));
            if lo >= end then spans == []
            else Tiles(text, spans, if lo < start then start else lo, end)
    decreases |sections| - k
  {
    if k < |sections| {
      SpansFromTile(text, sections, k + 1, start, end);
      var s, spans, rest := sections[k], SpansFrom(sections, k, start, end), SpansFrom(sections, k + 1, start, end);
      assert s.end == (if k + 1 == |sections| then |text| else sections[k + 1].start);
      if s.start < end && s.end > start {
        assert spans[1..] == rest;
        assert SpanRanges(spans)[1..] == SpanRanges(rest);
      } else {
        assert spans == rest;
      }
    }
  }

  /** A span lies inside one section and carries its title and level. */
  ghost predicate From(sections: seq<ParsedSection>, p: ProvenanceSpan) {
    exists s :: s in sections && s.start <= p.start && p.end <= s.end && s.title == p.title && s.level == p.level
  }

  lemma {:induction false} SpansComeFromSections(sections: seq<ParsedSection>, k: nat, start: nat, end: nat)
    requires k <= |sections|
    ensures forall p :: p in SpansFrom(sections, k, start, end) ==> From(sections, p)
    decreases |sections| - k
  {
    if k < |sections| {
      assert sections[k] in sections;
      SpansComeFromSections(sections, k + 1, start, end);
    }
  }

  function BuildChunk(document: ParsedDocument, ordinal: nat, r: Range): Chunk
    requires r.start <= r.end <= |document.normalized|
  {
    Chunk(ordinal, document.normalized[r.start..r.end], r.start, r.end,
          Count(document.normalized, r.start, r.end), SpansFrom(document.sections, 0, r.start, r.end),
          document.version, CHUNKER_VERSION)
  }

  function ChunkRanges(chunks: seq<Chunk>): (ranges: seq<Range>)
    ensures |ranges| == |chunks|
    ensures forall k :: 0 <= k < |chunks| ==> ranges[k] == Range(chunks[k].start, chunks[k].end)
  {
    seq(|chunks|, k requires 0 <= k < |chunks| => Range(chunks[k].start, chunks[k].end))
  }

  function ChunkText(chunks: seq<Chunk>): string {
    if chunks == [] then "" else chunks[0].text + ChunkText(chunks[1..])
  }

  function ChunkTokens(chunks: seq<Chunk>): nat {
    if chunks == [] then 0 else chunks[0].tokenCount + ChunkTokens(chunks[1..])
  }

  /** A chunk's text and token count are those of its range. */
  ghost predicate Measured(text: string, c: Chunk) {
    && c.start < c.end <= |text|
    && c.text == text[c.start..c.end] && c.tokenCount == Count(text, c.start, c.end)
  }

  /** A chunk holds its slice of the text, its token count, and spans that tile exactly it. */
  ghost predicate Faithful(document: ParsedDocument, c: Chunk) {
    && Measured(document.normalized, c)
    && Tiles(document.normalized, SpanRanges(c.spans), c.start, c.end)
    && (forall p :: p in c.spans ==> From(document.sections, p))
    && c.parserVersion == document.version && c.chunkerVersion == CHUNKER_VERSION
  }

  lemma BuildChunkIsFaithful(document: ParsedDocument, ordinal: nat, r: Range)
    requires Sectioned(document.normalized, document.sections)
    requires r.start < r.end <= |document.normalized|
    requires IsSeam(document.normalized, r.start) && IsSeam(document.normalized, r.end)
    ensures Faithful(document, BuildChunk(document, ordinal, r))
  {
    SpansFromTile(document.normalized, document.sections, 0, r.start, r.end);
    SpansComeFromSections(document.sections, 0, r.start, r.end);
  }

  lemma {:induction false} ChunksConserve(text: string, chunks: seq<Chunk>, lo: nat, hi: nat)
    requires Tiles(text, ChunkRanges(chunks), lo, hi)
    requires forall c :: c in chunks ==> Measured(text, c)
    ensures ChunkText(chunks) == text[lo..hi]
    ensures ChunkTokens(chunks) == Count(text, lo, hi)
  {
    if chunks != [] {
      var m := chunks[0].end;
      assert ChunkRanges(chunks)[1..] == ChunkRanges(chunks[1..]);
      ChunksConserve(text, chunks[1..], m, hi);
      assert Measured(text, chunks[0]);
      CountAcrossSeam(text, lo, m, hi);
      assert text[lo..hi] == text[lo..m] + text[m..hi];
    }
  }

  // ----- when no section is oversized

  /** Where a grouping can cut: at the beginning or the end of a section. */
  ghost predicate IsBoundary(sections: seq<ParsedSection>, pos: nat) {
    pos == 0 || exists s :: s in sections && s.end == pos
  }

  lemma BoundaryOutside(text: string, sections: seq<ParsedSection>, pos: nat, s: ParsedSection)
    requires Sectioned(text, sections) && IsBoundary(sections, pos) && s in sections
    ensures pos <= s.start || s.end <= pos
  {
    if pos > 0 {
      var t :| t in sections && t.end == pos;
      var n :| 0 <= n < |sections| && sections[n] == t;
      SectionsApart(text, sections, n, s);
    }
  }

  lemma {:induction false} GroupingCuts(text: string, sections: seq<ParsedSection>, ranges: seq<Range>, lo: nat,
                                        max: nat)
    requires Grouping(text, sections, ranges, lo, max) && IsBoundary(sections, lo)
    ensures forall r :: r in ranges ==> IsBoundary(sections, r.start) && IsBoundary(sections, r.end) && r.start < r.end
  {
    if ranges != [] {
      assert ranges[0] in ranges;
      GroupingCuts(text, sections, ranges[1..], ranges[0].end, max);
      assert ranges == [ranges[0]] + ranges[1..];
    }
  }

  lemma SectionAt(text: string, sections: seq<ParsedSection>, pos: nat, n: nat) returns (s: ParsedSection)
    requires Sectioned(text, sections) && 0 < pos <= |text| && n < |sections| && sections[n].start < pos
    ensures s in sections && s.start < pos <= s.end
    decreases |sections| - n
  {
    s := sections[n];
    if s.end < pos {
      assert n + 1 < |sections| && sections[n].end == sections[n + 1].start;
      s := SectionAt(text, sections, pos, n + 1);
    }
  }

  /** Then the divisions of the text are exactly the groupings of its sections. */
  lemma DividesIsGrouping(text: string, sections: seq<ParsedSection>, ranges: seq<Range>, max: nat)
    requires Sectioned(text, sections) && NoneOversized(text, sections, max)
    ensures Divides(text, sections, ranges, 0, max) <==> Grouping(text, sections, ranges, 0, max)
  {
    if Grouping(text, sections, ranges, 0, max) {
      GroupingCuts(text, sections, ranges, 0, max);
      forall r, s | r in ranges && s in sections
        ensures Respects(text, s, r, max)
      {
        BoundaryOutside(text, sections, r.start, s);
        BoundaryOutside(text, sections, r.end, s);
      }
    }
    if Divides(text, sections, ranges, 0, max) {
      TilesInside(text, ranges, 0, |text|);
      hide Tiles;
      forall r | r in ranges
        ensures exists s :: s in sections && s.end == r.end
      {
        var s := SectionAt(text, sections, r.end, 0);
        assert Respects(text, s, r, max);
      }
    }
  }

  /** Chunks tile the text, respect the bound, conserve text and tokens, and are as few as those of
      any division that groups ordinary sections whole and cuts oversized ones on their own; in
      particular, when no section alone exceeds the bound, of any grouping of whole sections. */
  method ChunkDocument(document: ParsedDocument, max: nat) returns (chunks: seq<Chunk>)
    requires max > 0 && Sectioned(document.normalized, document.sections)
    ensures Tiles(document.normalized, ChunkRanges(chunks), 0, |document.normalized|)
    ensures forall k :: 0 <= k < |chunks| ==>
      chunks[k].ordinal == k && chunks[k].tokenCount <= max && Faithful(document, chunks[k])
    ensures ChunkText(chunks) == document.normalized
    ensures ChunkTokens(chunks) == Count(document.normalized, 0, |document.normalized|)
    ensures Divides(document.normalized, document.sections, ChunkRanges(chunks), 0, max)
    ensures forall other :: Divides(document.normalized, document.sections, other, 0, max) ==> |chunks| <= |other|
    ensures NoneOversized(document.normalized, document.sections, max) ==>
      && Grouping(document.normalized, document.sections, ChunkRanges(chunks), 0, max)
      && forall other :: Grouping(document.normalized, document.sections, other, 0, max) ==> |chunks| <= |other|
  {
    hide Sectioned, Split, IsSeam, Count, Stuck, NoneOversized, Whole;
    var text := document.normalized;
    var ranges := MergeSections(document, max);
    TilesInside(text, ranges, 0, |text|);
    chunks := seq(|ranges|, k requires 0 <= k < |ranges| && ranges[k] in ranges => BuildChunk(document, k, ranges[k]));
    assert ChunkRanges(chunks) == ranges;
    forall k | 0 <= k < |chunks|
      ensures Faithful(document, chunks[k]) && chunks[k].tokenCount <= max
    {
      assert ranges[k] in ranges;
      BuildChunkIsFaithful(document, k, ranges[k]);
    }
    ChunksConserve(text, chunks, 0, |text|);
    forall other | Divides(text, document.sections, other, 0, max)
      ensures |chunks| <= |other|
    {
      StuckIsFewest(text, document.sections, max, ranges, 0, other, 0);
    }
    if NoneOversized(text, document.sections, max) {
      forall other
        ensures Divides(text, document.sections, other, 0, max) <==> Grouping(text, document.sections, other, 0, max)
      {
        DividesIsGrouping(text, document.sections, other, max);
      }
    }
  }
}
