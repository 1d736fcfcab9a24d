/** The browser's incremental reader of newline-delimited events (web/lib/ask.ts), generic in
    the type of events. */
module AskReader {
  import opened Wrappers

  datatype Failure = InvalidEvent | EventAfterTerminal | SizeLimit | IncompleteEvent | MissingTerminal

  /** The events yielded, then how the stream ended. */
  datatype Reading<E> = Reading(events: seq<E>, failure: Option<Failure>)

  /** `parseAskLine`, and which events end a stream. */
  datatype Codec<!E> = Codec(parse: string -> Option<E>, isFinal: E -> bool)

  const LIMIT: nat := 1_000_000

  /** `String.length` counts UTF-16 code units. */
  function Utf16Length(s: string): nat {
    if s == "" then 0 else (if s[0] as int >= 0x10000 then 2 else 1) + Utf16Length(s[1..])
  }

  /** What `String.prototype.trim` removes. */
  predicate IsTrimmed(c: char) {
    var n := c as int;
    || 0x09 <= n <= 0x0d || n == 0x20 || n == 0xa0 || n == 0x1680 || 0x2000 <= n <= 0x200a
    || n == 0x2028 || n == 0x2029 || n == 0x202f || n == 0x205f || n == 0x3000 || n == 0xfeff
  }

  function TrimStart(s: string): string {
    if s != "" && IsTrimmed(s[0]) then TrimStart(s[1..]) else s
  }

  function TrimEnd(s: string): string {
    if s != "" && IsTrimmed(s[|s| - 1]) then TrimEnd(s[..|s| - 1]) else s
  }

  function Trim(s: string): string {
    TrimEnd(TrimStart(s))
  }

  /** Trimming takes what can be trimmed from both ends, and nothing else. */
  lemma TrimMeans(s: string)
    ensures exists i, j :: 0 <= i <= j <= |s| && IsTrimmedTo(s, i, j)
  {
    var i := TrimStartMeans(s);
    var rest := TrimStart(s);
    var j := TrimEndMeans(rest);
    assert forall k :: i + j <= k < |s| ==> s[k] == rest[k - i];
    assert IsTrimmedTo(s, i, i + j);
  }

  ghost predicate IsTrimmedTo(s: string, i: int, j: int)
    requires 0 <= i <= j <= |s|
  {
    && Trim(s) == s[i..j] && (forall k :: 0 <= k < i ==> IsTrimmed(s[k]))
      && (forall k :: j <= k < |s| ==> IsTrimmed(s[k]))
    && (i < j ==> !IsTrimmed(s[i]) && !IsTrimmed(s[j - 1]))
  }

  lemma {:induction false} TrimStartMeans(s: string) returns (n: nat)
    ensures n <= |s| && TrimStart(s) == s[n..] && (forall k :: 0 <= k < n ==> IsTrimmed(s[k]))
    ensures n < |s| ==> !IsTrimmed(s[n])
  {
    n := 0;
    if s != "" && IsTrimmed(s[0]) {
      n := TrimStartMeans(s[1..]);
      n := n + 1;
    }
  }

  lemma {:induction false} TrimEndMeans(s: string) returns (n: nat)
    ensures n <= |s| && TrimEnd(s) == s[..n] && (forall k :: n <= k < |s| ==> IsTrimmed(s[k]))
    ensures n > 0 ==> !IsTrimmed(s[n - 1])
  {
    n := |s|;
    if s != "" && IsTrimmed(s[|s| - 1]) {
      n := TrimEndMeans(s[..|s| - 1]);
    }
  }

  /** The length in UTF-16 code units: two for a character beyond the basic plane, and lengths add up. */
  lemma {:induction false} Utf16LengthAdds(a: string, b: string)
    ensures Utf16Length(a + b) == Utf16Length(a) + Utf16Length(b)
    ensures forall c: char :: Utf16Length([c]) == if c as int < 0x10000 then 1 else 2
  {
    if a == "" {
      assert a + b == b;
    } else {
      Utf16LengthAdds(a[1..], b);
      assert (a + b)[1..] == a[1..] + b;
    }
    assert forall c: char :: [c][1..] == "";
  }

  /** `indexOf("\n")`, with the length of the text standing for -1. */
  function IndexOfNewline(s: string): (i: nat)
    ensures i <= |s| && '\n' !in s[..i] && (i < |s| ==> s[i] == '\n')
  {
    if s == "" then 0 else if s[0] == '\n' then 0 else IndexOfNewline(s[1..]) + 1
  }

  // ----- consuming the complete lines of a buffer

  /** What is left after the complete lines: the rest of the buffer, whether a final event was
      seen, the events, and the failure that stopped it, if any. */
  datatype Drained<E> = Drained(rest: string, terminal: bool, events: seq<E>, failure: Option<Failure>)

  function Drain<E>(codec: Codec<E>, buffer: string, terminal: bool): Drained<E>
    decreases |buffer|
  {
    var newline := IndexOfNewline(buffer);
    if newline == |buffer| then Drained(buffer, terminal, [], None)
    else
      var line := Trim(buffer[..newline]);
      var rest := buffer[newline + 1..];
      if line == "" then Drain(codec, rest, terminal)
      else
        var event := codec.parse(line);
        if event == None then Drained(rest, terminal, [], Some(InvalidEvent))
        else if terminal then Drained(rest, terminal, [], Some(EventAfterTerminal))
        else
          var more := Drain(codec, rest, codec.isFinal(event.value));
          more.(events := [event.value] + more.events)
  }

  /** The checks after the last read. */
  function Conclude<E>(d: Drained<E>): Reading<E> {
    Reading(d.events,
            if d.failure.Some? then d.failure
            else if Trim(d.rest) != "" then Some(IncompleteEvent)
            else if !d.terminal then Some(MissingTerminal)
            else None)
  }

  /** Reading the whole text at once. */
  function ReadWhole<E>(codec: Codec<E>, text: string): Reading<E> {
    Conclude(Drain(codec, text, false))
  }

  function Concat(parts: seq<string>): string {
    if parts == [] then "" else Concat(parts[..|parts| - 1]) + parts[|parts| - 1]
  }

  /** Reading chunk after chunk; the size of what is unfinished is checked after each. */
  function AfterChunks<E>(codec: Codec<E>, chunks: seq<string>): Drained<E> {
    if chunks == [] then Drained("", false, [], None)
    else
      var before := AfterChunks(codec, chunks[..|chunks| - 1]);
      if before.failure.Some? then before
      else
        var now := Drain(codec, before.rest + chunks[|chunks| - 1], before.terminal);
        now.(events := before.events + now.events,
             failure := if now.failure == None && Utf16Length(now.rest) > LIMIT then Some(SizeLimit) else now.failure)
  }

  /** The whole stream: the chunks read, and what the decoder still held when it was done. */
  function ReadChunks<E>(codec: Codec<E>, chunks: seq<string>, tail: string): Reading<E> {
    var before := AfterChunks(codec, chunks);
    if before.failure.Some? then Reading(before.events, before.failure)
    else
      var now := Drain(codec, before.rest + tail, before.terminal);
      Conclude(now.(events := before.events + now.events))
  }

  lemma DrainRest<E>(codec: Codec<E>, buffer: string, terminal: bool)
    requires IndexOfNewline(buffer) == |buffer|
    ensures Drain(codec, buffer, terminal) == Drained(buffer, terminal, [], None)
  {
  }

  /** The inner loop of `readAskStream`. */
  method DrainBuffer<E(==)>(codec: Codec<E>, start: string, wasTerminal: bool) returns (d: Drained<E>)
    ensures d == Drain(codec, start, wasTerminal)
  {
    hide Drain, Trim, IndexOfNewline;
    var buffer, terminal, events := start, wasTerminal, [];
    var newline := IndexOfNewline(buffer);
    while newline < |buffer|
      invariant newline == IndexOfNewline(buffer)
      invariant var more := Drain(codec, buffer, terminal);
        Drain(codec, start, wasTerminal) == more.(events := events + more.events)
      decreases |buffer|
    {
      DrainLine(codec, buffer, terminal);
      var line := Trim(buffer[..newline]);
      buffer := buffer[newline + 1..];
      if line != "" {
        var event := codec.parse(line);
        if event == None {
          assert events + [] == events;
          return Drained(buffer, terminal, events, Some(InvalidEvent));
        }
        if terminal {
          assert events + [] == events;
          return Drained(buffer, terminal, events, Some(EventAfterTerminal));
        }
        terminal := codec.isFinal(event.value);
        ghost var more := Drain(codec, buffer, terminal);
        assert events + ([event.value] + more.events) == events + [event.value] + more.events;
        events := events + [event.value];
      }
      newline := IndexOfNewline(buffer);
    }
    DrainRest(codec, buffer, terminal);
    assert events + [] == events;
    d := Drained(buffer, terminal, events, None);
  }

  lemma NoChunks<E>(codec: Codec<E>)
    ensures AfterChunks(codec, []) == Drained("", false, [], None)
  {
  }

  lemma OneChunk<E>(codec: Codec<E>, chunks: seq<string>, i: nat)
    requires i < |chunks| && AfterChunks(codec, chunks[..i]).failure == None
    ensures var before := AfterChunks(codec, chunks[..i]);
      var now := Drain(codec, before.rest + chunks[i], before.terminal);
      AfterChunks(codec, chunks[..i + 1]) ==
        now.(events := before.events + now.events,
             failure := if now.failure == None && Utf16Length(now.rest) > LIMIT then Some(SizeLimit) else now.failure)
  {
    assert chunks[..i + 1][..i] == chunks[..i];
  }

  method ReadAskStream<E(==)>(codec: Codec<E>, chunks: seq<string>, tail: string) returns (r: Reading<E>)
    ensures r == ReadChunks(codec, chunks, tail)
  {
    hide Drain, Trim, Utf16Length, AfterChunks;
    var buffer, terminal := "", false;
    var yielded: seq<E> := [];
    NoChunks(codec);
    for i := 0 to |chunks|
      invariant AfterChunks(codec, chunks[..i]) == Drained(buffer, terminal, yielded, None)
      invariant forall j :: 0 <= j <= i ==> AfterChunks(codec, chunks[..j]).failure == None
    {
      OneChunk(codec, chunks, i);
      var d := DrainBuffer(codec, buffer + chunks[i], terminal);
      yielded := yielded + d.events;
      if d.failure.Some? {
        FailureStays(codec, chunks, i + 1);
        return Reading(yielded, d.failure);
      }
      buffer, terminal := d.rest, d.terminal;
      if Utf16Length(buffer) > LIMIT {
        FailureStays(codec, chunks, i + 1);
        return Reading(yielded, Some(SizeLimit));
      }
    }
    assert chunks[..|chunks|] == chunks;
    var d := DrainBuffer(codec, buffer + tail, terminal);
    yielded := yielded + d.events;
    if d.failure.Some? {
      return Reading(yielded, d.failure);
    }
    if Trim(d.rest) != "" {
      return Reading(yielded, Some(IncompleteEvent));
    }
    if !d.terminal {
      return Reading(yielded, Some(MissingTerminal));
    }
    r := Reading(yielded, None);
  }

  lemma {:induction false} FailureStays<E>(codec: Codec<E>, chunks: seq<string>, n: nat)
    requires n <= |chunks| && AfterChunks(codec, chunks[..n]).failure.Some?
    ensures AfterChunks(codec, chunks) == AfterChunks(codec, chunks[..n])
    decreases |chunks|
  {
    if n < |chunks| {
      assert chunks[..|chunks| - 1][..n] == chunks[..n];
      FailureStays(codec, chunks[..|chunks| - 1], n);
    } else {
      assert chunks[..n] == chunks;
    }
  }

  // ----- chunk boundaries do not matter

  lemma {:induction false} NewlineInConcat(a: string, b: string)
    ensures IndexOfNewline(a) < |a| ==> IndexOfNewline(a + b) == IndexOfNewline(a)
    ensures IndexOfNewline(a) == |a| ==> IndexOfNewline(a + b) == |a| + IndexOfNewline(b)
  {
    if a == "" {
      assert a + b == b;
    } else if a[0] != '\n' {
      assert (a + b)[1..] == a[1..] + b;
      NewlineInConcat(a[1..], b);
    }
  }

  /** One line of a drain. */
  lemma DrainLine<E>(codec: Codec<E>, buffer: string, terminal: bool)
    requires IndexOfNewline(buffer) < |buffer|
    ensures var line, rest := Trim(buffer[..IndexOfNewline(buffer)]), buffer[IndexOfNewline(buffer) + 1..];
      var d := Drain(codec, buffer, terminal);
      if line == "" then d == Drain(codec, rest, terminal)
      else if codec.parse(line) == None then d == Drained(rest, terminal, [], Some(InvalidEvent))
      else if terminal then d == Drained(rest, terminal, [], Some(EventAfterTerminal))
      else
        var more := Drain(codec, rest, codec.isFinal(codec.parse(line).value));
        d == more.(events := [codec.parse(line).value] + more.events)
  {
  }

  /** `whole` is `first` and then, unless that failed, what `second` adds. */
  ghost predicate Continues<E>(first: Drained<E>, second: Drained<E>, whole: Drained<E>) {
    if first.failure.Some? then whole.events == first.events && whole.failure == first.failure
    else
      && whole.events == first.events + second.events && whole.failure == second.failure
      && whole.rest == second.rest && whole.terminal == second.terminal
  }

  lemma ContinuesAfter<E>(event: E, first: Drained<E>, second: Drained<E>, whole: Drained<E>)
    requires Continues(first, second, whole)
    ensures Continues(first.(events := [event] + first.events), second, whole.(events := [event] + whole.events))
  {
  }

  lemma FailureContinues<E>(first: Drained<E>, second: Drained<E>, whole: Drained<E>)
    requires first.failure.Some? && whole.events == first.events && whole.failure == first.failure
    ensures Continues(first, second, whole)
  {
  }

  lemma NothingComplete<E>(codec: Codec<E>, a: string, b: string, terminal: bool)
    requires IndexOfNewline(a) == |a|
    ensures var first := Drain(codec, a, terminal);
      Continues(first, Drain(codec, first.rest + b, first.terminal), Drain(codec, a + b, terminal))
  {
  }

  /** Draining `b` continues draining `a`. */
  ghost predicate Composes<E>(codec: Codec<E>, a: string, b: string, terminal: bool) {
    var first := Drain(codec, a, terminal);
    Continues(first, Drain(codec, first.rest + b, first.terminal), Drain(codec, a + b, terminal))
  }

  lemma FirstLineInConcat(a: string, b: string)
    requires IndexOfNewline(a) < |a|
    ensures var newline := IndexOfNewline(a);
      && IndexOfNewline(a + b) == newline < |a + b|
      && (a + b)[..newline] == a[..newline] && (a + b)[newline + 1..] == a[newline + 1..] + b
  {
    hide IndexOfNewline;
    NewlineInConcat(a, b);
    CutInConcat(a, b, IndexOfNewline(a));
  }

  lemma CutInConcat(a: string, b: string, i: nat)
    requires i < |a|
    ensures (a + b)[..i] == a[..i] && (a + b)[i + 1..] == a[i + 1..] + b
  {
  }

  /** After a blank line. */
  lemma BlankLineComposes<E>(codec: Codec<E>, a: string, b: string, terminal: bool)
    requires IndexOfNewline(a) < |a| && Trim(a[..IndexOfNewline(a)]) == ""
    requires Composes(codec, a[IndexOfNewline(a) + 1..], b, terminal)
    ensures Composes(codec, a, b, terminal)
  {
    hide Drain, Trim, IndexOfNewline, Continues;
    FirstLineInConcat(a, b);
    DrainLine(codec, a, terminal);
    DrainLine(codec, a + b, terminal);
  }

  /** After a line that is an event. */
  lemma EventLineComposes<E>(codec: Codec<E>, a: string, b: string)
    requires IndexOfNewline(a) < |a|
    requires var line := Trim(a[..IndexOfNewline(a)]);
      && line != "" && codec.parse(line).Some?
      && Composes(codec, a[IndexOfNewline(a) + 1..], b, codec.isFinal(codec.parse(line).value))
    ensures Composes(codec, a, b, false)
  {
    hide Drain, Trim, IndexOfNewline, Continues;
    FirstLineInConcat(a, b);
    DrainLine(codec, a, false);
    DrainLine(codec, a + b, false);
    var event, rest := codec.parse(Trim(a[..IndexOfNewline(a)])).value, a[IndexOfNewline(a) + 1..];
    var first := Drain(codec, rest, codec.isFinal(event));
    ContinuesAfter(event, first, Drain(codec, first.rest + b, first.terminal),
      Drain(codec, rest + b, codec.isFinal(event)));
  }

  /** A line that is not an event, or comes after a final one, ends the stream. */
  lemma BadLineComposes<E>(codec: Codec<E>, a: string, b: string, terminal: bool)
    requires IndexOfNewline(a) < |a|
    requires var line := Trim(a[..IndexOfNewline(a)]);
      line != "" && (codec.parse(line) == None || terminal)
    ensures Composes(codec, a, b, terminal)
  {
    hide Drain, Trim, IndexOfNewline, Continues;
    FirstLineInConcat(a, b);
    DrainLine(codec, a, terminal);
    DrainLine(codec, a + b, terminal);
    var first := Drain(codec, a, terminal);
    FailureContinues(first, Drain(codec, first.rest + b, first.terminal), Drain(codec, a + b, terminal));
  }

  /** Draining `a + b` is draining `a`, then what it left followed by `b`. */
  lemma {:induction false} DrainConcat<E>(codec: Codec<E>, a: string, b: string, terminal: bool)
    ensures var first := Drain(codec, a, terminal);
      Continues(first, Drain(codec, first.rest + b, first.terminal), Drain(codec, a + b, terminal))
    decreases |a|
  {
    var newline := IndexOfNewline(a);
    assert Composes(codec, a, b, terminal) by {
      hide Drain, Trim, IndexOfNewline, Continues;
      if newline == |a| {
        NothingComplete(codec, a, b, terminal);
      } else {
        var line, rest := Trim(a[..newline]), a[newline + 1..];
        if line == "" {
          DrainConcat(codec, rest, b, terminal);
          BlankLineComposes(codec, a, b, terminal);
        } else if codec.parse(line).Some? && !terminal {
          DrainConcat(codec, rest, b, codec.isFinal(codec.parse(line).value));
          EventLineComposes(codec, a, b);
        } else {
          BadLineComposes(codec, a, b, terminal);
        }
      }
    }
    hide Drain, Continues;
  }

  /** What follows the last newline. */
  function Unfinished(text: string): string
    decreases |text|
  {
    var newline := IndexOfNewline(text);
    if newline == |text| then text else Unfinished(text[newline + 1..])
  }

  lemma {:induction false} DrainLeavesUnfinished<E>(codec: Codec<E>, text: string, terminal: bool)
    ensures Drain(codec, text, terminal).failure == None ==> Drain(codec, text, terminal).rest == Unfinished(text)
    ensures Drain(codec, text, terminal).failure in {None, Some(InvalidEvent), Some(EventAfterTerminal)}
    decreases |text|
  {
    var newline := IndexOfNewline(text);
    if newline < |text| {
      DrainLine(codec, text, terminal);
      assert Unfinished(text) == Unfinished(text[newline + 1..]);
      hide Drain, IndexOfNewline, Trim, Unfinished;
      var line := Trim(text[..newline]);
      DrainLeavesUnfinished(codec, text[newline + 1..], terminal);
      if codec.parse(line).Some? {
        DrainLeavesUnfinished(codec, text[newline + 1..], codec.isFinal(codec.parse(line).value));
      }
    }
  }

  /** After `k` chunks, all of whose complete lines were fine, too much is unfinished. */
  ghost predicate Oversized<E>(codec: Codec<E>, chunks: seq<string>, k: nat)
    requires k <= |chunks|
  {
    var text := Concat(chunks[..k]);
    Drain(codec, text, false).failure == None && Utf16Length(Unfinished(text)) > LIMIT
  }

  ghost predicate EverOversized<E>(codec: Codec<E>, chunks: seq<string>) {
    exists k :: 0 < k <= |chunks| && Oversized(codec, chunks, k)
  }

  /** Chunk by chunk the reader gets where reading the concatenation gets, or stops for size. */
  lemma {:induction false} AfterChunksIsDrain<E>(codec: Codec<E>, chunks: seq<string>)
    ensures var after, whole := AfterChunks(codec, chunks), Drain(codec, Concat(chunks), false);
      if EverOversized(codec, chunks) then after.failure == Some(SizeLimit)
      else
        && after.events == whole.events && after.failure == whole.failure
        && (whole.failure == None ==> after.rest == whole.rest && after.terminal == whole.terminal)
  {
    if chunks == [] {
      assert Drain(codec, "", false) == Drained("", false, [], None);
    } else {
      var n := |chunks| - 1;
      var before, last := chunks[..n], chunks[n];
      AfterChunksIsDrain(codec, before);
      DrainConcat(codec, Concat(before), last, false);
      DrainLeavesUnfinished(codec, Concat(chunks), false);
      OversizedPrefix(codec, chunks);
    }
  }

  lemma OversizedPrefix<E>(codec: Codec<E>, chunks: seq<string>)
    requires chunks != []
    ensures EverOversized(codec, chunks) <==>
        EverOversized(codec, chunks[..|chunks| - 1]) || Oversized(codec, chunks, |chunks|)
    ensures chunks[..|chunks|] == chunks
  {
    var before := chunks[..|chunks| - 1];
    forall k | 0 < k <= |before|
      ensures Oversized(codec, before, k) <==> Oversized(codec, chunks, k)
    {
      assert before[..k] == chunks[..k];
    }
  }

  /** Events and verdict depend only on the text, not on how it was cut into chunks, if and only
      if no chunk ends with more than the limit unfinished. */
  lemma ChunksDoNotMatter<E>(codec: Codec<E>, chunks: seq<string>, tail: string)
    ensures ReadChunks(codec, chunks, tail) == ReadWhole(codec, Concat(chunks) + tail) <==>
        !EverOversized(codec, chunks)
  {
    AfterChunksIsDrain(codec, chunks);
    DrainConcat(codec, Concat(chunks), tail, false);
    DrainLeavesUnfinished(codec, Concat(chunks) + tail, false);
  }

  /** A line longer than the limit, one event whatever it says. */
  const LONG: string := seq(LIMIT + 1, _ => 'x')

  const ANYTHING: Codec<int> := Codec(_ => Some(0), _ => true)

  /** The condition is needed: a long line that comes in one piece is read, and refused when the
      newline comes in the next. */
  lemma LongLineDependsOnChunks()
    ensures ReadChunks(ANYTHING, [LONG + "\n"], "") == Reading([0], None)
    ensures ReadChunks(ANYTHING, [LONG], "\n") == Reading([], Some(SizeLimit))
  {
    var line := LONG + "\n";
    LengthAtLeast(LONG);
    LongDrains();
    assert "" + line == line && "" + LONG == LONG && "" + "" == "";
    hide Drain, IndexOfNewline, Trim;
    NoChunks(ANYTHING);
    OneChunk(ANYTHING, [line], 0);
    OneChunk(ANYTHING, [LONG], 0);
    assert [line][..1] == [line] && [LONG][..1] == [LONG];
    assert Trim("") == "" by {
      NothingToTrim();
    }
  }

  lemma LongDrains()
    ensures Drain(ANYTHING, LONG, false) == Drained(LONG, false, [], None)
    ensures Drain(ANYTHING, LONG + "\n", false) == Drained("", true, [0], None)
  {
    var line := LONG + "\n";
    NewlineInConcat(LONG, "\n");
    NoNewline(LONG);
    assert Trim(LONG) == LONG;
    assert line[..|LONG|] == LONG && line[|LONG| + 1..] == "";
    DrainLine(ANYTHING, line, false);
    DrainRest(ANYTHING, "", true);
    DrainRest(ANYTHING, LONG, false);
  }

  lemma NothingToTrim()
    ensures Trim("") == ""
  {
  }

  lemma {:induction false} LengthAtLeast(s: string)
    ensures Utf16Length(s) >= |s|
  {
    if s != "" {
      LengthAtLeast(s[1..]);
    }
  }

  lemma {:induction false} NoNewline(s: string)
    requires '\n' !in s
    ensures IndexOfNewline(s) == |s|
  {
  }

  // ----- what was printed is what is read

  /** The printed form of an event: one line, not blank, not changed by trimming, read back. */
  ghost predicate Prints<E>(codec: Codec<E>, print_: E -> string, e: E) {
    && '\n' !in print_(e)
    && Trim(print_(e)) == print_(e) != ""
    && codec.parse(print_(e)) == Some(e)
  }

  function Printed<E>(print_: E -> string, events: seq<E>): string {
    if events == [] then "" else print_(events[0]) + "\n" + Printed(print_, events[1..])
  }

  /** The events up to the first final one. */
  function ThroughFinal<E>(codec: Codec<E>, events: seq<E>): seq<E> {
    if events == [] then []
    else if codec.isFinal(events[0]) then [events[0]]
    else [events[0]] + ThroughFinal(codec, events[1..])
  }

  ghost predicate EndsWithOnlyFinal<E>(codec: Codec<E>, events: seq<E>) {
    && events != [] && codec.isFinal(events[|events| - 1])
    && forall i :: 0 <= i < |events| - 1 ==> !codec.isFinal(events[i])
  }

  lemma NewlineAfterLine(line: string, rest: string)
    requires '\n' !in line
    ensures IndexOfNewline(line + "\n" + rest) == |line|
  {
    NewlineInConcat(line, "\n" + rest);
    assert line + "\n" + rest == line + ("\n" + rest);
    assert forall k :: 0 <= k < |line| ==> line[k] != '\n';
  }

  /** The first printed event. */
  lemma DrainFirst<E>(codec: Codec<E>, print_: E -> string, events: seq<E>, terminal: bool)
    requires events != [] && Prints(codec, print_, events[0])
    ensures var d := Drain(codec, Printed(print_, events), terminal);
      var rest := Printed(print_, events[1..]);
      var more := Drain(codec, rest, codec.isFinal(events[0]));
      d == if terminal then Drained(rest, terminal, [], Some(EventAfterTerminal))
           else more.(events := [events[0]] + more.events)
  {
    hide Drain, Trim, IndexOfNewline;
    var e, text, rest := events[0], Printed(print_, events), Printed(print_, events[1..]);
    NewlineAfterLine(print_(e), rest);
    assert text[..|print_(e)|] == print_(e) && text[|print_(e)| + 1..] == rest;
    DrainLine(codec, text, terminal);
  }

  lemma OnlyFinalTail<E>(codec: Codec<E>, events: seq<E>)
    requires events != []
    ensures EndsWithOnlyFinal(codec, events) <==>
      if |events| == 1 then codec.isFinal(events[0])
      else !codec.isFinal(events[0]) && EndsWithOnlyFinal(codec, events[1..])
  {
    if |events| > 1 && EndsWithOnlyFinal(codec, events[1..]) && !codec.isFinal(events[0]) {
      forall i | 0 <= i < |events| - 1
        ensures !codec.isFinal(events[i])
      {
        assert i > 0 ==> events[i] == events[1..][i - 1];
      }
    }
  }

  lemma {:induction false} DrainPrinted<E>(codec: Codec<E>, print_: E -> string, events: seq<E>)
    requires forall e :: e in events ==> Prints(codec, print_, e)
    ensures var d := Drain(codec, Printed(print_, events), false);
      && d.events == ThroughFinal(codec, events)
      && (d.failure == None ==> d.rest == "")
      && (d.failure == None && d.terminal <==> EndsWithOnlyFinal(codec, events))
      && (d.failure != None ==> d.failure == Some(EventAfterTerminal))
    ensures events != [] ==> Drain(codec, Printed(print_, events), true).failure == Some(EventAfterTerminal)
                             && Drain(codec, Printed(print_, events), true).events == []
  {
    DrainRest(codec, "", false);
    DrainRest(codec, "", true);
    if events != [] {
      assert events[0] in events;
      hide Drain, Trim, IndexOfNewline, EndsWithOnlyFinal, Prints;
      DrainFirst(codec, print_, events, false);
      DrainFirst(codec, print_, events, true);
      OnlyFinalTail(codec, events);
      DrainPrinted(codec, print_, events[1..]);
    } else {
      hide Drain, Trim, IndexOfNewline;
    }
  }

  /** However the printed events are cut into chunks, as long as none ends with more than the
      limit unfinished: the reader yields exactly the printed events and accepts, if and only
      if the last event is final and no other is. */
  lemma FramingRoundTrip<E>(codec: Codec<E>, print_: E -> string, events: seq<E>, chunks: seq<string>, tail: string)
    requires forall e :: e in events ==> Prints(codec, print_, e)
    requires Concat(chunks) + tail == Printed(print_, events) && !EverOversized(codec, chunks)
    ensures ReadChunks(codec, chunks, tail).events == ThroughFinal(codec, events)
    ensures ReadChunks(codec, chunks, tail) == Reading(events, None) <==> EndsWithOnlyFinal(codec, events)
  {
    ChunksDoNotMatter(codec, chunks, tail);
    DrainPrinted(codec, print_, events);
    if EndsWithOnlyFinal(codec, events) {
      ThroughOnlyFinal(codec, events);
    }
  }

  lemma {:induction false} ThroughOnlyFinal<E>(codec: Codec<E>, events: seq<E>)
    requires EndsWithOnlyFinal(codec, events)
    ensures ThroughFinal(codec, events) == events
  {
    if |events| > 1 {
      ThroughOnlyFinal(codec, events[1..]);
    }
  }

  // ----- a text that is cut off

  /** How many of the printed events are there to the end of their line within the first `cut`
      characters. */
  function LinesWithin<E>(print_: E -> string, events: seq<E>, cut: nat): (m: nat)
    ensures m <= |events|
  {
    if events == [] || cut <= |print_(events[0])| then 0
    else 1 + LinesWithin(print_, events[1..], cut - |print_(events[0])| - 1)
  }

  /** The first `cut` characters are whole lines and then a part of one. */
  ghost predicate IsCut<E>(print_: E -> string, events: seq<E>, cut: nat, m: nat)
    requires m <= |events| && cut <= |Printed(print_, events)|
  {
    var text, lines := Printed(print_, events), Printed(print_, events[..m]);
    && |lines| <= cut && text[..cut] == lines + text[|lines|..cut]
    && (if m < |events| then text[|lines|..cut] <= print_(events[m]) else |lines| == cut)
  }

  lemma {:induction false} CutText<E>(print_: E -> string, events: seq<E>, cut: nat)
    requires cut <= |Printed(print_, events)|
    ensures IsCut(print_, events, cut, LinesWithin(print_, events, cut))
  {
    assert events[..0] == [];
    if events != [] {
      var line := print_(events[0]);
      if cut <= |line| {
        CutFirst(print_, events, cut);
      } else {
        assert |Printed(print_, events)| == |line| + 1 + |Printed(print_, events[1..])|;
        var less := cut - |line| - 1;
        CutText(print_, events[1..], less);
        hide IsCut;
        CutFurther(print_, events, less, LinesWithin(print_, events[1..], less));
      }
    }
  }

  lemma CutFirst<E>(print_: E -> string, events: seq<E>, cut: nat)
    requires events != [] && cut <= |print_(events[0])|
    ensures cut <= |Printed(print_, events)| && IsCut(print_, events, cut, 0)
  {
    assert events[..0] == [];
    assert Printed(print_, events)[0..cut] == print_(events[0])[..cut];
  }

  /** A cut of the remaining events, behind the first one. */
  lemma CutFurther<E>(print_: E -> string, events: seq<E>, less: nat, m: nat)
    requires events != [] && m <= |events[1..]| && less <= |Printed(print_, events[1..])|
    requires IsCut(print_, events[1..], less, m)
    ensures less + |print_(events[0])| + 1 <= |Printed(print_, events)|
    ensures IsCut(print_, events, less + |print_(events[0])| + 1, m + 1)
  {
    hide Printed;
    PrintedFurther(print_, events, m);
    var line, rest := print_(events[0]) + "\n", Printed(print_, events[1..]);
    SliceFurther(line, Printed(print_, events[1..][..m]), rest, less);
  }

  lemma PrintedFurther<E>(print_: E -> string, events: seq<E>, m: nat)
    requires m < |events|
    ensures Printed(print_, events) == print_(events[0]) + "\n" + Printed(print_, events[1..])
    ensures Printed(print_, events[..m + 1]) == print_(events[0]) + "\n" + Printed(print_, events[1..][..m])
  {
    assert events[..m + 1][1..] == events[1..][..m];
  }

  lemma SliceFurther(line: string, lines: string, rest: string, less: nat)
    requires |lines| <= less <= |rest| && rest[..less] == lines + rest[|lines|..less]
    ensures (line + rest)[|line + lines|..|line| + less] == rest[|lines|..less]
    ensures (line + rest)[..|line| + less] == (line + lines) + rest[|lines|..less]
  {
    assert (line + rest)[..|line| + less] == line + rest[..less];
  }

  lemma {:induction false} TrimsShorten(s: string)
    ensures |TrimStart(s)| <= |s| && |TrimEnd(s)| <= |s|
    ensures s != "" && !IsTrimmed(s[0]) ==> TrimEnd(s) != ""
  {
    if s != "" {
      TrimsShorten(s[1..]);
      TrimsShorten(s[..|s| - 1]);
    }
  }

  /** A part of a printed line has no newline and is not blank. */
  lemma PartOfLine<E>(codec: Codec<E>, print_: E -> string, e: E, part: string)
    requires Prints(codec, print_, e) && part <= print_(e)
    ensures IndexOfNewline(part) == |part|
    ensures part != "" ==> Trim(part) != ""
  {
    var line := print_(e);
    assert '\n' !in part;
    if part != "" {
      TrimsShorten(line[1..]);
      TrimsShorten(TrimStart(line));
      assert !IsTrimmed(line[0]);
      TrimsShorten(part);
    }
  }
}
