/** The incremental server-sent-events scanner of internal/app/first_token.go: a subset of section 9.2.6 of the
    WHATWG HTML Living Standard, stopped at the first event that carries generated content. */
module FirstToken {
  import opened Wrappers

  type Bytes = string

  const LIMIT: nat := 0x100000

  /** Whether an event's data is a generated delta; a parameter of the whole scan. */
  type Delta = Bytes -> bool

  // ---------- The scanner, byte by byte ----------

  datatype Scan = Scan(line: Bytes, data: Bytes, dropping: bool, lineNonEmpty: bool, found: bool)

  const FRESH := Scan("", "", false, false, false)

  function TrimReturn(line: Bytes): Bytes {
    if line != "" && line[|line|-1] == '\r' then line[..|line|-1] else line
  }

  /** The value of a data field, without the one optional space. */
  function FieldValue(line: Bytes): Bytes
    requires "data:" <= line
  {
    if |line| > 5 && line[5] == ' ' then line[6..] else line[5..]
  }

  function Append(data: Bytes, line: Bytes): Bytes {
    var field := TrimReturn(line);
    if "data:" <= field then (if data != "" then data + "\n" else "") + FieldValue(field) else data
  }

  function ByteStep(s: Scan, b: char, delta: Delta): Scan {
    if s.found then s
    else if b != '\n' then
      var nonEmpty := s.lineNonEmpty || b != '\r';
      if |s.line| + |s.data| >= LIMIT then Scan("", "", true, nonEmpty, false)
      else if s.dropping then s.(lineNonEmpty := nonEmpty)
      else s.(line := s.line + [b], lineNonEmpty := nonEmpty)
    else if !s.lineNonEmpty then
      if !s.dropping && delta(s.data) then Scan("", "", false, false, true) else FRESH
    else Scan("", if s.dropping then s.data else Append(s.data, s.line), s.dropping, false, false)
  }

  function Feed(s: Scan, bytes: Bytes, delta: Delta): Scan {
    if bytes == "" then s else ByteStep(Feed(s, bytes[..|bytes|-1], delta), bytes[|bytes|-1], delta)
  }

  /** Any split of the stream gives the same state. */
  lemma {:induction false} FeedIsChunkIndependent(s: Scan, x: Bytes, y: Bytes, delta: Delta)
    ensures Feed(Feed(s, x, delta), y, delta) == Feed(s, x + y, delta)
  {
    if y == "" {
      assert x + y == x;
    } else {
      assert (x + y)[..|x + y|-1] == x + y[..|y|-1];
      FeedIsChunkIndependent(s, x, y[..|y|-1], delta);
    }
  }

  // ---------- The stream, as lines and events ----------

  /** The complete lines of a stream, without their terminators. */
  function Lines(s: Bytes): seq<Bytes> {
    if s == "" then []
    else if s[|s|-1] == '\n' then Lines(s[..|s|-1]) + [Rest(s[..|s|-1])]
    else Lines(s[..|s|-1])
  }

  /** What follows the last line terminator. */
  function Rest(s: Bytes): Bytes {
    if s == "" || s[|s|-1] == '\n' then "" else Rest(s[..|s|-1]) + [s[|s|-1]]
  }

  /** Carriage returns alone do not make a line. */
  predicate Blank(line: Bytes) {
    forall i | 0 <= i < |line| :: line[i] == '\r'
  }

  /** The data of the lines of an event, joined by newlines. */
  function Joined(lines: seq<Bytes>): Bytes {
    if lines == [] then "" else Append(Joined(lines[..|lines|-1]), lines[|lines|-1])
  }

  /** At no line did the data gathered so far and the line together exceed the limit. */
  predicate Fits(lines: seq<Bytes>) {
    lines == [] || (Fits(lines[..|lines|-1]) && |Joined(lines[..|lines|-1])| + |lines[|lines|-1]| <= LIMIT)
  }

  predicate NoBlank(lines: seq<Bytes>) {
    forall i | 0 <= i < |lines| :: !Blank(lines[i])
  }

  /** Lines a..b form a complete event of generated content, ended by the blank line b, small enough to keep. */
  ghost predicate DeltaEvent(lines: seq<Bytes>, a: nat, b: nat, delta: Delta)
    requires a <= b < |lines|
  {
    && (a == 0 || Blank(lines[a-1])) && NoBlank(lines[a..b]) && Blank(lines[b])
    && Fits(lines[a..b+1]) && delta(Joined(lines[a..b]))
  }

  ghost predicate HasDelta(lines: seq<Bytes>, delta: Delta) {
    exists a: nat, b: nat :: a <= b < |lines| && DeltaEvent(lines, a, b, delta)
  }

  // ---------- One level up: the scanner, line by line ----------

  datatype Gather = Gather(data: Bytes, dropping: bool, found: bool)

  function LineStep(g: Gather, line: Bytes, delta: Delta): Gather {
    var dropping := g.dropping || |g.data| + |line| > LIMIT;
    if g.found then g
    else if Blank(line) then Gather("", false, !dropping && delta(g.data))
    else if dropping then Gather("", true, false)
    else Gather(Append(g.data, line), false, false)
  }

  function GatherLines(lines: seq<Bytes>, delta: Delta): Gather {
    if lines == [] then Gather("", false, false)
    else LineStep(GatherLines(lines[..|lines|-1], delta), lines[|lines|-1], delta)
  }

  /** The state in the middle of a line. */
  function Within(g: Gather, rest: Bytes): Scan {
    var dropping := g.dropping || |g.data| + |rest| > LIMIT;
    if g.found then Scan("", "", false, false, true)
    else Scan(if dropping then "" else rest, if dropping then "" else g.data, dropping, !Blank(rest), false)
  }

  lemma BlankPush(rest: Bytes, b: char)
    ensures Blank(rest + [b]) <==> Blank(rest) && b == '\r'
  {
    assert (rest + [b])[|rest|] == b;
    assert forall i | 0 <= i < |rest| :: (rest + [b])[i] == rest[i];
  }

  ghost predicate Clean(g: Gather) {
    (g.dropping || g.found ==> g.data == "") && (g.found ==> !g.dropping) && |g.data| <= LIMIT
  }

  lemma MidLine(g: Gather, rest: Bytes, b: char, delta: Delta)
    requires Clean(g) && b != '\n'
    ensures ByteStep(Within(g, rest), b, delta) == Within(g, rest + [b])
  {
    BlankPush(rest, b);
    hide Blank;
  }

  lemma LineEnd(g: Gather, rest: Bytes, delta: Delta)
    requires Clean(g)
    ensures ByteStep(Within(g, rest), '\n', delta) == Within(LineStep(g, rest, delta), "")
  {
    assert Blank("");
    hide Blank;
    if !g.found && !Blank(rest) && !g.dropping && |g.data| + |rest| <= LIMIT {
      AppendBound(g.data, rest);
    }
    hide Append;
  }

  /** Joining never needs more room than the line took. */
  lemma AppendBound(data: Bytes, line: Bytes)
    ensures |Append(data, line)| <= |data| + |line|
  {
  }

  lemma {:induction false} GatherClean(lines: seq<Bytes>, delta: Delta)
    ensures Clean(GatherLines(lines, delta))
  {
    if lines != [] {
      GatherClean(lines[..|lines|-1], delta);
      AppendBound(GatherLines(lines[..|lines|-1], delta).data, lines[|lines|-1]);
      hide Append;
      hide Blank;
    }
  }

  /** The byte scanner is the line scanner: nothing of it depends on where a line is cut. */
  lemma {:induction false} BytesAreLines(s: Bytes, delta: Delta)
    ensures Feed(FRESH, s, delta) == Within(GatherLines(Lines(s), delta), Rest(s))
  {
    hide ByteStep;
    hide LineStep;
    hide Clean;
    if s == "" {
      assert Blank("");
    } else {
      hide Within;
      var before, b := s[..|s|-1], s[|s|-1];
      BytesAreLines(before, delta);
      GatherClean(Lines(before), delta);
      var g, rest := GatherLines(Lines(before), delta), Rest(before);
      if b == '\n' {
        assert Lines(s)[..|Lines(s)|-1] == Lines(before);
        assert GatherLines(Lines(s), delta) == LineStep(g, rest, delta);
        LineEnd(g, rest, delta);
      } else {
        MidLine(g, rest, b, delta);
      }
    }
  }

  // ---------- The line scanner finds exactly the events ----------

  /** Where the event under way began. */
  function EventStart(lines: seq<Bytes>): (start: nat)
    ensures start <= |lines|
  {
    if lines == [] then 0 else if Blank(lines[|lines|-1]) then |lines| else EventStart(lines[..|lines|-1])
  }

  lemma {:induction false} EventStartFacts(lines: seq<Bytes>)
    ensures var a := EventStart(lines); (a == 0 || Blank(lines[a-1])) && NoBlank(lines[a..])
  {
    if lines != [] && !Blank(lines[|lines|-1]) {
      var before := lines[..|lines|-1];
      EventStartFacts(before);
      var a := EventStart(before);
      assert lines[a..] == before[a..] + [lines[|lines|-1]];
    }
  }

  lemma NoBlankAt(lines: seq<Bytes>, a: nat, i: nat)
    requires a <= i < |lines| && NoBlank(lines[a..])
    ensures !Blank(lines[i])
  {
    assert lines[a..][i-a] == lines[i];
  }

  /** Only one start fits a given end: the one after the previous blank line. */
  lemma StartIsUnique(lines: seq<Bytes>, a: nat)
    requires a <= |lines| && (a == 0 || Blank(lines[a-1])) && NoBlank(lines[a..])
    ensures a == EventStart(lines)
  {
    hide Blank;
    hide NoBlank;
    EventStartFacts(lines);
    var e := EventStart(lines);
    forall i: nat | a <= i < |lines| ensures !Blank(lines[i]) {
      NoBlankAt(lines, a, i);
    }
    forall i: nat | e <= i < |lines| ensures !Blank(lines[i]) {
      NoBlankAt(lines, e, i);
    }
  }

  lemma FitsPush(lines: seq<Bytes>, line: Bytes)
    ensures Fits(lines + [line]) <==> Fits(lines) && |Joined(lines)| + |line| <= LIMIT
    ensures Joined(lines + [line]) == Append(Joined(lines), line)
  {
    assert (lines + [line])[..|lines|] == lines;
  }

  /** The event under way is completed by line, fits and carries generated content. */
  ghost predicate Completes(lines: seq<Bytes>, line: Bytes, delta: Delta) {
    var open := lines[EventStart(lines)..];
    Blank(line) && Fits(open + [line]) && delta(Joined(open))
  }

  lemma EarlierEvent(lines: seq<Bytes>, line: Bytes, a: nat, b: nat, delta: Delta)
    requires a <= b < |lines|
    ensures DeltaEvent(lines + [line], a, b, delta) <==> DeltaEvent(lines, a, b, delta)
  {
    assert (lines + [line])[a..b] == lines[a..b] && (lines + [line])[a..b+1] == lines[a..b+1];
    hide Blank;
    hide NoBlank;
    hide Fits;
    hide Joined;
  }

  lemma LatestEvent(lines: seq<Bytes>, line: Bytes, a: nat, delta: Delta)
    requires a <= |lines|
    ensures DeltaEvent(lines + [line], a, |lines|, delta) <==> a == EventStart(lines) && Completes(lines, line, delta)
  {
    hide Blank;
    hide NoBlank;
    hide Fits;
    hide Joined;
    var longer := lines + [line];
    EventStartFacts(lines);
    assert longer[a..|lines|] == lines[a..] && longer[a..|lines|+1] == lines[a..] + [line];
    if DeltaEvent(longer, a, |lines|, delta) {
      StartIsUnique(lines, a);
    }
  }

  /** An event of a longer stream either ended earlier or ends with the new line. */
  lemma DeltaEventPush(lines: seq<Bytes>, line: Bytes, delta: Delta)
    ensures HasDelta(lines + [line], delta) <==> HasDelta(lines, delta) || Completes(lines, line, delta)
  {
    hide DeltaEvent;
    hide Completes;
    var longer := lines + [line];
    forall a: nat, b: nat | a <= b < |longer|
      ensures DeltaEvent(longer, a, b, delta) <==>
              (if b < |lines| then DeltaEvent(lines, a, b, delta)
               else a == EventStart(lines) && Completes(lines, line, delta))
    {
      if b < |lines| {
        EarlierEvent(lines, line, a, b, delta);
      } else {
        LatestEvent(lines, line, a, delta);
      }
    }
    if HasDelta(lines, delta) {
      var a: nat, b: nat :| a <= b < |lines| && DeltaEvent(lines, a, b, delta);
      assert DeltaEvent(longer, a, b, delta);
    }
    if Completes(lines, line, delta) {
      assert DeltaEvent(longer, EventStart(lines), |lines|, delta);
    }
  }

  /** What the scanner keeps of the event under way. */
  ghost predicate Tracks(g: Gather, open: seq<Bytes>) {
    !g.found ==> (g.dropping <==> !Fits(open)) && (!g.dropping ==> g.data == Joined(open))
  }

  lemma LineStepTracks(g: Gather, open: seq<Bytes>, line: Bytes, delta: Delta)
    requires Tracks(g, open)
    ensures var next := LineStep(g, line, delta);
            && (next.found <==> g.found || (Blank(line) && Fits(open + [line]) && delta(Joined(open))))
            && Tracks(next, if Blank(line) then [] else open + [line])
  {
    FitsPush(open, line);
  }

  lemma {:induction false} GatherFindsEvents(lines: seq<Bytes>, delta: Delta)
    ensures var g := GatherLines(lines, delta);
            (g.found <==> HasDelta(lines, delta)) && Tracks(g, lines[EventStart(lines)..])
  {
    if lines != [] {
      var before, line := lines[..|lines|-1], lines[|lines|-1];
      hide Tracks;
      hide Fits;
      hide Blank;
      hide HasDelta;
      hide LineStep;
      assert lines == before + [line];
      GatherFindsEvents(before, delta);
      DeltaEventPush(before, line, delta);
      var open := before[EventStart(before)..];
      LineStepTracks(GatherLines(before, delta), open, line, delta);
      assert lines[EventStart(lines)..] == if Blank(line) then [] else open + [line];
    }
  }

  /** The scan of a stream reports generated content exactly when some complete, non-oversized event carries it. */
  lemma FoundExactly(s: Bytes, delta: Delta)
    ensures Feed(FRESH, s, delta).found <==> HasDelta(Lines(s), delta)
  {
    BytesAreLines(s, delta);
    GatherFindsEvents(Lines(s), delta);
  }

  function Concat(chunks: seq<Bytes>): Bytes {
    if chunks == [] then "" else Concat(chunks[..|chunks|-1]) + chunks[|chunks|-1]
  }

  /** The scan of a stream that arrives in chunks. */
  function FeedAll(chunks: seq<Bytes>, delta: Delta): Scan {
    if chunks == [] then FRESH else Feed(FeedAll(chunks[..|chunks|-1], delta), chunks[|chunks|-1], delta)
  }

  /** However the stream is cut, the scan ends in the state its lines and unfinished line determine: it has found
      content exactly when an event of the whole stream carries it, and it holds no more than the limit. */
  lemma {:induction false} AnySplitFindsExactly(chunks: seq<Bytes>, delta: Delta)
    ensures var s, stream := FeedAll(chunks, delta), Concat(chunks);
            && s == Feed(FRESH, stream, delta)
            && s == Within(GatherLines(Lines(stream), delta), Rest(stream))
            && (s.found <==> HasDelta(Lines(stream), delta))
            && |s.line| + |s.data| <= LIMIT
  {
    var stream := Concat(chunks);
    if chunks != [] {
      var rest := chunks[..|chunks|-1];
      AnySplitFindsExactly(rest, delta);
      FeedIsChunkIndependent(FRESH, Concat(rest), chunks[|chunks|-1], delta);
    }
    hide Feed;
    hide HasDelta;
    BytesAreLines(stream, delta);
    FoundExactly(stream, delta);
    GatherClean(Lines(stream), delta);
  }

  // ---------- What the scanner takes from a stream ----------

  predicate Without(text: Bytes, c: char) {
    forall i | 0 <= i < |text| :: text[i] != c
  }

  function Terminated(lines: seq<Bytes>): Bytes {
    if lines == [] then "" else Terminated(lines[..|lines|-1]) + lines[|lines|-1] + "\n"
  }

  lemma {:induction false} LinesPush(s: Bytes, line: Bytes)
    requires Without(line, '\n')
    ensures Lines(s + line) == Lines(s) && Rest(s + line) == Rest(s) + line
  {
    if line == "" {
      assert s + line == s;
    } else {
      var rest, last := line[..|line|-1], line[|line|-1];
      assert (s + line)[..|s + line|-1] == s + rest && (s + line)[|s + line|-1] == last;
      LinesPush(s, rest);
      assert Rest(s) + rest + [last] == Rest(s) + line;
    }
  }

  lemma {:induction false} LinesOfTerminated(lines: seq<Bytes>)
    requires forall i | 0 <= i < |lines| :: Without(lines[i], '\n')
    ensures Lines(Terminated(lines)) == lines && Rest(Terminated(lines)) == ""
  {
    if lines != [] {
      var before, last := lines[..|lines|-1], lines[|lines|-1];
      LinesOfTerminated(before);
      LinesPush(Terminated(before), last);
      var s := Terminated(before) + last;
      assert (s + "\n")[..|s|] == s && (s + "\n")[|s|] == '\n';
      assert "" + last == last;
      assert Lines(s + "\n") == before + [last] == lines;
      assert Terminated(lines) == s + "\n";
    }
  }

  lemma {:induction false} NoEventYet(lines: seq<Bytes>, delta: Delta)
    requires NoBlank(lines)
    ensures !HasDelta(lines, delta) && EventStart(lines) == 0
  {
    if lines != [] {
      NoEventYet(lines[..|lines|-1], delta);
    }
  }

  /** A stream of one event: found exactly when it fits and its data is a delta. */
  lemma OneEvent(lines: seq<Bytes>, blank: Bytes, delta: Delta)
    requires NoBlank(lines) && Blank(blank)
    requires forall i | 0 <= i < |lines| :: Without(lines[i], '\n')
    ensures Feed(FRESH, Terminated(lines + [blank]), delta).found <==> Fits(lines + [blank]) && delta(Joined(lines))
  {
    var all := lines + [blank];
    assert Without(blank, '\n');
    LinesOfTerminated(all);
    FoundExactly(Terminated(all), delta);
    DeltaEventPush(lines, blank, delta);
    NoEventYet(lines, delta);
    assert lines[0..] == lines;
  }

  lemma OneLineEvent(line: Bytes, end: Bytes, p: Bytes, delta: Delta)
    requires Without(line, '\n') && !Blank(line) && end in {"", "\r"}
    requires Append("", line) == p && |p| + |end| <= |line|
    ensures Feed(FRESH, line + "\n" + end + "\n", delta).found <==> |line| <= LIMIT && delta(p)
  {
    hide Feed;
    hide Append;
    hide Blank;
    EndIsBlank(end);
    OneEvent([line], end, delta);
    FitsPush([], line);
    FitsPush([line], end);
    assert [] + [line] == [line];
    TerminatedPush([], line);
    TerminatedPush([line], end);
    assert Terminated([]) + line + "\n" == line + "\n";
  }

  lemma EndIsBlank(end: Bytes)
    requires end in {"", "\r"}
    ensures Blank(end) && Without(end, '\n')
  {
  }

  lemma TerminatedPush(lines: seq<Bytes>, line: Bytes)
    ensures Terminated(lines + [line]) == Terminated(lines) + line + "\n"
  {
    assert (lines + [line])[..|lines|] == lines;
  }

  function Space(space: bool): Bytes {
    if space then " " else ""
  }

  lemma DataLine(p: Bytes, space: bool, end: Bytes)
    requires Without(p, '\r') && (!space && p != "" ==> p[0] != ' ') && end in {"", "\r"}
    ensures var line := "data:" + Space(space) + p + end;
            && !Blank(line)
            && forall data :: Append(data, line) == (if data == "" then p else data + "\n" + p)
  {
    var text := "data:" + Space(space) + p;
    var line := text + end;
    assert line[0] == 'd';
    assert text[|text|-1] != '\r' by {
      if p != "" {
        assert text[|text|-1] == p[|p|-1];
      }
    }
    Trimmed(text, end);
    assert text[..5] == "data:";
    assert FieldValue(text) == p by {
      if space {
        assert text[5] == ' ' && text[6..] == p;
      } else {
        assert text[5..] == p;
      }
    }
    forall data ensures Append(data, line) == (if data == "" then p else data + "\n" + p) {
      assert "" + p == p;
    }
  }

  lemma Trimmed(text: Bytes, end: Bytes)
    requires text != "" && text[|text|-1] != '\r' && end in {"", "\r"}
    ensures TrimReturn(text + end) == text
  {
    if end == "" {
      assert text + end == text;
    } else {
      assert (text + end)[..|text|] == text;
    }
  }

  /** A data line, with or without the optional space and with either line end: the delta is its text. The line, its
      carriage return included, may be as long as 1 MiB. */
  lemma OneDataLine(p: Bytes, space: bool, end: Bytes, delta: Delta)
    requires Without(p, '\r') && Without(p, '\n') && (!space && p != "" ==> p[0] != ' ') && end in {"", "\r"}
    ensures var line := "data:" + (if space then " " else "") + p + end;
            Feed(FRESH, line + "\n" + end + "\n", delta).found <==> |line| <= 1_048_576 && delta(p)
  {
    var line := "data:" + Space(space) + p + end;
    DataLine(p, space, end);
    NoBreaks(p, space, end);
    OneLineEvent(line, end, p, delta);
  }

  lemma NoBreaks(p: Bytes, space: bool, end: Bytes)
    requires Without(p, '\n') && end in {"", "\r"}
    ensures Without("data:" + Space(space) + p + end, '\n')
  {
    var line := "data:" + Space(space) + p + end;
    forall i | 0 <= i < |line| ensures line[i] != '\n' {
      var head := "data:" + Space(space);
      if |head| <= i < |head| + |p| {
        assert line[i] == p[i - |head|];
      }
    }
  }

  lemma SpacedDataLine(p: Bytes)
    requires Without(p, '\r') && Without(p, '\n')
    ensures var line := "data: " + p;
            && !Blank(line) && Without(line, '\n')
            && forall data :: Append(data, line) == (if data == "" then p else data + "\n" + p)
  {
    hide Append;
    DataLine(p, true, "");
    NoBreaks(p, true, "");
    assert "data:" + Space(true) + p + "" == "data: " + p;
  }

  lemma OtherLine(other: Bytes)
    requires Without(other, '\r') && other != "" && (|other| < 5 || other[..5] != "data:")
    ensures !Blank(other) && Append("", other) == ""
  {
    assert other[0] != '\r';
  }

  lemma TwoLineEvent(first: Bytes, second: Bytes, delta: Delta)
    requires Without(first, '\n') && Without(second, '\n') && !Blank(first) && !Blank(second)
    ensures Feed(FRESH, first + "\n" + second + "\n\n", delta).found
            <==> && |first| <= LIMIT && |Append("", first)| + |second| <= LIMIT
                 && delta(Append(Append("", first), second))
  {
    hide Feed;
    hide Append;
    hide Blank;
    var lines := [first, second];
    EndIsBlank("");
    OneEvent(lines, "", delta);
    FitsPush([], first);
    FitsPush([first], second);
    FitsPush(lines, "");
    AppendBound("", first);
    AppendBound(Append("", first), second);
    assert [] + [first] == [first] && [first] + [second] == lines;
    TerminatedPush([], first);
    TerminatedPush([first], second);
    TerminatedPush(lines, "");
    assert Terminated([]) + first + "\n" == first + "\n";
    assert first + "\n" + second + "\n" + "" + "\n" == first + "\n" + second + "\n\n";
  }

  /** Two data lines are joined by a newline. */
  lemma TwoDataLines(p: Bytes, q: Bytes, delta: Delta)
    requires Without(p, '\r') && Without(p, '\n') && Without(q, '\r') && Without(q, '\n') && p != ""
    ensures Feed(FRESH, "data: " + p + "\n" + "data: " + q + "\n\n", delta).found
            <==> |p| + 6 <= 1_048_576 && |p| + |q| + 6 <= 1_048_576 && delta(p + "\n" + q)
  {
    hide Feed;
    hide Append;
    var first, second := "data: " + p, "data: " + q;
    SpacedDataLine(p);
    SpacedDataLine(q);
    assert first + "\n" + second + "\n\n" == "data: " + p + "\n" + "data: " + q + "\n\n";
    TwoLineEvent(first, second, delta);
  }

  /** A line of any other field contributes nothing. */
  lemma OtherLinesAreIgnored(other: Bytes, p: Bytes, delta: Delta)
    requires Without(p, '\r') && Without(p, '\n') && Without(other, '\r') && Without(other, '\n') && other != ""
    requires |other| < 5 || other[..5] != "data:"
    ensures Feed(FRESH, other + "\n" + "data: " + p + "\n\n", delta).found
            <==> |other| <= 1_048_576 && |p| + 6 <= 1_048_576 && delta(p)
  {
    hide Feed;
    var second := "data: " + p;
    SpacedDataLine(p);
    OtherLine(other);
    hide Append;
    assert other + "\n" + second + "\n\n" == other + "\n" + "data: " + p + "\n\n";
    TwoLineEvent(other, second, delta);
  }

  // ---------- The observer ----------

  class Observer {
    const delta: Delta
    var at: Option<int>
    var line: Bytes
    var data: Bytes
    var dropping: bool
    var lineNonEmpty: bool
    ghost var stream: Bytes

    ghost function State(): Scan
      reads this
    {
      Scan(line, data, dropping, lineNonEmpty, at.Some?)
    }

    /** The fields are the scan of everything written so far, and hold at most one limit's worth of it. */
    ghost predicate Valid()
      reads this
    {
      State() == Feed(FRESH, stream, delta) && |line| + |data| <= LIMIT
    }

    constructor (delta: Delta)
      ensures Valid() && stream == "" && at == None && this.delta == delta
    {
      this.delta := delta;
      at, line, data, dropping, lineNonEmpty, stream := None, "", "", false, false, "";
    }

    /** At is set once, by the write that completes the first event of generated content. */
    method Write(payload: Bytes, now: int)
      requires Valid()
      modifies this
      ensures Valid() && stream == old(stream) + payload
      ensures at.Some? <==> HasDelta(Lines(stream), delta)
      ensures at == if old(at).Some? then old(at) else if HasDelta(Lines(stream), delta) then Some(now) else None
    {
      hide HasDelta;
      hide Feed;
      hide ByteStep;
      hide Lines;
      FeedIsChunkIndependent(FRESH, stream, payload, delta);
      FoundExactly(stream + payload, delta);
      ghost var before := State();
      if at.Some? {
        FoundIsFinal(before, payload, delta);
        stream := stream + payload;
        return;
      }
      FeedNothing(before, delta);
      for i := 0 to |payload|
        invariant at.None? && |line| + |data| <= LIMIT
        invariant State() == Feed(before, payload[..i], delta)
        invariant stream == old(stream)
      {
        FeedOne(before, payload, i, delta);
        WriteByte(payload[i], now);
        if at.Some? {
          FoundIsFinal(State(), payload[i+1..], delta);
          FeedIsChunkIndependent(before, payload[..i+1], payload[i+1..], delta);
          assert payload[..i+1] + payload[i+1..] == payload;
          stream := stream + payload;
          return;
        }
      }
      assert payload[..|payload|] == payload;
      stream := stream + payload;
    }

    /** One round of the byte loop. */
    method WriteByte(value: char, now: int)
      requires at.None? && |line| + |data| <= LIMIT
      modifies this`at, this`line, this`data, this`dropping, this`lineNonEmpty
      ensures State() == ByteStep(old(State()), value, delta)
      ensures |line| + |data| <= LIMIT && (at.Some? ==> at == Some(now))
    {
      if value != '\n' {
        if value != '\r' {
          lineNonEmpty := true;
        }
        if |line| + |data| >= LIMIT {
          dropping, line, data := true, "", "";
        }
        if !dropping {
          line := line + [value];
        }
        return;
      }
      var field := TrimReturn(line);
      if !lineNonEmpty {
        if !dropping && delta(data) {
          at, line, data := Some(now), "", "";
          return;
        }
        data, dropping := "", false;
      } else if !dropping && "data:" <= field {
        if data != "" {
          data := data + "\n";
        }
        data := data + FieldValue(field);
      }
      line, lineNonEmpty := "", false;
    }
  }

  lemma {:induction false} FoundIsFinal(s: Scan, bytes: Bytes, delta: Delta)
    requires s.found
    ensures Feed(s, bytes, delta) == s
  {
    if bytes != "" {
      FoundIsFinal(s, bytes[..|bytes|-1], delta);
    }
  }

  lemma FeedNothing(s: Scan, delta: Delta)
    ensures Feed(s, "", delta) == s
  {
  }

  lemma FeedOne(s: Scan, bytes: Bytes, i: nat, delta: Delta)
    requires i < |bytes|
    ensures Feed(s, bytes[..i+1], delta) == ByteStep(Feed(s, bytes[..i], delta), bytes[i], delta)
  {
    assert bytes[..i+1][..i] == bytes[..i];
  }
}
