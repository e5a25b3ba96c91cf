/** The streaming server-sent-events splitter (a simplified form of section 9.2.6 of the WHATWG HTML standard). */
module Sse {
  import opened Text

  // ---------- the terminator \r?\n\r?\n ----------

  // The end of \r?\n at i, if it stands there.
  function NewlineAt(s: string, i: nat): (end: Option<nat>)
    ensures end.Some? ==> i < end.value <= |s| && s[end.value - 1] == '\n'
                          && forall k :: i <= k < end.value - 1 ==> s[k] != '\n'
  {
    if i < |s| && s[i] == '\n' then Some(i + 1)
    else if i + 1 < |s| && s[i] == '\r' && s[i + 1] == '\n' then Some(i + 2)
    else None
  }

  // The end of the blank line that starts at i.
  function BlankAt(s: string, i: nat): (end: Option<nat>)
    ensures end.Some? ==> i < end.value <= |s|
  {
    match NewlineAt(s, i)
    case None => None
    case Some(j) => NewlineAt(s, j)
  }

  datatype Match = Match(index: nat, end: nat)

  // The leftmost terminator at or after i.
  function Exec(s: string, i: nat): (m: Option<Match>)
    ensures m.Some? ==> i <= m.value.index < m.value.end <= |s|
    decreases |s| - i
  {
    if i >= |s| then None
    else match BlankAt(s, i)
      case Some(end) => Some(Match(i, end))
      case None => Exec(s, i + 1)
  }

  lemma {:induction false} ExecIsLeftmost(s: string, i: nat, k: nat)
    requires i <= k < |s|
    ensures BlankAt(s, k).Some? ==> Exec(s, i).Some? && Exec(s, i).value.index <= k
    ensures Exec(s, i).Some? ==>
              var m := Exec(s, i).value; BlankAt(s, m.index) == Some(m.end) && (k < m.index ==> BlankAt(s, k).None?)
    decreases |s| - i
  {
    if BlankAt(s, i).None? && i < k {
      ExecIsLeftmost(s, i + 1, k);
    } else if BlankAt(s, i).None? && i + 1 < |s| {
      ExecIsLeftmost(s, i + 1, i + 1);
    }
  }

  // ---------- frames ----------

  // Split at every \r?\n.
  function Lines(s: string): (lines: seq<string>)
    ensures lines != []
  {
    LinesFrom(s, 0)
  }

  function LinesFrom(s: string, i: nat): (lines: seq<string>)
    ensures lines != []
    decreases |s|, |s| - i
  {
    if i >= |s| then [s]
    else match NewlineAt(s, i)
      case Some(end) => [s[..i]] + LinesFrom(s[end..], 0)
      case None => LinesFrom(s, i + 1)
  }

  function DataPrefix(): string { "data:" }

  predicate IsData(line: string) {
    DataPrefix() <= line
  }

  function DataOf(line: string): string
    requires IsData(line)
  {
    var d := line[5..];
    if d != [] && d[0] == ' ' then d[1..] else d
  }

  function DataLines(lines: seq<string>): seq<string> {
    if lines == [] then []
    else (if IsData(lines[0]) then [DataOf(lines[0])] else []) + DataLines(lines[1..])
  }

  // The event of a frame, if it has a data line.
  function EventsOf(frame: string): seq<string> {
    var data := DataLines(Lines(frame));
    if data == [] then [] else [JoinLines(data)]
  }

  function JoinLines(lines: seq<string>): string {
    if lines == [] then "" else if |lines| == 1 then lines[0] else lines[0] + "\n" + JoinLines(lines[1..])
  }

  // What a data line holds: one space behind the colon is not part of it.
  predicate Holds(line: string, d: string) {
    line == "data: " + d || (line == "data:" + d && (d == "" || d[0] != ' '))
  }

  lemma HoldsExactly(line: string, d: string)
    ensures IsData(line) && DataOf(line) == d <==> Holds(line, d)
  {
    if IsData(line) {
      assert line == "data:" + line[5..];
      if line[5..] != "" && line[5] == ' ' {
        assert line[5..] == " " + line[6..];
        assert line == "data: " + line[6..];
      }
    }
    if Holds(line, d) {
      assert line[..5] == "data:";
    }
  }

  lemma {:induction false} NoNewlineInLines(s: string, i: nat)
    requires i <= |s| && '\n' !in s[..i]
    ensures forall line :: line in LinesFrom(s, i) ==> '\n' !in line
    decreases |s|, |s| - i
  {
    if i < |s| {
      match NewlineAt(s, i) {
        case Some(end) => NoNewlineInLines(s[end..], 0);
        case None =>
          assert s[..i + 1] == s[..i] + [s[i]];
          NoNewlineInLines(s, i + 1);
      }
    } else {
      assert s[..i] == s;
    }
  }

  lemma DataIsInside(line: string)
    requires IsData(line)
    ensures forall c :: c in DataOf(line) ==> c in line
  {
    HoldsExactly(line, DataOf(line));
    assert forall i :: 0 <= i < |DataOf(line)| ==> DataOf(line)[i] == line[|line| - |DataOf(line)| + i];
  }

  lemma {:induction false} DataFromLines(lines: seq<string>)
    requires forall line :: line in lines ==> '\n' !in line
    ensures forall d :: d in DataLines(lines) ==> '\n' !in d
  {
    if lines != [] {
      DataFromLines(lines[1..]);
      if IsData(lines[0]) {
        DataIsInside(lines[0]);
      }
    }
  }

  lemma {:induction false} JoinReadsBack(data: seq<string>)
    requires data != [] && forall d :: d in data ==> '\n' !in d
    ensures Split(JoinLines(data), '\n') == data
  {
    hide Split;
    SplitWhole(data[0], '\n');
    if |data| > 1 {
      JoinReadsBack(data[1..]);
      SplitAt(data[0], '\n', JoinLines(data[1..]));
    }
  }

  /** The lines of a frame's event are what its data lines hold, in their order; no other line leaves a trace. */
  lemma EventReadsBack(frame: string)
    ensures EventsOf(frame) == [] <==> DataLines(Lines(frame)) == []
    ensures forall event :: event in EventsOf(frame) ==> Split(event, '\n') == DataLines(Lines(frame))
  {
    hide Lines, DataLines, JoinLines;
    NoNewlineInFrame(frame);
    DataFromLines(Lines(frame));
    if DataLines(Lines(frame)) != [] {
      JoinReadsBack(DataLines(Lines(frame)));
    }
  }

  lemma NoNewlineInFrame(frame: string)
    ensures forall line :: line in Lines(frame) ==> '\n' !in line
  {
    NoNewlineInLines(frame, 0);
  }

  datatype Parsed = Parsed(events: seq<string>, rest: string)

  function Parse(s: string): Parsed
    decreases |s|
  {
    match Exec(s, 0)
    case None => Parsed([], s)
    case Some(m) =>
      var tail := Parse(s[m.end..]);
      Parsed(EventsOf(s[..m.index]) + tail.events, tail.rest)
  }

  lemma ParseStep(s: string, m: Match)
    requires Exec(s, 0) == Some(m)
    ensures Parse(s).events == EventsOf(s[..m.index]) + Parse(s[m.end..]).events
    ensures Parse(s).rest == Parse(s[m.end..]).rest
  {
  }

  lemma ParseStop(s: string)
    requires Exec(s, 0).None?
    ensures Parse(s) == Parsed([], s)
  {
  }

  method ParseSSEFrames(input: string) returns (events: seq<string>, rest: string)
    ensures Parsed(events, rest) == Parse(input)
  {
    events, rest := [], input;
    hide Parse, Exec, DataLines, Lines, JoinLines;
    while true
      invariant Parsed(events + Parse(rest).events, Parse(rest).rest) == Parse(input)
      decreases |rest|
    {
      var m := Exec(rest, 0);
      if m.None? {
        ParseStop(rest);
        return;
      }
      ParseStep(rest, m.value);
      var frame := rest[..m.value.index];
      ghost var was := rest;
      rest := rest[m.value.end..];
      var data := DataLines(Lines(frame));
      ghost var before := events;
      if |data| > 0 {
        events := events + [JoinLines(data)];
      }
      assert events == before + EventsOf(frame);
      assert before + Parse(was).events == events + Parse(rest).events;
    }
  }

  // ---------- chunks ----------

  lemma BlankExtends(x: string, y: string, i: nat)
    ensures BlankAt(x, i).Some? ==> BlankAt(x + y, i) == BlankAt(x, i)
    ensures BlankAt(x + y, i).Some? && BlankAt(x + y, i).value <= |x| ==> BlankAt(x, i) == BlankAt(x + y, i)
  {
  }

  /** What follows can never move the first terminator: one that began earlier and ended later would hold a third
      newline. */
  lemma FirstTerminatorStands(x: string, y: string)
    requires Exec(x, 0).Some?
    ensures Exec(x + y, 0) == Exec(x, 0)
  {
    var m := Exec(x, 0).value;
    ExecIsLeftmost(x, 0, m.index);
    BlankExtends(x, y, m.index);
    ExecIsLeftmost(x + y, 0, m.index);
    var n := Exec(x + y, 0).value;
    ExecIsLeftmost(x + y, 0, n.index);
    if n.index < m.index {
      ExecIsLeftmost(x, 0, n.index);
      BlankExtends(x, y, n.index);
    }
  }

  /** Parsing what was left over together with what comes next gives the events and the remainder of parsing it all. */
  lemma {:induction false} ParseResumes(x: string, y: string)
    ensures Parse(x + y).events == Parse(x).events + Parse(Parse(x).rest + y).events
    ensures Parse(x + y).rest == Parse(Parse(x).rest + y).rest
    decreases |x|
  {
    hide Parse, Exec, EventsOf;
    match Exec(x, 0) {
      case None => ParseStop(x);
      case Some(m) =>
        FirstTerminatorStands(x, y);
        assert (x + y)[..m.index] == x[..m.index];
        assert (x + y)[m.end..] == x[m.end..] + y;
        ParseStep(x, m);
        ParseStep(x + y, m);
        ParseResumes(x[m.end..], y);
    }
  }

  function Concat(chunks: seq<string>): string {
    if chunks == [] then "" else chunks[0] + Concat(chunks[1..])
  }

  lemma {:induction false} ConcatSnoc(chunks: seq<string>, c: string)
    ensures Concat(chunks + [c]) == Concat(chunks) + c
  {
    if chunks == [] {
      assert [c][1..] == [];
    } else {
      assert (chunks + [c])[1..] == chunks[1..] + [c];
      ConcatSnoc(chunks[1..], c);
      assert chunks[0] + (Concat(chunks[1..]) + c) == chunks[0] + Concat(chunks[1..]) + c;
    }
  }

  /** The reader's loop over decoded chunks: the events delivered, in order, and the text left over are those of the
      whole text, however it was cut. */
  method StreamSSE(chunks: seq<string>) returns (delivered: seq<string>, rest: string)
    ensures Parsed(delivered, rest) == Parse(Concat(chunks))
  {
    delivered, rest := [], "";
    for i := 0 to |chunks|
      invariant Parsed(delivered, rest) == Parse(Concat(chunks[..i]))
    {
      ghost var whole := Concat(chunks[..i]);
      assert chunks[..i + 1] == chunks[..i] + [chunks[i]];
      ConcatSnoc(chunks[..i], chunks[i]);
      ParseResumes(whole, chunks[i]);
      var events;
      events, rest := ParseSSEFrames(rest + chunks[i]);
      delivered := delivered + events;
    }
    assert chunks[..|chunks|] == chunks;
  }

  /** However what follows left is cut: the events of left, then those of each chunk parsed behind the remainder, are
      the events of the whole text. */
  lemma {:induction false} ChunkingIsIrrelevant(chunks: seq<string>, left: string)
    ensures var fed := Feed(left, chunks);
            Parse(left + Concat(chunks)) == Parsed(Parse(left).events + fed.events, fed.rest)
    decreases |chunks|
  {
    hide Parse;
    if chunks == [] {
      assert left + "" == left;
    } else {
      var one := Parse(Parse(left).rest + chunks[0]);
      ParseResumes(left, chunks[0]);
      ChunkingIsIrrelevant(chunks[1..], left + chunks[0]);
      assert left + Concat(chunks) == left + chunks[0] + Concat(chunks[1..]);
    }
  }

  // The reader's state after left, fed chunk by chunk.
  function Feed(left: string, chunks: seq<string>): Parsed
    decreases |chunks|
  {
    if chunks == [] then Parsed([], Parse(left).rest)
    else
      var tail := Feed(left + chunks[0], chunks[1..]);
      Parsed(Parse(Parse(left).rest + chunks[0]).events + tail.events, tail.rest)
  }

  // ---------- the same, line by line ----------

  // Reading line by line: a blank line ends an event, a data line adds to it, any other line is passed over.
  function Dispatch(lines: seq<string>, data: seq<string>): seq<string>
    decreases |lines|
  {
    if lines == [] then []
    else if lines[0] == "" then Flush(data) + Dispatch(lines[1..], [])
    else Dispatch(lines[1..], data + DataLines([lines[0]]))
  }

  function Flush(data: seq<string>): seq<string> {
    if data == [] then [] else [JoinLines(data)]
  }

  // The lines that have ended; what follows the last newline is not one yet.
  function EndedLines(s: string): seq<string> {
    Lines(s)[..|Lines(s)| - 1]
  }

  lemma NewlineShift(s: string, n: nat, i: nat)
    requires n <= i <= |s|
    ensures NewlineAt(s[n..], i - n)
            == match NewlineAt(s, i) { case None => None case Some(end) => Some(end - n) }
  {
  }

  lemma BlankShift(s: string, n: nat, i: nat)
    requires n <= i <= |s|
    ensures BlankAt(s[n..], i - n).Some? <==> BlankAt(s, i).Some?
  {
    NewlineShift(s, n, i);
    if NewlineAt(s, i).Some? {
      NewlineShift(s, n, NewlineAt(s, i).value);
    }
  }

  // k is where a newline begins, and not the second half of one.
  predicate LineEnds(s: string, k: nat) {
    NewlineAt(s, k).Some? && !(0 < k < |s| && s[k - 1] == '\r' && s[k] == '\n')
  }

  lemma LineStep(s: string, i: nat, end: nat)
    requires i < |s| && NewlineAt(s, i) == Some(end)
    ensures LinesFrom(s, i) == [s[..i]] + Lines(s[end..])
  {
  }

  lemma LineGoesOn(s: string, i: nat)
    requires i < |s| && NewlineAt(s, i).None?
    ensures LinesFrom(s, i) == LinesFrom(s, i + 1)
  {
  }

  // Text up to the end of a line has the newlines the whole text has there.
  lemma NewlineBefore(s: string, i: nat, k: nat)
    requires i < k < |s| && LineEnds(s, k)
    ensures NewlineAt(s[..k], i) == NewlineAt(s, i)
  {
  }

  lemma {:induction false} LinesAt(s: string, i: nat, k: nat)
    requires i <= k < |s| && LineEnds(s, k)
    ensures LinesFrom(s, i) == LinesFrom(s[..k], i) + Lines(s[NewlineAt(s, k).value..])
    decreases |s|, |s| - i
  {
    hide LinesFrom, NewlineAt, Lines;
    var t, tail := s[..k], s[NewlineAt(s, k).value..];
    if i == k {
      LineStep(s, k, NewlineAt(s, k).value);
      LastLine(t);
    } else {
      NewlineBefore(s, i, k);
      match NewlineAt(s, i) {
        case None =>
          LineGoesOn(s, i);
          LineGoesOn(t, i);
          LinesAt(s, i + 1, k);
        case Some(end) =>
          LineStep(s, i, end);
          LineStep(t, i, end);
          LineEndsShift(s, end, k);
          LinesAt(s[end..], 0, k - end);
          LinesAreFrom(s[end..]);
          LinesAreFrom(t[end..]);
          assert s[end..][..k - end] == t[end..];
          assert s[end..][NewlineAt(s, k).value - end..] == tail;
          assert t[..i] == s[..i];
          assert [s[..i]] + (Lines(t[end..]) + Lines(tail)) == [s[..i]] + Lines(t[end..]) + Lines(tail);
      }
    }
  }

  lemma LastLine(t: string)
    ensures LinesFrom(t, |t|) == [t]
  {
  }

  lemma LineEndsShift(s: string, n: nat, k: nat)
    requires n <= k < |s| && LineEnds(s, k)
    ensures LineEnds(s[n..], k - n) && NewlineAt(s[n..], k - n).value == NewlineAt(s, k).value - n
  {
    NewlineShift(s, n, k);
  }

  lemma LinesAreFrom(s: string)
    ensures Lines(s) == LinesFrom(s, 0)
  {
  }

  lemma {:induction false} FirstLineReaches(s: string, i: nat)
    requires i <= |s|
    ensures |LinesFrom(s, i)[0]| >= i
    decreases |s| - i
  {
    if i < |s| && NewlineAt(s, i).None? {
      FirstLineReaches(s, i + 1);
    }
  }

  // Without a terminator only the first and the last line can be blank.
  lemma {:induction false} InnerLines(s: string, i: nat)
    requires i <= |s| && forall q: nat :: i <= q < |s| ==> BlankAt(s, q).None?
    ensures forall j :: 1 <= j < |LinesFrom(s, i)| - 1 ==> LinesFrom(s, i)[j] != ""
    decreases |s|, |s| - i
  {
    if i < |s| {
      match NewlineAt(s, i) {
        case None => InnerLines(s, i + 1);
        case Some(end) =>
          var t := s[end..];
          forall q: nat | q < |t| ensures BlankAt(t, q).None? {
            BlankShift(s, end, end + q);
          }
          InnerLines(t, 0);
          NewlineShift(s, end, end);
          assert BlankAt(s, i).None?;
          if t != "" {
            FirstLineReaches(t, 1);
          }
      }
    }
  }

  lemma {:induction false} DispatchReset(a: seq<string>, b: seq<string>, data: seq<string>)
    ensures Dispatch(a + [""] + b, data) == Dispatch(a + [""], data) + Dispatch(b, [])
    decreases |a|
  {
    if a == [] {
      assert [""] + b == [] + [""] + b && ([""] + b)[1..] == b;
      assert [] + [""] == [""] && [""][1..] == [];
      assert Dispatch([""], data) == Flush(data) + Dispatch([], []);
    } else {
      var data' := if a[0] == "" then [] else data + DataLines([a[0]]);
      DispatchReset(a[1..], b, data');
      assert (a + [""] + b)[1..] == a[1..] + [""] + b;
      assert (a + [""])[1..] == a[1..] + [""];
      if a[0] == "" {
        assert Flush(data) + (Dispatch(a[1..] + [""], []) + Dispatch(b, []))
            == Flush(data) + Dispatch(a[1..] + [""], []) + Dispatch(b, []);
      }
    }
  }

  // Lines without a blank one make one event, at the blank line behind them.
  lemma {:induction false} DispatchFrame(a: seq<string>, data: seq<string>)
    requires forall j :: 0 <= j < |a| ==> a[j] != ""
    ensures Dispatch(a + [""], data) == Flush(data + DataLines(a))
    ensures Dispatch(a, data) == []
    decreases |a|
  {
    if a == [] {
      assert [] + [""] == [""] && [""][1..] == [];
      assert data + [] == data;
    } else {
      assert (a + [""])[1..] == a[1..] + [""];
      DispatchFrame(a[1..], data + DataLines([a[0]]));
      assert [a[0]][1..] == [];
      assert DataLines([a[0]]) + DataLines(a[1..]) == DataLines(a);
      assert data + DataLines([a[0]]) + DataLines(a[1..]) == data + DataLines(a);
    }
  }

  lemma NothingBefore(data: seq<string>)
    ensures [] + data == data
  {
  }

  lemma BlankFirst(a: seq<string>)
    requires a != [] && a[0] == ""
    ensures DataLines(a) == DataLines(a[1..]) && Dispatch(a, []) == Dispatch(a[1..], [])
  {
    NothingBefore(DataLines(a[1..]));
    NothingBefore(Dispatch(a[1..], []));
  }

  // The same with a blank first line, which ends nothing.
  lemma DispatchLines(a: seq<string>)
    requires forall j :: 1 <= j < |a| ==> a[j] != ""
    ensures Dispatch(a + [""], []) == Flush(DataLines(a))
    ensures Dispatch(a, []) == []
  {
    hide Dispatch, DataLines, Flush;
    if a != [] && a[0] == "" {
      var rest := a[1..];
      DispatchFrame(rest, []);
      NothingBefore(DataLines(rest));
      BlankFirst(a);
      BlankFirst(a + [""]);
      assert (a + [""])[1..] == rest + [""];
    } else {
      DispatchFrame(a, []);
      NothingBefore(DataLines(a));
    }
  }

  lemma NoTerminator(s: string)
    requires Exec(s, 0).None?
    ensures forall q: nat :: q < |s| ==> BlankAt(s, q).None?
  {
    forall q: nat | q < |s| ensures BlankAt(s, q).None? {
      ExecIsLeftmost(s, 0, q);
    }
  }

  // Where the terminator begins, a line ends.
  lemma TerminatorEndsLine(s: string, m: Match)
    requires Exec(s, 0) == Some(m)
    ensures LineEnds(s, m.index) && m.index < NewlineAt(s, m.index).value < |s|
    ensures var e := NewlineAt(s, m.index).value; LineEnds(s[e..], 0) && NewlineAt(s[e..], 0) == Some(m.end - e)
  {
    ExecIsLeftmost(s, 0, m.index);
    if m.index > 0 {
      ExecIsLeftmost(s, 0, m.index - 1);
    }
    NewlineShift(s, NewlineAt(s, m.index).value, NewlineAt(s, m.index).value);
  }

  // A frame, its terminator and what follows, as lines.
  lemma FrameLines(s: string, m: Match)
    requires Exec(s, 0) == Some(m)
    ensures Lines(s) == Lines(s[..m.index]) + ([""] + Lines(s[m.end..]))
  {
    TerminatorEndsLine(s, m);
    hide Exec, LinesFrom, NewlineAt, Lines;
    var e := NewlineAt(s, m.index).value;
    LinesAreFrom(s);
    LinesAreFrom(s[e..]);
    LinesAreFrom(s[..m.index]);
    LinesAt(s, 0, m.index);
    LinesAt(s[e..], 0, 0);
    assert s[e..][m.end - e..] == s[m.end..] && s[e..][..0] == "";
    LastLine("");
  }

  lemma FrameNotBlank(s: string, m: Match)
    requires Exec(s, 0) == Some(m)
    ensures forall j :: 1 <= j < |Lines(s[..m.index])| ==> Lines(s[..m.index])[j] != ""
  {
    TerminatorEndsLine(s, m);
    var e := NewlineAt(s, m.index).value;
    var t := s[..e];
    assert t + s[e..] == s && t[..m.index] == s[..m.index] && t[e..] == "";
    forall q: nat | q < |t| ensures BlankAt(t, q).None? {
      BlankExtends(t, s[e..], q);
      ExecIsLeftmost(s, 0, q);
    }
    hide Exec, LinesFrom, Lines;
    InnerLines(t, 0);
    LinesAt(t, 0, m.index);
    LinesAreFrom(t);
    LinesAreFrom(s[..m.index]);
    LinesAreFrom("");
    LastLine("");
    var frame := Lines(s[..m.index]);
    assert Lines(t) == frame + [""];
    forall j | 1 <= j < |frame| ensures frame[j] != "" {
      assert Lines(t)[j] == frame[j];
    }
  }

  /** On any text the terminator search delivers exactly what line-by-line reading delivers. */
  lemma {:induction false} ReadsLineByLine(s: string)
    ensures Parse(s).events == Dispatch(EndedLines(s), [])
    decreases |s|
  {
    hide Parse, Exec, Lines, Dispatch, DataLines, Flush;
    match Exec(s, 0) {
      case None =>
        ParseStop(s);
        NoTerminator(s);
        InnerLines(s, 0);
        LinesAreFrom(s);
        DispatchLines(EndedLines(s));
      case Some(m) =>
        ParseStep(s, m);
        FrameLines(s, m);
        FrameNotBlank(s, m);
        var frame, tail := s[..m.index], s[m.end..];
        ReadsLineByLine(tail);
        assert EndedLines(s) == Lines(frame) + [""] + EndedLines(tail);
        DispatchReset(Lines(frame), EndedLines(tail), []);
        DispatchLines(Lines(frame));
        FrameEvents(frame);
    }
  }

  lemma FrameEvents(frame: string)
    ensures EventsOf(frame) == Flush(DataLines(Lines(frame)))
  {
  }

  // ---------- the server's writer ----------

  datatype Message = Line(line: string) | KeepAlive

  function PrintMessage(m: Message): string {
    match m
    case Line(line) => "data: " + line + "\n\n"
    case KeepAlive => ": keepalive\n\n"
  }

  function Print(ms: seq<Message>): string {
    if ms == [] then "" else PrintMessage(ms[0]) + Print(ms[1..])
  }

  // A final \r is taken for part of the terminator.
  function Chopped(line: string): string {
    if line != "" && line[|line| - 1] == '\r' then line[..|line| - 1] else line
  }

  // What reading the message of one line, line by line, delivers.
  function Told(line: string): seq<string> {
    Dispatch(Lines("data: " + Chopped(line)) + [""], [])
  }

  function Sent(ms: seq<Message>): seq<string> {
    if ms == [] then []
    else (match ms[0] case Line(line) => Told(line) case KeepAlive => []) + Sent(ms[1..])
  }

  lemma {:induction false} NoNewlineNoSplit(s: string, i: nat)
    requires '\n' !in s && i <= |s|
    ensures LinesFrom(s, i) == [s]
    decreases |s| - i
  {
    if i < |s| {
      NoNewlineNoSplit(s, i + 1);
    }
  }

  // A message of text s in front of tail, as lines.
  lemma MessageLines(s: string, tail: string)
    requires s != "" && s[0] != '\r'
    ensures EndedLines(s + "\n\n" + tail) == Lines(Chopped(s)) + [""] + EndedLines(tail)
  {
    var t := s + "\n\n" + tail;
    var k := |Chopped(s)|;
    var e := |s| + 1;
    assert t[|s|] == '\n' && t[e] == '\n' && forall j :: 0 <= j < |s| ==> t[j] == s[j];
    assert NewlineAt(t, k) == Some(e) && LineEnds(t, k);
    LinesAt(t, 0, k);
    assert t[..k] == Chopped(s);
    assert t[e..][0] == '\n' && t[e..][1..] == tail && t[e..][..0] == "";
    LinesAt(t[e..], 0, 0);
    assert Lines("") == [""];
    assert Lines(t) == Lines(Chopped(s)) + ([""] + Lines(tail));
    assert Lines(t) == Lines(Chopped(s)) + [""] + Lines(tail);
  }

  lemma ChoppedData(line: string)
    ensures Chopped("data: " + line) == "data: " + Chopped(line)
  {
  }

  lemma KeepAliveEvent()
    ensures Chopped(": keepalive") == ": keepalive" && Dispatch(Lines(": keepalive") + [""], []) == []
  {
    var s := ": keepalive";
    NoNewlineNoSplit(s, 0);
    DispatchLines([s]);
    assert s[0] != DataPrefix()[0];
    var one := [s];
    assert one[1..] == [] && DataLines(one) == [];
  }

  lemma {:induction false} PrintedLines(ms: seq<Message>)
    ensures Dispatch(EndedLines(Print(ms)), []) == Sent(ms)
  {
    hide Dispatch, Lines, Chopped;
    if ms == [] {
      NoNewlineNoSplit("", 0);
      LinesAreFrom("");
      DispatchLines([]);
    } else {
      var rest := Print(ms[1..]);
      PrintedLines(ms[1..]);
      match ms[0] {
        case Line(line) =>
          assert Print(ms) == "data: " + line + "\n\n" + rest;
          MessageLines("data: " + line, rest);
          ChoppedData(line);
          DispatchReset(Lines("data: " + Chopped(line)), EndedLines(rest), []);
        case KeepAlive =>
          assert Print(ms) == ": keepalive" + "\n\n" + rest;
          MessageLines(": keepalive", rest);
          KeepAliveEvent();
          DispatchReset(Lines(": keepalive"), EndedLines(rest), []);
      }
    }
  }

  lemma {:induction false} RestIsShort(s: string)
    requires s == "" || (|s| >= 2 && s[|s| - 2] == '\n' && s[|s| - 1] == '\n') || s == "\n"
    ensures Parse(s).rest == "" || Parse(s).rest == "\n"
    decreases |s|
  {
    if |s| >= 2 {
      ExecIsLeftmost(s, 0, |s| - 2);
      RestIsShort(s[Exec(s, 0).value.end..]);
    }
  }

  lemma {:induction false} PrintEndsBlank(ms: seq<Message>)
    requires ms != []
    ensures var s := Print(ms); |s| >= 2 && s[|s| - 2] == '\n' && s[|s| - 1] == '\n'
  {
    if |ms| > 1 {
      PrintEndsBlank(ms[1..]);
      var s := Print(ms[1..]);
      assert Print(ms) == PrintMessage(ms[0]) + s;
    } else {
      assert ms[1..] == [];
      assert Print(ms) == PrintMessage(ms[0]) + "";
    }
  }

  /** Whatever lines the writer sends, newlines in them included, the reader delivers what each of them says line by
      line, in order, and nothing for a keepalive; no message runs into the next, and at most a newline is left over. */
  lemma LinesArrive(ms: seq<Message>)
    ensures Parse(Print(ms)).events == Sent(ms)
    ensures Parse(Print(ms)).rest == "" || Parse(Print(ms)).rest == "\n"
  {
    hide Parse, Dispatch, Exec;
    ReadsLineByLine(Print(ms));
    PrintedLines(ms);
    if ms != [] {
      PrintEndsBlank(ms);
    }
    RestIsShort(Print(ms));
  }

  lemma OneEvent(text: string)
    requires '\n' !in text
    ensures Dispatch(["data: " + text] + [""], []) == [text]
  {
    var s := "data: " + text;
    DispatchLines([s]);
    assert s[..5] == "data:" && s[5..] == " " + text;
    var one := [s];
    assert one[1..] == [] && DataLines(one) == [text];
  }

  /** A line without a newline arrives as it is, but for a carriage return at its end. */
  lemma OneLineArrives(line: string)
    requires '\n' !in line
    ensures Told(line) == [Chopped(line)]
  {
    NoNewlineNoSplit("data: " + Chopped(line), 0);
    OneEvent(Chopped(line));
  }

  // ---------- which lines arrive as they are ----------

  // The texts' lengths, with one more for each.
  function Total(texts: seq<string>): nat {
    if texts == [] then 0 else |texts[0]| + 1 + Total(texts[1..])
  }

  lemma {:induction false} TotalAppend(a: seq<string>, b: seq<string>)
    ensures Total(a + b) == Total(a) + Total(b)
  {
    if a == [] {
      assert a + b == b;
    } else {
      assert (a + b)[1..] == a[1..] + b;
      TotalAppend(a[1..], b);
    }
  }

  lemma {:induction false} JoinTotal(data: seq<string>)
    requires data != []
    ensures |JoinLines(data)| + 1 == Total(data)
  {
    if |data| == 1 {
      assert data[1..] == [];
    } else {
      JoinTotal(data[1..]);
    }
  }

  lemma FlushTotal(data: seq<string>)
    ensures Total(Flush(data)) == Total(data)
  {
    if data != [] {
      JoinTotal(data);
      var one := [JoinLines(data)];
      assert one[1..] == [];
    }
  }

  lemma DataFirst(lines: seq<string>)
    requires lines != []
    ensures Total(DataLines(lines)) == Total(DataLines([lines[0]])) + Total(DataLines(lines[1..]))
  {
    var one := [lines[0]];
    assert one[1..] == [];
    TotalAppend(if IsData(lines[0]) then [DataOf(lines[0])] else [], DataLines(lines[1..]));
    TotalAppend(if IsData(lines[0]) then [DataOf(lines[0])] else [], []);
  }

  // What is delivered is never longer than the data it was read from.
  lemma {:induction false} DispatchBound(lines: seq<string>, data: seq<string>)
    ensures Total(Dispatch(lines, data)) <= Total(data) + Total(DataLines(lines))
    decreases |lines|
  {
    if lines != [] {
      DataFirst(lines);
      if lines[0] == "" {
        DispatchBound(lines[1..], []);
        FlushTotal(data);
        TotalAppend(Flush(data), Dispatch(lines[1..], []));
      } else {
        DispatchBound(lines[1..], data + DataLines([lines[0]]));
        TotalAppend(data, DataLines([lines[0]]));
      }
    }
  }

  lemma OneDataLine(line: string)
    ensures Total(DataLines([line])) <= |line|
    ensures "data: " <= line ==> Total(DataLines([line])) == |line| - 5
  {
    var one := [line];
    assert one[1..] == [];
    if "data: " <= line {
      assert line[..5] == "data: "[..5];
    }
    if IsData(line) {
      var d := [DataOf(line)];
      assert d[1..] == [] && DataLines(one) == d;
    } else {
      assert DataLines(one) == [];
    }
  }

  lemma {:induction false} DataShrinks(lines: seq<string>)
    ensures Total(DataLines(lines)) + |lines| <= Total(lines)
  {
    if lines != [] {
      DataFirst(lines);
      OneDataLine(lines[0]);
      DataShrinks(lines[1..]);
    }
  }

  lemma {:induction false} LinesTotal(s: string, i: nat)
    requires i <= |s|
    ensures Total(LinesFrom(s, i)) <= |s| + 1
    ensures LinesFrom(s, i)[0] <= s
    ensures '\n' in s[i..] ==> |LinesFrom(s, i)| >= 2
    decreases |s|, |s| - i
  {
    if i >= |s| {
      LastLine(s);
      var one := [s];
      assert one[1..] == [];
    } else {
      match NewlineAt(s, i) {
        case Some(end) =>
          LineStep(s, i, end);
          LinesAreFrom(s[end..]);
          LinesTotal(s[end..], 0);
          var lines := [s[..i]] + Lines(s[end..]);
          assert lines[1..] == Lines(s[end..]);
        case None =>
          LinesTotal(s, i + 1);
          assert s[i..] == [s[i]] + s[i + 1..];
      }
    }
  }

  lemma FirstDataLine(x: string)
    ensures "data: " <= Lines("data: " + x)[0]
  {
    var s := "data: " + x;
    assert s[0] == 'd' && s[1] == 'a' && s[2] == 't' && s[3] == 'a' && s[4] == ':' && s[5] == ' ';
    LinesAreFrom(s);
    LineGoesOn(s, 0);
    LineGoesOn(s, 1);
    LineGoesOn(s, 2);
    LineGoesOn(s, 3);
    LineGoesOn(s, 4);
    LineGoesOn(s, 5);
    FirstLineReaches(s, 6);
    LinesTotal(s, 0);
    var first := Lines(s)[0];
    assert first == s[..|first|];
    assert first[..6] == s[..6] == "data: ";
  }

  /** A line that holds a newline delivers less text, newlines between events included, than it holds. */
  lemma NewlineLosesText(line: string)
    requires '\n' in line
    ensures Total(Told(line)) <= |line|
  {
    var x := Chopped(line);
    var s := "data: " + x;
    NewlineKept(line);
    FirstDataLine(x);
    LinesTotal(s, 0);
    LinesAreFrom(s);
    hide Chopped, LinesFrom, Lines, DataLines, Dispatch;
    assert s[0..] == s;
    var lines := Lines(s);
    var ended := lines + [""];
    DispatchBound(ended, []);
    DataFirst(ended);
    OneDataLine(lines[0]);
    assert ended[1..] == lines[1..] + [""];
    DataShrinks(ended[1..]);
    TotalAppend(lines[1..], [""]);
    BlankTotal();
  }

  lemma BlankTotal()
    ensures Total([""]) == 1
  {
    var one := [""];
    assert one[1..] == [];
  }

  lemma NewlineKept(line: string)
    requires '\n' in line
    ensures '\n' in "data: " + Chopped(line) && |Chopped(line)| <= |line|
  {
    var k :| 0 <= k < |line| && line[k] == '\n';
    assert Chopped(line)[k] == '\n';
    assert ("data: " + Chopped(line))[6 + k] == '\n';
  }

  /** A log line arrives as the one event it was exactly when it holds no newline and does not end in a carriage
      return. */
  lemma ArrivesAsSent(line: string)
    ensures Told(line) == [line] <==> '\n' !in line && Chopped(line) == line
  {
    if '\n' in line {
      NewlineLosesText(line);
      var one := [line];
      assert one[1..] == [] && Total(one) == |line| + 1;
    } else {
      OneLineArrives(line);
    }
  }

  lemma Joined(a: string, b: string)
    ensures "data: " + (a + "\n\ndata: " + b) == "data: " + a + "\n\n" + ("data: " + b)
  {
  }

  lemma JoinedTwice(u: string, v: string)
    ensures u + "\n\n" + v + "\n\n" + "" == u + "\n\n" + (v + "\n\n" + "")
  {
  }

  lemma ChoppedLast(u: string, v: string)
    requires v != "" && Chopped(v) == v
    ensures Chopped(u + v) == u + v
  {
  }

  // Two messages in one line: its lines are theirs.
  lemma TwoMessages(u: string, v: string)
    requires u != "" && u[0] != '\r' && v != "" && v[0] != '\r'
    requires '\n' !in u && '\n' !in v && Chopped(u) == u && Chopped(v) == v
    ensures Lines(u + "\n\n" + v) + [""] == [u] + [""] + ([v] + [""])
  {
    var s := u + "\n\n" + v;
    assert s[0] == u[0];
    ChoppedLast(u + "\n\n", v);
    MessageLines(s, "");
    MessageLines(u, v + "\n\n" + "");
    MessageLines(v, "");
    JoinedTwice(u, v);
    NoNewlineNoSplit(u, 0);
    NoNewlineNoSplit(v, 0);
    LastLine("");
    LinesAreFrom("");
    LinesAreFrom(u);
    LinesAreFrom(v);
    assert EndedLines("") == [];
    hide Chopped, Lines, LinesFrom, EndedLines;
    assert Lines(s) + [""] + [] == Lines(s) + [""];
    assert Lines(v) + [""] + [] == Lines(v) + [""];
  }

  /** A line with a blank line and a data line inside arrives as two events. */
  lemma ArrivesAsTwo(a: string, b: string)
    requires '\n' !in a && '\n' !in b && Chopped(a) == a && Chopped(b) == b
    ensures Told(a + "\n\ndata: " + b) == [a, b]
  {
    var u, v := "data: " + a, "data: " + b;
    ChoppedData(a);
    ChoppedData(b);
    Joined(a, b);
    TwoMessages(u, v);
    var line := a + "\n\ndata: " + b;
    ChoppedLast(u + "\n\n", v);
    ChoppedData(line);
    assert Chopped(line) == line by {
      assert ("data: " + Chopped(line))[6..] == ("data: " + line)[6..];
    }
    OneEvent(a);
    OneEvent(b);
    hide Chopped, Lines, Dispatch;
    DispatchReset([u], [v] + [""], []);
  }

  /** The same through the reader's loop, however the bytes were cut on the way. */
  method Deliver(ms: seq<Message>, chunks: seq<string>) returns (delivered: seq<string>)
    requires Concat(chunks) == Print(ms)
    ensures delivered == Sent(ms)
  {
    var rest;
    delivered, rest := StreamSSE(chunks);
    LinesArrive(ms);
  }
}
