/** The Server-Sent Events printer of irmik/sse/sse.go, and a parser written from the HTML Living Standard,
    section 9.2.5 (the stream grammar) and section 9.2.6 (interpreting a stream).

    Text is a sequence of characters; UTF-8 encoding and decoding are not part of this model. Retry is in
    nanoseconds. */
module Sse {
  import opened Common
  import opened Decimals
  import opened Strings

  datatype Event = Event(id: string, name: string, data: string, retry: int)

  /** What one call puts on the wire. */
  datatype Frame = Message(event: Event) | Note(text: string)

  const NANOS_PER_MILLI: int := 1_000_000

  // ----- The printer -----

  function Remove(s: string, c: char): (r: string)
    ensures c !in r && forall d :: d in r ==> d in s
  {
    if s == "" then "" else (if s[0] == c then "" else [s[0]]) + Remove(s[1..], c)
  }

  function Sanitize(s: string): (r: string)
    ensures '\n' !in r && '\r' !in r
  {
    Remove(Remove(s, '\n'), '\r')
  }

  function Field(name: string, value: string): string { name + ": " + value + "\n" }

  function DataLines(lines: seq<string>): string {
    if lines == [] then "" else Field("data", lines[0]) + DataLines(lines[1..])
  }

  function IdLine(e: Event): string { if e.id != "" then Field("id", Sanitize(e.id)) else "" }

  function NameLine(e: Event): string { if e.name != "" then Field("event", Sanitize(e.name)) else "" }

  function RetryLine(e: Event): string {
    if e.retry > 0 then Field("retry", Decimal(e.retry / NANOS_PER_MILLI)) else ""
  }

  function Format(e: Event): string {
    IdLine(e) + NameLine(e) + RetryLine(e) + DataLines(Split(e.data, '\n')) + "\n"
  }

  function NoteText(text: string): string { if text == "" then "ping" else text }

  function Wire(frames: seq<Frame>): string {
    if frames == [] then "" else Wire(frames[..|frames| - 1]) + Print(frames[|frames| - 1])
  }

  function Print(f: Frame): string {
    match f
    case Message(e) => Format(e)
    case Note(text) => ": " + NoteText(text) + "\n\n"
  }

  // ----- The printer as the program runs it -----

  class Writer {
    var out: string

    constructor ()
      ensures out == ""
    {
      out := "";
    }

    method WriteString(s: string)
      modifies this
      ensures out == old(out) + s
    {
      out := out + s;
    }
  }

  method WriteEvent(w: Writer, e: Event)
    modifies w
    ensures w.out == old(w.out) + Format(e)
  {
    WriteHead(w, e);
    WriteData(w, Split(e.data, '\n'));
    w.WriteString("\n");
    Regroup(old(w.out), IdLine(e), NameLine(e), RetryLine(e), DataLines(Split(e.data, '\n')));
  }

  lemma Regroup(out: string, a: string, b: string, c: string, d: string)
    ensures out + a + b + c + d + "\n" == out + (a + b + c + d + "\n")
  {
  }

  /** The optional fields that writeEvent puts before the data. */
  method WriteHead(w: Writer, e: Event)
    modifies w
    ensures w.out == old(w.out) + IdLine(e) + NameLine(e) + RetryLine(e)
  {
    if e.id != "" {
      w.WriteString(Field("id", Sanitize(e.id)));
    }
    assert w.out == old(w.out) + IdLine(e);
    if e.name != "" {
      w.WriteString(Field("event", Sanitize(e.name)));
    }
    assert w.out == old(w.out) + IdLine(e) + NameLine(e);
    if e.retry > 0 {
      w.WriteString(Field("retry", Decimal(e.retry / NANOS_PER_MILLI)));
    }
  }

  /** The loop of writeEvent over the lines of the data. */
  method WriteData(w: Writer, lines: seq<string>)
    modifies w
    ensures w.out == old(w.out) + DataLines(lines)
  {
    for i := 0 to |lines|
      invariant w.out == old(w.out) + DataLines(lines[..i])
    {
      DataLinesSnoc(lines[..i], lines[i]);
      assert lines[..i + 1] == lines[..i] + [lines[i]];
      w.WriteString(Field("data", lines[i]));
    }
    assert lines[..|lines|] == lines;
  }

  lemma {:induction false} DataLinesSnoc(lines: seq<string>, line: string)
    ensures DataLines(lines + [line]) == DataLines(lines) + Field("data", line)
  {
    if lines == [] {
      assert [line][1..] == [];
    } else {
      assert (lines + [line])[1..] == lines[1..] + [line];
      DataLinesSnoc(lines[1..], line);
    }
  }

  class Stream {
    const w: Writer
    var closed: bool
    ghost var frames: seq<Frame>

    /** The response holds exactly the frames accepted so far. */
    ghost predicate Valid()
      reads this, w
    {
      w.out == Wire(frames)
    }

    constructor ()
      ensures Valid() && fresh(w) && frames == [] && !closed
    {
      w := new Writer();
      closed, frames := false, [];
    }

    method Write(e: Event) returns (ok: bool)
      requires Valid()
      modifies this, w
      ensures Valid() && closed == old(closed) && ok == !old(closed)
      ensures frames == if ok then old(frames) + [Message(e)] else old(frames)
    {
      if closed {
        return false;
      }
      WriteEvent(w, e);
      frames := frames + [Message(e)];
      return true;
    }

    method Comment(text: string) returns (ok: bool)
      requires Valid()
      modifies this, w
      ensures Valid() && closed == old(closed) && ok == !old(closed)
      ensures frames == if ok then old(frames) + [Note(text)] else old(frames)
      ensures w.out == old(w.out) + if ok then ": " + (if text == "" then "ping" else text) + "\n\n" else ""
    {
      if closed {
        return false;
      }
      w.WriteString(": " + (if text == "" then "ping" else text) + "\n\n");
      frames := frames + [Note(text)];
      return true;
    }

    method Close()
      requires Valid()
      modifies `closed
      ensures Valid() && closed
    {
      closed := true;
    }
  }

  // ----- The parser of the standard -----

  /** A dispatched event. */
  datatype Dispatch = Dispatch(typ: string, data: string, lastEventId: string)

  /** An event source: its three buffers, its last event id string, its reconnection time and what it has dispatched. */
  datatype Source = Source(data: string, typ: string, id: string, lastEventId: string, retry: Option<nat>, out: seq<Dispatch>)

  const FRESH: Source := Source("", "", "", "", None, [])

  predicate IsBreak(c: char) { c == '\n' || c == '\r' }

  /** The position of the first line break, or the length when there is none. */
  function FirstBreak(s: string): (i: nat)
    ensures i <= |s| && (i < |s| ==> IsBreak(s[i]))
    ensures forall j :: 0 <= j < i ==> !IsBreak(s[j])
  {
    if s == "" || IsBreak(s[0]) then 0 else 1 + FirstBreak(s[1..])
  }

  function FirstColon(s: string): (i: nat)
    ensures i <= |s| && (i < |s| ==> s[i] == ':')
    ensures forall j :: 0 <= j < i ==> s[j] != ':'
  {
    if s == "" || s[0] == ':' then 0 else 1 + FirstColon(s[1..])
  }

  function ProcessField(src: Source, name: string, value: string): Source {
    if name == "event" then src.(typ := value)
    else if name == "data" then src.(data := src.data + (value + "\n"))
    else if name == "id" then (if '\0' in value then src else src.(id := value))
    else if name == "retry" then (if AllDigits(value) then src.(retry := Some(Number(value))) else src)
    else src
  }

  function DispatchEvent(src: Source): Source {
    var s := src.(lastEventId := src.id);
    if s.data == "" then s.(typ := "") else
    var n := |s.data|;
    var data := if s.data[n - 1] == '\n' then s.data[..n - 1] else s.data;
    var typ := if s.typ == "" then "message" else s.typ;
    s.(data := "", typ := "", out := s.out + [Dispatch(typ, data, s.lastEventId)])
  }

  function ProcessLine(src: Source, line: string): Source {
    if line == "" then DispatchEvent(src) else
    var i := FirstColon(line);
    if i == |line| then ProcessField(src, line, "")
    else if i == 0 then src
    else
      var value := line[i + 1..];
      ProcessField(src, line[..i], if value != "" && value[0] == ' ' then value[1..] else value)
  }

  /** Interpret the lines of the stream; an unfinished last line is discarded. */
  function Feed(src: Source, s: string): Source
    decreases |s|
  {
    var i := FirstBreak(s);
    if i == |s| then src else
    var next := if s[i] == '\r' && i + 1 < |s| && s[i + 1] == '\n' then i + 2 else i + 1;
    Feed(ProcessLine(src, s[..i]), s[next..])
  }

  function Parse(s: string): Source {
    Feed(FRESH, if s != "" && s[0] == '\U{FEFF}' then s[1..] else s)
  }

  // ----- What the consumer is meant to receive -----

  /** One event delivered to a source whose data and type buffers are empty. */
  function Deliver(src: Source, e: Event): Source {
    var id := if e.id == "" || '\0' in Sanitize(e.id) then src.id else Sanitize(e.id);
    var typ := if Sanitize(e.name) == "" then "message" else Sanitize(e.name);
    Source("", "", id, id,
           if e.retry > 0 then Some(e.retry / NANOS_PER_MILLI) else src.retry,
           src.out + [Dispatch(typ, e.data, id)])
  }

  /** What the standard makes of a comment on its own: nothing, unless its text holds line breaks. */
  function AfterNote(src: Source, text: string): Source { Feed(src, Print(Note(text))) }

  /** Frames delivered in order. */
  function DeliverAll(src: Source, frames: seq<Frame>): Source {
    if frames == [] then src else
    var before := DeliverAll(src, frames[..|frames| - 1]);
    match frames[|frames| - 1]
    case Message(e) => Deliver(before, e)
    case Note(text) => AfterNote(before, text)
  }

  /** Data without carriage returns; any comment. */
  predicate Faithful(f: Frame) { f.Message? ==> '\r' !in f.event.data }

  // ----- Line by line -----

  lemma {:induction false} FirstBreakOf(line: string, rest: string)
    requires '\n' !in line && '\r' !in line
    ensures FirstBreak(line + "\n" + rest) == |line|
  {
    var s := line + "\n" + rest;
    assert s[|line|] == '\n';
    assert forall i :: 0 <= i < |line| ==> s[i] == line[i];
  }

  lemma FeedLine(src: Source, line: string, rest: string)
    requires '\n' !in line && '\r' !in line
    ensures Feed(src, line + "\n" + rest) == Feed(ProcessLine(src, line), rest)
  {
    FirstBreakOf(line, rest);
    var s := line + "\n" + rest;
    assert s[..|line|] == line && s[|line|] == '\n' && s[|line| + 1..] == rest;
  }

  lemma FeedField(src: Source, name: string, value: string, rest: string)
    requires name != "" && ':' !in name && '\n' !in name && '\r' !in name && '\n' !in value && '\r' !in value
    ensures Feed(src, Field(name, value) + rest) == Feed(ProcessField(src, name, value), rest)
  {
    var line := name + ": " + value;
    assert Field(name, value) + rest == line + "\n" + rest;
    FeedLine(src, line, rest);
    var i := FirstColon(line);
    assert line[|name|] == ':';
    assert forall j :: 0 <= j < |name| ==> line[j] == name[j];
    assert line[..i] == name && line[i + 1..] == " " + value && (" " + value)[1..] == value;
  }

  /** Every line followed by a line feed: what the data fields leave in the data buffer. */
  function Terminated(lines: seq<string>): string {
    if lines == [] then "" else (lines[0] + "\n") + Terminated(lines[1..])
  }

  lemma {:induction false} TerminatedIsJoin(lines: seq<string>)
    requires |lines| > 0
    ensures Terminated(lines) == Join(lines, '\n') + "\n"
    decreases |lines|
  {
    if |lines| == 1 {
      assert Terminated(lines[1..]) == "";
    } else {
      TerminatedIsJoin(lines[1..]);
    }
  }

  lemma Assoc(a: string, b: string, c: string)
    ensures a + (b + c) == a + b + c
  {
  }

  lemma {:induction false} FeedDataLines(src: Source, lines: seq<string>, rest: string)
    requires forall i :: 0 <= i < |lines| ==> '\n' !in lines[i] && '\r' !in lines[i]
    ensures Feed(src, DataLines(lines) + rest) == Feed(src.(data := src.data + Terminated(lines)), rest)
    decreases |lines|
  {
    if lines == [] {
      assert DataLines(lines) + rest == rest;
      assert src.data + Terminated(lines) == src.data;
    } else {
      var first, tail := lines[0], DataLines(lines[1..]);
      Assoc(Field("data", first), tail, rest);
      FeedField(src, "data", first, tail + rest);
      var next := src.(data := src.data + (first + "\n"));
      FeedDataLines(next, lines[1..], rest);
      Assoc(src.data, first + "\n", Terminated(lines[1..]));
    }
  }

  // ----- One event -----

  /** The fields before the data. */
  function HeadFields(src: Source, e: Event): Source {
    var a := if e.id == "" || '\0' in Sanitize(e.id) then src else src.(id := Sanitize(e.id));
    var b := if e.name == "" then a else a.(typ := Sanitize(e.name));
    if e.retry > 0 then b.(retry := Some(e.retry / NANOS_PER_MILLI)) else b
  }

  lemma FeedId(src: Source, e: Event, rest: string)
    ensures Feed(src, IdLine(e) + rest)
         == Feed(if e.id == "" || '\0' in Sanitize(e.id) then src else src.(id := Sanitize(e.id)), rest)
  {
    if e.id != "" {
      FeedField(src, "id", Sanitize(e.id), rest);
    } else {
      assert IdLine(e) + rest == rest;
    }
  }

  lemma FeedName(src: Source, e: Event, rest: string)
    ensures Feed(src, NameLine(e) + rest) == Feed(if e.name == "" then src else src.(typ := Sanitize(e.name)), rest)
  {
    if e.name != "" {
      FeedField(src, "event", Sanitize(e.name), rest);
    } else {
      assert NameLine(e) + rest == rest;
    }
  }

  lemma ProcessRetry(src: Source, n: nat)
    ensures ProcessField(src, "retry", Decimal(n)) == src.(retry := Some(n))
  {
    DecimalIsNumber(n);
    var value := Decimal(n);
    assert AllDigits(value) && Number(value) == n;
  }

  lemma FeedRetry(src: Source, e: Event, rest: string)
    ensures Feed(src, RetryLine(e) + rest)
         == Feed(if e.retry > 0 then src.(retry := Some(e.retry / NANOS_PER_MILLI)) else src, rest)
  {
    if e.retry > 0 {
      var n := e.retry / NANOS_PER_MILLI;
      DecimalIsNumber(n);
      DigitsAreNot(Decimal(n), '\n');
      DigitsAreNot(Decimal(n), '\r');
      FeedField(src, "retry", Decimal(n), rest);
      ProcessRetry(src, n);
    } else {
      assert RetryLine(e) + rest == rest;
    }
  }

  lemma FeedHead(src: Source, e: Event, rest: string)
    ensures Feed(src, IdLine(e) + (NameLine(e) + (RetryLine(e) + rest))) == Feed(HeadFields(src, e), rest)
  {
    FeedId(src, e, NameLine(e) + (RetryLine(e) + rest));
    var a := if e.id == "" || '\0' in Sanitize(e.id) then src else src.(id := Sanitize(e.id));
    FeedName(a, e, RetryLine(e) + rest);
    var b := if e.name == "" then a else a.(typ := Sanitize(e.name));
    FeedRetry(b, e, rest);
  }

  lemma FeedEvent(src: Source, e: Event, rest: string)
    requires src.data == "" && src.typ == "" && '\r' !in e.data
    ensures Feed(src, Format(e) + rest) == Feed(Deliver(src, e), rest)
  {
    var lines := Split(e.data, '\n');
    var body := DataLines(lines) + ("\n" + rest);
    RegroupFormat(IdLine(e), NameLine(e), RetryLine(e), DataLines(lines), rest);
    FeedHead(src, e, body);
    var a := HeadFields(src, e);
    FeedDataLines(a, lines, "\n" + rest);
    TerminatedIsJoin(lines);
    FeedEnd(src, e, rest);
  }

  lemma RegroupFormat(a: string, b: string, c: string, d: string, rest: string)
    ensures (a + b + c + d + "\n") + rest == a + (b + (c + (d + ("\n" + rest))))
  {
  }

  lemma DispatchesEvent(src: Source, e: Event)
    requires src.data == "" && src.typ == ""
    ensures var a := HeadFields(src, e);
      DispatchEvent(a.(data := a.data + (e.data + "\n"))) == Deliver(src, e)
  {
    var a := HeadFields(src, e);
    var data := a.data + (e.data + "\n");
    assert data == e.data + "\n" && data[..|data| - 1] == e.data;
  }

  lemma FeedBlank(src: Source, rest: string)
    ensures Feed(src, "\n" + rest) == Feed(DispatchEvent(src), rest)
  {
    assert "\n" + rest == "" + "\n" + rest;
    FeedLine(src, "", rest);
  }

  /** The empty line that ends an event. */
  lemma FeedEnd(src: Source, e: Event, rest: string)
    requires src.data == "" && src.typ == ""
    ensures var a := HeadFields(src, e);
      Feed(a.(data := a.data + (e.data + "\n")), "\n" + rest) == Feed(Deliver(src, e), rest)
  {
    var a := HeadFields(src, e);
    FeedBlank(a.(data := a.data + (e.data + "\n")), rest);
    DispatchesEvent(src, e);
  }

  // ----- Comments -----

  function AfterBreak(s: string): (n: nat)
    requires FirstBreak(s) < |s|
    ensures FirstBreak(s) < n <= |s|
  {
    var i := FirstBreak(s);
    if s[i] == '\r' && i + 1 < |s| && s[i + 1] == '\n' then i + 2 else i + 1
  }

  predicate EndsInLineFeed(s: string) { s != "" && s[|s| - 1] == '\n' }

  /** The last of the two is an empty line. */
  predicate EndsInBlank(s: string) { s == "\n" || (|s| >= 2 && s[|s| - 2] == '\n' && s[|s| - 1] == '\n') }

  lemma BreakStays(a: string, rest: string)
    requires EndsInLineFeed(a)
    ensures FirstBreak(a) < |a| && FirstBreak(a + rest) == FirstBreak(a) && AfterBreak(a + rest) == AfterBreak(a)
    ensures (a + rest)[..FirstBreak(a)] == a[..FirstBreak(a)]
    ensures (a + rest)[AfterBreak(a)..] == a[AfterBreak(a)..] + rest
  {
    var s := a + rest;
    assert forall i :: 0 <= i < |a| ==> s[i] == a[i];
  }

  /** A stream can be cut after any line feed. */
  lemma {:induction false} FeedJoins(src: Source, a: string, rest: string)
    requires a == "" || EndsInLineFeed(a)
    ensures Feed(src, a + rest) == Feed(Feed(src, a), rest)
    decreases |a|
  {
    if a == "" {
      assert a + rest == rest;
    } else {
      BreakStays(a, rest);
      FeedJoins(ProcessLine(src, a[..FirstBreak(a)]), a[AfterBreak(a)..], rest);
    }
  }

  /** An empty line empties the buffers. */
  lemma {:induction false} BlankEmpties(src: Source, s: string)
    requires EndsInBlank(s)
    ensures Feed(src, s).data == "" && Feed(src, s).typ == ""
    decreases |s|
  {
    var i, n := FirstBreak(s), AfterBreak(s);
    var next := ProcessLine(src, s[..i]);
    if n == |s| {
      assert i == 0 && s[..0] == "";
    } else {
      BlankEmpties(next, s[n..]);
    }
  }

  predicate DataLine(line: string) { line == "data" || (|line| >= 5 && line[..5] == "data:") }

  /** Some finished line of the stream is a data field. */
  predicate HasData(s: string)
    decreases |s|
  {
    FirstBreak(s) < |s| && (DataLine(s[..FirstBreak(s)]) || HasData(s[AfterBreak(s)..]))
  }

  lemma LineEffect(src: Source, line: string)
    ensures var next := ProcessLine(src, line);
      && |next.out| >= |src.out|
      && (DataLine(line) ==> next.data != "" && next.out == src.out)
      && (line == "" && src.data != "" ==> |next.out| > |src.out|)
      && (!DataLine(line) && src.data == "" ==> next.data == "" && next.out == src.out)
      && (line != "" && src.data != "" ==> next.data != "")
  {
    if DataLine(line) {
      assert line[..4] == "data";
      assert line[0] == 'd' && line[1] == 'a' && line[2] == 't' && line[3] == 'a';
      assert line != "data" ==> line[..5][4] == ':';
      assert FirstColon(line) == 4;
    } else if FirstColon(line) < |line| {
      assert line[..FirstColon(line)] == "data" ==> line[..5] == "data:";
    }
  }

  lemma {:induction false} SilentFeed(src: Source, s: string)
    requires src.data == "" && !HasData(s)
    ensures Feed(src, s).out == src.out
    decreases |s|
  {
    var i := FirstBreak(s);
    if i < |s| {
      LineEffect(src, s[..i]);
      SilentFeed(ProcessLine(src, s[..i]), s[AfterBreak(s)..]);
    }
  }

  lemma {:induction false} OutGrows(src: Source, s: string)
    ensures |Feed(src, s).out| >= |src.out|
    decreases |s|
  {
    var i := FirstBreak(s);
    if i < |s| {
      LineEffect(src, s[..i]);
      OutGrows(ProcessLine(src, s[..i]), s[AfterBreak(s)..]);
    }
  }

  lemma {:induction false} DataIsDispatched(src: Source, s: string)
    requires EndsInBlank(s) && (src.data != "" || HasData(s))
    ensures |Feed(src, s).out| > |src.out|
    decreases |s|
  {
    var i, n := FirstBreak(s), AfterBreak(s);
    var next := ProcessLine(src, s[..i]);
    LineEffect(src, s[..i]);
    if |next.out| > |src.out| {
      OutGrows(next, s[n..]);
    } else {
      assert n < |s| && EndsInBlank(s[n..]);
      DataIsDispatched(next, s[n..]);
    }
  }

  /** A comment whose text puts no data field on a line of its own. */
  predicate Silent(text: string) { !HasData(Print(Note(text))) }

  lemma NoteEnds(text: string)
    ensures EndsInBlank(Print(Note(text))) && EndsInLineFeed(Print(Note(text)))
  {
  }

  /** Main result: a comment between events delivers nothing if and only if its text puts no data field on a line of
      its own. */
  lemma NoteDeliversNothingIff(src: Source, text: string)
    requires src.data == "" && src.typ == ""
    ensures AfterNote(src, text).out == src.out <==> Silent(text)
    ensures AfterNote(src, text).data == "" && AfterNote(src, text).typ == ""
  {
    NoteEnds(text);
    BlankEmpties(src, Print(Note(text)));
    if Silent(text) {
      SilentFeed(src, Print(Note(text)));
    } else {
      DataIsDispatched(src, Print(Note(text)));
    }
  }

  /** Text without line breaks is silent, and leaves the source as it was. */
  lemma PlainNote(src: Source, text: string)
    requires src.data == "" && src.typ == "" && '\r' !in text && '\n' !in text
    ensures AfterNote(src, text) == src.(lastEventId := src.id) && Silent(text)
  {
    var line := ": " + NoteText(text);
    assert Print(Note(text)) == line + "\n" + ("" + "\n" + "");
    FeedLine(src, line, "" + "\n" + "");
    assert line[0] == ':';
    FeedLine(src, "", "");
    NoteDeliversNothingIff(src, text);
  }

  lemma HasDataLine(line: string, rest: string)
    requires '\r' !in line && '\n' !in line
    ensures HasData(line + "\n" + rest) <==> DataLine(line) || HasData(rest)
  {
    var s := line + "\n" + rest;
    FirstBreakOf(line, rest);
    assert s[..|line|] == line && s[|line| + 1..] == rest;
  }

  /** A line of the comment after its first that is a data field. */
  lemma SecondLineSpeaks(first: string, line: string)
    requires '\r' !in first && '\n' !in first && '\r' !in line && '\n' !in line && DataLine(line)
    ensures !Silent(first + "\n" + line)
  {
    var head, rest := ": " + first, line + "\n" + "\n";
    assert Print(Note(first + "\n" + line)) == head + "\n" + rest;
    HasDataLine(line, "\n");
    HasDataLine(head, rest);
  }

  /** Comments are not sanitized: a line break in one can make it deliver an event. */
  lemma CommentDelivers()
    ensures !Silent("a" + "\n" + "data: b")
  {
    assert "data: b"[..5] == "data:";
    SecondLineSpeaks("a", "data: b");
  }

  // ----- Whole streams -----

  lemma {:induction false} FeedFrames(src: Source, frames: seq<Frame>, rest: string)
    requires src.data == "" && src.typ == "" && forall i :: 0 <= i < |frames| ==> Faithful(frames[i])
    ensures DeliverAll(src, frames).data == "" && DeliverAll(src, frames).typ == ""
    ensures Feed(src, Wire(frames) + rest) == Feed(DeliverAll(src, frames), rest)
    decreases |frames|
  {
    if frames == [] {
      assert Wire(frames) + rest == rest;
    } else {
      var n := |frames| - 1;
      var f, p := frames[n], frames[..n];
      assert Wire(frames) + rest == Wire(p) + (Print(f) + rest);
      FeedFrames(src, p, Print(f) + rest);
      match f
      case Message(e) => FeedEvent(DeliverAll(src, p), e, rest);
      case Note(text) =>
        NoteEnds(text);
        NoteDeliversNothingIff(DeliverAll(src, p), text);
        FeedJoins(DeliverAll(src, p), Print(f), rest);
    }
  }

  predicate Opener(c: char) { c == 'i' || c == 'e' || c == 'r' || c == 'd' || c == ':' }

  /** The first character of anything printed: no frame starts with a byte order mark. */
  lemma {:induction false} NoByteOrderMark(frames: seq<Frame>)
    ensures Wire(frames) != "" ==> Opener(Wire(frames)[0])
    decreases |frames|
  {
    if frames != [] {
      var n := |frames| - 1;
      NoByteOrderMark(frames[..n]);
      if Wire(frames[..n]) == "" {
        assert Wire(frames) == Print(frames[n]);
        if frames[n].Message? {
          var e := frames[n].event;
          assert DataLines(Split(e.data, '\n'))[0] == 'd';
          assert Format(e)[0] == (if e.id != "" then 'i' else if e.name != "" then 'e' else if e.retry > 0 then 'r' else 'd');
        }
      }
    }
  }

  lemma FeedAll(frames: seq<Frame>)
    requires forall i :: 0 <= i < |frames| ==> Faithful(frames[i])
    ensures Feed(FRESH, Wire(frames)) == DeliverAll(FRESH, frames)
  {
    FeedFrames(FRESH, frames, "");
    assert Wire(frames) + "" == Wire(frames);
  }

  /** Main result: parsing any stream of events and comments by the standard delivers exactly the events
      written, in order. */
  lemma ParseUndoesPrint(frames: seq<Frame>)
    requires forall i :: 0 <= i < |frames| ==> Faithful(frames[i])
    ensures Parse(Wire(frames)) == DeliverAll(FRESH, frames)
  {
    FeedAll(frames);
    NoByteOrderMark(frames);
  }

  function Events(frames: seq<Frame>): seq<Event> {
    if frames == [] then [] else
    Events(frames[..|frames| - 1])
    + match frames[|frames| - 1] { case Message(e) => [e] case Note(_) => [] }
  }

  predicate Quiet(f: Frame) { f.Note? ==> Silent(f.text) }

  lemma {:induction false} BuffersEmpty(frames: seq<Frame>)
    ensures DeliverAll(FRESH, frames).data == "" && DeliverAll(FRESH, frames).typ == ""
    decreases |frames|
  {
    if frames != [] {
      BuffersEmpty(frames[..|frames| - 1]);
      var f := frames[|frames| - 1];
      if f.Note? {
        NoteDeliversNothingIff(DeliverAll(FRESH, frames[..|frames| - 1]), f.text);
      }
    }
  }

  /** One dispatch per event, in order, with the data unchanged and the type sanitized. */
  ghost predicate InOrder(out: seq<Dispatch>, events: seq<Event>) {
    && |out| == |events|
    && forall i :: 0 <= i < |events| ==>
         && out[i].data == events[i].data
         && out[i].typ == (if Sanitize(events[i].name) == "" then "message" else Sanitize(events[i].name))
         && (Sanitize(events[i].id) != "" && '\0' !in events[i].id ==> out[i].lastEventId == Sanitize(events[i].id))
         && (OneLine(events[i].name) ==> out[i].typ == if events[i].name == "" then "message" else events[i].name)
         && (OneLine(events[i].id) && events[i].id != "" && '\0' !in events[i].id ==> out[i].lastEventId == events[i].id)
  }

  predicate OneLine(s: string) { '\n' !in s && '\r' !in s }

  lemma {:induction false} RemoveJoins(a: string, b: string, c: char)
    ensures Remove(a + b, c) == Remove(a, c) + Remove(b, c)
    decreases |a|
  {
    if a == "" {
      assert a + b == b;
    } else {
      var head := if a[0] == c then "" else [a[0]];
      assert (a + b)[0] == a[0] && (a + b)[1..] == a[1..] + b;
      RemoveJoins(a[1..], b, c);
      assert Remove(a + b, c) == head + (Remove(a[1..], c) + Remove(b, c));
    }
  }

  lemma {:induction false} RemoveNothing(s: string, c: char)
    requires c !in s
    ensures Remove(s, c) == s
    decreases |s|
  {
    if s != "" {
      RemoveNothing(s[1..], c);
    }
  }

  lemma SanitizeJoins(a: string, b: string)
    ensures Sanitize(a + b) == Sanitize(a) + Sanitize(b)
  {
    RemoveJoins(a, b, '\n');
    RemoveJoins(Remove(a, '\n'), Remove(b, '\n'), '\r');
  }

  lemma SanitizeOne(c: char)
    ensures Sanitize([c]) == if IsBreak(c) then "" else [c]
  {
    assert [c][1..] == "";
    assert Remove([c], '\n') == if c == '\n' then "" else [c];
    assert Remove([c], '\r') == if c == '\r' then "" else [c];
  }

  lemma SanitizeKeeps(s: string)
    requires OneLine(s)
    ensures Sanitize(s) == s
  {
    RemoveNothing(s, '\n');
    RemoveNothing(s, '\r');
  }

  /** Sanitizing takes line breaks out and nothing else. */
  lemma SanitizeDropsBreaks(a: string, c: char, b: string)
    ensures Sanitize(a + [c] + b) == if IsBreak(c) then Sanitize(a + b) else Sanitize(a) + [c] + Sanitize(b)
  {
    SanitizeOne(c);
    SanitizeJoins(a + [c], b);
    SanitizeJoins(a, [c]);
    SanitizeJoins(a, b);
  }

  lemma {:induction false} DeliversInOrder(frames: seq<Frame>)
    requires forall i :: 0 <= i < |frames| ==> Quiet(frames[i])
    ensures InOrder(DeliverAll(FRESH, frames).out, Events(frames))
    decreases |frames|
  {
    if frames != [] {
      var p, f := frames[..|frames| - 1], frames[|frames| - 1];
      DeliversInOrder(p);
      BuffersEmpty(p);
      if f.Message? {
        if OneLine(f.event.name) {
          SanitizeKeeps(f.event.name);
        }
        if OneLine(f.event.id) {
          SanitizeKeeps(f.event.id);
        }
      }
      if f.Note? {
        NoteDeliversNothingIff(DeliverAll(FRESH, p), f.text);
      }
    }
  }

  /** Main result, spelled out: with silent comments and data free of carriage returns, the standard's parser makes of
      the printed stream one dispatch per event. */
  lemma DeliveredInOrder(frames: seq<Frame>)
    requires forall i :: 0 <= i < |frames| ==> Faithful(frames[i]) && Quiet(frames[i])
    ensures InOrder(Parse(Wire(frames)).out, Events(frames))
  {
    ParseUndoesPrint(frames);
    DeliversInOrder(frames);
  }

  // ----- The condition on carriage returns is exact -----

  ghost predicate NoReturn(src: Source) {
    '\r' !in src.data && forall i :: 0 <= i < |src.out| ==> '\r' !in src.out[i].data
  }

  lemma LineNoReturn(src: Source, line: string)
    requires NoReturn(src) && '\r' !in line
    ensures NoReturn(ProcessLine(src, line))
  {
  }

  lemma {:induction false} FeedNoReturn(src: Source, s: string)
    requires NoReturn(src)
    ensures NoReturn(Feed(src, s))
    decreases |s|
  {
    var i := FirstBreak(s);
    if i < |s| {
      var next := if s[i] == '\r' && i + 1 < |s| && s[i + 1] == '\n' then i + 2 else i + 1;
      LineNoReturn(src, s[..i]);
      FeedNoReturn(ProcessLine(src, s[..i]), s[next..]);
    }
  }

  /** The data of an event arrives unchanged exactly when it holds no carriage return: the printer splits
      data at line feeds only. */
  lemma DataArrivesIff(e: Event)
    ensures (exists i :: 0 <= i < |Parse(Format(e)).out| && Parse(Format(e)).out[i].data == e.data)
            <==> '\r' !in e.data
  {
    var s := Format(e);
    if '\r' !in e.data {
      var frames := [Message(e)];
      assert frames[..0] == [];
      assert Wire(frames) == "" + Format(e) == s;
      ParseUndoesPrint(frames);
      assert Parse(s).out == [Deliver(FRESH, e).out[0]];
      assert Parse(s).out[0].data == e.data;
    } else {
      FeedNoReturn(FRESH, if s != "" && s[0] == '\U{FEFF}' then s[1..] else s);
    }
  }
}
