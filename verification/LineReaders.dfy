/** The two incremental stream readers: the console's event-stream parser and the model
    client's line sanitizer. Both must not care how the network cuts the text. */
module LineReaders {
  import opened Wrappers
  import opened Basics

  predicate NoNewline(s: string) {
    '\n' !in s
  }

  /** The position of the first line feed, or the length when there is none. */
  function IndexOfNewline(s: string): (i: nat)
    ensures i <= |s| && NoNewline(s[..i]) && (i < |s| ==> s[i] == '\n')
  {
    if s == "" || s[0] == '\n' then 0 else 1 + IndexOfNewline(s[1..])
  }

  /** Drops one trailing carriage return. */
  function Chomp(line: string): string {
    if line != "" && line[|line| - 1] == '\r' then line[..|line| - 1] else line
  }

  /** `text.split(/\r?\n/)`: at least one piece; the last one is what no line feed ended. */
  function SplitLines(text: string): (pieces: seq<string>)
    ensures |pieces| > 0
  {
    var i := IndexOfNewline(text);
    if i == |text| then [text] else [Chomp(text[..i])] + SplitLines(text[i + 1..])
  }

  // ----- the event-stream parser -----

  datatype Event = Event(name: string, data: string, id: Option<string>)

  /** The parser's fields but its buffer, and the events delivered so far. */
  datatype Parsed = Parsed(eventName: string, eventId: Option<string>, dataLines: seq<string>, events: seq<Event>)

  const NOTHING_PARSED := Parsed("message", None, [], [])

  function JoinLines(lines: seq<string>): string {
    if lines == [] then "" else if |lines| == 1 then lines[0] else lines[0] + "\n" + JoinLines(lines[1..])
  }

  /** An event without data is not delivered; an empty id is left out. */
  function Dispatched(p: Parsed): Parsed {
    if p.dataLines == [] then p
    else
      var id := if p.eventId.Some? && p.eventId.value != "" then p.eventId else None;
      Parsed("message", None, [], p.events + [Event(p.eventName, JoinLines(p.dataLines), id)])
  }

  function IndexOfColon(s: string): (i: nat)
    ensures i <= |s| && (i < |s| ==> s[i] == ':')
  {
    if s == "" || s[0] == ':' then 0 else 1 + IndexOfColon(s[1..])
  }

  function DropOneSpace(s: string): string {
    if s != "" && s[0] == ' ' then s[1..] else s
  }

  function Consumed(p: Parsed, line: string): Parsed {
    if line == "" then Dispatched(p)
    else if line[0] == ':' then p
    else
      var i := IndexOfColon(line);
      var field := line[..i];
      var value := if i < |line| then DropOneSpace(line[i + 1..]) else "";
      if field == "event" then p.(eventName := value)
      else if field == "id" then p.(eventId := Some(value))
      else if field == "data" then p.(dataLines := p.dataLines + [value])
      else p
  }

  /** The reference reader: one character at a time, a line consumed at each line feed. */
  datatype Reader = Reader(parsed: Parsed, line: string)

  function Fed(s: Reader, c: char): Reader {
    if c == '\n' then Reader(Consumed(s.parsed, Chomp(s.line)), "") else s.(line := s.line + [c])
  }

  function FedAll(s: Reader, text: string): Reader
    decreases |text|
  {
    if text == "" then s else FedAll(Fed(s, text[0]), text[1..])
  }

  function Closed(s: Reader): Parsed {
    Dispatched(if s.line != "" then Consumed(s.parsed, Chomp(s.line)) else s.parsed)
  }

  /** What a whole text means. */
  function EventsOf(text: string): seq<Event> {
    Closed(FedAll(Reader(NOTHING_PARSED, ""), text)).events
  }

  function ConsumedAll(p: Parsed, lines: seq<string>): Parsed
    decreases |lines|
  {
    if lines == [] then p else ConsumedAll(Consumed(p, lines[0]), lines[1..])
  }

  lemma {:induction false} FedInTwo(s: Reader, a: string, b: string)
    ensures FedAll(s, a + b) == FedAll(FedAll(s, a), b)
    decreases |a|
  {
    if a == "" {
      assert a + b == b;
    } else {
      FedInTwo(Fed(s, a[0]), a[1..], b);
      assert (a + b)[1..] == a[1..] + b;
    }
  }

  lemma {:induction false} FedPlain(s: Reader, text: string)
    requires NoNewline(text)
    ensures FedAll(s, text) == s.(line := s.line + text)
    decreases |text|
  {
    if text == "" {
      assert s.line + text == s.line;
    } else {
      FedPlain(Fed(s, text[0]), text[1..]);
      assert s.line + [text[0]] + text[1..] == s.line + text;
    }
  }

  lemma FedLine(p: Parsed, head: string, tail: string)
    requires NoNewline(head)
    ensures FedAll(Reader(p, ""), head + (['\n'] + tail)) == FedAll(Reader(Consumed(p, Chomp(head)), ""), tail)
  {
    var s := Reader(p, "");
    FedInTwo(s, head, ['\n'] + tail);
    FedPlain(s, head);
    assert "" + head == head;
    assert (['\n'] + tail)[0] == '\n' && (['\n'] + tail)[1..] == tail;
  }

  /** Splitting a buffer and consuming its pieces is feeding it character by character. */
  lemma {:induction false} SplitIsFed(p: Parsed, text: string)
    ensures var pieces := SplitLines(text);
      FedAll(Reader(p, ""), text)
      == Reader(ConsumedAll(p, pieces[..|pieces| - 1]), pieces[|pieces| - 1])
    decreases |text|
  {
    var i := IndexOfNewline(text);
    var pieces := SplitLines(text);
    if i == |text| {
      assert text[..i] == text;
      FedPlain(Reader(p, ""), text);
      assert "" + text == text;
    } else {
      var head, tail := text[..i], text[i + 1..];
      assert text == head + (['\n'] + tail);
      FedLine(p, head, tail);
      SplitIsFed(Consumed(p, Chomp(head)), tail);
      var rest := SplitLines(tail);
      assert pieces[1..] == rest && pieces[..|pieces| - 1][1..] == rest[..|rest| - 1];
    }
  }

  // ----- what a server sends -----

  /** An event as the wire format writes it: its data is one `data` field per line. */
  datatype Sent = Sent(name: string, id: Option<string>, lines: seq<string>)

  predicate OneLine(s: string) {
    forall i :: 0 <= i < |s| ==> s[i] != '\n' && s[i] != '\r'
  }

  predicate AllOneLine(lines: seq<string>) {
    forall k :: 0 <= k < |lines| ==> OneLine(lines[k])
  }

  predicate Sendable(m: Sent) {
    && OneLine(m.name)
    && (m.id.Some? ==> OneLine(m.id.value) && m.id.value != "")
    && m.lines != [] && AllOneLine(m.lines)
  }

  predicate AllSendable(ms: seq<Sent>) {
    ms != [] ==> Sendable(ms[0]) && AllSendable(ms[1..])
  }

  function FieldLine(field: string, value: string): string {
    field + ([':', ' '] + value)
  }

  function Encoded(fields: seq<string>): string {
    if fields == [] then "" else fields[0] + (['\n'] + Encoded(fields[1..]))
  }

  function DataFields(lines: seq<string>): seq<string> {
    if lines == [] then [] else [FieldLine("data", lines[0])] + DataFields(lines[1..])
  }

  /** The lines of one event, the empty line that ends it included. */
  function FieldsOf(m: Sent): seq<string> {
    [FieldLine("event", m.name)] + (if m.id.Some? then [FieldLine("id", m.id.value)] else [])
    + DataFields(m.lines) + [""]
  }

  function FieldsOfAll(ms: seq<Sent>): seq<string> {
    if ms == [] then [] else FieldsOf(ms[0]) + FieldsOfAll(ms[1..])
  }

  function DeliveredAll(ms: seq<Sent>): seq<Event> {
    if ms == [] then []
    else [Event(ms[0].name, JoinLines(ms[0].lines), ms[0].id)] + DeliveredAll(ms[1..])
  }

  lemma {:induction false} ColonAfter(field: string, value: string)
    requires ':' !in field
    ensures IndexOfColon(field + ([':'] + value)) == |field|
    decreases |field|
  {
    if field != "" {
      assert (field + ([':'] + value))[1..] == field[1..] + ([':'] + value);
      ColonAfter(field[1..], value);
    }
  }

  /** A field line sets exactly its field, to exactly its value. */
  lemma FieldIsConsumed(p: Parsed, field: string, value: string)
    requires field == "event" || field == "id" || field == "data"
    ensures Consumed(p, FieldLine(field, value)) ==
            if field == "event" then p.(eventName := value)
            else if field == "id" then p.(eventId := Some(value))
            else p.(dataLines := p.dataLines + [value])
  {
    var line := FieldLine(field, value);
    assert line == field + ([':'] + ([' '] + value));
    ColonAfter(field, [' '] + value);
    assert line[..|field|] == field && line[|field| + 1..] == [' '] + value;
    assert ([' '] + value)[1..] == value;
  }

  lemma {:induction false} ConsumedInTwo(p: Parsed, a: seq<string>, b: seq<string>)
    ensures ConsumedAll(p, a + b) == ConsumedAll(ConsumedAll(p, a), b)
    decreases |a|
  {
    if a == [] {
      assert a + b == b;
    } else {
      ConsumedInTwo(Consumed(p, a[0]), a[1..], b);
      assert (a + b)[1..] == a[1..] + b;
    }
  }

  lemma ConsumedOne(p: Parsed, line: string)
    ensures ConsumedAll(p, [line]) == Consumed(p, line)
  {
  }

  lemma DataLineIsConsumed(p: Parsed, value: string, rest: seq<string>)
    ensures ConsumedAll(p, [FieldLine("data", value)] + rest)
         == ConsumedAll(p.(dataLines := p.dataLines + [value]), rest)
  {
    FieldIsConsumed(p, "data", value);
    assert ([FieldLine("data", value)] + rest)[1..] == rest;
  }

  lemma {:induction false} DataIsConsumed(p: Parsed, lines: seq<string>)
    ensures ConsumedAll(p, DataFields(lines)) == p.(dataLines := p.dataLines + lines)
    decreases |lines|
  {
    if lines == [] {
      assert p.dataLines + [] == p.dataLines;
    } else {
      DataLineIsConsumed(p, lines[0], DataFields(lines[1..]));
      DataIsConsumed(p.(dataLines := p.dataLines + [lines[0]]), lines[1..]);
      assert p.dataLines + [lines[0]] + lines[1..] == p.dataLines + lines;
    }
  }

  lemma EventIsConsumed(p: Parsed, m: Sent)
    requires Sendable(m) && p == NOTHING_PARSED.(events := p.events)
    ensures ConsumedAll(p, FieldsOf(m))
         == p.(events := p.events + [Event(m.name, JoinLines(m.lines), m.id)])
  {
    var name, id, data := [FieldLine("event", m.name)], if m.id.Some? then [FieldLine("id", m.id.value)] else [],
                          DataFields(m.lines);
    FieldIsConsumed(p, "event", m.name);
    ConsumedOne(p, FieldLine("event", m.name));
    var p1 := p.(eventName := m.name);
    if m.id.Some? {
      FieldIsConsumed(p1, "id", m.id.value);
      ConsumedOne(p1, FieldLine("id", m.id.value));
    }
    var p2 := p1.(eventId := m.id);
    DataIsConsumed(p2, m.lines);
    var p3 := p2.(dataLines := m.lines);
    assert p2.dataLines + m.lines == m.lines;
    ConsumedOne(p3, "");
    ConsumedInTwo(p, name, id);
    ConsumedInTwo(p, name + id, data);
    ConsumedInTwo(p, name + id + data, [""]);
  }

  function AfterOne(p: Parsed, m: Sent): Parsed {
    p.(events := p.events + [Event(m.name, JoinLines(m.lines), m.id)])
  }

  lemma EventThenRest(p: Parsed, ms: seq<Sent>)
    requires ms != [] && Sendable(ms[0]) && p == NOTHING_PARSED.(events := p.events)
    ensures ConsumedAll(p, FieldsOfAll(ms)) == ConsumedAll(AfterOne(p, ms[0]), FieldsOfAll(ms[1..]))
  {
    ConsumedInTwo(p, FieldsOf(ms[0]), FieldsOfAll(ms[1..]));
    EventIsConsumed(p, ms[0]);
  }

  lemma DeliveredNext(p: Parsed, ms: seq<Sent>)
    requires ms != []
    ensures AfterOne(p, ms[0]).events + DeliveredAll(ms[1..]) == p.events + DeliveredAll(ms)
  {
    Regroup(p.events, [Event(ms[0].name, JoinLines(ms[0].lines), ms[0].id)], DeliveredAll(ms[1..]));
  }

  lemma {:induction false} EventsAreConsumed(p: Parsed, ms: seq<Sent>)
    requires AllSendable(ms) && p == NOTHING_PARSED.(events := p.events)
    ensures ConsumedAll(p, FieldsOfAll(ms)) == p.(events := p.events + DeliveredAll(ms))
    decreases |ms|
  {
    if ms == [] {
      assert p.events + [] == p.events;
    } else {
      EventThenRest(p, ms);
      EventsAreConsumed(AfterOne(p, ms[0]), ms[1..]);
      DeliveredNext(p, ms);
    }
  }

  lemma {:induction false} EncodedIsFed(p: Parsed, fields: seq<string>)
    requires AllOneLine(fields)
    ensures FedAll(Reader(p, ""), Encoded(fields)) == Reader(ConsumedAll(p, fields), "")
    decreases |fields|
  {
    if fields != [] {
      FedLine(p, fields[0], Encoded(fields[1..]));
      assert Chomp(fields[0]) == fields[0];
      EncodedIsFed(Consumed(p, fields[0]), fields[1..]);
    }
  }

  lemma {:induction false} FieldsAreLines(ms: seq<Sent>)
    requires AllSendable(ms)
    ensures AllOneLine(FieldsOfAll(ms))
    decreases |ms|
  {
    if ms != [] {
      DataFieldsAreLines(ms[0].lines);
      FieldsAreLines(ms[1..]);
    }
  }

  lemma {:induction false} DataFieldsAreLines(lines: seq<string>)
    requires AllOneLine(lines)
    ensures AllOneLine(DataFields(lines))
    decreases |lines|
  {
    if lines != [] { DataFieldsAreLines(lines[1..]); }
  }

  lemma AllFed(ms: seq<Sent>)
    requires AllSendable(ms)
    ensures FedAll(Reader(NOTHING_PARSED, ""), Encoded(FieldsOfAll(ms)))
         == Reader(NOTHING_PARSED.(events := DeliveredAll(ms)), "")
  {
    FieldsAreLines(ms);
    EncodedIsFed(NOTHING_PARSED, FieldsOfAll(ms));
    EventsAreConsumed(NOTHING_PARSED, ms);
    assert [] + DeliveredAll(ms) == DeliveredAll(ms);
  }

  lemma EventsOfFed(text: string, p: Parsed)
    requires FedAll(Reader(NOTHING_PARSED, ""), text) == Reader(p, "") && p.dataLines == []
    ensures EventsOf(text) == p.events
  {
  }

  /** Round trip: what was sent is what is delivered, in order and field by field. */
  lemma SentIsDelivered(ms: seq<Sent>)
    requires AllSendable(ms)
    ensures EventsOf(Encoded(FieldsOfAll(ms))) == DeliveredAll(ms)
  {
    AllFed(ms);
    EventsOfFed(Encoded(FieldsOfAll(ms)), NOTHING_PARSED.(events := DeliveredAll(ms)));
  }

  class EventStreamParser {
    var buffer: string
    var eventName: string
    var eventId: Option<string>
    var dataLines: seq<string>
    /** What `onEvent` was called with. */
    var events: seq<Event>

    function Current(): Parsed
      reads this
    {
      Parsed(eventName, eventId, dataLines, events)
    }

    /** The reader that has been fed everything pushed so far. */
    function State(): Reader
      reads this
    {
      Reader(Current(), buffer)
    }

    constructor ()
      ensures State() == Reader(NOTHING_PARSED, "")
    {
      buffer, eventName, eventId, dataLines, events := "", "message", None, [], [];
    }

    method Dispatch()
      modifies this
      ensures Current() == Dispatched(old(Current())) && buffer == old(buffer)
    {
      if |dataLines| == 0 {
        return;
      }
      var raw := JoinLines(dataLines);
      events := events + [Event(eventName, raw, if eventId.Some? && eventId.value != "" then eventId else None)];
      eventName := "message";
      eventId := None;
      dataLines := [];
    }

    method ConsumeLine(line: string)
      modifies this
      ensures Current() == Consumed(old(Current()), line) && buffer == old(buffer)
    {
      if line == "" {
        Dispatch();
        return;
      }
      if line[0] == ':' {
        return;
      }
      var separator := IndexOfColon(line);
      var field := line[..separator];
      var value := if separator < |line| then DropOneSpace(line[separator + 1..]) else "";
      if field == "event" {
        eventName := value;
      } else if field == "id" {
        eventId := Some(value);
      } else if field == "data" {
        dataLines := dataLines + [value];
      }
    }

    method Push(chunk: string)
      requires NoNewline(buffer)
      modifies this
      ensures State() == FedAll(old(State()), chunk)
      ensures NoNewline(buffer)
    {
      ghost var was, p := buffer, Current();
      buffer := buffer + chunk;
      var lines := SplitLines(buffer);
      SplitIsFed(p, buffer);
      FedInTwo(Reader(p, ""), was, chunk);
      FedPlain(Reader(p, ""), was);
      assert "" + was == was;
      LastPieceIsPlain(buffer);
      buffer := lines[|lines| - 1];
      lines := lines[..|lines| - 1];
      ghost var all := ConsumedAll(Current(), lines);
      while lines != []
        invariant ConsumedAll(Current(), lines) == all
        invariant buffer == SplitLines(was + chunk)[|SplitLines(was + chunk)| - 1]
        decreases |lines|
      {
        ConsumeLine(lines[0]);
        lines := lines[1..];
      }
    }

    method Finish()
      modifies this
      ensures Current() == Closed(old(State())) && buffer == ""
    {
      if buffer != "" {
        ConsumeLine(Chomp(buffer));
      }
      buffer := "";
      Dispatch();
    }
  }

  lemma LastPieceIsPlain(text: string)
    ensures var pieces := SplitLines(text); NoNewline(pieces[|pieces| - 1])
    decreases |text|
  {
  }

  function Concat(chunks: seq<string>): string {
    if chunks == [] then "" else chunks[0] + Concat(chunks[1..])
  }

  /** However a text is cut, the parser delivers the events of the whole text. */
  method ParseChunks(chunks: seq<string>) returns (events: seq<Event>)
    ensures events == EventsOf(Concat(chunks))
  {
    var parser := new EventStreamParser();
    var rest := chunks;
    ghost var start := Reader(NOTHING_PARSED, "");
    while rest != []
      invariant NoNewline(parser.buffer)
      invariant FedAll(parser.State(), Concat(rest)) == FedAll(start, Concat(chunks))
      decreases |rest|
    {
      FedInTwo(parser.State(), rest[0], Concat(rest[1..]));
      parser.Push(rest[0]);
      rest := rest[1..];
    }
    parser.Finish();
    events := parser.events;
  }

  // ----- the line sanitizer -----

  /** The reference: lines with their line feeds, one character at a time. */
  datatype Splitter = Splitter(lines: seq<string>, line: string)

  function Cut(s: Splitter, c: char): Splitter {
    if c == '\n' then Splitter(s.lines + [s.line + [c]], "") else s.(line := s.line + [c])
  }

  function CutAll(s: Splitter, text: string): Splitter
    decreases |text|
  {
    if text == "" then s else CutAll(Cut(s, text[0]), text[1..])
  }

  /** The lines of a text, and what follows the last line feed if anything does. */
  function LinesOf(text: string): seq<string> {
    var s := CutAll(Splitter([], ""), text);
    if s.line != "" then s.lines + [s.line] else s.lines
  }

  function Joined(lines: seq<string>): string {
    if lines == [] then "" else Joined(lines[..|lines| - 1]) + lines[|lines| - 1]
  }

  /** What a stream has sent, and whether rewriting a line has thrown, which errors the stream. */
  datatype Sending = Sending(text: string, failed: bool)

  /** The lines, rewritten one after another up to the first whose rewrite throws. */
  function Rewritten(rewrite: string -> Option<string>, lines: seq<string>): Sending {
    if lines == [] then Sending("", false)
    else
      var before := Rewritten(rewrite, lines[..|lines| - 1]);
      if before.failed then before
      else
        var line := rewrite(lines[|lines| - 1]);
        if line.Some? then Sending(before.text + line.value, false) else before.(failed := true)
  }

  lemma {:induction false} CutInTwo(s: Splitter, a: string, b: string)
    ensures CutAll(s, a + b) == CutAll(CutAll(s, a), b)
    decreases |a|
  {
    if a == "" {
      assert a + b == b;
    } else {
      CutInTwo(Cut(s, a[0]), a[1..], b);
      assert (a + b)[1..] == a[1..] + b;
    }
  }

  lemma {:induction false} CutPlain(s: Splitter, text: string)
    requires NoNewline(text)
    ensures CutAll(s, text) == s.(line := s.line + text)
    decreases |text|
  {
    if text == "" {
      assert s.line + text == s.line;
    } else {
      CutPlain(Cut(s, text[0]), text[1..]);
      assert s.line + [text[0]] + text[1..] == s.line + text;
    }
  }

  lemma CutFirst(s: Splitter, c: char, tail: string)
    ensures CutAll(s, [c] + tail) == CutAll(Cut(s, c), tail)
  {
  }

  /** Taking the first line off a buffer. */
  lemma CutLine(lines: seq<string>, head: string, tail: string)
    requires NoNewline(head)
    ensures CutAll(Splitter(lines, ""), head + (['\n'] + tail)) == CutAll(Splitter(lines + [head + ['\n']], ""), tail)
  {
    CutInTwo(Splitter(lines, ""), head, ['\n'] + tail);
    CutPlain(Splitter(lines, ""), head);
    assert "" + head == head;
    CutFirst(Splitter(lines, head), '\n', tail);
  }

  lemma RewrittenMore(rewrite: string -> Option<string>, lines: seq<string>, line: string)
    ensures var before, last := Rewritten(rewrite, lines), rewrite(line);
      Rewritten(rewrite, lines + [line]) ==
      if before.failed then before
      else if last.Some? then Sending(before.text + last.value, false)
      else before.(failed := true)
  {
    assert (lines + [line])[..|lines|] == lines;
  }

  lemma JoinedMore(lines: seq<string>, line: string)
    ensures Joined(lines + [line]) == Joined(lines) + line
  {
    assert (lines + [line])[..|lines|] == lines;
  }

  /** After a throw nothing more is sent, whatever follows. */
  lemma {:induction false} FailedStays(rewrite: string -> Option<string>, lines: seq<string>, more: seq<string>)
    requires Rewritten(rewrite, lines).failed && lines <= more
    ensures Rewritten(rewrite, more) == Rewritten(rewrite, lines)
    decreases |more|
  {
    if |more| > |lines| {
      FailedStays(rewrite, lines, more[..|more| - 1]);
    } else {
      assert more == lines;
    }
  }

  /** Cutting only adds lines. */
  lemma {:induction false} CutAdds(s: Splitter, text: string)
    ensures s.lines <= CutAll(s, text).lines
    decreases |text|
  {
    if text != "" { CutAdds(Cut(s, text[0]), text[1..]); }
  }

  lemma {:induction false} CutLosesNothing(s: Splitter, text: string)
    ensures var s' := CutAll(s, text);
      Joined(s'.lines) + s'.line == Joined(s.lines) + s.line + text
    decreases |text|
  {
    if text == "" {
      assert s.line + text == s.line;
    } else {
      var c, tail := text[0], text[1..];
      CutLosesNothing(Cut(s, c), tail);
      JoinedMore(s.lines, s.line + [c]);
      assert s.line + text == s.line + [c] + tail;
      assert Joined(Cut(s, c).lines) + Cut(s, c).line == Joined(s.lines) + (s.line + [c]);
    }
  }

  lemma {:induction false} NothingToRewrite(rewrite: string -> Option<string>, lines: seq<string>)
    requires forall line :: line in lines ==> rewrite(line) == Some(line)
    ensures Rewritten(rewrite, lines) == Sending(Joined(lines), false)
    decreases |lines|
  {
    if lines != [] {
      NothingToRewrite(rewrite, lines[..|lines| - 1]);
      assert lines[|lines| - 1] in lines;
    }
  }

  /** A text is its lines, joined. */
  lemma LinesJoinBack(text: string)
    ensures Joined(LinesOf(text)) == text
  {
    var s := CutAll(Splitter([], ""), text);
    CutLosesNothing(Splitter([], ""), text);
    assert Joined([]) + "" + text == text;
    assert s.line == "" ==> Joined(s.lines) + s.line == Joined(s.lines);
    if s.line != "" { JoinedMore(s.lines, s.line); }
  }

  /** A line: line feeds only at its end. */
  predicate IsLine(line: string) {
    line != "" && NoNewline(line[..|line| - 1])
  }

  predicate EndsLine(line: string) {
    IsLine(line) && line[|line| - 1] == '\n'
  }

  lemma {:induction false} CutGivesLines(s: Splitter, text: string)
    requires NoNewline(s.line) && forall line :: line in s.lines ==> EndsLine(line)
    ensures var s' := CutAll(s, text);
      NoNewline(s'.line) && forall line :: line in s'.lines ==> EndsLine(line)
    decreases |text|
  {
    if text != "" { CutGivesLines(Cut(s, text[0]), text[1..]); }
  }

  /** Its lines end with their only line feed, but the last one may have none. With their joining back
      to the text that says what they are. */
  lemma LinesAre(text: string)
    ensures var lines := LinesOf(text);
      forall k :: 0 <= k < |lines| ==> IsLine(lines[k]) && (k < |lines| - 1 ==> EndsLine(lines[k]))
  {
    CutGivesLines(Splitter([], ""), text);
    var s := CutAll(Splitter([], ""), text);
    assert forall k :: 0 <= k < |s.lines| ==> s.lines[k] in s.lines;
  }

  /** The lines, each as its rewrite has it. */
  function RewrittenLines(rewrite: string -> Option<string>, lines: seq<string>): (out: seq<string>)
    requires forall line :: line in lines ==> rewrite(line).Some?
    ensures |out| == |lines| && forall k :: 0 <= k < |lines| ==> rewrite(lines[k]) == Some(out[k])
  {
    seq(|lines|, k requires 0 <= k < |lines| => rewrite(lines[k]).value)
  }

  /** What is sent is the lines' rewrites, joined, up to the first line whose rewrite throws. */
  lemma {:induction false} RewrittenIs(rewrite: string -> Option<string>, lines: seq<string>, n: nat)
    requires n <= |lines| && (forall k :: 0 <= k < n ==> rewrite(lines[k]).Some?)
    requires n < |lines| ==> rewrite(lines[n]).None?
    ensures Rewritten(rewrite, lines) == Sending(Joined(RewrittenLines(rewrite, lines[..n])), n < |lines|)
    decreases |lines|
  {
    if lines != [] {
      var last := |lines| - 1;
      if n <= last {
        RewrittenIs(rewrite, lines[..last], n);
        assert lines[..last][..n] == lines[..n];
      } else {
        RewrittenIs(rewrite, lines[..last], last);
        assert lines[..last][..last] == lines[..last] && lines[..n] == lines;
        var out := RewrittenLines(rewrite, lines);
        assert RewrittenLines(rewrite, lines[..last]) == out[..last];
      }
    }
  }

  class ToolCallTypeSanitizer {
    const rewrite: string -> Option<string>
    var buffer: string
    /** Everything enqueued so far, and whether a call has thrown. */
    var output: string
    var failed: bool
    /** The lines taken off the buffer so far. */
    ghost var lines: seq<string>

    ghost function State(): Splitter
      reads this
    {
      Splitter(lines, buffer)
    }

    ghost predicate Valid()
      reads this
    {
      Sending(output, failed) == Rewritten(rewrite, lines) && (!failed ==> NoNewline(buffer))
    }

    constructor (rewrite: string -> Option<string>)
      ensures Valid() && State() == Splitter([], "") && this.rewrite == rewrite && !failed
    {
      this.rewrite := rewrite;
      buffer, output, failed, lines := "", "", false, [];
    }

    /** Enqueues one line, rewritten, or throws. */
    method Enqueue(line: string)
      requires Sending(output, false) == Rewritten(rewrite, lines) && !failed
      modifies this`output, this`failed, this`lines
      ensures Sending(output, failed) == Rewritten(rewrite, lines) && lines == old(lines) + [line]
    {
      RewrittenMore(rewrite, lines, line);
      var rewritten := rewrite(line);
      lines := lines + [line];
      if rewritten.None? {
        failed := true;
        return;
      }
      output := output + rewritten.value;
    }

    /** The buffer's first line goes out. */
    method EmitLine(newlineIndex: nat)
      requires Sending(output, false) == Rewritten(rewrite, lines) && !failed
      requires newlineIndex == IndexOfNewline(buffer) < |buffer|
      modifies this
      ensures Sending(output, failed) == Rewritten(rewrite, lines) && buffer == old(buffer)[newlineIndex + 1..]
      ensures CutAll(Splitter(lines, ""), buffer) == CutAll(Splitter(old(lines), ""), old(buffer))
    {
      var line, rest := buffer[..newlineIndex + 1], buffer[newlineIndex + 1..];
      CutLine(lines, buffer[..newlineIndex], rest);
      assert buffer == buffer[..newlineIndex] + (['\n'] + rest);
      assert line == buffer[..newlineIndex] + ['\n'];
      buffer := rest;
      Enqueue(line);
    }

    /** One chunk. A throw leaves the stream errored, with the lines before the throw enqueued. */
    method Transform(chunk: string)
      requires Valid() && !failed
      modifies this
      ensures Valid()
      ensures !failed ==> State() == CutAll(old(State()), chunk)
      ensures failed ==> lines <= CutAll(old(State()), chunk).lines
    {
      ghost var target := CutAll(State(), chunk);
      CutInTwo(Splitter(lines, ""), buffer, chunk);
      CutPlain(Splitter(lines, ""), buffer);
      assert "" + buffer == buffer;
      buffer := buffer + chunk;
      var newlineIndex := IndexOfNewline(buffer);
      while newlineIndex < |buffer|
        invariant !failed && newlineIndex == IndexOfNewline(buffer)
        invariant CutAll(Splitter(lines, ""), buffer) == target
        invariant Sending(output, failed) == Rewritten(rewrite, lines)
        decreases |buffer|
      {
        EmitLine(newlineIndex);
        if failed {
          CutAdds(Splitter(lines, ""), buffer);
          return;
        }
        newlineIndex := IndexOfNewline(buffer);
      }
      assert buffer[..newlineIndex] == buffer;
      CutPlain(Splitter(lines, ""), buffer);
      assert "" + buffer == buffer;
    }

    method Flush()
      requires Valid() && !failed
      modifies this
      ensures Sending(output, failed)
           == Rewritten(rewrite, if old(buffer) != "" then old(lines) + [old(buffer)] else old(lines))
    {
      if buffer != "" {
        Enqueue(buffer);
      }
    }
  }

  /** However a text is cut, the sanitizer sends the text with each line rewritten, up to the
      first line whose rewrite throws, and the very text when no line needs a rewrite. */
  method SanitizeChunks(rewrite: string -> Option<string>, chunks: seq<string>) returns (output: string, failed: bool)
    ensures Sending(output, failed) == Rewritten(rewrite, LinesOf(Concat(chunks)))
    ensures (forall line :: line in LinesOf(Concat(chunks)) ==> rewrite(line) == Some(line)) ==>
              output == Concat(chunks) && !failed
  {
    var sanitizer := new ToolCallTypeSanitizer(rewrite);
    var rest := chunks;
    ghost var whole := Concat(chunks);
    LinesJoinBack(whole);
    if forall line :: line in LinesOf(whole) ==> rewrite(line) == Some(line) {
      NothingToRewrite(rewrite, LinesOf(whole));
    }
    while rest != []
      invariant sanitizer.Valid() && sanitizer.rewrite == rewrite && !sanitizer.failed
      invariant CutAll(sanitizer.State(), Concat(rest)) == CutAll(Splitter([], ""), whole)
      decreases |rest|
    {
      ghost var after := CutAll(sanitizer.State(), rest[0]);
      CutInTwo(sanitizer.State(), rest[0], Concat(rest[1..]));
      sanitizer.Transform(rest[0]);
      rest := rest[1..];
      if sanitizer.failed {
        CutAdds(after, Concat(rest));
        FailedStays(rewrite, sanitizer.lines, LinesOf(whole));
        return sanitizer.output, true;
      }
    }
    sanitizer.Flush();
    output, failed := sanitizer.output, sanitizer.failed;
  }
}
