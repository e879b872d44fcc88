/** Everything a server may send as an event stream, and that the console's parser delivers exactly
    what it means: either line ending, any spelling of a field, comments, unknown fields, empty
    events, and a last line that nothing ends. */
module WireFormat {
  import opened Wrappers
  import opened Basics
  import opened LineReaders

  /** How a field's value follows its name. */
  datatype Colon = NoColon | Tight | Spaced

  datatype Line = Field(name: string, value: string, colon: Colon) | Comment(text: string) | Blank

  /** One line and its ending. */
  datatype Entry = Entry(line: Line, crlf: bool)

  function TextOf(line: Line): string {
    match line
    case Field(name, _, NoColon) => name
    case Field(name, value, Tight) => name + ([':'] + value)
    case Field(name, value, Spaced) => name + ([':'] + ([' '] + value))
    case Comment(text) => [':'] + text
    case Blank => ""
  }

  /** A line that is written so that it reads as itself. */
  predicate Legible(line: Line) {
    match line
    case Field(name, value, colon) =>
      && name != "" && ':' !in name && OneLine(name) && OneLine(value)
      && (colon == NoColon ==> value == "") && (colon == Tight ==> value == "" || value[0] != ' ')
    case Comment(text) => OneLine(text)
    case Blank => true
  }

  predicate AllLegible(entries: seq<Entry>) {
    forall k :: 0 <= k < |entries| ==> Legible(entries[k].line)
  }

  function Wire(entries: seq<Entry>): string {
    if entries == [] then ""
    else
      var e := entries[|entries| - 1];
      Wire(entries[..|entries| - 1]) + (TextOf(e.line) + if e.crlf then ['\r', '\n'] else ['\n'])
  }

  // ----- what it means -----

  /** The values of a field, in order. */
  function Values(name: string, entries: seq<Entry>): seq<string> {
    if entries == [] then []
    else
      var line := entries[|entries| - 1].line;
      Values(name, entries[..|entries| - 1]) + if line.Field? && line.name == name then [line.value] else []
  }

  function LastOr(values: seq<string>, default: string): string {
    if values == [] then default else values[|values| - 1]
  }

  /** The event that these lines make: the last name and id given, and all the data, a line each. */
  function Meant(entries: seq<Entry>): Event {
    var id := LastOr(Values("id", entries), "");
    Event(LastOr(Values("event", entries), "message"), JoinLines(Values("data", entries)),
          if id == "" then None else Some(id))
  }

  /** These lines belong to one event: no blank line comes after data. */
  predicate OneEvent(entries: seq<Entry>) {
    forall k :: 0 <= k < |entries| && entries[k].line.Blank? ==> Values("data", entries[..k]) == []
  }

  /** The lines of one event, and the blank line that ends it. */
  datatype Block = Block(entries: seq<Entry>, endsCrlf: bool)

  predicate Complete(b: Block) {
    AllLegible(b.entries) && OneEvent(b.entries) && Values("data", b.entries) != []
  }

  predicate AllComplete(blocks: seq<Block>) {
    forall k :: 0 <= k < |blocks| ==> Complete(blocks[k])
  }

  function WireOfAll(blocks: seq<Block>): string {
    if blocks == [] then ""
    else
      var b := blocks[|blocks| - 1];
      WireOfAll(blocks[..|blocks| - 1]) + Wire(b.entries + [Entry(Blank, b.endsCrlf)])
  }

  function MeantByAll(blocks: seq<Block>): seq<Event> {
    if blocks == [] then [] else MeantByAll(blocks[..|blocks| - 1]) + [Meant(blocks[|blocks| - 1].entries)]
  }

  // ----- reading it -----

  /** The parser in the middle of an event. */
  function Collected(entries: seq<Entry>, events: seq<Event>): Parsed {
    var ids := Values("id", entries);
    Parsed(LastOr(Values("event", entries), "message"), if ids == [] then None else Some(ids[|ids| - 1]),
           Values("data", entries), events)
  }

  lemma {:induction false} NoColonIn(s: string)
    requires ':' !in s
    ensures IndexOfColon(s) == |s|
    decreases |s|
  {
    if s != "" { NoColonIn(s[1..]); }
  }

  lemma FieldIsRead(p: Parsed, name: string, value: string, colon: Colon)
    requires Legible(Field(name, value, colon))
    ensures Consumed(p, TextOf(Field(name, value, colon))) ==
            if name == "event" then p.(eventName := value)
            else if name == "id" then p.(eventId := Some(value))
            else if name == "data" then p.(dataLines := p.dataLines + [value])
            else p
  {
    var text := TextOf(Field(name, value, colon));
    match colon {
      case NoColon =>
        NoColonIn(name);
        assert text[..|name|] == name;
      case Tight =>
        ColonAfter(name, value);
        assert text[..|name|] == name && text[|name| + 1..] == value;
      case Spaced =>
        ColonAfter(name, [' '] + value);
        assert text[..|name|] == name && text[|name| + 1..] == [' '] + value;
        assert ([' '] + value)[1..] == value;
    }
  }

  lemma OneMoreValue(name: string, entries: seq<Entry>, e: Entry)
    ensures Values(name, entries + [e])
         == Values(name, entries) + if e.line.Field? && e.line.name == name then [e.line.value] else []
  {
    var all := entries + [e];
    assert all[..|entries|] == entries && all[|entries|] == e;
  }

  lemma LineIsRead(entries: seq<Entry>, e: Entry, events: seq<Event>)
    requires Legible(e.line) && (e.line.Blank? ==> Values("data", entries) == [])
    ensures Consumed(Collected(entries, events), TextOf(e.line)) == Collected(entries + [e], events)
  {
    OneMoreValue("event", entries, e);
    OneMoreValue("id", entries, e);
    OneMoreValue("data", entries, e);
    if e.line.Field? { FieldIsRead(Collected(entries, events), e.line.name, e.line.value, e.line.colon); }
  }

  lemma LegibleIsOneLine(line: Line)
    requires Legible(line)
    ensures OneLine(TextOf(line))
  {
  }

  /** A line and its ending, fed character by character. */
  lemma EntryIsFed(p: Parsed, e: Entry)
    requires Legible(e.line)
    ensures FedAll(Reader(p, ""), TextOf(e.line) + if e.crlf then ['\r', '\n'] else ['\n'])
         == Reader(Consumed(p, TextOf(e.line)), "")
  {
    var text := TextOf(e.line);
    LegibleIsOneLine(e.line);
    if e.crlf {
      FedLine(p, text + ['\r'], "");
      assert text + ['\r', '\n'] == (text + ['\r']) + (['\n'] + "");
    } else {
      FedLine(p, text, "");
      assert text + ['\n'] == text + (['\n'] + "");
    }
  }

  lemma {:induction false} EntriesAreFed(entries: seq<Entry>, events: seq<Event>)
    requires AllLegible(entries) && OneEvent(entries)
    ensures FedAll(Reader(NOTHING_PARSED.(events := events), ""), Wire(entries))
         == Reader(Collected(entries, events), "")
    decreases |entries|
  {
    if entries != [] {
      var n := |entries| - 1;
      var before, e := entries[..n], entries[n];
      assert entries == before + [e];
      assert forall k :: 0 <= k < n ==> before[..k] == entries[..k];
      EntriesAreFed(before, events);
      FedInTwo(Reader(NOTHING_PARSED.(events := events), ""), Wire(before),
               TextOf(e.line) + if e.crlf then ['\r', '\n'] else ['\n']);
      EntryIsFed(Collected(before, events), e);
      LineIsRead(before, e, events);
    }
  }

  /** A block delivers its event and leaves nothing behind. */
  lemma BlockIsFed(b: Block, events: seq<Event>)
    requires Complete(b)
    ensures FedAll(Reader(NOTHING_PARSED.(events := events), ""), Wire(b.entries + [Entry(Blank, b.endsCrlf)]))
         == Reader(NOTHING_PARSED.(events := events + [Meant(b.entries)]), "")
  {
    var e := Entry(Blank, b.endsCrlf);
    var all := b.entries + [e];
    assert all[..|b.entries|] == b.entries && all[|b.entries|] == e;
    EntriesAreFed(b.entries, events);
    FedInTwo(Reader(NOTHING_PARSED.(events := events), ""), Wire(b.entries),
             TextOf(Blank) + if b.endsCrlf then ['\r', '\n'] else ['\n']);
    EntryIsFed(Collected(b.entries, events), e);
  }

  lemma {:induction false} BlocksAreFed(blocks: seq<Block>)
    requires AllComplete(blocks)
    ensures FedAll(Reader(NOTHING_PARSED, ""), WireOfAll(blocks))
         == Reader(NOTHING_PARSED.(events := MeantByAll(blocks)), "")
    decreases |blocks|
  {
    if blocks != [] {
      var n := |blocks| - 1;
      var before, b := blocks[..n], blocks[n];
      BlocksAreFed(before);
      FedInTwo(Reader(NOTHING_PARSED, ""), WireOfAll(before), Wire(b.entries + [Entry(Blank, b.endsCrlf)]));
      BlockIsFed(b, MeantByAll(before));
    }
  }

  /** What ends a stream: lines of an event that no blank line ends, and perhaps a line that no line
      feed ends. */
  datatype Tail = Tail(entries: seq<Entry>, last: Option<Line>)

  function TailEntries(t: Tail): seq<Entry> {
    t.entries + if t.last.Some? then [Entry(t.last.value, false)] else []
  }

  function TailText(t: Tail): string {
    Wire(t.entries) + if t.last.Some? then TextOf(t.last.value) else ""
  }

  lemma DispatchMeans(entries: seq<Entry>, events: seq<Event>)
    ensures Dispatched(Collected(entries, events)).events
         == events + if Values("data", entries) == [] then [] else [Meant(entries)]
  {
    assert events + [] == events;
  }

  /** The end of the stream consumes the line that nothing ended. */
  lemma LastLineIsClosed(entries: seq<Entry>, last: Line, events: seq<Event>)
    requires Legible(last) && (last.Blank? ==> Values("data", entries) == [])
    ensures Closed(Reader(Collected(entries, events), TextOf(last)))
         == Dispatched(Collected(entries + [Entry(last, false)], events))
  {
    LegibleIsOneLine(last);
    LineIsRead(entries, Entry(last, false), events);
    assert Chomp(TextOf(last)) == TextOf(last);
    if TextOf(last) == "" { assert last.Blank?; OneMoreIsSame(entries, events); }
  }

  lemma OneMoreIsSame(entries: seq<Entry>, events: seq<Event>)
    ensures Collected(entries + [Entry(Blank, false)], events) == Collected(entries, events)
  {
    OneMoreValue("event", entries, Entry(Blank, false));
    OneMoreValue("id", entries, Entry(Blank, false));
    OneMoreValue("data", entries, Entry(Blank, false));
  }

  lemma TailIsClosed(t: Tail, events: seq<Event>)
    requires AllLegible(TailEntries(t)) && OneEvent(TailEntries(t))
    ensures Closed(FedAll(Reader(NOTHING_PARSED.(events := events), ""), TailText(t))).events
         == events + if Values("data", TailEntries(t)) == [] then [] else [Meant(TailEntries(t))]
  {
    var all, start := TailEntries(t), Reader(NOTHING_PARSED.(events := events), "");
    assert forall k :: 0 <= k < |t.entries| ==> all[k] == t.entries[k] && t.entries[..k] == all[..k];
    EntriesAreFed(t.entries, events);
    if t.last.None? {
      assert TailText(t) == Wire(t.entries) && all == t.entries;
    } else {
      assert all[|t.entries|].line == t.last.value && all[..|t.entries|] == t.entries;
      FedInTwo(start, Wire(t.entries), TextOf(t.last.value));
      LegibleIsOneLine(t.last.value);
      FedPlain(Reader(Collected(t.entries, events), ""), TextOf(t.last.value));
      assert "" + TextOf(t.last.value) == TextOf(t.last.value);
      LastLineIsClosed(t.entries, t.last.value, events);
    }
    DispatchMeans(all, events);
  }

  /** For every such stream the parser delivers exactly the events that it means, in order. */
  lemma StreamIsDelivered(blocks: seq<Block>, t: Tail)
    requires AllComplete(blocks) && AllLegible(TailEntries(t)) && OneEvent(TailEntries(t))
    ensures EventsOf(WireOfAll(blocks) + TailText(t))
         == MeantByAll(blocks) + if Values("data", TailEntries(t)) == [] then [] else [Meant(TailEntries(t))]
  {
    BlocksAreFed(blocks);
    FedInTwo(Reader(NOTHING_PARSED, ""), WireOfAll(blocks), TailText(t));
    TailIsClosed(t, MeantByAll(blocks));
  }

  /** The data of an event is its lines: splitting it gives them back. */
  lemma {:induction false} DataSplitsBack(lines: seq<string>)
    requires lines != [] && AllOneLine(lines)
    ensures SplitLines(JoinLines(lines)) == lines
    decreases |lines|
  {
    var text := JoinLines(lines);
    if |lines| == 1 {
      FirstNewline(text, "");
      assert text + "" == text;
    } else {
      var rest := JoinLines(lines[1..]);
      assert text == lines[0] + (['\n'] + rest);
      FirstNewline(lines[0], ['\n'] + rest);
      assert text[..|lines[0]|] == lines[0] && text[|lines[0]| + 1..] == rest;
      DataSplitsBack(lines[1..]);
    }
  }

  lemma {:induction false} FirstNewline(line: string, rest: string)
    requires OneLine(line) && (rest == "" || rest[0] == '\n')
    ensures IndexOfNewline(line + rest) == |line|
    decreases |line|
  {
    if line != "" {
      assert (line + rest)[1..] == line[1..] + rest;
      FirstNewline(line[1..], rest);
    }
  }
}
