/** Trimming tool results out of the messages of the next request: a deep clone whose
    outputs are overwritten in place, oldest first, with a running token count. */
module Trimmer {
  import opened Wrappers

  const PLACEHOLDER := "[previous tool output omitted to fit the model context window]"

  const KEEP_RECENT_TOOL_MESSAGES: int := 3

  /** An output's value: undefined, a string, or other JSON. */
  datatype Payload = Missing | Text(text: string) | Json(json: string)

  /** The nested object of a tool-result part, the only thing that is ever overwritten. */
  class Output {
    const kind: string
    var value: Payload
    /** The message and part it was cloned for. */
    ghost const home: (int, int)

    constructor (kind: string, value: Payload, ghost home: (int, int))
      ensures this.kind == kind && this.value == value && this.home == home
    {
      this.kind, this.value, this.home := kind, value, home;
    }
  }

  /** `size` is the length of the serialized part, which counts when neither text does. */
  datatype Part = Part(text: Option<string>, output: Option<Output>, size: nat)

  datatype Role = ToolRole | OtherRole

  datatype Content = Plain(s: string) | Parts(parts: seq<Part>)

  datatype Message = Message(role: Role, content: Content)

  // ----- messages as values -----

  datatype PartValue = PartValue(text: Option<string>, output: Option<(string, Payload)>, size: nat)

  datatype MessageValue = PlainValue(role: Role, s: string) | PartsValue(role: Role, parts: seq<PartValue>)

  predicate HasOutput(ms: seq<Message>, i: int, j: int) {
    0 <= i < |ms| && ms[i].content.Parts? && 0 <= j < |ms[i].content.parts| && ms[i].content.parts[j].output.Some?
  }

  function OutputAt(ms: seq<Message>, i: int, j: int): Output
    requires HasOutput(ms, i, j)
  {
    ms[i].content.parts[j].output.value
  }

  predicate SamePart(p: Part, v: PartValue) {
    && p.text == v.text && p.size == v.size
    && (p.output.Some? <==> v.output.Some?)
    && (p.output.Some? ==> p.output.value.kind == v.output.value.0)
  }

  predicate SameMessage(m: Message, v: MessageValue) {
    && m.role == v.role
    && match m.content
       case Plain(s) => v.PlainValue? && v.s == s
       case Parts(parts) =>
         && v.PartsValue? && |v.parts| == |parts|
         && forall j :: 0 <= j < |parts| ==> SamePart(parts[j], v.parts[j])
  }

  /** Everything but the payloads of the outputs. */
  predicate SameShape(ms: seq<Message>, vs: seq<MessageValue>) {
    |vs| == |ms| && forall i :: 0 <= i < |ms| ==> SameMessage(ms[i], vs[i])
  }

  /** In this heap the messages, whose outputs are among `outputs`, read as these values. */
  ghost predicate Shows(ms: seq<Message>, vs: seq<MessageValue>, outputs: set<Output>)
    reads outputs
  {
    && SameShape(ms, vs)
    && forall i, j :: HasOutput(ms, i, j) ==>
         OutputAt(ms, i, j) in outputs && PayloadIs(OutputAt(ms, i, j), vs, i, j)
  }

  ghost predicate PayloadIs(o: Output, vs: seq<MessageValue>, i: int, j: int)
    reads o
  {
    0 <= i < |vs| && vs[i].PartsValue? && 0 <= j < |vs[i].parts| && ReadsAs(o, vs[i].parts[j])
  }

  predicate ReadsAs(o: Output, v: PartValue)
    reads o
  {
    v.output.Some? && v.output.value.1 == o.value
  }

  function ValueOfPart(p: Part): PartValue
    reads if p.output.Some? then {p.output.value} else {}
  {
    PartValue(p.text, if p.output.Some? then Some((p.output.value.kind, p.output.value.value)) else None, p.size)
  }

  lemma ReadParts(parts: seq<Part>) returns (vs: seq<PartValue>, outputs: set<Output>)
    ensures |vs| == |parts| && forall j :: 0 <= j < |parts| ==> SamePart(parts[j], vs[j])
    ensures forall j :: 0 <= j < |parts| && parts[j].output.Some? ==>
              parts[j].output.value in outputs && ReadsAs(parts[j].output.value, vs[j])
  {
    vs, outputs := [], {};
    while |vs| < |parts|
      invariant |vs| <= |parts| && forall j :: 0 <= j < |vs| ==> SamePart(parts[j], vs[j])
      invariant forall j :: 0 <= j < |vs| && parts[j].output.Some? ==>
                  parts[j].output.value in outputs && ReadsAs(parts[j].output.value, vs[j])
    {
      var part := parts[|vs|];
      if part.output.Some? { outputs := outputs + {part.output.value}; }
      vs := vs + [ValueOfPart(part)];
    }
  }

  /** Every list of messages reads as some list of values. */
  lemma EveryListShows(ms: seq<Message>) returns (vs: seq<MessageValue>, outputs: set<Output>)
    ensures Shows(ms, vs, outputs)
  {
    vs, outputs := [], {};
    while |vs| < |ms|
      invariant |vs| <= |ms| && forall i :: 0 <= i < |vs| ==> SameMessage(ms[i], vs[i])
      invariant forall i, j :: HasOutput(ms, i, j) && i < |vs| ==>
                  OutputAt(ms, i, j) in outputs && PayloadIs(OutputAt(ms, i, j), vs, i, j)
    {
      var m := ms[|vs|];
      match m.content {
        case Plain(s) => vs := vs + [PlainValue(m.role, s)];
        case Parts(parts) =>
          var values, more := ReadParts(parts);
          vs, outputs := vs + [PartsValue(m.role, values)], outputs + more;
      }
    }
  }

  /** And as one only. */
  lemma {:induction false} ShowsOneList(ms: seq<Message>, vs: seq<MessageValue>, ws: seq<MessageValue>,
                                        outputs: set<Output>)
    requires Shows(ms, vs, outputs) && Shows(ms, ws, outputs)
    ensures vs == ws
  {
    forall i | 0 <= i < |ms| ensures vs[i] == ws[i] {
      assert SameMessage(ms[i], vs[i]) && SameMessage(ms[i], ws[i]);
      if ms[i].content.Parts? {
        forall j | 0 <= j < |ms[i].content.parts| ensures vs[i].parts[j] == ws[i].parts[j] {
          var part := ms[i].content.parts[j];
          assert SamePart(part, vs[i].parts[j]) && SamePart(part, ws[i].parts[j]);
          if part.output.Some? {
            assert HasOutput(ms, i, j);
            assert PayloadIs(OutputAt(ms, i, j), vs, i, j) && PayloadIs(OutputAt(ms, i, j), ws, i, j);
          }
        }
        assert vs[i].parts == ws[i].parts;
      }
    }
  }

  // ----- estimates -----

  function Tokens(length: nat): nat {
    (length + 3) / 4
  }

  function PartTokens(p: PartValue): nat {
    if p.text.Some? then Tokens(|p.text.value|)
    else if p.output.Some? && p.output.value.1.Text? then Tokens(|p.output.value.1.text|)
    else Tokens(p.size)
  }

  function PartsTokens(parts: seq<PartValue>): nat {
    if parts == [] then 0 else PartsTokens(parts[..|parts| - 1]) + PartTokens(parts[|parts| - 1])
  }

  function MessageTokens(m: MessageValue): nat {
    match m
    case PlainValue(_, s) => Tokens(|s|)
    case PartsValue(_, parts) => PartsTokens(parts)
  }

  /** `estimateModelMessagesTokens`. */
  function Estimate(ms: seq<MessageValue>): nat {
    if ms == [] then 0 else Estimate(ms[..|ms| - 1]) + MessageTokens(ms[|ms| - 1])
  }

  // ----- trimming -----

  function TrimmedPart(p: PartValue): PartValue {
    if p.output.Some? && p.output.value.1 != Missing
    then p.(output := Some((p.output.value.0, Text(PLACEHOLDER))))
    else p
  }

  function TrimmedParts(parts: seq<PartValue>): (out: seq<PartValue>)
    ensures |out| == |parts| && forall j :: 0 <= j < |parts| ==> out[j] == TrimmedPart(parts[j])
  {
    seq(|parts|, j requires 0 <= j < |parts| => TrimmedPart(parts[j]))
  }

  function Trimmed(m: MessageValue): MessageValue {
    if m.PartsValue? then m.(parts := TrimmedParts(m.parts)) else m
  }

  function ToolIndexes(ms: seq<MessageValue>): seq<nat>
  {
    if ms == [] then []
    else
      var n := |ms| - 1;
      ToolIndexes(ms[..n]) + (if ms[n].role == ToolRole then [n] else [])
  }

  /** The positions of the tool messages, all of them, in order. */
  lemma {:induction false} ToolIndexesAre(ms: seq<MessageValue>)
    ensures var out := ToolIndexes(ms);
      && (forall k :: 0 <= k < |out| ==> out[k] < |ms| && ms[out[k]].role == ToolRole)
      && (forall j, k :: 0 <= j < k < |out| ==> out[j] < out[k])
      && (forall i: nat :: i < |ms| && ms[i].role == ToolRole ==> i in out)
  {
    if ms != [] {
      ToolIndexesAre(ms[..|ms| - 1]);
    }
  }

  /** The first `k` tool messages trimmed, every other message as it was. */
  function TrimFirst(ms: seq<MessageValue>, k: nat): (out: seq<MessageValue>)
    requires k <= |ToolIndexes(ms)|
    ensures |out| == |ms|
  {
    seq(|ms|, i requires 0 <= i < |ms| => if i in ToolIndexes(ms)[..k] then Trimmed(ms[i]) else ms[i])
  }

  lemma {:induction false} EstimateUpdate(ms: seq<MessageValue>, i: nat, m: MessageValue)
    requires i < |ms|
    ensures Estimate(ms[i := m]) == Estimate(ms) - MessageTokens(ms[i]) + MessageTokens(m)
    decreases |ms|
  {
    var n := |ms| - 1;
    if i < n {
      EstimateUpdate(ms[..n], i, m);
      assert ms[i := m][..n] == ms[..n][i := m];
    } else {
      assert ms[i := m][..n] == ms[..n];
    }
  }

  lemma {:induction false} PartsUpdate(parts: seq<PartValue>, j: nat, p: PartValue)
    requires j < |parts|
    ensures PartsTokens(parts[j := p]) == PartsTokens(parts) - PartTokens(parts[j]) + PartTokens(p)
    decreases |parts|
  {
    var n := |parts| - 1;
    if j < n {
      PartsUpdate(parts[..n], j, p);
      assert parts[j := p][..n] == parts[..n][j := p];
    } else {
      assert parts[j := p][..n] == parts[..n];
    }
  }

  /** Every output sits where it was cloned for, so no two places share one. */
  ghost predicate Homed(ms: seq<Message>) {
    forall i, j :: HasOutput(ms, i, j) ==> OutputAt(ms, i, j).home == (i, j)
  }

  /** Message `i` with its part `j` trimmed. */
  function PartDone(vs: seq<MessageValue>, i: nat, j: nat): seq<MessageValue>
    requires i < |vs| && vs[i].PartsValue? && j < |vs[i].parts|
  {
    vs[i := vs[i].(parts := vs[i].parts[j := TrimmedPart(vs[i].parts[j])])]
  }

  /** Overwriting the output at one place changes that part and nothing else. */
  method Overwrite(ms: seq<Message>, i: nat, j: nat, ghost vs: seq<MessageValue>, ghost outputs: set<Output>)
    requires Homed(ms) && Shows(ms, vs, outputs)
    requires i < |ms| && ms[i].content.Parts? && j < |ms[i].content.parts|
    modifies outputs
    ensures SameMessage(ms[i], vs[i])
    ensures Shows(ms, PartDone(vs, i, j), outputs)
  {
    var part := ms[i].content.parts[j];
    assert SameMessage(ms[i], vs[i]) && SamePart(part, vs[i].parts[j]);
    if part.output.Some? {
      var output := part.output.value;
      assert HasOutput(ms, i, j) && output == OutputAt(ms, i, j);
      if output.kind == "text" && output.value.Text? {
        output.value := Text(PLACEHOLDER);
      } else if output.value != Missing {
        output.value := Text(PLACEHOLDER);
      }
    } else {
      assert PartDone(vs, i, j)[i].parts == vs[i].parts;
      assert PartDone(vs, i, j) == vs;
    }
  }

  /** One part of a message: its tokens before and after adjust the running count. */
  method TrimPart(ms: seq<Message>, i: nat, j: nat, tokens: int, ghost vs: seq<MessageValue>,
                  ghost outputs: set<Output>)
    returns (current: int)
    requires Homed(ms) && Shows(ms, vs, outputs) && tokens == Estimate(vs)
    requires i < |ms| && ms[i].content.Parts? && j < |ms[i].content.parts|
    modifies outputs
    ensures SameMessage(ms[i], vs[i])
    ensures Shows(ms, PartDone(vs, i, j), outputs)
    ensures current == Estimate(PartDone(vs, i, j))
  {
    PartReads(ms, i, j, vs, outputs);
    var before: int := PartTokens(ValueOfPart(ms[i].content.parts[j]));
    Overwrite(ms, i, j, vs, outputs);
    PartReads(ms, i, j, PartDone(vs, i, j), outputs);
    var after: int := PartTokens(ValueOfPart(ms[i].content.parts[j]));
    current := tokens - (before - after);
    PartsUpdate(vs[i].parts, j, TrimmedPart(vs[i].parts[j]));
    EstimateUpdate(vs, i, vs[i].(parts := vs[i].parts[j := TrimmedPart(vs[i].parts[j])]));
  }

  lemma PartReads(ms: seq<Message>, i: nat, j: nat, vs: seq<MessageValue>, outputs: set<Output>)
    requires Shows(ms, vs, outputs) && i < |ms| && ms[i].content.Parts? && j < |ms[i].content.parts|
    ensures SameMessage(ms[i], vs[i]) && ValueOfPart(ms[i].content.parts[j]) == vs[i].parts[j]
  {
    assert SameMessage(ms[i], vs[i]) && SamePart(ms[i].content.parts[j], vs[i].parts[j]);
    if ms[i].content.parts[j].output.Some? {
      assert HasOutput(ms, i, j) && PayloadIs(OutputAt(ms, i, j), vs, i, j);
    }
  }

  /** Message `i` half done: its first `j` parts are trimmed. */
  function PartlyTrimmed(vs: seq<MessageValue>, i: nat, j: nat): seq<MessageValue>
    requires i < |vs| && vs[i].PartsValue? && j <= |vs[i].parts|
  {
    vs[i := vs[i].(parts := TrimmedParts(vs[i].parts)[..j] + vs[i].parts[j..])]
  }

  lemma NonePartlyTrimmed(vs: seq<MessageValue>, i: nat)
    requires i < |vs| && vs[i].PartsValue?
    ensures PartlyTrimmed(vs, i, 0) == vs
    ensures PartlyTrimmed(vs, i, |vs[i].parts|) == vs[i := Trimmed(vs[i])]
  {
    var parts := vs[i].parts;
    assert TrimmedParts(parts)[..0] + parts[0..] == parts;
    assert TrimmedParts(parts)[..|parts|] + parts[|parts|..] == TrimmedParts(parts);
  }

  lemma OneMorePart(vs: seq<MessageValue>, i: nat, j: nat)
    requires i < |vs| && vs[i].PartsValue? && j < |vs[i].parts|
    ensures PartDone(PartlyTrimmed(vs, i, j), i, j) == PartlyTrimmed(vs, i, j + 1)
  {
    var parts := vs[i].parts;
    var part := TrimmedParts(parts)[..j] + parts[j..];
    assert part[j := TrimmedPart(part[j])] == TrimmedParts(parts)[..j + 1] + parts[j + 1..];
  }

  /** One tool message: every part is overwritten, and the count follows. */
  method TrimMessage(ms: seq<Message>, i: nat, tokens: int, ghost vs: seq<MessageValue>, ghost outputs: set<Output>)
    returns (current: int)
    requires Homed(ms) && Shows(ms, vs, outputs) && tokens == Estimate(vs) && i < |ms|
    modifies outputs
    ensures Shows(ms, vs[i := Trimmed(vs[i])], outputs)
    ensures current == Estimate(vs[i := Trimmed(vs[i])])
  {
    current := tokens;
    assert SameMessage(ms[i], vs[i]);
    if ms[i].content.Plain? {
      // Its characters have no output.
      assert vs[i := vs[i]] == vs;
      return;
    }
    NonePartlyTrimmed(vs, i);
    var j := 0;
    while j < |ms[i].content.parts|
      invariant 0 <= j <= |ms[i].content.parts|
      invariant Shows(ms, PartlyTrimmed(vs, i, j), outputs)
      invariant current == Estimate(PartlyTrimmed(vs, i, j))
    {
      OneMorePart(vs, i, j);
      current := TrimPart(ms, i, j, current, PartlyTrimmed(vs, i, j), outputs);
      j := j + 1;
    }
  }

  // ----- the clone -----

  /** The copy of one part: its output, when it has one, is new. */
  ghost predicate PartCopied(copy: Part, part: Part, place: (int, int))
    reads if copy.output.Some? then {copy.output.value} else {}, if part.output.Some? then {part.output.value} else {}
  {
    && copy.text == part.text && copy.size == part.size
    && (copy.output.Some? <==> part.output.Some?)
    && (copy.output.Some? ==>
          && copy.output.value.home == place
          && copy.output.value.kind == part.output.value.kind
          && copy.output.value.value == part.output.value.value)
  }

  method CloneParts(parts: seq<Part>, ghost i: int) returns (copy: seq<Part>)
    ensures |copy| == |parts|
    ensures forall j :: 0 <= j < |parts| ==> PartCopied(copy[j], parts[j], (i, j))
    ensures forall j :: 0 <= j < |parts| && copy[j].output.Some? ==> fresh(copy[j].output.value)
  {
    copy := [];
    while |copy| < |parts|
      invariant |copy| <= |parts|
      invariant forall j :: 0 <= j < |copy| ==> PartCopied(copy[j], parts[j], (i, j))
      invariant forall j :: 0 <= j < |copy| && copy[j].output.Some? ==> fresh(copy[j].output.value)
    {
      var part := parts[|copy|];
      if part.output.Some? {
        var output := new Output(part.output.value.kind, part.output.value.value, (i, |copy|));
        part := part.(output := Some(output));
      }
      copy := copy + [part];
    }
  }

  /** The deep clone: the caller's outputs are copied, never shared. */
  method Clone(ms: seq<Message>, ghost vs: seq<MessageValue>, ghost outputs: set<Output>)
    returns (copy: seq<Message>, ghost copies: set<Output>)
    requires Shows(ms, vs, outputs)
    ensures Shows(copy, vs, copies) && Homed(copy)
    ensures fresh(copies)
  {
    copy, copies := [], {};
    while |copy| < |ms|
      invariant |copy| <= |ms| && Homed(copy)
      invariant forall i :: 0 <= i < |copy| ==> SameMessage(copy[i], vs[i])
      invariant forall i, j :: HasOutput(copy, i, j) ==>
                  OutputAt(copy, i, j) in copies && PayloadIs(OutputAt(copy, i, j), vs, i, j)
      invariant fresh(copies)
    {
      var i := |copy|;
      var m := ms[i];
      assert SameMessage(m, vs[i]);
      if m.content.Parts? {
        var parts := CloneParts(m.content.parts, i);
        forall j | 0 <= j < |parts| ensures SamePart(parts[j], vs[i].parts[j]) {
          assert PartCopied(parts[j], m.content.parts[j], (i, j));
          assert SamePart(m.content.parts[j], vs[i].parts[j]);
        }
        forall j | 0 <= j < |parts| && parts[j].output.Some?
          ensures PayloadIs(parts[j].output.value, vs, i, j)
        {
          assert PartCopied(parts[j], m.content.parts[j], (i, j));
          assert HasOutput(ms, i, j) && PayloadIs(OutputAt(ms, i, j), vs, i, j);
        }
        copies := copies + set j | 0 <= j < |parts| && parts[j].output.Some? :: parts[j].output.value;
        m := m.(content := Parts(parts));
      }
      copy := copy + [m];
    }
  }

  // ----- the passes -----

  /** Trimming one more tool message: only that message changes. */
  lemma {:induction false} TrimOneMore(ms: seq<MessageValue>, k: nat)
    requires k < |ToolIndexes(ms)|
    ensures var i := ToolIndexes(ms)[k];
      && i < |ms|
      && TrimFirst(ms, k)[i] == ms[i]
      && TrimFirst(ms, k + 1) == TrimFirst(ms, k)[i := Trimmed(ms[i])]
  {
    ToolIndexesAre(ms);
    var tools := ToolIndexes(ms);
    assert tools[..k + 1] == tools[..k] + [tools[k]];
    assert tools[k] !in tools[..k];
  }

  lemma NothingTrimmed(ms: seq<MessageValue>)
    ensures TrimFirst(ms, 0) == ms
  {
  }

  /** The first loop: the positions of the tool messages. */
  method CollectToolIndexes(ms: seq<Message>, ghost vs: seq<MessageValue>) returns (indexes: seq<nat>)
    requires SameShape(ms, vs)
    ensures indexes == ToolIndexes(vs)
  {
    indexes := [];
    var i := 0;
    while i < |ms|
      invariant 0 <= i <= |ms|
      invariant indexes == ToolIndexes(vs[..i])
    {
      assert vs[..i + 1][..i] == vs[..i];
      assert SameMessage(ms[i], vs[i]);
      if ms[i].role == ToolRole {
        indexes := indexes + [i];
      }
      i := i + 1;
    }
    assert vs[..i] == vs;
  }

  /** The two nested loops that count a message list. */
  method EstimateTokens(ms: seq<Message>, ghost vs: seq<MessageValue>, ghost outputs: set<Output>) returns (tokens: nat)
    requires Shows(ms, vs, outputs)
    ensures tokens == Estimate(vs)
  {
    tokens := 0;
    var i := 0;
    while i < |ms|
      invariant 0 <= i <= |ms|
      invariant tokens == Estimate(vs[..i])
    {
      assert vs[..i + 1][..i] == vs[..i];
      assert SameMessage(ms[i], vs[i]);
      if ms[i].content.Plain? {
        tokens := tokens + Tokens(|ms[i].content.s|);
      } else {
        ghost var parts := vs[i].parts;
        var j := 0;
        while j < |ms[i].content.parts|
          invariant 0 <= j <= |ms[i].content.parts| == |parts|
          invariant tokens == Estimate(vs[..i]) + PartsTokens(parts[..j])
        {
          assert parts[..j + 1][..j] == parts[..j];
          PartReads(ms, i, j, vs, outputs);
          tokens := tokens + PartTokens(ValueOfPart(ms[i].content.parts[j]));
          j := j + 1;
        }
        assert parts[..j] == parts;
      }
      i := i + 1;
    }
    assert vs[..i] == vs;
  }

  /** `k` tool messages were trimmed and none of them needlessly. */
  ghost predicate Needed(vs: seq<MessageValue>, k: nat, target: int) {
    && k <= |ToolIndexes(vs)|
    && forall j: nat :: j < k ==> Estimate(TrimFirst(vs, j)) > target
  }

  /** The state of a pass: `done` tool messages are trimmed and `current` is the estimate. */
  ghost predicate Counted(clone: seq<Message>, outputs: set<Output>, vs: seq<MessageValue>, done: nat, current: int,
                          target: int)
    reads outputs
  {
    && Needed(vs, done, target)
    && Shows(clone, TrimFirst(vs, done), outputs)
    && current == Estimate(TrimFirst(vs, done))
  }

  /** The next tool message, while the request is still too large. */
  method TrimNext(clone: seq<Message>, indexes: seq<nat>, k: nat, tokens: int, target: int,
                  ghost vs: seq<MessageValue>, ghost outputs: set<Output>)
    returns (current: int)
    requires Homed(clone)
    requires indexes == ToolIndexes(vs) && k < |indexes|
    requires Counted(clone, outputs, vs, k, tokens, target) && tokens > target
    modifies outputs
    ensures Counted(clone, outputs, vs, k + 1, current, target)
  {
    TrimOneMore(vs, k);
    assert SameShape(clone, TrimFirst(vs, k));
    current := TrimMessage(clone, indexes[k], tokens, TrimFirst(vs, k), outputs);
  }

  /** One pass over the tool messages `from..to`, stopping once the count fits. */
  method Pass(clone: seq<Message>, indexes: seq<nat>, from: nat, to: nat, tokens: int, target: int,
              ghost vs: seq<MessageValue>, ghost outputs: set<Output>)
    returns (current: int, ghost done: nat)
    requires Homed(clone)
    requires indexes == ToolIndexes(vs) && from <= to <= |indexes|
    requires Counted(clone, outputs, vs, from, tokens, target)
    modifies outputs
    ensures Counted(clone, outputs, vs, done, current, target)
    ensures done == to || (done < to && current <= target)
  {
    current := tokens;
    var k := from;
    while k < to && current > target
      invariant from <= k <= to
      invariant Counted(clone, outputs, vs, k, current, target)
    {
      current := TrimNext(clone, indexes, k, current, target, vs, outputs);
      k := k + 1;
    }
    done := k;
  }

  function Larger(a: nat, b: int): nat {
    if b <= a then a else b
  }

  /** Pass 1 spares the recent tail, pass 2 takes it too. */
  method TrimOldest(clone: seq<Message>, indexes: seq<nat>, tokens: int, target: int,
                    ghost vs: seq<MessageValue>, ghost outputs: set<Output>)
    returns (ghost done: nat)
    requires Homed(clone) && Shows(clone, vs, outputs)
    requires indexes == ToolIndexes(vs)
    requires tokens == Estimate(vs)
    modifies outputs
    ensures Needed(vs, done, target) && Shows(clone, TrimFirst(vs, done), outputs)
    ensures Estimate(TrimFirst(vs, done)) <= target || done == |indexes|
  {
    NothingTrimmed(vs);
    var keepFrom := Larger(0, |indexes| - KEEP_RECENT_TOOL_MESSAGES);
    var current;
    current, done := Pass(clone, indexes, 0, keepFrom, tokens, target, vs, outputs);
    // The second loop's own condition stops it at once when the first one was enough.
    if current > target {
      current, done := Pass(clone, indexes, keepFrom, |indexes|, current, target, vs, outputs);
    }
  }

  /** What a trim promises: an oldest-first prefix of the tool messages was trimmed, none of
      them needlessly, and it fits or there was no tool message left. */
  ghost predicate TrimmedEnough(vs: seq<MessageValue>, k: nat, target: int) {
    Needed(vs, k, target) && (Estimate(TrimFirst(vs, k)) <= target || k == |ToolIndexes(vs)|)
  }

  /** The whole trim of one outgoing request, whose messages read as `vs` before and after. */
  method TrimInFlightToolResults(messages: seq<Message>, target: int,
                                 ghost vs: seq<MessageValue>, ghost outputs: set<Output>)
    returns (result: Option<seq<Message>>, ghost k: nat, ghost copies: set<Output>)
    requires Shows(messages, vs, outputs)
    ensures Shows(messages, vs, outputs)
    ensures result.None? <==> Estimate(vs) <= target
    ensures result.Some? ==> fresh(copies)
    ensures result.Some? ==> TrimmedEnough(vs, k, target) && Shows(result.value, TrimFirst(vs, k), copies)
    ensures result.Some? ==> OldestOverwritten(vs, TrimFirst(vs, k), k)
  {
    var indexes := CollectToolIndexes(messages, vs);
    var clone;
    clone, copies := Clone(messages, vs, outputs);
    var current := EstimateTokens(clone, vs, copies);
    if current <= target {
      result, k := None, 0;
    } else {
      k := TrimOldest(clone, indexes, current, target, vs, copies);
      TrimOverwrites(vs, k);
      result := Some(clone);
    }
  }

  /** A recent tool message is only ever touched when trimming all the older ones was not
      enough, and a message that is not a tool's is never touched. */
  lemma {:induction false} RecentOnesAreKept(vs: seq<MessageValue>, k: nat, target: int)
    requires TrimmedEnough(vs, k, target)
    ensures forall i :: 0 <= i < |vs| && vs[i].role != ToolRole ==> TrimFirst(vs, k)[i] == vs[i]
    ensures var older := |ToolIndexes(vs)| - 3;
      0 <= older && Estimate(TrimFirst(vs, older)) <= target ==>
        forall i: nat :: i in ToolIndexes(vs)[older..] ==> i < |vs| && TrimFirst(vs, k)[i] == vs[i]
  {
    ToolIndexesAre(vs);
    var tools := ToolIndexes(vs);
    forall i | 0 <= i < |vs| && vs[i].role != ToolRole ensures TrimFirst(vs, k)[i] == vs[i] {
      assert i !in tools[..k];
    }
    var older := |tools| - KEEP_RECENT_TOOL_MESSAGES;
    if 0 <= older && Estimate(TrimFirst(vs, older)) <= target {
      assert k <= older;
      forall i: nat | i in tools[older..] ensures i < |vs| && TrimFirst(vs, k)[i] == vs[i] {
        assert i !in tools[..k];
      }
    }
  }

  // ----- what trimming does to a message -----

  /** The part has an output whose value is there. */
  predicate HasValue(p: PartValue) {
    p.output.Some? && !p.output.value.1.Missing?
  }

  /** Its value has been overwritten, and nothing else of it. */
  predicate ValueOverwritten(p: PartValue, q: PartValue) {
    && q.text == p.text && q.size == p.size
    && p.output.Some? && q.output.Some? && q.output.value.0 == p.output.value.0
    && q.output.value.1 == Text("[previous tool output omitted to fit the model context window]")
  }

  /** Every value that was there has been overwritten; the other parts are as they were. */
  predicate OutputsOverwritten(m: MessageValue, n: MessageValue) {
    match m
    case PlainValue(_, _) => n == m
    case PartsValue(role, parts) =>
      && n.PartsValue? && n.role == role && |n.parts| == |parts|
      && forall j :: 0 <= j < |parts| ==>
           if HasValue(parts[j]) then ValueOverwritten(parts[j], n.parts[j])
           else n.parts[j] == parts[j]
  }

  /** How many tool messages come before a position. */
  function ToolsBefore(vs: seq<MessageValue>, i: nat): nat
    requires i <= |vs|
  {
    if i == 0 then 0 else ToolsBefore(vs, i - 1) + if vs[i - 1].role == ToolRole then 1 else 0
  }

  /** The oldest `k` tool messages have their outputs overwritten; every other message is the same. */
  predicate OldestOverwritten(vs: seq<MessageValue>, ws: seq<MessageValue>, k: nat) {
    && |ws| == |vs|
    && forall i: nat :: i < |vs| ==>
         if vs[i].role == ToolRole && ToolsBefore(vs, i) < k then OutputsOverwritten(vs[i], ws[i]) else ws[i] == vs[i]
  }

  lemma {:induction false} ToolsBeforeInPrefix(vs: seq<MessageValue>, n: nat, i: nat)
    requires i <= n <= |vs|
    ensures ToolsBefore(vs[..n], i) == ToolsBefore(vs, i)
  {
    if i > 0 { ToolsBeforeInPrefix(vs, n, i - 1); }
  }

  /** The tool messages are counted from the oldest. */
  lemma {:induction false} IndexIsCount(vs: seq<MessageValue>, i: nat)
    requires i < |vs| && vs[i].role == ToolRole
    ensures ToolsBefore(vs, i) < |ToolIndexes(vs)| && ToolIndexes(vs)[ToolsBefore(vs, i)] == i
    decreases |vs|
  {
    var n := |vs| - 1;
    ToolsBeforeInPrefix(vs, n, i);
    if i < n { IndexIsCount(vs[..n], i); } else { AllCounted(vs[..n]); }
  }

  lemma {:induction false} AllCounted(vs: seq<MessageValue>)
    ensures |ToolIndexes(vs)| == ToolsBefore(vs, |vs|)
    decreases |vs|
  {
    if vs != [] {
      var n := |vs| - 1;
      AllCounted(vs[..n]);
      ToolsBeforeInPrefix(vs, n, n);
    }
  }

  /** So that is what a trim does, whatever the request holds. */
  lemma TrimOverwrites(vs: seq<MessageValue>, k: nat)
    requires k <= |ToolIndexes(vs)|
    ensures OldestOverwritten(vs, TrimFirst(vs, k), k)
  {
    ToolIndexesAre(vs);
    var tools := ToolIndexes(vs);
    forall i: nat | i < |vs|
      ensures i in tools[..k] <==> vs[i].role == ToolRole && ToolsBefore(vs, i) < k
    {
      if vs[i].role == ToolRole {
        IndexIsCount(vs, i);
        if ToolsBefore(vs, i) < k { assert tools[..k][ToolsBefore(vs, i)] == i; }
      }
    }
  }

  // ----- what it costs -----

  /** The characters of a part that count: its text, else its output's text, else its serialized form. */
  function CountedLength(p: PartValue): nat {
    match (p.text, p.output)
    case (Some(text), _) => |text|
    case (None, Some((_, Text(text)))) => |text|
    case _ => p.size
  }

  function PartsLength(parts: seq<PartValue>): nat {
    if parts == [] then 0 else PartsLength(parts[..|parts| - 1]) + CountedLength(parts[|parts| - 1])
  }

  /** The characters of a message list that count, and in how many pieces they come. */
  function Characters(ms: seq<MessageValue>): nat {
    if ms == [] then 0
    else
      Characters(ms[..|ms| - 1])
      + match ms[|ms| - 1] case PlainValue(_, s) => |s| case PartsValue(_, parts) => PartsLength(parts)
  }

  function Pieces(ms: seq<MessageValue>): nat {
    if ms == [] then 0
    else
      Pieces(ms[..|ms| - 1])
      + match ms[|ms| - 1] case PlainValue(_, _) => 1 case PartsValue(_, parts) => |parts|
  }

  lemma {:induction false} PartsRoundUp(parts: seq<PartValue>)
    ensures PartsLength(parts) <= 4 * PartsTokens(parts) <= PartsLength(parts) + 3 * |parts|
    decreases |parts|
  {
    if parts != [] { PartsRoundUp(parts[..|parts| - 1]); }
  }

  /** The estimate is four characters a token, rounded up piece by piece. */
  lemma {:induction false} EstimateRoundsUp(ms: seq<MessageValue>)
    ensures Characters(ms) <= 4 * Estimate(ms) <= Characters(ms) + 3 * Pieces(ms)
    decreases |ms|
  {
    if ms != [] {
      EstimateRoundsUp(ms[..|ms| - 1]);
      var m := ms[|ms| - 1];
      if m.PartsValue? { PartsRoundUp(m.parts); }
    }
  }

  /** What overwriting the outputs of these parts saves: each output that counts then costs sixteen tokens. */
  function Saved(parts: seq<PartValue>): int {
    if parts == [] then 0
    else
      var p := parts[|parts| - 1];
      Saved(parts[..|parts| - 1]) + if p.text.None? && HasValue(p) then PartTokens(p) - 16 else 0
  }

  lemma {:induction false} PartsCost(parts: seq<PartValue>, out: seq<PartValue>)
    requires |out| == |parts|
    requires forall j :: 0 <= j < |parts| ==>
               if HasValue(parts[j]) then ValueOverwritten(parts[j], out[j])
               else out[j] == parts[j]
    ensures PartsTokens(out) == PartsTokens(parts) - Saved(parts)
    decreases |parts|
  {
    if parts != [] {
      var n := |parts| - 1;
      PartsCost(parts[..n], out[..n]);
      if HasValue(parts[n]) { assert Tokens(62) == 16; }
    }
  }

  function SavedBy(vs: seq<MessageValue>, k: nat, n: nat): int
    requires n <= |vs|
  {
    if n == 0 then 0
    else
      var m := vs[n - 1];
      SavedBy(vs, k, n - 1)
      + if m.role == ToolRole && ToolsBefore(vs, n - 1) < k && m.PartsValue? then Saved(m.parts) else 0
  }

  lemma {:induction false} CostUpTo(vs: seq<MessageValue>, ws: seq<MessageValue>, k: nat, n: nat)
    requires OldestOverwritten(vs, ws, k) && n <= |vs|
    ensures Estimate(ws[..n]) == Estimate(vs[..n]) - SavedBy(vs, k, n)
  {
    if n > 0 {
      CostUpTo(vs, ws, k, n - 1);
      assert vs[..n][..n - 1] == vs[..n - 1] && ws[..n][..n - 1] == ws[..n - 1];
      if vs[n - 1].PartsValue? && vs[n - 1].role == ToolRole && ToolsBefore(vs, n - 1) < k {
        PartsCost(vs[n - 1].parts, ws[n - 1].parts);
      }
    }
  }

  /** A trim lowers the estimate by exactly what it saves. */
  lemma TrimSaves(vs: seq<MessageValue>, ws: seq<MessageValue>, k: nat)
    requires OldestOverwritten(vs, ws, k)
    ensures Estimate(ws) == Estimate(vs) - SavedBy(vs, k, |vs|)
  {
    CostUpTo(vs, ws, k, |vs|);
    assert vs[..|vs|] == vs && ws[..|ws|] == ws;
  }

  /** In particular, of parts whose outputs count and are larger than the placeholder, something is saved. */
  lemma {:induction false} LargeOutputsShrink(parts: seq<PartValue>)
    requires forall p :: p in parts ==> p.text.None? && HasValue(p) && PartTokens(p) > 16
    ensures Saved(parts) >= |parts|
    decreases |parts|
  {
    if parts != [] { LargeOutputsShrink(parts[..|parts| - 1]); }
  }
}
