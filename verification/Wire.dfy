/** Flattening a conversation into Ollama's wire messages (internal/llm/ollama.go:102-116, 209-219, 290-340). */
module Wire {
  import opened Conversation
  import opened ToolLoop

  datatype WireCall = WireCall(name: string, arguments: string)

  datatype WireMessage = WireMessage(role: string, content: string, toolName: string, calls: seq<WireCall>)

  function RoleName(r: Role): string {
    if r == Assistant then "assistant" else "user"
  }

  /** strings.Join(texts, "\n") */
  function JoinLines(texts: seq<string>): string {
    if texts == [] then "" else if |texts| == 1 then texts[0] else texts[0] + "\n" + JoinLines(texts[1..])
  }

  function TextsIn(parts: seq<Part>): seq<string> {
    if parts == [] then []
    else (if parts[0].Text? then [parts[0].text] else []) + TextsIn(parts[1..])
  }

  function CallsIn(parts: seq<Part>): seq<WireCall> {
    if parts == [] then []
    else (if parts[0].ToolUse? then [WireCall(parts[0].name, parts[0].input)] else []) + CallsIn(parts[1..])
  }

  function ResultsIn(parts: seq<Part>): seq<WireMessage> {
    if parts == [] then []
    else (if parts[0].ToolResult? then [ToolMessage(parts[0])] else []) + ResultsIn(parts[1..])
  }

  function ToolMessage(part: Part): WireMessage
    requires part.ToolResult?
  {
    WireMessage("tool", part.content, part.toolName, [])
  }

  /** Joining keeps every text whole, with one line break between two of them. */
  lemma {:induction false} JoinLinesIs(a: seq<string>, b: seq<string>, t: string)
    ensures JoinLines([]) == "" && JoinLines([t]) == t
    ensures a != [] && b != [] ==> JoinLines(a + b) == JoinLines(a) + "\n" + JoinLines(b)
    decreases |a|
  {
    if |a| > 1 && b != [] {
      assert (a + b)[0] == a[0] && (a + b)[1..] == a[1..] + b;
      JoinLinesIs(a[1..], b, t);
    } else if |a| == 1 {
      assert a + b == [a[0]] + b && (a + b)[1..] == b;
    }
  }

  lemma {:induction false} CallsInConcat(a: seq<Part>, b: seq<Part>)
    ensures CallsIn(a + b) == CallsIn(a) + CallsIn(b)
    decreases |a|
  {
    if a == [] {
      assert a + b == b;
    } else {
      assert (a + b)[0] == a[0] && (a + b)[1..] == a[1..] + b;
      CallsInConcat(a[1..], b);
    }
  }

  lemma {:induction false} TextsInConcat(a: seq<Part>, b: seq<Part>)
    ensures TextsIn(a + b) == TextsIn(a) + TextsIn(b)
    decreases |a|
  {
    if a == [] {
      assert a + b == b;
    } else {
      assert (a + b)[0] == a[0] && (a + b)[1..] == a[1..] + b;
      TextsInConcat(a[1..], b);
    }
  }

  lemma {:induction false} ResultsInConcat(a: seq<Part>, b: seq<Part>)
    ensures ResultsIn(a + b) == ResultsIn(a) + ResultsIn(b)
    decreases |a|
  {
    if a == [] {
      assert a + b == b;
    } else {
      assert (a + b)[0] == a[0] && (a + b)[1..] == a[1..] + b;
      ResultsInConcat(a[1..], b);
    }
  }

  /** The texts, calls and results in the parts of a message are those of each part, in order. */
  lemma PartsAre(parts: seq<Part>, part: Part)
    ensures TextsIn(parts + [part]) == TextsIn(parts) + match part case Text(t) => [t] case _ => []
    ensures CallsIn(parts + [part]) ==
      CallsIn(parts) + match part case ToolUse(_, name, input) => [WireCall(name, input)] case _ => []
    ensures ResultsIn(parts + [part]) == ResultsIn(parts) +
      match part case ToolResult(_, tool, output, _) => [WireMessage("tool", output, tool, [])] case _ => []
    ensures TextsIn([]) == [] && CallsIn([]) == [] && ResultsIn([]) == []
  {
    TextsInConcat(parts, [part]);
    CallsInConcat(parts, [part]);
    ResultsInConcat(parts, [part]);
  }

  /** The message for collected text and calls, if anything was collected. */
  function Lead(role: string, texts: seq<string>, calls: seq<WireCall>): seq<WireMessage> {
    if texts == [] && calls == [] then [] else [WireMessage(role, JoinLines(texts), "", calls)]
  }

  /** The wire messages for `parts` when `texts` and `calls` have been collected but not flushed. */
  function Flatten(role: string, texts: seq<string>, calls: seq<WireCall>, parts: seq<Part>): seq<WireMessage>
    decreases |parts|
  {
    if parts == [] then Lead(role, texts, calls)
    else
      match parts[0]
      case Text(text) => Flatten(role, texts + [text], calls, parts[1..])
      case ToolUse(id, name, input) => Flatten(role, texts, calls + [WireCall(name, input)], parts[1..])
      case ToolResult(_, _, _, _) =>
        Lead(role, texts, calls) + [ToolMessage(parts[0])] + Flatten(role, [], [], parts[1..])
      case Unknown => Flatten(role, texts, calls, parts[1..])
  }

  /** What one message becomes on the wire: never nothing. */
  function OnWire(m: Message): seq<WireMessage> {
    var out := Flatten(RoleName(m.role), [], [], m.content);
    if out == [] then [WireMessage(RoleName(m.role), "", "", [])] else out
  }

  lemma FlattenNext(role: string, texts: seq<string>, calls: seq<WireCall>, parts: seq<Part>, i: nat)
    requires i < |parts|
    ensures Flatten(role, texts, calls, parts[i..]) ==
      match parts[i]
      case Text(text) => Flatten(role, texts + [text], calls, parts[i + 1..])
      case ToolUse(id, name, input) => Flatten(role, texts, calls + [WireCall(name, input)], parts[i + 1..])
      case ToolResult(_, _, _, _) =>
        Lead(role, texts, calls) + [ToolMessage(parts[i])] + Flatten(role, [], [], parts[i + 1..])
      case Unknown => Flatten(role, texts, calls, parts[i + 1..])
  {
    assert parts[i..][0] == parts[i] && parts[i..][1..] == parts[i + 1..];
  }

  lemma FlattenNothing(role: string, texts: seq<string>, calls: seq<WireCall>)
    ensures Flatten(role, texts, calls, []) == Lead(role, texts, calls)
  {
  }

  /** toOllamaMessages: buffers flushed at every tool result and once at the end. */
  method ToOllamaMessages(m: Message) returns (out: seq<WireMessage>)
    ensures out == OnWire(m)
  {
    var role := if m.role == Assistant then "assistant" else "user";
    out := [];
    var textParts: seq<string>, toolCalls: seq<WireCall> := [], [];
    hide Flatten, JoinLines;
    assert m.content[0..] == m.content;
    for i := 0 to |m.content|
      invariant Flatten(role, [], [], m.content) == out + Flatten(role, textParts, toolCalls, m.content[i..])
    {
      var part := m.content[i];
      FlattenNext(role, textParts, toolCalls, m.content, i);
      match part
      case Text(text) =>
        textParts := textParts + [text];
      case ToolUse(id, name, input) =>
        toolCalls := toolCalls + [WireCall(name, input)];
      case ToolResult(_, _, _, _) =>
        if |textParts| != 0 || |toolCalls| != 0 {
          out := out + [WireMessage(role, JoinLines(textParts), "", toolCalls)];
          textParts, toolCalls := [], [];
        }
        out := out + [ToolMessage(part)];
      case Unknown =>
    }
    assert m.content[|m.content|..] == [];
    FlattenNothing(role, textParts, toolCalls);
    if |textParts| != 0 || |toolCalls| != 0 {
      out := out + [WireMessage(role, JoinLines(textParts), "", toolCalls)];
    }
    if |out| == 0 {
      out := [WireMessage(role, "", "", [])];
    }
  }

  // ---------------------------------------------------------------- what the flattening keeps

  ghost predicate NoResults(parts: seq<Part>) {
    forall part | part in parts :: !part.ToolResult?
  }

  lemma {:induction false} FlattenSegment(role: string, texts: seq<string>, calls: seq<WireCall>, parts: seq<Part>)
    requires NoResults(parts)
    ensures Flatten(role, texts, calls, parts) == Lead(role, texts + TextsIn(parts), calls + CallsIn(parts))
    decreases |parts|
  {
    if parts == [] {
      assert texts + TextsIn(parts) == texts && calls + CallsIn(parts) == calls;
    } else {
      match parts[0]
      case Text(text) =>
        FlattenSegment(role, texts + [text], calls, parts[1..]);
        assert texts + [text] + TextsIn(parts[1..]) == texts + TextsIn(parts);
        assert CallsIn(parts) == CallsIn(parts[1..]);
      case ToolUse(id, name, input) =>
        FlattenSegment(role, texts, calls + [WireCall(name, input)], parts[1..]);
        assert calls + [WireCall(name, input)] + CallsIn(parts[1..]) == calls + CallsIn(parts);
        assert TextsIn(parts) == TextsIn(parts[1..]);
      case Unknown =>
        assert TextsIn(parts) == TextsIn(parts[1..]) && CallsIn(parts) == CallsIn(parts[1..]);
        FlattenSegment(role, texts, calls, parts[1..]);
    }
  }

  lemma {:induction false} FlattenSplit(role: string, texts: seq<string>, calls: seq<WireCall>,
                                        a: seq<Part>, r: Part, b: seq<Part>)
    requires r.ToolResult?
    ensures Flatten(role, texts, calls, a + [r] + b)
         == Flatten(role, texts, calls, a) + [ToolMessage(r)] + Flatten(role, [], [], b)
    decreases |a|
  {
    var parts := a + [r] + b;
    if a == [] {
      assert parts[0] == r && parts[1..] == b;
    } else {
      assert parts[0] == a[0] && parts[1..] == a[1..] + [r] + b;
      match a[0]
      case Text(text) => FlattenSplit(role, texts + [text], calls, a[1..], r, b);
      case ToolUse(id, name, input) => FlattenSplit(role, texts, calls + [WireCall(name, input)], a[1..], r, b);
      case Unknown => FlattenSplit(role, texts, calls, a[1..], r, b);
      case ToolResult(_, _, _, _) => FlattenSplit(role, [], [], a[1..], r, b);
    }
  }

  /** Nothing crosses a tool result: what comes before it is flattened before it, what comes after it after. */
  lemma ResultsAreBoundaries(role: string, a: seq<Part>, r: Part, b: seq<Part>)
    requires r.ToolResult?
    ensures Flatten(role, [], [], a + [r] + b)
         == Flatten(role, [], [], a) + [ToolMessage(r)] + Flatten(role, [], [], b)
  {
    FlattenSplit(role, [], [], a, r, b);
  }

  /** Between two tool results, all text and all calls share one message, each in order. */
  lemma SegmentsShareOneMessage(role: string, parts: seq<Part>)
    requires NoResults(parts)
    ensures Flatten(role, [], [], parts) == Lead(role, TextsIn(parts), CallsIn(parts))
  {
    FlattenSegment(role, [], [], parts);
    assert [] + TextsIn(parts) == TextsIn(parts) && [] + CallsIn(parts) == CallsIn(parts);
  }

  /** All calls on the wire, in order. */
  function WireCalls(ms: seq<WireMessage>): seq<WireCall> {
    if ms == [] then [] else ms[0].calls + WireCalls(ms[1..])
  }

  /** The tool messages on the wire, in order. */
  function WireResults(ms: seq<WireMessage>): seq<WireMessage> {
    if ms == [] then [] else (if ms[0].role == "tool" then [ms[0]] else []) + WireResults(ms[1..])
  }

  /** The contents on the wire that are no tool's output, message by message. */
  function WireTexts(ms: seq<WireMessage>): seq<string> {
    if ms == [] then [] else (if ms[0].role == "tool" then [] else [ms[0].content]) + WireTexts(ms[1..])
  }

  function Flat(groups: seq<seq<string>>): seq<string> {
    if groups == [] then [] else groups[0] + Flat(groups[1..])
  }

  function Joined(groups: seq<seq<string>>): seq<string> {
    if groups == [] then [] else [JoinLines(groups[0])] + Joined(groups[1..])
  }

  lemma {:induction false} GroupsConcat(a: seq<seq<string>>, b: seq<seq<string>>)
    ensures Flat(a + b) == Flat(a) + Flat(b) && Joined(a + b) == Joined(a) + Joined(b)
    decreases |a|
  {
    if a == [] {
      assert a + b == b;
    } else {
      assert (a + b)[0] == a[0] && (a + b)[1..] == a[1..] + b;
      GroupsConcat(a[1..], b);
      hide JoinLines;
    }
  }

  lemma {:induction false} WireCallsConcat(a: seq<WireMessage>, b: seq<WireMessage>)
    ensures WireCalls(a + b) == WireCalls(a) + WireCalls(b)
    decreases |a|
  {
    if a == [] {
      assert a + b == b;
    } else {
      assert (a + b)[0] == a[0] && (a + b)[1..] == a[1..] + b;
      WireCallsConcat(a[1..], b);
      Regrouped(a[0].calls, WireCalls(a[1..]), WireCalls(b));
    }
  }

  lemma {:induction false} WireResultsConcat(a: seq<WireMessage>, b: seq<WireMessage>)
    ensures WireResults(a + b) == WireResults(a) + WireResults(b)
    decreases |a|
  {
    if a == [] {
      assert a + b == b;
    } else {
      assert (a + b)[0] == a[0] && (a + b)[1..] == a[1..] + b;
      WireResultsConcat(a[1..], b);
      Regrouped(if a[0].role == "tool" then [a[0]] else [], WireResults(a[1..]), WireResults(b));
    }
  }

  lemma {:induction false} WireTextsConcat(a: seq<WireMessage>, b: seq<WireMessage>)
    ensures WireTexts(a + b) == WireTexts(a) + WireTexts(b)
    decreases |a|
  {
    if a == [] {
      assert a + b == b;
    } else {
      assert (a + b)[0] == a[0] && (a + b)[1..] == a[1..] + b;
      WireTextsConcat(a[1..], b);
      Regrouped(if a[0].role == "tool" then [] else [a[0].content], WireTexts(a[1..]), WireTexts(b));
    }
  }

  lemma Regrouped<T>(a: seq<T>, b: seq<T>, c: seq<T>)
    ensures a + (b + c) == a + b + c
  {
  }

  lemma WireConcat(a: seq<WireMessage>, b: seq<WireMessage>)
    ensures WireCalls(a + b) == WireCalls(a) + WireCalls(b)
    ensures WireResults(a + b) == WireResults(a) + WireResults(b)
    ensures WireTexts(a + b) == WireTexts(a) + WireTexts(b)
  {
    WireCallsConcat(a, b);
    WireResultsConcat(a, b);
    WireTextsConcat(a, b);
  }

  /** What a flattening has to carry: calls, results and texts, each in order. `groups` says which texts share a
      message. */
  ghost predicate Carries(out: seq<WireMessage>, groups: seq<seq<string>>,
                          texts: seq<string>, calls: seq<WireCall>, results: seq<WireMessage>) {
    && WireCalls(out) == calls
    && WireResults(out) == results
    && WireTexts(out) == Joined(groups) && Flat(groups) == texts
  }

  lemma LeadCarries(role: string, texts: seq<string>, calls: seq<WireCall>) returns (groups: seq<seq<string>>)
    requires role != "tool"
    ensures Carries(Lead(role, texts, calls), groups, texts, calls, [])
  {
    groups := if texts == [] && calls == [] then [] else [texts];
  }

  lemma {:induction false} FlattenCarries(role: string, texts: seq<string>, calls: seq<WireCall>, parts: seq<Part>)
    returns (groups: seq<seq<string>>)
    requires role != "tool"
    ensures Carries(Flatten(role, texts, calls, parts), groups,
              texts + TextsIn(parts), calls + CallsIn(parts), ResultsIn(parts))
    decreases |parts|
  {
    hide Carries, TextsIn, CallsIn, ResultsIn, Lead, Flatten;
    if parts == [] {
      groups := NothingCarries(role, texts, calls);
    } else {
      var rest := parts[1..];
      PartsNext(parts);
      assert parts[0..] == parts;
      FlattenNext(role, texts, calls, parts, 0);
      match parts[0]
      case Text(text) =>
        groups := FlattenCarries(role, texts + [text], calls, rest);
        Regrouped(texts, [text], TextsIn(rest));
      case ToolUse(id, name, input) =>
        groups := FlattenCarries(role, texts, calls + [WireCall(name, input)], rest);
        Regrouped(calls, [WireCall(name, input)], CallsIn(rest));
      case Unknown =>
        groups := FlattenCarries(role, texts, calls, rest);
      case ToolResult(_, _, _, _) =>
        var lead := LeadCarries(role, texts, calls);
        var others := FlattenCarries(role, [], [], rest);
        groups := lead + others;
        assert [] + TextsIn(rest) == TextsIn(rest) && [] + CallsIn(rest) == CallsIn(rest);
        ToolCarries(Lead(role, texts, calls), lead, texts, calls, parts[0], Flatten(role, [], [], rest), others,
          TextsIn(rest), CallsIn(rest), ResultsIn(rest));
    }
  }

  lemma NothingCarries(role: string, texts: seq<string>, calls: seq<WireCall>) returns (groups: seq<seq<string>>)
    requires role != "tool"
    ensures Carries(Flatten(role, texts, calls, []), groups,
              texts + TextsIn([]), calls + CallsIn([]), ResultsIn([]))
  {
    assert texts + TextsIn([]) == texts && calls + CallsIn([]) == calls;
    hide Carries, Lead;
    groups := LeadCarries(role, texts, calls);
  }

  /** What the first part adds to the texts, the calls and the results. */
  lemma PartsNext(parts: seq<Part>)
    requires parts != []
    ensures var first, rest := parts[0], parts[1..];
      && TextsIn(parts) == (if first.Text? then [first.text] + TextsIn(rest) else TextsIn(rest))
      && CallsIn(parts) ==
           (if first.ToolUse? then [WireCall(first.name, first.input)] + CallsIn(rest) else CallsIn(rest))
      && ResultsIn(parts) == (if first.ToolResult? then [ToolMessage(first)] + ResultsIn(rest) else ResultsIn(rest))
  {
  }

  lemma ToolCarries(lead: seq<WireMessage>, groups: seq<seq<string>>, texts: seq<string>, calls: seq<WireCall>,
                    r: Part, rest: seq<WireMessage>, groups': seq<seq<string>>, texts': seq<string>,
                    calls': seq<WireCall>, results: seq<WireMessage>)
    requires r.ToolResult? && Carries(lead, groups, texts, calls, []) && Carries(rest, groups', texts', calls', results)
    ensures Carries(lead + [ToolMessage(r)] + rest, groups + groups',
              texts + texts', calls + calls', [ToolMessage(r)] + results)
  {
    WireConcat(lead + [ToolMessage(r)], rest);
    WireConcat(lead, [ToolMessage(r)]);
    assert WireCalls([ToolMessage(r)]) == [] && WireResults([ToolMessage(r)]) == [ToolMessage(r)];
    assert WireTexts([ToolMessage(r)]) == [];
    GroupsConcat(groups, groups');
    hide WireCalls, WireResults, WireTexts, Flat, Joined;
    assert calls + [] == calls && WireTexts(lead) + [] == WireTexts(lead);
  }

  lemma {:induction false} FlattenSize(role: string, texts: seq<string>, calls: seq<WireCall>, parts: seq<Part>)
    ensures |Flatten(role, texts, calls, parts)| <= |parts| + (if texts == [] && calls == [] then 0 else 1)
    decreases |parts|
  {
    if parts != [] {
      match parts[0]
      case Text(text) => FlattenSize(role, texts + [text], calls, parts[1..]);
      case ToolUse(id, name, input) => FlattenSize(role, texts, calls + [WireCall(name, input)], parts[1..]);
      case Unknown => FlattenSize(role, texts, calls, parts[1..]);
      case ToolResult(_, _, _, _) => FlattenSize(role, [], [], parts[1..]);
    }
  }

  lemma {:induction false} FlattenRoles(role: string, texts: seq<string>, calls: seq<WireCall>, parts: seq<Part>)
    ensures forall w | w in Flatten(role, texts, calls, parts) :: w.role == "tool" || w.role == role
    decreases |parts|
  {
    if parts != [] {
      match parts[0]
      case Text(text) => FlattenRoles(role, texts + [text], calls, parts[1..]);
      case ToolUse(id, name, input) => FlattenRoles(role, texts, calls + [WireCall(name, input)], parts[1..]);
      case Unknown => FlattenRoles(role, texts, calls, parts[1..]);
      case ToolResult(_, _, _, _) => FlattenRoles(role, [], [], parts[1..]);
    }
  }

  /** All calls, all tool results and all texts of a message reach the wire, once, in order and whole - texts that
      share a message separated by line breaks - in at least one message and at most one message a part. */
  lemma WireKeepsMeaning(m: Message) returns (groups: seq<seq<string>>)
    ensures WireCalls(OnWire(m)) == CallsIn(m.content)
    ensures WireResults(OnWire(m)) == ResultsIn(m.content)
    ensures WireTexts(OnWire(m)) == Joined(groups) && Flat(groups) == TextsIn(m.content)
    ensures 1 <= |OnWire(m)| <= if |m.content| > 1 then |m.content| else 1
    ensures forall w | w in OnWire(m) :: w.role in ["tool", if m.role == Assistant then "assistant" else "user"]
  {
    var role := RoleName(m.role);
    groups := FlattenCarries(role, [], [], m.content);
    FlattenSize(role, [], [], m.content);
    FlattenRoles(role, [], [], m.content);
    assert [] + TextsIn(m.content) == TextsIn(m.content) && [] + CallsIn(m.content) == CallsIn(m.content);
    if Flatten(role, [], [], m.content) == [] {
      assert Carries([], groups, TextsIn(m.content), CallsIn(m.content), ResultsIn(m.content));
      assert Joined(groups) == [] && groups == [];
      groups := [[]];
    }
  }

  // ---------------------------------------------------------------- a tool-loop history on the wire

  /** A whole history on the wire. */
  function HistoryOnWire(messages: seq<Message>): seq<WireMessage> {
    if messages == [] then []
    else HistoryOnWire(messages[..|messages| - 1]) + OnWire(messages[|messages| - 1])
  }

  /** The message part of a request. */
  method RequestMessages(system: string, messages: seq<Message>) returns (wire: seq<WireMessage>)
    ensures wire == [WireMessage("system", system, "", [])] + HistoryOnWire(messages)
  {
    wire := [WireMessage("system", system, "", [])];
    for i := 0 to |messages|
      invariant wire == [WireMessage("system", system, "", [])] + HistoryOnWire(messages[..i])
    {
      assert messages[..i + 1][..i] == messages[..i];
      var out := ToOllamaMessages(messages[i]);
      wire := wire + out;
    }
    assert messages[..|messages|] == messages;
  }

  lemma {:induction false} SameCalls(parts: seq<Part>)
    ensures |CallsIn(parts)| == |CallsOf(parts)|
    ensures forall j | 0 <= j < |CallsIn(parts)| ::
      CallsIn(parts)[j] == WireCall(CallsOf(parts)[j].name, CallsOf(parts)[j].input)
    decreases |parts|
  {
    if parts != [] {
      var n := |parts| - 1;
      SameCalls(parts[..n]);
      assert parts == parts[..n] + [parts[n]];
      CallsInConcat(parts[..n], [parts[n]]);
    }
  }

  lemma {:induction false} OnlyResults(role: string, parts: seq<Part>)
    requires forall part | part in parts :: part.ToolResult?
    ensures |Flatten(role, [], [], parts)| == |parts|
    ensures forall j | 0 <= j < |parts| :: Flatten(role, [], [], parts)[j] == ToolMessage(parts[j])
    decreases |parts|
  {
    if parts != [] {
      OnlyResults(role, parts[1..]);
      assert Flatten(role, [], [], parts) == [ToolMessage(parts[0])] + Flatten(role, [], [], parts[1..]);
    }
  }

  /** A round goes out as one assistant message carrying all its calls, followed by exactly as many "tool"
      messages, the j-th holding the output of the j-th call - and nothing else that would tell which. */
  lemma RoundOnWire(reply: Message, answer: Message)
    requires Round(reply, answer)
    ensures var calls := CallsOf(reply.content);
      && |OnWire(reply)| == 1 && OnWire(reply)[0].role == "assistant"
      && |OnWire(reply)[0].calls| == |calls| == |OnWire(answer)|
      && forall j | 0 <= j < |calls| ::
           && OnWire(reply)[0].calls[j] == WireCall(calls[j].name, calls[j].input)
           && OnWire(answer)[j].role == "tool" && OnWire(answer)[j].content == answer.content[j].content
           && answer.content[j].id == calls[j].id
           && OnWire(answer)[j].toolName == ""
  {
    SegmentsShareOneMessage("assistant", reply.content);
    SameCalls(reply.content);
    OnlyResults("user", answer.content);
  }

  /** The number of wire messages of the first `i` rounds: each costs one, and one a call. */
  ghost function RoundsSize(messages: seq<Message>, i: nat): nat
    requires 2 * i <= |messages|
  {
    if i == 0 then 0 else RoundsSize(messages, i - 1) + 1 + |CallsOf(messages[2 * i - 1].content)|
  }

  lemma {:induction false} RoundsSizeOfFront(messages: seq<Message>, n: nat, i: nat)
    requires 2 * i <= n <= |messages|
    ensures RoundsSize(messages[..n], i) == RoundsSize(messages, i)
    decreases i
  {
    if i > 0 {
      RoundsSizeOfFront(messages, n, i - 1);
      assert messages[..n][2 * i - 1] == messages[2 * i - 1];
    }
  }

  lemma LastRound(messages: seq<Message>, i: nat)
    requires Protocol(messages, i) && i > 0
    ensures var front, a, b := messages[..2 * i - 1], OnWire(messages[2 * i - 1]), OnWire(messages[2 * i]);
      && Protocol(front, i - 1)
      && HistoryOnWire(messages) == HistoryOnWire(front) + a + b
      && |a| == 1 && |b| == |CallsOf(messages[2 * i - 1].content)|
  {
    assert messages[..|messages| - 1] == messages[..2 * i];
    assert messages[..2 * i][..2 * i - 1] == messages[..2 * i - 1];
    ProtocolFront(messages, i);
    RoundOnWire(messages[2 * i - 1], messages[2 * i]);
  }

  lemma PromptOnWire(messages: seq<Message>)
    requires Protocol(messages, 0)
    ensures |HistoryOnWire(messages)| == 1
  {
    SegmentsShareOneMessage("user", messages[0].content);
    assert messages[..0] == [];
    assert TextsIn(messages[0].content) == [messages[0].content[0].text];
  }

  /** A message of one text goes out as one message with that text. */
  lemma TextOnWire(m: Message, text: string)
    requires m.content == [Text(text)]
    ensures OnWire(m) == [WireMessage(if m.role == Assistant then "assistant" else "user", text, "", [])]
  {
    JoinLinesIs([], [], text);
    SegmentsShareOneMessage(RoleName(m.role), m.content);
    PartsAre([], Text(text));
    assert [] + [Text(text)] == [Text(text)];
  }

  /** The prompt is what follows the system prompt in every request of a tool loop. */
  lemma {:induction false} PromptComesFirst(messages: seq<Message>, i: nat, prompt: string)
    requires Protocol(messages, i) && messages[0] == Message(User, [Text(prompt)])
    ensures HistoryOnWire(messages) != [] && HistoryOnWire(messages)[0] == WireMessage("user", prompt, "", [])
    decreases i
  {
    hide CallsOf, OnWire, Round, RoundAt;
    if i == 0 {
      TextOnWire(messages[0], prompt);
      assert messages[..0] == [];
    } else {
      LastRound(messages, i);
      PromptComesFirst(messages[..2 * i - 1], i - 1, prompt);
      hide HistoryOnWire;
    }
  }

  lemma {:induction false} HistorySize(messages: seq<Message>, i: nat)
    requires Protocol(messages, i)
    ensures |HistoryOnWire(messages)| == 1 + RoundsSize(messages, i)
    decreases i
  {
    hide HistoryOnWire, CallsOf, OnWire, Round, RoundAt;
    if i == 0 {
      PromptOnWire(messages);
    } else {
      LastRound(messages, i);
      RoundsSizeOfFront(messages, 2 * i - 1, i - 1);
      HistorySize(messages[..2 * i - 1], i - 1);
    }
  }

  /** After `at` messages the wire carries `a` and then `b`. */
  ghost predicate StandsAt(wire: seq<WireMessage>, at: nat, a: seq<WireMessage>, b: seq<WireMessage>) {
    exists front, back :: |front| == at && wire == front + a + b + back
  }

  lemma StillStands(w: seq<WireMessage>, at: nat, a: seq<WireMessage>, b: seq<WireMessage>, more: seq<WireMessage>)
    requires StandsAt(w, at, a, b)
    ensures StandsAt(w + more, at, a, b)
  {
    var front, back :| |front| == at && w == front + a + b + back;
    Regrouped(front + a + b, back, more);
  }

  lemma StandsAtEnd(w: seq<WireMessage>, a: seq<WireMessage>, b: seq<WireMessage>)
    ensures StandsAt(w + a + b, |w|, a, b)
  {
    assert w + a + b == w + a + b + [];
  }

  /** What stands in the history before the last round stands in all of it. */
  lemma BeforeLastRound(messages: seq<Message>, i: nat, at: nat, a: seq<WireMessage>, b: seq<WireMessage>)
    requires Protocol(messages, i) && i > 0 && StandsAt(HistoryOnWire(messages[..2 * i - 1]), at, a, b)
    ensures StandsAt(HistoryOnWire(messages), at, a, b)
  {
    hide OnWire, CallsOf, HistoryOnWire, StandsAt, RoundAt;
    LastRound(messages, i);
    var w, a', b' := HistoryOnWire(messages[..2 * i - 1]), OnWire(messages[2 * i - 1]), OnWire(messages[2 * i]);
    StillStands(w, at, a, b, a' + b');
    Regrouped(w, a', b');
  }

  lemma LastRoundStands(messages: seq<Message>, i: nat)
    requires Protocol(messages, i) && i > 0
    ensures StandsAt(HistoryOnWire(messages), 1 + RoundsSize(messages, i - 1),
              OnWire(messages[2 * i - 1]), OnWire(messages[2 * i]))
  {
    hide OnWire, CallsOf, HistoryOnWire, StandsAt, RoundAt, RoundsSize;
    var front := messages[..2 * i - 1];
    LastRound(messages, i);
    HistorySize(front, i - 1);
    RoundsSizeOfFront(messages, 2 * i - 1, i - 1);
    StandsAtEnd(HistoryOnWire(front), OnWire(messages[2 * i - 1]), OnWire(messages[2 * i]));
  }

  /** Whatever the history, a round starts where the rounds before it end, and is laid out as `RoundOnWire`
      says: calls and their answers stay paired by position over the whole request. */
  lemma {:induction false} ProtocolOnWire(messages: seq<Message>, i: nat, k: nat)
    requires Protocol(messages, i) && k < i
    ensures Round(messages[2 * k + 1], messages[2 * k + 2])
    ensures StandsAt(HistoryOnWire(messages), 1 + RoundsSize(messages, k),
              OnWire(messages[2 * k + 1]), OnWire(messages[2 * k + 2]))
    decreases i
  {
    hide OnWire, CallsOf, HistoryOnWire, StandsAt, RoundsSize, Round;
    assert RoundAt(messages, k);
    hide RoundAt;
    if k < i - 1 {
      var front := messages[..2 * i - 1];
      ProtocolFront(messages, i);
      RoundsSizeOfFront(messages, 2 * i - 1, k);
      ProtocolOnWire(front, i - 1, k);
      BeforeLastRound(messages, i, 1 + RoundsSize(messages, k), OnWire(front[2 * k + 1]), OnWire(front[2 * k + 2]));
    } else {
      LastRoundStands(messages, i);
    }
  }
}
