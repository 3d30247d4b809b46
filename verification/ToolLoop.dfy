/** Messages of a tool-use conversation and how both clients assemble a reply
    (internal/llm/tools.go:11-89, 163-192, internal/llm/ollama.go:245-278). */
module Conversation {
  import opened Options
  import opened Decimal

  datatype Role = User | Assistant | Unset

  datatype Part =
    | Text(text: string)
    | ToolUse(id: string, name: string, input: string)
    | ToolResult(id: string, toolName: string, content: string, isError: bool)
    | Unknown

  datatype Message = Message(role: Role, content: seq<Part>)

  datatype ToolCall = ToolCall(id: string, name: string, input: string)

  datatype ToolResponse = ToolResponse(text: string, calls: seq<ToolCall>, assistant: Message)

  /** The part answering a call. It does not carry the tool's name. */
  function ToolResultPart(id: string, content: string, isError: bool): Part {
    ToolResult(id, "", content, isError)
  }

  /** The calls requested by the parts of a message, in order. */
  function CallsOf(parts: seq<Part>): seq<ToolCall> {
    if parts == [] then []
    else
      var last := parts[|parts| - 1];
      CallsOf(parts[..|parts| - 1])
      + (if last.ToolUse? then [ToolCall(last.id, last.name, last.input)] else [])
  }

  /** All text of the parts of a message. */
  function TextOf(parts: seq<Part>): string {
    if parts == [] then ""
    else
      var last := parts[|parts| - 1];
      TextOf(parts[..|parts| - 1]) + (if last.Text? then last.text else "")
  }

  /** What the agent relies on: a reply's calls are the tool_use parts of its message, which is an assistant
      turn of text and calls only whenever there are calls to answer. */
  ghost predicate Faithful(r: ToolResponse) {
    && CallsOf(r.assistant.content) == r.calls
    && TextOf(r.assistant.content) == r.text
    && (forall part | part in r.assistant.content :: part.Text? || part.ToolUse?)
    && (r.calls != [] ==> r.assistant.role == Assistant)
  }

  lemma CallsOfStep(parts: seq<Part>, part: Part)
    ensures CallsOf(parts + [part]) ==
      CallsOf(parts) + (if part.ToolUse? then [ToolCall(part.id, part.name, part.input)] else [])
    ensures TextOf(parts + [part]) == TextOf(parts) + (if part.Text? then part.text else "")
  {
    assert (parts + [part])[..|parts + [part]| - 1] == parts;
  }

  /** A block of an Anthropic reply. */
  datatype Block = TextBlock(text: string) | ToolUseBlock(id: string, name: string, input: string) | OtherBlock

  /** The parts a reply's blocks stand for; blocks of other types are skipped. */
  ghost function PartsOf(blocks: seq<Block>): seq<Part> {
    if blocks == [] then []
    else
      PartsOf(blocks[..|blocks| - 1]) +
      match blocks[|blocks| - 1]
      case TextBlock(t) => [Text(t)]
      case ToolUseBlock(id, name, input) => [ToolUse(id, name, input)]
      case OtherBlock => []
  }

  /** Each block adds what it says, field by field: a text block its text, a call block its call. */
  lemma PartsOfStep(blocks: seq<Block>, b: Block)
    ensures PartsOf([]) == [] && CallsOf([]) == [] && TextOf([]) == ""
    ensures PartsOf(blocks + [b]) == PartsOf(blocks) +
      match b case TextBlock(t) => [Text(t)] case ToolUseBlock(id, name, input) => [ToolUse(id, name, input)]
              case OtherBlock => []
    ensures CallsOf(PartsOf(blocks + [b])) == CallsOf(PartsOf(blocks)) +
      match b case ToolUseBlock(id, name, input) => [ToolCall(id, name, input)] case _ => []
    ensures TextOf(PartsOf(blocks + [b])) == TextOf(PartsOf(blocks)) + match b case TextBlock(t) => t case _ => ""
  {
    assert (blocks + [b])[..|blocks + [b]| - 1] == blocks;
    match b {
      case TextBlock(t) => CallsOfStep(PartsOf(blocks), Text(t));
      case ToolUseBlock(id, name, input) => CallsOfStep(PartsOf(blocks), ToolUse(id, name, input));
      case OtherBlock => assert PartsOf(blocks) + [] == PartsOf(blocks);
    }
  }

  /** What a provider sends back. */
  datatype Reply =
    | NoReply
    | FromAnthropic(blocks: seq<Block>, truncated: bool)
    | FromOllama(content: string, toolCalls: seq<OllamaCall>)

  /** What the client makes of it, if it is not an error. */
  ghost function Assembled(r: Reply): Option<ToolResponse> {
    match r
    case NoReply => None
    case FromAnthropic(blocks, truncated) =>
      if truncated && forall b | b in blocks :: !b.ToolUseBlock? then None
      else Some(ToolResponse(TextOf(PartsOf(blocks)), CallsOf(PartsOf(blocks)), Message(Assistant, PartsOf(blocks))))
    case FromOllama(content, toolCalls) =>
      Some(ToolResponse(content, OllamaCalls(toolCalls),
        Message(if content == "" && toolCalls == [] then Unset else Assistant, OllamaParts(content, toolCalls))))
  }

  /** A reply cut off at the token limit is an error, unless it asks for a call. */
  method AssembleAnthropic(blocks: seq<Block>, truncated: bool) returns (r: Option<ToolResponse>)
    ensures r == Assembled(FromAnthropic(blocks, truncated))
    ensures r.None? <==> truncated && forall b | b in blocks :: !b.ToolUseBlock?
    ensures r.Some? ==> Faithful(r.value) && r.value.assistant == Message(Assistant, PartsOf(blocks))
  {
    var text, calls, parts := "", [], [];
    PartsOfStep([], OtherBlock);
    AssembledIsFaithful(FromAnthropic(blocks, truncated));
    CallsAreAsked(blocks);
    hide CallsOf, TextOf, PartsOf, Faithful;
    assert blocks[..0] == [];
    for i := 0 to |blocks|
      invariant parts == PartsOf(blocks[..i]) && calls == CallsOf(parts) && text == TextOf(parts)
    {
      assert blocks[..i + 1] == blocks[..i] + [blocks[i]];
      PartsOfStep(blocks[..i], blocks[i]);
      match blocks[i]
      case TextBlock(t) =>
        text := text + t;
        parts := parts + [Text(t)];
      case ToolUseBlock(id, name, input) =>
        calls := calls + [ToolCall(id, name, input)];
        parts := parts + [ToolUse(id, name, input)];
      case OtherBlock =>
        assert parts + [] == parts && calls + [] == calls && text + "" == text;
    }
    assert blocks[..|blocks|] == blocks;
    if truncated && |calls| == 0 {
      return None;
    }
    r := Some(ToolResponse(text, calls, Message(Assistant, parts)));
  }

  /** A reply's message has calls exactly when some block asks for one. */
  lemma {:induction false} CallsAreAsked(blocks: seq<Block>)
    ensures CallsOf(PartsOf(blocks)) == [] <==> forall b | b in blocks :: !b.ToolUseBlock?
    decreases |blocks|
  {
    if blocks != [] {
      var front, last := blocks[..|blocks| - 1], blocks[|blocks| - 1];
      assert blocks == front + [last];
      CallsAreAsked(front);
      PartsOfStep(front, last);
      hide PartsOf, CallsOf;
    }
  }

  lemma {:induction false} OnlyTextAndCalls(blocks: seq<Block>)
    ensures forall part | part in PartsOf(blocks) :: part.Text? || part.ToolUse?
    decreases |blocks|
  {
    if blocks != [] {
      OnlyTextAndCalls(blocks[..|blocks| - 1]);
    }
  }

  /** A model call fails exactly when there is no reply, or one cut off at the token limit that asks for no call;
      otherwise it yields the text, the calls and the message of the reply. */
  lemma FailsIff(r: Reply)
    ensures Assembled(r).None? <==>
      r.NoReply? || (r.FromAnthropic? && r.truncated && forall b | b in r.blocks :: !b.ToolUseBlock?)
    ensures r.FromAnthropic? && Assembled(r).Some? ==>
      Assembled(r).value.assistant == Message(Assistant, PartsOf(r.blocks))
    ensures r.FromOllama? ==>
      && Assembled(r).value.text == r.content && |Assembled(r).value.calls| == |r.toolCalls|
      && Assembled(r).value.assistant.content == OllamaParts(r.content, r.toolCalls)
  {
    hide PartsOf, OllamaParts, OllamaID;
  }

  /** Whatever a provider sends, what is made of it is faithful, and never a user turn. */
  lemma AssembledIsFaithful(r: Reply)
    ensures Assembled(r).Some? ==> Faithful(Assembled(r).value) && Assembled(r).value.assistant.role != User
  {
    match r
    case NoReply =>
    case FromAnthropic(blocks, _) =>
      OnlyTextAndCalls(blocks);
      hide CallsOf, TextOf, PartsOf;
    case FromOllama(content, toolCalls) =>
      OllamaPartsAre(content, toolCalls);
      assert toolCalls == [] ==> OllamaCalls(toolCalls) == [];
      hide CallsOf, TextOf, OllamaParts, OllamaCalls;
  }

  /** A call of an Ollama reply: Ollama assigns no ids. */
  datatype OllamaCall = OllamaCall(name: string, arguments: string)

  function OllamaID(i: nat): string {
    "call_" + Format(i)
  }

  /** An id reads "call_" and the number of the call. */
  lemma OllamaIDIs(i: nat)
    ensures var id := OllamaID(i); |id| > 5 && id[..5] == "call_" && AllDigits(id[5..]) && Value(id[5..]) == i
  {
    ValueOfFormat(i);
    assert OllamaID(i)[5..] == Format(i) && OllamaID(i)[..5] == "call_";
  }

  lemma OllamaIDInjective(i: nat, j: nat)
    requires OllamaID(i) == OllamaID(j)
    ensures i == j
  {
    assert OllamaID(i)[5..] == Format(i) && OllamaID(j)[5..] == Format(j);
    FormatInjective(i, j);
  }

  /** The parts of an Ollama reply: its text, if any, then its calls. */
  ghost function OllamaParts(content: string, toolCalls: seq<OllamaCall>): seq<Part> {
    if toolCalls == [] then (if content == "" then [] else [Text(content)])
    else
      var n := |toolCalls| - 1;
      OllamaParts(content, toolCalls[..n]) + [ToolUse(OllamaID(n), toolCalls[n].name, toolCalls[n].arguments)]
  }

  function OllamaCalls(toolCalls: seq<OllamaCall>): (calls: seq<ToolCall>)
    ensures |calls| == |toolCalls|
  {
    seq(|toolCalls|, i requires 0 <= i < |toolCalls| =>
      ToolCall(OllamaID(i), toolCalls[i].name, toolCalls[i].arguments))
  }

  lemma OllamaCallsStep(toolCalls: seq<OllamaCall>, i: nat)
    requires i < |toolCalls|
    ensures OllamaCalls(toolCalls[..i + 1]) ==
      OllamaCalls(toolCalls[..i]) + [ToolCall(OllamaID(i), toolCalls[i].name, toolCalls[i].arguments)]
  {
    hide OllamaID;
  }

  lemma OllamaPartsStep(content: string, toolCalls: seq<OllamaCall>, i: nat)
    requires i < |toolCalls|
    ensures OllamaParts(content, toolCalls[..i + 1]) ==
      OllamaParts(content, toolCalls[..i]) + [ToolUse(OllamaID(i), toolCalls[i].name, toolCalls[i].arguments)]
  {
    hide OllamaID;
    assert toolCalls[..i + 1][..i] == toolCalls[..i];
  }

  lemma {:induction false} OllamaPartsAre(content: string, toolCalls: seq<OllamaCall>)
    ensures var parts := OllamaParts(content, toolCalls);
      && TextOf(parts) == content && CallsOf(parts) == OllamaCalls(toolCalls)
      && forall part | part in parts :: part.Text? || part.ToolUse?
    decreases |toolCalls|
  {
    hide OllamaID;
    if toolCalls == [] {
      CallsOfStep([], Text(content));
      assert [] + [Text(content)] == [Text(content)];
    } else {
      var n := |toolCalls| - 1;
      var use := ToolUse(OllamaID(n), toolCalls[n].name, toolCalls[n].arguments);
      OllamaPartsAre(content, toolCalls[..n]);
      OllamaPartsStep(content, toolCalls, n);
      OllamaCallsStep(toolCalls, n);
      assert toolCalls[..n + 1] == toolCalls;
      CallsOfStep(OllamaParts(content, toolCalls[..n]), use);
      hide OllamaParts, OllamaCalls, CallsOf, TextOf;
      assert forall part | part in OllamaParts(content, toolCalls[..n]) + [use] :: part.Text? || part.ToolUse?;
    }
  }

  lemma DistinctIDs(toolCalls: seq<OllamaCall>, i: nat, j: nat)
    requires i < j < |toolCalls|
    ensures OllamaCalls(toolCalls)[i].id != OllamaCalls(toolCalls)[j].id
  {
    if OllamaID(i) == OllamaID(j) {
      OllamaIDInjective(i, j);
    }
  }

  /** The synthesized ids tell the calls of one reply apart - of one reply only: every reply counts from 0. A
      reply without text and calls has no role. */
  method AssembleOllama(content: string, toolCalls: seq<OllamaCall>) returns (r: ToolResponse)
    ensures Some(r) == Assembled(FromOllama(content, toolCalls))
    ensures Faithful(r) && r.text == content && r.calls == OllamaCalls(toolCalls)
    ensures r.assistant.content == OllamaParts(content, toolCalls)
    ensures forall i, j | 0 <= i < j < |r.calls| :: r.calls[i].id != r.calls[j].id
    ensures r.assistant.role == if content == "" && toolCalls == [] then Unset else Assistant
  {
    hide OllamaID, CallsOf, TextOf;
    var assistant := Message(Unset, []);
    if content != "" {
      assistant := Message(Assistant, [Text(content)]);
    }
    var calls: seq<ToolCall> := [];
    if |toolCalls| > 0 {
      var parts: seq<Part> := [];
      if content != "" {
        parts := parts + [Text(content)];
      }
      for i := 0 to |toolCalls|
        invariant parts == OllamaParts(content, toolCalls[..i]) && calls == OllamaCalls(toolCalls[..i])
      {
        OllamaPartsStep(content, toolCalls, i);
        OllamaCallsStep(toolCalls, i);
        var id := OllamaID(i);
        calls := calls + [ToolCall(id, toolCalls[i].name, toolCalls[i].arguments)];
        parts := parts + [ToolUse(id, toolCalls[i].name, toolCalls[i].arguments)];
      }
      assert toolCalls[..|toolCalls|] == toolCalls;
      assistant := Message(Assistant, parts);
    }
    r := ToolResponse(content, calls, assistant);
    OllamaPartsAre(content, toolCalls);
    forall i, j | 0 <= i < j < |toolCalls| ensures r.calls[i].id != r.calls[j].id {
      DistinctIDs(toolCalls, i, j);
    }
  }
}

/** The bounded tool-call loop of an agent (internal/processor/agent.go:178-242). */
module ToolLoop {
  import opened Options
  import opened Conversation
  import opened Decimal

  datatype Step = Step(tool: string, input: string, output: string, isError: bool)

  datatype AgentResult = AgentResult(success: bool, output: string, steps: seq<Step>)

  /** How a run ended. */
  datatype Ending = Concluded | ModelFailed | Exhausted

  /** How one pass of the loop ended. */
  datatype Pass = Failure | Final | Answered

  /** The functions of the standard library the loop uses: SimpleToolInput and strings.TrimSpace. */
  datatype Library = Library(field: string -> string, trim: string -> string)

  /** What a tool gives back: its output, or an error with its message. */
  datatype ToolAnswer = Output(text: string) | Failed(message: string)

  /** What the n-th model call is answered when it is asked with a history, and what the j-th tool call of the n-th
      round gives for a tool and an input. */
  datatype World = World(reply: (nat, seq<Message>) -> Reply, tool: (nat, nat, string, string) -> ToolAnswer)

  /** `m` answers every call of `calls` once, in order, under the same id. */
  ghost predicate Answers(calls: seq<ToolCall>, m: Message) {
    && m.role == User && |m.content| == |calls|
    && forall j | 0 <= j < |calls| ::
         m.content[j].ToolResult? && m.content[j].id == calls[j].id && m.content[j].toolName == ""
  }

  /** The j-th part of `m` carries what the tool gave for the j-th call of round `n`: output or error. */
  ghost predicate FromTool(w: World, lib: Library, n: nat, calls: seq<ToolCall>, m: Message, j: nat)
    requires j < |calls| && Answers(calls, m)
  {
    match w.tool(n, j, calls[j].name, lib.field(calls[j].input))
    case Output(text) => m.content[j].content == text && !m.content[j].isError
    case Failed(message) => m.content[j].content == message && m.content[j].isError
  }

  ghost predicate FromTools(w: World, lib: Library, n: nat, calls: seq<ToolCall>, m: Message)
    requires Answers(calls, m)
  {
    forall j | 0 <= j < |calls| :: FromTool(w, lib, n, calls, m, j)
  }

  /** The steps recorded for one answered turn. */
  ghost function StepsOf(lib: Library, calls: seq<ToolCall>, m: Message): seq<Step>
    requires Answers(calls, m)
  {
    seq(|calls|, j requires 0 <= j < |calls| =>
      Step(calls[j].name, lib.field(calls[j].input), m.content[j].content, m.content[j].isError))
  }

  /** One round: an assistant turn with calls, and a user turn answering them. */
  ghost predicate Round(reply: Message, answer: Message) {
    && reply.role == Assistant
    && (forall part | part in reply.content :: part.Text? || part.ToolUse?)
    && CallsOf(reply.content) != []
    && Answers(CallsOf(reply.content), answer)
  }

  /** The history at the start of round `i`: the prompt, then `i` answered rounds. */
  ghost predicate Protocol(messages: seq<Message>, i: nat) {
    && |messages| == 2 * i + 1
    && messages[0].role == User && |messages[0].content| == 1 && messages[0].content[0].Text?
    && forall k | 0 <= k < i :: RoundAt(messages, k)
  }

  ghost predicate RoundAt(messages: seq<Message>, k: nat) {
    2 * k + 2 < |messages| && Round(messages[2 * k + 1], messages[2 * k + 2])
  }

  /** Round `k` is what the world made of it: the model's reply to the history so far, and the tools' answers. */
  ghost predicate PlayedAt(w: World, lib: Library, messages: seq<Message>, k: nat) {
    && 2 * k + 2 < |messages|
    && var r := Assembled(w.reply(k, messages[..2 * k + 1]));
       && r.Some? && messages[2 * k + 1] == r.value.assistant
       && Answers(r.value.calls, messages[2 * k + 2])
       && FromTools(w, lib, k, r.value.calls, messages[2 * k + 2])
  }

  /** The history after `i` rounds with this world, from this prompt. */
  ghost predicate Played(w: World, lib: Library, prompt: string, messages: seq<Message>, i: nat) {
    && |messages| == 2 * i + 1 && messages[0] == Message(User, [Text(prompt)])
    && forall k | 0 <= k < i :: PlayedAt(w, lib, messages, k)
  }

  lemma PlayedOneMore(w: World, lib: Library, prompt: string, messages: seq<Message>, i: nat, resp: ToolResponse,
                      answer: Message)
    requires Played(w, lib, prompt, messages, i) && Assembled(w.reply(i, messages)) == Some(resp)
    requires Answers(resp.calls, answer) && FromTools(w, lib, i, resp.calls, answer)
    ensures Played(w, lib, prompt, messages + [resp.assistant] + [answer], i + 1)
  {
    var more := messages + [resp.assistant] + [answer];
    hide Assembled, FromTools, Answers;
    forall k | 0 <= k < i + 1 ensures PlayedAt(w, lib, more, k) {
      if k < i {
        assert PlayedAt(w, lib, messages, k);
        assert more[..2 * k + 1] == messages[..2 * k + 1];
      } else {
        assert more[..2 * i + 1] == messages;
      }
    }
  }

  /** The steps of a round say for each call which tool was run, on what input, and what it gave. */
  lemma StepsAre(w: World, lib: Library, n: nat, calls: seq<ToolCall>, m: Message, j: nat)
    requires Answers(calls, m) && FromTools(w, lib, n, calls, m) && j < |calls|
    ensures |StepsOf(lib, calls, m)| == |calls|
    ensures StepsOf(lib, calls, m)[j] ==
      match w.tool(n, j, calls[j].name, lib.field(calls[j].input))
      case Output(text) => Step(calls[j].name, lib.field(calls[j].input), text, false)
      case Failed(message) => Step(calls[j].name, lib.field(calls[j].input), message, true)
  {
    assert FromTool(w, lib, n, calls, m, j);
  }

  lemma ProtocolFront(messages: seq<Message>, i: nat)
    requires Protocol(messages, i) && i > 0
    ensures Protocol(messages[..2 * i - 1], i - 1)
    ensures Round(messages[2 * i - 1], messages[2 * i])
  {
    assert RoundAt(messages, i - 1);
    var front := messages[..2 * i - 1];
    forall k | 0 <= k < i - 1 ensures RoundAt(front, k) {
      assert RoundAt(messages, k);
    }
  }

  /** All steps of the first `i` rounds, one round after the other. */
  ghost function AllSteps(lib: Library, messages: seq<Message>, i: nat): seq<Step>
    requires Protocol(messages, i)
  {
    if i == 0 then []
    else
      ProtocolFront(messages, i);
      AllSteps(lib, messages[..2 * i - 1], i - 1)
      + StepsOf(lib, CallsOf(messages[2 * i - 1].content), messages[2 * i])
  }

  /** The last non-empty text of an assistant turn. */
  ghost function LastText(messages: seq<Message>): string {
    if messages == [] then ""
    else
      var m := messages[|messages| - 1];
      if m.role != User && TextOf(m.content) != "" then TextOf(m.content) else LastText(messages[..|messages| - 1])
  }

  /** The n-th model call. */
  method CompleteWithTools(w: World, n: nat, messages: seq<Message>) returns (r: Option<ToolResponse>)
    ensures r == Assembled(w.reply(n, messages))
  {
    match w.reply(n, messages)
    case NoReply => r := None;
    case FromAnthropic(blocks, truncated) => r := AssembleAnthropic(blocks, truncated);
    case FromOllama(content, toolCalls) =>
      var reply := AssembleOllama(content, toolCalls);
      r := Some(reply);
  }

  /** Execute the calls of one turn: every call is answered with what its tool gives. */
  method ExecuteCalls(w: World, lib: Library, n: nat, calls: seq<ToolCall>)
    returns (steps: seq<Step>, resultParts: seq<Part>)
    ensures Answers(calls, Message(User, resultParts))
    ensures FromTools(w, lib, n, calls, Message(User, resultParts))
    ensures steps == StepsOf(lib, calls, Message(User, resultParts))
  {
    steps, resultParts := [], [];
    for j := 0 to |calls|
      invariant Answers(calls[..j], Message(User, resultParts))
      invariant forall e | 0 <= e < j :: FromTool(w, lib, n, calls[..j], Message(User, resultParts), e)
      invariant steps == StepsOf(lib, calls[..j], Message(User, resultParts))
    {
      var call := calls[j];
      var input := lib.field(call.input);
      var answer := w.tool(n, j, call.name, input);
      var isErr := answer.Failed?;
      var output := if isErr then answer.message else answer.text;
      ghost var before := Message(User, resultParts);
      assert forall e | 0 <= e < j :: FromTool(w, lib, n, calls[..j], before, e);
      steps := steps + [Step(call.name, input, output, isErr)];
      resultParts := resultParts + [ToolResultPart(call.id, output, isErr)];
      ghost var upTo, after := calls[..j + 1], Message(User, resultParts);
      forall e | 0 <= e < |upTo| ensures FromTool(w, lib, n, upTo, after, e) {
        assert e < j ==> FromTool(w, lib, n, calls[..j], before, e);
        assert e < j ==> upTo[e] == calls[..j][e] && after.content[e] == before.content[e];
      }
    }
    assert calls[..|calls|] == calls;
  }

  function StoppedNote(limit: nat): string {
    "\n(stopped after " + Format(limit) + " tool-call rounds without a final summary)"
  }

  /** The note tells the number of rounds. */
  lemma StoppedNoteIs(limit: nat)
    ensures var note := StoppedNote(limit);
      && |note| > 58 && note[..16] == "\n(stopped after "
      && note[|note| - 42..] == " tool-call rounds without a final summary)"
      && AllDigits(note[16..|note| - 42]) && Value(note[16..|note| - 42]) == limit
  {
    ValueOfFormat(limit);
    var a, n, b := "\n(stopped after ", Format(limit), " tool-call rounds without a final summary)";
    assert StoppedNote(limit) == a + n + b && |a| == 16 && |b| == 42;
    hide StoppedNote, Format, Value;
    ThreeParts(a, n, b);
  }

  lemma ThreeParts(a: string, n: string, b: string)
    ensures var s := a + n + b; s[..|a|] == a && s[|a|..|s| - |b|] == n && s[|s| - |b|..] == b
  {
  }

  /** The loop. At most `limit` model calls; the history keeps the protocol at the start of every round, and every
      turn in it is what the model or the tools said. The loop fails exactly when the model does. */
  method RunWithTools(w: World, lib: Library, prompt: string, limit: nat)
    returns (result: AgentResult, messages: seq<Message>, modelCalls: nat, ending: Ending)
    ensures modelCalls <= limit
    ensures ending == ModelFailed <==>
      modelCalls > 0 && |messages| == 2 * modelCalls - 1 && Assembled(w.reply(modelCalls - 1, messages)).None?
    ensures ending == ModelFailed ==>
      && !result.success && Protocol(messages, modelCalls - 1) && Played(w, lib, prompt, messages, modelCalls - 1)
      && result.steps == AllSteps(lib, messages, modelCalls - 1)
    ensures ending == Concluded ==>
      && result.success && modelCalls > 0 && |messages| == 2 * modelCalls
      && var front := messages[..|messages| - 1];
         && Protocol(front, modelCalls - 1) && Played(w, lib, prompt, front, modelCalls - 1)
         && Concludes(Assembled(w.reply(modelCalls - 1, front)), messages[|messages| - 1])
         && result.steps == AllSteps(lib, front, modelCalls - 1)
         && result.output == lib.trim(LastText(messages))
    ensures ending == Exhausted ==>
      && result.success && modelCalls == limit && Protocol(messages, limit) && Played(w, lib, prompt, messages, limit)
      && result.steps == AllSteps(lib, messages, limit)
      && result.output == lib.trim(LastText(messages) + StoppedNote(limit))
  {
    messages := [Message(User, [Text(prompt)])];
    var steps: seq<Step> := [];
    var lastText := "";
    modelCalls := 0;
    assert LastText(messages) == "" by { assert messages[..0] == []; }
    assert Protocol(messages, 0) && AllSteps(lib, messages, 0) == [] && Played(w, lib, prompt, messages, 0);
    hide Protocol, AllSteps, LastText, StoppedNote, CallsOf, Played, Assembled, Concludes;
    for i := 0 to limit
      invariant modelCalls == i && |messages| == 2 * i + 1
      invariant Protocol(messages, i) && Played(w, lib, prompt, messages, i)
      invariant steps == AllSteps(lib, messages, i)
      invariant lastText == LastText(messages)
    {
      ghost var start := messages;
      var newSteps;
      modelCalls := modelCalls + 1;
      var pass;
      pass, messages, lastText, newSteps := PlayRound(w, lib, prompt, messages, lastText, i);
      if pass == Failure {
        return AgentResult(false, "", steps), messages, modelCalls, ModelFailed;
      }
      if pass == Final {
        assert messages[..|messages| - 1] == start;
        return AgentResult(true, lib.trim(lastText), steps), messages, modelCalls, Concluded;
      }
      steps := steps + newSteps;
    }
    result := AgentResult(true, lib.trim(lastText + StoppedNote(limit)), steps);
    ending := Exhausted;
  }

  /** A reply that asks for no call, as the last message. */
  ghost predicate Concludes(r: Option<ToolResponse>, last: Message) {
    r.Some? && r.value.calls == [] && last == r.value.assistant && CallsOf(last.content) == [] && last.role != User
  }

  /** One pass of the loop: a model call, and the answers to the calls it asks for. */
  method PlayRound(w: World, lib: Library, prompt: string, messages: seq<Message>, lastText: string, i: nat)
    returns (pass: Pass, messages': seq<Message>, lastText': string, newSteps: seq<Step>)
    requires Protocol(messages, i) && Played(w, lib, prompt, messages, i) && lastText == LastText(messages)
    ensures pass == Failure <==> Assembled(w.reply(i, messages)).None?
    ensures pass == Failure ==> messages' == messages
    ensures pass == Final ==>
      && |messages'| == 2 * i + 2 && messages'[..|messages'| - 1] == messages
      && Concludes(Assembled(w.reply(i, messages)), messages'[|messages'| - 1])
    ensures pass == Answered ==>
      && |messages'| == 2 * i + 3
      && Protocol(messages', i + 1) && AllSteps(lib, messages', i + 1) == AllSteps(lib, messages, i) + newSteps
      && Played(w, lib, prompt, messages', i + 1)
    ensures lastText' == LastText(messages')
  {
    messages', lastText', newSteps := messages, lastText, [];
    var reply := CompleteWithTools(w, i, messages);
    if reply.None? {
      return Failure, messages', lastText', newSteps;
    }
    AssembledIsFaithful(w.reply(i, messages));
    var resp := reply.value;
    if resp.text != "" {
      lastText' := resp.text;
    }
    messages' := messages + [resp.assistant];
    LastTextStep(messages, resp.assistant);
    hide AllSteps, LastText, CallsOf, TextOf, RoundAt, PlayedAt, Assembled, FromTools;
    if |resp.calls| == 0 {
      return Final, messages', lastText', newSteps;
    }
    var resultParts;
    newSteps, resultParts := ExecuteCalls(w, lib, i, resp.calls);
    var answer := Message(User, resultParts);
    LastTextStep(messages', answer);
    messages' := messages' + [answer];
    RoundAdded(lib, messages, resp, answer, i);
    PlayedOneMore(w, lib, prompt, messages, i, resp, answer);
    pass := Answered;
  }

  lemma LastTextStep(messages: seq<Message>, m: Message)
    ensures LastText(messages + [m]) ==
      if m.role != User && TextOf(m.content) != "" then TextOf(m.content) else LastText(messages)
  {
    assert (messages + [m])[..|messages + [m]| - 1] == messages;
  }

  /** The text a run ends with is that of the last model turn that has any. */
  lemma {:induction false} LastTextIs(messages: seq<Message>) returns (at: nat)
    ensures LastText(messages) == "" ==>
      forall k | 0 <= k < |messages| :: messages[k].role == User || TextOf(messages[k].content) == ""
    ensures LastText(messages) != "" ==>
      && at < |messages| && messages[at].role != User && TextOf(messages[at].content) == LastText(messages)
      && forall k | at < k < |messages| :: messages[k].role == User || TextOf(messages[k].content) == ""
    decreases |messages|
  {
    hide TextOf;
    at := 0;
    if messages != [] {
      var n := |messages| - 1;
      if messages[n].role != User && TextOf(messages[n].content) != "" {
        at := n;
      } else {
        at := LastTextIs(messages[..n]);
      }
    }
  }

  lemma RoundAdded(lib: Library, start: seq<Message>, resp: ToolResponse, answer: Message, i: nat)
    requires Protocol(start, i) && Faithful(resp) && resp.calls != [] && Answers(resp.calls, answer)
    ensures var after := start + [resp.assistant] + [answer];
      && Protocol(after, i + 1)
      && AllSteps(lib, after, i + 1) == AllSteps(lib, start, i) + StepsOf(lib, resp.calls, answer)
  {
    var after := start + [resp.assistant] + [answer];
    assert after[2 * i + 1] == resp.assistant && after[2 * i + 2] == answer;
    forall k | 0 <= k < i + 1 ensures RoundAt(after, k) {
      if k < i {
        assert RoundAt(start, k);
        assert after[2 * k + 1] == start[2 * k + 1] && after[2 * k + 2] == start[2 * k + 2];
      }
    }
    assert after[..2 * (i + 1) - 1] == start;
  }
}
