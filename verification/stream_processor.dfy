/**
 * The stream processor that turns the agent's output chunks into
 * server-sent-event records (backend/app/services/stream_processor.py).
 *
 * The LangChain objects the agent streams are a datatype; each handler of
 * the processor is a method of `StreamProcessor` that returns the events it
 * yields, proved equal to a specification function over the processor's
 * state (the per-call argument map and the log text buffer).
 */
module StreamProcessing {
  import opened Common
  import opened EventStream

  /** The `content` of an AIMessageChunk: None, a string, or another value with its `str()` rendering. */
  datatype Content = NoContent | Text(text: string) | Structured(rendered: string)

  /** An entry of `tool_calls`: id, name (None when absent) and args. */
  datatype ToolCallIn = ToolCallIn(id: Option<string>, name: Option<string>, args: map<string, Json>)

  /**
   * An entry of `tool_call_chunks`: a dict (or an object whose `dict()` gave
   * one), or an object without `dict()`, known only by its `str()` rendering.
   */
  datatype ToolCallChunkIn = ChunkDict(fields: map<string, Json>) | ChunkOpaque(rendered: string)

  /** One item of the agent's output that the message handler looks at. */
  datatype Message =
    | ToolMessage(toolCallId: string, body: Json)
    | AIMessageChunk(content: Content, toolCalls: seq<ToolCallIn>, toolCallChunks: seq<ToolCallChunkIn>)
    | OtherObject(typeName: string)

  /**
   * The second half of a `(kind, data)` chunk:
   * a dict whose "messages" entry (absent: []) is `messages`;
   * any other iterable other than a string (list, tuple, a LangChain message,
   * which iterates over its fields) given by its type name and its elements;
   * or a string or non-iterable object, given by its type name.
   */
  datatype Payload =
    | StateDict(messages: seq<Message>)
    | Items(container: string, elements: seq<Message>)
    | Scalar(typeName: string)

  /** A chunk of `agent.astream`: a 2-tuple, a non-empty list, or anything else. */
  datatype Chunk =
    | Pair(kind: string, payload: Payload)
    | MessageList(messages: seq<Message>)
    | Bare(message: Message)

  /** The events the processor serialises, one per record. */
  datatype Event =
    | Delta(content: string)
    | ToolCall(id: string, name: string, arguments: map<string, Json>)
    | ToolCallChunk(index: Json, chunkId: Json, args: Json)
    | ToolResult(toolCallId: string, output: Json)
    | Messages(messages: seq<Message>)
    | Error(error: string, traceback: Option<string>)

  /** A history entry converted for the agent. */
  datatype ChatMessage = Human(content: Json) | Ai(content: Json)

  type ArgsMap = map<string, map<string, Json>>

  /** The part of the processor's state that the handlers change. */
  datatype State = State(toolCallArgs: ArgsMap, textBuffer: string)

  /** A handler's outcome: the new state and the events yielded, in order. */
  datatype Step = Step(state: State, events: seq<Event>)

  /** What `_handle_chunk` does with a chunk. */
  datatype Route = Deliver(messages: seq<Message>) | Snapshot(messages: seq<Message>) | Fail(reason: string)

  const SentenceEnds: string := "。！？.!?"
  const ChunkErrorPrefix: string := "处理chunk时出错: "
  const DefaultRecursionLimit: string := "200"

  // ---------------------------------------------------------------------
  // History conversion
  // ---------------------------------------------------------------------

  /** The content of a history entry; a missing one is read as "". */
  function ContentOf(msg: map<string, Json>): Json {
    if "content" in msg then msg["content"] else JStr("")
  }

  /** Whether a LangChain message constructor accepts `content`: a string, or a list of strings and dicts. */
  predicate AcceptedContent(content: Json) {
    match content
    case JStr(_) => true
    case JList(items) => forall i :: 0 <= i < |items| ==> items[i].JStr? || items[i].JObject?
    case _ => false
  }

  /**
   * One history entry as the agent receives it: user and assistant entries
   * only, or None when the message constructor rejects the content.
   */
  function ConvertOne(msg: map<string, Json>): Option<seq<ChatMessage>> {
    var role := Get(msg, "role");
    if role != JStr("user") && role != JStr("assistant") then Some([])
    else if !AcceptedContent(ContentOf(msg)) then None
    else if role == JStr("user") then Some([Human(ContentOf(msg))])
    else Some([Ai(ContentOf(msg))])
  }

  /** The converted history, or None when some entry is rejected. */
  function Converted(history: seq<map<string, Json>>): Option<seq<ChatMessage>> {
    if history == [] then Some([])
    else
      match ConvertOne(history[0])
      case None => None
      case Some(first) =>
        match Converted(history[1..])
        case None => None
        case Some(rest) => Some(first + rest)
  }

  /** Converting a concatenation converts each part: the order of the history is kept, and a rejection anywhere fails it. */
  lemma {:induction false} ConvertedAppend(a: seq<map<string, Json>>, b: seq<map<string, Json>>)
    ensures Converted(a + b).Some? <==> Converted(a).Some? && Converted(b).Some?
    ensures Converted(a + b).Some? ==> Converted(a + b).value == Converted(a).value + Converted(b).value
  {
    if a == [] {
      assert a + b == b;
    } else {
      assert (a + b)[0] == a[0];
      assert (a + b)[1..] == a[1..] + b;
      ConvertedAppend(a[1..], b);
      if ConvertOne(a[0]).Some? && Converted(a[1..]).Some? && Converted(b).Some? {
        AppendAssoc(ConvertOne(a[0]).value, Converted(a[1..]).value, Converted(b).value);
      }
    }
  }

  /** The conversion fails exactly when some entry is rejected. */
  lemma {:induction false} ConvertedFails(history: seq<map<string, Json>>)
    ensures Converted(history).None? <==> exists i :: 0 <= i < |history| && ConvertOne(history[i]).None?
  {
    if history != [] {
      ConvertedFails(history[1..]);
      if ConvertOne(history[0]).Some? && Converted(history[1..]).None? {
        var i :| 0 <= i < |history[1..]| && ConvertOne(history[1..][i]).None?;
        assert ConvertOne(history[i + 1]).None?;
      }
      if exists i :: 0 <= i < |history| && ConvertOne(history[i]).None? {
        var i :| 0 <= i < |history| && ConvertOne(history[i]).None?;
        if i > 0 {
          assert ConvertOne(history[1..][i - 1]).None?;
        }
      }
    }
  }

  /**
   * Only user and assistant entries survive, with missing content read as "";
   * one of them is rejected exactly when its content is neither a string nor
   * a list of strings and dicts.
   */
  lemma ConvertOneRoles(msg: map<string, Json>)
    ensures var kept := Get(msg, "role") in {JStr("user"), JStr("assistant")};
      && (ConvertOne(msg).None? <==> kept && !AcceptedContent(ContentOf(msg)))
      && (ConvertOne(msg).Some? ==>
        && |ConvertOne(msg).value| <= 1
        && (ConvertOne(msg).value != [] <==> kept)
        && (ConvertOne(msg).value != [] ==> ConvertOne(msg).value[0].content == ContentOf(msg))
        && (ConvertOne(msg).value != [] ==> (ConvertOne(msg).value[0].Human? <==> Get(msg, "role") == JStr("user"))))
    ensures "content" !in msg ==> ContentOf(msg) == JStr("") && AcceptedContent(ContentOf(msg))
  {
  }

  lemma DefaultLimitDigits(t: string)
    requires t == DefaultRecursionLimit
    ensures AllDigits(t) && DigitsValue(t) == 200
  {
    assert t[0] == '2' && t[1] == '0' && t[2] == '0';
    var two := t[..1];
    var twenty := t[..2];
    assert two[..0] == [] && two[0] == '2';
    assert DigitsValue(two) == 2;
    assert twenty[..1] == two && twenty[1] == '0';
    assert DigitsValue(twenty) == 20;
    assert t[..2] == twenty;
  }

  lemma DefaultLimitParses(t: string)
    requires t == DefaultRecursionLimit
    ensures ParseInt(t) == Some(200)
  {
    DefaultLimitDigits(t);
    ParseIntOfDigits(t);
  }

  /** `RECURSION_LIMIT` read with `int()`, 200 when unset; None where `int()` raises ValueError. */
  function RecursionLimitSetting(env: Option<string>): Option<int> {
    match env
    case None => Some(200)
    case Some(text) => ParseInt(text)
  }

  /** The setting is `int(os.getenv("RECURSION_LIMIT", "200"))`: the default text is read like any other. */
  lemma RecursionLimitIsInt(env: Option<string>)
    ensures RecursionLimitSetting(env) == ParseInt(if env.Some? then env.value else DefaultRecursionLimit)
  {
    if env.None? {
      DefaultLimitParses(DefaultRecursionLimit);
    }
  }

  // ---------------------------------------------------------------------
  // Text deltas and the log buffer
  // ---------------------------------------------------------------------

  /** The text a chunk's content contributes, when there is any. */
  function DeltaText(c: Content): (r: Option<string>)
    ensures r.Some? ==> r.value != ""
    ensures c.Text? && c.text != "" ==> r == Some(c.text)
    ensures c.NoContent? || c == Text("") ==> r.None?
  {
    match c
    case NoContent => None
    case Text(s) => if s == "" then None else Some(s)
    case Structured(rendered) => if rendered == "" then None else Some(rendered)
  }

  /** The buffer holds a line end, or more than 50 characters with a sentence end. */
  predicate FlushDue(buf: string) {
    '\n' in buf || (|buf| > 50 && exists i :: 0 <= i < |buf| && buf[i] in SentenceEnds)
  }

  /** The buffer after `text` is appended: printed and emptied when a flush is due. */
  function NextBuffer(buf: string, text: string): (r: string)
    ensures !FlushDue(r)
    ensures r == "" || r == buf + text
    ensures !FlushDue(buf + text) ==> r == buf + text
  {
    if FlushDue(buf + text) then "" else buf + text
  }

  // ---------------------------------------------------------------------
  // Tool calls and their accumulated arguments
  // ---------------------------------------------------------------------

  /** A call is handled only when its name and id are both present and non-empty. */
  predicate ValidCall(c: ToolCallIn) {
    c.id.Some? && c.id.value != "" && c.name.Some? && c.name.value != ""
  }

  /** The arguments accumulated so far for `id`, or {} on first sighting. */
  function Prior(args: ArgsMap, id: string): map<string, Json> {
    if id in args then args[id] else map[]
  }

  function ApplyCall(args: ArgsMap, c: ToolCallIn): ArgsMap {
    if ValidCall(c) then args[c.id.value := Prior(args, c.id.value) + c.args] else args
  }

  /** `ApplyCall` in the steps the handler takes: create the entry, then merge non-empty args. */
  lemma ApplyValidCall(args: ArgsMap, c: ToolCallIn)
    requires ValidCall(c)
    ensures var id := c.id.value;
      var created := if id in args then args else args[id := map[]];
      ApplyCall(args, c) == if c.args != map[] then created[id := created[id] + c.args] else created
  {
    var id := c.id.value;
    if c.args == map[] {
      assert Prior(args, id) + c.args == Prior(args, id);
    }
  }

  /** One step of `CallEvents` and `ArgsAfter` at position `i` of a list. */
  lemma CallsUnfold(args: ArgsMap, calls: seq<ToolCallIn>, i: nat)
    requires i < |calls|
    ensures var c := calls[i]; var next := ApplyCall(args, c);
      && CallEvents(args, calls[i..]) ==
           (if ValidCall(c) then [ToolCall(c.id.value, c.name.value, next[c.id.value])] else [])
           + CallEvents(next, calls[i + 1..])
      && ArgsAfter(args, calls[i..]) == ArgsAfter(next, calls[i + 1..])
  {
    assert calls[i..][0] == calls[i] && calls[i..][1..] == calls[i + 1..];
  }

  /** The argument map after a list of tool calls. */
  function ArgsAfter(args: ArgsMap, calls: seq<ToolCallIn>): ArgsMap
    decreases |calls|
  {
    if calls == [] then args else ArgsAfter(ApplyCall(args, calls[0]), calls[1..])
  }

  /** One `tool_call` event per valid call, carrying the arguments accumulated up to and including it. */
  function CallEvents(args: ArgsMap, calls: seq<ToolCallIn>): seq<Event>
    decreases |calls|
  {
    if calls == [] then []
    else
      var c := calls[0];
      var next := ApplyCall(args, c);
      (if ValidCall(c) then [ToolCall(c.id.value, c.name.value, next[c.id.value])] else [])
      + CallEvents(next, calls[1..])
  }

  /** The valid calls of a list, in order. */
  function ValidCalls(calls: seq<ToolCallIn>): (r: seq<ToolCallIn>)
    ensures |r| <= |calls|
    ensures forall i :: 0 <= i < |r| ==> ValidCall(r[i])
  {
    if calls == [] then []
    else (if ValidCall(calls[0]) then [calls[0]] else []) + ValidCalls(calls[1..])
  }

  /** The arguments that the valid calls with `id` contribute, merged in order. */
  function Collected(calls: seq<ToolCallIn>, id: string): map<string, Json> {
    if calls == [] then map[]
    else
      var c := calls[0];
      (if ValidCall(c) && c.id.value == id then c.args else map[]) + Collected(calls[1..], id)
  }

  /** Some valid call of the list carries `id`. */
  predicate Seen(calls: seq<ToolCallIn>, id: string) {
    calls != [] && ((ValidCall(calls[0]) && calls[0].id.value == id) || Seen(calls[1..], id))
  }

  /** A call whose name or id is empty or missing yields nothing and changes nothing. */
  lemma InvalidCallIgnored(args: ArgsMap, c: ToolCallIn, rest: seq<ToolCallIn>)
    requires !ValidCall(c)
    ensures CallEvents(args, [c] + rest) == CallEvents(args, rest)
    ensures ArgsAfter(args, [c] + rest) == ArgsAfter(args, rest)
  {
    assert ([c] + rest)[1..] == rest;
  }

  /** A valid call's event carries the previous arguments for its id updated with its own. */
  lemma ValidCallEvent(args: ArgsMap, c: ToolCallIn, rest: seq<ToolCallIn>)
    requires ValidCall(c)
    ensures CallEvents(args, [c] + rest)[0] == ToolCall(c.id.value, c.name.value, Prior(args, c.id.value) + c.args)
    ensures c.args == map[] ==> CallEvents(args, [c] + rest)[0].arguments == Prior(args, c.id.value)
  {
    assert ([c] + rest)[0] == c;
    if c.args == map[] {
      assert Prior(args, c.id.value) + c.args == Prior(args, c.id.value);
    }
  }

  lemma MergeAssoc(a: map<string, Json>, b: map<string, Json>, c: map<string, Json>)
    ensures (a + b) + c == a + (b + c)
  {
  }

  /**
   * After a list of calls the map holds, for every id some valid call
   * carried, the earlier arguments updated with each such call's in order;
   * every other id keeps its entry or its absence.
   */
  /** Calls that never carry `id` contribute nothing for it. */
  lemma {:induction false} CollectedUnseen(calls: seq<ToolCallIn>, id: string)
    requires !Seen(calls, id)
    ensures Collected(calls, id) == map[]
  {
    if calls != [] {
      CollectedUnseen(calls[1..], id);
    }
  }

  /**
   * After a list of calls the map holds, for every id some valid call
   * carried, the earlier arguments updated with each such call's in order;
   * every other id keeps its entry or its absence.
   */
  lemma {:induction false} ArgsAccumulate(args: ArgsMap, calls: seq<ToolCallIn>, id: string)
    ensures Seen(calls, id) ==> id in ArgsAfter(args, calls) && ArgsAfter(args, calls)[id] == Prior(args, id) + Collected(calls, id)
    ensures !Seen(calls, id) ==> Prior(ArgsAfter(args, calls), id) == Prior(args, id)
    ensures !Seen(calls, id) ==> (id in ArgsAfter(args, calls) <==> id in args)
    decreases |calls|
  {
    if calls != [] {
      var c := calls[0];
      var rest := calls[1..];
      var next := ApplyCall(args, c);
      ArgsAccumulate(next, rest, id);
      if ValidCall(c) && c.id.value == id {
        assert Prior(next, id) == Prior(args, id) + c.args;
        if Seen(rest, id) {
          MergeAssoc(Prior(args, id), c.args, Collected(rest, id));
        } else {
          CollectedUnseen(rest, id);
          assert c.args + Collected(rest, id) == c.args;
        }
      } else {
        assert Prior(next, id) == Prior(args, id);
        assert map[] + Collected(rest, id) == Collected(rest, id);
      }
    }
  }

  /** The `tool_call` events follow the valid calls one for one, in list order. */
  lemma {:induction false} CallEventsFollowValidCalls(args: ArgsMap, calls: seq<ToolCallIn>)
    ensures |CallEvents(args, calls)| == |ValidCalls(calls)| <= |calls|
    ensures forall i :: 0 <= i < |CallEvents(args, calls)| ==>
      CallEvents(args, calls)[i].ToolCall?
      && CallEvents(args, calls)[i].id == ValidCalls(calls)[i].id.value
      && CallEvents(args, calls)[i].name == ValidCalls(calls)[i].name.value
    decreases |calls|
  {
    if calls != [] {
      CallEventsFollowValidCalls(ApplyCall(args, calls[0]), calls[1..]);
    }
  }

  // ---------------------------------------------------------------------
  // Tool-call argument chunks
  // ---------------------------------------------------------------------

  /** The dict a tool-call chunk is read as. */
  function ChunkFields(c: ToolCallChunkIn): map<string, Json> {
    match c
    case ChunkDict(fields) => fields
    case ChunkOpaque(rendered) => map["args" := JStr(rendered)]
  }

  /** The `tool_call_chunk` event of a chunk with non-empty args; index defaults to 0. */
  function ChunkEvent(c: ToolCallChunkIn): Option<Event> {
    var fields := ChunkFields(c);
    var argsChunk := Get(fields, "args");
    if Truthy(argsChunk) then
      Some(ToolCallChunk(if "index" in fields then fields["index"] else JNum(0), Get(fields, "id"), argsChunk))
    else None
  }

  function ChunkEvents(chunks: seq<ToolCallChunkIn>): seq<Event> {
    if chunks == [] then []
    else (if ChunkEvent(chunks[0]).Some? then [ChunkEvent(chunks[0]).value] else []) + ChunkEvents(chunks[1..])
  }

  /** How many chunks carry non-empty args. */
  function CountWithArgs(chunks: seq<ToolCallChunkIn>): nat {
    if chunks == [] then 0
    else (if Truthy(Get(ChunkFields(chunks[0]), "args")) then 1 else 0) + CountWithArgs(chunks[1..])
  }

  /** One `tool_call_chunk` event per chunk whose args are non-empty, and nothing else. */
  lemma {:induction false} ChunkEventsCount(chunks: seq<ToolCallChunkIn>)
    ensures |ChunkEvents(chunks)| == CountWithArgs(chunks)
    ensures forall i :: 0 <= i < |ChunkEvents(chunks)| ==>
      ChunkEvents(chunks)[i].ToolCallChunk? && Truthy(ChunkEvents(chunks)[i].args)
  {
    if chunks != [] {
      ChunkEventsCount(chunks[1..]);
    }
  }

  /** A dict chunk without "index" is reported with index 0; a present value is kept, even None. */
  lemma ChunkIndexDefault(fields: map<string, Json>)
    requires Truthy(Get(fields, "args"))
    ensures var e := ChunkEvent(ChunkDict(fields));
      && e.Some?
      && ("index" !in fields ==> e.value.index == JNum(0))
      && ("index" in fields ==> e.value.index == fields["index"])
      && e.value.args == fields["args"]
  {
  }

  // ---------------------------------------------------------------------
  // Messages, chunks and the stream
  // ---------------------------------------------------------------------

  /** `_handle_message_chunk`: the events of one message and the state after it. */
  function MessageStep(s: State, m: Message): Step {
    match m
    case ToolMessage(id, content) =>
      Step(State(s.toolCallArgs - {id}, s.textBuffer), [ToolResult(id, content)])
    case AIMessageChunk(content, calls, chunks) =>
      var delta := DeltaText(content);
      var buffer := if delta.Some? then NextBuffer(s.textBuffer, delta.value) else s.textBuffer;
      var deltas := if delta.Some? then [Delta(delta.value)] else [];
      Step(State(ArgsAfter(s.toolCallArgs, calls), buffer),
           deltas + CallEvents(s.toolCallArgs, calls) + ChunkEvents(chunks))
    case OtherObject(_) => Step(s, [])
  }

  function MessagesStep(s: State, ms: seq<Message>): Step
    decreases |ms|
  {
    if ms == [] then Step(s, [])
    else
      var first := MessageStep(s, ms[0]);
      var rest := MessagesStep(first.state, ms[1..]);
      Step(rest.state, first.events + rest.events)
  }

  function TypeName(m: Message): string {
    match m
    case ToolMessage(_, _) => "ToolMessage"
    case AIMessageChunk(_, _, _) => "AIMessageChunk"
    case OtherObject(t) => t
  }

  /** The branch of `_handle_chunk` a chunk takes. */
  function RouteOf(chunk: Chunk): Route {
    match chunk
    case Pair(kind, payload) =>
      if kind == "values" then
        (match payload
         case StateDict(ms) => Snapshot(ms)
         case Items(container, _) => Fail("'" + container + "' object has no attribute 'get'")
         case Scalar(t) => Fail("'" + t + "' object has no attribute 'get'"))
      else
        (match payload
         // iterating a dict visits its keys, which are strings, not messages
         case StateDict(_) => Deliver([])
         case Items(_, ms) => Deliver(ms)
         // a string or a non-iterable is handled as one message, and is none
         case Scalar(_) => Deliver([]))
    case MessageList(ms) => Deliver(ms)
    case Bare(m) => Deliver([m])
  }

  /** `_handle_chunk`: the events of one chunk and the state after it. */
  function ChunkStep(s: State, chunk: Chunk): Step {
    match RouteOf(chunk)
    case Deliver(ms) => MessagesStep(s, ms)
    case Snapshot(ms) => Step(s, if ms == [] then [] else [Messages(ms)])
    case Fail(reason) => Step(s, [Error(ChunkErrorPrefix + reason, None)])
  }

  function ChunksStep(s: State, chunks: seq<Chunk>): Step
    decreases |chunks|
  {
    if chunks == [] then Step(s, [])
    else
      var first := ChunkStep(s, chunks[0]);
      var rest := ChunksStep(first.state, chunks[1..]);
      Step(rest.state, first.events + rest.events)
  }

  /** The records of a list of events. */
  function Records(events: seq<Event>, dumps: Event -> string): seq<string> {
    if events == [] then [] else [Frame(dumps(events[0]))] + Records(events[1..], dumps)
  }

  /** The serialised events, in order. */
  function Payloads(events: seq<Event>, dumps: Event -> string): seq<string> {
    if events == [] then [] else [dumps(events[0])] + Payloads(events[1..], dumps)
  }

  lemma {:induction false} PayloadsShape(events: seq<Event>, dumps: Event -> string)
    ensures |Payloads(events, dumps)| == |events|
    ensures forall i :: 0 <= i < |events| ==> Payloads(events, dumps)[i] == dumps(events[i])
  {
    if events != [] {
      PayloadsShape(events[1..], dumps);
    }
  }

  /** The last record: `[DONE]` after a normal end, the error with its traceback otherwise. */
  function Tail(failure: Option<string>, traceback: string, dumps: Event -> string): string {
    match failure
    case None => DoneRecord
    case Some(err) => Frame(dumps(Error(err, Some(traceback))))
  }

  lemma {:induction false} RecordsAppend(a: seq<Event>, b: seq<Event>, dumps: Event -> string)
    ensures Records(a + b, dumps) == Records(a, dumps) + Records(b, dumps)
  {
    if a == [] {
      assert a + b == b;
    } else {
      assert (a + b)[0] == a[0];
      assert (a + b)[1..] == a[1..] + b;
      RecordsAppend(a[1..], b, dumps);
    }
  }

  lemma {:induction false} RecordsShape(events: seq<Event>, dumps: Event -> string)
    ensures |Records(events, dumps)| == |events|
    ensures forall i :: 0 <= i < |events| ==> Records(events, dumps)[i] == Frame(dumps(events[i]))
  {
    if events != [] {
      RecordsShape(events[1..], dumps);
    }
  }

  /** The rank of an event kind in the order one AIMessageChunk yields them. */
  function Rank(e: Event): nat {
    match e
    case Delta(_) => 0
    case ToolCall(_, _, _) => 1
    case ToolCallChunk(_, _, _) => 2
    case _ => 3
    }

  /**
   * Within one AIMessageChunk: at most one delta, carrying the content
   * unchanged; then one tool_call per valid call; then one tool_call_chunk
   * per chunk with non-empty args; in that order.
   */
  lemma AIMessageChunkEvents(s: State, content: Content, calls: seq<ToolCallIn>, chunks: seq<ToolCallChunkIn>)
    ensures var evs := MessageStep(s, AIMessageChunk(content, calls, chunks)).events;
      && |evs| == (if DeltaText(content).Some? then 1 else 0) + |ValidCalls(calls)| + CountWithArgs(chunks)
      && Ordered(evs)
      && (DeltaText(content).Some? <==> (|evs| > 0 && evs[0].Delta?))
      && (DeltaText(content).Some? ==> evs[0] == Delta(DeltaText(content).value))
      && (forall i :: 0 <= i < |evs| ==> Rank(evs[i]) <= 2)
  {
    var d := if DeltaText(content).Some? then [Delta(DeltaText(content).value)] else [];
    var ce := CallEvents(s.toolCallArgs, calls);
    var ke := ChunkEvents(chunks);
    CallEventsFollowValidCalls(s.toolCallArgs, calls);
    ChunkEventsCount(chunks);
    OrderedOfRanks(d, ce, ke);
  }

  /** Events sorted by the rank of their kind. */
  predicate Ordered(evs: seq<Event>) {
    forall i, j :: 0 <= i < j < |evs| ==> Rank(evs[i]) <= Rank(evs[j])
  }

  predicate AllOfRank(evs: seq<Event>, r: nat) {
    forall i :: 0 <= i < |evs| ==> Rank(evs[i]) == r
  }

  lemma OrderedOfRanks(d: seq<Event>, ce: seq<Event>, ke: seq<Event>)
    requires AllOfRank(d, 0) && AllOfRank(ce, 1) && AllOfRank(ke, 2)
    ensures Ordered(d + ce + ke)
    ensures forall i :: 0 <= i < |d + ce + ke| ==> Rank((d + ce + ke)[i]) <= 2
  {
    var evs := d + ce + ke;
    forall i | 0 <= i < |evs|
      ensures Rank(evs[i]) == (if i < |d| then 0 else if i < |d| + |ce| then 1 else 2)
    {
      if i < |d| {
        assert evs[i] == d[i];
      } else if i < |d| + |ce| {
        assert evs[i] == ce[i - |d|];
      } else {
        assert evs[i] == ke[i - |d| - |ce|];
      }
    }
  }

  /** A ToolMessage yields exactly its result, forgets its id's arguments and touches nothing else. */
  lemma ToolMessageEvents(s: State, id: string, content: Json)
    ensures var step := MessageStep(s, ToolMessage(id, content));
      && step.events == [ToolResult(id, content)]
      && id !in step.state.toolCallArgs
      && (forall k :: k != id ==> (k in step.state.toolCallArgs <==> k in s.toolCallArgs))
      && (forall k :: k != id && k in s.toolCallArgs ==> step.state.toolCallArgs[k] == s.toolCallArgs[k])
      && step.state.textBuffer == s.textBuffer
  {
  }

  /** A "values" chunk whose data is not a dict yields one error event and changes nothing. */
  lemma ValuesChunkNotDict(s: State, items: seq<Message>, container: string)
    ensures var step := ChunkStep(s, Pair("values", Items(container, items)));
      && step.state == s
      && |step.events| == 1 && step.events[0].Error? && step.events[0].traceback.None?
      && StartsWith(step.events[0].error, ChunkErrorPrefix)
  {
    var error := ChunkErrorPrefix + ("'" + container + "' object has no attribute 'get'");
    assert error[..|ChunkErrorPrefix|] == ChunkErrorPrefix;
  }

  /** Every handler keeps the log buffer free of a pending flush. */
  lemma {:induction false} StepKeepsBuffer(s: State, chunks: seq<Chunk>)
    requires !FlushDue(s.textBuffer)
    ensures !FlushDue(ChunksStep(s, chunks).state.textBuffer)
    decreases |chunks|
  {
    if chunks != [] {
      var first := ChunkStep(s, chunks[0]);
      if RouteOf(chunks[0]).Deliver? {
        MessagesKeepBuffer(s, RouteOf(chunks[0]).messages);
      }
      StepKeepsBuffer(first.state, chunks[1..]);
    }
  }

  lemma {:induction false} MessagesKeepBuffer(s: State, ms: seq<Message>)
    requires !FlushDue(s.textBuffer)
    ensures !FlushDue(MessagesStep(s, ms).state.textBuffer)
    decreases |ms|
  {
    if ms != [] {
      MessagesKeepBuffer(MessageStep(s, ms[0]).state, ms[1..]);
    }
  }

  lemma FrameInjective(p: string, q: string)
    requires Frame(p) == Frame(q)
    ensures p == q
  {
    assert |p| == |q|;
    assert p == Frame(p)[6..6 + |p|];
    assert q == Frame(q)[6..6 + |q|];
  }

  /**
   * A stream that ends normally has `[DONE]` as its last record and nowhere
   * else; a stream whose agent raised ends in one error record and has no
   * `[DONE]`. Serialised events are JSON objects, never the text `[DONE]`.
   */
  lemma DoneOnlyAtEnd(events: seq<Event>, failure: Option<string>, traceback: string, dumps: Event -> string)
    requires forall e :: dumps(e) != "[DONE]"
    ensures var records := Records(events, dumps) + [Tail(failure, traceback, dumps)];
      && (records[|records| - 1] == DoneRecord <==> failure.None?)
      && (forall i :: 0 <= i < |records| - 1 ==> records[i] != DoneRecord)
  {
    RecordsShape(events, dumps);
    assert DoneRecord == Frame("[DONE]");
    forall i | 0 <= i < |events|
      ensures Records(events, dumps)[i] != DoneRecord
    {
      if Records(events, dumps)[i] == DoneRecord {
        FrameInjective(dumps(events[i]), "[DONE]");
      }
    }
    if failure.Some? && Tail(failure, traceback, dumps) == DoneRecord {
      FrameInjective(dumps(Error(failure.value, Some(traceback))), "[DONE]");
    }
  }

  /**
   * What a client reads back from the records with the event-stream
   * interpretation: one data item per event, in order, then `[DONE]` or the
   * error. Serialised events never contain a line feed or a carriage return.
   */
  lemma WireRoundTrip(events: seq<Event>, failure: Option<string>, traceback: string, dumps: Event -> string)
    requires forall e :: OneLine(dumps(e))
    ensures Parse(Concat(Records(events, dumps) + [Tail(failure, traceback, dumps)])) ==
      Payloads(events, dumps) + [if failure.None? then "[DONE]" else dumps(Error(failure.value, Some(traceback)))]
  {
    var last := if failure.None? then "[DONE]" else dumps(Error(failure.value, Some(traceback)));
    var records := Records(events, dumps) + [Tail(failure, traceback, dumps)];
    var payloads := Payloads(events, dumps) + [last];
    TailFrame(failure, traceback, dumps);
    FramedPayloads(events, dumps, last);
    ParseRecords(payloads, records);
  }

  /** The last record frames `[DONE]` or the serialised error, neither holding a line end. */
  lemma TailFrame(failure: Option<string>, traceback: string, dumps: Event -> string)
    requires forall e :: OneLine(dumps(e))
    ensures var last := if failure.None? then "[DONE]" else dumps(Error(failure.value, Some(traceback)));
      Tail(failure, traceback, dumps) == Frame(last) && OneLine(last)
  {
    if failure.None? {
      DoneFrame();
    }
  }

  lemma FramedPayloads(events: seq<Event>, dumps: Event -> string, last: string)
    requires forall e :: OneLine(dumps(e))
    requires OneLine(last)
    ensures var records := Records(events, dumps) + [Frame(last)];
      var payloads := Payloads(events, dumps) + [last];
      && |records| == |payloads|
      && (forall i :: 0 <= i < |records| ==> records[i] == Frame(payloads[i]))
      && (forall i :: 0 <= i < |payloads| ==> OneLine(payloads[i]))
  {
    var records := Records(events, dumps) + [Frame(last)];
    var payloads := Payloads(events, dumps) + [last];
    PayloadsShape(events, dumps);
    RecordsShape(events, dumps);
    forall i | 0 <= i < |records|
      ensures records[i] == Frame(payloads[i]) && OneLine(payloads[i])
    {
      if i < |events| {
        assert records[i] == Records(events, dumps)[i];
        assert payloads[i] == Payloads(events, dumps)[i];
      }
    }
  }

  // ---------------------------------------------------------------------
  // The processor
  // ---------------------------------------------------------------------

  class StreamProcessor {
    var sessionId: Option<string>
    var currentContent: string
    var currentToolCalls: seq<Json>
    var textBuffer: string
    var toolCallArgs: ArgsMap
    var recursionLimit: int

    /** The log buffer never holds a flush that is due. */
    ghost predicate Valid()
      reads this
    {
      !FlushDue(textBuffer)
    }

    function Current(): State
      reads this
    {
      State(toolCallArgs, textBuffer)
    }

    /**
     * `__init__`, given the value of `RECURSION_LIMIT` in the environment;
     * a value `int()` rejects makes construction raise, so it is excluded.
     */
    constructor (sessionId: Option<string>, env: Option<string>)
      requires RecursionLimitSetting(env).Some?
      ensures Valid()
      ensures this.sessionId == sessionId && recursionLimit == RecursionLimitSetting(env).value
      ensures currentContent == "" && currentToolCalls == [] && textBuffer == "" && toolCallArgs == map[]
    {
      var setting := RecursionLimitSetting(env);
      this.sessionId := sessionId;
      currentContent := "";
      currentToolCalls := [];
      textBuffer := "";
      toolCallArgs := map[];
      recursionLimit := setting.value;
    }

    /** `_handle_message_chunk`. */
    method HandleMessage(m: Message) returns (events: seq<Event>)
      requires Valid()
      modifies this
      ensures Valid()
      ensures Current() == MessageStep(old(Current()), m).state
      ensures events == MessageStep(old(Current()), m).events
      ensures sessionId == old(sessionId) && recursionLimit == old(recursionLimit)
      ensures currentContent == old(currentContent) && currentToolCalls == old(currentToolCalls)
    {
      match m
      case ToolMessage(id, body) =>
        if id in toolCallArgs {
          toolCallArgs := toolCallArgs - {id};
        }
        events := [ToolResult(id, body)];
      case AIMessageChunk(content, calls, chunks) =>
        events := [];
        var delta := DeltaText(content);
        if delta.Some? {
          textBuffer := textBuffer + delta.value;
          if FlushDue(textBuffer) {
            textBuffer := "";
          }
          events := [Delta(delta.value)];
        }
        var callEvents := HandleToolCalls(calls);
        var chunkEvents := ToolCallChunkEvents(chunks);
        events := events + callEvents + chunkEvents;
      case OtherObject(_) =>
        events := [];
    }

    /** The `tool_calls` loop of `_handle_message_chunk`: accumulates arguments per call id. */
    method HandleToolCalls(calls: seq<ToolCallIn>) returns (events: seq<Event>)
      modifies this
      ensures toolCallArgs == ArgsAfter(old(toolCallArgs), calls)
      ensures events == CallEvents(old(toolCallArgs), calls)
      ensures textBuffer == old(textBuffer) && sessionId == old(sessionId) && recursionLimit == old(recursionLimit)
      ensures currentContent == old(currentContent) && currentToolCalls == old(currentToolCalls)
    {
      events := [];
      var i := 0;
      while i < |calls|
        invariant 0 <= i <= |calls|
        invariant events + CallEvents(toolCallArgs, calls[i..]) == CallEvents(old(toolCallArgs), calls)
        invariant ArgsAfter(toolCallArgs, calls[i..]) == ArgsAfter(old(toolCallArgs), calls)
        invariant textBuffer == old(textBuffer) && sessionId == old(sessionId) && recursionLimit == old(recursionLimit)
        invariant currentContent == old(currentContent) && currentToolCalls == old(currentToolCalls)
      {
        var c := calls[i];
        CallsUnfold(toolCallArgs, calls, i);
        ghost var before := toolCallArgs;
        if ValidCall(c) {
          var id := c.id.value;
          if id !in toolCallArgs {
            toolCallArgs := toolCallArgs[id := map[]];
          }
          if c.args != map[] {
            toolCallArgs := toolCallArgs[id := toolCallArgs[id] + c.args];
          }
          ApplyValidCall(before, c);
          AppendAssoc(events, [ToolCall(id, c.name.value, toolCallArgs[id])], CallEvents(toolCallArgs, calls[i + 1..]));
          events := events + [ToolCall(id, c.name.value, toolCallArgs[id])];
        } else {
          assert [] + CallEvents(toolCallArgs, calls[i + 1..]) == CallEvents(toolCallArgs, calls[i + 1..]);
        }
        i := i + 1;
      }
    }

    /** The `tool_call_chunks` loop of `_handle_message_chunk`; it changes no state. */
    static method ToolCallChunkEvents(chunks: seq<ToolCallChunkIn>) returns (events: seq<Event>)
      ensures events == ChunkEvents(chunks)
    {
      events := [];
      var j := 0;
      while j < |chunks|
        invariant 0 <= j <= |chunks|
        invariant events + ChunkEvents(chunks[j..]) == ChunkEvents(chunks)
      {
        assert chunks[j..][0] == chunks[j] && chunks[j..][1..] == chunks[j + 1..];
        var e := ChunkEvent(chunks[j]);
        if e.Some? {
          AppendAssoc(events, [e.value], ChunkEvents(chunks[j + 1..]));
          events := events + [e.value];
        }
        j := j + 1;
      }
    }

    /** The message loop of `_handle_chunk`. */
    method HandleMessages(ms: seq<Message>) returns (events: seq<Event>)
      requires Valid()
      modifies this
      ensures Valid()
      ensures Current() == MessagesStep(old(Current()), ms).state
      ensures events == MessagesStep(old(Current()), ms).events
      ensures sessionId == old(sessionId) && recursionLimit == old(recursionLimit)
      ensures currentContent == old(currentContent) && currentToolCalls == old(currentToolCalls)
    {
      ghost var total := MessagesStep(Current(), ms);
      events := [];
      var i := 0;
      while i < |ms|
        invariant 0 <= i <= |ms|
        invariant Valid()
        invariant MessagesStep(Current(), ms[i..]).state == total.state
        invariant events + MessagesStep(Current(), ms[i..]).events == total.events
        invariant sessionId == old(sessionId) && recursionLimit == old(recursionLimit)
        invariant currentContent == old(currentContent) && currentToolCalls == old(currentToolCalls)
      {
        assert ms[i..][0] == ms[i] && ms[i..][1..] == ms[i + 1..];
        var more := HandleMessage(ms[i]);
        AppendAssoc(events, more, MessagesStep(Current(), ms[i + 1..]).events);
        events := events + more;
        i := i + 1;
      }
    }

    /** `_handle_chunk`, with `_handle_values_chunk` for "values" chunks. */
    method HandleChunk(chunk: Chunk) returns (events: seq<Event>)
      requires Valid()
      modifies this
      ensures Valid()
      ensures Current() == ChunkStep(old(Current()), chunk).state
      ensures events == ChunkStep(old(Current()), chunk).events
      ensures sessionId == old(sessionId) && recursionLimit == old(recursionLimit)
      ensures currentContent == old(currentContent) && currentToolCalls == old(currentToolCalls)
    {
      match RouteOf(chunk)
      case Deliver(ms) =>
        events := HandleMessages(ms);
      case Snapshot(ms) =>
        events := if ms != [] then [Messages(ms)] else [];
      case Fail(reason) =>
        events := [Error(ChunkErrorPrefix + reason, None)];
    }

    /** The history conversion loop of `process_stream`; None when a message constructor raises. */
    static method ConvertHistory(history: seq<map<string, Json>>) returns (converted: Option<seq<ChatMessage>>)
      ensures converted == Converted(history)
    {
      var acc: seq<ChatMessage> := [];
      var k := 0;
      assert history[k..] == history;
      if Converted(history).Some? {
        assert acc + Converted(history).value == Converted(history).value;
      }
      while k < |history|
        invariant 0 <= k <= |history|
        invariant Converted(history) == if Converted(history[k..]).Some? then Some(acc + Converted(history[k..]).value) else None
      {
        assert history[k..][0] == history[k] && history[k..][1..] == history[k + 1..];
        var one := ConvertOne(history[k]);
        if one.None? {
          return None;
        }
        if Converted(history[k + 1..]).Some? {
          AppendAssoc(acc, one.value, Converted(history[k + 1..]).value);
        }
        acc := acc + one.value;
        k := k + 1;
      }
      assert history[k..] == [];
      assert acc + [] == acc;
      return Some(acc);
    }

    /** One `data: <json>` record per event, in order. */
    static method Serialise(events: seq<Event>, dumps: Event -> string) returns (records: seq<string>)
      ensures records == Records(events, dumps)
    {
      records := [];
      var j := 0;
      while j < |events|
        invariant 0 <= j <= |events|
        invariant records == Records(events[..j], dumps)
      {
        RecordsAppend(events[..j], [events[j]], dumps);
        assert events[..j + 1] == events[..j] + [events[j]];
        assert Records([events[j]], dumps) == [Frame(dumps(events[j]))] + Records([events[j]][1..], dumps);
        records := records + [Frame(dumps(events[j]))];
        j := j + 1;
      }
      assert events[..|events|] == events;
    }

    /**
     * `process_stream`: converts the history, handles each chunk the agent
     * delivered, then appends `[DONE]` or, when the agent raised `failure`
     * after those chunks, a single error record with its traceback. When a
     * message constructor rejects the history (with the text `rejection`),
     * that error record is the whole stream and no chunk is handled.
     * Returns the history as given to the agent and the records.
     */
    method ProcessStream(history: seq<map<string, Json>>, chunks: seq<Chunk>, failure: Option<string>,
                         rejection: string, traceback: string, dumps: Event -> string)
      returns (converted: Option<seq<ChatMessage>>, records: seq<string>)
      requires Valid()
      modifies this
      ensures Valid()
      ensures converted == Converted(history)
      ensures converted.None? ==> records == [Tail(Some(rejection), traceback, dumps)] && Current() == old(Current())
      ensures converted.Some? ==>
        records == Records(ChunksStep(old(Current()), chunks).events, dumps) + [Tail(failure, traceback, dumps)]
      ensures converted.Some? ==> toolCallArgs == ChunksStep(old(Current()), chunks).state.toolCallArgs
      ensures converted.Some? ==>
        textBuffer == if failure.None? then "" else ChunksStep(old(Current()), chunks).state.textBuffer
      ensures sessionId == old(sessionId) && recursionLimit == old(recursionLimit)
      ensures currentContent == old(currentContent) && currentToolCalls == old(currentToolCalls)
    {
      converted := ConvertHistory(history);
      if converted.None? {
        records := [Frame(dumps(Error(rejection, Some(traceback))))];
        return;
      }

      ghost var total := ChunksStep(Current(), chunks);
      ghost var events: seq<Event> := [];
      records := [];
      var i := 0;
      while i < |chunks|
        invariant 0 <= i <= |chunks|
        invariant Valid()
        invariant ChunksStep(Current(), chunks[i..]).state == total.state
        invariant events + ChunksStep(Current(), chunks[i..]).events == total.events
        invariant records == Records(events, dumps)
        invariant sessionId == old(sessionId) && recursionLimit == old(recursionLimit)
        invariant currentContent == old(currentContent) && currentToolCalls == old(currentToolCalls)
      {
        assert chunks[i..][0] == chunks[i] && chunks[i..][1..] == chunks[i + 1..];
        var more := HandleChunk(chunks[i]);
        var framed := Serialise(more, dumps);
        records := records + framed;
        RecordsAppend(events, more, dumps);
        AppendAssoc(events, more, ChunksStep(Current(), chunks[i + 1..]).events);
        events := events + more;
        i := i + 1;
      }
      assert events == total.events;

      match failure
      case None =>
        if textBuffer != "" {
          textBuffer := "";
        }
        records := records + [DoneRecord];
      case Some(err) =>
        records := records + [Frame(dumps(Error(err, Some(traceback))))];
    }
  }
}
