/** The non-streaming conversions of anthropic.go: a whole answer to content
    blocks, and a client's content blocks back to chat messages. */
module Messages {
  import opened AnthropicTypes
  import opened Sequences
  import opened Strings
  import opened Wrappers

  function OptionalBlocks(r: Chunk): seq<Block> {
    (if r.thinking != "" then [ThinkingBlock(r.thinking)] else [])
    + (if r.content != "" then [TextBlock(r.content)] else [])
  }

  function ToolBlocks(tools: seq<ToolCall>): (blocks: seq<Block>)
    ensures |blocks| == |tools|
    ensures forall i :: 0 <= i < |tools| ==> blocks[i] == ToolUseBlock(tools[i].id, tools[i].name, tools[i].args)
  {
    seq(|tools|, i requires 0 <= i < |tools| => ToolUseBlock(tools[i].id, tools[i].name, tools[i].args))
  }

  function ToMessagesResponse(r: Chunk): Answer {
    Answer(OptionalBlocks(r) + ToolBlocks(r.toolCalls),
           MapStopReason(r.doneReason, |r.toolCalls| > 0), r.promptTokens, r.evalTokens)
  }

  // ---- The aggregated answer of a stream ------------------------------------

  function Thinking(chunks: seq<Chunk>): string {
    if chunks == [] then "" else Thinking(chunks[..|chunks| - 1]) + chunks[|chunks| - 1].thinking
  }

  function Content(chunks: seq<Chunk>): string {
    if chunks == [] then "" else Content(chunks[..|chunks| - 1]) + chunks[|chunks| - 1].content
  }

  function ToolCalls(chunks: seq<Chunk>): seq<ToolCall> {
    if chunks == [] then [] else ToolCalls(chunks[..|chunks| - 1]) + chunks[|chunks| - 1].toolCalls
  }

  /** The one response the server returns when streaming is off: the last chunk
      with the text, thinking and tool calls of all of them. */
  function Aggregate(chunks: seq<Chunk>): Chunk
    requires chunks != []
  {
    chunks[|chunks| - 1].(thinking := Thinking(chunks), content := Content(chunks), toolCalls := ToolCalls(chunks))
  }

  const NO_RESPONSE := Chunk("", "", [], false, "", 0, 0)

  /** The server's loop that gathers the response. Tool calls are gathered only when
      the request offers tools; otherwise those of the last chunk remain. */
  method GatherResponse(chunks: seq<Chunk>, offersTools: bool) returns (response: Chunk)
    ensures chunks == [] ==> response == NO_RESPONSE
    ensures chunks != [] && offersTools ==> response == Aggregate(chunks)
    ensures chunks != [] && !offersTools ==>
              response == Aggregate(chunks).(toolCalls := chunks[|chunks| - 1].toolCalls)
  {
    response := NO_RESPONSE;
    var thinking, content, toolCalls := "", "", [];
    for i := 0 to |chunks|
      invariant thinking == Thinking(chunks[..i]) && content == Content(chunks[..i])
      invariant toolCalls == if offersTools then ToolCalls(chunks[..i]) else []
      invariant response == if i == 0 then NO_RESPONSE else chunks[i - 1]
    {
      assert chunks[..i + 1][..i] == chunks[..i];
      thinking, content := thinking + chunks[i].thinking, content + chunks[i].content;
      response := chunks[i];
      if offersTools {
        toolCalls := toolCalls + chunks[i].toolCalls;
      }
    }
    assert chunks[..|chunks|] == chunks;
    response := response.(thinking := thinking, content := content);
    if |toolCalls| > 0 {
      response := response.(toolCalls := toolCalls);
    } else if chunks != [] && offersTools {
      NoCallsInLast(chunks);
    }
  }

  lemma NoCallsInLast(chunks: seq<Chunk>)
    requires chunks != [] && ToolCalls(chunks) == []
    ensures chunks[|chunks| - 1].toolCalls == []
  {
  }

  // ---- Content blocks sent by a client --------------------------------------

  datatype ImageSource = Base64(decoded: Result<seq<int>>) | OtherSource
  datatype Result<+T> = Ok(value: T) | Err(error: Error)
  datatype Error = InvalidImageSource | InvalidBase64 | UnsupportedSource | MissingId | MissingName

  /** A content block as a client sends it. Tool result contents are given as
      the text they flatten to. */
  datatype Param =
    | TextParam(text: Option<string>)
    | ImageParam(source: Option<ImageSource>)
    | ToolUseParam(id: string, name: string, input: Arguments)
    | ToolResultParam(toolUseId: string, result: string)
    | ThinkingParam(thinking: Option<string>)
    | ServerToolUseParam(id: string, name: string, input: Arguments)
    | WebSearchResultParam(toolUseId: string, result: string)
    | UnknownParam

  datatype Message = Message(
    role: string,
    content: string,
    images: seq<seq<int>>,
    toolCalls: seq<ToolCall>,
    thinking: string,
    toolCallId: string)

  function ToolResult(id: string, text: string): Message {
    Message("tool", text, [], [], "", id)
  }

  /** What is wrong with one block, if anything. */
  function Fault(p: Param): Option<Error> {
    match p
    case ImageParam(None) => Some(InvalidImageSource)
    case ImageParam(Some(OtherSource)) => Some(UnsupportedSource)
    case ImageParam(Some(Base64(Err(_)))) => Some(InvalidBase64)
    case ToolUseParam(id, name, _) =>
      if id == "" then Some(MissingId) else if name == "" then Some(MissingName) else None
    case _ => None
  }

  function Texts(ps: seq<Param>): string {
    if ps == [] then "" else
      Texts(ps[..|ps| - 1])
      + (match ps[|ps| - 1] case TextParam(Some(t)) => t case _ => "")
  }

  function Images(ps: seq<Param>): seq<seq<int>> {
    if ps == [] then [] else
      Images(ps[..|ps| - 1])
      + (match ps[|ps| - 1] case ImageParam(Some(Base64(Ok(d)))) => [d] case _ => [])
  }

  function Calls(ps: seq<Param>): seq<ToolCall> {
    if ps == [] then [] else
      Calls(ps[..|ps| - 1])
      + (match ps[|ps| - 1]
         case ToolUseParam(id, name, input) => [ToolCall(id, name, input)]
         case ServerToolUseParam(id, name, input) => [ToolCall(id, name, input)]
         case _ => [])
  }

  /** The last thinking text wins. */
  function LastThinking(ps: seq<Param>): string {
    if ps == [] then "" else
      match ps[|ps| - 1]
      case ThinkingParam(Some(t)) => t
      case _ => LastThinking(ps[..|ps| - 1])
  }

  function Results(ps: seq<Param>): seq<Message> {
    if ps == [] then [] else
      Results(ps[..|ps| - 1])
      + (match ps[|ps| - 1]
         case ToolResultParam(id, text) => [ToolResult(id, text)]
         case WebSearchResultParam(id, text) => [ToolResult(id, text)]
         case _ => [])
  }

  ghost predicate Sound(ps: seq<Param>) {
    forall i :: 0 <= i < |ps| ==> Fault(ps[i]) == None
  }

  function Assembled(role: string, ps: seq<Param>): seq<Message> {
    (if Texts(ps) != "" || Images(ps) != [] || Calls(ps) != [] || LastThinking(ps) != ""
     then [Message(Lower(role), Texts(ps), Images(ps), Calls(ps), LastThinking(ps), "")]
     else [])
    + Results(ps)
  }

  lemma FieldsSnoc(ps: seq<Param>, p: Param)
    ensures Texts(ps + [p]) == Texts(ps) + (match p case TextParam(Some(t)) => t case _ => "")
    ensures Images(ps + [p]) == Images(ps) + (match p case ImageParam(Some(Base64(Ok(d)))) => [d] case _ => [])
    ensures Calls(ps + [p]) == Calls(ps) + (match p
                                            case ToolUseParam(id, name, input) => [ToolCall(id, name, input)]
                                            case ServerToolUseParam(id, name, input) => [ToolCall(id, name, input)]
                                            case _ => [])
    ensures LastThinking(ps + [p]) == (match p case ThinkingParam(Some(t)) => t case _ => LastThinking(ps))
    ensures Results(ps + [p]) == Results(ps) + (match p
                                                case ToolResultParam(id, result) => [ToolResult(id, result)]
                                                case WebSearchResultParam(id, result) => [ToolResult(id, result)]
                                                case _ => [])
  {
    assert (ps + [p])[..|ps|] == ps;
  }

  lemma FieldsOfNothing()
    ensures Texts([]) == "" && Images([]) == [] && Calls([]) == [] && LastThinking([]) == "" && Results([]) == []
  {
  }

  /** One pass over the blocks. It fails on the first faulty block; otherwise
      the role's own message, if it has anything to say, precedes the tool results. */
  method ConvertMessage(role: string, ps: seq<Param>) returns (r: Result<seq<Message>>)
    ensures r.Ok? <==> Sound(ps)
    ensures r.Ok? ==> r.value == Assembled(role, ps)
    ensures r.Err? ==>
      exists i :: 0 <= i < |ps| && Fault(ps[i]) == Some(r.error) && forall j :: 0 <= j < i ==> Fault(ps[j]) == None
  {
    hide Texts, Images, Calls, LastThinking, Results;
    var text, images, toolCalls, thinking, toolResults := "", [], [], "", [];
    FieldsOfNothing();
    assert ps[..0] == [];
    for i := 0 to |ps|
      invariant forall j :: 0 <= j < i ==> Fault(ps[j]) == None
      invariant text == Texts(ps[..i]) && images == Images(ps[..i]) && toolCalls == Calls(ps[..i])
      invariant thinking == LastThinking(ps[..i]) && toolResults == Results(ps[..i])
    {
      FieldsSnoc(ps[..i], ps[i]);
      assert ps[..i + 1] == ps[..i] + [ps[i]];
      match ps[i] {
        case TextParam(t) =>
          if t.Some? {
            text := text + t.value;
          }
        case ImageParam(source) =>
          if source.None? {
            return Err(InvalidImageSource);
          }
          if source.value.Base64? {
            if source.value.decoded.Err? {
              return Err(InvalidBase64);
            }
            images := images + [source.value.decoded.value];
          } else {
            return Err(UnsupportedSource);
          }
        case ToolUseParam(id, name, input) =>
          if id == "" {
            return Err(MissingId);
          }
          if name == "" {
            return Err(MissingName);
          }
          toolCalls := toolCalls + [ToolCall(id, name, input)];
        case ToolResultParam(id, result) =>
          toolResults := toolResults + [ToolResult(id, result)];
        case ThinkingParam(t) =>
          if t.Some? {
            thinking := t.value;
          }
        case ServerToolUseParam(id, name, input) =>
          toolCalls := toolCalls + [ToolCall(id, name, input)];
        case WebSearchResultParam(id, result) =>
          toolResults := toolResults + [ToolResult(id, result)];
        case UnknownParam =>
      }
    }
    assert ps[..|ps|] == ps;
    var messages := [];
    if |text| > 0 || |images| > 0 || |toolCalls| > 0 || thinking != "" {
      messages := messages + [Message(Lower(role), text, images, toolCalls, thinking, "")];
    }
    r := Ok(messages + toolResults);
  }

  // ---- What becomes of each block ---------------------------------------------

  predicate IsResult(p: Param) {
    p.ToolResultParam? || p.WebSearchResultParam?
  }

  predicate IsImage(p: Param) {
    p.ImageParam? && p.source.Some? && p.source.value.Base64? && p.source.value.decoded.Ok?
  }

  /** The message is about this tool call, says this, and nothing else. */
  predicate Tells(m: Message, toolUseId: string, result: string) {
    && m.role == "tool" && m.toolCallId == toolUseId && m.content == result
    && m.images == [] && m.toolCalls == [] && m.thinking == ""
  }

  /** The message is that of this result block. */
  predicate ResultTold(p: Param, m: Message) {
    IsResult(p) && Tells(m, p.toolUseId, p.result)
  }

  lemma ResultsSnoc(ps: seq<Param>, p: Param)
    ensures Results(ps + [p]) == if IsResult(p) then Results(ps) + [ToolResult(p.toolUseId, p.result)] else Results(ps)
    ensures IsResult(p) ==> ResultTold(p, ToolResult(p.toolUseId, p.result))
  {
    assert (ps + [p])[..|ps|] == ps;
    assert Results(ps) + [] == Results(ps);
  }

  /** Each tool result becomes one message for its tool call, in order. */
  lemma {:induction false} ResultsInOrder(ps: seq<Param>) returns (ks: seq<nat>)
    ensures Counterparts(ks, ps, IsResult, Results(ps), ResultTold)
  {
    if ps == [] {
      ks := [];
    } else {
      hide *;
      var front, p := ps[..|ps| - 1], ps[|ps| - 1];
      ks := ResultsInOrder(front);
      SplitLast(ps);
      ResultsSnoc(front, p);
      if IsResult(p) {
        OneCounterpart(ks, front, p, IsResult, Results(front), ToolResult(p.toolUseId, p.result), ResultTold);
        ks := ks + [|front|];
      } else {
        NoCounterpart(ks, front, p, IsResult, Results(front), ResultTold);
      }
    }
  }

  /** The image is that of this block. */
  predicate ImageShown(p: Param, image: seq<int>) {
    IsImage(p) && image == p.source.value.decoded.value
  }

  lemma ImagesSnoc(ps: seq<Param>, p: Param)
    ensures !IsImage(p) ==> Images(ps + [p]) == Images(ps)
    ensures IsImage(p) ==> Images(ps + [p]) == Images(ps) + [p.source.value.decoded.value]
  {
    assert (ps + [p])[..|ps|] == ps;
    assert Images(ps) + [] == Images(ps);
  }

  /** Each image goes into the role's message, in order. */
  lemma {:induction false} ImagesInOrder(ps: seq<Param>) returns (ks: seq<nat>)
    ensures Counterparts(ks, ps, IsImage, Images(ps), ImageShown)
  {
    if ps == [] {
      ks := [];
    } else {
      hide Images, Counterparts, Places;
      var front, p := ps[..|ps| - 1], ps[|ps| - 1];
      ks := ImagesInOrder(front);
      SplitLast(ps);
      ImagesSnoc(front, p);
      if IsImage(p) {
        OneCounterpart(ks, front, p, IsImage, Images(front), p.source.value.decoded.value, ImageShown);
        ks := ks + [|front|];
      } else {
        NoCounterpart(ks, front, p, IsImage, Images(front), ImageShown);
      }
    }
  }

  predicate HasThinking(ps: seq<Param>) {
    exists i :: 0 <= i < |ps| && ps[i].ThinkingParam? && ps[i].thinking.Some?
  }

  /** Blocks in two parts: texts and calls follow each other, and the later thinking wins. */
  lemma {:induction false} PartsInOrder(a: seq<Param>, b: seq<Param>)
    ensures Texts(a + b) == Texts(a) + Texts(b) && Calls(a + b) == Calls(a) + Calls(b)
    ensures LastThinking(a + b) == if HasThinking(b) then LastThinking(b) else LastThinking(a)
  {
    if b == [] {
      assert a + b == a;
      assert Texts(a) + "" == Texts(a) && Calls(a) + [] == Calls(a);
    } else {
      var front, p := b[..|b| - 1], b[|b| - 1];
      ThinkingSnoc(front, p);
      hide *;
      PartsInOrder(a, front);
      SplitLast(b);
      FieldsSnoc(front, p);
      FieldsSnoc(a + front, p);
      ConcatAssociative(a, front, [p]);
      var text := match p case TextParam(Some(t)) => t case _ => "";
      var calls := match p
                   case ToolUseParam(id, name, input) => [ToolCall(id, name, input)]
                   case ServerToolUseParam(id, name, input) => [ToolCall(id, name, input)]
                   case _ => [];
      ConcatAssociative(Texts(a), Texts(front), text);
      ConcatAssociative(Calls(a), Calls(front), calls);
    }
  }

  lemma ThinkingSnoc(ps: seq<Param>, p: Param)
    ensures HasThinking(ps + [p]) <==> HasThinking(ps) || (p.ThinkingParam? && p.thinking.Some?)
  {
    var all := ps + [p];
    assert all[|ps|] == p && forall i :: 0 <= i < |ps| ==> all[i] == ps[i];
  }

  /** What a single block says. */
  lemma OneBlock(p: Param)
    ensures Texts([p]) == if p.TextParam? then p.text.GetOr("") else ""
    ensures Calls([p]) == if p.ToolUseParam? || p.ServerToolUseParam? then [ToolCall(p.id, p.name, p.input)] else []
    ensures HasThinking([p]) ==> LastThinking([p]) == p.thinking.value
  {
    assert [p][..0] == [];
  }

  // ---- Round trip ------------------------------------------------------------

  function AsParam(b: Block): Param {
    match b
    case ThinkingBlock(t) => ThinkingParam(Some(t))
    case TextBlock(t) => TextParam(Some(t))
    case ToolUseBlock(id, name, args) => ToolUseParam(id, name, args)
  }

  function AsParams(blocks: seq<Block>): (ps: seq<Param>)
    ensures |ps| == |blocks|
    ensures forall i :: 0 <= i < |blocks| ==> ps[i] == AsParam(blocks[i])
  {
    seq(|blocks|, i requires 0 <= i < |blocks| => AsParam(blocks[i]))
  }

  /** `ps` says exactly this much. */
  ghost predicate Reads(ps: seq<Param>, thinking: string, text: string, calls: seq<ToolCall>) {
    Texts(ps) == text && LastThinking(ps) == thinking && Calls(ps) == calls && Images(ps) == [] && Results(ps) == []
  }

  lemma ReadsSnoc(ps: seq<Param>, b: Block, thinking: string, text: string, calls: seq<ToolCall>)
    requires Reads(ps, thinking, text, calls)
    ensures var ps' := ps + [AsParam(b)];
            match b
            case ThinkingBlock(t) => Reads(ps', t, text, calls)
            case TextBlock(t) => Reads(ps', thinking, text + t, calls)
            case ToolUseBlock(id, name, args) => Reads(ps', thinking, text, calls + [ToolCall(id, name, args)])
  {
    assert (ps + [AsParam(b)])[..|ps|] == ps;
  }

  lemma OptionalReadBack(r: Chunk)
    ensures Reads(AsParams(OptionalBlocks(r)), r.thinking, r.content, [])
  {
    var thought: seq<Block> := if r.thinking != "" then [ThinkingBlock(r.thinking)] else [];
    assert Reads(AsParams(thought), r.thinking, "", []) by {
      ReadsSnoc([], ThinkingBlock(r.thinking), "", "", []);
      assert [] + [AsParam(ThinkingBlock(r.thinking))] == [AsParam(ThinkingBlock(r.thinking))];
    }
    hide Reads;
    ReadsSnoc(AsParams(thought), TextBlock(r.content), r.thinking, "", []);
    assert "" + r.content == r.content;
    if r.content != "" {
      assert AsParams(OptionalBlocks(r)) == AsParams(thought) + [AsParam(TextBlock(r.content))];
    } else {
      assert AsParams(OptionalBlocks(r)) == AsParams(thought);
    }
  }

  /** Thinking, text and tools are read off a response's blocks unchanged. */
  lemma {:induction false} ReadBack(r: Chunk, n: nat)
    requires n <= |r.toolCalls|
    ensures Reads(AsParams(OptionalBlocks(r) + ToolBlocks(r.toolCalls[..n])), r.thinking, r.content, r.toolCalls[..n])
  {
    var before := AsParams(OptionalBlocks(r));
    if n == 0 {
      OptionalReadBack(r);
      assert OptionalBlocks(r) + ToolBlocks(r.toolCalls[..0]) == OptionalBlocks(r);
    } else {
      hide Reads, OptionalBlocks;
      ReadBack(r, n - 1);
      var t, before := r.toolCalls[n - 1], r.toolCalls[..n - 1];
      var b := ToolUseBlock(t.id, t.name, t.args);
      ReadsSnoc(AsParams(OptionalBlocks(r) + ToolBlocks(before)), b, r.thinking, r.content, before);
      assert r.toolCalls[..n] == before + [t];
      ParamsSnoc(OptionalBlocks(r), before, t);
    }
  }

  lemma ParamsSnoc(blocks: seq<Block>, tools: seq<ToolCall>, t: ToolCall)
    ensures AsParams(blocks + ToolBlocks(tools + [t]))
         == AsParams(blocks + ToolBlocks(tools)) + [AsParam(ToolUseBlock(t.id, t.name, t.args))]
  {
  }

  predicate Named(t: ToolCall) {
    t.id != "" && t.name != ""
  }

  lemma ParamFault(t: ToolCall)
    ensures Fault(AsParam(ToolUseBlock(t.id, t.name, t.args))) == None <==> Named(t)
  {
  }

  lemma SoundConcat(a: seq<Block>, b: seq<Block>)
    ensures Sound(AsParams(a + b)) <==> Sound(AsParams(a)) && Sound(AsParams(b))
  {
    hide Fault, AsParam;
    var ps := AsParams(a + b);
    assert forall i :: 0 <= i < |a| ==> ps[i] == AsParams(a)[i];
    assert forall i :: 0 <= i < |b| ==> ps[|a| + i] == AsParams(b)[i];
    if Sound(AsParams(a)) && Sound(AsParams(b)) {
      forall i | 0 <= i < |ps|
        ensures Fault(ps[i]) == None
      {
        assert i >= |a| ==> ps[i] == AsParams(b)[i - |a|];
      }
    }
  }

  lemma OptionalSound(r: Chunk)
    ensures Sound(AsParams(OptionalBlocks(r)))
  {
  }

  lemma ToolsSoundIff(tools: seq<ToolCall>)
    ensures Sound(AsParams(ToolBlocks(tools))) <==> forall i :: 0 <= i < |tools| ==> Named(tools[i])
  {
    var ps := AsParams(ToolBlocks(tools));
    forall i | 0 <= i < |tools|
      ensures Fault(ps[i]) == None <==> Named(tools[i])
    {
      ParamFault(tools[i]);
    }
    hide Fault, AsParam, Named;
  }

  lemma SoundIffNamed(r: Chunk)
    ensures Sound(AsParams(ToMessagesResponse(r).blocks)) <==> forall i :: 0 <= i < |r.toolCalls| ==> Named(r.toolCalls[i])
  {
    SoundConcat(OptionalBlocks(r), ToolBlocks(r.toolCalls));
    OptionalSound(r);
    ToolsSoundIff(r.toolCalls);
    hide Sound, Named;
  }

  /** The blocks of a response, sent back as an assistant message, are accepted
      exactly when every tool call has an id and a name; then they give back the
      answer in one message, or no message at all when the answer is empty. */
  lemma RoundTrip(role: string, r: Chunk)
    ensures var ps := AsParams(ToMessagesResponse(r).blocks);
            && (Sound(ps) <==> forall i :: 0 <= i < |r.toolCalls| ==> Named(r.toolCalls[i]))
            && Assembled(role, ps) ==
               (if r.content == "" && r.thinking == "" && r.toolCalls == [] then []
                else [Message(Lower(role), r.content, [], r.toolCalls, r.thinking, "")])
  {
    SoundIffNamed(r);
    hide Sound, Fault, Named;
    ReadBack(r, |r.toolCalls|);
    assert r.toolCalls[..|r.toolCalls|] == r.toolCalls;
  }
}
