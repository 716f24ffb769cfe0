/** The streaming converter of anthropic.go: an object that turns each response
    chunk into the events sent to the client. */
module StreamConverter {
  import opened AnthropicTypes

  /** A chunk seen as the things it asks for, in the order they are handled. */
  datatype Item =
    | Begin(promptTokens: int)
    | Think(thinking: string)
    | Say(text: string)
    | Call(tool: ToolCall)
    | Finish(reason: string, promptTokens: int, evalTokens: int)

  function CallItems(tools: seq<ToolCall>): (items: seq<Item>)
    ensures |items| == |tools|
    ensures forall i :: 0 <= i < |tools| ==> items[i] == Call(tools[i])
  {
    seq(|tools|, i requires 0 <= i < |tools| => Call(tools[i]))
  }

  function ThinkItems(thinking: string): seq<Item> {
    if thinking != "" then [Think(thinking)] else []
  }

  function SayItems(text: string): seq<Item> {
    if text != "" then [Say(text)] else []
  }

  function FinishItems(r: Chunk): seq<Item> {
    if r.done then [Finish(r.doneReason, r.promptTokens, r.evalTokens)] else []
  }

  function Items(r: Chunk): seq<Item> {
    [Begin(r.promptTokens)] + ThinkItems(r.thinking) + SayItems(r.content) + CallItems(r.toolCalls) + FinishItems(r)
  }

  datatype Config = Config(id: string, model: string, estimatedInputTokens: int)

  datatype State = State(
    firstWrite: bool,
    index: int,
    inputTokens: int,
    outputTokens: int,
    thinkingStarted: bool,
    thinkingDone: bool,
    textStarted: bool,
    sent: set<string>)

  const FRESH := State(true, 0, 0, 0, false, false, false, {})

  predicate ThinkingOpen(s: State) { s.thinkingStarted && !s.thinkingDone }

  /** Close an open thinking block. */
  function CloseThinking(s: State): (State, seq<Event>) {
    if ThinkingOpen(s)
    then (s.(thinkingDone := true, index := s.index + 1), [ContentBlockStop(s.index)])
    else (s, [])
  }

  /** Close an open text block. */
  function CloseText(s: State): (State, seq<Event>) {
    if s.textStarted
    then (s.(textStarted := false, index := s.index + 1), [ContentBlockStop(s.index)])
    else (s, [])
  }

  function OnThink(s: State, text: string): (State, seq<Event>) {
    if s.thinkingDone then (s, [])
    else (s.(thinkingStarted := true),
          (if s.thinkingStarted then [] else [ContentBlockStart(s.index, StartThinking)])
          + [ContentBlockDelta(s.index, ThinkingDelta(text))])
  }

  function OnSay(s: State, text: string): (State, seq<Event>) {
    var (s1, e1) := CloseThinking(s);
    (s1.(textStarted := true),
     e1 + (if s1.textStarted then [] else [ContentBlockStart(s1.index, StartText)])
     + [ContentBlockDelta(s1.index, TextDelta(text))])
  }

  function OnCall(s: State, tool: ToolCall): (State, seq<Event>) {
    if tool.id in s.sent then (s, [])
    else
      var (s1, e1) := CloseThinking(s);
      var (s2, e2) := CloseText(s1);
      match tool.args
      case Unencodable(_) => (s2, e1 + e2)
      case Encodable(json) =>
        (s2.(sent := s2.sent + {tool.id}, index := s2.index + 1),
         e1 + e2 + [ContentBlockStart(s2.index, StartToolUse(tool.id, tool.name)),
                    ContentBlockDelta(s2.index, InputJsonDelta(json)),
                    ContentBlockStop(s2.index)])
  }

  function OnFinish(s: State, item: Item): seq<Event>
    requires item.Finish?
  {
    (if s.textStarted || ThinkingOpen(s) then [ContentBlockStop(s.index)] else [])
    + [MessageDelta(MapStopReason(item.reason, |s.sent| > 0), item.promptTokens, item.evalTokens), MessageStop]
  }

  /** One item: the next state and the events sent. */
  function Step(c: Config, s: State, item: Item): (State, seq<Event>) {
    match item
    case Begin(prompt) =>
      if s.firstWrite then
        var input := if prompt == 0 && c.estimatedInputTokens > 0 then c.estimatedInputTokens else prompt;
        (s.(firstWrite := false, inputTokens := input), [MessageStart(c.id, c.model, input)])
      else (s, [])
    case Think(text) => OnThink(s, text)
    case Say(text) => OnSay(s, text)
    case Call(tool) => OnCall(s, tool)
    case Finish(_, prompt, eval) => (s.(inputTokens := prompt, outputTokens := eval), OnFinish(s, item))
  }

  /** All items in order: the final state and everything sent. */
  function Run(c: Config, s: State, items: seq<Item>): (State, seq<Event>) {
    if items == [] then (s, [])
    else
      var (s1, e1) := Run(c, s, items[..|items| - 1]);
      var (s2, e2) := Step(c, s1, items[|items| - 1]);
      (s2, e1 + e2)
  }

  lemma RunSnoc(c: Config, s: State, items: seq<Item>, item: Item)
    ensures var (s1, e1) := Run(c, s, items);
            var (s2, e2) := Step(c, s1, item);
            Run(c, s, items + [item]).0 == s2 && Run(c, s, items + [item]).1 == e1 + e2
  {
    assert (items + [item])[..|items|] == items;
  }

  lemma {:induction false} RunConcat(c: Config, s: State, a: seq<Item>, b: seq<Item>)
    ensures var (s1, e1) := Run(c, s, a);
            var (s2, e2) := Run(c, s1, b);
            Run(c, s, a + b).0 == s2 && Run(c, s, a + b).1 == e1 + e2
    decreases |b|
  {
    hide Step;
    if b == [] {
      assert a + b == a;
    } else {
      var front, last := b[..|b| - 1], b[|b| - 1];
      RunConcat(c, s, a, front);
      RunSnoc(c, s, a + front, last);
      assert a + b == (a + front) + [last];
    }
  }

  class Converter {
    const config: Config
    var firstWrite: bool
    var contentIndex: int
    var inputTokens: int
    var outputTokens: int
    var thinkingStarted: bool
    var thinkingDone: bool
    var textStarted: bool
    var toolCallsSent: set<string>

    ghost function Current(): State
      reads this
    {
      State(firstWrite, contentIndex, inputTokens, outputTokens, thinkingStarted, thinkingDone, textStarted, toolCallsSent)
    }

    constructor (id: string, model: string, estimatedInputTokens: int)
      ensures config == Config(id, model, estimatedInputTokens)
      ensures Current() == FRESH
    {
      config := Config(id, model, estimatedInputTokens);
      firstWrite := true;
      contentIndex, inputTokens, outputTokens := 0, 0, 0;
      thinkingStarted, thinkingDone, textStarted := false, false, false;
      toolCallsSent := {};
    }

    /** The items were dealt with from state `s`, and `events` is what they send. */
    ghost predicate Reached(s: State, items: seq<Item>, events: seq<Event>)
      reads this
    {
      Current() == Run(config, s, items).0 && events == Run(config, s, items).1
    }

    /** The events for one chunk. The methods below are its stages in order. */
    method Process(r: Chunk) returns (events: seq<Event>)
      modifies this
      ensures Reached(old(Current()),
                      [Begin(r.promptTokens)] + ThinkItems(r.thinking) + SayItems(r.content) + CallItems(r.toolCalls) + FinishItems(r),
                      events)
    {
      hide Run, CallItems, ThinkItems, SayItems, FinishItems;
      ghost var s0 := Current();
      events := StartMessage(r.promptTokens);
      ghost var items := [Begin(r.promptTokens)];

      var sent := SendThinking(r.thinking);
      RunConcat(config, s0, items, ThinkItems(r.thinking));
      events, items := events + sent, items + ThinkItems(r.thinking);

      sent := SendText(r.content);
      RunConcat(config, s0, items, SayItems(r.content));
      events, items := events + sent, items + SayItems(r.content);

      sent := SendToolCalls(r.toolCalls);
      RunConcat(config, s0, items, CallItems(r.toolCalls));
      events, items := events + sent, items + CallItems(r.toolCalls);

      sent := EndMessage(r);
      RunConcat(config, s0, items, FinishItems(r));
      events, items := events + sent, items + FinishItems(r);
    }

    method StartMessage(promptTokens: int) returns (events: seq<Event>)
      modifies this
      ensures Reached(old(Current()), [Begin(promptTokens)], events)
    {
      RunSnoc(config, Current(), [], Begin(promptTokens));
      assert [] + [Begin(promptTokens)] == [Begin(promptTokens)];
      events := [];
      if firstWrite {
        firstWrite := false;
        inputTokens := promptTokens;
        if inputTokens == 0 && config.estimatedInputTokens > 0 {
          inputTokens := config.estimatedInputTokens;
        }
        events := events + [MessageStart(config.id, config.model, inputTokens)];
      }
    }

    method SendThinking(thinking: string) returns (events: seq<Event>)
      modifies this
      ensures Reached(old(Current()), ThinkItems(thinking), events)
    {
      RunSnoc(config, Current(), [], Think(thinking));
      assert [] + [Think(thinking)] == [Think(thinking)];
      events := [];
      if thinking != "" && !thinkingDone {
        if !thinkingStarted {
          thinkingStarted := true;
          events := events + [ContentBlockStart(contentIndex, StartThinking)];
        }
        events := events + [ContentBlockDelta(contentIndex, ThinkingDelta(thinking))];
      }
    }

    method SendText(text: string) returns (events: seq<Event>)
      modifies this
      ensures Reached(old(Current()), SayItems(text), events)
    {
      RunSnoc(config, Current(), [], Say(text));
      assert [] + [Say(text)] == [Say(text)];
      events := [];
      if text != "" {
        events := CloseThinkingBlock();
        if !textStarted {
          textStarted := true;
          events := events + [ContentBlockStart(contentIndex, StartText)];
        }
        events := events + [ContentBlockDelta(contentIndex, TextDelta(text))];
      }
    }

    method SendToolCalls(toolCalls: seq<ToolCall>) returns (events: seq<Event>)
      modifies this
      ensures Reached(old(Current()), CallItems(toolCalls), events)
    {
      hide Step;
      events := [];
      ghost var items := CallItems(toolCalls);
      for i := 0 to |toolCalls|
        invariant Reached(old(Current()), items[..i], events)
      {
        RunSnoc(config, old(Current()), items[..i], items[i]);
        assert items[..i] + [items[i]] == items[..i + 1];
        var sent := SendToolCall(toolCalls[i]);
        events := events + sent;
      }
      assert items[..|items|] == items;
    }

    method SendToolCall(tc: ToolCall) returns (events: seq<Event>)
      modifies this
      ensures Current() == Step(config, old(Current()), Call(tc)).0
      ensures events == Step(config, old(Current()), Call(tc)).1
    {
      events := [];
      if tc.id in toolCallsSent {
        return;
      }
      // The thinking block may still be open when no text came in between.
      events := CloseThinkingBlock();
      if textStarted {
        events := events + [ContentBlockStop(contentIndex)];
        contentIndex := contentIndex + 1;
        textStarted := false;
      }
      if tc.args.Unencodable? {
        return;
      }
      events := events + [ContentBlockStart(contentIndex, StartToolUse(tc.id, tc.name)),
                          ContentBlockDelta(contentIndex, InputJsonDelta(tc.args.json)),
                          ContentBlockStop(contentIndex)];
      toolCallsSent := toolCallsSent + {tc.id};
      contentIndex := contentIndex + 1;
    }

    method EndMessage(r: Chunk) returns (events: seq<Event>)
      modifies this
      ensures Reached(old(Current()), FinishItems(r), events)
    {
      ghost var finish := Finish(r.doneReason, r.promptTokens, r.evalTokens);
      RunSnoc(config, Current(), [], finish);
      assert [] + [finish] == [finish];
      events := [];
      if r.done {
        if textStarted {
          events := events + [ContentBlockStop(contentIndex)];
        } else if thinkingStarted && !thinkingDone {
          events := events + [ContentBlockStop(contentIndex)];
        }
        inputTokens := r.promptTokens;
        outputTokens := r.evalTokens;
        var stopReason := MapStopReason(r.doneReason, |toolCallsSent| > 0);
        events := events + [MessageDelta(stopReason, inputTokens, outputTokens), MessageStop];
      }
    }

    method CloseThinkingBlock() returns (events: seq<Event>)
      modifies this
      ensures Current() == CloseThinking(old(Current())).0
      ensures events == CloseThinking(old(Current())).1
    {
      events := [];
      if thinkingStarted && !thinkingDone {
        thinkingDone := true;
        events := [ContentBlockStop(contentIndex)];
        contentIndex := contentIndex + 1;
      }
    }
  }
}
