/** The transcript buffer: an ordered list of segments built event by event, with
    a stack of subagents (Task tools) that have not returned yet. Segment objects
    are referred to by their position, which never changes. */
module Transcript {
  import opened Strings
  import opened Wrappers

  datatype Segment =
    | Thinking(text: string)
    | Text(text: string)
    | ToolCall(id: string, name: string)
    | ToolResult(id: string, toolName: Option<string>, content: string, isError: bool)
    | Subagent(description: string, toolCalls: nat, toolsUsed: set<string>, currentTool: Option<(string, string)>)
    | Error(message: string)

  /** Chunk events behave as delta events. A missing index is negative. */
  datatype Event =
    | ThinkingStart(index: int)
    | ThinkingDelta(index: int, text: string)
    | ThinkingStop(index: int)
    | TextStart(index: int)
    | TextDelta(index: int, text: string)
    | TextStop(index: int)
    | ToolUseStart(index: int, id: string, name: string, heading: string)
    | ToolUseDelta
    | ToolUseStop(index: int)
    | BlockStop(index: int)
    | ToolUse(id: string, name: string, heading: string)
    | ToolResultEvent(id: string, content: string, isError: bool)
    | ErrorEvent(message: string)
    | OtherEvent

  const SYNTHETIC := "__task_"

  datatype State = State(
    segments: seq<Segment>,
    openThinking: map<int, nat>,
    openText: map<int, nat>,
    openTools: set<int>,
    toolNames: map<string, string>,
    showToolResults: bool,
    stack: seq<string>,
    subagents: seq<nat>)

  function Initial(showToolResults: bool): State {
    State([], map[], map[], {}, map[], showToolResults, [], [])
  }

  // ---- What one event does -----------------------------------------------------

  predicate Speech(ev: Event) {
    ev.ThinkingStart? || ev.ThinkingDelta? || ev.TextStart? || ev.TextDelta?
  }

  /** Close the one block open at an index: a tool, else thinking, else text. */
  function CloseBlock(s: State, index: int): State {
    if index in s.openTools then s.(openTools := s.openTools - {index})
    else if index in s.openThinking then s.(openThinking := s.openThinking - {index})
    else if index in s.openText then s.(openText := s.openText - {index})
    else s
  }

  function CloseIfIndexed(s: State, index: int): State {
    if index >= 0 then CloseBlock(s, index) else s
  }

  function NewThinking(s: State, index: int): State {
    s.(segments := s.segments + [Thinking("")],
       openThinking := if index >= 0 then s.openThinking[index := |s.segments|] else s.openThinking)
  }

  function NewText(s: State, index: int): State {
    s.(segments := s.segments + [Text("")],
       openText := if index >= 0 then s.openText[index := |s.segments|] else s.openText)
  }

  function Append(seg: Segment, text: string): Segment {
    match seg
    case Thinking(t) => Thinking(t + text)
    case Text(t) => Text(t + text)
    case _ => seg
  }

  function AppendAt(s: State, pos: nat, text: string): State {
    if pos < |s.segments| then s.(segments := s.segments[pos := Append(s.segments[pos], text)]) else s
  }

  function OnThinkingDelta(s: State, index: int, text: string): State {
    if index in s.openThinking then AppendAt(s, s.openThinking[index], text)
    else AppendAt(NewThinking(s, index), |s.segments|, text)
  }

  function OnTextDelta(s: State, index: int, text: string): State {
    if index in s.openText then AppendAt(s, s.openText[index], text)
    else AppendAt(NewText(s, index), |s.segments|, text)
  }

  function NonEmpty(s: string, default: string): string {
    if s == "" then default else s
  }

  function Push(s: State, id: string, heading: string): State {
    var trimmed := Trim(id);
    s.(segments := s.segments + [Subagent(NonEmpty(heading, "Subagent"), 0, {}, None)],
       stack := s.stack + [if trimmed != "" then trimmed else SYNTHETIC + Decimal(|s.stack| + 1)],
       subagents := s.subagents + [|s.segments|])
  }

  function WithTool(seg: Segment, id: string, name: string): Segment {
    if seg.Subagent?
    then seg.(toolCalls := seg.toolCalls + 1, toolsUsed := seg.toolsUsed + {name}, currentTool := Some((id, name)))
    else seg
  }

  function InnermostTool(s: State, id: string, name: string): State {
    if s.subagents != [] && s.subagents[|s.subagents| - 1] < |s.segments| then
      var pos := s.subagents[|s.subagents| - 1];
      s.(segments := s.segments[pos := WithTool(s.segments[pos], id, name)])
    else s
  }

  /** A tool call: a new subagent, a call of the innermost subagent, or a segment. */
  function UseTool(s: State, id: string, name: string, heading: string): State {
    if name == "Task" then Push(s, id, heading)
    else if s.stack != [] then InnermostTool(s, id, name)
    else s.(segments := s.segments + [ToolCall(id, name)])
  }

  function Remember(s: State, id: string, name: string): State {
    if id != "" then s.(toolNames := s.toolNames[id := name]) else s
  }

  function OnToolUse(s: State, rawId: string, rawName: string, heading: string): State {
    var id, name := Trim(rawId), NonEmpty(rawName, "tool");
    UseTool(Remember(s, id, name), id, name, heading)
  }

  /** A tool call announced at an index, where another block may still be open. */
  function OnToolUseStart(s: State, index: int, id: string, name: string, heading: string): State {
    var s1 := OnToolUse(CloseIfIndexed(s, index), id, name, heading);
    if index >= 0 && NonEmpty(name, "tool") != "Task" then s1.(openTools := s1.openTools + {index}) else s1
  }

  predicate RoughlyMatch(stackId: string, resultId: string) {
    stackId != "" && resultId != "" && (resultId <= stackId || stackId <= resultId)
  }

  /** The topmost stack position that matches, or -1. */
  function Topmost(stack: seq<string>, id: string): (i: int)
    ensures -1 <= i < |stack|
    ensures i >= 0 ==> RoughlyMatch(stack[i], id)
    ensures forall j :: i < j < |stack| ==> !RoughlyMatch(stack[j], id)
  {
    if stack == [] then -1
    else if RoughlyMatch(stack[|stack| - 1], id) then |stack| - 1
    else Topmost(stack[..|stack| - 1], id)
  }

  function CutTo(s: State, n: nat): State {
    s.(stack := if n <= |s.stack| then s.stack[..n] else s.stack,
       subagents := if n <= |s.subagents| then s.subagents[..n] else s.subagents)
  }

  predicate SyntheticTop(s: State) {
    s.stack != [] && SYNTHETIC <= s.stack[|s.stack| - 1]
  }

  /** How deep the stack is after a tool result. */
  function DepthAfterResult(s: State, id: string): nat {
    var name := if id in s.toolNames then Some(s.toolNames[id]) else None;
    if id != "" && Topmost(s.stack, id) >= 0 then Topmost(s.stack, id)
    else if SyntheticTop(s) && (id == "" || ((name == None || name == Some("Task")) && Contains(Lower(id), "task")))
    then |s.stack| - 1
    else |s.stack|
  }

  function OnToolResult(s: State, rawId: string, content: string, isError: bool): State {
    var id := Trim(rawId);
    var name := if id in s.toolNames then Some(s.toolNames[id]) else None;
    var s1 := CutTo(s, DepthAfterResult(s, id));
    if s1.showToolResults then s1.(segments := s1.segments + [ToolResult(id, name, content, isError)]) else s1
  }

  function Next(s: State, ev: Event): State {
    if s.stack != [] && Speech(ev) then s
    else
      match ev
      case ThinkingStart(index) => NewThinking(CloseIfIndexed(s, index), index)
      case ThinkingDelta(index, text) => OnThinkingDelta(s, index, text)
      case ThinkingStop(index) => s.(openThinking := s.openThinking - {index})
      case TextStart(index) => NewText(CloseIfIndexed(s, index), index)
      case TextDelta(index, text) => OnTextDelta(s, index, text)
      case TextStop(index) => s.(openText := s.openText - {index})
      case ToolUseStart(index, id, name, heading) => OnToolUseStart(s, index, id, name, heading)
      case ToolUseDelta => s
      case ToolUseStop(index) => s.(openTools := s.openTools - {index})
      case BlockStop(index) => CloseBlock(s, index)
      case ToolUse(id, name, heading) => OnToolUse(s, id, name, heading)
      case ToolResultEvent(id, content, isError) => OnToolResult(s, id, content, isError)
      case ErrorEvent(message) => s.(segments := s.segments + [Error(NonEmpty(message, "Unknown error"))])
      case OtherEvent => s
  }

  function After(s: State, events: seq<Event>): State {
    if events == [] then s else Next(After(s, events[..|events| - 1]), events[|events| - 1])
  }

  // ---- The invariant -------------------------------------------------------------

  ghost predicate Inv(s: State) {
    && |s.stack| == |s.subagents|
    && (forall i :: 0 <= i < |s.stack| ==> s.stack[i] != "")
    && (forall i :: 0 <= i < |s.subagents| ==> s.subagents[i] < |s.segments| && s.segments[s.subagents[i]].Subagent?)
    && (forall i, j :: 0 <= i < j < |s.subagents| ==> s.subagents[i] < s.subagents[j])
    && (forall k :: k in s.openThinking ==> k >= 0 && s.openThinking[k] < |s.segments| && s.segments[s.openThinking[k]].Thinking?)
    && (forall k :: k in s.openText ==> k >= 0 && s.openText[k] < |s.segments| && s.segments[s.openText[k]].Text?)
  }

  /** Segments are only added, and keep their kind. */
  ghost predicate Grows(before: seq<Segment>, after: seq<Segment>) {
    && |before| <= |after|
    && forall p :: 0 <= p < |before| ==> SameKind(before[p], after[p])
  }

  predicate SameKind(a: Segment, b: Segment) {
    match a
    case Thinking(_) => b.Thinking?
    case Text(_) => b.Text?
    case Subagent(d, _, _, _) => b.Subagent? && b.description == d
    case _ => a == b
  }

  lemma InvOnGrowth(s: State, segments: seq<Segment>)
    requires Inv(s) && Grows(s.segments, segments)
    ensures Inv(s.(segments := segments))
  {
    forall i | 0 <= i < |s.subagents|
      ensures s.subagents[i] < |segments| && segments[s.subagents[i]].Subagent?
    {
      assert SameKind(s.segments[s.subagents[i]], segments[s.subagents[i]]);
    }
    forall k | k in s.openThinking
      ensures s.openThinking[k] < |segments| && segments[s.openThinking[k]].Thinking?
    {
      assert SameKind(s.segments[s.openThinking[k]], segments[s.openThinking[k]]);
    }
    forall k | k in s.openText
      ensures s.openText[k] < |segments| && segments[s.openText[k]].Text?
    {
      assert SameKind(s.segments[s.openText[k]], segments[s.openText[k]]);
    }
  }

  /** While a subagent is open, no thinking or text is created or changed. */
  ghost predicate SpeechUntouched(before: seq<Segment>, after: seq<Segment>) {
    && |before| <= |after|
    && (forall p :: 0 <= p < |before| && (before[p].Thinking? || before[p].Text?) ==> after[p] == before[p])
    && (forall p :: |before| <= p < |after| ==> !after[p].Thinking? && !after[p].Text?)
  }

  lemma StopInv(s: State, index: int)
    requires Inv(s)
    ensures Inv(s.(openThinking := s.openThinking - {index})) && Inv(s.(openText := s.openText - {index}))
    ensures Inv(s.(openTools := s.openTools - {index}))
  {
  }

  lemma CloseBlockInv(s: State, index: int)
    requires Inv(s)
    ensures var s' := CloseIfIndexed(s, index); Inv(s') && s'.segments == s.segments && s'.stack == s.stack
    ensures var s' := CloseBlock(s, index); Inv(s') && s'.segments == s.segments && s'.stack == s.stack
  {
    hide Inv;
    StopInv(s, index);
  }

  lemma NewSpeechInv(s: State, index: int)
    requires Inv(s)
    ensures Inv(NewThinking(s, index)) && Inv(NewText(s, index))
    ensures Grows(s.segments, NewThinking(s, index).segments) && Grows(s.segments, NewText(s, index).segments)
  {
    InvOnGrowth(s, s.segments + [Thinking("")]);
    InvOnGrowth(s, s.segments + [Text("")]);
  }

  lemma AppendAtInv(s: State, pos: nat, text: string)
    requires Inv(s)
    ensures Inv(AppendAt(s, pos, text)) && Grows(s.segments, AppendAt(s, pos, text).segments)
  {
    InvOnGrowth(s, AppendAt(s, pos, text).segments);
  }

  lemma PushInv(s: State, id: string, heading: string)
    requires Inv(s)
    ensures var s' := Push(s, id, heading);
            Inv(s') && Grows(s.segments, s'.segments) && SpeechUntouched(s.segments, s'.segments)
  {
    InvOnGrowth(s, Push(s, id, heading).segments);
  }

  lemma InnermostToolInv(s: State, id: string, name: string)
    requires Inv(s)
    ensures var s' := InnermostTool(s, id, name);
            Inv(s') && Grows(s.segments, s'.segments) && SpeechUntouched(s.segments, s'.segments)
  {
    InvOnGrowth(s, InnermostTool(s, id, name).segments);
  }

  lemma AddedInv(s: State, seg: Segment)
    requires Inv(s) && !seg.Thinking? && !seg.Text?
    ensures var segments := s.segments + [seg];
            Inv(s.(segments := segments)) && Grows(s.segments, segments) && SpeechUntouched(s.segments, segments)
  {
    InvOnGrowth(s, s.segments + [seg]);
  }

  lemma NamedInv(s: State, names: map<string, string>)
    requires Inv(s)
    ensures Inv(s.(toolNames := names))
    ensures Grows(s.segments, s.segments) && SpeechUntouched(s.segments, s.segments)
  {
  }

  lemma ToolUseInv(s: State, id: string, name: string, heading: string)
    requires Inv(s)
    ensures var s' := OnToolUse(s, id, name, heading);
            Inv(s') && Grows(s.segments, s'.segments) && SpeechUntouched(s.segments, s'.segments)
  {
    hide Inv, Grows, SpeechUntouched, UseTool, Trim;
    var id', name' := Trim(id), NonEmpty(name, "tool");
    NamedInv(s, Remember(s, id', name').toolNames);
    UseToolInv(Remember(s, id', name'), id', name', heading);
  }

  lemma UseToolInv(s: State, id: string, name: string, heading: string)
    requires Inv(s)
    ensures var s' := UseTool(s, id, name, heading);
            Inv(s') && Grows(s.segments, s'.segments) && SpeechUntouched(s.segments, s'.segments)
  {
    hide Inv, Grows, SpeechUntouched, Push, InnermostTool;
    PushInv(s, id, heading);
    InnermostToolInv(s, id, name);
    AddedInv(s, ToolCall(id, name));
  }

  lemma CutInv(s: State, n: nat)
    requires Inv(s) && n <= |s.stack|
    ensures Inv(CutTo(s, n))
  {
  }

  lemma ToolResultInv(s: State, rawId: string, content: string, isError: bool)
    requires Inv(s)
    ensures var s' := OnToolResult(s, rawId, content, isError);
            Inv(s') && Grows(s.segments, s'.segments) && SpeechUntouched(s.segments, s'.segments)
  {
    var id := Trim(rawId);
    var name := if id in s.toolNames then Some(s.toolNames[id]) else None;
    NamedInv(s, s.toolNames);
    hide Inv, Grows, SpeechUntouched;
    CutInv(s, DepthAfterResult(s, id));
    AddedInv(CutTo(s, DepthAfterResult(s, id)), ToolResult(id, name, content, isError));
  }

  lemma OpenToolsInv(s: State, tools: set<int>)
    requires Inv(s)
    ensures Inv(s.(openTools := tools))
  {
  }

  /** Starting a tool call at an index. */
  lemma ToolUseStartInv(s: State, index: int, id: string, name: string, heading: string)
    requires Inv(s)
    ensures var s' := OnToolUse(CloseIfIndexed(s, index), id, name, heading);
            && Inv(s') && Inv(s'.(openTools := s'.openTools + {index}))
            && Grows(s.segments, s'.segments) && SpeechUntouched(s.segments, s'.segments)
  {
    CloseBlockInv(s, index);
    hide Inv, Grows, SpeechUntouched, OnToolUse, CloseIfIndexed;
    ToolUseInv(CloseIfIndexed(s, index), id, name, heading);
    var s' := OnToolUse(CloseIfIndexed(s, index), id, name, heading);
    OpenToolsInv(s', s'.openTools + {index});
  }

  lemma SpeechInv(s: State, ev: Event)
    requires Inv(s) && Speech(ev) && s.stack == []
    ensures Inv(Next(s, ev)) && Grows(s.segments, Next(s, ev).segments)
  {
    hide Inv, SameKind, CloseIfIndexed, NewThinking, NewText, AppendAt;
    match ev
    case ThinkingStart(index) =>
      CloseBlockInv(s, index);
      NewSpeechInv(CloseIfIndexed(s, index), index);
    case TextStart(index) =>
      CloseBlockInv(s, index);
      NewSpeechInv(CloseIfIndexed(s, index), index);
    case ThinkingDelta(index, text) =>
      if index in s.openThinking {
        AppendAtInv(s, s.openThinking[index], text);
      } else {
        NewSpeechInv(s, index);
        AppendAtInv(NewThinking(s, index), |s.segments|, text);
        GrowsOn(s.segments, NewThinking(s, index).segments, Next(s, ev).segments);
      }
    case TextDelta(index, text) =>
      if index in s.openText {
        AppendAtInv(s, s.openText[index], text);
      } else {
        NewSpeechInv(s, index);
        AppendAtInv(NewText(s, index), |s.segments|, text);
        GrowsOn(s.segments, NewText(s, index).segments, Next(s, ev).segments);
      }
  }

  lemma GrowsOn(a: seq<Segment>, b: seq<Segment>, c: seq<Segment>)
    requires Grows(a, b) && Grows(b, c)
    ensures Grows(a, c)
  {
    forall p | 0 <= p < |a|
      ensures SameKind(a[p], c[p])
    {
      assert SameKind(a[p], b[p]) && SameKind(b[p], c[p]);
    }
  }

  /** Tool events, and the others that are not speech. */
  lemma ToolEventInv(s: State, ev: Event)
    requires Inv(s) && (ev.ToolUseStart? || ev.ToolUse? || ev.ToolResultEvent? || ev.ErrorEvent?)
    ensures var s' := Next(s, ev);
            Inv(s') && Grows(s.segments, s'.segments) && SpeechUntouched(s.segments, s'.segments)
  {
    hide Inv, Grows, SpeechUntouched, OnToolUse, OnToolResult, CloseIfIndexed;
    match ev
    case ToolUseStart(index, id, name, heading) => ToolUseStartInv(s, index, id, name, heading);
    case ToolUse(id, name, heading) => ToolUseInv(s, id, name, heading);
    case ToolResultEvent(id, content, isError) => ToolResultInv(s, id, content, isError);
    case ErrorEvent(message) => AddedInv(s, Error(NonEmpty(message, "Unknown error")));
  }

  lemma StopEventInv(s: State, ev: Event)
    requires Inv(s)
    requires ev.ThinkingStop? || ev.TextStop? || ev.ToolUseDelta? || ev.ToolUseStop? || ev.BlockStop? || ev.OtherEvent?
    ensures var s' := Next(s, ev);
            Inv(s') && Grows(s.segments, s'.segments) && SpeechUntouched(s.segments, s'.segments)
  {
    NamedInv(s, s.toolNames);
    hide Inv, Grows, SpeechUntouched, NewThinking, NewText, OnThinkingDelta, OnTextDelta,
      OnToolUseStart, OnToolUse, OnToolResult, CloseBlock;
    match ev
    case BlockStop(index) => CloseBlockInv(s, index);
    case ThinkingStop(index) => StopInv(s, index);
    case TextStop(index) => StopInv(s, index);
    case ToolUseStop(index) => StopInv(s, index);
    case _ =>
  }

  /** Every event keeps the invariant, only adds segments, and leaves thinking and
      text alone while a subagent is open. */
  lemma NextKeepsInv(s: State, ev: Event)
    requires Inv(s)
    ensures Inv(Next(s, ev)) && Grows(s.segments, Next(s, ev).segments)
    ensures s.stack != [] ==> SpeechUntouched(s.segments, Next(s, ev).segments)
  {
    if Speech(ev) {
      if s.stack == [] {
        hide Inv, Grows, Next;
        SpeechInv(s, ev);
      } else {
        assert Next(s, ev) == s;
        hide Inv, Grows, SpeechUntouched, Next;
        NamedInv(s, s.toolNames);
      }
    } else {
      hide Inv, Grows, SpeechUntouched, Next;
      if ev.ToolUseStart? || ev.ToolUse? || ev.ToolResultEvent? || ev.ErrorEvent? {
        ToolEventInv(s, ev);
      } else {
        StopEventInv(s, ev);
      }
    }
  }

  // ---- Over every event sequence ---------------------------------------------------

  lemma {:induction false} AfterKeepsInv(showToolResults: bool, events: seq<Event>)
    ensures Inv(After(Initial(showToolResults), events))
  {
    if events == [] {
      InitialInv(showToolResults);
    } else {
      hide Inv, Next;
      var front := events[..|events| - 1];
      AfterKeepsInv(showToolResults, front);
      NextKeepsInv(After(Initial(showToolResults), front), events[|events| - 1]);
    }
  }

  lemma InitialInv(showToolResults: bool)
    ensures Inv(Initial(showToolResults))
  {
  }

  /** Tool calls shown: call segments, and for each subagent itself and its calls. */
  function Calls(segments: seq<Segment>): nat {
    if segments == [] then 0
    else Calls(segments[..|segments| - 1]) + Weight(segments[|segments| - 1])
  }

  function Weight(seg: Segment): nat {
    match seg
    case ToolCall(_, _) => 1
    case Subagent(_, n, _, _) => 1 + n
    case _ => 0
  }

  predicate IsCall(ev: Event) { ev.ToolUseStart? || ev.ToolUse? }

  function CallEvents(events: seq<Event>): nat {
    if events == [] then 0
    else CallEvents(events[..|events| - 1]) + (if IsCall(events[|events| - 1]) then 1 else 0)
  }

  lemma CallsSnoc(segments: seq<Segment>, seg: Segment)
    ensures Calls(segments + [seg]) == Calls(segments) + Weight(seg)
  {
    assert (segments + [seg])[..|segments|] == segments;
  }

  lemma {:induction false} CallsUpdate(segments: seq<Segment>, pos: nat, seg: Segment)
    requires pos < |segments|
    ensures Calls(segments[pos := seg]) + Weight(segments[pos]) == Calls(segments) + Weight(seg)
  {
    var front, last := segments[..|segments| - 1], segments[|segments| - 1];
    assert segments == front + [last];
    if pos == |segments| - 1 {
      assert segments[pos := seg] == front + [seg];
      CallsSnoc(front, seg);
    } else {
      assert segments[pos := seg] == front[pos := seg] + [last];
      CallsUpdate(front, pos, seg);
      CallsSnoc(front[pos := seg], last);
    }
  }

  lemma AppendAtCalls(s: State, pos: nat, text: string)
    ensures Calls(AppendAt(s, pos, text).segments) == Calls(s.segments)
  {
    if pos < |s.segments| {
      CallsUpdate(s.segments, pos, Append(s.segments[pos], text));
    }
  }

  lemma NewSpeechCalls(s: State, index: int)
    ensures Calls(NewThinking(s, index).segments) == Calls(s.segments)
    ensures Calls(NewText(s, index).segments) == Calls(s.segments)
  {
    CallsSnoc(s.segments, Thinking(""));
    CallsSnoc(s.segments, Text(""));
  }

  lemma SpeechAddsNoCall(s: State, ev: Event)
    requires Speech(ev)
    ensures Calls(Next(s, ev).segments) == Calls(s.segments)
  {
    hide Calls, AppendAt, NewThinking, NewText;
    NewSpeechCalls(s, ev.index);
    NewSpeechCalls(CloseIfIndexed(s, ev.index), ev.index);
    match ev
    case ThinkingDelta(index, text) =>
      if index in s.openThinking {
        AppendAtCalls(s, s.openThinking[index], text);
      } else {
        AppendAtCalls(NewThinking(s, index), |s.segments|, text);
      }
    case TextDelta(index, text) =>
      if index in s.openText {
        AppendAtCalls(s, s.openText[index], text);
      } else {
        AppendAtCalls(NewText(s, index), |s.segments|, text);
      }
    case _ =>
  }

  lemma UseToolAddsOne(s: State, id: string, name: string, heading: string)
    requires Inv(s)
    ensures Calls(UseTool(s, id, name, heading).segments) == Calls(s.segments) + 1
  {
    if name == "Task" {
      CallsSnoc(s.segments, Subagent(NonEmpty(heading, "Subagent"), 0, {}, None));
      hide Calls, Inv, NonEmpty, Trim;
    } else if s.stack != [] {
      InnermostAddsOne(s, id, name);
      hide Calls, Inv, InnermostTool;
    } else {
      CallsSnoc(s.segments, ToolCall(id, name));
      hide Calls, Inv;
    }
  }

  lemma InnermostAddsOne(s: State, id: string, name: string)
    requires Inv(s) && s.stack != []
    ensures Calls(InnermostTool(s, id, name).segments) == Calls(s.segments) + 1
  {
    hide Calls;
    var pos := s.subagents[|s.subagents| - 1];
    assert s.segments[pos].Subagent?;
    CallsUpdate(s.segments, pos, WithTool(s.segments[pos], id, name));
  }

  lemma OnToolUseAddsOne(s: State, id: string, name: string, heading: string)
    requires Inv(s)
    ensures Calls(OnToolUse(s, id, name, heading).segments) == Calls(s.segments) + 1
  {
    hide Inv, UseTool, Trim;
    var id', name' := Trim(id), NonEmpty(name, "tool");
    NamedInv(s, Remember(s, id', name').toolNames);
    UseToolAddsOne(Remember(s, id', name'), id', name', heading);
  }

  lemma ToolEventCounts(s: State, ev: Event)
    requires Inv(s) && (ev.ToolUseStart? || ev.ToolUse? || ev.ToolResultEvent? || ev.ErrorEvent?)
    ensures Calls(Next(s, ev).segments) == Calls(s.segments) + (if IsCall(ev) then 1 else 0)
  {
    hide Inv, OnToolUse, CloseBlock, Calls, Trim, DepthAfterResult;
    match ev
    case ToolUseStart(index, id, name, heading) =>
      CloseBlockInv(s, index);
      OnToolUseAddsOne(CloseIfIndexed(s, index), id, name, heading);
    case ToolUse(id, name, heading) => OnToolUseAddsOne(s, id, name, heading);
    case ToolResultEvent(id, content, isError) =>
      var name := if Trim(id) in s.toolNames then Some(s.toolNames[Trim(id)]) else None;
      CallsSnoc(s.segments, ToolResult(Trim(id), name, content, isError));
    case ErrorEvent(message) => CallsSnoc(s.segments, Error(NonEmpty(message, "Unknown error")));
  }

  lemma NextCountsCalls(s: State, ev: Event)
    requires Inv(s)
    ensures Calls(Next(s, ev).segments) == Calls(s.segments) + (if IsCall(ev) then 1 else 0)
  {
    if Speech(ev) {
      SpeechAddsNoCall(s, ev);
    } else if ev.ToolUseStart? || ev.ToolUse? || ev.ToolResultEvent? || ev.ErrorEvent? {
      ToolEventCounts(s, ev);
    } else {
      hide Inv, Calls;
      assert Next(s, ev).segments == s.segments;
    }
  }

  /** No tool call is lost: at any time the transcript accounts for as many calls
      as tool events have come, however subagents were nested or closed. */
  lemma {:induction false} CallsAreConserved(showToolResults: bool, events: seq<Event>)
    ensures Calls(After(Initial(showToolResults), events).segments) == CallEvents(events)
  {
    if events != [] {
      hide Next, Inv;
      var front := events[..|events| - 1];
      CallsAreConserved(showToolResults, front);
      AfterKeepsInv(showToolResults, front);
      NextCountsCalls(After(Initial(showToolResults), front), events[|events| - 1]);
    }
  }

  /** A result cuts both stacks just below the topmost id that matches its own. */
  lemma ResultCutsAtTopmost(s: State, i: nat, id: string, content: string, isError: bool)
    requires i < |s.stack| == |s.subagents| && RoughlyMatch(s.stack[i], Trim(id))
    requires forall j :: i < j < |s.stack| ==> !RoughlyMatch(s.stack[j], Trim(id))
    ensures var s' := Next(s, ToolResultEvent(id, content, isError));
            s'.stack == s.stack[..i] && s'.subagents == s.subagents[..i]
  {
    hide Trim;
    assert Topmost(s.stack, Trim(id)) == i;
  }

  /** A Task call and the result with the same id, present or missing, cancel out. */
  lemma TaskAndResultCancel(s: State, id: string, heading: string, content: string, isError: bool)
    requires Inv(s)
    ensures var s' := Next(Next(s, ToolUse(id, "Task", heading)), ToolResultEvent(id, content, isError));
            s'.stack == s.stack && s'.subagents == s.subagents
  {
    hide Inv, Decimal;
    NamedInv(s, s.toolNames);
    StacksMatch(s);
    var s1 := Next(s, ToolUse(id, "Task", heading));
    var trimmed := Trim(id);
    TrimTwice(id);
    assert s1.stack == s.stack + [if trimmed != "" then trimmed else SYNTHETIC + Decimal(|s.stack| + 1)];
    assert s1.subagents == s.subagents + [|s.segments|];
    if trimmed != "" {
      ResultCutsAtTopmost(s1, |s.stack|, id, content, isError);
    } else {
      assert SyntheticTop(s1);
    }
    assert s1.stack[..|s.stack|] == s.stack && s1.subagents[..|s.stack|] == s.subagents;
  }

  lemma StacksMatch(s: State)
    requires Inv(s)
    ensures |s.stack| == |s.subagents|
  {
  }

  // ---- The buffer object -----------------------------------------------------------

  class Buffer {
    var segments: seq<Segment>
    var openThinking: map<int, nat>
    var openText: map<int, nat>
    var openTools: set<int>
    var toolNames: map<string, string>
    const showToolResults: bool
    var stack: seq<string>
    var subagents: seq<nat>

    ghost function Current(): State
      reads this
    {
      State(segments, openThinking, openText, openTools, toolNames, showToolResults, stack, subagents)
    }

    constructor (showToolResults: bool)
      ensures Current() == Initial(showToolResults) && Inv(Current())
    {
      this.showToolResults := showToolResults;
      segments, openThinking, openText, openTools, toolNames := [], map[], map[], {}, map[];
      stack, subagents := [], [];
    }

    /** One event, as Next says. */
    method Apply(ev: Event)
      requires Inv(Current())
      modifies this
      ensures Current() == Next(old(Current()), ev) && Inv(Current())
    {
      NextKeepsInv(Current(), ev);
      if Speech(ev) {
        if |stack| == 0 {
          ApplySpeech(ev);
        }
      } else if ev.ToolUseStart? || ev.ToolUse? || ev.ToolResultEvent? || ev.ErrorEvent? {
        ApplyTool(ev);
      } else {
        match ev
        case ThinkingStop(index) => openThinking := openThinking - {index};
        case TextStop(index) => openText := openText - {index};
        case ToolUseStop(index) => openTools := openTools - {index};
        case BlockStop(index) => StopBlock(index);
        case _ =>
      }
    }

    method ApplySpeech(ev: Event)
      requires Inv(Current()) && Speech(ev) && |stack| == 0
      modifies this
      ensures Current() == Next(old(Current()), ev)
    {
      hide Inv;
      match ev
      case ThinkingStart(index) =>
        StopBlockFirst(index);
        AddThinking(index);
      case ThinkingDelta(index, text) => ThinkingText(index, text);
      case TextStart(index) =>
        StopBlockFirst(index);
        AddText(index);
      case TextDelta(index, text) => PlainText(index, text);
    }

    method ApplyTool(ev: Event)
      requires Inv(Current()) && (ev.ToolUseStart? || ev.ToolUse? || ev.ToolResultEvent? || ev.ErrorEvent?)
      modifies this
      ensures Current() == Next(old(Current()), ev)
    {
      hide Inv, OnToolUse, OnToolResult, OnToolUseStart;
      match ev
      case ToolUseStart(index, id, name, heading) => StartToolAt(index, id, name, heading);
      case ToolUse(id, name, heading) =>
        var subagent := StartTool(id, name, heading);
      case ToolResultEvent(id, content, isError) => FinishTool(id, content, isError);
      case ErrorEvent(message) =>
        segments := segments + [Error(if message != "" then message else "Unknown error")];
    }

    method StartToolAt(index: int, id: string, name: string, heading: string)
      requires Inv(Current())
      modifies this
      ensures Current() == OnToolUseStart(old(Current()), index, id, name, heading)
    {
      CloseBlockInv(Current(), index);
      hide Inv, OnToolUse, CloseIfIndexed;
      StopBlockFirst(index);
      var subagent := StartTool(id, name, heading);
      if !subagent && index >= 0 {
        openTools := openTools + {index};
      }
    }

    method StopBlockFirst(index: int)
      modifies this`openThinking, this`openText, this`openTools
      ensures Current() == CloseIfIndexed(old(Current()), index)
    {
      if index >= 0 {
        StopBlock(index);
      }
    }

    method StopBlock(index: int)
      modifies this`openThinking, this`openText, this`openTools
      ensures Current() == CloseBlock(old(Current()), index)
    {
      if index in openTools {
        openTools := openTools - {index};
      } else if index in openThinking {
        openThinking := openThinking - {index};
      } else if index in openText {
        openText := openText - {index};
      }
    }

    method AddThinking(index: int)
      modifies this`segments, this`openThinking
      ensures Current() == NewThinking(old(Current()), index)
    {
      if index >= 0 {
        openThinking := openThinking[index := |segments|];
      }
      segments := segments + [Thinking("")];
    }

    method AddText(index: int)
      modifies this`segments, this`openText
      ensures Current() == NewText(old(Current()), index)
    {
      if index >= 0 {
        openText := openText[index := |segments|];
      }
      segments := segments + [Text("")];
    }

    method ThinkingText(index: int, text: string)
      requires Inv(Current())
      modifies this`segments, this`openThinking
      ensures Current() == OnThinkingDelta(old(Current()), index, text)
    {
      var pos := |segments|;
      if index in openThinking {
        pos := openThinking[index];
      } else {
        AddThinking(index);
      }
      segments := segments[pos := Append(segments[pos], text)];
    }

    method PlainText(index: int, text: string)
      requires Inv(Current())
      modifies this`segments, this`openText
      ensures Current() == OnTextDelta(old(Current()), index, text)
    {
      var pos := |segments|;
      if index in openText {
        pos := openText[index];
      } else {
        AddText(index);
      }
      segments := segments[pos := Append(segments[pos], text)];
    }

    method StartTool(rawId: string, rawName: string, heading: string) returns (subagent: bool)
      requires Inv(Current())
      modifies this
      ensures Current() == OnToolUse(old(Current()), rawId, rawName, heading)
      ensures subagent <==> NonEmpty(rawName, "tool") == "Task"
    {
      var id := Trim(rawId);
      var name := if rawName != "" then rawName else "tool";
      hide Trim;
      if id != "" {
        toolNames := toolNames[id := name];
      }
      subagent := name == "Task";
      if subagent {
        SubagentPush(id, heading);
      } else if |stack| > 0 {
        // The stacks have equal length, so there is a parent segment.
        assert |subagents| > 0 && segments[subagents[|subagents| - 1]].Subagent?;
        var parent := subagents[|subagents| - 1];
        segments := segments[parent := WithTool(segments[parent], id, name)];
      } else {
        segments := segments + [ToolCall(id, name)];
      }
    }

    method SubagentPush(rawId: string, heading: string)
      modifies this`segments, this`stack, this`subagents
      ensures Current() == Push(old(Current()), rawId, heading)
    {
      var id := Trim(rawId);
      subagents := subagents + [|segments|];
      segments := segments + [Subagent(if heading != "" then heading else "Subagent", 0, {}, None)];
      stack := stack + [if id != "" then id else SYNTHETIC + Decimal(|stack| + 1)];
    }

    /** Pop to the topmost matching id; without an id, pop a synthetic top. */
    method SubagentPop(id: string) returns (popped: bool)
      requires |stack| == |subagents|
      modifies this`stack, this`subagents
      ensures popped <==> if id != "" then Topmost(old(stack), id) >= 0 else SyntheticTop(old(Current()))
      ensures Current() == CutTo(old(Current()),
                if !popped then |old(stack)| else if id != "" then Topmost(old(stack), id) else |old(stack)| - 1)
    {
      if |stack| == 0 {
        return false;
      }
      if id == "" {
        popped := SYNTHETIC <= stack[|stack| - 1];
        if popped {
          stack, subagents := stack[..|stack| - 1], subagents[..|subagents| - 1];
        }
        return;
      }
      var i := |stack| - 1;
      while i >= 0 && !RoughlyMatch(stack[i], id)
        invariant -1 <= i < |stack| && stack == old(stack) && subagents == old(subagents)
        invariant forall j :: i < j < |stack| ==> !RoughlyMatch(stack[j], id)
      {
        i := i - 1;
      }
      assert i == Topmost(stack, id);
      if i < 0 {
        return false;
      }
      while |stack| > i
        invariant i <= |stack| == |subagents| <= |old(stack)|
        invariant stack == old(stack)[..|stack|] && subagents == old(subagents)[..|subagents|]
        decreases |stack|
      {
        stack, subagents := stack[..|stack| - 1], subagents[..|subagents| - 1];
      }
      popped := true;
    }

    /** Close the subagent whose result this is, if any. A result whose id only
        looks like a Task id closes a synthetic top. */
    method CloseSubagent(id: string, name: Option<string>)
      requires |stack| == |subagents|
      requires name == if id in toolNames then Some(toolNames[id]) else None
      modifies this`stack, this`subagents
      ensures Current() == CutTo(old(Current()), DepthAfterResult(old(Current()), id))
    {
      hide Topmost, Contains, Lower;
      assert stack[..|stack|] == stack && subagents[..|subagents|] == subagents;
      if |stack| > 0 {
        var popped := SubagentPop(id);
        var top := if |stack| > 0 then stack[|stack| - 1] else "";
        if !popped && id != "" && SYNTHETIC <= top && (name == None || name == Some("Task")) && Contains(Lower(id), "task") {
          popped := SubagentPop("");
        }
      } else {
        assert Topmost([], id) == -1;
      }
    }

    method FinishTool(rawId: string, content: string, isError: bool)
      requires Inv(Current())
      modifies this`segments, this`stack, this`subagents
      ensures Current() == OnToolResult(old(Current()), rawId, content, isError)
    {
      hide DepthAfterResult;
      var id := Trim(rawId);
      hide Trim;
      StacksMatch(Current());
      var name := if id in toolNames then Some(toolNames[id]) else None;
      CloseSubagent(id, name);
      if showToolResults {
        segments := segments + [ToolResult(id, name, content, isError)];
      }
    }
  }
}
