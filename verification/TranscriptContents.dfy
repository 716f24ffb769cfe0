/** What a transcript's segments say, in terms of the events: which segments there
    are, in which order, and what each of them has gathered. */
module TranscriptContents {
  import opened Sequences
  import opened Strings
  import opened Wrappers
  import opened Transcript

  lemma AfterSnoc(s: State, events: seq<Event>, ev: Event)
    ensures After(s, events + [ev]) == Next(After(s, events), ev)
  {
    hide Next;
    assert (events + [ev])[..|events|] == events;
  }

  // ---- What a segment has gathered -------------------------------------------------------

  /** The segment that a delta's text goes into: the one open at its index, else a new
      one, and none at all inside a subagent. */
  function TextTarget(s: State, ev: Event): Option<nat> {
    if s.stack != [] then None
    else
      match ev
      case ThinkingDelta(index, _) => Some(if index in s.openThinking then s.openThinking[index] else |s.segments|)
      case TextDelta(index, _) => Some(if index in s.openText then s.openText[index] else |s.segments|)
      case _ => None
  }

  /** All text that went into segment p, in order of arrival. */
  function Received(showToolResults: bool, events: seq<Event>, p: nat): string {
    if events == [] then ""
    else
      var front, ev := events[..|events| - 1], events[|events| - 1];
      Received(showToolResults, front, p)
      + (if TextTarget(After(Initial(showToolResults), front), ev) == Some(p) then ev.text else "")
  }

  function ToolName(ev: Event): string
    requires IsCall(ev)
  {
    if ev.name == "" then "tool" else ev.name
  }

  /** The subagent that a tool call belongs to: the innermost one. A Task call makes its own. */
  function CallTarget(s: State, ev: Event): Option<nat> {
    if IsCall(ev) && ToolName(ev) != "Task" && s.subagents != [] then Some(s.subagents[|s.subagents| - 1]) else None
  }

  /** The calls made in the subagent at p, in order. */
  function CallsIn(showToolResults: bool, events: seq<Event>, p: nat): seq<(string, string)> {
    if events == [] then []
    else
      var front, ev := events[..|events| - 1], events[|events| - 1];
      CallsIn(showToolResults, front, p)
      + (if CallTarget(After(Initial(showToolResults), front), ev) == Some(p) then [(Trim(ev.id), ToolName(ev))] else [])
  }

  /** The segment holds just this text, or has seen just these calls. */
  ghost predicate Holds(seg: Segment, text: string, calls: seq<(string, string)>) {
    match seg
    case Thinking(t) => t == text
    case Text(t) => t == text
    case Subagent(_, n, used, current) =>
      && n == |calls|
      && (forall name :: name in used <==> exists i :: 0 <= i < |calls| && calls[i].1 == name)
      && current == (if calls == [] then None else Some(calls[|calls| - 1]))
    case _ => true
  }

  /** What an event adds to segment p. */
  function Adds(s: State, ev: Event, p: nat): (string, seq<(string, string)>) {
    (if TextTarget(s, ev) == Some(p) then ev.text else "",
     if CallTarget(s, ev) == Some(p) then [(Trim(ev.id), ToolName(ev))] else [])
  }

  /** The segment at p before the event, or the blank one that the event puts there. */
  function Before(s: State, s': State, p: nat): Segment
    requires p < |s'.segments|
  {
    if p < |s.segments| then s.segments[p]
    else
      match s'.segments[p]
      case Thinking(_) => Thinking("")
      case Text(_) => Text("")
      case Subagent(d, _, _, _) => Subagent(d, 0, {}, None)
      case seg => seg
  }

  /** A segment with more text or one more call. */
  ghost predicate Extends(a: Segment, b: Segment, text: string, calls: seq<(string, string)>) {
    match (a, b)
    case (Thinking(t), Thinking(u)) => u == t + text
    case (Text(t), Text(u)) => u == t + text
    case (Subagent(_, n, used, current), Subagent(_, m, used', current')) =>
      if calls == [] then m == n && used' == used && current' == current
      else m == n + 1 && used' == used + {calls[0].1} && current' == Some(calls[0])
    case _ => SameKind(a, b)
  }

  lemma Unextended(seg: Segment)
    ensures Extends(seg, seg, "", [])
  {
    if seg.Thinking? || seg.Text? {
      assert seg.text + "" == seg.text;
    }
  }

  lemma CloseKeeps(s: State, index: int)
    ensures var s' := CloseIfIndexed(s, index);
            s'.segments == s.segments && s'.stack == s.stack && s'.subagents == s.subagents && s'.toolNames == s.toolNames
            && s'.showToolResults == s.showToolResults
  {
  }

  /** The segments after thinking or text outside a subagent. */
  lemma StartSegments(s: State, ev: Event)
    requires s.stack == [] && (ev.ThinkingStart? || ev.TextStart?)
    ensures Next(s, ev).segments == s.segments + [if ev.ThinkingStart? then Thinking("") else Text("")]
  {
    CloseKeeps(s, ev.index);
    hide CloseIfIndexed;
  }

  lemma DeltaSegments(s: State, ev: Event)
    requires Inv(s) && s.stack == [] && (ev.ThinkingDelta? || ev.TextDelta?)
    ensures var q := TextTarget(s, ev).value;
            if q < |s.segments|
            then (if ev.ThinkingDelta? then s.segments[q].Thinking? else s.segments[q].Text?)
                 && Next(s, ev).segments == s.segments[q := Append(s.segments[q], ev.text)]
            else q == |s.segments|
                 && Next(s, ev).segments
                    == s.segments + [Append(if ev.ThinkingDelta? then Thinking("") else Text(""), ev.text)]
  {
    hide Append;
    var blank := if ev.ThinkingDelta? then Thinking("") else Text("");
    var segments := s.segments + [blank];
    assert segments[|s.segments| := Append(blank, ev.text)] == s.segments + [Append(blank, ev.text)];
    match ev
    case ThinkingDelta(index, text) => assert index in s.openThinking ==> s.segments[s.openThinking[index]].Thinking?;
    case TextDelta(index, text) => assert index in s.openText ==> s.segments[s.openText[index]].Text?;
  }

  lemma SpeechExtends(s: State, ev: Event, p: nat)
    requires Inv(s) && Speech(ev) && s.stack == [] && p < |Next(s, ev).segments|
    ensures Extends(Before(s, Next(s, ev), p), Next(s, ev).segments[p], Adds(s, ev, p).0, Adds(s, ev, p).1)
  {
    assert CallTarget(s, ev) == None;
    if ev.ThinkingStart? || ev.TextStart? {
      StartSegments(s, ev);
      assert TextTarget(s, ev) == None;
      hide Inv, Next, Extends, TextTarget;
      Unextended(Next(s, ev).segments[p]);
    } else {
      DeltaSegments(s, ev);
      var q := TextTarget(s, ev).value;
      hide Inv, Next, Extends, TextTarget, Append;
      if p == q {
        var blank := if ev.ThinkingDelta? then Thinking("") else Text("");
        DeltaExtends(if q < |s.segments| then s.segments[q] else blank, ev.text);
        AppendKeepsKind(blank, ev.text);
      } else {
        Unextended(s.segments[p]);
      }
    }
  }

  lemma AppendKeepsKind(seg: Segment, text: string)
    ensures Append(seg, text).Thinking? <==> seg.Thinking?
    ensures Append(seg, text).Text? <==> seg.Text?
  {
  }

  lemma DeltaExtends(seg: Segment, text: string)
    requires seg.Thinking? || seg.Text?
    ensures Extends(seg, Append(seg, text), text, [])
  {
  }

  /** What a tool call makes of the segments. */
  ghost predicate Shown(before: seq<Segment>, after: seq<Segment>, subagents: seq<nat>, id: string, name: string, heading: string) {
    if name == "Task" then after == before + [Subagent(if heading == "" then "Subagent" else heading, 0, {}, None)]
    else if subagents == [] then after == before + [ToolCall(id, name)]
    else
      var q := subagents[|subagents| - 1];
      q < |before| && before[q].Subagent? && after == before[q := WithTool(before[q], id, name)]
  }

  lemma UseToolShown(s: State, id: string, name: string, heading: string)
    requires Inv(s)
    ensures Shown(s.segments, UseTool(s, id, name, heading).segments, s.subagents, id, name, heading)
  {
    StacksMatch(s);
    hide Trim, Decimal, WithTool;
  }

  lemma OnToolUseShown(s: State, id: string, name: string, heading: string)
    requires Inv(s)
    ensures Shown(s.segments, OnToolUse(s, id, name, heading).segments, s.subagents, Trim(id), NonEmpty(name, "tool"), heading)
  {
    hide Inv, UseTool, Trim, Shown;
    var id', name' := Trim(id), NonEmpty(name, "tool");
    NamedInv(s, Remember(s, id', name').toolNames);
    UseToolShown(Remember(s, id', name'), id', name', heading);
  }

  /** The segments after a tool call. */
  lemma CallSegments(s: State, ev: Event)
    requires Inv(s) && IsCall(ev)
    ensures Shown(s.segments, Next(s, ev).segments, s.subagents, Trim(ev.id), ToolName(ev), ev.heading)
  {
    hide Inv, OnToolUse, Trim, Shown, CloseIfIndexed;
    if ev.ToolUseStart? {
      CloseBlockInv(s, ev.index);
      CloseKeeps(s, ev.index);
      OnToolUseShown(CloseIfIndexed(s, ev.index), ev.id, ev.name, ev.heading);
    } else {
      OnToolUseShown(s, ev.id, ev.name, ev.heading);
    }
  }

  lemma WithToolExtends(seg: Segment, id: string, name: string)
    requires seg.Subagent?
    ensures Extends(seg, WithTool(seg, id, name), "", [(id, name)])
  {
  }

  lemma CallExtends(s: State, ev: Event, p: nat)
    requires Inv(s) && IsCall(ev) && p < |Next(s, ev).segments|
    ensures Extends(Before(s, Next(s, ev), p), Next(s, ev).segments[p], Adds(s, ev, p).0, Adds(s, ev, p).1)
  {
    CallSegments(s, ev);
    StacksMatch(s);
    hide Inv, Next, Extends, WithTool, Trim;
    Unextended(Next(s, ev).segments[p]);
    if CallTarget(s, ev) == Some(p) {
      WithToolExtends(s.segments[p], Trim(ev.id), ToolName(ev));
    }
  }

  lemma OthersExtend(s: State, ev: Event, p: nat)
    requires Inv(s) && !IsCall(ev) && (!Speech(ev) || s.stack != []) && p < |Next(s, ev).segments|
    ensures Extends(Before(s, Next(s, ev), p), Next(s, ev).segments[p], Adds(s, ev, p).0, Adds(s, ev, p).1)
  {
    var s' := Next(s, ev);
    hide Inv, Trim, DepthAfterResult, CloseBlock;
    if ev.BlockStop? {
      CloseBlockInv(s, ev.index);
    }
    Unextended(s'.segments[p]);
    assert s.segments <= s'.segments;
    assert TextTarget(s, ev) == None;
    hide Next, Extends;
  }

  lemma NextExtends(s: State, ev: Event, p: nat)
    requires Inv(s) && p < |Next(s, ev).segments|
    ensures Extends(Before(s, Next(s, ev), p), Next(s, ev).segments[p], Adds(s, ev, p).0, Adds(s, ev, p).1)
  {
    hide *;
    if IsCall(ev) {
      CallExtends(s, ev, p);
    } else if Speech(ev) && s.stack == [] {
      SpeechExtends(s, ev, p);
    } else {
      OthersExtend(s, ev, p);
    }
  }

  lemma ExtendsHolds(a: Segment, b: Segment, text: string, calls: seq<(string, string)>, more: string, call: seq<(string, string)>)
    requires Holds(a, text, calls) && Extends(a, b, more, call) && |call| <= 1 && SameKind(a, b)
    ensures Holds(b, text + more, calls + call)
  {
    if a.Subagent? && call != [] {
      var all := calls + call;
      forall name
        ensures name in b.toolsUsed <==> exists i :: 0 <= i < |all| && all[i].1 == name
      {
        if i :| 0 <= i < |calls| && calls[i].1 == name {
          assert all[i].1 == name;
        }
        assert all[|calls|] == call[0];
      }
    } else if a.Subagent? {
      assert calls + call == calls;
    }
  }

  /** Nothing has been put into a segment that is not there yet. */
  lemma {:induction false} NothingBeyond(showToolResults: bool, events: seq<Event>, p: nat)
    requires p >= |After(Initial(showToolResults), events).segments|
    ensures Received(showToolResults, events, p) == "" && CallsIn(showToolResults, events, p) == []
  {
    if events != [] {
      var front, ev := events[..|events| - 1], events[|events| - 1];
      var s := After(Initial(showToolResults), front);
      AfterKeepsInv(showToolResults, front);
      NextKeepsInv(s, ev);
      StacksMatch(s);
      assert p >= |s.segments|;
      NothingBeyond(showToolResults, front, p);
      TargetsExist(s, ev, p);
      hide Next, Inv, TextTarget, CallTarget;
    }
  }

  lemma TargetsExist(s: State, ev: Event, p: nat)
    requires Inv(s) && p >= |Next(s, ev).segments|
    ensures TextTarget(s, ev) != Some(p) && CallTarget(s, ev) != Some(p)
  {
    NextKeepsInv(s, ev);
    if s.stack == [] && (ev.ThinkingDelta? || ev.TextDelta?) {
      DeltaSegments(s, ev);
    }
    hide Next;
  }

  /** Over every event sequence: a thinking or text segment's text is that of the deltas
      that reached it, in order of arrival; and a subagent shows how many calls were made
      in it, with which tools, and the last one. */
  lemma {:induction false} SegmentsHold(showToolResults: bool, events: seq<Event>, p: nat)
    requires p < |After(Initial(showToolResults), events).segments|
    ensures Holds(After(Initial(showToolResults), events).segments[p],
                  Received(showToolResults, events, p), CallsIn(showToolResults, events, p))
  {
    assert events != [];
    hide *;
    var front, ev := events[..|events| - 1], events[|events| - 1];
    var s := After(Initial(showToolResults), front);
    SplitLast(events);
    AfterSnoc(Initial(showToolResults), front, ev);
    AfterKeepsInv(showToolResults, front);
    GatheredSnoc(showToolResults, front, ev, p);
    if p < |s.segments| {
      SegmentsHold(showToolResults, front, p);
    } else {
      NothingBeyond(showToolResults, front, p);
    }
    NextHolds(s, ev, p, Received(showToolResults, front, p), CallsIn(showToolResults, front, p));
  }

  lemma GatheredSnoc(showToolResults: bool, front: seq<Event>, ev: Event, p: nat)
    ensures var (more, call) := Adds(After(Initial(showToolResults), front), ev, p);
            && Received(showToolResults, front + [ev], p) == Received(showToolResults, front, p) + more
            && CallsIn(showToolResults, front + [ev], p) == CallsIn(showToolResults, front, p) + call
  {
    hide After, Trim;
    assert (front + [ev])[..|front|] == front;
  }

  /** One event more at segment p. */
  lemma NextHolds(s: State, ev: Event, p: nat, text: string, calls: seq<(string, string)>)
    requires Inv(s) && p < |Next(s, ev).segments|
    requires if p < |s.segments| then Holds(s.segments[p], text, calls) else text == "" && calls == []
    ensures Holds(Next(s, ev).segments[p], text + Adds(s, ev, p).0, calls + Adds(s, ev, p).1)
  {
    hide *;
    NextKeepsInv(s, ev);
    NextExtends(s, ev, p);
    BeforeHolds(s, Next(s, ev), p, text, calls);
    BeforeKind(s, Next(s, ev), p);
    OneAtMost(s, ev, p);
    ExtendsHolds(Before(s, Next(s, ev), p), Next(s, ev).segments[p], text, calls, Adds(s, ev, p).0, Adds(s, ev, p).1);
  }

  lemma BeforeHolds(s: State, s': State, p: nat, text: string, calls: seq<(string, string)>)
    requires p < |s'.segments|
    requires if p < |s.segments| then Holds(s.segments[p], text, calls) else text == "" && calls == []
    ensures Holds(Before(s, s', p), text, calls)
  {
  }

  lemma BeforeKind(s: State, s': State, p: nat)
    requires p < |s'.segments| && Grows(s.segments, s'.segments)
    ensures SameKind(Before(s, s', p), s'.segments[p])
  {
  }

  lemma OneAtMost(s: State, ev: Event, p: nat)
    ensures |Adds(s, ev, p).1| <= 1
  {
    hide TextTarget, CallTarget, Trim;
  }

  // ---- One block --------------------------------------------------------------------------

  function Deltas(index: int, texts: seq<string>, thinking: bool): (evs: seq<Event>)
    ensures |evs| == |texts|
    ensures forall i :: 0 <= i < |texts| ==> evs[i] == if thinking then ThinkingDelta(index, texts[i]) else TextDelta(index, texts[i])
  {
    seq(|texts|, i requires 0 <= i < |texts| => if thinking then ThinkingDelta(index, texts[i]) else TextDelta(index, texts[i]))
  }

  function Concatenated(texts: seq<string>): string {
    if texts == [] then "" else texts[0] + Concatenated(texts[1..])
  }

  lemma {:induction false} ConcatenatedSnoc(texts: seq<string>, t: string)
    ensures Concatenated(texts + [t]) == Concatenated(texts) + t
  {
    if texts == [] {
      assert [t][1..] == [] && "" + t == t;
    } else {
      ConcatenatedSnoc(texts[1..], t);
      assert (texts + [t])[1..] == texts[1..] + [t];
      assert (texts + [t])[0] == texts[0];
      assert (texts[0] + Concatenated(texts[1..])) + t == texts[0] + (Concatenated(texts[1..]) + t);
    }
  }

  function Block(text: string, thinking: bool): Segment {
    if thinking then Thinking(text) else Text(text)
  }

  /** The only open block of its kind at an index is segment p, and it holds `text`. */
  ghost predicate OpenAt(s: State, index: int, p: nat, text: string, thinking: bool) {
    var open := if thinking then s.openThinking else s.openText;
    s.stack == [] && index in open && open[index] == p < |s.segments| && s.segments[p] == Block(text, thinking)
  }

  lemma DeltaAt(s: State, index: int, p: nat, before: string, text: string, thinking: bool)
    requires OpenAt(s, index, p, before, thinking)
    ensures var s' := Next(s, if thinking then ThinkingDelta(index, text) else TextDelta(index, text));
            OpenAt(s', index, p, before + text, thinking) && s'.segments == s.segments[p := Block(before + text, thinking)]
  {
  }

  /** Deltas at the index of an open block, in order, are its text continued. */
  lemma {:induction false} DeltasAt(s: State, index: int, p: nat, before: string, texts: seq<string>, thinking: bool)
    requires OpenAt(s, index, p, before, thinking)
    ensures var s' := After(s, Deltas(index, texts, thinking));
            && OpenAt(s', index, p, before + Concatenated(texts), thinking)
            && s'.segments == s.segments[p := Block(before + Concatenated(texts), thinking)]
  {
    if texts == [] {
      assert before + "" == before;
    } else {
      hide *;
      var front, t := texts[..|texts| - 1], texts[|texts| - 1];
      DeltasAt(s, index, p, before, front, thinking);
      DeltasSnoc(s, index, front, t, thinking);
      DeltaAt(After(s, Deltas(index, front, thinking)), index, p, before + Concatenated(front), t, thinking);
      ConcatenatedSnoc(front, t);
      SplitLast(texts);
      ConcatAssociative(before, Concatenated(front), t);
      OpenHere(s, index, p, before, thinking);
      UpdateTwice(s.segments, p, Block(before + Concatenated(front), thinking), Block(before + Concatenated(texts), thinking));
    }
  }

  lemma OpenHere(s: State, index: int, p: nat, text: string, thinking: bool)
    requires OpenAt(s, index, p, text, thinking)
    ensures p < |s.segments|
  {
  }

  lemma UpdateTwice(segments: seq<Segment>, p: nat, a: Segment, b: Segment)
    requires p < |segments|
    ensures segments[p := a][p := b] == segments[p := b]
  {
  }

  lemma DeltasSnoc(s: State, index: int, texts: seq<string>, t: string, thinking: bool)
    ensures After(s, Deltas(index, texts + [t], thinking))
         == Next(After(s, Deltas(index, texts, thinking)), if thinking then ThinkingDelta(index, t) else TextDelta(index, t))
  {
    hide Next, After;
    var last := if thinking then ThinkingDelta(index, t) else TextDelta(index, t);
    assert Deltas(index, texts + [t], thinking) == Deltas(index, texts, thinking) + [last];
    AfterSnoc(s, Deltas(index, texts, thinking), last);
  }

  /** A block started outside a subagent and any deltas at its index, on whatever
      transcript: one new segment at the end, with the deltas' texts in order. */
  lemma BlockIsOneSegment(s: State, index: nat, texts: seq<string>, thinking: bool)
    requires s.stack == []
    ensures After(s, [if thinking then ThinkingStart(index) else TextStart(index)] + Deltas(index, texts, thinking)).segments
         == s.segments + [Block(Concatenated(texts), thinking)]
  {
    hide *;
    var start := if thinking then ThinkingStart(index) else TextStart(index);
    AfterConcat(s, [start], Deltas(index, texts, thinking));
    Started(s, index, thinking);
    DeltasAt(After(s, [start]), index, |s.segments|, "", texts, thinking);
    assert "" + Concatenated(texts) == Concatenated(texts);
    UpdateLast(s.segments, Block("", thinking), Block(Concatenated(texts), thinking));
  }

  lemma UpdateLast(segments: seq<Segment>, a: Segment, b: Segment)
    ensures (segments + [a])[|segments| := b] == segments + [b]
  {
  }

  lemma Started(s: State, index: nat, thinking: bool)
    requires s.stack == []
    ensures var s' := After(s, [if thinking then ThinkingStart(index) else TextStart(index)]);
            s'.segments == s.segments + [Block("", thinking)] && OpenAt(s', index, |s.segments|, "", thinking)
  {
    var start := if thinking then ThinkingStart(index) else TextStart(index);
    AfterSnoc(s, [], start);
    assert [] + [start] == [start] && After(s, []) == s;
    CloseKeeps(s, index);
    hide CloseIfIndexed, After;
  }

  lemma {:induction false} AfterConcat(s: State, a: seq<Event>, b: seq<Event>)
    ensures After(s, a + b) == After(After(s, a), b)
  {
    if b == [] {
      assert a + b == a;
    } else {
      hide Next;
      AfterConcat(s, a, b[..|b| - 1]);
      assert (a + b)[..|a + b| - 1] == a + b[..|b| - 1];
    }
  }

  // ---- Which segments there are --------------------------------------------------------------

  /** What stays the same about a segment. */
  datatype Mark =
    | ThinkingMark
    | TextMark
    | CallMark(id: string, name: string)
    | ResultMark(id: string, toolName: Option<string>, content: string, isError: bool)
    | SubagentMark(heading: string)
    | ErrorMark(message: string)

  function MarkOf(seg: Segment): Mark {
    match seg
    case Thinking(_) => ThinkingMark
    case Text(_) => TextMark
    case ToolCall(id, name) => CallMark(id, name)
    case ToolResult(id, name, content, isError) => ResultMark(id, name, content, isError)
    case Subagent(heading, _, _, _) => SubagentMark(heading)
    case Error(message) => ErrorMark(message)
  }

  function Marks(segments: seq<Segment>): (r: seq<Mark>)
    ensures |r| == |segments| && forall i :: 0 <= i < |r| ==> r[i] == MarkOf(segments[i])
  {
    seq(|segments|, i requires 0 <= i < |segments| => MarkOf(segments[i]))
  }

  /** The name that the last tool call with this id gave. */
  function LastName(events: seq<Event>, id: string): Option<string> {
    if events == [] then None
    else
      var ev := events[|events| - 1];
      if IsCall(ev) && Trim(ev.id) == id != "" then Some(ToolName(ev)) else LastName(events[..|events| - 1], id)
  }

  /** What the last event shows: thinking and text where none is open, the call of a tool
      outside subagents, a subagent for a Task, results when they are wanted, errors. */
  function Announced(s: State, front: seq<Event>, ev: Event): seq<Mark> {
    match ev
    case ThinkingStart(_) => if s.stack == [] then [ThinkingMark] else []
    case ThinkingDelta(index, _) => if s.stack == [] && index !in s.openThinking then [ThinkingMark] else []
    case TextStart(_) => if s.stack == [] then [TextMark] else []
    case TextDelta(index, _) => if s.stack == [] && index !in s.openText then [TextMark] else []
    case ToolUseStart(_, id, _, heading) => CallMarks(s, ToolName(ev), Trim(id), heading)
    case ToolUse(id, _, heading) => CallMarks(s, ToolName(ev), Trim(id), heading)
    case ToolResultEvent(id, content, isError) =>
      if s.showToolResults then [ResultMark(Trim(id), LastName(front, Trim(id)), content, isError)] else []
    case ErrorEvent(message) => [ErrorMark(if message == "" then "Unknown error" else message)]
    case _ => []
  }

  function CallMarks(s: State, name: string, id: string, heading: string): seq<Mark> {
    if name == "Task" then [SubagentMark(if heading == "" then "Subagent" else heading)]
    else if s.stack == [] then [CallMark(id, name)]
    else []
  }

  function AllAnnounced(showToolResults: bool, events: seq<Event>): seq<Mark> {
    if events == [] then []
    else
      var front := events[..|events| - 1];
      AllAnnounced(showToolResults, front) + Announced(After(Initial(showToolResults), front), front, events[|events| - 1])
  }

  ghost predicate NamesOf(s: State, events: seq<Event>) {
    forall id :: (if id in s.toolNames then Some(s.toolNames[id]) else None) == LastName(events, id)
  }

  lemma CallNames(s: State, ev: Event)
    requires IsCall(ev)
    ensures Next(s, ev).toolNames == if Trim(ev.id) != "" then s.toolNames[Trim(ev.id) := ToolName(ev)] else s.toolNames
    ensures Next(s, ev).showToolResults == s.showToolResults
  {
    hide Trim, OnToolUse, CloseIfIndexed;
    if ev.ToolUseStart? {
      CloseKeeps(s, ev.index);
      OnToolUseNames(CloseIfIndexed(s, ev.index), ev.id, ev.name, ev.heading);
    } else {
      OnToolUseNames(s, ev.id, ev.name, ev.heading);
    }
  }

  /** A tool call's effect on what is remembered and open. */
  lemma UseToolKeeps(s: State, id: string, name: string, heading: string)
    ensures var s' := UseTool(s, id, name, heading);
            && s'.toolNames == s.toolNames && s'.showToolResults == s.showToolResults
            && s'.openThinking == s.openThinking && s'.openText == s.openText && s'.openTools == s.openTools
  {
    hide Trim, Decimal, WithTool, NonEmpty;
  }

  lemma OnToolUseNames(s: State, id: string, name: string, heading: string)
    ensures var s' := OnToolUse(s, id, name, heading);
            && s'.toolNames == (if Trim(id) != "" then s.toolNames[Trim(id) := NonEmpty(name, "tool")] else s.toolNames)
            && s'.showToolResults == s.showToolResults
  {
    hide Trim, UseTool;
    UseToolKeeps(Remember(s, Trim(id), NonEmpty(name, "tool")), Trim(id), NonEmpty(name, "tool"), heading);
  }

  lemma OtherNames(s: State, ev: Event)
    requires !IsCall(ev)
    ensures Next(s, ev).toolNames == s.toolNames && Next(s, ev).showToolResults == s.showToolResults
  {
    hide Trim, DepthAfterResult;
  }

  /** The buffer remembers for each id the name its last call gave. */
  lemma {:induction false} NamesAreLatest(showToolResults: bool, events: seq<Event>)
    ensures NamesOf(After(Initial(showToolResults), events), events)
    ensures After(Initial(showToolResults), events).showToolResults == showToolResults
  {
    if events != [] {
      var front, ev := events[..|events| - 1], events[|events| - 1];
      NamesAreLatest(showToolResults, front);
      var s := After(Initial(showToolResults), front);
      if IsCall(ev) {
        CallNames(s, ev);
      } else {
        OtherNames(s, ev);
      }
      hide Next, Trim;
    }
  }

  /** New segments come last, and the others keep their marks. */
  lemma MarksGrow(before: seq<Segment>, after: seq<Segment>, more: seq<Mark>)
    requires Grows(before, after) && |after| == |before| + |more|
    requires forall i :: 0 <= i < |more| ==> MarkOf(after[|before| + i]) == more[i]
    ensures Marks(after) == Marks(before) + more
  {
    forall i | 0 <= i < |before|
      ensures MarkOf(after[i]) == MarkOf(before[i])
    {
      assert SameKind(before[i], after[i]);
    }
  }

  lemma SpeechMarks(s: State, front: seq<Event>, ev: Event)
    requires Inv(s) && Speech(ev)
    ensures var s' := Next(s, ev); var more := Announced(s, front, ev);
            |s'.segments| == |s.segments| + |more|
            && forall i :: 0 <= i < |more| ==> MarkOf(s'.segments[|s.segments| + i]) == more[i]
  {
    if s.stack == [] {
      if ev.ThinkingStart? || ev.TextStart? {
        StartSegments(s, ev);
      } else {
        DeltaSegments(s, ev);
        AppendKeepsKind(Thinking(""), ev.text);
        AppendKeepsKind(Text(""), ev.text);
        assert Inv(s) && TextTarget(s, ev).Some?;
        TargetIsOpen(s, ev);
      }
      hide Inv, Next, Append;
    }
  }

  lemma TargetIsOpen(s: State, ev: Event)
    requires Inv(s) && s.stack == [] && (ev.ThinkingDelta? || ev.TextDelta?)
    ensures TextTarget(s, ev).value < |s.segments| <==> (if ev.ThinkingDelta? then ev.index in s.openThinking else ev.index in s.openText)
  {
  }

  lemma CallAnnounced(s: State, front: seq<Event>, ev: Event)
    requires Inv(s) && IsCall(ev)
    ensures var s' := Next(s, ev); var more := Announced(s, front, ev);
            |s'.segments| == |s.segments| + |more|
            && forall i :: 0 <= i < |more| ==> MarkOf(s'.segments[|s.segments| + i]) == more[i]
  {
    CallSegments(s, ev);
    StacksMatch(s);
    hide Inv, Next, Trim, WithTool;
  }

  lemma OtherMarks(s: State, front: seq<Event>, ev: Event)
    requires Inv(s) && NamesOf(s, front) && !IsCall(ev) && !Speech(ev)
    ensures var s' := Next(s, ev); var more := Announced(s, front, ev);
            |s'.segments| == |s.segments| + |more|
            && forall i :: 0 <= i < |more| ==> MarkOf(s'.segments[|s.segments| + i]) == more[i]
  {
    hide Inv, Trim, DepthAfterResult, CloseBlock, LastName;
    if ev.BlockStop? {
      CloseBlockInv(s, ev.index);
    }
  }

  /** Over every event sequence: the segments are, in order, those that the events
      announced, with their ids, names, contents and headings. */
  lemma {:induction false} SegmentsAreAnnounced(showToolResults: bool, events: seq<Event>)
    ensures Marks(After(Initial(showToolResults), events).segments) == AllAnnounced(showToolResults, events)
  {
    if events != [] {
      hide *;
      var front, ev := events[..|events| - 1], events[|events| - 1];
      SegmentsAreAnnounced(showToolResults, front);
      NamesAreLatest(showToolResults, front);
      AfterKeepsInv(showToolResults, front);
      SplitLast(events);
      AfterSnoc(Initial(showToolResults), front, ev);
      AnnouncedSnoc(showToolResults, front, ev);
      NextMarks(After(Initial(showToolResults), front), front, ev);
    } else {
      assert Marks([]) == [];
    }
  }

  lemma AnnouncedSnoc(showToolResults: bool, front: seq<Event>, ev: Event)
    ensures AllAnnounced(showToolResults, front + [ev])
         == AllAnnounced(showToolResults, front) + Announced(After(Initial(showToolResults), front), front, ev)
  {
    hide After, Announced;
    assert (front + [ev])[..|front|] == front;
  }

  lemma NextMarks(s: State, front: seq<Event>, ev: Event)
    requires Inv(s) && NamesOf(s, front)
    ensures Marks(Next(s, ev).segments) == Marks(s.segments) + Announced(s, front, ev)
  {
    hide *;
    NextKeepsInv(s, ev);
    if Speech(ev) {
      SpeechMarks(s, front, ev);
    } else if IsCall(ev) {
      CallAnnounced(s, front, ev);
    } else {
      OtherMarks(s, front, ev);
    }
    MarksGrow(s.segments, Next(s, ev).segments, Announced(s, front, ev));
  }

  // ---- Closing ----------------------------------------------------------------------------------

  /** A stop closes one block at its index: the tool's if one is open, else the thinking,
      else the text. */
  lemma StopClosesOne(s: State, index: int)
    ensures var s' := Next(s, BlockStop(index));
            && (s'.openTools == if index in s.openTools then s.openTools - {index} else s.openTools)
            && (s'.openThinking == if index !in s.openTools then s.openThinking - {index} else s.openThinking)
            && (s'.openText == if index !in s.openTools && index !in s.openThinking then s.openText - {index} else s.openText)
            && s'.segments == s.segments && s'.stack == s.stack
  {
    hide NewThinking, NewText, OnThinkingDelta, OnTextDelta, OnToolUseStart, OnToolUse, OnToolResult;
    assert Next(s, BlockStop(index)) == CloseBlock(s, index);
    hide Next;
  }

  /** A start at an index first stops one block there, and a tool's stays open until its stop. */
  lemma StartStopsFirst(s: State, index: nat)
    requires s.stack == []
    ensures var (stopped, thinking, text) := (Next(s, BlockStop(index)), Next(s, ThinkingStart(index)), Next(s, TextStart(index)));
            && thinking.openText == stopped.openText && thinking.openTools == stopped.openTools
            && thinking.openThinking == stopped.openThinking[index := |s.segments|]
            && text.openThinking == stopped.openThinking && text.openTools == stopped.openTools
            && text.openText == stopped.openText[index := |s.segments|]
  {
    hide OnThinkingDelta, OnTextDelta, OnToolUseStart, OnToolUse, OnToolResult;
    CloseKeeps(s, index);
    hide CloseBlock;
  }

  lemma ToolStartOpens(s: State, index: nat, id: string, name: string, heading: string)
    ensures var (stopped, s') := (Next(s, BlockStop(index)), Next(s, ToolUseStart(index, id, name, heading)));
            && s'.openThinking == stopped.openThinking && s'.openText == stopped.openText
            && s'.openTools == if name == "Task" then stopped.openTools else stopped.openTools + {index}
  {
    OnToolUseOpens(CloseBlock(s, index), id, name, heading);
    hide NewThinking, NewText, OnThinkingDelta, OnTextDelta, OnToolUse, OnToolResult, CloseBlock;
  }

  lemma OnToolUseOpens(s: State, id: string, name: string, heading: string)
    ensures var s' := OnToolUse(s, id, name, heading);
            s'.openThinking == s.openThinking && s'.openText == s.openText && s'.openTools == s.openTools
  {
    hide Trim, UseTool;
    UseToolKeeps(Remember(s, Trim(id), NonEmpty(name, "tool")), Trim(id), NonEmpty(name, "tool"), heading);
  }

  /** After its stop, a block's index begins a new segment. */
  lemma StopEndsBlock(s: State, index: int, text: string, thinking: bool)
    requires s.stack == []
    ensures var stop, delta := if thinking then ThinkingStop(index) else TextStop(index),
                               if thinking then ThinkingDelta(index, text) else TextDelta(index, text);
            Next(Next(s, stop), delta).segments == s.segments + [Block(text, thinking)]
  {
    assert "" + text == text;
    var blank := Block("", thinking);
    assert (s.segments + [blank])[|s.segments| := Block(text, thinking)] == s.segments + [Block(text, thinking)];
  }

  /** After its stop, a tool no longer stands before thinking or text at its index. */
  lemma ToolStopCloses(s: State, index: int)
    ensures Next(s, ToolUseStop(index)).openTools == s.openTools - {index}
    ensures index in s.openTools ==> Next(s, BlockStop(index)) == Next(s, ToolUseStop(index))
  {
    hide NewThinking, NewText, OnThinkingDelta, OnTextDelta, OnToolUseStart, OnToolUse, OnToolResult;
  }

  /** A Task call puts its id on the stack, or without one the next number. */
  lemma TaskIsPushed(s: State, id: string, heading: string) returns (number: string)
    ensures var s' := Next(s, ToolUse(id, "Task", heading));
            && s'.stack == s.stack + [if Trim(id) != "" then Trim(id) else "__task_" + number]
            && s'.subagents == s.subagents + [|s.segments|]
    ensures Value(number) == |s.stack| + 1
  {
    number := Decimal(|s.stack| + 1);
    DecimalValue(|s.stack| + 1);
    TrimTwice(id);
    hide Trim, Decimal, Value;
  }

  /** A result whose id matches nothing on the stack closes at most a Task call that had
      no id, and it does so exactly when the result has no id either, or an id that
      contains "task" in any case and that no other tool has used. */
  lemma UnmatchedResult(s: State, id: string, content: string, isError: bool)
    requires |s.stack| == |s.subagents|
    requires forall i :: 0 <= i < |s.stack| ==> !RoughlyMatch(s.stack[i], Trim(id))
    ensures var s', t := Next(s, ToolResultEvent(id, content, isError)), Trim(id);
            var closes := s.stack != [] && SYNTHETIC <= s.stack[|s.stack| - 1]
                          && (t == "" || ((t in s.toolNames ==> s.toolNames[t] == "Task")
                                          && exists i :: 0 <= i <= |t| && "task" <= Lower(t)[i..]));
            if closes then s'.stack == s.stack[..|s.stack| - 1] && s'.subagents == s.subagents[..|s.stack| - 1]
            else s'.stack == s.stack && s'.subagents == s.subagents
  {
    var t := Trim(id);
    ContainsIff(Lower(t), "task");
    ResultCuts(s, id, content, isError);
    assert Topmost(s.stack, t) == -1 by {
      hide RoughlyMatch;
    }
    hide Next, Trim, Lower, Contains, RoughlyMatch, Topmost;
    assert s.stack[..|s.stack|] == s.stack && s.subagents[..|s.stack|] == s.subagents;
  }

  lemma ResultCuts(s: State, id: string, content: string, isError: bool)
    ensures var s', cut := Next(s, ToolResultEvent(id, content, isError)), CutTo(s, DepthAfterResult(s, Trim(id)));
            s'.stack == cut.stack && s'.subagents == cut.subagents
  {
    hide DepthAfterResult, CutTo, Trim;
  }
}
