/** What the converter's output looks like over a whole stream: when the event
    sequence is well formed, and when the client accumulates the same answer
    as the non-streaming conversion gives. */
module StreamTrace {
  import opened Sequences
  import opened AnthropicTypes
  import opened Wrappers
  import opened StreamConverter
  import opened StreamClient
  import opened StreamInput

  /** Everything the converter sends for a stream. */
  function Output(c: Config, chunks: seq<Chunk>): seq<Event> {
    Run(c, FRESH, AllItems(chunks)).1
  }

  /** Feeding the chunks one by one to a new converter sends exactly Output. */
  method ConvertStream(c: Config, chunks: seq<Chunk>) returns (events: seq<Event>)
    ensures events == Output(c, chunks)
  {
    var converter := new Converter(c.id, c.model, c.estimatedInputTokens);
    events := [];
    for i := 0 to |chunks|
      invariant converter.config == c
      invariant converter.Current() == Run(c, FRESH, AllItems(chunks[..i])).0
      invariant events == Run(c, FRESH, AllItems(chunks[..i])).1
    {
      hide Run, Items;
      var sent := converter.Process(chunks[i]);
      events := events + sent;
      RunConcat(c, FRESH, AllItems(chunks[..i]), Items(chunks[i]));
      assert chunks[..i + 1][..i] == chunks[..i];
    }
    assert chunks[..|chunks|] == chunks;
  }

  // ---- The converter's state in terms of the input -------------------------

  ghost predicate Tracks(s: State, items: seq<Item>) {
    && (s.firstWrite <==> items == [])
    && (s.thinkingStarted <==> exists m :: 0 <= m < |items| && items[m].Think?)
    && (s.thinkingDone ==> s.thinkingStarted)
    && (s.thinkingDone ==> exists m :: 0 <= m < |items| && (items[m].Say? || items[m].Call?))
    && (s.textStarted <==> TextPending(items))
    && (forall id :: id in s.sent <==> exists m :: 0 <= m < |items| && Accepted(items[m], id))
  }

  lemma StepTracks(c: Config, s: State, items: seq<Item>, item: Item)
    requires Tracks(s, items)
    requires items == [] ==> item.Begin?
    ensures Tracks(Step(c, s, item).0, items + [item])
  {
    TextPendingSnoc(items, item);
    var all, s' := items + [item], Step(c, s, item).0;
    assert all[|items|] == item;
    assert forall m :: 0 <= m < |items| ==> all[m] == items[m];
    if item.Call? {
      assert FreshCall(all, |items|) <==> item.tool.id !in s.sent;
    }
    forall id
      ensures id in s'.sent <==> exists m :: 0 <= m < |all| && Accepted(all[m], id)
    {
      if id in s.sent {
        var m :| 0 <= m < |items| && Accepted(items[m], id);
        assert Accepted(all[m], id);
      }
      if Accepted(item, id) {
        assert Accepted(all[|items|], id);
      }
    }
    if s.thinkingStarted {
      var m :| 0 <= m < |items| && items[m].Think?;
      assert all[m].Think?;
    }
    if s.thinkingDone {
      var m :| 0 <= m < |items| && (items[m].Say? || items[m].Call?);
      assert all[m].Say? || all[m].Call?;
    }
  }

  /** The first event announces the input tokens: the first chunk's count, or else
      the estimate made from the request. */
  lemma {:induction false} StartAnnouncesInput(c: Config, chunks: seq<Chunk>)
    requires chunks != []
    ensures var (out, prompt) := (Output(c, chunks), chunks[0].promptTokens);
            && out != [] && out[0].MessageStart? && out[0].id == c.id && out[0].model == c.model
            && (prompt != 0 ==> out[0].inputTokens == prompt)
            && (prompt == 0 ==> out[0].inputTokens == if c.estimatedInputTokens > 0 then c.estimatedInputTokens else 0)
  {
    hide Step, Items;
    var front, last := chunks[..|chunks| - 1], chunks[|chunks| - 1];
    RunConcat(c, FRESH, AllItems(front), Items(last));
    if front == [] {
      FirstChunkStarts(c, last);
      assert AllItems(chunks) == Items(last);
    } else {
      StartAnnouncesInput(c, front);
    }
  }

  lemma FirstChunkStarts(c: Config, r: Chunk)
    ensures var out := Run(c, FRESH, Items(r)).1;
            out != [] && out[0] == Step(c, FRESH, Begin(r.promptTokens)).1[0]
            && out[0].MessageStart? && out[0].id == c.id && out[0].model == c.model
            && out[0].inputTokens == if r.promptTokens == 0 && c.estimatedInputTokens > 0 then c.estimatedInputTokens else r.promptTokens
  {
    var begin := Begin(r.promptTokens);
    var rest := ThinkItems(r.thinking) + SayItems(r.content) + CallItems(r.toolCalls) + FinishItems(r);
    assert Items(r) == [begin] + rest;
    RunSnoc(c, FRESH, [], begin);
    assert [] + [begin] == [begin];
    hide Run, Items;
    RunConcat(c, FRESH, [begin], rest);
  }

  // ---- Converter and client in step ----------------------------------------

  /** The client's open block is the one the converter believes is open. */
  ghost predicate InStep(s: State, c: Client) {
    if s.firstWrite then s == FRESH && c == Idle
    else
      && c.Streaming?
      && |c.blocks| == s.index
      && (ThinkingOpen(s) ==> c.open.Some? && c.open.value.ThinkingBlock? && !s.textStarted)
      && (s.textStarted ==> c.open.Some? && c.open.value.TextBlock?)
      && (!ThinkingOpen(s) && !s.textStarted ==> c.open == None)
  }

  /** The blocks a client has accumulated, the open one included. */
  function Accumulated(c: Client): seq<Block> {
    match c
    case Streaming(blocks, open) => blocks + (match open case Some(b) => [b] case None => [])
    case Closing(answer) => answer.blocks
    case Finished(answer) => answer.blocks
    case _ => []
  }

  /** What one item does to the blocks accumulated so far. */
  function Absorb(s: State, blocks: seq<Block>, item: Item): seq<Block> {
    match item
    case Think(x) =>
      if s.thinkingDone then blocks
      else if s.thinkingStarted then ExtendLast(blocks, ThinkingDelta(x))
      else blocks + [ThinkingBlock(x)]
    case Say(x) => if s.textStarted then ExtendLast(blocks, TextDelta(x)) else blocks + [TextBlock(x)]
    case Call(t) =>
      if t.id in s.sent || t.args.Unencodable? then blocks else blocks + [ToolUseBlock(t.id, t.name, t.args)]
    case _ => blocks
  }

  function ExtendLast(blocks: seq<Block>, d: Delta): seq<Block> {
    if blocks != [] && Extended(blocks[|blocks| - 1], d).Some?
    then blocks[..|blocks| - 1] + [Extended(blocks[|blocks| - 1], d).value]
    else blocks
  }

  lemma CloseThinkingInStep(s: State, c: Client)
    requires InStep(s, c) && !s.firstWrite
    ensures var (s', e) := CloseThinking(s); InStep(s', FeedAll(c, e)) && !ThinkingOpen(s') && Accumulated(FeedAll(c, e)) == Accumulated(c)
  {
    if ThinkingOpen(s) {
      FeedPair(c, ContentBlockStop(s.index), MessageStop);
    }
  }

  lemma CloseTextInStep(s: State, c: Client)
    requires InStep(s, c) && !s.firstWrite
    ensures var (s', e) := CloseText(s); InStep(s', FeedAll(c, e)) && Accumulated(FeedAll(c, e)) == Accumulated(c)
  {
    if s.textStarted {
      FeedPair(c, ContentBlockStop(s.index), MessageStop);
    }
  }

  lemma ThinkInStep(s: State, c: Client, text: string)
    requires InStep(s, c) && !s.firstWrite
    ensures var (s', e) := OnThink(s, text);
            if !s.thinkingDone && !s.thinkingStarted && s.textStarted
            then FeedAll(c, e) == Malformed
            else InStep(s', FeedAll(c, e)) && Accumulated(FeedAll(c, e)) == Absorb(s, Accumulated(c), Think(text))
  {
    var delta := ContentBlockDelta(s.index, ThinkingDelta(text));
    if !s.thinkingDone {
      if s.thinkingStarted {
        FeedPair(c, delta, delta);
      } else {
        FeedPair(c, ContentBlockStart(s.index, StartThinking), delta);
        assert "" + text == text;
      }
    }
  }

  /** Text arriving when no thinking block is open. */
  lemma TextInStep(s: State, c: Client, text: string)
    requires InStep(s, c) && !s.firstWrite && !ThinkingOpen(s)
    ensures var e := (if s.textStarted then [] else [ContentBlockStart(s.index, StartText)])
                     + [ContentBlockDelta(s.index, TextDelta(text))];
            && InStep(s.(textStarted := true), FeedAll(c, e))
            && Accumulated(FeedAll(c, e)) == Absorb(s, Accumulated(c), Say(text))
  {
    var start, delta := ContentBlockStart(s.index, StartText), ContentBlockDelta(s.index, TextDelta(text));
    if s.textStarted {
      FeedPair(c, delta, delta);
    } else {
      FeedPair(c, start, delta);
      assert "" + text == text;
    }
  }

  lemma SayInStep(s: State, c: Client, text: string)
    requires InStep(s, c) && !s.firstWrite
    ensures var (s', e) := OnSay(s, text);
            InStep(s', FeedAll(c, e)) && Accumulated(FeedAll(c, e)) == Absorb(s, Accumulated(c), Say(text))
  {
    hide InStep, Feed, FeedAll, Accumulated;
    var (s1, e1) := CloseThinking(s);
    CloseThinkingInStep(s, c);
    TextInStep(s1, FeedAll(c, e1), text);
    var start := if s1.textStarted then [] else [ContentBlockStart(s1.index, StartText)];
    var delta := [ContentBlockDelta(s1.index, TextDelta(text))];
    assert OnSay(s, text) == (s1.(textStarted := true), (e1 + start) + delta);
    assert Absorb(s, Accumulated(c), Say(text)) == Absorb(s1, Accumulated(c), Say(text));
    hide *;
    ConcatAssociative(e1, start, delta);
    FeedConcat(c, e1, start + delta);
  }

  /** A whole tool call arriving when nothing is open. */
  lemma ToolInStep(s: State, c: Client, id: string, name: string, json: string)
    requires InStep(s, c) && !s.firstWrite && !ThinkingOpen(s) && !s.textStarted
    ensures var e := [ContentBlockStart(s.index, StartToolUse(id, name)),
                      ContentBlockDelta(s.index, InputJsonDelta(json)), ContentBlockStop(s.index)];
            && InStep(s.(index := s.index + 1), FeedAll(c, e))
            && Accumulated(FeedAll(c, e)) == Accumulated(c) + [ToolUseBlock(id, name, Encodable(json))]
  {
    var start, delta, stop := ContentBlockStart(s.index, StartToolUse(id, name)),
        ContentBlockDelta(s.index, InputJsonDelta(json)), ContentBlockStop(s.index);
    assert [start, delta, stop] == [start, delta] + [stop];
    FeedPair(c, start, delta);
    FeedSnoc(c, [start, delta], stop);
    assert "" + json == json;
  }

  lemma SentInStep(s: State, c: Client, sent: set<string>)
    requires InStep(s, c) && !s.firstWrite
    ensures InStep(s.(sent := sent), c)
  {
  }

  lemma CallInStep(s: State, c: Client, tool: ToolCall)
    requires InStep(s, c) && !s.firstWrite
    ensures var (s', e) := OnCall(s, tool);
            InStep(s', FeedAll(c, e)) && Accumulated(FeedAll(c, e)) == Absorb(s, Accumulated(c), Call(tool))
  {
    hide InStep, Feed, FeedAll, Accumulated;
    if tool.id in s.sent {
      FeedNothing(c);
    } else {
      var (s1, e1) := CloseThinking(s);
      var (s2, e2) := CloseText(s1);
      CloseThinkingInStep(s, c);
      CloseTextInStep(s1, FeedAll(c, e1));
      FeedConcat(c, e1, e2);
      if tool.args.Encodable? {
        var e3 := [ContentBlockStart(s2.index, StartToolUse(tool.id, tool.name)),
                   ContentBlockDelta(s2.index, InputJsonDelta(tool.args.json)), ContentBlockStop(s2.index)];
        ToolInStep(s2, FeedAll(c, e1 + e2), tool.id, tool.name, tool.args.json);
        SentInStep(s2.(index := s2.index + 1), FeedAll(FeedAll(c, e1 + e2), e3), s2.sent + {tool.id});
        FeedConcat(c, e1 + e2, e3);
      }
    }
  }

  lemma FeedNothing(c: Client)
    ensures FeedAll(c, []) == c
  {
  }

  lemma StepInStep(cfg: Config, s: State, c: Client, item: Item)
    requires InStep(s, c)
    requires !item.Finish? && (s.firstWrite ==> item.Begin?)
    ensures var (s', e) := Step(cfg, s, item);
            if item.Think? && !s.thinkingDone && !s.thinkingStarted && s.textStarted
            then FeedAll(c, e) == Malformed
            else InStep(s', FeedAll(c, e)) && Accumulated(FeedAll(c, e)) == Absorb(s, Accumulated(c), item)
  {
    match item
    case Begin(_) =>
      var e := Step(cfg, s, item).1;
      if e != [] {
        FeedPair(c, e[0], e[0]);
        assert e == [e[0]];
      }
    case Think(text) => ThinkInStep(s, c, text);
    case Say(text) => SayInStep(s, c, text);
    case Call(tool) => CallInStep(s, c, tool);
  }

  /** Items of a stream that has not finished yet. */
  ghost predicate Unfinished(items: seq<Item>) {
    (items != [] ==> items[0].Begin?) && forall i :: 0 <= i < |items| ==> !items[i].Finish?
  }

  /** Before the end of the stream, converter and client agree unless thinking
      has interrupted text, and then the client has already given up. */
  lemma {:induction false} UnfinishedInStep(cfg: Config, items: seq<Item>)
    requires Unfinished(items)
    ensures var (s, e) := Run(cfg, FRESH, items);
            Tracks(s, items)
            && (if Interrupted(items) then FeedAll(Idle, e) == Malformed else InStep(s, FeedAll(Idle, e)))
  {
    if items != [] {
      hide Step, InStep, Tracks, TextPending, Feed;
      var front, item := items[..|items| - 1], items[|items| - 1];
      var (s, e) := Run(cfg, FRESH, front);
      var c := FeedAll(Idle, e);
      UnfinishedInStep(cfg, front);
      assert items == front + [item];
      InterruptedSnoc(front, item);
      StepTracks(cfg, s, front, item);
      FeedConcat(Idle, e, Step(cfg, s, item).1);
      if Interrupted(front) {
        MalformedStays(Step(cfg, s, item).1);
      } else {
        TracksPhases(s, front);
        StepInStep(cfg, s, c, item);
      }
    }
  }

  lemma TracksPhases(s: State, items: seq<Item>)
    requires Tracks(s, items)
    ensures s.firstWrite <==> items == []
    ensures s.textStarted <==> TextPending(items)
    ensures !s.thinkingDone && !s.thinkingStarted <==> forall m :: 0 <= m < |items| ==> !items[m].Think?
  {
  }

  /** A stream's items: an unfinished part and the final Finish. */
  lemma {:induction false} StreamItems(chunks: seq<Chunk>) returns (items: seq<Item>)
    requires forall i :: 0 <= i < |chunks| ==> (chunks[i].done ==> i == |chunks| - 1)
    ensures Unfinished(items) && (chunks != [] ==> items != [])
    ensures AllItems(chunks) == items + (if chunks != [] then FinishItems(chunks[|chunks| - 1]) else [])
  {
    if chunks == [] {
      items := [];
    } else {
      var front, last := chunks[..|chunks| - 1], chunks[|chunks| - 1];
      var before := StreamItems(front);
      assert AllItems(front) == before;
      items := before + ([Begin(last.promptTokens)] + ThinkItems(last.thinking) + SayItems(last.content) + CallItems(last.toolCalls));
      assert AllItems(chunks) == before + Items(last);
    }
  }

  /** The events of a stream form one well-formed message exactly when its first
      thinking does not come while text is open. */
  lemma OutputWellFormedIff(cfg: Config, chunks: seq<Chunk>)
    requires IsStream(chunks)
    ensures WellFormed(Output(cfg, chunks)) <==> !ThinkingInterruptsText(chunks)
  {
    InterruptedIff(chunks);
    var last := chunks[|chunks| - 1];
    var items := StreamItems(chunks);
    var finish := Finish(last.doneReason, last.promptTokens, last.evalTokens);
    InterruptedSnoc(items, finish);
    FinishedUnlessInterrupted(cfg, items, finish);
    AcceptedIffWellFormed(Output(cfg, chunks));
  }

  lemma FinishedUnlessInterrupted(cfg: Config, items: seq<Item>, finish: Item)
    requires Unfinished(items) && items != [] && finish.Finish?
    ensures var (s, e) := Run(cfg, FRESH, items);
            var c := FeedAll(Idle, Run(cfg, FRESH, items + [finish]).1);
            if Interrupted(items) then c == Malformed
            else c == Finished(Answer(Accumulated(FeedAll(Idle, e)), MapStopReason(finish.reason, |s.sent| > 0),
                                      finish.promptTokens, finish.evalTokens))
  {
    var (s, e) := Run(cfg, FRESH, items);
    UnfinishedInStep(cfg, items);
    assert Step(cfg, s, finish).1 == OnFinish(s, finish);
    hide Step, InStep, Tracks, Feed, TextPending;
    RunSnoc(cfg, FRESH, items, finish);
    FeedConcat(Idle, e, OnFinish(s, finish));
    if Interrupted(items) {
      MalformedStays(OnFinish(s, finish));
    } else {
      TracksPhases(s, items);
      FinishInStep(s, FeedAll(Idle, e), finish);
    }
  }

  lemma FinishInStep(s: State, c: Client, finish: Item)
    requires InStep(s, c) && !s.firstWrite && finish.Finish?
    ensures FeedAll(c, OnFinish(s, finish))
            == Finished(Answer(Accumulated(c), MapStopReason(finish.reason, |s.sent| > 0), finish.promptTokens, finish.evalTokens))
  {
    var closing := if s.textStarted || ThinkingOpen(s) then [ContentBlockStop(s.index)] else [];
    var delta := MessageDelta(MapStopReason(finish.reason, |s.sent| > 0), finish.promptTokens, finish.evalTokens);
    assert OnFinish(s, finish) == closing + [delta, MessageStop];
    FeedConcat(c, closing, [delta, MessageStop]);
    FeedPair(FeedAll(c, closing), delta, MessageStop);
    if closing != [] {
      FeedPair(c, closing[0], delta);
    }
  }

  /** An input on which the output is not well formed: text, then thinking. */
  lemma ThinkingAfterTextBreaks(cfg: Config)
    ensures var chunks := [Chunk("", "a", [], false, "", 0, 0), Chunk("b", "", [], true, "stop", 1, 1)];
            IsStream(chunks) && !WellFormed(Output(cfg, chunks))
  {
    var c0, c1 := Chunk("", "a", [], false, "", 0, 0), Chunk("b", "", [], true, "stop", 1, 1);
    var chunks := [c0, c1];
    assert chunks[..1] == [c0] && c0.content != "" && c1.thinking != "";
    assert c0.toolCalls == [] && !BringsNewCall(chunks[..1], 0);
    assert chunks[..1][0].content != "" && TextLeftOpen(chunks[..1]);
    assert InterruptsAt(chunks, 1);
    OutputWellFormedIff(cfg, [c0, c1]);
  }
}
