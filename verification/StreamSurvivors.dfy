/** What survives of a stream that is well formed but in no particular order: which
    of its thinking, text and tool calls the client ends up with. */
module StreamSurvivors {
  import opened AnthropicTypes
  import opened Messages
  import opened Sequences
  import opened StreamConverter
  import opened StreamClient
  import opened StreamInput
  import opened StreamTrace
  import opened StreamRefinement

  // ---- Contents of blocks --------------------------------------------------------

  datatype Contents = Contents(thinking: string, text: string, calls: seq<ToolCall>)

  function AddBlock(a: Contents, b: Block): Contents {
    match b
    case ThinkingBlock(x) => a.(thinking := a.thinking + x)
    case TextBlock(x) => a.(text := a.text + x)
    case ToolUseBlock(id, name, input) => a.(calls := a.calls + [ToolCall(id, name, input)])
  }

  /** The blocks' thinking and text, each concatenated, and the tool uses in order. */
  function ContentsOf(blocks: seq<Block>): Contents {
    if blocks == [] then Contents("", "", [])
    else AddBlock(ContentsOf(blocks[..|blocks| - 1]), blocks[|blocks| - 1])
  }

  lemma ContentsSnoc(blocks: seq<Block>, b: Block)
    ensures ContentsOf(blocks + [b]) == AddBlock(ContentsOf(blocks), b)
  {
    assert (blocks + [b])[..|blocks|] == blocks;
  }

  // ---- What survives, in terms of the input ----------------------------------------

  /** Item k ends the thinking: text or a new tool call after some thinking. */
  ghost predicate Closes(items: seq<Item>, k: int)
    requires 0 <= k < |items|
  {
    (items[k].Say? || FreshCall(items, k)) && exists m :: 0 <= m < k && items[m].Think?
  }

  ghost predicate Closed(items: seq<Item>) {
    exists k :: 0 <= k < |items| && Closes(items, k)
  }

  /** All text, the thinking before its first end, and of the tool calls those that
      can be encoded, each id once. */
  ghost function Surviving(items: seq<Item>): Contents {
    if items == [] then Contents("", "", [])
    else
      var front, n := items[..|items| - 1], |items| - 1;
      var a := Surviving(front);
      match items[n]
      case Think(x) => if Closed(front) then a else a.(thinking := a.thinking + x)
      case Say(x) => a.(text := a.text + x)
      case Call(t) => if FreshCall(items, n) && t.args.Encodable? then a.(calls := a.calls + [t]) else a
      case _ => a
  }

  lemma ClosedSnoc(items: seq<Item>, item: Item)
    ensures Closed(items + [item]) <==>
            Closed(items)
            || ((item.Say? || FreshCall(items + [item], |items|)) && exists m :: 0 <= m < |items| && items[m].Think?)
  {
    var all := items + [item];
    FreshCallSnoc(items, item);
    assert all[|items|] == item && forall m :: 0 <= m < |items| ==> all[m] == items[m];
    forall k | 0 <= k < |items|
      ensures Closes(all, k) <==> Closes(items, k)
    {
      assert FreshCall(all, k) <==> FreshCall(items, k);
      assert forall m :: 0 <= m < k ==> (all[m].Think? <==> items[m].Think?);
    }
    hide FreshCall;
    if Closes(all, |items|) {
      var m :| 0 <= m < |items| && all[m].Think?;
      assert items[m].Think?;
    }
    if m :| 0 <= m < |items| && items[m].Think? {
      assert all[m].Think?;
    }
    hide Closes;
    if k :| 0 <= k < |items| && Closes(items, k) {
      assert Closes(all, k);
    }
  }

  /** The converter ends thinking exactly when the input does. */
  lemma StepCloses(c: Config, s: State, items: seq<Item>, item: Item)
    requires Tracks(s, items) && (s.thinkingDone <==> Closed(items))
    ensures Step(c, s, item).0.thinkingDone <==> Closed(items + [item])
    ensures item.Call? ==> (FreshCall(items + [item], |items|) <==> item.tool.id !in s.sent)
  {
    var all := items + [item];
    ClosedSnoc(items, item);
    FreshIffUnsent(s, items, item);
    assert s.thinkingStarted <==> exists m :: 0 <= m < |items| && items[m].Think?;
    hide Closed, Tracks, TextPending;
    assert FreshCall(all, |items|) ==> item.Call?;
    hide FreshCall;
  }

  lemma FreshIffUnsent(s: State, items: seq<Item>, item: Item)
    requires Tracks(s, items)
    ensures item.Call? ==> (FreshCall(items + [item], |items|) <==> item.tool.id !in s.sent)
  {
    hide TextPending;
    var all := items + [item];
    assert all[|items|] == item && forall m :: 0 <= m < |items| ==> all[m] == items[m];
    if item.Call? && item.tool.id in s.sent {
      var m :| 0 <= m < |items| && Accepted(items[m], item.tool.id);
      assert Accepted(all[m], item.tool.id);
    }
    if item.Call? && item.tool.id !in s.sent {
      forall m | 0 <= m < |items|
        ensures !Accepted(all[m], item.tool.id)
      {
        assert !Accepted(items[m], item.tool.id);
      }
    }
  }

  // ---- Step by step -------------------------------------------------------------------

  lemma {:induction false} ExtendContents(blocks: seq<Block>, d: Delta)
    requires blocks != [] && Extended(blocks[|blocks| - 1], d).Some? && !d.InputJsonDelta?
    ensures ContentsOf(ExtendLast(blocks, d)) ==
            match d
            case ThinkingDelta(x) => ContentsOf(blocks).(thinking := ContentsOf(blocks).thinking + x)
            case TextDelta(x) => ContentsOf(blocks).(text := ContentsOf(blocks).text + x)
            case InputJsonDelta(_) => ContentsOf(blocks)
  {
    var front, last := blocks[..|blocks| - 1], blocks[|blocks| - 1];
    assert blocks == front + [last];
    ContentsSnoc(front, last);
    ContentsSnoc(front, Extended(last, d).value);
    hide ContentsOf;
    var a := ContentsOf(front);
    match d
    case ThinkingDelta(x) => ConcatAssociative(a.thinking, last.thinking, x);
    case TextDelta(x) => ConcatAssociative(a.text, last.text, x);
    case InputJsonDelta(_) =>
  }

  /** What one more item adds. */
  ghost function Kept(items: seq<Item>, item: Item): Contents {
    var a := Surviving(items);
    match item
    case Think(x) => if Closed(items) then a else a.(thinking := a.thinking + x)
    case Say(x) => a.(text := a.text + x)
    case Call(t) => if FreshCall(items + [item], |items|) && t.args.Encodable? then a.(calls := a.calls + [t]) else a
    case _ => a
  }

  lemma SurvivingSnoc(items: seq<Item>, item: Item)
    ensures Surviving(items + [item]) == Kept(items, item)
  {
    hide Closed, FreshCall;
    var all := items + [item];
    assert all[..|items|] == items && all[|items|] == item;
  }

  lemma {:induction false} ThinkSurvives(s: State, blocks: seq<Block>, x: string)
    requires OpenIsLast(s, blocks)
    ensures var a := ContentsOf(blocks);
            ContentsOf(Absorb(s, blocks, Think(x))) == if s.thinkingDone then a else a.(thinking := a.thinking + x)
  {
    hide ContentsOf, ExtendLast;
    if s.thinkingDone {
    } else if s.thinkingStarted {
      ExtendContents(blocks, ThinkingDelta(x));
    } else {
      ContentsSnoc(blocks, ThinkingBlock(x));
    }
  }

  lemma {:induction false} SaySurvives(s: State, blocks: seq<Block>, x: string)
    requires OpenIsLast(s, blocks)
    ensures ContentsOf(Absorb(s, blocks, Say(x))) == ContentsOf(blocks).(text := ContentsOf(blocks).text + x)
  {
    hide ContentsOf, ExtendLast;
    if s.textStarted {
      ExtendContents(blocks, TextDelta(x));
    } else {
      ContentsSnoc(blocks, TextBlock(x));
    }
  }

  lemma CallSurvives(s: State, blocks: seq<Block>, t: ToolCall)
    ensures var a := ContentsOf(blocks);
            ContentsOf(Absorb(s, blocks, Call(t)))
            == if t.id !in s.sent && t.args.Encodable? then a.(calls := a.calls + [t]) else a
  {
    hide ContentsOf;
    ContentsSnoc(blocks, ToolUseBlock(t.id, t.name, t.args));
  }

  lemma {:induction false} StepSurvives(s: State, items: seq<Item>, item: Item, blocks: seq<Block>)
    requires Tracks(s, items) && (s.thinkingDone <==> Closed(items)) && OpenIsLast(s, blocks)
    requires ContentsOf(blocks) == Surviving(items)
    ensures ContentsOf(Absorb(s, blocks, item)) == Surviving(items + [item])
  {
    FreshIffUnsent(s, items, item);
    SurvivingSnoc(items, item);
    assert item.Begin? || item.Finish? ==> Absorb(s, blocks, item) == blocks;
    hide Tracks, FreshCall, Closed, ContentsOf, Surviving, OpenIsLast, Absorb;
    match item
    case Think(x) => ThinkSurvives(s, blocks, x);
    case Say(x) => SaySurvives(s, blocks, x);
    case Call(t) => CallSurvives(s, blocks, t);
    case _ =>
  }

  lemma {:induction false} UnfinishedSurvives(cfg: Config, items: seq<Item>)
    requires Unfinished(items) && !Interrupted(items)
    ensures var (s, e) := Run(cfg, FRESH, items);
            (s.thinkingDone <==> Closed(items)) && ContentsOf(Accumulated(FeedAll(Idle, e))) == Surviving(items)
  {
    if items != [] {
      hide Step, InStep, Tracks, TextPending, Feed, Surviving, ContentsOf, Absorb, OpenIsLast, Accumulated, Closed;
      var front, item := items[..|items| - 1], items[|items| - 1];
      assert items == front + [item];
      var (s, e) := Run(cfg, FRESH, front);
      var c := FeedAll(Idle, e);
      InterruptedSnoc(front, item);
      UnfinishedInStep(cfg, front);
      UnfinishedSurvives(cfg, front);
      TracksPhases(s, front);
      StepInStep(cfg, s, c, item);
      FeedConcat(Idle, e, Step(cfg, s, item).1);
      InStepOpenIsLast(s, c);
      StepCloses(cfg, s, front, item);
      StepSurvives(s, front, item, Accumulated(c));
    }
  }

  lemma {:induction false} AllTextSurvives(items: seq<Item>)
    ensures Surviving(items).text == Carries(items).text
  {
    if items != [] {
      hide Closed, FreshCall;
      AllTextSurvives(items[..|items| - 1]);
    }
  }

  // ---- What survives, in terms of the chunks ----------------------------------------

  /** Of the calls just those with arguments that can be encoded and an id that no
      encodable call before them has, in their order. */
  ghost predicate FirstOnes(kept: seq<ToolCall>, calls: seq<ToolCall>) {
    exists ks: seq<nat> :: FirstAt(ks, kept, calls)
  }

  ghost predicate FirstAt(ks: seq<nat>, kept: seq<ToolCall>, calls: seq<ToolCall>) {
    && Picks(ks, kept, calls)
    && forall k: nat :: k < |calls| ==> (k in ks <==> calls[k].args.Encodable? && !IdUsed(calls[..k], calls[k].id))
  }

  lemma FirstOnesSnoc(kept: seq<ToolCall>, calls: seq<ToolCall>, t: ToolCall)
    requires FirstOnes(kept, calls)
    ensures FirstOnes(if t.args.Encodable? && !IdUsed(calls, t.id) then kept + [t] else kept, calls + [t])
  {
    var ks: seq<nat> :| FirstAt(ks, kept, calls);
    PicksSnoc(ks, kept, calls, t);
    hide IdUsed, Picks;
    var all := calls + [t];
    forall k: nat | k < |calls|
      ensures all[k] == calls[k] && all[..k] == calls[..k]
    {
    }
    assert all[|calls|] == t && all[..|calls|] == calls;
    if t.args.Encodable? && !IdUsed(calls, t.id) {
      assert FirstAt(ks + [|calls|], kept + [t], all);
    } else {
      assert FirstAt(ks, kept, all);
    }
  }

  /** Chunk j ends the thinking: text or a new tool call, after some thinking. */
  ghost predicate EndsThinking(chunks: seq<Chunk>, j: int)
    requires 0 <= j < |chunks|
  {
    Thinking(chunks[..j + 1]) != "" && (chunks[j].content != "" || BringsNewCall(chunks, j))
  }

  ghost predicate ThinkingEnded(chunks: seq<Chunk>) {
    exists j :: 0 <= j < |chunks| && EndsThinking(chunks, j)
  }

  /** All thinking up to and including the first chunk that ends it. */
  ghost predicate FirstThinking(kept: string, chunks: seq<Chunk>) {
    && (!ThinkingEnded(chunks) ==> kept == Thinking(chunks))
    && forall n :: 0 <= n < |chunks| && EndsThinking(chunks, n) && !ThinkingEnded(chunks[..n]) ==>
         kept == Thinking(chunks[..n + 1])
  }

  lemma EndsInFront(chunks: seq<Chunk>, n: nat, j: nat)
    requires j < n <= |chunks|
    ensures EndsThinking(chunks[..n], j) <==> EndsThinking(chunks, j)
  {
    assert chunks[..n][..j + 1] == chunks[..j + 1];
    NewCallInFront(chunks, n, j);
    hide BringsNewCall, Thinking;
  }

  lemma EndedSnoc(front: seq<Chunk>, r: Chunk)
    ensures var all := front + [r];
            ThinkingEnded(all) <==> ThinkingEnded(front) || EndsThinking(all, |front|)
  {
    var all, n := front + [r], |front|;
    assert all[..n] == front;
    forall j: nat | j < n
      ensures EndsThinking(all, j) <==> EndsThinking(front, j)
    {
      EndsInFront(all, n, j);
    }
    hide EndsThinking;
    if j :| 0 <= j < n && EndsThinking(front, j) {
      assert EndsThinking(all, j);
    }
    if EndsThinking(all, n) {
      assert ThinkingEnded(all);
    }
  }

  lemma FirstThinkingSnoc(kept: string, front: seq<Chunk>, r: Chunk)
    requires FirstThinking(kept, front)
    ensures FirstThinking(if ThinkingEnded(front) then kept else kept + r.thinking, front + [r])
  {
    var all, n := front + [r], |front|;
    assert all[..n] == front && all[..n + 1] == all;
    EndedSnoc(front, r);
    assert Thinking(all) == Thinking(front) + r.thinking;
    forall j: nat | j < n
      ensures EndsThinking(all, j) <==> EndsThinking(front, j)
    {
      EndsInFront(all, n, j);
    }
    assert forall j :: 0 <= j <= n ==> all[..j] == front[..j];
    assert ThinkingEnded(front) <==> exists j :: 0 <= j < n && EndsThinking(front, j);
    hide EndsThinking, Thinking, ThinkingEnded;
  }

  // ---- From items to chunks -----------------------------------------------------------

  /** Thinking has come, and whether it has ended. */
  lemma ItemSurvives(items: seq<Item>, item: Item)
    requires !item.Call?
    ensures Surviving(items + [item]) ==
            match item
            case Think(x) => if Closed(items) then Surviving(items) else Surviving(items).(thinking := Surviving(items).thinking + x)
            case Say(x) => Surviving(items).(text := Surviving(items).text + x)
            case _ => Surviving(items)
    ensures Closed(items + [item]) <==> Closed(items) || (item.Say? && Thought(items))
    ensures Thought(items + [item]) <==> Thought(items) || item.Think?
  {
    SurvivingSnoc(items, item);
    ClosedSnoc(items, item);
    ThoughtSnoc(items, item);
    assert !FreshCall(items + [item], |items|) by {
      assert (items + [item])[|items|] == item;
    }
    hide Closed, Surviving, FreshCall;
  }

  lemma CallItemSurvives(items: seq<Item>, t: ToolCall)
    ensures var (unused, a) := (!IdUsed(Carries(items).calls, t.id), Surviving(items));
            && Surviving(items + [Call(t)]) == (if unused && t.args.Encodable? then a.(calls := a.calls + [t]) else a)
            && (Closed(items + [Call(t)]) <==> Closed(items) || (unused && Thought(items)))
            && (Thought(items + [Call(t)]) <==> Thought(items))
  {
    SurvivingSnoc(items, Call(t));
    ClosedSnoc(items, Call(t));
    ThoughtSnoc(items, Call(t));
    FreshIffUnused(items, t);
    hide Closed, Surviving, FreshCall, IdUsed;
  }

  lemma {:induction false} CallItemsSurvive(items: seq<Item>, tools: seq<ToolCall>)
    requires FirstOnes(Surviving(items).calls, Carries(items).calls)
    ensures var all := items + CallItems(tools);
            && Surviving(all) == Surviving(items).(calls := Surviving(all).calls)
            && FirstOnes(Surviving(all).calls, Carries(items).calls + tools)
            && (Closed(all) <==> Closed(items) || (Thought(items) && SomeNew(Carries(items).calls, tools)))
            && (Thought(all) <==> Thought(items))
  {
    if tools == [] {
      assert items + CallItems(tools) == items;
      assert Carries(items).calls + tools == Carries(items).calls;
    } else {
      var front, t := tools[..|tools| - 1], tools[|tools| - 1];
      assert CallItems(tools) == CallItems(front) + [Call(t)];
      hide Carries, CallItems, Surviving, Closed, Thought, SomeNew, FirstOnes, IdUsed;
      CallItemsSurvive(items, front);
      CallItemsCarry(items, front);
      var before := items + CallItems(front);
      CallItemSurvives(before, t);
      FirstOnesSnoc(Surviving(before).calls, Carries(before).calls, t);
      SomeNewSnoc(Carries(items).calls, front, t);
      SplitLast(tools);
      ConcatAssociative(items, CallItems(front), [Call(t)]);
      ConcatAssociative(Carries(items).calls, front, [t]);
    }
  }

  /** A chunk's items up to its text. */
  function Spoken(r: Chunk): seq<Item> {
    [Begin(r.promptTokens)] + ThinkItems(r.thinking) + SayItems(r.content)
  }

  lemma SpokenSurvives(items: seq<Item>, r: Chunk)
    ensures var (a, all) := (Surviving(items), items + Spoken(r));
            && Surviving(all).thinking == (if Closed(items) then a.thinking else a.thinking + r.thinking)
            && Surviving(all).calls == a.calls && Carries(all).calls == Carries(items).calls
            && (Thought(all) <==> Thought(items) || r.thinking != "")
            && (Closed(all) <==> Closed(items) || (Thought(all) && r.content != ""))
  {
    hide Carries, Surviving, Closed, Thought;
    CarriesSnoc(items, Begin(r.promptTokens));
    ItemSurvives(items, Begin(r.promptTokens));
    var i1 := items + [Begin(r.promptTokens)];
    ThinkItemsCarry(i1, r.thinking);
    var i2 := i1 + ThinkItems(r.thinking);
    if r.thinking != "" {
      ItemSurvives(i1, Think(r.thinking));
    } else {
      assert i2 == i1 && Surviving(i1).thinking + r.thinking == Surviving(i1).thinking;
    }
    SayItemsCarry(i2, r.content);
    var i3 := i2 + SayItems(r.content);
    if r.content != "" {
      ItemSurvives(i2, Say(r.content));
    } else {
      assert i3 == i2;
    }
    assert items + Spoken(r) == i3;
  }

  lemma FinishSurvives(items: seq<Item>, r: Chunk)
    ensures var all := items + FinishItems(r);
            Surviving(all) == Surviving(items) && (Closed(all) <==> Closed(items)) && (Thought(all) <==> Thought(items))
  {
    if r.done {
      ItemSurvives(items, Finish(r.doneReason, r.promptTokens, r.evalTokens));
    } else {
      assert items + FinishItems(r) == items;
    }
    hide Surviving, Closed, Thought;
  }

  lemma ChunkSurvives(items: seq<Item>, r: Chunk)
    requires FirstOnes(Surviving(items).calls, Carries(items).calls)
    ensures var (a, b, all) := (Surviving(items), Surviving(items + Items(r)), items + Items(r));
            && b.thinking == (if Closed(items) then a.thinking else a.thinking + r.thinking)
            && FirstOnes(b.calls, Carries(items).calls + r.toolCalls)
            && (Thought(all) <==> Thought(items) || r.thinking != "")
            && (Closed(all) <==> Closed(items) || (Thought(all) && (r.content != "" || SomeNew(Carries(items).calls, r.toolCalls))))
  {
    assert items + Items(r) == ((items + Spoken(r)) + CallItems(r.toolCalls)) + FinishItems(r);
    hide *;
    SpokenSurvives(items, r);
    var i3 := items + Spoken(r);
    CallItemsSurvive(i3, r.toolCalls);
    FinishSurvives(i3 + CallItems(r.toolCalls), r);
  }

  lemma {:induction false} ChunksSurvive(chunks: seq<Chunk>)
    ensures FirstOnes(Surviving(AllItems(chunks)).calls, ToolCalls(chunks))
    ensures FirstThinking(Surviving(AllItems(chunks)).thinking, chunks)
    ensures Closed(AllItems(chunks)) <==> ThinkingEnded(chunks)
    ensures Thought(AllItems(chunks)) <==> Thinking(chunks) != ""
  {
    if chunks == [] {
      assert FirstAt([], [], []);
    } else {
      hide *;
      var front, r := chunks[..|chunks| - 1], chunks[|chunks| - 1];
      ChunksSurvive(front);
      StreamCarries(front);
      StreamCarries(chunks);
      SplitLast(chunks);
      AllItemsSnoc(front, r);
      ChunkSurvives(AllItems(front), r);
      FirstThinkingSnoc(Surviving(AllItems(front)).thinking, front, r);
      EndedSnoc(front, r);
      LastEnds(front, r);
      ThinkingSnoc(front, r);
    }
  }

  lemma LastEnds(front: seq<Chunk>, r: Chunk)
    ensures EndsThinking(front + [r], |front|)
            <==> Thinking(front + [r]) != "" && (r.content != "" || SomeNew(ToolCalls(front), r.toolCalls))
  {
    hide SomeNew, Thinking;
    var all := front + [r];
    assert all[..|front| + 1] == all && all[..|front|] == front && all[|front|] == r;
  }

  lemma ThinkingSnoc(front: seq<Chunk>, r: Chunk)
    ensures Thinking(front + [r]) == Thinking(front) + r.thinking
    ensures Thinking(front + [r]) != "" <==> Thinking(front) != "" || r.thinking != ""
  {
    assert (front + [r])[..|front|] == front;
  }

  /** Of every well-formed stream, in whatever order, the client gets all the text, the
      thinking before its first end, and the encodable tool calls, each id once, with
      the stop reason and the usage of the last chunk. */
  lemma {:induction false} StreamSurvives(cfg: Config, chunks: seq<Chunk>)
    requires IsStream(chunks) && !ThinkingInterruptsText(chunks)
    ensures var c, last := FeedAll(Idle, Output(cfg, chunks)), chunks[|chunks| - 1];
            c.Finished?
            && var kept := ContentsOf(c.answer.blocks);
            && kept.text == Content(chunks)
            && FirstThinking(kept.thinking, chunks)
            && FirstOnes(kept.calls, ToolCalls(chunks))
            && c.answer == Answer(c.answer.blocks, MapStopReason(last.doneReason, kept.calls != []), last.promptTokens, last.evalTokens)
  {
    InterruptedIff(chunks);
    ChunksSurvive(chunks);
    hide Tracks, InStep, Feed, Run, Items, Interrupted, Step, Accumulated, ContentsOf, ThinkingInterruptsText,
      FirstThinking, FirstOnes, Thought, Closed, TextPending, TextLeftOpen;
    var last := chunks[|chunks| - 1];
    var items := StreamItems(chunks);
    var finish := Finish(last.doneReason, last.promptTokens, last.evalTokens);
    assert AllItems(chunks) == items + [finish];
    StreamCarries(chunks);
    AllTextSurvives(items + [finish]);
    InterruptedSnoc(items, finish);
    FinishedUnlessInterrupted(cfg, items, finish);
    UnfinishedInStep(cfg, items);
    UnfinishedSurvives(cfg, items);
    assert Surviving(items + [finish]) == Surviving(items) by {
      assert (items + [finish])[..|items|] == items;
    }
    SomeCallSurvives(Run(cfg, FRESH, items).0, items);
  }

  lemma SomeCallSurvives(s: State, items: seq<Item>)
    requires Tracks(s, items)
    ensures |s.sent| > 0 <==> Surviving(items).calls != []
  {
    SurvivingCallsIff(items);
    hide Surviving;
    if s.sent != {} {
      var id :| id in s.sent;
      var m :| 0 <= m < |items| && Accepted(items[m], id);
    }
    if m :| 0 <= m < |items| && items[m].Call? && Accepted(items[m], items[m].tool.id) {
      assert items[m].tool.id in s.sent;
    }
  }

  lemma {:induction false} SurvivingCallsIff(items: seq<Item>)
    ensures Surviving(items).calls != [] <==>
            exists m :: 0 <= m < |items| && items[m].Call? && Accepted(items[m], items[m].tool.id)
  {
    if items != [] {
      var front, item := items[..|items| - 1], items[|items| - 1];
      hide Closed;
      SurvivingCallsIff(front);
      assert forall m :: 0 <= m < |front| ==> front[m] == items[m];
      if item.Call? && !FreshCall(items, |front|) {
        var m :| 0 <= m < |front| && Accepted(items[m], item.tool.id);
        assert Accepted(front[m], front[m].tool.id);
      }
    }
  }
}
