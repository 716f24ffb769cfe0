/** Streaming against its non-streaming twin: on which streams the client ends up
    with the answer ToMessagesResponse gives for the aggregated response. */
module StreamRefinement {
  import opened AnthropicTypes
  import opened Messages
  import opened Strings
  import opened StreamConverter
  import opened StreamClient
  import opened StreamInput
  import opened StreamTrace

  // ---- The conditions on the input -----------------------------------------

  /** Every call's arguments can be encoded and no two calls share an id. */
  ghost predicate Deliverable(calls: seq<ToolCall>) {
    && (forall i :: 0 <= i < |calls| ==> calls[i].args.Encodable?)
    && (forall i, j :: 0 <= i < j < |calls| ==> calls[i].id != calls[j].id)
  }

  // ---- What is expected ----------------------------------------------------------

  function Expected(a: Carried): seq<Block> {
    (if a.thinking != "" then [ThinkingBlock(a.thinking)] else [])
    + (if a.text != "" then [TextBlock(a.text)] else [])
    + ToolBlocks(a.calls)
  }

  ghost predicate NonEmpty(items: seq<Item>) {
    forall i :: 0 <= i < |items| ==> (items[i].Think? ==> items[i].thinking != "") && (items[i].Say? ==> items[i].text != "")
  }

  // ---- Measures of the accumulated blocks ------------------------------------

  function BlockRank(b: Block): int {
    match b
    case ThinkingBlock(_) => 0
    case TextBlock(_) => 1
    case ToolUseBlock(_, _, _) => 2
  }

  function BlockRanks(blocks: seq<Block>): (rs: seq<int>)
    ensures |rs| == |blocks|
    ensures forall i :: 0 <= i < |blocks| ==> rs[i] == BlockRank(blocks[i])
  {
    seq(|blocks|, i requires 0 <= i < |blocks| => BlockRank(blocks[i]))
  }

  function ThinkingLength(blocks: seq<Block>): nat {
    if blocks == [] then 0
    else ThinkingLength(blocks[..|blocks| - 1])
         + (match blocks[|blocks| - 1] case ThinkingBlock(t) => |t| case _ => 0)
  }

  function ToolCount(blocks: seq<Block>): nat {
    if blocks == [] then 0
    else ToolCount(blocks[..|blocks| - 1]) + (if blocks[|blocks| - 1].ToolUseBlock? then 1 else 0)
  }

  lemma MeasuresSnoc(blocks: seq<Block>, b: Block)
    ensures ThinkingLength(blocks + [b]) == ThinkingLength(blocks) + (match b case ThinkingBlock(t) => |t| case _ => 0)
    ensures ToolCount(blocks + [b]) == ToolCount(blocks) + (if b.ToolUseBlock? then 1 else 0)
    ensures BlockRanks(blocks + [b]) == BlockRanks(blocks) + [BlockRank(b)]
  {
    assert (blocks + [b])[..|blocks|] == blocks;
  }

  // ---- Facts about a prefix of the stream ------------------------------------

  lemma {:induction false} CarriedKinds(items: seq<Item>)
    requires NonEmpty(items)
    ensures var a := Carries(items);
            && (a.thinking != "" <==> Has(items, 0))
            && (a.text != "" <==> Has(items, 1))
            && (a.calls != [] <==> Has(items, 2))
  {
    if items != [] {
      var front, item := items[..|items| - 1], items[|items| - 1];
      assert items == front + [item];
      CarriedKinds(front);
      HasSnoc(front, item, 0);
      HasSnoc(front, item, 1);
      HasSnoc(front, item, 2);
    }
  }

  /** Which ids the converter has sent, when every call so far was deliverable. */
  lemma SentIds(s: State, items: seq<Item>, id: string)
    requires Tracks(s, items)
    requires forall t :: t in Carries(items).calls ==> t.args.Encodable?
    ensures id in s.sent <==> exists t :: t in Carries(items).calls && t.id == id
  {
    CarriedCalls(items);
    if id in s.sent {
      var m :| 0 <= m < |items| && Accepted(items[m], id);
      assert items[m].tool in Carries(items).calls;
    }
    if t :| t in Carries(items).calls && t.id == id {
      var m :| 0 <= m < |items| && items[m] == Call(t);
      assert Accepted(items[m], id);
    }
  }

  lemma Phases(s: State, items: seq<Item>)
    requires Tracks(s, items)
    ensures s.thinkingStarted <==> Has(items, 0)
    ensures !Has(items, 1) && !Has(items, 2) ==> !s.thinkingDone
    ensures !Has(items, 2) ==> (s.textStarted <==> Has(items, 1))
    ensures s.textStarted ==> Has(items, 1)
  {
    if s.thinkingStarted {
      var m :| 0 <= m < |items| && items[m].Think?;
      assert Rank(items[m]) == 0;
    }
    if s.thinkingDone {
      var m :| 0 <= m < |items| && (items[m].Say? || items[m].Call?);
      assert Rank(items[m]) >= 1;
    }
    if s.textStarted {
      var j :| 0 <= j < |items| && items[j].Say?;
      assert Rank(items[j]) == 1;
    }
    if !Has(items, 2) && Has(items, 1) {
      var j :| 0 <= j < |items| && Rank(items[j]) == 1;
      forall k | j < k < |items|
        ensures !FreshCall(items, k)
      {
        assert Rank(items[k]) != 2;
      }
      assert TextPending(items);
    }
  }

  lemma DeliverableSnoc(calls: seq<ToolCall>, t: ToolCall)
    ensures Deliverable(calls + [t])
            <==> Deliverable(calls) && t.args.Encodable? && forall u :: u in calls ==> u.id != t.id
  {
    var all := calls + [t];
    assert forall i :: 0 <= i < |calls| ==> all[i] == calls[i];
    if Deliverable(all) {
      assert all[|calls|] == t;
      assert forall i, j :: 0 <= i < j < |calls| ==> all[i].id != all[j].id;
    }
  }

  // ---- Ordered, deliverable streams lose nothing -----------------------------

  lemma OrderedStep(s: State, items: seq<Item>, item: Item)
    requires Tracks(s, items) && NonEmpty(items + [item]) && NonEmpty(items)
    requires InOrder(items + [item]) && Deliverable(Carries(items + [item]).calls)
    ensures InOrder(items) && Deliverable(Carries(items).calls)
    ensures Absorb(s, Expected(Carries(items)), item) == Expected(Carries(items + [item]))
    ensures item.Think? ==> !TextPending(items)
  {
    hide Tracks, Expected, Deliverable;
    var a := Carries(items);
    RanksSnoc(items, item);
    CarriesSnoc(items, item);
    CarriedKinds(items);
    Phases(s, items);
    assert item == (items + [item])[|items|];
    if Rank(item) >= 0 {
      OrderedBefore(items, item);
    } else {
      assert Ranks(items) + [] == Ranks(items);
    }
    match item
    case Think(x) =>
      TracksPhases(s, items);
      ExpectedThink(s, a, x);
    case Say(x) =>
      ExpectedSay(s, a, x);
    case Call(t) =>
      DeliverableSnoc(a.calls, t);
      ExpectedCall(s, items, t);
    case _ =>
  }

  lemma ExpectedThink(s: State, a: Carried, x: string)
    requires a.text == "" && a.calls == [] && !s.thinkingDone && x != ""
    requires s.thinkingStarted <==> a.thinking != ""
    ensures Absorb(s, Expected(a), Think(x)) == Expected(Carry(a, Think(x)))
  {
    assert "" + x == x;
  }

  lemma ExpectedWithoutCalls(a: Carried)
    requires a.calls == []
    ensures Expected(a) == (if a.thinking != "" then [ThinkingBlock(a.thinking)] else [])
                           + (if a.text != "" then [TextBlock(a.text)] else [])
  {
  }

  lemma ExpectedSay(s: State, a: Carried, x: string)
    requires a.calls == [] && x != ""
    requires s.textStarted <==> a.text != ""
    ensures Absorb(s, Expected(a), Say(x)) == Expected(Carry(a, Say(x)))
  {
    hide Expected, ExtendLast;
    ExpectedWithoutCalls(a);
    ExpectedWithoutCalls(Carry(a, Say(x)));
    var before := if a.thinking != "" then [ThinkingBlock(a.thinking)] else [];
    if a.text != "" {
      ExtendLastText(before, a.text, x);
    } else {
      assert "" + x == x && before + [] == before;
    }
  }

  lemma ExtendLastText(before: seq<Block>, text: string, x: string)
    ensures ExtendLast(before + [TextBlock(text)], TextDelta(x)) == before + [TextBlock(text + x)]
  {
    assert (before + [TextBlock(text)])[..|before|] == before;
  }

  lemma ExpectedCall(s: State, items: seq<Item>, t: ToolCall)
    requires Tracks(s, items)
    requires Deliverable(Carries(items).calls + [t])
    ensures Absorb(s, Expected(Carries(items)), Call(t)) == Expected(Carry(Carries(items), Call(t)))
  {
    DeliverableSnoc(Carries(items).calls, t);
    SentIds(s, items, t.id);
    assert ToolBlocks(Carries(items).calls + [t])
        == ToolBlocks(Carries(items).calls) + [ToolUseBlock(t.id, t.name, t.args)];
  }

  lemma {:induction false} OrderedAccumulates(cfg: Config, items: seq<Item>)
    requires Unfinished(items) && NonEmpty(items)
    requires InOrder(items) && Deliverable(Carries(items).calls)
    ensures !Interrupted(items)
    ensures Accumulated(FeedAll(Idle, Run(cfg, FRESH, items).1)) == Expected(Carries(items))
  {
    if items != [] {
      hide Step, InStep, Tracks, TextPending, Feed, Expected, InOrder, Deliverable, Absorb;
      var front, item := items[..|items| - 1], items[|items| - 1];
      assert items == front + [item];
      var (s, e) := Run(cfg, FRESH, front);
      UnfinishedInStep(cfg, front);
      OrderedStep(s, front, item);
      OrderedAccumulates(cfg, front);
      InterruptedSnoc(front, item);
      TracksPhases(s, front);
      StepInStep(cfg, s, FeedAll(Idle, e), item);
      FeedConcat(Idle, e, Step(cfg, s, item).1);
    }
  }

  // ---- What is lost or out of order shows ------------------------------------

  /** The open block is the last one accumulated. */
  ghost predicate OpenIsLast(s: State, blocks: seq<Block>) {
    && (ThinkingOpen(s) ==> blocks != [] && blocks[|blocks| - 1].ThinkingBlock?)
    && (s.textStarted ==> blocks != [] && blocks[|blocks| - 1].TextBlock?)
  }

  lemma InStepOpenIsLast(s: State, c: Client)
    requires InStep(s, c)
    ensures OpenIsLast(s, Accumulated(c))
  {
  }

  ghost predicate Balanced(items: seq<Item>, blocks: seq<Block>) {
    ThinkingLength(blocks) == |Carries(items).thinking| && ToolCount(blocks) == |Carries(items).calls|
  }

  /** No more arrives than was carried; if all of it arrives, the calls were
      deliverable and the blocks are in order just when the items were. */
  ghost predicate Accounted(items: seq<Item>, blocks: seq<Block>) {
    && ThinkingLength(blocks) <= |Carries(items).thinking|
    && ToolCount(blocks) <= |Carries(items).calls|
    && (ToolCount(blocks) == |Carries(items).calls| ==> Deliverable(Carries(items).calls))
    && (Balanced(items, blocks) ==>
          (Ascending(BlockRanks(blocks)) <==> InOrder(items)) && LastOf(BlockRanks(blocks)) == LastOf(Ranks(items)))
  }

  /** A new block at the end. */
  lemma AppendAccounted(items: seq<Item>, item: Item, blocks: seq<Block>, b: Block)
    requires Accounted(items, blocks) && Rank(item) == BlockRank(b)
    requires item.Think? ==> b == ThinkingBlock(item.thinking)
    requires item.Call? ==> (ToolCount(blocks) == |Carries(items).calls| ==> Deliverable(Carries(items + [item]).calls))
    ensures Accounted(items + [item], blocks + [b])
  {
    CarriesSnoc(items, item);
    RanksSnoc(items, item);
    RanksPresent(items);
    MeasuresSnoc(blocks, b);
    AscendingSnoc(Ranks(items), Rank(item));
    AscendingSnoc(BlockRanks(blocks), BlockRank(b));
  }

  /** The last block grown by a delta. */
  lemma ExtendAccounted(items: seq<Item>, item: Item, blocks: seq<Block>)
    requires Accounted(items, blocks) && blocks != []
    requires item.Think? || item.Say?
    requires Rank(item) == BlockRank(blocks[|blocks| - 1])
    ensures Accounted(items + [item],
                      ExtendLast(blocks, if item.Think? then ThinkingDelta(item.thinking) else TextDelta(item.text)))
  {
    hide Ranks, Carries, ThinkingLength, ToolCount;
    var front, last := blocks[..|blocks| - 1], blocks[|blocks| - 1];
    var grown := if item.Think? then ThinkingBlock(last.thinking + item.thinking) else TextBlock(last.text + item.text);
    assert blocks == front + [last];
    CarriesSnoc(items, item);
    RanksSnoc(items, item);
    RanksPresent(items);
    MeasuresSnoc(front, last);
    MeasuresSnoc(front, grown);
    AscendingSnoc(Ranks(items), Rank(item));
    assert BlockRanks(blocks) == BlockRanks(front + [grown]);
  }

  /** Nothing of the item arrives. */
  lemma DropAccounted(items: seq<Item>, item: Item, blocks: seq<Block>)
    requires Accounted(items, blocks)
    requires item.Think? ==> item.thinking != ""
    requires !item.Say?
    ensures Accounted(items + [item], blocks)
  {
    CarriesSnoc(items, item);
    RanksSnoc(items, item);
    assert Ranks(items) + [] == Ranks(items);
  }

  lemma AccountedStep(s: State, items: seq<Item>, item: Item, blocks: seq<Block>)
    requires Tracks(s, items) && OpenIsLast(s, blocks) && Accounted(items, blocks)
    requires item.Think? ==> item.thinking != ""
    ensures Accounted(items + [item], Absorb(s, blocks, item))
  {
    hide Accounted, Tracks;
    match item
    case Think(x) =>
      if s.thinkingDone {
        DropAccounted(items, item, blocks);
      } else if s.thinkingStarted {
        ExtendAccounted(items, item, blocks);
      } else {
        AppendAccounted(items, item, blocks, ThinkingBlock(x));
      }
    case Say(x) =>
      if s.textStarted {
        ExtendAccounted(items, item, blocks);
      } else {
        AppendAccounted(items, item, blocks, TextBlock(x));
      }
    case Call(t) =>
      if t.id in s.sent || t.args.Unencodable? {
        DropAccounted(items, item, blocks);
      } else {
        AcceptedStaysDeliverable(s, items, t, blocks);
        AppendAccounted(items, item, blocks, ToolUseBlock(t.id, t.name, t.args));
      }
    case _ =>
      DropAccounted(items, item, blocks);
  }

  lemma AcceptedStaysDeliverable(s: State, items: seq<Item>, t: ToolCall, blocks: seq<Block>)
    requires Tracks(s, items) && Accounted(items, blocks)
    requires t.id !in s.sent && t.args.Encodable?
    ensures ToolCount(blocks) == |Carries(items).calls| ==> Deliverable(Carries(items + [Call(t)]).calls)
  {
    CarriesSnoc(items, Call(t));
    if ToolCount(blocks) == |Carries(items).calls| {
      SentIds(s, items, t.id);
      DeliverableSnoc(Carries(items).calls, t);
    }
  }

  lemma {:induction false} AllAccounted(cfg: Config, items: seq<Item>)
    requires Unfinished(items) && NonEmpty(items) && !Interrupted(items)
    ensures Accounted(items, Accumulated(FeedAll(Idle, Run(cfg, FRESH, items).1)))
  {
    if items != [] {
      hide Step, InStep, Tracks, TextPending, Feed, Accounted, Absorb, OpenIsLast, Accumulated;
      var front, item := items[..|items| - 1], items[|items| - 1];
      assert items == front + [item];
      var (s, e) := Run(cfg, FRESH, front);
      var c := FeedAll(Idle, e);
      InterruptedSnoc(front, item);
      UnfinishedInStep(cfg, front);
      AllAccounted(cfg, front);
      TracksPhases(s, front);
      StepInStep(cfg, s, c, item);
      FeedConcat(Idle, e, Step(cfg, s, item).1);
      InStepOpenIsLast(s, c);
      AccountedStep(s, front, item, Accumulated(c));
    }
  }

  // ---- The theorem -------------------------------------------------------------

  lemma ItemsNonEmpty(r: Chunk)
    ensures NonEmpty(Items(r))
  {
  }

  lemma NonEmptyConcat(a: seq<Item>, b: seq<Item>)
    requires NonEmpty(a) && NonEmpty(b)
    ensures NonEmpty(a + b)
  {
  }

  lemma {:induction false} StreamNonEmpty(chunks: seq<Chunk>)
    ensures NonEmpty(AllItems(chunks))
  {
    if chunks != [] {
      StreamNonEmpty(chunks[..|chunks| - 1]);
      ItemsNonEmpty(chunks[|chunks| - 1]);
      hide NonEmpty, Items;
      NonEmptyConcat(AllItems(chunks[..|chunks| - 1]), Items(chunks[|chunks| - 1]));
    }
  }

  /** A stream's client ends up with the non-streaming answer exactly when the
      stream brings thinking, then text, then tool calls, and the tool calls have
      distinct ids and arguments that can be encoded. */
  lemma StreamingAgreesIff(cfg: Config, chunks: seq<Chunk>)
    requires IsStream(chunks)
    ensures FeedAll(Idle, Output(cfg, chunks)) == Finished(ToMessagesResponse(Aggregate(chunks)))
            <==> ThinkingTextCalls(chunks) && Deliverable(ToolCalls(chunks))
  {
    InOrderIff(chunks);
    hide Ranks, Deliverable, Expected, Tracks, InStep, Feed, Run, Items, Interrupted, Step, Accumulated, Accounted;
    var last := chunks[|chunks| - 1];
    var items := StreamItems(chunks);
    var finish := Finish(last.doneReason, last.promptTokens, last.evalTokens);
    var a := Carries(items);
    assert AllItems(chunks) == items + [finish];
    StreamCarries(chunks);
    CarriesSnoc(items, finish);
    StreamNonEmpty(chunks);
    assert forall m :: 0 <= m < |items| ==> items[m] == AllItems(chunks)[m];
    RanksSnoc(items, finish);
    assert Ranks(items) + [] == Ranks(items);
    FinishedUnlessInterrupted(cfg, items, finish);
    var (s, e) := Run(cfg, FRESH, items);
    var blocks := Accumulated(FeedAll(Idle, e));
    ExpectedIsResponse(chunks, a);
    if InOrder(items) && Deliverable(a.calls) {
      OrderedAccumulates(cfg, items);
      UnfinishedInStep(cfg, items);
      SentSome(s, items);
    }
    if !Interrupted(items) && blocks == Expected(a) {
      AllAccounted(cfg, items);
      AccountedInFull(items, a);
    }
  }

  /** An answer that comes as one chunk is streamed as its non-streaming conversion:
      thinking, then text, then the tool calls. */
  lemma OneChunkStreams(cfg: Config, r: Chunk)
    requires r.done
    ensures FeedAll(Idle, Output(cfg, [r])) == Finished(ToMessagesResponse(r)) <==> Deliverable(r.toolCalls)
  {
    hide Output, FeedAll, Deliverable, ToMessagesResponse;
    StreamingAgreesIff(cfg, [r]);
    assert [r][..0] == [];
    assert Thinking([r]) == "" + r.thinking && Content([r]) == "" + r.content && ToolCalls([r]) == [] + r.toolCalls;
    assert "" + r.thinking == r.thinking && "" + r.content == r.content && [] + r.toolCalls == r.toolCalls;
    assert Aggregate([r]) == r;
  }

  lemma ExpectedIsResponse(chunks: seq<Chunk>, a: Carried)
    requires chunks != [] && a == Carried(Thinking(chunks), Content(chunks), ToolCalls(chunks))
    ensures Expected(a) == ToMessagesResponse(Aggregate(chunks)).blocks
  {
  }

  lemma SentSome(s: State, items: seq<Item>)
    requires Tracks(s, items) && Deliverable(Carries(items).calls)
    ensures |s.sent| > 0 <==> |Carries(items).calls| > 0
  {
    var calls := Carries(items).calls;
    if calls != [] {
      assert calls[0] in calls;
      SentIds(s, items, calls[0].id);
    }
    if s.sent != {} {
      var id :| id in s.sent;
      SentIds(s, items, id);
    }
  }

  lemma {:induction false} ToolBlocksMeasures(blocks: seq<Block>, tools: seq<ToolCall>)
    ensures ThinkingLength(blocks + ToolBlocks(tools)) == ThinkingLength(blocks)
    ensures ToolCount(blocks + ToolBlocks(tools)) == ToolCount(blocks) + |tools|
  {
    if tools == [] {
      assert blocks + ToolBlocks(tools) == blocks;
    } else {
      var front, t := tools[..|tools| - 1], tools[|tools| - 1];
      ToolBlocksMeasures(blocks, front);
      MeasuresSnoc(blocks + ToolBlocks(front), ToolUseBlock(t.id, t.name, t.args));
      assert blocks + ToolBlocks(tools) == (blocks + ToolBlocks(front)) + [ToolUseBlock(t.id, t.name, t.args)];
    }
  }

  lemma ExpectedMeasures(a: Carried)
    ensures ThinkingLength(Expected(a)) == |a.thinking| && ToolCount(Expected(a)) == |a.calls|
  {
    var thought: seq<Block> := if a.thinking != "" then [ThinkingBlock(a.thinking)] else [];
    assert ThinkingLength(thought) == |a.thinking| && ToolCount(thought) == 0 by {
      MeasuresSnoc([], ThinkingBlock(a.thinking));
      assert [] + [ThinkingBlock(a.thinking)] == [ThinkingBlock(a.thinking)];
    }
    hide ThinkingLength, ToolCount;
    var said: seq<Block> := if a.text != "" then [TextBlock(a.text)] else [];
    MeasuresSnoc(thought, TextBlock(a.text));
    assert thought + [] == thought;
    assert Expected(a) == (thought + said) + ToolBlocks(a.calls);
    ToolBlocksMeasures(thought + said, a.calls);
  }

  /** The expected blocks carry everything and are in order, so the items were. */
  lemma AccountedInFull(items: seq<Item>, a: Carried)
    requires a == Carries(items) && Accounted(items, Expected(a))
    ensures InOrder(items) && Deliverable(a.calls)
  {
    ExpectedMeasures(a);
    assert Ascending(BlockRanks(Expected(a))) by {
      var blocks := Expected(a);
      assert forall i, j :: 0 <= i < j < |blocks| ==> BlockRank(blocks[i]) <= BlockRank(blocks[j]);
    }
  }

  /** Full circle: an ordered, deliverable stream with named calls, accumulated
      by the client and sent back as an assistant message, is the answer the
      model gave. */
  lemma StreamedAnswerComesBack(cfg: Config, chunks: seq<Chunk>)
    requires IsStream(chunks)
    requires ThinkingTextCalls(chunks) && Deliverable(ToolCalls(chunks))
    requires Content(chunks) != "" || Thinking(chunks) != "" || ToolCalls(chunks) != []
    ensures var c := FeedAll(Idle, Output(cfg, chunks));
            c.Finished?
            && (Sound(AsParams(c.answer.blocks))
                <==> forall i :: 0 <= i < |ToolCalls(chunks)| ==> ToolCalls(chunks)[i].id != "" && ToolCalls(chunks)[i].name != "")
            && Assembled("assistant", AsParams(c.answer.blocks))
               == [Message("assistant", Content(chunks), [], ToolCalls(chunks), Thinking(chunks), "")]
  {
    hide ThinkingTextCalls, Deliverable, Sound, Assembled, Output, FeedAll;
    StreamingAgreesIff(cfg, chunks);
    RoundTrip("assistant", Aggregate(chunks));
    assert Lower("assistant") == "assistant";
  }
}
