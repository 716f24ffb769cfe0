/** The receiving end of the event flow: what an Anthropic client accepts, and
    the answer it accumulates from the events. It does not look at the converter. */
module StreamClient {
  import opened AnthropicTypes
  import opened Sequences
  import opened Wrappers

  datatype Client =
    | Idle
    | Streaming(blocks: seq<Block>, open: Option<Block>)
    | Closing(answer: Answer)
    | Finished(answer: Answer)
    | Malformed

  function Opened(start: Start): Block {
    match start
    case StartThinking => ThinkingBlock("")
    case StartText => TextBlock("")
    case StartToolUse(id, name) => ToolUseBlock(id, name, Encodable(""))
  }

  /** The open block extended by a delta of its own kind. */
  function Extended(b: Block, d: Delta): Option<Block> {
    match (b, d)
    case (ThinkingBlock(t), ThinkingDelta(x)) => Some(ThinkingBlock(t + x))
    case (TextBlock(t), TextDelta(x)) => Some(TextBlock(t + x))
    case (ToolUseBlock(id, name, Encodable(j)), InputJsonDelta(x)) => Some(ToolUseBlock(id, name, Encodable(j + x)))
    case _ => None
  }

  /** One event. Blocks never overlap and are numbered 0, 1, 2, ... */
  function Feed(c: Client, e: Event): Client {
    match (c, e)
    case (Idle, MessageStart(_, _, _)) => Streaming([], None)
    case (Streaming(blocks, None), ContentBlockStart(index, start)) =>
      if index == |blocks| then Streaming(blocks, Some(Opened(start))) else Malformed
    case (Streaming(blocks, Some(b)), ContentBlockDelta(index, d)) =>
      if index == |blocks| && Extended(b, d).Some? then Streaming(blocks, Extended(b, d)) else Malformed
    case (Streaming(blocks, Some(b)), ContentBlockStop(index)) =>
      if index == |blocks| then Streaming(blocks + [b], None) else Malformed
    case (Streaming(blocks, None), MessageDelta(reason, input, output)) =>
      Closing(Answer(blocks, reason, input, output))
    case (Closing(answer), MessageStop) => Finished(answer)
    case _ => Malformed
  }

  function FeedAll(c: Client, events: seq<Event>): Client {
    if events == [] then c
    else Feed(FeedAll(c, events[..|events| - 1]), events[|events| - 1])
  }

  lemma FeedSnoc(c: Client, events: seq<Event>, e: Event)
    ensures FeedAll(c, events + [e]) == Feed(FeedAll(c, events), e)
  {
    assert (events + [e])[..|events|] == events;
  }

  lemma {:induction false} FeedConcat(c: Client, a: seq<Event>, b: seq<Event>)
    ensures FeedAll(c, a + b) == FeedAll(FeedAll(c, a), b)
    decreases |b|
  {
    hide Feed;
    if b == [] {
      assert a + b == a;
    } else {
      var front, last := b[..|b| - 1], b[|b| - 1];
      FeedConcat(c, a, front);
      FeedSnoc(c, a + front, last);
      assert a + b == (a + front) + [last];
    }
  }

  lemma FeedPair(c: Client, e0: Event, e1: Event)
    ensures FeedAll(c, [e0]) == Feed(c, e0)
    ensures FeedAll(c, [e0, e1]) == Feed(Feed(c, e0), e1)
  {
    hide Feed;
    FeedSnoc(c, [], e0);
    FeedSnoc(c, [e0], e1);
    assert [] + [e0] == [e0];
    assert [e0] + [e1] == [e0, e1];
  }

  lemma {:induction false} MalformedStays(events: seq<Event>)
    ensures FeedAll(Malformed, events) == Malformed
  {
    if events != [] {
      MalformedStays(events[..|events| - 1]);
    }
  }

  // ---- The same flow as a grammar ------------------------------------------

  predicate KindMatches(start: Start, d: Delta) {
    match start
    case StartThinking => d.ThinkingDelta?
    case StartText => d.TextDelta?
    case StartToolUse(_, _) => d.InputJsonDelta?
  }

  /** Block number `index`: a start, deltas of its own kind, a stop. */
  ghost predicate BlockEvents(g: seq<Event>, index: int) {
    && |g| >= 2
    && g[0].ContentBlockStart? && g[0].index == index
    && g[|g| - 1] == ContentBlockStop(index)
    && forall i :: 0 < i < |g| - 1 ==>
         g[i].ContentBlockDelta? && g[i].index == index && KindMatches(g[0].start, g[i].delta)
  }

  ghost predicate Numbered(groups: seq<seq<Event>>) {
    forall i :: 0 <= i < |groups| ==> BlockEvents(groups[i], i)
  }

  /** message_start, the numbered blocks one after the other, message_delta, message_stop. */
  ghost predicate WellFormed(events: seq<Event>) {
    exists start: Event, groups: seq<seq<Event>>, delta: Event ::
      start.MessageStart? && Numbered(groups) && delta.MessageDelta?
      && events == [start] + Flatten(groups) + [delta, MessageStop]
  }

  /** While streaming, what has arrived is message_start, complete blocks and
      perhaps the beginning of one more. */
  ghost predicate Parsed(events: seq<Event>, c: Client, start: Event, groups: seq<seq<Event>>, partial: seq<Event>)
    requires c.Streaming?
  {
    && start.MessageStart?
    && Numbered(groups) && |groups| == |c.blocks|
    && events == [start] + Flatten(groups) + partial
    && (c.open.None? <==> partial == [])
    && (c.open.Some? ==> PartialBlock(partial, |groups|, c.open.value))
  }

  ghost predicate PartialBlock(p: seq<Event>, index: int, b: Block) {
    && |p| >= 1
    && p[0].ContentBlockStart? && p[0].index == index
    && (forall i :: 0 < i < |p| ==>
          p[i].ContentBlockDelta? && p[i].index == index && KindMatches(p[0].start, p[i].delta))
    && (p[0].start.StartThinking? <==> b.ThinkingBlock?)
    && (p[0].start.StartText? <==> b.TextBlock?)
  }

  lemma {:induction false} StreamingParses(events: seq<Event>)
    returns (start: Event, groups: seq<seq<Event>>, partial: seq<Event>)
    requires FeedAll(Idle, events).Streaming?
    ensures Parsed(events, FeedAll(Idle, events), start, groups, partial)
  {
    var front, e := events[..|events| - 1], events[|events| - 1];
    assert events == front + [e];
    if FeedAll(Idle, front).Idle? {
      IdleMeansEmpty(front);
      start, groups, partial := e, [], [];
    } else {
      hide FeedAll, Parsed;
      FeedSnoc(Idle, front, e);
      OnlyStreamingContinues(FeedAll(Idle, front), e);
      start, groups, partial := StreamingParses(front);
      groups, partial := ParsedOn(front, e, FeedAll(Idle, front), start, groups, partial);
    }
  }

  lemma OnlyStreamingContinues(c: Client, e: Event)
    requires Feed(c, e).Streaming? && !c.Idle?
    ensures c.Streaming?
  {
  }

  /** One more event: a stop completes the block begun, anything else extends it. */
  lemma ParsedOn(front: seq<Event>, e: Event, c: Client, start: Event, groups: seq<seq<Event>>, partial: seq<Event>)
    returns (groups': seq<seq<Event>>, partial': seq<Event>)
    requires c.Streaming? && Feed(c, e).Streaming? && Parsed(front, c, start, groups, partial)
    ensures Parsed(front + [e], Feed(c, e), start, groups', partial')
  {
    if e.ContentBlockStop? {
      groups', partial' := groups + [partial + [e]], [];
      FlattenSnoc(groups, partial + [e]);
      hide Flatten;
      assert front + [e] == [start] + (Flatten(groups) + (partial + [e])) + [];
    } else {
      hide Flatten;
      groups', partial' := groups, partial + [e];
      assert front + [e] == [start] + Flatten(groups) + (partial + [e]);
    }
  }

  lemma {:induction false} IdleMeansEmpty(events: seq<Event>)
    ensures FeedAll(Idle, events).Idle? <==> events == []
  {
    if events != [] {
      IdleMeansEmpty(events[..|events| - 1]);
    }
  }

  lemma LastTwo(c: Client, delta: Event, stop: Event)
    requires Feed(Feed(c, delta), stop).Finished?
    ensures c.Streaming? && c.open == None && delta.MessageDelta? && stop == MessageStop
  {
  }

  /** Soundness of the client: whatever it finishes on obeys the grammar. */
  lemma FinishedIsWellFormed(events: seq<Event>)
    requires FeedAll(Idle, events).Finished?
    ensures WellFormed(events)
  {
    var n := |events|;
    var front, delta, stop := events[..n - 2], events[n - 2], events[n - 1];
    assert events[..n - 1] == front + [delta] && events == (front + [delta]) + [stop];
    FeedSnoc(Idle, front, delta);
    FeedSnoc(Idle, front + [delta], stop);
    LastTwo(FeedAll(Idle, front), delta, stop);
    hide FeedAll, Feed, Flatten;
    var start, groups, partial := StreamingParses(front);
    assert events == [start] + Flatten(groups) + [delta, MessageStop];
  }

  lemma {:induction false} BlockIsAccepted(blocks: seq<Block>, g: seq<Event>, k: nat)
    requires BlockEvents(g, |blocks|) && 1 <= k < |g|
    ensures var c := FeedAll(Streaming(blocks, None), g[..k]);
            c.Streaming? && c.blocks == blocks && c.open.Some? && PartialBlock(g[..k], |blocks|, c.open.value)
            && (c.open.value.ToolUseBlock? ==> c.open.value.args.Encodable?)
  {
    if k == 1 {
      FeedSnoc(Streaming(blocks, None), [], g[0]);
      assert g[..1] == [] + [g[0]];
    } else {
      BlockIsAccepted(blocks, g, k - 1);
      FeedSnoc(Streaming(blocks, None), g[..k - 1], g[k - 1]);
      assert g[..k] == g[..k - 1] + [g[k - 1]];
    }
  }

  lemma {:induction false} BlocksAreAccepted(start: Event, groups: seq<seq<Event>>) returns (blocks: seq<Block>)
    requires start.MessageStart? && Numbered(groups)
    ensures |blocks| == |groups| && FeedAll(Idle, [start] + Flatten(groups)) == Streaming(blocks, None)
  {
    if groups == [] {
      FeedSnoc(Idle, [], start);
      assert [start] + Flatten(groups) == [] + [start];
      blocks := [];
    } else {
      var front, g := groups[..|groups| - 1], groups[|groups| - 1];
      assert Numbered(front) && BlockEvents(g, |front|);
      assert Flatten(groups) == Flatten(front) + g;
      hide FeedAll, Flatten, BlockEvents, Numbered, Feed;
      var done := BlocksAreAccepted(start, front);
      var block := WholeBlockIsAccepted(done, g);
      FeedConcat(Idle, [start] + Flatten(front), g);
      assert [start] + Flatten(groups) == ([start] + Flatten(front)) + g;
      blocks := done + [block];
    }
  }

  lemma WholeBlockIsAccepted(blocks: seq<Block>, g: seq<Event>) returns (b: Block)
    requires BlockEvents(g, |blocks|)
    ensures FeedAll(Streaming(blocks, None), g) == Streaming(blocks + [b], None)
  {
    var n := |g| - 1;
    BlockIsAccepted(blocks, g, n);
    FeedSnoc(Streaming(blocks, None), g[..n], g[n]);
    assert g == g[..n] + [g[n]];
    b := FeedAll(Streaming(blocks, None), g[..n]).open.value;
  }

  /** The client finishes exactly on the event sequences of the grammar. */
  lemma AcceptedIffWellFormed(events: seq<Event>)
    ensures FeedAll(Idle, events).Finished? <==> WellFormed(events)
  {
    if FeedAll(Idle, events).Finished? {
      FinishedIsWellFormed(events);
    }
    if WellFormed(events) {
      var start: Event, groups: seq<seq<Event>>, delta: Event :|
        start.MessageStart? && Numbered(groups) && delta.MessageDelta?
        && events == [start] + Flatten(groups) + [delta, MessageStop];
      var blocks := BlocksAreAccepted(start, groups);
      FeedConcat(Idle, [start] + Flatten(groups), [delta, MessageStop]);
      FeedPair(Streaming(blocks, None), delta, MessageStop);
    }
  }
}
