/** A stream's chunks as the items the converter deals with, and what can be said of
    the chunks' own fields: their order, and whether thinking interrupts text. */
module StreamInput {
  import opened AnthropicTypes
  import opened Messages
  import opened Sequences
  import opened StreamConverter

  /** A stream: chunks of which the last one, and no other, is marked done. */
  ghost predicate IsStream(chunks: seq<Chunk>) {
    |chunks| > 0 && forall i :: 0 <= i < |chunks| ==> (chunks[i].done <==> i == |chunks| - 1)
  }

  function AllItems(chunks: seq<Chunk>): seq<Item> {
    if chunks == [] then [] else AllItems(chunks[..|chunks| - 1]) + Items(chunks[|chunks| - 1])
  }

  // ---- Conditions on the chunks --------------------------------------------------

  predicate Carrying(t: ToolCall, id: string) {
    t.id == id && t.args.Encodable?
  }

  /** An encodable call with this id is among the calls. */
  ghost predicate IdUsed(calls: seq<ToolCall>, id: string) {
    exists t :: t in calls && Carrying(t, id)
  }

  /** The k-th call carries an id that no encodable call before it carried. */
  ghost predicate NewAmong(before: seq<ToolCall>, calls: seq<ToolCall>, k: int)
    requires 0 <= k < |calls|
  {
    !IdUsed(before + calls[..k], calls[k].id)
  }

  ghost predicate SomeNew(before: seq<ToolCall>, calls: seq<ToolCall>) {
    exists k :: 0 <= k < |calls| && NewAmong(before, calls, k)
  }

  /** Chunk i has a tool call with a new id. */
  ghost predicate BringsNewCall(chunks: seq<Chunk>, i: int)
    requires 0 <= i < |chunks|
  {
    SomeNew(ToolCalls(chunks[..i]), chunks[i].toolCalls)
  }

  /** Some text has come with no new tool call since; a chunk's calls come after its text. */
  ghost predicate TextLeftOpen(chunks: seq<Chunk>) {
    exists j :: 0 <= j < |chunks| && chunks[j].content != "" && forall i :: j <= i < |chunks| ==> !BringsNewCall(chunks, i)
  }

  /** Chunk i brings the first thinking of the stream while text is open. */
  ghost predicate InterruptsAt(chunks: seq<Chunk>, i: int)
    requires 0 <= i < |chunks|
  {
    && chunks[i].thinking != ""
    && (forall m :: 0 <= m < i ==> chunks[m].thinking == "")
    && TextLeftOpen(chunks[..i])
  }

  ghost predicate ThinkingInterruptsText(chunks: seq<Chunk>) {
    exists i :: 0 <= i < |chunks| && InterruptsAt(chunks, i)
  }

  /** The chunks bring all thinking, then all text, then all tool calls. */
  ghost predicate ThinkingTextCalls(chunks: seq<Chunk>) {
    forall i, j :: 0 <= i < j < |chunks| ==>
      && (chunks[j].thinking != "" ==> chunks[i].content == "" && chunks[i].toolCalls == [])
      && (chunks[j].content != "" ==> chunks[i].toolCalls == [])
  }

  // ---- The same conditions on the items ---------------------------------------------

  /** Item k is a tool call whose id no earlier accepted call carried. */
  ghost predicate FreshCall(items: seq<Item>, k: int)
    requires 0 <= k < |items|
  {
    items[k].Call? && forall m :: 0 <= m < k ==> !Accepted(items[m], items[k].tool.id)
  }

  predicate Accepted(item: Item, id: string) {
    item.Call? && item.tool.id == id && item.tool.args.Encodable?
  }

  /** Some text has come with no new tool call after it. */
  ghost predicate TextPending(items: seq<Item>) {
    exists j :: 0 <= j < |items| && items[j].Say? && forall k :: j < k < |items| ==> !FreshCall(items, k)
  }

  /** Item i is the first thinking of the stream and comes while text is pending. */
  ghost predicate Interrupts(items: seq<Item>, i: int)
    requires 0 <= i < |items|
  {
    && items[i].Think?
    && (forall m :: 0 <= m < i ==> !items[m].Think?)
    && TextPending(items[..i])
  }

  ghost predicate Interrupted(items: seq<Item>) {
    exists i :: 0 <= i < |items| && Interrupts(items, i)
  }

  lemma FreshCallSnoc(items: seq<Item>, item: Item)
    ensures forall k :: 0 <= k < |items| ==> (FreshCall(items + [item], k) <==> FreshCall(items, k))
  {
    var all := items + [item];
    forall k | 0 <= k < |items|
      ensures FreshCall(all, k) <==> FreshCall(items, k)
    {
      assert forall m :: 0 <= m <= k ==> all[m] == items[m];
      if FreshCall(items, k) {
        assert forall m :: 0 <= m < k ==> !Accepted(items[m], items[k].tool.id);
      }
      if FreshCall(all, k) {
        assert forall m :: 0 <= m < k ==> !Accepted(all[m], all[k].tool.id);
      }
    }
  }

  lemma TextPendingSnoc(items: seq<Item>, item: Item)
    ensures TextPending(items + [item])
            <==> item.Say? || (TextPending(items) && !FreshCall(items + [item], |items|))
  {
    var all := items + [item];
    FreshCallSnoc(items, item);
    if item.Say? {
      assert all[|items|].Say?;
    }
    if TextPending(items) && !FreshCall(all, |items|) {
      var j :| 0 <= j < |items| && items[j].Say? && forall k :: j < k < |items| ==> !FreshCall(items, k);
      assert all[j].Say?;
    }
    if TextPending(all) && !item.Say? {
      var j :| 0 <= j < |all| && all[j].Say? && forall k :: j < k < |all| ==> !FreshCall(all, k);
      assert items[j].Say?;
    }
  }

  lemma InterruptedSnoc(items: seq<Item>, item: Item)
    ensures Interrupted(items + [item])
            <==> Interrupted(items)
                 || (item.Think? && (forall m :: 0 <= m < |items| ==> !items[m].Think?) && TextPending(items))
  {
    var all := items + [item];
    assert forall i :: 0 <= i <= |items| ==> all[..i] == items[..i];
    assert items[..|items|] == items;
    forall i | 0 <= i < |items|
      ensures Interrupts(all, i) <==> Interrupts(items, i)
    {
      assert forall m :: 0 <= m <= i ==> all[m] == items[m];
    }
    if Interrupted(items) {
      var i :| 0 <= i < |items| && Interrupts(items, i);
      assert Interrupts(all, i);
    }
    if item.Think? && (forall m :: 0 <= m < |items| ==> !items[m].Think?) && TextPending(items) {
      assert Interrupts(all, |items|);
    }
    if Interrupted(all) {
      var i :| 0 <= i < |all| && Interrupts(all, i);
      if i < |items| {
        assert Interrupts(items, i);
      }
    }
  }

  /** Thinking comes first, then text, then tool calls. */
  function Rank(item: Item): int {
    match item
    case Think(_) => 0
    case Say(_) => 1
    case Call(_) => 2
    case _ => -1
  }

  /** The ranks of the items that carry content, in order. */
  function Ranks(items: seq<Item>): seq<int> {
    if items == [] then []
    else
      var r := Rank(items[|items| - 1]);
      Ranks(items[..|items| - 1]) + (if r >= 0 then [r] else [])
  }

  ghost predicate Ascending(rs: seq<int>) {
    forall i, j :: 0 <= i < j < |rs| ==> rs[i] <= rs[j]
  }

  ghost predicate InOrder(items: seq<Item>) {
    Ascending(Ranks(items))
  }

  function LastOf(rs: seq<int>): int {
    if rs == [] then -1 else rs[|rs| - 1]
  }

  lemma AscendingSnoc(rs: seq<int>, r: int)
    requires forall i :: 0 <= i < |rs| ==> rs[i] >= 0
    requires r >= 0
    ensures Ascending(rs + [r]) <==> Ascending(rs) && LastOf(rs) <= r
  {
    var all := rs + [r];
    if Ascending(all) {
      assert forall i :: 0 <= i < |rs| ==> all[i] == rs[i];
      if rs != [] {
        assert all[|rs| - 1] <= all[|rs|];
      }
    }
  }

  lemma RanksSnoc(items: seq<Item>, item: Item)
    ensures Ranks(items + [item]) == Ranks(items) + (if Rank(item) >= 0 then [Rank(item)] else [])
  {
    assert (items + [item])[..|items|] == items;
  }

  lemma {:induction false} RanksPresent(items: seq<Item>)
    ensures forall i :: 0 <= i < |Ranks(items)| ==> Ranks(items)[i] >= 0
    ensures forall m :: 0 <= m < |items| && Rank(items[m]) >= 0 ==> Rank(items[m]) in Ranks(items)
  {
    if items != [] {
      RanksPresent(items[..|items| - 1]);
      var last := items[|items| - 1];
      if Rank(last) >= 0 {
        assert Rank(last) in Ranks(items[..|items| - 1]) + [Rank(last)];
      }
    }
  }

  /** An item that keeps the order has nothing of a later rank before it. */
  lemma OrderedBefore(items: seq<Item>, item: Item)
    requires InOrder(items + [item]) && Rank(item) >= 0
    ensures InOrder(items)
    ensures forall m :: 0 <= m < |items| ==> Rank(items[m]) <= Rank(item)
  {
    RanksSnoc(items, item);
    RanksPresent(items);
    AscendingSnoc(Ranks(items), Rank(item));
    var rs := Ranks(items) + [Rank(item)];
    forall m | 0 <= m < |items|
      ensures Rank(items[m]) <= Rank(item)
    {
      if Rank(items[m]) >= 0 {
        var i :| 0 <= i < |Ranks(items)| && Ranks(items)[i] == Rank(items[m]);
        assert rs[i] <= rs[|Ranks(items)|];
      }
    }
  }

  ghost predicate Has(items: seq<Item>, rank: int) {
    exists m :: 0 <= m < |items| && Rank(items[m]) == rank
  }

  lemma HasSnoc(items: seq<Item>, item: Item, rank: int)
    ensures Has(items + [item], rank) <==> Has(items, rank) || Rank(item) == rank
  {
    var all := items + [item];
    if Has(items, rank) {
      var m :| 0 <= m < |items| && Rank(items[m]) == rank;
      assert Rank(all[m]) == rank;
    }
    if Rank(item) == rank {
      assert Rank(all[|items|]) == rank;
    }
  }

  // ---- What the items carry ------------------------------------------------------------

  datatype Carried = Carried(thinking: string, text: string, calls: seq<ToolCall>)

  function Carry(a: Carried, item: Item): Carried {
    match item
    case Think(x) => a.(thinking := a.thinking + x)
    case Say(x) => a.(text := a.text + x)
    case Call(t) => a.(calls := a.calls + [t])
    case _ => a
  }

  function Carries(items: seq<Item>): Carried {
    if items == [] then Carried("", "", [])
    else Carry(Carries(items[..|items| - 1]), items[|items| - 1])
  }

  lemma CarriesSnoc(items: seq<Item>, item: Item)
    ensures Carries(items + [item]) == Carry(Carries(items), item)
  {
    assert (items + [item])[..|items|] == items;
  }

  lemma {:induction false} CarriedCalls(items: seq<Item>)
    ensures forall m :: 0 <= m < |items| && items[m].Call? ==> items[m].tool in Carries(items).calls
    ensures forall t :: t in Carries(items).calls ==> Call(t) in items
  {
    if items != [] {
      CarriedCalls(items[..|items| - 1]);
    }
  }

  lemma {:induction false} CallItemsCarry(items: seq<Item>, tools: seq<ToolCall>)
    ensures var a := Carries(items);
            Carries(items + CallItems(tools)) == a.(calls := a.calls + tools)
  {
    if tools == [] {
      assert items + CallItems(tools) == items;
      assert Carries(items).calls + [] == Carries(items).calls;
    } else {
      var front, t := tools[..|tools| - 1], tools[|tools| - 1];
      assert CallItems(tools) == CallItems(front) + [Call(t)];
      hide Carries, CallItems;
      CallItemsCarry(items, front);
      CarriesSnoc(items + CallItems(front), Call(t));
      ConcatAssociative(items, CallItems(front), [Call(t)]);
      SplitLast(tools);
      ConcatAssociative(Carries(items).calls, front, [t]);
    }
  }

  lemma ThinkItemsCarry(items: seq<Item>, x: string)
    ensures Carries(items + ThinkItems(x)) == (var a := Carries(items); a.(thinking := a.thinking + x))
  {
    if x != "" {
      CarriesSnoc(items, Think(x));
    } else {
      assert items + [] == items;
      assert Carries(items).thinking + "" == Carries(items).thinking;
    }
  }

  lemma SayItemsCarry(items: seq<Item>, x: string)
    ensures Carries(items + SayItems(x)) == (var a := Carries(items); a.(text := a.text + x))
  {
    if x != "" {
      CarriesSnoc(items, Say(x));
    } else {
      assert items + [] == items;
      assert Carries(items).text + "" == Carries(items).text;
    }
  }

  lemma FinishItemsCarry(items: seq<Item>, r: Chunk)
    ensures Carries(items + FinishItems(r)) == Carries(items)
  {
    if r.done {
      CarriesSnoc(items, FinishItems(r)[0]);
    } else {
      assert items + [] == items;
    }
  }

  lemma ItemsCarry(items: seq<Item>, r: Chunk)
    ensures var a := Carries(items);
            Carries(items + Items(r)) == Carried(a.thinking + r.thinking, a.text + r.content, a.calls + r.toolCalls)
  {
    CarriesSnoc(items, Begin(r.promptTokens));
    hide Carries, CallItems, ThinkItems, SayItems, FinishItems;
    var i1 := items + [Begin(r.promptTokens)];
    ThinkItemsCarry(i1, r.thinking);
    var i2 := i1 + ThinkItems(r.thinking);
    SayItemsCarry(i2, r.content);
    var i3 := i2 + SayItems(r.content);
    CallItemsCarry(i3, r.toolCalls);
    var i4 := i3 + CallItems(r.toolCalls);
    FinishItemsCarry(i4, r);
    assert items + Items(r) == i4 + FinishItems(r);
  }

  lemma {:induction false} StreamCarries(chunks: seq<Chunk>)
    ensures Carries(AllItems(chunks)) == Carried(Thinking(chunks), Content(chunks), ToolCalls(chunks))
  {
    if chunks != [] {
      hide Items;
      var front := chunks[..|chunks| - 1];
      StreamCarries(front);
      ItemsCarry(AllItems(front), chunks[|chunks| - 1]);
    }
  }

  // ---- One condition in two forms --------------------------------------------------------

  lemma UsedIffAccepted(items: seq<Item>, id: string)
    ensures IdUsed(Carries(items).calls, id) <==> exists m :: 0 <= m < |items| && Accepted(items[m], id)
  {
    CarriedCalls(items);
    if t :| t in Carries(items).calls && Carrying(t, id) {
      var m :| 0 <= m < |items| && items[m] == Call(t);
      assert Accepted(items[m], id);
    }
    if m :| 0 <= m < |items| && Accepted(items[m], id) {
      assert Carrying(items[m].tool, id);
    }
  }

  lemma FreshIffUnused(items: seq<Item>, t: ToolCall)
    ensures FreshCall(items + [Call(t)], |items|) <==> !IdUsed(Carries(items).calls, t.id)
  {
    UsedIffAccepted(items, t.id);
    var all := items + [Call(t)];
    assert all[|items|] == Call(t) && forall m :: 0 <= m < |items| ==> all[m] == items[m];
    if m :| 0 <= m < |items| && Accepted(items[m], t.id) {
      assert Accepted(all[m], t.id);
    }
    hide IdUsed;
  }

  lemma SomeNewSnoc(before: seq<ToolCall>, calls: seq<ToolCall>, t: ToolCall)
    ensures SomeNew(before, calls + [t]) <==> SomeNew(before, calls) || !IdUsed(before + calls, t.id)
  {
    var all := calls + [t];
    hide IdUsed;
    assert all[..|calls|] == calls && all[|calls|] == t;
    forall k | 0 <= k < |calls|
      ensures NewAmong(before, all, k) <==> NewAmong(before, calls, k)
    {
      assert all[..k] == calls[..k];
    }
    assert NewAmong(before, all, |calls|) <==> !IdUsed(before + calls, t.id);
    hide NewAmong;
    if k :| 0 <= k < |calls| && NewAmong(before, calls, k) {
      assert NewAmong(before, all, k);
    }
    if NewAmong(before, all, |calls|) {
      assert SomeNew(before, all);
    }
  }

  /** Calls end pending text exactly when one of them is new. */
  lemma {:induction false} CallsPending(items: seq<Item>, tools: seq<ToolCall>)
    ensures TextPending(items + CallItems(tools))
            <==> TextPending(items) && !SomeNew(Carries(items).calls, tools)
  {
    if tools == [] {
      assert items + CallItems(tools) == items;
    } else {
      var front, t := tools[..|tools| - 1], tools[|tools| - 1];
      assert CallItems(tools) == CallItems(front) + [Call(t)];
      hide Carries, CallItems, TextPending, FreshCall, IdUsed, SomeNew;
      CallsPending(items, front);
      CallItemsCarry(items, front);
      TextPendingSnoc(items + CallItems(front), Call(t));
      FreshIffUnused(items + CallItems(front), t);
      ConcatAssociative(items, CallItems(front), [Call(t)]);
      SomeNewSnoc(Carries(items).calls, front, t);
      SplitLast(tools);
    }
  }

  ghost predicate Thought(items: seq<Item>) {
    exists m :: 0 <= m < |items| && items[m].Think?
  }

  lemma ThoughtSnoc(items: seq<Item>, item: Item)
    ensures Thought(items + [item]) <==> Thought(items) || item.Think?
  {
    var all := items + [item];
    if m :| 0 <= m < |items| && items[m].Think? {
      assert all[m].Think?;
    }
    if item.Think? {
      assert all[|items|].Think?;
    }
  }

  /** What one more item does to the three conditions. */
  lemma ConditionsSnoc(items: seq<Item>, item: Item)
    requires !item.Call?
    ensures TextPending(items + [item]) <==> item.Say? || TextPending(items)
    ensures Thought(items + [item]) <==> Thought(items) || item.Think?
    ensures Interrupted(items + [item]) <==> Interrupted(items) || (item.Think? && !Thought(items) && TextPending(items))
  {
    TextPendingSnoc(items, item);
    ThoughtSnoc(items, item);
    InterruptedSnoc(items, item);
    hide TextPending, Interrupted;
  }

  lemma {:induction false} CallsKeepConditions(items: seq<Item>, tools: seq<ToolCall>)
    ensures Thought(items + CallItems(tools)) <==> Thought(items)
    ensures Interrupted(items + CallItems(tools)) <==> Interrupted(items)
  {
    if tools == [] {
      assert items + CallItems(tools) == items;
    } else {
      var front, t := tools[..|tools| - 1], tools[|tools| - 1];
      assert CallItems(tools) == CallItems(front) + [Call(t)];
      hide CallItems, TextPending, Interrupted, Thought;
      CallsKeepConditions(items, front);
      ThoughtSnoc(items + CallItems(front), Call(t));
      InterruptedSnoc(items + CallItems(front), Call(t));
      ConcatAssociative(items, CallItems(front), [Call(t)]);
    }
  }

  /** What one more chunk does to them. */
  lemma ChunkConditions(items: seq<Item>, r: Chunk)
    ensures var all := items + Items(r);
            && (Thought(all) <==> Thought(items) || r.thinking != "")
            && (TextPending(all) <==>
                  (TextPending(items) || r.content != "")
                  && !SomeNew(Carries(items).calls, r.toolCalls))
            && (Interrupted(all) <==> Interrupted(items) || (r.thinking != "" && !Thought(items) && TextPending(items)))
  {
    hide Carries, CallItems, TextPending, Interrupted, Thought, SomeNew;
    CarriesSnoc(items, Begin(r.promptTokens));
    var i1 := items + [Begin(r.promptTokens)];
    ConditionsSnoc(items, Begin(r.promptTokens));
    ThinkItemsCarry(i1, r.thinking);
    var i2 := i1 + ThinkItems(r.thinking);
    if r.thinking != "" {
      ConditionsSnoc(i1, Think(r.thinking));
    } else {
      assert i2 == i1;
    }
    SayItemsCarry(i2, r.content);
    var i3 := i2 + SayItems(r.content);
    if r.content != "" {
      ConditionsSnoc(i2, Say(r.content));
    } else {
      assert i3 == i2;
    }
    CallsPending(i3, r.toolCalls);
    CallsKeepConditions(i3, r.toolCalls);
    var i4 := i3 + CallItems(r.toolCalls);
    if r.done {
      ConditionsSnoc(i4, Finish(r.doneReason, r.promptTokens, r.evalTokens));
    } else {
      assert i4 + FinishItems(r) == i4;
    }
    assert items + Items(r) == i4 + FinishItems(r);
  }

  lemma NewCallInFront(chunks: seq<Chunk>, n: nat, i: nat)
    requires i < n <= |chunks|
    ensures BringsNewCall(chunks[..n], i) <==> BringsNewCall(chunks, i)
  {
    hide SomeNew;
    assert chunks[..n][..i] == chunks[..i];
  }

  lemma TextLeftOpenSnoc(front: seq<Chunk>, r: Chunk)
    ensures TextLeftOpen(front + [r]) <==>
            (TextLeftOpen(front) || r.content != "")
            && !SomeNew(ToolCalls(front), r.toolCalls)
  {
    var all, n := front + [r], |front|;
    assert all[..n] == front && all[n] == r;
    forall i | 0 <= i < n
      ensures BringsNewCall(all, i) <==> BringsNewCall(front, i)
    {
      NewCallInFront(all, n, i);
    }
    var brings := BringsNewCall(all, n);
    assert brings <==> SomeNew(ToolCalls(front), r.toolCalls);
    hide BringsNewCall, SomeNew;
    if !brings {
      if r.content != "" {
        assert all[n].content != "" && TextLeftOpen(all);
      }
      if j :| 0 <= j < n && front[j].content != "" && forall i :: j <= i < n ==> !BringsNewCall(front, i) {
        assert all[j].content != "" && forall i :: j <= i <= n ==> !BringsNewCall(all, i);
        assert TextLeftOpen(all);
      }
    }
    if j :| 0 <= j <= n && all[j].content != "" && forall i :: j <= i <= n ==> !BringsNewCall(all, i) {
      assert !brings;
      if j < n {
        assert front[j].content != "" && forall i :: j <= i < n ==> !BringsNewCall(front, i);
      } else {
        assert r.content != "";
      }
    }
  }

  lemma InterruptsTextSnoc(front: seq<Chunk>, r: Chunk)
    ensures ThinkingInterruptsText(front + [r]) <==>
            ThinkingInterruptsText(front)
            || (r.thinking != "" && (forall m :: 0 <= m < |front| ==> front[m].thinking == "") && TextLeftOpen(front))
  {
    var all, n := front + [r], |front|;
    assert all[..n] == front && all[n] == r && forall m :: 0 <= m < n ==> all[m] == front[m];
    hide TextLeftOpen;
    forall i | 0 <= i < n
      ensures InterruptsAt(all, i) <==> InterruptsAt(front, i)
    {
      assert all[..i] == front[..i];
    }
    assert InterruptsAt(all, n) <==>
           r.thinking != "" && (forall m :: 0 <= m < n ==> front[m].thinking == "") && TextLeftOpen(front);
    hide InterruptsAt;
    if i :| 0 <= i < n && InterruptsAt(front, i) {
      assert InterruptsAt(all, i);
    }
    if InterruptsAt(all, n) {
      assert ThinkingInterruptsText(all);
    }
  }

  lemma AllItemsSnoc(front: seq<Chunk>, r: Chunk)
    ensures AllItems(front + [r]) == AllItems(front) + Items(r)
    ensures ToolCalls(front + [r]) == ToolCalls(front) + r.toolCalls
  {
    hide Items;
    assert (front + [r])[..|front|] == front;
  }

  ghost predicate SomeThinking(chunks: seq<Chunk>) {
    exists m :: 0 <= m < |chunks| && chunks[m].thinking != ""
  }

  lemma SomeThinkingSnoc(front: seq<Chunk>, r: Chunk)
    ensures SomeThinking(front + [r]) <==> SomeThinking(front) || r.thinking != ""
    ensures !SomeThinking(front) <==> forall m :: 0 <= m < |front| ==> front[m].thinking == ""
  {
    var all, n := front + [r], |front|;
    assert all[n] == r && forall m :: 0 <= m < n ==> all[m] == front[m];
  }

  /** Thinking interrupts text among the items exactly when it does among the chunks. */
  lemma {:induction false} InterruptedIff(chunks: seq<Chunk>)
    ensures Interrupted(AllItems(chunks)) <==> ThinkingInterruptsText(chunks)
    ensures TextPending(AllItems(chunks)) <==> TextLeftOpen(chunks)
    ensures Thought(AllItems(chunks)) <==> SomeThinking(chunks)
  {
    if chunks != [] {
      hide *;
      var front, r := chunks[..|chunks| - 1], chunks[|chunks| - 1];
      InterruptedIff(front);
      StreamCarries(front);
      SplitLast(chunks);
      AllItemsSnoc(front, r);
      ChunkConditions(AllItems(front), r);
      TextLeftOpenSnoc(front, r);
      InterruptsTextSnoc(front, r);
      SomeThinkingSnoc(front, r);
    }
  }

  // ---- Order in two forms ------------------------------------------------------------------

  lemma OrderSnoc(items: seq<Item>, item: Item)
    ensures InOrder(items + [item]) <==>
            InOrder(items) && (Rank(item) >= 0 ==> forall m :: 0 <= m < |items| ==> Rank(items[m]) <= Rank(item))
  {
    RanksSnoc(items, item);
    assert Ranks(items) + [] == Ranks(items);
    if Rank(item) >= 0 {
      if InOrder(items + [item]) {
        OrderedBefore(items, item);
      }
      RanksPresent(items);
      AscendingSnoc(Ranks(items), Rank(item));
      if InOrder(items) && (forall m :: 0 <= m < |items| ==> Rank(items[m]) <= Rank(item)) && Ranks(items) != [] {
        RankedByItem(items, LastOf(Ranks(items)));
      }
    }
  }

  lemma {:induction false} RankedByItem(items: seq<Item>, rank: int)
    requires rank in Ranks(items)
    ensures exists m :: 0 <= m < |items| && Rank(items[m]) == rank
  {
    var front, item := items[..|items| - 1], items[|items| - 1];
    if Rank(item) != rank {
      RankedByItem(front, rank);
    }
  }

  /** The order condition for one more item, in terms of the kinds that have come. */
  lemma OrderKinds(items: seq<Item>, item: Item)
    ensures InOrder(items + [item]) <==>
            InOrder(items) && (item.Think? ==> !Has(items, 1) && !Has(items, 2)) && (item.Say? ==> !Has(items, 2))
    ensures forall rank :: Has(items + [item], rank) <==> Has(items, rank) || Rank(item) == rank
  {
    OrderSnoc(items, item);
    forall rank {
      HasSnoc(items, item, rank);
    }
    assert forall m :: 0 <= m < |items| ==> Has(items, Rank(items[m]));
    hide InOrder;
  }

  lemma {:induction false} CallsInOrder(items: seq<Item>, tools: seq<ToolCall>)
    ensures InOrder(items + CallItems(tools)) <==> InOrder(items)
    ensures forall rank :: Has(items + CallItems(tools), rank) <==> Has(items, rank) || (tools != [] && rank == 2)
  {
    if tools == [] {
      assert items + CallItems(tools) == items;
    } else {
      var front, t := tools[..|tools| - 1], tools[|tools| - 1];
      assert CallItems(tools) == CallItems(front) + [Call(t)];
      hide CallItems, Has, InOrder;
      CallsInOrder(items, front);
      OrderKinds(items + CallItems(front), Call(t));
      ConcatAssociative(items, CallItems(front), [Call(t)]);
    }
  }

  lemma ChunkInOrder(items: seq<Item>, r: Chunk)
    ensures InOrder(items + Items(r)) <==>
            InOrder(items) && (r.thinking != "" ==> !Has(items, 1) && !Has(items, 2)) && (r.content != "" ==> !Has(items, 2))
    ensures Has(items + Items(r), 1) <==> Has(items, 1) || r.content != ""
    ensures Has(items + Items(r), 2) <==> Has(items, 2) || r.toolCalls != []
  {
    hide CallItems, Has, InOrder;
    var i1 := items + [Begin(r.promptTokens)];
    OrderKinds(items, Begin(r.promptTokens));
    var i2 := i1 + ThinkItems(r.thinking);
    if r.thinking != "" {
      OrderKinds(i1, Think(r.thinking));
    } else {
      assert i2 == i1;
    }
    var i3 := i2 + SayItems(r.content);
    if r.content != "" {
      OrderKinds(i2, Say(r.content));
    } else {
      assert i3 == i2;
    }
    CallsInOrder(i3, r.toolCalls);
    var i4 := i3 + CallItems(r.toolCalls);
    if r.done {
      OrderKinds(i4, Finish(r.doneReason, r.promptTokens, r.evalTokens));
    } else {
      assert i4 + FinishItems(r) == i4;
    }
    assert items + Items(r) == i4 + FinishItems(r);
  }

  /** The items are in order exactly when the chunks are. */
  lemma {:induction false} InOrderIff(chunks: seq<Chunk>)
    ensures InOrder(AllItems(chunks)) <==> ThinkingTextCalls(chunks)
    ensures Has(AllItems(chunks), 1) <==> exists m :: 0 <= m < |chunks| && chunks[m].content != ""
    ensures Has(AllItems(chunks), 2) <==> exists m :: 0 <= m < |chunks| && chunks[m].toolCalls != []
  {
    if chunks != [] {
      hide Items, InOrder, Has, ThinkingTextCalls;
      var front, r := chunks[..|chunks| - 1], chunks[|chunks| - 1];
      InOrderIff(front);
      ChunkInOrder(AllItems(front), r);
      TextsBefore(front, r);
      SplitLast(chunks);
      SomeSnoc(front, r);
    }
  }

  lemma TextsBefore(front: seq<Chunk>, r: Chunk)
    ensures ThinkingTextCalls(front + [r]) <==>
            && ThinkingTextCalls(front)
            && (r.thinking != "" ==> forall m :: 0 <= m < |front| ==> front[m].content == "" && front[m].toolCalls == [])
            && (r.content != "" ==> forall m :: 0 <= m < |front| ==> front[m].toolCalls == [])
  {
    var all, n := front + [r], |front|;
    assert all[n] == r && forall m :: 0 <= m < n ==> all[m] == front[m];
  }

  lemma SomeSnoc(front: seq<Chunk>, r: Chunk)
    ensures var all := front + [r];
            && ((exists m :: 0 <= m < |all| && all[m].content != "")
                <==> (exists m :: 0 <= m < |front| && front[m].content != "") || r.content != "")
            && ((exists m :: 0 <= m < |all| && all[m].toolCalls != [])
                <==> (exists m :: 0 <= m < |front| && front[m].toolCalls != []) || r.toolCalls != [])
  {
    var all, n := front + [r], |front|;
    assert all[n] == r && forall m :: 0 <= m < n ==> all[m] == front[m];
  }
}
