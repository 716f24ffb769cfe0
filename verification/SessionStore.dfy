/** The session store: message trees with their node mapping, and per chat a capped
    log of messages with an index of their ids. Saving and loading are sequential. */
module SessionStore {
  import opened Sequences
  import opened Wrappers

  type Id = string
  type Chat = string

  datatype Entry = Entry(id: Id, ts: string, direction: string, kind: string)

  datatype Tree = Tree(nodes: set<Id>, data: string)

  datatype Store = Store(
    trees: map<Id, Tree>,
    nodeToTree: map<Id, Id>,
    log: map<Chat, seq<Entry>>,
    ids: map<Chat, set<Id>>)

  function IdsOf(items: seq<Entry>): (r: seq<Id>)
    ensures |r| == |items|
    ensures forall i :: 0 <= i < |items| ==> r[i] == items[i].id
  {
    seq(|items|, i requires 0 <= i < |items| => items[i].id)
  }

  function IdSet(items: seq<Entry>): set<Id> {
    set e | e in items :: e.id
  }

  /** The index agrees with the log, and no chat logs an id twice. */
  ghost predicate Inv(s: Store) {
    && s.log.Keys == s.ids.Keys
    && forall c :: c in s.log ==> s.ids[c] == IdSet(s.log[c]) && Distinct(IdsOf(s.log[c]))
  }

  function LogOf(s: Store, chat: Chat): seq<Entry> {
    if chat in s.log then s.log[chat] else []
  }

  /** How many of n entries the cap leaves room for. */
  function Room(n: nat, cap: Option<int>): nat {
    if cap.Some? && 0 < cap.value < n then cap.value else n
  }

  /** The newest `cap` entries, when a positive cap is set. */
  function Capped(items: seq<Entry>, cap: Option<int>): (r: seq<Entry>)
    ensures |r| == Room(|items|, cap) && r == items[|items| - |r|..]
  {
    if cap.Some? && cap.value > 0 && |items| > cap.value then items[|items| - cap.value..] else items
  }

  function Recorded(s: Store, chat: Chat, e: Entry, cap: Option<int>): Store {
    if chat in s.ids && e.id in s.ids[chat] then s
    else
      Put(s, chat, Capped(LogOf(s, chat) + [e], cap))
  }

  lemma DistinctSuffix(items: seq<Entry>, k: nat)
    requires k <= |items| && Distinct(IdsOf(items))
    ensures Distinct(IdsOf(items[k..]))
  {
    forall i, j | 0 <= i < j < |items[k..]|
      ensures IdsOf(items[k..])[i] != IdsOf(items[k..])[j]
    {
      assert IdsOf(items)[k + i] != IdsOf(items)[k + j];
    }
  }

  lemma DistinctSnoc(items: seq<Entry>, e: Entry)
    requires Distinct(IdsOf(items)) && e.id !in IdSet(items)
    ensures Distinct(IdsOf(items + [e]))
  {
    var all := items + [e];
    forall i, j | 0 <= i < j < |all|
      ensures IdsOf(all)[i] != IdsOf(all)[j]
    {
      if j < |items| {
        assert IdsOf(items)[i] != IdsOf(items)[j];
      } else {
        assert items[i] in items;
      }
    }
  }

  /** A new entry comes last, behind as many of the newest others as the cap leaves room for. */
  lemma CappedWithNew(before: seq<Entry>, e: Entry, cap: Option<int>)
    requires Distinct(IdsOf(before)) && e.id !in IdSet(before)
    ensures var items := Capped(before + [e], cap);
            && Distinct(IdsOf(items))
            && |items| == Room(|before| + 1, cap) > 0 && items[|items| - 1] == e
            && items[..|items| - 1] == before[|before| - (|items| - 1)..]
  {
    var all := before + [e];
    DistinctSnoc(before, e);
    hide IdSet, Distinct;
    DistinctSuffix(all, |all| - |Capped(all, cap)|);
  }

  function Put(s: Store, chat: Chat, items: seq<Entry>): Store {
    s.(log := s.log[chat := items], ids := s.ids[chat := IdSet(items)])
  }

  lemma PutLogs(s: Store, chat: Chat, items: seq<Entry>)
    ensures LogOf(Put(s, chat, items), chat) == items
    ensures Put(s, chat, items).trees == s.trees && Put(s, chat, items).nodeToTree == s.nodeToTree
    ensures forall c :: c != chat ==> LogOf(Put(s, chat, items), c) == LogOf(s, c)
  {
    hide IdSet;
  }

  lemma PutKeepsInv(s: Store, chat: Chat, items: seq<Entry>)
    requires Inv(s) && Distinct(IdsOf(items))
    ensures Inv(Put(s, chat, items))
  {
    hide IdSet;
  }

  lemma ChatFacts(s: Store, chat: Chat)
    requires Inv(s)
    ensures Distinct(IdsOf(LogOf(s, chat)))
    ensures IdSet(LogOf(s, chat)) == if chat in s.ids then s.ids[chat] else {}
  {
  }

  /** Recording keeps index and log in agreement. A known id changes nothing; a new one
      is the newest entry, in front of it the newest of the others, as many as the cap
      leaves room for. */
  lemma RecordedKeepsInv(s: Store, chat: Chat, e: Entry, cap: Option<int>)
    requires Inv(s)
    ensures Inv(Recorded(s, chat, e, cap))
    ensures var (before, items) := (LogOf(s, chat), LogOf(Recorded(s, chat, e, cap), chat));
            if e.id in IdSet(before) then Recorded(s, chat, e, cap) == s
            else
              && |items| == Room(|before| + 1, cap) > 0 && items[|items| - 1] == e
              && items[..|items| - 1] == before[|before| - (|items| - 1)..]
    ensures forall c :: c != chat ==> LogOf(Recorded(s, chat, e, cap), c) == LogOf(s, c)
    ensures Recorded(s, chat, e, cap).trees == s.trees && Recorded(s, chat, e, cap).nodeToTree == s.nodeToTree
  {
    hide *;
    RecordedEither(s, chat, e, cap);
    if e.id !in IdSet(LogOf(s, chat)) {
      ChatFacts(s, chat);
      CappedWithNew(LogOf(s, chat), e, cap);
      PutKeepsInv(s, chat, Capped(LogOf(s, chat) + [e], cap));
      PutLogs(s, chat, Capped(LogOf(s, chat) + [e], cap));
    }
  }

  lemma RecordedInv(s: Store, chat: Chat, e: Entry, cap: Option<int>)
    requires Inv(s)
    ensures Inv(Recorded(s, chat, e, cap))
  {
    RecordedKeepsInv(s, chat, e, cap);
  }

  lemma RecordedEither(s: Store, chat: Chat, e: Entry, cap: Option<int>)
    requires Inv(s)
    ensures Recorded(s, chat, e, cap)
         == if e.id in IdSet(LogOf(s, chat)) then s else Put(s, chat, Capped(LogOf(s, chat) + [e], cap))
  {
    ChatFacts(s, chat);
    hide Inv, IdSet, LogOf, Capped, Put;
  }

  // ---- Saving and loading --------------------------------------------------------------

  /** What a file holds; entries without an id may occur. */
  datatype Snapshot = Snapshot(trees: map<Id, Tree>, nodeToTree: map<Id, Id>, log: map<Chat, seq<Option<Entry>>>)

  function Wrapped(items: seq<Entry>): (r: seq<Option<Entry>>)
    ensures |r| == |items|
    ensures forall i :: 0 <= i < |items| ==> r[i] == Some(items[i])
  {
    seq(|items|, i requires 0 <= i < |items| => Some(items[i]))
  }

  function TakeSnapshot(s: Store): Snapshot {
    Snapshot(s.trees, s.nodeToTree, map c | c in s.log :: Wrapped(s.log[c]))
  }

  /** The entries with an id, each id at its first occurrence. */
  function Cleaned(items: seq<Option<Entry>>): (r: seq<Entry>)
    ensures Distinct(IdsOf(r))
  {
    if items == [] then []
    else
      var before := Cleaned(items[..|items| - 1]);
      var e := items[|items| - 1];
      if e.None? || e.value.id in IdSet(before) then before
      else
        DistinctSnoc(before, e.value);
        before + [e.value]
  }

  function Load(file: Snapshot): Store {
    Store(file.trees, file.nodeToTree,
          map c | c in file.log :: Cleaned(file.log[c]),
          map c | c in file.log :: IdSet(Cleaned(file.log[c])))
  }

  predicate Keepable(before: seq<Option<Entry>>, e: Option<Entry>) {
    e.Some? && forall x :: x in before ==> x.None? || x.value.id != e.value.id
  }

  /** Of a log in the file just the entries with an id are loaded, each id at its first
      occurrence, in order. */
  ghost predicate LoadedFrom(ks: seq<nat>, kept: seq<Entry>, items: seq<Option<Entry>>) {
    && Picks(ks, Wrapped(kept), items)
    && forall k: nat :: k < |items| ==> (k in ks <==> Keepable(items[..k], items[k]))
  }

  ghost predicate IdIn(items: seq<Option<Entry>>, id: Id) {
    exists x :: x in items && x.Some? && x.value.id == id
  }

  lemma CleanedSnoc(front: seq<Option<Entry>>, e: Option<Entry>)
    ensures Cleaned(front + [e]) ==
            if e.Some? && e.value.id !in IdSet(Cleaned(front)) then Cleaned(front) + [e.value] else Cleaned(front)
    ensures forall id :: id in IdSet(Cleaned(front + [e])) <==> id in IdSet(Cleaned(front)) || (e.Some? && e.value.id == id)
    ensures forall id :: IdIn(front + [e], id) <==> IdIn(front, id) || (e.Some? && e.value.id == id)
  {
    assert (front + [e])[..|front|] == front;
    var before := Cleaned(front);
    assert Cleaned(front + [e]) == if e.Some? && e.value.id !in IdSet(before) then before + [e.value] else before;
    hide Cleaned;
    if e.Some? {
      assert IdSet(before + [e.value]) == IdSet(before) + {e.value.id};
    }
    hide IdSet;
    assert forall x :: x in front + [e] <==> x in front || x == e;
  }

  /** No id is lost. */
  lemma {:induction false} CleanedIds(items: seq<Option<Entry>>)
    ensures forall id :: id in IdSet(Cleaned(items)) <==> IdIn(items, id)
  {
    if items != [] {
      hide *;
      CleanedIds(items[..|items| - 1]);
      CleanedSnoc(items[..|items| - 1], items[|items| - 1]);
      SplitLast(items);
    }
  }

  lemma KeepableIff(front: seq<Option<Entry>>, e: Option<Entry>)
    ensures Keepable(front, e) <==> e.Some? && !IdIn(front, e.value.id)
  {
  }

  lemma LoadedSnoc(ks: seq<nat>, kept: seq<Entry>, front: seq<Option<Entry>>, e: Option<Entry>)
    requires LoadedFrom(ks, kept, front)
    ensures !Keepable(front, e) ==> LoadedFrom(ks, kept, front + [e])
    ensures Keepable(front, e) ==> LoadedFrom(ks + [|front|], kept + [e.value], front + [e])
  {
    PicksSnoc(ks, Wrapped(kept), front, e);
    assert e.Some? ==> Wrapped(kept + [e.value]) == Wrapped(kept) + [e];
    hide Picks, Wrapped;
    var all := front + [e];
    assert all[|front|] == e && all[..|front|] == front;
    forall k: nat | k < |front|
      ensures all[k] == front[k] && all[..k] == front[..k]
    {
    }
    assert Keepable(front, e) ==> e.Some?;
    hide Keepable;
  }

  lemma {:induction false} CleanedMeaning(items: seq<Option<Entry>>) returns (ks: seq<nat>)
    ensures LoadedFrom(ks, Cleaned(items), items)
  {
    if items == [] {
      ks := [];
    } else {
      hide *;
      var front, e := items[..|items| - 1], items[|items| - 1];
      ks := CleanedMeaning(front);
      SplitLast(items);
      LoadedSnoc(ks, Cleaned(front), front, e);
      CleanedSnoc(front, e);
      CleanedIds(front);
      KeepableIff(front, e);
      ks := if Keepable(front, e) then ks + [|front|] else ks;
    }
  }

  /** Whatever the file holds, the loaded store is consistent. */
  lemma LoadGivesInv(file: Snapshot)
    ensures Inv(Load(file))
  {
  }

  lemma {:induction false} CleanedKeepsClean(items: seq<Entry>)
    requires Distinct(IdsOf(items))
    ensures Cleaned(Wrapped(items)) == items
  {
    if items != [] {
      var front, e := items[..|items| - 1], items[|items| - 1];
      assert front == items[0..][..|items| - 1];
      DistinctPrefix(items, |items| - 1);
      CleanedKeepsClean(front);
      assert Wrapped(items)[..|items| - 1] == Wrapped(front);
      forall x | x in front
        ensures x.id != e.id
      {
        var i :| 0 <= i < |front| && front[i] == x;
        assert IdsOf(items)[i] != IdsOf(items)[|items| - 1];
      }
    }
  }

  lemma DistinctPrefix(items: seq<Entry>, k: nat)
    requires k <= |items| && Distinct(IdsOf(items))
    ensures Distinct(IdsOf(items[..k]))
  {
    forall i, j | 0 <= i < j < k
      ensures IdsOf(items[..k])[i] != IdsOf(items[..k])[j]
    {
      assert IdsOf(items)[i] != IdsOf(items)[j];
    }
  }

  /** Loading a snapshot restores the store it was taken of. */
  lemma LoadRestores(s: Store)
    requires Inv(s)
    ensures Load(TakeSnapshot(s)) == s
  {
    forall c | c in s.log
      ensures Cleaned(Wrapped(s.log[c])) == s.log[c]
    {
      CleanedKeepsClean(s.log[c]);
    }
    assert Load(TakeSnapshot(s)).log == s.log;
    assert Load(TakeSnapshot(s)).ids == s.ids;
  }

  // ---- Trees ---------------------------------------------------------------------------

  function TreeSaved(s: Store, root: Id, tree: Tree): Store {
    s.(trees := s.trees[root := tree], nodeToTree := s.nodeToTree + map n | n in tree.nodes :: root)
  }

  function TreeRemoved(s: Store, root: Id): Store {
    if root in s.trees
    then s.(trees := s.trees - {root}, nodeToTree := s.nodeToTree - s.trees[root].nodes)
    else s
  }

  /** Removing a tree leaves no mapping to it exactly when every node mapped to it is
      one of its nodes; saving a smaller tree over a larger one breaks that. */
  lemma RemovalLeavesNoMappingIff(s: Store, root: Id)
    requires root in s.trees
    ensures (forall n :: n in TreeRemoved(s, root).nodeToTree ==> TreeRemoved(s, root).nodeToTree[n] != root)
            <==> (forall n :: n in s.nodeToTree && s.nodeToTree[n] == root ==> n in s.trees[root].nodes)
  {
    var after := TreeRemoved(s, root);
    if forall n :: n in after.nodeToTree ==> after.nodeToTree[n] != root {
      forall n | n in s.nodeToTree && s.nodeToTree[n] == root
        ensures n in s.trees[root].nodes
      {
        assert n in s.trees[root].nodes || n in after.nodeToTree;
      }
    }
  }

  /** Saving a new tree of unmapped nodes and removing it again changes nothing. */
  lemma SaveThenRemove(s: Store, root: Id, tree: Tree)
    requires root !in s.trees && tree.nodes !! s.nodeToTree.Keys
    ensures TreeRemoved(TreeSaved(s, root, tree), root) == s
  {
    assert TreeRemoved(TreeSaved(s, root, tree), root).trees == s.trees;
    assert TreeRemoved(TreeSaved(s, root, tree), root).nodeToTree == s.nodeToTree;
  }

  // ---- Over every run --------------------------------------------------------------------

  datatype Action =
    | RecordAction(chat: Chat, entry: Entry)
    | SaveAction(root: Id, tree: Tree)
    | RemoveAction(root: Id)
    | TreesAction(trees: map<Id, Tree>, nodeToTree: map<Id, Id>)
    | ClearAction
    | RestartAction

  const CLEARED := Store(map[], map[], map[], map[])

  /** TreesAction stands for the other operations on trees and mapping, which leave
      logs and index alone; a restart loads what was last saved. */
  function Step(s: Store, a: Action, cap: Option<int>): Store {
    match a
    case RecordAction(chat, e) => Recorded(s, chat, e, cap)
    case SaveAction(root, tree) => TreeSaved(s, root, tree)
    case RemoveAction(root) => TreeRemoved(s, root)
    case TreesAction(trees, nodeToTree) => s.(trees := trees, nodeToTree := nodeToTree)
    case ClearAction => CLEARED
    case RestartAction => Load(TakeSnapshot(s))
  }

  function After(s: Store, actions: seq<Action>, cap: Option<int>): Store {
    if actions == [] then s else Step(After(s, actions[..|actions| - 1], cap), actions[|actions| - 1], cap)
  }

  lemma AfterSnoc(s: Store, actions: seq<Action>, a: Action, cap: Option<int>)
    ensures After(s, actions + [a], cap) == Step(After(s, actions, cap), a, cap)
  {
    hide Step;
    assert (actions + [a])[..|actions|] == actions;
  }

  /** Every log fits the cap. */
  ghost predicate Fits(s: Store, cap: Option<int>) {
    forall c :: |LogOf(s, c)| == Room(|LogOf(s, c)|, cap)
  }

  lemma StepKeepsInv(s: Store, a: Action, cap: Option<int>)
    requires Inv(s)
    ensures Inv(Step(s, a, cap))
    ensures Fits(s, cap) ==> Fits(Step(s, a, cap), cap)
  {
    match a
    case RecordAction(chat, e) =>
      hide *;
      RecordedInv(s, chat, e, cap);
      RecordedFits(s, chat, e, cap);
    case RestartAction => LoadRestores(s);
    case _ => assert forall c :: LogOf(Step(s, a, cap), c) == if a.ClearAction? then [] else LogOf(s, c);
  }

  lemma {:induction false} RecordedFits(s: Store, chat: Chat, e: Entry, cap: Option<int>)
    requires Inv(s)
    ensures Fits(s, cap) ==> Fits(Recorded(s, chat, e, cap), cap)
  {
    hide Inv, IdSet, LogOf, Recorded, Put, Capped;
    RecordedEither(s, chat, e, cap);
    PutLogs(s, chat, Capped(LogOf(s, chat) + [e], cap));
  }

  /** From whatever file a store was loaded, after any actions its index and logs agree
      and no chat logs an id twice; and what once fits the cap always does. */
  lemma {:induction false} RunKeepsInv(file: Snapshot, actions: seq<Action>, cap: Option<int>)
    ensures Inv(After(Load(file), actions, cap))
    ensures Fits(Load(file), cap) ==> Fits(After(Load(file), actions, cap), cap)
  {
    if actions == [] {
      LoadGivesInv(file);
    } else {
      RunKeepsInv(file, actions[..|actions| - 1], cap);
      StepKeepsInv(After(Load(file), actions[..|actions| - 1], cap), actions[|actions| - 1], cap);
    }
  }

  /** A restart in the middle of a run makes no difference. */
  lemma RestartChangesNothing(file: Snapshot, actions: seq<Action>, cap: Option<int>)
    ensures After(Load(file), actions + [RestartAction], cap) == After(Load(file), actions, cap)
  {
    hide Load, TakeSnapshot, Inv, Fits, After;
    RunKeepsInv(file, actions, cap);
    LoadRestores(After(Load(file), actions, cap));
    AfterSnoc(Load(file), actions, RestartAction, cap);
  }

  /** A reachable store in which a removed tree leaves a mapping to it: a tree is saved,
      saved again with fewer nodes, and removed. */
  lemma StaleMapping(cap: Option<int>)
    ensures var s := After(CLEARED, [SaveAction("r", Tree({"r", "n"}, "")), SaveAction("r", Tree({"r"}, "")), RemoveAction("r")], cap);
            "r" !in s.trees && "n" in s.nodeToTree && s.nodeToTree["n"] == "r"
  {
    var large, small := Tree({"r", "n"}, ""), Tree({"r"}, "");
    var a, b, c := SaveAction("r", large), SaveAction("r", small), RemoveAction("r");
    AfterSnoc(CLEARED, [], a, cap);
    AfterSnoc(CLEARED, [a], b, cap);
    AfterSnoc(CLEARED, [a, b], c, cap);
    assert [] + [a] == [a] && [a] + [b] == [a, b] && [a, b] + [c] == [a, b, c];
    assert After(CLEARED, [], cap) == CLEARED;
    hide After;
    assert "n" != "r";
    assert (map n | n in large.nodes :: "r") == map["r" := "r", "n" := "r"];
    assert (map n | n in small.nodes :: "r") == map["r" := "r"];
    assert TreeSaved(TreeSaved(CLEARED, "r", large), "r", small).nodeToTree == map["r" := "r", "n" := "r"];
  }

  // ---- The store object ------------------------------------------------------------------

  class SessionStore {
    var trees: map<Id, Tree>
    var nodeToTree: map<Id, Id>
    var messageLog: map<Chat, seq<Entry>>
    var messageLogIds: map<Chat, set<Id>>
    const cap: Option<int>

    ghost function Current(): Store
      reads this
    {
      Store(trees, nodeToTree, messageLog, messageLogIds)
    }

    /** Load whatever the file holds. */
    constructor (file: Snapshot, cap: Option<int>)
      ensures Current() == Load(file) && Inv(Current()) && this.cap == cap
    {
      this.cap := cap;
      trees, nodeToTree := file.trees, file.nodeToTree;
      messageLog := map c | c in file.log :: Cleaned(file.log[c]);
      messageLogIds := map c | c in file.log :: IdSet(Cleaned(file.log[c]));
      new;
      LoadGivesInv(file);
    }

    method RecordMessageId(chat: Chat, id: Id, ts: string, direction: string, kind: string)
      requires Inv(Current())
      modifies this
      ensures Current() == Recorded(old(Current()), chat, Entry(id, ts, direction, kind), cap) && Inv(Current())
    {
      hide Inv, IdSet, Distinct, IdsOf, Capped;
      var e := Entry(id, ts, direction, kind);
      RecordedInv(Current(), chat, e, cap);
      if chat in messageLogIds && id in messageLogIds[chat] {
        return;
      }
      var items := TrimLog((if chat in messageLog then messageLog[chat] else []) + [e]);
      messageLog := messageLog[chat := items];
      messageLogIds := messageLogIds[chat := IdSet(items)];
    }

    /** The optional cap on a chat's log. */
    method TrimLog(items: seq<Entry>) returns (kept: seq<Entry>)
      ensures kept == Capped(items, cap)
    {
      kept := items;
      if cap.Some? && cap.value > 0 && |items| > cap.value {
        kept := items[|items| - cap.value..];
      }
    }

    method SaveTree(root: Id, tree: Tree)
      modifies this`trees, this`nodeToTree
      ensures Inv(old(Current())) ==> Inv(Current())
      ensures Current() == TreeSaved(old(Current()), root, tree)
      ensures trees == old(trees)[root := tree] && nodeToTree.Keys == old(nodeToTree).Keys + tree.nodes
      ensures forall n :: n in nodeToTree ==> nodeToTree[n] == if n in tree.nodes then root else old(nodeToTree)[n]
    {
      trees := trees[root := tree];
      nodeToTree := nodeToTree + map n | n in tree.nodes :: root;
    }

    method RemoveTree(root: Id)
      modifies this`trees, this`nodeToTree
      ensures Inv(old(Current())) ==> Inv(Current())
      ensures Current() == TreeRemoved(old(Current()), root)
      ensures trees.Keys == old(trees).Keys - {root}
      ensures forall k :: k in trees ==> trees[k] == old(trees)[k]
      ensures nodeToTree == if root in old(trees) then old(nodeToTree) - old(trees)[root].nodes else old(nodeToTree)
    {
      if root in trees {
        nodeToTree := nodeToTree - trees[root].nodes;
        trees := trees - {root};
      }
    }

    method ClearAll()
      modifies this
      ensures Current() == CLEARED && Inv(Current())
    {
      trees, nodeToTree, messageLog, messageLogIds := map[], map[], map[], map[];
    }
  }
}
