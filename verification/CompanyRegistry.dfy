/** The company registry: a main file, a list of deleted ids, and older registries
    and frontend state files that loading recovers records from. Timestamps are
    numbers; 0 stands for the empty string. */
module CompanyRegistry {
  import opened Wrappers

  type Id = string

  datatype Record = Record(
    updatedAt: Option<nat>,
    createdAt: Option<nat>,
    active: Option<bool>,
    fields: map<string, string>)

  /** What a file holds under an id; some files hold values that are no records. */
  datatype Entry = Rec(record: Record) | NotARecord

  function Lookup<V>(m: map<Id, V>, id: Id): Option<V> {
    if id in m then Some(m[id]) else None
  }

  function Stamp(r: Record): nat {
    r.updatedAt.GetOr(r.createdAt.GetOr(0))
  }

  function Over<V>(a: Option<V>, b: Option<V>): Option<V> {
    if b.Some? then b else a
  }

  /** `{**a, **b}` */
  function Merge(a: Record, b: Record): Record {
    Record(Over(a.updatedAt, b.updatedAt), Over(a.createdAt, b.createdAt), Over(a.active, b.active), a.fields + b.fields)
  }

  // ---- One id at a time ------------------------------------------------------------

  /** One recovery file: adopt an unknown record, merge in a newer one. */
  function Recover(current: Option<Record>, found: Option<Entry>): Option<Record> {
    if found.None? || found.value.NotARecord? then current
    else if current.None? then Some(found.value.record)
    else if Stamp(found.value.record) > 0 && Stamp(found.value.record) > Stamp(current.value)
    then Some(Merge(current.value, found.value.record))
    else current
  }

  /** One state file: only adopt an unknown record. */
  function Adopt(current: Option<Record>, found: Option<Entry>): Option<Record> {
    if current.None? && found.Some? && found.value.Rec? then Some(found.value.record) else current
  }

  function RecoverAll(main: Option<Record>, files: seq<map<Id, Entry>>, id: Id): Option<Record> {
    if files == [] then main
    else Recover(RecoverAll(main, files[..|files| - 1], id), Lookup(files[|files| - 1], id))
  }

  function AdoptAll(current: Option<Record>, files: seq<map<Id, Entry>>, id: Id): Option<Record> {
    if files == [] then current
    else Adopt(AdoptAll(current, files[..|files| - 1], id), Lookup(files[|files| - 1], id))
  }

  /** What loading makes of one id. */
  function Loaded(main: map<Id, Record>, deleted: set<Id>, recovery: seq<map<Id, Entry>>, states: seq<map<Id, Entry>>, id: Id)
    : Option<Record>
  {
    if id in deleted then None
    else AdoptAll(RecoverAll(Lookup(main, id), recovery, id), states, id)
  }

  // ---- The newest record wins ------------------------------------------------------

  /** Merging keeps the greater timestamp except in one case: the older record
      carries updated_at and the newer one only created_at. */
  lemma MergeStampIff(a: Record, b: Record)
    requires Stamp(b) > Stamp(a)
    ensures Stamp(Merge(a, b)) == Stamp(b) <==> !(a.updatedAt.Some? && b.updatedAt.None?)
  {
  }

  ghost predicate Dated(found: Option<Entry>) {
    found.Some? && found.value.Rec? ==> found.value.record.updatedAt.Some?
  }

  ghost predicate AllDated(main: map<Id, Record>, recovery: seq<map<Id, Entry>>, id: Id) {
    && (id in main ==> main[id].updatedAt.Some?)
    && forall i :: 0 <= i < |recovery| ==> Dated(Lookup(recovery[i], id))
  }

  /** The record as a candidate for an id, from the main file or a recovery file. */
  ghost predicate Candidate(main: map<Id, Record>, recovery: seq<map<Id, Entry>>, id: Id, r: Record) {
    Lookup(main, id) == Some(r) || exists i :: 0 <= i < |recovery| && Lookup(recovery[i], id) == Some(Rec(r))
  }

  lemma {:induction false} RecoverAllNewest(main: map<Id, Record>, recovery: seq<map<Id, Entry>>, id: Id)
    requires AllDated(main, recovery, id)
    ensures var r := RecoverAll(Lookup(main, id), recovery, id);
            && (r.None? <==> forall c :: !Candidate(main, recovery, id, c))
            && (r.Some? ==> r.value.updatedAt.Some?)
            && (r.Some? ==> exists c :: Candidate(main, recovery, id, c) && Stamp(c) == Stamp(r.value))
            && (r.Some? ==> forall c :: Candidate(main, recovery, id, c) ==> Stamp(c) <= Stamp(r.value))
  {
    if recovery == [] {
      if id in main {
        assert Candidate(main, recovery, id, main[id]);
      }
    } else {
      var front, last := recovery[..|recovery| - 1], recovery[|recovery| - 1];
      RecoverAllNewest(main, front, id);
      forall c
        ensures Candidate(main, recovery, id, c) <==> Candidate(main, front, id, c) || Lookup(last, id) == Some(Rec(c))
      {
        CandidateSnoc(main, front, last, id, c);
        assert recovery == front + [last];
      }
      assert Dated(Lookup(last, id));
      hide Candidate;
      if Lookup(last, id).Some? && Lookup(last, id).value.Rec? {
        assert Candidate(main, recovery, id, Lookup(last, id).value.record);
      }
    }
  }

  lemma CandidateSnoc(main: map<Id, Record>, front: seq<map<Id, Entry>>, last: map<Id, Entry>, id: Id, c: Record)
    ensures Candidate(main, front + [last], id, c) <==> Candidate(main, front, id, c) || Lookup(last, id) == Some(Rec(c))
  {
    var all := front + [last];
    if Candidate(main, front, id, c) && Lookup(main, id) != Some(c) {
      var i :| 0 <= i < |front| && Lookup(front[i], id) == Some(Rec(c));
      assert Lookup(all[i], id) == Some(Rec(c));
    }
    if Lookup(last, id) == Some(Rec(c)) {
      assert Lookup(all[|front|], id) == Some(Rec(c));
    }
  }

  /** When all records carry updated_at, the loaded one has the maximum over the
      main file and every recovery file. */
  lemma LoadedIsNewest(main: map<Id, Record>, deleted: set<Id>, recovery: seq<map<Id, Entry>>, states: seq<map<Id, Entry>>, id: Id)
    requires AllDated(main, recovery, id) && id !in deleted
    ensures var r := Loaded(main, deleted, recovery, states, id);
            forall c :: Candidate(main, recovery, id, c) ==> r.Some? && Stamp(c) <= Stamp(r.value)
    ensures var r := Loaded(main, deleted, recovery, states, id);
            (exists c :: Candidate(main, recovery, id, c)) ==>
              exists c :: Candidate(main, recovery, id, c) && r.Some? && Stamp(c) == Stamp(r.value)
    ensures forall c :: Candidate(main, recovery, id, c) ==> c.updatedAt == Some(Stamp(c))
    ensures var r := Loaded(main, deleted, recovery, states, id);
            (exists c :: Candidate(main, recovery, id, c)) ==> r.Some? && r.value.updatedAt == Some(Stamp(r.value))
  {
    RecoverAllNewest(main, recovery, id);
    AdoptKnown(RecoverAll(Lookup(main, id), recovery, id), states, id);
  }

  lemma {:induction false} AdoptKnown(current: Option<Record>, states: seq<map<Id, Entry>>, id: Id)
    ensures current.Some? ==> AdoptAll(current, states, id) == current
  {
    if states != [] {
      AdoptKnown(current, states[..|states| - 1], id);
    }
  }

  // ---- What a loaded record holds ---------------------------------------------------

  datatype Slot = UpdatedAt | CreatedAt | Active | Field(name: string)
  datatype Value = Number(n: nat) | Flag(b: bool) | Text(s: string)

  /** What a record holds under a key. */
  function Get(r: Record, slot: Slot): Option<Value> {
    match slot
    case UpdatedAt => if r.updatedAt.Some? then Some(Number(r.updatedAt.value)) else None
    case CreatedAt => if r.createdAt.Some? then Some(Number(r.createdAt.value)) else None
    case Active => if r.active.Some? then Some(Flag(r.active.value)) else None
    case Field(name) => if name in r.fields then Some(Text(r.fields[name])) else None
  }

  /** Recovery file i counts: its record is the first, or newer than what there was. */
  ghost predicate Counts(main: Option<Record>, recovery: seq<map<Id, Entry>>, id: Id, i: int) {
    && 0 <= i < |recovery| && HasRecord(recovery[i], id)
    && var before := RecoverAll(main, recovery[..i], id);
       before.None? || Stamp(before.value) < Stamp(recovery[i][id].record)
  }

  /** Source i of the record: a recovery file that counts, or for -1 the main file. */
  ghost function Source(main: Option<Record>, recovery: seq<map<Id, Entry>>, id: Id, i: int): Option<Record> {
    if i == -1 then main
    else if Counts(main, recovery, id, i) then Some(recovery[i][id].record)
    else None
  }

  ghost predicate Says(main: Option<Record>, recovery: seq<map<Id, Entry>>, id: Id, i: int, slot: Slot) {
    Source(main, recovery, id, i).Some? && Get(Source(main, recovery, id, i).value, slot).Some?
  }

  /** Under each key the record holds what its last source with that key says. */
  ghost predicate Overlaid(main: Option<Record>, recovery: seq<map<Id, Entry>>, id: Id, r: Record) {
    && (forall slot, i :: Says(main, recovery, id, i, slot) && (forall j :: j > i ==> !Says(main, recovery, id, j, slot)) ==>
          Get(r, slot) == Get(Source(main, recovery, id, i).value, slot))
    && (forall slot :: (forall i :: !Says(main, recovery, id, i, slot)) ==> Get(r, slot) == None)
  }

  lemma MergedSlot(a: Record, b: Record, slot: Slot)
    ensures Get(Merge(a, b), slot) == if Get(b, slot).Some? then Get(b, slot) else Get(a, slot)
  {
  }

  lemma SourcesInFront(main: Option<Record>, front: seq<map<Id, Entry>>, file: map<Id, Entry>, id: Id, i: int)
    ensures i != |front| ==> Source(main, front + [file], id, i) == Source(main, front, id, i)
    ensures Source(main, front, id, |front|) == None
    ensures Source(main, front + [file], id, |front|) ==
            var before := RecoverAll(main, front, id);
            if HasRecord(file, id) && (before.None? || Stamp(before.value) < Stamp(file[id].record))
            then Some(file[id].record) else None
  {
    var all := front + [file];
    assert all[..|front|] == front && all[|front|] == file;
    if 0 <= i < |front| {
      assert all[..i] == front[..i];
    }
  }

  lemma OverlaidSnoc(main: Option<Record>, front: seq<map<Id, Entry>>, file: map<Id, Entry>, id: Id, r: Record, r': Record)
    requires Overlaid(main, front, id, r)
    requires var found := Source(main, front + [file], id, |front|);
             forall slot :: Get(r', slot) == if found.Some? && Get(found.value, slot).Some? then Get(found.value, slot) else Get(r, slot)
    ensures Overlaid(main, front + [file], id, r')
  {
    var all, n := front + [file], |front|;
    hide Get, Source;
    forall slot, i
      ensures i != n ==> (Says(main, all, id, i, slot) <==> Says(main, front, id, i, slot))
      ensures !Says(main, front, id, n, slot)
      ensures i != n ==> Source(main, all, id, i) == Source(main, front, id, i)
    {
      SourcesInFront(main, front, file, id, i);
    }
    forall i | i > n
      ensures Source(main, all, id, i) == None
    {
      BeyondSources(main, all, id, i);
    }
    forall slot, i | Says(main, all, id, i, slot) && (forall j :: j > i ==> !Says(main, all, id, j, slot))
      ensures Get(r', slot) == Get(Source(main, all, id, i).value, slot)
    {
      if i != n {
        assert i > n || !Says(main, all, id, n, slot);
        assert forall j :: j > i ==> !Says(main, front, id, j, slot);
      }
    }
    forall slot | forall i :: !Says(main, all, id, i, slot)
      ensures Get(r', slot) == None
    {
      assert !Says(main, all, id, n, slot);
      forall i
        ensures !Says(main, front, id, i, slot)
      {
        assert !Says(main, all, id, i, slot);
      }
    }
  }

  lemma FirstSource(r: Record, id: Id)
    ensures Overlaid(Some(r), [], id, r)
  {
    hide Get;
    forall slot, i
      ensures Says(Some(r), [], id, i, slot) <==> i == -1 && Get(r, slot).Some?
    {
    }
    forall slot | forall i :: !Says(Some(r), [], id, i, slot)
      ensures Get(r, slot) == None
    {
      assert !Says(Some(r), [], id, -1, slot);
    }
  }

  /** A record taken over whole is what its only source says. */
  lemma OnlySource(front: seq<map<Id, Entry>>, file: map<Id, Entry>, id: Id)
    requires RecoverAll(None, front, id) == None && HasRecord(file, id)
    ensures Overlaid(None, front + [file], id, file[id].record)
  {
    var all, n, r := front + [file], |front|, file[id].record;
    RecoveredIff(None, front, id);
    hide Get;
    forall i
      ensures Source(None, all, id, i) == if i == n then Some(r) else None
    {
      SourcesInFront(None, front, file, id, i);
      if 0 <= i < n {
        assert Lookup(front[i], id).None? || Lookup(front[i], id).value.NotARecord?;
      }
    }
    hide Source;
    forall slot, i
      ensures Says(None, all, id, i, slot) <==> i == n && Get(r, slot).Some?
    {
    }
    forall slot | forall i :: !Says(None, all, id, i, slot)
      ensures Get(r, slot) == None
    {
      assert !Says(None, all, id, n, slot);
    }
  }

  /** Whatever main and recovery files hold, what is recovered for an id holds under
      each key what the last file that counts says, and otherwise what main says. */
  lemma {:induction false} RecoveredIsOverlaid(main: Option<Record>, recovery: seq<map<Id, Entry>>, id: Id)
    ensures RecoverAll(main, recovery, id).Some? ==> Overlaid(main, recovery, id, RecoverAll(main, recovery, id).value)
  {
    if recovery == [] {
      if main.Some? {
        FirstSource(main.value, id);
      }
    } else {
      var front, file := recovery[..|recovery| - 1], recovery[|recovery| - 1];
      var before, after := RecoverAll(main, front, id), RecoverAll(main, recovery, id);
      RecoveredIsOverlaid(main, front, id);
      assert recovery == front + [file];
      RecoveredIff(main, front, id);
      hide Overlaid;
      if before.Some? {
        SourcesInFront(main, front, file, id, |front|);
        forall slot
          ensures Get(after.value, slot) ==
                  var found := Source(main, front + [file], id, |front|);
                  if found.Some? && Get(found.value, slot).Some? then Get(found.value, slot) else Get(before.value, slot)
        {
          if HasRecord(file, id) {
            MergedSlot(before.value, file[id].record, slot);
          }
        }
        OverlaidSnoc(main, front, file, id, before.value, after.value);
      } else if HasRecord(file, id) {
        OnlySource(front, file, id);
      }
    }
  }

  /** An id without a record in main and recovery files is loaded as exactly the record
      of the first state file that has one. */
  lemma AdoptedFromFirst(main: map<Id, Record>, deleted: set<Id>, recovery: seq<map<Id, Entry>>, states: seq<map<Id, Entry>>,
                         id: Id, i: nat)
    requires id !in deleted && id !in main && forall f :: f in recovery ==> !HasRecord(f, id)
    requires i < |states| && HasRecord(states[i], id) && forall j :: 0 <= j < i ==> !HasRecord(states[j], id)
    ensures Loaded(main, deleted, recovery, states, id) == Some(states[i][id].record)
  {
    FoundSomewhere(recovery, id);
    NothingRecovered(recovery, id);
    FirstAdopted(states, id, i);
  }

  lemma {:induction false} FirstAdopted(states: seq<map<Id, Entry>>, id: Id, i: nat)
    requires i < |states| && HasRecord(states[i], id) && forall j :: 0 <= j < i ==> !HasRecord(states[j], id)
    ensures AdoptAll(None, states, id) == Some(states[i][id].record)
  {
    var front := states[..|states| - 1];
    if i < |front| {
      FirstAdopted(front, id, i);
    } else {
      AdoptedIff(None, front, id);
      assert forall j :: 0 <= j < |front| ==> !HasRecord(front[j], id);
    }
  }

  /** A record of main or recovery files is not touched by state files. */
  lemma KnownIsNotAdopted(main: map<Id, Record>, deleted: set<Id>, recovery: seq<map<Id, Entry>>, states: seq<map<Id, Entry>>, id: Id)
    requires id in main || exists f :: f in recovery && HasRecord(f, id)
    ensures Loaded(main, deleted, recovery, states, id) == Loaded(main, deleted, recovery, [], id)
  {
    FoundSomewhere(recovery, id);
    RecoveredIff(Lookup(main, id), recovery, id);
    AdoptKnown(RecoverAll(Lookup(main, id), recovery, id), states, id);
  }

  /** A record that one recovery file alone has is loaded as it is. */
  lemma RecoveredFromOnly(main: map<Id, Record>, deleted: set<Id>, recovery: seq<map<Id, Entry>>, states: seq<map<Id, Entry>>,
                          id: Id, i: nat)
    requires id !in deleted && id !in main
    requires i < |recovery| && HasRecord(recovery[i], id)
    requires forall j :: 0 <= j < |recovery| && j != i ==> !HasRecord(recovery[j], id)
    ensures Loaded(main, deleted, recovery, states, id) == Some(recovery[i][id].record)
  {
    OnlyRecovered(recovery, id, i);
    AdoptKnown(RecoverAll(None, recovery, id), states, id);
  }

  lemma {:induction false} OnlyRecovered(recovery: seq<map<Id, Entry>>, id: Id, i: nat)
    requires i < |recovery| && HasRecord(recovery[i], id)
    requires forall j :: 0 <= j < |recovery| && j != i ==> !HasRecord(recovery[j], id)
    ensures RecoverAll(None, recovery, id) == Some(recovery[i][id].record)
  {
    var front := recovery[..|recovery| - 1];
    if i < |front| {
      OnlyRecovered(front, id, i);
    } else {
      RecoveredIff(None, front, id);
      assert forall j :: 0 <= j < |front| ==> !HasRecord(front[j], id);
    }
  }

  lemma BeyondSources(main: Option<Record>, recovery: seq<map<Id, Entry>>, id: Id, i: int)
    requires i >= |recovery|
    ensures Source(main, recovery, id, i) == None
  {
  }

  // ---- Loading twice ---------------------------------------------------------------

  /** A record no recovery file can improve on, unless the record is dated and the
      file's only has created_at. */
  ghost predicate Dominates(r: Record, recovery: seq<map<Id, Entry>>, id: Id) {
    forall i :: 0 <= i < |recovery| ==>
      var found := Lookup(recovery[i], id);
      found.Some? && found.value.Rec? && (found.value.record.updatedAt.Some? || r.updatedAt.None?) ==>
        Stamp(found.value.record) <= Stamp(r)
  }

  ghost predicate NothingFound(recovery: seq<map<Id, Entry>>, id: Id) {
    forall i :: 0 <= i < |recovery| ==> Lookup(recovery[i], id).None? || Lookup(recovery[i], id).value.NotARecord?
  }

  lemma {:induction false} RecoveredDominates(main: Option<Record>, recovery: seq<map<Id, Entry>>, id: Id)
    ensures var r := RecoverAll(main, recovery, id);
            if r.Some? then Dominates(r.value, recovery, id) else NothingFound(recovery, id)
  {
    if recovery != [] {
      RecoveredDominates(main, recovery[..|recovery| - 1], id);
    }
  }

  lemma LoadedDominates(main: map<Id, Record>, deleted: set<Id>, recovery: seq<map<Id, Entry>>, states: seq<map<Id, Entry>>, id: Id)
    requires id !in deleted
    ensures var r := Loaded(main, deleted, recovery, states, id);
            if r.Some? then Dominates(r.value, recovery, id) else NothingFound(recovery, id)
  {
    var first := RecoverAll(Lookup(main, id), recovery, id);
    RecoveredDominates(Lookup(main, id), recovery, id);
    AdoptKnown(first, states, id);
  }

  const BLANK := Record(None, None, None, map[])

  predicate LateUndated(found: Option<Entry>, stamp: nat) {
    found.Some? && found.value.Rec? && found.value.record.updatedAt.None? && Stamp(found.value.record) > stamp
  }

  /** The recovery records without updated_at whose created_at is later than `stamp`,
      overlaid in file order. */
  function Late(recovery: seq<map<Id, Entry>>, id: Id, stamp: nat): (r: Record)
    ensures r.updatedAt.None?
  {
    if recovery == [] then BLANK
    else
      var before := Late(recovery[..|recovery| - 1], id, stamp);
      var found := Lookup(recovery[|recovery| - 1], id);
      if LateUndated(found, stamp) then Merge(before, found.value.record) else before
  }

  /** A dated record is merged with the late undated ones, any other one stays. */
  lemma {:induction false} RecoverAgain(r: Record, recovery: seq<map<Id, Entry>>, id: Id)
    requires Dominates(r, recovery, id)
    ensures RecoverAll(Some(r), recovery, id)
         == Some(if r.updatedAt.Some? then Merge(r, Late(recovery, id, Stamp(r))) else r)
  {
    if recovery == [] {
      assert r.fields + map[] == r.fields;
    } else {
      var front := recovery[..|recovery| - 1];
      var found := Lookup(recovery[|recovery| - 1], id);
      RecoverAgain(r, front, id);
      if LateUndated(found, Stamp(r)) {
        MergeAssociative(r, Late(front, id, Stamp(r)), found.value.record);
      }
    }
  }

  lemma MergeAssociative(a: Record, b: Record, c: Record)
    ensures Merge(Merge(a, b), c) == Merge(a, Merge(b, c))
  {
    assert (a.fields + b.fields) + c.fields == a.fields + (b.fields + c.fields);
  }

  /** What loading makes of a record that has been loaded before. */
  lemma LoadedAgain(main: map<Id, Record>, deleted: set<Id>, recovery: seq<map<Id, Entry>>, states: seq<map<Id, Entry>>, id: Id)
    requires id !in deleted && id in main && Dominates(main[id], recovery, id)
    ensures Loaded(main, deleted, recovery, states, id)
         == Some(if main[id].updatedAt.Some? then Merge(main[id], Late(recovery, id, Stamp(main[id]))) else main[id])
  {
    RecoverAgain(main[id], recovery, id);
    AdoptKnown(RecoverAll(Some(main[id]), recovery, id), states, id);
  }

  lemma {:induction false} NothingRecovered(recovery: seq<map<Id, Entry>>, id: Id)
    requires NothingFound(recovery, id)
    ensures RecoverAll(None, recovery, id) == None
  {
    if recovery != [] {
      NothingRecovered(recovery[..|recovery| - 1], id);
    }
  }

  /** Loading again, from what the first load returned and with the same files around,
      changes a record if and only if it carries updated_at and overlaying the later
      records that carry only created_at changes it. */
  lemma SecondLoadChangesIff(main: map<Id, Record>, deleted: set<Id>, recovery: seq<map<Id, Entry>>, states: seq<map<Id, Entry>>,
                             main': map<Id, Record>, id: Id)
    requires Lookup(main', id) == Loaded(main, deleted, recovery, states, id)
    ensures var r := Lookup(main', id);
            Loaded(main', deleted, recovery, states, id) != r
            <==> r.Some? && r.value.updatedAt.Some? && Merge(r.value, Late(recovery, id, Stamp(r.value))) != r.value
  {
    if id !in deleted {
      LoadedDominates(main, deleted, recovery, states, id);
      if id in main' {
        LoadedAgain(main', deleted, recovery, states, id);
      } else {
        NothingRecovered(recovery, id);
        AdoptNothing(RecoverAll(Lookup(main, id), recovery, id), states, id);
      }
    }
  }

  /** A third load never changes what the second one returned. */
  lemma ThirdLoadChangesNothing(main: map<Id, Record>, deleted: set<Id>, recovery: seq<map<Id, Entry>>, states: seq<map<Id, Entry>>,
                                main': map<Id, Record>, main'': map<Id, Record>, id: Id)
    requires Lookup(main', id) == Loaded(main, deleted, recovery, states, id)
    requires Lookup(main'', id) == Loaded(main', deleted, recovery, states, id)
    ensures Loaded(main'', deleted, recovery, states, id) == Lookup(main'', id)
  {
    SecondLoadChangesIff(main', deleted, recovery, states, main'', id);
    if id !in deleted && id in main' && main'[id].updatedAt.Some? {
      var r := main'[id];
      var late := Late(recovery, id, Stamp(r));
      LoadedDominates(main, deleted, recovery, states, id);
      LoadedAgain(main', deleted, recovery, states, id);
      assert main''[id] == Merge(r, late) && Stamp(main''[id]) == Stamp(r);
      MergeAssociative(r, late, late);
      assert late.fields + late.fields == late.fields;
    } else {
      SecondLoadChangesIff(main, deleted, recovery, states, main', id);
    }
  }

  /** When all records carry updated_at, a second load changes nothing. */
  lemma SecondLoadChangesNothing(main: map<Id, Record>, deleted: set<Id>, recovery: seq<map<Id, Entry>>, states: seq<map<Id, Entry>>,
                                 main': map<Id, Record>, id: Id)
    requires AllDated(main, recovery, id)
    requires Lookup(main', id) == Loaded(main, deleted, recovery, states, id)
    ensures Loaded(main', deleted, recovery, states, id) == Loaded(main, deleted, recovery, states, id)
  {
    SecondLoadChangesIff(main, deleted, recovery, states, main', id);
    if id in main' {
      NothingLate(recovery, id, Stamp(main'[id]));
      assert main'[id].fields + map[] == main'[id].fields;
    }
  }

  lemma {:induction false} NothingLate(recovery: seq<map<Id, Entry>>, id: Id, stamp: nat)
    requires forall i :: 0 <= i < |recovery| ==> Dated(Lookup(recovery[i], id))
    ensures Late(recovery, id, stamp) == BLANK
  {
    if recovery != [] {
      assert Dated(Lookup(recovery[|recovery| - 1], id));
      NothingLate(recovery[..|recovery| - 1], id, stamp);
    }
  }

  lemma {:induction false} AdoptNothing(current: Option<Record>, states: seq<map<Id, Entry>>, id: Id)
    requires AdoptAll(current, states, id).None?
    ensures current.None? && forall i :: 0 <= i < |states| ==> Lookup(states[i], id).None? || Lookup(states[i], id).value.NotARecord?
  {
    if states != [] {
      AdoptNothing(current, states[..|states| - 1], id);
    }
  }

  /** Two recovery files, the first without updated_at: the second load overlays the
      record that the first load had overlaid with the second file's. */
  lemma UndatedRecordsFlip()
    ensures var main := map["c" := Record(Some(5), None, None, map["x" := "0"])];
            var recovery := [map["c" := Rec(Record(None, Some(7), None, map["x" := "1"]))],
                             map["c" := Rec(Record(Some(6), None, None, map["x" := "2"]))]];
            exists main' :: Lookup(main', "c") == Loaded(main, {}, recovery, [], "c")
                            && Loaded(main', {}, recovery, [], "c") != Lookup(main', "c")
  {
    var main := map["c" := Record(Some(5), None, None, map["x" := "0"])];
    var f1 := map["c" := Rec(Record(None, Some(7), None, map["x" := "1"]))];
    var f2 := map["c" := Rec(Record(Some(6), None, None, map["x" := "2"]))];
    var r := Record(Some(6), Some(7), None, map["x" := "2"]);
    var main' := map["c" := r];
    RecoverTwo(Lookup(main, "c"), f1, f2, "c");
    RecoverTwo(Lookup(main', "c"), f1, f2, "c");
    assert map["x" := "0"] + map["x" := "1"] == map["x" := "1"];
    assert map["x" := "1"] + map["x" := "2"] == map["x" := "2"];
    assert map["x" := "2"] + map["x" := "1"] == map["x" := "1"];
    assert Loaded(main, {}, [f1, f2], [], "c") == Some(r);
    assert Loaded(main', {}, [f1, f2], [], "c") == Some(Record(Some(6), Some(7), None, map["x" := "1"]));
    assert "1" != "2";
    assert map["x" := "1"]["x"] != map["x" := "2"]["x"];
  }

  lemma RecoverTwo(current: Option<Record>, f1: map<Id, Entry>, f2: map<Id, Entry>, id: Id)
    ensures RecoverAll(current, [f1, f2], id) == Recover(Recover(current, Lookup(f1, id)), Lookup(f2, id))
  {
    assert [f1, f2][..1] == [f1] && [f1][..0] == [];
    assert RecoverAll(current, [f1], id) == Recover(RecoverAll(current, [], id), Lookup(f1, id));
  }

  // ---- Requests --------------------------------------------------------------------

  /** The files other builds and the frontend may have left, as found by one load. */
  datatype Surroundings = Surroundings(recovery: seq<map<Id, Entry>>, states: seq<map<Id, Entry>>)

  /** What can be seen of the registry: the main file's records that are not marked,
      and the marks. */
  datatype State = State(records: map<Id, Record>, deleted: set<Id>)

  datatype Request =
    | LoadRequest
    | CreateRequest(id: Id, body: Record, now: nat)
    | UpdateRequest(id: Id, patch: Record, now: nat)
    | ActivateRequest(id: Id)
    | DeleteRequest(id: Id)
    | DeleteCompatRequest(id: Id)
    | DeleteDataRequest(id: Id)
    | SyncRequest(ids: set<Id>)
    | ImportRequest(records: seq<(Id, Record)>)

  /** Ids that the main file or a file around mentions. */
  function Mentioned(records: map<Id, Record>, around: Surroundings): set<Id> {
    records.Keys + set f, id | f in around.recovery + around.states && id in f :: id
  }

  /** What a load returns. */
  function LoadedMap(s: State, around: Surroundings): map<Id, Record> {
    map id | id in Mentioned(s.records, around) && Loaded(s.records, s.deleted, around.recovery, around.states, id).Some?
      :: Loaded(s.records, s.deleted, around.recovery, around.states, id).value
  }

  const KEPT_FIELDS := {"display_name", "description", "logo_path", "project_path", "user_id"}

  /** A field from the request, else from the existing record, else empty. */
  function FieldOf(existing: map<string, string>, body: map<string, string>, f: string): string {
    if f in body then body[f] else if f in existing then existing[f] else ""
  }

  /** The record written for a create request. */
  function Created(existing: Option<Record>, body: Record, now: nat): Record {
    var base := existing.GetOr(BLANK);
    Record(Some(now), Some(base.createdAt.GetOr(now)), Some(body.active.GetOr(base.active.GetOr(false))),
           map f | f in KEPT_FIELDS :: FieldOf(base.fields, body.fields, f))
  }

  function Updated(existing: Record, patch: Record, now: nat): Record {
    Merge(existing, patch.(createdAt := None)).(updatedAt := Some(now))
  }

  function Deactivated(companies: map<Id, Record>): map<Id, Record> {
    map id | id in companies :: companies[id].(active := Some(false))
  }

  function Imported(before: map<Id, Record>, records: seq<(Id, Record)>): map<Id, Record> {
    if records == [] then before
    else
      var (id, record) := records[|records| - 1];
      Imported(before, records[..|records| - 1])[id := record]
  }

  /** The state in which a file with these companies is seen. */
  function Seen(companies: map<Id, Record>, deleted: set<Id>): State {
    State(companies - deleted, deleted)
  }

  /** One request: the state after it, and what it loaded. */
  function Step(s: State, request: Request, around: Surroundings): (State, map<Id, Record>) {
    var loaded := LoadedMap(s, around);
    match request
    case LoadRequest => (State(loaded, s.deleted), loaded)
    case CreateRequest(id, body, now) =>
      var others := if body.active == Some(true) then Deactivated(loaded) else loaded;
      (Seen(others[id := Created(Lookup(loaded, id), body, now)], s.deleted), loaded)
    case UpdateRequest(id, patch, now) =>
      (State(if id in loaded then loaded[id := Updated(loaded[id], patch, now)] else loaded, s.deleted), loaded)
    case ActivateRequest(id) =>
      (State(if id in loaded then Deactivated(loaded)[id := loaded[id].(active := Some(true))] else loaded, s.deleted), loaded)
    case DeleteRequest(id) =>
      (if id in loaded then State(loaded - {id}, s.deleted + {id}) else State(loaded, s.deleted), loaded)
    case DeleteCompatRequest(id) =>
      if id == "" then (s, map[]) else (State(loaded - {id}, s.deleted + {id}), loaded)
    case DeleteDataRequest(id) =>
      if id == "" then (s, map[])
      else
        var rest := LoadedMap(Seen(s.records, s.deleted + {id}), around);
        (State(rest, s.deleted + {id}), rest)
    case SyncRequest(ids) => (Seen(s.records, s.deleted + ids), map[])
    case ImportRequest(records) => (Seen(Imported(loaded, records), s.deleted), loaded)
  }

  // ---- What a load returns -----------------------------------------------------------

  lemma {:induction false} RecoveredIff(main: Option<Record>, recovery: seq<map<Id, Entry>>, id: Id)
    ensures RecoverAll(main, recovery, id).Some? <==> main.Some? || !NothingFound(recovery, id)
  {
    if recovery != [] {
      RecoveredIff(main, recovery[..|recovery| - 1], id);
    }
  }

  lemma {:induction false} AdoptedIff(current: Option<Record>, states: seq<map<Id, Entry>>, id: Id)
    ensures AdoptAll(current, states, id).Some? <==> current.Some? || !NothingFound(states, id)
  {
    if states != [] {
      AdoptedIff(current, states[..|states| - 1], id);
    }
  }

  /** Marked ids in the main file do not matter. */
  lemma SeenLoad(mainFile: map<Id, Record>, deleted: set<Id>, around: Surroundings, companies: map<Id, Record>)
    requires forall id :: Lookup(companies, id) == Loaded(mainFile, deleted, around.recovery, around.states, id)
    ensures companies == LoadedMap(Seen(mainFile, deleted), around)
  {
    var s := Seen(mainFile, deleted);
    LoadedMapHas(s, around);
    forall id
      ensures Lookup(companies, id) == Lookup(LoadedMap(s, around), id)
    {
      assert id !in deleted ==> Lookup(mainFile, id) == Lookup(s.records, id);
    }
    SameLookups(companies, LoadedMap(s, around));
  }

  lemma SameLookups(a: map<Id, Record>, b: map<Id, Record>)
    requires forall id :: Lookup(a, id) == Lookup(b, id)
    ensures a == b
  {
    assert forall id :: id in a <==> Lookup(a, id).Some?;
    assert forall id :: id in b <==> Lookup(b, id).Some?;
    assert forall id :: id in a ==> Lookup(a, id) == Some(a[id]);
    assert forall id :: id in b ==> Lookup(b, id) == Some(b[id]);
  }

  lemma Unmarked(companies: map<Id, Record>, deleted: set<Id>)
    requires companies.Keys !! deleted
    ensures companies - deleted == companies
  {
  }

  lemma LoadedMapHas(s: State, around: Surroundings)
    ensures forall id :: Lookup(LoadedMap(s, around), id) == Loaded(s.records, s.deleted, around.recovery, around.states, id)
  {
    forall id
      ensures Loaded(s.records, s.deleted, around.recovery, around.states, id).Some? ==> id in Mentioned(s.records, around)
    {
      RecoveredIff(Lookup(s.records, id), around.recovery, id);
      AdoptedIff(RecoverAll(Lookup(s.records, id), around.recovery, id), around.states, id);
    }
    hide Loaded, Mentioned;
  }

  /** A load returns exactly the ids that are not marked and have a record in the main
      file or in a file around. */
  lemma LoadedIff(s: State, around: Surroundings, id: Id)
    ensures id in LoadedMap(s, around) <==>
            id !in s.deleted
            && (id in s.records || exists f :: f in around.recovery + around.states && HasRecord(f, id))
  {
    LoadedMapHas(s, around);
    assert id in LoadedMap(s, around) <==> Lookup(LoadedMap(s, around), id).Some?;
    RecoveredIff(Lookup(s.records, id), around.recovery, id);
    AdoptedIff(RecoverAll(Lookup(s.records, id), around.recovery, id), around.states, id);
    FoundSomewhere(around.recovery, id);
    FoundSomewhere(around.states, id);
  }

  predicate HasRecord(file: map<Id, Entry>, id: Id) {
    id in file && file[id].Rec?
  }

  lemma FoundSomewhere(files: seq<map<Id, Entry>>, id: Id)
    ensures !NothingFound(files, id) <==> exists f :: f in files && HasRecord(f, id)
  {
    if f :| f in files && HasRecord(f, id) {
      var i :| 0 <= i < |files| && files[i] == f;
      assert Lookup(files[i], id) == Some(f[id]);
    }
    if !NothingFound(files, id) {
      var i :| 0 <= i < |files| && Lookup(files[i], id).Some? && Lookup(files[i], id).value.Rec?;
      assert files[i] in files && HasRecord(files[i], id);
    }
  }

  /** A saved record is what the next load returns, when no recovery file has a newer one. */
  lemma SavedIsLoaded(s: State, around: Surroundings, id: Id)
    requires id in s.records && id !in s.deleted
    requires forall f: map<Id, Entry> :: f in around.recovery && HasRecord(f, id) ==> Stamp(f[id].record) <= Stamp(s.records[id])
    ensures id in LoadedMap(s, around) && LoadedMap(s, around)[id] == s.records[id]
  {
    LoadedMapHas(s, around);
    NoneNewer(s.records[id], around.recovery, id);
    AdoptKnown(Some(s.records[id]), around.states, id);
  }

  // ---- What the requests mean -----------------------------------------------------------

  /** Creating keeps the creation date a loaded record has, stamps the record, keeps
      the fields it knows, and leaves nothing else active if it is active. An id
      marked as deleted is not created. */
  lemma CreateMeaning(s: State, around: Surroundings, id: Id, body: Record, now: nat)
    ensures var (s', loaded) := Step(s, CreateRequest(id, body, now), around);
            && (id in s'.records <==> id !in s.deleted)
            && (id !in s.deleted ==>
                  var r := s'.records[id];
                  && r.updatedAt == Some(now) && r.fields.Keys == KEPT_FIELDS
                  && r.createdAt == Some(if id in loaded then loaded[id].createdAt.GetOr(now) else now)
                  && r.active == Some(body.active.GetOr(if id in loaded then loaded[id].active.GetOr(false) else false))
                  && (forall f :: f in r.fields && f in body.fields ==> r.fields[f] == body.fields[f])
                  && (forall f :: f in r.fields && f !in body.fields ==>
                        r.fields[f] == if id in loaded && f in loaded[id].fields then loaded[id].fields[f] else ""))
            && s'.records.Keys - {id} == loaded.Keys - {id}
            && (forall k :: k in loaded && k != id ==>
                  s'.records[k] == if body.active == Some(true) then loaded[k].(active := Some(false)) else loaded[k])
            && s'.deleted == s.deleted
  {
    NothingMarkedLoads(s, around);
    hide LoadedMap;
  }

  /** Updating changes one record: the patch wins field by field, the creation date
      stays, and the record is stamped. */
  lemma UpdateMeaning(s: State, around: Surroundings, id: Id, patch: Record, now: nat)
    ensures var (s', loaded) := Step(s, UpdateRequest(id, patch, now), around);
            && s'.records.Keys == loaded.Keys && s'.deleted == s.deleted
            && (forall k :: k in loaded && k != id ==> s'.records[k] == loaded[k])
            && (id in loaded ==>
                  var (r, was) := (s'.records[id], loaded[id]);
                  && r.updatedAt == Some(now) && r.createdAt == was.createdAt
                  && r.active == (if patch.active.Some? then patch.active else was.active)
                  && r.fields.Keys == was.fields.Keys + patch.fields.Keys
                  && forall f :: f in r.fields ==> r.fields[f] == if f in patch.fields then patch.fields[f] else was.fields[f])
  {
    hide LoadedMap;
  }

  /** Activation leaves exactly one active company and changes nothing else. */
  lemma ActivateMeaning(s: State, around: Surroundings, id: Id)
    ensures var (s', loaded) := Step(s, ActivateRequest(id), around);
            && s'.records.Keys == loaded.Keys && s'.deleted == s.deleted
            && (id !in loaded ==> s'.records == loaded)
            && (id in loaded ==> forall k :: k in s'.records ==> (s'.records[k].active == Some(true) <==> k == id))
            && (forall k :: k in loaded ==> s'.records[k] == loaded[k].(active := s'.records[k].active))
  {
    hide LoadedMap;
  }

  /** An imported id gets its last imported record, any other one keeps what was
      loaded, and marked ids stay away. */
  lemma ImportMeaning(s: State, around: Surroundings, records: seq<(Id, Record)>)
    ensures var (s', loaded) := Step(s, ImportRequest(records), around);
            && (forall i :: 0 <= i < |records| && LastOf(records, i) && records[i].0 !in s.deleted ==>
                  records[i].0 in s'.records && s'.records[records[i].0] == records[i].1)
            && (forall id :: Unnamed(records, id) ==> Lookup(s'.records, id) == Lookup(loaded, id))
            && (forall id :: id in s.deleted ==> id !in s'.records)
            && s'.deleted == s.deleted
  {
    NothingMarkedLoads(s, around);
    ImportedMeaning(LoadedMap(s, around), records);
    hide LoadedMap, Imported;
  }

  /** No later record of the import has the same id. */
  ghost predicate LastOf(records: seq<(Id, Record)>, i: nat)
    requires i < |records|
  {
    forall j :: i < j < |records| ==> records[j].0 != records[i].0
  }

  ghost predicate Unnamed(records: seq<(Id, Record)>, id: Id) {
    forall i :: 0 <= i < |records| ==> records[i].0 != id
  }

  lemma {:induction false} ImportedMeaning(before: map<Id, Record>, records: seq<(Id, Record)>)
    ensures var after := Imported(before, records);
            && (forall i :: 0 <= i < |records| && LastOf(records, i) ==>
                  records[i].0 in after && after[records[i].0] == records[i].1)
            && (forall id :: Unnamed(records, id) ==> Lookup(after, id) == Lookup(before, id))
  {
    if records != [] {
      var front := records[..|records| - 1];
      ImportedMeaning(before, front);
      forall i | 0 <= i < |records| && LastOf(records, i)
        ensures i < |front| ==> LastOf(front, i) && records[i].0 != records[|records| - 1].0
      {
      }
      forall id | Unnamed(records, id)
        ensures Unnamed(front, id)
      {
      }
    }
  }

  lemma {:induction false} NoneNewer(r: Record, recovery: seq<map<Id, Entry>>, id: Id)
    requires forall f: map<Id, Entry> :: f in recovery && HasRecord(f, id) ==> Stamp(f[id].record) <= Stamp(r)
    ensures RecoverAll(Some(r), recovery, id) == Some(r)
  {
    if recovery != [] {
      NoneNewer(r, recovery[..|recovery| - 1], id);
    }
  }

  // ---- Deletion is permanent -----------------------------------------------------------

  /** The ids a request marks as deleted, given what it loaded. */
  function Marked(request: Request, loaded: map<Id, Record>): set<Id> {
    match request
    case DeleteRequest(id) => if id in loaded then {id} else {}
    case DeleteCompatRequest(id) => if id != "" then {id} else {}
    case DeleteDataRequest(id) => if id != "" then {id} else {}
    case SyncRequest(ids) => ids
    case _ => {}
  }

  function After(s: State, requests: seq<(Request, Surroundings)>): State {
    if requests == [] then s
    else
      var (request, around) := requests[|requests| - 1];
      Step(After(s, requests[..|requests| - 1]), request, around).0
  }

  /** What the j-th request loads. */
  function LoadAt(s: State, requests: seq<(Request, Surroundings)>, j: nat): map<Id, Record>
    requires j < |requests|
  {
    Step(After(s, requests[..j]), requests[j].0, requests[j].1).1
  }

  lemma NothingMarkedLoads(s: State, around: Surroundings)
    ensures LoadedMap(s, around).Keys !! s.deleted
  {
  }

  lemma StepMarks(s: State, request: Request, around: Surroundings)
    ensures var (s', loaded) := Step(s, request, around);
            && s'.deleted == s.deleted + Marked(request, loaded)
            && loaded.Keys !! s.deleted
            && (s.records.Keys !! s.deleted ==> s'.records.Keys !! s'.deleted)
  {
    NothingMarkedLoads(s, around);
    if request.DeleteDataRequest? {
      NothingMarkedLoads(Seen(s.records, s.deleted + {request.id}), around);
    }
    hide LoadedMap, Imported;
  }

  /** The i-th request marks the id. */
  predicate MarkedBy(s: State, requests: seq<(Request, Surroundings)>, i: nat, id: Id)
    requires i < |requests|
  {
    id in Marked(requests[i].0, LoadAt(s, requests, i))
  }

  lemma MarkedInFront(s: State, requests: seq<(Request, Surroundings)>, n: nat, i: nat, id: Id)
    requires i < n <= |requests|
    ensures MarkedBy(s, requests[..n], i, id) <==> MarkedBy(s, requests, i, id)
  {
    hide Step, Marked, After;
    assert requests[..n][..i] == requests[..i];
  }

  lemma LastMarks(s: State, requests: seq<(Request, Surroundings)>, id: Id)
    requires requests != []
    ensures id in After(s, requests).deleted <==>
            id in After(s, requests[..|requests| - 1]).deleted || MarkedBy(s, requests, |requests| - 1, id)
  {
    var (request, around) := requests[|requests| - 1];
    StepMarks(After(s, requests[..|requests| - 1]), request, around);
    hide Step, Marked;
  }

  /** The marks are the first ones and those that the requests made, no fewer and no others. */
  lemma {:induction false} MarksAccumulate(s: State, requests: seq<(Request, Surroundings)>, id: Id)
    ensures id in After(s, requests).deleted <==>
            id in s.deleted || exists i :: 0 <= i < |requests| && MarkedBy(s, requests, i, id)
  {
    if requests != [] {
      var n := |requests| - 1;
      MarksAccumulate(s, requests[..n], id);
      LastMarks(s, requests, id);
      hide After, MarkedBy;
      forall i | 0 <= i < n
        ensures MarkedBy(s, requests[..n], i, id) <==> MarkedBy(s, requests, i, id)
      {
        MarkedInFront(s, requests, n, i, id);
      }
    }
  }

  /** Over any requests, with any files around: what one request marks is in nothing
      that a later one loads, even if it was created, imported or left in a recovery
      file in the meantime. */
  lemma DeletedForGood(s: State, requests: seq<(Request, Surroundings)>, i: nat, j: nat, id: Id)
    requires i < j < |requests| && (id in s.deleted || MarkedBy(s, requests, i, id))
    ensures id !in LoadAt(s, requests, j)
    ensures id in After(s, requests).deleted
  {
    hide Step, Marked, After;
    MarkedInFront(s, requests, j, i, id);
    MarksAccumulate(s, requests[..j], id);
    MarksAccumulate(s, requests, id);
    StepMarks(After(s, requests[..j]), requests[j].0, requests[j].1);
  }

  // ---- The registry object ---------------------------------------------------------------

  class Registry {
    var mainFile: map<Id, Record>
    var deleted: set<Id>

    ghost function Current(): State
      reads this
    {
      Seen(mainFile, deleted)
    }

    constructor (mainFile: map<Id, Record>, deleted: set<Id>)
      ensures this.mainFile == mainFile && this.deleted == deleted
    {
      this.mainFile, this.deleted := mainFile, deleted;
    }

    /** Load the registry. Deleted ids never come back, whatever the files around
        hold; the main file is rewritten only when something was recovered. */
    method Load(around: Surroundings) returns (companies: map<Id, Record>)
      modifies this`mainFile
      ensures forall id :: Lookup(companies, id) == Loaded(old(mainFile), deleted, around.recovery, around.states, id)
      ensures (Current(), companies) == Step(old(Current()), LoadRequest, around)
      ensures companies.Keys !! deleted
      ensures mainFile == companies || (mainFile == old(mainFile) && companies == mainFile - deleted)
    {
      companies := mainFile - deleted;
      var recovered := false;
      for i := 0 to |around.recovery|
        invariant forall id :: Lookup(companies, id) ==
                    if id in deleted then None else RecoverAll(Lookup(mainFile, id), around.recovery[..i], id)
        invariant mainFile == old(mainFile)
        invariant !recovered ==> companies == mainFile - deleted
      {
        assert around.recovery[..i + 1][..i] == around.recovery[..i];
        var changed;
        companies, changed := RecoverFrom(companies, around.recovery[i]);
        recovered := recovered || changed;
      }
      assert around.recovery[..|around.recovery|] == around.recovery;
      if recovered {
        mainFile := companies;
      }
      for i := 0 to |around.states|
        invariant forall id :: Lookup(companies, id) == Loaded(old(mainFile), deleted, around.recovery, around.states[..i], id)
        invariant mainFile == companies || (mainFile == old(mainFile) && companies == mainFile - deleted)
      {
        assert around.states[..i + 1][..i] == around.states[..i];
        var added;
        companies, added := AdoptFrom(companies, around.states[i]);
        if added {
          mainFile := companies;
        }
      }
      assert around.states[..|around.states|] == around.states;
      forall id | id in companies
        ensures id !in deleted
      {
        assert Lookup(companies, id).Some?;
      }
      SeenLoad(old(mainFile), deleted, around, companies);
      Unmarked(companies, deleted);
    }

    /** The loop over one recovery file, in any order. */
    method RecoverFrom(before: map<Id, Record>, file: map<Id, Entry>) returns (companies: map<Id, Record>, changed: bool)
      ensures forall id :: Lookup(companies, id) ==
                if id in deleted then Lookup(before, id) else Recover(Lookup(before, id), Lookup(file, id))
      ensures !changed ==> companies == before
    {
      companies, changed := before, false;
      var todo := file.Keys;
      while todo != {}
        invariant todo <= file.Keys
        invariant forall id :: Lookup(companies, id) ==
                    if id in deleted || id in todo then Lookup(before, id) else Recover(Lookup(before, id), Lookup(file, id))
        invariant !changed ==> companies == before
      {
        var id :| id in todo;
        todo := todo - {id};
        if file[id].NotARecord? || id in deleted {
          continue;
        }
        var found := file[id].record;
        if id !in companies {
          companies := companies[id := found];
          changed := true;
        } else if Stamp(found) > 0 && Stamp(found) > Stamp(companies[id]) {
          companies := companies[id := Merge(companies[id], found)];
          changed := true;
        }
      }
    }

    /** The loop over one state file, in any order. */
    method AdoptFrom(before: map<Id, Record>, file: map<Id, Entry>) returns (companies: map<Id, Record>, added: bool)
      ensures forall id :: Lookup(companies, id) ==
                if id in deleted then Lookup(before, id) else Adopt(Lookup(before, id), Lookup(file, id))
      ensures !added ==> companies == before
    {
      companies, added := before, false;
      var todo := file.Keys;
      while todo != {}
        invariant todo <= file.Keys
        invariant forall id :: Lookup(companies, id) ==
                    if id in deleted || id in todo then Lookup(before, id) else Adopt(Lookup(before, id), Lookup(file, id))
        invariant !added ==> companies == before
      {
        var id :| id in todo;
        todo := todo - {id};
        if id !in deleted && file[id].Rec? && id !in companies {
          companies := companies[id := file[id].record];
          added := true;
        }
      }
    }

    /** Create or replace a company; an active one deactivates the others. */
    method Create(around: Surroundings, id: Id, body: Record, now: nat) returns (before: map<Id, Record>)
      modifies this`mainFile
      ensures (Current(), before) == Step(old(Current()), CreateRequest(id, body, now), around)
      ensures mainFile == (if body.active == Some(true) then Deactivated(before) else before)
                          [id := Created(Lookup(before, id), body, now)]
    {
      before := Load(around);
      hide LoadedMap, Created, Updated, Imported;
      var companies := before;
      if body.active == Some(true) {
        companies := Deactivated(companies);
      }
      mainFile := companies[id := Created(Lookup(before, id), body, now)];
    }

    /** Overlay a patch, except created_at, and stamp the record. */
    method Update(around: Surroundings, id: Id, patch: Record, now: nat) returns (ok: bool, before: map<Id, Record>)
      modifies this`mainFile
      ensures (Current(), before) == Step(old(Current()), UpdateRequest(id, patch, now), around)
      ensures ok <==> id in before
      ensures ok ==> mainFile == before[id := Updated(before[id], patch, now)]
      ensures !ok ==> mainFile == before || (mainFile == old(mainFile) && before == mainFile - deleted)
    {
      before := Load(around);
      hide LoadedMap, Created, Updated, Imported;
      ok := id in before;
      if ok {
        mainFile := before[id := Updated(before[id], patch, now)];
        Unmarked(mainFile, deleted);
      }
    }

    method Activate(around: Surroundings, id: Id) returns (ok: bool, before: map<Id, Record>)
      modifies this`mainFile
      ensures (Current(), before) == Step(old(Current()), ActivateRequest(id), around)
      ensures ok <==> id in before
      ensures ok ==> mainFile == Deactivated(before)[id := before[id].(active := Some(true))]
      ensures !ok ==> mainFile == before || (mainFile == old(mainFile) && before == mainFile - deleted)
    {
      before := Load(around);
      hide LoadedMap, Created, Updated, Imported;
      ok := id in before;
      if ok {
        mainFile := Deactivated(before)[id := before[id].(active := Some(true))];
        Unmarked(mainFile, deleted);
      }
    }

    method Delete(around: Surroundings, id: Id) returns (ok: bool, before: map<Id, Record>)
      modifies this
      ensures (Current(), before) == Step(old(Current()), DeleteRequest(id), around)
      ensures ok <==> id in before
      ensures deleted == if ok then old(deleted) + {id} else old(deleted)
      ensures ok ==> mainFile == before - {id}
      ensures !ok ==> mainFile == before || (mainFile == old(mainFile) && before == mainFile - deleted)
    {
      before := Load(around);
      hide LoadedMap, Created, Updated, Imported;
      ok := id in before;
      if ok {
        deleted := deleted + {id};
        mainFile := before - {id};
        Unmarked(mainFile, deleted);
      }
    }

    /** The older endpoint marks the id even when no such company is loaded; it
        refuses an empty id. */
    method DeleteCompat(around: Surroundings, id: Id) returns (ok: bool, before: map<Id, Record>)
      modifies this
      ensures ok <==> id != ""
      ensures (Current(), before) == Step(old(Current()), DeleteCompatRequest(id), around)
      ensures deleted == if ok then old(deleted) + {id} else old(deleted)
      ensures ok ==> mainFile == before - {id} || (mainFile == old(mainFile) && before == mainFile - old(deleted) && id !in before)
      ensures !ok ==> mainFile == old(mainFile) && before == map[]
    {
      ok := id != "";
      if !ok {
        before := map[];
        return;
      }
      before := Load(around);
      hide LoadedMap, Created, Updated, Imported;
      if id in before {
        mainFile := before - {id};
      }
      deleted := deleted + {id};
      assert id !in before ==> before - {id} == before;
      assert Current().records == before - {id};
    }

    /** The data endpoint marks first and loads then, so the id is already gone. */
    method DeleteData(around: Surroundings, id: Id) returns (before: map<Id, Record>)
      modifies this
      ensures deleted == if id != "" then old(deleted) + {id} else old(deleted)
      ensures (Current(), before) == Step(old(Current()), DeleteDataRequest(id), around)
      ensures id != "" ==> id !in before
      ensures id == "" ==> mainFile == old(mainFile) && before == map[]
      ensures mainFile == before || (mainFile == old(mainFile) && (id != "" ==> before == mainFile - deleted))
    {
      before := map[];
      if id != "" {
        ghost var s := Current();
        deleted := deleted + {id};
        assert Current() == Seen(s.records, deleted);
        before := Load(around);
      hide LoadedMap, Created, Updated, Imported;
        assert id in deleted;
      }
    }

    /** The frontend's own list of deleted ids joins the bridge's. */
    method SyncDeleted(ids: set<Id>)
      modifies this
      ensures Current() == Seen(old(Current()).records, old(deleted) + ids)
      ensures deleted == old(deleted) + ids
      ensures mainFile == if ids <= old(deleted) then old(mainFile) else old(mainFile) - deleted
    {
      var merged := deleted + ids;
      if merged != deleted {
        deleted := merged;
        mainFile := mainFile - merged;
      }
    }

    method Import(around: Surroundings, records: seq<(Id, Record)>) returns (before: map<Id, Record>)
      modifies this`mainFile
      ensures (Current(), before) == Step(old(Current()), ImportRequest(records), around)
      ensures mainFile == Imported(before, records)
    {
      before := Load(around);
      hide LoadedMap, Created, Updated, Imported;
      var companies := before;
      for i := 0 to |records|
        invariant companies == Imported(before, records[..i])
      {
        assert records[..i + 1][..i] == records[..i];
        companies := companies[records[i].0 := records[i].1];
      }
      assert records[..|records|] == records;
      mainFile := companies;
    }
  }

  /** Serve any requests, each with whatever files it finds around. What the requests
      load and leave is what the theorems above speak of. */
  method Serve(registry: Registry, requests: seq<(Request, Surroundings)>) returns (loads: seq<map<Id, Record>>)
    modifies registry
    ensures registry.Current() == After(old(registry.Current()), requests)
    ensures |loads| == |requests|
    ensures forall j :: 0 <= j < |loads| ==> loads[j] == LoadAt(old(registry.Current()), requests, j)
    ensures old(registry.deleted) <= registry.deleted
    ensures forall i, j, id :: 0 <= i < j < |loads| && id in Marked(requests[i].0, loads[i]) ==> id !in loads[j]
    ensures forall j, id :: 0 <= j < |loads| && id in old(registry.deleted) ==> id !in loads[j]
    ensures forall i, id :: 0 <= i < |loads| && id in Marked(requests[i].0, loads[i]) ==> id in registry.deleted
  {
    hide Step, Marked, Seen;
    loads := [];
    assert requests[..0] == [];
    for n := 0 to |requests|
      invariant registry.Current() == After(old(registry.Current()), requests[..n])
      invariant |loads| == n
      invariant forall j :: 0 <= j < n ==> loads[j] == LoadAt(old(registry.Current()), requests, j)
      invariant old(registry.deleted) <= registry.deleted
      invariant forall i, id :: 0 <= i < n && id in Marked(requests[i].0, loads[i]) ==> id in registry.deleted
      invariant forall i, j, id :: 0 <= i < j < n && id in Marked(requests[i].0, loads[i]) ==> id !in loads[j]
      invariant forall j, id :: 0 <= j < n && id in old(registry.deleted) ==> id !in loads[j]
    {
      assert requests[..n + 1][..n] == requests[..n];
      var loaded := ServeOne(registry, requests[n].0, requests[n].1);
      loads := loads + [loaded];
    }
    assert requests[..|requests|] == requests;
  }

  method ServeOne(registry: Registry, request: Request, around: Surroundings) returns (loaded: map<Id, Record>)
    modifies registry
    ensures (registry.Current(), loaded) == Step(old(registry.Current()), request, around)
    ensures registry.deleted == old(registry.deleted) + Marked(request, loaded)
    ensures loaded.Keys !! old(registry.deleted)
  {
    StepMarks(registry.Current(), request, around);
    hide LoadedMap, Imported, Created, Updated, Deactivated, Marked;
    match request {
      case LoadRequest => loaded := registry.Load(around);
      case CreateRequest(id, body, now) => loaded := registry.Create(around, id, body, now);
      case UpdateRequest(id, patch, now) =>
        var ok;
        ok, loaded := registry.Update(around, id, patch, now);
      case ActivateRequest(id) =>
        var ok;
        ok, loaded := registry.Activate(around, id);
      case DeleteRequest(id) =>
        var ok;
        ok, loaded := registry.Delete(around, id);
      case DeleteCompatRequest(id) =>
        var ok;
        ok, loaded := registry.DeleteCompat(around, id);
      case DeleteDataRequest(id) => loaded := registry.DeleteData(around, id);
      case SyncRequest(ids) =>
        registry.SyncDeleted(ids);
        loaded := map[];
      case ImportRequest(records) => loaded := registry.Import(around, records);
    }
  }
}
