/** The pool of CLI sessions: live sessions under real ids, new ones under temporary
    ids, and the temporary ids that have been given a real one. Sessions are numbered
    in the order they are created. */
module SessionPool {
  type Id = string
  type Session = nat

  datatype Pool = Pool(
    sessions: map<Id, Session>,
    pending: map<Id, Session>,
    tempToReal: map<Id, Id>,
    created: nat,
    stopped: set<Session>)

  const EMPTY := Pool(map[], map[], map[], 0, {})

  /** `_temp_to_real.get(id, id)` */
  function Resolved(p: Pool, id: Id): Id {
    if id in p.tempToReal then p.tempToReal[id] else id
  }

  datatype Found = Found(session: Session, id: Id, isNew: bool)

  /** Look up an id; without a hit, or without an id, make a session. */
  function GetOrCreate(p: Pool, id: Id, freshId: Id): (Pool, Found) {
    var realId := Resolved(p, id);
    if id != "" && realId in p.sessions then (p, Found(p.sessions[realId], realId, false))
    else if id != "" && realId in p.pending then (p, Found(p.pending[realId], realId, false))
    else
      var temp := if id != "" then id else freshId;
      (p.(pending := p.pending[temp := p.created], created := p.created + 1), Found(p.created, temp, true))
  }

  function Register(p: Pool, temp: Id, realId: Id): (Pool, bool) {
    if temp !in p.pending then (p, false)
    else
      (p.(pending := p.pending - {temp},
          sessions := p.sessions[realId := p.pending[temp]],
          tempToReal := p.tempToReal[temp := realId]), true)
  }

  function Remove(p: Pool, id: Id): (Pool, bool) {
    if id in p.pending then
      (p.(pending := p.pending - {id}, stopped := p.stopped + {p.pending[id]}), true)
    else if id in p.sessions then
      (p.(sessions := p.sessions - {id},
          stopped := p.stopped + {p.sessions[id]},
          tempToReal := map t | t in p.tempToReal && p.tempToReal[t] != id :: p.tempToReal[t]), true)
    else (p, false)
  }

  function StopAll(p: Pool): Pool {
    Pool(map[], map[], map[], p.created, p.stopped + p.sessions.Values + p.pending.Values)
  }

  // ---- The invariant ---------------------------------------------------------------

  datatype Slot = Live(id: Id) | Waiting(id: Id)

  predicate Holds(p: Pool, slot: Slot, n: Session) {
    match slot
    case Live(id) => id in p.sessions && p.sessions[id] == n
    case Waiting(id) => id in p.pending && p.pending[id] == n
  }

  /** Created and not stopped. */
  predicate Running(p: Pool, n: Session) {
    n < p.created && n !in p.stopped
  }

  /** Every running session sits in exactly one slot, and nothing else does. */
  ghost predicate OneSlotEach(p: Pool) {
    && (forall n :: Running(p, n) ==> exists slot :: Holds(p, slot, n))
    && (forall slot, n :: Holds(p, slot, n) ==> Running(p, n))
    && (forall s1, s2, n :: Holds(p, s1, n) && Holds(p, s2, n) ==> s1 == s2)
  }

  ghost predicate Inv(p: Pool) {
    && (forall t :: t in p.tempToReal ==> p.tempToReal[t] in p.sessions && t !in p.pending)
    && (forall n :: n in p.stopped ==> n < p.created)
    && OneSlotEach(p)
  }

  lemma CreatedKeepsSlots(p: Pool, temp: Id)
    requires Inv(p) && temp !in p.pending
    ensures OneSlotEach(p.(pending := p.pending[temp := p.created], created := p.created + 1))
  {
    var p' := p.(pending := p.pending[temp := p.created], created := p.created + 1);
    assert Holds(p', Waiting(temp), p.created);
    forall n | Running(p', n)
      ensures exists slot :: Holds(p', slot, n)
    {
      if n != p.created {
        assert Running(p, n);
        var slot :| Holds(p, slot, n);
        assert Holds(p', slot, n);
      }
    }
    forall slot, n | Holds(p', slot, n)
      ensures if n == p.created then slot == Waiting(temp) else Holds(p, slot, n)
    {
      if slot != Waiting(temp) {
        assert Holds(p, slot, n);
        assert Running(p, n);
      }
    }
  }

  /** With an unused fresh id, looking up or creating keeps the invariant. */
  lemma GetOrCreateKeepsInv(p: Pool, id: Id, freshId: Id)
    requires Inv(p)
    requires freshId !in p.pending && freshId !in p.tempToReal
    ensures Inv(GetOrCreate(p, id, freshId).0)
    ensures var f := GetOrCreate(p, id, freshId).1; Running(GetOrCreate(p, id, freshId).0, f.session)
  {
    var (p', f) := GetOrCreate(p, id, freshId);
    var realId := Resolved(p, id);
    if f.isNew {
      CreatedKeepsSlots(p, f.id);
    } else if realId in p.sessions {
      assert Holds(p, Live(realId), f.session);
    } else {
      assert Holds(p, Waiting(realId), f.session);
    }
  }

  lemma RegisterFreshKeepsInv(p: Pool, temp: Id, realId: Id)
    requires Inv(p) && temp in p.pending && realId !in p.sessions
    ensures Inv(Register(p, temp, realId).0)
  {
    var p' := Register(p, temp, realId).0;
    var moved := p.pending[temp];
    assert Holds(p, Waiting(temp), moved);
    assert Holds(p', Live(realId), moved);
    assert forall slot, n :: Holds(p', slot, n) <==>
        (slot == Live(realId) && n == moved) || (slot != Live(realId) && slot != Waiting(temp) && Holds(p, slot, n));
    forall n | Running(p', n)
      ensures exists slot :: Holds(p', slot, n)
    {
      assert Running(p, n);
      var slot :| Holds(p, slot, n);
      if slot != Waiting(temp) {
        assert Holds(p', slot, n);
      }
    }
  }

  /** Registering keeps the invariant exactly when the real id is not live already;
      otherwise the session that had it runs on, in no slot. */
  lemma RegisterKeepsInvIff(p: Pool, temp: Id, realId: Id)
    requires Inv(p) && temp in p.pending
    ensures Inv(Register(p, temp, realId).0) <==> realId !in p.sessions
  {
    if realId !in p.sessions {
      RegisterFreshKeepsInv(p, temp, realId);
    } else {
      var p', lost := Register(p, temp, realId).0, p.sessions[realId];
      assert Holds(p, Live(realId), lost) && Running(p, lost) && Running(p', lost);
      assert Holds(p, Waiting(temp), p.pending[temp]);
      forall slot
        ensures !Holds(p', slot, lost)
      {
        if slot == Live(realId) {
          assert p.pending[temp] == lost ==> Waiting(temp) == Live(realId);
        } else {
          assert Holds(p', slot, lost) ==> Holds(p, slot, lost);
        }
      }
    }
  }

  lemma RemoveKeepsInv(p: Pool, id: Id)
    requires Inv(p)
    ensures Inv(Remove(p, id).0)
  {
    var p' := Remove(p, id).0;
    if id in p.pending || id in p.sessions {
      var gone := if id in p.pending then Waiting(id) else Live(id);
      var n0 := if id in p.pending then p.pending[id] else p.sessions[id];
      assert Holds(p, gone, n0);
      assert forall slot, n :: Holds(p', slot, n) <==> slot != gone && Holds(p, slot, n);
      forall n | Running(p', n)
        ensures exists slot :: Holds(p', slot, n)
      {
        assert Running(p, n);
        var slot :| Holds(p, slot, n);
        assert Holds(p', slot, n);
      }
    }
  }

  /** Stopping all reaches every running session. */
  lemma StopAllStopsAll(p: Pool)
    requires Inv(p)
    ensures Inv(StopAll(p)) && forall n: Session :: n < p.created ==> n in StopAll(p).stopped
  {
    forall n: Session | n < p.created
      ensures n in StopAll(p).stopped
    {
      if n !in p.stopped {
        assert Running(p, n);
        var slot :| Holds(p, slot, n);
      }
    }
    forall n | n in StopAll(p).stopped
      ensures n < p.created
    {
      if id :| id in p.sessions && p.sessions[id] == n {
        assert Holds(p, Live(id), n);
      } else if id :| id in p.pending && p.pending[id] == n {
        assert Holds(p, Waiting(id), n);
      }
    }
    assert forall slot, n :: !Holds(StopAll(p), slot, n);
  }

  // ---- Over every run ----------------------------------------------------------------

  datatype Action =
    | GetAction(id: Id, freshId: Id)
    | RegisterAction(temp: Id, realId: Id)
    | RemoveAction(id: Id)
    | StopAllAction

  function Step(p: Pool, a: Action): Pool {
    match a
    case GetAction(id, freshId) => GetOrCreate(p, id, freshId).0
    case RegisterAction(temp, realId) => Register(p, temp, realId).0
    case RemoveAction(id) => Remove(p, id).0
    case StopAllAction => StopAll(p)
  }

  /** Fresh ids are unused, and no live real id is registered again. */
  predicate Proper(p: Pool, a: Action) {
    match a
    case GetAction(_, freshId) => freshId !in p.pending && freshId !in p.tempToReal
    case RegisterAction(temp, realId) => temp in p.pending ==> realId !in p.sessions
    case _ => true
  }

  ghost predicate ProperRun(p: Pool, actions: seq<Action>)
    decreases |actions|
  {
    actions == [] || (Proper(p, actions[0]) && ProperRun(Step(p, actions[0]), actions[1..]))
  }

  function After(p: Pool, actions: seq<Action>): Pool
    decreases |actions|
  {
    if actions == [] then p else After(Step(p, actions[0]), actions[1..])
  }

  lemma StepKeepsInv(p: Pool, a: Action)
    requires Inv(p) && Proper(p, a)
    ensures Inv(Step(p, a))
  {
    hide Inv;
    match a
    case GetAction(id, freshId) => GetOrCreateKeepsInv(p, id, freshId);
    case RegisterAction(temp, realId) =>
      if temp in p.pending {
        RegisterFreshKeepsInv(p, temp, realId);
      }
    case RemoveAction(id) => RemoveKeepsInv(p, id);
    case StopAllAction => StopAllStopsAll(p);
  }

  lemma {:induction false} RunKeepsInv(p: Pool, actions: seq<Action>)
    requires Inv(p) && ProperRun(p, actions)
    ensures Inv(After(p, actions))
    decreases |actions|
  {
    if actions != [] {
      hide Inv;
      StepKeepsInv(p, actions[0]);
      RunKeepsInv(Step(p, actions[0]), actions[1..]);
    }
  }

  /** A temporary id that was given a real one. */
  ghost predicate Bound(p: Pool, temp: Id, realId: Id, n: Session) {
    temp in p.tempToReal && p.tempToReal[temp] == realId && realId in p.sessions && p.sessions[realId] == n
  }

  /** The action takes the session under `realId` away. */
  predicate Ends(a: Action, realId: Id) {
    a.StopAllAction? || (a.RemoveAction? && a.id == realId)
  }

  /** A registered temporary id leads to the same session until that is removed. */
  lemma {:induction false} BoundStays(p: Pool, actions: seq<Action>, temp: Id, realId: Id, n: Session)
    requires Inv(p) && ProperRun(p, actions) && Bound(p, temp, realId, n) && temp != ""
    requires forall i :: 0 <= i < |actions| ==> !Ends(actions[i], realId)
    ensures Bound(After(p, actions), temp, realId, n)
    ensures forall freshId :: GetOrCreate(After(p, actions), temp, freshId) == (After(p, actions), Found(n, realId, false))
    decreases |actions|
  {
    if actions != [] {
      var p' := Step(p, actions[0]);
      BoundStep(p, actions[0], temp, realId, n);
      StepKeepsInv(p, actions[0]);
      hide Inv, Step, Bound;
      BoundStays(p', actions[1..], temp, realId, n);
    }
  }

  lemma BoundStep(p: Pool, a: Action, temp: Id, realId: Id, n: Session)
    requires Inv(p) && Proper(p, a) && Bound(p, temp, realId, n) && !Ends(a, realId)
    ensures Bound(Step(p, a), temp, realId, n)
  {
  }

  lemma RegisterBinds(p: Pool, temp: Id, realId: Id)
    requires temp in p.pending
    ensures Bound(Register(p, temp, realId).0, temp, realId, p.pending[temp])
  {
  }

  /** From the registration on, the temporary id leads to the session that waited under it. */
  lemma RegisteredStays(p: Pool, temp: Id, realId: Id, actions: seq<Action>)
    requires Inv(p) && temp in p.pending && temp != "" && realId !in p.sessions
    requires ProperRun(Register(p, temp, realId).0, actions)
    requires forall i :: 0 <= i < |actions| ==> !Ends(actions[i], realId)
    ensures var p' := After(Register(p, temp, realId).0, actions);
            forall freshId :: GetOrCreate(p', temp, freshId) == (p', Found(p.pending[temp], realId, false))
  {
    RegisterBinds(p, temp, realId);
    RegisterFreshKeepsInv(p, temp, realId);
    hide Register, Inv, Bound, After, GetOrCreate, ProperRun;
    BoundStays(Register(p, temp, realId).0, actions, temp, realId, p.pending[temp]);
  }

  /** A pool that differs from another in nothing but one more session, waiting under `id`. */
  ghost predicate OneMoreWaits(p: Pool, p': Pool, id: Id) {
    && p'.created == p.created + 1
    && p'.pending.Keys == p.pending.Keys + {id} && p'.pending[id] == p.created
    && (forall k :: k in p.pending && k != id ==> p'.pending[k] == p.pending[k])
    && p'.sessions == p.sessions && p'.tempToReal == p.tempToReal && p'.stopped == p.stopped
  }

  /** Asking with the id of a live session, or with one under which a session waits,
      returns that session and changes nothing. Any other id, or none, brings a new
      session that waits under the id asked for, or under the fresh one. */
  lemma AskingMeans(p: Pool, id: Id, freshId: Id)
    requires Inv(p)
    ensures var (p', f) := GetOrCreate(p, id, freshId);
            && (id != "" && id in p.sessions && id !in p.tempToReal ==> p' == p && f == Found(p.sessions[id], id, false))
            && (id != "" && id in p.pending && id !in p.sessions ==> p' == p && f == Found(p.pending[id], id, false))
            && (id != "" && id in p.tempToReal ==> p' == p && f == Found(p.sessions[p.tempToReal[id]], p.tempToReal[id], false))
            && (id == "" || (id !in p.sessions && id !in p.pending && id !in p.tempToReal) ==>
                  var temp := if id == "" then freshId else id;
                  f == Found(p.created, temp, true) && OneMoreWaits(p, p', temp))
  {
    hide OneSlotEach;
  }

  /** Removing stops the session that waits under the id, else the live one, and no other. */
  lemma RemovingMeans(p: Pool, id: Id)
    requires Inv(p)
    ensures var (p', ok) := Remove(p, id);
            && (ok <==> id in p.pending || id in p.sessions)
            && (!ok ==> p' == p)
            && (id in p.pending ==> p'.stopped == p.stopped + {p.pending[id]} && p'.sessions == p.sessions
                                    && p'.pending.Keys == p.pending.Keys - {id} && p'.tempToReal == p.tempToReal)
            && (id !in p.pending && id in p.sessions ==>
                  p'.stopped == p.stopped + {p.sessions[id]} && p'.pending == p.pending
                  && p'.sessions.Keys == p.sessions.Keys - {id}
                  && forall t :: t in p'.tempToReal <==> t in p.tempToReal && p.tempToReal[t] != id)
  {
    hide OneSlotEach;
  }

  lemma EmptyInv()
    ensures Inv(EMPTY)
  {
    assert forall slot, n :: !Holds(EMPTY, slot, n);
  }

  /** A run from the empty pool that loses a session: two sessions are created and both
      registered under one real id. The first runs on, in no slot. */
  lemma SecondRegistrationLoses()
    ensures var p := After(EMPTY, [GetAction("", "s"), RegisterAction("s", "r"), GetAction("", "t"), RegisterAction("t", "r")]);
            Running(p, 0) && (forall slot :: !Holds(p, slot, 0)) && !Inv(p)
  {
    var get1, register1, get2, register2 :=
      GetAction("", "s"), RegisterAction("s", "r"), GetAction("", "t"), RegisterAction("t", "r");
    var p1 := Pool(map[], map["s" := 0], map[], 1, {});
    var p2 := Pool(map["r" := 0], map[], map["s" := "r"], 1, {});
    var p3 := Pool(map["r" := 0], map["t" := 1], map["s" := "r"], 2, {});
    var p4 := Pool(map["r" := 1], map[], map["s" := "r", "t" := "r"], 2, {});
    assert Step(EMPTY, get1) == p1;
    assert Step(p1, register1) == p2 by { assert map["s" := 0] - {"s"} == map[]; }
    assert Step(p2, get2) == p3;
    assert Step(p3, register2) == p4 by { assert map["t" := 1] - {"t"} == map[]; }
    AfterFour(EMPTY, get1, register1, get2, register2);
    hide Step, After;
    assert Running(p4, 0) && forall slot :: !Holds(p4, slot, 0);
  }

  lemma AfterFour(p: Pool, a: Action, b: Action, c: Action, d: Action)
    ensures After(p, [a, b, c, d]) == Step(Step(Step(Step(p, a), b), c), d)
  {
    hide Step;
    assert [a, b, c, d][1..] == [b, c, d] && [b, c, d][1..] == [c, d] && [c, d][1..] == [d] && [d][1..] == [];
    var p1, p2, p3 := Step(p, a), Step(Step(p, a), b), Step(Step(Step(p, a), b), c);
    assert After(p, [a, b, c, d]) == After(p1, [b, c, d]);
    assert After(p1, [b, c, d]) == After(p2, [c, d]);
    assert After(p2, [c, d]) == After(p3, [d]);
    assert After(p3, [d]) == After(Step(p3, d), []);
  }

  // ---- The manager object --------------------------------------------------------------

  class Manager {
    var sessions: map<Id, Session>
    var pendingSessions: map<Id, Session>
    var tempToReal: map<Id, Id>
    var created: nat
    var stopped: set<Session>

    ghost function Current(): Pool
      reads this
    {
      Pool(sessions, pendingSessions, tempToReal, created, stopped)
    }

    constructor ()
      ensures Current() == EMPTY
    {
      sessions, pendingSessions, tempToReal, created, stopped := map[], map[], map[], 0, {};
    }

    method GetOrCreateSession(id: Id, freshId: Id) returns (session: Session, sessionId: Id, isNew: bool)
      modifies this
      ensures (Current(), Found(session, sessionId, isNew)) == GetOrCreate(old(Current()), id, freshId)
    {
      if id != "" {
        var lookup := if id in tempToReal then tempToReal[id] else id;
        if lookup in sessions {
          return sessions[lookup], lookup, false;
        }
        if lookup in pendingSessions {
          return pendingSessions[lookup], lookup, false;
        }
      }
      sessionId := if id != "" then id else freshId;
      session := created;
      created := created + 1;
      pendingSessions := pendingSessions[sessionId := session];
      isNew := true;
    }

    method RegisterRealSessionId(temp: Id, realId: Id) returns (ok: bool)
      modifies this
      ensures (Current(), ok) == Register(old(Current()), temp, realId)
    {
      if temp !in pendingSessions {
        return false;
      }
      var session := pendingSessions[temp];
      pendingSessions := pendingSessions - {temp};
      sessions := sessions[realId := session];
      tempToReal := tempToReal[temp := realId];
      return true;
    }

    method RemoveSession(id: Id) returns (ok: bool)
      modifies this
      ensures (Current(), ok) == Remove(old(Current()), id)
    {
      if id in pendingSessions {
        stopped := stopped + {pendingSessions[id]};
        pendingSessions := pendingSessions - {id};
        return true;
      }
      if id in sessions {
        stopped := stopped + {sessions[id]};
        sessions := sessions - {id};
        tempToReal := map t | t in tempToReal && tempToReal[t] != id :: tempToReal[t];
        return true;
      }
      return false;
    }

    method StopAllSessions()
      modifies this
      ensures Current() == StopAll(old(Current()))
    {
      stopped := stopped + sessions.Values + pendingSessions.Values;
      sessions, pendingSessions, tempToReal := map[], map[], map[];
    }
  }
}
