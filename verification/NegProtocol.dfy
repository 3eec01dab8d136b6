/**
 * NIP-77 sessions over all connections, as a state machine. Sections under one connection's map lock, the
 * acquisition on the shared counter, and the hand-overs between handlers, load worker and idle timers are steps
 * that interleave freely. A session is named by a number that is never reused: the object's identity.
 */
module NegProtocol {
  datatype Key = Key(conn: string, sub: string)

  /** `active` is the owned reservation, `ready` that reconciliation state is in place. */
  datatype Session = Session(key: Key, active: bool, ready: bool)

  /** Queued; looked up; refused a load slot; holding one; done and about to give it back. */
  datatype Phase = Queued | Checked | Refused | Loading | Returning

  datatype Reply = NegMsg | NegErr

  datatype Sent = Sent(sid: nat, reply: Reply)

  /**
   * `reserving` holds connections inside `reserve`, between closing the old session and acquiring a slot.
   * `pending` holds sessions whose open job has not reached the queue; `sent` the answers of open jobs.
   */
  datatype System = System(
    counter: int,
    cap: nat,
    held: map<Key, nat>,
    nextSid: nat,
    sessions: map<nat, Session>,
    closed: set<string>,
    reserving: map<string, string>,
    pending: set<nat>,
    jobs: map<nat, Phase>,
    freeSlots: nat,
    slots: nat,
    releases: map<nat, nat>,
    sent: seq<Sent>)

  datatype Step =
    | ReserveBegin(key: Key)
    | ReserveEnd(conn: string)
    | Enqueue(sid: nat, accepted: bool)
    | JobCheck(sid: nat)
    | TakeSlot(sid: nat)
    | RefuseJob(sid: nat)
    | JobFail(sid: nat)
    | JobPublish(sid: nat, delivered: bool, complete: bool)
    | GiveBack(sid: nat)
    | RemoveIf(sid: nat)
    | Remove(key: Key)
    | CloseAll(conn: string)

  /** The map entry for the session's id is this very session. */
  predicate Holds(s: System, sid: nat) {
    sid in s.sessions && s.sessions[sid].key in s.held && s.held[s.sessions[sid].key] == sid
  }

  predicate LockFree(s: System, conn: string) {
    conn !in s.reserving
  }

  function Releases(s: System, sid: nat): nat {
    if sid in s.releases then s.releases[sid] else 0
  }

  /** `close` and `delete`: the slot is given back if the session still owns it. */
  function Drop(s: System, key: Key): System
    requires key in s.held && s.held[key] in s.sessions
  {
    var sid := s.held[key];
    var session := s.sessions[sid];
    var freed := s.(held := s.held - {key}, sessions := s.sessions[sid := session.(active := false)]);
    if session.active
    then freed.(counter := s.counter - 1, releases := s.releases[sid := Releases(s, sid) + 1])
    else freed
  }

  function DropIf(s: System, sid: nat): System {
    if Holds(s, sid) then Drop(s, s.sessions[sid].key) else s
  }

  function KeysOf(s: System, conn: string): set<Key> {
    set k | k in s.held && k.conn == conn
  }

  ghost function Pick(keys: set<Key>): (k: Key)
    requires keys != {}
    ensures k in keys
  {
    var k :| k in keys;
    k
  }

  /** `closeAll` drops a connection's sessions one after the other, under one lock. */
  ghost function DropAll(s: System, keys: set<Key>): System
    requires forall k | k in keys :: k in s.held && s.held[k] in s.sessions
    decreases |keys|
  {
    if keys == {} then s else
      var k := Pick(keys);
      DropAll(Drop(s, k), keys - {k})
  }

  ghost predicate Enabled(s: System, step: Step) {
    match step
    case ReserveBegin(key) => LockFree(s, key.conn)
    case ReserveEnd(conn) => conn in s.reserving
    case Enqueue(sid, accepted) => sid in s.pending && sid in s.sessions && LockFree(s, s.sessions[sid].key.conn)
    case JobCheck(sid) => sid in s.jobs && s.jobs[sid] == Queued && sid in s.sessions && LockFree(s, s.sessions[sid].key.conn)
    case TakeSlot(sid) => sid in s.jobs && s.jobs[sid] == Checked
    case RefuseJob(sid) => sid in s.jobs && s.jobs[sid] == Refused && sid in s.sessions && LockFree(s, s.sessions[sid].key.conn)
    case JobFail(sid) => sid in s.jobs && s.jobs[sid] == Loading && sid in s.sessions && LockFree(s, s.sessions[sid].key.conn)
    case JobPublish(sid, _, _) => sid in s.jobs && s.jobs[sid] == Loading && sid in s.sessions && LockFree(s, s.sessions[sid].key.conn)
    case GiveBack(sid) => sid in s.jobs && s.jobs[sid] == Returning
    case RemoveIf(sid) => sid in s.sessions && LockFree(s, s.sessions[sid].key.conn)
    case Remove(key) => LockFree(s, key.conn)
    case CloseAll(conn) => LockFree(s, conn)
  }

  /** An open job's failure: only its own session is closed, and only then is an answer sent. */
  function Fail(s: System, sid: nat): System {
    if Holds(s, sid) then DropIf(s, sid).(sent := s.sent + [Sent(sid, NegErr)]) else s
  }

  /** The reply and, on a refused send or a finished reconciliation, the end of the session. */
  function Publish(s: System, sid: nat, delivered: bool, complete: bool): System {
    if !Holds(s, sid) then s else
      var replied := s.(
        sessions := s.sessions[sid := s.sessions[sid].(ready := true)],
        sent := if delivered then s.sent + [Sent(sid, NegMsg)] else s.sent);
      if delivered && !complete then replied else DropIf(replied, sid)
  }

  /** Wherever an open job ends up, it moves on to giving its load slot back. */
  function Done(s: System, sid: nat): System {
    s.(jobs := s.jobs[sid := Returning])
  }

  /** The slot is taken, and the new session is filed before the lock is let go. */
  function Acquired(s: System, key: Key): System {
    s.(
      counter := s.counter + 1,
      nextSid := s.nextSid + 1,
      held := s.held[key := s.nextSid],
      sessions := s.sessions[s.nextSid := Session(key, true, false)],
      pending := s.pending + {s.nextSid},
      reserving := s.reserving - {key.conn})
  }

  ghost predicate HeldKnown(s: System) {
    forall k | k in s.held :: s.held[k] in s.sessions
  }

  ghost function Do(s: System, step: Step): System
    requires Enabled(s, step) && HeldKnown(s)
  {
    match step
    case ReserveBegin(key) =>
      if key.conn in s.closed then s else
        (if key in s.held then Drop(s, key) else s).(reserving := s.reserving[key.conn := key.sub])
    case ReserveEnd(conn) =>
      if s.counter >= s.cap then s.(reserving := s.reserving - {conn})
      else Acquired(s, Key(conn, s.reserving[conn]))
    case Enqueue(sid, accepted) =>
      if accepted then s.(pending := s.pending - {sid}, jobs := s.jobs[sid := Queued])
      else DropIf(s, sid).(pending := s.pending - {sid})
    case JobCheck(sid) => if Holds(s, sid) then s.(jobs := s.jobs[sid := Checked]) else s.(jobs := s.jobs - {sid})
    case TakeSlot(sid) =>
      if s.freeSlots == 0 then s.(jobs := s.jobs[sid := Refused])
      else s.(freeSlots := s.freeSlots - 1, jobs := s.jobs[sid := Loading])
    case RefuseJob(sid) => Fail(s, sid).(jobs := s.jobs - {sid})
    case JobFail(sid) => Done(Fail(s, sid), sid)
    case JobPublish(sid, delivered, complete) => Done(Publish(s, sid, delivered, complete), sid)
    case GiveBack(sid) => s.(jobs := s.jobs - {sid}, freeSlots := s.freeSlots + 1)
    case RemoveIf(sid) => DropIf(s, sid)
    case Remove(key) => if key in s.held then Drop(s, key) else s
    case CloseAll(conn) => DropAll(s, KeysOf(s, conn)).(closed := s.closed + {conn})
  }

  // ------------------------------------------------------------------ invariant

  function Working(jobs: map<nat, Phase>): set<nat> {
    set sid | sid in jobs && (jobs[sid] == Loading || jobs[sid] == Returning)
  }

  /** The counter is the number of sessions held anywhere. */
  ghost predicate Conserved(s: System) {
    s.counter == |s.held| && s.counter <= s.cap
  }

  /** A session owns its slot exactly while the map holds it, and gives it back exactly once. */
  ghost predicate SessionOk(s: System, sid: nat)
    requires sid in s.sessions
  {
    && sid < s.nextSid
    && (s.sessions[sid].active <==> Holds(s, sid))
    && Releases(s, sid) == (if s.sessions[sid].active then 0 else 1)
  }

  ghost predicate HeldOk(s: System) {
    HeldKnown(s) && forall k | k in s.held :: s.sessions[s.held[k]].key == k && k.conn !in s.closed
  }

  ghost predicate Known(s: System) {
    && (forall sid | sid in s.jobs || sid in s.pending :: sid in s.sessions)
    && (forall sid | sid in s.pending :: sid !in s.jobs)
    && (forall sid | sid in s.releases :: sid in s.sessions)
    && (forall conn | conn in s.reserving :: conn !in s.closed && Key(conn, s.reserving[conn]) !in s.held)
  }

  ghost predicate SlotsOk(s: System) {
    s.freeSlots + |Working(s.jobs)| == s.slots
  }

  ghost predicate Inv(s: System) {
    Conserved(s) && HeldOk(s) && Known(s) && SlotsOk(s) && forall sid | sid in s.sessions :: SessionOk(s, sid)
  }

  ghost predicate Init(s: System) {
    && s.counter == 0 && s.held == map[] && s.sessions == map[] && s.closed == {} && s.reserving == map[]
    && s.pending == {} && s.jobs == map[] && s.freeSlots == s.slots && s.releases == map[] && s.sent == []
  }

  // ------------------------------------------------------------- each operation

  lemma OneLess(m: map<Key, nat>, k: Key)
    requires k in m
    ensures |m - {k}| == |m| - 1
  {
    assert (m - {k}).Keys == m.Keys - {k};
  }

  lemma OneMore(m: map<Key, nat>, k: Key, sid: nat)
    requires k !in m
    ensures |m[k := sid]| == |m| + 1
  {
    assert m[k := sid].Keys == m.Keys + {k};
  }

  lemma DropKeepsSession(s: System, key: Key, x: nat)
    requires key in s.held && s.held[key] in s.sessions && s.sessions[s.held[key]].key == key
    requires x in s.sessions && SessionOk(s, x) && SessionOk(s, s.held[key])
    ensures SessionOk(Drop(s, key), x)
  {
  }

  lemma DropFrame(s: System, key: Key)
    requires key in s.held && s.held[key] in s.sessions
    ensures var s' := Drop(s, key);
            && s'.held == s.held - {key} && s'.jobs == s.jobs && s'.sent == s.sent && s'.pending == s.pending
            && s'.closed == s.closed && s'.reserving == s.reserving && s'.sessions.Keys == s.sessions.Keys
            && s'.freeSlots == s.freeSlots && s'.slots == s.slots && s'.nextSid == s.nextSid && s'.cap == s.cap
            && (s.sessions[s.held[key]].active ==> s'.counter == s.counter - 1)
            && (forall sid | sid in s.sessions :: s'.sessions[sid].key == s.sessions[sid].key)
            && (forall sid | sid in s'.releases :: sid in s.releases || sid in s.sessions)
  {
  }

  lemma DropKeeps(s: System, key: Key)
    requires Inv(s) && key in s.held
    ensures Inv(Drop(s, key))
    ensures var s' := Drop(s, key);
            && s'.held == s.held - {key} && s'.jobs == s.jobs && s'.sent == s.sent && s'.pending == s.pending
            && s'.closed == s.closed && s'.reserving == s.reserving && s'.sessions.Keys == s.sessions.Keys
            && s'.freeSlots == s.freeSlots && s'.slots == s.slots
  {
    hide Working, SessionOk, Drop;
    OneLess(s.held, key);
    DropFrame(s, key);
    SessionIsActive(s, s.held[key]);
    forall x | x in Drop(s, key).sessions ensures SessionOk(Drop(s, key), x) {
      DropKeepsSession(s, key, x);
    }
  }

  lemma SessionIsActive(s: System, sid: nat)
    requires sid in s.sessions && SessionOk(s, sid)
    ensures s.sessions[sid].active <==> Holds(s, sid)
  {
  }

  lemma DropIfKeeps(s: System, sid: nat)
    requires Inv(s)
    ensures Inv(DropIf(s, sid))
    ensures var s' := DropIf(s, sid);
            && s'.jobs == s.jobs && s'.sent == s.sent && s'.pending == s.pending && s'.sessions.Keys == s.sessions.Keys
            && s'.freeSlots == s.freeSlots && s'.slots == s.slots
  {
    hide Conserved, SlotsOk, Drop;
    if Holds(s, sid) {
      DropKeeps(s, s.sessions[sid].key);
    }
  }

  /** Fields that only jobs and answers use do not matter to the sessions. */
  lemma JobsAside(s: System, s': System)
    requires Inv(s) && s' == s.(jobs := s'.jobs, pending := s'.pending, sent := s'.sent, freeSlots := s'.freeSlots)
    requires forall sid | sid in s'.jobs || sid in s'.pending :: sid in s.sessions
    requires forall sid | sid in s'.pending :: sid !in s'.jobs
    requires s'.freeSlots + |Working(s'.jobs)| == s.slots
    ensures Inv(s')
  {
    hide Working;
    forall x | x in s'.sessions ensures SessionOk(s', x) {
      assert SessionOk(s, x);
    }
  }

  lemma FailKeeps(s: System, sid: nat)
    requires Inv(s)
    ensures Inv(Fail(s, sid))
    ensures var s' := Fail(s, sid);
            && s'.jobs == s.jobs && s'.pending == s.pending && s'.sessions.Keys == s.sessions.Keys
            && s'.freeSlots == s.freeSlots && s'.slots == s.slots
  {
    hide Inv, DropIf;
    DropIfKeeps(s, sid);
    AnswerAside(DropIf(s, sid), Sent(sid, NegErr));
  }

  lemma AnswerAside(s: System, answer: Sent)
    requires Inv(s)
    ensures Inv(s.(sent := s.sent + [answer]))
  {
    hide Working;
    var s' := s.(sent := s.sent + [answer]);
    forall x | x in s'.sessions ensures SessionOk(s', x) {
      assert SessionOk(s, x);
    }
  }

  lemma ReadyAside(s: System, sid: nat)
    requires Inv(s) && sid in s.sessions
    ensures Inv(s.(sessions := s.sessions[sid := s.sessions[sid].(ready := true)]))
  {
    hide Working;
    var s' := s.(sessions := s.sessions[sid := s.sessions[sid].(ready := true)]);
    forall x | x in s'.sessions ensures SessionOk(s', x) {
      assert SessionOk(s, x);
    }
  }

  lemma PublishKeeps(s: System, sid: nat, delivered: bool, complete: bool)
    requires Inv(s)
    ensures Inv(Publish(s, sid, delivered, complete))
    ensures var s' := Publish(s, sid, delivered, complete);
            && s'.jobs == s.jobs && s'.pending == s.pending && s'.sessions.Keys == s.sessions.Keys
            && s'.freeSlots == s.freeSlots && s'.slots == s.slots
  {
    hide Inv, DropIf;
    if Holds(s, sid) {
      ReadyAside(s, sid);
      var ready := s.(sessions := s.sessions[sid := s.sessions[sid].(ready := true)]);
      AnswerAside(ready, Sent(sid, NegMsg));
      var replied := if delivered then ready.(sent := s.sent + [Sent(sid, NegMsg)]) else ready;
      DropIfKeeps(replied, sid);
    }
  }

  lemma {:induction false} DropAllKeeps(s: System, keys: set<Key>)
    requires Inv(s) && forall k | k in keys :: k in s.held && s.held[k] in s.sessions
    ensures var s' := DropAll(s, keys);
            && Inv(s') && s'.held == s.held - keys && s'.jobs == s.jobs && s'.sent == s.sent && s'.pending == s.pending
            && s'.reserving == s.reserving && s'.closed == s.closed && s'.sessions.Keys == s.sessions.Keys
            && s'.slots == s.slots && s'.freeSlots == s.freeSlots
    decreases |keys|
  {
    hide Inv, Drop;
    if keys != {} {
      var k := Pick(keys);
      DropKeeps(s, k);
      DropAllKeeps(Drop(s, k), keys - {k});
      assert s.held - {k} - (keys - {k}) == s.held - keys;
    }
  }

  // --------------------------------------------------------------------- all runs

  lemma FreshSession(s: System, key: Key, x: nat)
    requires key !in s.held && s.nextSid !in s.releases && s.nextSid !in s.sessions
    requires x in s.sessions ==> SessionOk(s, x)
    requires x in s.sessions || x == s.nextSid
    ensures var s' := Acquired(s, key);
            x in s'.sessions && SessionOk(s', x)
  {
  }

  lemma AcquiredHeld(s: System, key: Key)
    requires HeldOk(s) && Known(s) && key.conn in s.reserving && s.reserving[key.conn] == key.sub && s.nextSid !in s.sessions
    ensures HeldOk(Acquired(s, key)) && Known(Acquired(s, key))
    ensures key !in s.held && s.nextSid !in s.releases
  {
    assert key == Key(key.conn, key.sub);
  }

  lemma ReserveEndKeeps(s: System, conn: string)
    requires Inv(s) && Enabled(s, ReserveEnd(conn)) && s.counter < s.cap
    ensures Inv(Do(s, ReserveEnd(conn)))
  {
    hide Working, SessionOk, HeldOk, HeldKnown, Known;
    var key := Key(conn, s.reserving[conn]);
    SidsBelow(s);
    AcquiredHeld(s, key);
    OneMore(s.held, key, s.nextSid);
    forall x | x in Acquired(s, key).sessions ensures SessionOk(Acquired(s, key), x) {
      FreshSession(s, key, x);
    }
  }

  lemma SidsBelow(s: System)
    requires forall sid | sid in s.sessions :: SessionOk(s, sid)
    ensures s.nextSid !in s.sessions
  {
    assert s.nextSid in s.sessions ==> SessionOk(s, s.nextSid);
  }

  lemma UnlockKeeps(s: System, conn: string)
    requires Inv(s) && conn in s.reserving
    ensures Inv(s.(reserving := s.reserving - {conn}))
  {
    hide Working;
    var s' := s.(reserving := s.reserving - {conn});
    forall x | x in s'.sessions ensures SessionOk(s', x) {
      assert SessionOk(s, x);
    }
  }

  lemma ReserveBeginKeeps(s: System, key: Key)
    requires Inv(s) && Enabled(s, ReserveBegin(key))
    ensures Inv(Do(s, ReserveBegin(key)))
  {
    hide Drop, Conserved, SlotsOk;
    if key.conn !in s.closed {
      var freed := if key in s.held then Drop(s, key) else s;
      if key in s.held {
        DropKeeps(s, key);
      }
      ReservingAside(freed, key);
    }
  }

  lemma ReservingAside(s: System, key: Key)
    requires Inv(s) && key.conn !in s.closed && key !in s.held
    ensures Inv(s.(reserving := s.reserving[key.conn := key.sub]))
  {
    hide Working;
    var s' := s.(reserving := s.reserving[key.conn := key.sub]);
    forall x | x in s'.sessions ensures SessionOk(s', x) {
      assert SessionOk(s, x);
    }
  }

  lemma CloseAllKeeps(s: System, conn: string)
    requires Inv(s) && Enabled(s, CloseAll(conn))
    ensures Inv(Do(s, CloseAll(conn)))
  {
    hide Conserved, SlotsOk, DropAll;
    var dropped := DropAll(s, KeysOf(s, conn));
    DropAllKeeps(s, KeysOf(s, conn));
    ClosedAside(dropped, conn);
  }

  lemma ClosedAside(s: System, conn: string)
    requires Inv(s) && conn !in s.reserving && forall k | k in s.held :: k.conn != conn
    ensures Inv(s.(closed := s.closed + {conn}))
  {
    hide Working;
    var s' := s.(closed := s.closed + {conn});
    forall x | x in s'.sessions ensures SessionOk(s', x) {
      assert SessionOk(s, x);
    }
  }

  lemma WorkingMoves(jobs: map<nat, Phase>, sid: nat)
    ensures Working(jobs[sid := Queued]) == Working(jobs[sid := Checked]) == Working(jobs[sid := Refused]) == Working(jobs) - {sid}
    ensures Working(jobs[sid := Loading]) == Working(jobs[sid := Returning]) == Working(jobs) + {sid}
    ensures Working(jobs - {sid}) == Working(jobs) - {sid}
    ensures sid in Working(jobs) <==> sid in jobs && (jobs[sid] == Loading || jobs[sid] == Returning)
  {
  }

  lemma EnqueueKeeps(s: System, sid: nat, accepted: bool)
    requires Inv(s) && Enabled(s, Enqueue(sid, accepted))
    ensures Inv(Do(s, Enqueue(sid, accepted)))
  {
    hide Conserved, HeldKnown, SessionOk, Working, Holds, DropIf;
    WorkingMoves(s.jobs, sid);
    if accepted {
      JobsAside(s, Do(s, Enqueue(sid, accepted)));
    } else {
      DropIfKeeps(s, sid);
      JobsAside(DropIf(s, sid), Do(s, Enqueue(sid, accepted)));
    }
  }

  lemma AnswerStepKeeps(s: System, step: Step)
    requires Inv(s) && Enabled(s, step) && (step.RefuseJob? || step.JobFail? || step.JobPublish?)
    ensures Inv(Do(s, step))
  {
    hide Conserved, HeldKnown, SessionOk, Working, Holds, DropIf, Fail, Publish, Drop, DropAll, Acquired;
    WorkingMoves(s.jobs, step.sid);
    if step.JobPublish? {
      PublishKeeps(s, step.sid, step.delivered, step.complete);
      assert Working(Do(s, step).jobs) == Working(s.jobs);
      JobsAside(Publish(s, step.sid, step.delivered, step.complete), Do(s, step));
    } else {
      FailKeeps(s, step.sid);
      assert Working(Do(s, step).jobs) == Working(s.jobs);
      JobsAside(Fail(s, step.sid), Do(s, step));
    }
  }

  lemma JobStepKeeps(s: System, step: Step)
    requires Inv(s) && Enabled(s, step) && (step.JobCheck? || step.TakeSlot? || step.GiveBack?)
    ensures Inv(Do(s, step))
  {
    hide Conserved, HeldKnown, SessionOk, Working, Holds, Drop, DropAll, Acquired;
    WorkingMoves(s.jobs, step.sid);
    JobsAside(s, Do(s, step));
  }

  lemma StepKeeps(s: System, step: Step)
    requires Inv(s) && Enabled(s, step)
    ensures Inv(Do(s, step))
  {
    hide Conserved, Known, SlotsOk, SessionOk, Drop, DropAll, Holds;
    match step
    case ReserveBegin(key) => ReserveBeginKeeps(s, key);
    case ReserveEnd(conn) =>
      if s.counter < s.cap {
        ReserveEndKeeps(s, conn);
      } else {
        UnlockKeeps(s, conn);
      }
    case RemoveIf(sid) => DropIfKeeps(s, sid);
    case Remove(key) =>
      if key in s.held {
        DropKeeps(s, key);
      }
    case CloseAll(conn) => CloseAllKeeps(s, conn);
    case Enqueue(sid, accepted) => EnqueueKeeps(s, sid, accepted);
    case RefuseJob(_) => AnswerStepKeeps(s, step);
    case JobFail(_) => AnswerStepKeeps(s, step);
    case JobPublish(_, _, _) => AnswerStepKeeps(s, step);
    case _ => JobStepKeeps(s, step);
  }

  ghost predicate Valid(s: System, steps: seq<Step>)
    requires Inv(s)
    decreases |steps|
  {
    steps != [] ==> Enabled(s, steps[0]) && (StepKeeps(s, steps[0]); Valid(Do(s, steps[0]), steps[1..]))
  }

  ghost function Run(s: System, steps: seq<Step>): System
    requires Inv(s) && Valid(s, steps)
    decreases |steps|
  {
    if steps == [] then s else (StepKeeps(s, steps[0]); Run(Do(s, steps[0]), steps[1..]))
  }

  lemma {:induction false} RunKeeps(s: System, steps: seq<Step>)
    requires Inv(s) && Valid(s, steps)
    ensures Inv(Run(s, steps))
    decreases |steps|
  {
    hide Conserved, Known, SlotsOk, SessionOk, HeldKnown, Do, Enabled;
    if steps != [] {
      StepKeeps(s, steps[0]);
      RunKeeps(Do(s, steps[0]), steps[1..]);
    }
  }

  lemma InitKeeps(s: System)
    requires Init(s)
    ensures Inv(s)
  {
    assert Working(s.jobs) == {};
  }

  /**
   * In every reachable state the counter is the number of sessions held over all connections, within the cap;
   * every reservation was given back exactly once if its session is gone and not at all if it is held; closed
   * connections hold nothing; and free load slots plus jobs holding one make up the total.
   */
  lemma SlotsAreConserved(s: System, steps: seq<Step>)
    requires Init(s) && (InitKeeps(s); Valid(s, steps))
    ensures Inv(s)
    ensures var r := Run(s, steps);
            && r.counter == |r.held| <= r.cap
            && (forall sid | sid in r.sessions :: Releases(r, sid) == if Holds(r, sid) then 0 else 1)
            && (forall k | k in r.held :: k.conn !in r.closed)
            && r.freeSlots + |Working(r.jobs)| == r.slots
  {
    hide Working, Valid;
    InitKeeps(s);
    RunKeeps(s, steps);
    var r := Run(s, steps);
    forall sid | sid in r.sessions ensures Releases(r, sid) == if Holds(r, sid) then 0 else 1 {
      assert SessionOk(r, sid);
    }
  }

  // ------------------------------------------------------- replaced or closed jobs

  predicate OfJob(step: Step, sid: nat) {
    match step
    case JobCheck(x) => x == sid
    case TakeSlot(x) => x == sid
    case RefuseJob(x) => x == sid
    case JobFail(x) => x == sid
    case JobPublish(x, _, _) => x == sid
    case GiveBack(x) => x == sid
    case Enqueue(x, _) => x == sid
    case RemoveIf(x) => x == sid
    case _ => false
  }

  /** No step taken for a stale session changes a session, the counter, or what was sent. */
  lemma StaleStepsTouchNothing(s: System, sid: nat, step: Step)
    requires HeldKnown(s) && Enabled(s, step) && sid in s.sessions && !Holds(s, sid) && OfJob(step, sid)
    ensures var s' := Do(s, step);
            && s'.held == s.held && s'.sessions == s.sessions && s'.counter == s.counter && s'.releases == s.releases
            && s'.sent == s.sent
  {
    hide HeldKnown, Drop, DropAll;
  }

  /** Only entries leave the map, sessions keep their key, and answers are for `sid` while it is held. */
  ghost predicate Shrinks(s: System, s': System) {
    && (forall k | k in s'.held :: k in s.held && s'.held[k] == s.held[k])
    && s'.sessions.Keys == s.sessions.Keys
    && (forall x | x in s.sessions :: s'.sessions[x].key == s.sessions[x].key)
  }

  lemma DropIfShrinks(s: System, sid: nat)
    ensures Shrinks(s, DropIf(s, sid)) && DropIf(s, sid).sent == s.sent
  {
    hide Drop;
    if Holds(s, sid) {
      DropFrame(s, s.sessions[sid].key);
    }
  }

  predicate OneAnswer(s: System, s': System, sid: nat) {
    || s'.sent == s.sent
    || (Holds(s, sid) && |s'.sent| == |s.sent| + 1 && s.sent <= s'.sent && s'.sent[|s.sent|].sid == sid)
  }

  lemma FailShrinks(s: System, sid: nat)
    ensures Shrinks(s, Fail(s, sid)) && OneAnswer(s, Fail(s, sid), sid)
  {
    hide DropIf;
    DropIfShrinks(s, sid);
  }

  lemma PublishShrinks(s: System, sid: nat, delivered: bool, complete: bool)
    ensures Shrinks(s, Publish(s, sid, delivered, complete)) && OneAnswer(s, Publish(s, sid, delivered, complete), sid)
  {
    hide DropIf;
    if Holds(s, sid) {
      var ready := s.(sessions := s.sessions[sid := s.sessions[sid].(ready := true)]);
      var replied := if delivered then ready.(sent := s.sent + [Sent(sid, NegMsg)]) else ready;
      DropIfShrinks(replied, sid);
    }
  }

  predicate Grown(s: System, s': System, step: Step) {
    s.sent <= s'.sent && forall i | |s.sent| <= i < |s'.sent| :: Holds(s, s'.sent[i].sid) && OfJob(step, s'.sent[i].sid)
  }

  lemma OneIsGrown(s: System, s': System, step: Step, sid: nat)
    requires OneAnswer(s, s', sid) && OfJob(step, sid)
    ensures Grown(s, s', step)
  {
    hide Holds;
  }

  lemma AnswerStepShrinks(s: System, step: Step)
    requires HeldKnown(s) && Enabled(s, step) && (step.RefuseJob? || step.JobFail? || step.JobPublish?)
    ensures Shrinks(s, Do(s, step)) && Grown(s, Do(s, step), step)
  {
    hide HeldKnown, Fail, Publish, Grown;
    if step.JobPublish? {
      PublishShrinks(s, step.sid, step.delivered, step.complete);
    } else {
      FailShrinks(s, step.sid);
    }
    OneIsGrown(s, Do(s, step), step, step.sid);
  }

  lemma JobStepShrinks(s: System, step: Step)
    requires HeldKnown(s) && Enabled(s, step)
    requires step.Enqueue? || step.JobCheck? || step.TakeSlot? || step.GiveBack? || step.RemoveIf?
    ensures Shrinks(s, Do(s, step)) && Grown(s, Do(s, step), step)
  {
    hide HeldKnown, DropIf, Drop, DropAll, Fail, Publish, Acquired, Holds, Shrinks;
    DropIfShrinks(s, step.sid);
    JobFieldsAside(s, s, Do(s, step));
    JobFieldsAside(s, DropIf(s, step.sid), Do(s, step));
  }

  lemma JobFieldsAside(s: System, s': System, other: System)
    requires Shrinks(s, s')
    ensures other == s'.(jobs := other.jobs, pending := other.pending, freeSlots := other.freeSlots) ==> Shrinks(s, other)
  {
  }

  lemma KeyStepShrinks(s: System, key: Key, step: Step)
    requires HeldKnown(s) && Enabled(s, step) && (step == ReserveBegin(key) || step == Remove(key))
    ensures Shrinks(s, Do(s, step)) && Grown(s, Do(s, step), step)
  {
    hide HeldKnown, Drop, Holds;
    if key in s.held {
      HeldIsKnown(s, key);
      DropFrame(s, key);
    }
  }

  lemma CloseAllShrinks(s: System, conn: string)
    requires HeldKnown(s)
    ensures forall k | k in KeysOf(s, conn) :: s.held[k] in s.sessions
    ensures Shrinks(s, DropAll(s, KeysOf(s, conn))) && DropAll(s, KeysOf(s, conn)).sent == s.sent
  {
    hide HeldKnown, DropAll, Shrinks;
    forall k | k in KeysOf(s, conn) ensures s.held[k] in s.sessions {
      HeldIsKnown(s, k);
    }
    DropAllShrinks(s, KeysOf(s, conn));
  }

  lemma StepShrinks(s: System, step: Step)
    requires HeldKnown(s) && Enabled(s, step) && !step.ReserveEnd?
    ensures Shrinks(s, Do(s, step)) && Grown(s, Do(s, step), step)
  {
    match step {
      case RefuseJob(_) => AnswerStepShrinks(s, step);
      case JobFail(_) => AnswerStepShrinks(s, step);
      case JobPublish(_, _, _) => AnswerStepShrinks(s, step);
      case ReserveBegin(key) => KeyStepShrinks(s, key, step);
      case Remove(key) => KeyStepShrinks(s, key, step);
      case CloseAll(conn) =>
        hide HeldKnown, DropAll, Holds;
        CloseAllShrinks(s, conn);
      case _ => JobStepShrinks(s, step);
    }
  }

  lemma HeldIsKnown(s: System, key: Key)
    requires HeldKnown(s) && key in s.held
    ensures s.held[key] in s.sessions
  {
  }

  lemma {:induction false} DropAllShrinks(s: System, keys: set<Key>)
    requires forall k | k in keys :: k in s.held && s.held[k] in s.sessions
    ensures Shrinks(s, DropAll(s, keys)) && DropAll(s, keys).sent == s.sent
    decreases |keys|
  {
    hide Drop;
    if keys != {} {
      DropFrame(s, Pick(keys));
      DropAllShrinks(Drop(s, Pick(keys)), keys - {Pick(keys)});
    }
  }

  /** A session out of the map never comes back into it, and a step answers only sessions in the map. */
  lemma StaleStaysStale(s: System, sid: nat, step: Step)
    requires Inv(s) && Enabled(s, step) && sid in s.sessions && !Holds(s, sid)
    ensures var s' := Do(s, step);
            && sid in s'.sessions && !Holds(s', sid)
            && s.sent <= s'.sent && forall i | |s.sent| <= i < |s'.sent| :: s'.sent[i].sid != sid
  {
    hide Conserved, Known, SlotsOk;
    if step.ReserveEnd? {
      SidsBelow(s);
    } else {
      StepShrinks(s, step);
      HoldsShrinks(s, Do(s, step), sid);
    }
  }

  lemma HoldsShrinks(s: System, s': System, sid: nat)
    requires Shrinks(s, s') && sid in s.sessions && !Holds(s, sid)
    ensures sid in s'.sessions && !Holds(s', sid)
  {
  }

  /** A replaced or closed session is never answered again, whatever happens afterwards. */
  lemma {:induction false} StaleIsNeverAnswered(s: System, steps: seq<Step>, sid: nat)
    requires Inv(s) && Valid(s, steps) && sid in s.sessions && !Holds(s, sid)
    ensures var r := Run(s, steps);
            && sid in r.sessions && !Holds(r, sid)
            && s.sent <= r.sent && forall i | |s.sent| <= i < |r.sent| :: r.sent[i].sid != sid
    decreases |steps|
  {
    hide Conserved, Known, SlotsOk, SessionOk, HeldKnown, Do, Enabled, Holds;
    if steps != [] {
      StepKeeps(s, steps[0]);
      StaleStaysStale(s, sid, steps[0]);
      StaleIsNeverAnswered(Do(s, steps[0]), steps[1..], sid);
    }
  }
}
