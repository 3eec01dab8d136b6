/**
 * What a connection may not read it is not sent: visibility is asked for every snapshot event and every delivery, outside
 * the manager lock, and may change at any time.
 */
module ReqVisibility {
  import opened Nostr
  import opened ReqNoGap
  import opened ReqProtocol
  import opened ReqQuery
  import opened Subscriptions

  /** The frame does not carry the id to the connection. */
  predicate Spares(f: Frame, conn: string, id: Id) {
    f.key.conn == conn ==> !Carries(f, id)
  }

  predicate AllSpare(log: seq<Frame>, conn: string, id: Id) {
    forall i | 0 <= i < |log| :: Spares(log[i], conn, id)
  }

  predicate EntryHolds(e: SubEntry, id: Id) {
    exists ev | ev in e.pendingLive :: ev.id == id
  }

  /** An event that passed the check is the first still to send, and not this one for this connection. */
  predicate JobSpares(job: Job, conn: string, id: Id) {
    job.checked ==> job.sending && job.outbox != [] && !(job.key.conn == conn && job.outbox[0].id == id)
  }

  /** Nothing carries the id to the connection, and nothing that passed a check is about to. */
  ghost predicate Withheld(s: System, conn: string, id: Id) {
    && (forall d | d in s.inflight :: !(d.key.conn == conn && d.event.id == id))
    && (forall k | k in s.reg.subs && k.conn == conn :: !EntryHolds(s.reg.subs[k], id))
    && (forall g | g in s.jobs :: JobSpares(s.jobs[g], conn, id))
    && (forall g :: AllSpare(Log(s, g), conn, id))
  }

  lemma SpareMore(log: seq<Frame>, more: seq<Frame>, conn: string, id: Id)
    requires AllSpare(log, conn, id) && AllSpare(more, conn, id)
    ensures AllSpare(log + more, conn, id)
  {
    hide Spares;
  }

  /** One generation's log grew, one entry moved, jobs and deliveries at most went away. */
  lemma EffectStaysWithheld(s: System, s': System, g: nat, more: seq<Frame>, conn: string, id: Id)
    requires Withheld(s, conn, id) && AllSpare(more, conn, id)
    requires Log(s', g) == Log(s, g) + more && forall h | h != g :: Log(s', h) == Log(s, h)
    requires forall d | d in s'.inflight :: d in s.inflight
    requires forall k | k in s'.reg.subs && k.conn == conn :: !EntryHolds(s'.reg.subs[k], id)
    requires forall h | h in s'.jobs :: JobSpares(s'.jobs[h], conn, id)
    ensures Withheld(s', conn, id)
  {
    hide AllSpare, JobSpares, EntryHolds;
    SpareMore(Log(s, g), more, conn, id);
  }

  lemma FlushSpares(key: Key, g: nat, pending: seq<Event>, accepts: seq<bool>, conn: string, id: Id)
    requires key.conn == conn ==> forall ev | ev in pending :: ev.id != id
    ensures AllSpare([Frame(key, g, Eose, true)] + LiveFrames(key, g, pending, accepts), conn, id)
  {
  }

  lemma DeliverStaysWithheld(s: System, d: Delivery, ok: bool, conn: string, id: Id)
    requires Withheld(s, conn, id) && d in s.inflight
    ensures Withheld(DoDeliver(s, d, ok), conn, id)
  {
    hide AllSpare, JobSpares;
    var s', effect := DoDeliver(s, d, ok), Deliver(s.reg, d.key, d.generation, d.event, ok);
    DeliverFrame(s, d, ok);
    DeliverSpares(s.reg, d, ok, conn, id);
    EffectStaysWithheld(s, s', d.generation, effect.frames, conn, id);
  }

  lemma DeliverSpares(reg: Registry, d: Delivery, ok: bool, conn: string, id: Id)
    requires !(d.key.conn == conn && d.event.id == id)
    requires forall k | k in reg.subs && k.conn == conn :: !EntryHolds(reg.subs[k], id)
    ensures var effect := Deliver(reg, d.key, d.generation, d.event, ok);
            && AllSpare(effect.frames, conn, id)
            && forall k | k in effect.reg.subs && k.conn == conn :: !EntryHolds(effect.reg.subs[k], id)
  {
  }

  lemma SendStaysWithheld(s: System, g: nat, ok: bool, conn: string, id: Id)
    requires Withheld(s, conn, id) && g in s.jobs && s.jobs[g].outbox != [] && s.jobs[g].checked
    ensures Withheld(DoSend(s, g, ok), conn, id)
  {
    hide AllSpare, EntryHolds;
    var job := s.jobs[g];
    assert JobSpares(job, conn, id);
    if Current(s.reg, job.key, g) {
      SendFrame(s, g, ok);
      var frame := Frame(job.key, g, Snapshot(job.outbox[0]), ok);
      OneSpare(frame, conn, id);
      forall k | k in s.reg.subs && k.conn == conn ensures !EntryHolds(DoSend(s, g, ok).reg.subs[k], id) {
        SamePending(s.reg.subs[k], DoSend(s, g, ok).reg.subs[k], id);
      }
      EffectStaysWithheld(s, DoSend(s, g, ok), g, [frame], conn, id);
    } else {
      assert forall h :: Log(DoSend(s, g, ok), h) == Log(s, h);
    }
  }

  lemma OneSpare(f: Frame, conn: string, id: Id)
    requires Spares(f, conn, id)
    ensures AllSpare([f], conn, id)
  {
  }

  lemma SamePending(a: SubEntry, b: SubEntry, id: Id)
    requires SameButCounters(a, b)
    ensures EntryHolds(a, id) == EntryHolds(b, id)
  {
  }

  lemma EndStaysWithheld(s: System, g: nat, ok: bool, accepts: seq<bool>, conn: string, id: Id)
    requires Withheld(s, conn, id) && g in s.jobs
    ensures Withheld(DoFinish(s, g, ok, accepts), conn, id) && Withheld(DoError(s, g, ok), conn, id)
  {
    hide AllSpare, JobSpares, Complete, CloseOnQueryError;
    var key := s.jobs[g].key;
    EndSpares(s.reg, key, g, ok, accepts, conn, id);
    EffectStaysWithheld(s, DoFinish(s, g, ok, accepts), g, Complete(s.reg, key, g, ok, accepts).frames, conn, id);
    EffectStaysWithheld(s, DoError(s, g, ok), g, CloseOnQueryError(s.reg, key, g, ok).frames, conn, id);
  }

  lemma EndSpares(reg: Registry, key: Key, g: nat, ok: bool, accepts: seq<bool>, conn: string, id: Id)
    requires forall k | k in reg.subs && k.conn == conn :: !EntryHolds(reg.subs[k], id)
    ensures var effect := Complete(reg, key, g, ok, accepts);
            && AllSpare(effect.frames, conn, id)
            && forall k | k in effect.reg.subs && k.conn == conn :: !EntryHolds(effect.reg.subs[k], id)
    ensures var effect := CloseOnQueryError(reg, key, g, ok);
            && AllSpare(effect.frames, conn, id)
            && forall k | k in effect.reg.subs && k.conn == conn :: !EntryHolds(effect.reg.subs[k], id)
  {
    hide LiveFrames, CountSent;
    if Current(reg, key, g) && ok {
      FlushSpares(key, g, reg.subs[key].pendingLive, accepts, conn, id);
    }
  }

  /** A delivery passes only to a connection that may read its event. */
  lemma CheckStaysWithheld(s: System, d: Delivery, conn: string, id: Id)
    requires Withheld(s, conn, id) && d in s.matched && (conn, id) !in s.visible
    ensures Withheld(DoCheck(s, d), conn, id)
  {
    hide AllSpare, JobSpares, EntryHolds;
    assert forall g :: Log(DoCheck(s, d), g) == Log(s, g);
  }

  lemma ReadStaysWithheld(s: System, step: Step, conn: string, id: Id)
    requires UniqueIds(s.store) && Enabled(s, step) && Reads(step) && Withheld(s, conn, id) && (conn, id) !in s.visible
    ensures Withheld(Do(s, step), conn, id)
  {
    hide UniqueIds, AllSpare, EntryHolds, Do, Enabled;
    var g, s' := step.generation, Do(s, step);
    ReadStepTouches(s, step);
    assert JobSpares(s.jobs[g], conn, id);
    ReadJobSpares(s, step, conn, id);
    assert forall h :: Log(s', h) == Log(s, h);
  }

  lemma ReadJobSpares(s: System, step: Step, conn: string, id: Id)
    requires UniqueIds(s.store) && Enabled(s, step) && Reads(step) && (conn, id) !in s.visible
    requires JobSpares(s.jobs[step.generation], conn, id)
    ensures step.generation in Do(s, step).jobs && JobSpares(Do(s, step).jobs[step.generation], conn, id)
  {
    hide UniqueIds, AddAll, IdSeq, Merge, ReadFilter, AnyUnexhausted;
  }

  lemma OpenStaysWithheld(s: System, key: Key, filters: seq<Filter>, pageSize: int, conn: string, id: Id)
    requires AddSub(s.reg, s.limits, key, filters).Ok? && Withheld(s, conn, id)
    ensures Withheld(DoOpen(s, key, filters, pageSize), conn, id)
  {
    hide AllSpare;
    var s' := DoOpen(s, key, filters, pageSize);
    assert forall g :: Log(s', g) == Log(s, g);
  }

  lemma DropsStayWithheld(s: System, s': System, conn: string, id: Id)
    requires OnlyDrops(s, s') && Withheld(s, conn, id) && forall d | d in s'.inflight :: d in s.inflight
    ensures Withheld(s', conn, id)
  {
    hide AllSpare, JobSpares, EntryHolds;
    assert forall g :: Log(s', g) == Log(s, g);
  }

  lemma OthersPassNothing(s: System, step: Step)
    requires UniqueIds(s.store) && Enabled(s, step) && !Sends(step) && !Reads(step) && !step.CheckDelivery?
    ensures forall d | d in Do(s, step).inflight :: d in s.inflight
  {
    hide UniqueIds, Unregister, RemoveSub;
  }

  lemma PublishStaysWithheld(s: System, ev: Event, conn: string, id: Id)
    requires Withheld(s, conn, id)
    ensures Withheld(DoPublish(s, ev), conn, id)
  {
    hide AllSpare, JobSpares, EntryHolds, Deliveries;
    assert forall g :: Log(DoPublish(s, ev), g) == Log(s, g);
  }

  lemma StepStaysWithheld(s: System, step: Step, conn: string, id: Id)
    requires UniqueIds(s.store) && Enabled(s, step) && Withheld(s, conn, id) && (conn, id) !in s.visible
    ensures Withheld(Do(s, step), conn, id)
  {
    hide UniqueIds, Withheld, DoDeliver, DoCheck, DoOpen, DoSend, DoFinish, DoError, DoPublish;
    if Reads(step) {
      ReadStaysWithheld(s, step, conn, id);
    } else if !Sends(step) && !step.CheckDelivery? {
      QuietStepDrops(s, step);
      OthersPassNothing(s, step);
      DropsStayWithheld(s, Do(s, step), conn, id);
    } else {
      match step
      case DeliverOne(d, ok) => DeliverStaysWithheld(s, d, ok, conn, id);
      case CheckDelivery(d) => CheckStaysWithheld(s, d, conn, id);
      case Open(key, filters, pageSize) => OpenStaysWithheld(s, key, filters, pageSize, conn, id);
      case SendNext(g, ok) => SendStaysWithheld(s, g, ok, conn, id);
      case Finish(g, ok, accepts) => EndStaysWithheld(s, g, ok, accepts, conn, id);
      case QueryError(g, ok) => EndStaysWithheld(s, g, ok, [], conn, id);
      case Publish(ev) => PublishStaysWithheld(s, ev, conn, id);
      case _ =>
    }
  }

  lemma InitWithholds(s: System, conn: string, id: Id)
    requires Init(s)
    ensures UniqueIds(s.store) && Withheld(s, conn, id)
  {
  }

  lemma {:induction false} WithheldUpTo(s: System, steps: seq<Step>, n: nat, conn: string, id: Id)
    requires UniqueIds(s.store) && Valid(s, steps) && n <= |steps| && Withheld(s, conn, id)
    requires forall m | 0 <= m < n :: (conn, id) !in After(s, steps, m).visible
    ensures Withheld(After(s, steps, n), conn, id)
    decreases n
  {
    hide UniqueIds, Do, Enabled, Withheld, Run, Valid;
    if n == 0 {
      AtStart(s, steps);
    } else {
      WithheldUpTo(s, steps, n - 1, conn, id);
      AfterOne(s, steps, n - 1);
      StepStaysWithheld(After(s, steps, n - 1), steps[n - 1], conn, id);
    }
  }

  lemma AtStart(s: System, steps: seq<Step>)
    requires UniqueIds(s.store) && Valid(s, steps)
    ensures After(s, steps, 0) == s
  {
    hide UniqueIds, Do, Enabled;
    if steps != [] {
      assert steps[..0] == [];
    }
  }

  /**
   * An id that a connection could read in no state of the run was handed to it by no frame of any generation, however
   * broadcasts, page reads, replacements and changes of what others may read interleave.
   */
  lemma NeverReadableIsNeverSent(s: System, steps: seq<Step>, conn: string, id: Id, g: nat, i: nat)
    requires Init(s) && Valid(s, steps) && forall n | 0 <= n <= |steps| :: (conn, id) !in After(s, steps, n).visible
    requires i < |Log(Run(s, steps), g)| && Log(Run(s, steps), g)[i].key.conn == conn
    ensures !Carries(Log(Run(s, steps), g)[i], id)
  {
    hide UniqueIds, Do, Enabled, Run, Valid, Init;
    InitWithholds(s, conn, id);
    WithheldUpTo(s, steps, |steps|, conn, id);
    assert AllSpare(Log(Run(s, steps), g), conn, id);
    assert Spares(Log(Run(s, steps), g)[i], conn, id);
  }
}
