/**
 * What becomes of a session that was opened: an answer from its open job, at most one, and none to be waited for in
 * vain by a session that the map still holds.
 */
module NegAnswers {
  import opened NegProtocol

  /** The open job is still to be queued, queued, looked up, refused a slot, or loading. */
  predicate JobAhead(s: System, sid: nat) {
    sid in s.pending || (sid in s.jobs && s.jobs[sid] != Returning)
  }

  ghost predicate OnceEach(sent: seq<Sent>) {
    forall i, j | 0 <= i < j < |sent| :: sent[i].sid != sent[j].sid
  }

  /** Answers are for sessions whose job is over; an error goes only to a session that is gone. */
  ghost predicate AnswerOk(s: System, answer: Sent) {
    answer.sid in s.sessions && !JobAhead(s, answer.sid) && (answer.reply == NegErr ==> !Holds(s, answer.sid))
  }

  ghost predicate Served(s: System, sid: nat)
    requires sid in s.sessions
  {
    if JobAhead(s, sid) then !s.sessions[sid].ready else s.sessions[sid].ready && Sent(sid, NegMsg) in s.sent
  }

  ghost predicate AnswersOk(s: System) {
    && OnceEach(s.sent)
    && (forall i | 0 <= i < |s.sent| :: AnswerOk(s, s.sent[i]))
    && (forall sid | sid in s.sessions && Holds(s, sid) :: Served(s, sid))
  }

  /** Sessions leave the map at most, and are as ready as they were. */
  ghost predicate Fewer(s: System, s': System) {
    && s'.sessions.Keys == s.sessions.Keys
    && (forall sid | sid in s.sessions :: s'.sessions[sid].ready == s.sessions[sid].ready && (Holds(s', sid) ==> Holds(s, sid)))
  }

  lemma DropFewer(s: System, key: Key)
    requires key in s.held && s.held[key] in s.sessions
    ensures Fewer(s, Drop(s, key))
  {
  }

  lemma {:induction false} DropAllFewer(s: System, keys: set<Key>)
    requires forall k | k in keys :: k in s.held && s.held[k] in s.sessions
    ensures var s' := DropAll(s, keys);
            Fewer(s, s') && s'.sent == s.sent && s'.jobs == s.jobs && s'.pending == s.pending
    decreases |keys|
  {
    hide Drop, Holds;
    if keys != {} {
      var k := Pick(keys);
      DropFrame(s, k);
      DropFewer(s, k);
      DropAllFewer(Drop(s, k), keys - {k});
    }
  }

  lemma FewerKeeps(s: System, s': System)
    requires AnswersOk(s) && Fewer(s, s') && s'.sent == s.sent
    requires forall sid | sid in s.sessions && (Holds(s', sid) || !JobAhead(s, sid)) :: JobAhead(s', sid) == JobAhead(s, sid)
    ensures AnswersOk(s')
  {
    hide Holds, JobAhead;
    forall i | 0 <= i < |s'.sent| ensures AnswerOk(s', s'.sent[i]) {
      assert AnswerOk(s, s.sent[i]);
    }
    forall sid | sid in s'.sessions && Holds(s', sid) ensures Served(s', sid) {
      assert Served(s, sid);
    }
  }

  /** The job of `sid` ends with this answer, and the session stays exactly when it may. */
  lemma AnswerKeeps(s: System, s': System, sid: nat, reply: Reply)
    requires AnswersOk(s) && sid in s.sessions && JobAhead(s, sid) && !JobAhead(s', sid)
    requires s'.sent == s.sent + [Sent(sid, reply)] && s'.sessions.Keys == s.sessions.Keys
    requires forall x | x in s.sessions && x != sid ::
               s'.sessions[x].ready == s.sessions[x].ready && (Holds(s', x) ==> Holds(s, x)) && JobAhead(s', x) == JobAhead(s, x)
    requires Holds(s', sid) ==> reply == NegMsg && s'.sessions[sid].ready
    ensures AnswersOk(s')
  {
    hide Holds, JobAhead;
    forall i | 0 <= i < |s.sent| ensures s.sent[i].sid != sid && s'.sent[i] == s.sent[i] && AnswerOk(s', s.sent[i]) {
      assert AnswerOk(s, s.sent[i]);
    }
    assert s'.sent[|s.sent|] == Sent(sid, reply);
    forall x | x in s'.sessions && Holds(s', x) ensures Served(s', x) {
      assert x != sid ==> Served(s, x);
    }
  }

  lemma OpenedKeeps(s: System, key: Key)
    requires AnswersOk(s) && s.nextSid !in s.sessions && s.nextSid !in s.jobs
    requires forall k | k in s.held :: s.held[k] in s.sessions
    ensures AnswersOk(Acquired(s, key))
  {
    var s' := Acquired(s, key);
    forall i | 0 <= i < |s'.sent| ensures AnswerOk(s', s'.sent[i]) {
      assert AnswerOk(s, s.sent[i]);
    }
    forall sid | sid in s'.sessions && Holds(s', sid) ensures Served(s', sid) {
      assert sid != s.nextSid ==> Holds(s, sid) && Served(s, sid);
    }
  }

  lemma DropIfFewer(s: System, sid: nat)
    ensures var s' := DropIf(s, sid);
            Fewer(s, s') && s'.sent == s.sent && s'.jobs == s.jobs && s'.pending == s.pending && !Holds(s', sid)
  {
    if Holds(s, sid) {
      DropFewer(s, s.sessions[sid].key);
    }
  }

  lemma FailKeepsAnswers(s: System, s': System, sid: nat)
    requires AnswersOk(s) && sid in s.sessions && JobAhead(s, sid) && !JobAhead(s', sid)
    requires s' == Fail(s, sid).(jobs := s'.jobs)
    requires forall x | x != sid :: JobAhead(s', x) == JobAhead(s, x)
    ensures AnswersOk(s')
  {
    hide DropIf, AnswersOk, JobAhead;
    DropIfFewer(s, sid);
    if Holds(s, sid) {
      AnswerKeeps(s, s', sid, NegErr);
    } else {
      FewerKeeps(s, s');
    }
  }

  lemma Published(s: System, sid: nat, delivered: bool, complete: bool)
    requires Holds(s, sid)
    ensures var s' := Publish(s, sid, delivered, complete);
            && s'.sent == s.sent + (if delivered then [Sent(sid, NegMsg)] else []) && s'.jobs == s.jobs && s'.pending == s.pending
            && s'.sessions.Keys == s.sessions.Keys && s'.sessions[sid].ready
            && (Holds(s', sid) <==> delivered && !complete)
            && forall x | x in s.sessions && x != sid :: s'.sessions[x].ready == s.sessions[x].ready && (Holds(s', x) ==> Holds(s, x))
  {
  }

  /** A job that ends without a word leaves its session outside the map. */
  lemma SilentKeeps(s: System, s': System, sid: nat)
    requires AnswersOk(s) && s'.sent == s.sent && s'.sessions.Keys == s.sessions.Keys
    requires sid in s.sessions && JobAhead(s, sid) && !Holds(s', sid)
    requires forall x | x in s.sessions && x != sid ::
               s'.sessions[x].ready == s.sessions[x].ready && (Holds(s', x) ==> Holds(s, x)) && JobAhead(s', x) == JobAhead(s, x)
    ensures AnswersOk(s')
  {
    hide Holds, JobAhead;
    forall i | 0 <= i < |s'.sent| ensures AnswerOk(s', s'.sent[i]) {
      assert AnswerOk(s, s.sent[i]);
    }
    forall x | x in s'.sessions && Holds(s', x) ensures Served(s', x) {
      assert Served(s, x);
    }
  }

  lemma PublishKeepsAnswers(s: System, s': System, sid: nat, delivered: bool, complete: bool)
    requires AnswersOk(s) && sid in s.sessions && JobAhead(s, sid) && !JobAhead(s', sid)
    requires s' == Publish(s, sid, delivered, complete).(jobs := s'.jobs)
    requires forall x | x != sid :: JobAhead(s', x) == JobAhead(s, x)
    ensures AnswersOk(s')
  {
    hide AnswersOk, JobAhead;
    if Holds(s, sid) {
      Published(s, sid, delivered, complete);
      hide Publish;
      assert Holds(s', sid) == Holds(Publish(s, sid, delivered, complete), sid);
      if delivered {
        AnswerKeeps(s, s', sid, NegMsg);
      } else {
        SilentKeeps(s, s', sid);
      }
    } else {
      FewerKeeps(s, s');
    }
  }

  lemma JobEndKeeps(s: System, step: Step)
    requires Inv(s) && AnswersOk(s) && Enabled(s, step) && (step.RefuseJob? || step.JobFail? || step.JobPublish?)
    ensures AnswersOk(Do(s, step))
  {
    hide AnswersOk, Conserved, SlotsOk, SessionOk, Fail, Publish, HeldKnown;
    var s' := Do(s, step);
    if step.JobPublish? {
      PublishFrame(s, step.sid, step.delivered, step.complete);
      PublishKeepsAnswers(s, s', step.sid, step.delivered, step.complete);
    } else {
      FailFrame(s, step.sid);
      FailKeepsAnswers(s, s', step.sid);
    }
  }

  lemma FailFrame(s: System, sid: nat)
    ensures Fail(s, sid).jobs == s.jobs && Fail(s, sid).pending == s.pending
  {
  }

  lemma PublishFrame(s: System, sid: nat, delivered: bool, complete: bool)
    ensures Publish(s, sid, delivered, complete).jobs == s.jobs && Publish(s, sid, delivered, complete).pending == s.pending
  {
  }

  lemma EnqueueKeepsAnswers(s: System, sid: nat, accepted: bool)
    requires Inv(s) && AnswersOk(s) && Enabled(s, Enqueue(sid, accepted))
    ensures AnswersOk(Do(s, Enqueue(sid, accepted)))
  {
    hide AnswersOk, DropIf, Conserved, SlotsOk, SessionOk;
    DropIfFewer(s, sid);
    FewerKeeps(s, Do(s, Enqueue(sid, accepted)));
  }

  lemma DropStepKeeps(s: System, step: Step)
    requires Inv(s) && AnswersOk(s) && Enabled(s, step) && (step.ReserveBegin? || step.Remove? || step.RemoveIf? || step.CloseAll?)
    ensures AnswersOk(Do(s, step))
  {
    hide AnswersOk, Drop, DropAll, DropIf, Conserved, SlotsOk, SessionOk;
    var s' := Do(s, step);
    match step {
      case CloseAll(conn) => DropAllFewer(s, KeysOf(s, conn));
      case RemoveIf(sid) => DropIfFewer(s, sid);
      case ReserveBegin(key) =>
        if key in s.held {
          DropFewer(s, key);
          DropFrame(s, key);
        }
      case Remove(key) =>
        if key in s.held {
          DropFewer(s, key);
          DropFrame(s, key);
        }
      case _ =>
    }
    assert Fewer(s, s');
    FewerKeeps(s, s');
  }

  lemma JobMoveKeeps(s: System, step: Step)
    requires Inv(s) && AnswersOk(s) && Enabled(s, step) && (step.JobCheck? || step.TakeSlot? || step.GiveBack?)
    ensures AnswersOk(Do(s, step))
  {
    hide AnswersOk, Conserved, SlotsOk, SessionOk, HeldKnown;
    FewerKeeps(s, Do(s, step));
  }

  lemma StepKeepsAnswers(s: System, step: Step)
    requires Inv(s) && AnswersOk(s) && Enabled(s, step)
    ensures AnswersOk(Do(s, step))
  {
    hide AnswersOk, Drop, DropAll, DropIf, Fail, Publish, Conserved, SlotsOk;
    match step {
      case ReserveEnd(conn) =>
        if s.counter < s.cap {
          SidsBelow(s);
          OpenedKeeps(s, Key(conn, s.reserving[conn]));
        } else {
          FewerKeeps(s, Do(s, step));
        }
      case Enqueue(sid, accepted) => EnqueueKeepsAnswers(s, sid, accepted);
      case RefuseJob(_) => JobEndKeeps(s, step);
      case JobFail(_) => JobEndKeeps(s, step);
      case JobPublish(_, _, _) => JobEndKeeps(s, step);
      case JobCheck(_) => JobMoveKeeps(s, step);
      case TakeSlot(_) => JobMoveKeeps(s, step);
      case GiveBack(_) => JobMoveKeeps(s, step);
      case _ => DropStepKeeps(s, step);
    }
  }

  lemma {:induction false} RunKeepsAnswers(s: System, steps: seq<Step>)
    requires Inv(s) && AnswersOk(s) && Valid(s, steps)
    ensures AnswersOk(Run(s, steps))
    decreases |steps|
  {
    hide AnswersOk, Conserved, Known, SlotsOk, SessionOk, HeldKnown, Do, Enabled;
    if steps != [] {
      StepKeeps(s, steps[0]);
      StepKeepsAnswers(s, steps[0]);
      RunKeepsAnswers(Do(s, steps[0]), steps[1..]);
    }
  }

  /**
   * In every run each session is answered at most once, one answered with an error is no longer held, and every held
   * session still has its open job ahead or was answered with a message and has its reconciliation in place.
   */
  lemma HeldIsServed(s: System, steps: seq<Step>)
    requires Init(s) && (InitKeeps(s); Valid(s, steps))
    ensures Inv(s)
    ensures var r := Run(s, steps);
            && (forall i, j | 0 <= i < j < |r.sent| :: r.sent[i].sid != r.sent[j].sid)
            && (forall i | 0 <= i < |r.sent| && r.sent[i].reply == NegErr :: !Holds(r, r.sent[i].sid))
            && (forall k | k in r.held ::
                  var sid := r.held[k];
                  || sid in r.pending
                  || (sid in r.jobs && r.jobs[sid] != Returning)
                  || (sid in r.sessions && r.sessions[sid].ready && Sent(sid, NegMsg) in r.sent))
  {
    hide Conserved, SlotsOk, SessionOk, Valid, Known;
    InitKeeps(s);
    RunKeeps(s, steps);
    RunKeepsAnswers(s, steps);
    var r := Run(s, steps);
    forall i | 0 <= i < |r.sent| && r.sent[i].reply == NegErr ensures !Holds(r, r.sent[i].sid) {
      assert AnswerOk(r, r.sent[i]);
    }
    forall k | k in r.held ensures r.held[k] in r.sessions && Served(r, r.held[k]) {
      assert Holds(r, r.held[k]);
    }
  }

  /** Whether a slot is left, a job refused, failed or done: what each answers and whether the session stays. */
  ghost predicate Answers(s: System, s': System, step: Step) {
    match step
    case ReserveEnd(conn) =>
      conn in s.reserving ==> (Key(conn, s.reserving[conn]) in s'.held <==> |s.held| < s.cap) && conn !in s'.reserving
    case RefuseJob(sid) => Holds(s, sid) ==> s'.sent == s.sent + [Sent(sid, NegErr)] && !Holds(s', sid)
    case JobFail(sid) => Holds(s, sid) ==> s'.sent == s.sent + [Sent(sid, NegErr)] && !Holds(s', sid)
    case JobPublish(sid, delivered, complete) =>
      Holds(s, sid) ==> s'.sent == s.sent + (if delivered then [Sent(sid, NegMsg)] else []) && (Holds(s', sid) <==> delivered && !complete)
    case Enqueue(sid, accepted) => Holds(s, sid) ==> (Holds(s', sid) <==> accepted)
    case TakeSlot(sid) => sid in s'.jobs && s'.jobs[sid] == if |Working(s.jobs)| < s.slots then Loading else Refused
    case CloseAll(conn) => forall k | k in s'.held :: k.conn != conn
    case _ => s'.sent == s.sent
  }

  lemma JobAnswers(s: System, step: Step)
    requires HeldKnown(s) && Enabled(s, step) && (step.RefuseJob? || step.JobFail? || step.JobPublish? || step.Enqueue?)
    ensures Answers(s, Do(s, step), step)
  {
    hide HeldKnown, DropIf, Drop, Publish;
    var sid := step.sid;
    DropIfFewer(s, sid);
    if step.JobPublish? && Holds(s, sid) {
      Published(s, sid, step.delivered, step.complete);
    }
  }

  lemma QuietAnswers(s: System, step: Step)
    requires HeldKnown(s) && Enabled(s, step)
    requires step.ReserveBegin? || step.Remove? || step.RemoveIf? || step.JobCheck? || step.GiveBack?
    ensures Answers(s, Do(s, step), step)
  {
    hide HeldKnown, Holds;
  }

  lemma ReservedAnswers(s: System, conn: string)
    requires Inv(s) && Enabled(s, ReserveEnd(conn))
    ensures Answers(s, Do(s, ReserveEnd(conn)), ReserveEnd(conn))
  {
    hide SessionOk, Working;
  }

  lemma ClosedAnswers(s: System, conn: string)
    requires Inv(s) && Enabled(s, CloseAll(conn))
    ensures Answers(s, Do(s, CloseAll(conn)), CloseAll(conn))
  {
    hide SessionOk, Conserved, Known, SlotsOk, DropAll;
    DropAllKeeps(s, KeysOf(s, conn));
  }

  /** In every reachable state these are the outcomes of each step. */
  lemma StepAnswers(s: System, step: Step)
    requires Inv(s) && Enabled(s, step)
    ensures Answers(s, Do(s, step), step)
  {
    hide SessionOk, Working, Conserved, Known, HeldKnown, DropAll;
    match step
    case ReserveEnd(conn) => ReservedAnswers(s, conn);
    case CloseAll(conn) => ClosedAnswers(s, conn);
    case TakeSlot(_) =>
    case RefuseJob(_) => JobAnswers(s, step);
    case JobFail(_) => JobAnswers(s, step);
    case JobPublish(_, _, _) => JobAnswers(s, step);
    case Enqueue(_, _) => JobAnswers(s, step);
    case _ => QuietAnswers(s, step);
  }
}
