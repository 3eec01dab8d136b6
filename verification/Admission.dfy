/**
 * WebSocket admission, teardown and shutdown. Every incoming request runs the accept path and, once upgraded, the
 * connection's life, on its own goroutine; the counters, the registry and the shutdown flag are shared.
 */
module Admission {
  // ---------------------------------------------------------------- per-IP counts

  function CountOf(counts: map<string, nat>, ip: string): nat {
    if ip in counts then counts[ip] else 0
  }

  function Acquired(counts: map<string, nat>, ip: string): map<string, nat> {
    counts[ip := CountOf(counts, ip) + 1]
  }

  function Released(counts: map<string, nat>, ip: string): map<string, nat> {
    if CountOf(counts, ip) <= 1 then counts - {ip} else counts[ip := CountOf(counts, ip) - 1]
  }

  predicate MayAcquire(counts: map<string, nat>, ip: string, max: int) {
    !(max > 0 && CountOf(counts, ip) >= max)
  }

  class IpConnTracker {
    var counts: map<string, nat>

    constructor ()
      ensures counts == map[]
    {
      counts := map[];
    }

    method TryAcquire(ip: string, max: int) returns (openForIp: nat, ok: bool)
      modifies this
      ensures ok == MayAcquire(old(counts), ip, max)
      ensures counts == if ok then Acquired(old(counts), ip) else old(counts)
      ensures openForIp == CountOf(counts, ip)
    {
      var n := if ip in counts then counts[ip] else 0;
      if max > 0 && n >= max {
        return n, false;
      }
      n := n + 1;
      counts := counts[ip := n];
      return n, true;
    }

    method Release(ip: string)
      modifies this
      ensures counts == Released(old(counts), ip)
    {
      var n := if ip in counts then counts[ip] else 0;
      if n <= 1 {
        counts := counts - {ip};
        return;
      }
      counts := counts[ip := n - 1];
    }
  }

  // ----------------------------------------------------------------- the machine

  /**
   * Where a request's goroutine stands. The accept path runs to `Upgraded`; `FailWg`, `FailIp` and `FailOpen` undo
   * it; from `Closing` on, teardown runs the deferred calls in reverse order.
   */
  datatype Pc =
    | Arrived | Reserved | Passed | IpHeld | Tracked | Upgraded
    | Registered(stopping: bool) | Serving
    | Closing | Deregistering | ReleasingIp | Unreserving | LeavingGroup
    | FailWg | FailIp | FailOpen
    | Finished

  datatype Thread = Thread(ip: string, id: nat, pc: Pc)

  /** `pending` holds the connections `Range` still has to visit. */
  datatype Phase = NotStopping | FlagSet | Ranging(pending: set<nat>) | Waiting | ReturnedNil | ReturnedError

  /** `told` holds the goroutines whose connection was told to stop. */
  datatype System = System(
    threads: map<nat, Thread>,
    open: int,
    maxOpen: nat,
    counts: map<string, nat>,
    maxPerIp: int,
    group: int,
    conns: map<nat, nat>,
    told: set<nat>,
    phase: Phase)

  /** `ok` is the outcome of the rate limit or the upgrade; `id` a connection id not in use. */
  datatype Step =
    | Arrive(t: nat, ip: string)
    | Advance(t: nat, ok: bool, id: nat)
    | SetFlag
    | RangeStart
    | Visit(t: nat)
    | RangeEnd
    | ReturnNil
    | ReturnError

  predicate ShuttingDown(s: System) {
    !s.phase.NotStopping?
  }

  predicate IsRegistered(th: Thread) {
    th.pc.Registered? || th.pc == Serving || th.pc == Closing || th.pc == Deregistering
  }

  predicate HoldsGroup(th: Thread) {
    || th.pc == Tracked || th.pc == Upgraded || IsRegistered(th)
    || th.pc == ReleasingIp || th.pc == Unreserving || th.pc == LeavingGroup || th.pc == FailWg
  }

  predicate HoldsIp(th: Thread) {
    || th.pc == IpHeld || th.pc == Tracked || th.pc == Upgraded || IsRegistered(th)
    || th.pc == ReleasingIp || th.pc == FailWg || th.pc == FailIp
  }

  predicate HoldsOpen(th: Thread) {
    HoldsIp(th) || th.pc == Reserved || th.pc == Passed || th.pc == Unreserving || th.pc == FailOpen
  }

  function Where(threads: map<nat, Thread>, p: Thread -> bool): set<nat> {
    set t | t in threads && p(threads[t])
  }

  predicate Enabled(s: System, step: Step) {
    match step
    case Arrive(t, ip) => t !in s.threads
    case Advance(t, ok, id) =>
      t in s.threads && s.threads[t].pc != Finished && (s.threads[t].pc == Upgraded ==> id !in s.conns)
    case SetFlag => s.phase.NotStopping?
    case RangeStart => s.phase.FlagSet?
    case Visit(t) => s.phase.Ranging? && t in s.threads && IsRegistered(s.threads[t])
    case RangeEnd => s.phase.Ranging? && s.phase.pending * Where(s.threads, IsRegistered) == {}
    case ReturnNil => s.phase.Waiting? && s.group == 0
    case ReturnError => s.phase.Waiting?
  }

  /** What a goroutine finds when it takes its step. */
  datatype View = View(full: bool, mayAcquire: bool, stopping: bool, ok: bool)

  function ViewOf(s: System, t: nat, ok: bool): View
    requires t in s.threads
  {
    View(s.open >= s.maxOpen, MayAcquire(s.counts, s.threads[t].ip, s.maxPerIp), ShuttingDown(s), ok)
  }

  function NextPc(pc: Pc, v: View): Pc {
    match pc
    case Arrived => if v.full then Finished else Reserved
    case Reserved => if v.ok then Passed else FailOpen
    case Passed => if v.mayAcquire then IpHeld else FailOpen
    case IpHeld => if v.stopping then FailIp else Tracked
    case Tracked => if v.ok then Upgraded else FailWg
    case Upgraded => Registered(v.stopping)
    case Registered(_) => Serving
    case Serving => Closing
    case Closing => Deregistering
    case Deregistering => ReleasingIp
    case ReleasingIp => Unreserving
    case Unreserving => LeavingGroup
    case LeavingGroup => Finished
    case FailWg => FailIp
    case FailIp => FailOpen
    case FailOpen => Finished
    case Finished => Finished
  }

  function OpenChange(pc: Pc, v: View): int {
    match pc
    case Arrived => if v.full then 0 else 1
    case Unreserving => -1
    case FailOpen => -1
    case _ => 0
  }

  function GroupChange(pc: Pc, v: View): int {
    match pc
    case IpHeld => if v.stopping then 0 else 1
    case LeavingGroup => -1
    case FailWg => -1
    case _ => 0
  }

  function NextCounts(counts: map<string, nat>, ip: string, pc: Pc, v: View): map<string, nat> {
    match pc
    case Passed => if v.mayAcquire then Acquired(counts, ip) else counts
    case ReleasingIp => Released(counts, ip)
    case FailIp => Released(counts, ip)
    case _ => counts
  }

  function NextConns(conns: map<nat, nat>, t: nat, th: Thread, id: nat): map<nat, nat> {
    match th.pc
    case Upgraded => conns[id := t]
    case Deregistering => conns - {th.id}
    case _ => conns
  }

  /** A connection is told to stop by its own registration during shutdown, and by its own teardown. */
  function NextTold(told: set<nat>, t: nat, pc: Pc): set<nat> {
    match pc
    case Registered(stopping) => if stopping then told + {t} else told
    case Closing => told + {t}
    case _ => told
  }

  function NextThread(th: Thread, v: View, id: nat): Thread {
    Thread(th.ip, if th.pc == Upgraded then id else th.id, NextPc(th.pc, v))
  }

  /** One step of one goroutine: it moves on and does to the shared state what that step does. */
  function Advanced(s: System, t: nat, ok: bool, id: nat): System
    requires t in s.threads
  {
    var th, v := s.threads[t], ViewOf(s, t, ok);
    s.(
      threads := s.threads[t := NextThread(th, v, id)],
      open := s.open + OpenChange(th.pc, v),
      group := s.group + GroupChange(th.pc, v),
      counts := NextCounts(s.counts, th.ip, th.pc, v),
      conns := NextConns(s.conns, t, th, id),
      told := NextTold(s.told, t, th.pc))
  }

  function Do(s: System, step: Step): System
    requires Enabled(s, step)
  {
    match step
    case Arrive(t, ip) => s.(threads := s.threads[t := Thread(ip, 0, Arrived)])
    case Advance(t, ok, id) => Advanced(s, t, ok, id)
    case SetFlag => s.(phase := FlagSet)
    case RangeStart => s.(phase := Ranging(Where(s.threads, IsRegistered)))
    case Visit(t) => s.(told := s.told + {t}, phase := Ranging(s.phase.pending - {t}))
    case RangeEnd => s.(phase := Waiting)
    case ReturnNil => s.(phase := ReturnedNil)
    case ReturnError => s.(phase := ReturnedError)
  }

  // ------------------------------------------------------------------- counting

  function OneIf(b: bool): nat {
    if b then 1 else 0
  }

  predicate Was(threads: map<nat, Thread>, t: nat, p: Thread -> bool) {
    t in threads && p(threads[t])
  }

  lemma WhereMoves(threads: map<nat, Thread>, t: nat, th: Thread, p: Thread -> bool)
    ensures |Where(threads[t := th], p)| == |Where(threads, p)| - OneIf(Was(threads, t, p)) + OneIf(p(th))
  {
    var before, after := Where(threads, p), Where(threads[t := th], p);
    if p(th) {
      assert after == before + {t};
    } else {
      assert after == before - {t};
    }
  }

  function HoldsIpOf(ip: string): Thread -> bool {
    (th: Thread) => th.ip == ip && HoldsIp(th)
  }

  ghost predicate OpenOk(s: System) {
    s.open == |Where(s.threads, HoldsOpen)| && s.open <= s.maxOpen
  }

  ghost predicate IpOk(s: System, ip: string) {
    CountOf(s.counts, ip) == |Where(s.threads, HoldsIpOf(ip))| && (s.maxPerIp > 0 ==> CountOf(s.counts, ip) <= s.maxPerIp)
  }

  ghost predicate GroupOk(s: System) {
    s.group == |Where(s.threads, HoldsGroup)|
  }

  lemma OpenKept(s: System, t: nat, ok: bool, id: nat)
    requires OpenOk(s) && t in s.threads
    ensures OpenOk(Advanced(s, t, ok, id))
  {
    hide Where, NextCounts, NextConns, NextTold, GroupChange, MayAcquire;
    WhereMoves(s.threads, t, NextThread(s.threads[t], ViewOf(s, t, ok), id), HoldsOpen);
  }

  lemma GroupKept(s: System, t: nat, ok: bool, id: nat)
    requires GroupOk(s) && t in s.threads
    ensures GroupOk(Advanced(s, t, ok, id))
  {
    hide Where, NextCounts, NextConns, NextTold, OpenChange, MayAcquire;
    WhereMoves(s.threads, t, NextThread(s.threads[t], ViewOf(s, t, ok), id), HoldsGroup);
  }

  lemma IpKept(s: System, t: nat, ok: bool, id: nat, ip: string)
    requires IpOk(s, ip) && t in s.threads
    ensures IpOk(Advanced(s, t, ok, id), ip)
  {
    hide Where, NextConns, NextTold, OpenChange, GroupChange;
    WhereMoves(s.threads, t, NextThread(s.threads[t], ViewOf(s, t, ok), id), HoldsIpOf(ip));
    HoldersPositive(s.threads, t, HoldsIpOf(ip));
  }

  lemma HoldersPositive(threads: map<nat, Thread>, t: nat, p: Thread -> bool)
    ensures Was(threads, t, p) ==> |Where(threads, p)| >= 1
  {
    if Was(threads, t, p) {
      assert t in Where(threads, p);
    }
  }

  // ---------------------------------------------------------- registry and shutdown

  /** The registry pairs ids with registered connections, one to one. */
  ghost predicate RegistryOk(s: System) {
    && (forall id | id in s.conns :: s.conns[id] in s.threads && IsRegistered(s.threads[s.conns[id]]) && s.threads[s.conns[id]].id == id)
    && (forall t | t in s.threads && IsRegistered(s.threads[t]) :: s.threads[t].id in s.conns && s.conns[s.threads[t].id] == t)
  }

  /** The connection was told to stop, or its very next step is to be told. */
  predicate Stopping(s: System, t: nat)
    requires t in s.threads
  {
    t in s.told || s.threads[t].pc == Registered(true)
  }

  ghost predicate ToldOk(s: System) {
    match s.phase
    case NotStopping => true
    case FlagSet => true
    case Ranging(pending) => forall t | t in s.threads && IsRegistered(s.threads[t]) :: Stopping(s, t) || t in pending
    case _ => forall t | t in s.threads && IsRegistered(s.threads[t]) :: Stopping(s, t)
  }

  ghost predicate ReturnOk(s: System) {
    s.phase.ReturnedNil? ==> s.group == 0
  }

  ghost predicate Inv(s: System) {
    OpenOk(s) && GroupOk(s) && (forall ip :: IpOk(s, ip)) && RegistryOk(s) && ToldOk(s) && ReturnOk(s)
  }

  ghost predicate Init(s: System) {
    && s.threads == map[] && s.open == 0 && s.counts == map[] && s.group == 0 && s.conns == map[] && s.told == {}
    && s.phase == NotStopping
  }

  lemma RegistryKept(s: System, t: nat, ok: bool, id: nat)
    requires RegistryOk(s) && Enabled(s, Advance(t, ok, id))
    ensures RegistryOk(Advanced(s, t, ok, id))
  {
    hide NextCounts, NextTold, OpenChange, GroupChange, ViewOf;
  }

  lemma ToldKept(s: System, t: nat, ok: bool, id: nat)
    requires ToldOk(s) && Enabled(s, Advance(t, ok, id))
    ensures ToldOk(Advanced(s, t, ok, id))
  {
    hide NextCounts, NextConns, OpenChange, GroupChange, MayAcquire;
  }

  lemma ReturnKept(s: System, t: nat, ok: bool, id: nat)
    requires ReturnOk(s) && GroupOk(s) && Enabled(s, Advance(t, ok, id))
    ensures ReturnOk(Advanced(s, t, ok, id))
  {
    hide Where, NextCounts, NextConns, NextTold, OpenChange, MayAcquire;
    HoldersPositive(s.threads, t, HoldsGroup);
  }

  lemma ArriveKeeps(s: System, t: nat, ip: string)
    requires Inv(s) && t !in s.threads
    ensures Inv(Do(s, Arrive(t, ip)))
  {
    hide Where;
    var th := Thread(ip, 0, Arrived);
    WhereMoves(s.threads, t, th, HoldsOpen);
    WhereMoves(s.threads, t, th, HoldsGroup);
    forall x ensures IpOk(Do(s, Arrive(t, ip)), x) {
      assert IpOk(s, x);
      WhereMoves(s.threads, t, th, HoldsIpOf(x));
    }
  }

  lemma AdvanceKeeps(s: System, t: nat, ok: bool, id: nat)
    requires Inv(s) && Enabled(s, Advance(t, ok, id))
    ensures Inv(Advanced(s, t, ok, id))
  {
    hide OpenOk, GroupOk, IpOk, RegistryOk, ToldOk, ReturnOk, Advanced;
    OpenKept(s, t, ok, id);
    GroupKept(s, t, ok, id);
    RegistryKept(s, t, ok, id);
    ToldKept(s, t, ok, id);
    ReturnKept(s, t, ok, id);
    forall ip ensures IpOk(Advanced(s, t, ok, id), ip) {
      assert IpOk(s, ip);
      IpKept(s, t, ok, id, ip);
    }
  }

  lemma WhereHolds(threads: map<nat, Thread>, p: Thread -> bool)
    ensures forall t | t in threads && p(threads[t]) :: t in Where(threads, p)
  {
  }

  lemma ShutdownTold(s: System, step: Step)
    requires ToldOk(s) && Enabled(s, step) && !step.Arrive? && !step.Advance?
    ensures ToldOk(Do(s, step))
  {
    hide Where;
    if step.RangeStart? {
      WhereHolds(s.threads, IsRegistered);
    }
    if step.RangeEnd? {
      WhereHolds(s.threads, IsRegistered);
      forall t | t in s.threads && IsRegistered(s.threads[t]) ensures Stopping(s, t) {
        assert t in Where(s.threads, IsRegistered);
        assert t !in s.phase.pending * Where(s.threads, IsRegistered);
      }
    }
  }

  lemma ShutdownKeeps(s: System, step: Step)
    requires Inv(s) && Enabled(s, step) && !step.Arrive? && !step.Advance?
    ensures Inv(Do(s, step))
  {
    hide ToldOk, Where;
    ShutdownTold(s, step);
    forall ip ensures IpOk(Do(s, step), ip) {
      assert IpOk(s, ip);
    }
  }

  lemma StepKeeps(s: System, step: Step)
    requires Inv(s) && Enabled(s, step)
    ensures Inv(Do(s, step))
  {
    hide OpenOk, GroupOk, IpOk, RegistryOk, ToldOk, ReturnOk, Advanced;
    match step
    case Arrive(t, ip) => ArriveKeeps(s, t, ip);
    case Advance(t, ok, id) => AdvanceKeeps(s, t, ok, id);
    case _ => ShutdownKeeps(s, step);
  }

  ghost predicate Valid(s: System, steps: seq<Step>)
    decreases |steps|
  {
    steps != [] ==> Enabled(s, steps[0]) && Valid(Do(s, steps[0]), steps[1..])
  }

  ghost function Run(s: System, steps: seq<Step>): System
    requires Valid(s, steps)
    decreases |steps|
  {
    if steps == [] then s else Run(Do(s, steps[0]), steps[1..])
  }

  lemma {:induction false} RunKeeps(s: System, steps: seq<Step>)
    requires Inv(s) && Valid(s, steps)
    ensures Inv(Run(s, steps))
    decreases |steps|
  {
    hide Inv, Do, Enabled;
    if steps != [] {
      StepKeeps(s, steps[0]);
      RunKeeps(Do(s, steps[0]), steps[1..]);
    }
  }

  lemma InitKeeps(s: System)
    requires Init(s)
    ensures Inv(s)
  {
    assert forall p: Thread -> bool :: Where(s.threads, p) == {};
  }

  /**
   * On every path of every run: the open count and each address's count are the live reservations and stay within
   * their caps; the registry lists each registered connection once; once the shutdown has ranged over it, every
   * registered connection was or is about to be told to stop; and when it returned nil, none is left.
   */
  lemma AdmissionIsExact(s: System, steps: seq<Step>, ip: string)
    requires Init(s) && Valid(s, steps)
    ensures var r := Run(s, steps);
            && r.open == |Where(r.threads, HoldsOpen)| <= r.maxOpen
            && CountOf(r.counts, ip) == |Where(r.threads, HoldsIpOf(ip))|
            && (r.maxPerIp > 0 ==> CountOf(r.counts, ip) <= r.maxPerIp)
            && RegistryOk(r)
            && (r.phase.Waiting? || r.phase.ReturnedNil? || r.phase.ReturnedError? ==>
                  forall t | t in r.threads && IsRegistered(r.threads[t]) :: Stopping(r, t))
            && (r.phase.ReturnedNil? ==> forall t | t in r.threads :: !HoldsGroup(r.threads[t]))
  {
    hide Do, Enabled, Where, RegistryOk;
    InitKeeps(s);
    RunKeeps(s, steps);
    var r := Run(s, steps);
    assert IpOk(r, ip);
    forall t | t in r.threads && r.phase.ReturnedNil? ensures !HoldsGroup(r.threads[t]) {
      HoldersPositive(r.threads, t, HoldsGroup);
    }
  }

  // -------------------------------------------------------------- who is let in

  /**
   * On every run: a request is turned away before its reservations exactly when the live ones fill the relay or its
   * address; the rate limit, the shutdown flag and the upgrade turn it away at their own step; nothing else does.
   */
  lemma AdmittedExactlyWhen(s: System, steps: seq<Step>, t: nat, ok: bool, id: nat)
    requires Init(s) && Valid(s, steps) && Enabled(Run(s, steps), Advance(t, ok, id))
    ensures var r := Run(s, steps);
            var r' := Do(r, Advance(t, ok, id));
            var pc, ip := r.threads[t].pc, r.threads[t].ip;
            && t in r'.threads && r'.threads[t].ip == ip
            && (pc == Arrived ==> r'.threads[t].pc == if |Where(r.threads, HoldsOpen)| < r.maxOpen then Reserved else Finished)
            && (pc == Reserved ==> r'.threads[t].pc == if ok then Passed else FailOpen)
            && (pc == Passed ==>
                  r'.threads[t].pc == if r.maxPerIp <= 0 || |Where(r.threads, HoldsIpOf(ip))| < r.maxPerIp then IpHeld else FailOpen)
            && (pc == IpHeld ==> r'.threads[t].pc == if r.phase == NotStopping then Tracked else FailIp)
            && (pc == Tracked ==> r'.threads[t].pc == if ok then Upgraded else FailWg)
            && (pc == Upgraded ==> r'.threads[t].pc == Registered(r.phase != NotStopping) && id in r'.conns && r'.conns[id] == t)
  {
    hide Where, RegistryOk, ToldOk, ReturnOk, Run, Valid, NextCounts, NextTold;
    InitKeeps(s);
    RunKeeps(s, steps);
    assert IpOk(Run(s, steps), Run(s, steps).threads[t].ip);
  }

  /** How many steps a goroutine has left at most. */
  function StepsLeft(pc: Pc): nat {
    match pc
    case Arrived => 13
    case Reserved => 12
    case Passed => 11
    case IpHeld => 10
    case Tracked => 9
    case Upgraded => 8
    case Registered(_) => 7
    case Serving => 6
    case Closing => 5
    case Deregistering => 4
    case ReleasingIp => 3
    case Unreserving => 2
    case LeavingGroup => 1
    case FailWg => 3
    case FailIp => 2
    case FailOpen => 1
    case Finished => 0
  }

  function AdvancesOf(steps: seq<Step>, t: nat): nat
    decreases |steps|
  {
    if steps == [] then 0 else (if steps[0].Advance? && steps[0].t == t then 1 else 0) + AdvancesOf(steps[1..], t)
  }

  function LeftFor(s: System, t: nat): nat {
    if t in s.threads then StepsLeft(s.threads[t].pc) else 13
  }

  lemma OneStepLess(s: System, step: Step, t: nat)
    requires Enabled(s, step)
    ensures AdvancesOf([step], t) + LeftFor(Do(s, step), t) <= LeftFor(s, t)
  {
    hide NextCounts, NextConns, NextTold, OpenChange, GroupChange, MayAcquire, Where;
    assert AdvancesOf([step][1..], t) == 0;
  }

  lemma {:induction false} StepsRunOut(s: System, steps: seq<Step>, t: nat)
    requires Valid(s, steps)
    ensures AdvancesOf(steps, t) + LeftFor(Run(s, steps), t) <= LeftFor(s, t)
    decreases |steps|
  {
    hide Do, Enabled, LeftFor;
    if steps != [] {
      OneStepLess(s, steps[0], t);
      assert AdvancesOf([steps[0]][1..], t) == 0;
      StepsRunOut(Do(s, steps[0]), steps[1..], t);
    }
  }

  /** No goroutine goes round in circles: it ends after 13 steps of its own at the latest, holding nothing. */
  lemma GoroutinesEnd(s: System, steps: seq<Step>, t: nat)
    requires Init(s) && Valid(s, steps)
    ensures AdvancesOf(steps, t) <= 13
    ensures AdvancesOf(steps, t) == 13 ==>
              var r := Run(s, steps);
              t in r.threads && r.threads[t].pc == Finished && !HoldsOpen(r.threads[t]) && !HoldsGroup(r.threads[t])
  {
    hide Run, Valid, AdvancesOf;
    StepsRunOut(s, steps, t);
  }
}
