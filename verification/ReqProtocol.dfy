/**
 * The REQ protocol as a state machine. Every lock-held section and every store read is one step;
 * steps of publishers, page workers, clients and connections interleave in any order.
 */
module ReqProtocol {
  import opened Nostr
  import opened ReqQuery
  import opened Subscriptions
  import opened Wrappers

  /** A matched entry that `Broadcast` has yet to check or to deliver to. */
  datatype Delivery = Delivery(event: Event, key: Key, generation: nat)

  type PageById = page: map<Id, Event> | Keyed(page) witness map[]

  /**
   * One REQ being answered: the page under construction, then the events of it still to send, the first of them
   * perhaps checked for visibility already.
   */
  datatype Job = Job(
    key: Key,
    cursors: seq<FilterCursor>,
    pageSize: int,
    seen: set<Id>,
    page: PageById,
    order: seq<Id>,
    next: nat,
    sending: bool,
    outbox: seq<Event>,
    checked: bool)

  /**
   * `frames` logs, per generation, every frame the relay tried to enqueue for it; `accepted` the events that broadcasts
   * handed to it. `unpublished` holds saved events whose broadcast has not begun, `matched` deliveries not checked for
   * visibility, `inflight` those that passed. `visible` pairs connections with ids they may read; `steady` those they
   * could read ever since the generation was opened.
   */
  datatype System = System(
    store: set<Event>,
    reg: Registry,
    jobs: map<nat, Job>,
    unpublished: multiset<Event>,
    matched: multiset<Delivery>,
    inflight: multiset<Delivery>,
    frames: map<nat, seq<Frame>>,
    accepted: map<nat, seq<Event>>,
    visible: set<(string, Id)>,
    steady: map<nat, set<(string, Id)>>,
    limits: Limits,
    defaultLimit: int,
    searchEnabled: bool)

  datatype Step =
    | Connect(conn: string)
    | Disconnect(conn: string)
    | Save(ev: Event, removed: set<Event>)
    | Publish(ev: Event)
    | CheckDelivery(delivery: Delivery)
    | DeliverOne(delivery: Delivery, ok: bool)
    | Open(key: Key, filters: seq<Filter>, pageSize: int)
    | SearchHits(generation: nat, hits: seq<Event>)
    | QueryNext(generation: nat)
    | MergePage(generation: nat)
    | CheckNext(generation: nat)
    | SendNext(generation: nat, ok: bool)
    | MorePages(generation: nat)
    | Finish(generation: nat, ok: bool, accepts: seq<bool>)
    | QueryError(generation: nat, ok: bool)
    | Cancel(generation: nat)
    | RemoveStep(key: Key)
    | SetVisible(visible: set<(string, Id)>)

  function Log(s: System, g: nat): seq<Frame> {
    if g in s.frames then s.frames[g] else []
  }

  function Steady(s: System, g: nat): set<(string, Id)> {
    if g in s.steady then s.steady[g] else {}
  }

  function Accepted(s: System, g: nat): seq<Event> {
    if g in s.accepted then s.accepted[g] else []
  }

  function Apply(s: System, g: nat, effect: Effect): System {
    s.(reg := effect.reg, frames := s.frames[g := Log(s, g) + effect.frames])
  }

  function DropJob(s: System, g: nat): System {
    s.(jobs := s.jobs - {g})
  }

  function OpenJob(s: System, key: Key, filters: seq<Filter>, pageSize: int): Job {
    Job(key, NewState(filters, s.defaultLimit, s.searchEnabled).nonSearch, pageSize, {}, map[], [], 0, false, [], false)
  }

  function Deliveries(s: System, ev: Event): set<Delivery> {
    set k | k in s.reg.subs && k.conn in s.reg.senders && FiltersMatch(s.reg.subs[k].filters, ev)
      :: Delivery(ev, k, s.reg.subs[k].generation)
  }

  /** One filter of one page, read against the store as it is now. */
  ghost function ReadFilter(store: set<Event>, fc: FilterCursor, pageSize: int): (seq<Event>, FilterCursor)
    requires UniqueIds(store)
  {
    if pageSize <= 0 then (QueryRows(store, fc.base), fc.(exhausted := true))
    else (Fetched(store, fc, pageSize), Next(store, fc, pageSize))
  }

  ghost function QueryJob(store: set<Event>, job: Job): Job
    requires UniqueIds(store) && job.next < |job.cursors|
  {
    var (rows, fc) := ReadFilter(store, job.cursors[job.next], job.pageSize);
    AddAllKeyed(job.page, rows);
    job.(page := AddAll(job.page, rows), cursors := job.cursors[job.next := fc], next := job.next + 1)
  }

  ghost predicate Enabled(s: System, step: Step) {
    match step
    case Connect(conn) => true
    case Disconnect(conn) => conn in s.reg.senders
    case Save(ev, removed) => UniqueIds(s.store - removed + {ev})
    case Publish(ev) => ev in s.unpublished || ClassifyKind(ev.kind).KindEphemeral?
    case CheckDelivery(d) => d in s.matched
    case DeliverOne(d, ok) => d in s.inflight
    case Open(key, filters, pageSize) =>
      && key.conn in s.reg.senders
      && (forall i | 0 <= i < |filters| :: filters[i].cursor.None?)
      && AddSub(s.reg, s.limits, key, filters).Ok?
    case SearchHits(g, hits) => g in s.jobs && !s.jobs[g].sending
    case QueryNext(g) => g in s.jobs && !s.jobs[g].sending && s.jobs[g].next < |s.jobs[g].cursors|
    case MergePage(g) => g in s.jobs && !s.jobs[g].sending && s.jobs[g].next == |s.jobs[g].cursors|
    case CheckNext(g) => g in s.jobs && s.jobs[g].sending && s.jobs[g].outbox != [] && !s.jobs[g].checked
    case SendNext(g, ok) => g in s.jobs && s.jobs[g].sending && s.jobs[g].outbox != [] && s.jobs[g].checked
    case MorePages(g) => g in s.jobs && s.jobs[g].sending && s.jobs[g].outbox == [] && AnyUnexhausted(s.jobs[g].cursors)
    case Finish(g, ok, accepts) =>
      g in s.jobs && s.jobs[g].sending && s.jobs[g].outbox == [] && !AnyUnexhausted(s.jobs[g].cursors)
    case QueryError(g, ok) => g in s.jobs && !s.jobs[g].sending
    case Cancel(g) => g in s.jobs
    case RemoveStep(key) => true
    case SetVisible(_) => true
  }

  /** Visibility is asked outside the manager lock; what is withheld is dropped there. */
  function DoCheck(s: System, d: Delivery): System {
    var passed := (d.key.conn, d.event.id) in s.visible;
    s.(matched := s.matched - multiset{d}, inflight := if passed then s.inflight + multiset{d} else s.inflight)
  }

  function DoCheckNext(s: System, g: nat): System
    requires g in s.jobs && s.jobs[g].outbox != []
  {
    var job := s.jobs[g];
    var passed := (job.key.conn, job.outbox[0].id) in s.visible;
    s.(jobs := s.jobs[g := if passed then job.(checked := true) else job.(outbox := job.outbox[1..])])
  }

  function DoSetVisible(s: System, visible: set<(string, Id)>): System {
    s.(visible := visible, steady := map g | g in s.steady :: s.steady[g] * visible)
  }

  function DoDeliver(s: System, d: Delivery, ok: bool): System {
    var effect := Deliver(s.reg, d.key, d.generation, d.event, ok);
    var taken := Current(s.reg, d.key, d.generation) && d.key in effect.reg.subs;
    var s' := Apply(s, d.generation, effect).(inflight := s.inflight - multiset{d});
    if taken then s'.(accepted := s.accepted[d.generation := Accepted(s, d.generation) + [d.event]]) else s'
  }

  function DoOpen(s: System, key: Key, filters: seq<Filter>, pageSize: int): System
    requires AddSub(s.reg, s.limits, key, filters).Ok?
  {
    var reg := AddSub(s.reg, s.limits, key, filters).value;
    s.(
      reg := reg,
      jobs := s.jobs[reg.nextGeneration := OpenJob(s, key, filters, pageSize)],
      steady := s.steady[reg.nextGeneration := s.visible])
  }

  function DoSearch(s: System, g: nat, hits: seq<Event>): System
    requires g in s.jobs
  {
    var job := s.jobs[g];
    AddAllKeyed(job.page, hits);
    s.(jobs := s.jobs[g := job.(page := AddAll(job.page, hits), order := job.order + IdSeq(hits))])
  }

  ghost function DoMerge(s: System, g: nat): System
    requires g in s.jobs
  {
    var job := s.jobs[g];
    s.(jobs := s.jobs[g := job.(
      outbox := Merge(job.page, job.order, job.seen), seen := job.seen + job.page.Keys,
      page := map[], order := [], next := 0, sending := true)])
  }

  function DoSend(s: System, g: nat, ok: bool): System
    requires g in s.jobs && s.jobs[g].outbox != []
  {
    var job := s.jobs[g];
    var ev, rest := job.outbox[0], job.(outbox := job.outbox[1..], checked := false);
    if !Current(s.reg, job.key, g) then
      DropJob(s, g)
    else
      Apply(s, g, SendSnapshot(s.reg, job.key, g, ev, ok)).(jobs := s.jobs[g := rest])
  }

  function DoFinish(s: System, g: nat, ok: bool, accepts: seq<bool>): System
    requires g in s.jobs
  {
    DropJob(Apply(s, g, Complete(s.reg, s.jobs[g].key, g, ok, accepts)), g)
  }

  function DoError(s: System, g: nat, ok: bool): System
    requires g in s.jobs
  {
    DropJob(Apply(s, g, CloseOnQueryError(s.reg, s.jobs[g].key, g, ok)), g)
  }

  function DoPublish(s: System, ev: Event): System {
    s.(unpublished := s.unpublished - multiset{ev}, matched := s.matched + multiset(Deliveries(s, ev)))
  }

  ghost function Do(s: System, step: Step): System
    requires UniqueIds(s.store) && Enabled(s, step)
  {
    match step
    case Connect(conn) => s.(reg := s.reg.(senders := s.reg.senders + {conn}))
    case Disconnect(conn) => s.(reg := Unregister(s.reg, conn))
    case Save(ev, removed) => s.(store := s.store - removed + {ev}, unpublished := s.unpublished + multiset{ev})
    case Publish(ev) => DoPublish(s, ev)
    case CheckDelivery(d) => DoCheck(s, d)
    case DeliverOne(d, ok) => DoDeliver(s, d, ok)
    case Open(key, filters, pageSize) => DoOpen(s, key, filters, pageSize)
    case SearchHits(g, hits) => DoSearch(s, g, hits)
    case QueryNext(g) => s.(jobs := s.jobs[g := QueryJob(s.store, s.jobs[g])])
    case MergePage(g) => DoMerge(s, g)
    case CheckNext(g) => DoCheckNext(s, g)
    case SendNext(g, ok) => DoSend(s, g, ok)
    case MorePages(g) => s.(jobs := s.jobs[g := s.jobs[g].(sending := false)])
    case Finish(g, ok, accepts) => DoFinish(s, g, ok, accepts)
    case QueryError(g, ok) => DoError(s, g, ok)
    case Cancel(g) => DropJob(s, g)
    case RemoveStep(key) => s.(reg := RemoveSub(s.reg, key))
    case SetVisible(visible) => DoSetVisible(s, visible)
  }

  ghost predicate Init(s: System) {
    && UniqueIds(s.store)
    && s.reg == Registry(0, map[], {})
    && s.jobs == map[] && s.unpublished == multiset{} && s.matched == multiset{} && s.inflight == multiset{}
    && s.frames == map[] && s.accepted == map[] && s.steady == map[]
  }

  // ------------------------------------------------------ what steps leave alone

  predicate SameSurroundings(s: System, s': System) {
    s'.store == s.store && s'.limits == s.limits && s'.visible == s.visible && s'.steady == s.steady
  }

  lemma JobsLeaveAlone(s: System, g: nat, ok: bool, accepts: seq<bool>)
    requires g in s.jobs
    ensures SameSurroundings(s, DoFinish(s, g, ok, accepts)) && SameSurroundings(s, DoError(s, g, ok))
    ensures s.jobs[g].outbox != [] ==> SameSurroundings(s, DoSend(s, g, ok))
  {
    hide Complete, CloseOnQueryError, SendSnapshot, Current;
  }

  lemma BroadcastsLeaveAlone(s: System, d: Delivery, ok: bool, ev: Event)
    ensures SameSurroundings(s, DoDeliver(s, d, ok)) && SameSurroundings(s, DoCheck(s, d)) && SameSurroundings(s, DoPublish(s, ev))
  {
    hide Deliver, Deliveries, Current;
  }

  /** Reading, merging and checking change the one job and nothing else. */
  predicate OnlyJob(s: System, s': System, g: nat) {
    && g in s.jobs && g in s'.jobs && s' == s.(jobs := s.jobs[g := s'.jobs[g]]) && s'.jobs[g].key == s.jobs[g].key
  }

  lemma ReadsTouchOneJob(s: System, g: nat, hits: seq<Event>)
    requires g in s.jobs
    ensures OnlyJob(s, DoSearch(s, g, hits), g) && OnlyJob(s, DoMerge(s, g), g)
    ensures s.jobs[g].outbox != [] ==> OnlyJob(s, DoCheckNext(s, g), g)
    ensures UniqueIds(s.store) && s.jobs[g].next < |s.jobs[g].cursors| ==> QueryJob(s.store, s.jobs[g]).key == s.jobs[g].key
  {
    hide AddAll, IdSeq, Merge, ReadFilter, UniqueIds;
  }

  lemma OthersLeaveAlone(s: System, step: Step)
    requires UniqueIds(s.store) && Enabled(s, step) && !step.Save? && !step.SetVisible? && !step.Open?
    ensures SameSurroundings(s, Do(s, step))
  {
    hide UniqueIds, DoDeliver, DoCheck, DoPublish, DoFinish, DoError, DoSearch, DoMerge, DoSend, DoCheckNext, QueryJob, Unregister,
         RemoveSub;
    match step
    case Publish(ev) => BroadcastsLeaveAlone(s, Delivery(ev, Key("", ""), 0), true, ev);
    case CheckDelivery(d) => BroadcastsLeaveAlone(s, d, true, d.event);
    case DeliverOne(d, ok) => BroadcastsLeaveAlone(s, d, ok, d.event);
    case SearchHits(g, hits) => ReadsTouchOneJob(s, g, hits);
    case MergePage(g) => ReadsTouchOneJob(s, g, []);
    case CheckNext(g) => ReadsTouchOneJob(s, g, []);
    case SendNext(g, ok) => JobsLeaveAlone(s, g, ok, []);
    case Finish(g, ok, accepts) => JobsLeaveAlone(s, g, ok, accepts);
    case QueryError(g, ok) => JobsLeaveAlone(s, g, ok, []);
    case _ =>
  }

  lemma StoreChange(s: System, step: Step)
    requires UniqueIds(s.store) && Enabled(s, step)
    ensures UniqueIds(Do(s, step).store)
    ensures !step.Save? ==> Do(s, step).store == s.store
    ensures Do(s, step).limits == s.limits
  {
    if step.Open? {
      hide UniqueIds, OpenJob, AddSub;
    } else if step.Save? || step.SetVisible? {
      hide UniqueIds;
    } else {
      hide UniqueIds, Do, Enabled;
      OthersLeaveAlone(s, step);
    }
  }

  // --------------------------------------------------------------- frame order

  /** Snapshot events, then EOSE, then live events; a server-side CLOSED ends the generation. */
  function Rank(f: Frame): nat {
    match f.kind case Snapshot(_) => 0 case Eose => 1 case Live(_) => 2 case Closed => 3
  }

  ghost predicate WellOrdered(log: seq<Frame>) {
    && (forall i, j | 0 <= i < j < |log| :: Rank(log[i]) <= Rank(log[j]) && (Rank(log[i]) == Rank(log[j]) ==> Rank(log[i]) in {0, 2}))
    && (forall j | 0 <= j < |log| && log[j].kind.Live? :: exists i | 0 <= i < j :: log[i].kind.Eose? && log[i].sent)
  }

  function LiveOf(log: seq<Frame>): seq<Event>
    decreases |log|
  {
    if log == [] then [] else
      var n := |log| - 1;
      LiveOf(log[..n]) + (if log[n].kind.Live? then [log[n].kind.event] else [])
  }

  predicate AllBelow(log: seq<Frame>, rank: nat) {
    forall i | 0 <= i < |log| :: Rank(log[i]) < rank
  }

  predicate HasEose(log: seq<Frame>) {
    exists i | 0 <= i < |log| :: log[i].kind.Eose? && log[i].sent
  }

  /** How many frames of one rank went out, or were refused. */
  function Tally(log: seq<Frame>, rank: nat, sent: bool): nat
    decreases |log|
  {
    if log == [] then 0 else
      var f := log[|log| - 1];
      Tally(log[..|log| - 1], rank, sent) + (if Rank(f) == rank && f.sent == sent then 1 else 0)
  }

  /** An entry's counters are what its log shows. */
  predicate CountersOk(e: SubEntry, log: seq<Frame>) {
    && e.initialSent == Tally(log, 0, true) && e.initialDropped == Tally(log, 0, false)
    && e.eoseSent == Tally(log, 1, true)
    && e.broadcastOk == Tally(log, 2, true) && e.broadcastDrop == Tally(log, 2, false)
  }

  /** What holds of a current entry, given its log, whether its job is still running, and what it accepted. */
  ghost predicate EntryOk(e: SubEntry, log: seq<Frame>, hasJob: bool, accepted: seq<Event>) {
    && |e.pendingLive| <= PENDING_LIVE_CAP
    && LiveOf(log) + e.pendingLive == accepted
    && e.broadcastOk + e.broadcastDrop == |LiveOf(log)|
    && CountersOk(e, log)
    && (if e.snapshotDone then e.pendingLive == [] && !hasJob && HasEose(log) && AllBelow(log, 3)
        else LiveOf(log) == [] && AllBelow(log, if hasJob then 1 else 2))
  }

  ghost predicate LogsOk(s: System) {
    forall g :: WellOrdered(Log(s, g))
  }

  /** Nothing refers to a generation that has not been given out yet. */
  ghost predicate Bounded(s: System) {
    && (forall g | g > s.reg.nextGeneration :: g !in s.frames && g !in s.accepted && g !in s.jobs)
    && (forall d | d in s.matched || d in s.inflight :: d.generation <= s.reg.nextGeneration)
  }

  /** Each current generation belongs to one key, whose connection is registered. */
  ghost predicate OneOwner(s: System) {
    && (forall k | k in s.reg.subs :: k.conn in s.reg.senders && s.reg.subs[k].generation <= s.reg.nextGeneration)
    && (forall k, k' | k in s.reg.subs && k' in s.reg.subs && s.reg.subs[k].generation == s.reg.subs[k'].generation :: k == k')
    && (forall k | k in s.reg.subs && s.reg.subs[k].generation in s.jobs :: s.jobs[s.reg.subs[k].generation].key == k)
  }

  ghost predicate OrderInv(s: System) {
    LogsOk(s) && Bounded(s) && OneOwner(s) && forall k | k in s.reg.subs :: KeyOk(s, k)
  }

  ghost predicate KeyOk(s: System, k: Key)
    requires k in s.reg.subs
  {
    var e := s.reg.subs[k];
    EntryOk(e, Log(s, e.generation), e.generation in s.jobs, Accepted(s, e.generation))
  }

  // ------------------------------------------------------- logs grow in order

  lemma {:induction false} LiveOfAppend(xs: seq<Frame>, ys: seq<Frame>)
    ensures LiveOf(xs + ys) == LiveOf(xs) + LiveOf(ys)
    decreases |ys|
  {
    if ys == [] {
      assert xs + ys == xs;
    } else {
      var n := |ys| - 1;
      LiveOfAppend(xs, ys[..n]);
      assert (xs + ys)[..|xs + ys| - 1] == xs + ys[..n];
    }
  }

  lemma LiveOfOne(f: Frame)
    ensures LiveOf([f]) == if f.kind.Live? then [f.kind.event] else []
  {
    assert [f][..0] == [];
  }

  lemma {:induction false} LiveOfFlush(key: Key, g: nat, events: seq<Event>, accepts: seq<bool>)
    ensures LiveOf(LiveFrames(key, g, events, accepts)) == events
    decreases |events|
  {
    if events != [] {
      var n := |events| - 1;
      LiveOfFlush(key, g, events[..n], accepts);
      assert LiveFrames(key, g, events, accepts)[..n] == LiveFrames(key, g, events[..n], accepts);
    }
  }

  lemma {:induction false} TallyAppend(xs: seq<Frame>, ys: seq<Frame>, rank: nat, sent: bool)
    ensures Tally(xs + ys, rank, sent) == Tally(xs, rank, sent) + Tally(ys, rank, sent)
    decreases |ys|
  {
    if ys == [] {
      assert xs + ys == xs;
    } else {
      TallyAppend(xs, ys[..|ys| - 1], rank, sent);
      assert (xs + ys)[..|xs + ys| - 1] == xs + ys[..|ys| - 1];
    }
  }

  lemma TallyOne(f: Frame, rank: nat, sent: bool)
    ensures Tally([f], rank, sent) == if Rank(f) == rank && f.sent == sent then 1 else 0
  {
    assert [f][..0] == [];
  }

  lemma {:induction false} TallyFlush(frames: seq<Frame>)
    requires forall i | 0 <= i < |frames| :: frames[i].kind.Live?
    ensures Tally(frames, 2, true) == CountSent(frames)
    ensures Tally(frames, 2, true) + Tally(frames, 2, false) == |frames|
    ensures forall rank, sent | rank != 2 :: Tally(frames, rank, sent) == 0
    decreases |frames|
  {
    if frames != [] {
      TallyFlush(frames[..|frames| - 1]);
    }
  }

  /** One more frame moves one counter by one. */
  lemma CountOne(log: seq<Frame>, f: Frame)
    ensures forall rank, sent :: Tally(log + [f], rank, sent) == Tally(log, rank, sent) + (if Rank(f) == rank && f.sent == sent then 1 else 0)
  {
    hide Rank;
    forall rank, sent ensures Tally(log + [f], rank, sent) == Tally(log, rank, sent) + (if Rank(f) == rank && f.sent == sent then 1 else 0) {
      TallyAppend(log, [f], rank, sent);
      TallyOne(f, rank, sent);
    }
  }

  lemma CountFlush(log: seq<Frame>, eose: Frame, flushed: seq<Frame>)
    requires eose.kind.Eose? && eose.sent && forall i | 0 <= i < |flushed| :: flushed[i].kind.Live?
    ensures Tally(log + ([eose] + flushed), 2, true) == Tally(log, 2, true) + CountSent(flushed)
    ensures Tally(log + ([eose] + flushed), 2, false) == Tally(log, 2, false) + |flushed| - CountSent(flushed)
    ensures Tally(log + ([eose] + flushed), 1, true) == Tally(log, 1, true) + 1
    ensures forall sent :: Tally(log + ([eose] + flushed), 0, sent) == Tally(log, 0, sent)
  {
    hide Tally, CountSent;
    assert log + ([eose] + flushed) == log + [eose] + flushed;
    CountOne(log, eose);
    TallyFlush(flushed);
    forall rank, sent ensures Tally(log + [eose] + flushed, rank, sent) == Tally(log + [eose], rank, sent) + Tally(flushed, rank, sent) {
      TallyAppend(log + [eose], flushed, rank, sent);
    }
  }

  /** The frames one locked section adds to its own generation's log fit the order. */
  lemma EffectKeepsOrder(log: seq<Frame>, added: seq<Frame>)
    requires WellOrdered(log) && WellOrdered(added)
    requires forall i, j | 0 <= i < |log| && 0 <= j < |added| ::
               Rank(log[i]) <= Rank(added[j]) && (Rank(log[i]) == Rank(added[j]) ==> Rank(log[i]) in {0, 2})
    ensures WellOrdered(log + added)
  {
    var out := log + added;
    forall j | 0 <= j < |out| && out[j].kind.Live? ensures exists i | 0 <= i < j :: out[i].kind.Eose? && out[i].sent {
      if j < |log| {
        var i :| 0 <= i < j && log[i].kind.Eose? && log[i].sent;
        assert out[i] == log[i];
      } else {
        var i :| 0 <= i < j - |log| && added[i].kind.Eose? && added[i].sent;
        assert out[|log| + i] == added[i];
      }
    }
  }

  lemma LiveAfterEose(log: seq<Frame>, f: Frame)
    requires WellOrdered(log) && HasEose(log) && AllBelow(log, 3) && f.kind.Live?
    ensures WellOrdered(log + [f]) && HasEose(log + [f])
  {
    var out := log + [f];
    var i :| 0 <= i < |log| && log[i].kind.Eose? && log[i].sent;
    assert out[i] == log[i];
    assert forall j | 0 <= j < |log| && out[j].kind.Live? :: log[j].kind.Live?;
  }

  lemma FlushIsOrdered(key: Key, g: nat, events: seq<Event>, accepts: seq<bool>)
    ensures WellOrdered([Frame(key, g, Eose, true)] + LiveFrames(key, g, events, accepts))
  {
    var fs := [Frame(key, g, Eose, true)] + LiveFrames(key, g, events, accepts);
    assert fs[0].kind.Eose? && fs[0].sent;
  }

  // ------------------------------------------------- each effect on its own entry

  lemma DeliverOk(reg: Registry, key: Key, g: nat, ev: Event, ok: bool, log: seq<Frame>, hasJob: bool, accepted: seq<Event>)
    requires Current(reg, key, g) && WellOrdered(log) && EntryOk(reg.subs[key], log, hasJob, accepted)
    ensures var effect := Deliver(reg, key, g, ev, ok);
            && WellOrdered(log + effect.frames)
            && (key in effect.reg.subs ==> EntryOk(effect.reg.subs[key], log + effect.frames, hasJob, accepted + [ev]))
  {
    hide LiveOf, WellOrdered, HasEose, Tally;
    var e, effect := reg.subs[key], Deliver(reg, key, g, ev, ok);
    if e.snapshotDone {
      CountOne(log, effect.frames[0]);
      LiveAfterEose(log, effect.frames[0]);
      LiveOfAppend(log, effect.frames);
      LiveOfOne(effect.frames[0]);
    } else if effect.frames == [] {
      assert log + [] == log;
    } else {
      OneFrameIsOrdered(effect.frames[0]);
      EffectKeepsOrder(log, effect.frames);
    }
  }

  lemma OneFrameIsOrdered(f: Frame)
    requires !f.kind.Live?
    ensures WellOrdered([f])
  {
  }

  lemma SnapshotOk(reg: Registry, key: Key, g: nat, ev: Event, ok: bool, log: seq<Frame>, accepted: seq<Event>)
    requires Current(reg, key, g) && WellOrdered(log) && EntryOk(reg.subs[key], log, true, accepted)
    ensures var effect := SendSnapshot(reg, key, g, ev, ok);
            WellOrdered(log + effect.frames) && EntryOk(effect.reg.subs[key], log + effect.frames, true, accepted)
  {
    hide LiveOf, WellOrdered, HasEose, Tally;
    var effect := SendSnapshot(reg, key, g, ev, ok);
    CountOne(log, effect.frames[0]);
    LiveOfAppend(log, effect.frames);
    LiveOfOne(effect.frames[0]);
    OneFrameIsOrdered(effect.frames[0]);
    EffectKeepsOrder(log, effect.frames);
  }

  lemma CompleteOk(reg: Registry, key: Key, g: nat, ok: bool, accepts: seq<bool>, log: seq<Frame>, accepted: seq<Event>)
    requires Current(reg, key, g) && WellOrdered(log) && EntryOk(reg.subs[key], log, true, accepted)
    ensures var effect := Complete(reg, key, g, ok, accepts);
            WellOrdered(log + effect.frames) && EntryOk(effect.reg.subs[key], log + effect.frames, false, accepted)
  {
    hide LiveOf, WellOrdered, CountSent, Tally;
    var e, effect := reg.subs[key], Complete(reg, key, g, ok, accepts);
    var eose := Frame(key, g, Eose, ok);
    LiveOfAppend(log, effect.frames);
    LiveOfOne(eose);
    if ok {
      var flushed := LiveFrames(key, g, e.pendingLive, accepts);
      FlushIsOrdered(key, g, e.pendingLive, accepts);
      LiveOfAppend([eose], flushed);
      LiveOfFlush(key, g, e.pendingLive, accepts);
      CountBound(flushed);
      CountFlush(log, eose, flushed);
      assert (log + effect.frames)[|log|] == eose;
    } else {
      CountOne(log, eose);
      OneFrameIsOrdered(eose);
    }
    EffectKeepsOrder(log, effect.frames);
  }

  lemma CloseOk(reg: Registry, key: Key, g: nat, ok: bool, log: seq<Frame>, accepted: seq<Event>)
    requires Current(reg, key, g) && WellOrdered(log) && EntryOk(reg.subs[key], log, true, accepted)
    ensures WellOrdered(log + CloseOnQueryError(reg, key, g, ok).frames)
  {
    hide LiveOf, WellOrdered, Tally;
    var f := Frame(key, g, Closed, ok);
    OneFrameIsOrdered(f);
    EffectKeepsOrder(log, [f]);
  }

  // --------------------------------------------------------- order over all runs

  ghost predicate TouchesOnly(before: Registry, after: Registry, key: Key) {
    && after.nextGeneration == before.nextGeneration && after.senders == before.senders
    && after.subs.Keys <= before.subs.Keys
    && (forall k | k in after.subs :: after.subs[k].generation == before.subs[k].generation)
    && (forall k | k in after.subs && k != key :: after.subs[k] == before.subs[k])
  }

  lemma SendsTouchOneKey(reg: Registry, key: Key, g: nat, ev: Event, ok: bool)
    ensures TouchesOnly(reg, Deliver(reg, key, g, ev, ok).reg, key)
    ensures TouchesOnly(reg, SendSnapshot(reg, key, g, ev, ok).reg, key)
  {
  }

  lemma EndsTouchOneKey(reg: Registry, key: Key, g: nat, ok: bool, accepts: seq<bool>)
    ensures TouchesOnly(reg, Complete(reg, key, g, ok, accepts).reg, key)
    ensures TouchesOnly(reg, CloseOnQueryError(reg, key, g, ok).reg, key)
  {
    hide CountSent, LiveFrames;
  }

  lemma CurrentFacts(s: System, key: Key, g: nat)
    requires OrderInv(s) && Current(s.reg, key, g)
    ensures WellOrdered(Log(s, g)) && g <= s.reg.nextGeneration
    ensures EntryOk(s.reg.subs[key], Log(s, g), g in s.jobs, Accepted(s, g))
    ensures g in s.jobs ==> s.jobs[g].key == key
  {
    hide WellOrdered, EntryOk;
    assert KeyOk(s, key) && WellOrdered(Log(s, g));
  }

  /** What a step did to generation `g`: a longer log, perhaps a finished job, an event accepted. */
  ghost predicate Changed(s: System, s': System, g: nat, log: seq<Frame>) {
    && s'.frames == s.frames[g := log]
    && (s'.accepted == s.accepted || s'.accepted == s.accepted[g := Accepted(s', g)])
    && (forall h | h in s.jobs && h != g :: h in s'.jobs)
    && (forall h | h in s'.jobs :: h in s.jobs && s'.jobs[h].key == s.jobs[h].key)
    && (forall d | d in s'.inflight :: d in s.inflight)
    && (forall d | d in s'.matched :: d in s.matched)
  }

  lemma EffectKeepsOwners(s: System, s': System, key: Key, g: nat, log: seq<Frame>)
    requires Bounded(s) && OneOwner(s) && Current(s.reg, key, g) && TouchesOnly(s.reg, s'.reg, key) && Changed(s, s', g, log)
    ensures Bounded(s') && OneOwner(s')
  {
    assert g <= s.reg.nextGeneration;
  }

  lemma EffectKeepsKey(s: System, s': System, key: Key, g: nat, log: seq<Frame>, k: Key)
    requires OneOwner(s) && Current(s.reg, key, g) && TouchesOnly(s.reg, s'.reg, key) && Changed(s, s', g, log)
    requires k in s'.reg.subs && k != key && KeyOk(s, k)
    ensures KeyOk(s', k)
  {
    hide EntryOk;
    assert s.reg.subs[k].generation != g;
  }

  /** Generations own distinct keys, so only the key a step works on must be looked at. */
  lemma EffectKeepsInv(s: System, s': System, key: Key, g: nat, log: seq<Frame>)
    requires OrderInv(s) && Current(s.reg, key, g) && TouchesOnly(s.reg, s'.reg, key) && Changed(s, s', g, log)
    requires WellOrdered(log)
    requires key in s'.reg.subs ==> EntryOk(s'.reg.subs[key], log, g in s'.jobs, Accepted(s', g))
    ensures OrderInv(s')
  {
    hide WellOrdered, EntryOk, Bounded, OneOwner;
    EffectKeepsOwners(s, s', key, g, log);
    forall h ensures WellOrdered(Log(s', h)) {
      assert WellOrdered(Log(s, h));
    }
    forall k | k in s'.reg.subs ensures KeyOk(s', k) {
      if k != key {
        EffectKeepsKey(s, s', key, g, log, k);
      }
    }
  }

  lemma SameLogs(s: System, s': System)
    requires LogsOk(s) && forall h :: Log(s', h) == Log(s, h)
    ensures LogsOk(s')
  {
    hide WellOrdered;
    forall h ensures WellOrdered(Log(s', h)) {
      assert WellOrdered(Log(s, h));
    }
  }

  /** An entry keeps its invariant when its log stays and its job does not reappear. */
  lemma KeyOkStays(s: System, s': System, k: Key)
    requires k in s.reg.subs && k in s'.reg.subs && s'.reg.subs[k] == s.reg.subs[k] && KeyOk(s, k)
    requires var g := s.reg.subs[k].generation;
             Log(s', g) == Log(s, g) && Accepted(s', g) == Accepted(s, g) && (g in s'.jobs ==> g in s.jobs)
    ensures KeyOk(s', k)
  {
    hide WellOrdered, LiveOf, HasEose, Tally;
  }

  /** A job or broadcast whose generation is gone changes nothing but the job table. */
  lemma StaleKeepsInv(s: System, s': System, key: Key, g: nat)
    requires OrderInv(s) && !Current(s.reg, key, g) && s'.reg == s.reg && Changed(s, s', g, Log(s, g))
    requires s'.accepted == s.accepted && g <= s.reg.nextGeneration
    requires g in s.jobs ==> s.jobs[g].key == key
    ensures OrderInv(s')
  {
    hide LogsOk, KeyOk;
    SameLogs(s, s');
    forall k | k in s'.reg.subs ensures KeyOk(s', k) {
      assert KeyOk(s, k);
      KeyOkStays(s, s', k);
    }
  }

  lemma OpenKeepsBounds(s: System, key: Key, filters: seq<Filter>, pageSize: int)
    requires Bounded(s) && AddSub(s.reg, s.limits, key, filters).Ok?
    ensures var s' := DoOpen(s, key, filters, pageSize);
            var g := s'.reg.nextGeneration;
            Bounded(s') && g !in s.frames && g !in s.accepted && g !in s.jobs
  {
    hide OpenJob, KeysOf;
  }

  lemma OpenKeepsOwners(s: System, key: Key, filters: seq<Filter>, pageSize: int)
    requires OneOwner(s) && key.conn in s.reg.senders && AddSub(s.reg, s.limits, key, filters).Ok?
    requires forall g | g > s.reg.nextGeneration :: g !in s.jobs
    ensures var s' := DoOpen(s, key, filters, pageSize);
            && OneOwner(s')
            && forall k | k in s'.reg.subs && k != key ::
                 k in s.reg.subs && s'.reg.subs[k] == s.reg.subs[k] && s.reg.subs[k].generation < s'.reg.nextGeneration
  {
    hide OpenJob, KeysOf;
    OpenJobKey(s, key, filters, pageSize);
  }

  lemma OpenKeepsOrder(s: System, key: Key, filters: seq<Filter>, pageSize: int)
    requires OrderInv(s) && key.conn in s.reg.senders && AddSub(s.reg, s.limits, key, filters).Ok?
    ensures OrderInv(DoOpen(s, key, filters, pageSize))
  {
    hide LogsOk, KeyOk, OpenJob, OneOwner, KeysOf;
    var s' := DoOpen(s, key, filters, pageSize);
    OpenKeepsBounds(s, key, filters, pageSize);
    OpenKeepsOwners(s, key, filters, pageSize);
    SameLogs(s, s');
    forall k | k in s'.reg.subs ensures KeyOk(s', k) {
      if k == key {
        FreshKeyOk(s', key);
      } else {
        assert KeyOk(s, k);
        KeyOkStays(s, s', k);
      }
    }
  }

  lemma FreshKeyOk(s: System, key: Key)
    requires key in s.reg.subs && s.reg.subs[key] == NewEntry(s.reg.nextGeneration, s.reg.subs[key].filters)
    requires s.reg.nextGeneration !in s.frames && s.reg.nextGeneration !in s.accepted
    ensures KeyOk(s, key)
  {
  }

  lemma OpenJobKey(s: System, key: Key, filters: seq<Filter>, pageSize: int)
    ensures OpenJob(s, key, filters, pageSize).key == key
  {
  }

  lemma GenerationBounds(s: System)
    requires OrderInv(s)
    ensures forall d | d in s.matched || d in s.inflight :: d.generation <= s.reg.nextGeneration
    ensures forall g | g in s.jobs :: g <= s.reg.nextGeneration
  {
  }

  lemma DeliverChanges(s: System, d: Delivery, ok: bool)
    requires d in s.inflight
    ensures var s', effect := DoDeliver(s, d, ok), Deliver(s.reg, d.key, d.generation, d.event, ok);
            && Changed(s, s', d.generation, Log(s, d.generation) + effect.frames)
            && s'.reg == effect.reg && s'.jobs == s.jobs && s'.matched == s.matched
            && (Current(s.reg, d.key, d.generation) && d.key in effect.reg.subs ==>
                  Accepted(s', d.generation) == Accepted(s, d.generation) + [d.event])
            && (!Current(s.reg, d.key, d.generation) ==> s'.accepted == s.accepted)
  {
    hide Deliver, Current;
  }

  lemma DeliverKeepsOrder(s: System, d: Delivery, ok: bool)
    requires OrderInv(s) && d in s.inflight
    ensures OrderInv(DoDeliver(s, d, ok))
  {
    hide OrderInv, WellOrdered, EntryOk, TouchesOnly, Deliver, DoDeliver, Current;
    DeliverChanges(s, d, ok);
    var g, key := d.generation, d.key;
    var s' := DoDeliver(s, d, ok);
    var effect := Deliver(s.reg, key, g, d.event, ok);
    GenerationBounds(s);
    SendsTouchOneKey(s.reg, key, g, d.event, ok);
    if Current(s.reg, key, g) {
      CurrentFacts(s, key, g);
      DeliverOk(s.reg, key, g, d.event, ok, Log(s, g), g in s.jobs, Accepted(s, g));
      EffectKeepsInv(s, s', key, g, Log(s, g) + effect.frames);
    } else {
      StaleDeliver(s.reg, d, ok);
      assert Log(s, g) + [] == Log(s, g);
      StaleOrQuiet(s, s', key, g);
    }
  }

  lemma StaleDeliver(reg: Registry, d: Delivery, ok: bool)
    requires !Current(reg, d.key, d.generation)
    ensures Deliver(reg, d.key, d.generation, d.event, ok) == Effect(reg, [])
  {
  }

  /** A log that is only written back, and jobs and deliveries that are only dropped. */
  lemma StaleOrQuiet(s: System, s': System, key: Key, g: nat)
    requires OrderInv(s) && s'.reg == s.reg && s'.jobs == s.jobs && s'.accepted == s.accepted
    requires s'.frames == s.frames[g := Log(s, g)] && g <= s.reg.nextGeneration
    requires forall d | d in s'.inflight :: d in s.inflight
    requires s'.matched == s.matched
    ensures OrderInv(s')
  {
    hide LogsOk, KeyOk;
    SameLogs(s, s');
    forall k | k in s'.reg.subs ensures KeyOk(s', k) {
      assert KeyOk(s, k);
      KeyOkStays(s, s', k);
    }
  }

  lemma CurrentSendKeeps(s: System, g: nat, ok: bool)
    requires OrderInv(s) && g in s.jobs && s.jobs[g].outbox != [] && Current(s.reg, s.jobs[g].key, g)
    ensures OrderInv(DoSend(s, g, ok))
  {
    hide OrderInv, WellOrdered, EntryOk, TouchesOnly, SendSnapshot, LiveOf, KeyOk;
    var key, ev := s.jobs[g].key, s.jobs[g].outbox[0];
    var effect := SendSnapshot(s.reg, key, g, ev, ok);
    GenerationBounds(s);
    SendsTouchOneKey(s.reg, key, g, ev, ok);
    CurrentFacts(s, key, g);
    SnapshotOk(s.reg, key, g, ev, ok, Log(s, g), Accepted(s, g));
    EffectKeepsInv(s, DoSend(s, g, ok), key, g, Log(s, g) + effect.frames);
  }

  lemma SendKeepsOrder(s: System, g: nat, ok: bool)
    requires OrderInv(s) && g in s.jobs && s.jobs[g].outbox != []
    ensures OrderInv(DoSend(s, g, ok))
  {
    hide OrderInv, SendSnapshot, Current;
    if Current(s.reg, s.jobs[g].key, g) {
      CurrentSendKeeps(s, g, ok);
    } else {
      GenerationBounds(s);
      SubsHaveSenders(s);
      QuietKeepsOrder(s, DoSend(s, g, ok));
    }
  }

  lemma SubsHaveSenders(s: System)
    requires OrderInv(s)
    ensures forall k | k in s.reg.subs :: k.conn in s.reg.senders
  {
  }

  lemma FinishKeepsOrder(s: System, g: nat, ok: bool, accepts: seq<bool>)
    requires OrderInv(s) && g in s.jobs
    ensures OrderInv(DoFinish(s, g, ok, accepts))
  {
    hide OrderInv, WellOrdered, EntryOk, TouchesOnly;
    var key := s.jobs[g].key;
    var s' := DoFinish(s, g, ok, accepts);
    var effect := Complete(s.reg, key, g, ok, accepts);
    GenerationBounds(s);
    EndsTouchOneKey(s.reg, key, g, ok, accepts);
    if Current(s.reg, key, g) {
      CurrentFacts(s, key, g);
      CompleteOk(s.reg, key, g, ok, accepts, Log(s, g), Accepted(s, g));
      EffectKeepsInv(s, s', key, g, Log(s, g) + effect.frames);
    } else {
      assert Log(s, g) + [] == Log(s, g);
      StaleKeepsInv(s, s', key, g);
    }
  }

  lemma ErrorKeepsOrder(s: System, g: nat, ok: bool)
    requires OrderInv(s) && g in s.jobs
    ensures OrderInv(DoError(s, g, ok))
  {
    hide OrderInv, WellOrdered, EntryOk, TouchesOnly;
    var key := s.jobs[g].key;
    var s' := DoError(s, g, ok);
    var effect := CloseOnQueryError(s.reg, key, g, ok);
    GenerationBounds(s);
    EndsTouchOneKey(s.reg, key, g, ok, []);
    if Current(s.reg, key, g) {
      CurrentFacts(s, key, g);
      CloseOk(s.reg, key, g, ok, Log(s, g), Accepted(s, g));
      EffectKeepsInv(s, s', key, g, Log(s, g) + effect.frames);
    } else {
      assert Log(s, g) + [] == Log(s, g);
      StaleKeepsInv(s, s', key, g);
    }
  }

  /** A step that sends nothing and only changes jobs, or forgets subscriptions. */
  lemma QuietKeepsOrder(s: System, s': System)
    requires OrderInv(s)
    requires s'.frames == s.frames && s'.accepted == s.accepted && s'.reg.nextGeneration == s.reg.nextGeneration
    requires forall h | h in s'.jobs :: h in s.jobs && s'.jobs[h].key == s.jobs[h].key
    requires forall d | d in s'.matched || d in s'.inflight :: d.generation <= s.reg.nextGeneration
    requires forall k | k in s'.reg.subs :: k in s.reg.subs && k.conn in s'.reg.senders && s'.reg.subs[k] == s.reg.subs[k]
    ensures OrderInv(s')
  {
    hide LogsOk, KeyOk;
    SameLogs(s, s');
    forall k | k in s'.reg.subs ensures KeyOk(s', k) {
      assert KeyOk(s, k);
      KeyOkStays(s, s', k);
    }
  }

  lemma PublishKeepsOrder(s: System, ev: Event)
    requires OrderInv(s)
    ensures OrderInv(DoPublish(s, ev))
  {
    hide WellOrdered, KeyOk, FiltersMatch;
    var s' := DoPublish(s, ev);
    QuietKeepsOrder(s, s');
  }

  predicate Sends(step: Step) {
    step.Open? || step.DeliverOne? || step.SendNext? || step.Finish? || step.QueryError? || step.Publish?
  }

  lemma ReadKeepsOrder(s: System, s': System, g: nat)
    requires OrderInv(s) && OnlyJob(s, s', g)
    ensures OrderInv(s')
  {
    hide OrderInv;
    GenerationBounds(s);
    SubsHaveSenders(s);
    QuietKeepsOrder(s, s');
  }

  predicate Reads(step: Step) {
    step.SearchHits? || step.QueryNext? || step.MergePage? || step.CheckNext? || step.MorePages?
  }

  lemma ReadStepTouches(s: System, step: Step)
    requires UniqueIds(s.store) && Enabled(s, step) && Reads(step)
    ensures OnlyJob(s, Do(s, step), step.generation)
  {
    hide UniqueIds, QueryJob, DoSearch, DoMerge, DoCheckNext, AnyUnexhausted;
    ReadsTouchOneJob(s, step.generation, if step.SearchHits? then step.hits else []);
  }

  /** No frame and no new subscription; jobs, deliveries and connections at most go away. */
  ghost predicate OnlyDrops(s: System, s': System) {
    && s'.frames == s.frames && s'.accepted == s.accepted && s'.reg.nextGeneration == s.reg.nextGeneration
    && (forall h | h in s'.jobs :: h in s.jobs && s'.jobs[h] == s.jobs[h])
    && (forall d | d in s'.matched || d in s'.inflight :: d in s.matched || d in s.inflight)
    && (forall k | k in s'.reg.subs :: k in s.reg.subs && s'.reg.subs[k] == s.reg.subs[k])
    && (forall k | k in s'.reg.subs && k.conn in s.reg.senders :: k.conn in s'.reg.senders)
  }

  lemma RegistryDrops(s: System, conn: string, key: Key)
    ensures OnlyDrops(s, s.(reg := Unregister(s.reg, conn))) && OnlyDrops(s, s.(reg := RemoveSub(s.reg, key)))
    ensures OnlyDrops(s, s.(reg := s.reg.(senders := s.reg.senders + {conn})))
  {
  }

  lemma CheckDrops(s: System, d: Delivery)
    requires d in s.matched
    ensures OnlyDrops(s, DoCheck(s, d))
  {
  }

  lemma OthersDrop(s: System, g: nat, visible: set<(string, Id)>, store: set<Event>, unpublished: multiset<Event>)
    ensures OnlyDrops(s, DropJob(s, g)) && OnlyDrops(s, DoSetVisible(s, visible))
    ensures OnlyDrops(s, s.(store := store, unpublished := unpublished))
  {
  }

  lemma QuietStepDrops(s: System, step: Step)
    requires UniqueIds(s.store) && Enabled(s, step) && !Sends(step) && !Reads(step)
    ensures OnlyDrops(s, Do(s, step))
  {
    hide UniqueIds, OnlyDrops, DoCheck, DropJob, DoSetVisible, Unregister, RemoveSub, DoDeliver, DoOpen, DoSearch, DoMerge, DoSend,
         DoFinish, DoError, DoPublish, DoCheckNext, QueryJob, AddSub, AnyUnexhausted;
    match step
    case Connect(conn) => RegistryDrops(s, conn, Key("", ""));
    case Disconnect(conn) => RegistryDrops(s, conn, Key("", ""));
    case RemoveStep(key) => RegistryDrops(s, "", key);
    case CheckDelivery(d) => CheckDrops(s, d);
    case Cancel(g) => OthersDrop(s, g, {}, {}, multiset{});
    case SetVisible(visible) => OthersDrop(s, 0, visible, {}, multiset{});
    case Save(_, _) => OthersDrop(s, 0, {}, Do(s, step).store, Do(s, step).unpublished);
    case _ =>
  }

  lemma QuietStepKeepsOrder(s: System, step: Step)
    requires OrderInv(s) && UniqueIds(s.store) && Enabled(s, step) && !Sends(step)
    ensures OrderInv(Do(s, step))
  {
    hide OrderInv, UniqueIds, Do, Enabled;
    if Reads(step) {
      ReadStepTouches(s, step);
      ReadKeepsOrder(s, Do(s, step), step.generation);
    } else {
      QuietStepDrops(s, step);
      GenerationBounds(s);
      SubsHaveSenders(s);
      QuietKeepsOrder(s, Do(s, step));
    }
  }

  lemma StepKeepsOrder(s: System, step: Step)
    requires OrderInv(s) && UniqueIds(s.store) && Enabled(s, step)
    ensures OrderInv(Do(s, step)) && UniqueIds(Do(s, step).store)
  {
    hide OrderInv, DoDeliver, DoOpen, DoSend, DoFinish, DoError, DoPublish, QueryJob, Merge, AddAll;
    StoreChange(s, step);
    match step
    case Open(key, filters, pageSize) => OpenKeepsOrder(s, key, filters, pageSize);
    case DeliverOne(d, ok) => DeliverKeepsOrder(s, d, ok);
    case SendNext(g, ok) => SendKeepsOrder(s, g, ok);
    case Finish(g, ok, accepts) => FinishKeepsOrder(s, g, ok, accepts);
    case QueryError(g, ok) => ErrorKeepsOrder(s, g, ok);
    case Publish(ev) => PublishKeepsOrder(s, ev);
    case _ => QuietStepKeepsOrder(s, step);
  }

  // -------------------------------------------------------------------- runs

  ghost predicate Valid(s: System, steps: seq<Step>)
    requires UniqueIds(s.store)
    decreases |steps|
  {
    steps != [] ==> Enabled(s, steps[0]) && (StoreChange(s, steps[0]); Valid(Do(s, steps[0]), steps[1..]))
  }

  ghost function Run(s: System, steps: seq<Step>): System
    requires UniqueIds(s.store) && Valid(s, steps)
    decreases |steps|
  {
    if steps == [] then s else (StoreChange(s, steps[0]); Run(Do(s, steps[0]), steps[1..]))
  }

  lemma InitOrder(s: System)
    requires Init(s)
    ensures OrderInv(s)
  {
  }

  lemma {:induction false} RunKeepsOrder(s: System, steps: seq<Step>)
    requires UniqueIds(s.store) && OrderInv(s) && Valid(s, steps)
    ensures OrderInv(Run(s, steps)) && UniqueIds(Run(s, steps).store)
    decreases |steps|
  {
    hide OrderInv, Do, Enabled, UniqueIds;
    if steps != [] {
      StoreChange(s, steps[0]);
      StepKeepsOrder(s, steps[0]);
      RunKeepsOrder(Do(s, steps[0]), steps[1..]);
    }
  }

  /**
   * In every run, what is enqueued for a generation is its snapshot events, then at most one EOSE, then
   * live events in the order broadcasts handed them over, then at most one CLOSED. A current entry never
   * buffers more than 256 events, every accepted broadcast is counted as sent, dropped or buffered, and the
   * entry's counters are the frames its log shows.
   */
  lemma FramesInOrder(s: System, steps: seq<Step>)
    requires Init(s) && Valid(s, steps)
    ensures var r := Run(s, steps);
            && (forall g :: WellOrdered(Log(r, g)))
            && forall k | k in r.reg.subs ::
                 var e := r.reg.subs[k];
                 && |e.pendingLive| <= PENDING_LIVE_CAP
                 && CountersOk(e, Log(r, e.generation))
                 && LiveOf(Log(r, e.generation)) + e.pendingLive == Accepted(r, e.generation)
                 && |Accepted(r, e.generation)| == e.broadcastOk + e.broadcastDrop + |e.pendingLive|
                 && (e.snapshotDone ==> HasEose(Log(r, e.generation)))
                 && (!e.snapshotDone ==> LiveOf(Log(r, e.generation)) == [])
  {
    hide WellOrdered, LiveOf, HasEose, Tally, Do, Enabled;
    InitOrder(s);
    RunKeepsOrder(s, steps);
    var r := Run(s, steps);
    forall k | k in r.reg.subs ensures KeyOk(r, k) {
    }
  }

  /** A generation that no subscription id carries any more. */
  ghost predicate Gone(s: System, g: nat) {
    g <= s.reg.nextGeneration && forall k | k in s.reg.subs :: s.reg.subs[k].generation != g
  }

  /** Entries keep their generation or carry a fresh one, so what is gone stays gone. */
  lemma GoneStaysGone(s: System, s': System, g: nat)
    requires Gone(s, g) && s'.reg.nextGeneration >= s.reg.nextGeneration
    requires forall k | k in s'.reg.subs ::
               || s'.reg.subs[k].generation > s.reg.nextGeneration
               || (k in s.reg.subs && s'.reg.subs[k].generation == s.reg.subs[k].generation)
    ensures Gone(s', g)
  {
  }

  lemma QuietStepTouches(s: System, step: Step)
    requires UniqueIds(s.store) && Enabled(s, step) && (!Sends(step) || step.Publish?)
    ensures var s' := Do(s, step);
            && s'.frames == s.frames && s'.reg.nextGeneration == s.reg.nextGeneration
            && forall k | k in s'.reg.subs :: k in s.reg.subs && s'.reg.subs[k] == s.reg.subs[k]
  {
    hide UniqueIds, Do, Enabled;
    if Reads(step) {
      ReadStepTouches(s, step);
    } else if step.Publish? {
      PublishTouches(s, step);
    } else {
      QuietStepDrops(s, step);
    }
  }

  lemma PublishTouches(s: System, step: Step)
    requires UniqueIds(s.store) && Enabled(s, step) && step.Publish?
    ensures Do(s, step).frames == s.frames && Do(s, step).reg == s.reg
  {
    hide UniqueIds, Deliveries;
  }

  lemma SendGone(s: System, i: nat, ok: bool, g: nat)
    requires i in s.jobs && s.jobs[i].outbox != [] && Gone(s, g)
    ensures Gone(DoSend(s, i, ok), g) && Log(DoSend(s, i, ok), g) == Log(s, g)
  {
    hide Gone, SendSnapshot;
    var key, ev, s' := s.jobs[i].key, s.jobs[i].outbox[0], DoSend(s, i, ok);
    SendsTouchOneKey(s.reg, key, i, ev, ok);
    NotCurrent(s, key, g);
    GoneStaysGone(s, s', g);
  }

  lemma NotCurrent(s: System, key: Key, g: nat)
    requires Gone(s, g)
    ensures !Current(s.reg, key, g)
  {
  }

  lemma DeliverGone(s: System, d: Delivery, ok: bool, g: nat)
    requires d in s.inflight && Gone(s, g)
    ensures Gone(DoDeliver(s, d, ok), g) && Log(DoDeliver(s, d, ok), g) == Log(s, g)
  {
    hide Gone, Deliver, Current;
    var s' := DoDeliver(s, d, ok);
    SendsTouchOneKey(s.reg, d.key, d.generation, d.event, ok);
    NotCurrent(s, d.key, g);
    if d.generation == g {
      StaleDeliver(s.reg, d, ok);
      assert Log(s, g) + [] == Log(s, g);
    }
    GoneStaysGone(s, s', g);
  }

  lemma EndsGone(s: System, i: nat, ok: bool, accepts: seq<bool>, g: nat)
    requires i in s.jobs && Gone(s, g)
    ensures Gone(DoFinish(s, i, ok, accepts), g) && Log(DoFinish(s, i, ok, accepts), g) == Log(s, g)
    ensures Gone(DoError(s, i, ok), g) && Log(DoError(s, i, ok), g) == Log(s, g)
  {
    hide Gone, CountSent, LiveFrames, TouchesOnly;
    var key := s.jobs[i].key;
    EndsTouchOneKey(s.reg, key, i, ok, accepts);
    NotCurrent(s, key, g);
    assert Log(s, g) + [] == Log(s, g);
    TouchedStaysGone(s, DoFinish(s, i, ok, accepts), key, g);
    TouchedStaysGone(s, DoError(s, i, ok), key, g);
  }

  lemma TouchedStaysGone(s: System, s': System, key: Key, g: nat)
    requires Gone(s, g) && TouchesOnly(s.reg, s'.reg, key)
    ensures Gone(s', g)
  {
  }

  lemma GoneStaysSilent(s: System, step: Step, g: nat)
    requires UniqueIds(s.store) && Enabled(s, step) && Gone(s, g)
    ensures Gone(Do(s, step), g) && Log(Do(s, step), g) == Log(s, g)
  {
    hide UniqueIds, DoDeliver, DoSend, DoFinish, DoError, DoPublish, QueryJob, Merge, AddAll, Gone;
    match step
    case Open(key, filters, pageSize) => GoneStaysGone(s, Do(s, step), g);
    case DeliverOne(d, ok) => DeliverGone(s, d, ok, g);
    case SendNext(i, ok) => SendGone(s, i, ok, g);
    case Finish(i, ok, accepts) => EndsGone(s, i, ok, accepts, g);
    case QueryError(i, ok) => EndsGone(s, i, ok, [], g);
    case _ =>
      QuietStepTouches(s, step);
      GoneStaysGone(s, Do(s, step), g);
  }

  /** Once replaced, closed or disconnected, a generation is sent nothing more, whatever happens next. */
  lemma {:induction false} GoneIsSilentForever(s: System, steps: seq<Step>, g: nat)
    requires UniqueIds(s.store) && Valid(s, steps) && Gone(s, g)
    ensures Gone(Run(s, steps), g) && Log(Run(s, steps), g) == Log(s, g)
    decreases |steps|
  {
    hide Gone, Do, Enabled, UniqueIds, Log;
    if steps != [] {
      StoreChange(s, steps[0]);
      GoneStaysSilent(s, steps[0], g);
      GoneIsSilentForever(Do(s, steps[0]), steps[1..], g);
    }
  }

  // ------------------------------------------------------------ subscription caps

  function Cap(limits: Limits): nat {
    if limits.maxSubsPerConn > 0 then limits.maxSubsPerConn else 0
  }

  ghost predicate Capped(s: System) {
    forall conn :: |KeysOf(s.reg, conn)| <= Cap(s.limits)
  }

  lemma FewerKeys(before: Registry, after: Registry, conn: string)
    requires after.subs.Keys <= before.subs.Keys
    ensures |KeysOf(after, conn)| <= |KeysOf(before, conn)|
  {
    var less, more := KeysOf(after, conn), KeysOf(before, conn);
    assert more == less + (more - less);
  }

  lemma AddStaysCapped(reg: Registry, limits: Limits, key: Key, filters: seq<Filter>, conn: string)
    requires AddSub(reg, limits, key, filters).Ok? && |KeysOf(reg, conn)| <= Cap(limits)
    ensures |KeysOf(AddSub(reg, limits, key, filters).value, conn)| <= Cap(limits)
  {
    var after := AddSub(reg, limits, key, filters).value;
    if conn == key.conn && key !in reg.subs {
      assert KeysOf(after, conn) == KeysOf(reg, conn) + {key};
    } else {
      assert KeysOf(after, conn) == KeysOf(reg, conn);
    }
  }

  /** Every step but opening leaves no subscription id that was not there. */
  lemma OnlyOpenAdds(s: System, step: Step)
    requires UniqueIds(s.store) && Enabled(s, step) && !step.Open?
    ensures Do(s, step).reg.subs.Keys <= s.reg.subs.Keys && Do(s, step).limits == s.limits
  {
    hide UniqueIds, Deliver, SendSnapshot, Complete, CloseOnQueryError, Do;
    if !Sends(step) || step.Publish? {
      QuietStepTouches(s, step);
      StoreChange(s, step);
    } else {
      SendingAdds(s, step);
    }
  }

  lemma SendingAdds(s: System, step: Step)
    requires UniqueIds(s.store) && Enabled(s, step) && Sends(step) && !step.Publish? && !step.Open?
    ensures Do(s, step).reg.subs.Keys <= s.reg.subs.Keys && Do(s, step).limits == s.limits
  {
    hide UniqueIds, DoDeliver, DoSend, DoFinish, DoError;
    match step
    case DeliverOne(d, ok) => DeliverAdds(s, d, ok);
    case SendNext(g, ok) => SendAdds(s, g, ok);
    case Finish(g, ok, accepts) => EndAdds(s, g, ok, accepts);
    case QueryError(g, ok) => EndAdds(s, g, ok, []);
    case _ =>
  }

  lemma DeliverAdds(s: System, d: Delivery, ok: bool)
    requires d in s.inflight
    ensures DoDeliver(s, d, ok).reg.subs.Keys <= s.reg.subs.Keys && DoDeliver(s, d, ok).limits == s.limits
  {
    hide Deliver;
    SendsTouchOneKey(s.reg, d.key, d.generation, d.event, ok);
  }

  lemma SendAdds(s: System, g: nat, ok: bool)
    requires g in s.jobs && s.jobs[g].outbox != []
    ensures DoSend(s, g, ok).reg.subs.Keys <= s.reg.subs.Keys && DoSend(s, g, ok).limits == s.limits
  {
    hide SendSnapshot;
    SendsTouchOneKey(s.reg, s.jobs[g].key, g, s.jobs[g].outbox[0], ok);
  }

  lemma EndAdds(s: System, g: nat, ok: bool, accepts: seq<bool>)
    requires g in s.jobs
    ensures DoFinish(s, g, ok, accepts).reg.subs.Keys <= s.reg.subs.Keys && DoFinish(s, g, ok, accepts).limits == s.limits
    ensures DoError(s, g, ok).reg.subs.Keys <= s.reg.subs.Keys && DoError(s, g, ok).limits == s.limits
  {
    hide Complete, CloseOnQueryError;
    EndsTouchOneKey(s.reg, s.jobs[g].key, g, ok, accepts);
  }

  lemma StepStaysCapped(s: System, step: Step)
    requires UniqueIds(s.store) && Enabled(s, step) && Capped(s)
    ensures Capped(Do(s, step)) && Do(s, step).limits == s.limits
  {
    hide UniqueIds, KeysOf, Do, AddSub;
    if step.Open? {
      forall conn ensures |KeysOf(Do(s, step).reg, conn)| <= Cap(s.limits) {
        AddStaysCapped(s.reg, s.limits, step.key, step.filters, conn);
        OpenedRegistry(s, step);
      }
      OpenedRegistry(s, step);
    } else {
      OnlyOpenAdds(s, step);
      forall conn ensures |KeysOf(Do(s, step).reg, conn)| <= Cap(s.limits) {
        FewerKeys(s.reg, Do(s, step).reg, conn);
      }
    }
  }

  lemma OpenedRegistry(s: System, step: Step)
    requires UniqueIds(s.store) && Enabled(s, step) && step.Open?
    ensures AddSub(s.reg, s.limits, step.key, step.filters).Ok?
    ensures Do(s, step).reg == AddSub(s.reg, s.limits, step.key, step.filters).value && Do(s, step).limits == s.limits
  {
  }

  lemma {:induction false} RunStaysCapped(s: System, steps: seq<Step>)
    requires UniqueIds(s.store) && Valid(s, steps) && Capped(s)
    ensures Capped(Run(s, steps)) && Run(s, steps).limits == s.limits
    decreases |steps|
  {
    hide Capped, Do, Enabled, UniqueIds;
    if steps != [] {
      StoreChange(s, steps[0]);
      StepStaysCapped(s, steps[0]);
      RunStaysCapped(Do(s, steps[0]), steps[1..]);
    }
  }

  /** No connection ever holds more subscriptions than its cap. */
  lemma SubscriptionsStayCapped(s: System, steps: seq<Step>, conn: string)
    requires Init(s) && Valid(s, steps)
    ensures |KeysOf(Run(s, steps).reg, conn)| <= Cap(s.limits)
  {
    hide Do, Enabled, Valid;
    assert forall c :: KeysOf(s.reg, c) == {};
    RunStaysCapped(s, steps);
  }

  // ------------------------------------------------------ why a subscription ends

  /** The key no longer carries the generation. */
  predicate Ends(s: System, s': System, k: Key)
    requires k in s.reg.subs
  {
    k !in s'.reg.subs || s'.reg.subs[k].generation != s.reg.subs[k].generation
  }

  /** One CLOSED frame, and nothing else, went to the generation. */
  predicate OnlyClosed(s: System, s': System, k: Key, g: nat, ok: bool) {
    Log(s', g) == Log(s, g) + [Frame(k, g, Closed, ok)]
  }

  lemma DeliverEnds(s: System, d: Delivery, ok: bool, k: Key)
    requires OrderInv(s) && d in s.inflight && k in s.reg.subs
    ensures var s', e := DoDeliver(s, d, ok), s.reg.subs[k];
            Ends(s, s', k) <==>
              && d.key == k && d.generation == e.generation && k.conn in s.reg.senders
              && !e.snapshotDone && |e.pendingLive| == 256
    ensures Ends(s, DoDeliver(s, d, ok), k) ==> OnlyClosed(s, DoDeliver(s, d, ok), k, s.reg.subs[k].generation, ok)
  {
    hide OrderInv;
    BufferIsBounded(s, k);
  }

  lemma BufferIsBounded(s: System, k: Key)
    requires OrderInv(s) && k in s.reg.subs
    ensures |s.reg.subs[k].pendingLive| <= 256
  {
    hide LogsOk, Bounded, OneOwner, LiveOf, CountersOk, HasEose, AllBelow;
    assert KeyOk(s, k);
  }

  lemma ErrorEnds(s: System, g: nat, ok: bool, k: Key)
    requires OrderInv(s) && g in s.jobs && k in s.reg.subs
    ensures Ends(s, DoError(s, g, ok), k) <==> s.reg.subs[k].generation == g
    ensures Ends(s, DoError(s, g, ok), k) ==> OnlyClosed(s, DoError(s, g, ok), k, g, ok)
  {
    hide LogsOk, KeyOk, Bounded;
  }

  lemma OthersEndNothing(s: System, g: nat, ok: bool, accepts: seq<bool>, k: Key)
    requires g in s.jobs && k in s.reg.subs
    ensures !Ends(s, DoFinish(s, g, ok, accepts), k)
    ensures s.jobs[g].outbox != [] ==> !Ends(s, DoSend(s, g, ok), k)
  {
    hide LiveFrames, CountSent;
  }

  lemma OpenEnds(s: System, key: Key, filters: seq<Filter>, pageSize: int, k: Key)
    requires AddSub(s.reg, s.limits, key, filters).Ok? && k in s.reg.subs && s.reg.subs[k].generation <= s.reg.nextGeneration
    ensures Ends(s, DoOpen(s, key, filters, pageSize), k) <==> k == key
  {
    hide OpenJob, KeysOf;
  }

  lemma QuietStepEnds(s: System, step: Step, k: Key)
    requires UniqueIds(s.store) && Enabled(s, step) && !Sends(step) && !Reads(step) && k in s.reg.subs
    ensures Ends(s, Do(s, step), k) <==> step == Disconnect(k.conn) || step == RemoveStep(k)
  {
    hide UniqueIds, DoDeliver, DoOpen, DoSearch, DoMerge, DoSend, DoFinish, DoError, DoPublish, DoCheckNext, QueryJob, AddSub,
         AnyUnexhausted;
  }

  lemma PublishEndsNothing(s: System, ev: Event, k: Key)
    requires k in s.reg.subs
    ensures !Ends(s, DoPublish(s, ev), k)
  {
    hide Deliveries;
  }

  /**
   * A subscription ends when its id is opened again, closed, or its connection goes; when its page read fails; or when a
   * live event meets 256 buffered ones; and never otherwise. The last two send it one CLOSED frame.
   */
  lemma SubscriptionsEndExactlyWhen(s: System, step: Step, k: Key)
    requires OrderInv(s) && UniqueIds(s.store) && Enabled(s, step) && k in s.reg.subs
    ensures var e, s' := s.reg.subs[k], Do(s, step);
            Ends(s, s', k) <==>
              || (step.Open? && step.key == k) || step == RemoveStep(k) || step == Disconnect(k.conn)
              || (step.QueryError? && step.generation == e.generation)
              || (step.DeliverOne? && step.delivery.key == k && step.delivery.generation == e.generation
                  && !e.snapshotDone && |e.pendingLive| == 256)
    ensures Ends(s, Do(s, step), k) && (step.QueryError? || step.DeliverOne?) ==>
              OnlyClosed(s, Do(s, step), k, s.reg.subs[k].generation, step.ok)
  {
    hide OrderInv, UniqueIds, DoDeliver, DoOpen, DoSend, DoFinish, DoError, DoPublish, Ends, OnlyClosed;
    SubsHaveSenders(s);
    if Reads(step) {
      ReadEndsNothing(s, step, k);
    } else if !Sends(step) {
      QuietStepEnds(s, step, k);
    } else {
      match step
      case Open(key, filters, pageSize) =>
        EntriesAreOld(s, k);
        OpenEnds(s, key, filters, pageSize, k);
      case DeliverOne(d, ok) => DeliverEnds(s, d, ok, k);
      case SendNext(g, ok) => OthersEndNothing(s, g, ok, [], k);
      case Finish(g, ok, accepts) => OthersEndNothing(s, g, ok, accepts, k);
      case QueryError(g, ok) => ErrorEnds(s, g, ok, k);
      case Publish(ev) => PublishEndsNothing(s, ev, k);
      case _ =>
    }
  }

  lemma EntriesAreOld(s: System, k: Key)
    requires OrderInv(s) && k in s.reg.subs
    ensures s.reg.subs[k].generation <= s.reg.nextGeneration
  {
    hide LogsOk, KeyOk;
  }

  lemma ReadEndsNothing(s: System, step: Step, k: Key)
    requires UniqueIds(s.store) && Enabled(s, step) && Reads(step) && k in s.reg.subs
    ensures !Ends(s, Do(s, step), k)
  {
    hide UniqueIds, Do, Enabled;
    ReadStepTouches(s, step);
  }
}
