/**
 * No gap between snapshot and live: whatever the interleaving of saves, broadcasts, visibility changes and page reads,
 * every stored event an unlimited filter asks for is on its way to the subscriber at all times.
 */
module ReqNoGap {
  import opened Nostr
  import opened Order
  import opened ReqProtocol
  import opened ReqQuery
  import opened Subscriptions
  import opened Wrappers

  predicate Unlimited(f: Filter, defaultLimit: int) {
    if f.limit.Some? then f.limit.value <= 0 else defaultLimit <= 0
  }

  /** Some unlimited filter matches; `Matches` is false of every filter with search text. */
  predicate Wanted(filters: seq<Filter>, defaultLimit: int, ev: Event) {
    exists i | 0 <= i < |filters| :: Unlimited(filters[i], defaultLimit) && filters[i].Matches(ev)
  }

  predicate Carries(f: Frame, id: Id) {
    (f.kind.Snapshot? || f.kind.Live?) && f.kind.event.id == id
  }

  /** A frame carrying this id was handed to the connection's sender. */
  predicate Attempted(log: seq<Frame>, id: Id) {
    exists i | 0 <= i < |log| :: Carries(log[i], id)
  }

  predicate Enqueued(log: seq<Frame>, id: Id) {
    exists i | 0 <= i < |log| :: Carries(log[i], id) && log[i].sent
  }

  /** The cursor has yet to pass the event. */
  predicate Ahead(fc: FilterCursor, ev: Event) {
    && !fc.exhausted && fc.remaining <= 0
    && fc.base.cursor.None? && (fc.base.limit.Some? ==> fc.base.limit.value <= 0)
    && fc.base.Matches(ev)
    && (fc.cursor.Some? ==> AfterCursor(ev, fc.cursor.value))
  }

  predicate AnyAhead(cursors: seq<FilterCursor>, ev: Event) {
    exists i | 0 <= i < |cursors| :: Ahead(cursors[i], ev)
  }

  predicate JobHas(job: Job, ev: Event) {
    ev.id in job.page || ev.id in IdSet(job.outbox) || AnyAhead(job.cursors, ev)
  }

  /** Where an event owed to a subscription may be: sent, buffered, in a broadcast, or ahead of the reader. */
  predicate Covered(s: System, key: Key, ev: Event) {
    && key in s.reg.subs
    && var e := s.reg.subs[key];
       || Attempted(Log(s, e.generation), ev.id)
       || ev in e.pendingLive
       || ev in s.unpublished
       || Delivery(ev, key, e.generation) in s.matched
       || Delivery(ev, key, e.generation) in s.inflight
       || (e.generation in s.jobs && JobHas(s.jobs[e.generation], ev))
  }

  /** The subscription's snapshot is complete or still being read. */
  predicate Tracked(s: System, key: Key) {
    key in s.reg.subs && (s.reg.subs[key].snapshotDone || s.reg.subs[key].generation in s.jobs)
  }

  predicate Owed(s: System, key: Key, ev: Event) {
    && Tracked(s, key) && ev in s.store && (key.conn, ev.id) in Steady(s, s.reg.subs[key].generation)
    && Wanted(s.reg.subs[key].filters, s.defaultLimit, ev)
  }

  predicate JobOk(job: Job, log: seq<Frame>, steady: set<(string, Id)>) {
    && (if job.sending then job.page == map[] else job.outbox == [])
    && forall id | id in job.seen && (job.key.conn, id) in steady :: Attempted(log, id) || id in IdSet(job.outbox)
  }

  ghost predicate NoGapInv(s: System) {
    && OrderInv(s) && UniqueIds(s.store)
    && (forall g | g in s.jobs :: JobOk(s.jobs[g], Log(s, g), Steady(s, g)))
    && (forall g | g in s.steady :: s.steady[g] <= s.visible)
    && (forall key, ev | Owed(s, key, ev) :: Covered(s, key, ev))
  }

  // ------------------------------------------------------------- what a read does

  /** A row the cursor had not passed is read, or the cursor still has not passed it. */
  lemma ReadOrAhead(store: set<Event>, fc: FilterCursor, pageSize: int, ev: Event)
    requires UniqueIds(store) && ev in store && Ahead(fc, ev)
    ensures var (rows, next) := ReadFilter(store, fc, pageSize);
            ev.id in IdSet(rows) || Ahead(next, ev)
  {
    hide Sort, Sorted;
    if pageSize <= 0 {
      NewerIsTotal(Matching(store, fc.base));
      MatchesAreSelected(fc.base, ev);
      assert ev in Elements(AllRows(store, fc.base));
    } else {
      var f := PageFilter(fc, pageSize);
      var all := AllRows(store, f);
      NewerIsTotal(Matching(store, f));
      assert f.Selects(ev) by {
        MatchesAreSelected(fc.base, ev);
        assert forall key | key in f.tag :: f.tag[key] == fc.base.tag[key];
      }
      assert ev in Elements(all);
      var k :| 0 <= k < |all| && all[k] == ev;
      if k < pageSize {
        assert Fetched(store, fc, pageSize)[k] == ev;
      } else {
        LaterInOrder(all, pageSize - 1, k);
        assert Fetched(store, fc, pageSize) == all[..pageSize];
      }
    }
  }

  lemma LaterInOrder(rows: seq<Event>, i: nat, j: nat)
    requires Sorted(rows, Newer) && i < j < |rows|
    ensures AfterCursor(rows[j], CursorOf(rows[i]))
  {
    assert Newer(rows[i], rows[j]);
  }

  lemma QueryKeepsEvent(store: set<Event>, job: Job, ev: Event)
    requires UniqueIds(store) && job.next < |job.cursors| && ev in store && JobHas(job, ev)
    ensures JobHas(QueryJob(store, job), ev)
  {
    hide ReadFilter, Ahead, UniqueIds, AddAll, IdSet;
    var (rows, next) := ReadFilter(store, job.cursors[job.next], job.pageSize);
    var after := QueryJob(store, job);
    AddAllKeyed(job.page, rows);
    if AnyAhead(job.cursors, ev) {
      var i :| 0 <= i < |job.cursors| && Ahead(job.cursors[i], ev);
      if i == job.next {
        ReadOrAhead(store, job.cursors[i], job.pageSize, ev);
        assert after.cursors[i] == next;
      } else {
        assert after.cursors[i] == job.cursors[i];
      }
    }
  }

  /** Merging moves every unseen id of the page to the outbox. */
  lemma MergeMovesIds(page: map<Id, Event>, order: seq<Id>, seen: set<Id>, id: Id)
    requires Keyed(page) && id in page
    ensures id in seen || id in IdSet(Merge(page, order, seen))
  {
    hide Sort, UniqueIds;
    var picked := PickSearch(order, page, seen);
    var sent := seen + IdSet(picked);
    UnsentIsUnique(page, sent);
    var rest := Sort(Unsent(page, sent), Newer);
    if id !in sent {
      assert page[id] in Elements(rest);
      assert page[id] in Merge(page, order, seen);
    } else if id !in seen {
      var e :| e in picked && e.id == id;
      assert e in Merge(page, order, seen);
    }
  }

  lemma FreshCursorIsAhead(f: Filter, defaultLimit: int, ev: Event)
    requires Unlimited(f, defaultLimit) && f.Matches(ev) && f.cursor.None?
    ensures Ahead(NewCursor(WithDefaultLimit(f, defaultLimit)), ev)
  {
    var g := WithDefaultLimit(f, defaultLimit);
    assert forall key | key in g.tag :: g.tag[key] == f.tag[key];
  }

  lemma AheadGrows(before: seq<FilterCursor>, more: seq<FilterCursor>, ev: Event)
    requires AnyAhead(before, ev) || AnyAhead(more, ev)
    ensures AnyAhead(before + more, ev)
  {
    hide Ahead;
    var all := before + more;
    if AnyAhead(before, ev) {
      var i :| 0 <= i < |before| && Ahead(before[i], ev);
      assert all[i] == before[i];
    } else {
      var i :| 0 <= i < |more| && Ahead(more[i], ev);
      assert all[|before| + i] == more[i];
    }
  }

  /** A fresh query state has every wanted event ahead of it. */
  lemma {:induction false} FreshIsAhead(filters: seq<Filter>, defaultLimit: int, searchEnabled: bool, ev: Event)
    requires Wanted(filters, defaultLimit, ev)
    requires forall i | 0 <= i < |filters| :: filters[i].cursor.None?
    ensures AnyAhead(NewState(filters, defaultLimit, searchEnabled).nonSearch, ev)
    decreases |filters|
  {
    hide AnyAhead, Ahead, Unlimited, NewCursor;
    var n := |filters| - 1;
    var before := NewState(filters[..n], defaultLimit, searchEnabled).nonSearch;
    var i :| 0 <= i < |filters| && Unlimited(filters[i], defaultLimit) && filters[i].Matches(ev);
    if i < n {
      assert filters[..n][i] == filters[i];
      FreshIsAhead(filters[..n], defaultLimit, searchEnabled, ev);
      if filters[n].HasSearch() {
        assert NewState(filters, defaultLimit, searchEnabled).nonSearch == before;
      } else {
        AheadGrows(before, [NewCursor(WithDefaultLimit(filters[n], defaultLimit))], ev);
      }
    } else {
      var fc := NewCursor(WithDefaultLimit(filters[n], defaultLimit));
      FreshCursorIsAhead(filters[n], defaultLimit, ev);
      OneIsAhead(fc, ev);
      AheadGrows(before, [fc], ev);
    }
  }

  lemma OneIsAhead(fc: FilterCursor, ev: Event)
    requires Ahead(fc, ev)
    ensures AnyAhead([fc], ev)
  {
    assert Ahead([fc][0], ev);
  }

  // -------------------------------------------------------------- small facts

  lemma AttemptedGrows(log: seq<Frame>, more: seq<Frame>, id: Id)
    requires Attempted(log, id) || Attempted(more, id)
    ensures Attempted(log + more, id)
  {
    if Attempted(log, id) {
      var i :| 0 <= i < |log| && Carries(log[i], id);
      assert (log + more)[i] == log[i];
    } else {
      var i :| 0 <= i < |more| && Carries(more[i], id);
      assert (log + more)[|log| + i] == more[i];
    }
  }

  lemma FlushAttempts(key: Key, g: nat, events: seq<Event>, accepts: seq<bool>, ev: Event)
    requires ev in events
    ensures Attempted([Frame(key, g, Eose, true)] + LiveFrames(key, g, events, accepts), ev.id)
  {
    var i :| 0 <= i < |events| && events[i] == ev;
    var frames := [Frame(key, g, Eose, true)] + LiveFrames(key, g, events, accepts);
    assert Carries(frames[i + 1], ev.id);
  }

  lemma JobOkGrows(job: Job, log: seq<Frame>, more: seq<Frame>, steady: set<(string, Id)>)
    requires JobOk(job, log, steady)
    ensures JobOk(job, log + more, steady)
  {
    hide Attempted, IdSet;
    forall id | id in job.seen && (job.key.conn, id) in steady ensures Attempted(log + more, id) || id in IdSet(job.outbox) {
      if Attempted(log, id) {
        AttemptedGrows(log, more, id);
      }
    }
  }

  /** Every step leaves generation `g` alone, apart from what it may add elsewhere. */
  predicate Untouched(s: System, s': System, key: Key, ev: Event)
    requires key in s.reg.subs && key in s'.reg.subs
  {
    var e, g := s.reg.subs[key], s.reg.subs[key].generation;
    && s'.reg.subs[key] == e
    && Log(s', g) == Log(s, g)
    && (g in s.jobs ==> g in s'.jobs && s'.jobs[g] == s.jobs[g])
    && (ev in s.unpublished ==> ev in s'.unpublished)
    && (Delivery(ev, key, g) in s.matched ==> Delivery(ev, key, g) in s'.matched)
    && (Delivery(ev, key, g) in s.inflight ==> Delivery(ev, key, g) in s'.inflight)
  }

  lemma UntouchedStaysCovered(s: System, s': System, key: Key, ev: Event)
    requires key in s.reg.subs && key in s'.reg.subs && Untouched(s, s', key, ev) && Covered(s, key, ev)
    ensures Covered(s', key, ev)
  {
  }

  lemma DoneHasNoJob(s: System, key: Key)
    requires OrderInv(s) && key in s.reg.subs && s.reg.subs[key].snapshotDone
    ensures s.reg.subs[key].generation !in s.jobs && s.reg.subs[key].pendingLive == []
  {
    hide WellOrdered, LiveOf, HasEose;
    assert KeyOk(s, key);
  }

  lemma JobIsCurrent(s: System, key: Key)
    requires OrderInv(s) && key in s.reg.subs
    ensures Current(s.reg, key, s.reg.subs[key].generation)
    ensures s.reg.subs[key].generation in s.jobs ==> s.jobs[s.reg.subs[key].generation].key == key
    ensures forall k | k in s.reg.subs && s.reg.subs[k].generation == s.reg.subs[key].generation :: k == key
    ensures s.reg.subs[key].generation <= s.reg.nextGeneration
  {
    hide WellOrdered, KeyOk;
  }

  ghost predicate JobsOk(s: System) {
    && (forall g | g in s.jobs :: JobOk(s.jobs[g], Log(s, g), Steady(s, g)))
    && (forall g | g in s.steady :: s.steady[g] <= s.visible)
  }

  // --------------------------------------------------------------- step by step

  /** Subscriptions, jobs or connections only go away. */
  lemma DropKeepsCover(s: System, s': System)
    requires NoGapInv(s)
    requires s' == s.(reg := s'.reg, jobs := s'.jobs)
    requires forall g | g in s'.jobs :: g in s.jobs && s'.jobs[g] == s.jobs[g]
    requires forall k | k in s'.reg.subs :: k in s.reg.subs && s'.reg.subs[k] == s.reg.subs[k]
    ensures JobsOk(s')
    ensures forall key, ev | Owed(s', key, ev) :: Covered(s', key, ev)
  {
    hide OrderInv, UniqueIds, Covered, JobOk, Wanted;
    forall key, ev | Owed(s', key, ev) ensures Covered(s', key, ev) {
      assert Owed(s, key, ev) && Covered(s, key, ev);
      if s.reg.subs[key].snapshotDone {
        DoneHasNoJob(s, key);
      }
      UntouchedStaysCovered(s, s', key, ev);
    }
  }

  lemma SaveKeepsCover(s: System, saved: Event, removed: set<Event>)
    requires NoGapInv(s) && Enabled(s, Save(saved, removed))
    ensures var s' := Do(s, Save(saved, removed));
            JobsOk(s') && forall key, ev | Owed(s', key, ev) :: Covered(s', key, ev)
  {
    hide OrderInv, UniqueIds, JobOk, Wanted, JobHas, Attempted;
    var s' := Do(s, Save(saved, removed));
    forall key, ev | Owed(s', key, ev) ensures Covered(s', key, ev) {
      if ev != saved {
        assert Owed(s, key, ev) && Covered(s, key, ev);
      }
    }
  }

  lemma PublishKeepsCover(s: System, ev0: Event)
    requires NoGapInv(s)
    ensures var s' := DoPublish(s, ev0);
            JobsOk(s') && forall key, ev | Owed(s', key, ev) :: Covered(s', key, ev)
  {
    hide OrderInv, UniqueIds, JobOk, JobHas, Attempted, Deliveries, Wanted;
    var s' := DoPublish(s, ev0);
    forall key, ev | Owed(s', key, ev) ensures Covered(s', key, ev) {
      assert Owed(s, key, ev) && Covered(s, key, ev);
      if ev == ev0 {
        JobIsCurrent(s, key);
        WantedIsDelivered(s, key, ev);
      }
    }
  }

  lemma WantedIsDelivered(s: System, key: Key, ev: Event)
    requires key in s.reg.subs && key.conn in s.reg.senders
    requires Wanted(s.reg.subs[key].filters, s.defaultLimit, ev)
    ensures Delivery(ev, key, s.reg.subs[key].generation) in Deliveries(s, ev)
  {
  }

  /** One job moved on, and whatever it had it still has. */
  lemma JobStepKeepsCover(s: System, g: nat, job: Job)
    requires NoGapInv(s) && g in s.jobs && job.key == s.jobs[g].key && JobOk(job, Log(s, g), Steady(s, g))
    requires forall ev | ev in s.store && (job.key.conn, ev.id) in Steady(s, g) && JobHas(s.jobs[g], ev) ::
               JobHas(job, ev) || Attempted(Log(s, g), ev.id)
    ensures var s' := s.(jobs := s.jobs[g := job]);
            JobsOk(s') && forall key, ev | Owed(s', key, ev) :: Covered(s', key, ev)
  {
    hide OrderInv, UniqueIds, JobOk, JobHas, Attempted, Wanted;
    var s' := s.(jobs := s.jobs[g := job]);
    forall key, ev | Owed(s', key, ev) ensures Covered(s', key, ev) {
      assert Owed(s, key, ev) && Covered(s, key, ev);
      JobIsCurrent(s, key);
    }
  }

  lemma SearchKeepsCover(s: System, g: nat, hits: seq<Event>)
    requires NoGapInv(s) && Enabled(s, SearchHits(g, hits))
    ensures var s' := DoSearch(s, g, hits);
            JobsOk(s') && forall key, ev | Owed(s', key, ev) :: Covered(s', key, ev)
  {
    hide OrderInv, UniqueIds, AddAll, Attempted, AnyAhead, IdSet, Owed, Covered;
    AddAllKeyed(s.jobs[g].page, hits);
    assert JobOk(s.jobs[g], Log(s, g), Steady(s, g));
    JobStepKeepsCover(s, g, DoSearch(s, g, hits).jobs[g]);
  }

  lemma QueryKeepsCover(s: System, g: nat)
    requires NoGapInv(s) && Enabled(s, QueryNext(g))
    ensures var s' := Do(s, QueryNext(g));
            JobsOk(s') && forall key, ev | Owed(s', key, ev) :: Covered(s', key, ev)
  {
    hide OrderInv, UniqueIds, AddAll, Attempted, AnyAhead, IdSet, ReadFilter, JobHas, Owed, Covered;
    var job := QueryJob(s.store, s.jobs[g]);
    assert JobOk(s.jobs[g], Log(s, g), Steady(s, g));
    forall ev | ev in s.store && JobHas(s.jobs[g], ev) ensures JobHas(job, ev) {
      QueryKeepsEvent(s.store, s.jobs[g], ev);
    }
    JobStepKeepsCover(s, g, job);
  }

  lemma MergeKeepsCover(s: System, g: nat)
    requires NoGapInv(s) && Enabled(s, MergePage(g))
    ensures var s' := DoMerge(s, g);
            JobsOk(s') && forall key, ev | Owed(s', key, ev) :: Covered(s', key, ev)
  {
    hide OrderInv, UniqueIds, Attempted, AnyAhead, IdSet, Merge, Owed, Covered;
    var before, job := s.jobs[g], DoMerge(s, g).jobs[g];
    NoIds();
    assert JobOk(before, Log(s, g), Steady(s, g));
    forall id | id in before.page ensures id in before.seen || id in IdSet(job.outbox) {
      MergeMovesIds(before.page, before.order, before.seen, id);
    }
    JobStepKeepsCover(s, g, job);
  }

  lemma MoreKeepsCover(s: System, g: nat)
    requires NoGapInv(s) && Enabled(s, MorePages(g))
    ensures var s' := Do(s, MorePages(g));
            JobsOk(s') && forall key, ev | Owed(s', key, ev) :: Covered(s', key, ev)
  {
    hide OrderInv, UniqueIds, Attempted, AnyAhead, IdSet, Owed, Covered;
    assert JobOk(s.jobs[g], Log(s, g), Steady(s, g));
    JobStepKeepsCover(s, g, s.jobs[g].(sending := false));
  }

  lemma OutboxTail(outbox: seq<Event>, id: Id)
    requires outbox != [] && id in IdSet(outbox) && id != outbox[0].id
    ensures id in IdSet(outbox[1..])
  {
    var e :| e in outbox && e.id == id;
    assert e in outbox[1..];
  }

  lemma SkipKeepsCover(s: System, g: nat)
    requires NoGapInv(s) && g in s.jobs && s.jobs[g].sending && s.jobs[g].outbox != []
    requires (s.jobs[g].key.conn, s.jobs[g].outbox[0].id) !in Steady(s, g)
    ensures var s' := s.(jobs := s.jobs[g := s.jobs[g].(outbox := s.jobs[g].outbox[1..])]);
            JobsOk(s') && forall key, ev | Owed(s', key, ev) :: Covered(s', key, ev)
  {
    hide OrderInv, UniqueIds, Attempted, AnyAhead, IdSet, Owed, Covered;
    var before := s.jobs[g];
    var job := before.(outbox := before.outbox[1..]);
    assert JobOk(before, Log(s, g), Steady(s, g));
    forall id | id in IdSet(before.outbox) && id != before.outbox[0].id ensures id in IdSet(job.outbox) {
      OutboxTail(before.outbox, id);
    }
    JobStepKeepsCover(s, g, job);
  }

  /** A frame added to one generation's log, everything else about other keys unchanged. */
  lemma OtherKeyStaysCovered(s: System, s': System, key: Key, g: nat, ev: Event)
    requires NoGapInv(s) && key in s.reg.subs && key in s'.reg.subs && s'.reg.subs[key] == s.reg.subs[key]
    requires s.reg.subs[key].generation != g && Covered(s, key, ev)
    requires forall h | h != g :: Log(s', h) == Log(s, h)
    requires forall h | h in s.jobs && h != g :: h in s'.jobs && s'.jobs[h] == s.jobs[h]
    requires s'.unpublished == s.unpublished && s'.matched == s.matched
    requires Delivery(ev, key, s.reg.subs[key].generation) in s.inflight ==> Delivery(ev, key, s.reg.subs[key].generation) in s'.inflight
    ensures Covered(s', key, ev)
  {
    hide NoGapInv, Attempted, JobHas;
  }

  lemma JobsStayOk(s: System, s': System, g: nat, more: seq<Frame>)
    requires NoGapInv(s) && s'.visible == s.visible && s'.steady == s.steady && Log(s', g) == Log(s, g) + more
    requires forall h | h != g :: Log(s', h) == Log(s, h)
    requires forall h | h in s'.jobs && h != g :: h in s.jobs && s'.jobs[h] == s.jobs[h]
    requires g in s'.jobs ==> (g in s.jobs && s'.jobs[g] == s.jobs[g]) || JobOk(s'.jobs[g], Log(s', g), Steady(s', g))
    ensures JobsOk(s')
  {
    hide OrderInv, UniqueIds, Owed, Covered, JobOk;
    if g in s'.jobs && g in s.jobs && s'.jobs[g] == s.jobs[g] {
      JobOkGrows(s.jobs[g], Log(s, g), more, Steady(s, g));
    }
  }

  lemma SentJobOk(job: Job, log: seq<Frame>, steady: set<(string, Id)>, frame: Frame)
    requires JobOk(job, log, steady) && job.sending && job.outbox != [] && Carries(frame, job.outbox[0].id)
    ensures JobOk(job.(outbox := job.outbox[1..], checked := false), log + [frame], steady)
    ensures forall id | id in IdSet(job.outbox) :: id in IdSet(job.outbox[1..]) || Attempted(log + [frame], id)
  {
    hide Attempted, IdSet;
    var first := job.outbox[0].id;
    OneFrameAttempts(frame, first);
    forall id | Attempted(log, id) || id == first ensures Attempted(log + [frame], id) {
      AttemptedGrows(log, [frame], id);
    }
    forall id | id in IdSet(job.outbox) && id != first ensures id in IdSet(job.outbox[1..]) {
      OutboxTail(job.outbox, id);
    }
  }

  /** One frame for a current generation: its log and its counters move, and nothing that is owed. */
  lemma SendFrame(s: System, g: nat, ok: bool)
    requires g in s.jobs && s.jobs[g].outbox != [] && Current(s.reg, s.jobs[g].key, g)
    ensures var job, s' := s.jobs[g], DoSend(s, g, ok);
            && Log(s', g) == Log(s, g) + [Frame(job.key, g, Snapshot(job.outbox[0]), ok)]
            && (forall h | h != g :: Log(s', h) == Log(s, h))
            && s'.jobs == s.jobs[g := job.(outbox := job.outbox[1..], checked := false)]
            && s' == s.(reg := s'.reg, frames := s'.frames, jobs := s'.jobs)
            && s'.reg.subs.Keys == s.reg.subs.Keys
            && (forall k | k in s.reg.subs && k != job.key :: s'.reg.subs[k] == s.reg.subs[k])
            && (forall k | k in s.reg.subs :: SameButCounters(s.reg.subs[k], s'.reg.subs[k]))
  {
  }

  predicate SameButCounters(a: SubEntry, b: SubEntry) {
    a.generation == b.generation && a.filters == b.filters && a.snapshotDone == b.snapshotDone && a.pendingLive == b.pendingLive
  }

  lemma SendKeepsCover(s: System, g: nat, ok: bool)
    requires g in s.jobs && s.jobs[g].sending && s.jobs[g].outbox != [] && Current(s.reg, s.jobs[g].key, g)
    requires NoGapInv(s)
    ensures var s' := DoSend(s, g, ok);
            JobsOk(s') && forall key, ev | Owed(s', key, ev) :: Covered(s', key, ev)
  {
    hide OrderInv, UniqueIds, Attempted, IdSet, JobOk, Covered, Wanted, DoSend;
    var job, s' := s.jobs[g], DoSend(s, g, ok);
    var frame := Frame(job.key, g, Snapshot(job.outbox[0]), ok);
    SendFrame(s, g, ok);
    assert job.sending && JobOk(job, Log(s, g), Steady(s, g));
    SentJobOk(job, Log(s, g), Steady(s, g), frame);
    JobsStayOk(s, s', g, [frame]);
    forall key, ev | Owed(s', key, ev) ensures Covered(s', key, ev) {
      SentStaysCovered(s, g, ok, key, ev);
    }
  }

  lemma SentStaysCovered(s: System, g: nat, ok: bool, key: Key, ev: Event)
    requires g in s.jobs && s.jobs[g].sending && s.jobs[g].outbox != [] && Current(s.reg, s.jobs[g].key, g)
    requires Owed(DoSend(s, g, ok), key, ev) && NoGapInv(s)
    ensures Covered(DoSend(s, g, ok), key, ev)
  {
    hide OrderInv, UniqueIds, Attempted, AnyAhead, IdSet, Wanted, Covered, DoSend;
    var job, s' := s.jobs[g], DoSend(s, g, ok);
    SendFrame(s, g, ok);
    assert SameButCounters(s.reg.subs[key], s'.reg.subs[key]);
    assert Owed(s, key, ev) && Covered(s, key, ev);
    JobIsCurrent(s, key);
    if key == job.key {
      var frame := Frame(job.key, g, Snapshot(job.outbox[0]), ok);
      assert JobOk(job, Log(s, g), Steady(s, g));
      SentJobOk(job, Log(s, g), Steady(s, g), frame);
      SentIsCovered(s, g, ok, ev);
    } else {
      OtherKeyStaysCovered(s, s', key, g, ev);
    }
  }

  lemma SentIsCovered(s: System, g: nat, ok: bool, ev: Event)
    requires g in s.jobs && s.jobs[g].outbox != [] && Current(s.reg, s.jobs[g].key, g)
    requires var job := s.jobs[g];
             forall id | id in IdSet(job.outbox) ::
               id in IdSet(job.outbox[1..]) || Attempted(Log(s, g) + [Frame(job.key, g, Snapshot(job.outbox[0]), ok)], id)
    requires Covered(s, s.jobs[g].key, ev)
    ensures s.jobs[g].key in DoSend(s, g, ok).reg.subs && Covered(DoSend(s, g, ok), s.jobs[g].key, ev)
  {
    hide Attempted, AnyAhead, IdSet, DoSend;
    SendFrame(s, g, ok);
    if Attempted(Log(s, g), ev.id) {
      AttemptedGrows(Log(s, g), [Frame(s.jobs[g].key, g, Snapshot(s.jobs[g].outbox[0]), ok)], ev.id);
    }
  }

  lemma OneFrameAttempts(f: Frame, id: Id)
    requires Carries(f, id)
    ensures Attempted([f], id)
  {
    assert Carries([f][0], id);
  }

  lemma DeliverKeepsCover(s: System, d: Delivery, ok: bool)
    requires NoGapInv(s) && Enabled(s, DeliverOne(d, ok))
    ensures var s' := DoDeliver(s, d, ok);
            JobsOk(s') && forall key, ev | Owed(s', key, ev) :: Covered(s', key, ev)
  {
    hide NoGapInv, OrderInv, UniqueIds, Attempted, JobHas, Wanted, Deliver, Covered, Owed, DoDeliver;
    DeliverFrame(s, d, ok);
    var s', effect := DoDeliver(s, d, ok), Deliver(s.reg, d.key, d.generation, d.event, ok);
    var g, log := d.generation, Log(s, d.generation);
    SendsTouchOneKey(s.reg, d.key, g, d.event, ok);
    JobsStayOk(s, s', g, effect.frames);
    forall key, ev | Owed(s', key, ev) ensures Covered(s', key, ev) {
      DeliveredIsCovered(s, d, ok, key, ev);
    }
  }

  lemma DeliverFrame(s: System, d: Delivery, ok: bool)
    requires d in s.inflight
    ensures var s', effect := DoDeliver(s, d, ok), Deliver(s.reg, d.key, d.generation, d.event, ok);
            && s'.reg == effect.reg && Log(s', d.generation) == Log(s, d.generation) + effect.frames
            && (forall h | h != d.generation :: Log(s', h) == Log(s, h))
            && s' == s.(reg := s'.reg, frames := s'.frames, inflight := s'.inflight, accepted := s'.accepted)
            && (forall x | x in s.inflight && x != d :: x in s'.inflight)
  {
    hide Deliver, Current;
  }

  lemma DeliveredIsCovered(s: System, d: Delivery, ok: bool, key: Key, ev: Event)
    requires NoGapInv(s) && d in s.inflight && Owed(DoDeliver(s, d, ok), key, ev)
    ensures Covered(DoDeliver(s, d, ok), key, ev)
  {
    hide OrderInv, UniqueIds, Attempted, JobHas, Wanted, Deliver, JobOk, Covered, DoDeliver;
    DeliverFrame(s, d, ok);
    var s', effect := DoDeliver(s, d, ok), Deliver(s.reg, d.key, d.generation, d.event, ok);
    DeliverKeepsFilters(s.reg, d, ok, key);
    SendsTouchOneKey(s.reg, d.key, d.generation, d.event, ok);
    JobIsCurrent(s, key);
    var e := s.reg.subs[key];
    assert Owed(s, key, ev) && Covered(s, key, ev);
    if e.generation == d.generation {
      DeliverSameGeneration(s, d, ok, key, ev);
    } else {
      StaleUnlessSame(s.reg, d, ok, key);
      OtherKeyStaysCovered(s, s', key, d.generation, ev);
    }
  }

  lemma DeliverSameGeneration(s: System, d: Delivery, ok: bool, key: Key, ev: Event)
    requires key in s.reg.subs && s.reg.subs[key].generation == d.generation && d in s.inflight
    requires Current(s.reg, key, d.generation) && (key == d.key || !Current(s.reg, d.key, d.generation))
    requires key in DoDeliver(s, d, ok).reg.subs && Covered(s, key, ev)
    ensures Covered(DoDeliver(s, d, ok), key, ev)
  {
    hide Attempted, JobHas, Deliver;
    var effect := Deliver(s.reg, d.key, d.generation, d.event, ok);
    SendsTouchOneKey(s.reg, d.key, d.generation, d.event, ok);
    if key == d.key {
      HandedOver(s.reg, d, ok, Log(s, d.generation));
      if Attempted(Log(s, d.generation), ev.id) {
        AttemptedGrows(Log(s, d.generation), effect.frames, ev.id);
      }
    } else {
      StaleDeliver(s.reg, d, ok);
      assert Log(s, d.generation) + [] == Log(s, d.generation);
    }
  }

  lemma DeliverKeepsFilters(reg: Registry, d: Delivery, ok: bool, key: Key)
    requires key in Deliver(reg, d.key, d.generation, d.event, ok).reg.subs
    ensures key in reg.subs
    ensures Deliver(reg, d.key, d.generation, d.event, ok).reg.subs[key].filters == reg.subs[key].filters
    ensures Deliver(reg, d.key, d.generation, d.event, ok).reg.subs[key].snapshotDone == reg.subs[key].snapshotDone
  {
  }

  lemma StaleUnlessSame(reg: Registry, d: Delivery, ok: bool, key: Key)
    requires key in reg.subs && (key != d.key || reg.subs[key].generation != d.generation)
    ensures key in Deliver(reg, d.key, d.generation, d.event, ok).reg.subs
    ensures Deliver(reg, d.key, d.generation, d.event, ok).reg.subs[key] == reg.subs[key]
  {
  }

  /** The delivered event is now in the log or in the buffer, and the buffer kept the rest. */
  lemma HandedOver(reg: Registry, d: Delivery, ok: bool, log: seq<Frame>)
    requires Current(reg, d.key, d.generation)
    requires d.key in Deliver(reg, d.key, d.generation, d.event, ok).reg.subs
    ensures var effect := Deliver(reg, d.key, d.generation, d.event, ok);
            && effect.reg.subs[d.key].pendingLive == reg.subs[d.key].pendingLive + (if reg.subs[d.key].snapshotDone then [] else [d.event])
            && (reg.subs[d.key].snapshotDone ==> Attempted(log + effect.frames, d.event.id))
  {
    if reg.subs[d.key].snapshotDone {
      var frame := Frame(d.key, d.generation, Live(d.event), ok);
      OneFrameAttempts(frame, d.event.id);
      AttemptedGrows(log, [frame], d.event.id);
    }
  }

  lemma FinishKeepsCover(s: System, g: nat, ok: bool, accepts: seq<bool>)
    requires NoGapInv(s) && Enabled(s, Finish(g, ok, accepts))
    ensures var s' := DoFinish(s, g, ok, accepts);
            JobsOk(s') && forall key, ev | Owed(s', key, ev) :: Covered(s', key, ev)
  {
    hide NoGapInv, OrderInv, UniqueIds, Attempted, JobHas, Wanted, Covered, Complete;
    var s', effect := DoFinish(s, g, ok, accepts), Complete(s.reg, s.jobs[g].key, g, ok, accepts);
    EndsTouchOneKey(s.reg, s.jobs[g].key, g, ok, accepts);
    JobsStayOk(s, s', g, effect.frames);
    forall key, ev | Owed(s', key, ev) ensures Covered(s', key, ev) {
      FinishedIsCovered(s, g, ok, accepts, key, ev);
    }
  }

  lemma FinishedIsCovered(s: System, g: nat, ok: bool, accepts: seq<bool>, key: Key, ev: Event)
    requires NoGapInv(s) && Enabled(s, Finish(g, ok, accepts)) && Owed(DoFinish(s, g, ok, accepts), key, ev)
    ensures Covered(DoFinish(s, g, ok, accepts), key, ev)
  {
    hide OrderInv, UniqueIds, Attempted, Wanted, Complete, AnyUnexhausted;
    var job, s' := s.jobs[g], DoFinish(s, g, ok, accepts);
    var effect := Complete(s.reg, job.key, g, ok, accepts);
    EndsTouchOneKey(s.reg, job.key, g, ok, accepts);
    JobIsCurrent(s, key);
    var e := s.reg.subs[key];
    CompleteOutcome(s.reg, job.key, g, ok, accepts, key);
    if e.snapshotDone {
      DoneHasNoJob(s, key);
    }
    assert Owed(s, key, ev) && Covered(s, key, ev);
    if e.generation == g {
      assert JobOk(job, Log(s, g), Steady(s, g));
      NothingAhead(job.cursors, ev);
      NoIds();
      FlushCovers(s, g, ok, accepts, key, ev);
    } else {
      OtherKeyStaysCovered(s, s', key, g, ev);
    }
  }

  lemma NothingAhead(cursors: seq<FilterCursor>, ev: Event)
    requires !AnyUnexhausted(cursors)
    ensures !AnyAhead(cursors, ev)
  {
  }

  /** Completing the current generation changes one entry; a refused EOSE leaves it untracked. */
  lemma CompleteOutcome(reg: Registry, owner: Key, g: nat, ok: bool, accepts: seq<bool>, key: Key)
    requires key in reg.subs
    ensures var effect := Complete(reg, owner, g, ok, accepts);
            && key in effect.reg.subs
            && effect.reg.subs[key].filters == reg.subs[key].filters
            && (key != owner || reg.subs[key].generation != g ==> effect.reg.subs[key] == reg.subs[key])
            && (!ok ==> effect.reg == reg)
  {
    hide CountSent, LiveFrames;
  }

  lemma FlushCovers(s: System, g: nat, ok: bool, accepts: seq<bool>, key: Key, ev: Event)
    requires g in s.jobs && s.jobs[g].key == key && Current(s.reg, key, g) && Tracked(DoFinish(s, g, ok, accepts), key)
    requires s.reg.subs[key].snapshotDone ==> g !in s.jobs
    requires Covered(s, key, ev) && !JobHas(s.jobs[g], ev)
    ensures Covered(DoFinish(s, g, ok, accepts), key, ev)
  {
    hide Attempted, CountSent, LiveFrames, JobHas;
    var frames := Complete(s.reg, key, g, ok, accepts).frames;
    if Attempted(Log(s, g), ev.id) {
      AttemptedGrows(Log(s, g), frames, ev.id);
    } else if ev in s.reg.subs[key].pendingLive {
      FlushAttempts(key, g, s.reg.subs[key].pendingLive, accepts, ev);
      AttemptedGrows(Log(s, g), frames, ev.id);
    }
  }

  lemma ErrorKeepsCover(s: System, g: nat, ok: bool)
    requires NoGapInv(s) && Enabled(s, QueryError(g, ok))
    ensures var s' := DoError(s, g, ok);
            JobsOk(s') && forall key, ev | Owed(s', key, ev) :: Covered(s', key, ev)
  {
    hide NoGapInv, OrderInv, UniqueIds, Attempted, JobHas, Wanted, Covered;
    var s', owner := DoError(s, g, ok), s.jobs[g].key;
    JobsStayOk(s, s', g, CloseOnQueryError(s.reg, owner, g, ok).frames);
    forall key, ev | Owed(s', key, ev) ensures Covered(s', key, ev) {
      ErroredIsCovered(s, g, ok, key, ev);
    }
  }

  lemma ErroredIsCovered(s: System, g: nat, ok: bool, key: Key, ev: Event)
    requires NoGapInv(s) && Enabled(s, QueryError(g, ok)) && Owed(DoError(s, g, ok), key, ev)
    ensures Covered(DoError(s, g, ok), key, ev)
  {
    hide OrderInv, UniqueIds, Attempted, JobHas, Wanted, Covered;
    var s' := DoError(s, g, ok);
    JobIsCurrent(s, key);
    if s.reg.subs[key].snapshotDone {
      DoneHasNoJob(s, key);
    }
    assert Owed(s, key, ev) && Covered(s, key, ev);
    OtherKeyStaysCovered(s, s', key, g, ev);
  }

  lemma OpenKeepsCover(s: System, owner: Key, filters: seq<Filter>, pageSize: int)
    requires NoGapInv(s) && Enabled(s, Open(owner, filters, pageSize))
    ensures var s' := DoOpen(s, owner, filters, pageSize);
            JobsOk(s') && forall key, ev | Owed(s', key, ev) :: Covered(s', key, ev)
  {
    hide OrderInv, UniqueIds, Attempted, Wanted, JobHas, NewState, IdSet;
    var s' := DoOpen(s, owner, filters, pageSize);
    forall key, ev | Owed(s', key, ev) ensures Covered(s', key, ev) {
      if key == owner {
        FreshIsAhead(filters, s.defaultLimit, s.searchEnabled, ev);
        FreshJobHas(s, owner, filters, pageSize, ev);
      } else {
        JobIsCurrent(s, key);
        assert Owed(s, key, ev) && Covered(s, key, ev);
      }
    }
  }

  lemma FreshJobHas(s: System, key: Key, filters: seq<Filter>, pageSize: int, ev: Event)
    requires AnyAhead(NewState(filters, s.defaultLimit, s.searchEnabled).nonSearch, ev)
    ensures JobHas(OpenJob(s, key, filters, pageSize), ev)
  {
  }

  lemma CheckNextKeepsCover(s: System, g: nat)
    requires NoGapInv(s) && Enabled(s, CheckNext(g))
    ensures var s' := DoCheckNext(s, g);
            JobsOk(s') && forall key, ev | Owed(s', key, ev) :: Covered(s', key, ev)
  {
    hide OrderInv, UniqueIds, Attempted, AnyAhead, IdSet, Owed, Covered;
    var job := s.jobs[g];
    assert JobOk(job, Log(s, g), Steady(s, g)) && Steady(s, g) <= s.visible;
    if (job.key.conn, job.outbox[0].id) in s.visible {
      JobStepKeepsCover(s, g, job.(checked := true));
    } else {
      SkipKeepsCover(s, g);
    }
  }

  /** A delivery that is withheld was owed to nobody who could read the event all along. */
  lemma CheckKeepsCover(s: System, d: Delivery)
    requires NoGapInv(s) && Enabled(s, CheckDelivery(d))
    ensures var s' := DoCheck(s, d);
            JobsOk(s') && forall key, ev | Owed(s', key, ev) :: Covered(s', key, ev)
  {
    hide OrderInv, UniqueIds, JobOk, JobHas, Attempted, Wanted;
    var s' := DoCheck(s, d);
    forall key, ev | Owed(s', key, ev) ensures Covered(s', key, ev) {
      assert Owed(s, key, ev) && Covered(s, key, ev);
      assert (key.conn, ev.id) in s.visible;
    }
  }

  lemma VisibilityKeepsCover(s: System, visible: set<(string, Id)>)
    requires NoGapInv(s)
    ensures var s' := DoSetVisible(s, visible);
            JobsOk(s') && forall key, ev | Owed(s', key, ev) :: Covered(s', key, ev)
  {
    hide OrderInv, UniqueIds, JobHas, Attempted, Wanted, IdSet;
    var s' := DoSetVisible(s, visible);
    forall g ensures Steady(s', g) <= Steady(s, g) && Steady(s', g) <= visible {
    }
    forall g | g in s'.jobs ensures JobOk(s'.jobs[g], Log(s', g), Steady(s', g)) {
      assert JobOk(s.jobs[g], Log(s, g), Steady(s, g));
    }
    forall key, ev | Owed(s', key, ev) ensures Covered(s', key, ev) {
      assert Owed(s, key, ev) && Covered(s, key, ev);
    }
  }

  // ------------------------------------------------------------------ all runs

  lemma SendNextKeepsCover(s: System, g: nat, ok: bool)
    requires NoGapInv(s) && Enabled(s, SendNext(g, ok))
    ensures var s' := DoSend(s, g, ok);
            JobsOk(s') && forall key, ev | Owed(s', key, ev) :: Covered(s', key, ev)
  {
    hide OrderInv, UniqueIds, JobOk, Covered, Owed;
    if Current(s.reg, s.jobs[g].key, g) {
      SendKeepsCover(s, g, ok);
    } else {
      DropKeepsCover(s, DoSend(s, g, ok));
    }
  }

  lemma StepKeepsCover(s: System, step: Step)
    requires NoGapInv(s) && Enabled(s, step)
    ensures NoGapInv(Do(s, step))
  {
    hide OrderInv, UniqueIds, JobOk, Covered, Owed, DoDeliver, DoOpen, DoSearch, DoMerge, DoSend, DoFinish, DoError,
         DoPublish, DoCheck, DoCheckNext, DoSetVisible, QueryJob;
    StepKeepsOrder(s, step);
    match step
    case Open(key, filters, pageSize) => OpenKeepsCover(s, key, filters, pageSize);
    case Save(ev, removed) => SaveKeepsCover(s, ev, removed);
    case Publish(ev) => PublishKeepsCover(s, ev);
    case CheckDelivery(d) => CheckKeepsCover(s, d);
    case DeliverOne(d, ok) => DeliverKeepsCover(s, d, ok);
    case SearchHits(g, hits) => SearchKeepsCover(s, g, hits);
    case QueryNext(g) => QueryKeepsCover(s, g);
    case MergePage(g) => MergeKeepsCover(s, g);
    case CheckNext(g) => CheckNextKeepsCover(s, g);
    case SendNext(g, ok) => SendNextKeepsCover(s, g, ok);
    case MorePages(g) => MoreKeepsCover(s, g);
    case Finish(g, ok, accepts) => FinishKeepsCover(s, g, ok, accepts);
    case QueryError(g, ok) => ErrorKeepsCover(s, g, ok);
    case SetVisible(visible) => VisibilityKeepsCover(s, visible);
    case _ => DropKeepsCover(s, Do(s, step));
  }

  lemma {:induction false} RunKeepsCover(s: System, steps: seq<Step>)
    requires NoGapInv(s) && Valid(s, steps)
    ensures NoGapInv(Run(s, steps))
    decreases |steps|
  {
    hide OrderInv, Do, Enabled, UniqueIds, JobOk, Covered, Owed;
    if steps != [] {
      StepKeepsCover(s, steps[0]);
      RunKeepsCover(Do(s, steps[0]), steps[1..]);
    }
  }

  lemma InitNoGap(s: System)
    requires Init(s)
    ensures NoGapInv(s)
  {
    hide OrderInv;
    InitOrder(s);
  }

  /** Steps taken one after the other are one run, and a run's part is a run. */
  lemma {:induction false} RunSplits(s: System, steps: seq<Step>, n: nat)
    requires UniqueIds(s.store) && Valid(s, steps) && n < |steps|
    ensures Valid(s, steps[..n]) && Valid(s, steps[..n + 1])
    ensures var r := Run(s, steps[..n]);
            UniqueIds(r.store) && Enabled(r, steps[n]) && Run(s, steps[..n + 1]) == Do(r, steps[n])
    decreases n
  {
    hide UniqueIds, Do, Enabled;
    StoreChange(s, steps[0]);
    assert steps[..n + 1][0] == steps[0] && steps[..n + 1][1..] == steps[1..][..n];
    if n == 0 {
      assert steps[1..][..0] == [] && steps[..0] == [];
    } else {
      RunSplits(Do(s, steps[0]), steps[1..], n - 1);
      assert steps[..n][0] == steps[0] && steps[..n][1..] == steps[1..][..n - 1];
      assert steps[1..][n - 1] == steps[n];
    }
  }

  /** What the first `n` steps lead to. */
  ghost function After(s: System, steps: seq<Step>, n: nat): System
    requires UniqueIds(s.store) && Valid(s, steps) && n <= |steps|
  {
    if n < |steps| then (RunSplits(s, steps, n); Run(s, steps[..n])) else Run(s, steps)
  }

  /** The generation was opened by the k-th step, and the connection could read the id in every state since. */
  ghost predicate ReadableSince(s: System, steps: seq<Step>, k: nat, g: nat, conn: string, id: Id)
    requires UniqueIds(s.store) && Valid(s, steps) && k < |steps|
  {
    && steps[k].Open? && After(s, steps, k + 1).reg.nextGeneration == g
    && forall n | k < n <= |steps| :: (conn, id) in After(s, steps, n).visible
  }

  lemma SaveLeavesVisibility(s: System, step: Step)
    requires UniqueIds(s.store) && Enabled(s, step) && step.Save?
    ensures Do(s, step).steady == s.steady
  {
  }

  /** Opening records the pairs readable then; only a visibility change takes pairs out, and it takes out those that go. */
  lemma SteadyStep(s: System, step: Step, g: nat, pair: (string, Id))
    requires UniqueIds(s.store) && Enabled(s, step)
    ensures var s' := Do(s, step);
            && (step.Open? && s'.reg.nextGeneration == g ==> (pair in Steady(s', g) <==> pair in s'.visible))
            && (!(step.Open? && s'.reg.nextGeneration == g) ==>
                  (pair in Steady(s', g) <==> pair in Steady(s, g) && (step.SetVisible? ==> pair in s'.visible)))
  {
    if step.Open? {
      hide UniqueIds, OpenJob;
    } else if step.SetVisible? {
      hide UniqueIds;
    } else {
      hide UniqueIds, Do, Enabled;
      if !step.Save? {
        OthersLeaveAlone(s, step);
      } else {
        SaveLeavesVisibility(s, step);
      }
    }
  }

  lemma {:induction false} ReadableIsSteady(s: System, steps: seq<Step>, k: nat, n: nat, g: nat, conn: string, id: Id)
    requires UniqueIds(s.store) && Valid(s, steps) && k < n <= |steps| && ReadableSince(s, steps, k, g, conn, id)
    ensures (conn, id) in Steady(After(s, steps, n), g)
    decreases n
  {
    hide UniqueIds, Do, Enabled, Run, Valid;
    AfterOne(s, steps, n - 1);
    var before := After(s, steps, n - 1);
    SteadyStep(before, steps[n - 1], g, (conn, id));
    assert (conn, id) in After(s, steps, n).visible;
    if n - 1 > k {
      ReadableIsSteady(s, steps, k, n - 1, g, conn, id);
    }
  }

  lemma AfterOne(s: System, steps: seq<Step>, n: nat)
    requires UniqueIds(s.store) && Valid(s, steps) && n < |steps|
    ensures var r := After(s, steps, n); UniqueIds(r.store) && Enabled(r, steps[n]) && After(s, steps, n + 1) == Do(r, steps[n])
  {
    hide UniqueIds, Do, Enabled;
    RunSplits(s, steps, n);
    assert steps[..|steps|] == steps;
  }

  /**
   * Once a generation's snapshot is complete, every stored event that one of its unlimited filters matches, and that
   * its connection could read ever since the generation was opened, has been handed to the connection, unless its own
   * broadcast is still under way. Nothing is assumed about the schedule, about deletions, about what else became
   * readable or unreadable, or about how often an event was saved.
   */
  lemma NoGap(s: System, steps: seq<Step>, k: nat, key: Key, ev: Event)
    requires Init(s) && Valid(s, steps) && k < |steps|
    requires var r := Run(s, steps);
             && key in r.reg.subs && r.reg.subs[key].snapshotDone
             && ReadableSince(s, steps, k, r.reg.subs[key].generation, key.conn, ev.id)
             && ev in r.store && Wanted(r.reg.subs[key].filters, r.defaultLimit, ev)
             && ev !in r.unpublished
             && Delivery(ev, key, r.reg.subs[key].generation) !in r.matched
             && Delivery(ev, key, r.reg.subs[key].generation) !in r.inflight
    ensures var r := Run(s, steps);
            var log := Log(r, r.reg.subs[key].generation);
            Attempted(log, ev.id) && ((forall i | 0 <= i < |log| :: log[i].sent) ==> Enqueued(log, ev.id))
  {
    hide Do, Enabled, Wanted, JobHas, LogsOk, Bounded, OneOwner, KeyOk, JobOk, UniqueIds, ReadableSince;
    InitNoGap(s);
    RunKeepsCover(s, steps);
    var r := Run(s, steps);
    ReadableIsSteady(s, steps, k, |steps|, r.reg.subs[key].generation, key.conn, ev.id);
    assert Owed(r, key, ev) && Covered(r, key, ev);
    DoneHasNoJob(r, key);
  }
}
