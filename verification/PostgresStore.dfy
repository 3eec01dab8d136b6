/**
 * PostgreSQL runs `SaveEvent` and `DeleteEvent` transactions side by side. A save on a replaceable slot first takes
 * the slot's advisory lock, held to its end; each later statement sees what is committed by then (the READ COMMITTED
 * default) and its own writes. An insert waits while another open transaction has inserted or deleted a row of its id;
 * one that its slot's rows rule out never reaches the primary key. A delete, which takes no advisory lock, waits while
 * another open transaction has deleted a row it would delete.
 */
module PostgresStore {
  import opened EventStore
  import opened Nostr
  import opened Order
  import opened Tables
  import opened Wrappers

  datatype Phase = Begun | Locked | Cleared | Inserted

  /** `deleted` holds the rows this transaction's DELETE removed. */
  datatype Tx = Tx(ev: Event, phase: Phase, deleted: set<Event>)

  /** An open `DeleteEvent` and the rows it has deleted. */
  datatype Removal = Removal(id: Id, rows: set<Event>)

  /** A save that committed or was refused, or a removal that committed. */
  datatype Entry = Saved(ev: Event) | Removed(id: Id)

  /** `log` lists what has ended, in that order. */
  datatype State = State(committed: set<Event>, txs: map<nat, Tx>, removals: map<nat, Removal>, log: seq<Entry>)

  datatype Step =
    | Begin(t: nat, ev: Event)
    | Lock(t: nat)
    | Delete(t: nat)
    | Insert(t: nat)
    | Commit(t: nat)
    | Abort(t: nat)
    | Remove(r: nat, id: Id)
    | CommitRemoval(r: nat)
    | AbortRemoval(r: nat)

  /** The advisory lock is taken on a hash: different slots may share a lock, equal slots always do. */
  type SlotHash = Slot -> int

  predicate Holds(tx: Tx) {
    Replaces(tx.ev) && tx.phase != Begun
  }

  predicate LockFree(s: State, hash: SlotHash, t: nat)
    requires t in s.txs
  {
    forall u | u in s.txs && u != t && Holds(s.txs[u]) :: hash(SlotOf(s.txs[u].ev)) != hash(SlotOf(s.txs[t].ev))
  }

  /** Nobody else has inserted this id without ending yet. */
  predicate KeyFree(s: State, t: nat)
    requires t in s.txs
  {
    forall u | u in s.txs && u != t && s.txs[u].phase == Inserted :: s.txs[u].ev.id != s.txs[t].ev.id
  }

  /** Nobody else has deleted a row with this id without ending yet. */
  predicate RowSettled(s: State, t: nat)
    requires t in s.txs
  {
    && (forall u, e | u in s.txs && u != t && e in s.txs[u].deleted :: e.id != s.txs[t].ev.id)
    && (forall r | r in s.removals :: s.removals[r].id != s.txs[t].ev.id)
  }

  /** No open save or removal has deleted one of the rows. */
  predicate Unlocked(s: State, rows: set<Event>) {
    (forall t | t in s.txs :: s.txs[t].deleted !! rows) && (forall r | r in s.removals :: s.removals[r].rows !! rows)
  }

  function RowsOfId(s: set<Event>, id: Id): set<Event> {
    set e | e in s && e.id == id
  }

  /** The slot still holds a row, as the conditional insert sees it. */
  predicate Stale(s: State, t: nat)
    requires t in s.txs
  {
    Replaces(s.txs[t].ev) && Occupied(s.committed - s.txs[t].deleted, SlotOf(s.txs[t].ev))
  }

  predicate Enabled(s: State, hash: SlotHash, step: Step) {
    match step
    case Begin(t, ev) => t !in s.txs && !IsEphemeral(ev)
    case Lock(t) => t in s.txs && s.txs[t].phase == Begun && Replaces(s.txs[t].ev) && LockFree(s, hash, t)
    case Delete(t) => t in s.txs && s.txs[t].phase == Locked && Unlocked(s, Superseded(s.committed, s.txs[t].ev))
    case Insert(t) =>
      && t in s.txs && s.txs[t].phase == (if Replaces(s.txs[t].ev) then Cleared else Begun)
      && (Stale(s, t) || (KeyFree(s, t) && RowSettled(s, t)))
    case Commit(t) => t in s.txs && s.txs[t].phase == Inserted
    case Abort(t) => t in s.txs
    case Remove(r, id) => r !in s.removals && Unlocked(s, RowsOfId(s.committed, id))
    case CommitRemoval(r) => r in s.removals
    case AbortRemoval(r) => r in s.removals
  }

  function Advance(s: State, t: nat, tx: Tx): State {
    s.(txs := s.txs[t := tx])
  }

  /** The transaction is over: its event joins the log. */
  function End(s: State, t: nat, committed: set<Event>): State
    requires t in s.txs
  {
    s.(committed := committed, txs := s.txs - {t}, log := s.log + [Saved(s.txs[t].ev)])
  }

  function Do(s: State, hash: SlotHash, step: Step): State
    requires Enabled(s, hash, step)
  {
    match step
    case Begin(t, ev) => Advance(s, t, Tx(ev, Begun, {}))
    case Lock(t) => Advance(s, t, s.txs[t].(phase := Locked))
    case Delete(t) => Advance(s, t, s.txs[t].(phase := Cleared, deleted := Superseded(s.committed, s.txs[t].ev)))
    case Insert(t) =>
      var tx := s.txs[t];
      if Stale(s, t) || (exists e | e in s.committed - tx.deleted :: e.id == tx.ev.id)
      then End(s, t, s.committed)
      else Advance(s, t, tx.(phase := Inserted))
    case Commit(t) => End(s, t, s.committed - s.txs[t].deleted + {s.txs[t].ev})
    case Abort(t) => s.(txs := s.txs - {t})
    case Remove(r, id) =>
      var rows := RowsOfId(s.committed, id);
      if rows == {} then s.(log := s.log + [Removed(id)]) else s.(removals := s.removals[r := Removal(id, rows)])
    case CommitRemoval(r) =>
      var removal := s.removals[r];
      s.(committed := s.committed - removal.rows, removals := s.removals - {r}, log := s.log + [Removed(removal.id)])
    case AbortRemoval(r) => s.(removals := s.removals - {r})
  }

  // ------------------------------------------------------------------ invariant

  /** What a transaction found is still true of the committed rows. */
  predicate TxOk(committed: set<Event>, tx: Tx) {
    && !IsEphemeral(tx.ev)
    && (Holds(tx) && tx.phase != Locked ==> tx.deleted == Superseded(committed, tx.ev))
    && (!Replaces(tx.ev) || tx.phase in {Begun, Locked} ==> tx.deleted == {})
    && (tx.phase == Inserted ==>
          && (Replaces(tx.ev) ==> !Occupied(committed - tx.deleted, SlotOf(tx.ev)))
          && forall e | e in committed - tx.deleted :: e.id != tx.ev.id)
    && (!Replaces(tx.ev) ==> tx.phase in {Begun, Inserted})
  }

  /** One entry of the log, done on its own. */
  function Applied(s: set<Event>, entry: Entry): set<Event> {
    match entry
    case Saved(ev) => After(s, ev)
    case Removed(id) => s - RowsOfId(s, id)
  }

  function Replay(s: set<Event>, log: seq<Entry>): set<Event>
    decreases |log|
  {
    if log == [] then s else Applied(Replay(s, log[..|log| - 1]), log[|log| - 1])
  }

  /** A removal still holds every row of its id, and no save is about to add one. */
  ghost predicate RemovalOk(s: State, r: nat)
    requires r in s.removals
  {
    var removal := s.removals[r];
    && removal.rows == RowsOfId(s.committed, removal.id) != {}
    && (forall t | t in s.txs :: s.txs[t].deleted !! removal.rows && (s.txs[t].phase == Inserted ==> s.txs[t].ev.id != removal.id))
    && (forall q | q in s.removals && q != r :: s.removals[q].id != removal.id)
  }

  ghost predicate Inv(s: State, hash: SlotHash, start: set<Event>) {
    && s.committed == Replay(start, s.log)
    && (forall t | t in s.txs :: TxOk(s.committed, s.txs[t]))
    && (forall t | t in s.txs && Holds(s.txs[t]) :: LockFree(s, hash, t))
    && (forall t | t in s.txs && s.txs[t].phase == Inserted :: KeyFree(s, t))
    && (forall r | r in s.removals :: RemovalOk(s, r))
  }

  /** Rows of another slot come and go without a transaction noticing. */
  lemma OtherSlotUnseen(committed: set<Event>, mine: Tx, other: Tx)
    requires TxOk(committed, mine) && TxOk(committed, other) && other.phase == Inserted
    requires Replaces(mine.ev) && Holds(mine) ==> SlotOf(mine.ev) != SlotOf(other.ev)
    requires mine.phase == Inserted ==> mine.ev.id != other.ev.id
    ensures TxOk(committed - other.deleted + {other.ev}, mine)
  {
    hide SlotOf, Newer, IsEphemeral;
    var after := committed - other.deleted + {other.ev};
    assert forall e | e in other.deleted :: SlotOf(e) == SlotOf(other.ev);
    if Replaces(mine.ev) && Holds(mine) {
      assert Superseded(after, mine.ev) == Superseded(committed, mine.ev);
    }
  }

  lemma SlotsDiffer(s: State, hash: SlotHash, t: nat, u: nat)
    requires t in s.txs && u in s.txs && t != u && Holds(s.txs[u]) && s.txs[t].phase == Inserted
    requires LockFree(s, hash, u) && TxOk(s.committed, s.txs[t])
    ensures SlotOf(s.txs[u].ev) != SlotOf(s.txs[t].ev)
  {
    hide ExtractDTag;
  }

  /** A commit does to the rows exactly what a serial save would do now. */
  lemma CommitIsSave(committed: set<Event>, tx: Tx)
    requires TxOk(committed, tx) && tx.phase == Inserted
    ensures After(committed, tx.ev) == committed - tx.deleted + {tx.ev}
    ensures Save(committed, tx.ev).Ok?
  {
    hide SlotOf, Newer, IsEphemeral;
    if !Replaces(tx.ev) {
      NothingSuperseded(committed, tx.ev);
    }
  }

  lemma RefusalIsSave(committed: set<Event>, tx: Tx)
    requires TxOk(committed, tx) && (if Replaces(tx.ev) then tx.phase == Cleared else tx.phase == Begun)
    requires (Replaces(tx.ev) && Occupied(committed - tx.deleted, SlotOf(tx.ev)))
             || exists e | e in committed - tx.deleted :: e.id == tx.ev.id
    ensures After(committed, tx.ev) == committed
    ensures Save(committed, tx.ev).Err?
  {
    hide SlotOf, Newer, IsEphemeral;
    if !Replaces(tx.ev) {
      NothingSuperseded(committed, tx.ev);
    }
  }

  lemma LogGrows(start: set<Event>, log: seq<Entry>, entry: Entry)
    ensures Replay(start, log + [entry]) == Applied(Replay(start, log), entry)
  {
    assert (log + [entry])[..|log + [entry]| - 1] == log;
  }

  /** Rows of an id that a transaction has not deleted go without it noticing. */
  lemma RemovalUnseen(committed: set<Event>, tx: Tx, rows: set<Event>)
    requires TxOk(committed, tx) && tx.deleted !! rows
    ensures TxOk(committed - rows, tx)
  {
    hide SlotOf, Newer, IsEphemeral;
    if Holds(tx) && tx.phase != Locked {
      assert Superseded(committed - rows, tx.ev) == Superseded(committed, tx.ev);
    }
  }

  lemma CommitKeeps(s: State, hash: SlotHash, start: set<Event>, t: nat)
    requires Inv(s, hash, start) && Enabled(s, hash, Commit(t))
    ensures Inv(Do(s, hash, Commit(t)), hash, start)
  {
    hide Replay, After, TxOk, Superseded, SlotOf, Replaces;
    var s' := Do(s, hash, Commit(t));
    assert TxOk(s.committed, s.txs[t]);
    CommitIsSave(s.committed, s.txs[t]);
    LogGrows(start, s.log, Saved(s.txs[t].ev));
    forall u | u in s'.txs ensures TxOk(s'.committed, s'.txs[u]) {
      assert TxOk(s.committed, s.txs[u]) && KeyFree(s, t);
      if Holds(s.txs[u]) {
        SlotsDiffer(s, hash, t, u);
      }
      OtherSlotUnseen(s.committed, s.txs[u], s.txs[t]);
    }
    forall r | r in s'.removals ensures RemovalOk(s', r) {
      assert RemovalOk(s, r);
      OtherIdsAside(s.committed, s.txs[t].deleted, s.txs[t].ev, s.removals[r]);
    }
  }

  lemma OtherIdsAside(committed: set<Event>, deleted: set<Event>, ev: Event, removal: Removal)
    requires removal.rows == RowsOfId(committed, removal.id) && deleted !! removal.rows && ev.id != removal.id
    ensures RowsOfId(committed - deleted + {ev}, removal.id) == removal.rows
  {
  }

  /** A save that has deleted nothing more, and is not about to add a row of the removed id, leaves a removal alone. */
  predicate LeavesAlone(removal: Removal, tx: Tx) {
    tx.deleted !! removal.rows && (tx.phase == Inserted ==> tx.ev.id != removal.id)
  }

  lemma RemovalsStay(s: State, s': State)
    requires s'.committed == s.committed && s'.removals.Keys <= s.removals.Keys
    requires forall r | r in s'.removals :: s'.removals[r] == s.removals[r] && RemovalOk(s, r)
    requires forall r, t | r in s'.removals && t in s'.txs && !(t in s.txs && s'.txs[t] == s.txs[t]) ::
               LeavesAlone(s.removals[r], s'.txs[t])
    ensures forall r | r in s'.removals :: RemovalOk(s', r)
  {
    forall r | r in s'.removals ensures RemovalOk(s', r) {
      assert RemovalOk(s, r);
      forall t | t in s'.txs ensures LeavesAlone(s'.removals[r], s'.txs[t]) {
      }
    }
  }

  lemma RemovalKeepsApart(s: State, r: nat, t: nat)
    requires r in s.removals && t in s.txs && RemovalOk(s, r)
    ensures s.txs[t].deleted !! s.removals[r].rows
  {
  }

  lemma DeleteKeeps(s: State, hash: SlotHash, start: set<Event>, t: nat)
    requires Inv(s, hash, start) && Enabled(s, hash, Delete(t))
    ensures Inv(Do(s, hash, Delete(t)), hash, start)
  {
    hide Replay, Superseded, SlotOf, Replaces, IsEphemeral, Occupied, RemovalOk, RowsOfId;
    RemovalsStay(s, Do(s, hash, Delete(t)));
  }

  lemma RemoveKeeps(s: State, hash: SlotHash, start: set<Event>, r: nat, id: Id)
    requires Inv(s, hash, start) && Enabled(s, hash, Remove(r, id))
    ensures Inv(Do(s, hash, Remove(r, id)), hash, start)
  {
    hide Replay, Superseded, SlotOf, Replaces, IsEphemeral, Occupied;
    var s', rows := Do(s, hash, Remove(r, id)), RowsOfId(s.committed, id);
    if rows == {} {
      LogGrows(start, s.log, Removed(id));
      assert s.committed - RowsOfId(s.committed, id) == s.committed;
      forall q | q in s'.removals ensures RemovalOk(s', q) {
        assert RemovalOk(s, q);
      }
    } else {
      var row :| row in rows;
      forall t | t in s.txs ensures s.txs[t].deleted !! rows && (s.txs[t].phase == Inserted ==> s.txs[t].ev.id != id) {
        assert TxOk(s.committed, s.txs[t]) && row in s.committed - s.txs[t].deleted;
      }
      forall q | q in s.removals ensures RemovalOk(s, q) && s.removals[q].id != id {
        assert s.removals[q].rows !! rows;
        assert row in rows && row !in s.removals[q].rows;
      }
    }
  }

  lemma CommitRemovalKeeps(s: State, hash: SlotHash, start: set<Event>, r: nat)
    requires Inv(s, hash, start) && Enabled(s, hash, CommitRemoval(r))
    ensures Inv(Do(s, hash, CommitRemoval(r)), hash, start)
  {
    hide Replay, Superseded, SlotOf, Replaces, IsEphemeral, Occupied, TxOk;
    var s', removal := Do(s, hash, CommitRemoval(r)), s.removals[r];
    assert RemovalOk(s, r);
    LogGrows(start, s.log, Removed(removal.id));
    forall t | t in s'.txs ensures TxOk(s'.committed, s'.txs[t]) {
      RemovalUnseen(s.committed, s.txs[t], removal.rows);
    }
    forall q | q in s'.removals ensures RemovalOk(s', q) {
      assert RemovalOk(s, q) && s.removals[q].id != removal.id;
      assert RowsOfId(s.committed - removal.rows, s.removals[q].id) == s.removals[q].rows;
    }
  }

  lemma InsertKeeps(s: State, hash: SlotHash, start: set<Event>, t: nat)
    requires Inv(s, hash, start) && Enabled(s, hash, Insert(t))
    ensures Inv(Do(s, hash, Insert(t)), hash, start)
  {
    hide Replay, After, Superseded, SlotOf, Replaces, IsEphemeral, Newer, RemovalOk, RowsOfId, Occupied;
    var s', tx := Do(s, hash, Insert(t)), s.txs[t];
    assert TxOk(s.committed, tx);
    if t !in s'.txs {
      RefusalIsSave(s.committed, tx);
      LogGrows(start, s.log, Saved(tx.ev));
    }
    forall r | r in s.removals ensures s.txs[t].deleted !! s.removals[r].rows {
      RemovalKeepsApart(s, r, t);
    }
    RemovalsStay(s, s');
  }

  lemma StepKeeps(s: State, hash: SlotHash, start: set<Event>, step: Step)
    requires Inv(s, hash, start) && Enabled(s, hash, step)
    ensures Inv(Do(s, hash, step), hash, start)
  {
    match step
    case Commit(t) => CommitKeeps(s, hash, start, t);
    case Insert(t) => InsertKeeps(s, hash, start, t);
    case Delete(t) => DeleteKeeps(s, hash, start, t);
    case Remove(r, id) => RemoveKeeps(s, hash, start, r, id);
    case CommitRemoval(r) => CommitRemovalKeeps(s, hash, start, r);
    case _ => QuietStepKeeps(s, hash, start, step);
  }

  lemma QuietStepKeeps(s: State, hash: SlotHash, start: set<Event>, step: Step)
    requires Inv(s, hash, start) && Enabled(s, hash, step)
    requires step.Begin? || step.Lock? || step.Abort? || step.AbortRemoval?
    ensures Inv(Do(s, hash, step), hash, start)
  {
    hide Replay, Superseded, SlotOf, Replaces, IsEphemeral, Occupied, RemovalOk, RowsOfId;
    RemovalsStay(s, Do(s, hash, step));
  }

  ghost predicate Valid(s: State, hash: SlotHash, steps: seq<Step>)
    decreases |steps|
  {
    steps != [] ==> Enabled(s, hash, steps[0]) && Valid(Do(s, hash, steps[0]), hash, steps[1..])
  }

  ghost function Run(s: State, hash: SlotHash, steps: seq<Step>): State
    requires Valid(s, hash, steps)
    decreases |steps|
  {
    if steps == [] then s else Run(Do(s, hash, steps[0]), hash, steps[1..])
  }

  lemma {:induction false} RunKeeps(s: State, hash: SlotHash, start: set<Event>, steps: seq<Step>)
    requires Inv(s, hash, start) && Valid(s, hash, steps)
    ensures Inv(Run(s, hash, steps), hash, start)
    decreases |steps|
  {
    hide Inv, Enabled, Do;
    if steps != [] {
      StepKeeps(s, hash, start, steps[0]);
      RunKeeps(Do(s, hash, steps[0]), hash, start, steps[1..]);
    }
  }

  // ------------------------------------------------------------ what the log says

  /** The events whose save has ended. */
  function SavedIn(log: seq<Entry>): set<Event> {
    set i | 0 <= i < |log| && log[i].Saved? :: log[i].ev
  }

  /** The log up to its last removal, that included; nothing when there is none. */
  function UpToLastRemoval(log: seq<Entry>): seq<Entry>
    decreases |log|
  {
    if log == [] || log[|log| - 1].Removed? then log else UpToLastRemoval(log[..|log| - 1])
  }

  /** What was logged since. */
  function SinceLastRemoval(log: seq<Entry>): seq<Entry>
    decreases |log|
  {
    if log == [] || log[|log| - 1].Removed? then [] else SinceLastRemoval(log[..|log| - 1]) + [log[|log| - 1]]
  }

  lemma {:induction false} NoRemovals(log: seq<Entry>)
    requires forall i | 0 <= i < |log| :: log[i].Saved?
    ensures UpToLastRemoval(log) == [] && SinceLastRemoval(log) == log
    decreases |log|
  {
    if log != [] {
      NoRemovals(log[..|log| - 1]);
    }
  }

  lemma SavedGrows(log: seq<Entry>, entry: Entry)
    ensures SavedIn(log + [entry]) == SavedIn(log) + (if entry.Saved? then {entry.ev} else {})
  {
    var all := log + [entry];
    assert all[|log|] == entry && forall i | 0 <= i < |log| :: all[i] == log[i];
    forall e | e in SavedIn(log) ensures e in SavedIn(all) {
      var i :| 0 <= i < |log| && log[i].Saved? && log[i].ev == e;
      assert all[i].Saved?;
    }
    forall e | e in SavedIn(all) ensures e in SavedIn(log) + (if entry.Saved? then {entry.ev} else {}) {
      var i :| 0 <= i < |all| && all[i].Saved? && all[i].ev == e;
      assert i < |log| ==> log[i].Saved?;
    }
  }

  /** A replayed log leaves the join of what its last removal left and everything saved since. */
  lemma {:induction false} ReplayJoins(start: set<Event>, log: seq<Entry>)
    requires start == Join(start) && UniqueIds(start + SavedIn(log))
    ensures var left, since, r := Replay(start, UpToLastRemoval(log)), SavedIn(SinceLastRemoval(log)), Replay(start, log);
            && r == Join(r) == Join(left + since)
            && r <= start + SavedIn(log) && left <= start + SavedIn(log) && since <= SavedIn(log)
    decreases |log|
  {
    hide UniqueIds, Join, After, SavedIn;
    NothingSaved();
    if log == [] {
      assert start + {} == start;
    } else {
      var n := |log| - 1;
      var before, entry := Replay(start, log[..n]), log[n];
      assert log == log[..n] + [entry];
      SavedGrows(log[..n], entry);
      UniqueSubset(start + SavedIn(log), start + SavedIn(log[..n]));
      ReplayJoins(start, log[..n]);
      if entry.Removed? {
        PartIsJoined(before, Replay(start, log));
        assert Replay(start, log) + {} == Replay(start, log);
      } else {
        var left, since := Replay(start, UpToLastRemoval(log)), SinceLastRemoval(log[..n]);
        SavedGrows(since, entry);
        SaveExtends(start + SavedIn(log), left + SavedIn(since), before, entry.ev);
        assert left + SavedIn(since) + {entry.ev} == left + SavedIn(SinceLastRemoval(log));
      }
    }
  }

  lemma NothingSaved()
    ensures SavedIn([]) == {}
  {
  }

  lemma SaveExtends(all: set<Event>, offered: set<Event>, before: set<Event>, ev: Event)
    requires UniqueIds(all) && offered <= all && ev in all && before == Join(offered) && before == Join(before)
    ensures After(before, ev) == Join(offered + {ev}) == Join(After(before, ev)) && After(before, ev) <= before + {ev}
  {
    hide UniqueIds, Join, After;
    JoinIsSubset(offered);
    UniqueSubset(all, before + {ev});
    UniqueSubset(all, offered + {ev});
    SaveIsJoin(before, ev);
    JoinAbsorbs(offered, {ev});
    JoinIsStable(offered + {ev});
    JoinIsSubset(before + {ev});
  }

  /**
   * Every interleaving is serializable: the committed rows are what doing the logged saves and removals one after the
   * other would leave. So from a joined store, they are the join of what the last removal left and everything saved
   * since: of everything ever saved, when nothing was removed.
   */
  lemma Interleavings(start: set<Event>, hash: SlotHash, steps: seq<Step>)
    requires Valid(State(start, map[], map[], []), hash, steps)
    ensures var r := Run(State(start, map[], map[], []), hash, steps);
            && r.committed == Replay(start, r.log)
            && (start == Join(start) && UniqueIds(start + SavedIn(r.log)) ==>
                  && r.committed == Join(Replay(start, UpToLastRemoval(r.log)) + SavedIn(SinceLastRemoval(r.log)))
                  && ((forall i | 0 <= i < |r.log| :: r.log[i].Saved?) ==> r.committed == Join(start + SavedIn(r.log))))
  {
    hide Join, UniqueIds, Do, Enabled, TxOk, SavedIn;
    RunKeeps(State(start, map[], map[], []), hash, start, steps);
    var r := Run(State(start, map[], map[], []), hash, steps);
    if start == Join(start) && UniqueIds(start + SavedIn(r.log)) {
      ReplayJoins(start, r.log);
      if forall i | 0 <= i < |r.log| :: r.log[i].Saved? {
        NoRemovals(r.log);
      }
    }
  }

  // ------------------------------------------------------------- no save is lost

  /** `ev` is what the transaction that step `i` commits was begun with, at step `j`. */
  ghost predicate BegunWith(steps: seq<Step>, j: nat, i: nat, t: nat, ev: Event)
    requires i < |steps|
  {
    j < i && steps[j] == Begin(t, ev) && steps[i] == Commit(t) && forall k, e | j < k < i :: steps[k] != Begin(t, e)
  }

  lemma {:induction false} LogStays(s: State, hash: SlotHash, steps: seq<Step>)
    requires Valid(s, hash, steps)
    ensures s.log <= Run(s, hash, steps).log
    decreases |steps|
  {
    hide Enabled, Stale, Superseded, Occupied, RowsOfId;
    if steps != [] {
      LogStays(Do(s, hash, steps[0]), hash, steps[1..]);
    }
  }

  /** A transaction keeps its event, and one that is over stays over until its number is begun again. */
  lemma TxMoves(s: State, hash: SlotHash, step: Step, t: nat)
    requires Enabled(s, hash, step) && forall ev :: step != Begin(t, ev)
    ensures var s' := Do(s, hash, step);
            && (t !in s.txs ==> t !in s'.txs)
            && (t in s.txs && t in s'.txs ==> s'.txs[t].ev == s.txs[t].ev)
            && (step == Commit(t) ==> t in s.txs && t !in s'.txs && s'.log == s.log + [Saved(s.txs[t].ev)])
  {
    hide Stale, Superseded, Occupied, RowsOfId, LockFree, KeyFree, RowSettled, Unlocked;
  }

  lemma {:induction false} OpenIsLogged(s: State, hash: SlotHash, steps: seq<Step>, i: nat, t: nat)
    requires Valid(s, hash, steps) && i < |steps| && steps[i] == Commit(t)
    requires forall k, ev | 0 <= k < i :: steps[k] != Begin(t, ev)
    ensures t in s.txs && Saved(s.txs[t].ev) in Run(s, hash, steps).log
    decreases i
  {
    hide Do, Enabled;
    var s' := Do(s, hash, steps[0]);
    TxMoves(s, hash, steps[0], t);
    if i == 0 {
      assert s'.log[|s.log|] == Saved(s.txs[t].ev);
      LogStays(s', hash, steps[1..]);
    } else {
      OpenIsLogged(s', hash, steps[1..], i - 1, t);
    }
  }

  /** Every save that committed is in the log with the event it was begun with, whatever ran beside it. */
  lemma {:induction false} CommittedIsLogged(s: State, hash: SlotHash, steps: seq<Step>, j: nat, i: nat, t: nat, ev: Event)
    requires Valid(s, hash, steps) && i < |steps| && BegunWith(steps, j, i, t, ev)
    ensures Saved(ev) in Run(s, hash, steps).log
    decreases j
  {
    hide Enabled;
    if j == 0 {
      OpenIsLogged(Do(s, hash, steps[0]), hash, steps[1..], i - 1, t);
    } else {
      CommittedIsLogged(Do(s, hash, steps[0]), hash, steps[1..], j - 1, i - 1, t, ev);
    }
  }

  /** The revision the conditional insert gives way to, or the row its primary key meets. */
  predicate Blocks(e: Event, ev: Event) {
    e.id == ev.id || (SlotOf(e) == SlotOf(ev) && !Newer(ev, e))
  }

  predicate HasId(s: set<Event>, id: Id) {
    exists e | e in s :: e.id == id
  }

  ghost predicate LoggedAs(s: State, s': State, step: Step) {
    match step
    case Commit(t) => t in s.txs && s'.log == s.log + [Saved(s.txs[t].ev)] && s.txs[t].ev in s'.committed && t !in s'.txs
    case Insert(t) =>
      && t in s.txs && s'.committed == s.committed
      && (if t in s'.txs then s'.log == s.log && s'.txs[t].phase == Inserted
          else s'.log == s.log + [Saved(s.txs[t].ev)] && exists e | e in s.committed :: Blocks(e, s.txs[t].ev))
    case CommitRemoval(r) =>
      && r in s.removals && r !in s'.removals && s'.log == s.log + [Removed(s.removals[r].id)]
      && s'.committed == set e | e in s.committed && e.id != s.removals[r].id
    case Remove(r, id) =>
      && s'.committed == s.committed
      && (if HasId(s.committed, id) then s'.log == s.log && r in s'.removals && s'.removals[r].id == id
          else s'.log == s.log + [Removed(id)])
    case _ => s'.log == s.log && s'.committed == s.committed
  }

  /**
   * In every run the log says what happened: a commit stores its event; an insert ends early only against a row of
   * its id or a revision in its slot that is no older; a removal takes all rows of its id and no other; nothing else
   * is logged or changes a row.
   */
  lemma OutcomesAreLogged(start: set<Event>, hash: SlotHash, steps: seq<Step>, step: Step)
    requires Valid(State(start, map[], map[], []), hash, steps)
    requires Enabled(Run(State(start, map[], map[], []), hash, steps), hash, step)
    ensures var r := Run(State(start, map[], map[], []), hash, steps);
            LoggedAs(r, Do(r, hash, step), step)
  {
    hide SlotOf, IsEphemeral, Newer, Run, Valid, RowSettled, KeyFree, LockFree, Unlocked;
    RunKeeps(State(start, map[], map[], []), hash, start, steps);
    var r := Run(State(start, map[], map[], []), hash, steps);
    match step
    case Insert(t) => assert TxOk(r.committed, r.txs[t]);
    case CommitRemoval(q) => assert RemovalOk(r, q);
    case Remove(q, id) =>
      if e :| e in r.committed && e.id == id {
        assert e in RowsOfId(r.committed, id);
      }
    case _ =>
  }
}
