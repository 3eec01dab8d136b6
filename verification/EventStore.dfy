/**
 * Saving events under NIP-01 replacement. One `SaveEvent` is one transaction over the two tables;
 * any sequence of saves leaves the join of what was saved: regular events, and per replaceable
 * slot the newest revision, the lowest id winning ties.
 */
module EventStore {
  import opened Nostr
  import opened Order
  import opened Tables
  import opened Wrappers

  datatype Slot = ById(id: Id) | ByKind(pubkey: string, kind: int) | ByAddress(pubkey: string, kind: int, d: string)

  datatype SaveError = Ephemeral | Stale | DuplicateId

  function SlotOf(e: Event): Slot {
    match ClassifyKind(e.kind)
    case KindReplaceable => ByKind(e.pubkey, e.kind)
    case KindAddressable => ByAddress(e.pubkey, e.kind, ExtractDTag(e.tags))
    case _ => ById(e.id)
  }

  predicate IsEphemeral(e: Event) {
    ClassifyKind(e.kind).KindEphemeral?
  }

  predicate Replaces(ev: Event) {
    ClassifyKind(ev.kind).KindReplaceable? || ClassifyKind(ev.kind).KindAddressable?
  }

  /** What the conditional DELETE removes before `ev` goes in. */
  function Superseded(s: set<Event>, ev: Event): set<Event> {
    set e | e in s && Replaces(ev) && SlotOf(e) == SlotOf(ev) && Newer(ev, e)
  }

  predicate Occupied(s: set<Event>, slot: Slot) {
    exists e | e in s :: SlotOf(e) == slot
  }

  function Save(s: set<Event>, ev: Event): Result<set<Event>, SaveError> {
    var kept := s - Superseded(s, ev);
    if IsEphemeral(ev) then Err(Ephemeral)
    else if Replaces(ev) && Occupied(kept, SlotOf(ev)) then Err(Stale)
    else if exists e | e in kept :: e.id == ev.id then Err(DuplicateId)
    else Ok(kept + {ev})
  }

  /** A failed save rolls its transaction back. */
  function After(s: set<Event>, ev: Event): set<Event> {
    if Save(s, ev).Ok? then Save(s, ev).value else s
  }

  // ----------------------------------------------------------------- the tables

  /** The columns the DELETE and the conditional INSERT compare. */
  predicate InSlot(row: EventRow, ev: Event) {
    row.pubkey == ev.pubkey && row.kind == ev.kind && (ClassifyKind(ev.kind).KindAddressable? ==> row.dTag == ExtractDTag(ev.tags))
  }

  predicate OlderRow(row: EventRow, ev: Event) {
    row.createdAt < ev.createdAt || (row.createdAt == ev.createdAt && row.id > ev.id)
  }

  lemma ColumnsAreSlots(e: Event, ev: Event)
    requires Replaces(ev)
    ensures InSlot(RowOf(e), ev) <==> SlotOf(e) == SlotOf(ev)
    ensures OlderRow(RowOf(e), ev) <==> Newer(ev, e)
  {
    hide ExtractDTag;
  }

  lemma CascadeKeepsTables(s: set<Event>, doomed: set<Id>)
    requires UniqueIds(s)
    ensures var kept := set e | e in s && e.id !in doomed;
            && UniqueIds(kept)
            && RowTable(kept) == (map id | id in RowTable(s) && id !in doomed :: RowTable(s)[id])
            && TagTable(kept) == (set r | r in TagTable(s) && r.eventId !in doomed)
  {
    hide RowOf;
    var kept := set e | e in s && e.id !in doomed;
    forall r | r in TagTable(s) && r.eventId !in doomed ensures r in TagTable(kept) {
      var e, i :| e in s && 0 <= i < |e.tags| && r == SplitTag(e, i);
      assert e in kept;
    }
  }

  lemma InsertKeepsTables(s: set<Event>, ev: Event)
    requires UniqueIds(s) && forall e | e in s :: e.id != ev.id
    ensures UniqueIds(s + {ev})
    ensures RowTable(s + {ev}) == RowTable(s)[ev.id := RowOf(ev)]
    ensures TagTable(s + {ev}) == TagTable(s) + Elements(SplitTags(ev))
  {
    hide RowOf;
    TagTableGrows(s, ev);
    assert ev in s + {ev};
  }

  class Store {
    var events: map<Id, EventRow>
    var tags: set<TagRow>
    ghost var stored: set<Event>

    ghost predicate Valid()
      reads this
    {
      UniqueIds(stored) && events == RowTable(stored) && tags == TagTable(stored)
    }

    constructor ()
      ensures Valid() && stored == {}
    {
      events, tags, stored := map[], {}, {};
    }

    /** Deleting event rows cascades to their tag rows. */
    method DeleteRows(doomed: set<Id>)
      requires Valid()
      modifies this
      ensures Valid() && stored == set e | e in old(stored) && e.id !in doomed
    {
      CascadeKeepsTables(stored, doomed);
      events := map id | id in events && id !in doomed :: events[id];
      tags := set r | r in tags && r.eventId !in doomed;
      stored := set e | e in stored && e.id !in doomed;
    }

    method DeleteEvent(id: Id)
      requires Valid()
      modifies this
      ensures Valid() && stored == set e | e in old(stored) && e.id != id
    {
      DeleteRows({id});
    }

    method HasEventID(id: Id) returns (found: bool)
      requires Valid()
      ensures found <==> exists e | e in stored :: e.id == id
    {
      found := id in events;
    }

    method SaveEvent(ev: Event) returns (r: Result<(), SaveError>)
      requires Valid()
      modifies this
      ensures Valid() && stored == After(old(stored), ev)
      ensures match Save(old(stored), ev) case Ok(_) => r == Ok(()) case Err(e) => r == Err(e)
    {
      hide UniqueIds, RowTable, TagTable, SlotOf, Newer, Replaces, InSlot, OlderRow, IsEphemeral, Superseded, Occupied;
      if IsEphemeral(ev) {
        return Err(Ephemeral);
      }
      ghost var was := stored;
      var events0, tags0 := events, tags;
      if Replaces(ev) {
        DeleteOlder(ev);
        var taken := SlotTaken(ev);
        if taken {
          events, tags, stored := events0, tags0, was;
          return Err(Stale);
        }
      } else {
        NothingSuperseded(was, ev);
      }
      RowsHoldEvents(stored);
      if ev.id in events {
        events, tags, stored := events0, tags0, was;
        return Err(DuplicateId);
      }
      InsertKeepsTables(stored, ev);
      events := events[ev.id := RowOf(ev)];
      tags := tags + TagRows(ev);
      stored := stored + {ev};
      return Ok(());
    }

    /** The DELETE of a slot's older revisions. */
    method DeleteOlder(ev: Event)
      requires Valid() && Replaces(ev)
      modifies this
      ensures Valid() && stored == old(stored) - Superseded(old(stored), ev)
    {
      hide UniqueIds, RowTable, TagTable, SlotOf, Newer, InSlot, OlderRow;
      var doomed := set id | id in events && InSlot(events[id], ev) && OlderRow(events[id], ev);
      DoomedAreSuperseded(stored, ev, doomed);
      DeleteRows(doomed);
    }

    /** The NOT EXISTS of the conditional INSERT. */
    method SlotTaken(ev: Event) returns (taken: bool)
      requires Valid() && Replaces(ev)
      ensures taken == Occupied(stored, SlotOf(ev))
    {
      hide UniqueIds, RowTable, TagTable, SlotOf, InSlot;
      OccupiedRows(stored, ev);
      taken := exists id | id in events :: InSlot(events[id], ev);
    }

    static function TagRows(ev: Event): (rows: set<TagRow>)
      ensures rows == Elements(SplitTags(ev))
    {
      var split := SplitTags(ev);
      assert forall r | r in split :: exists i | 0 <= i < |split| :: r == split[i];
      set i | 0 <= i < |ev.tags| :: split[i]
    }

    /** A query by one id: the row joined with its tag rows, in position order. */
    method FindEvent(id: Id) returns (found: Option<Event>)
      requires Valid()
      ensures found.Some? <==> exists e | e in stored :: e.id == id
      ensures found.Some? ==> found.value in stored && found.value.id == id
    {
      hide GroupRows, RowsFor, RowOf, RowTable, TagTable, UniqueIds, Assemble, SplitTag, Sort, TotalOn, Strict, Sorted;
      RowsHoldEvents(stored);
      if id !in events {
        return None;
      }
      RowsRoundTrip(stored, {id});
      RowsAreOrdered(stored);
      PartOfTags(tags, {id});
      var rows := SortSet(RowsFor(tags, {id}), RowBefore);
      assert rows == SelectTags(TagTable(stored), {id});
      var grouped := GroupTagRows(rows);
      ghost var e :| e in stored && e.id == id;
      assert Assemble(RowOf(e), grouped.value) == e;
      return Some(Assemble(events[id], grouped.value));
    }

    method MigrationRowCounts() returns (eventRows: nat, tagRows: nat)
      requires Valid()
      ensures eventRows == |stored| && tagRows == |TagTable(stored)|
    {
      RowCount(stored);
      eventRows := |events|;
      tagRows := |set r | r in tags && r.eventId in events|;
      assert (set r | r in tags && r.eventId in events) == tags;
    }
  }

  lemma {:induction false} RowCount(s: set<Event>)
    requires UniqueIds(s)
    ensures |RowTable(s)| == |s|
    decreases |s|
  {
    hide RowOf, UniqueIds, TagTable;
    if s == {} {
      assert RowTable(s) == map[];
    } else {
      var e :| e in s;
      var rest := s - {e};
      OtherIds(s, e);
      RowCount(rest);
      InsertKeepsTables(rest, e);
      RowsHoldEvents(rest);
      assert rest + {e} == s;
      OneMoreRow(RowTable(rest), e.id, RowOf(e));
    }
  }

  lemma OtherIds(s: set<Event>, e: Event)
    requires UniqueIds(s) && e in s
    ensures UniqueIds(s - {e}) && forall d | d in s - {e} :: d.id != e.id
  {
  }

  lemma OneMoreRow(m: map<Id, EventRow>, id: Id, row: EventRow)
    requires id !in m
    ensures |m[id := row]| == |m| + 1
  {
    assert m[id := row].Keys == m.Keys + {id};
  }

  lemma RowsHoldEvents(s: set<Event>)
    requires UniqueIds(s)
    ensures forall id :: id in RowTable(s) <==> exists e | e in s :: e.id == id
    ensures forall e | e in s :: e.id in RowTable(s) && RowTable(s)[e.id] == RowOf(e)
  {
    hide RowOf;
  }

  lemma NothingSuperseded(s: set<Event>, ev: Event)
    requires !Replaces(ev)
    ensures s - Superseded(s, ev) == s
  {
  }

  lemma DoomedAreSuperseded(s: set<Event>, ev: Event, doomed: set<Id>)
    requires UniqueIds(s) && Replaces(ev)
    requires doomed == set id | id in RowTable(s) && InSlot(RowTable(s)[id], ev) && OlderRow(RowTable(s)[id], ev)
    ensures (set e | e in s && e.id !in doomed) == s - Superseded(s, ev)
  {
    hide RowOf, InSlot, OlderRow, SlotOf, Newer;
    RowsHoldEvents(s);
    forall e | e in s ensures e.id in doomed <==> e in Superseded(s, ev) {
      ColumnsAreSlots(e, ev);
    }
  }

  lemma OccupiedRows(s: set<Event>, ev: Event)
    requires UniqueIds(s) && Replaces(ev)
    ensures (exists id | id in RowTable(s) :: InSlot(RowTable(s)[id], ev)) <==> Occupied(s, SlotOf(ev))
  {
    hide RowOf, InSlot, SlotOf;
    RowsHoldEvents(s);
    forall e | e in s ensures InSlot(RowTable(s)[e.id], ev) <==> SlotOf(e) == SlotOf(ev) {
      ColumnsAreSlots(e, ev);
    }
  }

  // --------------------------------------------------------------- saving joins

  /** The fixed point of saving: no ephemeral event, and the best revision of every slot. */
  function Join(s: set<Event>): set<Event> {
    set e | e in s && !IsEphemeral(e) && Best(s, e)
  }

  predicate Best(s: set<Event>, e: Event) {
    forall d | d in s && SlotOf(d) == SlotOf(e) :: d == e || Newer(e, d)
  }

  /** Every slot that holds an event has exactly one best revision. */
  lemma OneBestPerSlot(s: set<Event>, e: Event) returns (best: Event)
    requires UniqueIds(s) && e in s
    ensures best in s && SlotOf(best) == SlotOf(e) && Best(s, best) && (best == e || Newer(best, e))
    ensures forall d | d in s && SlotOf(d) == SlotOf(e) && Best(s, d) :: d == best
  {
    hide SlotOf;
    var rivals := set d | d in s && SlotOf(d) == SlotOf(e);
    NewerIsTotal(rivals);
    assert e in rivals;
    LeastExists(rivals, Newer);
    best :| IsLeast(best, rivals, Newer);
  }

  lemma SlotTellsEphemeral(a: Event, b: Event)
    requires SlotOf(a) == SlotOf(b) && UniqueIds({a, b})
    ensures IsEphemeral(a) == IsEphemeral(b)
    ensures Replaces(a) == Replaces(b)
  {
    hide ExtractDTag;
    assert a in {a, b} && b in {a, b};
  }

  lemma SaveElsewhere(s: set<Event>, ev: Event)
    requires UniqueIds(s + {ev}) && s == Join(s) && !Replaces(ev)
    ensures After(s, ev) == Join(s + {ev})
    ensures Save(s, ev).Ok? <==> ev !in s && ev in Join(s + {ev})
  {
    hide SlotOf, Newer, IsEphemeral, Replaces, UniqueIds;
    NewerOnSlots(s, ev);
    assert forall e | e in s :: Best(s, e) && !IsEphemeral(e);
    assert ev in s ==> s + {ev} == s;
    assert Superseded(s, ev) == {};
    assert Best(s + {ev}, ev);
    assert forall e | e in s :: Best(s + {ev}, e) || IsEphemeral(ev);
  }

  lemma SaveInSlot(s: set<Event>, ev: Event)
    requires UniqueIds(s + {ev}) && s == Join(s) && Replaces(ev) && !IsEphemeral(ev)
    ensures After(s, ev) == Join(s + {ev})
    ensures Save(s, ev).Ok? <==> ev !in s && ev in Join(s + {ev})
  {
    hide SlotOf, Newer, IsEphemeral, Replaces, UniqueIds;
    NewerOnSlots(s, ev);
    var kept, all := s - Superseded(s, ev), s + {ev};
    assert forall e | e in s :: Best(s, e) && !IsEphemeral(e);
    if Occupied(kept, SlotOf(ev)) {
      var w :| w in kept && SlotOf(w) == SlotOf(ev);
      assert Best(s, w) && !Newer(ev, w);
      assert ev in s ==> all == s;
      assert forall e | e in s && SlotOf(e) == SlotOf(ev) :: e == w || (Newer(w, e) && Newer(e, w));
      NotBoth(s, w);
      assert forall e | e in s :: Best(all, e);
      assert ev !in s ==> !Best(all, ev);
    } else {
      assert ev !in s;
      assert forall e | e in kept :: SlotOf(e) != SlotOf(ev) && Best(all, e);
      assert forall e | e in Superseded(s, ev) :: !Best(all, e);
      assert Best(all, ev);
    }
  }

  lemma NotBoth(s: set<Event>, w: Event)
    ensures forall e | e in s :: !(Newer(w, e) && Newer(e, w))
  {
  }

  /** One save moves a joined store to the join with the new event, and succeeds exactly when that adds it. */
  lemma SaveIsJoin(s: set<Event>, ev: Event)
    requires UniqueIds(s + {ev}) && s == Join(s)
    ensures After(s, ev) == Join(s + {ev})
    ensures Save(s, ev).Ok? <==> ev !in s && ev in Join(s + {ev})
  {
    hide UniqueIds, Join, Save, After;
    if Replaces(ev) {
      SaveInSlot(s, ev);
    } else {
      SaveElsewhere(s, ev);
    }
  }

  /** A save is refused for its kind, for a revision at least as good, or for being stored already. */
  lemma WhyRefused(s: set<Event>, ev: Event)
    requires UniqueIds(s + {ev})
    ensures Save(s, ev) == Err(Ephemeral) <==> IsEphemeral(ev)
    ensures Save(s, ev) == Err(Stale) <==>
            Replaces(ev) && exists e | e in s :: SlotOf(e) == SlotOf(ev) && (e == ev || Newer(e, ev))
    ensures Save(s, ev) == Err(DuplicateId) <==> !IsEphemeral(ev) && !Replaces(ev) && ev in s
  {
    hide SlotOf, Newer, UniqueIds;
    NewerOnSlots(s, ev);
    assert forall e | e in s && e !in Superseded(s, ev) && Replaces(ev) && SlotOf(e) == SlotOf(ev) :: e == ev || Newer(e, ev);
    NotBoth(s, ev);
    assert forall e | e in s - Superseded(s, ev) && e.id == ev.id && Replaces(ev) :: e == ev;
    assert !Replaces(ev) ==> Superseded(s, ev) == {};
    if Replaces(ev) && exists e | e in s :: SlotOf(e) == SlotOf(ev) && (e == ev || Newer(e, ev)) {
      var e :| e in s && SlotOf(e) == SlotOf(ev) && (e == ev || Newer(e, ev));
      assert e in s - Superseded(s, ev);
    }
  }

  lemma NewerOnSlots(s: set<Event>, ev: Event)
    requires UniqueIds(s + {ev})
    ensures forall e | e in s && e != ev :: Newer(e, ev) != Newer(ev, e)
    ensures !Newer(ev, ev)
    ensures forall e | e in s && SlotOf(e) == SlotOf(ev) :: IsEphemeral(e) == IsEphemeral(ev) && Replaces(e) == Replaces(ev)
    ensures forall e | e in s && SlotOf(e) == SlotOf(ev) && !Replaces(ev) :: e == ev
    ensures forall e | e in s && e.id == ev.id :: e == ev
  {
    hide ExtractDTag;
    assert forall e | e in s :: e in s + {ev} && ev in s + {ev};
  }

  /** Joining part of the input first changes nothing. */
  lemma JoinAbsorbs(a: set<Event>, b: set<Event>)
    requires UniqueIds(a + b)
    ensures Join(Join(a) + b) == Join(a + b)
  {
    hide SlotOf, IsEphemeral;
    forall e | e in a + b ensures e in Join(Join(a) + b) <==> e in Join(a + b) {
      if e in Join(Join(a) + b) {
        forall d | d in a + b && SlotOf(d) == SlotOf(e) ensures d == e || Newer(e, d) {
          if d in a {
            BestStands(a, b, e, d);
          }
        }
      }
    }
  }

  lemma BestStands(a: set<Event>, b: set<Event>, e: Event, d: Event)
    requires UniqueIds(a + b) && e in Join(Join(a) + b) && d in a && SlotOf(d) == SlotOf(e)
    ensures d == e || Newer(e, d)
  {
    hide SlotOf, IsEphemeral;
    assert forall x | x in a :: x in a + b;
    var best := OneBestPerSlot(a, d);
    assert e in a + b && best in a + b;
    assert UniqueIds({e, best});
    SlotTellsEphemeral(e, best);
    assert best in Join(a);
  }

  function SaveAll(s: set<Event>, evs: seq<Event>): set<Event>
    decreases |evs|
  {
    if evs == [] then s else After(SaveAll(s, evs[..|evs| - 1]), evs[|evs| - 1])
  }

  lemma UniqueSubset(s: set<Event>, t: set<Event>)
    requires UniqueIds(s) && t <= s
    ensures UniqueIds(t)
  {
  }

  lemma JoinIsStable(s: set<Event>)
    requires UniqueIds(s)
    ensures Join(Join(s)) == Join(s)
  {
    hide SlotOf, IsEphemeral, UniqueIds;
    assert s + {} == s && Join(s) + {} == Join(s);
    JoinAbsorbs(s, {});
  }

  /**
   * Whatever sequence of saves was made, with any order and any repetition, the store is the join of
   * everything that was ever offered to it.
   */
  lemma {:induction false} SavesJoin(s: set<Event>, evs: seq<Event>)
    requires s == Join(s) && UniqueIds(s + Elements(evs))
    ensures SaveAll(s, evs) == Join(s + Elements(evs))
    decreases |evs|
  {
    hide UniqueIds, Join, After;
    if evs == [] {
      assert s + Elements(evs) == s;
    } else {
      var n := |evs| - 1;
      var all, before := s + Elements(evs), s + Elements(evs[..n]);
      assert evs == evs[..n] + [evs[n]];
      assert all == before + {evs[n]};
      UniqueSubset(all, before);
      SavesJoin(s, evs[..n]);
      JoinIsStable(before);
      JoinIsSubset(before);
      UniqueSubset(all, Join(before) + {evs[n]});
      SaveIsJoin(Join(before), evs[n]);
      JoinAbsorbs(before, {evs[n]});
    }
  }

  /** Rows taken out of a joined store leave a joined store. */
  lemma PartIsJoined(s: set<Event>, part: set<Event>)
    requires s == Join(s) && part <= s
    ensures part == Join(part)
  {
    hide SlotOf, Newer, IsEphemeral;
    assert forall e | e in part :: e in Join(s);
  }

  lemma JoinIsSubset(s: set<Event>)
    ensures Join(s) <= s
  {
  }

  lemma OrderDoesNotMatter(s: set<Event>, xs: seq<Event>, ys: seq<Event>)
    requires s == Join(s) && UniqueIds(s + Elements(xs)) && Elements(xs) == Elements(ys)
    ensures SaveAll(s, xs) == SaveAll(s, ys)
  {
    hide Join, SaveAll, UniqueIds;
    SavesJoin(s, xs);
    SavesJoin(s, ys);
  }
}
