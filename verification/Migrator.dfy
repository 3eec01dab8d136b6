/**
 * Copying one store into another: a keyset scan of the source in pages, one save per row the destination
 * lacks, and a read-back of every accepted event.
 */
module Migrator {
  import opened EventStore
  import opened Nostr
  import opened Order
  import opened Tables
  import opened Wrappers

  const PAGE_ROWS: nat := 500

  datatype MigrateError = VerifyFailed | SaveFailed(error: SaveError) | TotalsDiffer

  datatype Summary = Summary(
    sourceEvents: nat, sourceTags: nat,
    destinationEvents: nat, destinationTags: nat,
    inserted: nat, skipped: nat, tagsAdded: nat)

  datatype Position = Position(createdAt: int, id: Id)

  // ------------------------------------------------------------ the keyset scan

  /** `ORDER BY created_at ASC, id ASC`. */
  predicate Earlier(a: Event, b: Event) {
    a.createdAt < b.createdAt || (a.createdAt == b.createdAt && a.id < b.id)
  }

  predicate EarlierRow(a: EventRow, b: EventRow) {
    a.createdAt < b.createdAt || (a.createdAt == b.createdAt && a.id < b.id)
  }

  predicate RowPast(row: EventRow, last: Option<Position>) {
    last.Some? ==> row.createdAt > last.value.createdAt || (row.createdAt == last.value.createdAt && row.id > last.value.id)
  }

  lemma ScanIsTotal(s: set<Event>)
    requires UniqueIds(s)
    ensures Strict(Earlier) && TotalOn(Earlier, s)
  {
  }

  ghost function ScanOrder(s: set<Event>): seq<Event>
    requires UniqueIds(s)
  {
    ScanIsTotal(s);
    Sort(s, Earlier)
  }

  function PositionOf(e: Event): Position {
    Position(e.createdAt, e.id)
  }

  function Past(s: set<Event>, last: Option<Position>): set<Event> {
    set e | e in s && RowPast(RowOf(e), last)
  }

  function FirstPage<T>(xs: seq<T>): seq<T> {
    if |xs| > PAGE_ROWS then xs[..PAGE_ROWS] else xs
  }

  ghost function NextRows(s: set<Event>, last: Option<Position>): seq<Event>
    requires UniqueIds(s)
  {
    FirstPage(ScanOrder(Past(s, last)))
  }

  lemma RowOrder()
    ensures Strict(EarlierRow) && forall a, b :: EarlierRow(RowOf(a), RowOf(b)) == Earlier(a, b)
  {
    hide ExtractDTag;
  }

  /** One page: the rows past the last position, joined with their tag rows. */
  method ScanPage(src: Store, last: Option<Position>) returns (page: seq<Event>)
    requires src.Valid()
    ensures page == NextRows(src.stored, last)
  {
    hide UniqueIds, RowOf, RowTable, TagTable, Sort, GroupRows, Assemble, Strict, TotalOn, RowsFor;
    ghost var s := src.stored;
    ghost var past := Past(s, last);
    UniqueSubset(s, past);
    var wanted := set id | id in src.events && RowPast(src.events[id], last) :: src.events[id];
    PastRows(s, last, wanted);
    ScanIsTotal(past);
    RowOrder();
    RowsSortAsEvents(past, wanted, EarlierRow, Earlier);
    var sorted := SortSet(wanted, EarlierRow);
    var rows := FirstPage(sorted);
    ghost var es := FirstPage(ScanOrder(past));
    assert rows == RowsOf(es);
    var ids := set i | 0 <= i < |rows| :: rows[i].id;
    RowsAreOrdered(s);
    PartOfTags(src.tags, ids);
    var tagRows := SortSet(RowsFor(src.tags, ids), RowBefore);
    assert tagRows == SelectTags(TagTable(s), ids);
    RowsRoundTrip(s, ids);
    var tags := GroupTagRows(tagRows);
    page := seq(|rows|, i requires 0 <= i < |rows| => Assemble(rows[i], tags.value));
    forall i | 0 <= i < |rows| ensures page[i] == es[i] {
      InScan(past, i);
      assert rows[i] == RowOf(es[i]);
      IdOfRow(es[i]);
    }
  }

  lemma IdOfRow(e: Event)
    ensures RowOf(e).id == e.id
  {
  }

  lemma InScan(s: set<Event>, i: nat)
    requires UniqueIds(s) && i < |ScanOrder(s)|
    ensures ScanOrder(s)[i] in s
  {
    hide Sort;
    ScanIsTotal(s);
    assert ScanOrder(s)[i] in Elements(ScanOrder(s));
  }

  lemma PastRows(s: set<Event>, last: Option<Position>, wanted: set<EventRow>)
    requires UniqueIds(s)
    requires wanted == set id | id in RowTable(s) && RowPast(RowTable(s)[id], last) :: RowTable(s)[id]
    ensures wanted == set e | e in Past(s, last) :: RowOf(e)
  {
    hide RowOf, RowPast, RowTable;
    RowsHoldEvents(s);
    forall r | r in wanted ensures r in set e | e in Past(s, last) :: RowOf(e) {
      var id :| id in RowTable(s) && RowPast(RowTable(s)[id], last) && r == RowTable(s)[id];
      var e :| e in s && e.id == id;
      assert e in Past(s, last);
    }
  }

  /** What is past the last row visited is exactly what has not been visited. */
  lemma PageContinues(s: set<Event>, k: nat)
    requires UniqueIds(s) && k <= |ScanOrder(s)|
    ensures var full := ScanOrder(s);
            var last := if k == 0 then None else Some(PositionOf(full[k - 1]));
            UniqueIds(Past(s, last)) && NextRows(s, last) == FirstPage(full[k..])
  {
    hide Sort, ExtractDTag;
    ScanIsTotal(s);
    var full := ScanOrder(s);
    var last := if k == 0 then None else Some(PositionOf(full[k - 1]));
    UniqueSubset(s, Past(s, last));
    ScanIsTotal(Past(s, last));
    if k == 0 {
      assert full[0..] == full && Past(s, last) == s;
    } else {
      assert forall e | e in full :: e in Elements(full);
      SuffixIsGreater(full, k, Earlier);
      forall e ensures e in Past(s, last) <==> e in Elements(full[k..]) {
        assert e in s <==> e in Elements(full);
        assert RowPast(RowOf(e), last) <==> Earlier(full[k - 1], e);
      }
      assert Elements(full[k..]) == Past(s, last);
      SortIs(full[k..], Earlier);
    }
  }

  // ------------------------------------------------------------------- the copy

  datatype Progress =
    | Copying(dst: set<Event>, inserted: nat, skipped: nat, tagsAdded: nat)
    | Failed(dst: set<Event>, error: MigrateError)

  /** One scanned event: skip what is there, save what is not, and read back what was accepted. */
  function CopyOne(p: Progress, ev: Event): Progress {
    if p.Failed? then p
    else if exists e | e in p.dst :: e.id == ev.id then
      if ev in p.dst then p.(skipped := p.skipped + 1) else Failed(p.dst, VerifyFailed)
    else
      match Save(p.dst, ev)
      case Ok(dst) => Copying(dst, p.inserted + 1, p.skipped, p.tagsAdded + |ev.tags|)
      case Err(Stale) => p.(skipped := p.skipped + 1)
      case Err(e) => Failed(p.dst, SaveFailed(e))
  }

  function CopyAll(p: Progress, evs: seq<Event>): Progress
    decreases |evs|
  {
    if evs == [] then p else CopyOne(CopyAll(p, evs[..|evs| - 1]), evs[|evs| - 1])
  }

  lemma {:induction false} CopyAppend(p: Progress, xs: seq<Event>, ys: seq<Event>)
    ensures CopyAll(p, xs + ys) == CopyAll(CopyAll(p, xs), ys)
    decreases |ys|
  {
    hide CopyOne;
    if ys == [] {
      assert xs + ys == xs;
    } else {
      CopyAppend(p, xs, ys[..|ys| - 1]);
      assert (xs + ys)[..|xs + ys| - 1] == xs + ys[..|ys| - 1];
    }
  }

  lemma {:induction false} FailedStays(p: Progress, evs: seq<Event>)
    requires p.Failed?
    ensures CopyAll(p, evs) == p
    decreases |evs|
  {
    if evs != [] {
      FailedStays(p, evs[..|evs| - 1]);
    }
  }

  function TagTotal(evs: seq<Event>): nat
    decreases |evs|
  {
    if evs == [] then 0 else TagTotal(evs[..|evs| - 1]) + |evs[|evs| - 1].tags|
  }

  lemma {:induction false} TagTotalAppend(xs: seq<Event>, ys: seq<Event>)
    ensures TagTotal(xs + ys) == TagTotal(xs) + TagTotal(ys)
    decreases |ys|
  {
    if ys == [] {
      assert xs + ys == xs;
    } else {
      TagTotalAppend(xs, ys[..|ys| - 1]);
      assert (xs + ys)[..|xs + ys| - 1] == xs + ys[..|ys| - 1];
    }
  }

  lemma SplitApart(e: Event, k: nat)
    requires 0 < k <= |e.tags|
    ensures SplitTags(e)[k - 1] !in SplitTags(e)[..k - 1]
  {
    forall i | 0 <= i < k - 1 ensures SplitTags(e)[i] != SplitTags(e)[k - 1] {
      assert SplitTag(e, i).pos != SplitTag(e, k - 1).pos;
    }
  }

  lemma {:induction false} SplitSize(e: Event, k: nat)
    requires k <= |e.tags|
    ensures |Elements(SplitTags(e)[..k])| == k
    decreases k
  {
    hide SplitTag;
    var rows := SplitTags(e);
    if k == 0 {
      assert Elements(rows[..0]) == {};
    } else {
      SplitSize(e, k - 1);
      SplitApart(e, k);
      assert rows[..k] == rows[..k - 1] + [rows[k - 1]];
      assert Elements(rows[..k]) == Elements(rows[..k - 1]) + {rows[k - 1]};
    }
  }

  /** The tag rows counted in the table are the tags carried by the events. */
  lemma {:induction false} TagRowsCounted(evs: seq<Event>)
    requires forall i, j | 0 <= i < j < |evs| :: evs[i].id != evs[j].id
    ensures |TagTable(Elements(evs))| == TagTotal(evs)
    decreases |evs|
  {
    hide SplitTag;
    if evs == [] {
      assert TagTable(Elements(evs)) == {};
    } else {
      var n := |evs| - 1;
      var e := evs[n];
      TagRowsCounted(evs[..n]);
      assert evs == evs[..n] + [e];
      assert Elements(evs) == Elements(evs[..n]) + {e};
      TagTableGrows(Elements(evs[..n]), e);
      SplitSize(e, |e.tags|);
      assert SplitTags(e)[..|e.tags|] == SplitTags(e);
      RowsApart(evs[..n], e);
    }
  }

  lemma RowsApart(evs: seq<Event>, e: Event)
    requires forall i | 0 <= i < |evs| :: evs[i].id != e.id
    ensures TagTable(Elements(evs)) !! Elements(SplitTags(e))
  {
  }

  lemma ScanCounts(s: set<Event>)
    requires UniqueIds(s)
    ensures |ScanOrder(s)| == |s| && TagTotal(ScanOrder(s)) == |TagTable(s)|
  {
    hide Sort, TagTable;
    ScanIsTotal(s);
    var full := ScanOrder(s);
    forall i, j | 0 <= i < j < |full| ensures full[i].id != full[j].id {
      assert Earlier(full[i], full[j]) && full[i] in Elements(full) && full[j] in Elements(full);
    }
    TagRowsCounted(full);
  }

  /** The callback of the scan; `verifyEvent` reads the event back and compares it. */
  method CopyEvent(dst: Store, ev: Event, inserted: nat, skipped: nat, tagsAdded: nat)
    returns (error: Option<MigrateError>, ins: nat, skip: nat, tags: nat)
    requires dst.Valid()
    modifies dst
    ensures dst.Valid()
    ensures var p := CopyOne(Copying(old(dst.stored), inserted, skipped, tagsAdded), ev);
            && dst.stored == p.dst
            && (error.Some? <==> p.Failed?)
            && (error.Some? ==> error.value == p.error)
            && (error.None? ==> p == Copying(dst.stored, ins, skip, tags))
  {
    error, ins, skip, tags := None, inserted, skipped, tagsAdded;
    var known := dst.HasEventID(ev.id);
    if !known {
      var saved := dst.SaveEvent(ev);
      if saved.Err? {
        if saved.error != Stale {
          error := Some(SaveFailed(saved.error));
          return;
        }
        skip := skipped + 1;
        return;
      }
    }
    var found := dst.FindEvent(ev.id);
    if found != Some(ev) {
      error := Some(VerifyFailed);
      return;
    }
    if known {
      skip := skipped + 1;
    } else {
      ins, tags := inserted + 1, tagsAdded + |ev.tags|;
    }
  }

  method CopyPage(dst: Store, page: seq<Event>, inserted: nat, skipped: nat, tagsAdded: nat)
    returns (error: Option<MigrateError>, ins: nat, skip: nat, tags: nat, scanned: nat)
    requires dst.Valid()
    modifies dst
    ensures dst.Valid()
    ensures var p := CopyAll(Copying(old(dst.stored), inserted, skipped, tagsAdded), page);
            && dst.stored == p.dst
            && (error.Some? <==> p.Failed?)
            && (error.Some? ==> error.value == p.error)
            && (error.None? ==> p == Copying(dst.stored, ins, skip, tags) && scanned == TagTotal(page))
  {
    hide UniqueIds, CopyOne;
    ghost var start := Copying(dst.stored, inserted, skipped, tagsAdded);
    error, ins, skip, tags, scanned := None, inserted, skipped, tagsAdded, 0;
    for i := 0 to |page|
      invariant dst.Valid() && error.None?
      invariant CopyAll(start, page[..i]) == Copying(dst.stored, ins, skip, tags) && scanned == TagTotal(page[..i])
    {
      assert page[..i + 1][..i] == page[..i];
      scanned := scanned + |page[i].tags|;
      error, ins, skip, tags := CopyEvent(dst, page[i], ins, skip, tags);
      if error.Some? {
        FailedStays(CopyAll(start, page[..i + 1]), page[i + 1..]);
        CopyAppend(start, page[..i + 1], page[i + 1..]);
        assert page[..i + 1] + page[i + 1..] == page;
        return;
      }
    }
    assert page[..|page|] == page;
  }

  method Migrate(src: Store, dst: Store) returns (r: Result<Summary, MigrateError>)
    requires src != dst && src.Valid() && dst.Valid()
    modifies dst
    ensures dst.Valid()
    ensures var p := CopyAll(Copying(old(dst.stored), 0, 0, 0), ScanOrder(src.stored));
            && dst.stored == p.dst
            && (p.Failed? ==> r == Err(p.error))
            && (p.Copying? ==> r == Ok(Summary(
                 |src.stored|, |TagTable(src.stored)|, |dst.stored|, |TagTable(dst.stored)|,
                 p.inserted, p.skipped, p.tagsAdded)))
  {
    hide UniqueIds, ScanOrder, CopyAll, TagTable, NextRows, Past, TagTotal, RowTable, CopyOne, PositionOf;
    ghost var full := ScanOrder(src.stored);
    ghost var start := Copying(dst.stored, 0, 0, 0);
    var srcEvents, srcTags := src.MigrationRowCounts();
    var done, tagsScanned, inserted, skipped, tagsAdded := 0, 0, 0, 0, 0;
    var last: Option<Position> := None;
    assert full[..0] == [];
    NothingCopied(start);
    var scanning := true;
    while scanning
      invariant dst.Valid() && src.Valid() && src.stored == old(src.stored)
      invariant done <= |full| && tagsScanned == TagTotal(full[..done])
      invariant last == if done == 0 then None else Some(PositionOf(full[done - 1]))
      invariant CopyAll(start, full[..done]) == Copying(dst.stored, inserted, skipped, tagsAdded)
      invariant !scanning ==> done == |full|
      decreases |full| - done, scanning
    {
      var page := ScanPage(src, last);
      PageContinues(src.stored, done);
      if |page| == 0 {
        scanning := false;
      } else {
        assert page == FirstPage(full[done..]);
        assert full[done..done + |page|] == page;
        assert full[..done + |page|] == full[..done] + page;
        CopyAppend(start, full[..done], page);
        TagTotalAppend(full[..done], page);
        var error: Option<MigrateError>;
        var scanned: nat;
        error, inserted, skipped, tagsAdded, scanned := CopyPage(dst, page, inserted, skipped, tagsAdded);
        if error.Some? {
          FailedStays(CopyAll(start, full[..done + |page|]), full[done + |page|..]);
          CopyAppend(start, full[..done + |page|], full[done + |page|..]);
          assert full[..done + |page|] + full[done + |page|..] == full;
          return Err(error.value);
        }
        done, tagsScanned := done + |page|, tagsScanned + scanned;
        last := Some(PositionOf(page[|page| - 1]));
      }
    }
    assert full[..done] == full;
    ScanCounts(src.stored);
    if done != srcEvents || tagsScanned != srcTags {
      return Err(TotalsDiffer);
    }
    var dstEvents, dstTags := dst.MigrationRowCounts();
    return Ok(Summary(srcEvents, srcTags, dstEvents, dstTags, inserted, skipped, tagsAdded));
  }

  lemma NothingCopied(p: Progress)
    ensures CopyAll(p, []) == p && TagTotal([]) == 0
  {
  }

  // ----------------------------------------------------------------- what it means

  predicate NoEphemeral(evs: seq<Event>) {
    forall i | 0 <= i < |evs| :: !IsEphemeral(evs[i])
  }

  /**
   * From a joined destination, with ids naming events: the copy succeeds exactly when the source holds no
   * ephemeral event, leaves the join of both, and accounts for every source event once.
   */
  lemma {:induction false} CopyJoins(dst: set<Event>, evs: seq<Event>)
    requires dst == Join(dst) && UniqueIds(dst + Elements(evs))
    ensures var p := CopyAll(Copying(dst, 0, 0, 0), evs);
            && (p.Copying? <==> NoEphemeral(evs))
            && (p.Copying? ==> p.dst == Join(dst + Elements(evs)) && p.inserted + p.skipped == |evs|)
    decreases |evs|
  {
    hide UniqueIds, Join, CopyOne;
    if evs == [] {
      assert dst + Elements(evs) == dst;
    } else {
      var n := |evs| - 1;
      var before, all := dst + Elements(evs[..n]), dst + Elements(evs);
      assert evs == evs[..n] + [evs[n]];
      assert all == before + {evs[n]};
      UniqueSubset(all, before);
      CopyJoins(dst, evs[..n]);
      if NoEphemeral(evs[..n]) {
        JoinIsStable(before);
        JoinIsSubset(before);
        UniqueSubset(all, Join(before) + {evs[n]});
        CopyOneJoins(CopyAll(Copying(dst, 0, 0, 0), evs[..n]), evs[n]);
        JoinAbsorbs(before, {evs[n]});
      } else {
        FailedStays(CopyAll(Copying(dst, 0, 0, 0), evs[..n]), [evs[n]]);
        CopyAppend(Copying(dst, 0, 0, 0), evs[..n], [evs[n]]);
      }
    }
  }

  lemma CopyOneJoins(p: Progress, ev: Event)
    requires p.Copying? && p.dst == Join(p.dst) && UniqueIds(p.dst + {ev})
    ensures var q := CopyOne(p, ev);
            && (q.Copying? <==> !IsEphemeral(ev))
            && (q.Copying? ==> q.dst == Join(p.dst + {ev}) && q.inserted + q.skipped == p.inserted + p.skipped + 1)
  {
    hide Join, SlotOf, Newer, Superseded;
    assert ev in p.dst + {ev};
    assert forall e | e in p.dst :: e in p.dst + {ev};
    JoinHasNoEphemeral(p.dst);
    SaveIsJoin(p.dst, ev);
    if exists e | e in p.dst :: e.id == ev.id {
      assert p.dst + {ev} == p.dst;
    }
  }

  lemma JoinHasNoEphemeral(s: set<Event>)
    ensures forall e | e in Join(s) :: !IsEphemeral(e)
  {
  }

  // ------------------------------------------------------------- what it reports

  /** The counters are those of the events that are new in the destination. */
  predicate CountsNew(was: set<Event>, p: Progress) {
    p.Copying? ==> p.inserted == |p.dst - was| && p.tagsAdded == |TagTable(p.dst - was)|
  }

  lemma OneMoreNew(added: set<Event>, ev: Event)
    requires forall e | e in added :: e.id != ev.id
    ensures |added + {ev}| == |added| + 1 && |TagTable(added + {ev})| == |TagTable(added)| + |ev.tags|
  {
    hide SplitTag;
    TagTableGrows(added, ev);
    SplitSize(ev, |ev.tags|);
    assert SplitTags(ev)[..|ev.tags|] == SplitTags(ev);
    TagsApart(added, ev);
  }

  lemma TagsApart(s: set<Event>, ev: Event)
    requires forall e | e in s :: e.id != ev.id
    ensures TagTable(s) !! Elements(SplitTags(ev))
  {
  }

  /** In a joined set no other event shares the slot of a replaceable one. */
  lemma AloneInJoined(s: set<Event>, e: Event, d: Event)
    requires s == Join(s) && UniqueIds(s) && e in s && d in s && SlotOf(d) == SlotOf(e)
    ensures d == e
  {
    hide SlotOf, IsEphemeral;
    assert Best(s, e) && Best(s, d);
    NotBoth(s, e);
  }

  /** Saving an event replaces only what was there before, when the new ones are of other slots. */
  lemma NewStaysNew(was: set<Event>, dst: set<Event>, ev: Event)
    requires Save(dst, ev).Ok? && ev !in was && (forall e | e in dst - was :: SlotOf(e) != SlotOf(ev))
    ensures Save(dst, ev).value - was == dst - was + {ev}
  {
    hide SlotOf, Newer, IsEphemeral;
  }

  lemma CopyOneCounts(was: set<Event>, p: Progress, ev: Event)
    requires p.Copying? && CountsNew(was, p) && UniqueIds(was + p.dst + {ev})
    requires forall e | e in p.dst - was :: SlotOf(e) != SlotOf(ev)
    requires ev in was ==> ev in p.dst || IsEphemeral(ev) || (Save(p.dst, ev).Err? && Save(p.dst, ev).error == Stale)
    ensures CountsNew(was, CopyOne(p, ev))
    ensures CopyOne(p, ev).Copying? ==> CopyOne(p, ev).dst - was <= p.dst - was + {ev}
  {
    hide SlotOf, Newer, TagTable, Superseded, IsEphemeral, Replaces;
    var all := was + p.dst + {ev};
    assert ev in all && forall e | e in p.dst :: e in all;
    if (forall e | e in p.dst :: e.id != ev.id) && Save(p.dst, ev).Ok? {
      EphemeralFails(p.dst, ev);
      NewStaysNew(was, p.dst, ev);
      OneMoreNew(p.dst - was, ev);
    }
  }

  lemma EphemeralFails(dst: set<Event>, ev: Event)
    requires Save(dst, ev).Ok?
    ensures !IsEphemeral(ev)
  {
  }

  /** What was in the destination before and is no more has been superseded, and is stale. */
  lemma GoneIsStale(was: set<Event>, evs: seq<Event>, dst: set<Event>, ev: Event)
    requires was == Join(was) && UniqueIds(was + Elements(evs) + {ev}) && dst == Join(was + Elements(evs)) && ev in was && ev !in dst
    ensures Save(dst, ev).Err? && Save(dst, ev).error == Stale
  {
    hide SlotOf, Newer, UniqueIds;
    var all := was + Elements(evs);
    assert all + {ev} == all;
    JoinIsSubset(all);
    UniqueSubset(all, dst + {ev});
    WhyRefused(dst, ev);
    JoinHasNoEphemeral(was);
    var best := OneBestPerSlot(all, ev);
    assert best in all && ev in all;
    SlotOfBest(all, ev, best);
  }

  lemma SlotOfBest(all: set<Event>, ev: Event, best: Event)
    requires UniqueIds(all) && ev in all && best in all && SlotOf(best) == SlotOf(ev) && Best(all, best) && !IsEphemeral(ev)
    ensures best in Join(all) && (best == ev || (Replaces(ev) && (best == ev || Newer(best, ev))))
  {
    hide Newer, IsEphemeral, ExtractDTag;
    assert UniqueIds({ev, best});
    SlotTellsEphemeral(ev, best);
  }

  /**
   * From a joined source into a joined destination: the copy reports as inserted the events that are new in the
   * destination, as skipped the others, and as tags added the tag rows of the new ones.
   */
  lemma {:induction false} CopyReports(was: set<Event>, evs: seq<Event>)
    requires was == Join(was) && Elements(evs) == Join(Elements(evs)) && UniqueIds(was + Elements(evs))
    requires forall i, j | 0 <= i < j < |evs| :: evs[i] != evs[j]
    ensures var p := CopyAll(Copying(was, 0, 0, 0), evs);
            && CountsNew(was, p)
            && (p.Copying? ==> p.dst - was <= Elements(evs) && p.inserted + p.skipped == |evs|)
    decreases |evs|
  {
    hide UniqueIds, Join, CopyOne, TagTable;
    if evs == [] {
      NothingNew(was);
    } else {
      var n := |evs| - 1;
      var before, ev := evs[..n], evs[n];
      assert evs == before + [ev];
      assert Elements(evs) == Elements(before) + {ev};
      UniqueSubset(was + Elements(evs), was + Elements(before));
      PartIsJoined(Elements(evs), Elements(before));
      CopyReports(was, before);
      CopyJoins(was, evs);
      CopyJoins(was, before);
      var p := CopyAll(Copying(was, 0, 0, 0), before);
      if p.Copying? {
        assert was + Elements(before) + {ev} == was + Elements(evs);
        JoinIsSubset(was + Elements(before));
        UniqueSubset(was + Elements(evs), was + p.dst + {ev});
        UniqueSubset(was + Elements(evs), Elements(evs));
        forall e | e in p.dst - was ensures SlotOf(e) != SlotOf(ev) {
          assert e in before && ev !in before;
          if SlotOf(e) == SlotOf(ev) {
            AloneInJoined(Elements(evs), ev, e);
          }
        }
        if ev in was && ev !in p.dst {
          GoneIsStale(was, before, p.dst, ev);
        }
        CopyOneCounts(was, p, ev);
      } else {
        FailedStays(p, [ev]);
        CopyAppend(Copying(was, 0, 0, 0), before, [ev]);
      }
    }
  }

  lemma NothingNew(was: set<Event>)
    ensures was - was == {} && TagTable(was - was) == {}
  {
  }

  /** Copying events that are already joined in saves none of them again. */
  lemma {:induction false} SecondRunInsertsNothing(dst: set<Event>, evs: seq<Event>)
    requires UniqueIds(dst) && Elements(evs) <= dst && NoEphemeral(evs)
    ensures CopyAll(Copying(Join(dst), 0, 0, 0), evs) == Copying(Join(dst), 0, |evs|, 0)
    decreases |evs|
  {
    hide UniqueIds, Join, CopyOne;
    if evs != [] {
      var n := |evs| - 1;
      var e := evs[n];
      assert e in Elements(evs);
      assert Elements(evs[..n]) <= Elements(evs);
      SecondRunInsertsNothing(dst, evs[..n]);
      JoinIsStable(dst);
      JoinIsSubset(dst);
      assert dst + {e} == dst;
      UniqueSubset(dst, Join(dst) + {e});
      JoinAbsorbs(dst, {e});
      KnownIsSkipped(Join(dst), e, 0, n, 0);
    }
  }

  lemma KnownIsSkipped(dst: set<Event>, ev: Event, inserted: nat, skipped: nat, tagsAdded: nat)
    requires dst == Join(dst) && UniqueIds(dst + {ev}) && Join(dst + {ev}) == dst && !IsEphemeral(ev)
    ensures CopyOne(Copying(dst, inserted, skipped, tagsAdded), ev) == Copying(dst, inserted, skipped + 1, tagsAdded)
  {
    hide Join, SlotOf, Newer, Superseded;
    assert ev in dst + {ev};
    assert forall e | e in dst :: e in dst + {ev};
    SaveIsJoin(dst, ev);
    NotStaleMeansThere(dst, ev);
  }

  lemma NotStaleMeansThere(dst: set<Event>, ev: Event)
    requires Save(dst, ev).Err? && !IsEphemeral(ev)
    ensures Save(dst, ev).error == Stale || exists e | e in dst :: e.id == ev.id
  {
    hide SlotOf, Newer;
  }

  /** A migration without a concurrent writer, and then the same migration again. */
  method MigrateTwice(src: Store, dst: Store) returns (first: Result<Summary, MigrateError>, second: Result<Summary, MigrateError>)
    requires src != dst && src.Valid() && dst.Valid()
    requires dst.stored == Join(dst.stored) && UniqueIds(dst.stored + src.stored)
    modifies dst
    ensures dst.Valid()
    ensures first.Ok? <==> forall e | e in src.stored :: !IsEphemeral(e)
    ensures first.Ok? ==>
              && dst.stored == Join(old(dst.stored) + src.stored)
              && first.value.sourceEvents == |src.stored| && first.value.sourceTags == |TagTable(src.stored)|
              && first.value.destinationEvents == |dst.stored| && first.value.destinationTags == |TagTable(dst.stored)|
              && first.value.inserted + first.value.skipped == |src.stored|
              && (src.stored == Join(src.stored) ==>
                    && first.value.inserted == |dst.stored - old(dst.stored)|
                    && first.value.tagsAdded == |TagTable(dst.stored - old(dst.stored))|)
              && second.Ok? && second.value.inserted == 0 && second.value.skipped == |src.stored|
  {
    hide UniqueIds, Join, CopyAll, Sort, TagTable, RowTable;
    ghost var full, was := ScanOrder(src.stored), dst.stored;
    ScanHoldsAll(src.stored);
    CopyJoins(was, full);
    if src.stored == Join(src.stored) {
      ScanHasNoRepeat(src.stored);
      CopyReports(was, full);
    }
    first := Migrate(src, dst);
    if first.Err? {
      return first, first;
    }
    ScanCounts(src.stored);
    SecondRunInsertsNothing(was + src.stored, full);
    second := Migrate(src, dst);
  }

  lemma ScanHasNoRepeat(s: set<Event>)
    requires UniqueIds(s)
    ensures forall i, j | 0 <= i < j < |ScanOrder(s)| :: ScanOrder(s)[i] != ScanOrder(s)[j]
  {
    hide Sort;
    ScanIsTotal(s);
    var full := ScanOrder(s);
    assert forall i, j | 0 <= i < j < |full| :: Earlier(full[i], full[j]);
  }

  lemma ScanHoldsAll(s: set<Event>)
    requires UniqueIds(s)
    ensures Elements(ScanOrder(s)) == s
    ensures NoEphemeral(ScanOrder(s)) <==> forall e | e in s :: !IsEphemeral(e)
  {
    hide Sort;
    ScanIsTotal(s);
    var full := ScanOrder(s);
    assert forall i | 0 <= i < |full| :: full[i] in Elements(full);
  }
}
