/**
 * The events and event_tags tables: how an event is split into rows, and how rows read back in
 * (event_id, pos) order become the event again.
 */
module Tables {
  import opened Nostr
  import opened Order
  import opened Wrappers

  datatype EventRow = EventRow(id: Id, pubkey: string, createdAt: int, kind: int, content: string, sig: string, dTag: string)

  /** `full_json`: an array of strings, or a JSON string that itself holds such an array. */
  datatype TagJson = Array(parts: Tag) | Wrapped(parts: Tag) | Malformed

  datatype TagRow = TagRow(eventId: Id, pos: nat, name: string, value: string, fullJson: TagJson)

  function RowOf(e: Event): EventRow {
    EventRow(e.id, e.pubkey, e.createdAt, e.kind, e.content, e.sig, ExtractDTag(e.tags))
  }

  /** A one-element tag gets the value "", an empty tag the name "" too. */
  function SplitTag(e: Event, i: nat): TagRow
    requires i < |e.tags|
  {
    var t := e.tags[i];
    TagRow(e.id, i, if |t| > 0 then t[0] else "", if |t| > 1 then t[1] else "", Array(t))
  }

  function SplitTags(e: Event): seq<TagRow> {
    seq(|e.tags|, i requires 0 <= i < |e.tags| => SplitTag(e, i))
  }

  ghost function RowTable(s: set<Event>): map<Id, EventRow>
    requires UniqueIds(s)
  {
    map e | e in s :: e.id := RowOf(e)
  }

  function TagTable(s: set<Event>): set<TagRow> {
    set e, i | e in s && 0 <= i < |e.tags| :: SplitTag(e, i)
  }

  predicate RowBefore(a: TagRow, b: TagRow) {
    a.eventId < b.eventId || (a.eventId == b.eventId && a.pos < b.pos)
  }

  predicate IdBefore(a: Event, b: Event) {
    a.id < b.id
  }

  lemma RowsAreOrdered(s: set<Event>)
    requires UniqueIds(s)
    ensures Strict(RowBefore) && TotalOn(RowBefore, TagTable(s))
    ensures Strict(IdBefore) && TotalOn(IdBefore, s)
  {
  }

  function RowsOf(es: seq<Event>): seq<EventRow> {
    seq(|es|, i requires 0 <= i < |es| => RowOf(es[i]))
  }

  /** Sorting rows by columns sorts the events they stand for. */
  lemma RowsSortAsEvents(s: set<Event>, rows: set<EventRow>, rowLess: (EventRow, EventRow) -> bool, less: (Event, Event) -> bool)
    requires rows == set e | e in s :: RowOf(e)
    requires Strict(rowLess) && Strict(less) && TotalOn(less, s)
    requires forall a, b :: rowLess(RowOf(a), RowOf(b)) == less(a, b)
    ensures TotalOn(rowLess, rows)
    ensures Sort(rows, rowLess) == RowsOf(Sort(s, less))
  {
    hide Sort, RowOf;
    var es := Sort(s, less);
    var sorted := RowsOf(es);
    forall r | r in rows ensures r in Elements(sorted) {
      var e :| e in s && r == RowOf(e);
      assert e in Elements(es);
      var i :| 0 <= i < |es| && es[i] == e;
      assert sorted[i] == r;
    }
    forall r | r in Elements(sorted) ensures r in rows {
      var i :| 0 <= i < |sorted| && sorted[i] == r;
      assert es[i] in Elements(es);
    }
    assert Elements(sorted) == rows;
    SortIs(sorted, rowLess);
  }

  function Decode(j: TagJson): Option<Tag> {
    if j.Malformed? then None else Some(j.parts)
  }

  function TagsFor(tags: map<Id, seq<Tag>>, id: Id): seq<Tag> {
    if id in tags then tags[id] else []
  }

  function Assemble(row: EventRow, tags: map<Id, seq<Tag>>): Event {
    Event(row.id, row.pubkey, row.createdAt, row.kind, TagsFor(tags, row.id), row.content, row.sig)
  }

  function AddRow(m: map<Id, seq<Tag>>, id: Id, parts: Tag): map<Id, seq<Tag>> {
    m[id := TagsFor(m, id) + [parts]]
  }

  function GroupRows(rows: seq<TagRow>): Option<map<Id, seq<Tag>>>
    decreases |rows|
  {
    if rows == [] then
      Some(map[])
    else
      var last := rows[|rows| - 1];
      match GroupRows(rows[..|rows| - 1])
      case None => None
      case Some(m) =>
        match Decode(last.fullJson)
        case None => None
        case Some(parts) => Some(AddRow(m, last.eventId, parts))
  }

  lemma {:induction false} UndecodableStays(rows: seq<TagRow>, i: nat)
    requires i <= |rows| && GroupRows(rows[..i]).None?
    ensures GroupRows(rows).None?
    decreases |rows|
  {
    if i == |rows| {
      assert rows[..i] == rows;
    } else {
      assert rows[..|rows| - 1][..i] == rows[..i];
      UndecodableStays(rows[..|rows| - 1], i);
    }
  }

  /** Decodes each row and appends it to its event's tags; any undecodable row fails the whole read. */
  method GroupTagRows(rows: seq<TagRow>) returns (result: Option<map<Id, seq<Tag>>>)
    ensures result == GroupRows(rows)
  {
    var m := map[];
    for i := 0 to |rows|
      invariant GroupRows(rows[..i]) == Some(m)
    {
      assert rows[..i + 1][..i] == rows[..i];
      var parts := Decode(rows[i].fullJson);
      if parts.None? {
        UndecodableStays(rows, i + 1);
        return None;
      }
      m := AddRow(m, rows[i].eventId, parts.value);
    }
    assert rows[..|rows|] == rows;
    return Some(m);
  }

  // --------------------------------------------------------------- round trip

  function AllTags(es: seq<Event>): seq<TagRow>
    decreases |es|
  {
    if es == [] then [] else AllTags(es[..|es| - 1]) + SplitTags(es[|es| - 1])
  }

  lemma TagTableGrows(s: set<Event>, e: Event)
    ensures TagTable(s + {e}) == TagTable(s) + Elements(SplitTags(e))
  {
    forall r | r in Elements(SplitTags(e)) ensures r in TagTable(s + {e}) {
      var i :| 0 <= i < |SplitTags(e)| && SplitTags(e)[i] == r;
      assert r == SplitTag(e, i);
    }
    forall r | r in TagTable(s + {e}) ensures r in TagTable(s) + Elements(SplitTags(e)) {
      var d, i :| d in s + {e} && 0 <= i < |d.tags| && r == SplitTag(d, i);
      if d == e {
        assert SplitTags(e)[i] == r;
      }
    }
  }

  lemma SplitIsSorted(rows: seq<TagRow>, e: Event)
    requires Sorted(rows, RowBefore) && forall r | r in rows :: r.eventId < e.id
    ensures Sorted(rows + SplitTags(e), RowBefore)
  {
  }

  lemma {:induction false} AllTagsInOrder(es: seq<Event>)
    requires Sorted(es, IdBefore)
    ensures Sorted(AllTags(es), RowBefore)
    ensures Elements(AllTags(es)) == TagTable(Elements(es))
    ensures forall r | r in AllTags(es) :: exists e | e in es :: r.eventId == e.id
    decreases |es|
  {
    if es != [] {
      var n := |es| - 1;
      AllTagsInOrder(es[..n]);
      assert es == es[..n] + [es[n]];
      assert Elements(es) == Elements(es[..n]) + {es[n]};
      TagTableGrows(Elements(es[..n]), es[n]);
      SplitIsSorted(AllTags(es[..n]), es[n]);
    }
  }

  lemma GroupStep(rows: seq<TagRow>, row: TagRow)
    requires GroupRows(rows).Some? && row.fullJson.Array?
    ensures GroupRows(rows + [row]) == Some(AddRow(GroupRows(rows).value, row.eventId, row.fullJson.parts))
  {
    assert (rows + [row])[..|rows + [row]| - 1] == rows;
  }

  /** The tags of one event, appended row by row to a grouping that does not hold it yet. */
  lemma {:induction false} GroupOneEvent(rows: seq<TagRow>, e: Event, k: nat)
    requires GroupRows(rows).Some? && e.id !in GroupRows(rows).value && k <= |e.tags|
    ensures GroupRows(rows + SplitTags(e)[..k]) ==
            Some(if k == 0 then GroupRows(rows).value else GroupRows(rows).value[e.id := e.tags[..k]])
    decreases k
  {
    hide GroupRows;
    if k == 0 {
      assert rows + SplitTags(e)[..0] == rows;
    } else {
      GroupOneEvent(rows, e, k - 1);
      var before, row := rows + SplitTags(e)[..k - 1], SplitTag(e, k - 1);
      GroupStep(before, row);
      assert rows + SplitTags(e)[..k] == before + [row];
      var m := GroupRows(rows).value;
      var done: seq<Tag> := if k == 1 then [] else e.tags[..k - 1];
      assert e.tags[..k] == done + [e.tags[k - 1]];
      assert AddRow(GroupRows(before).value, e.id, e.tags[k - 1]) == m[e.id := done + [e.tags[k - 1]]];
    }
  }

  /** Reading back the rows of events with distinct ids, in order, gives each event its tags. */
  lemma {:induction false} GroupInvertsSplit(es: seq<Event>)
    requires Sorted(es, IdBefore)
    ensures var m := GroupRows(AllTags(es));
            && m.Some?
            && (forall e | e in es :: TagsFor(m.value, e.id) == e.tags)
            && (forall id | id in m.value :: exists e | e in es :: e.id == id)
    decreases |es|
  {
    if es != [] {
      var n := |es| - 1;
      var e := es[n];
      GroupInvertsSplit(es[..n]);
      assert es == es[..n] + [e];
      GroupOneEvent(AllTags(es[..n]), e, |e.tags|);
      assert SplitTags(e)[..|e.tags|] == SplitTags(e);
      assert e.tags[..|e.tags|] == e.tags;
    }
  }

  function RowsFor(tags: set<TagRow>, ids: set<Id>): set<TagRow> {
    set r | r in tags && r.eventId in ids
  }

  lemma PartOfTags(tags: set<TagRow>, ids: set<Id>)
    requires TotalOn(RowBefore, tags)
    ensures TotalOn(RowBefore, RowsFor(tags, ids))
  {
  }

  /** `SELECT … WHERE event_id IN (ids) ORDER BY event_id, pos`. */
  ghost function SelectTags(tags: set<TagRow>, ids: set<Id>): seq<TagRow>
    requires TotalOn(RowBefore, tags)
  {
    Sort(RowsFor(tags, ids), RowBefore)
  }

  lemma SelectedRows(s: set<Event>, ids: set<Id>)
    requires UniqueIds(s)
    ensures TotalOn(RowBefore, TagTable(s))
    ensures var some := set e | e in s && e.id in ids;
            && UniqueIds(some) && TotalOn(IdBefore, some)
            && SelectTags(TagTable(s), ids) == AllTags(Sort(some, IdBefore))
  {
    hide Sort;
    RowsAreOrdered(s);
    var some := set e | e in s && e.id in ids;
    var es := Sort(some, IdBefore);
    AllTagsInOrder(es);
    var rows := RowsFor(TagTable(s), ids);
    assert rows == TagTable(some) by {
      forall r | r in rows ensures r in TagTable(some) {
        var e, i :| e in s && 0 <= i < |e.tags| && r == SplitTag(e, i);
        assert e in some;
      }
    }
    SortIs(AllTags(es), RowBefore);
  }

  /** Every stored event survives the split into rows: reading it back gives the same event. */
  lemma RowsRoundTrip(s: set<Event>, ids: set<Id>)
    requires UniqueIds(s)
    ensures TotalOn(RowBefore, TagTable(s))
    ensures var m := GroupRows(SelectTags(TagTable(s), ids));
            m.Some? && forall e | e in s && e.id in ids :: Assemble(RowOf(e), m.value) == e
  {
    hide Sort, SelectTags, GroupRows, TagTable, AllTags, UniqueIds, RowOf, Assemble, TagsFor;
    SelectedRows(s, ids);
    var some := set e | e in s && e.id in ids;
    var es := Sort(some, IdBefore);
    GroupInvertsSplit(es);
    forall e | e in s && e.id in ids ensures Assemble(RowOf(e), GroupRows(AllTags(es)).value) == e {
      assert e in some && e in Elements(es);
      AssembleInverts(e, GroupRows(AllTags(es)).value);
    }
  }

  lemma AssembleInverts(e: Event, tags: map<Id, seq<Tag>>)
    requires TagsFor(tags, e.id) == e.tags
    ensures Assemble(RowOf(e), tags) == e
  {
    hide ExtractDTag;
  }

  function Unwrap(r: TagRow): TagRow {
    if r.fullJson.Wrapped? then r.(fullJson := Array(r.fullJson.parts)) else r
  }

  /** Rows an older PostgreSQL build wrote with a doubly encoded array read the same. */
  lemma {:induction false} BothEncodingsRead(rows: seq<TagRow>)
    ensures GroupRows(rows) == GroupRows(seq(|rows|, i requires 0 <= i < |rows| => Unwrap(rows[i])))
    decreases |rows|
  {
    var plain := seq(|rows|, i requires 0 <= i < |rows| => Unwrap(rows[i]));
    if rows != [] {
      var n := |rows| - 1;
      BothEncodingsRead(rows[..n]);
      assert plain[..n] == seq(n, i requires 0 <= i < n => Unwrap(rows[..n][i]));
    }
  }
}
