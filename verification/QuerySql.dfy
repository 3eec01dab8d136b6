/**
 * Queries and counts over the stored rows: what the compiled SQL accepts in terms of events, when that
 * is what `Matches` accepts, and that counting agrees with querying.
 */
module QuerySql {
  import opened EventStore
  import opened FilterSql
  import opened Nostr
  import opened Order
  import ReqQuery
  import opened Tables
  import opened Wrappers

  // ------------------------------------------------------- rows speak for events

  /** What the compiled filter asks of an event. */
  ghost predicate StoredMatch(f: Filter, e: Event)
    requires HashKeys(f)
  {
    && ColumnsMatch(f, RowOf(e)) && CursorAllows(f, e.createdAt, e.id)
    && forall key | key in f.tag :: f.tag[key] != [] && StoredTagMatches(e.tags, key[1..], f.tag[key])
  }

  lemma KeyRows(s: set<Event>, e: Event, key: string, wanted: seq<string>)
    requires UniqueIds(s) && e in s && |key| > 0
    ensures KeyMatches(key, wanted, RowOf(e), TagTable(s)) <==> wanted != [] && StoredTagMatches(e.tags, key[1..], wanted)
  {
    if wanted != [] && StoredTagMatches(e.tags, key[1..], wanted) {
      var i :| 0 <= i < |e.tags| && TagName(e.tags[i]) == key[1..] && TagValue(e.tags[i]) in wanted;
      var t := SplitTag(e, i);
      assert t in TagTable(s) && t.eventId == e.id && t.name == key[1..] && t.value in wanted;
    }
    if KeyMatches(key, wanted, RowOf(e), TagTable(s)) {
      var t :| t in TagTable(s) && t.eventId == e.id && t.name == key[1..] && t.value in wanted;
      var d, i :| d in s && 0 <= i < |d.tags| && t == SplitTag(d, i);
      assert d == e;
      assert TagName(e.tags[i]) == key[1..] && TagValue(e.tags[i]) in wanted;
    }
  }

  lemma RowsDecide(s: set<Event>, f: Filter, e: Event)
    requires UniqueIds(s) && e in s && HashKeys(f)
    ensures RowMatches(f, RowOf(e), TagTable(s)) <==> StoredMatch(f, e)
  {
    hide ColumnsMatch, KeyMatches, StoredTagMatches, TagTable, UniqueIds;
    forall key | key in f.tag
      ensures KeyMatches(key, f.tag[key], RowOf(e), TagTable(s)) <==> f.tag[key] != [] && StoredTagMatches(e.tags, key[1..], f.tag[key])
    {
      KeyRows(s, e, key, f.tag[key]);
    }
  }

  // --------------------------------------------------------- SQL against Matches

  predicate NoEmptyValue(f: Filter) {
    forall key | key in f.tag :: "" !in f.tag[key]
  }

  /** A search-free filter that asks for no empty tag value compiles to exactly its matches. */
  lemma CompiledIsMatches(f: Filter, e: Event)
    requires HashKeys(f) && !f.HasSearch()
    ensures f.Matches(e) ==> StoredMatch(f, e)
    ensures NoEmptyValue(f) ==> (StoredMatch(f, e) <==> f.Matches(e))
  {
    hide TagMatches, StoredTagMatches;
    forall key | key in f.tag
      ensures TrimHash(key) == key[1..]
      ensures TagMatches(e.tags, key[1..], f.tag[key]) ==> StoredTagMatches(e.tags, key[1..], f.tag[key])
      ensures "" !in f.tag[key] ==> (TagMatches(e.tags, key[1..], f.tag[key]) <==> StoredTagMatches(e.tags, key[1..], f.tag[key]))
    {
      TagsAgree(e.tags, key[1..], f.tag[key]);
    }
  }

  /** Some event could have columns the filter asks for. */
  predicate ColumnsPossible(f: Filter) {
    && (f.since.Some? && f.until.Some? ==> f.since.value <= f.until.value)
    && (f.since.Some? && f.cursor.Some? && f.since.value >= f.cursor.value.createdAt ==>
          f.since.value == f.cursor.value.createdAt && (f.ids == [] || exists id | id in f.ids :: id > f.cursor.value.id))
  }

  predicate SomeEmptyList(f: Filter) {
    exists key | key in f.tag :: f.tag[key] == []
  }

  lemma PossibleColumns(f: Filter, row: EventRow)
    requires ColumnsMatch(f, row) && CursorAllows(f, row.createdAt, row.id)
    ensures ColumnsPossible(f)
  {
  }

  /** An event whose columns the filter accepts, given its tags. */
  lemma Witness(f: Filter, tags: seq<Tag>) returns (e: Event)
    requires ColumnsPossible(f)
    ensures e.tags == tags && ColumnsMatch(f, RowOf(e)) && CursorAllows(f, e.createdAt, e.id)
  {
    var top := if f.until.Some? then f.until.value else 0;
    var bound := if f.cursor.Some? && f.cursor.value.createdAt <= top then f.cursor.value.createdAt - 1 else top;
    var createdAt := if f.since.Some? then f.since.value else bound;
    var past := if f.cursor.Some? then f.cursor.value.id else 0;
    var id: Id := past + 1;
    if f.ids != [] {
      id := f.ids[0];
      if exists i | i in f.ids :: i > past {
        id :| id in f.ids && id > past;
      }
    }
    e := Event(id, if f.authors == [] then "" else f.authors[0], createdAt, if f.kinds == [] then 0 else f.kinds[0], tags, "", "");
    hide ExtractDTag;
  }

  /** One tag per key: a bare one for `bare`, one with a wanted value for every other key. */
  lemma {:induction false} WitnessTags(f: Filter, keys: set<string>, bare: string) returns (tags: seq<Tag>)
    requires HashKeys(f) && keys <= f.tag.Keys && bare in f.tag && !SomeEmptyList(f)
    ensures forall key | key in keys && key != bare :: StoredTagMatches(tags, key[1..], f.tag[key])
    ensures forall i | 0 <= i < |tags| :: |tags[i]| >= 2 ==> tags[i][0] != bare[1..]
    decreases |keys|
  {
    if keys == {} {
      tags := [];
    } else {
      var key :| key in keys;
      var rest := WitnessTags(f, keys - {key}, bare);
      if key == bare {
        tags := rest;
      } else {
        assert key == "#" + key[1..] && bare == "#" + bare[1..];
        var t: Tag := [key[1..], f.tag[key][0]];
        tags := rest + [t];
        assert TagName(tags[|rest|]) == key[1..] && TagValue(tags[|rest|]) in f.tag[key];
        forall k | k in keys && k != bare && k != key ensures StoredTagMatches(tags, k[1..], f.tag[k]) {
          StillThere(rest, t, k[1..], f.tag[k]);
        }
      }
    }
  }

  lemma StillThere(tags: seq<Tag>, t: Tag, name: string, wanted: seq<string>)
    requires StoredTagMatches(tags, name, wanted)
    ensures StoredTagMatches(tags + [t], name, wanted)
  {
    var i :| 0 <= i < |tags| && TagName(tags[i]) == name && TagValue(tags[i]) in wanted;
    assert (tags + [t])[i] == tags[i];
  }

  lemma Differing(f: Filter, key: string) returns (e: Event)
    requires HashKeys(f) && !f.HasSearch() && key in f.tag && "" in f.tag[key] && !SomeEmptyList(f) && ColumnsPossible(f)
    ensures StoredMatch(f, e) && !f.Matches(e)
  {
    hide ColumnsMatch, ColumnsPossible, CursorAllows, StoredTagMatches;
    var others := WitnessTags(f, f.tag.Keys, key);
    var bare: Tag := [key[1..]];
    e := Witness(f, others + [bare]);
    BareMatches(others, key[1..], f.tag[key]);
    forall k | k in f.tag ensures StoredTagMatches(e.tags, k[1..], f.tag[k]) {
      if k != key {
        StillThere(others, bare, k[1..], f.tag[k]);
      }
    }
    assert !TagMatches(e.tags, TrimHash(key), f.tag[key]);
  }

  lemma BareMatches(tags: seq<Tag>, name: string, wanted: seq<string>)
    requires "" in wanted
    ensures StoredTagMatches(tags + [[name]], name, wanted)
  {
    var all: seq<Tag> := tags + [[name]];
    assert TagName(all[|tags|]) == name && TagValue(all[|tags|]) in wanted;
  }

  /**
   * Compiled and live matching agree on every event exactly when no tag value asked for is empty, or
   * the filter can match nothing anyway.
   */
  lemma AgreesExactlyWhen(f: Filter)
    requires HashKeys(f) && !f.HasSearch()
    ensures (forall e :: StoredMatch(f, e) <==> f.Matches(e)) <==> NoEmptyValue(f) || SomeEmptyList(f) || !ColumnsPossible(f)
  {
    hide ColumnsMatch, ColumnsPossible, StoredTagMatches, TagMatches, CursorAllows;
    if NoEmptyValue(f) || SomeEmptyList(f) || !ColumnsPossible(f) {
      forall e ensures StoredMatch(f, e) <==> f.Matches(e) {
        CompiledIsMatches(f, e);
        if StoredMatch(f, e) {
          PossibleColumns(f, RowOf(e));
        }
      }
    } else {
      var key :| key in f.tag && "" in f.tag[key];
      var e := Differing(f, key);
      assert StoredMatch(f, e) && !f.Matches(e);
    }
  }

  /** The smallest disagreement: a bare `p` tag is stored with value "". */
  lemma BareTagIsFoundByQueriesOnly()
    ensures var f := Filter(None, [], [], [], None, None, None, "", map["#p" := [""]]);
            var e := Event(1, "", 0, 1, [["p"]], "", "");
            HashKeys(f) && StoredMatch(f, e) && !f.Matches(e)
  {
    var f := Filter(None, [], [], [], None, None, None, "", map["#p" := [""]]);
    var e := Event(1, "", 0, 1, [["p"]], "", "");
    assert "#p"[1..] == "p";
    assert TagName(e.tags[0]) == "p" && TagValue(e.tags[0]) == "";
    assert "#p" in f.tag && !TagMatches(e.tags, TrimHash("#p"), f.tag["#p"]);
  }

  // -------------------------------------------------------------------- querying

  predicate NewerRow(a: EventRow, b: EventRow) {
    a.createdAt > b.createdAt || (a.createdAt == b.createdAt && a.id < b.id)
  }

  lemma RowOrder()
    ensures Strict(NewerRow) && forall a, b :: NewerRow(RowOf(a), RowOf(b)) == Newer(a, b)
  {
    hide ExtractDTag;
  }

  ghost function StoredMatching(s: set<Event>, f: Filter): set<Event>
    requires HashKeys(f)
  {
    set e | e in s && StoredMatch(f, e)
  }

  function Limited<T>(xs: seq<T>, limit: Option<int>): seq<T> {
    if limit.Some? && 0 < limit.value < |xs| then xs[..limit.value] else xs
  }

  /** The rows one filter contributes: newest first, and none at all for a filter with search text. */
  ghost function Selected(s: set<Event>, f: Filter): seq<Event>
    requires UniqueIds(s) && HashKeys(f)
  {
    if f.HasSearch() then []
    else
      NewerIsTotal(StoredMatching(s, f));
      Limited(Sort(StoredMatching(s, f), Newer), f.limit)
  }

  ghost predicate AllHashKeys(filters: seq<Filter>) {
    forall i | 0 <= i < |filters| :: HashKeys(filters[i])
  }

  ghost function SelectedByAny(s: set<Event>, filters: seq<Filter>): set<Event>
    requires UniqueIds(s) && AllHashKeys(filters)
  {
    set e | e in s && exists i | 0 <= i < |filters| :: e in Selected(s, filters[i])
  }

  /** `QueryEvents`: the union over the filters, newest first. */
  ghost function Queried(s: set<Event>, filters: seq<Filter>): seq<Event>
    requires UniqueIds(s) && AllHashKeys(filters)
  {
    NewerIsTotal(SelectedByAny(s, filters));
    Sort(SelectedByAny(s, filters), Newer)
  }

  lemma AcceptedRows(s: set<Event>, f: Filter, conds: seq<Cond>, args: seq<Arg>, found: set<EventRow>)
    requires UniqueIds(s) && HashKeys(f)
    requires forall row, tags :: Eval(conds, args, row, tags) == Some(RowMatches(f, row, tags))
    requires found == set id | id in RowTable(s) && Eval(conds, args, RowTable(s)[id], TagTable(s)) == Some(true) :: RowTable(s)[id]
    ensures found == set e | e in StoredMatching(s, f) :: RowOf(e)
  {
    hide RowTable, TagTable, RowMatches, Eval, StoredMatch, UniqueIds, RowOf;
    RowsHoldEvents(s);
    forall e | e in s ensures RowMatches(f, RowOf(e), TagTable(s)) <==> StoredMatch(f, e) {
      RowsDecide(s, f, e);
    }
    forall row | row in found ensures row in set e | e in StoredMatching(s, f) :: RowOf(e) {
      var id :| id in RowTable(s) && Eval(conds, args, RowTable(s)[id], TagTable(s)) == Some(true) && row == RowTable(s)[id];
      var e :| e in s && e.id == id;
      assert e in StoredMatching(s, f);
    }
  }

  method SelectRows(store: Store, f: Filter) returns (rows: seq<EventRow>)
    requires store.Valid() && HashKeys(f)
    ensures rows == RowsOf(Selected(store.stored, f))
  {
    hide UniqueIds, RowTable, TagTable, Eval, RowMatches, StoredMatch, Sort, RowOf, Strict, TotalOn;
    if f.HasSearch() {
      return [];
    }
    var conds, args := CompileQuery(f);
    var found := set id | id in store.events && Eval(conds, args, store.events[id], store.tags) == Some(true) :: store.events[id];
    ghost var matching := StoredMatching(store.stored, f);
    AcceptedRows(store.stored, f, conds, args, found);
    UniqueSubset(store.stored, matching);
    NewerIsTotal(matching);
    RowOrder();
    RowsSortAsEvents(matching, found, NewerRow, Newer);
    rows := SortSet(found, NewerRow);
    rows := Limited(rows, f.limit);
  }

  lemma SelectedIsStored(s: set<Event>, f: Filter)
    requires UniqueIds(s) && HashKeys(f)
    ensures forall e | e in Selected(s, f) :: e in s && StoredMatch(f, e)
    ensures !f.HasSearch() && (f.limit.None? || f.limit.value <= 0) ==> Elements(Selected(s, f)) == StoredMatching(s, f)
    ensures f.HasSearch() ==> Selected(s, f) == []
  {
    hide Sort, StoredMatch;
    NewerIsTotal(StoredMatching(s, f));
    var all := Sort(StoredMatching(s, f), Newer);
    assert forall e | e in all :: e in Elements(all);
  }

  /** The rows collected by id, over all filters. */
  ghost predicate Collected(s: set<Event>, filters: seq<Filter>, byId: map<Id, EventRow>)
    requires UniqueIds(s) && AllHashKeys(filters)
  {
    && (forall e | e in SelectedByAny(s, filters) :: e.id in byId && byId[e.id] == RowOf(e))
    && (forall id | id in byId :: exists e | e in SelectedByAny(s, filters) :: e.id == id)
  }

  method CollectRows(store: Store, filters: seq<Filter>) returns (byId: map<Id, EventRow>)
    requires store.Valid() && AllHashKeys(filters)
    ensures Collected(store.stored, filters, byId)
  {
    hide UniqueIds, RowTable, TagTable, Selected, SelectedByAny, RowOf, RowsOf, HashKeys, Collected;
    byId := map[];
    NothingCollected(store.stored);
    assert filters[..0] == [];
    for i := 0 to |filters|
      invariant Collected(store.stored, filters[..i], byId)
    {
      var rows := SelectRows(store, filters[i]);
      ghost var was := byId;
      SelectedIsStored(store.stored, filters[i]);
      CollectedStored(store.stored, filters[..i], byId);
      var more := AddRows(byId, rows, store.stored, Selected(store.stored, filters[i]));
      assert filters[..i + 1] == filters[..i] + [filters[i]];
      CollectMore(store.stored, filters[..i], filters[i], was, more);
      byId := more;
    }
    assert filters[..|filters|] == filters;
  }

  lemma NothingCollected(s: set<Event>)
    requires UniqueIds(s)
    ensures AllHashKeys([]) && Collected(s, [], map[])
  {
  }

  lemma CollectedStored(s: set<Event>, filters: seq<Filter>, byId: map<Id, EventRow>)
    requires UniqueIds(s) && AllHashKeys(filters) && Collected(s, filters, byId)
    ensures forall id | id in byId :: exists e | e in s :: e.id == id && byId[id] == RowOf(e)
  {
    hide UniqueIds, RowOf, Selected;
  }

  lemma SelectedGrows(s: set<Event>, filters: seq<Filter>, f: Filter)
    requires UniqueIds(s) && AllHashKeys(filters) && HashKeys(f)
    requires forall e | e in Selected(s, f) :: e in s
    ensures AllHashKeys(filters + [f])
    ensures SelectedByAny(s, filters + [f]) == SelectedByAny(s, filters) + Elements(Selected(s, f))
  {
    hide Selected, UniqueIds, HashKeys;
    var all := filters + [f];
    assert all[|filters|] == f;
    assert forall i | 0 <= i < |filters| :: all[i] == filters[i];
  }

  lemma CollectMore(s: set<Event>, filters: seq<Filter>, f: Filter, was: map<Id, EventRow>, now: map<Id, EventRow>)
    requires UniqueIds(s) && AllHashKeys(filters) && HashKeys(f) && Collected(s, filters, was)
    requires forall e | e in Selected(s, f) :: e in s
    requires forall id | id in was :: id in now && now[id] == was[id]
    requires forall e | e in Selected(s, f) :: e.id in now && now[e.id] == RowOf(e)
    requires forall id | id in now :: id in was || exists e | e in Selected(s, f) :: e.id == id
    ensures AllHashKeys(filters + [f]) && Collected(s, filters + [f], now)
  {
    hide Selected, UniqueIds, RowOf, SelectedByAny;
    SelectedGrows(s, filters, f);
    forall id | id in now ensures exists e | e in SelectedByAny(s, filters + [f]) :: e.id == id {
      if id in was {
        var e :| e in SelectedByAny(s, filters) && e.id == id;
        assert e in SelectedByAny(s, filters + [f]);
      } else {
        var e :| e in Selected(s, f) && e.id == id;
        assert e in Elements(Selected(s, f));
      }
    }
  }

  /** Rows go into the map by id; a row already there is the same row. */
  method AddRows(byId: map<Id, EventRow>, rows: seq<EventRow>, ghost s: set<Event>, ghost es: seq<Event>)
    returns (more: map<Id, EventRow>)
    requires UniqueIds(s) && rows == RowsOf(es) && forall e | e in es :: e in s
    requires forall id | id in byId :: exists e | e in s :: e.id == id && byId[id] == RowOf(e)
    ensures forall id | id in byId :: id in more && more[id] == byId[id]
    ensures forall e | e in es :: e.id in more && more[e.id] == RowOf(e)
    ensures forall id | id in more :: id in byId || exists e | e in es :: e.id == id
  {
    hide ExtractDTag;
    more := byId;
    for i := 0 to |rows|
      invariant forall id | id in byId :: id in more && more[id] == byId[id]
      invariant forall k | 0 <= k < i :: es[k].id in more && more[es[k].id] == RowOf(es[k])
      invariant forall id | id in more :: id in byId || exists k | 0 <= k < i :: es[k].id == id
    {
      assert es[i] in s;
      more := more[rows[i].id := rows[i]];
    }
  }

  lemma SelectedSubset(s: set<Event>, filters: seq<Filter>)
    requires UniqueIds(s) && AllHashKeys(filters)
    ensures UniqueIds(SelectedByAny(s, filters)) && SelectedByAny(s, filters) <= s
  {
  }

  lemma CollectedRows(s: set<Event>, filters: seq<Filter>, byId: map<Id, EventRow>)
    requires UniqueIds(s) && AllHashKeys(filters) && Collected(s, filters, byId)
    ensures byId.Values == set e | e in SelectedByAny(s, filters) :: RowOf(e)
    ensures forall e | e in SelectedByAny(s, filters) :: e.id in byId
  {
    hide UniqueIds, SelectedByAny, RowOf;
    assert forall e | e in SelectedByAny(s, filters) :: RowOf(e) == byId[e.id];
  }

  /** Rows of all filters by id, sorted, and joined with their tags. */
  method QueryEvents(store: Store, filters: seq<Filter>) returns (events: seq<Event>)
    requires store.Valid() && AllHashKeys(filters)
    ensures events == Queried(store.stored, filters)
  {
    hide UniqueIds, RowTable, TagTable, GroupRows, SelectedByAny, Collected, RowOf, Sort, Strict, TotalOn, RowsFor, Assemble;
    ghost var s := store.stored;
    ghost var chosen := SelectedByAny(s, filters);
    var byId := CollectRows(store, filters);
    SelectedSubset(s, filters);
    CollectedRows(s, filters, byId);
    NewerIsTotal(chosen);
    RowOrder();
    RowsSortAsEvents(chosen, byId.Values, NewerRow, Newer);
    var rows := SortSet(byId.Values, NewerRow);
    ghost var es := Queried(s, filters);
    RowsAreOrdered(s);
    PartOfTags(store.tags, byId.Keys);
    var tagRows := SortSet(RowsFor(store.tags, byId.Keys), RowBefore);
    RowsRoundTrip(s, byId.Keys);
    var tags := GroupTagRows(tagRows);
    events := seq(|rows|, i requires 0 <= i < |rows| => Assemble(rows[i], tags.value));
    forall i | 0 <= i < |rows| ensures events[i] == es[i] {
      assert es[i] in Elements(es);
      assert rows[i] == RowOf(es[i]);
    }
  }

  // -------------------------------------------------------------------- counting

  /** The text of a counting sub-query, clause by clause. */
  datatype Piece = SelectIds | Where | And | Condition(cond: Cond)

  function Text(conds: seq<Cond>): seq<Piece>
    decreases |conds|
  {
    if conds == [] then [SelectIds]
    else Text(conds[..|conds| - 1]) + [if |conds| == 1 then Where else And, Condition(conds[|conds| - 1])]
  }

  /** Reading the text back: one WHERE, then ANDs. */
  function WhereOf(sql: seq<Piece>): Option<seq<Cond>>
    decreases |sql|
  {
    if sql == [SelectIds] then Some([])
    else if |sql| < 3 || !sql[|sql| - 1].Condition? then None
    else
      match WhereOf(sql[..|sql| - 2])
      case None => None
      case Some(conds) =>
        if sql[|sql| - 2] == (if conds == [] then Where else And) then Some(conds + [sql[|sql| - 1].cond]) else None
  }

  lemma {:induction false} TextReadsBack(conds: seq<Cond>)
    ensures WhereOf(Text(conds)) == Some(conds) && |Text(conds)| == 1 + 2 * |conds|
    decreases |conds|
  {
    if conds != [] {
      var n := |conds| - 1;
      TextReadsBack(conds[..n]);
      assert Text(conds)[..|Text(conds)| - 2] == Text(conds[..n]);
      assert conds == conds[..n] + [conds[n]];
    }
  }

  function EvalSql(sql: seq<Piece>, args: seq<Arg>, row: EventRow, tags: set<TagRow>): Option<bool> {
    match WhereOf(sql)
    case None => None
    case Some(conds) => Eval(conds, args, row, tags)
  }

  function Placeholders(conds: seq<Cond>): nat
    decreases |conds|
  {
    if conds == [] then 0 else Placeholders(conds[..|conds| - 1]) + Holes(conds[|conds| - 1])
  }

  /** Counting ignores a cursor. */
  function Cursorless(f: Filter): Filter {
    f.(cursor := None)
  }

  method CountColumns(f: Filter) returns (sql: seq<Piece>, args: seq<Arg>, first: bool)
    ensures sql == Text(CondsOf(ColumnParts(f))) && args == ArgsOf(ColumnParts(f))
    ensures first <==> CondsOf(ColumnParts(f)) == []
  {
    hide ColumnParts, CondsOf, ArgsOf;
    var listed := CondsOf(ColumnParts(f));
    sql, args, first := [SelectIds], ArgsOf(ColumnParts(f)), true;
    for i := 0 to |listed|
      invariant sql == Text(listed[..i]) && (first <==> i == 0)
    {
      assert listed[..i + 1][..i] == listed[..i];
      sql := sql + [if first then Where else And, Condition(listed[i])];
      first := false;
    }
    assert listed[..|listed|] == listed;
  }

  /** The tag clauses in ranging order; unlike the query, an empty list does not stop the loop. */
  method CountFilterSubQuery(f: Filter) returns (sql: seq<Piece>, args: seq<Arg>, skip: bool)
    requires HashKeys(f)
    ensures skip == f.HasSearch()
    ensures !skip ==> WhereOf(sql).Some? && |args| == Placeholders(WhereOf(sql).value)
    ensures !skip ==> forall row, tags :: EvalSql(sql, args, row, tags) == Some(RowMatches(Cursorless(f), row, tags))
  {
    hide Eval, RowMatches, TagParts, CondsOf, ArgsOf, ColumnParts, WhereOf, Text, Placeholders, KeysIn;
    if f.HasSearch() {
      return [], [], true;
    }
    ghost var order: seq<string>;
    sql, args, order := CountClauses(f);
    CountedMeans(f, order);
    TextReadsBack(CondsOf(ColumnParts(f) + TagParts(f, order)));
    return sql, args, false;
  }

  method CountClauses(f: Filter) returns (sql: seq<Piece>, args: seq<Arg>, ghost order: seq<string>)
    requires HashKeys(f)
    ensures KeysIn(f, order) && Elements(order) == f.tag.Keys
    ensures sql == Text(CondsOf(ColumnParts(f) + TagParts(f, order))) && args == ArgsOf(ColumnParts(f) + TagParts(f, order))
  {
    hide TagParts, TagPart, CondsOf, ArgsOf, ColumnParts, Text;
    ghost var base := ColumnParts(f);
    var first: bool;
    sql, args, first := CountColumns(f);
    var keys := f.tag.Keys;
    order := [];
    NoKeys(f, base);
    while keys != {}
      invariant keys <= f.tag.Keys && KeysIn(f, order) && Elements(order) == f.tag.Keys - keys
      invariant args == ArgsOf(base + TagParts(f, order))
      invariant sql == Text(CondsOf(base + TagParts(f, order)))
      invariant first <==> CondsOf(base + TagParts(f, order)) == []
      decreases |keys|
    {
      var key :| key in keys;
      keys := keys - {key};
      var part := TagPart(key, f.tag[key]);
      OneMoreKey(f, base, order, key);
      TextGrows(CondsOf(base + TagParts(f, order)), part.cond);
      order := order + [key];
      sql := sql + [if first then Where else And, Condition(part.cond)];
      args := args + part.args;
      first := false;
    }
  }

  lemma TextGrows(conds: seq<Cond>, c: Cond)
    ensures Text(conds + [c]) == Text(conds) + [if conds == [] then Where else And, Condition(c)]
  {
    assert (conds + [c])[..|conds + [c]| - 1] == conds;
  }

  lemma {:induction false} ArgsFill(parts: seq<Part>)
    requires AllFit(parts)
    ensures |ArgsOf(parts)| == Placeholders(CondsOf(parts))
    decreases |parts|
  {
    if parts != [] {
      var n := |parts| - 1;
      ArgsFill(parts[..n]);
      assert CondsOf(parts)[..n] == CondsOf(parts[..n]);
    }
  }

  lemma CountedMeans(f: Filter, order: seq<string>)
    requires HashKeys(f) && KeysIn(f, order) && Elements(order) == f.tag.Keys
    ensures var parts := ColumnParts(f) + TagParts(f, order);
            && |ArgsOf(parts)| == Placeholders(CondsOf(parts))
            && forall row, tags :: Eval(CondsOf(parts), ArgsOf(parts), row, tags) == Some(RowMatches(Cursorless(f), row, tags))
  {
    hide Eval, RowMatches, AllHold, AllFit, TagPart, TagParts, CondsOf, ArgsOf, Elements;
    var g := Cursorless(f);
    var parts := ColumnParts(f) + TagParts(f, order);
    SameParts(f, order);
    assert ColumnParts(g) + CursorParts(g) + TagParts(g, order) == parts;
    forall row, tags ensures Eval(CondsOf(parts), ArgsOf(parts), row, tags) == Some(RowMatches(g, row, tags)) {
      QueryPartsMean(g, order, row, tags);
    }
    var row := EventRow(0, "", 0, 0, "", "", "");
    ColumnPartsMean(f, row, {});
    TagPartsMean(f, order, row, {});
    AllHoldAppend(ColumnParts(f), TagParts(f, order), row, {});
    ArgsFill(parts);
  }

  lemma SameParts(f: Filter, order: seq<string>)
    requires KeysIn(f, order)
    ensures KeysIn(Cursorless(f), order)
    ensures ColumnParts(Cursorless(f)) == ColumnParts(f) && TagParts(Cursorless(f), order) == TagParts(f, order)
  {
  }

  function HitIds(sql: seq<Piece>, args: seq<Arg>, rows: map<Id, EventRow>, tags: set<TagRow>): set<Id> {
    set id | id in rows && EvalSql(sql, args, rows[id], tags) == Some(true)
  }

  /** `UNION` of the sub-queries, each binding its share of the arguments; the result is a set of ids. */
  function UnionIds(subs: seq<seq<Piece>>, args: seq<Arg>, rows: map<Id, EventRow>, tags: set<TagRow>): Option<set<Id>>
    decreases |subs|
  {
    if subs == [] then
      if args == [] then Some({}) else None
    else
      var sql := subs[|subs| - 1];
      if WhereOf(sql).None? || |args| < Placeholders(WhereOf(sql).value) then None else
        var k := |args| - Placeholders(WhereOf(sql).value);
        match UnionIds(subs[..|subs| - 1], args[..k], rows, tags)
        case None => None
        case Some(ids) => Some(ids + HitIds(sql, args[k..], rows, tags))
  }

  ghost function CountedIds(s: set<Event>, filters: seq<Filter>): set<Id>
    requires AllHashKeys(filters)
  {
    set e | e in s && exists i | 0 <= i < |filters| :: !filters[i].HasSearch() && StoredMatch(Cursorless(filters[i]), e) :: e.id
  }

  lemma UnionGrows(
      subs: seq<seq<Piece>>, args: seq<Arg>, sql: seq<Piece>, more: seq<Arg>, rows: map<Id, EventRow>, tags: set<TagRow>)
    requires UnionIds(subs, args, rows, tags).Some? && WhereOf(sql).Some? && |more| == Placeholders(WhereOf(sql).value)
    ensures UnionIds(subs + [sql], args + more, rows, tags) ==
            Some(UnionIds(subs, args, rows, tags).value + HitIds(sql, more, rows, tags))
  {
    hide HitIds, WhereOf, Placeholders;
    var k := |args + more| - |more|;
    assert (subs + [sql])[..|subs + [sql]| - 1] == subs;
    assert (args + more)[..k] == args && (args + more)[k..] == more;
  }

  ghost function MatchingIds(s: set<Event>, f: Filter): set<Id>
    requires HashKeys(f)
  {
    if f.HasSearch() then {} else Ids(StoredMatching(s, Cursorless(f)))
  }

  lemma CountedGrows(s: set<Event>, filters: seq<Filter>, f: Filter)
    requires AllHashKeys(filters) && HashKeys(f)
    ensures AllHashKeys(filters + [f])
    ensures CountedIds(s, filters + [f]) == CountedIds(s, filters) + MatchingIds(s, f)
  {
    hide HashKeys, StoredMatch, Cursorless;
    KeysStay(filters + [f]);
    var all := filters + [f];
    assert all[|filters|] == f;
    assert forall i | 0 <= i < |filters| :: all[i] == filters[i];
  }

  lemma KeysStay(filters: seq<Filter>)
    ensures forall i | 0 <= i < |filters| && HashKeys(filters[i]) :: HashKeys(Cursorless(filters[i]))
  {
  }

  lemma FoundIds(s: set<Event>, f: Filter, sql: seq<Piece>, args: seq<Arg>)
    requires UniqueIds(s) && HashKeys(f)
    requires forall row, tags :: EvalSql(sql, args, row, tags) == Some(RowMatches(f, row, tags))
    ensures HitIds(sql, args, RowTable(s), TagTable(s)) == Ids(StoredMatching(s, f))
  {
    hide RowTable, TagTable, RowMatches, EvalSql, StoredMatch, UniqueIds, RowOf;
    RowsHoldEvents(s);
    forall e | e in s ensures RowMatches(f, RowOf(e), TagTable(s)) <==> StoredMatch(f, e) {
      RowsDecide(s, f, e);
    }
    var found := HitIds(sql, args, RowTable(s), TagTable(s));
    forall id | id in found ensures id in Ids(StoredMatching(s, f)) {
      var e :| e in s && e.id == id;
      assert e in StoredMatching(s, f);
    }
  }

  /** No filters at all counts everything; otherwise the distinct ids of the union of the sub-queries. */
  ghost function CountOf(s: set<Event>, filters: seq<Filter>): nat
    requires AllHashKeys(filters)
  {
    if filters == [] then |s| else |CountedIds(s, filters)|
  }

  method CountEvents(store: Store, filters: seq<Filter>) returns (count: nat)
    requires store.Valid() && AllHashKeys(filters)
    ensures count == CountOf(store.stored, filters)
  {
    hide UniqueIds, RowTable, TagTable, EvalSql, RowMatches, CountedIds, HashKeys, MatchingIds, UnionIds, HitIds,
         WhereOf, Placeholders, StoredMatching;
    if |filters| == 0 {
      RowCount(store.stored);
      return |store.events|;
    }
    var subs: seq<seq<Piece>>, allArgs: seq<Arg> := [], [];
    NothingCounted(store.stored, store.events, store.tags);
    assert filters[..0] == [];
    for i := 0 to |filters|
      invariant UnionIds(subs, allArgs, store.events, store.tags) == Some(CountedIds(store.stored, filters[..i]))
    {
      var f := filters[i];
      assert filters[..i + 1] == filters[..i] + [f];
      CountedGrows(store.stored, filters[..i], f);
      var sql, args, skip := CountFilterSubQuery(f);
      CountedAlone(store.stored, f);
      if skip {
        assert CountedIds(store.stored, filters[..i]) + {} == CountedIds(store.stored, filters[..i]);
        continue;
      }
      UnionGrows(subs, allArgs, sql, args, store.events, store.tags);
      FoundIds(store.stored, Cursorless(f), sql, args);
      subs, allArgs := subs + [sql], allArgs + args;
    }
    assert filters[..|filters|] == filters;
    if |subs| == 0 {
      NothingCounted(store.stored, store.events, store.tags);
      NoSubQueries(allArgs, store.events, store.tags);
      return 0;
    }
    return |UnionIds(subs, allArgs, store.events, store.tags).value|;
  }

  lemma NothingCounted(s: set<Event>, rows: map<Id, EventRow>, tags: set<TagRow>)
    ensures AllHashKeys([]) && UnionIds([], [], rows, tags) == Some(CountedIds(s, []))
  {
    assert CountedIds(s, []) == {};
  }

  lemma NoSubQueries(args: seq<Arg>, rows: map<Id, EventRow>, tags: set<TagRow>)
    requires UnionIds([], args, rows, tags).Some?
    ensures UnionIds([], args, rows, tags) == Some({})
  {
  }

  lemma CountedAlone(s: set<Event>, f: Filter)
    requires HashKeys(f)
    ensures HashKeys(Cursorless(f))
    ensures MatchingIds(s, f) == if f.HasSearch() then {} else Ids(StoredMatching(s, Cursorless(f)))
  {
  }

  function Unlimit(filters: seq<Filter>): seq<Filter> {
    seq(|filters|, i requires 0 <= i < |filters| => filters[i].(limit := None))
  }

  lemma {:induction false} IdsCount(s: set<Event>)
    requires UniqueIds(s)
    ensures |Ids(s)| == |s|
    decreases |s|
  {
    if s == {} {
      assert Ids(s) == {};
    } else {
      var e :| e in s;
      OtherIds(s, e);
      IdsCount(s - {e});
      assert Ids(s) == Ids(s - {e}) + {e.id};
    }
  }

  lemma UnlimitedSelection(s: set<Event>, f: Filter)
    requires UniqueIds(s) && HashKeys(f)
    ensures HashKeys(f.(limit := None))
    ensures Elements(Selected(s, f.(limit := None))) == if f.HasSearch() then {} else StoredMatching(s, f)
  {
    hide UniqueIds, Selected, ColumnsMatch, StoredTagMatches, CursorAllows;
    var g := f.(limit := None);
    SelectedIsStored(s, g);
    forall e ensures StoredMatch(g, e) <==> StoredMatch(f, e) {
      SameColumns(f, g, e);
    }
  }

  lemma SameColumns(f: Filter, g: Filter, e: Event)
    requires g == f.(limit := None)
    ensures ColumnsMatch(g, RowOf(e)) == ColumnsMatch(f, RowOf(e))
    ensures CursorAllows(g, e.createdAt, e.id) == CursorAllows(f, e.createdAt, e.id)
  {
  }

  /** Some filter finds the event, and some filter counts it, cursor or no cursor. */
  ghost predicate FoundBy(filters: seq<Filter>, e: Event)
    requires AllHashKeys(filters)
  {
    exists i | 0 <= i < |filters| :: !filters[i].HasSearch() && StoredMatch(filters[i], e)
  }

  ghost predicate CountedBy(filters: seq<Filter>, e: Event)
    requires AllHashKeys(filters)
  {
    exists i | 0 <= i < |filters| :: !filters[i].HasSearch() && StoredMatch(Cursorless(filters[i]), e)
  }

  lemma CursorNarrows(f: Filter, e: Event)
    requires HashKeys(f)
    ensures HashKeys(Cursorless(f))
    ensures StoredMatch(f, e) <==> StoredMatch(Cursorless(f), e) && CursorAllows(f, e.createdAt, e.id)
  {
    hide StoredTagMatches;
    var g := Cursorless(f);
    assert ColumnsMatch(g, RowOf(e)) == ColumnsMatch(f, RowOf(e)) && CursorAllows(g, e.createdAt, e.id);
  }

  lemma UnlimitedFinds(s: set<Event>, filters: seq<Filter>)
    requires UniqueIds(s) && AllHashKeys(filters)
    ensures AllHashKeys(Unlimit(filters))
    ensures SelectedByAny(s, Unlimit(filters)) == set e | e in s && FoundBy(filters, e)
  {
    hide UniqueIds, Selected, HashKeys, StoredMatch;
    var every := Unlimit(filters);
    forall i | 0 <= i < |filters|
      ensures HashKeys(every[i])
      ensures Elements(Selected(s, every[i])) == if filters[i].HasSearch() then {} else StoredMatching(s, filters[i])
    {
      UnlimitedSelection(s, filters[i]);
    }
    forall e | e in s ensures e in SelectedByAny(s, every) <==> FoundBy(filters, e) {
      assert forall i | 0 <= i < |filters| :: e in Selected(s, every[i]) <==> e in Elements(Selected(s, every[i]));
    }
  }

  lemma CountedAre(s: set<Event>, filters: seq<Filter>)
    requires UniqueIds(s) && AllHashKeys(filters)
    ensures |CountedIds(s, filters)| == |set e | e in s && CountedBy(filters, e)|
  {
    hide UniqueIds, StoredMatch, HashKeys, Cursorless;
    KeysStay(filters);
    var counted := set e | e in s && CountedBy(filters, e);
    assert CountedIds(s, filters) == Ids(counted);
    UniqueSubset(s, counted);
    IdsCount(counted);
  }

  lemma FoundIsCounted(filters: seq<Filter>, e: Event)
    requires AllHashKeys(filters) && FoundBy(filters, e)
    ensures CountedBy(filters, e)
  {
    hide StoredMatch, HashKeys, Cursorless, CursorAllows;
    var i :| 0 <= i < |filters| && !filters[i].HasSearch() && StoredMatch(filters[i], e);
    CursorNarrows(filters[i], e);
  }

  lemma NoneFound(s: set<Event>)
    ensures forall e :: !FoundBy([], e)
  {
  }

  lemma SameSize<T>(part: set<T>, whole: set<T>)
    requires part <= whole
    ensures |part| == |whole| <==> part == whole
  {
    assert whole == part + (whole - part);
  }

  /**
   * The count is the number of events the same filters return without limits if and only if, for an empty
   * list, nothing is stored, and otherwise every event counted behind some filter's cursor is found by some filter.
   */
  lemma CountAgreesExactlyWhen(s: set<Event>, filters: seq<Filter>)
    requires UniqueIds(s) && AllHashKeys(filters)
    ensures AllHashKeys(Unlimit(filters))
    ensures CountOf(s, filters) == |Queried(s, Unlimit(filters))| <==>
            if filters == [] then s == {} else forall e | e in s && CountedBy(filters, e) :: FoundBy(filters, e)
  {
    hide UniqueIds, StoredMatch, HashKeys, Sort, Cursorless, CursorAllows, FoundBy, CountedBy, CountedIds, Selected,
         Strict, TotalOn, Sorted;
    UnlimitedFinds(s, filters);
    CountedAre(s, filters);
    var chosen := SelectedByAny(s, Unlimit(filters));
    SelectedSubset(s, Unlimit(filters));
    NewerIsTotal(chosen);
    SortedSize(Sort(chosen, Newer), Newer);
    var counted := set e | e in s && CountedBy(filters, e);
    assert chosen <= counted by {
      forall e | e in chosen ensures CountedBy(filters, e) {
        FoundIsCounted(filters, e);
      }
    }
    SameSize(chosen, counted);
    if filters == [] {
      assert chosen == {} by { NoneFound(s); }
      assert |Queried(s, Unlimit(filters))| == 0;
    } else {
      forall e | chosen == counted && e in s && CountedBy(filters, e) ensures FoundBy(filters, e) {
        assert e in chosen;
      }
      assert (forall e | e in s && CountedBy(filters, e) :: FoundBy(filters, e)) ==> counted <= chosen;
    }
  }

  /**
   * For a non-empty list of cursor-free filters, the count is the number of events the same filters return
   * without limits. Filters with search text add nothing to either.
   */
  lemma CountIsQuerySize(s: set<Event>, filters: seq<Filter>)
    requires UniqueIds(s) && AllHashKeys(filters) && forall i | 0 <= i < |filters| :: filters[i].cursor.None?
    ensures AllHashKeys(Unlimit(filters))
    ensures |CountedIds(s, filters)| == |Queried(s, Unlimit(filters))|
  {
    hide UniqueIds, StoredMatch, HashKeys, CountedIds, Queried;
    CountAgreesExactlyWhen(s, filters);
    assert forall i | 0 <= i < |filters| :: Cursorless(filters[i]) == filters[i];
    if filters == [] {
      NothingCounted(s, map[], {});
      NothingQueried(s);
    }
  }

  /** Cursor-free, the two part at the empty list only: it queries nothing and counts everything. */
  lemma EmptyListParts(s: set<Event>, filters: seq<Filter>)
    requires UniqueIds(s) && AllHashKeys(filters) && forall i | 0 <= i < |filters| :: filters[i].cursor.None?
    ensures AllHashKeys(Unlimit(filters))
    ensures CountOf(s, filters) == |Queried(s, Unlimit(filters))| <==> filters != [] || s == {}
  {
    hide UniqueIds, StoredMatch, HashKeys, CountedIds, Queried;
    CountAgreesExactlyWhen(s, filters);
    assert forall i | 0 <= i < |filters| :: Cursorless(filters[i]) == filters[i];
  }

  /** Counting a filter that carries a cursor: right exactly when the cursor passes everything the rest of the filter accepts. */
  lemma CursorIsNotCounted(s: set<Event>, f: Filter)
    requires UniqueIds(s) && HashKeys(f) && !f.HasSearch()
    ensures AllHashKeys([f]) && AllHashKeys(Unlimit([f])) && HashKeys(Cursorless(f))
    ensures CountOf(s, [f]) == |Queried(s, Unlimit([f]))| <==>
            forall e | e in StoredMatching(s, Cursorless(f)) :: CursorAllows(f, e.createdAt, e.id)
  {
    hide UniqueIds, StoredMatch, HashKeys, CountOf, Queried, Cursorless, CursorAllows;
    var one := [f];
    assert one[0] == f && AllHashKeys(one);
    CountAgreesExactlyWhen(s, one);
    KeysStay(one);
    forall e | e in s
      ensures CountedBy(one, e) <==> StoredMatch(Cursorless(f), e)
      ensures FoundBy(one, e) <==> StoredMatch(Cursorless(f), e) && CursorAllows(f, e.createdAt, e.id)
    {
      CursorNarrows(f, e);
      assert one[0] == f;
    }
  }

  lemma NothingQueried(s: set<Event>)
    requires UniqueIds(s)
    ensures AllHashKeys([]) && Queried(s, Unlimit([])) == []
  {
    NewerIsTotal(SelectedByAny(s, Unlimit([])));
    assert SelectedByAny(s, Unlimit([])) == {};
  }

  lemma SelectsIsStored(f: Filter, e: Event)
    requires HashKeys(f)
    ensures f.Selects(e) <==> !f.HasSearch() && StoredMatch(f, e)
  {
    hide StoredTagMatches;
    assert forall key | key in f.tag :: TrimHash(key) == key[1..];
  }

  /** The read that paging is built on is this query. */
  lemma PagingReadsTheStore(s: set<Event>, f: Filter)
    requires UniqueIds(s) && HashKeys(f)
    ensures AllHashKeys([f]) && Queried(s, [f]) == ReqQuery.QueryRows(s, f)
  {
    hide Sort, StoredMatch, UniqueIds;
    UniqueSubset(s, StoredMatching(s, f));
    UniqueSubset(s, ReqQuery.Matching(s, f));
    NewerIsTotal(StoredMatching(s, f));
    NewerIsTotal(ReqQuery.Matching(s, f));
    forall e | e in s ensures f.Selects(e) <==> !f.HasSearch() && StoredMatch(f, e) {
      SelectsIsStored(f, e);
    }
    if f.HasSearch() {
      assert ReqQuery.Matching(s, f) == {};
      NothingSorts();
    } else {
      assert ReqQuery.Matching(s, f) == StoredMatching(s, f);
    }
    assert Selected(s, f) == ReqQuery.QueryRows(s, f);
    SelectedSorted(s, f);
    OneFilter(s, f);
  }

  lemma NothingSorts()
    ensures Strict(Newer) && TotalOn(Newer, {}) && Sort({}, Newer) == []
  {
  }

  lemma SelectedSorted(s: set<Event>, f: Filter)
    requires UniqueIds(s) && HashKeys(f)
    ensures Sorted(Selected(s, f), Newer)
  {
    hide Sort;
  }

  lemma OneFilter(s: set<Event>, f: Filter)
    requires UniqueIds(s) && HashKeys(f) && Sorted(Selected(s, f), Newer)
    ensures AllHashKeys([f]) && Queried(s, [f]) == Selected(s, f)
  {
    hide Sort, Selected, HashKeys;
    SelectedIsStored(s, f);
    assert [f][0] == f;
    SelectedSubset(s, [f]);
    NewerIsTotal(SelectedByAny(s, [f]));
    assert SelectedByAny(s, [f]) == Elements(Selected(s, f));
    SortIs(Selected(s, f), Newer);
  }
}
