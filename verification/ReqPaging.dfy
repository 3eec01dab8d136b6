/**
 * Paging a REQ refines reading it in one shot: on a fixed store the pages end, never repeat an id,
 * spend exactly each filter's limit, and together return what one full read returns.
 */
module ReqPaging {
  import opened Nostr
  import opened Order
  import opened ReqQuery
  import opened Wrappers

  // ------------------------------------------------------------ one filter

  /** Everything the filter matches, in query order. */
  ghost function Full(store: set<Event>, f: Filter): seq<Event>
    requires UniqueIds(store)
  {
    AllRows(store, f.(cursor := None))
  }

  /** How many of those rows the filter's limit lets through. */
  ghost function Budget(store: set<Event>, f: Filter): nat
    requires UniqueIds(store)
  {
    if f.limit.Some? && f.limit.value > 0 then Min(f.limit.value, |Full(store, f)|) else |Full(store, f)|
  }

  ghost function Rest(store: set<Event>, fc: FilterCursor): seq<Event>
    requires UniqueIds(store)
  {
    AllRows(store, fc.base.(cursor := fc.cursor))
  }

  ghost function Position(store: set<Event>, fc: FilterCursor): int
    requires UniqueIds(store)
  {
    |Full(store, fc.base)| - |Rest(store, fc)|
  }

  /** The cursor stands at a position of the full list, with the matching budget left. */
  ghost predicate InStep(store: set<Event>, fc: FilterCursor)
    requires UniqueIds(store)
  {
    var full, p := Full(store, fc.base), Position(store, fc);
    var limited := fc.base.limit.Some? && fc.base.limit.value > 0;
    && fc.base.cursor.None?
    && 0 <= p <= Budget(store, fc.base)
    && Rest(store, fc) == full[p..]
    && (if limited then fc.remaining == fc.base.limit.value - p else fc.remaining == 0)
    && (fc.exhausted ==> p == Budget(store, fc.base))
    && (!fc.exhausted && limited ==> fc.remaining > 0)
  }

  lemma SameMatches(store: set<Event>, f: Filter, g: Filter)
    requires UniqueIds(store)
    requires g == f.(limit := g.limit)
    ensures AllRows(store, f) == AllRows(store, g)
  {
    hide Sort, UniqueIds;
    assert Matching(store, f) == Matching(store, g);
  }

  lemma FreshInStep(store: set<Event>, f: Filter)
    requires UniqueIds(store) && f.cursor.None?
    ensures InStep(store, NewCursor(f)) && Position(store, NewCursor(f)) == 0
  {
    assert f.(cursor := None) == f;
  }

  /** Moving the cursor to the last row read leaves exactly the rows behind it. */
  lemma RestAfter(store: set<Event>, f: Filter, c: Option<QueryCursor>, k: nat)
    requires UniqueIds(store)
    requires 0 < k <= |AllRows(store, f.(cursor := c))|
    ensures var rows := AllRows(store, f.(cursor := c));
            AllRows(store, f.(cursor := Some(CursorOf(rows[k - 1])))) == rows[k..]
  {
    hide Sort;
    var before := f.(cursor := c);
    var rows := AllRows(store, before);
    var last := rows[k - 1];
    var after := f.(cursor := Some(CursorOf(last)));
    NewerIsTotal(Matching(store, before));
    NewerIsTotal(Matching(store, after));
    assert last in Elements(rows) && before.Selects(last);
    forall e | e in store ensures after.Selects(e) <==> before.Selects(e) && Newer(last, e) {
      assert AfterCursor(e, CursorOf(last)) <==> Newer(last, e);
      assert after.Selects(e) ==> forall key | key in before.tag :: before.tag[key] == after.tag[key];
    }
    assert forall e | e in rows :: e in Elements(rows);
    SuffixIsGreater(rows, k, Newer);
    assert Elements(rows[k..]) == Matching(store, after) by {
      forall e | e in Matching(store, after) ensures e in Elements(rows[k..]) {
        assert e in Elements(rows) && Newer(last, e);
      }
    }
    SortIs(rows[k..], Newer);
  }

  lemma FetchedIsPrefix(store: set<Event>, fc: FilterCursor, pageSize: nat)
    requires UniqueIds(store) && pageSize >= 1 && !fc.exhausted
    ensures Fetched(store, fc, pageSize) == Prefix(Rest(store, fc), PageLimit(fc, pageSize))
  {
    hide AllRows, UniqueIds;
    SameMatches(store, fc.base.(cursor := fc.cursor), PageFilter(fc, pageSize));
  }

  lemma RestOfNext(store: set<Event>, fc: FilterCursor, pageSize: nat)
    requires UniqueIds(store) && pageSize >= 1 && !fc.exhausted
    ensures var rows := Fetched(store, fc, pageSize);
            && |rows| <= |Rest(store, fc)|
            && rows == Rest(store, fc)[..|rows|]
            && Rest(store, Next(store, fc, pageSize)) == Rest(store, fc)[|rows|..]
  {
    hide AllRows, UniqueIds, Fetched;
    FetchedIsPrefix(store, fc, pageSize);
    var rows, rest := Fetched(store, fc, pageSize), Rest(store, fc);
    if |rows| > 0 {
      RestAfter(store, fc.base, fc.cursor, |rows|);
      assert rows[|rows| - 1] == rest[|rows| - 1];
    }
  }

  lemma Advances(store: set<Event>, fc: FilterCursor, pageSize: nat)
    requires UniqueIds(store) && InStep(store, fc) && pageSize >= 1 && !fc.exhausted
    ensures var p, rows := Position(store, fc), Fetched(store, fc, pageSize);
            var next := Next(store, fc, pageSize);
            && InStep(store, next)
            && Position(store, next) == p + |rows|
            && p + |rows| <= |Full(store, fc.base)|
            && rows == Full(store, fc.base)[p..p + |rows|]
            && (rows == [] ==> next.exhausted)
  {
    hide UniqueIds, Fetched, Full, Rest;
    FetchedIsPrefix(store, fc, pageSize);
    RestOfNext(store, fc, pageSize);
    var full, p, rows := Full(store, fc.base), Position(store, fc), Fetched(store, fc, pageSize);
    var next := Next(store, fc, pageSize);
    assert next.base == fc.base;
    assert full[p..][..|rows|] == full[p..p + |rows|];
    assert full[p..][|rows|..] == full[p + |rows|..];
  }

  // ------------------------------------------------------------ all filters

  ghost predicate AllInStep(store: set<Event>, cursors: seq<FilterCursor>)
    requires UniqueIds(store)
  {
    forall i | 0 <= i < |cursors| :: InStep(store, cursors[i])
  }

  ghost function LeftOf(store: set<Event>, fc: FilterCursor): nat
    requires UniqueIds(store)
  {
    |Rest(store, fc)| + (if fc.exhausted then 0 else 1)
  }

  ghost function Left(store: set<Event>, cursors: seq<FilterCursor>): nat
    requires UniqueIds(store)
    decreases |cursors|
  {
    if cursors == [] then 0 else
      var n := |cursors| - 1;
      Left(store, cursors[..n]) + LeftOf(store, cursors[n])
  }

  lemma FilterShrinks(store: set<Event>, fc: FilterCursor, pageSize: nat)
    requires UniqueIds(store) && InStep(store, fc) && pageSize >= 1
    ensures var next := Next(store, fc, pageSize);
            && InStep(store, next)
            && next.base == fc.base
            && LeftOf(store, next) <= LeftOf(store, fc)
            && (!next.exhausted ==> LeftOf(store, next) < LeftOf(store, fc))
  {
    if !fc.exhausted {
      Advances(store, fc, pageSize);
    }
  }

  lemma {:induction false} PageShrinks(store: set<Event>, cursors: seq<FilterCursor>, pageSize: nat)
    requires UniqueIds(store) && AllInStep(store, cursors) && pageSize >= 1
    ensures var next := NextAll(store, cursors, pageSize);
            && AllInStep(store, next)
            && Left(store, next) <= Left(store, cursors)
            && (AnyUnexhausted(next) ==> Left(store, next) < Left(store, cursors))
    decreases |cursors|
  {
    hide InStep, LeftOf, Next, UniqueIds;
    if cursors != [] {
      var n := |cursors| - 1;
      var next := NextAll(store, cursors, pageSize);
      PageShrinks(store, cursors[..n], pageSize);
      assert next[..n] == NextAll(store, cursors[..n], pageSize);
      FilterShrinks(store, cursors[n], pageSize);
      assert forall i | 0 <= i < n :: next[i] == next[..n][i];
    }
  }

  /** The pages of one REQ, put end to end. */
  ghost function Pages(store: set<Event>, st: ReqState, found: seq<seq<Event>>, pageSize: nat): seq<Event>
    requires UniqueIds(store) && AllInStep(store, st.nonSearch) && pageSize >= 1
    decreases Left(store, st.nonSearch)
  {
    var page := NextPage(store, st, found, pageSize);
    PageShrinks(store, st.nonSearch, pageSize);
    if page.hasMore then page.out + Pages(store, page.state, found, pageSize) else page.out
  }

  /** Ids of the rows a filter has returned so far, and of all its limit lets it return. */
  ghost function Returned(store: set<Event>, fc: FilterCursor): set<Id>
    requires UniqueIds(store)
  {
    IdSet(Prefix(Full(store, fc.base), Position(store, fc)))
  }

  ghost function Allowed(store: set<Event>, f: Filter): set<Id>
    requires UniqueIds(store)
  {
    IdSet(Prefix(Full(store, f), Budget(store, f)))
  }

  ghost function ReturnedIds(store: set<Event>, cursors: seq<FilterCursor>): set<Id>
    requires UniqueIds(store)
    decreases |cursors|
  {
    if cursors == [] then {} else
      var n := |cursors| - 1;
      ReturnedIds(store, cursors[..n]) + Returned(store, cursors[n])
  }

  ghost function AllowedIds(store: set<Event>, cursors: seq<FilterCursor>): set<Id>
    requires UniqueIds(store)
    decreases |cursors|
  {
    if cursors == [] then {} else
      var n := |cursors| - 1;
      AllowedIds(store, cursors[..n]) + Allowed(store, cursors[n].base)
  }

  ghost function HitIds(found: seq<seq<Event>>): set<Id> {
    IdSet(Concat(found))
  }

  /** What has been marked as sent is what the filters and the search have returned. */
  ghost predicate Consistent(store: set<Event>, st: ReqState, found: seq<seq<Event>>)
    requires UniqueIds(store)
  {
    && AllInStep(store, st.nonSearch)
    && |found| == |st.search|
    && st.seen == (if st.searchDone then HitIds(found) else {}) + ReturnedIds(store, st.nonSearch)
  }

  lemma IdSetAppend(xs: seq<Event>, ys: seq<Event>)
    ensures IdSet(xs + ys) == IdSet(xs) + IdSet(ys)
  {
    assert forall e | e in xs || e in ys :: e in xs + ys;
  }

  lemma ReturnedGrowsBy(store: set<Event>, fc: FilterCursor, pageSize: nat)
    requires UniqueIds(store) && InStep(store, fc) && pageSize >= 1
    ensures var next := Next(store, fc, pageSize);
            Returned(store, next) == Returned(store, fc) + IdSet(Fetched(store, fc, pageSize))
  {
    hide Full, Rest, UniqueIds, QueryRows, Budget;
    if !fc.exhausted {
      Advances(store, fc, pageSize);
      var full, p, rows := Full(store, fc.base), Position(store, fc), Fetched(store, fc, pageSize);
      assert Prefix(full, p) == full[..p] && Prefix(full, p + |rows|) == full[..p + |rows|];
      assert full[..p + |rows|] == full[..p] + rows;
      IdSetAppend(full[..p], rows);
    }
  }

  lemma {:induction false} ReturnedGrows(store: set<Event>, cursors: seq<FilterCursor>, pageSize: nat)
    requires UniqueIds(store) && AllInStep(store, cursors) && pageSize >= 1
    ensures ReturnedIds(store, NextAll(store, cursors, pageSize)) ==
            ReturnedIds(store, cursors) + IdSet(FetchedRows(store, cursors, pageSize))
    decreases |cursors|
  {
    hide InStep, Returned, Next, Fetched, UniqueIds, IdSet;
    NoIds();
    if cursors != [] {
      var n := |cursors| - 1;
      var next := NextAll(store, cursors, pageSize);
      ReturnedGrows(store, cursors[..n], pageSize);
      assert next[..n] == NextAll(store, cursors[..n], pageSize);
      ReturnedGrowsBy(store, cursors[n], pageSize);
      IdSetAppend(FetchedRows(store, cursors[..n], pageSize), Fetched(store, cursors[n], pageSize));
    }
  }

  lemma {:induction false} AllowedStays(store: set<Event>, cursors: seq<FilterCursor>, pageSize: nat)
    requires UniqueIds(store) && pageSize >= 1
    ensures AllowedIds(store, NextAll(store, cursors, pageSize)) == AllowedIds(store, cursors)
    decreases |cursors|
  {
    hide Allowed, Fetched, UniqueIds;
    if cursors != [] {
      var n := |cursors| - 1;
      AllowedStays(store, cursors[..n], pageSize);
      assert NextAll(store, cursors, pageSize)[..n] == NextAll(store, cursors[..n], pageSize);
    }
  }

  // ---------------------------------------------------------------- merging

  ghost predicate NoRepeat(rows: seq<Event>) {
    forall i, j | 0 <= i < j < |rows| :: rows[i].id != rows[j].id
  }

  lemma NoRepeatAppend(xs: seq<Event>, ys: seq<Event>)
    requires NoRepeat(xs) && NoRepeat(ys) && IdSet(xs) !! IdSet(ys)
    ensures NoRepeat(xs + ys)
  {
    assert forall i | 0 <= i < |xs| :: xs[i].id in IdSet(xs);
    assert forall i | 0 <= i < |ys| :: ys[i].id in IdSet(ys);
  }

  lemma {:induction false} PickedOnce(order: seq<Id>, page: map<Id, Event>, seen: set<Id>)
    requires Keyed(page)
    ensures var picked := PickSearch(order, page, seen);
            && NoRepeat(picked)
            && IdSet(picked) == Elements(order) * page.Keys - seen
    decreases |order|
  {
    if order != [] {
      var n := |order| - 1;
      var id := order[n];
      PickedOnce(order[..n], page, seen);
      var before, picked := PickSearch(order[..n], page, seen), PickSearch(order, page, seen);
      assert order == order[..n] + [id];
      assert Elements(order) == Elements(order[..n]) + {id};
      if picked != before {
        assert IdSet([page[id]]) == {id};
        IdSetAppend(before, [page[id]]);
        NoRepeatAppend(before, [page[id]]);
      }
    }
  }

  /** Where an id first stands in the search order. */
  function FirstAt(order: seq<Id>, id: Id): nat
    decreases |order|
  {
    if order == [] || order[0] == id then 0 else 1 + FirstAt(order[1..], id)
  }

  lemma {:induction false} FirstInPrefix(order: seq<Id>, id: Id)
    requires order != []
    ensures var before := order[..|order| - 1];
            if id in before then FirstAt(order, id) == FirstAt(before, id) < |before|
            else FirstAt(order, id) >= |before|
    decreases |order|
  {
    if order[0] != id && |order| > 1 {
      FirstInPrefix(order[1..], id);
      assert order[1..][..|order| - 2] == order[..|order| - 1][1..];
      assert order[..|order| - 1] == [order[0]] + order[1..][..|order| - 2];
    }
  }

  /** Search hits go out in the order the store ranked them, by first occurrence. */
  lemma {:induction false} PickedInRankOrder(order: seq<Id>, page: map<Id, Event>, seen: set<Id>, i: nat, j: nat)
    requires Keyed(page) && i < j < |PickSearch(order, page, seen)|
    ensures FirstAt(order, PickSearch(order, page, seen)[i].id) < FirstAt(order, PickSearch(order, page, seen)[j].id)
    decreases |order|
  {
    hide FirstAt, IdSet;
    var n := |order| - 1;
    var before, picked := PickSearch(order[..n], page, seen), PickSearch(order, page, seen);
    PickedOnce(order[..n], page, seen);
    forall k | 0 <= k < |before| ensures before[k].id in order[..n] {
      InIdSet(before, k);
    }
    FirstInPrefix(order, picked[i].id);
    FirstInPrefix(order, picked[j].id);
    if j < |before| {
      PickedInRankOrder(order[..n], page, seen, i, j);
    } else {
      PickedIsNew(order, page, seen);
    }
  }

  lemma InIdSet(rows: seq<Event>, k: nat)
    requires k < |rows|
    ensures rows[k].id in IdSet(rows)
  {
  }

  lemma PickedIsNew(order: seq<Id>, page: map<Id, Event>, seen: set<Id>)
    requires Keyed(page) && order != [] && PickSearch(order, page, seen) != PickSearch(order[..|order| - 1], page, seen)
    ensures var picked := PickSearch(order, page, seen);
            picked != [] && picked[|picked| - 1].id == order[|order| - 1] && order[|order| - 1] !in order[..|order| - 1]
  {
    PickedOnce(order[..|order| - 1], page, seen);
  }

  lemma SortedOnce(page: map<Id, Event>, sent: set<Id>)
    requires Keyed(page) && UniqueIds(Unsent(page, sent)) && Strict(Newer) && TotalOn(Newer, Unsent(page, sent))
    ensures var rest := Sort(Unsent(page, sent), Newer);
            NoRepeat(rest) && IdSet(rest) == page.Keys - sent
  {
    hide Sort, UniqueIds, Strict, TotalOn;
    var rest := Sort(Unsent(page, sent), Newer);
    assert forall e | e in rest :: e in Elements(rest);
    forall i, j | 0 <= i < j < |rest| ensures rest[i].id != rest[j].id {
      assert Newer(rest[i], rest[j]);
      assert rest[i] in Elements(rest) && rest[j] in Elements(rest);
    }
    forall id | id in page.Keys - sent ensures id in IdSet(rest) {
      assert page[id] in Elements(rest);
    }
  }

  /** A merged page sends each unseen id once and nothing else. */
  lemma MergedOnce(page: map<Id, Event>, order: seq<Id>, seen: set<Id>)
    requires Keyed(page)
    ensures var out := Merge(page, order, seen);
            NoRepeat(out) && IdSet(out) == page.Keys - seen
  {
    hide Sort, UniqueIds, Unsent;
    var picked := PickSearch(order, page, seen);
    PickedOnce(order, page, seen);
    var sent := seen + IdSet(picked);
    UnsentIsUnique(page, sent);
    SortedOnce(page, sent);
    var rest := Sort(Unsent(page, sent), Newer);
    IdSetAppend(picked, rest);
    NoRepeatAppend(picked, rest);
  }

  // ------------------------------------------------------------ the refinement

  /** One page sends each id it adds to `seen` once. */
  lemma PageSendsNewIds(store: set<Event>, st: ReqState, found: seq<seq<Event>>, pageSize: nat)
    requires UniqueIds(store) && pageSize >= 1
    ensures var page := NextPage(store, st, found, pageSize);
            && NoRepeat(page.out)
            && IdSet(page.out) == page.state.seen - st.seen
            && st.seen <= page.state.seen
  {
    hide Merge, FetchedRows, NextAll, UniqueIds, PageMap, AllPage, IdSet;
    NoIds();
    if !(st.nonSearch == [] && st.search == []) {
      var hits := if st.searchDone then [] else Concat(found);
      MergedOnce(PageMap(hits, FetchedRows(store, st.nonSearch, pageSize)), IdSeq(hits), st.seen);
    }
  }

  lemma PageKeepsConsistent(store: set<Event>, st: ReqState, found: seq<seq<Event>>, pageSize: nat)
    requires UniqueIds(store) && Consistent(store, st, found) && pageSize >= 1
    ensures var page := NextPage(store, st, found, pageSize);
            && Consistent(store, page.state, found)
            && AllowedIds(store, page.state.nonSearch) == AllowedIds(store, st.nonSearch)
            && (page.state.searchDone || page.state.search == [])
            && page.hasMore == AnyUnexhausted(page.state.nonSearch)
            && (page.hasMore ==> Left(store, page.state.nonSearch) < Left(store, st.nonSearch))
  {
    hide AllInStep, Merge, FetchedRows, NextAll, UniqueIds, Left, PageMap, AllowedIds, AllPage, IdSet;
    NoIds();
    if !(st.nonSearch == [] && st.search == []) {
      PageShrinks(store, st.nonSearch, pageSize);
      ReturnedGrows(store, st.nonSearch, pageSize);
      AllowedStays(store, st.nonSearch, pageSize);
    }
  }

  lemma ReturnedWithinLimit(store: set<Event>, fc: FilterCursor)
    requires UniqueIds(store) && InStep(store, fc)
    ensures Returned(store, fc) <= Allowed(store, fc.base)
    ensures fc.exhausted ==> Returned(store, fc) == Allowed(store, fc.base)
  {
    hide Full, Rest, UniqueIds;
    var full, p, b := Full(store, fc.base), Position(store, fc), Budget(store, fc.base);
    assert Prefix(full, p) == full[..p] && Prefix(full, b) == full[..b];
    assert full[..b] == full[..p] + full[p..b];
    IdSetAppend(full[..p], full[p..b]);
  }

  lemma {:induction false} ReturnedAllowed(store: set<Event>, cursors: seq<FilterCursor>)
    requires UniqueIds(store) && AllInStep(store, cursors)
    ensures ReturnedIds(store, cursors) <= AllowedIds(store, cursors)
    ensures !AnyUnexhausted(cursors) ==> ReturnedIds(store, cursors) == AllowedIds(store, cursors)
    decreases |cursors|
  {
    hide InStep, Returned, Allowed, UniqueIds;
    if cursors != [] {
      var n := |cursors| - 1;
      ReturnedAllowed(store, cursors[..n]);
      assert forall i | 0 <= i < n :: cursors[i] == cursors[..n][i];
      ReturnedWithinLimit(store, cursors[n]);
    }
  }

  /** From any reachable point, the remaining pages send exactly the ids still owed, each once. */
  lemma {:induction false} PagesSendTheRest(store: set<Event>, st: ReqState, found: seq<seq<Event>>, pageSize: nat)
    requires UniqueIds(store) && Consistent(store, st, found) && pageSize >= 1
    ensures var out := Pages(store, st, found, pageSize);
            && NoRepeat(out)
            && IdSet(out) == HitIds(found) + AllowedIds(store, st.nonSearch) - st.seen
    decreases Left(store, st.nonSearch)
  {
    hide AllInStep, NextPage, UniqueIds, Left, ReturnedIds, AllowedIds, NoRepeat, IdSet;
    NoIds();
    var page := NextPage(store, st, found, pageSize);
    PageShrinks(store, st.nonSearch, pageSize);
    PageKeepsConsistent(store, st, found, pageSize);
    PageSendsNewIds(store, st, found, pageSize);
    ReturnedAllowed(store, st.nonSearch);
    ReturnedAllowed(store, page.state.nonSearch);
    if page.hasMore {
      PagesSendTheRest(store, page.state, found, pageSize);
      var tail := Pages(store, page.state, found, pageSize);
      IdSetAppend(page.out, tail);
      NoRepeatAppend(page.out, tail);
    }
  }

  lemma BaseIsAllowed(store: set<Event>, f: Filter)
    requires UniqueIds(store) && f.cursor.None?
    ensures IdSet(QueryRows(store, f)) == Allowed(store, f)
  {
    hide AllRows, UniqueIds;
    assert f.(cursor := None) == f;
    var full := Full(store, f);
    assert Prefix(full, |full|) == full;
    assert f.limit.Some? && f.limit.value > |full| > 0 ==> Prefix(full, f.limit.value) == Prefix(full, |full|);
  }

  lemma {:induction false} BaseIdsAllowed(store: set<Event>, cursors: seq<FilterCursor>)
    requires UniqueIds(store) && forall i | 0 <= i < |cursors| :: cursors[i].base.cursor.None?
    ensures IdSet(BaseRows(store, cursors)) == AllowedIds(store, cursors)
    decreases |cursors|
  {
    hide QueryRows, Allowed, UniqueIds, IdSet;
    NoIds();
    if cursors != [] {
      var n := |cursors| - 1;
      BaseIdsAllowed(store, cursors[..n]);
      BaseIsAllowed(store, cursors[n].base);
      IdSetAppend(BaseRows(store, cursors[..n]), QueryRows(store, cursors[n].base));
    }
  }

  /** Filters come off the wire, where they carry no cursor. */
  ghost predicate FromWire(filters: seq<Filter>) {
    forall i | 0 <= i < |filters| :: filters[i].cursor.None?
  }

  lemma NothingReturned(store: set<Event>)
    requires UniqueIds(store)
    ensures AllInStep(store, []) && ReturnedIds(store, []) == {}
  {
  }

  lemma AppendCursor(store: set<Event>, cursors: seq<FilterCursor>, fc: FilterCursor)
    requires UniqueIds(store) && AllInStep(store, cursors) && InStep(store, fc)
    ensures AllInStep(store, cursors + [fc])
    ensures ReturnedIds(store, cursors + [fc]) == ReturnedIds(store, cursors) + Returned(store, fc)
  {
    hide InStep, Returned, UniqueIds;
    assert (cursors + [fc])[..|cursors|] == cursors;
  }

  lemma {:induction false} FreshState(store: set<Event>, filters: seq<Filter>, defaultLimit: int, searchEnabled: bool)
    requires UniqueIds(store) && FromWire(filters)
    ensures var st := NewState(filters, defaultLimit, searchEnabled);
            && AllInStep(store, st.nonSearch)
            && ReturnedIds(store, st.nonSearch) == {}
            && st.seen == {} && !st.searchDone
    decreases |filters|
  {
    hide AllInStep, ReturnedIds, Returned, UniqueIds, NewCursor;
    if filters == [] {
      NothingReturned(store);
    } else {
      var n := |filters| - 1;
      var f := WithDefaultLimit(filters[n], defaultLimit);
      FreshState(store, filters[..n], defaultLimit, searchEnabled);
      FreshCursor(store, f);
      AppendCursor(store, NewState(filters[..n], defaultLimit, searchEnabled).nonSearch, NewCursor(f));
    }
  }

  lemma FreshCursor(store: set<Event>, f: Filter)
    requires UniqueIds(store) && f.cursor.None?
    ensures InStep(store, NewCursor(f)) && Returned(store, NewCursor(f)) == {}
  {
    hide Full, Rest, UniqueIds;
    FreshInStep(store, f);
  }

  /**
   * For any page size the pages of a REQ end, send no id twice, and together send the ids one full
   * read sends: the search hits, and for each filter its newest matches up to its limit.
   */
  lemma PagesRefineOneRead(
      store: set<Event>, filters: seq<Filter>, defaultLimit: int, searchEnabled: bool, found: seq<seq<Event>>, pageSize: nat)
    requires UniqueIds(store) && FromWire(filters) && pageSize >= 1
    requires |found| == |NewState(filters, defaultLimit, searchEnabled).search|
    ensures var st := NewState(filters, defaultLimit, searchEnabled);
            && AllInStep(store, st.nonSearch)
            && var paged, all := Pages(store, st, found, pageSize), AllPage(store, st, found).out;
            && NoRepeat(paged) && NoRepeat(all)
            && IdSet(paged) == IdSet(all) == HitIds(found) + AllowedIds(store, st.nonSearch)
  {
    hide Pages, InStep, ReturnedIds, AllowedIds, UniqueIds, NewState, PageMap, Merge, BaseRows, IdSet, NoRepeat;
    var st := NewState(filters, defaultLimit, searchEnabled);
    FreshState(store, filters, defaultLimit, searchEnabled);
    PagesSendTheRest(store, st, found, pageSize);
    BasesFromWire(store, st.nonSearch);
    BaseIdsAllowed(store, st.nonSearch);
    var hits := Concat(found);
    MergedOnce(PageMap(hits, BaseRows(store, st.nonSearch)), IdSeq(hits), st.seen);
  }

  lemma BasesFromWire(store: set<Event>, cursors: seq<FilterCursor>)
    requires UniqueIds(store) && AllInStep(store, cursors)
    ensures forall i | 0 <= i < |cursors| :: cursors[i].base.cursor.None?
  {
    hide Full, Rest, UniqueIds;
    assert forall i | 0 <= i < |cursors| :: InStep(store, cursors[i]);
  }

  /** The rows the pages read for filter `i`, put end to end. */
  ghost function RowsRead(store: set<Event>, st: ReqState, found: seq<seq<Event>>, pageSize: nat, i: nat): seq<Event>
    requires UniqueIds(store) && AllInStep(store, st.nonSearch) && pageSize >= 1 && i < |st.nonSearch|
    decreases Left(store, st.nonSearch)
  {
    var page := NextPage(store, st, found, pageSize);
    PageShrinks(store, st.nonSearch, pageSize);
    Fetched(store, st.nonSearch[i], pageSize) + (if page.hasMore then RowsRead(store, page.state, found, pageSize, i) else [])
  }

  /** What one page reads for a filter, and where it leaves the filter's cursor. */
  lemma OneRead(store: set<Event>, fc: FilterCursor, pageSize: nat)
    requires UniqueIds(store) && InStep(store, fc) && pageSize >= 1
    ensures var p, next, rows := Position(store, fc), Next(store, fc, pageSize), Fetched(store, fc, pageSize);
            && InStep(store, next) && next.base == fc.base
            && 0 <= p <= Position(store, next) <= Budget(store, fc.base) <= |Full(store, fc.base)|
            && rows == Full(store, fc.base)[p..Position(store, next)]
            && (next.exhausted ==> Position(store, next) == Budget(store, fc.base))
  {
    hide Full, Rest, UniqueIds, QueryRows;
    if !fc.exhausted {
      Advances(store, fc, pageSize);
    }
  }

  lemma PageMoves(store: set<Event>, st: ReqState, found: seq<seq<Event>>, pageSize: nat)
    requires UniqueIds(store) && pageSize >= 1 && st.nonSearch != []
    ensures var page, cursors := NextPage(store, st, found, pageSize), st.nonSearch;
            && page.state.nonSearch == NextAll(store, cursors, pageSize)
            && |page.state.nonSearch| == |cursors|
            && (forall i | 0 <= i < |cursors| :: page.state.nonSearch[i] == Next(store, cursors[i], pageSize))
            && page.hasMore == AnyUnexhausted(page.state.nonSearch)
  {
    hide UniqueIds, Next, Merge, PageMap, AllPage;
  }

  lemma {:induction false} RowsReadAre(store: set<Event>, st: ReqState, found: seq<seq<Event>>, pageSize: nat, i: nat)
    requires UniqueIds(store) && AllInStep(store, st.nonSearch) && pageSize >= 1 && i < |st.nonSearch|
    ensures var fc := st.nonSearch[i];
            && 0 <= Position(store, fc) <= Budget(store, fc.base) <= |Full(store, fc.base)|
            && RowsRead(store, st, found, pageSize, i) == Full(store, fc.base)[Position(store, fc)..Budget(store, fc.base)]
    decreases Left(store, st.nonSearch)
  {
    hide UniqueIds, InStep, Full, Position, Budget, Fetched, Next, Left, NextPage, Rest;
    var fc, page := st.nonSearch[i], NextPage(store, st, found, pageSize);
    var full, next := Full(store, fc.base), Next(store, fc, pageSize);
    PageShrinks(store, st.nonSearch, pageSize);
    OneRead(store, fc, pageSize);
    PageMoves(store, st, found, pageSize);
    if page.hasMore {
      RowsReadAre(store, page.state, found, pageSize, i);
      assert full[Position(store, fc)..Position(store, next)] + full[Position(store, next)..Budget(store, fc.base)] ==
             full[Position(store, fc)..Budget(store, fc.base)];
    }
  }

  /**
   * Over all pages of a REQ, for any page size, a filter reads its newest matches in query order, each once,
   * and a positive limit caps how many: it reads that many, or all of them when there are fewer.
   */
  lemma LimitIsHonoured(store: set<Event>, filters: seq<Filter>, defaultLimit: int, searchEnabled: bool, found: seq<seq<Event>>,
                        pageSize: nat, i: nat)
    requires UniqueIds(store) && FromWire(filters) && pageSize >= 1
    requires i < |NewState(filters, defaultLimit, searchEnabled).nonSearch|
    ensures var st := NewState(filters, defaultLimit, searchEnabled);
            && AllInStep(store, st.nonSearch)
            && var f, rows := st.nonSearch[i].base, RowsRead(store, st, found, pageSize, i);
            && rows <= Full(store, f) && NoRepeat(rows)
            && (f.limit.Some? && f.limit.value > 0 ==> |rows| == Min(f.limit.value, |Matching(store, f.(cursor := None))|))
            && (f.limit.None? || f.limit.value <= 0 ==> Elements(rows) == Matching(store, f.(cursor := None)))
  {
    hide Sort, UniqueIds, RowsRead, Position, Matching, NewState, InStep, NoRepeat, ReturnedIds;
    var st := NewState(filters, defaultLimit, searchEnabled);
    FreshState(store, filters, defaultLimit, searchEnabled);
    assert InStep(store, st.nonSearch[i]);
    StartsAtZero(store, filters, defaultLimit, searchEnabled, i);
    RowsReadAre(store, st, found, pageSize, i);
    var f := st.nonSearch[i].base;
    var rows, full := RowsRead(store, st, found, pageSize, i), Full(store, f);
    FullIsSorted(store, f);
    SliceOfSorted(full, 0, Budget(store, f));
    FullHolds(store, f);
    assert full[0..|full|] == full;
  }

  lemma FullHolds(store: set<Event>, f: Filter)
    requires UniqueIds(store)
    ensures var matching := Matching(store, f.(cursor := None)); Elements(Full(store, f)) == matching && |Full(store, f)| == |matching|
  {
    hide Sort;
    NewerIsTotal(Matching(store, f.(cursor := None)));
    SortedSize(Full(store, f), Newer);
  }

  lemma KeepsCursor(f: Filter, defaultLimit: int)
    ensures WithDefaultLimit(f, defaultLimit).cursor == f.cursor
  {
  }

  lemma {:induction false} StartsAtZero(store: set<Event>, filters: seq<Filter>, defaultLimit: int, searchEnabled: bool, i: nat)
    requires UniqueIds(store) && FromWire(filters) && i < |NewState(filters, defaultLimit, searchEnabled).nonSearch|
    ensures Position(store, NewState(filters, defaultLimit, searchEnabled).nonSearch[i]) == 0
    decreases |filters|
  {
    hide UniqueIds, Position, NewCursor, InStep, WithDefaultLimit;
    var n := |filters| - 1;
    var f := WithDefaultLimit(filters[n], defaultLimit);
    KeepsCursor(filters[n], defaultLimit);
    FreshInStep(store, f);
    if i < |NewState(filters[..n], defaultLimit, searchEnabled).nonSearch| {
      StartsAtZero(store, filters[..n], defaultLimit, searchEnabled, i);
    }
  }

  // ------------------------------------------------- one filter: same sequence

  lemma {:induction false} AddAllKeepsEach(rows: seq<Event>)
    requires NoRepeat(rows)
    ensures forall e | e in rows :: e.id in AddAll(map[], rows) && AddAll(map[], rows)[e.id] == e
    ensures AddAll(map[], rows).Keys == IdSet(rows)
    decreases |rows|
  {
    if rows != [] {
      var n := |rows| - 1;
      AddAllKeepsEach(rows[..n]);
      assert rows == rows[..n] + [rows[n]];
    }
  }

  /** Rows that come back sorted and unsent leave the merge as they came. */
  lemma MergeKeepsOrder(rows: seq<Event>, seen: set<Id>)
    requires Sorted(rows, Newer) && NoRepeat(rows) && IdSet(rows) !! seen
    ensures Keyed(AddAll(map[], rows)) && Merge(AddAll(map[], rows), [], seen) == rows
  {
    hide Sort, AddAll, Sorted;
    var page := AddAll(map[], rows);
    AddAllKeyed(map[], rows);
    AddAllKeepsEach(rows);
    UnsentIsUnique(page, seen);
    assert Unsent(page, seen) == Elements(rows) by {
      assert forall e | e in Elements(rows) :: e.id in IdSet(rows);
    }
    assert seen + IdSet([]) == seen;
    SortIs(rows, Newer);
  }

  lemma FullIsSorted(store: set<Event>, f: Filter)
    requires UniqueIds(store)
    ensures Sorted(Full(store, f), Newer) && NoRepeat(Full(store, f))
  {
    hide Sort;
    var full := Full(store, f);
    NewerIsTotal(Matching(store, f.(cursor := None)));
    forall i, j | 0 <= i < j < |full| ensures full[i].id != full[j].id {
      assert Newer(full[i], full[j]) && full[i] in Elements(full) && full[j] in Elements(full);
    }
  }

  lemma SliceOfSorted(full: seq<Event>, p: nat, q: nat)
    requires Sorted(full, Newer) && NoRepeat(full) && p <= q <= |full|
    ensures Sorted(full[p..q], Newer) && NoRepeat(full[p..q])
    ensures IdSet(full[p..q]) !! IdSet(full[..p])
  {
    forall e, d | e in full[p..q] && d in full[..p] ensures e.id != d.id {
      var i :| 0 <= i < q - p && full[p..q][i] == e;
      var j :| 0 <= j < p && full[..p][j] == d;
      assert full[p + i] == e && full[j] == d;
    }
  }

  lemma FetchedIsSorted(store: set<Event>, fc: FilterCursor, pageSize: nat)
    requires UniqueIds(store) && InStep(store, fc) && pageSize >= 1 && !fc.exhausted
    ensures Sorted(Fetched(store, fc, pageSize), Newer) && NoRepeat(Fetched(store, fc, pageSize))
    ensures IdSet(Fetched(store, fc, pageSize)) !! Returned(store, fc)
  {
    hide Full, Rest, Fetched, Next, UniqueIds, Sorted, NoRepeat, IdSet;
    var full, p, rows := Full(store, fc.base), Position(store, fc), Fetched(store, fc, pageSize);
    Advances(store, fc, pageSize);
    FullIsSorted(store, fc.base);
    assert Prefix(full, p) == full[..p];
    SliceOfSorted(full, p, p + |rows|);
  }

  lemma OneFilterPage(store: set<Event>, st: ReqState, pageSize: nat)
    requires UniqueIds(store) && pageSize >= 1
    requires |st.nonSearch| == 1 && st.search == [] && InStep(store, st.nonSearch[0])
    requires !st.nonSearch[0].exhausted && st.seen == Returned(store, st.nonSearch[0])
    ensures var fc, page := st.nonSearch[0], NextPage(store, st, [], pageSize);
            && page.out == Fetched(store, fc, pageSize)
            && page.state.nonSearch == [Next(store, fc, pageSize)]
            && page.state.search == []
            && page.state.seen == st.seen + IdSet(page.out)
            && page.hasMore == !Next(store, fc, pageSize).exhausted
  {
    hide UniqueIds, InStep, Fetched, Next, Returned, Merge, NoRepeat, IdSet, Sorted, AllPage;
    var fc := st.nonSearch[0];
    var rows := Fetched(store, fc, pageSize);
    FetchedIsSorted(store, fc, pageSize);
    MergeKeepsOrder(rows, st.seen);
    NoIds();
    assert st.nonSearch[..0] == [];
    assert FetchedRows(store, st.nonSearch, pageSize) == [] + rows == rows;
    assert Concat<Event>([]) == [];
    assert IdSeq([]) == [];
    assert PageMap([], rows) == AddAll(map[], rows);
    var next := NextAll(store, st.nonSearch, pageSize);
    assert next == [Next(store, fc, pageSize)];
    assert AnyUnexhausted(next) == !next[0].exhausted;
    AddAllKeyed(map[], rows);
  }

  lemma {:induction false} OneFilterFrom(store: set<Event>, st: ReqState, pageSize: nat)
    requires UniqueIds(store) && pageSize >= 1
    requires |st.nonSearch| == 1 && st.search == [] && InStep(store, st.nonSearch[0])
    requires !st.nonSearch[0].exhausted && st.seen == Returned(store, st.nonSearch[0])
    ensures AllInStep(store, st.nonSearch)
    ensures var fc := st.nonSearch[0];
            && 0 <= Position(store, fc) <= Budget(store, fc.base) <= |Full(store, fc.base)|
            && Pages(store, st, [], pageSize) == Full(store, fc.base)[Position(store, fc)..Budget(store, fc.base)]
    decreases Left(store, st.nonSearch)
  {
    hide UniqueIds, Rest, Full, NextPage, Fetched, Next, IdSet, Returned, Left;
    var fc := st.nonSearch[0];
    var full, p, rows := Full(store, fc.base), Position(store, fc), Fetched(store, fc, pageSize);
    var page, next := NextPage(store, st, [], pageSize), Next(store, fc, pageSize);
    OneFilterPage(store, st, pageSize);
    Advances(store, fc, pageSize);
    FilterShrinks(store, fc, pageSize);
    ReturnedGrowsBy(store, fc, pageSize);
    NextPageMeasure(store, st, [], pageSize);
    if !next.exhausted {
      OneFilterFrom(store, page.state, pageSize);
      assert full[p..Budget(store, fc.base)] == rows + full[p + |rows|..Budget(store, fc.base)];
    }
  }

  lemma OneFilterState(f: Filter, defaultLimit: int, searchEnabled: bool)
    requires !f.HasSearch()
    ensures NewState([f], defaultLimit, searchEnabled) == ReqState([NewCursor(WithDefaultLimit(f, defaultLimit))], [], {}, false)
  {
    assert [f][..0] == [];
    assert NewState([], defaultLimit, searchEnabled) == ReqState([], [], {}, false);
  }

  lemma OneFilterAll(store: set<Event>, f: Filter)
    requires UniqueIds(store) && f.cursor.None?
    ensures AllPage(store, ReqState([NewCursor(f)], [], {}, false), []).out == Prefix(Full(store, f), Budget(store, f))
  {
    hide AllRows, UniqueIds, Merge;
    var fc := NewCursor(f);
    var rows := QueryRows(store, f);
    assert [fc][..0] == [];
    assert BaseRows(store, [fc]) == [] + rows == rows;
    assert PageMap([], rows) == AddAll(map[], rows);
    assert IdSeq([]) == [] && Concat<Event>([]) == [];
    OneReadOrder(store, f);
    assert f.(cursor := None) == f;
  }

  /** A single plain filter is paged in exactly the order of the full read. */
  lemma OneFilterSameSequence(store: set<Event>, f: Filter, defaultLimit: int, searchEnabled: bool, pageSize: nat)
    requires UniqueIds(store) && f.cursor.None? && !f.HasSearch() && pageSize >= 1
    ensures var st := NewState([f], defaultLimit, searchEnabled);
            && AllInStep(store, st.nonSearch)
            && Pages(store, st, [], pageSize) == AllPage(store, st, []).out
  {
    hide UniqueIds, Full, Rest, AllPage, Returned, Pages, NewState, Budget;
    var st := NewState([f], defaultLimit, searchEnabled);
    var g := WithDefaultLimit(f, defaultLimit);
    OneFilterState(f, defaultLimit, searchEnabled);
    FreshInStep(store, g);
    FreshCursor(store, g);
    OneFilterFrom(store, st, pageSize);
    OneFilterAll(store, g);
    assert Prefix(Full(store, g), Budget(store, g)) == Full(store, g)[0..Budget(store, g)];
  }

  lemma OneReadOrder(store: set<Event>, f: Filter)
    requires UniqueIds(store)
    ensures Keyed(AddAll(map[], QueryRows(store, f))) && Merge(AddAll(map[], QueryRows(store, f)), [], {}) == QueryRows(store, f)
  {
    hide Sort, Merge, AddAll;
    var all, rows := AllRows(store, f), QueryRows(store, f);
    NewerIsTotal(Matching(store, f));
    forall i, j | 0 <= i < j < |all| ensures all[i].id != all[j].id {
      assert Newer(all[i], all[j]) && all[i] in Elements(all) && all[j] in Elements(all);
    }
    MergeKeepsOrder(rows, {});
  }

  /** What meets the loop at one page: the generation is gone, the query fails, or sending stops after so many events. */
  datatype Fate = Through | Replaced | QueryFailed | SendingStopped(after: nat)

  function FateOf(fates: seq<Fate>, page: nat): Fate {
    if page < |fates| then fates[page] else Through
  }

  lemma PagesUnfold(store: set<Event>, st: ReqState, found: seq<seq<Event>>, pageSize: nat)
    requires UniqueIds(store) && AllInStep(store, st.nonSearch) && pageSize >= 1
    ensures var page := NextPage(store, st, found, pageSize);
            && AllInStep(store, page.state.nonSearch)
            && Pages(store, st, found, pageSize) ==
               page.out + (if page.hasMore then Pages(store, page.state, found, pageSize) else [])
  {
    hide AllInStep, UniqueIds, NextPage;
    NextPageMeasure(store, st, found, pageSize);
  }

  lemma CutIsPrefix(sent: seq<Event>, out: seq<Event>, rest: seq<Event>, fate: Fate)
    requires out <= rest
    ensures fate.SendingStopped? ==> sent + Prefix(out, fate.after) <= sent + rest
    ensures sent + rest == sent + out + rest[|out|..]
  {
  }

  /** `drainRemainingPages`: fetch and send until a page reports no more, or something ends the snapshot first. */
  method DrainPages(q: ReqQueryState, store: set<Event>, found: seq<seq<Event>>, pageSize: nat, fates: seq<Fate>)
    returns (sent: seq<Event>, drained: bool)
    requires UniqueIds(store) && pageSize >= 1 && |found| == |q.search|
    requires AllInStep(store, q.nonSearch)
    modifies q
    ensures sent <= old(Pages(store, q.State(), found, pageSize))
    ensures drained ==> sent == old(Pages(store, q.State(), found, pageSize))
    ensures !drained ==> exists i | 0 <= i < |fates| :: fates[i] != Through
  {
    hide InStep, AllInStep, UniqueIds, Left, NextPage, Pages, Prefix;
    sent := [];
    var n := 0;
    ghost var all := Pages(store, q.State(), found, pageSize);
    while true
      invariant AllInStep(store, q.nonSearch) && |found| == |q.search|
      invariant all == sent + Pages(store, q.State(), found, pageSize)
      decreases Left(store, q.nonSearch)
    {
      var fate := FateOf(fates, n);
      if fate.Replaced? || fate.QueryFailed? {
        return sent, false;
      }
      ghost var st, rest := q.State(), Pages(store, q.State(), found, pageSize);
      NextPageMeasure(store, st, found, pageSize);
      PagesUnfold(store, st, found, pageSize);
      var out, hasMore := q.FetchPage(store, found, pageSize);
      CutIsPrefix(sent, out, rest, fate);
      if fate.SendingStopped? {
        return sent + Prefix(out, fate.after), false;
      }
      sent := sent + out;
      if !hasMore {
        return sent, true;
      }
      n := n + 1;
    }
  }

  lemma NextPageMeasure(store: set<Event>, st: ReqState, found: seq<seq<Event>>, pageSize: nat)
    requires UniqueIds(store) && AllInStep(store, st.nonSearch) && pageSize >= 1
    ensures var page := NextPage(store, st, found, pageSize);
            && AllInStep(store, page.state.nonSearch)
            && page.state.search == st.search
            && Left(store, page.state.nonSearch) <= Left(store, st.nonSearch)
            && (page.hasMore ==> Left(store, page.state.nonSearch) < Left(store, st.nonSearch))
  {
    hide InStep, UniqueIds, Left, Merge, PageMap, NextAll;
    PageShrinks(store, st.nonSearch, pageSize);
  }
}
