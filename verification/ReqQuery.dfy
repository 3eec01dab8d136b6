/**
 * Paginated REQ reads: one keyset cursor per filter, one set of ids already sent,
 * and a page merged from whatever the filters returned.
 */
module ReqQuery {
  import opened Nostr
  import opened Order
  import opened Wrappers

  // ---------------------------------------------------------------- store reads

  /** The stored events the compiled filter selects. */
  function Matching(store: set<Event>, f: Filter): set<Event> {
    set e | e in store && f.Selects(e)
  }

  function Prefix<T>(xs: seq<T>, n: int): seq<T> {
    if n < 0 then [] else if n < |xs| then xs[..n] else xs
  }

  ghost function AllRows(store: set<Event>, f: Filter): seq<Event>
    requires UniqueIds(store)
  {
    NewerIsTotal(Matching(store, f));
    Sort(Matching(store, f), Newer)
  }

  /** A nil or non-positive limit reads every row. */
  ghost function QueryRows(store: set<Event>, f: Filter): seq<Event>
    requires UniqueIds(store)
  {
    if f.limit.Some? && f.limit.value > 0 then Prefix(AllRows(store, f), f.limit.value) else AllRows(store, f)
  }

  method QueryEvents(store: set<Event>, f: Filter) returns (rows: seq<Event>)
    requires UniqueIds(store)
    ensures rows == QueryRows(store, f)
  {
    NewerIsTotal(Matching(store, f));
    rows := SortSet(Matching(store, f), Newer);
    if f.limit.Some? && f.limit.value > 0 {
      rows := Prefix(rows, f.limit.value);
    }
  }

  // ------------------------------------------------------------- query state

  /** `remaining` is the limit still to spend; zero or less means no limit. */
  datatype FilterCursor = FilterCursor(base: Filter, cursor: Option<QueryCursor>, remaining: int, exhausted: bool)

  datatype ReqState = ReqState(nonSearch: seq<FilterCursor>, search: seq<Filter>, seen: set<Id>, searchDone: bool)

  function WithDefaultLimit(f: Filter, defaultLimit: int): Filter {
    if defaultLimit > 0 && f.limit.None? then f.(limit := Some(defaultLimit)) else f
  }

  function NewCursor(f: Filter): FilterCursor {
    FilterCursor(f, None, if f.limit.Some? && f.limit.value > 0 then f.limit.value else 0, false)
  }

  function NewState(filters: seq<Filter>, defaultLimit: int, searchEnabled: bool): ReqState
    decreases |filters|
  {
    if filters == [] then
      ReqState([], [], {}, false)
    else
      var st := NewState(filters[..|filters| - 1], defaultLimit, searchEnabled);
      var f := WithDefaultLimit(filters[|filters| - 1], defaultLimit);
      if f.HasSearch() then
        if searchEnabled then st.(search := st.search + [f]) else st
      else
        st.(nonSearch := st.nonSearch + [NewCursor(f)])
  }

  function WithoutSearch(filters: seq<Filter>): set<int> {
    set i | 0 <= i < |filters| && filters[i].search == ""
  }

  function WithSearch(filters: seq<Filter>): set<int> {
    set i | 0 <= i < |filters| && filters[i].search != ""
  }

  /** A cursor with the limit as its budget, and the default limit where there is none; or a search filter so limited. */
  predicate TakenIn(st: ReqState, filter: Filter, defaultLimit: int, searchEnabled: bool) {
    var f := filter.(limit := if filter.limit == None && defaultLimit > 0 then Some(defaultLimit) else filter.limit);
    if f.search == "" then FilterCursor(f, None, if f.limit.Some? && f.limit.value > 0 then f.limit.value else 0, false) in st.nonSearch
    else searchEnabled ==> f in st.search
  }

  lemma PlainGrow(filters: seq<Filter>)
    requires filters != []
    ensures var n := |filters| - 1;
            |WithoutSearch(filters)| == |WithoutSearch(filters[..n])| + (if filters[n].search == "" then 1 else 0)
  {
    var n := |filters| - 1;
    assert n !in WithoutSearch(filters[..n]);
    assert WithoutSearch(filters) == WithoutSearch(filters[..n]) + (if filters[n].search == "" then {n} else {});
  }

  lemma SearchesGrow(filters: seq<Filter>)
    requires filters != []
    ensures var n := |filters| - 1;
            |WithSearch(filters)| == |WithSearch(filters[..n])| + (if filters[n].search == "" then 0 else 1)
  {
    var n := |filters| - 1;
    assert n !in WithSearch(filters[..n]);
    assert WithSearch(filters) == WithSearch(filters[..n]) + (if filters[n].search == "" then {} else {n});
  }

  lemma {:induction false} StateCounts(filters: seq<Filter>, defaultLimit: int, searchEnabled: bool)
    ensures var st := NewState(filters, defaultLimit, searchEnabled);
            && |st.nonSearch| == |WithoutSearch(filters)| && |st.search| == (if searchEnabled then |WithSearch(filters)| else 0)
            && st.seen == {} && !st.searchDone
    decreases |filters|
  {
    hide NewCursor, WithSearch, WithoutSearch, WithDefaultLimit;
    if filters == [] {
      NoFilters();
    } else {
      var f := filters[|filters| - 1];
      StateCounts(filters[..|filters| - 1], defaultLimit, searchEnabled);
      PlainGrow(filters);
      SearchesGrow(filters);
      assert WithDefaultLimit(f, defaultLimit).search == f.search by { LimitsOnly(f, defaultLimit); }
    }
  }

  lemma NoFilters()
    ensures WithoutSearch([]) == {} && WithSearch([]) == {}
  {
  }

  lemma LimitsOnly(f: Filter, defaultLimit: int)
    ensures WithDefaultLimit(f, defaultLimit).search == f.search
  {
  }

  lemma OneTakenIn(filters: seq<Filter>, defaultLimit: int, searchEnabled: bool)
    requires filters != []
    ensures TakenIn(NewState(filters, defaultLimit, searchEnabled), filters[|filters| - 1], defaultLimit, searchEnabled)
  {
  }

  lemma StaysTakenIn(filters: seq<Filter>, defaultLimit: int, searchEnabled: bool, f: Filter)
    requires filters != [] && TakenIn(NewState(filters[..|filters| - 1], defaultLimit, searchEnabled), f, defaultLimit, searchEnabled)
    ensures TakenIn(NewState(filters, defaultLimit, searchEnabled), f, defaultLimit, searchEnabled)
  {
    hide WithDefaultLimit, NewCursor;
  }

  /** A new query state takes in every filter without search text, the others when search is on, and nothing else. */
  lemma {:induction false} StateTakesFilters(filters: seq<Filter>, defaultLimit: int, searchEnabled: bool)
    ensures var st := NewState(filters, defaultLimit, searchEnabled);
            && |st.nonSearch| == |WithoutSearch(filters)| && |st.search| == (if searchEnabled then |WithSearch(filters)| else 0)
            && st.seen == {} && !st.searchDone
            && forall i | 0 <= i < |filters| :: TakenIn(st, filters[i], defaultLimit, searchEnabled)
    decreases |filters|
  {
    hide TakenIn, NewState, WithSearch, WithoutSearch;
    StateCounts(filters, defaultLimit, searchEnabled);
    if filters != [] {
      var n := |filters| - 1;
      StateTakesFilters(filters[..n], defaultLimit, searchEnabled);
      forall i | 0 <= i < |filters| ensures TakenIn(NewState(filters, defaultLimit, searchEnabled), filters[i], defaultLimit, searchEnabled) {
        if i < n {
          assert filters[..n][i] == filters[i];
          StaysTakenIn(filters, defaultLimit, searchEnabled, filters[i]);
        } else {
          OneTakenIn(filters, defaultLimit, searchEnabled);
        }
      }
    }
  }

  method ApplyDefaultQueryLimit(filters: seq<Filter>, defaultLimit: int) returns (result: seq<Filter>)
    ensures |result| == |filters|
    ensures forall i | 0 <= i < |filters| :: result[i] == WithDefaultLimit(filters[i], defaultLimit)
  {
    if defaultLimit <= 0 {
      return filters;
    }
    var needsCopy := false;
    for i := 0 to |filters|
      invariant needsCopy <==> exists k | 0 <= k < i :: filters[k].limit.None?
    {
      if filters[i].limit.None? {
        needsCopy := true;
        break;
      }
    }
    if !needsCopy {
      return filters;
    }
    result := filters;
    for j := 0 to |filters|
      invariant |result| == |filters|
      invariant forall k | 0 <= k < j :: result[k] == WithDefaultLimit(filters[k], defaultLimit)
      invariant forall k | j <= k < |filters| :: result[k] == filters[k]
    {
      if result[j].limit.None? {
        result := result[j := result[j].(limit := Some(defaultLimit))];
      }
    }
  }

  // --------------------------------------------------------------- one page

  function PageLimit(fc: FilterCursor, pageSize: nat): nat {
    if 0 < fc.remaining < pageSize then fc.remaining else pageSize
  }

  function PageFilter(fc: FilterCursor, pageSize: nat): Filter {
    fc.base.(limit := Some(PageLimit(fc, pageSize)), cursor := fc.cursor)
  }

  /** The cursor's new position once `rows` came back for a query of at most `limit` rows. */
  function Advance(fc: FilterCursor, rows: seq<Event>, limit: nat): FilterCursor {
    var left := if fc.remaining > 0 then fc.remaining - |rows| else fc.remaining;
    FilterCursor(
      fc.base,
      if rows == [] then fc.cursor else Some(CursorOf(rows[|rows| - 1])),
      left,
      fc.exhausted || (fc.remaining > 0 && left <= 0) || |rows| < limit)
  }

  ghost function Fetched(store: set<Event>, fc: FilterCursor, pageSize: nat): seq<Event>
    requires UniqueIds(store)
  {
    if fc.exhausted then [] else QueryRows(store, PageFilter(fc, pageSize))
  }

  ghost function Next(store: set<Event>, fc: FilterCursor, pageSize: nat): FilterCursor
    requires UniqueIds(store)
  {
    if fc.exhausted then fc else Advance(fc, Fetched(store, fc, pageSize), PageLimit(fc, pageSize))
  }

  /** The page is a map by id: a later row for the same id overwrites an earlier one. */
  function AddAll(page: map<Id, Event>, rows: seq<Event>): map<Id, Event>
    decreases |rows|
  {
    if rows == [] then page else AddAll(page, rows[..|rows| - 1])[rows[|rows| - 1].id := rows[|rows| - 1]]
  }

  function Concat<T>(xss: seq<seq<T>>): seq<T>
    decreases |xss|
  {
    if xss == [] then [] else Concat(xss[..|xss| - 1]) + xss[|xss| - 1]
  }

  function IdSeq(rows: seq<Event>): (ids: seq<Id>) {
    seq(|rows|, i requires 0 <= i < |rows| => rows[i].id)
  }

  function IdSet(rows: seq<Event>): set<Id> {
    set e | e in rows :: e.id
  }

  lemma NoIds()
    ensures IdSet([]) == {}
  {
  }

  ghost function FetchedRows(store: set<Event>, cursors: seq<FilterCursor>, pageSize: nat): seq<Event>
    requires UniqueIds(store)
    decreases |cursors|
  {
    if cursors == [] then [] else
      var n := |cursors| - 1;
      FetchedRows(store, cursors[..n], pageSize) + Fetched(store, cursors[n], pageSize)
  }

  /** The search results keep their relevance order; each id is sent once. */
  function PickSearch(order: seq<Id>, page: map<Id, Event>, seen: set<Id>): seq<Event>
    decreases |order|
  {
    if order == [] then [] else
      var n := |order| - 1;
      var picked := PickSearch(order[..n], page, seen);
      var id := order[n];
      if id in seen || id in IdSet(picked) || id !in page then picked else picked + [page[id]]
  }

  function Unsent(page: map<Id, Event>, sent: set<Id>): set<Event> {
    set id | id in page && id !in sent :: page[id]
  }

  ghost predicate Keyed(page: map<Id, Event>) {
    forall id | id in page :: page[id].id == id
  }

  lemma UnsentIsUnique(page: map<Id, Event>, sent: set<Id>)
    requires Keyed(page)
    ensures UniqueIds(Unsent(page, sent))
    ensures Strict(Newer) && TotalOn(Newer, Unsent(page, sent))
  {
    NewerIsTotal(Unsent(page, sent));
  }

  ghost function Merge(page: map<Id, Event>, order: seq<Id>, seen: set<Id>): seq<Event>
    requires Keyed(page)
  {
    var picked := PickSearch(order, page, seen);
    var sent := seen + IdSet(picked);
    UnsentIsUnique(page, sent);
    picked + Sort(Unsent(page, sent), Newer)
  }

  /** `mergePageEvents`: what comes out, and which ids are marked as sent. */
  method MergePageEvents(page: map<Id, Event>, order: seq<Id>, seen: set<Id>) returns (out: seq<Event>, sent: set<Id>)
    requires Keyed(page)
    ensures out == Merge(page, order, seen)
    ensures sent == seen + page.Keys
  {
    out, sent := [], seen;
    for i := 0 to |order|
      invariant out == PickSearch(order[..i], page, seen)
      invariant sent == seen + IdSet(out)
      invariant IdSet(out) <= page.Keys
    {
      var id := order[i];
      assert order[..i + 1][..i] == order[..i];
      if id !in sent && id in page {
        assert IdSet(out + [page[id]]) == IdSet(out) + {id};
        sent := sent + {id};
        out := out + [page[id]];
      }
    }
    assert order[..|order|] == order;
    var rest := Unsent(page, sent);
    UnsentIsUnique(page, sent);
    var sorted := SortSet(rest, Newer);
    out := out + sorted;
    sent := sent + page.Keys;
  }

  datatype Page = Page(out: seq<Event>, state: ReqState, hasMore: bool)

  lemma {:induction false} AddAllKeyed(page: map<Id, Event>, rows: seq<Event>)
    requires Keyed(page)
    ensures Keyed(AddAll(page, rows))
    ensures AddAll(page, rows).Keys == page.Keys + IdSet(rows)
    decreases |rows|
  {
    if rows != [] {
      var n := |rows| - 1;
      AddAllKeyed(page, rows[..n]);
      assert rows == rows[..n] + [rows[n]];
      assert IdSet(rows) == IdSet(rows[..n]) + {rows[n].id};
    }
  }

  lemma {:induction false} AddAllAppend(page: map<Id, Event>, xs: seq<Event>, ys: seq<Event>)
    ensures AddAll(page, xs + ys) == AddAll(AddAll(page, xs), ys)
    decreases |ys|
  {
    if ys == [] {
      assert xs + ys == xs;
    } else {
      var n := |ys| - 1;
      AddAllAppend(page, xs, ys[..n]);
      assert (xs + ys)[..|xs + ys| - 1] == xs + ys[..n];
    }
  }

  ghost function PageMap(first: seq<Event>, rest: seq<Event>): (page: map<Id, Event>)
    ensures Keyed(page) && page.Keys == IdSet(first) + IdSet(rest)
  {
    AddAllKeyed(map[], first);
    AddAllKeyed(AddAll(map[], first), rest);
    AddAll(AddAll(map[], first), rest)
  }

  ghost function BaseRows(store: set<Event>, cursors: seq<FilterCursor>): seq<Event>
    requires UniqueIds(store)
    decreases |cursors|
  {
    if cursors == [] then [] else
      var n := |cursors| - 1;
      BaseRows(store, cursors[..n]) + QueryRows(store, cursors[n].base)
  }

  function Exhaust(cursors: seq<FilterCursor>): seq<FilterCursor> {
    seq(|cursors|, i requires 0 <= i < |cursors| => cursors[i].(exhausted := true))
  }

  ghost function NextAll(store: set<Event>, cursors: seq<FilterCursor>, pageSize: nat): seq<FilterCursor>
    requires UniqueIds(store)
  {
    seq(|cursors|, i requires 0 <= i < |cursors| => Next(store, cursors[i], pageSize))
  }

  predicate AnyUnexhausted(cursors: seq<FilterCursor>) {
    exists i | 0 <= i < |cursors| :: !cursors[i].exhausted
  }

  /** `fetchREQAll`: every filter read once, in full. */
  ghost function AllPage(store: set<Event>, st: ReqState, found: seq<seq<Event>>): Page
    requires UniqueIds(store)
  {
    var hits := Concat(found);
    var page := PageMap(hits, BaseRows(store, st.nonSearch));
    Page(
      Merge(page, IdSeq(hits), st.seen),
      ReqState(
        Exhaust(st.nonSearch),
        st.search, st.seen + page.Keys, true),
      false)
  }

  /** `fetchREQPage`. `found` is what `SearchEvents` answers for each search filter. */
  ghost function NextPage(store: set<Event>, st: ReqState, found: seq<seq<Event>>, pageSize: int): Page
    requires UniqueIds(store)
  {
    if pageSize <= 0 then
      AllPage(store, st, found)
    else if st.nonSearch == [] && st.search == [] then
      Page([], st, false)
    else
      var hits := if st.searchDone then [] else Concat(found);
      var page := PageMap(hits, FetchedRows(store, st.nonSearch, pageSize));
      var cursors := NextAll(store, st.nonSearch, pageSize);
      Page(
        Merge(page, IdSeq(hits), st.seen),
        ReqState(cursors, st.search, st.seen + page.Keys, true),
        AnyUnexhausted(cursors))
  }

  class ReqQueryState {
    var nonSearch: seq<FilterCursor>
    var search: seq<Filter>
    var seen: set<Id>
    var searchDone: bool

    ghost function State(): ReqState
      reads this
    {
      ReqState(nonSearch, search, seen, searchDone)
    }

    constructor (filters: seq<Filter>, defaultLimit: int, searchEnabled: bool)
      ensures State() == NewState(filters, defaultLimit, searchEnabled)
    {
      nonSearch, search, seen, searchDone := [], [], {}, false;
      new;
      var effective := ApplyDefaultQueryLimit(filters, defaultLimit);
      for i := 0 to |effective|
        invariant State() == NewState(filters[..i], defaultLimit, searchEnabled)
      {
        var f := effective[i];
        assert filters[..i + 1][..i] == filters[..i];
        if f.HasSearch() {
          if searchEnabled {
            search := search + [f];
          }
        } else {
          nonSearch := nonSearch + [NewCursor(f)];
        }
      }
      assert filters[..|filters|] == filters;
    }

    /** Search hits go into the page first, in the order the store ranked them. */
    static method CollectHits(found: seq<seq<Event>>) returns (page: map<Id, Event>, order: seq<Id>)
      ensures page == AddAll(map[], Concat(found)) && order == IdSeq(Concat(found))
    {
      page, order := map[], [];
      for i := 0 to |found|
        invariant page == AddAll(map[], Concat(found[..i]))
        invariant order == IdSeq(Concat(found[..i]))
      {
        assert found[..i + 1][..i] == found[..i];
        AddAllAppend(map[], Concat(found[..i]), found[i]);
        page := AddAll(page, found[i]);
        order := order + IdSeq(found[i]);
      }
      assert found[..|found|] == found;
    }

    /** Every filter in full, one after the other; rows are merged into `hits`. */
    method ReadAll(store: set<Event>, hits: map<Id, Event>) returns (page: map<Id, Event>)
      requires UniqueIds(store)
      modifies this`nonSearch
      ensures page == AddAll(hits, BaseRows(store, old(nonSearch)))
      ensures nonSearch == Exhaust(old(nonSearch))
    {
      hide QueryRows, AllRows, UniqueIds;
      page := hits;
      for i := 0 to |nonSearch|
        invariant |nonSearch| == |old(nonSearch)|
        invariant forall k | 0 <= k < i :: nonSearch[k] == old(nonSearch)[k].(exhausted := true)
        invariant forall k | i <= k < |nonSearch| :: nonSearch[k] == old(nonSearch)[k]
        invariant page == AddAll(hits, BaseRows(store, old(nonSearch)[..i]))
      {
        var rows := QueryEvents(store, nonSearch[i].base);
        assert old(nonSearch)[..i + 1][..i] == old(nonSearch)[..i];
        AddAllAppend(hits, BaseRows(store, old(nonSearch)[..i]), rows);
        page := AddAll(page, rows);
        nonSearch := nonSearch[i := nonSearch[i].(exhausted := true)];
      }
      assert old(nonSearch)[..|nonSearch|] == old(nonSearch);
    }

    static method AdvanceCursor(before: FilterCursor, rows: seq<Event>, lim: nat) returns (fc: FilterCursor)
      requires !before.exhausted
      ensures fc == Advance(before, rows, lim)
    {
      fc := before;
      if |rows| > 0 {
        fc := fc.(cursor := Some(CursorOf(rows[|rows| - 1])));
      }
      if fc.remaining > 0 {
        fc := fc.(remaining := fc.remaining - |rows|);
        if fc.remaining <= 0 {
          fc := fc.(exhausted := true);
        }
      }
      if |rows| < lim {
        fc := fc.(exhausted := true);
      }
    }

    /** The next rows of every filter that is not exhausted, merged into `hits`. */
    method ReadPage(store: set<Event>, hits: map<Id, Event>, pageSize: nat) returns (page: map<Id, Event>)
      requires UniqueIds(store)
      modifies this`nonSearch
      ensures page == AddAll(hits, FetchedRows(store, old(nonSearch), pageSize))
      ensures nonSearch == NextAll(store, old(nonSearch), pageSize)
    {
      hide QueryRows, AllRows, UniqueIds;
      page := hits;
      for i := 0 to |nonSearch|
        invariant |nonSearch| == |old(nonSearch)|
        invariant forall k | 0 <= k < i :: nonSearch[k] == Next(store, old(nonSearch)[k], pageSize)
        invariant forall k | i <= k < |nonSearch| :: nonSearch[k] == old(nonSearch)[k]
        invariant page == AddAll(hits, FetchedRows(store, old(nonSearch)[..i], pageSize))
      {
        var fc := nonSearch[i];
        assert old(nonSearch)[..i + 1][..i] == old(nonSearch)[..i];
        AddAllAppend(hits, FetchedRows(store, old(nonSearch)[..i], pageSize), Fetched(store, fc, pageSize));
        if !fc.exhausted {
          var rows := QueryEvents(store, PageFilter(fc, pageSize));
          page := AddAll(page, rows);
          fc := AdvanceCursor(fc, rows, PageLimit(fc, pageSize));
          nonSearch := nonSearch[i := fc];
        }
      }
      assert old(nonSearch)[..|nonSearch|] == old(nonSearch);
    }

    method AnyLeft() returns (hasMore: bool)
      ensures hasMore == AnyUnexhausted(nonSearch)
    {
      hasMore := false;
      for i := 0 to |nonSearch|
        invariant hasMore <==> exists k | 0 <= k < i :: !nonSearch[k].exhausted
      {
        if !nonSearch[i].exhausted {
          hasMore := true;
          break;
        }
      }
    }

    method FetchAll(store: set<Event>, found: seq<seq<Event>>) returns (out: seq<Event>, hasMore: bool)
      requires UniqueIds(store) && |found| == |search|
      modifies this
      ensures Page(out, State(), hasMore) == AllPage(store, old(State()), found)
    {
      var page, order := CollectHits(found);
      searchDone := true;
      page := ReadAll(store, page);
      assert page == PageMap(Concat(found), BaseRows(store, old(nonSearch)));
      hasMore := false;
      out, seen := MergePageEvents(page, order, seen);
    }

    method FetchPage(store: set<Event>, found: seq<seq<Event>>, pageSize: int) returns (out: seq<Event>, hasMore: bool)
      requires UniqueIds(store) && |found| == |search|
      modifies this
      ensures Page(out, State(), hasMore) == NextPage(store, old(State()), found, pageSize)
    {
      hide UniqueIds, AllPage, Merge, FetchedRows, NextAll, AddAll, Concat, IdSeq;
      if pageSize <= 0 {
        out, hasMore := FetchAll(store, found);
        return;
      }
      if |nonSearch| == 0 && |search| == 0 {
        return [], false;
      }
      var page: map<Id, Event>, order: seq<Id> := map[], [];
      ghost var hits := if searchDone then [] else Concat(found);
      if !searchDone {
        page, order := CollectHits(found);
        searchDone := true;
      }
      NoHits();
      assert page == AddAll(map[], hits) && order == IdSeq(hits);
      page := ReadPage(store, page, pageSize);
      assert page == PageMap(hits, FetchedRows(store, old(nonSearch), pageSize));
      hasMore := AnyLeft();
      out, seen := MergePageEvents(page, order, seen);
    }
  }

  lemma NoHits()
    ensures AddAll(map[], []) == map[] && IdSeq([]) == []
  {
  }
}
