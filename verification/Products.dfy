/**
 * The product projection: per address the winning revision, tombstoned by deletions. Seeding replays the base
 * query in a fixed order; afterwards events arrive online. Hex and address codecs are functions on strings.
 */
module Products {
  import opened Nostr
  import opened Order
  import opened Wrappers

  const PRODUCT: int := 30402
  const DELETION: int := 5

  datatype Address = Coordinates(kind: int, pubkey: string, d: string) | OfId(id: Id)

  datatype Codec = Codec(idFromHex: string -> Option<Id>, canonicalAddress: string -> Option<Address>)

  datatype Entry = Entry(event: Event, tombstoned: bool)

  type Projection = map<Address, Entry>

  /** The value of the first `d` tag that has one. */
  function DTagValue(tags: seq<Tag>): string
    decreases |tags|
  {
    if tags == [] then ""
    else if |tags[0]| >= 2 && tags[0][0] == "d" then tags[0][1]
    else DTagValue(tags[1..])
  }

  function AddressOf(e: Event): Address {
    if DTagValue(e.tags) != "" then Coordinates(e.kind, e.pubkey, DTagValue(e.tags)) else OfId(e.id)
  }

  // --------------------------------------------------------------- applying events

  function Upsert(m: Projection, e: Event): Projection {
    var a := AddressOf(e);
    if a in m && !Newer(e, m[a].event) then m else m[a := Entry(e, false)]
  }

  function BuryId(m: Projection, id: Id): Projection {
    map a | a in m :: if m[a].event.id == id then m[a].(tombstoned := true) else m[a]
  }

  function BuryAddress(m: Projection, a: Address, createdAt: int): Projection {
    if a in m && m[a].event.createdAt <= createdAt then m[a := m[a].(tombstoned := true)] else m
  }

  /** One tag of a deletion; tags that are short, unknown or undecodable are skipped. */
  function ApplyTag(m: Projection, codec: Codec, t: Tag, createdAt: int): Projection {
    if |t| < 2 then m
    else if t[0] == "e" then
      match codec.idFromHex(t[1]) case None => m case Some(id) => BuryId(m, id)
    else if t[0] == "a" then
      match codec.canonicalAddress(t[1]) case None => m case Some(a) => BuryAddress(m, a, createdAt)
    else m
  }

  function ApplyTags(m: Projection, codec: Codec, tags: seq<Tag>, createdAt: int): Projection
    decreases |tags|
  {
    if tags == [] then m else ApplyTag(ApplyTags(m, codec, tags[..|tags| - 1], createdAt), codec, tags[|tags| - 1], createdAt)
  }

  function ApplyEvent(m: Projection, codec: Codec, e: Event): Projection {
    if e.kind == PRODUCT then Upsert(m, e)
    else if e.kind == DELETION then ApplyTags(m, codec, e.tags, e.createdAt)
    else m
  }

  /** The store reports that it deleted this very event. */
  function ApplyDeleted(m: Projection, e: Event): Projection {
    var a := AddressOf(e);
    if e.kind == PRODUCT && a in m && m[a].event.id == e.id then m[a := m[a].(tombstoned := true)] else m
  }

  function ApplyAll(m: Projection, codec: Codec, events: seq<Event>): Projection
    decreases |events|
  {
    if events == [] then m else ApplyEvent(ApplyAll(m, codec, events[..|events| - 1]), codec, events[|events| - 1])
  }

  // ------------------------------------------------------------------- seed order

  function SeedRank(kind: int): nat {
    if kind == PRODUCT then 0 else 1
  }

  /** Oldest first; at one time products before deletions; then by id. */
  predicate SeedBefore(a: Event, b: Event) {
    || a.createdAt < b.createdAt
    || (a.createdAt == b.createdAt && SeedRank(a.kind) < SeedRank(b.kind))
    || (a.createdAt == b.createdAt && SeedRank(a.kind) == SeedRank(b.kind) && a.id < b.id)
  }

  predicate Seeded(e: Event) {
    e.kind == PRODUCT || e.kind == DELETION
  }

  function SeedSet(s: set<Event>): set<Event> {
    set e | e in s && Seeded(e)
  }

  lemma SeedIsTotal(s: set<Event>)
    requires UniqueIds(s)
    ensures Strict(SeedBefore) && TotalOn(SeedBefore, SeedSet(s))
  {
  }

  ghost function SeedState(s: set<Event>, codec: Codec): Projection
    requires UniqueIds(s)
  {
    SeedIsTotal(s);
    ApplyAll(map[], codec, Sort(SeedSet(s), SeedBefore))
  }

  class Scope2State {
    const codec: Codec
    var products: Projection

    constructor (codec: Codec)
      ensures this.codec == codec && products == map[]
    {
      this.codec := codec;
      products := map[];
    }

    method UpsertProduct(e: Event)
      modifies this
      ensures products == Upsert(old(products), e)
    {
      var address := AddressOf(e);
      if address in products && !Newer(e, products[address].event) {
        return;
      }
      products := products[address := Entry(e, false)];
    }

    /** An `e` tag buries every address whose current revision has that id. */
    method BuryById(id: Id)
      modifies this
      ensures products == BuryId(old(products), id)
    {
      var addresses := products.Keys;
      while addresses != {}
        invariant addresses <= products.Keys == old(products).Keys
        invariant forall a | a in addresses :: products[a] == old(products)[a]
        invariant forall a | a in products.Keys - addresses :: products[a] == BuryId(old(products), id)[a]
        decreases |addresses|
      {
        var address :| address in addresses;
        addresses := addresses - {address};
        var current := products[address];
        if current.event.id == id {
          products := products[address := current.(tombstoned := true)];
        }
      }
    }

    method ApplyDeleteEvent(e: Event)
      modifies this
      ensures products == ApplyTags(old(products), codec, e.tags, e.createdAt)
    {
      for i := 0 to |e.tags|
        invariant products == ApplyTags(old(products), codec, e.tags[..i], e.createdAt)
      {
        var tag := e.tags[i];
        assert e.tags[..i + 1][..i] == e.tags[..i];
        if |tag| < 2 {
          continue;
        }
        if tag[0] == "e" {
          var id := codec.idFromHex(tag[1]);
          if id.None? {
            continue;
          }
          BuryById(id.value);
        } else if tag[0] == "a" {
          var address := codec.canonicalAddress(tag[1]);
          if address.None? || address.value !in products {
            continue;
          }
          var current := products[address.value];
          if current.event.createdAt <= e.createdAt {
            products := products[address.value := current.(tombstoned := true)];
          }
        }
      }
      assert e.tags[..|e.tags|] == e.tags;
    }

    method ApplyDeletedEvent(e: Event)
      modifies this
      ensures products == ApplyDeleted(old(products), e)
    {
      if e.kind != PRODUCT {
        return;
      }
      var address := AddressOf(e);
      if address !in products || products[address].event.id != e.id {
        return;
      }
      products := products[address := products[address].(tombstoned := true)];
    }

    method Apply(e: Event)
      modifies this
      ensures products == ApplyEvent(old(products), codec, e)
    {
      if e.kind == PRODUCT {
        UpsertProduct(e);
      } else if e.kind == DELETION {
        ApplyDeleteEvent(e);
      }
    }

    /** `rows` is whatever the base query yields, in any order and a row perhaps more than once. */
    method Seed(rows: seq<Event>)
      requires products == map[] && UniqueIds(Elements(rows))
      modifies this
      ensures products == SeedState(Elements(rows), codec)
    {
      hide UniqueIds, Sort, ApplyEvent, Strict, TotalOn;
      var events: seq<Event> := [];
      for i := 0 to |rows|
        invariant Elements(events) == SeedSet(Elements(rows[..i])) && products == map[]
      {
        assert rows[..i + 1] == rows[..i] + [rows[i]];
        assert Elements(rows[..i + 1]) == Elements(rows[..i]) + {rows[i]};
        if rows[i].kind == PRODUCT || rows[i].kind == DELETION {
          assert Elements(events + [rows[i]]) == Elements(events) + {rows[i]};
          events := events + [rows[i]];
        }
      }
      assert rows[..|rows|] == rows;
      SeedIsTotal(Elements(rows));
      var sorted := SortRows(events);
      for i := 0 to |sorted|
        invariant products == ApplyAll(map[], codec, sorted[..i])
      {
        assert sorted[..i + 1][..i] == sorted[..i];
        Apply(sorted[i]);
      }
      assert sorted[..|sorted|] == sorted;
      RepeatsAside(codec, sorted);
    }
  }

  // ------------------------------------------------------------- rows seen twice

  /** In order, with equal events side by side. */
  ghost predicate InSeedOrder(events: seq<Event>) {
    forall i, j | 0 <= i < j < |events| :: events[i] == events[j] || SeedBefore(events[i], events[j])
  }

  lemma ConsInOrder(x: Event, xs: seq<Event>)
    requires InSeedOrder(xs) && forall y | y in xs :: x == y || SeedBefore(x, y)
    ensures InSeedOrder([x] + xs)
  {
    hide SeedBefore;
    var out := [x] + xs;
    forall i, j | 0 <= i < j < |out| ensures out[i] == out[j] || SeedBefore(out[i], out[j]) {
      assert out[j] == xs[j - 1] && (i > 0 ==> out[i] == xs[i - 1]);
    }
  }

  lemma TailInOrder(xs: seq<Event>)
    requires InSeedOrder(xs) && xs != []
    ensures InSeedOrder(xs[1..]) && forall y | y in xs[1..] :: xs[0] == y || SeedBefore(xs[0], y)
    ensures Elements(xs) == {xs[0]} + Elements(xs[1..])
  {
    hide SeedBefore;
    assert forall k | 0 <= k < |xs| - 1 :: xs[1..][k] == xs[k + 1];
    assert xs == [xs[0]] + xs[1..];
    ElementsOfCons(xs[0], xs[1..]);
  }

  lemma {:induction false} InsertInOrder(e: Event, events: seq<Event>)
    requires Strict(SeedBefore) && InSeedOrder(events) && TotalOn(SeedBefore, Elements(events) + {e})
    ensures var out := InsertSorted(e, events, SeedBefore);
            InSeedOrder(out) && Elements(out) == Elements(events) + {e} && |out| == |events| + 1
    decreases |events|
  {
    hide SeedBefore, InSeedOrder, Elements;
    if events == [] {
      ConsInOrder(e, events);
      ElementsOfCons(e, events);
    } else {
      var first, tail := events[0], events[1..];
      TailInOrder(events);
      InElements(tail);
      if SeedBefore(e, first) {
        forall y | y in events ensures SeedBefore(e, y) {
          assert y == first || y in tail;
        }
        ConsInOrder(e, events);
        ElementsOfCons(e, events);
      } else {
        InsertInOrder(e, tail);
        var rec := InsertSorted(e, tail, SeedBefore);
        InElements(rec);
        ConsInOrder(first, rec);
        ElementsOfCons(first, rec);
      }
    }
  }

  lemma InElements(xs: seq<Event>)
    ensures forall x :: x in xs <==> x in Elements(xs)
  {
  }

  method SortRows(events: seq<Event>) returns (out: seq<Event>)
    requires Strict(SeedBefore) && TotalOn(SeedBefore, Elements(events))
    ensures InSeedOrder(out) && Elements(out) == Elements(events) && |out| == |events|
  {
    hide Strict, InSeedOrder, SeedBefore;
    out := [];
    assert InSeedOrder(out) by { NothingInOrder(); }
    for i := 0 to |events|
      invariant InSeedOrder(out) && Elements(out) == Elements(events[..i]) && |out| == i
    {
      assert events[..i + 1] == events[..i] + [events[i]];
      assert Elements(events[..i + 1]) == Elements(events[..i]) + {events[i]} <= Elements(events);
      InsertInOrder(events[i], out);
      out := InsertSorted(events[i], out, SeedBefore);
    }
    assert events[..|events|] == events;
  }

  lemma NothingInOrder()
    ensures InSeedOrder([])
  {
  }

  /** An event applied again right after itself changes nothing. */
  lemma ApplyTwice(m: Projection, codec: Codec, e: Event)
    ensures ApplyEvent(ApplyEvent(m, codec, e), codec, e) == ApplyEvent(m, codec, e)
  {
    hide AddressOf, ApplyTags, Names;
    if e.kind == DELETION {
      var once := ApplyTags(m, codec, e.tags, e.createdAt);
      TagsBury(m, codec, e.tags, e.createdAt);
      TagsBury(once, codec, e.tags, e.createdAt);
      var twice := ApplyTags(once, codec, e.tags, e.createdAt);
      assert forall a | a in m :: twice[a] == once[a];
    }
  }

  /** Replaying rows with repeats leaves what replaying each once leaves. */
  lemma OneMoreApplied(codec: Codec, events: seq<Event>, e: Event)
    ensures ApplyAll(map[], codec, events + [e]) == ApplyEvent(ApplyAll(map[], codec, events), codec, e)
  {
    hide ApplyEvent;
    assert (events + [e])[..|events|] == events;
  }

  lemma {:induction false} RepeatsAside(codec: Codec, events: seq<Event>)
    requires Strict(SeedBefore) && TotalOn(SeedBefore, Elements(events)) && InSeedOrder(events)
    ensures ApplyAll(map[], codec, events) == ApplyAll(map[], codec, Sort(Elements(events), SeedBefore))
    decreases |events|
  {
    hide ApplyEvent, ApplyAll, Sort, SeedBefore, Strict, InSeedOrder, TotalOn;
    if events == [] {
      assert Elements(events) == {};
      NothingSorted();
    } else {
      var n := |events| - 1;
      var e, before := events[n], events[..n];
      assert events == before + [e];
      assert Elements(events) == Elements(before) + {e};
      PrefixInOrder(events, n);
      RepeatsAside(codec, before);
      OneMoreApplied(codec, before, e);
      if e in before {
        LastRepeats(events);
        assert Elements(events) == Elements(before);
        assert before == before[..n - 1] + [e];
        OneMoreApplied(codec, before[..n - 1], e);
        ApplyTwice(ApplyAll(map[], codec, before[..n - 1]), codec, e);
      } else {
        LastSorts(Sort(Elements(before), SeedBefore), before, e);
        OneMoreApplied(codec, Sort(Elements(before), SeedBefore), e);
      }
    }
  }

  lemma PrefixInOrder(events: seq<Event>, n: nat)
    requires n <= |events| && InSeedOrder(events) && TotalOn(SeedBefore, Elements(events))
    ensures InSeedOrder(events[..n]) && TotalOn(SeedBefore, Elements(events[..n]))
  {
    hide SeedBefore;
  }

  lemma NothingSorted()
    requires Strict(SeedBefore) && TotalOn(SeedBefore, {})
    ensures Sort<Event>({}, SeedBefore) == []
  {
  }

  lemma LastRepeats(events: seq<Event>)
    requires Strict(SeedBefore) && InSeedOrder(events) && |events| > 0 && events[|events| - 1] in events[..|events| - 1]
    ensures |events| > 1 && events[|events| - 2] == events[|events| - 1]
  {
    hide SeedBefore;
    var n := |events| - 1;
    var i :| 0 <= i < n && events[i] == events[n];
    assert i < n - 1 ==> events[i] == events[n - 1] || SeedBefore(events[i], events[n - 1]);
    assert events[n - 1] == events[n] || SeedBefore(events[n - 1], events[n]);
  }

  lemma OneMoreElement(sorted: seq<Event>, before: seq<Event>, e: Event)
    requires Elements(sorted) == Elements(before)
    ensures Elements(sorted + [e]) == Elements(before) + {e}
  {
    assert forall x | x in sorted :: x in Elements(sorted);
    assert forall x | x in Elements(sorted) :: x in sorted + [e];
    assert e in sorted + [e];
  }

  lemma LastSorts(sorted: seq<Event>, before: seq<Event>, e: Event)
    requires Strict(SeedBefore) && TotalOn(SeedBefore, Elements(before) + {e}) && InSeedOrder(before + [e]) && e !in before
    requires TotalOn(SeedBefore, Elements(before)) && sorted == Sort(Elements(before), SeedBefore)
    ensures Sort(Elements(before) + {e}, SeedBefore) == sorted + [e]
  {
    hide SeedBefore, Strict;
    var out, all := sorted + [e], before + [e];
    forall x | x in sorted ensures SeedBefore(x, e) {
      assert x in Elements(sorted);
      var i :| 0 <= i < |before| && before[i] == x;
      assert all[i] == x && all[|before|] == e;
    }
    OneMoreElement(sorted, before, e);
    assert Sorted(out, SeedBefore) by {
      assert forall i | 0 <= i < |sorted| :: sorted[i] in sorted;
    }
    SortIs(out, SeedBefore);
  }

  // ------------------------------------------------------------- what seeding means

  /** The tag names this revision: by its id, or by its address when the deletion is no older. */
  predicate TagNames(codec: Codec, t: Tag, id: Id, a: Address, noOlder: bool) {
    && |t| >= 2
    && ((t[0] == "e" && codec.idFromHex(t[1]) == Some(id)) || (noOlder && t[0] == "a" && codec.canonicalAddress(t[1]) == Some(a)))
  }

  predicate Names(codec: Codec, tags: seq<Tag>, id: Id, a: Address, noOlder: bool) {
    exists i | 0 <= i < |tags| :: TagNames(codec, tags[i], id, a, noOlder)
  }

  ghost predicate Wins(s: set<Event>, w: Event, a: Address) {
    && w in s && w.kind == PRODUCT && AddressOf(w) == a
    && forall e | e in s && e.kind == PRODUCT && AddressOf(e) == a :: e == w || Newer(w, e)
  }

  ghost predicate Buried(s: set<Event>, codec: Codec, w: Event, a: Address) {
    exists d | d in s :: d.kind == DELETION && d.createdAt >= w.createdAt && Names(codec, d.tags, w.id, a, true)
  }

  ghost predicate HasProduct(s: set<Event>, a: Address) {
    exists e | e in s :: e.kind == PRODUCT && AddressOf(e) == a
  }

  /** Each address holds its winner, tombstoned iff a deletion no older than it names it. */
  ghost predicate Reflects(m: Projection, s: set<Event>, codec: Codec) {
    forall a :: (a in m <==> HasProduct(s, a)) && (a in m ==> Wins(s, m[a].event, a) && (m[a].tombstoned <==> Buried(s, codec, m[a].event, a)))
  }

  /** Deleting by tags buries exactly the entries the tags name. */
  lemma {:induction false} TagsBury(m: Projection, codec: Codec, tags: seq<Tag>, createdAt: int)
    ensures var after := ApplyTags(m, codec, tags, createdAt);
            && after.Keys == m.Keys
            && forall a | a in m ::
                 && after[a].event == m[a].event
                 && (after[a].tombstoned <==> m[a].tombstoned || Names(codec, tags, m[a].event.id, a, m[a].event.createdAt <= createdAt))
    decreases |tags|
  {
    hide TagNames;
    if tags != [] {
      var n := |tags| - 1;
      TagsBury(m, codec, tags[..n], createdAt);
      var before := ApplyTags(m, codec, tags[..n], createdAt);
      OneTagBuries(before, codec, tags[n], createdAt);
      forall a | a in m ensures var noOlder := m[a].event.createdAt <= createdAt;
          Names(codec, tags, m[a].event.id, a, noOlder) <==>
          Names(codec, tags[..n], m[a].event.id, a, noOlder) || TagNames(codec, tags[n], m[a].event.id, a, noOlder) {
        NamesGrow(codec, tags, m[a].event.id, a, m[a].event.createdAt <= createdAt);
      }
    }
  }

  lemma NamesGrow(codec: Codec, tags: seq<Tag>, id: Id, a: Address, noOlder: bool)
    requires tags != []
    ensures Names(codec, tags, id, a, noOlder) <==>
            Names(codec, tags[..|tags| - 1], id, a, noOlder) || TagNames(codec, tags[|tags| - 1], id, a, noOlder)
  {
    hide TagNames;
    var n := |tags| - 1;
    if Names(codec, tags[..n], id, a, noOlder) {
      var i :| 0 <= i < n && TagNames(codec, tags[..n][i], id, a, noOlder);
      assert TagNames(codec, tags[i], id, a, noOlder);
    }
    if Names(codec, tags, id, a, noOlder) {
      var i :| 0 <= i < |tags| && TagNames(codec, tags[i], id, a, noOlder);
      assert i < n ==> TagNames(codec, tags[..n][i], id, a, noOlder);
    }
  }

  lemma OneTagBuries(m: Projection, codec: Codec, t: Tag, createdAt: int)
    ensures var after := ApplyTag(m, codec, t, createdAt);
            && after.Keys == m.Keys
            && forall a | a in m ::
                 && after[a].event == m[a].event
                 && (after[a].tombstoned <==> m[a].tombstoned || TagNames(codec, t, m[a].event.id, a, m[a].event.createdAt <= createdAt))
  {
  }

  /** `e` comes after everything replayed so far. */
  ghost predicate ComesLast(s: set<Event>, e: Event) {
    forall d | d in s :: SeedBefore(d, e) && Seeded(d)
  }

  lemma ProductReflects(m: Projection, s: set<Event>, codec: Codec, e: Event)
    requires Reflects(m, s, codec) && ComesLast(s, e) && e.kind == PRODUCT
    ensures Reflects(Upsert(m, e), s + {e}, codec)
  {
    hide AddressOf, Names;
    var after, all := Upsert(m, e), s + {e};
    forall a
      ensures a in after <==> HasProduct(all, a)
      ensures a in after ==> Wins(all, after[a].event, a) && (after[a].tombstoned <==> Buried(all, codec, after[a].event, a))
    {
      ProductAt(m, s, codec, e, a);
    }
  }

  lemma ProductAt(m: Projection, s: set<Event>, codec: Codec, e: Event, a: Address)
    requires Reflects(m, s, codec) && ComesLast(s, e) && e.kind == PRODUCT
    ensures var after, all := Upsert(m, e), s + {e};
            && (a in after <==> HasProduct(all, a))
            && (a in after ==> Wins(all, after[a].event, a) && (after[a].tombstoned <==> Buried(all, codec, after[a].event, a)))
  {
    hide AddressOf, Names;
    var after, all := Upsert(m, e), s + {e};
    assert e in all;
    if a == AddressOf(e) {
      if a in m && !Newer(e, m[a].event) {
        var w := m[a].event;
        assert Wins(s, w, a) && Newer(w, e);
        assert Buried(all, codec, w, a) <==> Buried(s, codec, w, a);
      } else {
        assert Wins(all, e, a);
        assert !Buried(all, codec, e, a);
      }
    } else if a in m {
      assert Wins(s, m[a].event, a);
      assert Buried(all, codec, m[a].event, a) <==> Buried(s, codec, m[a].event, a);
    }
  }

  lemma DeletionReflects(m: Projection, s: set<Event>, codec: Codec, d: Event)
    requires Reflects(m, s, codec) && ComesLast(s, d) && d.kind == DELETION
    ensures Reflects(ApplyTags(m, codec, d.tags, d.createdAt), s + {d}, codec)
  {
    hide AddressOf, Names, ApplyTags;
    var all := s + {d};
    forall a | a in m ensures m[a].event.createdAt <= d.createdAt {
      assert Wins(s, m[a].event, a);
    }
    TagsBury(m, codec, d.tags, d.createdAt);
    var after := ApplyTags(m, codec, d.tags, d.createdAt);
    forall a
      ensures a in after <==> HasProduct(all, a)
      ensures a in after ==> Wins(all, after[a].event, a) && (after[a].tombstoned <==> Buried(all, codec, after[a].event, a))
    {
      if a in m {
        assert Wins(s, m[a].event, a);
        OneMoreDeletion(s, codec, d, m[a].event, a);
      }
    }
  }

  lemma OneMoreDeletion(s: set<Event>, codec: Codec, d: Event, w: Event, a: Address)
    requires d.kind == DELETION && w.createdAt <= d.createdAt
    ensures Buried(s + {d}, codec, w, a) <==> Buried(s, codec, w, a) || Names(codec, d.tags, w.id, a, true)
  {
    hide Names;
    assert d in s + {d};
    assert forall x | x in s :: x in s + {d};
  }

  lemma {:induction false} ReplayReflects(codec: Codec, events: seq<Event>)
    requires Sorted(events, SeedBefore) && forall e | e in events :: Seeded(e)
    ensures Reflects(ApplyAll(map[], codec, events), Elements(events), codec)
    decreases |events|
  {
    hide Reflects, SeedBefore;
    if events == [] {
      NothingReflects(codec);
    } else {
      var n := |events| - 1;
      var e := events[n];
      ReplayReflects(codec, events[..n]);
      assert events == events[..n] + [e];
      assert Elements(events) == Elements(events[..n]) + {e};
      assert e in events && ComesLast(Elements(events[..n]), e);
      var m := ApplyAll(map[], codec, events[..n]);
      if e.kind == PRODUCT {
        ProductReflects(m, Elements(events[..n]), codec, e);
      } else {
        DeletionReflects(m, Elements(events[..n]), codec, e);
      }
    }
  }

  lemma NothingReflects(codec: Codec)
    ensures Reflects(map[], Elements([]), codec)
  {
  }

  /**
   * After seeding, whatever order the base query yielded, each address with a product holds its winning
   * revision (newest, then lowest id), tombstoned exactly when some deletion no older than it names its id or address.
   */
  lemma SeedReflects(s: set<Event>, codec: Codec)
    requires UniqueIds(s)
    ensures Reflects(SeedState(s, codec), SeedSet(s), codec)
  {
    hide Reflects, UniqueIds, Sort, ApplyAll;
    SeedIsTotal(s);
    var sorted := Sort(SeedSet(s), SeedBefore);
    assert forall e | e in sorted :: e in Elements(sorted);
    ReplayReflects(codec, sorted);
  }

  // ---------------------------------------------------------------------- online

  /** An event handed to the projection after seeding, or the store's own report of a deletion. */
  datatype Input = Arrives(event: Event) | Deleted(event: Event)

  function Take(m: Projection, codec: Codec, input: Input): Projection {
    match input
    case Arrives(e) => ApplyEvent(m, codec, e)
    case Deleted(e) => ApplyDeleted(m, e)
  }

  function TakeAll(m: Projection, codec: Codec, inputs: seq<Input>): Projection
    decreases |inputs|
  {
    if inputs == [] then m else Take(TakeAll(m, codec, inputs[..|inputs| - 1]), codec, inputs[|inputs| - 1])
  }

  /** The revision is still there and buried, or a strictly better one has taken its place. */
  predicate StaysBuried(before: Entry, after: Entry) {
    Newer(after.event, before.event) || (after.event == before.event && after.tombstoned)
  }

  predicate NoWorse(before: Entry, after: Entry) {
    Newer(after.event, before.event) || (after.event == before.event && (before.tombstoned ==> after.tombstoned))
  }

  lemma {:induction false} TagsNoWorse(m: Projection, codec: Codec, tags: seq<Tag>, createdAt: int)
    ensures m.Keys <= ApplyTags(m, codec, tags, createdAt).Keys
    ensures forall a | a in m :: NoWorse(m[a], ApplyTags(m, codec, tags, createdAt)[a])
    decreases |tags|
  {
    hide Newer;
    if tags != [] {
      TagsNoWorse(m, codec, tags[..|tags| - 1], createdAt);
      OneTagNoWorse(ApplyTags(m, codec, tags[..|tags| - 1], createdAt), codec, tags[|tags| - 1], createdAt);
    }
  }

  lemma OneTagNoWorse(m: Projection, codec: Codec, t: Tag, createdAt: int)
    ensures ApplyTag(m, codec, t, createdAt).Keys == m.Keys
    ensures forall a | a in m :: ApplyTag(m, codec, t, createdAt)[a].event == m[a].event
    ensures forall a | a in m && m[a].tombstoned :: ApplyTag(m, codec, t, createdAt)[a].tombstoned
  {
  }

  lemma TakeNoWorse(m: Projection, codec: Codec, input: Input)
    ensures m.Keys <= Take(m, codec, input).Keys
    ensures forall a | a in m :: NoWorse(m[a], Take(m, codec, input)[a])
  {
    hide AddressOf, ApplyTags;
    if input.Arrives? {
      TagsNoWorse(m, codec, input.event.tags, input.event.createdAt);
    }
  }

  /** On any online run, a tombstoned revision stays tombstoned until a strictly better one replaces it. */
  lemma {:induction false} TombstonesLast(m: Projection, codec: Codec, inputs: seq<Input>, a: Address)
    requires a in m && m[a].tombstoned
    ensures a in TakeAll(m, codec, inputs) && StaysBuried(m[a], TakeAll(m, codec, inputs)[a])
    decreases |inputs|
  {
    hide Take;
    if inputs != [] {
      var n := |inputs| - 1;
      TombstonesLast(m, codec, inputs[..n], a);
      TakeNoWorse(TakeAll(m, codec, inputs[..n]), codec, inputs[n]);
    }
  }

  // ------------------------------------------------- what an online run leaves

  /** The events that arrived. */
  function Offered(inputs: seq<Input>): set<Event> {
    set i | 0 <= i < |inputs| && inputs[i].Arrives? :: inputs[i].event
  }

  lemma PartIsUnique(s: set<Event>, t: set<Event>)
    requires UniqueIds(s) && t <= s
    ensures UniqueIds(t)
  {
  }

  /** What seeding from `s` and then taking the inputs in turn leaves. */
  ghost function RunState(s: set<Event>, codec: Codec, inputs: seq<Input>): Projection
    requires UniqueIds(s + Offered(inputs))
  {
    PartIsUnique(s + Offered(inputs), s);
    TakeAll(SeedState(s, codec), codec, inputs)
  }

  /** Applying the next input to what a run left, as `Apply` and `ApplyDeletedEvent` do, is the longer run. */
  lemma RunGrows(s: set<Event>, codec: Codec, inputs: seq<Input>, input: Input)
    requires UniqueIds(s + Offered(inputs + [input]))
    ensures UniqueIds(s + Offered(inputs))
    ensures RunState(s, codec, inputs + [input]) == Take(RunState(s, codec, inputs), codec, input)
  {
    hide UniqueIds, SeedState, Take, Offered;
    OfferedGrows(inputs, input);
    PartIsUnique(s + Offered(inputs + [input]), s + Offered(inputs));
    assert (inputs + [input])[..|inputs|] == inputs;
  }

  /** The input buries revision `w` while it is the current one of its address. */
  predicate Buries(codec: Codec, input: Input, w: Event, a: Address) {
    match input
    case Arrives(d) => d.kind == DELETION && Names(codec, d.tags, w.id, a, w.createdAt <= d.createdAt)
    case Deleted(e) => e.kind == PRODUCT && AddressOf(e) == a && e.id == w.id
  }

  predicate Present(s: set<Event>, prior: seq<Input>, w: Event) {
    w in s || Arrives(w) in prior
  }

  /** Seeding buried the revision, or some input did once the revision was there. */
  ghost predicate BuriedSince(s: set<Event>, codec: Codec, inputs: seq<Input>, w: Event, a: Address) {
    || (w in s && Buried(s, codec, w, a))
    || exists j | 0 <= j < |inputs| :: Present(s, inputs[..j], w) && Buries(codec, inputs[j], w, a)
  }

  /** Each address holds the winner of everything seeded and arrived, tombstoned iff buried since it was there. */
  ghost predicate RunReflects(m: Projection, s: set<Event>, codec: Codec, inputs: seq<Input>) {
    forall a :: RunReflectsAt(m, s, codec, inputs, a)
  }

  ghost predicate RunReflectsAt(m: Projection, s: set<Event>, codec: Codec, inputs: seq<Input>, a: Address) {
    var all := s + Offered(inputs);
    && (a in m <==> HasProduct(all, a))
    && (a in m ==> Wins(all, m[a].event, a) && (m[a].tombstoned <==> BuriedSince(s, codec, inputs, m[a].event, a)))
  }

  lemma OfferedGrows(inputs: seq<Input>, input: Input)
    ensures Offered(inputs + [input]) == Offered(inputs) + (if input.Arrives? then {input.event} else {})
    ensures forall e :: e in Offered(inputs) <==> Arrives(e) in inputs
  {
    var all := inputs + [input];
    assert forall i | 0 <= i < |inputs| :: all[i] == inputs[i];
    assert all[|inputs|] == input;
    forall e ensures e in Offered(inputs) <==> Arrives(e) in inputs {
      if Arrives(e) in inputs {
        var i :| 0 <= i < |inputs| && inputs[i] == Arrives(e);
      }
    }
    forall e | e in Offered(all) ensures e in Offered(inputs) + (if input.Arrives? then {input.event} else {}) {
      var i :| 0 <= i < |all| && all[i].Arrives? && all[i].event == e;
      if i < |inputs| {
        assert inputs[i].Arrives? && inputs[i].event == e;
      }
    }
  }

  lemma BuriedSinceGrows(s: set<Event>, codec: Codec, inputs: seq<Input>, input: Input, w: Event, a: Address)
    ensures BuriedSince(s, codec, inputs + [input], w, a) <==>
            BuriedSince(s, codec, inputs, w, a) || (Present(s, inputs, w) && Buries(codec, input, w, a))
  {
    hide Buries, Present;
    var all := inputs + [input];
    assert all[..|inputs|] == inputs && all[|inputs|] == input;
    forall j | 0 <= j < |inputs| ensures all[..j] == inputs[..j] && all[j] == inputs[j] {
    }
    if BuriedSince(s, codec, all, w, a) && !(w in s && Buried(s, codec, w, a)) {
      var j :| 0 <= j < |all| && Present(s, all[..j], w) && Buries(codec, all[j], w, a);
      assert j < |inputs| ==> Present(s, inputs[..j], w) && Buries(codec, inputs[j], w, a);
    }
    if exists j | 0 <= j < |inputs| :: Present(s, inputs[..j], w) && Buries(codec, inputs[j], w, a) {
      var j :| 0 <= j < |inputs| && Present(s, inputs[..j], w) && Buries(codec, inputs[j], w, a);
      assert Present(s, all[..j], w) && Buries(codec, all[j], w, a);
    }
    if Present(s, inputs, w) && Buries(codec, input, w, a) {
      assert Present(s, all[..|inputs|], w) && Buries(codec, all[|inputs|], w, a);
    }
  }

  /** A revision nobody has offered before cannot have been buried before. */
  lemma NewIsUnburied(s: set<Event>, codec: Codec, inputs: seq<Input>, w: Event, a: Address)
    requires w !in s + Offered(inputs)
    ensures !BuriedSince(s, codec, inputs, w, a)
  {
    hide Buries;
    OfferedGrows(inputs, Arrives(w));
    assert forall j | 0 <= j < |inputs| :: forall x | x in inputs[..j] :: x in inputs;
  }

  lemma OtherEventAside(s: set<Event>, e: Event, w: Event, a: Address)
    requires e.kind != PRODUCT || AddressOf(e) != a
    ensures HasProduct(s + {e}, a) <==> HasProduct(s, a)
    ensures Wins(s + {e}, w, a) <==> Wins(s, w, a)
  {
    hide AddressOf, Newer;
    assert forall d | d in s :: d in s + {e};
  }

  /** An arrival or report that touches neither the address's revision nor its burial. */
  lemma NothingHappensAt(m: Projection, s: set<Event>, codec: Codec, inputs: seq<Input>, input: Input, a: Address)
    requires RunReflectsAt(m, s, codec, inputs, a)
    requires input.Arrives? ==> input.event.kind != PRODUCT || AddressOf(input.event) != a
    requires a in m ==> !Buries(codec, input, m[a].event, a)
    ensures RunReflectsAt(m, s, codec, inputs + [input], a)
  {
    hide Buries, AddressOf, Wins, HasProduct, BuriedSince, Offered;
    OfferedGrows(inputs, input);
    var all := s + Offered(inputs);
    if input.Arrives? {
      assert s + Offered(inputs + [input]) == all + {input.event};
      OtherEventAside(all, input.event, if a in m then m[a].event else input.event, a);
    } else {
      assert s + Offered(inputs + [input]) == all;
    }
    if a in m {
      BuriedSinceGrows(s, codec, inputs, input, m[a].event, a);
    }
  }

  lemma ProductArrivesAt(m: Projection, s: set<Event>, codec: Codec, inputs: seq<Input>, e: Event)
    requires RunReflectsAt(m, s, codec, inputs, AddressOf(e)) && e.kind == PRODUCT
    requires UniqueIds(s + Offered(inputs) + {e})
    ensures RunReflectsAt(Upsert(m, e), s, codec, inputs + [Arrives(e)], AddressOf(e))
  {
    hide AddressOf, BuriedSince, Offered;
    var a, all := AddressOf(e), s + Offered(inputs);
    OfferedGrows(inputs, Arrives(e));
    assert s + Offered(inputs + [Arrives(e)]) == all + {e} && e in all + {e};
    BuriedSinceGrows(s, codec, inputs, Arrives(e), Upsert(m, e)[a].event, a);
    if a in m && !Newer(e, m[a].event) {
      assert m[a].event in all + {e};
      assert e == m[a].event || Newer(m[a].event, e);
    } else {
      assert e !in all;
      NewIsUnburied(s, codec, inputs, e, a);
    }
  }

  lemma DeletionArrivesAt(m: Projection, s: set<Event>, codec: Codec, inputs: seq<Input>, d: Event, a: Address)
    requires RunReflectsAt(m, s, codec, inputs, a) && d.kind == DELETION
    ensures RunReflectsAt(ApplyTags(m, codec, d.tags, d.createdAt), s, codec, inputs + [Arrives(d)], a)
  {
    hide AddressOf, BuriedSince, Offered, ApplyTags, Names, Wins, HasProduct;
    var all := s + Offered(inputs);
    OfferedGrows(inputs, Arrives(d));
    assert s + Offered(inputs + [Arrives(d)]) == all + {d};
    TagsBury(m, codec, d.tags, d.createdAt);
    OtherEventAside(all, d, if a in m then m[a].event else d, a);
    if a in m {
      WinnerIsThere(all, m[a].event, a);
      BuriedSinceGrows(s, codec, inputs, Arrives(d), m[a].event, a);
    }
  }

  lemma WinnerIsThere(s: set<Event>, w: Event, a: Address)
    requires Wins(s, w, a)
    ensures w in s && AddressOf(w) == a && w.kind == PRODUCT
  {
  }

  lemma ReportArrivesAt(m: Projection, s: set<Event>, codec: Codec, inputs: seq<Input>, e: Event, a: Address)
    requires RunReflectsAt(m, s, codec, inputs, a)
    ensures RunReflectsAt(ApplyDeleted(m, e), s, codec, inputs + [Deleted(e)], a)
  {
    hide AddressOf, BuriedSince, Offered, Wins, HasProduct;
    OfferedGrows(inputs, Deleted(e));
    assert s + Offered(inputs + [Deleted(e)]) == s + Offered(inputs);
    OfferedGrows(inputs, Deleted(e));
    if a in m {
      WinnerIsThere(s + Offered(inputs), m[a].event, a);
      BuriedSinceGrows(s, codec, inputs, Deleted(e), m[a].event, a);
    }
  }

  lemma TakeReflectsAt(m: Projection, s: set<Event>, codec: Codec, inputs: seq<Input>, input: Input, a: Address)
    requires RunReflectsAt(m, s, codec, inputs, a) && UniqueIds(s + Offered(inputs + [input]))
    ensures RunReflectsAt(Take(m, codec, input), s, codec, inputs + [input], a)
  {
    hide AddressOf, RunReflectsAt, ApplyTags, UniqueIds, Offered;
    if input.Deleted? {
      ReportArrivesAt(m, s, codec, inputs, input.event, a);
    } else {
      var e := input.event;
      if e.kind == DELETION {
        DeletionArrivesAt(m, s, codec, inputs, e, a);
      } else if e.kind == PRODUCT && AddressOf(e) == a {
        OfferedGrows(inputs, input);
        assert s + Offered(inputs + [input]) == s + Offered(inputs) + {e};
        ProductArrivesAt(m, s, codec, inputs, e);
      } else {
        NothingHappensAt(m, s, codec, inputs, input, a);
        ElsewhereAside(m, Take(m, codec, input), s, codec, inputs + [input], a);
      }
    }
  }

  lemma ElsewhereAside(m: Projection, m': Projection, s: set<Event>, codec: Codec, inputs: seq<Input>, a: Address)
    requires RunReflectsAt(m, s, codec, inputs, a) && (a in m <==> a in m') && (a in m ==> m'[a] == m[a])
    ensures RunReflectsAt(m', s, codec, inputs, a)
  {
    hide Wins, HasProduct, BuriedSince;
  }

  lemma SeededAt(s: set<Event>, codec: Codec, a: Address)
    requires UniqueIds(s)
    ensures RunReflectsAt(SeedState(s, codec), s, codec, [], a)
  {
    hide SeedState, AddressOf, Names, UniqueIds, Newer;
    SeedReflects(s, codec);
    var m := SeedState(s, codec);
    assert Offered([]) == {} && s + Offered([]) == s;
    assert HasProduct(SeedSet(s), a) <==> HasProduct(s, a) by {
      assert forall e | e in s && e.kind == PRODUCT :: e in SeedSet(s);
    }
    if a in m {
      assert Wins(SeedSet(s), m[a].event, a);
      assert Wins(s, m[a].event, a) by {
        assert forall e | e in s && e.kind == PRODUCT :: e in SeedSet(s);
      }
      assert Buried(SeedSet(s), codec, m[a].event, a) <==> Buried(s, codec, m[a].event, a) by {
        assert forall e | e in s && e.kind == DELETION :: e in SeedSet(s);
      }
    }
  }

  lemma OfferedPrefix(inputs: seq<Input>)
    requires inputs != []
    ensures Offered(inputs[..|inputs| - 1]) <= Offered(inputs)
  {
    var n := |inputs| - 1;
    assert inputs == inputs[..n] + [inputs[n]];
    OfferedGrows(inputs[..n], inputs[n]);
  }

  /**
   * After seeding and any sequence of arrivals and reports, each address holds the winner of everything
   * offered. It is tombstoned exactly when seeding buried it, or an input did once the winner was there: a
   * deletion naming its id, one no older naming its address, or the store's report.
   */
  lemma {:induction false} OnlineReflects(s: set<Event>, codec: Codec, inputs: seq<Input>)
    requires UniqueIds(s + Offered(inputs))
    ensures RunReflects(RunState(s, codec, inputs), s, codec, inputs)
    decreases |inputs|
  {
    hide UniqueIds, RunReflectsAt, Take, SeedState, Offered;
    PartIsUnique(s + Offered(inputs), s);
    if inputs == [] {
      forall a ensures RunReflectsAt(SeedState(s, codec), s, codec, [], a) {
        SeededAt(s, codec, a);
      }
    } else {
      var n := |inputs| - 1;
      OfferedPrefix(inputs);
      PartIsUnique(s + Offered(inputs), s + Offered(inputs[..n]));
      OnlineReflects(s, codec, inputs[..n]);
      assert inputs == inputs[..n] + [inputs[n]];
      var m := TakeAll(SeedState(s, codec), codec, inputs[..n]);
      forall a ensures RunReflectsAt(Take(m, codec, inputs[n]), s, codec, inputs, a) {
        assert RunReflectsAt(m, s, codec, inputs[..n], a);
        TakeReflectsAt(m, s, codec, inputs[..n], inputs[n], a);
      }
    }
  }

  lemma WinnerIsUnique(s: set<Event>, a: Address, w: Event, v: Event)
    requires Wins(s, w, a) && Wins(s, v, a)
    ensures w == v
  {
    hide AddressOf;
  }

  lemma SeededFresh(s: set<Event>, codec: Codec, a: Address)
    requires UniqueIds(s)
    ensures var m := SeedState(s, codec);
            && (a in m <==> HasProduct(s, a))
            && (a in m ==> Wins(s, m[a].event, a) && (m[a].tombstoned <==> Buried(s, codec, m[a].event, a)))
  {
    hide SeedState, Wins, HasProduct, Buried, UniqueIds;
    SeededAt(s, codec, a);
    assert Offered([]) == {} && s + Offered([]) == s;
    if a in SeedState(s, codec) {
      WinnerIsThere(s, SeedState(s, codec)[a].event, a);
    }
  }

  /** The tombstones a run left are those a replay of everything offered would leave. */
  ghost predicate BuriedAlike(s: set<Event>, codec: Codec, inputs: seq<Input>) {
    forall w, a | Wins(s + Offered(inputs), w, a) :: BuriedSince(s, codec, inputs, w, a) <==> Buried(s + Offered(inputs), codec, w, a)
  }

  /**
   * A run and a fresh seeding from everything it was offered leave the same projection if and only if, for
   * each winner: some deletion no older than it names it exactly when seeding buried it or some input did
   * once it was there.
   */
  lemma OnlineAgreesExactlyWhen(s: set<Event>, codec: Codec, inputs: seq<Input>)
    requires UniqueIds(s + Offered(inputs))
    ensures RunState(s, codec, inputs) == SeedState(s + Offered(inputs), codec) <==> BuriedAlike(s, codec, inputs)
  {
    hide UniqueIds, SeedState, RunState, Offered, Wins, HasProduct, Buried, BuriedSince;
    var all := s + Offered(inputs);
    OnlineReflects(s, codec, inputs);
    var live, replay := RunState(s, codec, inputs), SeedState(all, codec);
    forall a
      ensures a in live <==> a in replay
      ensures a in live ==> Wins(all, live[a].event, a) && live[a].event == replay[a].event
      ensures a in live ==> (live[a].tombstoned <==> BuriedSince(s, codec, inputs, live[a].event, a))
      ensures a in live ==> (replay[a].tombstoned <==> Buried(all, codec, live[a].event, a))
    {
      assert RunReflectsAt(live, s, codec, inputs, a);
      SeededFresh(all, codec, a);
      if a in live {
        WinnerIsUnique(all, a, live[a].event, replay[a].event);
      }
    }
    forall w, a | Wins(all, w, a) ensures a in live && live[a].event == w {
      assert RunReflectsAt(live, s, codec, inputs, a);
      WinnerMakesProduct(all, w, a);
      WinnerIsUnique(all, a, live[a].event, w);
    }
  }

  lemma WinnerMakesProduct(s: set<Event>, w: Event, a: Address)
    requires Wins(s, w, a)
    ensures HasProduct(s, a)
  {
  }

  /**
   * Only arrivals; every deletion that replay would honour comes once the product it names is there, and no
   * arriving deletion names the id of a newer product that is there.
   */
  ghost predicate Punctual(s: set<Event>, codec: Codec, inputs: seq<Input>) {
    && (forall j | 0 <= j < |inputs| :: inputs[j].Arrives?)
    && (forall d, p | d in s + Offered(inputs) && p in s + Offered(inputs) && Honoured(codec, d, p) ::
          (d in s && p in s) || exists j | 0 <= j < |inputs| :: inputs[j] == Arrives(d) && Present(s, inputs[..j], p))
    && (forall j, p | 0 <= j < |inputs| && NamesById(codec, inputs[j].event, p) && Present(s, inputs[..j], p) ::
          p.createdAt <= inputs[j].event.createdAt)
  }

  predicate Honoured(codec: Codec, d: Event, p: Event) {
    d.kind == DELETION && p.kind == PRODUCT && p.createdAt <= d.createdAt && Names(codec, d.tags, p.id, AddressOf(p), true)
  }

  predicate NamesById(codec: Codec, d: Event, p: Event) {
    d.kind == DELETION && p.kind == PRODUCT && Names(codec, d.tags, p.id, AddressOf(p), false)
  }

  lemma NamesWhenLate(codec: Codec, tags: seq<Tag>, id: Id, a: Address)
    ensures Names(codec, tags, id, a, false) ==> Names(codec, tags, id, a, true)
  {
    if Names(codec, tags, id, a, false) {
      var i :| 0 <= i < |tags| && TagNames(codec, tags[i], id, a, false);
      assert TagNames(codec, tags[i], id, a, true);
    }
  }

  lemma PunctualWinner(s: set<Event>, codec: Codec, inputs: seq<Input>, w: Event, a: Address)
    requires Punctual(s, codec, inputs) && w in s + Offered(inputs) && w.kind == PRODUCT && AddressOf(w) == a
    ensures BuriedSince(s, codec, inputs, w, a) <==> Buried(s + Offered(inputs), codec, w, a)
  {
    hide AddressOf, Names, Present, Offered;
    var all := s + Offered(inputs);
    OfferedGrows(inputs, Arrives(w));
    forall j | 0 <= j < |inputs| && Present(s, inputs[..j], w) && Buries(codec, inputs[j], w, a) ensures Buried(all, codec, w, a) {
      var d := inputs[j].event;
      assert inputs[j] == Arrives(d) && d in Offered(inputs);
      assert d in all && (NamesById(codec, d, w) <==> Names(codec, d.tags, w.id, a, false));
      NamesWhenLate(codec, d.tags, w.id, a);
    }
    if Buried(all, codec, w, a) {
      var d :| d in all && d.kind == DELETION && d.createdAt >= w.createdAt && Names(codec, d.tags, w.id, a, true);
      assert Honoured(codec, d, w);
      if !(d in s && w in s) {
        var j :| 0 <= j < |inputs| && inputs[j] == Arrives(d) && Present(s, inputs[..j], w);
        assert Buries(codec, inputs[j], w, a);
      }
    }
    assert forall d | d in s :: d in all;
  }

  /** A run whose deletions are punctual leaves what a fresh seeding from everything it was offered leaves. */
  lemma PunctualRunsAgree(s: set<Event>, codec: Codec, inputs: seq<Input>)
    requires UniqueIds(s + Offered(inputs)) && Punctual(s, codec, inputs)
    ensures RunState(s, codec, inputs) == SeedState(s + Offered(inputs), codec)
  {
    hide UniqueIds, SeedState, RunState, Offered, Wins, Buried, BuriedSince, Punctual, AddressOf;
    OnlineAgreesExactlyWhen(s, codec, inputs);
    forall w, a | Wins(s + Offered(inputs), w, a)
      ensures BuriedSince(s, codec, inputs, w, a) <==> Buried(s + Offered(inputs), codec, w, a)
    {
      WinnerIsThere(s + Offered(inputs), w, a);
      PunctualWinner(s, codec, inputs, w, a);
    }
  }

  // ---------------------------------------------------------- where the two part

  lemma SeededPair(codec: Codec, p: Event, d: Event)
    requires p.kind == PRODUCT && d.kind == DELETION && p.id != d.id
    ensures UniqueIds({p, d})
    ensures var m := SeedState({p, d}, codec);
            var named := p.createdAt <= d.createdAt && Names(codec, d.tags, p.id, AddressOf(p), true);
            AddressOf(p) in m && m[AddressOf(p)] == Entry(p, named)
  {
    hide Names, AddressOf, SeedState;
    var s, a := {p, d}, AddressOf(p);
    assert p in s && d in s;
    SeededFresh(s, codec, a);
    assert HasProduct(s, a);
  }

  lemma {:induction false} NothingToBury(codec: Codec, tags: seq<Tag>, createdAt: int)
    ensures ApplyTags(map[], codec, tags, createdAt) == map[]
    decreases |tags|
  {
    if tags != [] {
      NothingToBury(codec, tags[..|tags| - 1], createdAt);
    }
  }

  lemma TwoInputs(codec: Codec, first: Event, second: Event)
    ensures TakeAll(map[], codec, [Arrives(first), Arrives(second)]) == ApplyEvent(ApplyEvent(map[], codec, first), codec, second)
  {
    hide ApplyEvent;
    var inputs := [Arrives(first), Arrives(second)];
    assert inputs[..1] == [Arrives(first)] && inputs[..1][..0] == [];
    assert TakeAll(map[], codec, inputs[..1]) == Take(TakeAll(map[], codec, []), codec, Arrives(first));
  }

  /** A deletion that arrives before the product it names does not bury it online; seeding does. */
  lemma ArrivalOrderMatters(codec: Codec, p: Event, d: Event)
    requires p.kind == PRODUCT && d.kind == DELETION && p.id != d.id && p.createdAt <= d.createdAt
    requires Names(codec, d.tags, p.id, AddressOf(p), true)
    ensures UniqueIds({p, d})
    ensures var m := SeedState({p, d}, codec); AddressOf(p) in m && m[AddressOf(p)] == Entry(p, true)
    ensures TakeAll(map[], codec, [Arrives(d), Arrives(p)]) == map[AddressOf(p) := Entry(p, false)]
  {
    hide Names, AddressOf, SeedState, TakeAll;
    SeededPair(codec, p, d);
    NothingToBury(codec, d.tags, d.createdAt);
    TwoInputs(codec, d, p);
  }

  /** A deletion older than the product whose id it names buries it online, where ids have no time guard; seeding does not. */
  lemma OldDeletionsBuryById(codec: Codec, p: Event, d: Event)
    requires p.kind == PRODUCT && d.kind == DELETION && p.id != d.id && d.createdAt < p.createdAt
    requires Names(codec, d.tags, p.id, AddressOf(p), false)
    ensures UniqueIds({p, d})
    ensures var m := SeedState({p, d}, codec); AddressOf(p) in m && m[AddressOf(p)] == Entry(p, false)
    ensures TakeAll(map[], codec, [Arrives(p), Arrives(d)]) == map[AddressOf(p) := Entry(p, true)]
  {
    hide Names, AddressOf, SeedState, TakeAll, ApplyTags;
    SeededPair(codec, p, d);
    TwoInputs(codec, p, d);
    var m: Projection := map[AddressOf(p) := Entry(p, false)];
    TagsBury(m, codec, d.tags, d.createdAt);
    var after := ApplyTags(m, codec, d.tags, d.createdAt);
    assert AddressOf(p) in m && after[AddressOf(p)] == Entry(p, true);
  }

  // ------------------------------------------------------ one address, one event

  /** Addresses hold different events, told apart by id. */
  ghost predicate Distinct(m: Projection) {
    forall a, b | a in m && b in m && m[a].event.id == m[b].event.id :: a == b
  }

  /** Whatever was seeded and whatever happened since, the projection holds each event id at one address only. */
  lemma RunsStayDistinct(s: set<Event>, codec: Codec, inputs: seq<Input>)
    requires UniqueIds(s + Offered(inputs))
    ensures Distinct(RunState(s, codec, inputs))
  {
    hide RunState, Offered, AddressOf, BuriedSince, Wins;
    OnlineReflects(s, codec, inputs);
    var m, all := RunState(s, codec, inputs), s + Offered(inputs);
    forall a | a in m ensures m[a].event in all && AddressOf(m[a].event) == a {
      assert RunReflectsAt(m, s, codec, inputs, a);
      WinnerIsThere(all, m[a].event, a);
    }
  }

  // ----------------------------------------------- which product holds its place

  /** `v` is the value of the first `d` tag that has one; empty when none has. */
  predicate FirstD(tags: seq<Tag>, v: string) {
    || (exists i | 0 <= i < |tags| :: FirstDAt(tags, v, i))
    || (v == "" && forall j | 0 <= j < |tags| :: !(|tags[j]| >= 2 && tags[j][0] == "d"))
  }

  predicate FirstDAt(tags: seq<Tag>, v: string, i: nat)
    requires i < |tags|
  {
    |tags[i]| >= 2 && tags[i][0] == "d" && tags[i][1] == v && forall j | 0 <= j < i :: !(|tags[j]| >= 2 && tags[j][0] == "d")
  }

  lemma {:induction false} FirstDIs(tags: seq<Tag>, v: string)
    ensures FirstD(tags, v) <==> v == DTagValue(tags)
    decreases |tags|
  {
    if tags != [] {
      var rest := tags[1..];
      FirstDIs(rest, v);
      if |tags[0]| >= 2 && tags[0][0] == "d" {
        assert FirstDAt(tags, DTagValue(tags), 0);
        assert forall i | 1 <= i < |tags| :: !FirstDAt(tags, v, i);
      } else {
        forall i | 0 <= i < |rest| ensures FirstDAt(rest, v, i) <==> FirstDAt(tags, v, i + 1) {
          assert forall j | 0 <= j < i :: rest[j] == tags[j + 1];
          assert forall j | 1 <= j < i + 1 :: tags[j] == rest[j - 1];
        }
        assert forall j | 1 <= j < |tags| :: tags[j] == rest[j - 1];
        assert forall j | 0 <= j < |rest| :: rest[j] == tags[j + 1];
        if exists i | 0 <= i < |tags| :: FirstDAt(tags, v, i) {
          var i :| 0 <= i < |tags| && FirstDAt(tags, v, i);
          assert FirstDAt(rest, v, i - 1);
        }
      }
    }
  }

  /** Revisions of one product: of one kind, author and non-empty `d` value, or the very same event when that is empty. */
  ghost predicate SameProduct(a: Event, b: Event) {
    || (a.kind == b.kind && a.pubkey == b.pubkey && exists v | v != "" :: FirstD(a.tags, v) && FirstD(b.tags, v))
    || (a.id == b.id && FirstD(a.tags, "") && FirstD(b.tags, ""))
  }

  lemma SameAddressExactlyWhen(a: Event, b: Event)
    ensures AddressOf(a) == AddressOf(b) <==> SameProduct(a, b)
  {
    hide FirstD;
    forall v ensures FirstD(a.tags, v) <==> v == DTagValue(a.tags) ensures FirstD(b.tags, v) <==> v == DTagValue(b.tags) {
      FirstDIs(a.tags, v);
      FirstDIs(b.tags, v);
    }
    assert FirstD(a.tags, DTagValue(a.tags)) && FirstD(b.tags, DTagValue(b.tags));
  }

  /** The newest revision on offer of a product, of those of one time the one with the lowest id. */
  ghost predicate IsNewest(offered: set<Event>, w: Event, p: Event) {
    && w in offered && w.kind == 30402 && SameProduct(w, p)
    && forall q | q in offered && q.kind == 30402 && SameProduct(q, p) ::
         q == w || w.createdAt > q.createdAt || (w.createdAt == q.createdAt && w.id < q.id)
  }

  /**
   * Whatever was seeded and arrived since: for each product on offer the projection holds its newest revision, at one
   * place, and it holds nothing else.
   */
  lemma RunHoldsNewest(s: set<Event>, codec: Codec, inputs: seq<Input>)
    requires UniqueIds(s + Offered(inputs))
    ensures var m, offered := RunState(s, codec, inputs), s + Offered(inputs);
            && (forall p | p in offered && p.kind == 30402 :: exists a | a in m :: IsNewest(offered, m[a].event, p))
            && (forall a, b | a in m && b in m && SameProduct(m[a].event, m[b].event) :: a == b)
            && (forall a | a in m :: IsNewest(offered, m[a].event, m[a].event))
  {
    hide RunState, Offered, AddressOf, BuriedSince, SameProduct, UniqueIds;
    OnlineReflects(s, codec, inputs);
    var m, offered := RunState(s, codec, inputs), s + Offered(inputs);
    forall a, b ensures AddressOf(a) == AddressOf(b) <==> SameProduct(a, b) {
      SameAddressExactlyWhen(a, b);
    }
    forall a | a in m ensures Wins(offered, m[a].event, a) {
      assert RunReflectsAt(m, s, codec, inputs, a);
    }
    forall p | p in offered && p.kind == 30402 ensures exists a | a in m :: IsNewest(offered, m[a].event, p) {
      var a := AddressOf(p);
      assert RunReflectsAt(m, s, codec, inputs, a);
      assert HasProduct(offered, a);
      assert IsNewest(offered, m[a].event, p);
    }
  }

  /** A deletion with one tag, on a projection of one product: which tags bury it. */
  lemma OneTagDeletes(codec: Codec, p: Event, d: Event, name: string, text: string)
    requires d.kind == 5 && d.tags == [[name, text]]
    ensures var a, m := AddressOf(p), ApplyEvent(map[AddressOf(p) := Entry(p, false)], codec, d);
            && m.Keys == {a} && m[a].event == p
            && (m[a].tombstoned <==>
                  || (name == "e" && codec.idFromHex(text) == Some(p.id))
                  || (name == "a" && codec.canonicalAddress(text) == Some(a) && p.createdAt <= d.createdAt))
  {
    hide AddressOf;
    var m: Projection := map[AddressOf(p) := Entry(p, false)];
    assert d.tags[..0] == [];
    assert ApplyTags(m, codec, [], d.createdAt) == m;
  }
}
