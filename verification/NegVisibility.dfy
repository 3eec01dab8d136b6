/**
 * Which ids a NIP-77 reconciliation may disclose. Items are checked in batches against the events stored by then, and
 * a group's visibility is looked up once, for the first item that asks. Admitted filters make that the check of every
 * item, under what memberships and metadata said when its group was first asked about.
 */
module NegVisibility {
  import opened Nostr
  import opened Order
  import opened ReqQuery
  import opened Wrappers

  const BATCH: nat := 256
  const GIFT_WRAP: int := 1059
  const EPHEMERAL_GIFT_WRAP: int := 21059

  datatype SyncItem = SyncItem(id: Id, createdAt: int)

  datatype Metadata = Unreadable | Missing | Group(isPrivate: bool)

  /** What one check reads: configuration, group metadata, membership, the connection. */
  datatype Policy = Policy(
    nip29: bool,
    nip17: bool,
    hasRelayKey: bool,
    metadata: string -> Metadata,
    connected: bool,
    authedKeys: seq<string>,
    isMember: (string, string) -> Option<bool>,
    giftWrapVisible: Event -> bool)

  function IsGiftWrap(kind: int): bool {
    kind == GIFT_WRAP || kind == EPHEMERAL_GIFT_WRAP
  }

  // -------------------------------------------------------------- group tags

  predicate IsHTag(t: Tag) {
    |t| >= 2 && t[0] == "h" && t[1] != ""
  }

  /** At most one non-empty group is named. */
  predicate HTagsValid(e: Event) {
    forall i, j | 0 <= i < j < |e.tags| :: !(IsHTag(e.tags[i]) && IsHTag(e.tags[j]))
  }

  function FirstHTag(tags: seq<Tag>): string
    decreases |tags|
  {
    if tags == [] then "" else if IsHTag(tags[0]) then tags[0][1] else FirstHTag(tags[1..])
  }

  method GroupHTagsValid(e: Event) returns (ok: bool)
    ensures ok == HTagsValid(e)
  {
    var found := false;
    for i := 0 to |e.tags|
      invariant found <==> exists k | 0 <= k < i :: IsHTag(e.tags[k])
      invariant forall k, l | 0 <= k < l < i :: !(IsHTag(e.tags[k]) && IsHTag(e.tags[l]))
    {
      if !IsHTag(e.tags[i]) {
        continue;
      }
      if found {
        return false;
      }
      found := true;
    }
    return true;
  }

  method GroupHTag(e: Event) returns (h: string)
    ensures h == FirstHTag(e.tags)
  {
    for i := 0 to |e.tags|
      invariant FirstHTag(e.tags[i..]) == FirstHTag(e.tags)
    {
      assert e.tags[i..][1..] == e.tags[i + 1..];
      if IsHTag(e.tags[i]) {
        return e.tags[i][1];
      }
    }
    return "";
  }

  // ---------------------------------------------------------------- one event

  function MemberOfAny(p: Policy, h: string): bool {
    exists i | 0 <= i < |p.authedKeys| :: p.isMember(h, p.authedKeys[i]) == Some(true)
  }

  /** The policy of one group: unreadable metadata withholds, private groups need a member. */
  function GroupVisible(p: Policy, h: string): bool {
    if !p.nip29 || !p.hasRelayKey || h == "" then true
    else
      match p.metadata(h)
      case Unreadable => false
      case Missing => true
      case Group(isPrivate) => !isPrivate || (p.connected && MemberOfAny(p, h))
  }

  function Visible(p: Policy, e: Event): bool {
    if p.nip29 && !HTagsValid(e) then false
    else if IsGiftWrap(e.kind) then p.nip17 && p.giftWrapVisible(e)
    else GroupVisible(p, FirstHTag(e.tags))
  }

  /** The only non-empty group the event's tags name. */
  predicate NamesOnly(e: Event, h: string) {
    && h != ""
    && (exists i | 0 <= i < |e.tags| :: |e.tags[i]| >= 2 && e.tags[i][0] == "h" && e.tags[i][1] == h)
    && (forall i, j | 0 <= i < j < |e.tags| ::
          !(|e.tags[i]| >= 2 && e.tags[i][0] == "h" && e.tags[i][1] != "" && |e.tags[j]| >= 2 && e.tags[j][0] == "h" && e.tags[j][1] != ""))
  }

  predicate NamesNone(e: Event) {
    forall i | 0 <= i < |e.tags| :: !(|e.tags[i]| >= 2 && e.tags[i][0] == "h" && e.tags[i][1] != "")
  }

  /** The group's metadata was read, and it is missing, public, or private with a member among the keys of a live connection. */
  predicate GroupIsOpen(p: Policy, h: string) {
    match p.metadata(h)
    case Unreadable => false
    case Missing => true
    case Group(isPrivate) =>
      isPrivate ==> p.connected && exists i | 0 <= i < |p.authedKeys| :: p.isMember(h, p.authedKeys[i]) == Some(true)
  }

  lemma {:induction false} FirstNamed(tags: seq<Tag>, i: nat)
    requires i < |tags| && IsHTag(tags[i]) && forall j | 0 <= j < |tags| && j != i :: !IsHTag(tags[j])
    ensures FirstHTag(tags) == tags[i][1]
    decreases |tags|
  {
    if i > 0 {
      FirstNamed(tags[1..], i - 1);
    }
  }

  lemma {:induction false} NoneNamed(tags: seq<Tag>)
    requires forall j | 0 <= j < |tags| :: !IsHTag(tags[j])
    ensures FirstHTag(tags) == ""
    decreases |tags|
  {
    if tags != [] {
      NoneNamed(tags[1..]);
    }
  }

  lemma NamedGroup(e: Event, h: string)
    requires NamesOnly(e, h)
    ensures HTagsValid(e) && FirstHTag(e.tags) == h
  {
    var i :| 0 <= i < |e.tags| && |e.tags[i]| >= 2 && e.tags[i][0] == "h" && e.tags[i][1] == h;
    assert IsHTag(e.tags[i]);
    forall j | 0 <= j < |e.tags| && j != i ensures !IsHTag(e.tags[j]) {
    }
    FirstNamed(e.tags, i);
  }

  /**
   * What may be read, with groups on: never an event naming two groups; a gift wrap by its own rule; any other event of
   * a group exactly when that group is open, once the relay has a key; an event of no group always.
   */
  lemma VisibleExactlyWhen(p: Policy, e: Event, h: string)
    requires p.nip29 && p.hasRelayKey
    ensures NamesOnly(e, h) && e.kind != 1059 && e.kind != 21059 ==> (Visible(p, e) <==> GroupIsOpen(p, h))
    ensures NamesNone(e) && e.kind != 1059 && e.kind != 21059 ==> Visible(p, e)
    ensures !NamesNone(e) && !(exists g :: NamesOnly(e, g)) ==> !Visible(p, e)
    ensures (NamesNone(e) || NamesOnly(e, h)) && (e.kind == 1059 || e.kind == 21059) ==> (Visible(p, e) <==> p.nip17 && p.giftWrapVisible(e))
  {
    if NamesOnly(e, h) {
      NamedGroup(e, h);
    }
    if NamesNone(e) {
      assert forall i | 0 <= i < |e.tags| :: !IsHTag(e.tags[i]);
      NoneNamed(e.tags);
    } else if HTagsValid(e) {
      var i :| 0 <= i < |e.tags| && IsHTag(e.tags[i]);
      assert NamesOnly(e, e.tags[i][1]);
    }
  }

  /** With groups off, or while the relay has no key, no group closes anything. */
  lemma GroupsOffCloseNothing(p: Policy, e: Event, h: string)
    requires !p.nip29 || (!p.hasRelayKey && (NamesNone(e) || NamesOnly(e, h)))
    ensures e.kind != 1059 && e.kind != 21059 ==> Visible(p, e)
  {
    if NamesOnly(e, h) {
      NamedGroup(e, h);
    }
  }

  method EventVisibleToSubscription(p: Policy, e: Event) returns (visible: bool)
    ensures visible == Visible(p, e)
    ensures forall h | p.nip29 && p.hasRelayKey && NamesOnly(e, h) && e.kind != 1059 && e.kind != 21059 :: visible <==> GroupIsOpen(p, h)
  {
    forall h | p.nip29 && p.hasRelayKey && NamesOnly(e, h) && e.kind != 1059 && e.kind != 21059
      ensures Visible(p, e) <==> GroupIsOpen(p, h)
    {
      VisibleExactlyWhen(p, e, h);
    }
    hide NamesOnly, GroupIsOpen;
    var valid := GroupHTagsValid(e);
    if p.nip29 && !valid {
      return false;
    }
    if IsGiftWrap(e.kind) {
      if !p.nip17 {
        return false;
      }
      return p.giftWrapVisible(e);
    }
    if !p.nip29 || !p.hasRelayKey {
      return true;
    }
    var h := GroupHTag(e);
    if h == "" {
      return true;
    }
    var md := p.metadata(h);
    if md.Unreadable? {
      return false;
    }
    if md.Missing? || !md.isPrivate {
      return true;
    }
    if !p.connected {
      return false;
    }
    for i := 0 to |p.authedKeys|
      invariant forall k | 0 <= k < i :: p.isMember(h, p.authedKeys[k]) != Some(true)
    {
      var member := p.isMember(h, p.authedKeys[i]);
      if member == Some(true) {
        return true;
      }
    }
    return false;
  }

  // ------------------------------------------------------------ admitted filters

  datatype Refusal = SearchFilter | LimitFilter | GiftWrapKinds | AuthRequired

  function ValidateNegFilter(f: Filter, authRequired: bool, authed: bool): Result<(), Refusal> {
    if f.HasSearch() then Err(SearchFilter)
    else if f.limit.Some? then Err(LimitFilter)
    else if f.kinds == [] || GIFT_WRAP in f.kinds || EPHEMERAL_GIFT_WRAP in f.kinds then Err(GiftWrapKinds)
    else if authRequired && !authed then Err(AuthRequired)
    else Ok(())
  }

  /** An admitted filter matches no gift wrap, so its events' visibility is their group's. */
  lemma AdmittedByGroup(p: Policy, f: Filter, authRequired: bool, authed: bool, e: Event)
    requires ValidateNegFilter(f, authRequired, authed).Ok? && f.Matches(e) && HTagsValid(e)
    ensures Visible(p, e) == GroupVisible(p, FirstHTag(e.tags))
    ensures e.kind != 1059 && e.kind != 21059
  {
  }

  /** Which filters may open a reconciliation. */
  lemma AdmittedExactlyWhen(f: Filter, authRequired: bool, authed: bool)
    ensures ValidateNegFilter(f, authRequired, authed).Ok? <==>
            && f.search == "" && f.limit == None && |f.kinds| > 0
            && (forall i | 0 <= i < |f.kinds| :: f.kinds[i] != 1059 && f.kinds[i] != 21059)
            && (authRequired ==> authed)
  {
    if exists k | k in f.kinds :: k == 1059 || k == 21059 {
      var i :| 0 <= i < |f.kinds| && (f.kinds[i] == 1059 || f.kinds[i] == 21059);
    }
  }

  /** Without that admission rule the group would not decide: two events of one group can differ. */
  lemma GiftWrapsBreakTheCache(p: Policy)
    requires p.nip29 && p.nip17 && p.hasRelayKey && p.metadata("g") == Missing && forall e :: !p.giftWrapVisible(e)
    ensures exists a, b :: HTagsValid(a) && HTagsValid(b) && FirstHTag(a.tags) == FirstHTag(b.tags) == "g" && Visible(p, a) != Visible(p, b)
  {
    var tags: seq<Tag> := [["h", "g"]];
    var a := Event(1, "", 0, 1, tags, "", "");
    var b := Event(2, "", 0, GIFT_WRAP, tags, "", "");
    assert FirstHTag(tags) == "g";
    assert HTagsValid(a) && HTagsValid(b) && Visible(p, a) != Visible(p, b);
  }

  // ------------------------------------------------------------- all the items

  /** The stored event is the one listed, matches, and names at most one group. */
  predicate Eligible(f: Filter, item: SyncItem, e: Event) {
    e.id == item.id && e.createdAt == item.createdAt && f.Matches(e) && HTagsValid(e)
  }

  /** The item gets as far as asking about group `h`. */
  ghost predicate Asks(f: Filter, store: set<Event>, item: SyncItem, h: string) {
    exists e | e in store :: Eligible(f, item, e) && FirstHTag(e.tags) == h
  }

  /** The position of the first item that asks about the group; the length when none does. */
  ghost function FirstAsked(f: Filter, stores: nat -> set<Event>, items: seq<SyncItem>, h: string): nat
    decreases |items|
  {
    if items == [] then 0 else
      var n := |items| - 1;
      var j := FirstAsked(f, stores, items[..n], h);
      if j < n || Asks(f, stores(n / BATCH), items[n], h) then j else n + 1
  }

  /** The item at position `n` is still stored as listed, and may be read by what held when its group was first asked about. */
  ghost predicate Passes(policies: nat -> Policy, f: Filter, stores: nat -> set<Event>, items: seq<SyncItem>, n: nat)
    requires n < |items|
  {
    exists e | e in stores(n / BATCH) ::
      && Eligible(f, items[n], e)
      && Visible(policies(if FirstHTag(e.tags) == "" then n else FirstAsked(f, stores, items, FirstHTag(e.tags))), e)
  }

  /** The items that pass, in order; each batch of 256 is read from the store as it is by then. */
  ghost function Kept(policies: nat -> Policy, f: Filter, stores: nat -> set<Event>, items: seq<SyncItem>): seq<SyncItem>
    decreases |items|
  {
    if items == [] then [] else
      var n := |items| - 1;
      Kept(policies, f, stores, items[..n]) + (if Passes(policies, f, stores, items, n) then [items[n]] else [])
  }

  /** Groups that were asked about are cached, with their policy at the first time. */
  ghost predicate CacheOk(policies: nat -> Policy, f: Filter, stores: nat -> set<Event>, items: seq<SyncItem>, cache: map<string, bool>) {
    forall h ::
      var j := FirstAsked(f, stores, items, h);
      && (h in cache <==> h != "" && j < |items|)
      && (h in cache ==> cache[h] == GroupVisible(policies(j), h))
  }

  /** While memberships and metadata do not change, an item passes exactly when it may be read. */
  lemma SteadyPolicyChecksEach(policies: nat -> Policy, p: Policy, f: Filter, stores: nat -> set<Event>, items: seq<SyncItem>, n: nat)
    requires n < |items| && forall k :: policies(k) == p
    ensures Passes(policies, f, stores, items, n) <==> exists e | e in stores(n / BATCH) :: Eligible(f, items[n], e) && Visible(p, e)
  {
    hide Eligible, Visible;
  }

  /** Otherwise the cache answers as a check on the spot would exactly when the group's policy is still what it was. */
  lemma CacheIsCurrentExactlyWhen(policies: nat -> Policy, f: Filter, stores: nat -> set<Event>, items: seq<SyncItem>, n: nat, e: Event)
    requires n < |items| && UniqueIds(stores(n / BATCH)) && e in stores(n / BATCH) && Eligible(f, items[n], e)
    requires ValidateNegFilter(f, false, false).Ok? && FirstHTag(e.tags) != ""
    ensures var h := FirstHTag(e.tags);
            (Passes(policies, f, stores, items, n) <==> Visible(policies(n), e)) <==>
            GroupVisible(policies(FirstAsked(f, stores, items, h)), h) == GroupVisible(policies(n), h)
  {
    hide FirstAsked, Visible, GroupVisible, FirstHTag, HTagsValid;
    var h := FirstHTag(e.tags);
    AdmittedByGroup(policies(n), f, false, false, e);
    AdmittedByGroup(policies(FirstAsked(f, stores, items, h)), f, false, false, e);
  }

  function ById(events: seq<Event>): map<Id, Event>
    decreases |events|
  {
    if events == [] then map[] else ById(events[..|events| - 1])[events[|events| - 1].id := events[|events| - 1]]
  }

  lemma {:induction false} ByIdHolds(events: seq<Event>)
    requires UniqueIds(Elements(events))
    ensures forall e | e in events :: e.id in ById(events) && ById(events)[e.id] == e
    ensures forall id | id in ById(events) :: ById(events)[id] in events && ById(events)[id].id == id
    decreases |events|
  {
    if events != [] {
      var n := |events| - 1;
      assert events == events[..n] + [events[n]];
      assert forall e | e in Elements(events[..n]) :: e in Elements(events);
      assert events[n] in Elements(events);
      ByIdHolds(events[..n]);
    }
  }

  /** The events of a batch by id, read with an ids-only filter. */
  method ReadBatch(store: set<Event>, ids: seq<Id>) returns (byId: map<Id, Event>)
    requires UniqueIds(store) && ids != []
    ensures forall id :: id in byId <==> exists e | e in store :: e.id == id && id in ids
    ensures forall id | id in byId :: byId[id] in store && byId[id].id == id
  {
    hide Sort, Sorted;
    var f := Filter(None, ids, [], [], None, None, None, "", map[]);
    var events := QueryEvents(store, f);
    NewerIsTotal(Matching(store, f));
    assert Elements(events) == Matching(store, f);
    byId := map[];
    for i := 0 to |events|
      invariant byId == ById(events[..i])
    {
      assert events[..i + 1][..i] == events[..i];
      byId := byId[events[i].id := events[i]];
    }
    assert events[..|events|] == events;
    ByIdHolds(events);
    forall id ensures id in byId <==> exists e | e in store :: e.id == id && id in ids {
      if exists e | e in store :: e.id == id && id in ids {
        var e :| e in store && e.id == id && id in ids;
        assert e in Elements(events);
      }
      if id in byId {
        assert byId[id] in Elements(events);
      }
    }
  }

  lemma {:induction false} AskedWithin(f: Filter, stores: nat -> set<Event>, items: seq<SyncItem>, h: string)
    ensures FirstAsked(f, stores, items, h) <= |items|
    decreases |items|
  {
    hide Asks;
    if items != [] {
      AskedWithin(f, stores, items[..|items| - 1], h);
    }
  }

  lemma AskedGrows(f: Filter, stores: nat -> set<Event>, items: seq<SyncItem>, n: nat, h: string)
    requires n < |items|
    ensures var before, after := FirstAsked(f, stores, items[..n], h), FirstAsked(f, stores, items[..n + 1], h);
            if before < n then after == before
            else before == n && after == if Asks(f, stores(n / BATCH), items[n], h) then n else n + 1
  {
    hide Asks;
    AskedWithin(f, stores, items[..n], h);
    assert items[..n + 1][..n] == items[..n];
  }

  /** An item that stops before its group is asked about leaves the cache as it was. */
  lemma NothingAsked(policies: nat -> Policy, f: Filter, stores: nat -> set<Event>, items: seq<SyncItem>, n: nat,
                     cache: map<string, bool>)
    requires n < |items| && CacheOk(policies, f, stores, items[..n], cache)
    requires forall e | e in stores(n / BATCH) :: !Eligible(f, items[n], e)
    ensures !Passes(policies, f, stores, items[..n + 1], n) && CacheOk(policies, f, stores, items[..n + 1], cache)
  {
    hide Eligible, FirstAsked, GroupVisible, Visible;
    forall h ensures var before := FirstAsked(f, stores, items[..n], h);
        FirstAsked(f, stores, items[..n + 1], h) == if before < n then before else n + 1 {
      AskedGrows(f, stores, items, n, h);
    }
    assert items[..n + 1][n] == items[n];
  }

  /** An item that gets there is decided by its group's first policy, and leaves that in the cache. */
  lemma GroupAsked(policies: nat -> Policy, f: Filter, stores: nat -> set<Event>, items: seq<SyncItem>, n: nat,
                   cache: map<string, bool>, e: Event)
    requires n < |items| && CacheOk(policies, f, stores, items[..n], cache) && ValidateNegFilter(f, false, false).Ok?
    requires UniqueIds(stores(n / BATCH)) && e in stores(n / BATCH) && Eligible(f, items[n], e)
    ensures var h := FirstHTag(e.tags);
            var allowed := if h in cache then cache[h] else Visible(policies(n), e);
            && (Passes(policies, f, stores, items[..n + 1], n) <==> allowed)
            && CacheOk(policies, f, stores, items[..n + 1], if h == "" then cache else cache[h := allowed])
  {
    hide FirstAsked, GroupVisible, Visible, FirstHTag, HTagsValid;
    var h, upto := FirstHTag(e.tags), items[..n + 1];
    assert upto[n] == items[n];
    forall x ensures Asks(f, stores(n / BATCH), items[n], x) <==> x == h {
    }
    forall x ensures var before := FirstAsked(f, stores, items[..n], x);
        FirstAsked(f, stores, upto, x) == if before < n then before else if x == h then n else n + 1 {
      AskedGrows(f, stores, items, n, x);
    }
    var j := FirstAsked(f, stores, upto, h);
    AdmittedByGroup(policies(n), f, false, false, e);
    AdmittedByGroup(policies(j), f, false, false, e);
  }

  /** One item against the batch read, with the group cache. */
  method CheckItem(policies: nat -> Policy, f: Filter, stores: nat -> set<Event>, byId: map<Id, Event>, items: seq<SyncItem>, n: nat,
                   cache: map<string, bool>)
    returns (allowed: bool, newCache: map<string, bool>)
    requires n < |items| && policies(n).nip29 && UniqueIds(stores(n / BATCH)) && ValidateNegFilter(f, false, false).Ok?
    requires CacheOk(policies, f, stores, items[..n], cache)
    requires items[n].id in byId <==> exists e | e in stores(n / BATCH) :: e.id == items[n].id
    requires items[n].id in byId ==> byId[items[n].id] in stores(n / BATCH) && byId[items[n].id].id == items[n].id
    ensures allowed == Passes(policies, f, stores, items[..n + 1], n)
    ensures CacheOk(policies, f, stores, items[..n + 1], newCache)
  {
    hide Visible, GroupVisible, HTagsValid, FirstHTag, CacheOk, Passes;
    newCache := cache;
    var item := items[n];
    if item.id !in byId {
      NothingAsked(policies, f, stores, items, n, cache);
      return false, cache;
    }
    var e := byId[item.id];
    if e.createdAt != item.createdAt || !f.Matches(e) {
      NothingAsked(policies, f, stores, items, n, cache);
      return false, cache;
    }
    var valid := GroupHTagsValid(e);
    if !valid {
      NothingAsked(policies, f, stores, items, n, cache);
      return false, cache;
    }
    var h := GroupHTag(e);
    GroupAsked(policies, f, stores, items, n, cache, e);
    if h == "" || h !in cache {
      EmptyIsUncached(policies, f, stores, items[..n], cache);
      allowed := EventVisibleToSubscription(policies(n), e);
      if h != "" {
        newCache := cache[h := allowed];
      }
    } else {
      allowed := cache[h];
      assert cache[h := allowed] == cache;
    }
  }

  lemma EmptyIsUncached(policies: nat -> Policy, f: Filter, stores: nat -> set<Event>, items: seq<SyncItem>, cache: map<string, bool>)
    requires CacheOk(policies, f, stores, items, cache)
    ensures "" !in cache
  {
  }

  /** The items from `start` to `end` against one read of the store, after those before them. */
  method CheckBatch(policies: nat -> Policy, f: Filter, stores: nat -> set<Event>, items: seq<SyncItem>, start: nat, end: nat,
                    before: seq<SyncItem>, cache: map<string, bool>)
    returns (kept: seq<SyncItem>, newCache: map<string, bool>)
    requires start < end <= |items| && start % BATCH == 0 && end - start <= BATCH
    requires (forall k :: UniqueIds(stores(k))) && (forall k :: policies(k).nip29) && ValidateNegFilter(f, false, false).Ok?
    requires before == Kept(policies, f, stores, items[..start]) && CacheOk(policies, f, stores, items[..start], cache)
    ensures kept == Kept(policies, f, stores, items[..end]) && CacheOk(policies, f, stores, items[..end], newCache)
  {
    hide UniqueIds, Passes, CacheOk;
    var batch := items[start..end];
    var ids := seq(|batch|, i requires 0 <= i < |batch| => batch[i].id);
    var byId := ReadBatch(stores(start / BATCH), ids);
    kept, newCache := before, cache;
    for n := start to end
      invariant kept == Kept(policies, f, stores, items[..n]) && CacheOk(policies, f, stores, items[..n], newCache)
    {
      assert items[..n + 1][..n] == items[..n];
      assert n / BATCH == start / BATCH;
      assert items[n] == batch[n - start] && items[n].id == ids[n - start] && items[n].id in ids;
      var allowed: bool;
      allowed, newCache := CheckItem(policies, f, stores, byId, items, n, newCache);
      if allowed {
        kept := kept + [items[n]];
      }
    }
  }

  /** The item is stored as listed, and a group it names was open when an item up to this one asked about it. */
  ghost predicate MayBeDisclosed(policies: nat -> Policy, stores: nat -> set<Event>, items: seq<SyncItem>, n: nat)
    requires n < |items|
  {
    exists e | e in stores(n / 256) ::
      && e.id == items[n].id && e.createdAt == items[n].createdAt
      && (NamesNone(e) || exists h :: NamesOnly(e, h))
      && forall h | NamesOnly(e, h) :: exists k | 0 <= k <= n :: !policies(k).hasRelayKey || GroupIsOpen(policies(k), h)
  }

  lemma PassingMayBeDisclosed(policies: nat -> Policy, f: Filter, stores: nat -> set<Event>, items: seq<SyncItem>, n: nat)
    requires n < |items| && ValidateNegFilter(f, false, false).Ok? && policies(n).nip29 && forall k :: policies(k).nip29
    requires Passes(policies, f, stores, items, n) && FirstAskedAt(f, stores, items, n)
    ensures MayBeDisclosed(policies, stores, items, n)
  {
    hide FirstAsked, Visible, NamesOnly, NamesNone, GroupIsOpen, FirstHTag, FirstAskedAt;
    var e :| && e in stores(n / BATCH) && Eligible(f, items[n], e)
             && Visible(policies(if FirstHTag(e.tags) == "" then n else FirstAsked(f, stores, items, FirstHTag(e.tags))), e);
    OneGroupOrNone(e);
    forall h | NamesOnly(e, h) ensures exists k | 0 <= k <= n :: !policies(k).hasRelayKey || GroupIsOpen(policies(k), h) {
      NamedGroup(e, h);
      NamesSomething(e, h);
      var k := FirstAsked(f, stores, items, h);
      AskedBy(f, stores, items, n, h, e);
      if policies(k).hasRelayKey {
        VisibleExactlyWhen(policies(k), e, h);
      }
    }
  }

  lemma NamesSomething(e: Event, h: string)
    requires NamesOnly(e, h)
    ensures h != ""
  {
  }

  lemma OneGroupOrNone(e: Event)
    requires HTagsValid(e)
    ensures NamesNone(e) || exists h :: NamesOnly(e, h)
  {
    if !NamesNone(e) {
      var i :| 0 <= i < |e.tags| && IsHTag(e.tags[i]);
      assert NamesOnly(e, e.tags[i][1]);
    }
  }

  /** Whatever group item `n` asks about was first asked about by then. */
  ghost predicate FirstAskedAt(f: Filter, stores: nat -> set<Event>, items: seq<SyncItem>, n: nat)
    requires n < |items|
  {
    forall h | Asks(f, stores(n / BATCH), items[n], h) :: FirstAsked(f, stores, items, h) <= n
  }

  lemma AskedBy(f: Filter, stores: nat -> set<Event>, items: seq<SyncItem>, n: nat, h: string, e: Event)
    requires n < |items| && FirstAskedAt(f, stores, items, n)
    requires e in stores(n / BATCH) && Eligible(f, items[n], e) && FirstHTag(e.tags) == h
    ensures FirstAsked(f, stores, items, h) <= n
  {
    hide FirstAsked, Eligible, FirstHTag;
    assert Asks(f, stores(n / BATCH), items[n], h);
  }

  lemma LastAsksByThen(f: Filter, stores: nat -> set<Event>, items: seq<SyncItem>)
    requires items != []
    ensures FirstAskedAt(f, stores, items, |items| - 1)
  {
    hide Asks;
    var n := |items| - 1;
    forall h | Asks(f, stores(n / BATCH), items[n], h) ensures FirstAsked(f, stores, items, h) <= n {
      AskedWithin(f, stores, items[..n], h);
    }
  }

  lemma DisclosedInPrefix(policies: nat -> Policy, stores: nat -> set<Event>, items: seq<SyncItem>, n: nat, m: nat)
    requires n < m <= |items| && MayBeDisclosed(policies, stores, items[..m], n)
    ensures MayBeDisclosed(policies, stores, items, n)
  {
    hide NamesOnly, NamesNone, GroupIsOpen;
    assert items[..m][n] == items[n];
  }

  /** Nothing of a closed group is in the answer: every item kept may be disclosed. */
  lemma {:induction false} NothingClosedIsDisclosed(policies: nat -> Policy, f: Filter, stores: nat -> set<Event>, items: seq<SyncItem>,
                                                    item: SyncItem) returns (n: nat)
    requires ValidateNegFilter(f, false, false).Ok? && (forall k :: policies(k).nip29) && item in Kept(policies, f, stores, items)
    ensures n < |items| && items[n] == item && MayBeDisclosed(policies, stores, items, n)
    decreases |items|
  {
    hide Passes, MayBeDisclosed, FirstAskedAt;
    n := |items| - 1;
    if item in Kept(policies, f, stores, items[..n]) {
      var m := n;
      n := NothingClosedIsDisclosed(policies, f, stores, items[..m], item);
      DisclosedInPrefix(policies, stores, items, n, m);
    } else {
      LastAsksByThen(f, stores, items);
      PassingMayBeDisclosed(policies, f, stores, items, n);
    }
  }

  /** Groups are on or off by configuration; everything else the checks read may change from item to item. */
  method VisibleNegSyncItems(nip29: bool, policies: nat -> Policy, f: Filter, stores: nat -> set<Event>, items: seq<SyncItem>)
    returns (visible: seq<SyncItem>)
    requires ValidateNegFilter(f, false, false).Ok? && forall k :: UniqueIds(stores(k))
    requires forall k :: policies(k).nip29 == nip29
    ensures visible == if nip29 then Kept(policies, f, stores, items) else items
    ensures nip29 ==> forall item | item in visible :: exists n | 0 <= n < |items| :: items[n] == item && MayBeDisclosed(policies, stores, items, n)
  {
    hide UniqueIds, Passes, CacheOk, MayBeDisclosed;
    if !nip29 {
      return items;
    }
    visible := [];
    var cache: map<string, bool> := map[];
    assert CacheOk(policies, f, stores, [], cache) by { EmptyCache(policies, f, stores); }
    assert items[..0] == [];
    var start := 0;
    while start < |items|
      invariant 0 <= start <= |items| && (start % BATCH == 0 || start == |items|)
      invariant visible == Kept(policies, f, stores, items[..start]) && CacheOk(policies, f, stores, items[..start], cache)
    {
      var end := if start + BATCH < |items| then start + BATCH else |items|;
      visible, cache := CheckBatch(policies, f, stores, items, start, end, visible, cache);
      start := end;
    }
    assert items[..|items|] == items;
    forall item | item in visible ensures exists n | 0 <= n < |items| :: items[n] == item && MayBeDisclosed(policies, stores, items, n) {
      var n := NothingClosedIsDisclosed(policies, f, stores, items, item);
    }
  }

  lemma EmptyCache(policies: nat -> Policy, f: Filter, stores: nat -> set<Event>)
    ensures CacheOk(policies, f, stores, [], map[])
  {
  }
}
