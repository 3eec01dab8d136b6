/**
 * Events, kinds and filters as the relay sees them once a message is parsed.
 * An event id is the number its 64 hex digits spell: the digits have a fixed width,
 * so the source's byte order on ids is the order on these numbers.
 */
module Nostr {
  import opened Order
  import opened Wrappers

  type Id = nat
  type Tag = seq<string>

  datatype Event = Event(
    id: Id,
    pubkey: string,
    createdAt: int,
    kind: int,
    tags: seq<Tag>,
    content: string,
    sig: string)

  datatype KindClass = KindRegular | KindReplaceable | KindEphemeral | KindAddressable

  function ClassifyKind(kind: int): KindClass {
    if 20000 <= kind < 30000 then KindEphemeral
    else if 30000 <= kind < 40000 then KindAddressable
    else if kind == 0 || kind == 3 || 10000 <= kind < 20000 then KindReplaceable
    else KindRegular
  }

  /** Go's `extractDTag`: the value of the first `d` tag, empty when there is none. */
  function ExtractDTag(tags: seq<Tag>): string {
    if tags == [] then ""
    else if |tags[0]| > 0 && tags[0][0] == "d" then (if |tags[0]| > 1 then tags[0][1] else "")
    else ExtractDTag(tags[1..])
  }

  /** The position a keyset query continues from; not part of the wire format. */
  datatype QueryCursor = QueryCursor(createdAt: int, id: Id)

  /** `search` holds the trimmed NIP-50 text, empty when the filter has none. */
  datatype Filter = Filter(
    cursor: Option<QueryCursor>,
    ids: seq<Id>,
    authors: seq<string>,
    kinds: seq<int>,
    since: Option<int>,
    until: Option<int>,
    limit: Option<int>,
    search: string,
    tag: map<string, seq<string>>)
  {
    predicate HasSearch() {
      search != ""
    }

    /** NIP-01 matching; a filter with search text matches nothing on the live path. */
    predicate Matches(e: Event) {
      && !HasSearch()
      && (ids == [] || e.id in ids)
      && (authors == [] || e.pubkey in authors)
      && (kinds == [] || e.kind in kinds)
      && (since.Some? ==> since.value <= e.createdAt)
      && (until.Some? ==> e.createdAt <= until.value)
      && (cursor.Some? ==> AfterCursor(e, cursor.value))
      && forall key | key in tag :: tag[key] != [] && TagMatches(e.tags, TrimHash(key), tag[key])
    }

    /** What the store returns for the filter: tags are compared as they are stored, short ones with value "". */
    predicate Selects(e: Event) {
      && !HasSearch()
      && (ids == [] || e.id in ids)
      && (authors == [] || e.pubkey in authors)
      && (kinds == [] || e.kind in kinds)
      && (since.Some? ==> since.value <= e.createdAt)
      && (until.Some? ==> e.createdAt <= until.value)
      && (cursor.Some? ==> AfterCursor(e, cursor.value))
      && forall key | key in tag :: tag[key] != [] && StoredTagMatches(e.tags, TrimHash(key), tag[key])
    }
  }

  function TrimHash(key: string): string {
    if |key| > 0 && key[0] == '#' then key[1..] else key
  }

  /** Some tag has this name and a first value among the wanted ones. */
  predicate TagMatches(tags: seq<Tag>, name: string, want: seq<string>) {
    exists i | 0 <= i < |tags| :: |tags[i]| >= 2 && tags[i][0] == name && tags[i][1] in want
  }

  function TagName(t: Tag): string {
    if |t| > 0 then t[0] else ""
  }

  function TagValue(t: Tag): string {
    if |t| > 1 then t[1] else ""
  }

  predicate StoredTagMatches(tags: seq<Tag>, name: string, wanted: seq<string>) {
    exists i | 0 <= i < |tags| :: TagName(tags[i]) == name && TagValue(tags[i]) in wanted
  }

  lemma TagsAgree(tags: seq<Tag>, name: string, wanted: seq<string>)
    ensures TagMatches(tags, name, wanted) ==> StoredTagMatches(tags, name, wanted)
    ensures "" !in wanted ==> (TagMatches(tags, name, wanted) <==> StoredTagMatches(tags, name, wanted))
  {
    if TagMatches(tags, name, wanted) {
      var i :| 0 <= i < |tags| && |tags[i]| >= 2 && tags[i][0] == name && tags[i][1] in wanted;
      assert TagName(tags[i]) == name && TagValue(tags[i]) in wanted;
    }
    if StoredTagMatches(tags, name, wanted) && "" !in wanted {
      var i :| 0 <= i < |tags| && TagName(tags[i]) == name && TagValue(tags[i]) in wanted;
      assert |tags[i]| >= 2 && tags[i][0] == name && tags[i][1] in wanted;
    }
  }

  /** Whatever matches live is selected by the store. */
  lemma MatchesAreSelected(f: Filter, e: Event)
    requires f.Matches(e)
    ensures f.Selects(e)
  {
    hide TagMatches, StoredTagMatches;
    forall key | key in f.tag ensures StoredTagMatches(e.tags, TrimHash(key), f.tag[key]) {
      TagsAgree(e.tags, TrimHash(key), f.tag[key]);
    }
  }

  /** The order of query results: newest first, then by ascending id. */
  predicate Newer(a: Event, b: Event) {
    a.createdAt > b.createdAt || (a.createdAt == b.createdAt && a.id < b.id)
  }

  /** Events strictly later than the cursor in that order. */
  predicate AfterCursor(e: Event, c: QueryCursor) {
    e.createdAt < c.createdAt || (e.createdAt == c.createdAt && c.id < e.id)
  }

  function CursorOf(e: Event): QueryCursor {
    QueryCursor(e.createdAt, e.id)
  }

  /** The id is the primary key of the events table. */
  ghost predicate UniqueIds(s: set<Event>) {
    forall a, b | a in s && b in s && a.id == b.id :: a == b
  }

  lemma NewerIsTotal(s: set<Event>)
    requires UniqueIds(s)
    ensures Strict(Newer) && TotalOn(Newer, s)
  {
  }

  function Ids(s: set<Event>): set<Id> {
    set e | e in s :: e.id
  }

  function Min(a: int, b: int): int {
    if a < b then a else b
  }
}
