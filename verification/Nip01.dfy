/**
 * What the store promises under NIP-01, said with kind numbers, pubkeys and tags alone: which kinds keep one event per
 * author, which one per author and `d` value, which are never stored, and that every other event is kept.
 */
module Nip01 {
  import opened EventStore
  import opened Nostr
  import opened Order

  /** `v` is the value of the first tag named "d": empty when it has none, or when no tag has that name. */
  predicate FirstD(tags: seq<Tag>, v: string) {
    || (exists i | 0 <= i < |tags| :: FirstDAt(tags, v, i))
    || (v == "" && forall j | 0 <= j < |tags| :: !(|tags[j]| > 0 && tags[j][0] == "d"))
  }

  predicate FirstDAt(tags: seq<Tag>, v: string, i: nat)
    requires i < |tags|
  {
    && |tags[i]| > 0 && tags[i][0] == "d" && v == (if |tags[i]| > 1 then tags[i][1] else "")
    && forall j | 0 <= j < i :: !(|tags[j]| > 0 && tags[j][0] == "d")
  }

  lemma {:induction false} FirstDIs(tags: seq<Tag>, v: string)
    ensures FirstD(tags, v) <==> v == ExtractDTag(tags)
    decreases |tags|
  {
    if tags != [] {
      var rest := tags[1..];
      FirstDIs(rest, v);
      if |tags[0]| > 0 && tags[0][0] == "d" {
        assert FirstDAt(tags, ExtractDTag(tags), 0);
        assert forall i | 1 <= i < |tags| :: !FirstDAt(tags, v, i);
      } else {
        forall i | 0 <= i < |rest| ensures FirstDAt(rest, v, i) <==> FirstDAt(tags, v, i + 1) {
          assert forall j | 0 <= j < i :: rest[j] == tags[j + 1];
          assert forall j | 1 <= j < i + 1 :: tags[j] == rest[j - 1];
        }
        assert forall j | 1 <= j < |tags| :: tags[j] == rest[j - 1];
        assert forall j | 0 <= j < |rest| :: rest[j] == tags[j + 1];
        if FirstD(tags, v) && exists i | 0 <= i < |tags| :: FirstDAt(tags, v, i) {
          var i :| 0 <= i < |tags| && FirstDAt(tags, v, i);
          assert FirstDAt(rest, v, i - 1);
        }
      }
    }
  }

  /** Of two revisions the newer one is kept, of two of one time the one with the lower id. */
  predicate Better(a: Event, b: Event) {
    a.createdAt > b.createdAt || (a.createdAt == b.createdAt && a.id < b.id)
  }

  predicate OnePerAuthor(kind: int) {
    kind == 0 || kind == 3 || 10000 <= kind <= 19999
  }

  predicate OnePerD(kind: int) {
    30000 <= kind <= 39999
  }

  /** Two events of which only one may stay: of one author and kind, and for kinds 30000 to 39999 of one `d` value. */
  ghost predicate Rivals(a: Event, b: Event) {
    && a.pubkey == b.pubkey && a.kind == b.kind
    && (OnePerAuthor(a.kind) || (OnePerD(a.kind) && exists v :: FirstD(a.tags, v) && FirstD(b.tags, v)))
  }

  lemma RivalsShareSlot(a: Event, b: Event)
    ensures Rivals(a, b) <==> Replaces(a) && SlotOf(a) == SlotOf(b)
  {
    hide FirstD;
    forall v ensures FirstD(a.tags, v) <==> v == ExtractDTag(a.tags) ensures FirstD(b.tags, v) <==> v == ExtractDTag(b.tags) {
      FirstDIs(a.tags, v);
      FirstDIs(b.tags, v);
    }
    assert FirstD(a.tags, ExtractDTag(a.tags)) && FirstD(b.tags, ExtractDTag(b.tags));
  }

  /**
   * Whatever events are saved into an empty store, in any order and with repetitions: nothing else is stored, and no
   * event of kinds 20000 to 29999; of each offered event of kind 0, 3 or 10000 to 19999, or 30000 to 39999, the best
   * among its rivals is stored and no other of them; every offered event of any other kind is stored.
   */
  lemma SavesKeepNip01(evs: seq<Event>)
    requires UniqueIds(Elements(evs))
    ensures var stored := SaveAll({}, evs);
            && (forall e | e in stored :: e in evs && !(20000 <= e.kind <= 29999))
            && (forall a, b | a in stored && b in stored && Rivals(a, b) :: a == b)
            && (forall e | e in evs && (OnePerAuthor(e.kind) || OnePerD(e.kind)) ::
                  exists best | best in stored :: Rivals(best, e) && forall d | d in evs && Rivals(d, e) :: d == best || Better(best, d))
            && (forall e | e in evs && !(20000 <= e.kind <= 29999) && !OnePerAuthor(e.kind) && !OnePerD(e.kind) :: e in stored)
  {
    hide SlotOf, UniqueIds, Rivals;
    var offered := Elements(evs);
    assert Join({}) == {} && {} + offered == offered;
    SavesJoin({}, evs);
    var stored := SaveAll({}, evs);
    forall a, b ensures Rivals(a, b) <==> Replaces(a) && SlotOf(a) == SlotOf(b) {
      RivalsShareSlot(a, b);
    }
    assert forall e :: e in offered <==> e in evs;
    forall e | e in evs && (OnePerAuthor(e.kind) || OnePerD(e.kind))
      ensures exists best | best in stored :: Rivals(best, e) && forall d | d in evs && Rivals(d, e) :: d == best || Better(best, d)
    {
      var best := OneBestPerSlot(offered, e);
      SlotTells(offered, e, best);
      assert best in stored;
      assert Rivals(best, e);
    }
    forall a, b | a in stored && b in stored && Rivals(a, b) ensures a == b {
      NotBoth({a, b}, a);
      assert a in {a, b} && b in {a, b};
    }
    forall e | e in evs && !(20000 <= e.kind <= 29999) && !OnePerAuthor(e.kind) && !OnePerD(e.kind) ensures e in stored {
      AloneInSlot(offered, e);
    }
  }

  lemma SlotTells(s: set<Event>, a: Event, b: Event)
    requires UniqueIds(s) && a in s && b in s && SlotOf(a) == SlotOf(b)
    ensures Replaces(a) == Replaces(b) && IsEphemeral(a) == IsEphemeral(b)
  {
    hide SlotOf, IsEphemeral;
    assert UniqueIds({a, b});
    SlotTellsEphemeral(a, b);
  }

  lemma AloneInSlot(s: set<Event>, e: Event)
    requires UniqueIds(s) && e in s && !Replaces(e)
    ensures Best(s, e)
  {
    hide ExtractDTag;
  }
}
