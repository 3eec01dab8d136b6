/** Live matching, written as the relay runs it: one list after the other, first mismatch decides. */
module FilterMatch {
  import opened Nostr

  method Contains<T(==)>(xs: seq<T>, x: T) returns (ok: bool)
    ensures ok <==> x in xs
  {
    ok := false;
    for i := 0 to |xs|
      invariant ok <==> x in xs[..i]
    {
      if xs[i] == x {
        ok := true;
        break;
      }
    }
  }

  method EventTagMatches(tags: seq<Tag>, name: string, wantVals: seq<string>) returns (ok: bool)
    ensures ok <==> TagMatches(tags, name, wantVals)
  {
    var want: set<string> := {};
    for i := 0 to |wantVals|
      invariant want == set v | v in wantVals[..i]
    {
      want := want + {wantVals[i]};
    }
    assert wantVals[..|wantVals|] == wantVals;
    for i := 0 to |tags|
      invariant !TagMatches(tags[..i], name, wantVals)
    {
      var t := tags[i];
      if |t| == 0 || t[0] != name || |t| < 2 {
        continue;
      }
      if t[1] in want {
        return true;
      }
    }
    assert tags[..|tags|] == tags;
    return false;
  }

  /** `Filter.Matches`: the tag map is ranged over in any order. */
  method Matches(f: Filter, e: Event) returns (ok: bool)
    ensures ok <==> f.Matches(e)
  {
    hide TagMatches;
    if f.HasSearch() {
      return false;
    }
    if |f.ids| > 0 {
      var listed := Contains(f.ids, e.id);
      if !listed {
        return false;
      }
    }
    if |f.authors| > 0 {
      var listed := Contains(f.authors, e.pubkey);
      if !listed {
        return false;
      }
    }
    if |f.kinds| > 0 {
      var listed := Contains(f.kinds, e.kind);
      if !listed {
        return false;
      }
    }
    if f.since.Some? && e.createdAt < f.since.value {
      return false;
    }
    if f.until.Some? && e.createdAt > f.until.value {
      return false;
    }
    if f.cursor.Some? && (e.createdAt > f.cursor.value.createdAt ||
        (e.createdAt == f.cursor.value.createdAt && e.id <= f.cursor.value.id)) {
      return false;
    }
    var keys := f.tag.Keys;
    while keys != {}
      invariant keys <= f.tag.Keys
      invariant forall key | key in f.tag.Keys - keys :: f.tag[key] != [] && TagMatches(e.tags, TrimHash(key), f.tag[key])
      decreases |keys|
    {
      var key :| key in keys;
      keys := keys - {key};
      if |f.tag[key]| == 0 {
        return false;
      }
      var tagged := EventTagMatches(e.tags, TrimHash(key), f.tag[key]);
      if !tagged {
        return false;
      }
    }
    return true;
  }
}
