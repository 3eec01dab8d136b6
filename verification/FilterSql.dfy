/**
 * Filters compiled to SQL conditions with positional arguments. Evaluated over the event and tag rows,
 * the conditions accept the events `Matches` accepts, except where a filter asks for an empty tag value.
 */
module FilterSql {
  import opened EventStore
  import opened Nostr
  import opened Order
  import opened Tables
  import opened Wrappers

  // ---------------------------------------------------------------- conditions

  datatype Column = IdColumn | PubkeyColumn | KindColumn

  datatype Arg = IdArg(id: Id) | TextArg(text: string) | IntArg(n: int)

  /** Conditions with `?` placeholders; each takes its arguments in order. */
  datatype Cond =
    | InList(column: Column, holes: nat)
    | CreatedSince
    | CreatedUntil
    | PastCursor
    | TagIn(values: nat)
    | Never

  function Holes(c: Cond): nat {
    match c
    case InList(_, holes) => holes
    case CreatedSince => 1
    case CreatedUntil => 1
    case PastCursor => 3
    case TagIn(values) => 1 + values
    case Never => 0
  }

  function ValueOf(row: EventRow, column: Column): Arg {
    match column
    case IdColumn => IdArg(row.id)
    case PubkeyColumn => TextArg(row.pubkey)
    case KindColumn => IntArg(row.kind)
  }

  function Holds(c: Cond, args: seq<Arg>, row: EventRow, tags: set<TagRow>): bool
    requires |args| == Holes(c)
  {
    match c
    case InList(column, _) => ValueOf(row, column) in args
    case CreatedSince => args[0].IntArg? && row.createdAt >= args[0].n
    case CreatedUntil => args[0].IntArg? && row.createdAt <= args[0].n
    case PastCursor =>
      && args[0].IntArg? && args[1].IntArg? && args[2].IdArg?
      && (row.createdAt < args[0].n || (row.createdAt == args[1].n && row.id > args[2].id))
    case TagIn(_) => exists t | t in tags :: t.eventId == row.id && TextArg(t.name) == args[0] && TextArg(t.value) in args[1..]
    case Never => false
  }

  /** The conjunction, binding the arguments left to right; no value when the counts do not fit. */
  function Eval(conds: seq<Cond>, args: seq<Arg>, row: EventRow, tags: set<TagRow>): Option<bool>
    decreases |conds|
  {
    if conds == [] then
      if args == [] then Some(true) else None
    else
      var c := conds[|conds| - 1];
      if |args| < Holes(c) then None else
        var k := |args| - Holes(c);
        match Eval(conds[..|conds| - 1], args[..k], row, tags)
        case None => None
        case Some(rest) => Some(rest && Holds(c, args[k..], row, tags))
  }

  lemma EvalAnd(conds: seq<Cond>, args: seq<Arg>, c: Cond, more: seq<Arg>, row: EventRow, tags: set<TagRow>)
    requires |more| == Holes(c) && Eval(conds, args, row, tags).Some?
    ensures Eval(conds + [c], args + more, row, tags) == Some(Eval(conds, args, row, tags).value && Holds(c, more, row, tags))
  {
    hide Holds;
    assert (conds + [c])[..|conds + [c]| - 1] == conds;
    assert (args + more)[..|args + more| - Holes(c)] == args;
    assert (args + more)[|args + more| - Holes(c)..] == more;
  }

  // ----------------------------------------------------- what a filter asks of rows

  /** The filter keys the relay parses from JSON all start with '#'. */
  ghost predicate HashKeys(f: Filter) {
    forall key | key in f.tag :: |key| > 0 && key[0] == '#'
  }

  function CursorAllows(f: Filter, createdAt: int, id: Id): bool {
    f.cursor.Some? ==> createdAt < f.cursor.value.createdAt || (createdAt == f.cursor.value.createdAt && id > f.cursor.value.id)
  }

  predicate ColumnsMatch(f: Filter, row: EventRow) {
    && (f.ids == [] || row.id in f.ids)
    && (f.authors == [] || row.pubkey in f.authors)
    && (f.kinds == [] || row.kind in f.kinds)
    && (f.since.Some? ==> row.createdAt >= f.since.value)
    && (f.until.Some? ==> row.createdAt <= f.until.value)
  }

  predicate KeyMatches(key: string, wanted: seq<string>, row: EventRow, tags: set<TagRow>)
    requires |key| > 0
  {
    wanted != [] && exists t | t in tags :: t.eventId == row.id && t.name == key[1..] && t.value in wanted
  }

  ghost predicate RowMatches(f: Filter, row: EventRow, tags: set<TagRow>)
    requires HashKeys(f)
  {
    ColumnsMatch(f, row) && CursorAllows(f, row.createdAt, row.id) && forall key | key in f.tag :: KeyMatches(key, f.tag[key], row, tags)
  }

  // ------------------------------------------------------------------ compilation

  function IdArgs(ids: seq<Id>): seq<Arg> {
    seq(|ids|, i requires 0 <= i < |ids| => IdArg(ids[i]))
  }

  function TextArgs(texts: seq<string>): seq<Arg> {
    seq(|texts|, i requires 0 <= i < |texts| => TextArg(texts[i]))
  }

  function IntArgs(ns: seq<int>): seq<Arg> {
    seq(|ns|, i requires 0 <= i < |ns| => IntArg(ns[i]))
  }

  lemma InIdArgs(ids: seq<Id>, id: Id)
    ensures IdArg(id) in IdArgs(ids) <==> id in ids
  {
    if id in ids {
      var i :| 0 <= i < |ids| && ids[i] == id;
      assert IdArgs(ids)[i] == IdArg(id);
    }
  }

  lemma InTextArgs(texts: seq<string>, text: string)
    ensures TextArg(text) in TextArgs(texts) <==> text in texts
  {
    if text in texts {
      var i :| 0 <= i < |texts| && texts[i] == text;
      assert TextArgs(texts)[i] == TextArg(text);
    }
  }

  lemma InIntArgs(ns: seq<int>, n: int)
    ensures IntArg(n) in IntArgs(ns) <==> n in ns
  {
    if n in ns {
      var i :| 0 <= i < |ns| && ns[i] == n;
      assert IntArgs(ns)[i] == IntArg(n);
    }
  }

  /** One condition with the arguments appended for it. */
  datatype Part = Part(cond: Cond, args: seq<Arg>)

  predicate Fits(part: Part) {
    |part.args| == Holes(part.cond)
  }

  function CondsOf(parts: seq<Part>): seq<Cond> {
    seq(|parts|, i requires 0 <= i < |parts| => parts[i].cond)
  }

  function ArgsOf(parts: seq<Part>): seq<Arg>
    decreases |parts|
  {
    if parts == [] then [] else ArgsOf(parts[..|parts| - 1]) + parts[|parts| - 1].args
  }

  ghost predicate AllHold(parts: seq<Part>, row: EventRow, tags: set<TagRow>) {
    forall i | 0 <= i < |parts| :: Fits(parts[i]) && Holds(parts[i].cond, parts[i].args, row, tags)
  }

  /** Positional binding gives each condition its own arguments. */
  lemma {:induction false} PartsBind(parts: seq<Part>, row: EventRow, tags: set<TagRow>)
    requires AllFit(parts)
    ensures Eval(CondsOf(parts), ArgsOf(parts), row, tags) == Some(AllHold(parts, row, tags))
    decreases |parts|
  {
    hide Holds;
    if parts != [] {
      var n := |parts| - 1;
      PartsBind(parts[..n], row, tags);
      assert CondsOf(parts) == CondsOf(parts[..n]) + [parts[n].cond];
      EvalAnd(CondsOf(parts[..n]), ArgsOf(parts[..n]), parts[n].cond, parts[n].args, row, tags);
      assert AllHold(parts, row, tags) <==> AllHold(parts[..n], row, tags) && Holds(parts[n].cond, parts[n].args, row, tags);
    }
  }

  lemma ArgsAppend(parts: seq<Part>, part: Part)
    ensures ArgsOf(parts + [part]) == ArgsOf(parts) + part.args
    ensures CondsOf(parts + [part]) == CondsOf(parts) + [part.cond]
  {
    assert (parts + [part])[..|parts + [part]| - 1] == parts;
  }

  function When(b: bool, part: Part): seq<Part> {
    if b then [part] else []
  }

  function IdParts(f: Filter): seq<Part> {
    When(f.ids != [], Part(InList(IdColumn, |f.ids|), IdArgs(f.ids)))
  }

  function AuthorParts(f: Filter): seq<Part> {
    When(f.authors != [], Part(InList(PubkeyColumn, |f.authors|), TextArgs(f.authors)))
  }

  function KindParts(f: Filter): seq<Part> {
    When(f.kinds != [], Part(InList(KindColumn, |f.kinds|), IntArgs(f.kinds)))
  }

  function TimeParts(f: Filter): seq<Part> {
    (if f.since.Some? then [Part(CreatedSince, [IntArg(f.since.value)])] else [])
    + (if f.until.Some? then [Part(CreatedUntil, [IntArg(f.until.value)])] else [])
  }

  function ColumnParts(f: Filter): seq<Part> {
    IdParts(f) + AuthorParts(f) + KindParts(f) + TimeParts(f)
  }

  function CursorParts(f: Filter): seq<Part> {
    if f.cursor.Some?
    then [Part(PastCursor, [IntArg(f.cursor.value.createdAt), IntArg(f.cursor.value.createdAt), IdArg(f.cursor.value.id)])]
    else []
  }

  function TagPart(key: string, wanted: seq<string>): Part
    requires |key| > 0
  {
    if wanted == [] then Part(Never, [])
    else Part(TagIn(|wanted|), [TextArg(key[1..])] + TextArgs(wanted))
  }

  ghost predicate KeysIn(f: Filter, order: seq<string>) {
    HashKeys(f) && forall i | 0 <= i < |order| :: order[i] in f.tag
  }

  ghost function TagParts(f: Filter, order: seq<string>): seq<Part>
    requires KeysIn(f, order)
  {
    seq(|order|, i requires 0 <= i < |order| => TagPart(order[i], f.tag[order[i]]))
  }

  ghost predicate AllFit(parts: seq<Part>) {
    forall i | 0 <= i < |parts| :: Fits(parts[i])
  }

  lemma OnePart(part: Part, row: EventRow, tags: set<TagRow>)
    requires Fits(part)
    ensures AllFit([part]) && AllFit([])
    ensures AllHold([part], row, tags) <==> Holds(part.cond, part.args, row, tags)
    ensures AllHold([], row, tags)
  {
    hide Holds;
    assert [part][0] == part;
  }

  lemma ListPartsMean(f: Filter, row: EventRow, tags: set<TagRow>)
    ensures AllFit(IdParts(f)) && (AllHold(IdParts(f), row, tags) <==> f.ids == [] || row.id in f.ids)
    ensures AllFit(AuthorParts(f)) && (AllHold(AuthorParts(f), row, tags) <==> f.authors == [] || row.pubkey in f.authors)
    ensures AllFit(KindParts(f)) && (AllHold(KindParts(f), row, tags) <==> f.kinds == [] || row.kind in f.kinds)
  {
    InIdArgs(f.ids, row.id);
    InTextArgs(f.authors, row.pubkey);
    InIntArgs(f.kinds, row.kind);
    OnePart(Part(InList(IdColumn, |f.ids|), IdArgs(f.ids)), row, tags);
    OnePart(Part(InList(PubkeyColumn, |f.authors|), TextArgs(f.authors)), row, tags);
    OnePart(Part(InList(KindColumn, |f.kinds|), IntArgs(f.kinds)), row, tags);
  }

  lemma TimePartsMean(f: Filter, row: EventRow, tags: set<TagRow>)
    ensures AllFit(TimeParts(f))
    ensures AllHold(TimeParts(f), row, tags) <==>
            (f.since.Some? ==> row.createdAt >= f.since.value) && (f.until.Some? ==> row.createdAt <= f.until.value)
  {
    var since := if f.since.Some? then [Part(CreatedSince, [IntArg(f.since.value)])] else [];
    var until := if f.until.Some? then [Part(CreatedUntil, [IntArg(f.until.value)])] else [];
    AllHoldAppend(since, until, row, tags);
    if f.since.Some? {
      OnePart(since[0], row, tags);
    }
    if f.until.Some? {
      OnePart(until[0], row, tags);
    }
  }

  lemma ColumnPartsMean(f: Filter, row: EventRow, tags: set<TagRow>)
    ensures AllHold(ColumnParts(f), row, tags) <==> ColumnsMatch(f, row)
    ensures AllFit(ColumnParts(f))
  {
    hide Holds, AllHold, AllFit, IdParts, AuthorParts, KindParts, TimeParts;
    ListPartsMean(f, row, tags);
    TimePartsMean(f, row, tags);
    AllHoldAppend(IdParts(f), AuthorParts(f), row, tags);
    AllHoldAppend(IdParts(f) + AuthorParts(f), KindParts(f), row, tags);
    AllHoldAppend(IdParts(f) + AuthorParts(f) + KindParts(f), TimeParts(f), row, tags);
  }

  lemma CursorPartsMean(f: Filter, row: EventRow, tags: set<TagRow>)
    ensures AllHold(CursorParts(f), row, tags) <==> CursorAllows(f, row.createdAt, row.id)
    ensures AllFit(CursorParts(f))
  {
    if f.cursor.Some? {
      OnePart(CursorParts(f)[0], row, tags);
    }
  }

  lemma AllHoldAppend(xs: seq<Part>, ys: seq<Part>, row: EventRow, tags: set<TagRow>)
    ensures AllHold(xs + ys, row, tags) <==> AllHold(xs, row, tags) && AllHold(ys, row, tags)
    ensures AllFit(xs) && AllFit(ys) ==> AllFit(xs + ys)
  {
    hide Holds, Fits;
    if AllHold(xs + ys, row, tags) {
      assert forall i | 0 <= i < |xs| :: xs[i] == (xs + ys)[i];
      assert forall i | 0 <= i < |ys| :: ys[i] == (xs + ys)[|xs| + i];
    }
  }

  lemma TagPartMeans(key: string, wanted: seq<string>, row: EventRow, tags: set<TagRow>)
    requires |key| > 0
    ensures Fits(TagPart(key, wanted))
    ensures Holds(TagPart(key, wanted).cond, TagPart(key, wanted).args, row, tags) <==> KeyMatches(key, wanted, row, tags)
  {
    if wanted != [] {
      assert TagPart(key, wanted).args[1..] == TextArgs(wanted);
      forall t | t in tags ensures TextArg(t.value) in TextArgs(wanted) <==> t.value in wanted {
        InTextArgs(wanted, t.value);
      }
    }
  }

  /** All keys were compiled, or compilation stopped at a key with no wanted value. */
  ghost predicate Enough(f: Filter, order: seq<string>) {
    KeysIn(f, order) && (Elements(order) == f.tag.Keys || exists i | 0 <= i < |order| :: f.tag[order[i]] == [])
  }

  lemma TagPartsMean(f: Filter, order: seq<string>, row: EventRow, tags: set<TagRow>)
    requires Enough(f, order)
    ensures AllHold(TagParts(f, order), row, tags) <==> forall key | key in f.tag :: KeyMatches(key, f.tag[key], row, tags)
    ensures AllFit(TagParts(f, order))
  {
    hide Holds, Fits;
    var parts := TagParts(f, order);
    forall i | 0 <= i < |order|
      ensures Fits(parts[i]) && (Holds(parts[i].cond, parts[i].args, row, tags) <==> KeyMatches(order[i], f.tag[order[i]], row, tags))
    {
      TagPartMeans(order[i], f.tag[order[i]], row, tags);
    }
    if AllHold(parts, row, tags) {
      assert forall i | 0 <= i < |order| :: KeyMatches(order[i], f.tag[order[i]], row, tags);
      forall key | key in f.tag ensures KeyMatches(key, f.tag[key], row, tags) {
        assert key in Elements(order);
      }
    }
  }

  /** The compiled query, for any order in which the tag map was ranged over. */
  lemma QueryPartsMean(f: Filter, order: seq<string>, row: EventRow, tags: set<TagRow>)
    requires Enough(f, order)
    ensures var parts := ColumnParts(f) + CursorParts(f) + TagParts(f, order);
            Eval(CondsOf(parts), ArgsOf(parts), row, tags) == Some(RowMatches(f, row, tags))
  {
    hide Eval, AllHold, ColumnParts, CursorParts, TagParts, ColumnsMatch, KeyMatches;
    ColumnPartsMean(f, row, tags);
    CursorPartsMean(f, row, tags);
    TagPartsMean(f, order, row, tags);
    AllHoldAppend(ColumnParts(f), CursorParts(f), row, tags);
    AllHoldAppend(ColumnParts(f) + CursorParts(f), TagParts(f, order), row, tags);
    PartsBind(ColumnParts(f) + CursorParts(f) + TagParts(f, order), row, tags);
  }

  lemma OneMoreKey(f: Filter, base: seq<Part>, order: seq<string>, key: string)
    requires KeysIn(f, order) && key in f.tag
    ensures var part := TagPart(key, f.tag[key]);
            && KeysIn(f, order + [key])
            && CondsOf(base + TagParts(f, order + [key])) == CondsOf(base + TagParts(f, order)) + [part.cond]
            && ArgsOf(base + TagParts(f, order + [key])) == ArgsOf(base + TagParts(f, order)) + part.args
            && Elements(order + [key]) == Elements(order) + {key}
  {
    hide TagPart;
    var part := TagPart(key, f.tag[key]);
    ArgsAppend(base + TagParts(f, order), part);
    assert TagParts(f, order + [key]) == TagParts(f, order) + [part];
    assert base + TagParts(f, order + [key]) == base + TagParts(f, order) + [part];
  }

  lemma NoKeys(f: Filter, base: seq<Part>)
    requires HashKeys(f)
    ensures KeysIn(f, []) && base + TagParts(f, []) == base
  {
  }

  /** `applyFilterQueryPrefix`: stops at the first key without values. */
  method CompileQuery(f: Filter) returns (conds: seq<Cond>, args: seq<Arg>)
    requires HashKeys(f)
    ensures forall row, tags :: Eval(conds, args, row, tags) == Some(RowMatches(f, row, tags))
  {
    hide Eval, RowMatches, Holds, TagParts, TagPart, CondsOf, ArgsOf, ColumnParts, CursorParts;
    var base := ColumnParts(f) + CursorParts(f);
    conds, args := CondsOf(base), ArgsOf(base);
    var keys := f.tag.Keys;
    ghost var order: seq<string> := [];
    NoKeys(f, base);
    while keys != {}
      invariant keys <= f.tag.Keys && KeysIn(f, order) && Elements(order) == f.tag.Keys - keys
      invariant conds == CondsOf(base + TagParts(f, order)) && args == ArgsOf(base + TagParts(f, order))
      decreases |keys|
    {
      var key :| key in keys;
      keys := keys - {key};
      var part := TagPart(key, f.tag[key]);
      OneMoreKey(f, base, order, key);
      order := order + [key];
      conds, args := conds + [part.cond], args + part.args;
      if |f.tag[key]| == 0 {
        assert f.tag[order[|order| - 1]] == [];
        break;
      }
    }
    assert Enough(f, order);
    forall row, tags ensures Eval(conds, args, row, tags) == Some(RowMatches(f, row, tags)) {
      QueryPartsMean(f, order, row, tags);
    }
  }
}
