/**
 * Browsing the product projection: match, apply the price policy, sort, page by cursor. The projection is a map
 * ranged over in any order. Prices are parsed from text, which may say NaN or infinity; unless a NaN meets another
 * price in a price sort, the answer does not depend on the order of ranging.
 */
module Browse {
  import opened Nostr
  import opened Order
  import Products
  import opened Wrappers

  datatype SortMode = Newest | PriceAsc | PriceDesc | UpdatedAtDesc

  /** A parsed price, with Go's `<` and `!=`. */
  datatype Price = NaN | NegInf | Amount(value: real) | PosInf {
    predicate Below(other: Price) {
      match this
      case NaN => false
      case NegInf => !other.NaN? && !other.NegInf?
      case Amount(v) => other.PosInf? || (other.Amount? && v < other.value)
      case PosInf => false
    }

    predicate Differs(other: Price) {
      NaN? || other.NaN? || this != other
    }
  }

  /** What is extracted from an event once, when it enters the projection. */
  datatype Facts = Facts(updatedAt: int, price: Price, currency: string, hasPrice: bool, searchText: string)

  datatype Item = Item(event: Event, facts: Facts)

  datatype Plan = Plan(text: string, sort: SortMode, cursor: string, partial: bool)

  datatype Options = Options(allowMixedCurrencySort: bool, defaultQueryLimit: nat, maxQueryLimit: nat)

  /** The event facts, the structural filter match, and the cursor's text form. */
  datatype Env = Env(describe: Event -> Facts, matches: Event -> bool, encode: Id -> string, decode: string -> Option<Id>)

  // ------------------------------------------------------------------- sort order

  /** Go's string order. */
  predicate StrLess(a: string, b: string)
    decreases |a|
  {
    b != "" && (a == "" || a[0] < b[0] || (a[0] == b[0] && StrLess(a[1..], b[1..])))
  }

  lemma {:induction false} NotLessThanSelf(a: string)
    ensures !StrLess(a, a)
    decreases |a|
  {
    if a != "" {
      NotLessThanSelf(a[1..]);
    }
  }

  lemma {:induction false} StrLessTotal(a: string, b: string)
    ensures a != b ==> StrLess(a, b) || StrLess(b, a)
    ensures !(StrLess(a, b) && StrLess(b, a))
    decreases |a| + |b|
  {
    if a != "" && b != "" {
      StrLessTotal(a[1..], b[1..]);
      assert a == [a[0]] + a[1..] && b == [b[0]] + b[1..];
    }
  }

  lemma {:induction false} StrLessTransitive(a: string, b: string, c: string)
    requires StrLess(a, b) && StrLess(b, c)
    ensures StrLess(a, c)
    decreases |a|
  {
    if a != "" && a[0] == b[0] == c[0] {
      StrLessTransitive(a[1..], b[1..], c[1..]);
    }
  }

  function Compare(a: int, b: int): int {
    if a < b then -1 else if a > b then 1 else 0
  }

  /** The part of the comparison a mode adds before the common tail. */
  function CompareHead(a: Item, b: Item, mode: SortMode): int {
    match mode
    case Newest => Compare(b.event.createdAt, a.event.createdAt)
    case UpdatedAtDesc => Compare(b.facts.updatedAt, a.facts.updatedAt)
    case _ =>
      if a.facts.hasPrice != b.facts.hasPrice then (if a.facts.hasPrice then -1 else 1)
      else if a.facts.hasPrice && a.facts.price.Differs(b.facts.price) then
        (if a.facts.price.Below(b.facts.price) == mode.PriceAsc? then -1 else 1)
      else 0
  }

  function CompareProducts(a: Item, b: Item, mode: SortMode): int {
    var head := CompareHead(a, b, mode);
    if head != 0 then head
    else if a.facts.updatedAt != b.facts.updatedAt then Compare(b.facts.updatedAt, a.facts.updatedAt)
    else if a.event.createdAt != b.event.createdAt then Compare(b.event.createdAt, a.event.createdAt)
    else Compare(a.event.id, b.event.id)
  }

  function Less(mode: SortMode): (Item, Item) -> bool {
    (a, b) => CompareProducts(a, b, mode) < 0
  }

  /** No two items share an event id. */
  ghost predicate DistinctIds(items: set<Item>) {
    forall a, b | a in items && b in items && a.event.id == b.event.id :: a == b
  }

  predicate PriceSort(mode: SortMode) {
    mode.PriceAsc? || mode.PriceDesc?
  }

  predicate PricedNaN(i: Item) {
    i.facts.hasPrice && i.facts.price.NaN?
  }

  /** No NaN stands against a price where prices are compared. */
  predicate Comparable(a: Item, b: Item, mode: SortMode) {
    PriceSort(mode) && a.facts.hasPrice && b.facts.hasPrice ==> !a.facts.price.NaN? && !b.facts.price.NaN?
  }

  /**
   * The comparison is antisymmetric exactly on comparable items; on comparable ones it is transitive, and zero only
   * on equal ids.
   */
  lemma CompareIsTotal(a: Item, b: Item, c: Item, mode: SortMode)
    ensures CompareProducts(a, b, mode) == -CompareProducts(b, a, mode) <==> Comparable(a, b, mode)
    ensures CompareProducts(a, b, mode) == 0 ==> a.event.id == b.event.id
    ensures a == b && Comparable(a, b, mode) ==> CompareProducts(a, b, mode) == 0
    ensures Comparable(a, b, mode) && Comparable(b, c, mode) && Comparable(a, c, mode) ==>
              CompareProducts(a, b, mode) < 0 && CompareProducts(b, c, mode) < 0 ==> CompareProducts(a, c, mode) < 0
  {
  }

  /** In a price sort, an item with a NaN price is the only priced one. */
  ghost predicate Determined(items: set<Item>, mode: SortMode) {
    PriceSort(mode) ==> forall a, b | a in items && b in items && PricedNaN(a) && b.facts.hasPrice :: a == b
  }

  /** Of two different items exactly one comes first, and firsts chain. */
  ghost predicate OrdersPairs(items: set<Item>, less: (Item, Item) -> bool) {
    && (forall a, b | a in items && b in items && a != b :: less(a, b) <==> !less(b, a))
    && (forall a, b, c | a in items && b in items && c in items && a != b && b != c && less(a, b) && less(b, c) :: a == c || less(a, c))
  }

  ghost predicate NothingBeforeItself(items: set<Item>, less: (Item, Item) -> bool) {
    forall a | a in items :: !less(a, a)
  }

  /**
   * The comparison orders every two different items exactly when no NaN stands against another price. It puts no item
   * before itself exactly when the sort is not by falling price over a NaN.
   */
  lemma ComparisonOrdersExactlyWhen(items: set<Item>, mode: SortMode)
    requires DistinctIds(items)
    ensures OrdersPairs(items, Less(mode)) <==> Determined(items, mode)
    ensures NothingBeforeItself(items, Less(mode)) <==> !(mode.PriceDesc? && exists i | i in items :: PricedNaN(i))
  {
    hide CompareProducts;
    if Determined(items, mode) {
      forall a, b | a in items && b in items && a != b ensures Less(mode)(a, b) <==> !Less(mode)(b, a) {
        CompareIsTotal(a, b, a, mode);
      }
      forall a, b, c | a in items && b in items && c in items && a != b && b != c && Less(mode)(a, b) && Less(mode)(b, c)
        ensures a == c || Less(mode)(a, c)
      {
        CompareIsTotal(a, b, c, mode);
      }
    } else {
      var a, b :| a in items && b in items && PricedNaN(a) && b.facts.hasPrice && a != b;
      NaNIsNoOrder(a, b, mode);
    }
    forall a | a in items ensures Less(mode)(a, a) <==> mode.PriceDesc? && PricedNaN(a) {
      AgainstItself(a, mode);
    }
  }

  /** Against another price a NaN loses both ways in rising order, and wins both ways in falling order. */
  lemma NaNIsNoOrder(a: Item, b: Item, mode: SortMode)
    requires PriceSort(mode) && PricedNaN(a) && b.facts.hasPrice
    ensures CompareProducts(a, b, mode) == CompareProducts(b, a, mode) == if mode.PriceAsc? then 1 else -1
  {
  }

  lemma AgainstItself(a: Item, mode: SortMode)
    ensures Less(mode)(a, a) <==> mode.PriceDesc? && PricedNaN(a)
  {
  }

  /** The comparison among different items of a set; sorting never compares an item with itself. */
  ghost function Within(items: set<Item>, mode: SortMode): (Item, Item) -> bool {
    (a, b) => a in items && b in items && a != b && CompareProducts(a, b, mode) < 0
  }

  lemma SortIsTotal(items: set<Item>, mode: SortMode)
    requires DistinctIds(items) && Determined(items, mode)
    ensures Strict(Within(items, mode)) && TotalOn(Within(items, mode), items)
  {
    hide CompareProducts, Determined;
    ComparisonOrdersExactlyWhen(items, mode);
    var less := Within(items, mode);
    forall a, b | a in items && b in items && a != b ensures less(a, b) == Less(mode)(a, b) {
    }
    forall a, b, c | less(a, b) && less(b, c) ensures less(a, c) {
      assert Less(mode)(a, b) && Less(mode)(b, c);
    }
  }

  /** What comes earlier in each mode; a product without a price never comes before one with a price. */
  predicate ModeAllows(a: Item, b: Item, mode: SortMode) {
    match mode
    case Newest => a.event.createdAt >= b.event.createdAt
    case UpdatedAtDesc => a.facts.updatedAt >= b.facts.updatedAt
    case PriceAsc => (b.facts.hasPrice ==> a.facts.hasPrice && !a.facts.price.NaN? && !b.facts.price.Below(a.facts.price))
    case PriceDesc => (b.facts.hasPrice ==> a.facts.hasPrice && !a.facts.price.NaN? && !a.facts.price.Below(b.facts.price))
  }

  /** The items of the set, each once. */
  ghost predicate Lists(listing: seq<Item>, items: set<Item>) {
    Elements(listing) == items && forall i, j | 0 <= i < j < |listing| :: listing[i] != listing[j]
  }

  lemma ListOneMore(x: Item, xs: seq<Item>, items: set<Item>)
    requires Lists(xs, items) && x !in items
    ensures Lists([x] + xs, items + {x})
  {
    var out := [x] + xs;
    ElementsOfCons(x, xs);
    forall i, j | 0 <= i < j < |out| ensures out[i] != out[j] {
      assert out[j] == xs[j - 1] && xs[j - 1] in Elements(xs);
    }
  }

  /**
   * What the sort of a set returns. `SortFunc` puts it in order when the comparison orders the items; otherwise
   * nothing is promised but the items, each once.
   */
  ghost predicate Arranged(items: set<Item>, mode: SortMode, listing: seq<Item>) {
    && Lists(listing, items)
    && (Determined(items, mode) ==> Sorted(listing, Within(items, mode)))
  }

  /** What comes earlier of two that the mode does not tell apart: updated later, then created later, then the lower id. */
  predicate TiesAllow(a: Item, b: Item) {
    || a.facts.updatedAt > b.facts.updatedAt
    || (a.facts.updatedAt == b.facts.updatedAt && a.event.createdAt > b.event.createdAt)
    || (a.facts.updatedAt == b.facts.updatedAt && a.event.createdAt == b.event.createdAt && a.event.id <= b.event.id)
  }

  /** A sorted listing goes the way its mode says, and where the mode allows either order, the way ties are broken. */
  lemma ListingFollowsMode(items: set<Item>, mode: SortMode, listing: seq<Item>, i: nat, j: nat)
    requires Determined(items, mode) && Arranged(items, mode, listing) && i < j < |listing|
    ensures ModeAllows(listing[i], listing[j], mode)
    ensures ModeAllows(listing[j], listing[i], mode) ==> TiesAllow(listing[i], listing[j])
  {
    assert Within(items, mode)(listing[i], listing[j]);
  }

  lemma {:induction false} InsertHolds(x: Item, xs: seq<Item>, items: set<Item>, less: (Item, Item) -> bool)
    requires Lists(xs, items) && x !in items
    ensures Lists(InsertSorted(x, xs, less), items + {x})
    decreases |xs|
  {
    hide Lists;
    if xs == [] || less(x, xs[0]) {
      ListOneMore(x, xs, items);
    } else {
      ListOneLess(xs, items);
      InsertHolds(x, xs[1..], items - {xs[0]}, less);
      ListOneMore(xs[0], InsertSorted(x, xs[1..], less), items - {xs[0]} + {x});
      assert items - {xs[0]} + {x} + {xs[0]} == items + {x};
    }
  }

  lemma ListOneLess(xs: seq<Item>, items: set<Item>)
    requires Lists(xs, items) && xs != []
    ensures xs[0] in items && Lists(xs[1..], items - {xs[0]})
  {
    assert xs == [xs[0]] + xs[1..];
    ElementsOfCons(xs[0], xs[1..]);
    forall k | 0 <= k < |xs| - 1 ensures xs[1..][k] == xs[k + 1] != xs[0] {
    }
    assert xs[0] !in xs[1..];
  }

  lemma {:induction false} InsertSame(x: Item, xs: seq<Item>, items: set<Item>, mode: SortMode)
    requires x in items && x !in xs && Elements(xs) <= items
    ensures InsertSorted(x, xs, Less(mode)) == InsertSorted(x, xs, Within(items, mode))
    decreases |xs|
  {
    hide CompareProducts;
    if xs != [] {
      assert xs[0] in Elements(xs) && forall y | y in xs[1..] :: y in xs && y in Elements(xs);
      InsertSame(x, xs[1..], items, mode);
    }
  }

  /** The values of a ranged map, put in order by the comparison. */
  method SortItems(items: set<Item>, mode: SortMode) returns (out: seq<Item>)
    requires DistinctIds(items)
    ensures Arranged(items, mode, out)
  {
    hide Determined, Less, Within, Strict, TotalOn, DistinctIds;
    out := [];
    var rest := items;
    while rest != {}
      invariant rest <= items && Lists(out, items - rest)
      invariant Determined(items, mode) ==> Sorted(out, Within(items, mode))
      decreases |rest|
    {
      var x :| x in rest;
      assert x in out ==> x in Elements(out);
      InsertHolds(x, out, items - rest, Less(mode));
      assert items - rest + {x} == items - (rest - {x});
      if Determined(items, mode) {
        SortIsTotal(items, mode);
        InsertSame(x, out, items, mode);
        PartIsTotal(Within(items, mode), items, Elements(out) + {x});
        InsertKeepsSorted(x, out, Within(items, mode));
      }
      out := InsertSorted(x, out, Less(mode));
      rest := rest - {x};
    }
  }

  lemma PartIsTotal(less: (Item, Item) -> bool, items: set<Item>, part: set<Item>)
    requires TotalOn(less, items) && part <= items
    ensures TotalOn(less, part)
  {
  }

  // ----------------------------------------------------------------- price policy

  datatype Policy = Allowed | Blocked | Only(currency: string)

  function Cohort(items: set<Item>, currency: string): set<Item> {
    set i | i in items && i.facts.hasPrice && i.facts.currency == currency
  }

  function Currencies(items: set<Item>): set<string> {
    set i | i in items && i.facts.hasPrice :: i.facts.currency
  }

  /** The largest cohort, the smallest name among the largest. */
  ghost predicate BestCurrency(items: set<Item>, c: string) {
    && c in Currencies(items)
    && forall d | d in Currencies(items) && d != c ::
         |Cohort(items, d)| < |Cohort(items, c)| || (|Cohort(items, d)| == |Cohort(items, c)| && StrLess(c, d))
  }

  ghost predicate PolicyIs(items: set<Item>, plan: Plan, opts: Options, policy: Policy) {
    if !PriceSort(plan.sort) || opts.allowMixedCurrencySort || |Currencies(items)| <= 1 then policy == Allowed
    else if !plan.partial then policy == Blocked
    else policy.Only? && BestCurrency(items, policy.currency)
  }

  lemma PolicyIsUnique(items: set<Item>, plan: Plan, opts: Options, p: Policy, q: Policy)
    requires PolicyIs(items, plan, opts, p) && PolicyIs(items, plan, opts, q)
    ensures p == q
  {
    if p.Only? && p != q {
      StrLessTotal(p.currency, q.currency);
    }
  }

  ghost predicate Counted(counts: map<string, nat>, items: set<Item>) {
    counts.Keys == Currencies(items) && forall c | c in counts :: counts[c] == |Cohort(items, c)|
  }

  function CountIn(counts: map<string, nat>, i: Item): map<string, nat> {
    var c := i.facts.currency;
    if i.facts.hasPrice then counts[c := (if c in counts then counts[c] else 0) + 1] else counts
  }

  lemma CountStep(counts: map<string, nat>, done: set<Item>, i: Item)
    requires Counted(counts, done) && i !in done
    ensures Counted(CountIn(counts, i), done + {i})
  {
    hide Cohort, Currencies;
    CurrenciesGrow(done, i);
    var after := CountIn(counts, i);
    forall c | c in after ensures after[c] == |Cohort(done + {i}, c)| {
      CohortGrows(done, i, c);
    }
  }

  lemma NothingCounted()
    ensures Counted(map[], {})
  {
  }

  method CountCurrencies(items: set<Item>) returns (counts: map<string, nat>)
    ensures Counted(counts, items)
  {
    hide Counted;
    counts := map[];
    NothingCounted();
    var rest := items;
    ghost var done: set<Item> := {};
    while rest != {}
      invariant done + rest == items && done !! rest && Counted(counts, done)
      decreases |rest|
    {
      var i :| i in rest;
      CountStep(counts, done, i);
      rest := rest - {i};
      done := done + {i};
      counts := CountIn(counts, i);
    }
    assert done == items;
  }

  function OneIf(b: bool): nat {
    if b then 1 else 0
  }

  predicate Prices(i: Item, c: string) {
    i.facts.hasPrice && i.facts.currency == c
  }

  lemma CohortGrows(done: set<Item>, i: Item, c: string)
    requires i !in done
    ensures |Cohort(done + {i}, c)| == |Cohort(done, c)| + OneIf(Prices(i, c))
    ensures c !in Currencies(done) ==> |Cohort(done, c)| == 0
  {
    if Prices(i, c) {
      assert Cohort(done + {i}, c) == Cohort(done, c) + {i};
    } else {
      assert Cohort(done + {i}, c) == Cohort(done, c);
    }
    if c !in Currencies(done) {
      assert forall x | x in Cohort(done, c) :: x.facts.currency in Currencies(done);
      assert Cohort(done, c) == {};
    }
  }

  lemma CurrenciesGrow(done: set<Item>, i: Item)
    ensures Currencies(done + {i}) == Currencies(done) + (if i.facts.hasPrice then {i.facts.currency} else {})
  {
  }

  ghost predicate BestAmong(counts: map<string, nat>, keys: set<string>, c: string) {
    && c in keys && keys <= counts.Keys
    && forall d | d in keys && d != c :: counts[d] < counts[c] || (counts[d] == counts[c] && StrLess(c, d))
  }

  ghost predicate BestSoFar(counts: map<string, nat>, done: set<string>, best: string, bestCount: int) {
    if done == {} then bestCount == -1 else BestAmong(counts, done, best) && bestCount == counts[best]
  }

  lemma BestStep(counts: map<string, nat>, done: set<string>, best: string, bestCount: int, c: string)
    requires BestSoFar(counts, done, best, bestCount) && c in counts && c !in done
    ensures if counts[c] > bestCount || (counts[c] == bestCount && StrLess(c, best))
            then BestSoFar(counts, done + {c}, c, counts[c])
            else BestSoFar(counts, done + {c}, best, bestCount)
  {
    hide StrLess;
    if done == {} {
      assert done + {c} == {c};
    } else {
      StrLessTotal(c, best);
      if counts[c] > bestCount || (counts[c] == bestCount && StrLess(c, best)) {
        BetterBeatsAll(counts, done, best, c);
      }
    }
  }

  /** The counts are ranged over in any order; ties go to the smaller name. */
  method PickCurrency(counts: map<string, nat>) returns (best: string)
    requires counts != map[]
    ensures BestAmong(counts, counts.Keys, best)
  {
    hide BestSoFar, StrLess;
    best := "";
    var bestCount: int := -1;
    var rest := counts.Keys;
    ghost var done: set<string> := {};
    assert BestSoFar(counts, done, best, bestCount) by { NoneSoFar(counts, best); }
    while rest != {}
      invariant done + rest == counts.Keys && done !! rest && BestSoFar(counts, done, best, bestCount)
      decreases |rest|
    {
      var c :| c in rest;
      BestStep(counts, done, best, bestCount, c);
      rest := rest - {c};
      done := done + {c};
      if counts[c] > bestCount || (counts[c] == bestCount && StrLess(c, best)) {
        best, bestCount := c, counts[c];
      }
    }
    assert done == counts.Keys;
    BestAtEnd(counts, best, bestCount);
  }

  lemma NoneSoFar(counts: map<string, nat>, best: string)
    ensures BestSoFar(counts, {}, best, -1)
  {
  }

  lemma BestAtEnd(counts: map<string, nat>, best: string, bestCount: int)
    requires BestSoFar(counts, counts.Keys, best, bestCount) && counts != map[]
    ensures BestAmong(counts, counts.Keys, best)
  {
    assert counts.Keys != {};
  }

  lemma BetterBeatsAll(counts: map<string, nat>, done: set<string>, best: string, c: string)
    requires BestAmong(counts, done, best) && c in counts && c !in done
    requires counts[c] > counts[best] || (counts[c] == counts[best] && StrLess(c, best))
    ensures BestAmong(counts, done + {c}, c)
  {
    hide StrLess;
    forall d | d in done ensures counts[d] < counts[c] || (counts[d] == counts[c] && StrLess(c, d)) {
      if d != best && counts[d] == counts[best] == counts[c] {
        StrLessTransitive(c, best, d);
      }
    }
  }

  method EvaluatePricePolicy(items: set<Item>, plan: Plan, opts: Options) returns (policy: Policy)
    ensures PolicyIs(items, plan, opts, policy)
  {
    if !PriceSort(plan.sort) || opts.allowMixedCurrencySort {
      return Allowed;
    }
    var counts := CountCurrencies(items);
    assert |counts| == |counts.Keys|;
    if |counts| <= 1 {
      return Allowed;
    }
    if !plan.partial {
      return Blocked;
    }
    var best := PickCurrency(counts);
    assert BestCurrency(items, best);
    return Only(best);
  }

  // --------------------------------------------------------------------- matching

  predicate Contains(text: string, needle: string)
    decreases |text|
  {
    needle <= text || (text != "" && Contains(text[1..], needle))
  }

  predicate Keeps(env: Env, entry: Products.Entry, needle: string) {
    !entry.tombstoned && env.matches(entry.event) && (needle == "" || Contains(env.describe(entry.event).searchText, needle))
  }

  function ItemOf(env: Env, e: Event): Item {
    Item(e, env.describe(e))
  }

  function Matching(m: Products.Projection, env: Env, needle: string): set<Item> {
    set a | a in m && Keeps(env, m[a], needle) :: ItemOf(env, m[a].event)
  }

  lemma MatchingDistinct(m: Products.Projection, env: Env, needle: string)
    requires Products.Distinct(m)
    ensures DistinctIds(Matching(m, env, needle))
  {
    hide Keeps;
  }

  method MatchProducts(m: Products.Projection, env: Env, needle: string) returns (items: set<Item>)
    ensures items == Matching(m, env, needle)
  {
    hide Keeps;
    items := {};
    var rest := m.Keys;
    while rest != {}
      invariant rest <= m.Keys
      invariant items == set a | a in m.Keys - rest && Keeps(env, m[a], needle) :: ItemOf(env, m[a].event)
      decreases |rest|
    {
      var a :| a in rest;
      rest := rest - {a};
      if Keeps(env, m[a], needle) {
        items := items + {ItemOf(env, m[a].event)};
      }
    }
  }

  // ---------------------------------------------------------------------- paging

  function ResolvedLimit(limit: int, opts: Options): nat {
    if limit <= 0 then opts.defaultQueryLimit else if limit > opts.maxQueryLimit then opts.maxQueryLimit else limit
  }

  function IndexOf(items: seq<Item>, id: Id): Option<nat>
    decreases |items|
  {
    if items == [] then None
    else
      match IndexOf(items[..|items| - 1], id)
      case Some(i) => Some(i)
      case None => if items[|items| - 1].event.id == id then Some(|items| - 1) else None
  }

  /** An unreadable cursor, or one naming no item, starts over. */
  function CursorStart(items: seq<Item>, env: Env, cursor: string): nat {
    if cursor == "" then 0
    else
      match env.decode(cursor)
      case None => 0
      case Some(id) => match IndexOf(items, id) case None => 0 case Some(i) => i + 1
  }

  function Page(items: seq<Item>, start: nat, limit: nat): seq<Item> {
    if start >= |items| then [] else items[start..if start + limit > |items| then |items| else start + limit]
  }

  function Chosen(items: set<Item>, policy: Policy): set<Item> {
    if policy.Only? then Cohort(items, policy.currency) else items
  }

  /** A whole listing that a query can be answered from, or nothing when the price policy blocks it. */
  ghost predicate ListingIs(m: Products.Projection, env: Env, plan: Plan, opts: Options, listing: Option<seq<Item>>) {
    var items := Matching(m, env, plan.text);
    exists policy | PolicyIs(items, plan, opts, policy) :: AnswersUnder(items, plan, policy, listing)
  }

  ghost predicate AnswersUnder(items: set<Item>, plan: Plan, policy: Policy, listing: Option<seq<Item>>) {
    if policy.Blocked? then listing == None else listing.Some? && Arranged(Chosen(items, policy), plan.sort, listing.value)
  }

  /** The query is blocked, or among the products it sorts no NaN price stands against another price. */
  ghost predicate Settled(m: Products.Projection, env: Env, plan: Plan, opts: Options) {
    var items := Matching(m, env, plan.text);
    forall policy | PolicyIs(items, plan, opts, policy) && !policy.Blocked? :: Determined(Chosen(items, policy), plan.sort)
  }

  lemma ArrangedOnce(items: set<Item>, mode: SortMode, x: seq<Item>, y: seq<Item>)
    requires DistinctIds(items) && Determined(items, mode) && Arranged(items, mode, x) && Arranged(items, mode, y)
    ensures x == y
  {
    hide Within, Determined, DistinctIds;
    SortIsTotal(items, mode);
    SortedUnique(x, y, Within(items, mode));
  }

  lemma {:induction false} SomeOrder(items: set<Item>) returns (xs: seq<Item>)
    ensures Lists(xs, items)
    decreases |items|
  {
    if items == {} {
      xs := [];
    } else {
      var x :| x in items;
      xs := SomeOrder(items - {x});
      ListOneMore(x, xs, items - {x});
      xs := [x] + xs;
      assert items - {x} + {x} == items;
    }
  }

  lemma ArrangedTwice(items: set<Item>, mode: SortMode) returns (x: seq<Item>, y: seq<Item>)
    requires !Determined(items, mode)
    ensures Arranged(items, mode, x) && Arranged(items, mode, y) && x != y
  {
    hide Lists, Within;
    var a, b :| a in items && b in items && PricedNaN(a) && b.facts.hasPrice && a != b;
    var rest := items - {a, b};
    var xs := SomeOrder(rest);
    ListOneMore(b, xs, rest);
    ListOneMore(a, [b] + xs, rest + {b});
    ListOneMore(a, xs, rest);
    ListOneMore(b, [a] + xs, rest + {a});
    assert rest + {b} + {a} == items && rest + {a} + {b} == items;
    x, y := [a] + ([b] + xs), [b] + ([a] + xs);
    assert x[0] != y[0];
  }

  lemma OneListing(m: Products.Projection, env: Env, plan: Plan, opts: Options)
    requires Products.Distinct(m)
    ensures Settled(m, env, plan, opts) <==>
            forall x, y | ListingIs(m, env, plan, opts, x) && ListingIs(m, env, plan, opts, y) :: x == y
  {
    hide Arranged, Determined, Matching, PolicyIs, Products.Distinct, Chosen, DistinctIds;
    var items := Matching(m, env, plan.text);
    MatchingDistinct(m, env, plan.text);
    forall p, q | PolicyIs(items, plan, opts, p) && PolicyIs(items, plan, opts, q) ensures p == q {
      PolicyIsUnique(items, plan, opts, p, q);
    }
    if Settled(m, env, plan, opts) {
      forall x, y | ListingIs(m, env, plan, opts, x) && ListingIs(m, env, plan, opts, y) ensures x == y {
        var p :| PolicyIs(items, plan, opts, p) && AnswersUnder(items, plan, p, x);
        assert AnswersUnder(items, plan, p, y);
        if !p.Blocked? {
          ChosenDistinct(items, p);
          ArrangedOnce(Chosen(items, p), plan.sort, x.value, y.value);
        }
      }
    } else {
      var p :| PolicyIs(items, plan, opts, p) && !p.Blocked? && !Determined(Chosen(items, p), plan.sort);
      var x, y := ArrangedTwice(Chosen(items, p), plan.sort);
      assert AnswersUnder(items, plan, p, Some(x)) && AnswersUnder(items, plan, p, Some(y));
      assert ListingIs(m, env, plan, opts, Some(x)) && ListingIs(m, env, plan, opts, Some(y)) && Some(x) != Some(y);
    }
  }

  /**
   * What a listing holds: the products that are not tombstoned, match the filter and have the text in them, and under a
   * currency only those priced in it.
   */
  lemma ListingHolds(m: Products.Projection, env: Env, plan: Plan, opts: Options, listing: seq<Item>, e: Event)
    requires ListingIs(m, env, plan, opts, Some(listing))
    ensures (exists i | 0 <= i < |listing| :: listing[i].event == e) ==>
              exists a | a in m :: m[a].event == e && !m[a].tombstoned && env.matches(e) && HasText(env.describe(e).searchText, plan.text)
    ensures !PriceSort(plan.sort) && (exists a | a in m ::
                m[a].event == e && !m[a].tombstoned && env.matches(e) && HasText(env.describe(e).searchText, plan.text)) ==>
              exists i | 0 <= i < |listing| :: listing[i].event == e
  {
    hide PolicyIs, Determined, Within, HasText, Contains;
    var items := Matching(m, env, plan.text);
    var p :| PolicyIs(items, plan, opts, p) && AnswersUnder(items, plan, p, Some(listing));
    ContainsIs(env.describe(e).searchText, plan.text);
    EmptyIsIn(env.describe(e).searchText);
    if exists i | 0 <= i < |listing| :: listing[i].event == e {
      var i :| 0 <= i < |listing| && listing[i].event == e;
      assert listing[i] in Elements(listing) && listing[i] in items;
    }
    if !PriceSort(plan.sort) {
      TimeSortsTakeAll(items, plan, opts, p);
      if exists a | a in m :: m[a].event == e && Keeps(env, m[a], plan.text) {
        assert ItemOf(env, e) in items && ItemOf(env, e) in Elements(listing);
      }
    }
  }

  lemma TimeSortsTakeAll(items: set<Item>, plan: Plan, opts: Options, p: Policy)
    requires PolicyIs(items, plan, opts, p) && !PriceSort(plan.sort)
    ensures p == Allowed
  {
  }

  /** The needle stands somewhere in the text. */
  predicate HasText(text: string, needle: string) {
    exists i | 0 <= i <= |text| :: StandsAt(text, needle, i)
  }

  predicate StandsAt(text: string, needle: string, i: nat)
    requires i <= |text|
  {
    i + |needle| <= |text| && text[i..i + |needle|] == needle
  }

  lemma EmptyIsIn(text: string)
    ensures HasText(text, "")
  {
    assert StandsAt(text, "", 0);
  }

  lemma {:induction false} ContainsIs(text: string, needle: string)
    ensures Contains(text, needle) <==> HasText(text, needle)
    decreases |text|
  {
    hide StandsAt;
    AtStart(text, needle);
    if !(needle <= text) && text != "" {
      ContainsIs(text[1..], needle);
      forall i | 0 <= i <= |text| - 1 ensures StandsAt(text, needle, i + 1) <==> StandsAt(text[1..], needle, i) {
        OneFurther(text, needle, i);
      }
      if HasText(text, needle) {
        var i :| 0 <= i <= |text| && StandsAt(text, needle, i);
        assert i > 0 && StandsAt(text[1..], needle, i - 1);
      }
    } else if text == "" && HasText(text, needle) {
      var i :| 0 <= i <= |text| && StandsAt(text, needle, i);
    }
  }

  lemma AtStart(text: string, needle: string)
    ensures StandsAt(text, needle, 0) <==> needle <= text
  {
  }

  lemma OneFurther(text: string, needle: string, i: nat)
    requires i + 1 <= |text|
    ensures StandsAt(text, needle, i + 1) <==> StandsAt(text[1..], needle, i)
  {
    if i + 1 + |needle| <= |text| {
      assert text[i + 1..i + 1 + |needle|] == text[1..][i..i + |needle|];
    }
  }

  lemma ChosenDistinct(items: set<Item>, policy: Policy)
    requires DistinctIds(items)
    ensures DistinctIds(Chosen(items, policy))
  {
  }

  ghost predicate DistinctSeq(items: seq<Item>) {
    forall i, j | 0 <= i < j < |items| :: items[i].event.id != items[j].event.id
  }

  lemma ListingDistinct(m: Products.Projection, env: Env, plan: Plan, opts: Options, listing: seq<Item>)
    requires Products.Distinct(m) && ListingIs(m, env, plan, opts, Some(listing))
    ensures DistinctSeq(listing)
  {
    hide Matching, PolicyIs, Products.Distinct, Determined, Within;
    var items := Matching(m, env, plan.text);
    MatchingDistinct(m, env, plan.text);
    var p :| PolicyIs(items, plan, opts, p) && AnswersUnder(items, plan, p, Some(listing));
    forall i, j | 0 <= i < j < |listing| ensures listing[i].event.id != listing[j].event.id {
      assert listing[i] in Elements(listing) && listing[j] in Elements(listing);
    }
  }

  /**
   * Whatever was seeded and whatever arrived since, a query has one listing of the projection, whatever order the map
   * was ranged over, if and only if the query is settled. No listing names an event id twice.
   */
  lemma ListingIsUniqueExactlyWhen(s: set<Event>, codec: Products.Codec, inputs: seq<Products.Input>, env: Env, plan: Plan, opts: Options)
    requires UniqueIds(s + Products.Offered(inputs))
    ensures var m := Products.RunState(s, codec, inputs);
            && (Settled(m, env, plan, opts) <==>
                forall x, y | ListingIs(m, env, plan, opts, x) && ListingIs(m, env, plan, opts, y) :: x == y)
            && (forall x | ListingIs(m, env, plan, opts, Some(x)) :: DistinctSeq(x))
  {
    hide Products.RunState, ListingIs, Settled, DistinctSeq;
    Products.RunsStayDistinct(s, codec, inputs);
    var m := Products.RunState(s, codec, inputs);
    OneListing(m, env, plan, opts);
    forall x | ListingIs(m, env, plan, opts, Some(x)) ensures DistinctSeq(x) {
      ListingDistinct(m, env, plan, opts, x);
    }
  }

  /** Sorts by time are settled whatever the prices say. */
  lemma TimeSortsAreSettled(m: Products.Projection, env: Env, plan: Plan, opts: Options)
    requires !PriceSort(plan.sort)
    ensures Settled(m, env, plan, opts)
  {
  }

  method FindCursorStart(items: seq<Item>, env: Env, cursor: string) returns (start: nat)
    requires cursor != ""
    ensures start == CursorStart(items, env, cursor)
  {
    var id := env.decode(cursor);
    if id.None? {
      return 0;
    }
    for i := 0 to |items|
      invariant IndexOf(items[..i], id.value) == None
    {
      assert items[..i + 1][..i] == items[..i];
      if items[i].event.id == id.value {
        IndexStays(items, i + 1, id.value);
        return i + 1;
      }
    }
    assert items[..|items|] == items;
    return 0;
  }

  lemma {:induction false} IndexStays(items: seq<Item>, k: nat, id: Id)
    requires k <= |items| && IndexOf(items[..k], id).Some?
    ensures IndexOf(items, id) == IndexOf(items[..k], id)
    decreases |items|
  {
    if k == |items| {
      assert items[..k] == items;
    } else {
      assert items[..|items| - 1][..k] == items[..k];
      IndexStays(items[..|items| - 1], k, id);
    }
  }

  /** `s` is what was seeded and `inputs` what was applied since. */
  method Evaluate(state: Products.Scope2State, ghost s: set<Event>, ghost inputs: seq<Products.Input>, env: Env, limit: int, plan: Plan,
                  opts: Options)
    returns (page: Option<seq<Item>>)
    requires UniqueIds(s + Products.Offered(inputs)) && state.products == Products.RunState(s, state.codec, inputs)
    ensures exists listing | ListingIs(state.products, env, plan, opts, listing) ::
              page == match listing case None => None
                      case Some(items) => Some(Page(items, CursorStart(items, env, plan.cursor), ResolvedLimit(limit, opts)))
    ensures page.Some? ==>
              |page.value| <= if limit <= 0 then opts.defaultQueryLimit else if limit < opts.maxQueryLimit then limit else opts.maxQueryLimit
  {
    hide Arranged, Matching, BestCurrency, Products.RunState, Products.Distinct;
    Products.RunsStayDistinct(s, state.codec, inputs);
    var m := state.products;
    var items := MatchProducts(m, env, plan.text);
    MatchingDistinct(m, env, plan.text);
    var policy := EvaluatePricePolicy(items, plan, opts);
    if policy.Blocked? {
      assert AnswersUnder(items, plan, policy, None);
      assert ListingIs(m, env, plan, opts, None);
      return None;
    }
    ChosenDistinct(items, policy);
    var sorted := SortItems(Chosen(items, policy), plan.sort);
    assert AnswersUnder(items, plan, policy, Some(sorted));
    assert ListingIs(m, env, plan, opts, Some(sorted));
    var start := 0;
    if plan.cursor != "" {
      start := FindCursorStart(sorted, env, plan.cursor);
    }
    if start >= |sorted| {
      return Some([]);
    }
    var end := start + ResolvedLimit(limit, opts);
    if end > |sorted| {
      end := |sorted|;
    }
    return Some(sorted[start..end]);
  }

  // --------------------------------------------------------- following the cursor

  /** Cursors read back as the id they were built from. */
  ghost predicate CursorsReadBack(env: Env) {
    forall id: Id :: env.encode(id) != "" && env.decode(env.encode(id)) == Some(id)
  }

  lemma {:induction false} IndexFound(items: seq<Item>, k: nat)
    requires DistinctSeq(items) && k < |items|
    ensures IndexOf(items, items[k].event.id) == Some(k)
    decreases |items|
  {
    var n := |items| - 1;
    if k < n {
      IndexFound(items[..n], k);
    } else {
      NotIndexed(items[..n], items[k].event.id);
    }
  }

  lemma {:induction false} NotIndexed(items: seq<Item>, id: Id)
    requires forall i | 0 <= i < |items| :: items[i].event.id != id
    ensures IndexOf(items, id) == None
    decreases |items|
  {
    if items != [] {
      NotIndexed(items[..|items| - 1], id);
    }
  }

  lemma NextStart(items: seq<Item>, env: Env, k: nat)
    requires DistinctSeq(items) && CursorsReadBack(env) && 0 < k <= |items|
    ensures CursorStart(items, env, env.encode(items[k - 1].event.id)) == k
  {
    IndexFound(items, k - 1);
  }

  lemma PageIsSlice(items: seq<Item>, start: nat, limit: nat)
    requires start <= |items|
    ensures |Page(items, start, limit)| <= limit && start + |Page(items, start, limit)| <= |items|
    ensures Page(items, start, limit) == items[start..start + |Page(items, start, limit)|]
    ensures limit > 0 && start < |items| ==> Page(items, start, limit) != []
  {
  }

  /**
   * Pages fetched one after the other, each from the cursor of the last item of the one before, until one is empty or
   * there are no more requests. The k-th request sorts anew and is answered from its own listing.
   */
  ghost function Chain(listings: seq<seq<Item>>, env: Env, cursor: string, limit: nat): seq<Item>
    decreases |listings|
  {
    if listings == [] then [] else
      var page := Page(listings[0], CursorStart(listings[0], env, cursor), limit);
      if page == [] then [] else page + Chain(listings[1..], env, env.encode(page[|page| - 1].event.id), limit)
  }

  lemma {:induction false} ChainIsRest(listings: seq<seq<Item>>, items: seq<Item>, env: Env, cursor: string, limit: nat)
    requires DistinctSeq(items) && CursorsReadBack(env) && limit > 0
    requires CursorStart(items, env, cursor) <= |items| && forall x | x in listings :: x == items
    requires |listings| + CursorStart(items, env, cursor) > |items|
    ensures Chain(listings, env, cursor, limit) == items[CursorStart(items, env, cursor)..]
    decreases |listings|
  {
    hide CursorStart, Page, DistinctSeq, CursorsReadBack;
    var start := CursorStart(items, env, cursor);
    var page := Page(items, start, limit);
    PageIsSlice(items, start, limit);
    assert listings[0] in listings;
    if page != [] {
      NextStart(items, env, start + |page|);
      assert page[|page| - 1] == items[start + |page| - 1];
      assert forall x | x in listings[1..] :: x in listings;
      ChainIsRest(listings[1..], items, env, env.encode(page[|page| - 1].event.id), limit);
      assert items[start..] == page + items[start + |page|..];
    }
  }

  /**
   * Whatever was seeded and whatever arrived before the first page: when the query is settled, paging by cursor from
   * the start returns the whole sorted listing, each product once, for any positive limit, though each page sorts anew.
   */
  lemma ChainedPagesAreTheListing(s: set<Event>, codec: Products.Codec, inputs: seq<Products.Input>, env: Env, plan: Plan, opts: Options,
                                  listings: seq<seq<Item>>, limit: int)
    requires UniqueIds(s + Products.Offered(inputs)) && CursorsReadBack(env)
    requires Settled(Products.RunState(s, codec, inputs), env, plan, opts)
    requires forall x | x in listings :: ListingIs(Products.RunState(s, codec, inputs), env, plan, opts, Some(x))
    requires listings != [] && |listings| > |listings[0]|
    requires opts.defaultQueryLimit > 0 && opts.maxQueryLimit > 0
    ensures DistinctSeq(listings[0]) && ResolvedLimit(limit, opts) > 0
    ensures Chain(listings, env, "", ResolvedLimit(limit, opts)) == listings[0]
  {
    hide Products.RunState, ListingIs, Settled, Chain, DistinctSeq, CursorsReadBack;
    ListingIsUniqueExactlyWhen(s, codec, inputs, env, plan, opts);
    forall x | x in listings ensures x == listings[0] {
      assert listings[0] in listings;
      assert Some(x) == Some(listings[0]);
    }
    ChainIsRest(listings, listings[0], env, "", ResolvedLimit(limit, opts));
  }

  /**
   * A NaN beside one other price: sorting keeps or swaps the order the map was ranged in, and pages of one can miss
   * the second product altogether.
   */
  lemma NaNFollowsTheRange(env: Env, a: Item, b: Item, mode: SortMode)
    requires PriceSort(mode) && PricedNaN(a) && b.facts.hasPrice && a.event.id != b.event.id && CursorsReadBack(env)
    ensures InsertSorted(a, [b], Less(mode)) == (if mode.PriceAsc? then [b, a] else [a, b])
    ensures InsertSorted(b, [a], Less(mode)) == (if mode.PriceAsc? then [a, b] else [b, a])
    ensures Arranged({a, b}, mode, [a, b]) && Arranged({a, b}, mode, [b, a])
    ensures Chain([[a, b], [b, a], [a, b]], env, "", 1) == [a]
  {
    hide CompareProducts, CursorStart, Page;
    NaNIsNoOrder(a, b, mode);
    assert InsertSorted(a, [b][1..], Less(mode)) == [a] && InsertSorted(b, [a][1..], Less(mode)) == [b];
    assert !Determined({a, b}, mode) by {
      assert a in {a, b} && b in {a, b} && a != b;
    }
    var x, y := [a, b], [b, a];
    assert CursorStart(x, env, "") == 0 && Page(x, 0, 1) == [a] by {
      assert x[0..1] == [a];
      FirstPage(x, env);
    }
    NextStart(y, env, 2);
    assert Page(y, 2, 1) == [] by { PageIsSlice(y, 2, 1); }
    assert [x, y, x][1..][0] == y;
  }

  lemma FirstPage(items: seq<Item>, env: Env)
    requires items != []
    ensures CursorStart(items, env, "") == 0 && Page(items, 0, 1) == [items[0]]
  {
  }

  /** Unless mixed sorting is allowed, the priced products of a price-sorted listing share one currency. */
  lemma OneCurrencyPerListing(m: Products.Projection, env: Env, plan: Plan, opts: Options, listing: seq<Item>, a: Item, b: Item)
    requires ListingIs(m, env, plan, opts, Some(listing)) && PriceSort(plan.sort) && !opts.allowMixedCurrencySort
    requires a in listing && b in listing && a.facts.hasPrice && b.facts.hasPrice
    ensures a.facts.currency == b.facts.currency
  {
    hide CompareProducts, Less, Sorted, Matching, BestCurrency, Determined;
    var items := Matching(m, env, plan.text);
    assert a in Elements(listing) && b in Elements(listing);
    if |Currencies(items)| <= 1 {
      assert a in items && b in items;
      OneAtMost(Currencies(items), a.facts.currency, b.facts.currency);
    }
  }

  lemma OneAtMost(names: set<string>, x: string, y: string)
    requires |names| <= 1 && x in names && y in names
    ensures x == y
  {
    if x != y {
      assert {x, y} <= names;
      SubsetSize({x, y}, names);
    }
  }

  lemma SubsetSize(small: set<string>, large: set<string>)
    requires small <= large
    ensures |small| <= |large|
  {
    assert large == small + (large - small);
  }
}
