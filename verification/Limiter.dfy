/**
 * Rate limiting: sliding windows of admissions and bytes, and one window per IP address kept in a
 * least-recently-used list whose expired entries are evicted a few at a time. Every clock reading is a
 * parameter; readings never go back.
 */
module Limiter {
  const MINUTE: nat := 60_000_000_000
  const EVICTIONS_PER_CALL: nat := 64

  // ------------------------------------------------------------- counting events

  ghost predicate Ascending(xs: seq<int>) {
    forall i, j | 0 <= i < j < |xs| :: xs[i] <= xs[j]
  }

  /** Drops the leading stamps that are before the cutoff. */
  function Trim(stamps: seq<int>, cutoff: int): seq<int>
    decreases |stamps|
  {
    if stamps != [] && stamps[0] < cutoff then Trim(stamps[1..], cutoff) else stamps
  }

  function Allowed(stamps: seq<int>, window: nat, max: int, now: int): bool {
    |Trim(stamps, now - window)| < max
  }

  function Stamped(stamps: seq<int>, window: nat, max: int, now: int): seq<int> {
    var recent := Trim(stamps, now - window);
    if |recent| < max then recent + [now] else recent
  }

  class SlidingEvents {
    const window: nat
    const max: int
    var stamps: seq<int>

    constructor (window: nat, max: int)
      ensures this.window == window && this.max == max && stamps == []
    {
      this.window, this.max := window, max;
      stamps := [];
    }

    method Allow(now: int) returns (ok: bool)
      modifies this
      ensures ok == Allowed(old(stamps), window, max, now)
      ensures stamps == Stamped(old(stamps), window, max, now)
    {
      var cutoff := now - window;
      var i := 0;
      while i < |stamps| && stamps[i] < cutoff
        invariant 0 <= i <= |stamps| && stamps == old(stamps)
        invariant Trim(stamps[i..], cutoff) == Trim(stamps, cutoff)
      {
        assert stamps[i..][1..] == stamps[i + 1..];
        i := i + 1;
      }
      stamps := stamps[i..];
      if |stamps| >= max {
        return false;
      }
      stamps := stamps + [now];
      return true;
    }
  }

  /** The stamps held after a run of calls, and every admission the run made. */
  function Held(calls: seq<int>, window: nat, max: int): seq<int>
    decreases |calls|
  {
    if calls == [] then [] else Stamped(Held(calls[..|calls| - 1], window, max), window, max, calls[|calls| - 1])
  }

  function Admitted(calls: seq<int>, window: nat, max: int): seq<int>
    decreases |calls|
  {
    if calls == [] then [] else
      var n := |calls| - 1;
      var before := Admitted(calls[..n], window, max);
      if Allowed(Held(calls[..n], window, max), window, max, calls[n]) then before + [calls[n]] else before
  }

  /** How many of `xs` lie in the closed window ending at `now`. */
  function CountIn(xs: seq<int>, lo: int, hi: int): nat
    decreases |xs|
  {
    if xs == [] then 0 else CountIn(xs[..|xs| - 1], lo, hi) + (if lo <= xs[|xs| - 1] <= hi then 1 else 0)
  }

  /** Trimming an ascending list leaves its suffix from the cutoff on. */
  lemma {:induction false} TrimIsSuffix(xs: seq<int>, cutoff: int) returns (k: nat)
    requires Ascending(xs)
    ensures k <= |xs| && Trim(xs, cutoff) == xs[k..]
    ensures forall i | 0 <= i < |xs| :: xs[i] < cutoff <==> i < k
    decreases |xs|
  {
    if xs != [] && xs[0] < cutoff {
      var tail := TrimIsSuffix(xs[1..], cutoff);
      k := tail + 1;
      assert xs[1..][tail..] == xs[k..];
      forall i | 0 <= i < |xs| ensures xs[i] < cutoff <==> i < k {
        if i > 0 {
          assert xs[i] == xs[1..][i - 1];
        }
      }
    } else {
      k := 0;
    }
  }

  lemma {:induction false} CountSuffix(xs: seq<int>, k: nat, lo: int, hi: int)
    requires k <= |xs| && forall i | 0 <= i < |xs| :: xs[i] <= hi && (xs[i] < lo <==> i < k)
    ensures CountIn(xs, lo, hi) == |xs| - k
    decreases |xs|
  {
    if xs != [] {
      var n := |xs| - 1;
      CountSuffix(xs[..n], if k <= n then k else n, lo, hi);
    }
  }

  ghost predicate UpTo(xs: seq<int>, t: int) {
    forall i | 0 <= i < |xs| :: xs[i] <= t
  }

  lemma LastIsLatest(xs: seq<int>)
    requires Ascending(xs) && xs != []
    ensures Ascending(xs[..|xs| - 1]) && UpTo(xs[..|xs| - 1], xs[|xs| - 1])
  {
  }

  lemma AppendLater(xs: seq<int>, x: int, t: int)
    requires Ascending(xs) && UpTo(xs, t) && t <= x
    ensures Ascending(xs + [x]) && UpTo(xs + [x], x) && UpTo(xs, x)
  {
  }

  function LastOf(calls: seq<int>): int {
    if calls == [] then 0 else calls[|calls| - 1]
  }

  lemma NothingAdmitted(window: nat, max: int)
    ensures Admitted([], window, max) == [] && Held([], window, max) == []
  {
  }

  /** What is held after a run is what it admitted within the window before its last call. */
  lemma {:induction false} HeldIsRecent(calls: seq<int>, window: nat, max: int)
    requires Ascending(calls)
    ensures var all := Admitted(calls, window, max);
            && Ascending(all) && UpTo(all, LastOf(calls))
            && Held(calls, window, max) == Trim(all, LastOf(calls) - window)
    decreases |calls|
  {
    hide Ascending, UpTo, Trim;
    if calls == [] {
      NothingAdmitted(window, max);
      EmptyTrims(LastOf(calls) - window);
    } else {
      var n, now := |calls| - 1, LastOf(calls);
      LastIsLatest(calls);
      HeldIsRecent(calls[..n], window, max);
      var all := Admitted(calls[..n], window, max);
      if n > 0 {
        InUpTo(calls[..n], n - 1, now);
      } else {
        NothingAdmitted(window, max);
        EmptyTrims(now - window);
      }
      HeldStep(calls[..n], all, window, max, now);
    }
  }

  lemma EmptyTrims(cutoff: int)
    ensures Trim([], cutoff) == [] && Ascending([]) && forall t :: UpTo([], t)
  {
  }

  lemma InUpTo(xs: seq<int>, i: nat, t: int)
    requires UpTo(xs, t) && i < |xs|
    ensures xs[i] <= t
  {
  }

  lemma HeldStep(calls: seq<int>, all: seq<int>, window: nat, max: int, now: int)
    requires Ascending(all) && UpTo(all, LastOf(calls)) && (calls != [] ==> LastOf(calls) <= now) && (calls == [] ==> all == [])
    requires Held(calls, window, max) == Trim(all, LastOf(calls) - window)
    ensures Trim(Held(calls, window, max), now - window) == Trim(all, now - window)
    ensures Trim(all + [now], now - window) == Trim(all, now - window) + [now]
    ensures Ascending(all + [now]) && UpTo(all + [now], now) && UpTo(all, now)
  {
    hide Trim, Held;
    if calls == [] {
      EmptyTrims(now - window);
      EmptyTrims(LastOf(calls) - window);
      AppendLater(all, now, now);
    } else {
      TrimTwice(all, LastOf(calls) - window, now - window);
      AppendLater(all, now, LastOf(calls));
    }
    TrimAppend(all, now, now - window);
  }

  lemma TrimTwice(xs: seq<int>, first: int, second: int)
    requires Ascending(xs) && first <= second
    ensures Trim(Trim(xs, first), second) == Trim(xs, second)
    decreases |xs|
  {
    if xs != [] && xs[0] < first {
      assert Ascending(xs[1..]);
      TrimTwice(xs[1..], first, second);
    }
  }

  lemma TrimAppend(xs: seq<int>, x: int, cutoff: int)
    requires x >= cutoff
    ensures Trim(xs + [x], cutoff) == Trim(xs, cutoff) + [x]
    decreases |xs|
  {
    if xs != [] && xs[0] < cutoff {
      assert (xs + [x])[1..] == xs[1..] + [x];
      TrimAppend(xs[1..], x, cutoff);
    }
  }

  lemma HeldNow(calls: seq<int>, window: nat, max: int, now: int)
    requires Ascending(calls + [now])
    ensures var all := Admitted(calls, window, max);
            && Ascending(all) && UpTo(all, now)
            && Trim(Held(calls, window, max), now - window) == Trim(all, now - window)
  {
    hide Ascending, UpTo, Trim, Held, Admitted;
    LastIsLatest(calls + [now]);
    assert (calls + [now])[..|calls|] == calls;
    HeldIsRecent(calls, window, max);
    if calls != [] {
      InUpTo(calls, |calls| - 1, now);
    } else {
      NothingAdmitted(window, max);
    }
    HeldStep(calls, Admitted(calls, window, max), window, max, now);
  }

  /** A call is refused exactly when `max` admissions lie in the closed window ending now. */
  lemma RefusedExactlyWhenFull(calls: seq<int>, now: int, window: nat, max: int)
    requires Ascending(calls + [now])
    ensures Allowed(Held(calls, window, max), window, max, now) <==> CountIn(Admitted(calls, window, max), now - window, now) < max
  {
    hide Ascending, Trim, Held, Admitted, CountIn;
    var all := Admitted(calls, window, max);
    HeldNow(calls, window, max, now);
    var k := TrimIsSuffix(all, now - window);
    CountSuffix(all, k, now - window, now);
  }

  /** Any `max + 1` consecutive admissions of a run span more than the window. */
  lemma {:induction false} AdmissionsSpread(calls: seq<int>, window: nat, max: int, i: nat)
    requires Ascending(calls) && i + (if max < 0 then 0 else max) < |Admitted(calls, window, max)|
    ensures max > 0 && Admitted(calls, window, max)[i + max] - Admitted(calls, window, max)[i] > window
    decreases |calls|
  {
    hide Ascending, Trim, Held;
    var n := |calls| - 1;
    var before, now := Admitted(calls[..n], window, max), calls[n];
    LastIsLatest(calls);
    if i + (if max < 0 then 0 else max) < |before| {
      AdmissionsSpread(calls[..n], window, max, i);
    } else {
      assert calls[..n] + [now] == calls;
      HeldNow(calls[..n], window, max, now);
      var k := TrimIsSuffix(before, now - window);
    }
  }

  // -------------------------------------------------------------- counting bytes

  datatype Chunk = Chunk(t: int, n: int)

  function TrimChunks(entries: seq<Chunk>, cutoff: int): seq<Chunk>
    decreases |entries|
  {
    if entries != [] && entries[0].t < cutoff then TrimChunks(entries[1..], cutoff) else entries
  }

  function Sum(entries: seq<Chunk>): int
    decreases |entries|
  {
    if entries == [] then 0 else Sum(entries[..|entries| - 1]) + entries[|entries| - 1].n
  }

  function BytesAllowed(entries: seq<Chunk>, window: nat, maxBytes: int, now: int, n: int): bool {
    n <= 0 || Sum(TrimChunks(entries, now - window)) + n <= maxBytes
  }

  function BytesHeld(entries: seq<Chunk>, window: nat, maxBytes: int, now: int, n: int): seq<Chunk> {
    if n <= 0 then entries else
      var recent := TrimChunks(entries, now - window);
      if Sum(recent) + n <= maxBytes then recent + [Chunk(now, n)] else recent
  }

  class ByteWindow {
    const window: nat
    const maxBytes: int
    var entries: seq<Chunk>

    constructor (window: nat, maxBytes: int)
      ensures this.window == window && this.maxBytes == maxBytes && entries == []
    {
      this.window, this.maxBytes := window, maxBytes;
      entries := [];
    }

    method Allow(n: int, now: int) returns (ok: bool)
      modifies this
      ensures ok == BytesAllowed(old(entries), window, maxBytes, now, n)
      ensures entries == BytesHeld(old(entries), window, maxBytes, now, n)
    {
      if n <= 0 {
        return true;
      }
      var cutoff := now - window;
      var i := 0;
      while i < |entries| && entries[i].t < cutoff
        invariant 0 <= i <= |entries| && entries == old(entries)
        invariant TrimChunks(entries[i..], cutoff) == TrimChunks(entries, cutoff)
      {
        assert entries[i..][1..] == entries[i + 1..];
        i := i + 1;
      }
      entries := entries[i..];
      var sum := 0;
      for k := 0 to |entries|
        invariant sum == Sum(entries[..k])
      {
        assert entries[..k + 1][..k] == entries[..k];
        sum := sum + entries[k].n;
      }
      assert entries[..|entries|] == entries;
      if sum + n > maxBytes {
        return false;
      }
      entries := entries + [Chunk(now, n)];
      return true;
    }
  }

  function ChunksHeld(calls: seq<Chunk>, window: nat, maxBytes: int): seq<Chunk>
    decreases |calls|
  {
    if calls == [] then [] else
      var c := calls[|calls| - 1];
      BytesHeld(ChunksHeld(calls[..|calls| - 1], window, maxBytes), window, maxBytes, c.t, c.n)
  }

  /** Every chunk a run recorded as admitted; calls without bytes pass unrecorded. */
  function ChunksAdmitted(calls: seq<Chunk>, window: nat, maxBytes: int): seq<Chunk>
    decreases |calls|
  {
    if calls == [] then [] else
      var n := |calls| - 1;
      var c, before := calls[n], ChunksAdmitted(calls[..n], window, maxBytes);
      if c.n > 0 && BytesAllowed(ChunksHeld(calls[..n], window, maxBytes), window, maxBytes, c.t, c.n) then before + [c] else before
  }

  ghost predicate ClockForward(calls: seq<Chunk>) {
    forall i, j | 0 <= i < j < |calls| :: calls[i].t <= calls[j].t
  }

  function BytesIn(entries: seq<Chunk>, lo: int, hi: int): int
    decreases |entries|
  {
    if entries == [] then 0 else
      var c := entries[|entries| - 1];
      BytesIn(entries[..|entries| - 1], lo, hi) + (if lo <= c.t <= hi then c.n else 0)
  }

  lemma ChunkTrimTwice(xs: seq<Chunk>, first: int, second: int)
    requires ClockForward(xs) && first <= second
    ensures TrimChunks(TrimChunks(xs, first), second) == TrimChunks(xs, second)
    decreases |xs|
  {
    if xs != [] && xs[0].t < first {
      assert ClockForward(xs[1..]);
      ChunkTrimTwice(xs[1..], first, second);
    }
  }

  lemma ChunkTrimAppend(xs: seq<Chunk>, c: Chunk, cutoff: int)
    requires c.t >= cutoff
    ensures TrimChunks(xs + [c], cutoff) == TrimChunks(xs, cutoff) + [c]
    decreases |xs|
  {
    if xs != [] && xs[0].t < cutoff {
      assert (xs + [c])[1..] == xs[1..] + [c];
      ChunkTrimAppend(xs[1..], c, cutoff);
    }
  }

  lemma {:induction false} ChunkTrimIsSuffix(xs: seq<Chunk>, cutoff: int) returns (k: nat)
    requires ClockForward(xs)
    ensures k <= |xs| && TrimChunks(xs, cutoff) == xs[k..] && ClockForward(xs[k..])
    ensures forall i | 0 <= i < |xs| :: xs[i].t < cutoff <==> i < k
    decreases |xs|
  {
    if xs != [] && xs[0].t < cutoff {
      var tail := ChunkTrimIsSuffix(xs[1..], cutoff);
      k := tail + 1;
      assert xs[1..][tail..] == xs[k..];
      forall i | 0 <= i < |xs| ensures xs[i].t < cutoff <==> i < k {
        if i > 0 {
          assert xs[i] == xs[1..][i - 1];
        }
      }
    } else {
      k := 0;
    }
  }

  /** Chunks in clock order, none after `now`, all with bytes. */
  ghost predicate Recorded(all: seq<Chunk>, now: int) {
    ClockForward(all) && forall c | c in all :: c.t <= now && c.n > 0
  }

  ghost predicate CallsUpTo(calls: seq<Chunk>, now: int) {
    ClockForward(calls) && forall c | c in calls :: c.t <= now
  }

  lemma LastChunk(calls: seq<Chunk>, now: int)
    requires CallsUpTo(calls, now) && calls != []
    ensures CallsUpTo(calls[..|calls| - 1], calls[|calls| - 1].t) && calls[|calls| - 1].t <= now
  {
  }

  lemma RecordedAppend(all: seq<Chunk>, c: Chunk, now: int)
    requires Recorded(all, c.t) && c.n > 0 && c.t <= now
    ensures Recorded(all + [c], now)
  {
  }

  lemma RecordedLater(all: seq<Chunk>, t: int, now: int)
    requires Recorded(all, t) && t <= now
    ensures Recorded(all, now)
  {
  }

  lemma TrimRecorded(all: seq<Chunk>, cutoff: int, now: int)
    requires Recorded(all, now)
    ensures Recorded(TrimChunks(all, cutoff), now)
  {
    hide TrimChunks;
    var k := ChunkTrimIsSuffix(all, cutoff);
  }

  lemma {:induction false} HeldOrdered(calls: seq<Chunk>, window: nat, maxBytes: int, now: int)
    requires CallsUpTo(calls, now)
    ensures Recorded(ChunksHeld(calls, window, maxBytes), now)
    decreases |calls|
  {
    hide Recorded, CallsUpTo, TrimChunks, Sum;
    if calls == [] {
      NoChunks(now);
    } else {
      var n := |calls| - 1;
      var c, held := calls[n], ChunksHeld(calls[..n], window, maxBytes);
      LastChunk(calls, now);
      HeldOrdered(calls[..n], window, maxBytes, c.t);
      TrimRecorded(held, c.t - window, c.t);
      RecordedLater(held, c.t, now);
      RecordedLater(TrimChunks(held, c.t - window), c.t, now);
      if c.n > 0 {
        RecordedAppend(TrimChunks(held, c.t - window), c, now);
      }
    }
  }

  lemma NoChunks(now: int)
    ensures Recorded([], now) && forall cutoff :: TrimChunks([], cutoff) == []
  {
  }

  /** Trimmed to a window, what is held is what was admitted. */
  lemma {:induction false} ChunksHeldAreRecent(calls: seq<Chunk>, window: nat, maxBytes: int, now: int)
    requires CallsUpTo(calls, now)
    ensures var all := ChunksAdmitted(calls, window, maxBytes);
            && Recorded(all, now)
            && TrimChunks(ChunksHeld(calls, window, maxBytes), now - window) == TrimChunks(all, now - window)
    decreases |calls|
  {
    hide Recorded, CallsUpTo, TrimChunks, Sum;
    if calls == [] {
      NoChunks(now);
    } else {
      var n := |calls| - 1;
      var c := calls[n];
      var all, held := ChunksAdmitted(calls[..n], window, maxBytes), ChunksHeld(calls[..n], window, maxBytes);
      LastChunk(calls, now);
      ChunksHeldAreRecent(calls[..n], window, maxBytes, c.t);
      HeldOrdered(calls[..n], window, maxBytes, c.t);
      RecordedLater(all, c.t, now);
      TrimTwiceRecorded(held, c.t, c.t - window, now - window);
      TrimTwiceRecorded(all, c.t, c.t - window, now - window);
      if c.n > 0 {
        RecordedAppend(all, c, now);
        TrimRecorded(held, c.t - window, c.t);
        LaterTrim(TrimChunks(held, c.t - window), all, c, now - window);
      }
    }
  }

  lemma TrimTwiceRecorded(xs: seq<Chunk>, t: int, first: int, second: int)
    requires Recorded(xs, t) && first <= second
    ensures TrimChunks(TrimChunks(xs, first), second) == TrimChunks(xs, second)
  {
    hide TrimChunks;
    ChunkTrimTwice(xs, first, second);
  }

  /** Appending one chunk to both lists keeps their later trims equal. */
  lemma LaterTrim(held: seq<Chunk>, all: seq<Chunk>, c: Chunk, cutoff: int)
    requires TrimChunks(held, cutoff) == TrimChunks(all, cutoff)
    requires Recorded(all, c.t) && Recorded(held, c.t)
    ensures TrimChunks(held + [c], cutoff) == TrimChunks(all + [c], cutoff)
  {
    hide TrimChunks;
    if c.t >= cutoff {
      ChunkTrimAppend(held, c, cutoff);
      ChunkTrimAppend(all, c, cutoff);
    } else {
      TrimAll(held + [c], cutoff);
      TrimAll(all + [c], cutoff);
    }
  }

  lemma TrimAll(xs: seq<Chunk>, cutoff: int)
    requires forall c | c in xs :: c.t < cutoff
    ensures TrimChunks(xs, cutoff) == []
    decreases |xs|
  {
    if xs != [] {
      TrimAll(xs[1..], cutoff);
    }
  }

  lemma {:induction false} SumOfRecent(all: seq<Chunk>, k: nat, lo: int, hi: int)
    requires k <= |all| && forall i | 0 <= i < |all| :: all[i].t <= hi && (all[i].t < lo <==> i < k)
    ensures Sum(all[k..]) == BytesIn(all, lo, hi)
    decreases |all|
  {
    if all != [] {
      var n := |all| - 1;
      if k <= n {
        SumOfRecent(all[..n], k, lo, hi);
        assert all[k..][..|all[k..]| - 1] == all[..n][k..];
      } else {
        SumOfRecent(all[..n], n, lo, hi);
        assert all[k..] == [] && all[..n][n..] == [];
      }
    }
  }

  /** Bytes are refused exactly when they would overflow what the closed window ending now already admitted. */
  lemma BytesRefusedExactlyWhenFull(calls: seq<Chunk>, window: nat, maxBytes: int, now: int, n: int)
    requires CallsUpTo(calls, now) && n > 0
    ensures BytesAllowed(ChunksHeld(calls, window, maxBytes), window, maxBytes, now, n) <==>
            BytesIn(ChunksAdmitted(calls, window, maxBytes), now - window, now) + n <= maxBytes
  {
    hide CallsUpTo, TrimChunks, ChunksHeld, ChunksAdmitted, Sum, BytesIn, ClockForward;
    ChunksHeldAreRecent(calls, window, maxBytes, now);
    var all := ChunksAdmitted(calls, window, maxBytes);
    var k := ChunkTrimIsSuffix(all, now - window);
    SumOfRecent(all, k, now - window, now);
  }

  lemma {:induction false} NarrowerHoldsLess(all: seq<Chunk>, lo: int, hi: int, lo': int, hi': int)
    requires forall c | c in all :: c.n > 0 && c.t <= hi
    requires lo <= lo'
    ensures BytesIn(all, lo', hi') <= BytesIn(all, lo, hi)
    decreases |all|
  {
    if all != [] {
      NarrowerHoldsLess(all[..|all| - 1], lo, hi, lo', hi');
    }
  }

  lemma OneMoreChunk(before: seq<Chunk>, c: Chunk, window: nat, maxBytes: nat, lo: int)
    requires Recorded(before, c.t)
    requires BytesIn(before, lo, lo + window) <= maxBytes && BytesIn(before, c.t - window, c.t) + c.n <= maxBytes
    ensures BytesIn(before + [c], lo, lo + window) <= maxBytes
  {
    assert (before + [c])[..|before|] == before;
    if lo <= c.t <= lo + window {
      NarrowerHoldsLess(before, c.t - window, c.t, lo, lo + window);
    }
  }

  lemma NoBytes(window: nat, maxBytes: int, lo: int, hi: int)
    ensures BytesIn(ChunksAdmitted([], window, maxBytes), lo, hi) == 0
  {
  }

  /** No closed window, wherever it starts, ever holds more admitted bytes than the cap. */
  lemma {:induction false} BytesStayCapped(calls: seq<Chunk>, window: nat, maxBytes: nat, now: int, lo: int)
    requires CallsUpTo(calls, now)
    ensures BytesIn(ChunksAdmitted(calls, window, maxBytes), lo, lo + window) <= maxBytes
    decreases |calls|
  {
    hide CallsUpTo, ChunksHeld, BytesAllowed, BytesIn, Recorded;
    if calls == [] {
      NoBytes(window, maxBytes, lo, lo + window);
    } else {
      var n := |calls| - 1;
      var c := calls[n];
      LastChunk(calls, now);
      BytesStayCapped(calls[..n], window, maxBytes, c.t, lo);
      if c.n > 0 && BytesAllowed(ChunksHeld(calls[..n], window, maxBytes), window, maxBytes, c.t, c.n) {
        BytesRefusedExactlyWhenFull(calls[..n], window, maxBytes, c.t, c.n);
        ChunksHeldAreRecent(calls[..n], window, maxBytes, c.t);
        OneMoreChunk(ChunksAdmitted(calls[..n], window, maxBytes), c, window, maxBytes, lo);
      }
    }
  }

  // ------------------------------------------------------------- one window per IP

  datatype IpWindow = IpWindow(lastSeen: int, stamps: seq<int>)

  /** `order` lists the addresses from least to most recently used. */
  datatype IpSet = IpSet(entries: map<string, IpWindow>, order: seq<string>)

  /** A call reads the clock when it starts, inside the limiter, and when it is done. */
  datatype Call = Call(ip: string, start: int, inside: int, end: int)

  function EvictFront(s: IpSet): IpSet
    requires s.order != []
  {
    IpSet(s.entries - {s.order[0]}, s.order[1..])
  }

  /** At most `n` entries go, and only from the front while it has expired. */
  function Evict(s: IpSet, cutoff: int, n: nat): IpSet
    decreases n
  {
    if n == 0 || s.order == [] || s.order[0] !in s.entries || s.entries[s.order[0]].lastSeen >= cutoff then s
    else Evict(EvictFront(s), cutoff, n - 1)
  }

  function StampsOf(s: IpSet, ip: string): seq<int> {
    if ip in s.entries then s.entries[ip].stamps else []
  }

  function Without(order: seq<string>, ip: string): seq<string>
    decreases |order|
  {
    if order == [] then [] else (if order[0] == ip then [] else [order[0]]) + Without(order[1..], ip)
  }

  function Use(s: IpSet, call: Call, max: int): IpSet {
    IpSet(
      s.entries[call.ip := IpWindow(call.end, Stamped(StampsOf(s, call.ip), MINUTE, max, call.inside))],
      Without(s.order, call.ip) + [call.ip])
  }

  function IpVerdict(s: IpSet, call: Call, max: int): bool {
    Allowed(StampsOf(Evict(s, call.start - MINUTE, EVICTIONS_PER_CALL), call.ip), MINUTE, max, call.inside)
  }

  function IpNext(s: IpSet, call: Call, max: int): IpSet {
    Use(Evict(s, call.start - MINUTE, EVICTIONS_PER_CALL), call, max)
  }

  /** No address twice, and last use never decreases along the list. */
  ghost predicate ListOk(order: seq<string>, entries: map<string, IpWindow>) {
    && (forall ip | ip in order :: ip in entries)
    && (forall i, j | 0 <= i < j < |order| :: order[i] != order[j] && entries[order[i]].lastSeen <= entries[order[j]].lastSeen)
  }

  ghost predicate WindowOk(w: IpWindow, clock: int) {
    w.lastSeen <= clock && Ascending(w.stamps) && UpTo(w.stamps, w.lastSeen)
  }

  /** Every entry is listed once, in order of last use, and saw all its stamps by then. */
  ghost predicate IpValid(s: IpSet, clock: int) {
    && ListOk(s.order, s.entries)
    && (forall ip | ip in s.entries :: ip in s.order)
    && (forall ip | ip in s.entries :: WindowOk(s.entries[ip], clock))
  }

  class IpWindowSet {
    const max: int
    var entries: map<string, IpWindow>
    var order: seq<string>

    ghost function State(): IpSet
      reads this
    {
      IpSet(entries, order)
    }

    constructor (max: int)
      ensures this.max == max && State() == IpSet(map[], [])
    {
      this.max := max;
      entries, order := map[], [];
    }

    /** The bounded clean-up loop. */
    method EvictExpired(cutoff: int, ghost clock: int)
      requires IpValid(State(), clock)
      modifies this
      ensures State() == Evict(old(State()), cutoff, EVICTIONS_PER_CALL)
    {
      hide IpValid;
      var n := 0;
      while n < EVICTIONS_PER_CALL
        invariant 0 <= n <= EVICTIONS_PER_CALL && IpValid(State(), clock)
        invariant Evict(State(), cutoff, EVICTIONS_PER_CALL - n) == Evict(old(State()), cutoff, EVICTIONS_PER_CALL)
      {
        if |order| == 0 {
          break;
        }
        EvictFrontValid(State(), clock);
        var ip := order[0];
        if entries[ip].lastSeen >= cutoff {
          break;
        }
        entries, order := entries - {ip}, order[1..];
        n := n + 1;
      }
    }

    method Allow(call: Call, ghost clock: int) returns (ok: bool)
      requires IpValid(State(), clock) && clock <= call.start <= call.inside <= call.end
      modifies this
      ensures ok == IpVerdict(old(State()), call, max)
      ensures State() == IpNext(old(State()), call, max) && IpValid(State(), call.end)
    {
      hide Evict, Use, IpValid, Stamped, Allowed;
      IpNextValid(State(), call, max, clock);
      EvictExpired(call.start - MINUTE, clock);
      ok := UseWindow(call);
    }

    /** The lookup and the use of one address's own limiter, moved to the back of the list. */
    method UseWindow(call: Call) returns (ok: bool)
      modifies this
      ensures ok == Allowed(StampsOf(old(State()), call.ip), MINUTE, max, call.inside)
      ensures State() == Use(old(State()), call, max)
    {
      hide Stamped, Allowed;
      var limiter := new SlidingEvents(MINUTE, max);
      if call.ip in entries {
        limiter.stamps := entries[call.ip].stamps;
      }
      ok := limiter.Allow(call.inside);
      entries := entries[call.ip := IpWindow(call.end, limiter.stamps)];
      order := Without(order, call.ip) + [call.ip];
    }
  }

  lemma ListTail(order: seq<string>, entries: map<string, IpWindow>)
    requires ListOk(order, entries) && order != []
    ensures order[0] in entries && ListOk(order[1..], entries - {order[0]})
    ensures forall ip | ip in order && ip != order[0] :: ip in order[1..]
  {
    assert order[0] in order;
    var tail := order[1..];
    assert forall i | 0 <= i < |tail| :: tail[i] == order[i + 1];
    forall ip | ip in order && ip != order[0] ensures ip in tail {
      var i :| 0 <= i < |order| && order[i] == ip;
      assert tail[i - 1] == ip;
    }
  }

  lemma EvictFrontValid(s: IpSet, clock: int)
    requires IpValid(s, clock) && s.order != []
    ensures IpValid(EvictFront(s), clock)
    ensures s.order[0] in s.entries
  {
    hide WindowOk, ListOk;
    ListTail(s.order, s.entries);
  }

  lemma {:induction false} WithoutKeeps(order: seq<string>, entries: map<string, IpWindow>, ip: string)
    requires ListOk(order, entries)
    ensures ListOk(Without(order, ip), entries)
    ensures forall x :: x in Without(order, ip) <==> x in order && x != ip
    decreases |order|
  {
    if order != [] {
      var tail := order[1..];
      assert forall i | 0 <= i < |tail| :: tail[i] == order[i + 1];
      WithoutKeeps(tail, entries, ip);
      var rest := Without(tail, ip);
      forall i | 0 <= i < |rest| ensures order[0] != rest[i] && entries[order[0]].lastSeen <= entries[rest[i]].lastSeen {
        assert rest[i] in tail;
        var k :| 0 <= k < |tail| && tail[k] == rest[i];
      }
    }
  }

  lemma StampedOk(stamps: seq<int>, seen: int, max: int, now: int)
    requires Ascending(stamps) && UpTo(stamps, seen) && seen <= now
    ensures Ascending(Stamped(stamps, MINUTE, max, now)) && UpTo(Stamped(stamps, MINUTE, max, now), now)
  {
    hide Trim;
    var k := TrimIsSuffix(stamps, now - MINUTE);
  }

  lemma NoStamps()
    ensures Ascending([]) && forall t :: UpTo([], t)
  {
  }

  lemma UseValid(s: IpSet, call: Call, max: int)
    requires IpValid(s, call.start) && call.start <= call.inside <= call.end
    ensures IpValid(Use(s, call, max), call.end)
  {
    hide Ascending, UpTo, Stamped, ListOk;
    NoStamps();
    var seen := if call.ip in s.entries then s.entries[call.ip].lastSeen else call.start;
    StampedOk(StampsOf(s, call.ip), seen, max, call.inside);
    WithoutKeeps(s.order, s.entries, call.ip);
    LaterStamps(Stamped(StampsOf(s, call.ip), MINUTE, max, call.inside), call.inside, call.end);
    MovedToBack(s, Without(s.order, call.ip), call.ip, Use(s, call, max).entries[call.ip], call.start);
  }

  lemma LaterStamps(stamps: seq<int>, t: int, later: int)
    requires UpTo(stamps, t) && t <= later
    ensures UpTo(stamps, later)
  {
  }

  lemma MovedToBack(s: IpSet, rest: seq<string>, ip: string, w: IpWindow, clock: int)
    requires ListOk(rest, s.entries) && ip !in rest && clock <= w.lastSeen
    requires forall x | x in s.entries :: s.entries[x].lastSeen <= clock
    ensures ListOk(rest + [ip], s.entries[ip := w])
  {
    assert forall i | 0 <= i < |rest| :: rest[i] in rest;
  }

  lemma {:induction false} EvictValid(s: IpSet, cutoff: int, n: nat, clock: int)
    requires IpValid(s, clock)
    ensures IpValid(Evict(s, cutoff, n), clock)
    decreases n
  {
    hide IpValid;
    if n > 0 && s.order != [] {
      EvictFrontValid(s, clock);
      EvictValid(EvictFront(s), cutoff, n - 1, clock);
    }
  }

  lemma ValidLater(s: IpSet, clock: int, later: int)
    requires IpValid(s, clock) && clock <= later
    ensures IpValid(s, later)
  {
    hide ListOk, Ascending, UpTo;
  }

  lemma IpNextValid(s: IpSet, call: Call, max: int, clock: int)
    requires IpValid(s, clock) && clock <= call.start <= call.inside <= call.end
    ensures IpValid(IpNext(s, call, max), call.end)
  {
    hide IpValid, Evict, Use;
    ValidLater(s, clock, call.start);
    EvictValid(s, call.start - MINUTE, EVICTIONS_PER_CALL, call.start);
    UseValid(Evict(s, call.start - MINUTE, EVICTIONS_PER_CALL), call, max);
  }

  // ---------------------------------------------- eviction never changes an answer

  /** The limiter without eviction: one sliding window per address, kept forever. */
  function MapStamps(u: map<string, seq<int>>, ip: string): seq<int> {
    if ip in u then u[ip] else []
  }

  function MapVerdict(u: map<string, seq<int>>, call: Call, max: int): bool {
    Allowed(MapStamps(u, call.ip), MINUTE, max, call.inside)
  }

  function MapNext(u: map<string, seq<int>>, call: Call, max: int): map<string, seq<int>> {
    u[call.ip := Stamped(MapStamps(u, call.ip), MINUTE, max, call.inside)]
  }

  /** Kept windows are the same; a window that is gone held only stamps that have expired. */
  ghost predicate Agree(s: IpSet, u: map<string, seq<int>>, clock: int) {
    && (forall ip | ip in s.entries :: MapStamps(u, ip) == s.entries[ip].stamps)
    && (forall ip | ip !in s.entries :: Expired(MapStamps(u, ip), clock))
  }

  ghost predicate Expired(stamps: seq<int>, clock: int) {
    forall i | 0 <= i < |stamps| :: stamps[i] < clock - MINUTE
  }

  lemma ExpiredTrims(stamps: seq<int>, clock: int, now: int)
    requires Expired(stamps, clock) && clock <= now
    ensures Trim(stamps, now - MINUTE) == []
    decreases |stamps|
  {
    if stamps != [] {
      ExpiredTrims(stamps[1..], clock, now);
    }
  }

  lemma EvictedExpired(s: IpSet, clock: int)
    requires IpValid(s, clock) && s.order != []
    ensures s.order[0] in s.entries
    ensures s.entries[s.order[0]].lastSeen < clock - MINUTE ==> Expired(s.entries[s.order[0]].stamps, clock)
  {
    hide Ascending;
    assert s.order[0] in s.order && WindowOk(s.entries[s.order[0]], clock);
  }

  lemma {:induction false} EvictAgrees(s: IpSet, u: map<string, seq<int>>, n: nat, clock: int)
    requires IpValid(s, clock) && Agree(s, u, clock)
    ensures Agree(Evict(s, clock - MINUTE, n), u, clock)
    decreases n
  {
    hide IpValid, Expired;
    if n > 0 && s.order != [] {
      EvictFrontValid(s, clock);
      EvictedExpired(s, clock);
      if s.entries[s.order[0]].lastSeen < clock - MINUTE {
        EvictAgrees(EvictFront(s), u, n - 1, clock);
      }
    }
  }

  lemma AgreeLater(s: IpSet, u: map<string, seq<int>>, clock: int, later: int)
    requires Agree(s, u, clock) && clock <= later
    ensures Agree(s, u, later)
  {
  }

  lemma UseAgrees(s: IpSet, u: map<string, seq<int>>, call: Call, max: int)
    requires Agree(s, u, call.start) && call.start <= call.inside <= call.end
    ensures Allowed(StampsOf(s, call.ip), MINUTE, max, call.inside) == MapVerdict(u, call, max)
    ensures Agree(Use(s, call, max), MapNext(u, call, max), call.end)
  {
    hide Trim;
    if call.ip !in s.entries {
      ExpiredTrims(MapStamps(u, call.ip), call.start, call.inside);
      EmptyTrims(call.inside - MINUTE);
    }
  }

  /** Each call reads its three clocks in order, after the calls before it. */
  ghost predicate InClockOrder(calls: seq<Call>) {
    && (forall i | 0 <= i < |calls| :: calls[i].start <= calls[i].inside <= calls[i].end)
    && (forall i | 0 < i < |calls| :: calls[i - 1].end <= calls[i].start)
  }

  function IpRun(calls: seq<Call>, max: int): IpSet
    decreases |calls|
  {
    if calls == [] then IpSet(map[], []) else IpNext(IpRun(calls[..|calls| - 1], max), calls[|calls| - 1], max)
  }

  function MapRun(calls: seq<Call>, max: int): map<string, seq<int>>
    decreases |calls|
  {
    if calls == [] then map[] else MapNext(MapRun(calls[..|calls| - 1], max), calls[|calls| - 1], max)
  }

  lemma NextAgrees(s: IpSet, u: map<string, seq<int>>, clock: int, call: Call, max: int)
    requires IpValid(s, clock) && Agree(s, u, clock) && clock <= call.start <= call.inside <= call.end
    ensures IpVerdict(s, call, max) == MapVerdict(u, call, max)
    ensures IpValid(IpNext(s, call, max), call.end)
    ensures Agree(IpNext(s, call, max), MapNext(u, call, max), call.end)
  {
    hide IpValid, Agree, Evict, Use, MapNext, MapVerdict;
    IpNextValid(s, call, max, clock);
    ValidLater(s, clock, call.start);
    AgreeLater(s, u, clock, call.start);
    EvictAgrees(s, u, EVICTIONS_PER_CALL, call.start);
    UseAgrees(Evict(s, call.start - MINUTE, EVICTIONS_PER_CALL), u, call, max);
  }

  lemma NothingUsed()
    ensures forall clock :: IpValid(IpSet(map[], []), clock) && Agree(IpSet(map[], []), map[], clock)
  {
  }

  lemma {:induction false} RunsAgree(calls: seq<Call>, max: int)
    requires InClockOrder(calls) && calls != []
    ensures var clock := calls[|calls| - 1].end;
            IpValid(IpRun(calls, max), clock) && Agree(IpRun(calls, max), MapRun(calls, max), clock)
    ensures var n := |calls| - 1;
            IpVerdict(IpRun(calls[..n], max), calls[n], max) == MapVerdict(MapRun(calls[..n], max), calls[n], max)
    decreases |calls|
  {
    hide IpValid, Agree, IpNext, IpVerdict, MapNext, MapVerdict;
    var n := |calls| - 1;
    var call := calls[n];
    if n == 0 {
      NothingUsed();
      NextAgrees(IpSet(map[], []), map[], call.start, call, max);
    } else {
      RunsAgree(calls[..n], max);
      NextAgrees(IpRun(calls[..n], max), MapRun(calls[..n], max), calls[n - 1].end, call, max);
    }
  }

  /**
   * On every call of every run, the evicting limiter answers as one that never forgets an address; its list
   * stays in order of last use, and what it has dropped had no stamp left in the window.
   */
  lemma EvictionIsInvisible(calls: seq<Call>, max: int, k: nat, ip: string)
    requires InClockOrder(calls) && k < |calls|
    ensures IpVerdict(IpRun(calls[..k], max), calls[k], max) == MapVerdict(MapRun(calls[..k], max), calls[k], max)
    ensures ListOk(IpRun(calls[..k + 1], max).order, IpRun(calls[..k + 1], max).entries)
    ensures ip !in IpRun(calls[..k + 1], max).entries ==> Expired(MapStamps(MapRun(calls[..k + 1], max), ip), calls[k].end)
  {
    hide IpVerdict, MapVerdict, IpRun, MapRun, ListOk, Expired;
    assert calls[..k + 1][..k] == calls[..k];
    RunsAgree(calls[..k + 1], max);
  }
}
