/**
 * Adaptive backfill: windows of time are requested one after the other, halved when a fetch comes back full, and a
 * watermark in whole seconds remembers how far the requests got. Times are nanoseconds since 1970.
 */
module Backfill {
  import opened Wrappers

  const SECOND: int := 1_000_000_000
  const MIN_WINDOW: int := SECOND

  /** Go's `Unix`: whole seconds, rounded down. */
  function Unix(t: int): int {
    t / SECOND
  }

  /** A window that was accepted, and the number of the fetch it was accepted after. */
  datatype Window = Window(start: int, next: int, fetch: nat)

  /** An event a relay holds. */
  datatype Held = Held(id: nat, at: int)

  function Since(w: Window): int {
    Unix(w.start)
  }

  function Until(w: Window): int {
    Unix(w.next) - 1
  }

  /**
   * What the relays hold, and what they answer to the k-th fetch: the events each sent, and how many of them were new
   * and imported, or an error or cancellation; and whether writing the state file after it succeeds.
   */
  datatype World = World(
    relays: seq<set<Held>>,
    sent: nat -> seq<set<Held>>,
    imported: nat -> Option<int>,
    saved: nat -> bool,
    fetchLimit: nat)

  function WindowEnd(start: int, end: int, window: int): int {
    if start + window > end then end else start + window
  }

  function Halved(window: int): int {
    if window / 2 < MIN_WINDOW then MIN_WINDOW else window / 2
  }

  predicate Saturated(w: World, k: nat, start: int, next: int) {
    w.imported(k).Some? && w.imported(k).value >= w.fetchLimit && next - start > MIN_WINDOW
  }

  function Raise(watermark: int, next: int): int {
    if Unix(next) <= watermark then watermark else Unix(next)
  }

  /**
   * The windows accepted from `start` on, the k-th fetch being the next. A failed write stops the run, but
   * nothing is written while the watermark stays.
   */
  function Accepted(w: World, k: nat, start: int, end: int, window: int, mark: int): seq<Window>
    requires window > 0
    decreases if start < end then end - start else 0, window
  {
    if start >= end || w.imported(k).None? then []
    else
      var next := WindowEnd(start, end, window);
      if Saturated(w, k, start, next) then Accepted(w, k + 1, start, end, Halved(window), mark)
      else
        [Window(start, next, k)]
        + (if Unix(next) <= mark || w.saved(k) then Accepted(w, k + 1, next, end, window, Raise(mark, next)) else [])
  }

  function Watermark(watermark: int, windows: seq<Window>): int
    decreases |windows|
  {
    if windows == [] then watermark else Watermark(Raise(watermark, windows[0].next), windows[1..])
  }

  /** A configured start later than the persisted watermark wins. */
  function InitialStart(configured: int, syncedUntil: int): int {
    if syncedUntil <= 0 then configured
    else if configured > syncedUntil * SECOND then configured
    else syncedUntil * SECOND
  }

  class RelaySyncer {
    var syncedUntil: int

    constructor (syncedUntil: int)
      ensures this.syncedUntil == syncedUntil
    {
      this.syncedUntil := syncedUntil;
    }

    /** The in-memory watermark moves even when the file cannot be written. */
    method AdvanceState(ts: int, writable: bool) returns (ok: bool)
      modifies this
      ensures syncedUntil == Raise(old(syncedUntil), ts)
      ensures ok == (Unix(ts) <= old(syncedUntil) || writable)
    {
      if Unix(ts) <= syncedUntil {
        return true;
      }
      syncedUntil := Unix(ts);
      return writable;
    }

    /** The loop ends whatever the fetches report: the rest of the span shrinks, or else the window does. */
    method Run(w: World, configured: int, end: int, initialWindow: int) returns (accepted: seq<Window>)
      requires initialWindow > 0
      modifies this
      ensures accepted == Accepted(w, 0, InitialStart(configured, old(syncedUntil)), end, initialWindow, old(syncedUntil))
      ensures syncedUntil == Watermark(old(syncedUntil), accepted)
      ensures accepted != [] ==> accepted[0].start == if old(syncedUntil) <= 0 || configured > old(syncedUntil) * 1_000_000_000
                                                      then configured else old(syncedUntil) * 1_000_000_000
    {
      StartsWhere(w, configured, syncedUntil, end, initialWindow);
      hide Unix, InitialStart, Watermark;
      var start, window, k := InitialStart(configured, syncedUntil), initialWindow, 0;
      accepted := [];
      ghost var all := Accepted(w, 0, start, end, window, syncedUntil);
      assert [] + all == all;
      NoWindows(syncedUntil);
      while start < end
        invariant window > 0
        invariant all == accepted + Accepted(w, k, start, end, window, syncedUntil)
        invariant syncedUntil == Watermark(old(syncedUntil), accepted)
        decreases end - start, window
      {
        var imported := w.imported(k);
        if imported.None? {
          assert accepted + [] == accepted;
          return;
        }
        var next := WindowEnd(start, end, window);
        var full := imported.value >= w.fetchLimit;
        if full && next - start > MIN_WINDOW {
          window := Halved(window);
          k := k + 1;
          continue;
        }
        WatermarkAppend(old(syncedUntil), accepted, Window(start, next, k));
        ghost var mark := syncedUntil;
        var ok := AdvanceState(next, w.saved(k));
        accepted := accepted + [Window(start, next, k)];
        if !ok {
          return;
        }
        Regroup(all, accepted, Window(start, next, k), Accepted(w, k + 1, next, end, window, syncedUntil));
        start, k := next, k + 1;
      }
      assert accepted + [] == accepted;
    }
  }

  lemma Regroup(all: seq<Window>, accepted: seq<Window>, w: Window, rest: seq<Window>)
    requires accepted != [] && all == accepted[..|accepted| - 1] + ([w] + rest) && accepted[|accepted| - 1] == w
    ensures all == accepted + rest
  {
  }

  lemma NoWindows(watermark: int)
    ensures Watermark(watermark, []) == watermark
  {
  }

  lemma {:induction false} WatermarkAppend(watermark: int, windows: seq<Window>, w: Window)
    ensures Watermark(watermark, windows + [w]) == Raise(Watermark(watermark, windows), w.next)
    decreases |windows|
  {
    if windows == [] {
      assert windows + [w] == [w] && [w][1..] == [];
    } else {
      WatermarkAppend(Raise(watermark, windows[0].next), windows[1..], w);
      assert (windows + [w])[1..] == windows[1..] + [w];
    }
  }

  // --------------------------------------------------------------------- coverage

  /** The windows follow one another without gap or overlap. */
  ghost predicate Contiguous(windows: seq<Window>, start: int, end: int) {
    && (forall i | 0 <= i < |windows| :: windows[i].start < windows[i].next <= end)
    && (forall i | 0 <= i < |windows| - 1 :: windows[i].next == windows[i + 1].start)
    && (windows != [] ==> windows[0].start == start)
  }

  lemma {:induction false} AcceptedAreContiguous(w: World, k: nat, start: int, end: int, window: int, mark: int)
    requires window > 0
    ensures Contiguous(Accepted(w, k, start, end, window, mark), start, end)
    decreases if start < end then end - start else 0, window
  {
    hide Unix;
    if start < end && w.imported(k).Some? {
      var next := WindowEnd(start, end, window);
      if Saturated(w, k, start, next) {
        AcceptedAreContiguous(w, k + 1, start, end, Halved(window), mark);
      } else {
        AcceptedAreContiguous(w, k + 1, next, end, window, Raise(mark, next));
      }
    }
  }

  /** The first window starts at the configured start, or at the persisted watermark when that is later. */
  lemma StartsWhere(w: World, configured: int, syncedUntil: int, end: int, window: int)
    requires window > 0
    ensures var windows := Accepted(w, 0, InitialStart(configured, syncedUntil), end, window, syncedUntil);
            windows != [] ==> windows[0].start == if syncedUntil <= 0 || configured > syncedUntil * 1_000_000_000
                                                  then configured else syncedUntil * 1_000_000_000
  {
    hide Accepted;
    AcceptedAreContiguous(w, 0, InitialStart(configured, syncedUntil), end, window, syncedUntil);
  }

  function Reached(windows: seq<Window>, start: int): int {
    if windows == [] then start else windows[|windows| - 1].next
  }

  predicate Requests(w: Window, t: int) {
    Since(w) <= t <= Until(w)
  }

  predicate Requested(windows: seq<Window>, t: int) {
    exists i | 0 <= i < |windows| :: Requests(windows[i], t)
  }

  lemma LaterIsNoEarlier(a: int, b: int)
    requires a <= b
    ensures Unix(a) <= Unix(b)
  {
  }

  lemma LastWindow(windows: seq<Window>, start: int, end: int)
    requires Contiguous(windows, start, end) && windows != []
    ensures Contiguous(windows[..|windows| - 1], start, end)
    ensures Reached(windows[..|windows| - 1], start) == windows[|windows| - 1].start < windows[|windows| - 1].next
  {
    var n := |windows| - 1;
    assert n > 0 ==> windows[n - 1].next == windows[n - 1 + 1].start;
  }

  lemma RequestedGrows(windows: seq<Window>, t: int)
    requires windows != []
    ensures Requested(windows, t) <==> Requested(windows[..|windows| - 1], t) || Requests(windows[|windows| - 1], t)
  {
    hide Requests;
    var n := |windows| - 1;
    if Requested(windows[..n], t) {
      var i :| 0 <= i < n && Requests(windows[..n][i], t);
      assert Requests(windows[i], t);
    }
    if Requested(windows, t) {
      var i :| 0 <= i < |windows| && Requests(windows[i], t);
      assert i < n ==> Requests(windows[..n][i], t);
    }
  }

  lemma {:induction false} WindowsCover(windows: seq<Window>, start: int, end: int, t: int)
    requires Contiguous(windows, start, end)
    ensures Requested(windows, t) <==> Unix(start) <= t < Unix(Reached(windows, start))
    ensures Unix(start) <= Unix(Reached(windows, start))
    decreases |windows|
  {
    hide Unix, Contiguous, Requested;
    if windows == [] {
      NothingRequested(t);
    } else {
      var n := |windows| - 1;
      LastWindow(windows, start, end);
      WindowsCover(windows[..n], start, end, t);
      LaterIsNoEarlier(windows[n].start, windows[n].next);
      RequestedGrows(windows, t);
    }
  }

  lemma NothingRequested(t: int)
    ensures !Requested([], t)
  {
  }

  lemma {:induction false} WindowsApart(windows: seq<Window>, start: int, end: int, i: nat, j: nat)
    requires Contiguous(windows, start, end) && i < j < |windows|
    ensures Until(windows[i]) < Since(windows[j])
    decreases j
  {
    hide Unix;
    if i + 1 < j {
      WindowsApart(windows, start, end, i, j - 1);
      LaterIsNoEarlier(windows[j - 1].start, windows[j - 1].next);
    }
    assert windows[j - 1].next == windows[j - 1 + 1].start;
  }

  /** Every whole second from the start to where the requests got is in exactly one accepted request. */
  lemma EverySecondOnce(w: World, start: int, end: int, window: int, mark: int, t: int)
    requires window > 0
    ensures var windows := Accepted(w, 0, start, end, window, mark);
            && (Requested(windows, t) <==> Unix(start) <= t < Unix(Reached(windows, start)))
            && forall i, j | 0 <= i < j < |windows| :: !(Requests(windows[i], t) && Requests(windows[j], t))
  {
    hide Unix, Contiguous, Requested, Accepted;
    AcceptedAreContiguous(w, 0, start, end, window, mark);
    var windows := Accepted(w, 0, start, end, window, mark);
    WindowsCover(windows, start, end, t);
    forall i, j | 0 <= i < j < |windows| ensures !(Requests(windows[i], t) && Requests(windows[j], t)) {
      WindowsApart(windows, start, end, i, j);
    }
  }

  /** If no fetch and no write fails, the requests reach the end. */
  lemma {:induction false} ReachesTheEnd(w: World, k: nat, start: int, end: int, window: int, mark: int)
    requires window > 0 && start <= end && forall i :: w.imported(i).Some? && w.saved(i)
    ensures Reached(Accepted(w, k, start, end, window, mark), start) == end
    decreases if start < end then end - start else 0, window
  {
    hide Unix;
    if start < end {
      var next := WindowEnd(start, end, window);
      if Saturated(w, k, start, next) {
        ReachesTheEnd(w, k + 1, start, end, Halved(window), mark);
      } else {
        ReachesTheEnd(w, k + 1, next, end, window, Raise(mark, next));
        var rest := Accepted(w, k + 1, next, end, window, Raise(mark, next));
        assert rest != [] ==> ([Window(start, next, k)] + rest)[|rest|] == rest[|rest| - 1];
      }
    }
  }

  // -------------------------------------------------------------------- watermark

  lemma {:induction false} WatermarkIsReached(watermark: int, windows: seq<Window>, start: int, end: int)
    requires Contiguous(windows, start, end)
    ensures Watermark(watermark, windows) >= watermark
    ensures Watermark(watermark, windows) ==
            if windows != [] && Unix(Reached(windows, start)) > watermark then Unix(Reached(windows, start)) else watermark
    decreases |windows|
  {
    hide Unix, Contiguous;
    if windows != [] {
      var n := |windows| - 1;
      assert windows == windows[..n] + [windows[n]];
      WatermarkAppend(watermark, windows[..n], windows[n]);
      LastWindow(windows, start, end);
      WatermarkIsReached(watermark, windows[..n], start, end);
      LaterIsNoEarlier(Reached(windows[..n], start), windows[n].next);
    }
  }

  /** The watermark never goes back, and every second it newly passes from the run's start on was requested. */
  lemma WatermarkIsHonest(w: World, configured: int, syncedUntil: int, end: int, window: int, t: int)
    requires window > 0
    ensures var start := InitialStart(configured, syncedUntil);
            var windows := Accepted(w, 0, start, end, window, syncedUntil);
            && Watermark(syncedUntil, windows) >= syncedUntil
            && (windows != [] ==> Watermark(syncedUntil, windows) >= windows[|windows| - 1].next / 1_000_000_000)
            && (Watermark(syncedUntil, windows) > syncedUntil ==>
                  windows != [] && Watermark(syncedUntil, windows) == windows[|windows| - 1].next / 1_000_000_000)
            && (syncedUntil <= t < Watermark(syncedUntil, windows) && t >= Unix(start) ==> Requested(windows, t))
  {
    hide Unix, Contiguous, Requested, Accepted, Watermark, InitialStart;
    var start := InitialStart(configured, syncedUntil);
    var windows := Accepted(w, 0, start, end, window, syncedUntil);
    AcceptedAreContiguous(w, 0, start, end, window, syncedUntil);
    WatermarkIsReached(syncedUntil, windows, start, end);
    WindowsCover(windows, start, end, t);
    WholeSeconds(Reached(windows, start));
  }

  lemma WholeSeconds(t: int)
    ensures Unix(t) == t / 1_000_000_000
  {
  }

  lemma StartSecond(configured: int, syncedUntil: int)
    requires syncedUntil > 0
    ensures Unix(InitialStart(configured, syncedUntil)) == if Unix(configured) > syncedUntil then Unix(configured) else syncedUntil
  {
  }

  /**
   * When the watermark moves past a persisted one, the seconds in between were all requested exactly when the
   * configured start is not in a later second than that watermark.
   */
  lemma NothingSkippedExactlyWhen(w: World, configured: int, syncedUntil: int, end: int, window: int)
    requires window > 0 && syncedUntil > 0
    requires Watermark(syncedUntil, Accepted(w, 0, InitialStart(configured, syncedUntil), end, window, syncedUntil)) > syncedUntil
    ensures var windows := Accepted(w, 0, InitialStart(configured, syncedUntil), end, window, syncedUntil);
            (forall t | syncedUntil <= t < Watermark(syncedUntil, windows) :: Requested(windows, t)) <==> Unix(configured) <= syncedUntil
  {
    hide Unix, Contiguous, Requested, Accepted, Watermark, InitialStart;
    var start := InitialStart(configured, syncedUntil);
    var windows := Accepted(w, 0, start, end, window, syncedUntil);
    StartSecond(configured, syncedUntil);
    AcceptedAreContiguous(w, 0, start, end, window, syncedUntil);
    WatermarkIsReached(syncedUntil, windows, start, end);
    forall t ensures Requested(windows, t) <==> Unix(start) <= t < Unix(Reached(windows, start)) {
      WindowsCover(windows, start, end, t);
    }
    assert Unix(configured) > syncedUntil ==> !Requested(windows, syncedUntil);
  }

  // ------------------------------------------------------- what the windows missed

  function HeldIn(relay: set<Held>, since: int, until: int): set<Held> {
    set e | e in relay && since <= e.at <= until
  }

  /** Each relay sent what it holds in the requested seconds, or as many of those events as the limit allows. */
  ghost predicate Answers(w: World, window: Window) {
    && |w.sent(window.fetch)| == |w.relays|
    && forall r | 0 <= r < |w.relays| :: AnswersFrom(w, window, r)
  }

  ghost predicate AnswersFrom(w: World, window: Window, r: nat)
    requires r < |w.relays| == |w.sent(window.fetch)|
  {
    var held, sent := HeldIn(w.relays[r], Since(window), Until(window)), w.sent(window.fetch)[r];
    sent <= held && |sent| == if |held| <= w.fetchLimit then |held| else w.fetchLimit
  }

  ghost predicate Answered(w: World, windows: seq<Window>) {
    forall i | 0 <= i < |windows| :: Answers(w, windows[i])
  }

  predicate FitsLimit(w: World, window: Window, r: nat)
    requires r < |w.relays|
  {
    |HeldIn(w.relays[r], Since(window), Until(window))| <= w.fetchLimit
  }

  ghost predicate Sent(w: World, windows: seq<Window>, r: nat, e: Held)
    requires Answered(w, windows) && r < |w.relays|
  {
    exists i | 0 <= i < |windows| :: e in w.sent(windows[i].fetch)[r]
  }

  /** Every event a relay holds in the seconds the run covered was sent by it to an accepted fetch. */
  ghost predicate NothingMissed(w: World, windows: seq<Window>, start: int)
    requires Answered(w, windows)
  {
    forall r, e | 0 <= r < |w.relays| && e in w.relays[r] && Unix(start) <= e.at < Unix(Reached(windows, start)) :: Sent(w, windows, r, e)
  }

  lemma SubsetIsWhole(part: set<Held>, whole: set<Held>)
    requires part <= whole
    ensures |part| <= |whole| && (|part| == |whole| ==> part == whole)
  {
    assert whole == part + (whole - part);
  }

  lemma SomeoneMissing(w: World, window: Window, r: nat) returns (e: Held)
    requires Answers(w, window) && r < |w.relays| && !FitsLimit(w, window, r)
    ensures e in HeldIn(w.relays[r], Since(window), Until(window)) && e !in w.sent(window.fetch)[r]
  {
    var held, sent := HeldIn(w.relays[r], Since(window), Until(window)), w.sent(window.fetch)[r];
    assert AnswersFrom(w, window, r);
    assert sent != held;
    e :| e in held && e !in sent;
  }

  lemma FittingIsSent(w: World, windows: seq<Window>, start: int, end: int, r: nat, e: Held)
    requires Contiguous(windows, start, end) && Answered(w, windows) && r < |w.relays| && e in w.relays[r]
    requires forall i | 0 <= i < |windows| :: FitsLimit(w, windows[i], r)
    requires Unix(start) <= e.at < Unix(Reached(windows, start))
    ensures Sent(w, windows, r, e)
  {
    hide Unix, Contiguous, AnswersFrom;
    WindowsCover(windows, start, end, e.at);
    var i :| 0 <= i < |windows| && Requests(windows[i], e.at);
    assert Answers(w, windows[i]) && FitsLimit(w, windows[i], r);
    SentWhole(w, windows[i], r);
  }

  lemma SentWhole(w: World, window: Window, r: nat)
    requires Answers(w, window) && r < |w.relays| && FitsLimit(w, window, r)
    ensures w.sent(window.fetch)[r] == HeldIn(w.relays[r], Since(window), Until(window))
  {
    assert AnswersFrom(w, window, r);
    SubsetIsWhole(w.sent(window.fetch)[r], HeldIn(w.relays[r], Since(window), Until(window)));
  }

  lemma MissedInOneIsMissed(w: World, windows: seq<Window>, start: int, end: int, i: nat, r: nat)
    requires Contiguous(windows, start, end) && Answered(w, windows)
    requires i < |windows| && r < |w.relays| && !FitsLimit(w, windows[i], r)
    ensures !NothingMissed(w, windows, start)
  {
    hide Unix, Contiguous, Answers;
    assert Answers(w, windows[i]);
    var e := SomeoneMissing(w, windows[i], r);
    WindowsCover(windows, start, end, e.at);
    assert Requests(windows[i], e.at);
    forall j | 0 <= j < |windows| ensures SentWithin(w, windows[j], r) && e !in w.sent(windows[j].fetch)[r] {
      assert Answers(w, windows[j]);
      SentIsRequested(w, windows[j], r);
      if j < i {
        WindowsApart(windows, start, end, j, i);
      } else if i < j {
        WindowsApart(windows, start, end, i, j);
      }
    }
    assert !Sent(w, windows, r, e);
  }

  ghost predicate SentWithin(w: World, window: Window, r: nat)
  {
    r < |w.sent(window.fetch)| && forall e | e in w.sent(window.fetch)[r] :: Requests(window, e.at)
  }

  lemma SentIsRequested(w: World, window: Window, r: nat)
    requires Answers(w, window) && r < |w.relays|
    ensures SentWithin(w, window, r)
  {
    assert AnswersFrom(w, window, r);
  }

  /**
   * The seconds a run covered were fetched whole exactly when no relay holds more than the limit in an accepted window.
   */
  lemma NothingMissedExactlyWhen(w: World, start: int, end: int, window: int, mark: int)
    requires window > 0 && Answered(w, Accepted(w, 0, start, end, window, mark))
    ensures var windows := Accepted(w, 0, start, end, window, mark);
            NothingMissed(w, windows, start) <==> forall i, r | 0 <= i < |windows| && 0 <= r < |w.relays| :: FitsLimit(w, windows[i], r)
  {
    hide Unix, Contiguous, Accepted, Answered, FitsLimit, Sent;
    AcceptedAreContiguous(w, 0, start, end, window, mark);
    var windows := Accepted(w, 0, start, end, window, mark);
    if forall i, r | 0 <= i < |windows| && 0 <= r < |w.relays| :: FitsLimit(w, windows[i], r) {
      forall r, e | 0 <= r < |w.relays| && e in w.relays[r] && Unix(start) <= e.at < Unix(Reached(windows, start))
        ensures Sent(w, windows, r, e)
      {
        FittingIsSent(w, windows, start, end, r, e);
      }
    } else {
      var i, r :| 0 <= i < |windows| && 0 <= r < |w.relays| && !FitsLimit(w, windows[i], r);
      MissedInOneIsMissed(w, windows, start, end, i, r);
    }
  }

  /** An accepted window is a second or less, or imported fewer events than the limit. */
  predicate Unsaturated(w: World, window: Window) {
    w.imported(window.fetch).Some? && (w.imported(window.fetch).value < w.fetchLimit || window.next - window.start <= MIN_WINDOW)
  }

  lemma {:induction false} AcceptedAreUnsaturated(w: World, k: nat, start: int, end: int, window: int, mark: int)
    requires window > 0
    ensures forall x | x in Accepted(w, k, start, end, window, mark) :: Unsaturated(w, x)
    decreases if start < end then end - start else 0, window
  {
    hide Unix;
    if start < end && w.imported(k).Some? {
      var next := WindowEnd(start, end, window);
      if Saturated(w, k, start, next) {
        AcceptedAreUnsaturated(w, k + 1, start, end, Halved(window), mark);
      } else {
        AcceptedAreUnsaturated(w, k + 1, next, end, window, Raise(mark, next));
      }
    }
  }

  /** A fetch that was followed by an accepted one, and not accepted itself, came back full. */
  lemma {:induction false} RetriedWereFull(w: World, k: nat, start: int, end: int, window: int, mark: int, x: Window, j: nat)
    requires window > 0 && x in Accepted(w, k, start, end, window, mark) && k <= j < x.fetch
    requires forall y | y in Accepted(w, k, start, end, window, mark) :: y.fetch != j
    ensures w.imported(j).Some? && w.imported(j).value >= w.fetchLimit
    decreases if start < end then end - start else 0, window
  {
    hide Unix;
    var next := WindowEnd(start, end, window);
    if Saturated(w, k, start, next) {
      if j > k {
        RetriedWereFull(w, k + 1, start, end, Halved(window), mark, x, j);
      }
    } else {
      var first, all := Window(start, next, k), Accepted(w, k, start, end, window, mark);
      assert first in all && x != first;
      var rest := all[1..];
      assert x in rest && forall y | y in rest :: y in all;
      assert Unix(next) <= mark || w.saved(k);
      assert rest == Accepted(w, k + 1, next, end, window, Raise(mark, next));
      RetriedWereFull(w, k + 1, next, end, window, Raise(mark, next), x, j);
    }
  }

  /** Everything the relays sent to the fetch of an accepted window was new. */
  ghost predicate AllNew(w: World, windows: seq<Window>)
    requires Answered(w, windows)
  {
    forall i, r | 0 <= i < |windows| && 0 <= r < |w.relays| ::
      w.imported(windows[i].fetch).Some? ==> |w.sent(windows[i].fetch)[r]| <= w.imported(windows[i].fetch).value
  }

  /** When nothing sent was a duplicate or refused, only more events in one second than the limit can be missed. */
  lemma NewEventsAreNotMissed(w: World, start: int, end: int, window: int, mark: int)
    requires window > 0 && Answered(w, Accepted(w, 0, start, end, window, mark))
    requires AllNew(w, Accepted(w, 0, start, end, window, mark))
    requires forall r, t | 0 <= r < |w.relays| :: |HeldIn(w.relays[r], t, t)| <= w.fetchLimit
    ensures NothingMissed(w, Accepted(w, 0, start, end, window, mark), start)
  {
    hide Accepted, NothingMissed, AnswersFrom, HeldIn;
    var windows := Accepted(w, 0, start, end, window, mark);
    AcceptedAreContiguous(w, 0, start, end, window, mark);
    AcceptedAreUnsaturated(w, 0, start, end, window, mark);
    NothingMissedExactlyWhen(w, start, end, window, mark);
    forall i, r | 0 <= i < |windows| && 0 <= r < |w.relays| ensures FitsLimit(w, windows[i], r) {
      assert windows[i] in windows && Answers(w, windows[i]);
      NewFits(w, windows[i], r);
    }
  }

  lemma NewFits(w: World, window: Window, r: nat)
    requires Answers(w, window) && Unsaturated(w, window) && r < |w.relays|
    requires |w.sent(window.fetch)[r]| <= w.imported(window.fetch).value
    requires forall t :: |HeldIn(w.relays[r], t, t)| <= w.fetchLimit
    ensures FitsLimit(w, window, r)
  {
    assert AnswersFrom(w, window, r);
    if window.next - window.start <= MIN_WINDOW {
      assert Until(window) <= Since(window);
      SubsetIsWhole(HeldIn(w.relays[r], Since(window), Until(window)), HeldIn(w.relays[r], Since(window), Since(window)));
    }
  }

  const EARLY: Held := Held(1, 0)
  const LATE: Held := Held(2, 1)

  /** One relay, two events a second apart, a limit of one: the newest is sent to every fetch that covers it. */
  function RetryWorld(): World {
    World(
      [{EARLY, LATE}],
      k => [if k <= 1 then {LATE} else {}],
      k => Some(if k == 0 then 1 else 0),
      k => true,
      1)
  }

  /**
   * Halving hides truncation: a full window is fetched again at half its span, what it sends is by then a duplicate, so
   * the half is accepted though it was cut off, and the watermark passes an event that was never sent.
   */
  lemma RetryHidesTruncation()
    ensures var w := RetryWorld();
            var windows := Accepted(w, 0, 0, 4 * SECOND, 4 * SECOND, 0);
            && windows == [Window(0, 2 * SECOND, 1), Window(2 * SECOND, 4 * SECOND, 2)]
            && Answered(w, windows)
            && EARLY in w.relays[0] && EARLY.at < Watermark(0, windows)
            && !Sent(w, windows, 0, EARLY) && forall k: nat :: EARLY !in w.sent(k)[0]
  {
    hide Answered;
    var w, end := RetryWorld(), 4 * SECOND;
    var a, b := Window(0, 2 * SECOND, 1), Window(2 * SECOND, end, 2);
    assert Accepted(w, 3, end, end, 2 * SECOND, 4) == [];
    assert Accepted(w, 2, 2 * SECOND, end, 2 * SECOND, 2) == [b];
    assert Accepted(w, 1, 0, end, 2 * SECOND, 0) == [a, b];
    RetryAnswered();
    var windows := [a, b];
    assert Watermark(0, windows) == 4 by {
      NoWindows(4);
      assert [b][1..] == [] && Watermark(2, [b]) == 4;
      assert windows[1..] == [b];
    }
  }

  lemma RetryAnswered()
    ensures Answered(RetryWorld(), [Window(0, 2 * SECOND, 1), Window(2 * SECOND, 4 * SECOND, 2)])
  {
    var w, a, b := RetryWorld(), Window(0, 2 * SECOND, 1), Window(2 * SECOND, 4 * SECOND, 2);
    assert HeldIn(w.relays[0], Since(a), Until(a)) == {EARLY, LATE};
    assert HeldIn(w.relays[0], Since(b), Until(b)) == {};
    assert AnswersFrom(w, a, 0) && AnswersFrom(w, b, 0);
  }
}
