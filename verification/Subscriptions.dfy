/**
 * The subscription registry: one entry per connection and subscription id, replaced as a whole.
 * An entry's generation stands for the entry object itself: generations are never reused.
 * Frames are recorded with the outcome of the send, which the caller of each step supplies.
 */
module Subscriptions {
  import opened Nostr
  import opened Wrappers

  const PENDING_LIVE_CAP: nat := 256

  datatype Key = Key(conn: string, sub: string)

  datatype SubEntry = SubEntry(
    generation: nat,
    filters: seq<Filter>,
    snapshotDone: bool,
    pendingLive: seq<Event>,
    initialSent: nat,
    initialDropped: nat,
    broadcastOk: nat,
    broadcastDrop: nat,
    eoseSent: nat)

  datatype Registry = Registry(nextGeneration: nat, subs: map<Key, SubEntry>, senders: set<string>)

  datatype Limits = Limits(maxSubsPerConn: int, maxSubIdLen: int, maxFilters: int)

  datatype AddError = SubIdTooLong | TooManyFilters | TooManySubscriptions

  datatype FrameKind = Snapshot(event: Event) | Eose | Live(event: Event) | Closed

  datatype Frame = Frame(key: Key, generation: nat, kind: FrameKind, sent: bool)

  /** The registry after a locked section and the frames it tried to enqueue. */
  datatype Effect = Effect(reg: Registry, frames: seq<Frame>)

  predicate FiltersMatch(filters: seq<Filter>, ev: Event) {
    exists i | 0 <= i < |filters| :: filters[i].Matches(ev)
  }

  function KeysOf(reg: Registry, conn: string): set<Key> {
    set k | k in reg.subs && k.conn == conn
  }

  function NewEntry(generation: nat, filters: seq<Filter>): SubEntry {
    SubEntry(generation, filters, false, [], 0, 0, 0, 0, 0)
  }

  function AddSub(reg: Registry, limits: Limits, key: Key, filters: seq<Filter>): Result<Registry, AddError> {
    if |key.sub| > limits.maxSubIdLen then Err(SubIdTooLong)
    else if |filters| > limits.maxFilters then Err(TooManyFilters)
    else if key !in reg.subs && |KeysOf(reg, key.conn)| >= limits.maxSubsPerConn then Err(TooManySubscriptions)
    else
      var generation := reg.nextGeneration + 1;
      Ok(Registry(generation, reg.subs[key := NewEntry(generation, filters)], reg.senders))
  }

  function RemoveSub(reg: Registry, key: Key): Registry {
    reg.(subs := reg.subs - {key})
  }

  function Unregister(reg: Registry, conn: string): Registry {
    reg.(subs := reg.subs - KeysOf(reg, conn), senders := reg.senders - {conn})
  }

  /** The generation still owns its subscription id and its connection can be sent to. */
  predicate Current(reg: Registry, key: Key, generation: nat) {
    key in reg.subs && reg.subs[key].generation == generation && key.conn in reg.senders
  }

  function Put(reg: Registry, key: Key, e: SubEntry): Registry {
    reg.(subs := reg.subs[key := e])
  }

  /** The locked section of `Broadcast` for one matched entry. */
  function Deliver(reg: Registry, key: Key, generation: nat, ev: Event, ok: bool): Effect {
    if !Current(reg, key, generation) then
      Effect(reg, [])
    else
      var e := reg.subs[key];
      if e.snapshotDone then
        Effect(
          Put(reg, key, if ok then e.(broadcastOk := e.broadcastOk + 1) else e.(broadcastDrop := e.broadcastDrop + 1)),
          [Frame(key, generation, Live(ev), ok)])
      else if |e.pendingLive| >= PENDING_LIVE_CAP then
        Effect(RemoveSub(reg, key), [Frame(key, generation, Closed, ok)])
      else
        Effect(Put(reg, key, e.(pendingLive := e.pendingLive + [ev])), [])
  }

  function SendSnapshot(reg: Registry, key: Key, generation: nat, ev: Event, ok: bool): Effect {
    if !Current(reg, key, generation) then
      Effect(reg, [])
    else
      var e := reg.subs[key];
      Effect(
        Put(reg, key, if ok then e.(initialSent := e.initialSent + 1) else e.(initialDropped := e.initialDropped + 1)),
        [Frame(key, generation, Snapshot(ev), ok)])
  }

  function Outcome(accepts: seq<bool>, i: nat): bool {
    i < |accepts| && accepts[i]
  }

  function LiveFrames(key: Key, generation: nat, events: seq<Event>, accepts: seq<bool>): seq<Frame> {
    seq(|events|, i requires 0 <= i < |events| => Frame(key, generation, Live(events[i]), Outcome(accepts, i)))
  }

  function CountSent(frames: seq<Frame>): nat
    decreases |frames|
  {
    if frames == [] then 0 else CountSent(frames[..|frames| - 1]) + (if frames[|frames| - 1].sent then 1 else 0)
  }

  /** EOSE and the flush of what was buffered meanwhile happen in one locked section. */
  function Complete(reg: Registry, key: Key, generation: nat, ok: bool, accepts: seq<bool>): Effect {
    if !Current(reg, key, generation) then
      Effect(reg, [])
    else if !ok then
      Effect(reg, [Frame(key, generation, Eose, false)])
    else
      var e := reg.subs[key];
      var flushed := LiveFrames(key, generation, e.pendingLive, accepts);
      CountBound(flushed);
      Effect(
        Put(reg, key, e.(
          eoseSent := e.eoseSent + 1,
          snapshotDone := true,
          pendingLive := [],
          broadcastOk := e.broadcastOk + CountSent(flushed),
          broadcastDrop := e.broadcastDrop + (|flushed| - CountSent(flushed)))),
        [Frame(key, generation, Eose, true)] + flushed)
  }

  lemma CountBound(frames: seq<Frame>)
    ensures CountSent(frames) <= |frames|
    decreases |frames|
  {
    if frames != [] {
      CountBound(frames[..|frames| - 1]);
    }
  }

  function CloseOnQueryError(reg: Registry, key: Key, generation: nat, ok: bool): Effect {
    if !Current(reg, key, generation) then
      Effect(reg, [])
    else
      Effect(RemoveSub(reg, key), [Frame(key, generation, Closed, ok)])
  }

  class SubscriptionManager {
    const limits: Limits
    var nextGeneration: nat
    var subs: map<Key, SubEntry>
    var senders: set<string>
    ghost var outbound: seq<Frame>

    ghost function State(): Registry
      reads this
    {
      Registry(nextGeneration, subs, senders)
    }

    constructor (limits: Limits)
      ensures this.limits == limits && State() == Registry(0, map[], {}) && outbound == []
    {
      this.limits := limits;
      nextGeneration, subs, senders, outbound := 0, map[], {}, [];
    }

    method RegisterSender(conn: string)
      modifies this
      ensures State() == old(State()).(senders := old(senders) + {conn}) && outbound == old(outbound)
    {
      senders := senders + {conn};
    }

    /** Drops the connection's routing and all its subscriptions, and lists the ids it closed. */
    method UnregisterSender(conn: string) returns (closed: set<string>)
      modifies this
      ensures State() == Unregister(old(State()), conn) && outbound == old(outbound)
      ensures closed == set k | k in old(subs) && k.conn == conn :: k.sub
      ensures senders == old(senders) - {conn}
      ensures subs == map k | k in old(subs) && k.conn != conn :: old(subs)[k]
    {
      var mine := set k | k in subs && k.conn == conn;
      assert mine == KeysOf(State(), conn);
      senders := senders - {conn};
      subs := subs - mine;
      closed := {};
      var rest := mine;
      while rest != {}
        invariant rest <= mine
        invariant closed == set k | k in mine - rest :: k.sub
        decreases |rest|
      {
        var k :| k in rest;
        closed := closed + {k.sub};
        rest := rest - {k};
      }
      assert mine - rest == mine;
    }

    method Add(key: Key, filters: seq<Filter>) returns (r: Result<nat, AddError>)
      modifies this
      ensures outbound == old(outbound)
      ensures match AddSub(old(State()), limits, key, filters)
              case Ok(reg) => r == Ok(nextGeneration) && State() == reg
              case Err(error) => r == Err(error) && State() == old(State())
      ensures r == Err(SubIdTooLong) <==> |key.sub| > limits.maxSubIdLen
      ensures r == Err(TooManyFilters) <==> |key.sub| <= limits.maxSubIdLen && |filters| > limits.maxFilters
      ensures r == Err(TooManySubscriptions) <==>
                && |key.sub| <= limits.maxSubIdLen && |filters| <= limits.maxFilters && key !in old(subs)
                && |set k | k in old(subs) && k.conn == key.conn| >= limits.maxSubsPerConn
      ensures r.Ok? ==>
                && r.value > old(nextGeneration) && key in subs && subs[key].generation == r.value && subs[key].filters == filters
                && (forall k | k in old(subs) && k != key :: k in subs && subs[k] == old(subs)[k])
    {
      if |key.sub| > limits.maxSubIdLen {
        return Err(SubIdTooLong);
      }
      if |filters| > limits.maxFilters {
        return Err(TooManyFilters);
      }
      var open := set k | k in subs && k.conn == key.conn;
      assert open == KeysOf(State(), key.conn);
      if key !in subs && |open| >= limits.maxSubsPerConn {
        return Err(TooManySubscriptions);
      }
      nextGeneration := nextGeneration + 1;
      subs := subs[key := NewEntry(nextGeneration, filters)];
      return Ok(nextGeneration);
    }

    method Remove(key: Key)
      modifies this
      ensures State() == RemoveSub(old(State()), key) && outbound == old(outbound)
      ensures subs == map k | k in old(subs) && k != key :: old(subs)[k]
    {
      subs := subs - {key};
    }

    /** The first half of `Broadcast`: collect the matching entries under the read lock. */
    method Match(ev: Event) returns (found: set<(Key, nat)>)
      ensures found == set k | k in subs && k.conn in senders && FiltersMatch(subs[k].filters, ev) :: (k, subs[k].generation)
    {
      found := {};
      var keys := subs.Keys;
      while keys != {}
        invariant keys <= subs.Keys
        invariant found == set k | k in subs.Keys - keys && k.conn in senders && FiltersMatch(subs[k].filters, ev) :: (k, subs[k].generation)
        decreases |keys|
      {
        var k :| k in keys;
        if k.conn in senders && FiltersMatch(subs[k].filters, ev) {
          found := found + {(k, subs[k].generation)};
        }
        keys := keys - {k};
      }
    }

    method DeliverTo(key: Key, generation: nat, ev: Event, ok: bool)
      modifies this
      ensures var effect := Deliver(old(State()), key, generation, ev, ok);
              State() == effect.reg && outbound == old(outbound) + effect.frames
    {
      if key !in subs || subs[key].generation != generation || key.conn !in senders {
        return;
      }
      var e := subs[key];
      if !e.snapshotDone {
        if |e.pendingLive| >= PENDING_LIVE_CAP {
          subs := subs - {key};
          outbound := outbound + [Frame(key, generation, Closed, ok)];
        } else {
          subs := subs[key := e.(pendingLive := e.pendingLive + [ev])];
        }
      } else {
        outbound := outbound + [Frame(key, generation, Live(ev), ok)];
        if ok {
          subs := subs[key := e.(broadcastOk := e.broadcastOk + 1)];
        } else {
          subs := subs[key := e.(broadcastDrop := e.broadcastDrop + 1)];
        }
      }
    }

    /** A context cancelled by the time the section runs sends nothing and leaves the answer as it is. */
    method SendSnapshotEvent(key: Key, generation: nat, ev: Event, cancelled: bool, ok: bool) returns (alive: bool)
      modifies this
      ensures alive == Current(old(State()), key, generation)
      ensures var effect := if cancelled then Effect(old(State()), []) else SendSnapshot(old(State()), key, generation, ev, ok);
              State() == effect.reg && outbound == old(outbound) + effect.frames
    {
      if key !in subs || subs[key].generation != generation || key.conn !in senders {
        return false;
      }
      if cancelled {
        return true;
      }
      var e := subs[key];
      outbound := outbound + [Frame(key, generation, Snapshot(ev), ok)];
      if ok {
        subs := subs[key := e.(initialSent := e.initialSent + 1)];
      } else {
        subs := subs[key := e.(initialDropped := e.initialDropped + 1)];
      }
      return true;
    }

    /** The flush sends the buffered events in order and counts each outcome; a cancelled context stops before EOSE. */
    method CompleteSnapshot(key: Key, generation: nat, cancelled: bool, ok: bool, accepts: seq<bool>)
      modifies this
      ensures var effect := if cancelled then Effect(old(State()), []) else Complete(old(State()), key, generation, ok, accepts);
              State() == effect.reg && outbound == old(outbound) + effect.frames
    {
      if key !in subs || subs[key].generation != generation || key.conn !in senders {
        return;
      }
      if cancelled {
        return;
      }
      outbound := outbound + [Frame(key, generation, Eose, ok)];
      if !ok {
        return;
      }
      var e := subs[key];
      var pending := e.pendingLive;
      e := e.(eoseSent := e.eoseSent + 1, snapshotDone := true, pendingLive := []);
      ghost var flushed := LiveFrames(key, generation, pending, accepts);
      ghost var before := outbound;
      var sent, dropped := 0, 0;
      for i := 0 to |pending|
        invariant outbound == before + flushed[..i]
        invariant sent == CountSent(flushed[..i]) && sent + dropped == i && dropped >= 0
        invariant subs == old(subs) && nextGeneration == old(nextGeneration) && senders == old(senders)
      {
        assert flushed[..i + 1][..i] == flushed[..i];
        outbound := outbound + [Frame(key, generation, Live(pending[i]), Outcome(accepts, i))];
        if Outcome(accepts, i) {
          sent := sent + 1;
        } else {
          dropped := dropped + 1;
        }
      }
      assert flushed[..|pending|] == flushed;
      subs := subs[key := e.(broadcastOk := e.broadcastOk + sent, broadcastDrop := e.broadcastDrop + dropped)];
    }

    method CloseSnapshotOnQueryError(key: Key, generation: nat, ok: bool)
      modifies this
      ensures var effect := CloseOnQueryError(old(State()), key, generation, ok);
              State() == effect.reg && outbound == old(outbound) + effect.frames
    {
      if key !in subs || subs[key].generation != generation || key.conn !in senders {
        return;
      }
      outbound := outbound + [Frame(key, generation, Closed, ok)];
      subs := subs - {key};
    }
  }
}
