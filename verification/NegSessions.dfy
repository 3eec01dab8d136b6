/**
 * NIP-77 sessions. Each connection maps subscription ids to session objects; every session in a map owns one
 * slot of a counter shared by all connections. Map operations run under the connection's lock; the counter is
 * atomic, so between closing the old session and acquiring a slot other connections may take theirs.
 */
module NegSessions {
  // ------------------------------------------------------------------ one map

  class Counter {
    var n: int

    constructor ()
      ensures n == 0
    {
      n := 0;
    }
  }

  /** `active` says whether the session still owns its reservation. */
  class Session {
    const subId: string
    var active: bool
    var idleCancelled: bool

    constructor (subId: string)
      ensures this.subId == subId && active
    {
      this.subId := subId;
      active, idleCancelled := true, false;
    }
  }

  class SessionMap {
    const counter: Counter
    var byId: map<string, Session>
    var closed: bool

    /** Every session in the map is its own object, filed under its id, and owns a slot. */
    ghost predicate Filed()
      reads this, byId.Values
    {
      forall id | id in byId :: byId[id].active && byId[id].subId == id
    }

    /** After closing, the map stays empty. */
    ghost predicate Valid()
      reads this, byId.Values
    {
      Filed() && (closed ==> byId == map[])
    }

    constructor (counter: Counter)
      ensures Valid() && this.counter == counter && byId == map[] && !closed
    {
      this.counter := counter;
      byId, closed := map[], false;
    }

    /** Cancels the idle timer and gives the slot back, once. */
    method Close(s: Session)
      modifies s, counter
      ensures !s.active
      ensures counter.n == old(counter.n) - (if old(s.active) then 1 else 0)
    {
      s.idleCancelled := true;
      if s.active {
        counter.n := counter.n - 1;
        s.active := false;
      }
    }

    /** Closes the previous session of this id, then takes a slot if one is left. */
    method Reserve(subId: string, max: int) returns (s: Session?)
      requires Valid()
      modifies this`byId, byId.Values, counter
      ensures Valid()
      ensures counter.n - |byId| == old(counter.n - |byId|)
      ensures old(closed) ==> s == null && counter.n == old(counter.n)
      ensures !old(closed) ==> (s != null <==> old(counter.n) - (if subId in old(byId) then 1 else 0) < max)
      ensures !old(closed) ==> byId == if s != null then old(byId)[subId := s] else old(byId) - {subId}
      ensures s != null ==> fresh(s)
    {
      hide Filed;
      if closed {
        return null;
      }
      var replaced := Remove(subId);
      s := Acquire(subId, max);
      if s != null {
        PutBack(old(byId), subId, s);
      }
    }

    /** The compare-and-swap on the shared counter, which fails only when the cap is reached. */
    method Acquire(subId: string, max: int) returns (s: Session?)
      requires Valid() && subId !in byId && !closed
      modifies this`byId, counter
      ensures Valid() && (s != null <==> old(counter.n) < max)
      ensures s == null ==> byId == old(byId) && counter.n == old(counter.n)
      ensures s != null ==> fresh(s) && byId == old(byId)[subId := s]
      ensures counter.n - |byId| == old(counter.n - |byId|)
    {
      if counter.n >= max {
        return null;
      }
      var session := new Session(subId);
      counter.n := counter.n + 1;
      OneMore(byId, subId, session);
      byId := byId[subId := session];
      s := session;
    }

    /** Close one filed session and take it out of the map. */
    method Drop(subId: string)
      requires Filed() && subId in byId
      modifies this`byId, byId[subId], counter
      ensures Filed()
      ensures byId == old(byId) - {subId} && !old(byId[subId]).active
      ensures counter.n == old(counter.n) - 1 && |byId| == |old(byId)| - 1
    {
      var s := byId[subId];
      Close(s);
      OneLess(byId, subId);
      byId := byId - {subId};
    }

    method Remove(subId: string) returns (removed: bool)
      requires Valid()
      modifies this`byId, byId.Values, counter
      ensures Valid() && byId == old(byId) - {subId} && removed == (subId in old(byId))
      ensures counter.n == old(counter.n) - (if subId in old(byId) then 1 else 0)
      ensures counter.n - |byId| == old(counter.n - |byId|)
    {
      removed := subId in byId;
      if removed {
        Drop(subId);
      }
    }

    /** Removes only the very session given, never a newer one under the same id. */
    method RemoveIf(subId: string, s: Session) returns (removed: bool)
      requires Valid()
      modifies this`byId, byId.Values, counter
      ensures Valid() && removed == (subId in old(byId) && old(byId)[subId] == s)
      ensures byId == (if removed then old(byId) - {subId} else old(byId))
      ensures !removed ==> counter.n == old(counter.n) && forall x | x in byId.Values :: x.active
      ensures counter.n - |byId| == old(counter.n - |byId|)
    {
      removed := subId in byId && byId[subId] == s;
      if removed {
        Drop(subId);
      }
    }

    method CloseAll()
      requires Valid()
      modifies this, byId.Values, counter
      ensures Valid() && closed && byId == map[]
      ensures counter.n == old(counter.n - |byId|)
      ensures forall s | s in old(byId.Values) :: !s.active
    {
      closed := true;
      while |byId| > 0
        invariant Filed() && closed && byId.Values <= old(byId.Values)
        invariant counter.n - |byId| == old(counter.n - |byId|)
        invariant forall s | s in old(byId.Values) && s !in byId.Values :: !s.active
        decreases |byId|
      {
        var id :| id in byId;
        OneLess(byId, id);
        Drop(id);
      }
    }
  }

  lemma OneLess(m: map<string, Session>, id: string)
    requires id in m
    ensures |m - {id}| == |m| - 1
    ensures forall s | s in m.Values :: s == m[id] || s in (m - {id}).Values
    ensures (m - {id}).Values <= m.Values
  {
    assert (m - {id}).Keys == m.Keys - {id};
    forall s | s in m.Values && s != m[id] ensures s in (m - {id}).Values {
      var k :| k in m && m[k] == s;
      assert k in m - {id};
    }
  }

  lemma PutBack(m: map<string, Session>, id: string, s: Session)
    ensures (m - {id})[id := s] == m[id := s]
  {
  }

  lemma OneMore(m: map<string, Session>, id: string, s: Session)
    requires id !in m
    ensures |m[id := s]| == |m| + 1
  {
    assert m[id := s].Keys == m.Keys + {id};
  }
}
