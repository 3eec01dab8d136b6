/**
 * The full-text mirror of the events table: FTS rows by rowid, a map from event id to rowid, triggers that keep
 * both in step with the events, and the schema migrations that build them. A statement that breaks a key fails whole.
 */
module SearchIndex {
  import opened Nostr
  import opened Wrappers

  const SCHEMA_VERSION: int := 8

  datatype FtsRow = FtsRow(eventId: Id, content: string)

  /** `rowids` is event_fts_rowids; `fts` is empty while its table does not exist. */
  datatype Db = Db(
    version: int,
    eventsExist: bool,
    events: map<Id, string>,
    ftsExists: bool,
    fts: map<nat, FtsRow>,
    rowids: map<Id, nat>)

  /** The rowid the engine gives the next FTS row: any that is not in use. */
  predicate FreshRowid(fts: map<nat, FtsRow>, rowid: nat) {
    rowid !in fts
  }

  /** Events and FTS rows with equal content, paired one to one by the rowid map. */
  ghost predicate Agrees(db: Db) {
    && db.rowids.Keys == db.events.Keys
    && (forall id | id in db.rowids :: db.rowids[id] in db.fts && db.fts[db.rowids[id]] == FtsRow(id, db.events[id]))
    && (forall r | r in db.fts :: db.fts[r].eventId in db.rowids && db.rowids[db.fts[r].eventId] == r)
  }

  // --------------------------------------------------------------------- triggers

  /** `INSERT INTO event_fts …; INSERT INTO event_fts_rowids …`, under the primary key and the unique rowid. */
  function Mirror(db: Db, id: Id, content: string, rowid: nat): Option<Db> {
    if id in db.rowids || rowid in db.rowids.Values then None
    else Some(db.(fts := db.fts[rowid := FtsRow(id, content)], rowids := db.rowids[id := rowid]))
  }

  /** Both trigger deletes; an event without a mapping leaves the FTS rows alone. */
  function Unmirror(db: Db, id: Id): Db {
    db.(fts := if id in db.rowids then db.fts - {db.rowids[id]} else db.fts, rowids := db.rowids - {id})
  }

  datatype Op = Insert(id: Id, content: string, rowid: nat) | Update(was: Id, id: Id, content: string, rowid: nat) | Delete(id: Id)

  predicate OpFits(db: Db, op: Op) {
    match op
    case Insert(id, _, rowid) => FreshRowid(db.fts, rowid)
    case Update(was, _, _, rowid) => FreshRowid(Unmirror(db, was).fts, rowid)
    case Delete(_) => true
  }

  /** One row written; the statement fails on a duplicate event id or a broken key in a trigger. */
  function Apply(db: Db, op: Op): Option<Db> {
    match op
    case Insert(id, content, rowid) =>
      if id in db.events then None else Mirror(db.(events := db.events[id := content]), id, content, rowid)
    case Update(was, id, content, rowid) =>
      if was !in db.events || (id != was && id in db.events) then None
      else Mirror(Unmirror(db.(events := (db.events - {was})[id := content]), was), id, content, rowid)
    case Delete(id) => Some(Unmirror(db.(events := db.events - {id}), id))
  }

  function After(db: Db, op: Op): Db {
    match Apply(db, op) case None => db case Some(next) => next
  }

  lemma MirrorAgrees(db: Db, id: Id, content: string, rowid: nat)
    requires Agrees(db.(events := db.events - {id})) && id in db.events && db.events[id] == content && FreshRowid(db.fts, rowid)
    ensures Mirror(db, id, content, rowid).Some? && Agrees(Mirror(db, id, content, rowid).value)
  {
    assert rowid !in db.rowids.Values;
  }

  lemma UnmirrorAgrees(db: Db, id: Id)
    requires Agrees(db)
    ensures Agrees(Unmirror(db.(events := db.events - {id}), id))
  {
  }

  predicate RowWritten(events: map<Id, string>, events': map<Id, string>, op: Op) {
    match op
    case Insert(id, content, _) => events' == events[id := content]
    case Update(was, id, content, _) => events' == (events - {was})[id := content]
    case Delete(id) => events' == events - {id}
  }

  /** In step, exactly the inserts of a new id, updates of a stored one and deletes change the row they name, and stay in step. */
  lemma OpAgrees(db: Db, op: Op)
    requires Agrees(db) && OpFits(db, op)
    ensures Agrees(After(db, op))
    ensures Apply(db, op).Some? <==>
              match op
              case Insert(id, _, _) => id !in db.events
              case Update(was, id, _, _) => was in db.events && (id == was || id !in db.events)
              case Delete(_) => true
    ensures Apply(db, op).Some? ==> RowWritten(db.events, After(db, op).events, op)
    ensures Apply(db, op).None? ==> After(db, op) == db
  {
    hide Agrees, Mirror, Unmirror;
    EventsWritten(db, op);
    match op
    case Insert(id, content, rowid) =>
      if id !in db.events {
        assert db.(events := db.events[id := content]).events - {id} == db.events;
        MirrorAgrees(db.(events := db.events[id := content]), id, content, rowid);
      }
    case Update(was, id, content, rowid) =>
      if was in db.events && (id == was || id !in db.events) {
        UpdateAgrees(db, was, id, content, rowid);
      }
    case Delete(id) => UnmirrorAgrees(db, id);
  }

  lemma EventsWritten(db: Db, op: Op)
    ensures Apply(db, op).Some? ==> RowWritten(db.events, After(db, op).events, op)
  {
  }

  lemma UpdateAgrees(db: Db, was: Id, id: Id, content: string, rowid: nat)
    requires Agrees(db) && was in db.events && (id == was || id !in db.events) && FreshRowid(Unmirror(db, was).fts, rowid)
    ensures Apply(db, Update(was, id, content, rowid)).Some? && Agrees(Apply(db, Update(was, id, content, rowid)).value)
  {
    hide Agrees, Mirror;
    UnmirrorAgrees(db, was);
    var moved := Unmirror(db.(events := (db.events - {was})[id := content]), was);
    assert moved.events - {id} == db.events - {was};
    assert moved.(events := moved.events - {id}) == Unmirror(db.(events := db.events - {was}), was);
    MirrorAgrees(moved, id, content, rowid);
  }

  function Written(db: Db, ops: seq<Op>): Db
    decreases |ops|
  {
    if ops == [] then db else Written(After(db, ops[0]), ops[1..])
  }

  ghost predicate AllFit(db: Db, ops: seq<Op>)
    decreases |ops|
  {
    ops != [] ==> OpFits(db, ops[0]) && AllFit(After(db, ops[0]), ops[1..])
  }

  /** From a database in step, any sequence of writes leaves it in step. */
  lemma {:induction false} WritesAgree(db: Db, ops: seq<Op>)
    requires Agrees(db) && AllFit(db, ops)
    ensures Agrees(Written(db, ops))
    decreases |ops|
  {
    hide Agrees, After;
    if ops != [] {
      OpAgrees(db, ops[0]);
      WritesAgree(After(db, ops[0]), ops[1..]);
    }
  }

  // ------------------------------------------------------------------- migrations

  ghost predicate Injective(assign: Id -> nat) {
    forall a, b :: assign(a) == assign(b) ==> a == b
  }

  /** `INSERT INTO event_fts SELECT id, content FROM events` into an empty table. */
  ghost function Backfilled(events: map<Id, string>, assign: Id -> nat): map<nat, FtsRow>
    requires Injective(assign)
  {
    map id | id in events :: assign(id) := FtsRow(id, events[id])
  }

  /** Version 1 to 2, over an events table: the index is rebuilt, the rowid map emptied and left empty. */
  ghost function MigrateV1(db: Db, assign: Id -> nat): Db
    requires Injective(assign)
  {
    db.(version := 2, ftsExists := true, fts := Backfilled(db.events, assign), rowids := map[])
  }

  /** Versions 2 to 7 change only other tables. */
  function MigrateMiddle(db: Db): Db {
    db.(version := db.version + 1)
  }

  /** `INSERT INTO event_fts_rowids SELECT event_id, rowid FROM event_fts` into an empty table. */
  ghost predicate EachOnce(fts: map<nat, FtsRow>) {
    forall r, q | r in fts && q in fts && fts[r].eventId == fts[q].eventId :: r == q
  }

  ghost function MappedRowids(fts: map<nat, FtsRow>): map<Id, nat>
    requires EachOnce(fts)
  {
    map r | r in fts :: fts[r].eventId := r
  }

  /** The fresh layout creates what is missing and fills nothing in. */
  function MigrateFresh(db: Db): Db {
    db.(version := SCHEMA_VERSION, eventsExist := true, ftsExists := true)
  }

  /** Version 7 to 8: fails, and rolls back, when an event id is in the index twice. */
  ghost function MigrateV7(db: Db, assign: Id -> nat): Option<Db>
    requires Injective(assign)
  {
    if !db.eventsExist then Some(MigrateFresh(db))
    else
      var fts := if db.ftsExists then db.fts else Backfilled(db.events, assign);
      if !EachOnce(fts) then None
      else Some(db.(version := 8, ftsExists := true, fts := fts, rowids := MappedRowids(fts)))
  }

  /** The index holds each event once, with its content, and nothing else. */
  ghost predicate Mirrors(events: map<Id, string>, fts: map<nat, FtsRow>) {
    && EachOnce(fts)
    && (forall r | r in fts :: fts[r].eventId in events && events[fts[r].eventId] == fts[r].content)
    && (forall id | id in events :: exists r | r in fts :: fts[r].eventId == id)
  }

  lemma BackfillMirrors(events: map<Id, string>, assign: Id -> nat)
    requires Injective(assign)
    ensures Mirrors(events, Backfilled(events, assign))
  {
    var fts := Backfilled(events, assign);
    forall id | id in events ensures exists r | r in fts :: fts[r].eventId == id {
      assert assign(id) in fts && fts[assign(id)] == FtsRow(id, events[id]);
    }
  }

  /** Version 7 to 8 establishes agreement exactly when the index mirrors the events, or is missing. */
  lemma V7AgreesExactlyWhen(db: Db, assign: Id -> nat)
    requires Injective(assign) && db.eventsExist
    ensures (MigrateV7(db, assign).Some? && Agrees(MigrateV7(db, assign).value)) <==> !db.ftsExists || Mirrors(db.events, db.fts)
  {
    hide Agrees, MappedRowids, Backfilled, Injective;
    BackfillMirrors(db.events, assign);
    var fts := if db.ftsExists then db.fts else Backfilled(db.events, assign);
    if EachOnce(fts) {
      MappedAgrees(db, fts);
      OtherFieldsAside(db, fts, db.(version := 8, ftsExists := true));
    }
  }

  lemma OtherFieldsAside(db: Db, fts: map<nat, FtsRow>, other: Db)
    requires EachOnce(fts) && other.events == db.events
    ensures Agrees(db.(fts := fts, rowids := MappedRowids(fts))) <==> Agrees(other.(fts := fts, rowids := MappedRowids(fts)))
  {
  }

  lemma MappedAgrees(db: Db, fts: map<nat, FtsRow>)
    requires EachOnce(fts)
    ensures Agrees(db.(fts := fts, rowids := MappedRowids(fts))) <==> Mirrors(db.events, fts)
  {
    var after := db.(fts := fts, rowids := MappedRowids(fts));
    if Mirrors(db.events, fts) {
      forall id ensures id in after.rowids <==> id in db.events {
        if id in db.events {
          var r :| r in fts && fts[r].eventId == id;
        }
      }
    }
    if Agrees(after) {
      forall r | r in fts ensures fts[r].eventId in db.events && db.events[fts[r].eventId] == fts[r].content {
        assert fts[r].eventId in after.rowids.Keys;
      }
      forall id | id in db.events ensures exists r | r in fts :: fts[r].eventId == id {
        assert id in after.rowids.Keys;
      }
    }
  }

  /** The version loop from where a database stands; newer and negative versions are refused. */
  ghost function Migrated(db: Db, assign: Id -> nat): Option<Db>
    requires Injective(assign)
    decreases SCHEMA_VERSION - db.version
  {
    if db.version > SCHEMA_VERSION then None
    else if db.version == SCHEMA_VERSION then Some(db)
    else if db.version == 0 then Some(MigrateFresh(db))
    else if db.version < 0 then None
    else if db.version == 1 && !db.eventsExist then None
    else if db.version == 1 then Migrated(MigrateV1(db, assign), assign)
    else if db.version == 7 then MigrateV7(db, assign)
    else Migrated(MigrateMiddle(db), assign)
  }

  lemma {:induction false} MiddleLeavesIndex(db: Db, assign: Id -> nat)
    requires Injective(assign) && 2 <= db.version <= 7
    ensures Migrated(db, assign) == MigrateV7(db.(version := 7), assign)
    decreases 7 - db.version
  {
    hide MigrateV7;
    if db.version < 7 {
      MiddleLeavesIndex(MigrateMiddle(db), assign);
      assert MigrateMiddle(db).(version := 7) == db.(version := 7);
    } else {
      assert db.(version := 7) == db;
    }
  }

  /** The whole chain from version 1 establishes agreement, whatever an interrupted older run left in the index. */
  lemma ChainFromV1Agrees(db: Db, assign: Id -> nat)
    requires Injective(assign) && db.version == 1 && db.eventsExist
    ensures Migrated(db, assign).Some? && Agrees(Migrated(db, assign).value) && Migrated(db, assign).value.version == 8
    ensures Migrated(db, assign).value.events == db.events
  {
    hide Agrees, Mirrors, Backfilled, EachOnce;
    MiddleLeavesIndex(MigrateV1(db, assign), assign);
    BackfillMirrors(db.events, assign);
    V7AgreesExactlyWhen(MigrateV1(db, assign).(version := 7), assign);
  }

  /** The last migration fails exactly when an event id is in the index twice, and changes no event. */
  lemma V7Fails(db: Db, assign: Id -> nat)
    requires Injective(assign) && db.eventsExist
    ensures MigrateV7(db, assign).None? <==> db.ftsExists && exists r, q | r in db.fts && q in db.fts && r != q :: db.fts[r].eventId == db.fts[q].eventId
    ensures MigrateV7(db, assign).Some? ==> MigrateV7(db, assign).value.events == db.events && MigrateV7(db, assign).value.version == 8
  {
    hide Backfilled, MappedRowids;
    BackfillMirrors(db.events, assign);
  }

  /** Later starting points agree exactly when the index they find mirrors the events, or is missing. */
  lemma ChainFromLaterAgreesExactlyWhen(db: Db, assign: Id -> nat)
    requires Injective(assign) && 2 <= db.version <= 7 && db.eventsExist
    ensures (Migrated(db, assign).Some? && Agrees(Migrated(db, assign).value)) <==> !db.ftsExists || Mirrors(db.events, db.fts)
    ensures Migrated(db, assign).None? <==> db.ftsExists && exists r, q | r in db.fts && q in db.fts && r != q :: db.fts[r].eventId == db.fts[q].eventId
    ensures Migrated(db, assign).Some? ==> Migrated(db, assign).value.events == db.events && Migrated(db, assign).value.version == 8
  {
    hide Agrees, Mirrors, MigrateV7;
    MiddleLeavesIndex(db, assign);
    V7Fails(db.(version := 7), assign);
    V7AgreesExactlyWhen(db.(version := 7), assign);
  }

  /**
   * A version 0 file is given the fresh layout and nothing else, so the index is in step exactly when it was
   * before: in an empty file it is, over events that no index row mirrors it is not.
   */
  lemma FreshAgreesExactlyWhen(db: Db, assign: Id -> nat)
    requires Injective(assign) && db.version == 0
    ensures Migrated(db, assign).Some? && Migrated(db, assign).value.version == SCHEMA_VERSION
    ensures Agrees(Migrated(db, assign).value) <==> Agrees(db)
    ensures db.events == map[] && db.fts == map[] && db.rowids == map[] ==> Agrees(Migrated(db, assign).value)
    ensures db.events != map[] && db.fts == map[] ==> !Agrees(Migrated(db, assign).value)
  {
    var after := MigrateFresh(db);
    assert Migrated(db, assign) == Some(after);
    if db.events != map[] && Agrees(after) {
      var id :| id in db.events;
      assert id in after.rowids.Keys;
    }
  }

  /** Why the map matters: deleting an event that has no mapping leaves its FTS row behind. */
  lemma DeleteWithoutMappingStrands(db: Db, id: Id, r: nat)
    requires id !in db.rowids && r in db.fts && db.fts[r].eventId == id
    ensures id !in After(db, Delete(id)).events && r in After(db, Delete(id)).fts
    ensures !Mirrors(After(db, Delete(id)).events, After(db, Delete(id)).fts)
  {
  }

  // --------------------------------------------------------------- the live tables

  class SearchDb {
    var db: Db

    constructor (db: Db)
      ensures this.db == db
    {
      this.db := db;
    }

    /** A row write and its trigger, rolled back together when a key is broken. */
    method Write(op: Op) returns (ok: bool)
      modifies this
      ensures db == After(old(db), op) && ok == Apply(old(db), op).Some?
    {
      var before := db;
      match op {
        case Insert(id, content, rowid) =>
          if id in db.events {
            return false;
          }
          db := db.(events := db.events[id := content]);
          ok := InsertMirror(id, content, rowid);
        case Update(was, id, content, rowid) =>
          if was !in db.events || (id != was && id in db.events) {
            return false;
          }
          db := db.(events := (db.events - {was})[id := content]);
          db := Unmirror(db, was);
          ok := InsertMirror(id, content, rowid);
        case Delete(id) =>
          db := db.(events := db.events - {id});
          db := Unmirror(db, id);
          ok := true;
      }
      if !ok {
        db := before;
      }
    }

    method InsertMirror(id: Id, content: string, rowid: nat) returns (ok: bool)
      modifies this
      ensures ok == Mirror(old(db), id, content, rowid).Some?
      ensures ok ==> db == Mirror(old(db), id, content, rowid).value
    {
      db := db.(fts := db.fts[rowid := FtsRow(id, content)]);
      if id in db.rowids || rowid in db.rowids.Values {
        return false;
      }
      db := db.(rowids := db.rowids[id := rowid]);
      return true;
    }

    method Backfill(assign: Id -> nat)
      requires Injective(assign)
      modifies this
      ensures db == old(db).(ftsExists := true, fts := Backfilled(old(db).events, assign))
    {
      hide Backfilled, Injective;
      var fts: map<nat, FtsRow> := map[];
      var events := db.events;
      var rest := events.Keys;
      ghost var done: map<Id, string> := map[];
      NothingBackfilled(assign);
      while rest != {}
        invariant rest <= events.Keys && done == events - rest && db == old(db)
        invariant fts == Backfilled(done, assign)
        decreases |rest|
      {
        var id :| id in rest;
        BackfillStep(done, id, events[id], assign);
        rest := rest - {id};
        fts := fts[assign(id) := FtsRow(id, events[id])];
        done := done[id := events[id]];
      }
      assert done == events;
      db := db.(ftsExists := true, fts := fts);
    }

    /** Copies the rowids row by row; a second row for one event id breaks the primary key. */
    method MapRowids() returns (ok: bool)
      modifies this
      ensures ok <==> EachOnce(old(db).fts)
      ensures ok ==> db == old(db).(rowids := MappedRowids(old(db).fts))
    {
      hide EachOnce, MappedRowids;
      var rowids: map<Id, nat> := map[];
      var table := db.fts;
      var rest := table.Keys;
      ghost var done: map<nat, FtsRow> := map[];
      NoneMapped();
      while rest != {}
        invariant done.Keys + rest == table.Keys && done.Keys !! rest && db == old(db)
        invariant forall r | r in done :: done[r] == table[r]
        invariant EachOnce(done) && rowids == MappedRowids(done)
        decreases |rest|
      {
        var r :| r in rest;
        MapStep(done, r, table[r]);
        if table[r].eventId in rowids {
          TwiceInPart(done, r, table);
          return false;
        }
        rest := rest - {r};
        rowids := rowids[table[r].eventId := r];
        done := done[r := table[r]];
      }
      assert done == table;
      db := db.(rowids := rowids);
      return true;
    }

    /** One version at a time until the current one, whatever version the file carries. */
    method RunMigrations(assign: Id -> nat) returns (ok: bool)
      requires Injective(assign)
      modifies this
      ensures ok == Migrated(old(db), assign).Some?
      ensures ok ==> db == Migrated(old(db), assign).value
    {
      hide Injective, Backfilled, EachOnce, MappedRowids;
      while true
        invariant Migrated(db, assign) == Migrated(old(db), assign)
        decreases SCHEMA_VERSION - db.version
      {
        if db.version > SCHEMA_VERSION {
          return false;
        }
        if db.version == SCHEMA_VERSION {
          return true;
        }
        if db.version == 0 {
          db := MigrateFresh(db);
          return true;
        }
        if db.version < 0 {
          return false;
        }
        if db.version == 1 {
          if !db.eventsExist {
            return false;
          }
          Backfill(assign);
          db := db.(version := 2, rowids := map[]);
        } else if db.version == 7 {
          if !db.eventsExist {
            db := MigrateFresh(db);
          } else {
            if !db.ftsExists {
              Backfill(assign);
            }
            ok := MapRowids();
            if !ok {
              return false;
            }
          }
          db := db.(version := 8);
        } else {
          db := MigrateMiddle(db);
        }
      }
    }
  }

  lemma BackfillStep(done: map<Id, string>, id: Id, content: string, assign: Id -> nat)
    requires Injective(assign) && id !in done
    ensures Backfilled(done[id := content], assign) == Backfilled(done, assign)[assign(id) := FtsRow(id, content)]
  {
  }

  lemma NothingBackfilled(assign: Id -> nat)
    requires Injective(assign)
    ensures Backfilled(map[], assign) == map[]
  {
  }

  lemma NoneMapped()
    ensures EachOnce(map[]) && MappedRowids(map[]) == map[]
  {
  }

  lemma MapStep(done: map<nat, FtsRow>, r: nat, row: FtsRow)
    requires EachOnce(done) && r !in done
    ensures row.eventId in MappedRowids(done) <==> !EachOnce(done[r := row])
    ensures EachOnce(done[r := row]) ==> MappedRowids(done[r := row]) == MappedRowids(done)[row.eventId := r]
  {
    MapClash(done, r, row);
    if EachOnce(done[r := row]) {
      MapGrows(done, r, row);
    }
  }

  lemma MapClash(done: map<nat, FtsRow>, r: nat, row: FtsRow)
    requires EachOnce(done) && r !in done
    ensures row.eventId in MappedRowids(done) <==> !EachOnce(done[r := row])
  {
    var after := done[r := row];
    if row.eventId in MappedRowids(done) {
      var q :| q in done && done[q].eventId == row.eventId;
      assert q in after && r in after && after[q].eventId == after[r].eventId;
    }
  }

  lemma Mapping(fts: map<nat, FtsRow>)
    requires EachOnce(fts)
    ensures forall r | r in fts :: fts[r].eventId in MappedRowids(fts) && MappedRowids(fts)[fts[r].eventId] == r
    ensures forall id | id in MappedRowids(fts) :: MappedRowids(fts)[id] in fts && fts[MappedRowids(fts)[id]].eventId == id
  {
  }

  lemma MapGrows(done: map<nat, FtsRow>, r: nat, row: FtsRow)
    requires EachOnce(done) && r !in done && EachOnce(done[r := row])
    ensures MappedRowids(done[r := row]) == MappedRowids(done)[row.eventId := r]
  {
    hide EachOnce, MappedRowids;
    var after := done[r := row];
    Mapping(done);
    Mapping(after);
    var x, y := MappedRowids(after), MappedRowids(done)[row.eventId := r];
    forall id | id in y ensures id in x && x[id] == y[id] {
      var q := y[id];
      assert q in after && after[q].eventId == id;
    }
    forall id | id in x ensures id in y {
      var q := x[id];
      assert q == r || (q in done && done[q].eventId == id);
    }
  }

  lemma TwiceInPart(done: map<nat, FtsRow>, r: nat, fts: map<nat, FtsRow>)
    requires r in fts && !EachOnce(done[r := fts[r]]) && forall q | q in done :: q in fts && done[q] == fts[q]
    ensures !EachOnce(fts)
  {
    var part := done[r := fts[r]];
    var a, b :| a in part && b in part && part[a].eventId == part[b].eventId && a != b;
    assert a in fts && b in fts && fts[a] == part[a] && fts[b] == part[b];
  }
}
