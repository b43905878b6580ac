/**
 * The data store behind `POST /api/laps` (server.js), as values.
 *
 * The users, tracks and cars tables map a unique name to an auto-increment
 * id; the combos table does the same for a (car id, track id) pair. The laps
 * table is filed under an identity key computed from the incoming row by
 * `key`: which columns make up the unique key is the schema's business, so it
 * stays a parameter here.
 *
 * The handler issues its queries one after another on one connection. Query
 * number `q` (counted over the connection's life) fails when
 * `failAt == Some(q)`; a failing statement changes nothing and ends the request.
 */
module LapStore {
  import opened Wrappers
  import opened JsValue
  import opened SessionParser

  // ---------------------------------------------------------------------------
  // Reference tables: users, tracks, cars, combos

  /** A table with a unique natural key and an auto-increment id. */
  datatype Table<N(==)> = Table(ids: map<N, nat>, next: nat)

  function EmptyTable<N(==)>(): Table<N>
  {
    Table(map[], 1)
  }

  /** Ids are below the auto-increment counter and no two names share one. */
  ghost predicate TableValid<N>(t: Table<N>)
  {
    && 1 <= t.next
    && (forall n :: n in t.ids ==> 1 <= t.ids[n] < t.next)
    && (forall a, b :: a in t.ids && b in t.ids && t.ids[a] == t.ids[b] ==> a == b)
  }

  /** Every row of `t1` is still in `t2` with the same id. */
  ghost predicate Extends<N>(t1: Table<N>, t2: Table<N>)
  {
    t1.next <= t2.next && forall n :: n in t1.ids ==> n in t2.ids && t2.ids[n] == t1.ids[n]
  }

  /**
   * Find-or-create: a name that has a row yields its id and leaves the table
   * as it was; a new name gets exactly one new row, with a fresh id.
   */
  function FindOrCreate<N(==)>(t: Table<N>, n: N): (r: (Table<N>, nat))
    ensures n in t.ids ==> r.0 == t && r.1 == t.ids[n]
    ensures n !in t.ids ==> r.1 == t.next && r.0.ids == t.ids[n := r.1] && r.0.next == t.next + 1
    ensures n in r.0.ids && r.0.ids[n] == r.1
  {
    if n in t.ids then (t, t.ids[n])
    else (Table(t.ids[n := t.next], t.next + 1), t.next)
  }

  /**
   * Find-or-create adds at most the one name, keeps every existing row and
   * id, keeps the table valid, and a new row's id is not already in use.
   */
  lemma FindOrCreateGrows<N>(t: Table<N>, n: N)
    ensures FindOrCreate(t, n).0.ids.Keys == t.ids.Keys + {n}
    ensures |FindOrCreate(t, n).0.ids| == |t.ids| + (if n in t.ids then 0 else 1)
    ensures Extends(t, FindOrCreate(t, n).0)
    ensures TableValid(t) ==> TableValid(FindOrCreate(t, n).0)
    ensures TableValid(t) && n !in t.ids ==> FindOrCreate(t, n).1 !in t.ids.Values
  {
  }

  // ---------------------------------------------------------------------------
  // The laps table

  /** The columns the handler writes. `sectors` is kept as the value, not its JSON text. */
  datatype LapRow = LapRow(userId: nat, comboId: nat, lapTime: Option<Value>, valid: Value, sectors: Value)

  datatype LapEntry = LapEntry(id: nat, row: LapRow)

  datatype LapTable<K(==)> = LapTable(rows: map<K, LapEntry>, next: nat)

  function EmptyLapTable<K(==)>(): LapTable<K>
  {
    LapTable(map[], 1)
  }

  /** Ids are below the auto-increment counter and no two rows share one. */
  ghost predicate LapTableValid<K>(t: LapTable<K>)
  {
    && 1 <= t.next
    && (forall k :: k in t.rows ==> 1 <= t.rows[k].id < t.next)
    && (forall a, b :: a in t.rows && b in t.rows && t.rows[a].id == t.rows[b].id ==> a == b)
  }

  /** Every row of `t1` is still there, under the same id (its columns may have been overwritten). */
  ghost predicate LapsExtend<K>(t1: LapTable<K>, t2: LapTable<K>)
  {
    t1.next <= t2.next && forall k :: k in t1.rows ==> k in t2.rows && t2.rows[k].id == t1.rows[k].id
  }

  /**
   * The columns `ON DUPLICATE KEY UPDATE` sets (server.js:78-81): `user_id`,
   * `lap_time`, `valid` and `sectors`. `combo_id` is not among them.
   */
  predicate SameUpdatedColumns(a: LapRow, b: LapRow)
  {
    a.userId == b.userId && a.lapTime == b.lapTime && a.valid == b.valid && a.sectors == b.sectors
  }

  /**
   * `INSERT ... ON DUPLICATE KEY UPDATE user_id, lap_time, valid, sectors`:
   * a new key gets the incoming row under a fresh id; an existing row keeps
   * its id and its `combo_id` and takes the four listed columns from the
   * incoming row (last write wins, nothing merged); every other row is
   * untouched.
   */
  function Upsert<K(==)>(t: LapTable<K>, row: LapRow, key: LapRow -> K): (r: LapTable<K>)
    ensures key(row) in r.rows && SameUpdatedColumns(r.rows[key(row)].row, row)
    ensures key(row) in t.rows ==>
      && r.rows[key(row)].id == t.rows[key(row)].id
      && r.rows[key(row)].row.comboId == t.rows[key(row)].row.comboId
      && r.next == t.next
    ensures key(row) !in t.rows ==> r.rows[key(row)] == LapEntry(t.next, row) && r.next == t.next + 1
    ensures r.rows.Keys == t.rows.Keys + {key(row)}
    ensures forall k :: k in t.rows && k != key(row) ==> r.rows[k] == t.rows[k]
  {
    var k := key(row);
    if k in t.rows then LapTable(t.rows[k := LapEntry(t.rows[k].id, row.(comboId := t.rows[k].row.comboId))], t.next)
    else LapTable(t.rows[k := LapEntry(t.next, row)], t.next + 1)
  }

  /** An upsert keeps every row's id and keeps the table valid. */
  lemma UpsertGrows<K>(t: LapTable<K>, row: LapRow, key: LapRow -> K)
    ensures LapsExtend(t, Upsert(t, row, key))
    ensures LapTableValid(t) ==> LapTableValid(Upsert(t, row, key))
  {
  }

  // ---------------------------------------------------------------------------
  // The whole store and the handler's queries against it

  datatype Db<K(==)> = Db(
    users: Table<Value>,
    tracks: Table<Value>,
    cars: Table<Value>,
    combos: Table<(nat, nat)>,
    laps: LapTable<K>)

  function EmptyDb<K(==)>(): Db<K>
  {
    Db(EmptyTable(), EmptyTable(), EmptyTable(), EmptyTable(), EmptyLapTable())
  }

  ghost predicate DbValid<K>(db: Db<K>)
  {
    TableValid(db.users) && TableValid(db.tracks) && TableValid(db.cars) && TableValid(db.combos)
      && LapTableValid(db.laps)
  }

  /** No row was removed and no id changed from `d1` to `d2`. */
  ghost predicate Grows<K>(d1: Db<K>, d2: Db<K>)
  {
    Extends(d1.users, d2.users) && Extends(d1.tracks, d2.tracks) && Extends(d1.cars, d2.cars)
      && Extends(d1.combos, d2.combos) && LapsExtend(d1.laps, d2.laps)
  }

  /** `d2` has exactly the rows of `d1`: same reference tables, same lap keys and counter. */
  ghost predicate SameRows<K>(d1: Db<K>, d2: Db<K>)
  {
    d1.users == d2.users && d1.tracks == d2.tracks && d1.cars == d2.cars && d1.combos == d2.combos
      && d1.laps.rows.Keys == d2.laps.rows.Keys && d1.laps.next == d2.laps.next
  }

  /** The first failing query falls in `[lo, hi)`. */
  predicate Hits(failAt: Option<nat>, lo: nat, hi: nat)
  {
    failAt.Some? && lo <= failAt.value < hi
  }

  /** How a step of the handler ends: a failed query (how many were issued), or its new state and output. */
  datatype Step<S, T> = Abort(issued: nat) | Next(state: S, out: T, issued: nat)

  /** The queries find-or-create issues: one SELECT, plus one INSERT for a new name. */
  function Cost<N(==)>(t: Table<N>, n: N): nat
  {
    if n in t.ids then 1 else 2
  }

  /**
   * `SELECT id ... WHERE name = ?`, then `INSERT` when nothing was found. It
   * aborts exactly when the failing query is one of those it issues, and
   * otherwise agrees with `FindOrCreate`.
   */
  function FindOrCreateQ<N(==)>(t: Table<N>, n: N, q: nat, failAt: Option<nat>): (r: Step<Table<N>, nat>)
    ensures r.Abort? <==> Hits(failAt, q, q + Cost(t, n))
    ensures r.Next? ==> r == Next(FindOrCreate(t, n).0, FindOrCreate(t, n).1, q + Cost(t, n))
  {
    if failAt == Some(q) then Abort(q + 1)
    else if n !in t.ids && failAt == Some(q + 1) then Abort(q + 2)
    else
      var r := FindOrCreate(t, n);
      Next(r.0, r.1, q + Cost(t, n))
  }

  /** The row the handler writes for one canonical lap. */
  function RowOf(userId: nat, comboId: nat, lap: Lap): LapRow
  {
    LapRow(userId, comboId, lap.time, lap.valid, lap.sectors)
  }

  /** One row per lap, in lap order, all carrying the session's user id and combo id. */
  function Rows(userId: nat, comboId: nat, laps: seq<Lap>): seq<LapRow>
  {
    seq(|laps|, k requires 0 <= k < |laps| => RowOf(userId, comboId, laps[k]))
  }

  /** The identity keys a list of rows is filed under. */
  function KeysOf<K(==)>(rows: seq<LapRow>, key: LapRow -> K): set<K>
  {
    set i | 0 <= i < |rows| :: key(rows[i])
  }

  datatype LapRun<K(==)> = LapRun(table: LapTable<K>, issued: nat, ok: bool)

  /** `for (const lap of laps) await conn.query(INSERT ... ON DUPLICATE KEY UPDATE ...)` */
  function UpsertAll<K(==)>(t: LapTable<K>, rows: seq<LapRow>, q: nat, failAt: Option<nat>, key: LapRow -> K): LapRun<K>
    decreases |rows|
  {
    if rows == [] then LapRun(t, q, true)
    else if failAt == Some(q) then LapRun(t, q + 1, false)
    else UpsertAll(Upsert(t, rows[0], key), rows[1..], q + 1, failAt, key)
  }

  datatype Run<K(==)> = Run(db: Db<K>, issued: nat, ok: bool)

  /** The store and the ids once a session's names and combo are resolved. */
  datatype Resolved<K(==)> = Resolved(db: Db<K>, userId: nat, comboId: nat, issued: nat)

  /**
   * The first part of the handler's loop body for one session: resolve the
   * user, the track, the car, then the (car id, track id) combo, each with a
   * select and, for a new one, an insert. A failed query ends the request
   * with what was written before it left in place.
   */
  function Resolve<K(==)>(db: Db<K>, x: Session, q: nat, failAt: Option<nat>): Result<Resolved<K>, Run<K>>
  {
    var u := FindOrCreateQ(db.users, x.username, q, failAt);
    if u.Abort? then Failure(Run(db, u.issued, false))
    else ResolveTrack(db.(users := u.state), x, u.out, u.issued, failAt)
  }

  function ResolveTrack<K(==)>(db: Db<K>, x: Session, userId: nat, q: nat, failAt: Option<nat>): Result<Resolved<K>, Run<K>>
  {
    var t := FindOrCreateQ(db.tracks, x.track, q, failAt);
    if t.Abort? then Failure(Run(db, t.issued, false))
    else ResolveCar(db.(tracks := t.state), x, userId, t.out, t.issued, failAt)
  }

  function ResolveCar<K(==)>(db: Db<K>, x: Session, userId: nat, trackId: nat, q: nat, failAt: Option<nat>): Result<Resolved<K>, Run<K>>
  {
    var c := FindOrCreateQ(db.cars, x.car, q, failAt);
    if c.Abort? then Failure(Run(db, c.issued, false))
    else ResolveCombo(db.(cars := c.state), userId, (c.out, trackId), c.issued, failAt)
  }

  function ResolveCombo<K(==)>(db: Db<K>, userId: nat, pair: (nat, nat), q: nat, failAt: Option<nat>): Result<Resolved<K>, Run<K>>
  {
    var cb := FindOrCreateQ(db.combos, pair, q, failAt);
    if cb.Abort? then Failure(Run(db, cb.issued, false))
    else Success(Resolved(db.(combos := cb.state), userId, cb.out, cb.issued))
  }

  /**
   * The handler's loop body for one session: resolve the ids, then upsert
   * each lap with the resolved user id and combo id.
   */
  function SessionRun<K(==)>(db: Db<K>, x: Session, q: nat, failAt: Option<nat>, key: LapRow -> K): Run<K>
  {
    match Resolve(db, x, q, failAt)
    case Failure(r) => r
    case Success(rs) =>
      var lr := UpsertAll(rs.db.laps, Rows(rs.userId, rs.comboId, x.laps), rs.issued, failAt, key);
      Run(rs.db.(laps := lr.table), lr.issued, lr.ok)
  }

  /** The handler's loop over the canonical sessions, in order; the first failed query ends it. */
  function IngestRun<K(==)>(db: Db<K>, s: seq<Session>, q: nat, failAt: Option<nat>, key: LapRow -> K): Run<K>
    decreases |s|
  {
    if s == [] then Run(db, q, true)
    else
      var r := SessionRun(db, s[0], q, failAt, key);
      if !r.ok then r else IngestRun(r.db, s[1..], r.issued, failAt, key)
  }

  /** What `POST /api/laps` answers. */
  datatype LapsReply =
    | Success200               // `{ success: true }`
    | InternalError500         // a query failed: the `catch` branch
    | Uncaught(e: ParseError)  // `parseSessions` threw before the `try`

  /** The whole request: normalise the body, then ingest; the store is untouched when parsing throws. */
  function HandleLaps<K(==)>(db: Db<K>, body: Value, q: nat, failAt: Option<nat>, key: LapRow -> K): (Run<K>, LapsReply)
  {
    match NormalizeList(AsList(body))
    case Failure(e) => (Run(db, q, false), Uncaught(e))
    case Success(sessions) =>
      var r := IngestRun(db, sessions, q, failAt, key);
      (r, if r.ok then Success200 else InternalError500)
  }
}
