/**
 * The stateful side of server.js: the pooled connection the `/api/laps`
 * handler issues its queries on, the handler itself, and the watch-folder
 * state behind `/api/set-watch-path` and the file watcher.
 *
 * The database is an in-memory object whose tables are the values of the
 * LapStore module; every `conn.query` is one method call that counts itself
 * in `issued`, and query number `failAt` (if any) throws instead of running.
 */
module Server {
  import opened Wrappers
  import opened JsValue
  import opened SessionParser
  import opened LapStore

  /** The three tables that map a name to an id. */
  datatype NameKind = Users | Tracks | Cars

  function NamesOf<K(==)>(db: Db<K>, kind: NameKind): Table<Value>
  {
    match kind
    case Users => db.users
    case Tracks => db.tracks
    case Cars => db.cars
  }

  function SetNames<K(==)>(db: Db<K>, kind: NameKind, t: Table<Value>): (r: Db<K>)
    ensures NamesOf(r, kind) == t
    ensures forall k :: k != kind ==> NamesOf(r, k) == NamesOf(db, k)
    ensures r.combos == db.combos && r.laps == db.laps
  {
    match kind
    case Users => db.(users := t)
    case Tracks => db.(tracks := t)
    case Cars => db.(cars := t)
  }

  /** A connection to the store; `lapKey` is the laps table's unique key. */
  class Connection<K(==)> {
    var users: Table<Value>
    var tracks: Table<Value>
    var cars: Table<Value>
    var combos: Table<(nat, nat)>
    var laps: LapTable<K>
    var issued: nat
    const failAt: Option<nat>
    const lapKey: LapRow -> K

    function State(): Db<K>
      reads this
    {
      Db(users, tracks, cars, combos, laps)
    }

    constructor (failAt: Option<nat>, lapKey: LapRow -> K)
      ensures State() == EmptyDb() && issued == 0
      ensures this.failAt == failAt && this.lapKey == lapKey
    {
      users, tracks, cars := EmptyTable(), EmptyTable(), EmptyTable();
      combos, laps := EmptyTable(), EmptyLapTable();
      issued := 0;
      this.failAt := failAt;
      this.lapKey := lapKey;
    }

    /** `SELECT id FROM <users|tracks|cars> WHERE <name> = ?` */
    method SelectName(kind: NameKind, name: Value) returns (ok: bool, row: Option<nat>)
      modifies this
      ensures issued == old(issued) + 1 && State() == old(State())
      ensures ok <==> failAt != Some(old(issued))
      ensures ok && name in NamesOf(State(), kind).ids ==> row == Some(NamesOf(State(), kind).ids[name])
      ensures ok && name !in NamesOf(State(), kind).ids ==> row == None
    {
      ok := failAt != Some(issued);
      issued := issued + 1;
      row := None;
      if ok {
        var t := NamesOf(State(), kind);
        if name in t.ids {
          row := Some(t.ids[name]);
        }
      }
    }

    /**
     * `INSERT INTO <users|tracks|cars> (<name>) VALUES (?)`: the new row takes
     * the auto-increment id; a name that already has a row is a duplicate-key
     * error.
     */
    method InsertName(kind: NameKind, name: Value) returns (ok: bool, id: nat)
      modifies this
      ensures issued == old(issued) + 1
      ensures ok <==> failAt != Some(old(issued)) && name !in NamesOf(old(State()), kind).ids
      ensures ok ==> id == NamesOf(old(State()), kind).next
      ensures ok ==> State() == SetNames(old(State()), kind,
        Table(NamesOf(old(State()), kind).ids[name := id], id + 1))
      ensures !ok ==> State() == old(State())
    {
      var t := NamesOf(State(), kind);
      ok := failAt != Some(issued) && name !in t.ids;
      issued := issued + 1;
      id := t.next;
      if ok {
        var t' := Table(t.ids[name := id], id + 1);
        match kind
        case Users => users := t';
        case Tracks => tracks := t';
        case Cars => cars := t';
      }
    }

    /** `SELECT id FROM combos WHERE car_id = ? AND track_id = ?` */
    method SelectCombo(pair: (nat, nat)) returns (ok: bool, row: Option<nat>)
      modifies this
      ensures issued == old(issued) + 1 && State() == old(State())
      ensures ok <==> failAt != Some(old(issued))
      ensures ok && pair in combos.ids ==> row == Some(combos.ids[pair])
      ensures ok && pair !in combos.ids ==> row == None
    {
      ok := failAt != Some(issued);
      issued := issued + 1;
      row := None;
      if ok && pair in combos.ids {
        row := Some(combos.ids[pair]);
      }
    }

    /** `INSERT INTO combos (car_id, track_id) VALUES (?, ?)` */
    method InsertCombo(pair: (nat, nat)) returns (ok: bool, id: nat)
      modifies this
      ensures issued == old(issued) + 1
      ensures ok <==> failAt != Some(old(issued)) && pair !in old(combos).ids
      ensures ok ==> id == old(combos).next
      ensures ok ==> State() == old(State()).(combos := Table(old(combos).ids[pair := id], id + 1))
      ensures !ok ==> State() == old(State())
    {
      ok := failAt != Some(issued) && pair !in combos.ids;
      issued := issued + 1;
      id := combos.next;
      if ok {
        combos := Table(combos.ids[pair := id], id + 1);
      }
    }

    /** `INSERT INTO laps ... ON DUPLICATE KEY UPDATE` the user, time, validity and sectors. */
    method UpsertLap(row: LapRow) returns (ok: bool)
      modifies this
      ensures issued == old(issued) + 1
      ensures ok <==> failAt != Some(old(issued))
      ensures ok ==> State() == old(State()).(laps := Upsert(old(laps), row, lapKey))
      ensures !ok ==> State() == old(State())
    {
      ok := failAt != Some(issued);
      issued := issued + 1;
      if ok {
        laps := Upsert(laps, row, lapKey);
      }
    }
  }

  /**
   * server.js lines 43-47 (and their copies for tracks and cars): select the name's id
   * and, when there is none, insert the name and take the new id.
   */
  method FindOrCreateName<K(==)>(conn: Connection<K>, kind: NameKind, name: Value) returns (ok: bool, id: nat)
    modifies conn
    ensures
      var r := FindOrCreateQ(NamesOf(old(conn.State()), kind), name, old(conn.issued), conn.failAt);
      && ok == r.Next? && conn.issued == r.issued
      && (ok ==> id == r.out && conn.State() == SetNames(old(conn.State()), kind, r.state))
      && (!ok ==> conn.State() == old(conn.State()))
  {
    var row;
    ok, row := conn.SelectName(kind, name);
    id := 0;
    if !ok {
      return;
    }
    if row.Some? {
      id := row.value;
      return;
    }
    ok, id := conn.InsertName(kind, name);
  }

  /** server.js lines 61-71: the same for the (car id, track id) pair. */
  method FindOrCreateCombo<K(==)>(conn: Connection<K>, pair: (nat, nat)) returns (ok: bool, id: nat)
    modifies conn
    ensures
      var r := FindOrCreateQ(old(conn.combos), pair, old(conn.issued), conn.failAt);
      && ok == r.Next? && conn.issued == r.issued
      && (ok ==> id == r.out && conn.State() == old(conn.State()).(combos := r.state))
      && (!ok ==> conn.State() == old(conn.State()))
  {
    var row;
    ok, row := conn.SelectCombo(pair);
    id := 0;
    if !ok {
      return;
    }
    if row.Some? {
      id := row.value;
      return;
    }
    ok, id := conn.InsertCombo(pair);
  }

  /**
   * The body of the `/api/laps` loop for one session: resolve the ids, then
   * upsert every lap with them, one query per lap. `ok` is false when a query
   * threw; the writes made before it stay.
   */
  method UploadSession<K(==)>(conn: Connection<K>, x: Session) returns (ok: bool)
    modifies conn
    ensures
      var r := SessionRun(old(conn.State()), x, old(conn.issued), conn.failAt, conn.lapKey);
      conn.State() == r.db && conn.issued == r.issued && ok == r.ok
  {
    ghost var db0, q0 := conn.State(), conn.issued;
    var userId, trackId, carId, comboId;
    ok, userId := FindOrCreateName(conn, Users, x.username);
    if !ok {
      return;
    }
    assert Resolve(db0, x, q0, conn.failAt) == ResolveTrack(conn.State(), x, userId, conn.issued, conn.failAt);
    ok, trackId := FindOrCreateName(conn, Tracks, x.track);
    if !ok {
      return;
    }
    assert Resolve(db0, x, q0, conn.failAt) == ResolveCar(conn.State(), x, userId, trackId, conn.issued, conn.failAt);
    ok, carId := FindOrCreateName(conn, Cars, x.car);
    if !ok {
      return;
    }
    assert Resolve(db0, x, q0, conn.failAt)
      == ResolveCombo(conn.State(), userId, (carId, trackId), conn.issued, conn.failAt);
    ok, comboId := FindOrCreateCombo(conn, (carId, trackId));
    if !ok {
      return;
    }
    assert Resolve(db0, x, q0, conn.failAt) == Success(Resolved(conn.State(), userId, comboId, conn.issued));

    ok := UpsertLaps(conn, Rows(userId, comboId, x.laps));
  }

  /**
   * The inner loop of `/api/laps`: one upsert per lap row, in order, until a
   * query throws; the rows upserted before it stay.
   */
  method UpsertLaps<K(==)>(conn: Connection<K>, rows: seq<LapRow>) returns (ok: bool)
    modifies conn
    ensures
      var r := UpsertAll(old(conn.laps), rows, old(conn.issued), conn.failAt, conn.lapKey);
      conn.State() == old(conn.State()).(laps := r.table) && conn.issued == r.issued && ok == r.ok
  {
    ghost var db0, q0 := conn.State(), conn.issued;
    ok := true;
    var i := 0;
    while i < |rows|
      invariant 0 <= i <= |rows|
      invariant conn.State() == db0.(laps := conn.laps)
      invariant UpsertAll(db0.laps, rows, q0, conn.failAt, conn.lapKey)
        == UpsertAll(conn.laps, rows[i..], conn.issued, conn.failAt, conn.lapKey)
    {
      assert rows[i..][0] == rows[i] && rows[i..][1..] == rows[i + 1..];
      ok := conn.UpsertLap(rows[i]);
      if !ok {
        return;
      }
      i := i + 1;
    }
    assert rows[i..] == [];
  }

  /**
   * `POST /api/laps`: normalise the body (a throw there escapes the handler
   * before the connection is taken), then upload the sessions in order; the
   * first query that throws ends the loop with a 500 reply.
   */
  method PostLaps<K(==)>(conn: Connection<K>, body: Value) returns (reply: LapsReply)
    modifies conn
    ensures
      var h := HandleLaps(old(conn.State()), body, old(conn.issued), conn.failAt, conn.lapKey);
      conn.State() == h.0.db && conn.issued == h.0.issued && reply == h.1
  {
    ghost var db0, q0 := conn.State(), conn.issued;
    var parsed := ParseSessions(body);
    if parsed.Failure? {
      return Uncaught(parsed.error);
    }
    var sessions := parsed.value;
    var i := 0;
    while i < |sessions|
      invariant 0 <= i <= |sessions|
      invariant IngestRun(db0, sessions, q0, conn.failAt, conn.lapKey)
        == IngestRun(conn.State(), sessions[i..], conn.issued, conn.failAt, conn.lapKey)
    {
      assert sessions[i..][0] == sessions[i] && sessions[i..][1..] == sessions[i + 1..];
      var ok := UploadSession(conn, sessions[i]);
      if !ok {
        return InternalError500;
      }
      i := i + 1;
    }
    assert sessions[i..] == [];
    reply := Success200;
  }

  // ---------------------------------------------------------------------------
  // The watched folder

  /** What `/api/set-watch-path` answers. */
  datatype WatchReply =
    | NowWatching(folder: string)  // `{ success: true, message: ... }`
    | FolderMissing400             // `{ error: 'Folder does not exist' }`: nothing exists at the path
    | BodyUncaught                 // destructuring a `null` body throws

  /**
   * `fs.existsSync` on what the request supplied: a string naming an existing
   * path, a regular file as much as a folder; anything else (absent
   * included) does not exist.
   */
  predicate Exists(pathExists: string -> bool, path: Option<Value>)
  {
    path.Some? && path.value.Str? && pathExists(path.value.s)
  }

  /** The module-level watcher state and the watch path saved in config.json. */
  class WatchService {
    var watchPath: Option<string>
    var watching: Option<string>
    var savedConfig: Option<string>

    /** Start-up, before any request; loading config.json is not part of this model. */
    constructor (saved: Option<string>)
      ensures watchPath == None && watching == None && savedConfig == saved
    {
      watchPath, watching, savedConfig := None, None, saved;
    }

    /**
     * `startWatchingFolder`: a path that does not exist is refused and
     * nothing changes; otherwise the old watcher is closed and the new one
     * watches `folder` (which may name a file).
     */
    method StartWatchingFolder(folder: Option<Value>, pathExists: string -> bool)
      modifies this
      ensures !Exists(pathExists, folder) ==> watching == old(watching)
      ensures Exists(pathExists, folder) ==> watching == Some(folder.value.s)
      ensures watchPath == old(watchPath) && savedConfig == old(savedConfig)
    {
      if !Exists(pathExists, folder) {
        return;
      }
      watching := Some(folder.value.s);
    }

    /**
     * `POST /api/set-watch-path`: a path that does not exist is rejected
     * with 400 and nothing changes; otherwise (a file's path included) the
     * watch path, the watcher and the saved config all become that path.
     */
    method SetWatchPath(body: Value, pathExists: string -> bool) returns (reply: WatchReply)
      modifies this
      ensures body == Null ==> reply == BodyUncaught
      ensures body != Null && !Exists(pathExists, Prop(body, "folderPath")) ==> reply == FolderMissing400
      ensures body != Null && Exists(pathExists, Prop(body, "folderPath")) ==> reply.NowWatching?
      ensures !reply.NowWatching? ==>
        watchPath == old(watchPath) && watching == old(watching) && savedConfig == old(savedConfig)
      ensures reply.NowWatching? ==>
        && body != Null && Exists(pathExists, Prop(body, "folderPath"))
        && reply.folder == Prop(body, "folderPath").value.s
        && watchPath == Some(reply.folder) && watching == Some(reply.folder)
        && savedConfig == Some(reply.folder)
    {
      if body == Null {
        return BodyUncaught;
      }
      var folderPath := Prop(body, "folderPath");
      if !Exists(pathExists, folderPath) {
        return FolderMissing400;
      }
      watchPath := Some(folderPath.value.s);
      StartWatchingFolder(folderPath, pathExists);
      savedConfig := Some(folderPath.value.s);
      reply := NowWatching(folderPath.value.s);
    }
  }

  /** `filePath.endsWith('.json')` */
  predicate IsJsonFile(path: string)
  {
    |path| >= 5 && path[|path| - 5..] == ".json"
  }

  /** A path that passes the filter is some name followed by `.json`. */
  lemma JsonFileHasSuffix(path: string)
    requires IsJsonFile(path)
    ensures path == path[..|path| - 5] + ".json"
  {
  }

  /** Every name followed by `.json` passes the filter. */
  lemma JsonSuffixPasses(stem: string)
    ensures IsJsonFile(stem + ".json")
  {
  }

  /**
   * The body `/api/laps` sees when the watcher injects `parsed`.
   * `fastify.inject` sends `payload || body || null`: a falsy value sends no
   * body, and the route gets `undefined`, which `parseSessions` treats as it
   * treats `null`. A non-empty string goes out as raw text without a JSON
   * content type and never reaches the handler (`None`). Any other value is
   * serialised as JSON and goes through Fastify's JSON body parser, which
   * `parserAccepts` stands for: it refuses a body over the body limit (413)
   * and one carrying `__proto__` or `constructor.prototype` keys (400)
   * before the handler runs (`None`); an accepted body is parsed back
   * unchanged.
   */
  function InjectedBody(parsed: Value, parserAccepts: Value -> bool): (r: Option<Value>)
    ensures !Truthy(Some(parsed)) ==> r == Some(Null)
    ensures r.Some? <==> !Truthy(Some(parsed)) || (!parsed.Str? && parserAccepts(parsed))
    ensures Truthy(Some(parsed)) && r.Some? ==> r.value == parsed
  {
    if !Truthy(Some(parsed)) then Some(Null)
    else if parsed.Str? || !parserAccepts(parsed) then None
    else Some(parsed)
  }

  /**
   * A watched file whose JSON is falsy (`null`, `false`, `0`, `""`) reaches
   * the handler without a body: `parseSessions` throws at the first
   * `session.players` and no query is issued.
   */
  lemma FalsyFilePayloadThrows<K>(db: Db<K>, parsed: Value, parserAccepts: Value -> bool, q: nat, f: Option<nat>, key: LapRow -> K)
    requires !Truthy(Some(parsed))
    ensures InjectedBody(parsed, parserAccepts) == Some(Null)
    ensures HandleLaps(db, Null, q, f, key).1 == Uncaught(NullSession)
    ensures HandleLaps(db, Null, q, f, key).0 == Run(db, q, false)
  {
  }

  /** What the watcher gets back from `fastify.inject`. */
  datatype InjectReply =
    | Handled(reply: LapsReply)  // the `/api/laps` handler ran
    | BodyRejected               // a raw-text, oversized or prototype-poisoning body, refused before the handler runs

  /**
   * The watcher's `add` handler: a file whose path does not end in `.json`
   * is ignored; otherwise its parsed contents are injected into
   * `/api/laps`, encoded and filtered as `InjectedBody` says. `payload` is the file's
   * JSON, or `None` when reading or parsing it threw (the handler catches
   * that and logs it).
   */
  method OnFileAdded<K(==)>(conn: Connection<K>, filePath: string, payload: Option<Value>, parserAccepts: Value -> bool)
    returns (reply: Option<InjectReply>)
    modifies conn
    ensures !IsJsonFile(filePath) || payload.None? ==>
      reply == None && conn.State() == old(conn.State()) && conn.issued == old(conn.issued)
    ensures IsJsonFile(filePath) && payload.Some? && InjectedBody(payload.value, parserAccepts).None? ==>
      reply == Some(BodyRejected) && conn.State() == old(conn.State()) && conn.issued == old(conn.issued)
    ensures IsJsonFile(filePath) && payload.Some? && InjectedBody(payload.value, parserAccepts).Some? ==>
      var h := HandleLaps(old(conn.State()), InjectedBody(payload.value, parserAccepts).value, old(conn.issued), conn.failAt, conn.lapKey);
      reply == Some(Handled(h.1)) && conn.State() == h.0.db && conn.issued == h.0.issued
  {
    if !IsJsonFile(filePath) {
      return None;
    }
    if payload.None? {
      return None;
    }
    var body := InjectedBody(payload.value, parserAccepts);
    if body.None? {
      return Some(BodyRejected);
    }
    var r := PostLaps(conn, body.value);
    reply := Some(Handled(r));
  }
}
