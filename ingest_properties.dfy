/**
 * Properties of the ingestion handler's store model: what a failed query
 * does to a request, that rows are never removed, last-write-wins on the
 * laps table, and that delivering the same batch again adds no rows.
 */
module IngestProperties {
  import opened Wrappers
  import opened JsValue
  import opened SessionParser
  import opened LapStore

  // ---------------------------------------------------------------------------
  // Upserting a list of rows

  /** Upserting each row in turn, with no query failing. */
  function ApplyUpserts<K(==)>(t: LapTable<K>, rows: seq<LapRow>, key: LapRow -> K): LapTable<K>
    decreases |rows|
  {
    if rows == [] then t else ApplyUpserts(Upsert(t, rows[0], key), rows[1..], key)
  }

  /**
   * The lap loop issues one query per row. Without a failure it upserts every
   * row in order; with one, it fails exactly when the failing query is one of
   * its own, and otherwise does what it does without a failure.
   */
  lemma {:induction false} UpsertAllFaults<K>(t: LapTable<K>, rows: seq<LapRow>, q: nat, f: Option<nat>, key: LapRow -> K)
    ensures UpsertAll(t, rows, q, None, key) == LapRun(ApplyUpserts(t, rows, key), q + |rows|, true)
    ensures Hits(f, q, q + |rows|) ==> !UpsertAll(t, rows, q, f, key).ok
    ensures !Hits(f, q, q + |rows|) ==> UpsertAll(t, rows, q, f, key) == UpsertAll(t, rows, q, None, key)
    decreases |rows|
  {
    if rows != [] {
      UpsertAllFaults(Upsert(t, rows[0], key), rows[1..], q + 1, f, key);
    }
  }

  /** Rows whose key no incoming row has are left exactly as they were. */
  lemma {:induction false} ApplyUpsertsUntouched<K>(t: LapTable<K>, rows: seq<LapRow>, key: LapRow -> K, k: K)
    requires k !in KeysOf(rows, key)
    ensures k in ApplyUpserts(t, rows, key).rows <==> k in t.rows
    ensures k in t.rows ==> ApplyUpserts(t, rows, key).rows[k] == t.rows[k]
    decreases |rows|
  {
    if rows != [] {
      assert KeysOf(rows[1..], key) <= KeysOf(rows, key) by {
        forall x | x in KeysOf(rows[1..], key) ensures x in KeysOf(rows, key) {
          var i :| 0 <= i < |rows[1..]| && key(rows[1..][i]) == x;
          assert key(rows[i + 1]) == x;
        }
      }
      assert key(rows[0]) in KeysOf(rows, key);
      ApplyUpsertsUntouched(Upsert(t, rows[0], key), rows[1..], key, k);
    }
  }

  /**
   * Last write wins: the row filed under a key holds the updated columns of
   * the last incoming row with that key.
   */
  lemma {:induction false} ApplyUpsertsLastWins<K>(t: LapTable<K>, rows: seq<LapRow>, key: LapRow -> K, j: nat)
    requires j < |rows|
    requires forall i :: j < i < |rows| ==> key(rows[i]) != key(rows[j])
    ensures key(rows[j]) in ApplyUpserts(t, rows, key).rows
    ensures SameUpdatedColumns(ApplyUpserts(t, rows, key).rows[key(rows[j])].row, rows[j])
    decreases |rows|
  {
    var t1 := Upsert(t, rows[0], key);
    if j == 0 {
      forall i | 0 <= i < |rows[1..]| ensures key(rows[1..][i]) != key(rows[0]) {
        assert rows[1..][i] == rows[i + 1];
      }
      ApplyUpsertsUntouched(t1, rows[1..], key, key(rows[0]));
    } else {
      ApplyUpsertsLastWins(t1, rows[1..], key, j - 1);
    }
  }

  /** A row already stored keeps its id and its `combo_id` whatever is upserted. */
  lemma {:induction false} ApplyUpsertsKeepsStored<K>(t: LapTable<K>, rows: seq<LapRow>, key: LapRow -> K, k: K)
    requires k in t.rows
    ensures k in ApplyUpserts(t, rows, key).rows
    ensures ApplyUpserts(t, rows, key).rows[k].id == t.rows[k].id
    ensures ApplyUpserts(t, rows, key).rows[k].row.comboId == t.rows[k].row.comboId
    decreases |rows|
  {
    if rows != [] {
      ApplyUpsertsKeepsStored(Upsert(t, rows[0], key), rows[1..], key, k);
    }
  }

  /** A key new to the table takes its `combo_id` from the first incoming row with that key. */
  lemma {:induction false} ApplyUpsertsFirstCombo<K>(t: LapTable<K>, rows: seq<LapRow>, key: LapRow -> K, i: nat)
    requires i < |rows| && key(rows[i]) !in t.rows
    requires forall h :: 0 <= h < i ==> key(rows[h]) != key(rows[i])
    ensures key(rows[i]) in ApplyUpserts(t, rows, key).rows
    ensures ApplyUpserts(t, rows, key).rows[key(rows[i])].row.comboId == rows[i].comboId
    decreases |rows|
  {
    var t1 := Upsert(t, rows[0], key);
    if i == 0 {
      ApplyUpsertsKeepsStored(t1, rows[1..], key, key(rows[0]));
    } else {
      ApplyUpsertsFirstCombo(t1, rows[1..], key, i - 1);
    }
  }

  /** Upserting `a + b` is upserting `a`, then `b`. */
  lemma {:induction false} ApplyUpsertsAppend<K>(t: LapTable<K>, a: seq<LapRow>, b: seq<LapRow>, key: LapRow -> K)
    ensures ApplyUpserts(t, a + b, key) == ApplyUpserts(ApplyUpserts(t, a, key), b, key)
    decreases |a|
  {
    if a == [] {
      assert a + b == b;
    } else {
      assert (a + b)[0] == a[0] && (a + b)[1..] == a[1..] + b;
      ApplyUpsertsAppend(Upsert(t, a[0], key), a[1..], b, key);
    }
  }

  /** The last position in `rows` whose key is `k`. */
  lemma {:induction false} LastWriter<K>(rows: seq<LapRow>, key: LapRow -> K, k: K) returns (j: nat)
    requires k in KeysOf(rows, key)
    ensures j < |rows| && key(rows[j]) == k
    ensures forall i :: j < i < |rows| ==> key(rows[i]) != k
    decreases |rows|
  {
    var n := |rows| - 1;
    if key(rows[n]) == k {
      return n;
    }
    assert k in KeysOf(rows[..n], key) by {
      var i :| 0 <= i < |rows| && key(rows[i]) == k;
      assert rows[..n][i] == rows[i];
    }
    j := LastWriter(rows[..n], key, k);
    assert rows[..n][j] == rows[j];
  }

  /**
   * Upserting the same rows twice leaves the table as upserting them once:
   * every key is already there, keeps its id and `combo_id`, and gets the
   * same last-written columns again.
   */
  lemma ApplyUpsertsIdempotent<K>(t: LapTable<K>, rows: seq<LapRow>, key: LapRow -> K)
    ensures ApplyUpserts(ApplyUpserts(t, rows, key), rows, key) == ApplyUpserts(t, rows, key)
  {
    var t1 := ApplyUpserts(t, rows, key);
    var t2 := ApplyUpserts(t1, rows, key);
    ApplyUpsertsKeys(t, rows, key);
    ApplyUpsertsKeys(t1, rows, key);
    forall k | k in t1.rows ensures k in t2.rows && t2.rows[k] == t1.rows[k] {
      if k in KeysOf(rows, key) {
        var j := LastWriter(rows, key, k);
        ApplyUpsertsLastWins(t, rows, key, j);
        ApplyUpsertsLastWins(t1, rows, key, j);
        ApplyUpsertsKeepsStored(t1, rows, key, k);
      } else {
        ApplyUpsertsUntouched(t1, rows, key, k);
      }
    }
    assert t2.rows == t1.rows;
  }

  /**
   * A failure at the lap loop's `j`-th upsert leaves exactly the first `j`
   * upserts applied: nothing written before the failure is undone.
   */
  lemma {:induction false} UpsertAllFailsAt<K>(t: LapTable<K>, rows: seq<LapRow>, q: nat, j: nat, key: LapRow -> K)
    requires j < |rows|
    ensures UpsertAll(t, rows, q, Some(q + j), key) == LapRun(ApplyUpserts(t, rows[..j], key), q + j + 1, false)
    decreases |rows|
  {
    if j == 0 {
      assert rows[..0] == [];
    } else {
      UpsertAllFailsAt(Upsert(t, rows[0], key), rows[1..], q + 1, j - 1, key);
      assert rows[..j][0] == rows[0] && rows[..j][1..] == rows[1..][..j - 1];
    }
  }

  /** The keys after upserting: the old ones plus those of the incoming rows; no id changes. */
  lemma {:induction false} ApplyUpsertsKeys<K>(t: LapTable<K>, rows: seq<LapRow>, key: LapRow -> K)
    ensures ApplyUpserts(t, rows, key).rows.Keys == t.rows.Keys + KeysOf(rows, key)
    ensures LapsExtend(t, ApplyUpserts(t, rows, key))
    ensures KeysOf(rows, key) <= t.rows.Keys ==> ApplyUpserts(t, rows, key).next == t.next
    ensures LapTableValid(t) ==> LapTableValid(ApplyUpserts(t, rows, key))
    decreases |rows|
  {
    if rows != [] {
      var t1 := Upsert(t, rows[0], key);
      UpsertGrows(t, rows[0], key);
      ApplyUpsertsKeys(t1, rows[1..], key);
      assert KeysOf(rows, key) == {key(rows[0])} + KeysOf(rows[1..], key) by {
        forall x | x in KeysOf(rows, key) ensures x in {key(rows[0])} + KeysOf(rows[1..], key) {
          var i :| 0 <= i < |rows| && key(rows[i]) == x;
          if i > 0 {
            assert key(rows[1..][i - 1]) == x;
          }
        }
        forall x | x in KeysOf(rows[1..], key) ensures x in KeysOf(rows, key) {
          var i :| 0 <= i < |rows[1..]| && key(rows[1..][i]) == x;
          assert key(rows[i + 1]) == x;
        }
      }
    } else {
      assert KeysOf(rows, key) == {};
    }
  }

  // ---------------------------------------------------------------------------
  // Failures

  /** The store a lookup phase leaves behind, whether it ended early or not. */
  ghost function ResolvedDb<K>(r: Result<Resolved<K>, Run<K>>): Db<K>
  {
    if r.Success? then r.value.db else r.error.db
  }

  lemma ResolveComboGrows<K>(db: Db<K>, userId: nat, pair: (nat, nat), q: nat, f: Option<nat>)
    ensures ResolveCombo(db, userId, pair, q, f).Failure? ==> !ResolveCombo(db, userId, pair, q, f).error.ok
    ensures Grows(db, ResolvedDb(ResolveCombo(db, userId, pair, q, f)))
    ensures ResolvedDb(ResolveCombo(db, userId, pair, q, f)).laps == db.laps
    ensures DbValid(db) ==> DbValid(ResolvedDb(ResolveCombo(db, userId, pair, q, f)))
  {
    FindOrCreateGrows(db.combos, pair);
  }

  lemma ResolveCarGrows<K>(db: Db<K>, x: Session, userId: nat, trackId: nat, q: nat, f: Option<nat>)
    ensures ResolveCar(db, x, userId, trackId, q, f).Failure? ==> !ResolveCar(db, x, userId, trackId, q, f).error.ok
    ensures Grows(db, ResolvedDb(ResolveCar(db, x, userId, trackId, q, f)))
    ensures ResolvedDb(ResolveCar(db, x, userId, trackId, q, f)).laps == db.laps
    ensures DbValid(db) ==> DbValid(ResolvedDb(ResolveCar(db, x, userId, trackId, q, f)))
  {
    FindOrCreateGrows(db.cars, x.car);
    var s := FindOrCreateQ(db.cars, x.car, q, f);
    if s.Next? {
      ResolveComboGrows(db.(cars := s.state), userId, (s.out, trackId), s.issued, f);
    }
  }

  lemma ResolveTrackGrows<K>(db: Db<K>, x: Session, userId: nat, q: nat, f: Option<nat>)
    ensures ResolveTrack(db, x, userId, q, f).Failure? ==> !ResolveTrack(db, x, userId, q, f).error.ok
    ensures Grows(db, ResolvedDb(ResolveTrack(db, x, userId, q, f)))
    ensures ResolvedDb(ResolveTrack(db, x, userId, q, f)).laps == db.laps
    ensures DbValid(db) ==> DbValid(ResolvedDb(ResolveTrack(db, x, userId, q, f)))
  {
    FindOrCreateGrows(db.tracks, x.track);
    var s := FindOrCreateQ(db.tracks, x.track, q, f);
    if s.Next? {
      ResolveCarGrows(db.(tracks := s.state), x, userId, s.out, s.issued, f);
    }
  }

  /**
   * The lookups, whether they end early or not, leave the laps table alone,
   * only add rows to the other tables, and keep the store valid.
   */
  lemma ResolveGrows<K>(db: Db<K>, x: Session, q: nat, f: Option<nat>)
    ensures Resolve(db, x, q, f).Failure? ==> !Resolve(db, x, q, f).error.ok
    ensures Grows(db, ResolvedDb(Resolve(db, x, q, f)))
    ensures ResolvedDb(Resolve(db, x, q, f)).laps == db.laps
    ensures DbValid(db) ==> DbValid(ResolvedDb(Resolve(db, x, q, f)))
  {
    FindOrCreateGrows(db.users, x.username);
    var s := FindOrCreateQ(db.users, x.username, q, f);
    if s.Next? {
      ResolveTrackGrows(db.(users := s.state), x, s.out, s.issued, f);
    }
  }

  /**
   * Without a failure the lookups find or create the user, track and car,
   * then the combo of the car id and track id. With a failure they end
   * exactly when the failing query is one of theirs, and otherwise do the same.
   */
  lemma ResolveFaults<K>(db: Db<K>, x: Session, q: nat)
    ensures Resolve(db, x, q, None).Success?
    ensures
      var rs := Resolve(db, x, q, None).value;
      var u := FindOrCreate(db.users, x.username);
      var t := FindOrCreate(db.tracks, x.track);
      var c := FindOrCreate(db.cars, x.car);
      var cb := FindOrCreate(db.combos, (c.1, t.1));
      && rs.db == db.(users := u.0, tracks := t.0, cars := c.0, combos := cb.0)
      && rs.userId == u.1 && rs.comboId == cb.1 && q <= rs.issued
  {
  }

  lemma ResolveFaultAgrees<K>(db: Db<K>, x: Session, q: nat, f: Option<nat>)
    requires Resolve(db, x, q, None).Success?
    ensures Hits(f, q, Resolve(db, x, q, None).value.issued) ==> Resolve(db, x, q, f).Failure?
    ensures !Hits(f, q, Resolve(db, x, q, None).value.issued) ==> Resolve(db, x, q, f) == Resolve(db, x, q, None)
  {
  }

  /** One session without a failure: it succeeds and issues queries from `q` on. */
  lemma SessionRunFaultFree<K>(db: Db<K>, x: Session, q: nat, key: LapRow -> K)
    ensures SessionRun(db, x, q, None, key).ok
    ensures q <= SessionRun(db, x, q, None, key).issued
  {
    ResolveFaults(db, x, q);
    var rs := Resolve(db, x, q, None).value;
    UpsertAllFaults(rs.db.laps, Rows(rs.userId, rs.comboId, x.laps), rs.issued, None, key);
  }

  /** One session fails exactly when the failing query is one it issues. */
  lemma SessionRunFaults<K>(db: Db<K>, x: Session, q: nat, f: Option<nat>, key: LapRow -> K)
    ensures Hits(f, q, SessionRun(db, x, q, None, key).issued) ==> !SessionRun(db, x, q, f, key).ok
    ensures !Hits(f, q, SessionRun(db, x, q, None, key).issued) ==>
      SessionRun(db, x, q, f, key) == SessionRun(db, x, q, None, key)
  {
    ResolveFaults(db, x, q);
    ResolveFaultAgrees(db, x, q, f);
    var rs := Resolve(db, x, q, None).value;
    var rows := Rows(rs.userId, rs.comboId, x.laps);
    UpsertAllFaults(rs.db.laps, rows, rs.issued, f, key);
    var free := UpsertAll(rs.db.laps, rows, rs.issued, None, key);
    assert SessionRun(db, x, q, None, key) == Run(rs.db.(laps := free.table), free.issued, true);
    if Hits(f, q, rs.issued) {
      assert !SessionRun(db, x, q, f, key).ok;
    } else {
      assert Resolve(db, x, q, f) == Success(rs);
    }
  }

  /**
   * A request fails exactly when the failing query is one that the request
   * would issue; otherwise it does exactly what it does when nothing fails.
   */
  lemma {:induction false} IngestRunFaults<K>(db: Db<K>, s: seq<Session>, q: nat, f: Option<nat>, key: LapRow -> K)
    ensures IngestRun(db, s, q, None, key).ok
    ensures q <= IngestRun(db, s, q, None, key).issued
    ensures Hits(f, q, IngestRun(db, s, q, None, key).issued) ==> !IngestRun(db, s, q, f, key).ok
    ensures !Hits(f, q, IngestRun(db, s, q, None, key).issued) ==>
      IngestRun(db, s, q, f, key) == IngestRun(db, s, q, None, key)
    decreases |s|
  {
    if s != [] {
      SessionRunFaultFree(db, s[0], q, key);
      SessionRunFaults(db, s[0], q, f, key);
      var r0 := SessionRun(db, s[0], q, None, key);
      IngestRunFaults(r0.db, s[1..], r0.issued, f, key);
    }
  }

  /**
   * Sessions are processed in order and a failure is final: running over
   * `a + b` runs over `a` and, only if that succeeded, over `b` from where
   * `a` left the store. A failure inside `a` therefore leaves the writes made
   * before it in place and runs nothing of `b`.
   */
  lemma {:induction false} IngestRunAppend<K>(db: Db<K>, a: seq<Session>, b: seq<Session>, q: nat, f: Option<nat>, key: LapRow -> K)
    ensures IngestRun(db, a + b, q, f, key) ==
      var ra := IngestRun(db, a, q, f, key);
      if !ra.ok then ra else IngestRun(ra.db, b, ra.issued, f, key)
    decreases |a|
  {
    if a == [] {
      assert a + b == b;
    } else {
      assert (a + b)[0] == a[0] && (a + b)[1..] == a[1..] + b;
      var r0 := SessionRun(db, a[0], q, f, key);
      if r0.ok {
        IngestRunAppend(r0.db, a[1..], b, r0.issued, f, key);
      }
    }
  }

  // ---------------------------------------------------------------------------
  // No row is ever removed

  lemma GrowsTransitive<K>(d1: Db<K>, d2: Db<K>, d3: Db<K>)
    requires Grows(d1, d2) && Grows(d2, d3)
    ensures Grows(d1, d3)
  {
  }

  lemma UpsertAllGrows<K>(t: LapTable<K>, rows: seq<LapRow>, q: nat, f: Option<nat>, key: LapRow -> K)
    ensures LapsExtend(t, UpsertAll(t, rows, q, f, key).table)
    ensures LapTableValid(t) ==> LapTableValid(UpsertAll(t, rows, q, f, key).table)
    decreases |rows|
  {
    if rows != [] && f != Some(q) {
      UpsertGrows(t, rows[0], key);
      UpsertAllGrows(Upsert(t, rows[0], key), rows[1..], q + 1, f, key);
    }
  }

  /** One session, failing or not, only adds rows and keeps the store valid. */
  lemma SessionRunGrows<K>(db: Db<K>, x: Session, q: nat, f: Option<nat>, key: LapRow -> K)
    ensures Grows(db, SessionRun(db, x, q, f, key).db)
    ensures DbValid(db) ==> DbValid(SessionRun(db, x, q, f, key).db)
  {
    ResolveGrows(db, x, q, f);
    if Resolve(db, x, q, f).Success? {
      var rs := Resolve(db, x, q, f).value;
      UpsertAllGrows(rs.db.laps, Rows(rs.userId, rs.comboId, x.laps), rs.issued, f, key);
    }
  }

  /**
   * No rollback and no deletion: whatever happens, including a failure part
   * way through, every row present before the request is still there with
   * its id, and the store stays valid.
   */
  lemma {:induction false} IngestRunGrows<K>(db: Db<K>, s: seq<Session>, q: nat, f: Option<nat>, key: LapRow -> K)
    ensures Grows(db, IngestRun(db, s, q, f, key).db)
    ensures DbValid(db) ==> DbValid(IngestRun(db, s, q, f, key).db)
    decreases |s|
  {
    if s != [] {
      var r0 := SessionRun(db, s[0], q, f, key);
      SessionRunGrows(db, s[0], q, f, key);
      if r0.ok {
        IngestRunGrows(r0.db, s[1..], r0.issued, f, key);
        GrowsTransitive(db, r0.db, IngestRun(r0.db, s[1..], r0.issued, f, key).db);
      }
    }
  }

  /**
   * The sessions completed before a failure stay written: whatever happens
   * later in the batch, the result keeps every row that the first `j`
   * sessions left, under the same ids.
   */
  lemma FailedBatchKeepsEarlierSessions<K>(db: Db<K>, s: seq<Session>, j: nat, q: nat, f: Option<nat>, key: LapRow -> K)
    requires j <= |s|
    requires IngestRun(db, s[..j], q, f, key).ok
    ensures Grows(IngestRun(db, s[..j], q, f, key).db, IngestRun(db, s, q, f, key).db)
  {
    assert s == s[..j] + s[j..];
    IngestRunAppend(db, s[..j], s[j..], q, f, key);
    var rj := IngestRun(db, s[..j], q, f, key);
    IngestRunGrows(rj.db, s[j..], rj.issued, f, key);
  }

  // ---------------------------------------------------------------------------
  // What a failure leaves behind

  /**
   * A failure among a session's lookups leaves the find-or-creates before it
   * done and the rest undone: the store is not rolled back. The failing
   * query is the `p`-th one issued, and the four lookups own the query
   * ranges `[q, q1)`, `[q1, q2)`, `[q2, q3)`, `[q3, q4)`.
   */
  lemma ResolveFailureKeepsEarlierLookups<K>(db: Db<K>, x: Session, q: nat, p: nat)
    ensures
      var u := FindOrCreate(db.users, x.username);
      var t := FindOrCreate(db.tracks, x.track);
      var c := FindOrCreate(db.cars, x.car);
      var q1 := q + Cost(db.users, x.username);
      var q2 := q1 + Cost(db.tracks, x.track);
      var q3 := q2 + Cost(db.cars, x.car);
      var q4 := q3 + Cost(db.combos, (c.1, t.1));
      && Resolve(db, x, q, None).Success? && Resolve(db, x, q, None).value.issued == q4
      && (q <= p < q1 ==> Resolve(db, x, q, Some(p)) == Failure(Run(db, p + 1, false)))
      && (q1 <= p < q2 ==> Resolve(db, x, q, Some(p)) == Failure(Run(db.(users := u.0), p + 1, false)))
      && (q2 <= p < q3 ==> Resolve(db, x, q, Some(p)) == Failure(Run(db.(users := u.0, tracks := t.0), p + 1, false)))
      && (q3 <= p < q4 ==>
            Resolve(db, x, q, Some(p)) == Failure(Run(db.(users := u.0, tracks := t.0, cars := c.0), p + 1, false)))
  {
  }

  /**
   * A failure at the upsert of a session's `j`-th lap leaves its ids resolved
   * and exactly its first `j` laps written.
   */
  lemma SessionRunFailsAtLap<K>(db: Db<K>, x: Session, q: nat, j: nat, key: LapRow -> K)
    requires j < |x.laps|
    ensures Resolve(db, x, q, None).Success?
    ensures
      var rs := Resolve(db, x, q, None).value;
      SessionRun(db, x, q, Some(rs.issued + j), key) ==
        Run(rs.db.(laps := ApplyUpserts(db.laps, Rows(rs.userId, rs.comboId, x.laps)[..j], key)), rs.issued + j + 1, false)
  {
    ResolveFaults(db, x, q);
    var rs := Resolve(db, x, q, None).value;
    ResolveFaultAgrees(db, x, q, Some(rs.issued + j));
    UpsertAllFailsAt(rs.db.laps, Rows(rs.userId, rs.comboId, x.laps), rs.issued, j, key);
  }

  /**
   * A failure inside the `i`-th session leaves the first `i` sessions fully
   * written and that session's own writes up to the failure, as the two
   * lemmas above pin them; no later session runs.
   */
  lemma IngestRunFailsInSession<K>(db: Db<K>, s: seq<Session>, q: nat, i: nat, p: nat, key: LapRow -> K)
    requires i < |s|
    requires
      var ri := IngestRun(db, s[..i], q, None, key);
      ri.issued <= p < SessionRun(ri.db, s[i], ri.issued, None, key).issued
    ensures
      var ri := IngestRun(db, s[..i], q, None, key);
      IngestRun(db, s, q, Some(p), key) == SessionRun(ri.db, s[i], ri.issued, Some(p), key)
  {
    assert s == s[..i] + s[i..];
    var ri := IngestRun(db, s[..i], q, None, key);
    var rest := s[i..];
    IngestRunFaults(db, s[..i], q, Some(p), key);
    assert IngestRun(db, s[..i], q, Some(p), key) == ri;
    IngestRunAppend(db, s[..i], rest, q, Some(p), key);
    SessionRunFaults(ri.db, s[i], ri.issued, Some(p), key);
    var r0 := SessionRun(ri.db, s[i], ri.issued, Some(p), key);
    assert !r0.ok && rest[0] == s[i];
    assert IngestRun(ri.db, rest, ri.issued, Some(p), key) == r0;
  }

  // ---------------------------------------------------------------------------
  // One session, resolved ids, and delivering a batch twice

  /**
   * Without a failure a session resolves its driver, track and car by
   * find-or-create, then the combo of the resolved car id and track id, and
   * upserts one row per lap, in order, carrying the resolved user id and
   * combo id.
   */
  lemma SessionUsesResolvedIds<K>(db: Db<K>, x: Session, q: nat, key: LapRow -> K)
    ensures
      var d := SessionRun(db, x, q, None, key).db;
      && d.users == FindOrCreate(db.users, x.username).0
      && d.tracks == FindOrCreate(db.tracks, x.track).0
      && d.cars == FindOrCreate(db.cars, x.car).0
      && x.username in d.users.ids && x.track in d.tracks.ids && x.car in d.cars.ids
      && d.combos == FindOrCreate(db.combos, (d.cars.ids[x.car], d.tracks.ids[x.track])).0
      && (d.cars.ids[x.car], d.tracks.ids[x.track]) in d.combos.ids
      && d.laps == ApplyUpserts(db.laps,
           Rows(d.users.ids[x.username], d.combos.ids[(d.cars.ids[x.car], d.tracks.ids[x.track])], x.laps), key)
  {
    ResolveFaults(db, x, q);
    var rs := Resolve(db, x, q, None).value;
    UpsertAllFaults(rs.db.laps, Rows(rs.userId, rs.comboId, x.laps), rs.issued, None, key);
  }

  /** The ids the store holds for a session's names and combo. */
  ghost predicate Resolvable<K>(db: Db<K>, x: Session)
  {
    x.username in db.users.ids && x.track in db.tracks.ids && x.car in db.cars.ids
      && (db.cars.ids[x.car], db.tracks.ids[x.track]) in db.combos.ids
  }

  ghost function SessionRows<K>(db: Db<K>, x: Session): seq<LapRow>
    requires Resolvable(db, x)
  {
    Rows(db.users.ids[x.username], db.combos.ids[(db.cars.ids[x.car], db.tracks.ids[x.track])], x.laps)
  }

  /** Everything the session would write is already in the store. */
  ghost predicate SessionCovered<K>(db: Db<K>, x: Session, key: LapRow -> K)
  {
    Resolvable(db, x) && KeysOf(SessionRows(db, x), key) <= db.laps.rows.Keys
  }

  ghost predicate Covers<K>(db: Db<K>, s: seq<Session>, key: LapRow -> K)
  {
    forall i :: 0 <= i < |s| ==> SessionCovered(db, s[i], key)
  }

  lemma CoveredStaysCovered<K>(d1: Db<K>, d2: Db<K>, s: seq<Session>, key: LapRow -> K)
    requires Grows(d1, d2) && Covers(d1, s, key)
    ensures Covers(d2, s, key)
  {
  }

  /** After a session the store covers it; a session it already covered adds no row. */
  lemma SessionRunCovers<K>(db: Db<K>, x: Session, q: nat, key: LapRow -> K)
    ensures SessionCovered(SessionRun(db, x, q, None, key).db, x, key)
    ensures SessionCovered(db, x, key) ==> SameRows(db, SessionRun(db, x, q, None, key).db)
  {
    var d := SessionRun(db, x, q, None, key).db;
    SessionUsesResolvedIds(db, x, q, key);
    var rows := SessionRows(d, x);
    ApplyUpsertsKeys(db.laps, rows, key);
    if SessionCovered(db, x, key) {
      assert SessionRows(db, x) == rows;
    }
  }

  /** After ingesting a batch without failure, the store covers every session of it. */
  lemma {:induction false} IngestRunCovers<K>(db: Db<K>, s: seq<Session>, q: nat, key: LapRow -> K)
    ensures Covers(IngestRun(db, s, q, None, key).db, s, key)
    decreases |s|
  {
    if s != [] {
      SessionRunFaultFree(db, s[0], q, key);
      var r0 := SessionRun(db, s[0], q, None, key);
      var rn := IngestRun(r0.db, s[1..], r0.issued, None, key);
      SessionRunCovers(db, s[0], q, key);
      IngestRunCovers(r0.db, s[1..], r0.issued, key);
      IngestRunGrows(r0.db, s[1..], r0.issued, None, key);
      CoveredStaysCovered(r0.db, rn.db, [s[0]], key);
      forall i | 0 <= i < |s| ensures SessionCovered(rn.db, s[i], key) {
        if i > 0 {
          assert s[i] == s[1..][i - 1];
        }
      }
    }
  }

  /** Ingesting a batch the store already covers adds no row anywhere. */
  lemma {:induction false} CoveredIngestAddsNoRows<K>(db: Db<K>, s: seq<Session>, q: nat, key: LapRow -> K)
    requires Covers(db, s, key)
    ensures SameRows(db, IngestRun(db, s, q, None, key).db)
    decreases |s|
  {
    if s != [] {
      SessionRunFaultFree(db, s[0], q, key);
      var r0 := SessionRun(db, s[0], q, None, key);
      SessionRunCovers(db, s[0], q, key);
      SessionRunGrows(db, s[0], q, None, key);
      CoveredStaysCovered(db, r0.db, s[1..], key) by {
        forall i | 0 <= i < |s[1..]| ensures SessionCovered(db, s[1..][i], key) {
          assert s[1..][i] == s[i + 1];
        }
      }
      CoveredIngestAddsNoRows(r0.db, s[1..], r0.issued, key);
    }
  }

  /** The rows a batch writes, session after session, with the ids `d` holds for its names. */
  ghost function BatchRows<K>(d: Db<K>, s: seq<Session>): seq<LapRow>
    requires forall i :: 0 <= i < |s| ==> Resolvable(d, s[i])
    decreases |s|
  {
    if s == [] then [] else SessionRows(d, s[0]) + BatchRows(d, s[1..])
  }

  /** The batch's rows depend only on the reference tables. */
  lemma {:induction false} BatchRowsSameRefs<K>(d1: Db<K>, d2: Db<K>, s: seq<Session>)
    requires d1.users == d2.users && d1.tracks == d2.tracks && d1.cars == d2.cars && d1.combos == d2.combos
    requires forall i :: 0 <= i < |s| ==> Resolvable(d1, s[i])
    ensures forall i :: 0 <= i < |s| ==> Resolvable(d2, s[i])
    ensures BatchRows(d1, s) == BatchRows(d2, s)
    decreases |s|
  {
    if s != [] {
      BatchRowsSameRefs(d1, d2, s[1..]);
    }
  }

  /**
   * Without a failure the lap table after a batch is the one before it with
   * the batch's rows upserted in order, each carrying the ids the final store
   * holds for its session's names.
   */
  lemma {:induction false} IngestRunLaps<K>(db: Db<K>, s: seq<Session>, q: nat, key: LapRow -> K)
    ensures Covers(IngestRun(db, s, q, None, key).db, s, key)
    ensures
      var fin := IngestRun(db, s, q, None, key).db;
      fin.laps == ApplyUpserts(db.laps, BatchRows(fin, s), key)
    decreases |s|
  {
    IngestRunCovers(db, s, q, key);
    if s != [] {
      SessionRunFaultFree(db, s[0], q, key);
      var r0 := SessionRun(db, s[0], q, None, key);
      var fin := IngestRun(r0.db, s[1..], r0.issued, None, key).db;
      IngestRunLaps(r0.db, s[1..], r0.issued, key);
      SessionRunCovers(db, s[0], q, key);
      SessionUsesResolvedIds(db, s[0], q, key);
      assert r0.db.laps == ApplyUpserts(db.laps, SessionRows(r0.db, s[0]), key);
      IngestRunGrows(r0.db, s[1..], r0.issued, None, key);
      assert SessionRows(r0.db, s[0]) == SessionRows(fin, s[0]);
      ApplyUpsertsAppend(db.laps, SessionRows(fin, s[0]), BatchRows(fin, s[1..]), key);
    }
  }

  /**
   * Delivering the same batch a second time changes nothing: every name and
   * pair is found, every lap key already exists, and each lap row is
   * rewritten with the columns it already holds.
   */
  lemma ReingestAddsNoRows<K>(db: Db<K>, s: seq<Session>, q1: nat, q2: nat, key: LapRow -> K)
    ensures
      var first := IngestRun(db, s, q1, None, key).db;
      IngestRun(first, s, q2, None, key).db == first
  {
    var first := IngestRun(db, s, q1, None, key).db;
    var second := IngestRun(first, s, q2, None, key).db;
    IngestRunLaps(db, s, q1, key);
    CoveredIngestAddsNoRows(first, s, q2, key);
    IngestRunLaps(first, s, q2, key);
    BatchRowsSameRefs(first, second, s);
    ApplyUpsertsIdempotent(db.laps, BatchRows(first, s), key);
    assert second.laps == first.laps;
  }

  // ---------------------------------------------------------------------------
  // The reply

  /**
   * `POST /api/laps` answers success exactly when the body normalises and no
   * query it issues fails; when `parseSessions` throws, the store is untouched.
   */
  lemma LapsReply<K>(db: Db<K>, body: Value, q: nat, f: Option<nat>, key: LapRow -> K)
    ensures HandleLaps(db, body, q, f, key).1 == Success200 <==>
      && NormalizeList(AsList(body)).Success?
      && !Hits(f, q, IngestRun(db, NormalizeList(AsList(body)).value, q, None, key).issued)
    ensures HandleLaps(db, body, q, f, key).1.Uncaught? <==> NormalizeList(AsList(body)).Failure?
    ensures HandleLaps(db, body, q, f, key).1.Uncaught? ==> HandleLaps(db, body, q, f, key).0.db == db
  {
    if NormalizeList(AsList(body)).Success? {
      IngestRunFaults(db, NormalizeList(AsList(body)).value, q, f, key);
    }
  }
}
