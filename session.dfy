/**
 * The focus-session commands: recording a session together with the daily
 * aggregate it feeds, and the read-only statistics derived from the
 * `daily_stats` table. A session's aggregate row is keyed by its user and the
 * first ten bytes of its `started_at` (ten characters for the ASCII
 * timestamps the model works with); the upsert either creates that row
 * with one session or adds the duration and one to the count. The invariant
 * `Aggregated` says every aggregate row holds exactly the sum and the number of
 * the sessions counted under it, and `UserAggregated` says the same per user.
 */
module Session {
  import opened Wrappers
  import opened Text
  import opened Collections
  import opened Dates
  import opened Streak
  import opened Db
  import opened SessionModel
  import DataExport

  // ---------------------------------------------------------------------------
  // The daily aggregate
  // ---------------------------------------------------------------------------

  /** The `daily_stats` key of a session: its user and the `YYYY-MM-DD` prefix of `started_at`. */
  function AggregateKey(userId: string, startedAt: string): (k: (string, string))
    requires |startedAt| >= 10
    ensures k.0 == userId && |k.1| == 10 && startedAt == k.1 + startedAt[10..]
  {
    (userId, startedAt[..10])
  }

  /**
   * `update_daily_stats`'s `INSERT ... ON CONFLICT(user_id, date) DO UPDATE`:
   * an absent row is created with the duration and a count of one, an existing
   * row gains the duration and one more session, and no other row changes.
   */
  function Upsert(stats: map<(string, string), StatRow>, key: (string, string), duration: int, statsId: string, now: string)
    : (r: map<(string, string), StatRow>)
    ensures r.Keys == stats.Keys + {key}
    ensures key !in stats ==> r[key] == StatRow(statsId, duration, 1, now)
    ensures key in stats ==> r[key].id == stats[key].id && r[key].createdAt == stats[key].createdAt
    ensures key in stats ==> r[key].totalFocusSeconds == stats[key].totalFocusSeconds + duration
    ensures key in stats ==> r[key].sessionCount == stats[key].sessionCount + 1
    ensures forall k | k in stats && k != key :: r[k] == stats[k]
  {
    if key in stats then
      var row := stats[key];
      stats[key := row.(totalFocusSeconds := row.totalFocusSeconds + duration, sessionCount := row.sessionCount + 1)]
    else
      stats[key := StatRow(statsId, duration, 1, now)]
  }

  /** Whether a session is counted under the aggregate row (u, d). */
  predicate OnDate(s: SessionRow, u: string, d: string)
  {
    s.userId == u && |s.startedAt| >= 10 && s.startedAt[..10] == d
  }

  /** The durations of the sessions counted under (u, d), by session id. */
  function DurationsOn(sessions: map<string, SessionRow>, u: string, d: string): map<string, int>
  {
    map id | id in sessions && OnDate(sessions[id], u, d) :: sessions[id].durationSeconds
  }

  /** The durations of all of a user's sessions, by session id. */
  function UserDurations(sessions: map<string, SessionRow>, u: string): map<string, int>
  {
    map id | id in sessions && sessions[id].userId == u :: sessions[id].durationSeconds
  }

  /** A user's daily totals, by aggregate key. */
  function UserTotals(stats: map<(string, string), StatRow>, u: string): map<(string, string), int>
  {
    map k | k in stats && k.0 == u :: stats[k].totalFocusSeconds
  }

  /** A user's daily session counts, by aggregate key. */
  function UserCounts(stats: map<(string, string), StatRow>, u: string): map<(string, string), int>
  {
    map k | k in stats && k.0 == u :: stats[k].sessionCount
  }

  /** Every aggregate row sums and counts exactly the sessions counted under it. */
  ghost predicate RowsExact(sessions: map<string, SessionRow>, stats: map<(string, string), StatRow>)
  {
    forall k | k in stats ::
      stats[k].totalFocusSeconds == MapSum(DurationsOn(sessions, k.0, k.1)) &&
      stats[k].sessionCount == |DurationsOn(sessions, k.0, k.1)|
  }

  /** Every session has its aggregate row. */
  predicate SessionsCounted(sessions: map<string, SessionRow>, stats: map<(string, string), StatRow>)
  {
    forall id | id in sessions ::
      |sessions[id].startedAt| >= 10 && AggregateKey(sessions[id].userId, sessions[id].startedAt) in stats
  }

  ghost predicate Aggregated(sessions: map<string, SessionRow>, stats: map<(string, string), StatRow>)
  {
    RowsExact(sessions, stats) && SessionsCounted(sessions, stats)
  }

  /** Per user, the daily totals sum to the session durations and the counts to the number of sessions. */
  ghost predicate UserAggregated(sessions: map<string, SessionRow>, stats: map<(string, string), StatRow>)
  {
    forall u ::
      MapSum(UserTotals(stats, u)) == MapSum(UserDurations(sessions, u)) &&
      MapSum(UserCounts(stats, u)) == |UserDurations(sessions, u)|
  }

  /** The session row `create_focus_session` inserts. */
  function SessionRowOf(request: CreateFocusSessionRequest, now: string): SessionRow
  {
    SessionRow(request.userId, request.durationSeconds, request.startedAt, request.endedAt,
      request.category, request.notes, now)
  }

  lemma EmptyAggregated()
    ensures Aggregated(map[], map[]) && UserAggregated(map[], map[])
  {
    forall u ensures UserTotals(map[], u) == map[] && UserCounts(map[], u) == map[] && UserDurations(map[], u) == map[] {
    }
  }

  lemma MapSumSingleton<K>(k: K, v: int)
    ensures MapSum(map[k := v]) == v
  {
    MapSumUpdate(map[], k, v);
    assert map[][k := v] == map[k := v];
  }

  lemma DurationsOnInsert(sessions: map<string, SessionRow>, id: string, row: SessionRow, u: string, d: string)
    requires id !in sessions
    ensures id !in DurationsOn(sessions, u, d)
    ensures DurationsOn(sessions[id := row], u, d) ==
      if OnDate(row, u, d) then DurationsOn(sessions, u, d)[id := row.durationSeconds] else DurationsOn(sessions, u, d)
  {
  }

  lemma UserDurationsInsert(sessions: map<string, SessionRow>, id: string, row: SessionRow, u: string)
    requires id !in sessions
    ensures id !in UserDurations(sessions, u)
    ensures UserDurations(sessions[id := row], u) ==
      if row.userId == u then UserDurations(sessions, u)[id := row.durationSeconds] else UserDurations(sessions, u)
  {
  }

  lemma UserTotalsWrite(stats: map<(string, string), StatRow>, key: (string, string), v: StatRow, u: string)
    ensures UserTotals(stats[key := v], u) ==
      if key.0 == u then UserTotals(stats, u)[key := v.totalFocusSeconds] else UserTotals(stats, u)
    ensures UserCounts(stats[key := v], u) ==
      if key.0 == u then UserCounts(stats, u)[key := v.sessionCount] else UserCounts(stats, u)
  {
  }

  lemma MapInsertSize<K>(m: map<K, int>, k: K, v: int)
    requires k !in m
    ensures |m[k := v]| == |m| + 1
  {
    assert m[k := v].Keys == m.Keys + {k};
  }

  /** A key without an aggregate row has no sessions counted under it. */
  lemma NoRowNoSessions(sessions: map<string, SessionRow>, stats: map<(string, string), StatRow>, key: (string, string))
    requires SessionsCounted(sessions, stats) && key !in stats
    ensures DurationsOn(sessions, key.0, key.1) == map[]
  {
    assert forall j | j in sessions :: !OnDate(sessions[j], key.0, key.1);
  }

  /** The session's own row, created by the upsert, counts exactly the new session. */
  lemma NewRowExact(sessions: map<string, SessionRow>, id: string, row: SessionRow)
    requires id !in sessions && |row.startedAt| >= 10
    requires var key := AggregateKey(row.userId, row.startedAt); DurationsOn(sessions, key.0, key.1) == map[]
    ensures var key := AggregateKey(row.userId, row.startedAt); var after := DurationsOn(sessions[id := row], key.0, key.1);
      MapSum(after) == row.durationSeconds && |after| == 1
  {
    var key := AggregateKey(row.userId, row.startedAt);
    DurationsOnInsert(sessions, id, row, key.0, key.1);
    assert DurationsOn(sessions[id := row], key.0, key.1) == map[id := row.durationSeconds];
    MapSumSingleton(id, row.durationSeconds);
  }

  /** The session's own row, grown by the upsert, counts its old sessions and the new one. */
  lemma GrownRowExact(sessions: map<string, SessionRow>, id: string, row: SessionRow, v: StatRow)
    requires id !in sessions && |row.startedAt| >= 10
    requires var key := AggregateKey(row.userId, row.startedAt);
      v.totalFocusSeconds == MapSum(DurationsOn(sessions, key.0, key.1)) &&
      v.sessionCount == |DurationsOn(sessions, key.0, key.1)|
    ensures var key := AggregateKey(row.userId, row.startedAt); var after := DurationsOn(sessions[id := row], key.0, key.1);
      MapSum(after) == v.totalFocusSeconds + row.durationSeconds && |after| == v.sessionCount + 1
  {
    var key := AggregateKey(row.userId, row.startedAt);
    var before := DurationsOn(sessions, key.0, key.1);
    DurationsOnInsert(sessions, id, row, key.0, key.1);
    MapSumUpdate(before, id, row.durationSeconds);
    MapInsertSize(before, id, row.durationSeconds);
  }

  /** A row other than the session's own keeps its sessions through the insert. */
  lemma OtherRowExact(sessions: map<string, SessionRow>, id: string, row: SessionRow, k: (string, string), v: StatRow)
    requires id !in sessions && |row.startedAt| >= 10 && k != AggregateKey(row.userId, row.startedAt)
    requires v.totalFocusSeconds == MapSum(DurationsOn(sessions, k.0, k.1))
    requires v.sessionCount == |DurationsOn(sessions, k.0, k.1)|
    ensures v.totalFocusSeconds == MapSum(DurationsOn(sessions[id := row], k.0, k.1))
    ensures v.sessionCount == |DurationsOn(sessions[id := row], k.0, k.1)|
  {
    DurationsOnInsert(sessions, id, row, k.0, k.1);
    assert !OnDate(row, k.0, k.1);
  }

  /** Recording a fresh session keeps every aggregate row exact. */
  lemma CreatePreservesAggregated(
    sessions: map<string, SessionRow>, stats: map<(string, string), StatRow>,
    id: string, row: SessionRow, statsId: string, now: string)
    requires Aggregated(sessions, stats) && id !in sessions && |row.startedAt| >= 10
    ensures Aggregated(sessions[id := row],
      Upsert(stats, AggregateKey(row.userId, row.startedAt), row.durationSeconds, statsId, now))
  {
    var key := AggregateKey(row.userId, row.startedAt);
    var sessions' := sessions[id := row];
    var stats' := Upsert(stats, key, row.durationSeconds, statsId, now);
    forall k | k in stats'
      ensures stats'[k].totalFocusSeconds == MapSum(DurationsOn(sessions', k.0, k.1))
      ensures stats'[k].sessionCount == |DurationsOn(sessions', k.0, k.1)|
    {
      if k == key {
        if key in stats {
          GrownRowExact(sessions, id, row, stats[key]);
        } else {
          NoRowNoSessions(sessions, stats, key);
          NewRowExact(sessions, id, row);
        }
      } else {
        OtherRowExact(sessions, id, row, k, stats[k]);
      }
    }
    assert SessionsCounted(sessions', stats');
  }

  /** The per-user sums for one user after recording a fresh session. */
  lemma UserSumsAfterCreate(
    sessions: map<string, SessionRow>, stats: map<(string, string), StatRow>,
    id: string, row: SessionRow, key: (string, string), v: StatRow, u: string)
    requires id !in sessions && key.0 == row.userId
    requires key in stats ==> v.totalFocusSeconds == stats[key].totalFocusSeconds + row.durationSeconds
    requires key in stats ==> v.sessionCount == stats[key].sessionCount + 1
    requires key !in stats ==> v.totalFocusSeconds == row.durationSeconds && v.sessionCount == 1
    requires MapSum(UserTotals(stats, u)) == MapSum(UserDurations(sessions, u))
    requires MapSum(UserCounts(stats, u)) == |UserDurations(sessions, u)|
    ensures MapSum(UserTotals(stats[key := v], u)) == MapSum(UserDurations(sessions[id := row], u))
    ensures MapSum(UserCounts(stats[key := v], u)) == |UserDurations(sessions[id := row], u)|
  {
    if u == row.userId {
      var durations := UserDurations(sessions, u);
      assert MapSum(UserDurations(sessions[id := row], u)) == MapSum(durations) + row.durationSeconds by {
        UserDurationsInsert(sessions, id, row, u);
        MapSumUpdate(durations, id, row.durationSeconds);
      }
      assert |UserDurations(sessions[id := row], u)| == |durations| + 1 by {
        UserDurationsInsert(sessions, id, row, u);
        MapInsertSize(durations, id, row.durationSeconds);
      }
      assert MapSum(UserTotals(stats[key := v], u)) == MapSum(UserTotals(stats, u)) + row.durationSeconds by {
        UserTotalsWrite(stats, key, v, u);
        MapSumUpdate(UserTotals(stats, u), key, v.totalFocusSeconds);
      }
      assert MapSum(UserCounts(stats[key := v], u)) == MapSum(UserCounts(stats, u)) + 1 by {
        UserTotalsWrite(stats, key, v, u);
        MapSumUpdate(UserCounts(stats, u), key, v.sessionCount);
      }
    } else {
      assert UserDurations(sessions[id := row], u) == UserDurations(sessions, u) by {
        UserDurationsInsert(sessions, id, row, u);
      }
      assert UserTotals(stats[key := v], u) == UserTotals(stats, u) && UserCounts(stats[key := v], u) == UserCounts(stats, u) by {
        UserTotalsWrite(stats, key, v, u);
      }
    }
  }

  /** Recording a fresh session keeps every user's totals and counts exact. */
  lemma CreatePreservesUserAggregated(
    sessions: map<string, SessionRow>, stats: map<(string, string), StatRow>,
    id: string, row: SessionRow, statsId: string, now: string)
    requires UserAggregated(sessions, stats) && id !in sessions && |row.startedAt| >= 10
    ensures UserAggregated(sessions[id := row],
      Upsert(stats, AggregateKey(row.userId, row.startedAt), row.durationSeconds, statsId, now))
  {
    var key := AggregateKey(row.userId, row.startedAt);
    var stats' := Upsert(stats, key, row.durationSeconds, statsId, now);
    assert stats' == stats[key := stats'[key]];
    forall u
      ensures MapSum(UserTotals(stats', u)) == MapSum(UserDurations(sessions[id := row], u))
      ensures MapSum(UserCounts(stats', u)) == |UserDurations(sessions[id := row], u)|
    {
      UserSumsAfterCreate(sessions, stats, id, row, key, stats'[key], u);
    }
  }

  /** A session recorded by `create_focus_session` whose id was fresh. */
  datatype Recorded = Recorded(id: string, row: SessionRow, statsId: string, now: string)

  /** The two tables after one successful create; a repeated id changes nothing. */
  function RecordOne(sessions: map<string, SessionRow>, stats: map<(string, string), StatRow>, s: Recorded)
    : (map<string, SessionRow>, map<(string, string), StatRow>)
    requires |s.row.startedAt| >= 10
  {
    if s.id in sessions then (sessions, stats)
    else
      (sessions[s.id := s.row],
       Upsert(stats, AggregateKey(s.row.userId, s.row.startedAt), s.row.durationSeconds, s.statsId, s.now))
  }

  /** The two tables after a sequence of successful creates. */
  function RecordAll(sessions: map<string, SessionRow>, stats: map<(string, string), StatRow>, steps: seq<Recorded>)
    : (map<string, SessionRow>, map<(string, string), StatRow>)
    requires forall i | 0 <= i < |steps| :: |steps[i].row.startedAt| >= 10
    decreases |steps|
  {
    if steps == [] then (sessions, stats)
    else
      var next := RecordOne(sessions, stats, steps[0]);
      RecordAll(next.0, next.1, steps[1..])
  }

  lemma RecordOneAggregated(sessions: map<string, SessionRow>, stats: map<(string, string), StatRow>, s: Recorded)
    requires |s.row.startedAt| >= 10
    requires Aggregated(sessions, stats) && UserAggregated(sessions, stats)
    ensures Aggregated(RecordOne(sessions, stats, s).0, RecordOne(sessions, stats, s).1)
    ensures UserAggregated(RecordOne(sessions, stats, s).0, RecordOne(sessions, stats, s).1)
  {
    if s.id !in sessions {
      CreatePreservesAggregated(sessions, stats, s.id, s.row, s.statsId, s.now);
      CreatePreservesUserAggregated(sessions, stats, s.id, s.row, s.statsId, s.now);
    }
  }

  /** Any sequence of creates keeps the aggregates exact, per day and per user. */
  lemma {:induction false} RecordAllAggregated(
    sessions: map<string, SessionRow>, stats: map<(string, string), StatRow>, steps: seq<Recorded>)
    requires forall i | 0 <= i < |steps| :: |steps[i].row.startedAt| >= 10
    requires Aggregated(sessions, stats) && UserAggregated(sessions, stats)
    ensures Aggregated(RecordAll(sessions, stats, steps).0, RecordAll(sessions, stats, steps).1)
    ensures UserAggregated(RecordAll(sessions, stats, steps).0, RecordAll(sessions, stats, steps).1)
    decreases |steps|
  {
    if steps != [] {
      var next := RecordOne(sessions, stats, steps[0]);
      RecordOneAggregated(sessions, stats, steps[0]);
      RecordAllAggregated(next.0, next.1, steps[1..]);
    }
  }

  /** From an empty store, any sequence of creates leaves the aggregates exact. */
  lemma FromEmptyAggregated(steps: seq<Recorded>)
    requires forall i | 0 <= i < |steps| :: |steps[i].row.startedAt| >= 10
    ensures Aggregated(RecordAll(map[], map[], steps).0, RecordAll(map[], map[], steps).1)
    ensures UserAggregated(RecordAll(map[], map[], steps).0, RecordAll(map[], map[], steps).1)
  {
    EmptyAggregated();
    RecordAllAggregated(map[], map[], steps);
  }

  /**
   * `create_focus_session`: insert the session row (a clash on its id, or the
   * fault `insertFault`, fails it and changes nothing), then upsert the daily
   * aggregate (the fault `upsertFault` fails it, leaving the session recorded
   * but not counted). `id`, `now`, `statsId` and `statsNow` are the UUIDs and
   * clock readings the command takes. A `started_at` shorter than ten bytes,
   * or with a non-ASCII character across byte 10, makes the slice panic once
   * the session is inserted, so a start time of fewer than ten characters is
   * excluded.
   */
  method CreateFocusSession(
    db: Database, request: CreateFocusSessionRequest, id: string, now: string,
    statsId: string, statsNow: string, insertFault: Option<string>, upsertFault: Option<string>)
    returns (r: Result<FocusSession>)
    requires |request.startedAt| >= 10
    modifies db`sessions, db`dailyStats
    ensures id in old(db.sessions) ==>
      r == Err(UniqueViolation("focus_sessions", "id")) &&
      db.sessions == old(db.sessions) && db.dailyStats == old(db.dailyStats)
    ensures id !in old(db.sessions) && insertFault.Some? ==>
      r == Err(insertFault.value) && db.sessions == old(db.sessions) && db.dailyStats == old(db.dailyStats)
    ensures id !in old(db.sessions) && insertFault.None? ==>
      db.sessions == old(db.sessions)[id := SessionRowOf(request, now)]
    ensures id !in old(db.sessions) && insertFault.None? && upsertFault.Some? ==>
      r == Err(upsertFault.value) && db.dailyStats == old(db.dailyStats)
    ensures id !in old(db.sessions) && insertFault.None? && upsertFault.None? ==>
      r == Ok(FocusSession(id, request.userId, request.durationSeconds, request.startedAt, request.endedAt,
        request.category, request.notes, now)) &&
      db.dailyStats == Upsert(old(db.dailyStats), AggregateKey(request.userId, request.startedAt),
        request.durationSeconds, statsId, statsNow)
    ensures r.Ok? && old(Aggregated(db.sessions, db.dailyStats)) ==> Aggregated(db.sessions, db.dailyStats)
    ensures r.Ok? && old(UserAggregated(db.sessions, db.dailyStats)) ==> UserAggregated(db.sessions, db.dailyStats)
  {
    if id in db.sessions {
      return Err(UniqueViolation("focus_sessions", "id"));
    }
    if insertFault.Some? {
      return Err(insertFault.value);
    }
    ghost var sessions0, stats0 := db.sessions, db.dailyStats;
    var row := SessionRowOf(request, now);
    db.sessions := db.sessions[id := row];
    var sessionDate := request.startedAt[..10];
    if upsertFault.Some? {
      return Err(upsertFault.value);
    }
    db.dailyStats := Upsert(db.dailyStats, (request.userId, sessionDate), request.durationSeconds, statsId, statsNow);
    if Aggregated(sessions0, stats0) {
      CreatePreservesAggregated(sessions0, stats0, id, row, statsId, statsNow);
    }
    if UserAggregated(sessions0, stats0) {
      CreatePreservesUserAggregated(sessions0, stats0, id, row, statsId, statsNow);
    }
    r := Ok(FocusSession(id, request.userId, request.durationSeconds, request.startedAt, request.endedAt,
      request.category, request.notes, now));
  }

  // ---------------------------------------------------------------------------
  // Read-only statistics
  // ---------------------------------------------------------------------------

  /** A session list ascending by start time is ordered pairwise, not only neighbour by neighbour. */
  lemma {:induction false} StartedAtPairwise(xs: seq<FocusSession>, a: int, b: int)
    requires SortedBy(xs, DataExport.ByStartedAt)
    requires 0 <= a <= b < |xs|
    ensures StrLe(xs[a].startedAt, xs[b].startedAt)
    decreases b - a
  {
    if a == b {
      StrLeRefl(xs[a].startedAt);
    } else {
      StartedAtPairwise(xs, a, b - 1);
      assert DataExport.ByStartedAt(xs[b - 1], xs[b]);
      StrLeTransitive(xs[a].startedAt, xs[b - 1].startedAt, xs[b].startedAt);
    }
  }

  /** The `k` latest of an ascending session list, newest first. */
  function Newest(asc: seq<FocusSession>, k: nat): (r: seq<FocusSession>)
    requires k <= |asc|
    ensures |r| == k
    ensures forall i | 0 <= i < k :: r[i] == asc[|asc| - 1 - i]
  {
    Reverse(asc)[..k]
  }

  lemma NewestFromList(asc: seq<FocusSession>, k: nat)
    requires k <= |asc|
    ensures forall x | x in Newest(asc, k) :: x in asc
  {
    var r := Newest(asc, k);
    forall x | x in r ensures x in asc {
      var i :| 0 <= i < k && r[i] == x;
      assert asc[|asc| - 1 - i] == x;
    }
  }

  lemma NewestDescending(asc: seq<FocusSession>, k: nat)
    requires k <= |asc| && SortedBy(asc, DataExport.ByStartedAt)
    ensures var r := Newest(asc, k); forall i, j | 0 <= i < j < k :: StrLe(r[j].startedAt, r[i].startedAt)
  {
    var r := Newest(asc, k);
    forall i, j | 0 <= i < j < k ensures StrLe(r[j].startedAt, r[i].startedAt) {
      StartedAtPairwise(asc, |asc| - 1 - j, |asc| - 1 - i);
    }
  }

  /** The last `k` positions of the ascending list are exactly what is kept. */
  lemma KeptInNewest(asc: seq<FocusSession>, k: nat)
    requires k <= |asc|
    ensures forall j | |asc| - k <= j < |asc| :: asc[j] in Newest(asc, k)
  {
    forall j | |asc| - k <= j < |asc| ensures asc[j] in Newest(asc, k) {
      assert Newest(asc, k)[|asc| - 1 - j] == asc[j];
    }
  }

  /** Without a limit nothing of the list is left out. */
  lemma NewestKeepsAll(asc: seq<FocusSession>)
    ensures forall x | x in asc :: x in Newest(asc, |asc|)
  {
    KeptInNewest(asc, |asc|);
    forall x | x in asc ensures x in Newest(asc, |asc|) {
      var j :| 0 <= j < |asc| && asc[j] == x;
    }
  }

  /** Taking from the end of a list with distinct ids keeps the ids distinct. */
  lemma NewestDistinctIds(asc: seq<FocusSession>, k: nat)
    requires k <= |asc|
    requires forall i, j | 0 <= i < j < |asc| :: asc[i].id != asc[j].id
    ensures var r := Newest(asc, k); forall i, j | 0 <= i < j < |r| :: r[i].id != r[j].id
  {
    var r := Newest(asc, k);
    forall i, j | 0 <= i < j < |r| ensures r[i].id != r[j].id {
      assert r[i] == asc[|asc| - 1 - i] && r[j] == asc[|asc| - 1 - j];
    }
  }

  /** Whatever is left out started no later than anything kept. */
  lemma NewestAreLatest(asc: seq<FocusSession>, k: nat, y: FocusSession, x: FocusSession)
    requires k <= |asc| && SortedBy(asc, DataExport.ByStartedAt)
    requires y in asc && y !in Newest(asc, k) && x in Newest(asc, k)
    ensures StrLe(y.startedAt, x.startedAt)
  {
    var r := Newest(asc, k);
    var n := |asc|;
    KeptInNewest(asc, k);
    var j :| 0 <= j < n && asc[j] == y;
    assert j < n - k;
    var i :| 0 <= i < k && r[i] == x;
    StartedAtPairwise(asc, j, n - 1 - i);
  }

  /**
   * `get_focus_sessions`: the user's sessions newest first (`ORDER BY
   * started_at DESC`), at most `limit` of them, 100 when no limit is given;
   * SQLite reads a negative `LIMIT` as no limit. Sessions the ordering ties
   * come in reverse id order.
   */
  function GetFocusSessions(sessions: map<string, SessionRow>, u: string, limit: Option<int>): (r: seq<FocusSession>)
    ensures var n := |DataExport.UserSessionIds(sessions, u)|;
      var l := if limit.Some? then limit.value else 100;
      |r| == (if l < 0 || l >= n then n else l)
    ensures forall x | x in r ::
      x.id in sessions && sessions[x.id].userId == u && x == DataExport.SessionOf(x.id, sessions[x.id])
    ensures forall i, j | 0 <= i < j < |r| :: StrLe(r[j].startedAt, r[i].startedAt)
    ensures forall id, x | id in sessions && sessions[id].userId == u && x in r &&
      DataExport.SessionOf(id, sessions[id]) !in r :: StrLe(sessions[id].startedAt, x.startedAt)
    ensures forall i, j | 0 <= i < j < |r| :: r[i].id != r[j].id
    ensures var l := if limit.Some? then limit.value else 100;
      l < 0 || l >= |DataExport.UserSessionIds(sessions, u)| ==>
        forall id | id in sessions && sessions[id].userId == u :: DataExport.SessionOf(id, sessions[id]) in r
  {
    var asc := DataExport.ExportSessions(sessions, u);
    var n := |asc|;
    var l := if limit.Some? then limit.value else 100;
    var k := if l < 0 || l >= n then n else l;
    NewestFromList(asc, k);
    NewestDescending(asc, k);
    forall id, x | id in sessions && sessions[id].userId == u && x in Newest(asc, k) &&
      DataExport.SessionOf(id, sessions[id]) !in Newest(asc, k)
      ensures StrLe(sessions[id].startedAt, x.startedAt)
    {
      NewestAreLatest(asc, k, DataExport.SessionOf(id, sessions[id]), x);
    }
    NewestDistinctIds(asc, k);
    if k == n then NewestKeepsAll(asc); Newest(asc, k) else Newest(asc, k)
  }

  /** `get_daily_stats`'s WHERE: the user's rows dated within [start, end] in TEXT order. */
  predicate InRange(k: (string, string), u: string, start: string, end: string)
  {
    k.0 == u && StrLe(start, k.1) && StrLe(k.1, end)
  }

  function RangeDates(stats: map<(string, string), StatRow>, u: string, start: string, end: string): (r: set<string>)
    ensures forall d :: d in r <==> (u, d) in stats && InRange((u, d), u, start, end)
  {
    var r := set k | k in stats && InRange(k, u, start, end) :: k.1;
    assert forall d | (u, d) in stats && InRange((u, d), u, start, end) :: d in r by {
      forall d | (u, d) in stats && InRange((u, d), u, start, end) ensures d in r {
        var k := (u, d);
        assert k in stats && InRange(k, u, start, end);
      }
    }
    r
  }

  /** The user's aggregate rows for the given dates, in their order. */
  function StatsRows(stats: map<(string, string), StatRow>, u: string, dates: seq<string>): (r: seq<DailyStats>)
    requires forall i | 0 <= i < |dates| :: (u, dates[i]) in stats
    ensures |r| == |dates|
    ensures forall i | 0 <= i < |r| ::
      r[i].date == dates[i] &&
      r[i].totalFocusSeconds == stats[(u, dates[i])].totalFocusSeconds &&
      r[i].sessionCount == stats[(u, dates[i])].sessionCount
    ensures forall x | x in dates :: exists i | 0 <= i < |r| :: r[i].date == x
  {
    var r := seq(|dates|, i requires 0 <= i < |dates| =>
      DailyStats(dates[i], stats[(u, dates[i])].totalFocusSeconds, stats[(u, dates[i])].sessionCount));
    assert forall x | x in dates :: exists i | 0 <= i < |r| :: r[i].date == x by {
      forall x | x in dates ensures exists i | 0 <= i < |r| :: r[i].date == x {
        var i :| 0 <= i < |dates| && dates[i] == x;
        assert r[i].date == x;
      }
    }
    r
  }

  /** `get_daily_stats`: the user's rows with start <= date <= end, ascending by date. */
  function GetDailyStats(stats: map<(string, string), StatRow>, u: string, start: string, end: string)
    : (r: seq<DailyStats>)
    ensures forall i | 0 <= i < |r| ::
      (u, r[i].date) in stats && InRange((u, r[i].date), u, start, end) &&
      r[i].totalFocusSeconds == stats[(u, r[i].date)].totalFocusSeconds &&
      r[i].sessionCount == stats[(u, r[i].date)].sessionCount
    ensures forall k | k in stats && InRange(k, u, start, end) :: exists i | 0 <= i < |r| :: r[i].date == k.1
    ensures forall i, j | 0 <= i < j < |r| :: StrLt(r[i].date, r[j].date)
  {
    var dates := Ascending(RangeDates(stats, u, start, end));
    assert forall k | k in stats && InRange(k, u, start, end) :: k.1 in dates;
    StatsRows(stats, u, dates)
  }

  /** SQLite's `date(...)` text, which exists for years 0000 to 9999 only. */
  function SqliteDate(d: Date): (r: Option<string>)
    requires ValidDate(d)
    ensures r.Some? <==> 0 <= d.year <= 9999
    ensures r.Some? ==> r.value == ChronoFormat(d)
  {
    if 0 <= d.year <= 9999 then Some(Pad4(d.year) + "-" + Pad2(d.month) + "-" + Pad2(d.day)) else None
  }

  /** SQLite's integer `/` by 60, which truncates toward zero. */
  function Minutes(seconds: int): (m: int)
    ensures seconds >= 0 ==> 0 <= seconds - 60 * m < 60
    ensures seconds < 0 ==> -60 < seconds - 60 * m <= 0
  {
    if seconds >= 0 then seconds / 60 else -((-seconds) / 60)
  }

  function HeatmapDates(stats: map<(string, string), StatRow>, u: string, cutoff: string): (r: set<string>)
    ensures forall d :: d in r <==> (u, d) in stats && StrLe(cutoff, d)
  {
    var r := set k | k in stats && k.0 == u && StrLe(cutoff, k.1) :: k.1;
    assert forall d | (u, d) in stats && StrLe(cutoff, d) :: d in r by {
      forall d | (u, d) in stats && StrLe(cutoff, d) ensures d in r {
        var k := (u, d);
        assert k in stats && k.0 == u && StrLe(cutoff, k.1);
      }
    }
    r
  }

  /**
   * `date('now', '-365 days')` on the day `today`: the date 365 days earlier,
   * written as SQLite writes dates, or SQL NULL when its year has no four-digit form.
   */
  function HeatmapCutoff(today: Date): (c: Option<string>)
    requires ValidDate(today)
    ensures var d := AddDays(today, -365);
      DayNumber(d) == DayNumber(today) - 365 &&
      (c.Some? <==> 0 <= d.year <= 9999) &&
      (c.Some? ==> c.value == ChronoFormat(d))
  {
    AddDaysNumber(today, -365);
    SqliteDate(AddDays(today, -365))
  }

  /** The user's rows for the given dates, each with its total in whole minutes. */
  function MinuteRows(stats: map<(string, string), StatRow>, u: string, dates: seq<string>): (r: seq<HeatmapData>)
    requires forall i | 0 <= i < |dates| :: (u, dates[i]) in stats
    ensures |r| == |dates|
    ensures forall i | 0 <= i < |r| ::
      r[i].date == dates[i] && r[i].value == Minutes(stats[(u, dates[i])].totalFocusSeconds)
    ensures forall x | x in dates :: exists i | 0 <= i < |r| :: r[i].date == x
  {
    var r := seq(|dates|, i requires 0 <= i < |dates| =>
      HeatmapData(dates[i], Minutes(stats[(u, dates[i])].totalFocusSeconds)));
    assert forall x | x in dates :: exists i | 0 <= i < |r| :: r[i].date == x by {
      forall x | x in dates ensures exists i | 0 <= i < |r| :: r[i].date == x {
        var i :| 0 <= i < |dates| && dates[i] == x;
        assert r[i].date == x;
      }
    }
    r
  }

  /** The user's rows dated on or after `cutoff`, ascending, each with its total in whole minutes. */
  function HeatmapFrom(stats: map<(string, string), StatRow>, u: string, cutoff: string): (r: seq<HeatmapData>)
    ensures forall i | 0 <= i < |r| ::
      (u, r[i].date) in stats && StrLe(cutoff, r[i].date) &&
      r[i].value == Minutes(stats[(u, r[i].date)].totalFocusSeconds)
    ensures forall k | k in stats && k.0 == u && StrLe(cutoff, k.1) :: exists i | 0 <= i < |r| :: r[i].date == k.1
    ensures forall i, j | 0 <= i < j < |r| :: StrLt(r[i].date, r[j].date)
  {
    var dates := Ascending(HeatmapDates(stats, u, cutoff));
    assert forall k | k in stats && k.0 == u && StrLe(cutoff, k.1) :: k.1 in dates by {
      forall k | k in stats && k.0 == u && StrLe(cutoff, k.1) ensures k.1 in dates {
        assert k == (u, k.1);
      }
    }
    MinuteRows(stats, u, dates)
  }

  /**
   * `get_heatmap_data` on the day `today`: the rows on or after the cutoff.
   * Outside SQLite's date range the cutoff is NULL and no row qualifies.
   */
  function GetHeatmapData(stats: map<(string, string), StatRow>, u: string, today: Date): (r: seq<HeatmapData>)
    requires ValidDate(today)
    ensures HeatmapCutoff(today).None? ==> r == []
    ensures HeatmapCutoff(today).Some? ==> r == HeatmapFrom(stats, u, HeatmapCutoff(today).value)
  {
    match HeatmapCutoff(today)
    case None => []
    case Some(cutoff) => HeatmapFrom(stats, u, cutoff)
  }

  /** The streak queries' `SELECT DISTINCT date ... WHERE user_id = ?1 AND total_focus_seconds > 0`. */
  function ActiveDates(stats: map<(string, string), StatRow>, u: string): (r: set<string>)
    ensures forall d :: d in r <==> (u, d) in stats && stats[(u, d)].totalFocusSeconds > 0
  {
    var r := set k | k in stats && k.0 == u && stats[k].totalFocusSeconds > 0 :: k.1;
    assert forall d | (u, d) in stats && stats[(u, d)].totalFocusSeconds > 0 :: d in r by {
      forall d | (u, d) in stats && stats[(u, d)].totalFocusSeconds > 0 ensures d in r {
        var k := (u, d);
        assert k in stats && k.0 == u && stats[k].totalFocusSeconds > 0;
      }
    }
    r
  }

  /** The same dates `ORDER BY date ASC`. */
  function ActiveAscending(stats: map<(string, string), StatRow>, u: string): seq<string>
  {
    Ascending(ActiveDates(stats, u))
  }

  /** `SELECT COUNT(*) FROM tasks WHERE user_id = ?1 AND completed = 1`. */
  function CompletedTasks(tasks: map<string, TaskRow>, u: string): set<string>
  {
    set id | id in tasks && tasks[id].userId == u && tasks[id].completed == 1
  }

  /**
   * `get_user_stats`: the sum and number of the user's sessions, the number of
   * completed tasks, then the current streak (over the active dates newest
   * first) and the longest streak (oldest first); a streak's error is returned,
   * the current streak's first.
   */
  function GetUserStats(
    sessions: map<string, SessionRow>, tasks: map<string, TaskRow>, stats: map<(string, string), StatRow>,
    u: string, today: Date): (r: Result<UserStats>)
    requires ValidDate(today)
    ensures var current := CurrentStreak(Reverse(ActiveAscending(stats, u)), today);
      var longest := LongestStreak(ActiveAscending(stats, u));
      (current.Err? ==> r == Err(current.error)) &&
      (current.Ok? && longest.Err? ==> r == Err(longest.error)) &&
      (current.Ok? && longest.Ok? ==>
        r.Ok? && r.value.currentStreak == current.value && r.value.longestStreak == longest.value)
    ensures r.Ok? ==>
      r.value.totalFocusTime == MapSum(UserDurations(sessions, u)) &&
      r.value.totalSessions == |UserDurations(sessions, u)| &&
      r.value.tasksCompleted == |CompletedTasks(tasks, u)|
  {
    var durations := UserDurations(sessions, u);
    var totalFocusTime := SumValues(durations);
    var totalSessions := |durations|;
    var tasksCompleted := |CompletedTasks(tasks, u)|;
    var asc := ActiveAscending(stats, u);
    var current :- CurrentStreak(Reverse(asc), today);
    var longest :- LongestStreak(asc);
    Ok(UserStats(totalFocusTime, totalSessions, current, longest, tasksCompleted))
  }

  /**
   * When every active date parses, the statistics exist and their streaks are
   * ordered: 0 <= current <= longest <= the number of active days.
   */
  lemma UserStatsStreaks(
    sessions: map<string, SessionRow>, tasks: map<string, TaskRow>, stats: map<(string, string), StatRow>,
    u: string, today: Date)
    requires ValidDate(today) && AllParse(ActiveAscending(stats, u))
    ensures GetUserStats(sessions, tasks, stats, u, today).Ok?
    ensures var s := GetUserStats(sessions, tasks, stats, u, today).value;
      0 <= s.currentStreak <= s.longestStreak <= |ActiveDates(stats, u)|
    ensures ActiveDates(stats, u) != {} ==> GetUserStats(sessions, tasks, stats, u, today).value.longestStreak >= 1
  {
    var asc := ActiveAscending(stats, u);
    CurrentAtMostLongest(asc, today);
    assert asc == [] <==> ActiveDates(stats, u) == {} by {
      if asc == [] {
        assert forall d | d in ActiveDates(stats, u) :: d in asc;
      }
    }
  }

  /** Under the per-user invariant, the total focus time is also the sum of the user's daily totals. */
  lemma UserStatsMatchDaily(
    sessions: map<string, SessionRow>, tasks: map<string, TaskRow>, stats: map<(string, string), StatRow>,
    u: string, today: Date)
    requires ValidDate(today) && UserAggregated(sessions, stats)
    requires GetUserStats(sessions, tasks, stats, u, today).Ok?
    ensures GetUserStats(sessions, tasks, stats, u, today).value.totalFocusTime == MapSum(UserTotals(stats, u))
    ensures GetUserStats(sessions, tasks, stats, u, today).value.totalSessions == MapSum(UserCounts(stats, u))
  {
  }
}
