/**
 Labour sync: pulls labour rows window by window and upserts them on their natural key, so
 that a re-sync corrects rows in place.
 */
module PushSync {
  import opened Wrappers
  import opened PushClient

  /** The unique constraint uq_push_labour_employee_daily. */
  datatype Key = Key(tenant: nat, company: nat, date: int, employee: nat, position: nat, labourType: string)

  datatype Row = Row(location: Option<nat>, employeeName: Option<string>, positionName: Option<string>, cost: real,
                     hours: real)

  type Table = map<Key, Row>

  /** One row of the API's answer. */
  datatype LabourRow = LabourRow(
    date: int,
    employee: nat,
    employeeName: Option<string>,
    position: nat,
    positionName: Option<string>,
    labourType: string,
    cost: real,
    hours: real)

  /** What a sync config contributes to every row. */
  datatype Config = Config(tenant: nat, company: nat, location: Option<nat>)

  function KeyOf(c: Config, r: LabourRow): Key {
    Key(c.tenant, c.company, r.date, r.employee, r.position, r.labourType)
  }

  function RowOf(c: Config, r: LabourRow): Row {
    Row(c.location, r.employeeName, r.positionName, r.cost, r.hours)
  }

  /** Insert each row, or update the row that already has its key. */
  function Upserted(t: Table, c: Config, rows: seq<LabourRow>): Table {
    if rows == [] then t
    else
      var r := rows[|rows| - 1];
      Upserted(t, c, rows[..|rows| - 1])[KeyOf(c, r) := RowOf(c, r)]
  }

  /** The last row with a key. */
  function Find(rows: seq<LabourRow>, c: Config, k: Key): Option<LabourRow> {
    if rows == [] then None
    else if KeyOf(c, rows[|rows| - 1]) == k then Some(rows[|rows| - 1])
    else Find(rows[..|rows| - 1], c, k)
  }

  predicate DistinctKeys(rows: seq<LabourRow>, c: Config) {
    forall i, j :: 0 <= i < j < |rows| ==> KeyOf(c, rows[i]) != KeyOf(c, rows[j])
  }

  /** What the API holds, restricted to some dates. */
  function Pull(api: seq<LabourRow>, days: set<int>): seq<LabourRow> {
    if api == [] then []
    else Pull(api[..|api| - 1], days) + if api[|api| - 1].date in days then [api[|api| - 1]] else []
  }

  function Days(w: Range): set<int> {
    set d | w.first <= d <= w.last && w.Has(d)
  }

  // ---------------------------------------------------------------------------------------
  // What a table holds after upserts
  // ---------------------------------------------------------------------------------------

  /** An upsert overwrites exactly the keys it returns. */
  lemma {:induction false} UpsertedLookup(t: Table, c: Config, rows: seq<LabourRow>, k: Key)
    ensures k in Upserted(t, c, rows) <==> k in t || Find(rows, c, k).Some?
    ensures k in Upserted(t, c, rows) ==>
      Upserted(t, c, rows)[k] == if Find(rows, c, k).Some? then RowOf(c, Find(rows, c, k).value) else t[k]
    decreases |rows|
  {
    if rows != [] {
      UpsertedLookup(t, c, rows[..|rows| - 1], k);
    }
  }

  lemma {:induction false} FindInPull(api: seq<LabourRow>, c: Config, days: set<int>, k: Key)
    ensures Find(Pull(api, days), c, k) == if k.date in days then Find(api, c, k) else None
    decreases |api|
  {
    if api != [] {
      FindInPull(api[..|api| - 1], c, days, k);
      var rest, last := Pull(api[..|api| - 1], days), api[|api| - 1];
      if last.date in days {
        var pulled := Pull(api, days);
        assert pulled == rest + [last];
        assert pulled[..|pulled| - 1] == rest && pulled[|pulled| - 1] == last;
      } else {
        assert Pull(api, days) == rest;
      }
    }
  }

  /** Two syncs leave the table of one sync over all their dates, whether or not the dates overlap. */
  lemma SyncsMerge(t: Table, c: Config, api: seq<LabourRow>, d: set<int>, e: set<int>)
    ensures Upserted(Upserted(t, c, Pull(api, d)), c, Pull(api, e)) == Upserted(t, c, Pull(api, d + e))
  {
    var once := Upserted(t, c, Pull(api, d));
    var twice, whole := Upserted(once, c, Pull(api, e)), Upserted(t, c, Pull(api, d + e));
    forall k: Key
      ensures k in twice <==> k in whole
      ensures k in twice ==> twice[k] == whole[k]
    {
      UpsertedLookup(t, c, Pull(api, d), k);
      UpsertedLookup(once, c, Pull(api, e), k);
      UpsertedLookup(t, c, Pull(api, d + e), k);
      FindInPull(api, c, d, k);
      FindInPull(api, c, e, k);
      FindInPull(api, c, d + e, k);
    }
  }

  function Union(pulls: seq<set<int>>): set<int> {
    if pulls == [] then {} else Union(pulls[..|pulls| - 1]) + pulls[|pulls| - 1]
  }

  function SyncAll(t: Table, c: Config, api: seq<LabourRow>, pulls: seq<set<int>>): Table {
    if pulls == [] then t
    else Upserted(SyncAll(t, c, api, pulls[..|pulls| - 1]), c, Pull(api, pulls[|pulls| - 1]))
  }

  lemma {:induction false} NothingToPull(api: seq<LabourRow>)
    ensures Pull(api, {}) == []
    decreases |api|
  {
    if api != [] {
      NothingToPull(api[..|api| - 1]);
    }
  }

  /** Pulling piece by piece, in any order, overlapping and repeated at will, gives the table of one
      unrestricted pull of all the dates. */
  lemma {:induction false} AnyOrderSameTable(t: Table, c: Config, api: seq<LabourRow>, pulls: seq<set<int>>)
    ensures SyncAll(t, c, api, pulls) == Upserted(t, c, Pull(api, Union(pulls)))
    decreases |pulls|
  {
    if pulls == [] {
      NothingToPull(api);
    } else {
      AnyOrderSameTable(t, c, api, pulls[..|pulls| - 1]);
      SyncsMerge(t, c, api, Union(pulls[..|pulls| - 1]), pulls[|pulls| - 1]);
    }
  }

  /** A row of this company on one of the dates that the API no longer returns. */
  ghost predicate Stale(t: Table, c: Config, api: seq<LabourRow>, days: set<int>, k: Key) {
    k in t && k.tenant == c.tenant && k.company == c.company && k.date in days && Find(api, c, k).None?
  }

  /** On the synced dates the company's rows are exactly the API's rows. */
  ghost predicate Mirrors(t: Table, c: Config, api: seq<LabourRow>, days: set<int>) {
    forall k: Key :: k.tenant == c.tenant && k.company == c.company && k.date in days ==>
      && (k in t <==> Find(api, c, k).Some?)
      && (k in t ==> t[k] == RowOf(c, Find(api, c, k).value))
  }

  /** On its dates an upsert leaves exactly the API's rows if and only if no stored row has
      disappeared from the API: rows are updated and added, never deleted. */
  lemma UpsertMirrorsIff(t: Table, c: Config, api: seq<LabourRow>, days: set<int>)
    ensures Mirrors(Upserted(t, c, Pull(api, days)), c, api, days) <==> forall k :: !Stale(t, c, api, days, k)
  {
    var after := Upserted(t, c, Pull(api, days));
    forall k: Key
      ensures k in after <==> k in t || (k.date in days && Find(api, c, k).Some?)
      ensures k in after ==>
        after[k] == if k.date in days && Find(api, c, k).Some? then RowOf(c, Find(api, c, k).value) else t[k]
    {
      UpsertedLookup(t, c, Pull(api, days), k);
      FindInPull(api, c, days, k);
    }
    if k: Key :| Stale(t, c, api, days, k) {
      assert k in after;
      assert !Mirrors(after, c, api, days);
    } else {
      forall k: Key | k.tenant == c.tenant && k.company == c.company && k.date in days
        ensures k in after <==> Find(api, c, k).Some?
        ensures k in after ==> after[k] == RowOf(c, Find(api, c, k).value)
      {
        assert !Stale(t, c, api, days, k);
      }
    }
  }

  /** Rows of other tenants, companies or dates are untouched. */
  lemma SyncTouchesOnlyItsRows(t: Table, c: Config, api: seq<LabourRow>, days: set<int>, k: Key)
    requires k.tenant != c.tenant || k.company != c.company || k.date !in days
    ensures k in Upserted(t, c, Pull(api, days)) <==> k in t
    ensures k in t ==> Upserted(t, c, Pull(api, days))[k] == t[k]
  {
    UpsertedLookup(t, c, Pull(api, days), k);
    FindInPull(api, c, days, k);
    FindHasKey(api, c, k);
  }

  lemma {:induction false} FindHasKey(rows: seq<LabourRow>, c: Config, k: Key)
    ensures Find(rows, c, k).Some? ==> KeyOf(c, Find(rows, c, k).value) == k
    decreases |rows|
  {
    if rows != [] {
      FindHasKey(rows[..|rows| - 1], c, k);
    }
  }

  // ---------------------------------------------------------------------------------------
  // sync_range
  // ---------------------------------------------------------------------------------------

  datatype SyncError = PullFailed | BadRange | Refused

  datatype JobStatus = Running | Succeeded | Failed(error: SyncError)

  datatype Job = Job(status: JobStatus, rows: nat)

  /** The text and numbers of a row fit their columns: labour_type String(20), names String(255), ids
      BigInteger, cost Numeric(15, 2), hours Numeric(10, 2). */
  predicate Fits(r: LabourRow) {
    && |r.labourType| <= 20
    && (r.employeeName.Some? ==> |r.employeeName.value| <= 255)
    && (r.positionName.Some? ==> |r.positionName.value| <= 255)
    && r.employee < 0x8000_0000_0000_0000 && r.position < 0x8000_0000_0000_0000
    && -10_000_000_000_000.0 < r.cost < 10_000_000_000_000.0 && -100_000_000.0 < r.hours < 100_000_000.0
  }

  /** What one statement must satisfy: every row fits, and none names the key of another. */
  predicate Accepted(rows: seq<LabourRow>, c: Config) {
    DistinctKeys(rows, c) && forall r :: r in rows ==> Fits(r)
  }

  predicate AcceptedOn(api: seq<LabourRow>, c: Config, days: set<int>) {
    DistinctOn(api, c, days) && forall r :: r in api && r.date in days ==> Fits(r)
  }

  /** No two of the API's rows on these dates share a key. */
  predicate DistinctOn(api: seq<LabourRow>, c: Config, days: set<int>) {
    forall i, j :: 0 <= i < j < |api| && api[i].date in days ==> KeyOf(c, api[i]) != KeyOf(c, api[j])
  }

  /** The range is not empty, every row on its dates fits and no two share a key, and nothing else fails:
      `failing` is the number of the window whose pull or statement raises for any other reason, if any. */
  predicate SyncSucceeds(c: Config, api: seq<LabourRow>, r: Range, failing: Option<nat>) {
    && r.first <= r.last
    && (failing.Some? ==> failing.value > (r.last - r.first) / (MAX_LABOUR_RANGE_DAYS + 1))
    && AcceptedOn(api, c, Days(r))
  }

  /** What a sync leaves once its caller has committed it or, when it raised, rolled it back. */
  function AfterSync(t: Table, c: Config, api: seq<LabourRow>, r: Range, failing: Option<nat>): Table {
    if SyncSucceeds(c, api, r, failing) then Upserted(t, c, Pull(api, Days(r))) else t
  }

  lemma {:induction false} PullsAdd(api: seq<LabourRow>, d: set<int>, e: set<int>)
    requires d !! e
    ensures |Pull(api, d + e)| == |Pull(api, d)| + |Pull(api, e)|
    decreases |api|
  {
    if api != [] {
      PullsAdd(api[..|api| - 1], d, e);
    }
  }

  lemma {:induction false} InPull(api: seq<LabourRow>, days: set<int>, r: LabourRow)
    ensures r in Pull(api, days) <==> r in api && r.date in days
    decreases |api|
  {
    if api != [] {
      InPull(api[..|api| - 1], days, r);
      assert api == api[..|api| - 1] + [api[|api| - 1]];
    }
  }

  lemma DistinctAppend(rows: seq<LabourRow>, c: Config, x: LabourRow)
    ensures DistinctKeys(rows + [x], c)
      <==> DistinctKeys(rows, c) && forall r :: r in rows ==> KeyOf(c, r) != KeyOf(c, x)
  {
    var all := rows + [x];
    assert forall i :: 0 <= i < |rows| ==> all[i] == rows[i];
    if DistinctKeys(all, c) {
      forall r | r in rows
        ensures KeyOf(c, r) != KeyOf(c, x)
      {
        var i :| 0 <= i < |rows| && rows[i] == r;
        assert KeyOf(c, all[i]) != KeyOf(c, all[|rows|]);
      }
    }
  }

  /** A pull names no key twice exactly when the API's rows on its dates do not. */
  lemma {:induction false} PullDistinctIff(api: seq<LabourRow>, c: Config, days: set<int>)
    ensures DistinctKeys(Pull(api, days), c) <==> DistinctOn(api, c, days)
    decreases |api|
  {
    if api != [] {
      var n := |api| - 1;
      var front, last := api[..n], api[n];
      PullDistinctIff(front, c, days);
      DistinctOnAppend(api, c, days, n);
      if last.date in days {
        LastIsNew(front, c, days, last);
      } else {
        assert Pull(api, days) == Pull(front, days);
        assert forall r :: r in front && r.date in days ==> KeyOf(c, r).date != KeyOf(c, last).date;
      }
    }
  }

  lemma LastIsNew(front: seq<LabourRow>, c: Config, days: set<int>, last: LabourRow)
    ensures DistinctKeys(Pull(front, days) + [last], c) <==>
      DistinctKeys(Pull(front, days), c) && forall r :: r in front && r.date in days ==> KeyOf(c, r) != KeyOf(c, last)
  {
    DistinctAppend(Pull(front, days), c, last);
    forall r: LabourRow
      ensures r in Pull(front, days) <==> r in front && r.date in days
    {
      InPull(front, days, r);
    }
  }

  lemma DistinctOnAppend(api: seq<LabourRow>, c: Config, days: set<int>, n: nat)
    requires |api| == n + 1
    ensures DistinctOn(api, c, days) <==>
      DistinctOn(api[..n], c, days) && forall r :: r in api[..n] && r.date in days ==> KeyOf(c, r) != KeyOf(c, api[n])
  {
    var front := api[..n];
    assert forall i :: 0 <= i < n ==> front[i] == api[i] && front[i] in front;
    if DistinctOn(api, c, days) {
      forall r | r in front && r.date in days
        ensures KeyOf(c, r) != KeyOf(c, api[n])
      {
        var i :| 0 <= i < n && front[i] == r;
        assert api[i] == r;
      }
    }
  }

  lemma DistinctOnMore(api: seq<LabourRow>, c: Config, d: set<int>, e: set<int>)
    ensures DistinctOn(api, c, d + e) <==> DistinctOn(api, c, d) && DistinctOn(api, c, e)
  {
  }

  /** The database accepts a pull exactly when it accepts the API's rows on its dates. */
  lemma PullAcceptedIff(api: seq<LabourRow>, c: Config, days: set<int>)
    ensures Accepted(Pull(api, days), c) <==> AcceptedOn(api, c, days)
  {
    PullDistinctIff(api, c, days);
    forall r: LabourRow
      ensures r in Pull(api, days) <==> r in api && r.date in days
    {
      InPull(api, days, r);
    }
  }

  lemma AcceptedOnMore(api: seq<LabourRow>, c: Config, d: set<int>, e: set<int>)
    ensures AcceptedOn(api, c, d + e) <==> AcceptedOn(api, c, d) && AcceptedOn(api, c, e)
  {
    DistinctOnMore(api, c, d, e);
  }

  lemma {:induction false} WindowStarts(ws: seq<Range>, start: int, end: int, i: nat)
    requires Windows(ws, start, end, MAX_LABOUR_RANGE_DAYS) && i < |ws|
    ensures ws[i].first == start + 3 * i
    decreases i
  {
    if i > 0 {
      WindowStarts(ws, start, end, i - 1);
      assert ws[i - 1 + 1].first == ws[i - 1].last + 1;
    }
  }

  /** The number of windows of a range. */
  lemma WindowCount(ws: seq<Range>, start: int, end: int)
    requires Windows(ws, start, end, MAX_LABOUR_RANGE_DAYS) && ws != []
    ensures |ws| == (end - start) / (MAX_LABOUR_RANGE_DAYS + 1) + 1
  {
    WindowStarts(ws, start, end, |ws| - 1);
  }

  /** Pulling one more window extends what has been pulled so far. */
  lemma NextWindow(t: Table, c: Config, api: seq<LabourRow>, start: int, until: int, w: Range)
    requires start - 1 <= until < w.last && w.first == until + 1
    ensures var before, after := Days(Range(start, until)), Days(Range(start, w.last));
      && Upserted(Upserted(t, c, Pull(api, before)), c, Pull(api, Days(w))) == Upserted(t, c, Pull(api, after))
      && |Pull(api, after)| == |Pull(api, before)| + |Pull(api, Days(w))|
      && (AcceptedOn(api, c, after) <==> AcceptedOn(api, c, before) && AcceptedOn(api, c, Days(w)))
  {
    var before := Days(Range(start, until));
    assert Days(Range(start, w.last)) == before + Days(w);
    AcceptedOnMore(api, c, before, Days(w));
    SyncsMerge(t, c, api, before, Days(w));
    PullsAdd(api, before, Days(w));
  }

  class LabourSync {
    var table: Table
    var jobs: seq<Job>
    var lastSynced: Option<int>

    constructor (table: Table)
      ensures this.table == table && jobs == [] && lastSynced == None
    {
      this.table, jobs, lastSynced := table, [], None;
    }

    /** One INSERT .. ON CONFLICT DO UPDATE; the database refuses a statement that names a key twice or
        holds a row that does not fit its columns. */
    method UpsertRows(c: Config, rows: seq<LabourRow>) returns (r: Result<nat, SyncError>)
      modifies this`table
      ensures r == if Accepted(rows, c) then Ok(|rows|) else Err(Refused)
      ensures table == if r.Ok? then Upserted(old(table), c, rows) else old(table)
    {
      if !Accepted(rows, c) {
        return Err(Refused);
      }
      var n := 0;
      while n < |rows|
        invariant 0 <= n <= |rows|
        invariant table == Upserted(old(table), c, rows[..n])
      {
        assert rows[..n + 1][..n] == rows[..n];
        table := table[KeyOf(c, rows[n]) := RowOf(c, rows[n])];
        n := n + 1;
      }
      assert rows[..n] == rows;
      return Ok(|rows|);
    }

    /** Pulls and upserts the windows of the range; returns what it raises, if it does. */
    method PullWindows(c: Config, api: seq<LabourRow>, range: Range, failing: Option<nat>)
      returns (r: Result<nat, SyncError>)
      modifies this`table
      ensures r.Ok? <==> SyncSucceeds(c, api, range, failing)
      ensures r.Ok? ==> r.value == |Pull(api, Days(range))| && table == Upserted(old(table), c, Pull(api, Days(range)))
      ensures r.Err? ==> exists until: int ::
        && range.first - 1 <= until && (range.first <= range.last ==> until < range.last)
        && table == Upserted(old(table), c, Pull(api, Days(Range(range.first, until))))
      ensures r == Err(BadRange) <==> range.first > range.last
    {
      var start, end := range.first, range.last;
      var chunks := IterDateChunks(start, end, MAX_LABOUR_RANGE_DAYS);
      NothingToPull(api);
      assert Days(Range(start, start - 1)) == {};
      if chunks.Err? {
        return Err(BadRange);
      }
      var ws, total, n := chunks.value, 0, 0;
      ghost var until := start - 1;
      WindowsAscend(ws, start, end, MAX_LABOUR_RANGE_DAYS);
      WindowCount(ws, start, end);
      while n < |ws|
        invariant 0 <= n <= |ws|
        invariant until == if n == 0 then start - 1 else ws[n - 1].last
        invariant start - 1 <= until
        invariant total == |Pull(api, Days(Range(start, until)))|
        invariant table == Upserted(old(table), c, Pull(api, Days(Range(start, until))))
        invariant AcceptedOn(api, c, Days(Range(start, until)))
        invariant failing.None? || n <= failing.value
      {
        assert ws[n].last <= ws[|ws| - 1].last;
        if failing == Some(n) {
          return Err(PullFailed);
        }
        var w := ws[n];
        var rows := Pull(api, Days(w));
        PullAcceptedIff(api, c, Days(w));
        var done := UpsertRows(c, rows);
        if done.Err? {
          assert Days(range) == Days(range) + Days(w);
          AcceptedOnMore(api, c, Days(range), Days(w));
          return Err(done.error);
        }
        NextWindow(old(table), c, api, start, until, w);
        total, until, n := total + done.value, w.last, n + 1;
      }
      return Ok(total);
    }

    /** sync_range: records its job, and raises after marking it failed. */
    method SyncRange(c: Config, api: seq<LabourRow>, range: Range, failing: Option<nat>, now: int) returns (ok: bool)
      modifies this
      ensures ok <==> SyncSucceeds(c, api, range, failing)
      ensures ok ==> table == Upserted(old(table), c, Pull(api, Days(range))) && lastSynced == Some(now)
                     && jobs == old(jobs) + [Job(Succeeded, |Pull(api, Days(range))|)]
      ensures !ok ==> lastSynced == old(lastSynced) && exists e :: jobs == old(jobs) + [Job(Failed(e), 0)]
    {
      var mine := |jobs|;
      jobs := jobs + [Job(Running, 0)];
      var r := PullWindows(c, api, range, failing);
      if r.Err? {
        jobs := jobs[mine := Job(Failed(r.error), 0)];
        return false;
      }
      jobs := jobs[mine := Job(Succeeded, r.value)];
      lastSynced := Some(now);
      return true;
    }

    /** The worker or endpoint around a sync: commits after it, or leaves the session to be rolled back,
        and the failed job with it. */
    method RunSync(c: Config, api: seq<LabourRow>, range: Range, failing: Option<nat>, now: int) returns (ok: bool)
      modifies this
      ensures ok <==> SyncSucceeds(c, api, range, failing)
      ensures table == AfterSync(old(table), c, api, range, failing)
      ensures jobs == old(jobs) + if ok then [Job(Succeeded, |Pull(api, Days(range))|)] else []
      ensures lastSynced == if ok then Some(now) else old(lastSynced)
    {
      var begunTable, begunJobs, begunSynced := table, jobs, lastSynced;
      ok := SyncRange(c, api, range, failing, now);
      if !ok {
        table, jobs, lastSynced := begunTable, begunJobs, begunSynced;
      }
    }
  }

  /** After a sync the company's rows on its dates are exactly the API's if and only if it succeeded and
      no stored row had disappeared from the API, or it failed and they were before. */
  lemma ResyncCorrectsIff(t: Table, c: Config, api: seq<LabourRow>, r: Range, failing: Option<nat>)
    ensures Mirrors(AfterSync(t, c, api, r, failing), c, api, Days(r)) <==>
      if SyncSucceeds(c, api, r, failing) then forall k :: !Stale(t, c, api, Days(r), k)
      else Mirrors(t, c, api, Days(r))
  {
    UpsertMirrorsIff(t, c, api, Days(r));
  }

  /** A shift deleted upstream: its stored row survives a successful re-sync of its date. */
  lemma DeletedRowSurvives(c: Config, row: Row, day: int)
    ensures var k := Key(c.tenant, c.company, day, 1, 1, "regular");
      var after := AfterSync(map[k := row], c, [], Range(day, day), None);
      && SyncSucceeds(c, [], Range(day, day), None)
      && after == map[k := row] && !Mirrors(after, c, [], Days(Range(day, day)))
  {
    var k := Key(c.tenant, c.company, day, 1, 1, "regular");
    assert Pull([], Days(Range(day, day))) == [];
    assert day in Days(Range(day, day)) by {
      assert Range(day, day).Has(day);
    }
    assert Find([], c, k).None?;
  }

  /** Two rows without a position share position 0: nothing is stale, and yet the sync fails and stores neither. */
  lemma RepeatedKeyFailsTheSync(c: Config, day: int)
    ensures var r := LabourRow(day, 1, None, 0, None, "regular", 10.0, 1.0);
      var api := [r, r.(cost := 20.0)];
      var range := Range(day, day);
      && (forall k :: !Stale(map[], c, api, Days(range), k))
      && !SyncSucceeds(c, api, range, None)
      && AfterSync(map[], c, api, range, None) == map[] && !Mirrors(map[], c, api, Days(range))
  {
    var r := LabourRow(day, 1, None, 0, None, "regular", 10.0, 1.0);
    var api := [r, r.(cost := 20.0)];
    assert day in Days(Range(day, day)) by {
      assert Range(day, day).Has(day);
    }
    assert KeyOf(c, api[0]) == KeyOf(c, api[1]);
    assert Find(api, c, KeyOf(c, r)) == Some(api[1]);
  }

  /** A labour type of more than twenty characters: nothing is stale, no key repeats, and yet the sync fails. */
  lemma LongTypeFailsTheSync(c: Config, day: int)
    ensures var r := LabourRow(day, 1, None, 1, None, "statutory holiday premium", 10.0, 1.0);
      var range := Range(day, day);
      && (forall k :: !Stale(map[], c, [r], Days(range), k)) && DistinctOn([r], c, Days(range))
      && !SyncSucceeds(c, [r], range, None)
      && AfterSync(map[], c, [r], range, None) == map[] && !Mirrors(map[], c, [r], Days(range))
  {
    var r := LabourRow(day, 1, None, 1, None, "statutory holiday premium", 10.0, 1.0);
    assert day in Days(Range(day, day)) by {
      assert Range(day, day).Has(day);
    }
    assert [r][0] == r && !Fits(r);
    assert Find([r], c, KeyOf(c, r)) == Some(r);
  }

  // ---------------------------------------------------------------------------------------
  // What is stored of each row
  // ---------------------------------------------------------------------------------------

  lemma {:induction false} FindsDistinct(rows: seq<LabourRow>, c: Config, i: nat)
    requires DistinctKeys(rows, c) && i < |rows|
    ensures Find(rows, c, KeyOf(c, rows[i])) == Some(rows[i])
    decreases |rows|
  {
    var n := |rows| - 1;
    if i < n {
      FindsDistinct(rows[..n], c, i);
    }
  }

  /** After an upsert every row the API returned is stored under its date, employee, position and labour
      type, for the config's tenant and company, with its own cost, hours and names and the config's
      location. */
  lemma StoredAsReturned(t: Table, c: Config, rows: seq<LabourRow>, i: nat)
    requires DistinctKeys(rows, c) && i < |rows|
    ensures var r, after := rows[i], Upserted(t, c, rows);
      var k := Key(c.tenant, c.company, r.date, r.employee, r.position, r.labourType);
      && k in after
      && after[k].cost == r.cost && after[k].hours == r.hours
      && after[k].employeeName == r.employeeName && after[k].positionName == r.positionName
      && after[k].location == c.location
  {
    FindsDistinct(rows, c, i);
    UpsertedLookup(t, c, rows, KeyOf(c, rows[i]));
  }
}
