/**
 The labour API client: a sliding-window rate limiter shared by any number of callers, the
 split of a date range into windows the API accepts, and bounded retries.
 */
module PushClient {
  import opened Wrappers

  // ---------------------------------------------------------------------------------------
  // The rate limiter
  // ---------------------------------------------------------------------------------------

  const WINDOW: real := 60.0

  /** The deque of recent grants; `grants` lists every grant ever made. */
  datatype Limiter = Limiter(max: nat, hits: seq<real>, grants: seq<real>)

  function Prune(hits: seq<real>, now: real): seq<real> {
    if hits != [] && now - hits[0] >= WINDOW then Prune(hits[1..], now) else hits
  }

  /** One pass of acquire's loop, up to its return or its sleep: grants, or says how long to sleep. */
  function Attempt(s: Limiter, now: real): (Limiter, Option<real>)
    requires s.max > 0
  {
    var hits := Prune(s.hits, now);
    if |hits| < s.max then (Limiter(s.max, hits + [now], s.grants + [now]), None)
    else (s.(hits := hits), Some(WINDOW - (now - hits[0]) + 0.05))
  }

  /** Any number of acquirers: their passes in clock order. */
  function AfterAttempts(max: nat, clock: seq<real>): Limiter
    requires max > 0
    ensures AfterAttempts(max, clock).max == max
    decreases |clock|
  {
    if clock == [] then Limiter(max, [], [])
    else Attempt(AfterAttempts(max, clock[..|clock| - 1]), clock[|clock| - 1]).0
  }

  predicate Sorted(ts: seq<real>) {
    forall i, j :: 0 <= i < j < |ts| ==> ts[i] <= ts[j]
  }

  /** How many of the grants lie less than a minute before `now`. */
  function Recent(grants: seq<real>, now: real): nat {
    if grants == [] then 0
    else Recent(grants[..|grants| - 1], now) + if now - grants[|grants| - 1] < 60.0 then 1 else 0
  }

  /** The deque is a suffix of the sorted grants and every dropped grant is at least a minute old. */
  ghost predicate Valid(s: Limiter, now: real) {
    && |s.hits| <= s.max && |s.hits| <= |s.grants|
    && s.hits == s.grants[|s.grants| - |s.hits|..]
    && Sorted(s.grants)
    && (forall i :: 0 <= i < |s.grants| ==> s.grants[i] <= now)
    && (forall i :: 0 <= i < |s.grants| - |s.hits| ==> now - s.grants[i] >= WINDOW)
    && (forall i, j :: 0 <= i && i + s.max <= j < |s.grants| ==> s.grants[j] - s.grants[i] >= WINDOW)
  }

  lemma {:induction false} PruneDropsTheOld(hits: seq<real>, now: real)
    requires Sorted(hits)
    ensures var r := Prune(hits, now);
      && |r| <= |hits| && r == hits[|hits| - |r|..]
      && (forall i :: 0 <= i < |hits| - |r| ==> now - hits[i] >= WINDOW)
      && (forall i :: |hits| - |r| <= i < |hits| ==> now - hits[i] < WINDOW)
    decreases |hits|
  {
    if hits != [] && now - hits[0] >= WINDOW {
      PruneDropsTheOld(hits[1..], now);
      var r := Prune(hits, now);
      forall i | 0 <= i < |hits| - |r|
        ensures now - hits[i] >= WINDOW
      {
        if i > 0 {
          assert hits[1..][i - 1] == hits[i];
        }
      }
      forall i | |hits| - |r| <= i < |hits|
        ensures now - hits[i] < WINDOW
      {
        assert hits[1..][i - 1] == hits[i];
      }
    }
  }

  lemma SortedSuffix(ts: seq<real>, n: nat)
    requires Sorted(ts) && n <= |ts|
    ensures Sorted(ts[n..])
  {
  }

  lemma SuffixSplits(grants: seq<real>, hits: seq<real>, r: seq<real>, last: real, now: real)
    requires last <= now && |r| <= |hits| <= |grants|
    requires hits == grants[|grants| - |hits|..] && r == hits[|hits| - |r|..]
    requires forall i :: 0 <= i < |grants| - |hits| ==> last - grants[i] >= WINDOW
    requires forall i :: 0 <= i < |hits| - |r| ==> now - hits[i] >= WINDOW
    requires forall i :: |hits| - |r| <= i < |hits| ==> now - hits[i] < WINDOW
    ensures r == grants[|grants| - |r|..]
    ensures forall i :: 0 <= i < |grants| ==> (now - grants[i] >= WINDOW <==> i < |grants| - |r|)
  {
    var gone := |grants| - |hits|;
    forall i | 0 <= i < |grants|
      ensures now - grants[i] >= WINDOW <==> i < |grants| - |r|
    {
      if i >= gone {
        assert hits[i - gone] == grants[i];
      }
    }
  }

  /** After pruning at `now` the deque holds exactly the grants younger than a minute. */
  lemma PrunedIsRecent(s: Limiter, last: real, now: real)
    requires Valid(s, last) && last <= now
    ensures var r := Prune(s.hits, now);
      && |r| <= |s.hits| && r == s.grants[|s.grants| - |r|..]
      && (forall i :: 0 <= i < |s.grants| - |r| ==> now - s.grants[i] >= WINDOW)
      && (forall i :: |s.grants| - |r| <= i < |s.grants| ==> now - s.grants[i] < WINDOW)
  {
    PrunedSuffix(s.grants, s.hits, last, now);
  }

  lemma PrunedSuffix(grants: seq<real>, hits: seq<real>, last: real, now: real)
    requires last <= now && |hits| <= |grants| && Sorted(grants) && hits == grants[|grants| - |hits|..]
    requires forall i :: 0 <= i < |grants| - |hits| ==> last - grants[i] >= WINDOW
    ensures var r := Prune(hits, now);
      && |r| <= |hits| && r == grants[|grants| - |r|..]
      && forall i :: 0 <= i < |grants| ==> (now - grants[i] >= WINDOW <==> i < |grants| - |r|)
  {
    SortedSuffix(grants, |grants| - |hits|);
    PruneDropsTheOld(hits, now);
    SuffixSplits(grants, hits, Prune(hits, now), last, now);
  }

  lemma {:induction false} RecentCounts(grants: seq<real>, now: real, gone: nat)
    requires gone <= |grants|
    requires forall i :: 0 <= i < gone ==> now - grants[i] >= WINDOW
    requires forall i :: gone <= i < |grants| ==> now - grants[i] < WINDOW
    ensures Recent(grants, now) == |grants| - gone
    decreases |grants|
  {
    if grants != [] {
      RecentCounts(grants[..|grants| - 1], now, if gone == |grants| then gone - 1 else gone);
    }
  }

  lemma PruneKeepsValid(s: Limiter, last: real, now: real)
    requires Valid(s, last) && last <= now
    ensures Valid(s.(hits := Prune(s.hits, now)), now)
  {
    PrunedIsRecent(s, last, now);
  }

  lemma AttemptKeepsValid(s: Limiter, last: real, now: real)
    requires s.max > 0 && Valid(s, last) && last <= now
    ensures Valid(Attempt(s, now).0, now)
  {
    PruneKeepsValid(s, last, now);
    if |Prune(s.hits, now)| < s.max {
      GrantKeepsValid(s.max, s.grants, Prune(s.hits, now), now);
    }
  }

  /** A grant at `now` beside fewer than `max` grants younger than a minute. */
  lemma GrantKeepsValid(max: nat, grants: seq<real>, hits: seq<real>, now: real)
    requires |hits| < max && Valid(Limiter(max, hits, grants), now)
    ensures Valid(Limiter(max, hits + [now], grants + [now]), now)
  {
    var g := grants + [now];
    forall i, j | 0 <= i && i + max <= j < |g|
      ensures g[j] - g[i] >= WINDOW
    {
      if j < |grants| {
        assert grants[j] - grants[i] >= WINDOW;
      }
    }
  }

  lemma {:induction false} EveryRunKeepsValid(max: nat, clock: seq<real>)
    requires max > 0 && Sorted(clock) && clock != []
    ensures Valid(AfterAttempts(max, clock), clock[|clock| - 1])
    decreases |clock|
  {
    var n := |clock| - 1;
    if n == 0 {
      assert clock[..0] == [];
      AttemptKeepsValid(Limiter(max, [], []), clock[0], clock[0]);
    } else {
      EveryRunKeepsValid(max, clock[..n]);
      AttemptKeepsValid(AfterAttempts(max, clock[..n]), clock[n - 1], clock[n]);
    }
  }

  /** However many callers share the limiter, no window of less than a minute holds more than `max` grants. */
  lemma AtMostMaxPerMinute(max: nat, clock: seq<real>, i: nat, j: nat)
    requires max > 0 && Sorted(clock)
    requires i <= j < |AfterAttempts(max, clock).grants|
    ensures var g := AfterAttempts(max, clock).grants;
      g[j] - g[i] < 60.0 ==> j - i + 1 <= max
  {
    EveryRunKeepsValid(max, clock);
  }

  /** A pass is granted exactly when fewer than `max` grants are younger than a minute; a refused
      caller is told to sleep until just after the oldest of them expires. */
  ghost predicate GrantsByRoom(s: Limiter, now: real)
    requires s.max > 0
  {
    var sleep := Attempt(s, now).1;
    && (sleep.None? <==> Recent(s.grants, now) < s.max)
    && (sleep.Some? ==> |s.grants| >= s.max && now < now + sleep.value == s.grants[|s.grants| - s.max] + 60.05)
  }

  lemma ValidGrantsByRoom(s: Limiter, last: real, now: real)
    requires s.max > 0 && Valid(s, last) && last <= now
    ensures GrantsByRoom(s, now)
  {
    PrunedIsRecent(s, last, now);
    RecentCounts(s.grants, now, |s.grants| - |Prune(s.hits, now)|);
  }

  lemma EveryRunGrantsByRoom(max: nat, clock: seq<real>, now: real)
    requires max > 0 && Sorted(clock) && (clock != [] ==> clock[|clock| - 1] <= now)
    ensures GrantsByRoom(AfterAttempts(max, clock), now)
  {
    if clock != [] {
      EveryRunKeepsValid(max, clock);
    }
    ValidGrantsByRoom(AfterAttempts(max, clock), if clock == [] then now else clock[|clock| - 1], now);
  }

  /** Once the oldest of the recent grants has expired there is room again. */
  lemma SleepMakesRoom(s: Limiter, now: real, at: real)
    requires Valid(s, now) && s.hits != [] && |s.hits| == s.max && at >= s.hits[0] + WINDOW
    ensures |Prune(s.hits, at)| < s.max
  {
    assert Prune(s.hits, at) == Prune(s.hits[1..], at);
    PruneShrinks(s.hits[1..], at);
  }

  lemma {:induction false} PruneShrinks(hits: seq<real>, now: real)
    ensures |Prune(hits, now)| <= |hits|
    decreases |hits|
  {
    if hits != [] && now - hits[0] >= WINDOW {
      PruneShrinks(hits[1..], now);
    }
  }

  class RateLimiter {
    const max: nat
    var hits: seq<real>
    ghost var grants: seq<real>

    constructor (max: nat)
      ensures Abs() == Limiter(max, [], [])
    {
      this.max, hits, grants := max, [], [];
    }

    ghost function Abs(): Limiter
      reads this
    {
      Limiter(max, hits, grants)
    }

    method Pass(now: real) returns (sleep: Option<real>)
      requires max > 0
      modifies this
      ensures (Abs(), sleep) == Attempt(old(Abs()), now)
    {
      while hits != [] && now - hits[0] >= WINDOW
        invariant grants == old(grants)
        invariant Prune(hits, now) == Prune(old(hits), now)
        decreases |hits|
      {
        hits := hits[1..];
      }
      if |hits| < max {
        hits, grants := hits + [now], grants + [now];
        return None;
      }
      return Some(WINDOW - (now - hits[0]) + 0.05);
    }

    /** acquire() when no other caller runs meanwhile: `late` is how far its sleep overshoots. */
    method Acquire(now: real, late: real, ghost last: real) returns (at: real, passes: nat)
      requires max > 0 && late >= 0.0 && last <= now && Valid(Abs(), last)
      modifies this
      ensures Valid(Abs(), at) && now <= at && grants == old(grants) + [at]
      ensures 1 <= passes <= 2
    {
      AttemptKeepsValid(Abs(), last, now);
      PrunedIsRecent(Abs(), last, now);
      var sleep := Pass(now);
      if sleep.None? {
        return now, 1;
      }
      at := now + sleep.value + late;
      SleepMakesRoom(Abs(), now, at);
      AttemptKeepsValid(Abs(), now, at);
      sleep := Pass(at);
      passes := 2;
    }
  }

  // ---------------------------------------------------------------------------------------
  // Date windows
  // ---------------------------------------------------------------------------------------

  /** The API accepts start and end at most two days apart. */
  const MAX_LABOUR_RANGE_DAYS: nat := 2

  /** An inclusive range of day numbers. */
  datatype Range = Range(first: int, last: int) {
    predicate Has(day: int) {
      first <= day <= last
    }
  }

  datatype RangeError = StartAfterEnd

  /** Windows in order: none empty, none wider than allowed, each starting the day after the previous
      one ends, all but the last as wide as allowed. */
  ghost predicate Windows(ws: seq<Range>, start: int, end: int, span: nat) {
    && (forall i :: 0 <= i < |ws| ==> ws[i].first <= ws[i].last <= ws[i].first + span)
    && (forall i :: 0 <= i < |ws| - 1 ==> ws[i].last == ws[i].first + span && ws[i + 1].first == ws[i].last + 1)
    && (ws != [] ==> ws[0].first == start && ws[|ws| - 1].last == end)
    && (ws == [] ==> end == start - 1)
  }

  method IterDateChunks(start: int, end: int, span: nat) returns (r: Result<seq<Range>, RangeError>)
    ensures r.Err? <==> start > end
    ensures r.Ok? ==> r.value != [] && Windows(r.value, start, end, span)
    ensures r.Err? ==> r.error == StartAfterEnd
  {
    if start > end {
      return Err(StartAfterEnd);
    }
    var chunks, cursor := [], start;
    while cursor <= end
      invariant start <= cursor <= end + 1
      invariant Windows(chunks, start, cursor - 1, span)
      invariant cursor <= end ==> forall i :: 0 <= i < |chunks| ==> chunks[i].last == chunks[i].first + span
      decreases end + 1 - cursor
    {
      var last := if cursor + span < end then cursor + span else end;
      chunks := chunks + [Range(cursor, last)];
      cursor := last + 1;
    }
    return Ok(chunks);
  }

  /** Every date of the range is in exactly one window, and no other date is in any. */
  lemma {:induction false} WindowsPartition(ws: seq<Range>, start: int, end: int, span: nat, day: int)
    requires Windows(ws, start, end, span)
    ensures start <= day <= end <==> exists i :: 0 <= i < |ws| && ws[i].Has(day)
    ensures forall i, j :: 0 <= i < j < |ws| ==> ws[i].last < ws[j].first
    decreases |ws|
  {
    if |ws| > 1 {
      var n := |ws| - 1;
      WindowsPartition(ws[..n], start, ws[n - 1].last, span, day);
      WindowsAscend(ws, start, end, span);
      assert ws[n].Has(day) || !(ws[n - 1].last < day <= end);
      forall i | 0 <= i < n
        ensures ws[..n][i] == ws[i]
      {
      }
    } else if |ws| == 1 {
      assert ws[0].Has(day) <==> start <= day <= end;
    }
  }

  lemma {:induction false} WindowsAscend(ws: seq<Range>, start: int, end: int, span: nat)
    requires Windows(ws, start, end, span)
    ensures forall i, j :: 0 <= i < j < |ws| ==> ws[i].last < ws[j].first
    decreases |ws|
  {
    if |ws| > 1 {
      var n := |ws| - 1;
      WindowsAscend(ws[..n], start, ws[n - 1].last, span);
      forall i | 0 <= i < n
        ensures ws[i].last < ws[n].first
      {
        assert i < n - 1 ==> ws[..n][i].last < ws[..n][n - 1].first;
      }
      forall i, j | 0 <= i < j < |ws|
        ensures ws[i].last < ws[j].first
      {
        assert j < n ==> ws[..n][i].last < ws[..n][j].first;
      }
    }
  }

  // ---------------------------------------------------------------------------------------
  // Retries
  // ---------------------------------------------------------------------------------------

  /** A response: its status, and for a success status what the envelope says. Or the call itself
      raises, on a timeout or a lost connection. */
  datatype Envelope = Data | FailedPermission | FailedOther | Errors
  datatype Response = Response(status: int, envelope: Envelope) | NoResponse

  datatype Outcome = Success | AuthError | ApiError(status: int) | TransportError

  const MAX_ATTEMPT: nat := 3

  predicate Retryable(r: Response) {
    r.Response? && (r.status == 429 || r.status >= 500)
  }

  /** What _get makes of a response it does not retry. */
  function Verdict(r: Response): Outcome {
    if r.NoResponse? then TransportError
    else if r.status == 401 || r.status == 403 then AuthError
    else if r.status == 429 || r.status >= 400 then ApiError(r.status)
    else match r.envelope
      case Data => Success
      case FailedPermission => AuthError
      case _ => ApiError(0)
  }

  /** The recursion of _get. `replies[k]` answers the request of attempt k, `lates[k]` is how far its wait
      for a grant overshoots and `waits[k]` is the time from that grant to the next attempt; every
      request first takes a grant from the limiter. */
  method Get(limiter: RateLimiter, replies: seq<Response>, waits: seq<real>, lates: seq<real>, attempt: nat, now: real)
    returns (outcome: Outcome, ghost requests: nat, ghost done: real)
    requires attempt <= MAX_ATTEMPT && |replies| == |waits| == |lates| == MAX_ATTEMPT + 1
    requires forall k :: 0 <= k < |lates| ==> lates[k] >= 0.0
    requires limiter.max > 0 && Valid(limiter.Abs(), now) && forall k :: 0 <= k < |waits| ==> waits[k] >= 0.0
    modifies limiter
    ensures 1 <= requests <= 4 - attempt
    ensures |limiter.grants| == old(|limiter.grants|) + requests && Valid(limiter.Abs(), done)
    ensures forall k :: attempt <= k < attempt + requests - 1 ==> Retryable(replies[k])
    ensures Retryable(replies[attempt + requests - 1]) ==> attempt + requests == 4
    ensures outcome == Verdict(replies[attempt + requests - 1])
    decreases MAX_ATTEMPT - attempt
  {
    var at, passes := limiter.Acquire(now, lates[attempt], now);
    requests, done := 1, at;
    var resp := replies[attempt];
    if resp.NoResponse? {
      return TransportError, requests, done;
    }
    if resp.status == 429 || resp.status >= 500 {
      if attempt >= MAX_ATTEMPT {
        return ApiError(resp.status), requests, done;
      }
      StillValid(limiter.Abs(), at, at + waits[attempt]);
      outcome, requests, done := Get(limiter, replies, waits, lates, attempt + 1, at + waits[attempt]);
      return outcome, requests + 1, done;
    }
    if resp.status == 401 || resp.status == 403 {
      return AuthError, requests, done;
    }
    if resp.status >= 400 {
      return ApiError(resp.status), requests, done;
    }
    match resp.envelope
    case Data => outcome := Success;
    case FailedPermission => outcome := AuthError;
    case _ => outcome := ApiError(0);
  }

  lemma StillValid(s: Limiter, now: real, later: real)
    requires Valid(s, now) && now <= later
    ensures Valid(s, later)
  {
  }

  /** What is retried, and what each final response means, status by status. */
  lemma OutcomesByStatus(r: Response)
    ensures Retryable(r) <==> r.Response? && (r.status == 429 || r.status >= 500)
    ensures Verdict(r) == Success <==> r.Response? && r.status < 400 && r.envelope == Data
    ensures Verdict(r) == AuthError <==>
      r.Response? && (r.status == 401 || r.status == 403 || (r.status < 400 && r.envelope == FailedPermission))
    ensures Verdict(r) == TransportError <==> r == NoResponse
    ensures r.Response? && r.status >= 400 && r.status != 401 && r.status != 403 ==> Verdict(r) == ApiError(r.status)
    ensures r.Response? && r.status < 400 && (r.envelope == FailedOther || r.envelope == Errors) ==>
      Verdict(r) == ApiError(0)
  {
  }
}
