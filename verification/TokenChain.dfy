/**
 Refresh-token rotation on the server: login starts a chain of refresh tokens, every
 refresh revokes the presented token and appends its successor, logout revokes.

 Each service call is one transaction; a raised error rolls the transaction back.
 */
module TokenChain {
  import opened Wrappers

  type UserId = nat

  /** The secret a client holds. */
  type Raw = nat

  /** SHA-256 of a raw token, taken as injective. */
  datatype Digest = Sha256(raw: Raw)

  /** Seven days, in microseconds. */
  const REFRESH_LIFETIME: int := 7 * 86_400_000_000

  datatype Row = Row(userId: UserId, expiresAt: int, revoked: bool)

  datatype AuthError = InvalidCredentials | InvalidToken | UserInactive | HashTaken

  /** The refresh_tokens table keyed by its unique token_hash, and users with their is_active
      flag. `chain` records which login a token descends from; no code reads it. */
  datatype State = State(
    tokens: map<Digest, Row>,
    users: map<UserId, bool>,
    chain: map<Digest, nat>,
    logins: nat)
  {
    /** The filter of get_refresh_token, apart from expiry. */
    predicate Live(d: Digest) {
      d in tokens && !tokens[d].revoked
    }

    predicate Active(u: UserId) {
      u in users && users[u]
    }

    ghost predicate DeadChain(n: nat) {
      forall d :: Live(d) && d in chain ==> chain[d] != n
    }

    /** What every run keeps: each chain has at most one unrevoked token. */
    ghost predicate Valid() {
      && chain.Keys == tokens.Keys
      && (forall d :: d in chain ==> chain[d] < logins)
      && (forall d, e :: Live(d) && Live(e) && d in chain && e in chain && chain[d] == chain[e] ==> d == e)
    }
  }

  function Revoked(tokens: map<Digest, Row>, d: Digest): map<Digest, Row> {
    if d in tokens then tokens[d := tokens[d].(revoked := true)] else tokens
  }

  function RevokedForUser(tokens: map<Digest, Row>, u: UserId): map<Digest, Row> {
    map d | d in tokens :: if tokens[d].userId == u then tokens[d].(revoked := true) else tokens[d]
  }

  /** `credentials` is the active user that the email and password identify, if any. */
  function LoginTx(s: State, now: int, credentials: Option<UserId>, raw: Raw): (State, Result<Raw, AuthError>) {
    var d := Sha256(raw);
    if credentials.None? || !s.Active(credentials.value) then (s, Err(InvalidCredentials))
    else if d in s.tokens then (s, Err(HashTaken))
    else (s.(tokens := s.tokens[d := Row(credentials.value, now + REFRESH_LIFETIME, false)],
             chain := s.chain[d := s.logins],
             logins := s.logins + 1), Ok(raw))
  }

  function RefreshTx(s: State, now: int, raw: Raw, next: Raw): (State, Result<Raw, AuthError>) {
    var d := Sha256(raw);
    if !s.Live(d) || s.tokens[d].expiresAt <= now then (s, Err(InvalidToken))
    else
      var user := s.tokens[d].userId;
      if !s.Active(user) then (s, Err(UserInactive))
      else if Sha256(next) in s.tokens then (s, Err(HashTaken))
      else (s.(tokens := Revoked(s.tokens, d)[Sha256(next) := Row(user, now + REFRESH_LIFETIME, false)],
               chain := if d in s.chain then s.chain[Sha256(next) := s.chain[d]] else s.chain), Ok(next))
  }

  function LogoutTx(s: State, raw: Raw): State {
    s.(tokens := Revoked(s.tokens, Sha256(raw)))
  }

  /** Every way the token table changes, one transaction each; `SetActive` is an administrator's edit. */
  datatype Call =
    | Login(now: int, credentials: Option<UserId>, raw: Raw)
    | Refresh(now: int, raw: Raw, next: Raw)
    | Logout(raw: Raw)
    | RevokeAll(user: UserId)
    | SetActive(user: UserId, active: bool)

  function Apply(s: State, call: Call): State {
    match call
    case Login(now, credentials, raw) => LoginTx(s, now, credentials, raw).0
    case Refresh(now, raw, next) => RefreshTx(s, now, raw, next).0
    case Logout(raw) => LogoutTx(s, raw)
    case RevokeAll(user) => s.(tokens := RevokedForUser(s.tokens, user))
    case SetActive(user, active) => s.(users := s.users[user := active])
  }

  function After(s: State, calls: seq<Call>): State
    decreases |calls|
  {
    if calls == [] then s else Apply(After(s, calls[..|calls| - 1]), calls[|calls| - 1])
  }

  const EMPTY: State := State(map[], map[], map[], 0)

  predicate Refreshes(s: State, call: Call, raw: Raw) {
    call.Refresh? && call.raw == raw && RefreshTx(s, call.now, raw, call.next).1.Ok?
  }

  // ---------------------------------------------------------------------------------------
  // The repository and the service, as they update their rows
  // ---------------------------------------------------------------------------------------

  class UserRepository {
    var tokens: map<Digest, Row>
    var users: map<UserId, bool>

    constructor ()
      ensures tokens == map[] && users == map[]
    {
      tokens, users := map[], map[];
    }

    method CreateRefreshToken(userId: UserId, now: int, raw: Raw) returns (r: Result<Raw, AuthError>)
      modifies this`tokens
      ensures r == if Sha256(raw) in old(tokens) then Err(HashTaken) else Ok(raw)
      ensures r.Err? ==> tokens == old(tokens)
      ensures r.Ok? ==> tokens == old(tokens)[Sha256(raw) := Row(userId, now + REFRESH_LIFETIME, false)]
    {
      if Sha256(raw) in tokens {
        return Err(HashTaken);
      }
      tokens := tokens[Sha256(raw) := Row(userId, now + REFRESH_LIFETIME, false)];
      return Ok(raw);
    }

    method GetRefreshToken(now: int, raw: Raw) returns (r: Result<Row, AuthError>)
      ensures r.Ok? <==> Sha256(raw) in tokens && !tokens[Sha256(raw)].revoked && now < tokens[Sha256(raw)].expiresAt
      ensures r.Ok? ==> r.value == tokens[Sha256(raw)]
      ensures r.Err? ==> r.error == InvalidToken
    {
      var d := Sha256(raw);
      if d in tokens && !tokens[d].revoked && tokens[d].expiresAt > now {
        return Ok(tokens[d]);
      }
      return Err(InvalidToken);
    }

    method RevokeRefreshToken(raw: Raw)
      modifies this`tokens
      ensures tokens == Revoked(old(tokens), Sha256(raw))
    {
      var d := Sha256(raw);
      if d in tokens {
        tokens := tokens[d := tokens[d].(revoked := true)];
      }
    }

    method RevokeAllUserTokens(userId: UserId)
      modifies this`tokens
      ensures tokens == RevokedForUser(old(tokens), userId)
    {
      tokens := map d | d in tokens ::
        if tokens[d].userId == userId && !tokens[d].revoked then tokens[d].(revoked := true) else tokens[d];
    }
  }

  class AuthService {
    const repo: UserRepository
    ghost var chain: map<Digest, nat>
    ghost var logins: nat

    constructor (repo: UserRepository)
      requires repo.tokens == map[]
      ensures this.repo == repo && Abs() == EMPTY.(users := repo.users) && Abs().Valid()
    {
      this.repo := repo;
      chain, logins := map[], 0;
    }

    ghost function Abs(): State
      reads this, repo
    {
      State(repo.tokens, repo.users, chain, logins)
    }

    method Login(now: int, credentials: Option<UserId>, raw: Raw) returns (r: Result<Raw, AuthError>)
      modifies this, repo`tokens
      ensures (Abs(), r) == LoginTx(old(Abs()), now, credentials, raw)
    {
      if credentials.None? || credentials.value !in repo.users || !repo.users[credentials.value] {
        return Err(InvalidCredentials);
      }
      r := repo.CreateRefreshToken(credentials.value, now, raw);
      if r.Ok? {
        chain, logins := chain[Sha256(raw) := logins], logins + 1;
      }
    }

    /** Revokes first and checks the user afterwards; the error paths roll the revocation back. */
    method Refresh(now: int, raw: Raw, next: Raw) returns (r: Result<Raw, AuthError>)
      modifies this`chain, repo`tokens
      ensures (Abs(), r) == RefreshTx(old(Abs()), now, raw, next)
    {
      var token := repo.GetRefreshToken(now, raw);
      if token.Err? {
        return Err(token.error);
      }
      var begun := repo.tokens;
      repo.RevokeRefreshToken(raw);
      var user := token.value.userId;
      if user !in repo.users || !repo.users[user] {
        repo.tokens := begun;
        return Err(UserInactive);
      }
      r := repo.CreateRefreshToken(user, now, next);
      if r.Err? {
        repo.tokens := begun;
      } else if Sha256(raw) in chain {
        chain := chain[Sha256(next) := chain[Sha256(raw)]];
      }
    }

    method Logout(raw: Raw)
      modifies repo`tokens
      ensures Abs() == LogoutTx(old(Abs()), raw)
    {
      repo.RevokeRefreshToken(raw);
    }
  }

  // ---------------------------------------------------------------------------------------
  // What every run keeps
  // ---------------------------------------------------------------------------------------

  lemma ApplyKeepsValid(s: State, call: Call)
    requires s.Valid()
    ensures Apply(s, call).Valid()
  {
    match call
    case Login(now, credentials, raw) => LoginKeepsValid(s, now, credentials, raw);
    case Refresh(now, raw, next) => RefreshKeepsValid(s, now, raw, next);
    case _ =>
      forall d | Apply(s, call).Live(d)
        ensures s.Live(d)
      {
      }
  }

  lemma LoginKeepsValid(s: State, now: int, credentials: Option<UserId>, raw: Raw)
    requires s.Valid()
    ensures LoginTx(s, now, credentials, raw).0.Valid()
  {
    var t := LoginTx(s, now, credentials, raw).0;
    forall d | t.Live(d) && d in s.tokens
      ensures s.Live(d)
    {
    }
  }

  lemma RefreshKeepsValid(s: State, now: int, raw: Raw, next: Raw)
    requires s.Valid()
    ensures RefreshTx(s, now, raw, next).0.Valid()
  {
    var (t, r) := RefreshTx(s, now, raw, next);
    if r.Ok? {
      forall d | t.Live(d) && d != Sha256(next)
        ensures s.Live(d) && d != Sha256(raw)
      {
      }
    }
  }

  /** Every login's chain has at most one unrevoked token, whatever calls have been made. */
  lemma {:induction false} AtMostOneLivePerChain(calls: seq<Call>)
    ensures After(EMPTY, calls).Valid()
    decreases |calls|
  {
    if calls != [] {
      AtMostOneLivePerChain(calls[..|calls| - 1]);
      ApplyKeepsValid(After(EMPTY, calls[..|calls| - 1]), calls[|calls| - 1]);
    }
  }

  /** Splitting a run: the state after a longer run is reached from the state after a prefix. */
  lemma {:induction false} AfterSplit(s: State, calls: seq<Call>, i: nat)
    requires i <= |calls|
    ensures After(s, calls) == After(After(s, calls[..i]), calls[i..])
    decreases |calls|
  {
    if i == |calls| {
      assert calls[..i] == calls && calls[i..] == [];
    } else {
      var n := |calls| - 1;
      AfterSplit(s, calls[..n], i);
      assert calls[..n][..i] == calls[..i];
      assert calls[i..][..n - i] == calls[..n][i..];
      assert calls[i..][n - i] == calls[n];
    }
  }

  /** One call keeps every row, its chain and its revocation. */
  lemma ApplyKeepsRows(s: State, call: Call, d: Digest)
    requires s.Valid() && d in s.tokens
    ensures var t := Apply(s, call);
      && d in t.tokens && (s.tokens[d].revoked ==> t.tokens[d].revoked)
      && d in t.chain && t.chain[d] == s.chain[d]
  {
  }

  /** Revocation is never undone, rows are never removed and never change chain. */
  lemma {:induction false} RevocationIsPermanent(s: State, calls: seq<Call>, d: Digest)
    requires s.Valid() && d in s.tokens
    ensures var t := After(s, calls);
      && t.Valid() && d in t.tokens && (s.tokens[d].revoked ==> t.tokens[d].revoked)
      && t.chain[d] == s.chain[d]
    decreases |calls|
  {
    if calls != [] {
      RevocationIsPermanent(s, calls[..|calls| - 1], d);
      var before := After(s, calls[..|calls| - 1]);
      ApplyKeepsValid(before, calls[|calls| - 1]);
      ApplyKeepsRows(before, calls[|calls| - 1], d);
    }
  }

  /** A raw token refreshes successfully at most once in any run. */
  lemma RefreshesAtMostOnce(calls: seq<Call>, i: nat, j: nat, raw: Raw)
    requires i < j < |calls|
    requires Refreshes(After(EMPTY, calls[..i]), calls[i], raw)
    ensures !Refreshes(After(EMPTY, calls[..j]), calls[j], raw)
  {
    AtMostOneLivePerChain(calls[..i + 1]);
    assert calls[..i + 1][..i] == calls[..i];
    AfterSplit(EMPTY, calls[..j], i + 1);
    assert calls[..j][..i + 1] == calls[..i + 1];
    RevocationIsPermanent(After(EMPTY, calls[..i + 1]), calls[..j][i + 1..], Sha256(raw));
  }

  /** A refresh that succeeds moves the chain's single live token from the old secret to the new one. */
  lemma RefreshMovesTheLiveToken(s: State, now: int, raw: Raw, next: Raw)
    requires s.Valid() && RefreshTx(s, now, raw, next).1.Ok?
    ensures var t := RefreshTx(s, now, raw, next).0;
      && t.Valid()
      && !t.Live(Sha256(raw)) && t.Live(Sha256(next))
      && t.chain[Sha256(next)] == s.chain[Sha256(raw)] == t.chain[Sha256(raw)]
      && (forall d :: t.Live(d) && t.chain[d] == s.chain[Sha256(raw)] ==> d == Sha256(next))
      && (forall d :: d != Sha256(raw) && d != Sha256(next) ==> (t.Live(d) <==> s.Live(d)))
  {
    ApplyKeepsValid(s, Refresh(now, raw, next));
  }

  lemma ApplyKeepsDeadChain(s: State, call: Call, n: nat)
    requires s.Valid() && n < s.logins && s.DeadChain(n)
    ensures Apply(s, call).DeadChain(n) && n < Apply(s, call).logins
  {
    var t := Apply(s, call);
    forall d | t.Live(d) && d in t.chain
      ensures t.chain[d] != n
    {
      assert d in s.tokens ==> s.Live(d);
    }
  }

  /** A chain without a live token never gets one back. */
  lemma {:induction false} DeadChainStaysDead(s: State, calls: seq<Call>, n: nat)
    requires s.Valid() && n < s.logins && s.DeadChain(n)
    ensures var t := After(s, calls);
      t.Valid() && t.DeadChain(n) && n < t.logins
    decreases |calls|
  {
    if calls != [] {
      DeadChainStaysDead(s, calls[..|calls| - 1], n);
      var before := After(s, calls[..|calls| - 1]);
      ApplyKeepsValid(before, calls[|calls| - 1]);
      ApplyKeepsDeadChain(before, calls[|calls| - 1], n);
    }
  }

  /** After logout, the presented token's chain is dead exactly when that token was the chain's
      current one or the chain was dead already. */
  lemma LogoutKillsChainIff(s: State, raw: Raw)
    requires s.Valid() && Sha256(raw) in s.tokens
    ensures var n := s.chain[Sha256(raw)];
      LogoutTx(s, raw).DeadChain(n) <==> s.Live(Sha256(raw)) || s.DeadChain(n)
  {
    var n := s.chain[Sha256(raw)];
    var t := LogoutTx(s, raw);
    if !s.Live(Sha256(raw)) && !s.DeadChain(n) {
      var d :| s.Live(d) && d in s.chain && s.chain[d] == n;
      assert t.Live(d);
    }
    forall d | t.Live(d) && d in t.chain && (s.Live(Sha256(raw)) || s.DeadChain(n))
      ensures t.chain[d] != n
    {
      assert s.Live(d);
    }
  }

  /** Logging out with a chain's current token ends the session: whatever is called afterwards,
      no token of that chain ever refreshes again. */
  lemma LogoutEndsTheChain(before: seq<Call>, raw: Raw, later: seq<Call>, call: Call, token: Raw)
    requires After(EMPTY, before).Live(Sha256(raw)) && Sha256(raw) in After(EMPTY, before).chain
    requires var t := After(LogoutTx(After(EMPTY, before), raw), later);
      Sha256(token) in t.chain && t.chain[Sha256(token)] == After(EMPTY, before).chain[Sha256(raw)]
    ensures !Refreshes(After(LogoutTx(After(EMPTY, before), raw), later), call, token)
  {
    var s := After(EMPTY, before);
    AtMostOneLivePerChain(before);
    LogoutKillsChainIff(s, raw);
    ApplyKeepsValid(s, Logout(raw));
    DeadChainStaysDead(LogoutTx(s, raw), later, s.chain[Sha256(raw)]);
  }

  // ---------------------------------------------------------------------------------------
  // What each call does to the rows
  // ---------------------------------------------------------------------------------------

  /** A login succeeds exactly for an active user's credentials and an unused secret; the new row is that
      user's, unrevoked, and expires seven days later. Nothing else changes. */
  lemma LoginIssues(s: State, now: int, credentials: Option<UserId>, raw: Raw)
    ensures var (t, r) := LoginTx(s, now, credentials, raw);
      && (r.Ok? <==> credentials.Some? && credentials.value in s.users && s.users[credentials.value]
                     && Sha256(raw) !in s.tokens)
      && (r.Err? ==> t == s)
      && (r.Ok? ==>
            && r.value == raw && Sha256(raw) in t.tokens
            && t.tokens[Sha256(raw)].userId == credentials.value && !t.tokens[Sha256(raw)].revoked
            && t.tokens[Sha256(raw)].expiresAt - now == 7 * 24 * 60 * 60 * 1_000_000
            && t.tokens - {Sha256(raw)} == s.tokens && t.users == s.users)
  {
    if Sha256(raw) !in s.tokens {
      assert LoginTx(s, now, credentials, raw).0.tokens - {Sha256(raw)} == s.tokens;
    }
  }

  /** A refresh succeeds exactly for a known, unrevoked, unexpired token of an active user and an unused
      secret; the old row is revoked, the new one is the same user's, unrevoked, and expires seven days
      later. Nothing else changes. */
  lemma RefreshRotates(s: State, now: int, raw: Raw, next: Raw)
    ensures var (t, r) := RefreshTx(s, now, raw, next);
      var d, e := Sha256(raw), Sha256(next);
      && (r.Ok? <==> d in s.tokens && !s.tokens[d].revoked && now < s.tokens[d].expiresAt
                     && s.tokens[d].userId in s.users && s.users[s.tokens[d].userId] && e !in s.tokens)
      && (r.Err? ==> t == s)
      && (r.Ok? ==>
            && r.value == next && t.tokens.Keys == s.tokens.Keys + {e} && t.users == s.users
            && t.tokens[d].revoked && t.tokens[d].userId == s.tokens[d].userId
            && t.tokens[e].userId == s.tokens[d].userId && !t.tokens[e].revoked
            && t.tokens[e].expiresAt - now == 7 * 24 * 60 * 60 * 1_000_000
            && forall x :: x in s.tokens && x != d ==> t.tokens[x] == s.tokens[x])
  {
  }

  /** Logging out revokes the presented token, and revoking a user's tokens all of that user's; no other
      token changes, and no row appears or goes. */
  lemma RevocationsInFields(s: State, raw: Raw, user: UserId, d: Digest)
    requires d in s.tokens
    ensures var t := LogoutTx(s, raw);
      t.tokens.Keys == s.tokens.Keys && t.users == s.users
      && (t.tokens[d].revoked <==> s.tokens[d].revoked || d.raw == raw)
    ensures var t := Apply(s, RevokeAll(user));
      t.tokens.Keys == s.tokens.Keys && t.users == s.users
      && (t.tokens[d].revoked <==> s.tokens[d].revoked || s.tokens[d].userId == user)
  {
  }
}
