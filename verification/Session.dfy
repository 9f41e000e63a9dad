/**
 The whole session protocol: one tab, any number of requests, and the server's token table,
 interleaved in every possible way.
 */
module Session {
  import opened Wrappers
  import opened Sequences
  import TC = TokenChain
  import opened ApiClient

  type Raw = TC.Raw

  /** The shared refresh call on the network: posted, then answered by the server's transaction. */
  datatype Call = NoCall | Posted(token: Raw) | Replied(token: Raw, reply: Option<Pair>)

  /** `presented` lists the refresh tokens the tab has posted, `newest` is the last pair issued to
      it, and `firsts` counts the 401s answering a first try. */
  datatype Sys = Sys(client: Client, server: TC.State, call: Call, presented: seq<Raw>, newest: Pair, firsts: nat)

  datatype Step =
    | Issue(id: Id)
    | Answer(id: Id, status: Status)
    | Serve(now: int, access: Access, next: Raw)
    | Reply(lost: bool)
    | Backend(other: TC.Call)     // anything else that happens at the server

  predicate Enabled(s: Sys, step: Step) {
    match step
    case Issue(id) => id !in s.client.phase
    case Answer(id, _) => s.client.OnWire(id)
    case Serve(_, _, _) => s.call.Posted?
    case Reply(lost) => if lost then s.call != NoCall else s.call.Replied?
    case Backend(_) => true
  }

  function Next(s: Sys, step: Step): Sys
    requires Enabled(s, step)
  {
    match step
    case Issue(id) => s.(client := ApiClient.Issue(s.client, id))
    case Answer(id, status) =>
      var (c, posted) := ApiClient.Answer(s.client, id, status);
      var first := status == Unauthorized && s.client.phase[id] == FirstTry;
      var t := s.(client := c, firsts := s.firsts + if first then 1 else 0);
      if posted.None? then t else t.(call := Posted(posted.value), presented := s.presented + [posted.value])
    case Serve(now, access, next) =>
      var (server, r) := TC.RefreshTx(s.server, now, s.call.token, next);
      if r.Err? then s.(call := Replied(s.call.token, None))
      else
        var pair := Pair(access, r.value);
        s.(server := server, newest := pair, call := Replied(s.call.token, Some(pair)))
    case Reply(lost) =>
      s.(client := Settle(s.client, if lost then None else s.call.reply), call := NoCall)
    case Backend(other) => s.(server := TC.Apply(s.server, other))
  }

  // ---------------------------------------------------------------------------------------
  // The invariant
  // ---------------------------------------------------------------------------------------

  /** The tab's own bookkeeping: the queue holds exactly the waiting requests, once each; there is
      a pending refresh exactly while someone waits; no request is sent more than twice. */
  ghost predicate ClientInv(c: Client) {
    && Distinct(c.queue)
    && c.sent.Keys == c.phase.Keys
    && (forall id :: id in c.queue <==> id in c.phase && c.phase[id] == Queued)
    && (c.refreshing <==> c.queue != [])
    && (forall id :: id in c.phase ==> 1 <= |c.sent[id]| <= 2)
    && (forall id :: id in c.phase && c.phase[id] in {FirstTry, Queued} ==> |c.sent[id]| == 1)
    && (forall id :: id in c.phase && c.phase[id] == Retried ==> |c.sent[id]| == 2)
  }

  /** The call on the network is the one the tab is waiting for, posted with the stored token, which
      the tab has posted only this once; an idle tab's stored pair is the newest one issued to it,
      and it has never posted that token. */
  ghost predicate CallInv(s: Sys) {
    && (s.client.refreshing ==> s.client.tokens.Some?)
    && (s.client.refreshing <==> s.call != NoCall)
    && Distinct(s.presented)
    && (forall t :: t in s.presented ==> TC.Sha256(t) in s.server.tokens)
    && (s.client.tokens.Some? ==> TC.Sha256(s.client.tokens.value.refresh) in s.server.tokens)
    && (s.call != NoCall ==>
          s.presented != [] && s.presented[|s.presented| - 1] == s.call.token == s.client.tokens.value.refresh)
    && (s.call.Replied? && s.call.reply.Some? ==>
          && s.call.reply.value == s.newest && s.newest.refresh !in s.presented
          && TC.Sha256(s.newest.refresh) in s.server.tokens)
    && (!s.client.refreshing && s.client.tokens.Some? ==>
          s.client.tokens.value == s.newest && s.newest.refresh !in s.presented)
  }

  ghost predicate Inv(s: Sys) {
    && ClientInv(s.client)
    && s.server.Valid()
    && CallInv(s)
    && |s.presented| <= s.firsts
  }

  /** A tab signed in with a pair the server knows, nothing sent yet. */
  function Initial(server: TC.State, pair: Pair): Sys {
    Sys(Client(Some(pair), false, map[], [], map[]), server, NoCall, [], pair, 0)
  }

  lemma IssueKeepsClientInv(c: Client, id: Id)
    requires ClientInv(c) && id !in c.phase
    ensures ClientInv(ApiClient.Issue(c, id))
  {
  }

  lemma AnswerKeepsClientInv(c: Client, id: Id, status: Status)
    requires ClientInv(c) && c.OnWire(id)
    ensures ClientInv(ApiClient.Answer(c, id, status).0)
  {
    if ApiClient.Answer(c, id, status).0.phase[id] == Queued {
      QueueingKeepsClientInv(c, id);
    } else {
      assert id !in c.queue;
    }
  }

  lemma QueueingKeepsClientInv(c: Client, id: Id)
    requires ClientInv(c) && id in c.phase && c.phase[id] == FirstTry
    ensures ClientInv(c.(phase := c.phase[id := Queued], queue := c.queue + [id], refreshing := true))
  {
    assert id !in c.queue;
    assert forall x :: x in c.queue + [id] <==> x in c.queue || x == id;
  }

  lemma SettleKeepsClientInv(c: Client, reply: Option<Pair>)
    requires ClientInv(c)
    ensures ClientInv(Settle(c, reply))
  {
  }

  lemma AnswerKeepsInv(s: Sys, id: Id, status: Status)
    requires Inv(s) && Enabled(s, Answer(id, status))
    ensures Inv(Next(s, Answer(id, status)))
  {
    AnswerKeepsClientInv(s.client, id, status);
    if ApiClient.Answer(s.client, id, status).1.Some? {
      PostKeepsInv(s, id);
    }
  }

  /** The first-time 401 that starts a refresh. */
  lemma PostKeepsInv(s: Sys, id: Id)
    requires Inv(s) && Enabled(s, Answer(id, Unauthorized)) && ApiClient.Answer(s.client, id, Unauthorized).1.Some?
    ensures CallInv(Next(s, Answer(id, Unauthorized)))
  {
    var t := Next(s, Answer(id, Unauthorized));
    assert t.presented == s.presented + [s.client.tokens.value.refresh];
  }

  lemma ServeKeepsInv(s: Sys, now: int, access: Access, next: Raw)
    requires Inv(s) && Enabled(s, Serve(now, access, next))
    ensures Inv(Next(s, Serve(now, access, next)))
  {
    var call := TC.Refresh(now, s.call.token, next);
    TC.ApplyKeepsValid(s.server, call);
    forall d | d in s.server.tokens
      ensures d in TC.Apply(s.server, call).tokens
    {
      TC.ApplyKeepsRows(s.server, call, d);
    }
    if TC.RefreshTx(s.server, now, s.call.token, next).1.Ok? {
      assert TC.Sha256(next) !in s.server.tokens;
    }
  }

  lemma ReplyKeepsInv(s: Sys, lost: bool)
    requires Inv(s) && Enabled(s, Reply(lost))
    ensures Inv(Next(s, Reply(lost)))
  {
    SettleKeepsClientInv(s.client, if lost then None else s.call.reply);
  }

  lemma BackendKeepsInv(s: Sys, other: TC.Call)
    requires Inv(s)
    ensures Inv(Next(s, Backend(other)))
  {
    TC.ApplyKeepsValid(s.server, other);
    forall d | d in s.server.tokens
      ensures d in TC.Apply(s.server, other).tokens
    {
      TC.ApplyKeepsRows(s.server, other, d);
    }
  }

  lemma NextKeepsInv(s: Sys, step: Step)
    requires Inv(s) && Enabled(s, step)
    ensures Inv(Next(s, step))
  {
    match step
    case Issue(id) => IssueKeepsClientInv(s.client, id);
    case Answer(id, status) => AnswerKeepsInv(s, id, status);
    case Serve(now, access, next) => ServeKeepsInv(s, now, access, next);
    case Reply(lost) => ReplyKeepsInv(s, lost);
    case Backend(other) => BackendKeepsInv(s, other);
  }

  // ---------------------------------------------------------------------------------------
  // Every run
  // ---------------------------------------------------------------------------------------

  /** A run takes its steps in order; a step that is not enabled does nothing. */
  function Do(s: Sys, step: Step): Sys {
    if Enabled(s, step) then Next(s, step) else s
  }

  function End(s: Sys, steps: seq<Step>): Sys
    decreases |steps|
  {
    if steps == [] then s else Do(End(s, steps[..|steps| - 1]), steps[|steps| - 1])
  }

  /** In every interleaving the invariant holds: at most one refresh is in flight and the tab waits
      for it exactly while requests are queued, no refresh token is posted twice, an idle tab holds
      the newest pair issued to it, no request is sent more than twice, and there are no more
      refreshes than first-time 401s. */
  lemma {:induction false} EveryRunKeepsInv(server: TC.State, pair: Pair, steps: seq<Step>)
    requires server.Valid() && TC.Sha256(pair.refresh) in server.tokens
    ensures Inv(End(Initial(server, pair), steps))
    decreases |steps|
  {
    if steps != [] {
      EveryRunKeepsInv(server, pair, steps[..|steps| - 1]);
      var before := End(Initial(server, pair), steps[..|steps| - 1]);
      if Enabled(before, steps[|steps| - 1]) {
        NextKeepsInv(before, steps[|steps| - 1]);
      }
    }
  }

  /** A refresh is posted only when none is in flight, with a token never posted before. */
  lemma PostsAreFreshAndSingle(server: TC.State, pair: Pair, steps: seq<Step>, step: Step)
    requires server.Valid() && TC.Sha256(pair.refresh) in server.tokens
    ensures var s := End(Initial(server, pair), steps);
      var t := Do(s, step);
      t.presented != s.presented ==>
        && s.call == NoCall && t.call == Posted(s.newest.refresh)
        && s.newest.refresh !in s.presented && t.presented == s.presented + [s.newest.refresh]
        && t.firsts == s.firsts + 1
  {
    EveryRunKeepsInv(server, pair, steps);
  }

  /** What a settled refresh does to every request. */
  ghost predicate Released(s: Sys, t: Sys, granted: bool) {
    && t.client.queue == [] && t.call == NoCall
    && t.client.tokens == (if granted then Some(s.newest) else None)
    && t.client.phase.Keys == s.client.phase.Keys == t.client.sent.Keys == s.client.sent.Keys
    && forall id :: id in s.client.phase ==>
         if s.client.phase[id] != Queued then
           t.client.phase[id] == s.client.phase[id] && t.client.sent[id] == s.client.sent[id]
         else if granted then
           t.client.phase[id] == Retried && t.client.sent[id] == s.client.sent[id] + [Some(s.newest.access)]
         else
           t.client.phase[id] == Rejected && t.client.sent[id] == s.client.sent[id]
  }

  /** When the reply arrives every queued request is answered: re-sent with the newest access token if
      the refresh was granted, otherwise rejected with the store cleared; nobody else is touched. */
  lemma ReplyReleasesTheQueue(server: TC.State, pair: Pair, steps: seq<Step>, lost: bool)
    requires server.Valid() && TC.Sha256(pair.refresh) in server.tokens
    requires Enabled(End(Initial(server, pair), steps), Reply(lost))
    ensures var s := End(Initial(server, pair), steps);
      Released(s, Next(s, Reply(lost)), !lost && s.call.reply.Some?)
  {
    EveryRunKeepsInv(server, pair, steps);
  }

  // ---------------------------------------------------------------------------------------
  // Termination
  // ---------------------------------------------------------------------------------------

  function Having(c: Client, p: Phase): set<Id> {
    set id | id in c.phase && c.phase[id] == p
  }

  /** What is still to be done: every step but `Issue` and `Backend` lowers it. */
  function Remaining(s: Sys): nat {
    6 * |Having(s.client, FirstTry)| + 2 * |s.client.queue| + |Having(s.client, Retried)|
    + (match s.call case NoCall => 0 case Posted(_) => 2 case Replied(_, _) => 1)
  }

  lemma MovePhase(c: Client, d: Client, id: Id, p: Phase)
    requires d.phase == c.phase[id := p] && (id in c.phase ==> c.phase[id] != p)
    ensures |Having(d, p)| == |Having(c, p)| + 1
    ensures id in c.phase ==> |Having(d, c.phase[id])| == |Having(c, c.phase[id])| - 1
    ensures forall q :: q != p && (id in c.phase ==> q != c.phase[id]) ==> Having(d, q) == Having(c, q)
  {
    assert Having(d, p) == Having(c, p) + {id};
    if id in c.phase {
      assert Having(d, c.phase[id]) == Having(c, c.phase[id]) - {id};
    }
    forall q | q != p && (id in c.phase ==> q != c.phase[id])
      ensures Having(d, q) == Having(c, q)
    {
    }
  }

  /** A list has at least as many entries as members. */
  lemma {:induction false} MembersAreFew(ids: seq<Id>)
    ensures |Members(ids)| <= |ids|
    decreases |ids|
  {
    if ids == [] {
      assert Members(ids) == {};
    } else {
      MembersAreFew(ids[1..]);
      assert Members(ids) == Members(ids[1..]) + {ids[0]};
    }
  }

  lemma SettleRemaining(c: Client, reply: Option<Pair>)
    requires forall id :: id in c.queue <==> id in c.phase && c.phase[id] == Queued
    ensures Having(Settle(c, reply), FirstTry) == Having(c, FirstTry)
    ensures |Having(Settle(c, reply), Retried)| <= |Having(c, Retried)| + |c.queue|
  {
    var waiting := Members(c.queue);
    MembersAreFew(c.queue);
    var before, after := Having(c, Retried), Having(Settle(c, reply), Retried);
    assert after == if reply.Some? then before + waiting else before;
  }

  lemma NextLowersRemaining(s: Sys, step: Step)
    requires Inv(s) && Enabled(s, step)
    ensures step.Issue? ==> Remaining(Next(s, step)) == Remaining(s) + 6
    ensures step.Backend? ==> Remaining(Next(s, step)) == Remaining(s)
    ensures !step.Issue? && !step.Backend? ==> Remaining(Next(s, step)) < Remaining(s)
  {
    var t := Next(s, step);
    match step
    case Issue(id) => MovePhase(s.client, t.client, id, FirstTry);
    case Answer(id, _) => MovePhase(s.client, t.client, id, t.client.phase[id]);
    case Serve(_, _, _) =>
    case Reply(lost) => SettleRemaining(s.client, if lost then None else s.call.reply);
    case Backend(_) =>
  }

  function Issues(s: Sys, steps: seq<Step>): nat
    decreases |steps|
  {
    if steps == [] then 0
    else
      var n := |steps| - 1;
      Issues(s, steps[..n]) + if steps[n].Issue? && Enabled(End(s, steps[..n]), steps[n]) then 1 else 0
  }

  /** The steps of a run that happened and concern this tab. */
  function Moves(s: Sys, steps: seq<Step>): nat
    decreases |steps|
  {
    if steps == [] then 0
    else
      var n := |steps| - 1;
      Moves(s, steps[..n]) + if !steps[n].Backend? && Enabled(End(s, steps[..n]), steps[n]) then 1 else 0
  }

  /** A run that issues N requests has at most 7 N steps, the issuing included. */
  lemma {:induction false} RunsAreShort(server: TC.State, pair: Pair, steps: seq<Step>)
    requires server.Valid() && TC.Sha256(pair.refresh) in server.tokens
    ensures var s := Initial(server, pair);
      Moves(s, steps) + Remaining(End(s, steps)) <= 7 * Issues(s, steps)
    decreases |steps|
  {
    var s, n := Initial(server, pair), |steps| - 1;
    if steps != [] {
      RunsAreShort(server, pair, steps[..n]);
      EveryRunKeepsInv(server, pair, steps[..n]);
      if Enabled(End(s, steps[..n]), steps[n]) {
        NextLowersRemaining(End(s, steps[..n]), steps[n]);
      }
    } else {
      assert Having(s.client, FirstTry) == {} && Having(s.client, Retried) == {};
    }
  }

  predicate Settled(p: Phase) {
    p == Fulfilled || p == Rejected
  }

  /** No request is ever stuck: while one is unsettled, a response or a reply can still arrive. */
  lemma NobodyWaitsForever(server: TC.State, pair: Pair, steps: seq<Step>, id: Id)
    requires server.Valid() && TC.Sha256(pair.refresh) in server.tokens
    requires var c := End(Initial(server, pair), steps).client;
      id in c.phase && !Settled(c.phase[id])
    ensures var s := End(Initial(server, pair), steps);
      Enabled(s, Answer(id, Success)) || (s.client.phase[id] == Queued && Enabled(s, Reply(true)))
  {
    EveryRunKeepsInv(server, pair, steps);
  }

  // ---------------------------------------------------------------------------------------
  // Runs without outside interference
  // ---------------------------------------------------------------------------------------

  /** Server traffic that leaves one login's chain and user alone. */
  ghost predicate Spares(s: TC.State, other: TC.Call, own: TC.Digest) {
    own in s.tokens && own in s.chain &&
    match other
    case Login(_, _, _) => true
    case Refresh(_, raw, _) => TC.Sha256(raw) in s.chain ==> s.chain[TC.Sha256(raw)] != s.chain[own]
    case Logout(raw) => TC.Sha256(raw) in s.chain ==> s.chain[TC.Sha256(raw)] != s.chain[own]
    case RevokeAll(user) => user != s.tokens[own].userId
    case SetActive(user, active) => user == s.tokens[own].userId ==> active
  }

  lemma SparedStaysUsable(s: TC.State, other: TC.Call, own: TC.Digest)
    requires s.Valid() && s.Live(own) && s.Active(s.tokens[own].userId) && Spares(s, other, own)
    ensures var t := TC.Apply(s, other);
      t.Live(own) && t.tokens[own] == s.tokens[own] && t.Active(t.tokens[own].userId)
  {
  }

  /** The token the tab can still refresh with: the stored one, or the one in the reply under way. */
  function Current(s: Sys): Raw {
    if s.call.Replied? || s.client.tokens.None? then s.newest.refresh else s.client.tokens.value.refresh
  }

  /** The tab is signed in and the token it will present next is the live one of its chain. */
  ghost predicate SignedIn(s: Sys) {
    && s.client.tokens.Some?
    && (s.call.Replied? ==> s.call.reply.Some?)
    && s.server.Live(TC.Sha256(Current(s)))
    && s.server.Active(s.server.tokens[TC.Sha256(Current(s))].userId)
  }

  /** No reply is lost, the posted token has not expired, the server draws an unused secret, and
      other traffic spares this login. */
  ghost predicate Undisturbed(s: Sys, step: Step) {
    match step
    case Serve(now, _, next) =>
      s.call.Posted? && TC.Sha256(s.call.token) in s.server.tokens ==>
        now < s.server.tokens[TC.Sha256(s.call.token)].expiresAt && TC.Sha256(next) !in s.server.tokens
    case Reply(lost) => !lost
    case Backend(other) => Spares(s.server, other, TC.Sha256(Current(s)))
    case _ => true
  }

  lemma NextKeepsSignedIn(s: Sys, step: Step)
    requires Inv(s) && SignedIn(s) && Enabled(s, step) && Undisturbed(s, step)
    ensures SignedIn(Next(s, step))
  {
    match step
    case Issue(_) =>
    case Answer(_, _) =>
    case Serve(now, _, next) => TC.RefreshMovesTheLiveToken(s.server, now, s.call.token, next);
    case Reply(_) =>
    case Backend(other) => SparedStaysUsable(s.server, other, TC.Sha256(Current(s)));
  }

  ghost predicate UndisturbedRun(s: Sys, steps: seq<Step>)
    decreases |steps|
  {
    steps == [] ||
    (UndisturbedRun(s, steps[..|steps| - 1]) && Undisturbed(End(s, steps[..|steps| - 1]), steps[|steps| - 1]))
  }

  /** Sharing one refresh makes rotation safe: in a run without outside interference every refresh is
      granted and the tab is never signed out, however many 401s arrive together. */
  lemma {:induction false} UndisturbedRunsStaySignedIn(server: TC.State, pair: Pair, steps: seq<Step>)
    requires server.Valid() && server.Live(TC.Sha256(pair.refresh))
    requires server.Active(server.tokens[TC.Sha256(pair.refresh)].userId)
    requires UndisturbedRun(Initial(server, pair), steps)
    ensures SignedIn(End(Initial(server, pair), steps))
    decreases |steps|
  {
    if steps != [] {
      var n := |steps| - 1;
      UndisturbedRunsStaySignedIn(server, pair, steps[..n]);
      EveryRunKeepsInv(server, pair, steps[..n]);
      var s := End(Initial(server, pair), steps[..n]);
      if Enabled(s, steps[n]) {
        NextKeepsSignedIn(s, steps[n]);
      }
    }
  }

  // ---------------------------------------------------------------------------------------
  // How requests end
  // ---------------------------------------------------------------------------------------

  predicate IsFulfilled(s: Sys, id: Id) {
    id in s.client.phase && s.client.phase[id] == Fulfilled
  }

  predicate IsRejected(s: Sys, id: Id) {
    id in s.client.phase && s.client.phase[id] == Rejected
  }

  /** What rejects a request: a failure; a 401 on its retry, or with no token stored; or, while it waits,
      a refresh that is refused or whose reply is lost. */
  predicate Rejects(s: Sys, step: Step, id: Id) {
    && id in s.client.phase
    && match step
       case Answer(x, Failure) => x == id
       case Answer(x, Unauthorized) =>
         x == id && (s.client.phase[id] == Retried || (s.client.tokens.None? && !s.client.refreshing))
       case Reply(lost) => s.client.phase[id] == Queued && (lost || (s.call.Replied? && s.call.reply.None?))
       case _ => false
  }

  lemma SettleEnds(c: Client, reply: Option<Pair>, id: Id)
    requires ClientInv(c) && id in c.phase
    ensures var d := Settle(c, reply);
      && id in d.phase
      && (d.phase[id] == Fulfilled <==> c.phase[id] == Fulfilled)
      && (d.phase[id] == Rejected <==> c.phase[id] == Rejected || (c.phase[id] == Queued && reply.None?))
  {
  }

  lemma StepEnds(s: Sys, step: Step, id: Id)
    requires Inv(s) && Enabled(s, step)
    ensures IsFulfilled(Next(s, step), id) <==> IsFulfilled(s, id) || step == Answer(id, Success)
    ensures IsRejected(Next(s, step), id) <==> IsRejected(s, id) || Rejects(s, step, id)
  {
    match step
    case Issue(x) => IssueInFields(s.client, x);
    case Answer(x, status) => AnswerInFields(s.client, x, status);
    case Reply(lost) =>
      if id in s.client.phase {
        SettleEnds(s.client, if lost then None else s.call.reply, id);
      }
    case _ =>
  }

  /** The j-th step of a run happens and is the success response to the request. */
  ghost predicate SucceedsAt(s: Sys, steps: seq<Step>, j: int, id: Id) {
    0 <= j < |steps| && Enabled(End(s, steps[..j]), steps[j]) && steps[j] == Answer(id, Success)
  }

  ghost predicate RejectsAt(s: Sys, steps: seq<Step>, j: int, id: Id) {
    0 <= j < |steps| && Enabled(End(s, steps[..j]), steps[j]) && Rejects(End(s, steps[..j]), steps[j], id)
  }

  lemma LongerRun(s: Sys, steps: seq<Step>, n: nat, id: Id)
    requires |steps| == n + 1
    ensures (exists j :: SucceedsAt(s, steps, j, id)) <==>
      (exists j :: SucceedsAt(s, steps[..n], j, id)) || SucceedsAt(s, steps, n, id)
    ensures (exists j :: RejectsAt(s, steps, j, id)) <==>
      (exists j :: RejectsAt(s, steps[..n], j, id)) || RejectsAt(s, steps, n, id)
  {
    forall j | 0 <= j < n
      ensures SucceedsAt(s, steps, j, id) <==> SucceedsAt(s, steps[..n], j, id)
      ensures RejectsAt(s, steps, j, id) <==> RejectsAt(s, steps[..n], j, id)
    {
      assert steps[..n][..j] == steps[..j];
    }
    if j :| SucceedsAt(s, steps[..n], j, id) {
      assert SucceedsAt(s, steps, j, id);
    }
    if j :| RejectsAt(s, steps[..n], j, id) {
      assert RejectsAt(s, steps, j, id);
    }
  }

  /** In every interleaving a request ends fulfilled if and only if a success response to it arrived, and
      rejected if and only if it met a failure, a second 401, a 401 with no token stored, or a refresh
      that was refused or lost while it waited. */
  lemma {:induction false} RequestsEndAsAnswered(server: TC.State, pair: Pair, steps: seq<Step>, id: Id)
    requires server.Valid() && TC.Sha256(pair.refresh) in server.tokens
    ensures var s := Initial(server, pair);
      && (IsFulfilled(End(s, steps), id) <==> exists j :: SucceedsAt(s, steps, j, id))
      && (IsRejected(End(s, steps), id) <==> exists j :: RejectsAt(s, steps, j, id))
    decreases |steps|
  {
    if steps != [] {
      var s, n := Initial(server, pair), |steps| - 1;
      RequestsEndAsAnswered(server, pair, steps[..n], id);
      EveryRunKeepsInv(server, pair, steps[..n]);
      LongerRun(s, steps, n, id);
      if Enabled(End(s, steps[..n]), steps[n]) {
        StepEnds(End(s, steps[..n]), steps[n], id);
      }
    }
  }
}
