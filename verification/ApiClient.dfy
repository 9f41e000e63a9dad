/**
 The browser's HTTP client: requests that meet a 401 queue behind one shared token
 refresh and are re-sent once with the new access token.

 One tab. A client step is everything that runs up to the next response event.
 */
module ApiClient {
  import opened Wrappers
  import opened Sequences
  import opened TokenChain

  type Id = nat

  /** An access token, opaque to the client. */
  type Access = nat

  datatype Pair = Pair(access: Access, refresh: Raw)

  /** Where a request stands. `FirstTry` and `Retried` are on the wire, without and with the retry flag. */
  datatype Phase = FirstTry | Queued | Retried | Fulfilled | Rejected

  /** A response to a request: success, a 401, or any other failure (including no response). */
  datatype Status = Success | Unauthorized | Failure

  /** The tab: the token store, whether a shared refresh is pending, the requests and the order
      in which they await the refresh. `sent` lists the Authorization header of every send. */
  datatype Client = Client(
    tokens: Option<Pair>,
    refreshing: bool,
    phase: map<Id, Phase>,
    queue: seq<Id>,
    sent: map<Id, seq<Option<Access>>>)
  {
    function Header(): Option<Access> {
      if tokens.Some? then Some(tokens.value.access) else None
    }

    predicate OnWire(id: Id) {
      id in phase && (phase[id] == FirstTry || phase[id] == Retried)
    }
  }

  function Issue(c: Client, id: Id): Client {
    c.(phase := c.phase[id := FirstTry], sent := c.sent[id := [c.Header()]])
  }

  /** The response interceptor. The second result is the refresh token it posts, if it starts a refresh. */
  function Answer(c: Client, id: Id, status: Status): (Client, Option<Raw>)
    requires c.OnWire(id)
  {
    match status
    case Success => (c.(phase := c.phase[id := Fulfilled]), None)
    case Failure => (c.(phase := c.phase[id := Rejected]), None)
    case Unauthorized =>
      if c.phase[id] == Retried then (c.(phase := c.phase[id := Rejected]), None)
      else if c.refreshing then (c.(phase := c.phase[id := Queued], queue := c.queue + [id]), None)
      else if c.tokens.None? then (c.(phase := c.phase[id := Rejected]), None)
      else (c.(phase := c.phase[id := Queued], queue := c.queue + [id], refreshing := true),
            Some(c.tokens.value.refresh))
  }

  /** What one response does: success fulfils the request, a failure rejects it, and so does a 401 on the
      retry or with nothing to refresh with; any other 401 waits. The first to wait posts the stored
      refresh token. Nothing is sent, and no other request and no token changes. */
  lemma AnswerInFields(c: Client, id: Id, status: Status)
    requires c.OnWire(id)
    ensures var (d, posted) := Answer(c, id, status);
      var hopeless := c.phase[id] == Retried || (!c.refreshing && c.tokens.None?);
      && (d.phase[id] == Fulfilled <==> status == Success)
      && (d.phase[id] == Rejected <==> status == Failure || (status == Unauthorized && hopeless))
      && (d.phase[id] == Queued <==> status == Unauthorized && !hopeless)
      && d.queue == c.queue + (if d.phase[id] == Queued then [id] else [])
      && d.phase.Keys == c.phase.Keys && (forall x :: x in c.phase && x != id ==> d.phase[x] == c.phase[x])
      && posted == (if d.phase[id] == Queued && !c.refreshing then Some(c.tokens.value.refresh) else None)
      && d.refreshing == (c.refreshing || posted.Some?)
      && d.tokens == c.tokens && d.sent == c.sent
  {
  }

  /** A new request is on the wire, sent once with the stored access token, or without one. */
  lemma IssueInFields(c: Client, id: Id)
    requires id !in c.phase
    ensures var d := Issue(c, id);
      && d.phase == c.phase[id := FirstTry]
      && d.sent == c.sent[id := [if c.tokens.None? then None else Some(c.tokens.value.access)]]
      && d.tokens == c.tokens && d.refreshing == c.refreshing && d.queue == c.queue
  {
  }

  /** The refresh settles: with a new pair every queued request is re-sent, without one all are rejected. */
  function Settle(c: Client, reply: Option<Pair>): Client {
    Client(reply, false,
           map id | id in c.phase :: if id !in c.queue then c.phase[id] else if reply.Some? then Retried else Rejected,
           [],
           if reply.None? then c.sent
           else map id | id in c.sent :: if id in c.queue then c.sent[id] + [Some(reply.value.access)] else c.sent[id])
  }

  /** One queued request continues after its await: re-sent with whatever token the store holds, or
      rejected with the store cleared. */
  function Resume(c: Client, id: Id, renewed: bool): Client
    requires id in c.sent
  {
    if renewed then c.(phase := c.phase[id := Retried], sent := c.sent[id := c.sent[id] + [c.Header()]])
    else c.(tokens := None, phase := c.phase[id := Rejected])
  }

  function ResumeAll(c: Client, ids: seq<Id>, renewed: bool): Client
    requires forall id :: id in ids ==> id in c.sent
    decreases |ids|
  {
    if ids == [] then c else ResumeAll(Resume(c, ids[0], renewed), ids[1..], renewed)
  }

  /** Resuming the head of a queue leaves what settling the whole queue would give. */
  lemma ResumeHead(c: Client, ids: seq<Id>, reply: Option<Pair>)
    requires ids != [] && Distinct(ids) && (forall id :: id in ids ==> id in c.sent && id in c.phase)
    requires reply.Some? ==> c.tokens == reply
    ensures var d := Resume(c, ids[0], reply.Some?);
      && (forall id :: id in ids[1..] ==> id in d.sent)
      && Settle(c.(queue := ids), reply) == Settle(d.(queue := ids[1..]), reply)
  {
    var d := Resume(c, ids[0], reply.Some?);
    var whole, rest := Settle(c.(queue := ids), reply), Settle(d.(queue := ids[1..]), reply);
    assert forall id :: id in ids <==> id == ids[0] || id in ids[1..];
    assert ids[0] !in ids[1..];
    assert whole.phase.Keys == rest.phase.Keys;
    assert whole.sent.Keys == rest.sent.Keys;
    assert whole.phase == rest.phase;
    assert whole.sent == rest.sent;
  }

  lemma SettleNobody(c: Client, reply: Option<Pair>)
    requires !c.refreshing && c.queue == [] && c.tokens == reply
    ensures Settle(c, reply) == c
  {
    assert Settle(c, reply).phase == c.phase && Settle(c, reply).sent == c.sent;
  }

  /** Resuming the queue one by one is settling it at once: every request is resumed exactly once. */
  lemma {:induction false} ResumeAllSettles(c: Client, ids: seq<Id>, reply: Option<Pair>)
    requires Distinct(ids) && (forall id :: id in ids ==> id in c.sent && id in c.phase)
    requires c.tokens == reply || (reply.None? && ids != [])
    requires !c.refreshing && c.queue == []
    ensures ResumeAll(c, ids, reply.Some?) == Settle(c.(queue := ids), reply)
    decreases |ids|
  {
    if ids == [] {
      SettleNobody(c, reply);
    } else {
      ResumeHead(c, ids, reply);
      ResumeAllSettles(Resume(c, ids[0], reply.Some?), ids[1..], reply);
    }
  }

  // ---------------------------------------------------------------------------------------
  // The interceptors as they run
  // ---------------------------------------------------------------------------------------

  class AuthStore {
    var tokens: Option<Pair>

    constructor (tokens: Option<Pair>)
      ensures this.tokens == tokens
    {
      this.tokens := tokens;
    }

    method SetTokens(pair: Pair)
      modifies this
      ensures tokens == Some(pair)
    {
      tokens := Some(pair);
    }

    method ClearTokens()
      modifies this
      ensures tokens == None
    {
      tokens := None;
    }
  }

  class Tab {
    const store: AuthStore
    var refreshPending: bool
    var phase: map<Id, Phase>
    var queue: seq<Id>
    ghost var sent: map<Id, seq<Option<Access>>>

    constructor (store: AuthStore)
      ensures this.store == store
      ensures Abs() == Client(store.tokens, false, map[], [], map[])
    {
      this.store := store;
      refreshPending, phase, queue, sent := false, map[], [], map[];
    }

    ghost function Abs(): Client
      reads this, store
    {
      Client(store.tokens, refreshPending, phase, queue, sent)
    }

    /** The request interceptor and the send it precedes. */
    method Send(id: Id, ghost earlier: seq<Option<Access>>) returns (header: Option<Access>)
      modifies this`sent
      ensures header == Abs().Header()
      ensures sent == old(sent)[id := earlier + [header]]
    {
      header := None;
      if store.tokens.Some? {
        header := Some(store.tokens.value.access);
      }
      sent := sent[id := earlier + [header]];
    }

    method Request(id: Id)
      requires id !in phase
      modifies this
      ensures Abs() == Issue(old(Abs()), id)
    {
      phase := phase[id := FirstTry];
      var header := Send(id, []);
      assert [] + [header] == [header];
    }

    method OnResponse(id: Id, status: Status) returns (posted: Option<Raw>)
      requires Abs().OnWire(id)
      modifies this
      ensures (Abs(), posted) == Answer(old(Abs()), id, status)
      ensures phase[id] == Fulfilled <==> status == Success
      ensures status == Failure ==> phase[id] == Rejected
    {
      posted := None;
      if status == Success {
        phase := phase[id := Fulfilled];
        return;
      }
      if status != Unauthorized || phase[id] == Retried {
        phase := phase[id := Rejected];
        return;
      }
      if !refreshPending {
        if store.tokens.None? {
          // doRefresh throws at once; the catch clears a store that is already empty.
          phase := phase[id := Rejected];
          return;
        }
        refreshPending := true;
        posted := Some(store.tokens.value.refresh);
      }
      phase := phase[id := Queued];
      queue := queue + [id];
    }

    /** What a queued request runs after its await. */
    method Continue(id: Id, renewed: bool)
      requires id in sent
      modifies this`phase, this`sent, store
      ensures Abs() == Resume(old(Abs()), id, renewed)
    {
      if renewed {
        phase := phase[id := Retried];
        var header := Send(id, sent[id]);
      } else {
        store.ClearTokens();
        phase := phase[id := Rejected];
      }
    }

    /** The shared promise settles and the continuations that await it run in order. */
    method OnRefreshSettled(reply: Option<Pair>)
      requires queue != [] && Distinct(queue)
      requires forall id :: id in queue ==> id in phase && id in sent
      modifies this, store
      ensures Abs() == Settle(old(Abs()), reply)
    {
      if reply.Some? {
        store.SetTokens(reply.value);
      }
      var waiting := queue;
      refreshPending, queue := false, [];
      ghost var begun := Abs();
      ResumeAllSettles(begun, waiting, reply);
      var next := 0;
      while next < |waiting|
        invariant 0 <= next <= |waiting|
        invariant forall id :: id in waiting ==> id in sent
        invariant ResumeAll(Abs(), waiting[next..], reply.Some?) == ResumeAll(begun, waiting, reply.Some?)
      {
        assert waiting[next..][1..] == waiting[next + 1..];
        Continue(waiting[next], reply.Some?);
        next := next + 1;
      }
    }
  }
}
