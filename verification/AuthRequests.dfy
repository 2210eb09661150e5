/** The request table and the pending table of the authorization service, as objects updated in place. */
module AuthRequests {
  import opened Options
  import opened AuthContext
  import AuthProtocol

  datatype NpAuthRequest = NpAuthRequest(async: bool, aborted: bool, ctx: AuthRequestCtx?)

  datatype Poll = Finished(result: int) | Running | Invalid(error: int)

  class NpAuth {
    var requests: map<int, NpAuthRequest>

    ghost predicate Valid()
      reads this
    {
      |requests| <= AuthProtocol.REQUEST_LIMIT
    }

    constructor ()
      ensures Valid() && requests == map[]
    {
      requests := map[];
    }

    /** Searches upward for a free id; with at most sixteen requests live the search ends within sixteen ids. */
    method CreateNpAuthRequest(async: bool) returns (r: int)
      requires Valid()
      modifies this
      ensures Valid()
      ensures |old(requests)| == AuthProtocol.REQUEST_LIMIT ==> r == ERROR_REQUEST_MAX && requests == old(requests)
      ensures |old(requests)| < AuthProtocol.REQUEST_LIMIT ==>
                && AuthProtocol.REQUEST_ID_OFFSET < r <= AuthProtocol.REQUEST_ID_OFFSET + AuthProtocol.REQUEST_LIMIT
                && r !in old(requests) && (forall j :: AuthProtocol.REQUEST_ID_OFFSET < j < r ==> j in old(requests))
                && requests == old(requests)[r := NpAuthRequest(async, false, null)]
    {
      if |requests| == AuthProtocol.REQUEST_LIMIT {
        return ERROR_REQUEST_MAX;
      }
      r := AuthProtocol.REQUEST_ID_OFFSET + 1;
      ghost var free := AuthProtocol.FirstFree(requests.Keys, r);
      AuthProtocol.FirstFreeHolds(requests.Keys, r);
      while r in requests
        invariant AuthProtocol.REQUEST_ID_OFFSET < r <= free
        invariant forall j :: AuthProtocol.REQUEST_ID_OFFSET < j < r ==> j in requests
        decreases free - r
      {
        r := r + 1;
      }
      ghost var before := requests;
      requests := requests[r := NpAuthRequest(async, false, null)];
      assert requests.Keys == before.Keys + {r};
    }

    function FindError(id: int): (error: int)
      reads this
      ensures error == OK <==> id > 0 && id in requests
      ensures error == ERROR_INVALID_ARGUMENT <==> id <= 0
      ensures error == ERROR_REQUEST_NOT_FOUND <==> id > 0 && id !in requests
    {
      if id <= 0 then ERROR_INVALID_ARGUMENT else if id !in requests then ERROR_REQUEST_NOT_FOUND else OK
    }

    /** Gives the request a cell of its own, once, and not after an abort. */
    method StartRequest(id: int) returns (error: int, async: bool, ctx: AuthRequestCtx?)
      requires Valid()
      modifies this
      ensures Valid()
      ensures error == OK <==>
                id > 0 && id in old(requests) && old(requests)[id].ctx == null && !old(requests)[id].aborted
      ensures error == OK ==> ctx != null && fresh(ctx) && ctx.result.None? && async == old(requests)[id].async
      ensures error == OK ==> requests == old(requests)[id := old(requests)[id].(ctx := ctx)]
      ensures error != OK ==> requests == old(requests) && ctx == null
      ensures old(FindError(id)) != OK ==> error == old(FindError(id))
      ensures id > 0 && id in old(requests) && error != OK ==>
                error == if old(requests)[id].ctx != null then ERROR_INVALID_ARGUMENT else ERROR_ABORTED
    {
      error, async, ctx := FindError(id), false, null;
      if error != OK {
        return;
      }
      var request := requests[id];
      if request.ctx != null {
        return ERROR_INVALID_ARGUMENT, false, null;
      }
      if request.aborted {
        return ERROR_ABORTED, false, null;
      }
      ctx := new AuthRequestCtx();
      async := request.async;
      ghost var before := requests;
      requests := requests[id := request.(ctx := ctx)];
      assert requests.Keys == before.Keys;
    }

    ghost function CellOf(id: int): set<object>
      reads this
    {
      if id in requests && requests[id].ctx != null then {requests[id].ctx} else {}
    }

    method AbortRequest(id: int) returns (error: int)
      requires Valid()
      modifies this, CellOf(id)
      ensures Valid()
      ensures error == old(FindError(id))
      ensures error == OK && old(requests)[id].ctx != null ==>
                requests == old(requests) && old(requests)[id].ctx.result.Some?
                && (old(requests[id].ctx.result.None?) ==> old(requests)[id].ctx.result == Some(ERROR_ABORTED))
                && (old(requests[id].ctx.result.Some?) ==> unchanged(old(requests)[id].ctx))
      ensures error == OK && old(requests)[id].ctx == null ==>
                requests == old(requests)[id := old(requests)[id].(aborted := true)]
      ensures error != OK ==> unchanged(this) && forall x :: x in old(CellOf(id)) ==> unchanged(x)
    {
      error := FindError(id);
      if error != OK {
        return;
      }
      var request := requests[id];
      if request.ctx != null {
        request.ctx.SetResult(ERROR_ABORTED);
      } else {
        ghost var before := requests;
        requests := requests[id := request.(aborted := true)];
        assert requests.Keys == before.Keys;
      }
    }

    method DeleteRequest(id: int) returns (error: int)
      requires Valid()
      modifies this, CellOf(id)
      ensures Valid()
      ensures error == old(FindError(id))
      ensures error == OK ==> requests == old(requests) - {id}
      ensures error == OK && old(requests)[id].ctx != null ==>
                old(requests)[id].ctx.result == (if old(requests[id].ctx.result.Some?)
                                                 then old(requests[id].ctx.result) else Some(ERROR_ABORTED))
      ensures error != OK ==> unchanged(this) && forall x :: x in old(CellOf(id)) ==> unchanged(x)
    {
      error := FindError(id);
      if error != OK {
        return;
      }
      var request := requests[id];
      if request.ctx != null {
        request.ctx.SetResult(ERROR_ABORTED);
      }
      ghost var before := requests;
      requests := requests - {id};
      assert requests.Keys == before.Keys - {id};
    }

    /** Polling answers for started asynchronous requests only, and reports the cell as it is. */
    method PollAsync(id: int) returns (p: Poll)
      ensures p.Invalid? <==> id <= 0 || id !in requests || !requests[id].async || requests[id].ctx == null
      ensures p.Invalid? ==> p.error == if FindError(id) != OK then FindError(id) else ERROR_INVALID_ID
      ensures !p.Invalid? ==>
                p == if requests[id].ctx.result.Some? then Finished(requests[id].ctx.result.value) else Running
    {
      var error := FindError(id);
      if error != OK {
        return Invalid(error);
      }
      var request := requests[id];
      if !request.async || request.ctx == null {
        return Invalid(ERROR_INVALID_ID);
      }
      if request.ctx.result.None? {
        return Running;
      }
      p := Finished(request.ctx.result.value);
    }
  }

  datatype PendingAuthRequest = PendingAuthRequest(req: AuthRequestCtx, user: int)

  ghost function RequestsOf(entries: map<nat, PendingAuthRequest>, user: int): set<AuthRequestCtx> {
    set p | p in entries && entries[p].user == user :: entries[p].req
  }

  lemma RequestIn(entries: map<nat, PendingAuthRequest>, user: int, p: nat)
    requires p in entries && entries[p].user == user
    ensures entries[p].req in RequestsOf(entries, user)
  {
  }

  /** The table without those of the user's entries whose keys have been visited. */
  ghost predicate Without(pending: map<nat, PendingAuthRequest>, entries: map<nat, PendingAuthRequest>,
                          keys: set<nat>, user: int) {
    && (forall p :: p in pending <==> p in entries && (p in keys || entries[p].user != user))
    && (forall p :: p in pending ==> pending[p] == entries[p])
  }

  /** Those visited are in `failed`. */
  ghost predicate Failed(entries: map<nat, PendingAuthRequest>, keys: set<nat>, user: int,
                         failed: set<AuthRequestCtx>) {
    forall p :: p in entries && entries[p].user == user && p !in keys ==> entries[p].req in failed
  }

  /** At the start nothing has been visited; when nothing is left, all of the user's requests have failed. */
  lemma AllVisited(entries: map<nat, PendingAuthRequest>, user: int, failed: set<AuthRequestCtx>)
    ensures Without(entries, entries, entries.Keys, user) && Failed(entries, entries.Keys, user, failed)
    ensures Failed(entries, {}, user, failed) ==> RequestsOf(entries, user) <= failed
  {
  }

  lemma FailedNext(entries: map<nat, PendingAuthRequest>, keys: set<nat>, user: int, failed: set<AuthRequestCtx>,
                   p: nat)
    requires Failed(entries, keys, user, failed) && p in entries
    ensures Failed(entries, keys - {p}, user, failed + {entries[p].req})
    ensures entries[p].user != user ==> Failed(entries, keys - {p}, user, failed)
  {
  }

  lemma WithoutNext(pending: map<nat, PendingAuthRequest>, entries: map<nat, PendingAuthRequest>, keys: set<nat>,
                    user: int, p: nat)
    requires Without(pending, entries, keys, user) && p in keys && p in entries
    ensures p in pending && pending[p] == entries[p]
    ensures Without(if entries[p].user == user then pending - {p} else pending, entries, keys - {p}, user)
  {
  }

  /** A connection to the server, numbering its own packets from one. */
  class ShadNetClient {
    var authenticated: bool
    var pktCounter: nat

    constructor ()
      ensures !authenticated && pktCounter == 1
    {
      authenticated, pktCounter := false, 1;
    }

    method SubmitRequest() returns (id: nat)
      modifies this`pktCounter
      ensures id == old(pktCounter) && pktCounter == old(pktCounter) + 1
    {
      id := pktCounter;
      pktCounter := pktCounter + 1;
    }
  }

  class NpHandler {
    var clients: map<int, ShadNetClient>
    var pending: map<nat, PendingAuthRequest>

    /** Every pending request has a buffer for the code to go to. */
    ghost predicate Valid()
      reads this, set p | p in pending :: pending[p].req
    {
      forall p :: p in pending ==> pending[p].req.HasBuffer()
    }

    constructor ()
      ensures Valid() && clients == map[] && pending == map[]
    {
      clients, pending := map[], map[];
    }

    /** Accepted exactly for a user with an authenticated client; then the request is sent under the client's next
        packet id and entered under it, unless another user's request is pending under that id. */
    method RequestAuthorizationCode(user: int, req: AuthRequestCtx) returns (rc: int)
      requires Valid() && req.HasBuffer()
      modifies this`pending, if user in clients then {clients[user]} else {}
      ensures Valid()
      ensures rc == if user in clients && old(clients[user].authenticated) then OK else ERROR_SIGNED_OUT
      ensures rc != OK ==> pending == old(pending) && (user in clients ==> unchanged(clients[user]))
      ensures rc == OK ==>
                var pkt := old(clients[user].pktCounter);
                && clients[user].pktCounter == pkt + 1 && clients[user].authenticated
                && pending ==
                     if pkt in old(pending) then old(pending)
                     else old(pending)[pkt := PendingAuthRequest(req, user)]
    {
      if user !in clients {
        return ERROR_SIGNED_OUT;
      }
      var client := clients[user];
      if !client.authenticated {
        return ERROR_SIGNED_OUT;
      }
      var pkt := client.SubmitRequest();
      Emplace(pkt, req, user);
      rc := OK;
    }

    /** An entry already there is kept. */
    method Emplace(pkt: nat, req: AuthRequestCtx, user: int)
      requires Valid() && req.HasBuffer()
      modifies this`pending
      ensures Valid()
      ensures pending ==
                if pkt in old(pending) then old(pending) else old(pending)[pkt := PendingAuthRequest(req, user)]
    {
      if pkt !in pending {
        pending := pending[pkt := PendingAuthRequest(req, user)];
      }
    }

    /** The entry leaves the table, and its request is settled unless something settled it before. */
    method OnAuthReply(pkt: nat, outcome: Outcome)
      requires Valid()
      modifies this`pending
      modifies (if pkt in pending then {pending[pkt].req} else {})`result
      modifies if pkt in pending && pending[pkt].req.authCode != null then {pending[pkt].req.authCode} else {}
      modifies if pkt in pending && pending[pkt].req.issuerId != null then {pending[pkt].req.issuerId} else {}
      ensures Valid()
      ensures pkt !in old(pending) ==> pending == old(pending)
      ensures pkt in old(pending) ==>
                var req := old(pending)[pkt].req;
                && pending == old(pending) - {pkt}
                && (old(req.result).Some? || outcome.Fail? ==>
                      unchanged(req.authCode) && (req.issuerId != null ==> unchanged(req.issuerId)))
                && (old(req.result).Some? ==> req.result == old(req.result))
                && (old(req.result).None? ==>
                      match outcome
                      case Fail(e) => req.result == Some(e)
                      case Code(c) =>
                        && req.result == Some(OK) && req.authCode[..] == Padded(c)
                        && (req.issuerId != null ==> req.issuerId[..] == [ISSUER_ID]))
    {
      if pkt !in pending {
        return;
      }
      var req := pending[pkt].req;
      pending := pending - {pkt};
      match outcome
      case Fail(e) => req.SetResult(e);
      case Code(c) => req.SetAuthorizationCode(c, ISSUER_ID);
    }

    /** Erasing while iterating: all of the user's entries go and nobody else's, every request among them has a
        result afterwards, and results that were there stay. */
    method FailPendingRequests(user: int, error: int)
      requires Valid()
      modifies this`pending, RequestsOf(pending, user)`result
      ensures Valid()
      ensures forall p :: p in pending <==> p in old(pending) && old(pending)[p].user != user
      ensures forall p :: p in pending ==> pending[p] == old(pending)[p]
      ensures forall p :: p in old(pending) && old(pending)[p].user == user ==>
                old(pending)[p].req.result == (if old(pending[p].req.result).Some?
                                               then old(pending[p].req.result) else Some(error))
    {
      ghost var entries := pending;
      EraseWhileIterating(user, error);
      forall p | p in entries && entries[p].user == user
        ensures entries[p].req in RequestsOf(entries, user) && p !in pending
      {
        RequestIn(entries, user, p);
      }
    }

    method EraseWhileIterating(user: int, error: int)
      modifies this`pending, RequestsOf(pending, user)`result
      ensures Without(pending, old(pending), {}, user)
      ensures forall r :: r in old(RequestsOf(pending, user)) ==>
                r.result == if old(r.result).None? then Some(error) else old(r.result)
    {
      ghost var entries, mine := pending, RequestsOf(pending, user);
      ghost var failed: set<AuthRequestCtx> := {};
      var keys := pending.Keys;
      AllVisited(pending, user, failed);
      assert forall r :: r in mine ==> allocated(r);
      hide Without, RequestsOf, Failed;
      while keys != {}
        invariant Without(pending, entries, keys, user) && Failed(entries, keys, user, failed)
        invariant keys <= entries.Keys
        invariant forall r :: r in mine ==>
                    r.result == if r in failed && old(r.result).None? then Some(error) else old(r.result)
        decreases |keys|
      {
        var p :| p in keys;
        WithoutNext(pending, entries, keys, user, p);
        FailedNext(entries, keys, user, failed, p);
        keys := keys - {p};
        if pending[p].user == user {
          RequestIn(entries, user, p);
          pending[p].req.SetResult(error);
          failed := failed + {pending[p].req};
          pending := pending - {p};
        }
      }
      AllVisited(entries, user, failed);
    }

    /** The client goes first, then everything pending for the user is failed as signed out. */
    method DisconnectUser(user: int)
      requires Valid()
      modifies this, RequestsOf(pending, user)`result
      ensures Valid()
      ensures user !in old(clients) ==> clients == old(clients) && pending == old(pending)
      ensures user in old(clients) ==>
                && clients == old(clients) - {user}
                && (forall p :: p in pending <==> p in old(pending) && old(pending)[p].user != user)
                && (forall p :: p in pending ==> pending[p] == old(pending)[p])
                && (forall p :: p in old(pending) && old(pending)[p].user == user ==>
                      old(pending)[p].req.result == (if old(pending[p].req.result).Some?
                                                     then old(pending[p].req.result) else Some(ERROR_SIGNED_OUT)))
    {
      if user !in clients {
        return;
      }
      clients := clients - {user};
      FailPendingRequests(user, ERROR_SIGNED_OUT);
    }
  }
}
