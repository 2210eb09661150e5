/** The life of authorization requests, as a state machine over every interleaving of the game's calls, server replies
    and disconnects. Each step is one region under one lock. */
module AuthProtocol {
  import opened Options
  import opened Widths
  import opened AuthContext

  const REQUEST_LIMIT: nat := 0x10
  const REQUEST_ID_OFFSET: int := 0x1000_0000

  /** How far the call that started a request has come, and then who holds the request. */
  datatype Phase =
    | Started
    | Bound
    | Refused(error: int)
    | Chosen(user: int, client: nat)
    | Queued(pkt: nat, user: int)
    | Lost(pkt: nat)
    | Taken(outcome: Outcome)
    | Finished

  /** A request's cell; `writes` lists every content its buffer was given. */
  datatype Cell = Cell(phase: Phase, result: Option<int>, writes: seq<seq<u8>>)

  datatype Request = Request(async: bool, aborted: bool, cell: Option<nat>)
  datatype Pending = Pending(cell: nat, user: int)

  /** `counters` holds each client's next packet id, for every client ever connected. */
  datatype State = State(
    requests: map<int, Request>, cells: seq<Cell>,
    clients: map<int, nat>, counters: seq<nat>, pending: map<nat, Pending>)

  const Init := State(map[], [], map[], [], map[])

  datatype Op =
    | Create(async: bool)
    | Start(id: int)
    | SignedOut(cell: nat)
    | Bind(cell: nat)
    | Lookup(cell: nat, user: int, authenticated: bool)
    | Submit(cell: nat)
    | Report(cell: nat)
    | TakeReply(pkt: nat, outcome: Outcome)
    | Deliver(cell: nat)
    | Abort(id: int)
    | Delete(id: int)
    | Connect(user: int)
    | Drop(user: int)
    | FailPending(user: int)
    | OtherPacket(client: nat)

  // ---- The cell ----

  /** First writer wins. */
  function SetResult(x: Cell, r: int): Cell {
    if x.result.Some? then x else x.(result := Some(r))
  }

  function Settle(x: Cell, o: Outcome): Cell {
    match o
    case Fail(e) => SetResult(x, e)
    case Code(c) => if x.result.Some? then x else x.(result := Some(OK), writes := x.writes + [Padded(c)])
  }

  // ---- Request ids ----

  /** The least id from `k` on that is not live. */
  function FirstFree(live: set<int>, k: int): int
    decreases |live|
  {
    if k !in live then k else FirstFree(live - {k}, k + 1)
  }

  lemma {:induction false} FirstFreeHolds(live: set<int>, k: int)
    ensures k <= FirstFree(live, k) <= k + |live|
    ensures FirstFree(live, k) !in live
    ensures forall j :: k <= j < FirstFree(live, k) ==> j in live
    decreases |live|
  {
    if k in live {
      FirstFreeHolds(live - {k}, k + 1);
      forall j | k <= j < FirstFree(live, k) ensures j in live {
        assert j != k ==> j in live - {k};
      }
    }
  }

  function NewId(s: State): int {
    FirstFree(s.requests.Keys, REQUEST_ID_OFFSET + 1)
  }

  // ---- Steps ----

  predicate InPhase(s: State, c: nat, p: Phase -> bool) {
    c < |s.cells| && p(s.cells[c].phase)
  }

  function With(s: State, c: nat, x: Cell): State
    requires c < |s.cells|
  {
    s.(cells := s.cells[c := x])
  }

  function AbortCell(s: State, c: Option<nat>): seq<Cell> {
    if c.Some? && c.value < |s.cells| then s.cells[c.value := SetResult(s.cells[c.value], ERROR_ABORTED)] else s.cells
  }

  predicate Holds(pending: map<nat, Pending>, user: int, c: nat) {
    exists p :: p in pending && pending[p] == Pending(c, user)
  }

  function Fail1(x: Cell): Cell {
    SetResult(x, ERROR_SIGNED_OUT).(phase := Finished)
  }

  function WithoutUser(pending: map<nat, Pending>, user: int): map<nat, Pending> {
    map p | p in pending && pending[p].user != user :: pending[p]
  }

  function FailCells(cells: seq<Cell>, pending: map<nat, Pending>, user: int): seq<Cell> {
    seq(|cells|, c requires 0 <= c < |cells| => if Holds(pending, user, c) then Fail1(cells[c]) else cells[c])
  }

  function DoStart(s: State, id: int): State {
    if id !in s.requests || s.requests[id].cell.Some? || s.requests[id].aborted then s
    else
      s.(requests := s.requests[id := s.requests[id].(cell := Some(|s.cells|))],
         cells := s.cells + [Cell(Started, None, [])])
  }

  function DoLookup(s: State, c: nat, user: int, authenticated: bool): (t: State)
    ensures t.requests == s.requests && |t.cells| == |s.cells|
  {
    if !InPhase(s, c, p => p == Bound) then s
    else if user in s.clients && authenticated then With(s, c, s.cells[c].(phase := Chosen(user, s.clients[user])))
    else With(s, c, s.cells[c].(phase := Refused(ERROR_SIGNED_OUT)))
  }

  /** Taking the packet id and entering the request happen under one lock; an id already present keeps its entry. */
  function DoSubmit(s: State, c: nat): (t: State)
    ensures t.requests == s.requests && |t.cells| == |s.cells|
  {
    if !InPhase(s, c, (p: Phase) => p.Chosen? && p.client < |s.counters|) then s
    else
      var Chosen(user, k) := s.cells[c].phase;
      var pkt := s.counters[k];
      var next := s.(counters := s.counters[k := pkt + 1]);
      if pkt in s.pending then With(next, c, s.cells[c].(phase := Lost(pkt)))
      else With(next.(pending := s.pending[pkt := Pending(c, user)]), c, s.cells[c].(phase := Queued(pkt, user)))
  }

  function DoTakeReply(s: State, pkt: nat, o: Outcome): (t: State)
    ensures t.requests == s.requests && |t.cells| == |s.cells|
  {
    if pkt !in s.pending then s
    else
      var c := s.pending[pkt].cell;
      var rest := s.(pending := s.pending - {pkt});
      if c < |s.cells| then With(rest, c, s.cells[c].(phase := Taken(o))) else rest
  }

  function DoDelete(s: State, id: int): State {
    if id !in s.requests then s
    else s.(cells := AbortCell(s, s.requests[id].cell), requests := s.requests - {id})
  }

  function DoAbort(s: State, id: int): State {
    if id !in s.requests then s
    else if s.requests[id].cell.Some? then s.(cells := AbortCell(s, s.requests[id].cell))
    else s.(requests := s.requests[id := s.requests[id].(aborted := true)])
  }

  /** The calls that manage requests. */
  function TableStep(s: State, op: Op): State {
    match op
    case Create(async) =>
      if |s.requests| == REQUEST_LIMIT then s
      else s.(requests := s.requests[NewId(s) := Request(async, false, None)])
    case Start(id) => DoStart(s, id)
    case Abort(id) => DoAbort(s, id)
    case Delete(id) => DoDelete(s, id)
    case _ => s
  }

  /** The rest of the call that started a request. */
  function CallStep(s: State, op: Op): State {
    match op
    case SignedOut(c) =>
      if InPhase(s, c, p => p == Started) then With(s, c, Fail1(s.cells[c])) else s
    case Bind(c) =>
      if InPhase(s, c, p => p == Started) then With(s, c, s.cells[c].(phase := Bound)) else s
    case Lookup(c, user, authenticated) => DoLookup(s, c, user, authenticated)
    case Submit(c) => DoSubmit(s, c)
    case Report(c) =>
      if InPhase(s, c, (p: Phase) => p.Refused?)
      then With(s, c, SetResult(s.cells[c], s.cells[c].phase.error).(phase := Finished)) else s
    case _ => s
  }

  /** Replies, connections and disconnects. */
  function ServerStep(s: State, op: Op): State {
    match op
    case TakeReply(pkt, o) => DoTakeReply(s, pkt, o)
    case Deliver(c) =>
      if InPhase(s, c, (p: Phase) => p.Taken?)
      then With(s, c, Settle(s.cells[c], s.cells[c].phase.outcome).(phase := Finished)) else s
    case Connect(user) => s.(clients := s.clients[user := |s.counters|], counters := s.counters + [1])
    case Drop(user) => s.(clients := s.clients - {user})
    case FailPending(user) =>
      s.(cells := FailCells(s.cells, s.pending, user), pending := WithoutUser(s.pending, user))
    case OtherPacket(k) =>
      if k < |s.counters| then s.(counters := s.counters[k := s.counters[k] + 1]) else s
    case _ => s
  }

  predicate TableOp(op: Op) {
    op.Create? || op.Start? || op.Abort? || op.Delete?
  }

  predicate CallOp(op: Op) {
    op.SignedOut? || op.Bind? || op.Lookup? || op.Submit? || op.Report?
  }

  function Apply(s: State, op: Op): State {
    if TableOp(op) then TableStep(s, op) else if CallOp(op) then CallStep(s, op) else ServerStep(s, op)
  }

  function Run(s: State, ops: seq<Op>): State
    decreases |ops|
  {
    if ops == [] then s else Run(Apply(s, ops[0]), ops[1..])
  }

  // ---- One cell, one step ----

  /** How a step may change a cell: the first result stays, and the buffer is written once, by the delivery that
      sets the OK result. */
  ghost predicate Moves(x: Cell, y: Cell, delivery: bool) {
    && (x.result.Some? ==> y.result == x.result)
    && (y.writes == x.writes
        || (delivery && x.result.None? && y.result == Some(OK) && |y.writes| == |x.writes| + 1
            && x.writes == y.writes[..|x.writes|]))
  }

  lemma StepMoves(s: State, op: Op, c: nat)
    requires c < |s.cells|
    ensures c < |Apply(s, op).cells|
    ensures Moves(s.cells[c], Apply(s, op).cells[c], op == Deliver(c))
  {
    hide FirstFree, Padded, Holds;
    if TableOp(op) {
      hide CallStep, ServerStep;
    } else if CallOp(op) {
      hide TableStep, ServerStep;
    } else {
      hide TableStep, CallStep;
    }
  }

  lemma {:induction false} ResultsNeverChange(s: State, ops: seq<Op>, c: nat)
    requires c < |s.cells| && s.cells[c].result.Some?
    ensures var t := Run(s, ops);
            c < |t.cells| && t.cells[c].result == s.cells[c].result && t.cells[c].writes == s.cells[c].writes
    decreases |ops|
  {
    if ops != [] {
      StepMoves(s, ops[0], c);
      hide Apply;
      ResultsNeverChange(Apply(s, ops[0]), ops[1..], c);
    }
  }

  /** After an abort or a delete of a started request has returned, nothing ever writes its buffer or its result. */
  lemma QuietAfterAbort(s: State, id: int, ops: seq<Op>, deleted: bool)
    requires id in s.requests && s.requests[id].cell.Some? && s.requests[id].cell.value < |s.cells|
    ensures var c := s.requests[id].cell.value;
            var ended := Apply(s, if deleted then Delete(id) else Abort(id));
            var later := Run(ended, ops);
            && c < |ended.cells| && ended.cells[c].writes == s.cells[c].writes
            && ended.cells[c].result == (if s.cells[c].result.Some? then s.cells[c].result else Some(ERROR_ABORTED))
            && c < |later.cells| && later.cells[c].result == ended.cells[c].result
            && later.cells[c].writes == s.cells[c].writes
  {
    var c := s.requests[id].cell.value;
    var ended := Apply(s, if deleted then Delete(id) else Abort(id));
    ResultsNeverChange(ended, ops, c);
  }

  // ---- The invariant ----

  ghost predicate Terminated(w: seq<u8>) {
    |w| == BUFFER_SIZE && w[CODE_SIZE - 1] == 0
  }

  /** A cell has been written exactly if its result is OK, once, and with a terminator. */
  ghost predicate CellOk(x: Cell) {
    && |x.writes| <= 1
    && (x.writes != [] <==> x.result == Some(OK))
    && (forall w :: w in x.writes ==> Terminated(w))
    && (x.phase.Finished? ==> x.result.Some?)
    && (x.phase.Refused? ==> x.phase.error < 0)
  }

  /** The pending table holds exactly the queued requests. */
  ghost predicate PendingOk(pending: map<nat, Pending>, cells: seq<Cell>) {
    && (forall p :: p in pending ==>
          pending[p].cell < |cells| && cells[pending[p].cell].phase == Queued(p, pending[p].user))
    && (forall c :: 0 <= c < |cells| && cells[c].phase.Queued? ==>
          cells[c].phase.pkt in pending && pending[cells[c].phase.pkt] == Pending(c, cells[c].phase.user))
  }

  /** Live requests have the first sixteen ids, and cells of their own. */
  ghost predicate RequestsOk(requests: map<int, Request>, n: nat) {
    && |requests| <= REQUEST_LIMIT
    && (forall id :: id in requests ==> REQUEST_ID_OFFSET < id <= REQUEST_ID_OFFSET + REQUEST_LIMIT)
    && (forall id :: id in requests && requests[id].cell.Some? ==> requests[id].cell.value < n)
    && (forall id, id' :: id in requests && id' in requests && id != id' && requests[id].cell.Some? ==>
          requests[id].cell != requests[id'].cell)
  }

  ghost predicate ClientsOk(clients: map<int, nat>, cells: seq<Cell>, n: nat) {
    && (forall u :: u in clients ==> clients[u] < n)
    && (forall c :: 0 <= c < |cells| && cells[c].phase.Chosen? ==> cells[c].phase.client < n)
  }

  ghost predicate CellsOk(cells: seq<Cell>) {
    forall c :: 0 <= c < |cells| ==> CellOk(cells[c])
  }

  ghost predicate Inv(s: State) {
    && CellsOk(s.cells)
    && PendingOk(s.pending, s.cells)
    && RequestsOk(s.requests, |s.cells|)
    && ClientsOk(s.clients, s.cells, |s.counters|)
  }

  lemma StepKeepsCells(s: State, op: Op)
    requires CellsOk(s.cells)
    ensures CellsOk(Apply(s, op).cells)
  {
    hide FirstFree, Padded, Holds, NewId, WithoutUser;
    if TableOp(op) {
      hide CallStep, ServerStep;
    } else if CallOp(op) {
      hide TableStep, ServerStep;
    } else {
      hide TableStep, CallStep;
    }
  }

  lemma FailKeepsPending(pending: map<nat, Pending>, cells: seq<Cell>, user: int)
    requires PendingOk(pending, cells)
    ensures PendingOk(WithoutUser(pending, user), FailCells(cells, pending, user))
  {
  }

  lemma SubmitKeepsPending(s: State, c: nat)
    requires PendingOk(s.pending, s.cells)
    ensures PendingOk(DoSubmit(s, c).pending, DoSubmit(s, c).cells)
  {
    var t := DoSubmit(s, c);
    if c < |s.cells| && t.cells[c].phase.Lost? && s.cells[c].phase.Chosen? {
      SameQueueKeepsPending(s.pending, s.cells, t.cells);
    }
  }

  lemma TakeKeepsPending(s: State, pkt: nat, o: Outcome)
    requires PendingOk(s.pending, s.cells)
    ensures PendingOk(DoTakeReply(s, pkt, o).pending, DoTakeReply(s, pkt, o).cells)
  {
  }

  /** Nobody joins or leaves the queue. */
  ghost predicate SameQueue(before: seq<Cell>, after: seq<Cell>) {
    && |before| <= |after|
    && (forall c :: 0 <= c < |before| ==>
          after[c].phase == before[c].phase || (!before[c].phase.Queued? && !after[c].phase.Queued?))
    && (forall c :: |before| <= c < |after| ==> !after[c].phase.Queued?)
  }

  lemma OtherKeepsQueue(s: State, op: Op)
    requires !op.FailPending? && !op.Submit? && !op.TakeReply?
    ensures SameQueue(s.cells, Apply(s, op).cells) && Apply(s, op).pending == s.pending
  {
    hide FirstFree, Padded, NewId, DoSubmit, DoTakeReply, FailCells, WithoutUser;
    if TableOp(op) {
      hide CallStep, ServerStep;
    } else if CallOp(op) {
      hide TableStep, ServerStep;
    } else {
      hide TableStep, CallStep;
    }
  }

  lemma SameQueueKeepsPending(pending: map<nat, Pending>, before: seq<Cell>, after: seq<Cell>)
    requires PendingOk(pending, before) && SameQueue(before, after)
    ensures PendingOk(pending, after)
  {
  }

  lemma StepKeepsPending(s: State, op: Op)
    requires PendingOk(s.pending, s.cells)
    ensures PendingOk(Apply(s, op).pending, Apply(s, op).cells)
  {
    hide PendingOk, SameQueue, DoSubmit, DoTakeReply, FailCells, WithoutUser;
    match op
    case FailPending(user) => FailKeepsPending(s.pending, s.cells, user);
    case Submit(c) => SubmitKeepsPending(s, c);
    case TakeReply(pkt, o) => TakeKeepsPending(s, pkt, o);
    case _ =>
      OtherKeepsQueue(s, op);
      SameQueueKeepsPending(s.pending, s.cells, Apply(s, op).cells);
      hide Apply;
  }

  lemma CreateKeepsRequests(s: State, async: bool)
    requires RequestsOk(s.requests, |s.cells|)
    ensures RequestsOk(Apply(s, Create(async)).requests, |s.cells|)
  {
    FirstFreeHolds(s.requests.Keys, REQUEST_ID_OFFSET + 1);
    hide FirstFree, DoSubmit, DoTakeReply, DoLookup, DoAbort, DoDelete, DoStart;
    if |s.requests| != REQUEST_LIMIT {
      assert Apply(s, Create(async)).requests.Keys == s.requests.Keys + {NewId(s)};
    }
  }

  lemma StartKeepsRequests(s: State, id: int)
    requires RequestsOk(s.requests, |s.cells|)
    ensures RequestsOk(DoStart(s, id).requests, |DoStart(s, id).cells|)
  {
  }

  lemma EndKeepsRequests(s: State, id: int)
    requires RequestsOk(s.requests, |s.cells|)
    ensures RequestsOk(DoAbort(s, id).requests, |DoAbort(s, id).cells|)
    ensures RequestsOk(DoDelete(s, id).requests, |DoDelete(s, id).cells|)
  {
    hide SetResult;
    assert DoAbort(s, id).requests.Keys == s.requests.Keys;
    assert DoDelete(s, id).requests.Keys == s.requests.Keys - {id};
  }

  lemma StepKeepsRequests(s: State, op: Op)
    requires RequestsOk(s.requests, |s.cells|)
    ensures RequestsOk(Apply(s, op).requests, |Apply(s, op).cells|)
  {
    hide RequestsOk, DoStart, DoAbort, DoDelete, DoSubmit, DoTakeReply, DoLookup, SetResult, Settle;
    match op
    case Create(async) => CreateKeepsRequests(s, async);
    case Start(id) => StartKeepsRequests(s, id);
    case Abort(id) => EndKeepsRequests(s, id);
    case Delete(id) => EndKeepsRequests(s, id);
    case _ =>
  }

  lemma StepKeepsClients(s: State, op: Op)
    requires ClientsOk(s.clients, s.cells, |s.counters|)
    ensures ClientsOk(Apply(s, op).clients, Apply(s, op).cells, |Apply(s, op).counters|)
  {
    hide FirstFree, Padded, Holds, NewId, WithoutUser;
    if TableOp(op) {
      hide CallStep, ServerStep;
    } else if CallOp(op) {
      hide TableStep, ServerStep;
    } else {
      hide TableStep, CallStep;
    }
  }

  lemma {:induction false} RunPreserves(s: State, ops: seq<Op>)
    requires Inv(s)
    ensures Inv(Run(s, ops))
    decreases |ops|
  {
    if ops != [] {
      hide Apply, CellsOk, PendingOk, RequestsOk, ClientsOk;
      StepKeepsCells(s, ops[0]);
      StepKeepsPending(s, ops[0]);
      StepKeepsRequests(s, ops[0]);
      StepKeepsClients(s, ops[0]);
      RunPreserves(Apply(s, ops[0]), ops[1..]);
    }
  }

  // ---- Conservation ----

  /** A queued request stays queued until a reply with its packet id takes it or its user's requests are failed,
      which gives it its result. */
  lemma QueuedStep(s: State, op: Op, c: nat)
    requires PendingOk(s.pending, s.cells) && c < |s.cells| && s.cells[c].phase.Queued?
    ensures var Queued(pkt, user) := s.cells[c].phase;
            var t := Apply(s, op);
            && c < |t.cells| && pkt in s.pending
            && (match op
                case TakeReply(p, o) =>
                  if p == pkt then t.cells[c].phase == Taken(o) && pkt !in t.pending else t.cells[c] == s.cells[c]
                case FailPending(u) =>
                  if u == user then
                    pkt !in t.pending && t.cells[c].phase == Finished && t.cells[c].result.Some?
                    && (s.cells[c].result.None? ==> t.cells[c].result == Some(ERROR_SIGNED_OUT))
                  else t.cells[c] == s.cells[c]
                case _ => t.cells[c].phase == s.cells[c].phase)
  {
    hide FirstFree, Padded, NewId, Settle;
    if TableOp(op) {
      hide CallStep, ServerStep;
    } else if CallOp(op) {
      hide TableStep, ServerStep;
    } else {
      hide TableStep, CallStep;
    }
  }

  /** From its acceptance on, in every run, a request is in the table, taken by a reply, or has its result. */
  lemma {:induction false} AcceptedIsNeverForgotten(s: State, ops: seq<Op>, c: nat)
    requires Inv(s) && c < |s.cells|
    requires s.cells[c].phase.Queued? || s.cells[c].phase.Taken? || s.cells[c].phase.Finished?
    ensures var t := Run(s, ops);
            && c < |t.cells|
            && (t.cells[c].phase.Queued? || t.cells[c].phase.Taken? || t.cells[c].phase.Finished?)
            && (t.cells[c].phase.Queued? ==> t.cells[c].phase == s.cells[c].phase && t.cells[c].phase.pkt in t.pending)
            && (t.cells[c].phase.Finished? ==> t.cells[c].result.Some?)
    decreases |ops|
  {
    if ops != [] {
      var t := Apply(s, ops[0]);
      RunPreserves(s, ops[..1]);
      assert ops[..1][1..] == [];
      assert Run(s, ops[..1]) == Run(t, []) == t;
      if s.cells[c].phase.Queued? {
        QueuedStep(s, ops[0], c);
      } else {
        HeldStep(s, ops[0], c);
      }
      hide Apply, CellsOk, PendingOk, RequestsOk, ClientsOk;
      AcceptedIsNeverForgotten(t, ops[1..], c);
    } else {
      hide Apply;
    }
  }

  /** A taken request is settled only by its delivery, with an earlier result, the error or the code of the reply; a
      finished one stays finished. */
  lemma HeldStep(s: State, op: Op, c: nat)
    requires PendingOk(s.pending, s.cells) && c < |s.cells|
    requires s.cells[c].phase.Taken? || s.cells[c].phase.Finished?
    ensures c < |Apply(s, op).cells|
    ensures if op == Deliver(c) && s.cells[c].phase.Taken?
            then
              var x, y := s.cells[c], Apply(s, op).cells[c];
              && y.phase == Finished
              && (x.result.Some? ==> y.result == x.result && y.writes == x.writes)
              && (x.result.None? ==>
                    match x.phase.outcome
                    case Fail(e) => y.result == Some(e) && y.writes == x.writes
                    case Code(code) => y.result == Some(OK) && y.writes == x.writes + [Padded(code)])
            else Apply(s, op).cells[c].phase == s.cells[c].phase
  {
    hide FirstFree, Padded, NewId;
    if TableOp(op) {
      hide CallStep, ServerStep;
    } else if CallOp(op) {
      hide TableStep, ServerStep;
    } else {
      hide TableStep, CallStep;
    }
  }

  /** Over with an earlier result, or else with this error. */
  ghost predicate Ended(x: Cell, y: Cell, error: int) {
    y == Cell(Finished, if x.result.Some? then x.result else Some(error), x.writes)
  }

  /** Failing a user's requests removes all of that user's entries and nobody else's; each of them keeps its earlier
      result or else ends signed out. */
  lemma FailsExactlyTheUsers(s: State, user: int)
    requires PendingOk(s.pending, s.cells)
    ensures var t := Apply(s, FailPending(user));
            && (forall p :: p in t.pending <==> p in s.pending && s.pending[p].user != user)
            && (forall p :: p in t.pending ==> t.pending[p] == s.pending[p])
            && |t.cells| == |s.cells|
            && (forall p :: p in s.pending ==>
                  if s.pending[p].user == user
                  then Ended(s.cells[s.pending[p].cell], t.cells[s.pending[p].cell], ERROR_SIGNED_OUT)
                  else t.cells[s.pending[p].cell] == s.cells[s.pending[p].cell])
            && (forall c :: 0 <= c < |s.cells| && !s.cells[c].phase.Queued? ==> t.cells[c] == s.cells[c])
  {
    hide FirstFree, Padded, NewId;
    var t := Apply(s, FailPending(user));
    forall p | p in s.pending && s.pending[p].user == user
      ensures Ended(s.cells[s.pending[p].cell], t.cells[s.pending[p].cell], ERROR_SIGNED_OUT)
    {
      assert Holds(s.pending, user, s.pending[p].cell);
    }
  }

  /** Starting a request binds it to a new cell, unless it was started or aborted before; an abort marks a request
      that was not started. Nothing else changes a request until it is deleted. */
  lemma RequestStep(s: State, op: Op, id: int)
    requires id in s.requests && op != Delete(id)
    ensures var x, t := s.requests[id], Apply(s, op);
            && id in t.requests && t.requests[id].async == x.async
            && t.requests[id].cell ==
                 (if op == Start(id) && x.cell.None? && !x.aborted then Some(|s.cells|) else x.cell)
            && t.requests[id].aborted == (x.aborted || (op == Abort(id) && x.cell.None?))
            && (op == Start(id) && x.cell.None? && !x.aborted ==> t.cells == s.cells + [Cell(Started, None, [])])
  {
    FirstFreeHolds(s.requests.Keys, REQUEST_ID_OFFSET + 1);
    hide FirstFree, Padded, Holds, Settle;
    if TableOp(op) {
      hide CallStep, ServerStep;
    } else if CallOp(op) {
      hide TableStep, ServerStep;
    } else {
      hide TableStep, CallStep;
    }
  }

  /** So once started or aborted, a request is not started again, whatever happens up to its deletion. */
  lemma {:induction false} StartedAtMostOnce(s: State, ops: seq<Op>, id: int)
    requires id in s.requests && Delete(id) !in ops && (s.requests[id].cell.Some? || s.requests[id].aborted)
    ensures id in Run(s, ops).requests && Run(s, ops).requests[id].cell == s.requests[id].cell
    ensures s.requests[id].aborted ==> Run(s, ops).requests[id].aborted
    decreases |ops|
  {
    if ops != [] {
      RequestStep(s, ops[0], id);
      assert ops[0] in ops && forall op :: op in ops[1..] ==> op in ops;
      hide Apply;
      StartedAtMostOnce(Apply(s, ops[0]), ops[1..], id);
    }
  }

  /** A creation fails exactly with sixteen live requests; otherwise the lowest free id becomes a new request. */
  lemma CreateTakesLowestId(s: State, async: bool)
    ensures var t, id := Apply(s, Create(async)), NewId(s);
            && (|s.requests| == REQUEST_LIMIT ==> t == s)
            && (|s.requests| != REQUEST_LIMIT ==>
                  && t == s.(requests := s.requests[id := Request(async, false, None)])
                  && id !in s.requests && id > REQUEST_ID_OFFSET
                  && forall j :: REQUEST_ID_OFFSET < j < id ==> j in s.requests)
  {
    FirstFreeHolds(s.requests.Keys, REQUEST_ID_OFFSET + 1);
    hide FirstFree;
  }

  /** Each client numbers its packets one by one: a submit and any other packet take the next number. */
  lemma PacketIdsCountUp(s: State, op: Op, k: nat)
    requires k < |s.counters|
    ensures var sent := op == OtherPacket(k)
                        || (op.Submit? && op.cell < |s.cells| && s.cells[op.cell].phase.Chosen?
                            && s.cells[op.cell].phase.client == k);
            && k < |Apply(s, op).counters|
            && Apply(s, op).counters[k] == s.counters[k] + if sent then 1 else 0
    ensures op.Connect? ==>
              Apply(s, op).counters == s.counters + [1] && Apply(s, op).clients == s.clients[op.user := |s.counters|]
  {
    hide FirstFree, Padded, Holds, Settle;
  }

  /** A started call that finds nobody signed in ends its request so. */
  lemma SignedOutEnds(s: State, c: nat)
    requires c < |s.cells| && s.cells[c].phase == Started
    ensures Ended(s.cells[c], Apply(s, SignedOut(c)).cells[c], ERROR_SIGNED_OUT)
  {
  }

  /** A call whose user has no authenticated client ends signed out; any other goes on to submit, undecided. */
  lemma UnsentRequestsEndSignedOut(s: State, c: nat, user: int, authenticated: bool)
    requires c < |s.cells| && s.cells[c].phase == Bound && s.cells[c].result.None?
    ensures var t := Apply(Apply(s, Lookup(c, user, authenticated)), Report(c));
            && |t.cells| == |s.cells| && t.pending == s.pending
            && (t.cells[c] == Cell(Finished, Some(ERROR_SIGNED_OUT), s.cells[c].writes)
                <==> !(user in s.clients && authenticated))
            && (user in s.clients && authenticated ==>
                  t.cells[c] == Cell(Chosen(user, s.clients[user]), None, s.cells[c].writes))
  {
  }

  // ---- Packet ids ----

  /** A submitted request enters the table exactly if its packet id is not in it; otherwise the entry of the other
      request stays and this one is lost. */
  lemma SubmitQueues(s: State, c: nat)
    requires Inv(s) && c < |s.cells| && s.cells[c].phase.Chosen?
    ensures var Chosen(user, k) := s.cells[c].phase;
            && k < |s.counters|
            && var pkt, t := s.counters[k], Apply(s, Submit(c));
               && |t.cells| == |s.cells|
               && (pkt !in s.pending ==>
                     t.cells[c].phase == Queued(pkt, user) && t.pending == s.pending[pkt := Pending(c, user)])
               && (pkt in s.pending ==>
                     t.cells[c].phase == Lost(pkt) && t.pending == s.pending && s.pending[pkt].cell != c)
  {
  }

  /** A lost request gets no result from anybody but the game that gives it up. */
  lemma {:induction false} LostEndsOnlyByTheGame(s: State, ops: seq<Op>, c: nat)
    requires Inv(s) && c < |s.cells| && s.cells[c].phase.Lost? && s.cells[c].result.None?
    requires forall op :: op in ops ==> !op.Abort? && !op.Delete?
    ensures c < |Run(s, ops).cells| && Run(s, ops).cells[c].phase.Lost? && Run(s, ops).cells[c].result.None?
    decreases |ops|
  {
    if ops != [] {
      var op := ops[0];
      assert op in ops && forall o :: o in ops[1..] ==> o in ops;
      LostStep(s, op, c);
      RunPreserves(s, ops[..1]);
      assert ops[..1][1..] == [];
      assert Run(s, ops[..1]) == Run(Apply(s, op), []) == Apply(s, op);
      hide Apply, CellsOk, PendingOk, RequestsOk, ClientsOk;
      LostEndsOnlyByTheGame(Apply(s, op), ops[1..], c);
    }
  }

  lemma LostStep(s: State, op: Op, c: nat)
    requires PendingOk(s.pending, s.cells) && c < |s.cells| && s.cells[c].phase.Lost? && !op.Abort? && !op.Delete?
    ensures c < |Apply(s, op).cells| && Apply(s, op).cells[c] == s.cells[c]
  {
    hide FirstFree, Padded, NewId, SetResult, Settle;
    if TableOp(op) {
      hide CallStep, ServerStep;
    } else if CallOp(op) {
      hide TableStep, ServerStep;
    } else {
      hide TableStep, CallStep;
    }
  }

  /** One client only: all packet ids in the table are behind its counter. */
  ghost predicate OneClient(s: State) {
    && |s.counters| == 1
    && (forall u :: u in s.clients ==> s.clients[u] == 0)
    && (forall p :: p in s.pending ==> p < s.counters[0])
    && (forall c :: 0 <= c < |s.cells| ==>
          !s.cells[c].phase.Lost? && (s.cells[c].phase.Chosen? ==> s.cells[c].phase.client == 0))
  }

  lemma OneClientStep(s: State, op: Op)
    requires OneClient(s) && !op.Connect?
    ensures OneClient(Apply(s, op))
  {
    hide FirstFree, Padded, NewId, Holds, Settle;
    if TableOp(op) {
      hide CallStep, ServerStep;
    } else if CallOp(op) {
      hide TableStep, ServerStep;
    } else {
      hide TableStep, CallStep;
    }
  }

  lemma {:induction false} OneClientRun(s: State, ops: seq<Op>)
    requires OneClient(s) && forall op :: op in ops ==> !op.Connect?
    ensures OneClient(Run(s, ops))
    decreases |ops|
  {
    if ops != [] {
      assert ops[0] in ops && forall o :: o in ops[1..] ==> o in ops;
      OneClientStep(s, ops[0]);
      hide Apply;
      OneClientRun(Apply(s, ops[0]), ops[1..]);
    }
  }

  /** As long as there has been one client, no submitted request is lost: each is queued, taken or finished. */
  lemma OneClientNeverLoses(user: int, ops: seq<Op>)
    requires forall op :: op in ops ==> !op.Connect?
    ensures forall c :: 0 <= c < |Run(Apply(Init, Connect(user)), ops).cells| ==>
              !Run(Apply(Init, Connect(user)), ops).cells[c].phase.Lost?
  {
    OneClientRun(Apply(Init, Connect(user)), ops);
  }

  // ---- Reachable failures ----

  ghost predicate Reachable(s: State) {
    exists ops :: s == Run(Init, ops)
  }

  lemma {:induction false} RunAppend(s: State, ops: seq<Op>, op: Op)
    ensures Run(s, ops + [op]) == Apply(Run(s, ops), op)
    decreases |ops|
  {
    hide Apply;
    if ops == [] {
      assert [op][1..] == [];
      assert Run(Apply(s, op), []) == Apply(s, op);
      assert ops + [op] == [op];
    } else {
      assert (ops + [op])[1..] == ops[1..] + [op];
      RunAppend(Apply(s, ops[0]), ops[1..], op);
    }
  }

  /** Every reachable state satisfies the invariant, so what is proved of invariant states holds over all runs. */
  lemma ReachableIsSound(s: State)
    requires Reachable(s)
    ensures Inv(s)
  {
    var ops :| s == Run(Init, ops);
    RunPreserves(Init, ops);
  }

  lemma ReachStep(s: State, op: Op) returns (t: State)
    requires Reachable(s)
    ensures t == Apply(s, op) && Reachable(t)
  {
    var ops :| s == Run(Init, ops);
    RunAppend(Init, ops, op);
    t := Apply(s, op);
    assert t == Run(Init, ops + [op]);
  }

  const FIRST: int := REQUEST_ID_OFFSET + 1

  lemma {:induction false} FreshRequests()
    ensures FirstFree({}, FIRST) == FIRST
    ensures FirstFree({FIRST}, FIRST) == FIRST + 1
  {
  }

  lemma TwoConnected() returns (s: State)
    ensures Reachable(s) && s == State(map[], [], map[1 := 0, 2 := 1], [1, 1], map[])
  {
    assert Run(Init, []) == Init;
    assert Reachable(Init);
    hide Reachable, Run, TableStep, CallStep;
    s := ReachStep(Init, Connect(1));
    s := ReachStep(s, Connect(2));
  }

  lemma TwoCreated() returns (s: State)
    ensures Reachable(s)
    ensures s == State(map[FIRST := Request(true, false, None), FIRST + 1 := Request(true, false, None)], [],
                       map[1 := 0, 2 := 1], [1, 1], map[])
  {
    s := TwoConnected();
    FreshRequests();
    hide FirstFree, CallStep, ServerStep, DoAbort, DoDelete, DoStart, Run, Reachable;
    s := ReachStep(s, Create(true));
    assert s.requests.Keys == {FIRST};
    s := ReachStep(s, Create(true));
  }

  lemma TwoStarted() returns (s: State)
    ensures Reachable(s) && s.pending == map[] && s.counters == [1, 1] && s.clients == map[1 := 0, 2 := 1]
    ensures s.cells == [Cell(Started, None, []), Cell(Started, None, [])]
  {
    s := TwoCreated();
    hide FirstFree, CallStep, ServerStep, DoAbort, DoDelete, Run, Reachable;
    s := ReachStep(s, Start(FIRST));
    s := ReachStep(s, Start(FIRST + 1));
  }

  /** Two requests, each about to submit for its own user. */
  lemma TwoChosen() returns (s: State)
    ensures Reachable(s) && s.pending == map[] && s.counters == [1, 1]
    ensures s.cells == [Cell(Chosen(1, 0), None, []), Cell(Chosen(2, 1), None, [])]
  {
    s := TwoStarted();
    hide TableStep, ServerStep, DoSubmit, Run, Reachable;
    s := ReachStep(s, Bind(0));
    s := ReachStep(s, Bind(1));
    s := ReachStep(s, Lookup(0, 1, true));
    s := ReachStep(s, Lookup(1, 2, true));
  }

  /** Two users' clients number their packets alike: the second request is lost, and the reply meant for it is given
      to the first. */
  lemma PacketIdsCollide(o: Outcome) returns (s: State, t: State)
    ensures Reachable(s) && |s.cells| == 2
    ensures s.cells[0].phase == Queued(1, 1) && s.cells[1].phase == Lost(1)
    ensures t == Apply(s, TakeReply(1, o)) && |t.cells| == 2 && t.cells[0].phase == Taken(o)
  {
    s := TwoChosen();
    hide Reachable, Run, TableStep, DoLookup;
    s := ReachStep(s, Submit(0));
    s := ReachStep(s, Submit(1));
    t := Apply(s, TakeReply(1, o));
  }

  ghost predicate HasPending(s: State, user: int) {
    exists p :: p in s.pending && s.pending[p].user == user
  }

  ghost predicate HasChosen(s: State, user: int) {
    exists c :: 0 <= c < |s.cells| && s.cells[c].phase.Chosen? && s.cells[c].phase.user == user
  }

  /** Nothing of the user is pending or on its way there, and no call can look the user up. */
  ghost predicate Quiet(s: State, user: int) {
    user !in s.clients && !HasPending(s, user) && !HasChosen(s, user)
  }

  lemma QuietTable(s: State, op: Op, user: int)
    requires Quiet(s, user)
    ensures Quiet(TableStep(s, op), user)
  {
    hide FirstFree, Padded, NewId, Holds, Settle;
  }

  lemma QuietCall(s: State, op: Op, user: int)
    requires Quiet(s, user)
    ensures Quiet(CallStep(s, op), user)
  {
    hide FirstFree, Padded, NewId, Holds, Settle;
  }

  lemma QuietServer(s: State, op: Op, user: int)
    requires Quiet(s, user) && op != Connect(user)
    ensures Quiet(ServerStep(s, op), user)
  {
    hide FirstFree, Padded, NewId, Holds, Settle;
  }

  lemma NoOrphanStep(s: State, op: Op, user: int)
    requires Quiet(s, user) && op != Connect(user)
    ensures Quiet(Apply(s, op), user)
  {
    QuietTable(s, op, user);
    QuietCall(s, op, user);
    QuietServer(s, op, user);
    hide Quiet, TableStep, CallStep, ServerStep;
  }

  lemma {:induction false} NoOrphanRun(s: State, ops: seq<Op>, user: int)
    requires Quiet(s, user) && Connect(user) !in ops
    ensures !HasPending(Run(s, ops), user)
    decreases |ops|
  {
    if ops != [] {
      NoOrphanStep(s, ops[0], user);
      hide Apply, HasPending, HasChosen;
      NoOrphanRun(Apply(s, ops[0]), ops[1..], user);
    }
  }

  lemma ChosenMakesOrphan(s: State, user: int, c: nat) returns (ops: seq<Op>)
    requires Inv(s) && c < |s.cells| && s.cells[c].phase.Chosen? && s.cells[c].phase.user == user
    ensures Connect(user) !in ops && HasPending(Run(s, ops), user)
  {
    var pkt := s.counters[s.cells[c].phase.client];
    var t := DoTakeReply(s, pkt, Fail(-1));
    assert t.cells[c] == s.cells[c] && pkt !in t.pending && t.counters == s.counters;
    hide DoTakeReply, Inv;
    assert HasPending(DoSubmit(t, c), user) by { SubmitFree(t, c); }
    ops := [TakeReply(pkt, Fail(-1)), Submit(c)];
    hide HasPending, DoSubmit, TableStep;
    assert ops[1..] == [Submit(c)] && ops[1..][1..] == [];
    assert Apply(s, ops[0]) == t && Apply(t, Submit(c)) == DoSubmit(t, c);
    hide Apply;
    assert Run(t, ops[1..]) == Run(DoSubmit(t, c), []) == DoSubmit(t, c);
  }

  lemma SubmitFree(s: State, c: nat)
    requires c < |s.cells| && s.cells[c].phase.Chosen? && s.cells[c].phase.client < |s.counters|
    requires s.counters[s.cells[c].phase.client] !in s.pending
    ensures HasPending(DoSubmit(s, c), s.cells[c].phase.user)
  {
    var pkt := s.counters[s.cells[c].phase.client];
    assert pkt in DoSubmit(s, c).pending;
  }

  /** After a disconnect has failed a user's requests, another can still become pending for the dead client exactly
      if some call had already looked the client up. */
  lemma OrphansExactlyFromLateSubmits(s: State, user: int)
    requires Inv(s) && user !in s.clients && !HasPending(s, user)
    ensures (exists ops :: Connect(user) !in ops && HasPending(Run(s, ops), user)) <==> HasChosen(s, user)
  {
    if HasChosen(s, user) {
      var c :| 0 <= c < |s.cells| && s.cells[c].phase.Chosen? && s.cells[c].phase.user == user;
      var ops := ChosenMakesOrphan(s, user, c);
    } else {
      hide Run, HasPending;
      forall ops: seq<Op> | Connect(user) !in ops ensures !HasPending(Run(s, ops), user) {
        NoOrphanRun(s, ops, user);
      }
    }
  }

  /** Such a call exists: a reachable state in which a request becomes pending for a user who is disconnected, and
      whose requests have been failed. */
  lemma DisconnectLeavesAnOrphan() returns (s: State, t: State)
    ensures Reachable(s) && 1 !in s.clients && !HasPending(s, 1) && HasChosen(s, 1)
    ensures t == Apply(s, Submit(0)) && Reachable(t) && 1 !in t.clients && HasPending(t, 1)
    ensures |t.cells| == 2 && t.cells[0].phase == Queued(1, 1) && t.cells[0].result.None?
  {
    s := TwoChosen();
    hide Reachable, Run, TableStep, DoLookup;
    s := ReachStep(s, Drop(1));
    s := ReachStep(s, FailPending(1));
    assert s.cells[0] == Cell(Chosen(1, 0), None, []);
    t := ReachStep(s, Submit(0));
    assert 1 in t.pending && t.pending[1].user == 1;
  }
}
