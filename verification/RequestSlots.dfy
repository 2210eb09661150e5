/** NpManager's request slots: ids are slot numbers, reused lowest first, and a slot keeps its last result. */
module RequestSlots {
  import opened Widths

  const REQUEST_LIMIT: nat := 0x20
  const REQUEST_ID_OFFSET: int := 0x2000_0000

  const OK: int := 0
  const ERROR_INVALID_ARGUMENT: int := ToS32(0x80550003)
  const ERROR_SIGNED_OUT: int := ToS32(0x80550006)
  const ERROR_ABORTED: int := ToS32(0x80550012)
  const ERROR_REQUEST_MAX: int := ToS32(0x80550013)
  const ERROR_REQUEST_NOT_FOUND: int := ToS32(0x80550014)
  const ERROR_INVALID_ID: int := ToS32(0x80550015)

  datatype SlotState = Free | Ready | Aborted | Complete

  datatype Slot = Slot(state: SlotState, async: bool, result: int)

  datatype State = State(slots: seq<Slot>, active: int)

  const Empty := State([], 0)

  /** `Use` is any call that works on the request and completes it, for a user who is signed in or not. */
  datatype Op =
    | Create(async: bool)
    | Use(id: int, signedIn: bool)
    | Abort(id: int)
    | Delete(id: int)

  // ---- The operations ----

  /** The only two outcomes a request is ever completed with. */
  function Outcome(signedIn: bool): int {
    if signedIn then OK else ERROR_SIGNED_OUT
  }

  function Index(id: int): int {
    id - REQUEST_ID_OFFSET - 1
  }

  function IdOf(i: int): int {
    i + REQUEST_ID_OFFSET + 1
  }

  predicate Found(s: State, id: int) {
    s.active != 0 && 0 <= Index(id) < |s.slots| && !s.slots[Index(id)].state.Free?
  }

  /** The first free slot from `i` on, or the length. */
  function FreeFrom(slots: seq<Slot>, i: nat): (k: nat)
    requires i <= |slots|
    ensures i <= k <= |slots|
    decreases |slots| - i
  {
    if i == |slots| || slots[i].state.Free? then i else FreeFrom(slots, i + 1)
  }

  function DoCreate(s: State, async: bool): (State, int) {
    if s.active == REQUEST_LIMIT then (s, ERROR_REQUEST_MAX)
    else
      var i := FreeFrom(s.slots, 0);
      if i == |s.slots| then (State(s.slots + [Slot(Ready, async, 0)], s.active + 1), IdOf(i))
      else (State(s.slots[i := Slot(Ready, async, s.slots[i].result)], s.active + 1), IdOf(i))
  }

  /** Working on a request that is over records the error as its result. */
  function DoUse(s: State, id: int, signedIn: bool): (State, int) {
    if id == 0 then (s, ERROR_INVALID_ARGUMENT)
    else if !Found(s, id) then (s, ERROR_REQUEST_NOT_FOUND)
    else
      var i := Index(id);
      var slot, outcome := s.slots[i], Outcome(signedIn);
      match slot.state
      case Complete => (s.(slots := s.slots[i := slot.(result := ERROR_INVALID_ARGUMENT)]), ERROR_INVALID_ARGUMENT)
      case Aborted => (s.(slots := s.slots[i := slot.(result := ERROR_ABORTED)]), ERROR_ABORTED)
      case _ =>
        (s.(slots := s.slots[i := Slot(Complete, slot.async, outcome)]),
         if outcome != OK && slot.async then OK else outcome)
  }

  function DoAbort(s: State, id: int): (State, int) {
    if !Found(s, id) then (s, ERROR_REQUEST_NOT_FOUND)
    else if s.slots[Index(id)].state.Complete? then (s, OK)
    else (s.(slots := s.slots[Index(id) := s.slots[Index(id)].(state := Aborted)]), OK)
  }

  function DoDelete(s: State, id: int): (State, int) {
    if !Found(s, id) then (s, ERROR_REQUEST_NOT_FOUND)
    else (State(s.slots[Index(id) := s.slots[Index(id)].(state := Free)], s.active - 1), OK)
  }

  /** The polled result, or an error. */
  datatype Poll = Result(value: int) | Error(code: int)

  function DoPoll(s: State, id: int): Poll {
    if !Found(s, id) then Error(ERROR_REQUEST_NOT_FOUND)
    else if !s.slots[Index(id)].async || s.slots[Index(id)].state.Ready? then Error(ERROR_INVALID_ID)
    else Result(s.slots[Index(id)].result)
  }

  function Step(s: State, op: Op): (State, int) {
    match op
    case Create(async) => DoCreate(s, async)
    case Use(id, signedIn) => DoUse(s, id, signedIn)
    case Abort(id) => DoAbort(s, id)
    case Delete(id) => DoDelete(s, id)
  }

  function Run(s: State, ops: seq<Op>): State
    decreases |ops|
  {
    if ops == [] then s else Run(Step(s, ops[0]).0, ops[1..])
  }

  // ---- The counter ----

  function CountLive(slots: seq<Slot>): nat {
    if slots == [] then 0
    else CountLive(slots[..|slots| - 1]) + if slots[|slots| - 1].state.Free? then 0 else 1
  }

  lemma {:induction false} CountUpdate(slots: seq<Slot>, i: nat, x: Slot)
    requires i < |slots|
    ensures CountLive(slots[i := x]) ==
              CountLive(slots) + (if x.state.Free? then 0 else 1) - (if slots[i].state.Free? then 0 else 1)
  {
    var n := |slots| - 1;
    if i == n {
      assert slots[i := x][..n] == slots[..n];
    } else {
      assert slots[i := x][..n] == slots[..n][i := x];
      CountUpdate(slots[..n], i, x);
    }
  }

  lemma CountPush(slots: seq<Slot>, x: Slot)
    ensures CountLive(slots + [x]) == CountLive(slots) + if x.state.Free? then 0 else 1
  {
  }

  lemma {:induction false} CountBounds(slots: seq<Slot>)
    ensures CountLive(slots) <= |slots|
    ensures (forall i :: 0 <= i < |slots| ==> !slots[i].state.Free?) ==> CountLive(slots) == |slots|
    ensures CountLive(slots) == 0 ==> forall i :: 0 <= i < |slots| ==> slots[i].state.Free?
  {
    if slots != [] {
      CountBounds(slots[..|slots| - 1]);
    }
  }

  lemma {:induction false} FreeFromHolds(slots: seq<Slot>, i: nat)
    requires i <= |slots|
    ensures var k := FreeFrom(slots, i);
            (k < |slots| ==> slots[k].state.Free?) && forall j :: i <= j < k ==> !slots[j].state.Free?
    decreases |slots| - i
  {
    if i < |slots| && !slots[i].state.Free? {
      FreeFromHolds(slots, i + 1);
    }
  }

  lemma FreeFromStep(slots: seq<Slot>, i: nat)
    requires i <= |slots|
    ensures FreeFrom(slots, i) == if i == |slots| || slots[i].state.Free? then i else FreeFrom(slots, i + 1)
  {
  }

  // ---- The invariant ----

  /** The counter counts the live slots, and there are never more than thirty-two. */
  ghost predicate Inv(s: State) {
    s.active == CountLive(s.slots) && |s.slots| <= REQUEST_LIMIT
  }

  lemma StepPreserves(s: State, op: Op)
    requires Inv(s)
    ensures Inv(Step(s, op).0)
  {
    hide CountLive, FreeFrom;
    CountBounds(s.slots);
    FreeFromHolds(s.slots, 0);
    var t := Step(s, op).0;
    match op
    case Create(async) =>
      var i := FreeFrom(s.slots, 0);
      CountPush(s.slots, Slot(Ready, async, 0));
      if i < |s.slots| { CountUpdate(s.slots, i, Slot(Ready, async, s.slots[i].result)); }
    case Use(id, _) =>
      if Found(s, id) { CountUpdate(s.slots, Index(id), t.slots[Index(id)]); }
    case Abort(id) =>
      if Found(s, id) { CountUpdate(s.slots, Index(id), s.slots[Index(id)].(state := Aborted)); }
    case Delete(id) =>
      if Found(s, id) { CountUpdate(s.slots, Index(id), s.slots[Index(id)].(state := Free)); }
  }

  lemma {:induction false} RunPreserves(s: State, ops: seq<Op>)
    requires Inv(s)
    ensures Inv(Run(s, ops))
    decreases |ops|
  {
    if ops != [] {
      StepPreserves(s, ops[0]);
      hide Step;
      RunPreserves(Step(s, ops[0]).0, ops[1..]);
    }
  }

  predicate Live(s: State, id: int) {
    0 <= Index(id) < |s.slots| && !s.slots[Index(id)].state.Free?
  }

  /** The counter test in the lookup never hides a live request. */
  lemma FoundIsLive(s: State, id: int)
    requires Inv(s)
    ensures Found(s, id) <==> Live(s, id)
  {
    CountBounds(s.slots);
  }

  /** After every run: creation fails exactly with thirty-two live requests, and otherwise hands out the lowest id that
      is not live, makes it live and touches no other. */
  lemma CreateGivesTheLowestFreeId(ops: seq<Op>, async: bool)
    ensures var s := Run(Empty, ops);
            var (t, id) := DoCreate(s, async);
            && (id == ERROR_REQUEST_MAX <==> CountLive(s.slots) == REQUEST_LIMIT)
            && (id == ERROR_REQUEST_MAX ==> t == s)
            && (id != ERROR_REQUEST_MAX ==>
                  && REQUEST_ID_OFFSET < id <= REQUEST_ID_OFFSET + REQUEST_LIMIT
                  && !Live(s, id) && Live(t, id)
                  && t.slots[Index(id)].state == Ready && t.slots[Index(id)].async == async
                  && (forall j :: REQUEST_ID_OFFSET < j < id ==> Live(s, j))
                  && (forall j :: j != id ==> (Live(s, j) <==> Live(t, j)))
                  && (forall j :: j != id && Live(s, j) ==> t.slots[Index(j)] == s.slots[Index(j)]))
  {
    RunPreserves(Empty, ops);
    hide Run, CountLive, FreeFrom;
    var s := Run(Empty, ops);
    CountBounds(s.slots);
    FreeFromHolds(s.slots, 0);
  }

  // ---- What an ended request stays ----

  /** Only the request's own deletion frees it; an aborted or completed one stays so. */
  lemma EndedStep(s: State, op: Op, id: int)
    requires Live(s, id) && op != Delete(id)
    ensures var x, y := s.slots[Index(id)], Step(s, op).0;
            && Live(y, id) && y.slots[Index(id)].async == x.async
            && (x.state != Ready ==> y.slots[Index(id)].state == x.state)
  {
    FreeFromHolds(s.slots, 0);
    hide FreeFrom;
  }

  lemma {:induction false} EndedStaysEnded(s: State, ops: seq<Op>, id: int)
    requires Live(s, id) && Delete(id) !in ops
    ensures var x, t := s.slots[Index(id)], Run(s, ops);
            && Live(t, id) && t.slots[Index(id)].async == x.async
            && (x.state != Ready ==> t.slots[Index(id)].state == x.state)
    decreases |ops|
  {
    if ops != [] {
      EndedStep(s, ops[0], id);
      hide Step;
      EndedStaysEnded(Step(s, ops[0]).0, ops[1..], id);
    }
  }

  // ---- What polling reports ----

  /** Did some operation work on the request? */
  predicate Used(ops: seq<Op>, id: int)
    decreases |ops|
  {
    ops != [] && ((ops[0].Use? && ops[0].id == id) || Used(ops[1..], id))
  }

  lemma {:induction false} UsedMeans(ops: seq<Op>, id: int)
    ensures Used(ops, id) <==> exists signedIn :: Use(id, signedIn) in ops
  {
    if ops != [] {
      UsedMeans(ops[1..], id);
      assert ops == [ops[0]] + ops[1..];
      if Used(ops, id) && ops[0].Use? && ops[0].id == id { assert Use(id, ops[0].signedIn) in ops; }
    }
  }

  /** Until a call works on a request or aborts it, it stays ready, keeps what its slot was left with, and polling
      calls it invalid. */
  lemma {:induction false} ReadyUntilUsed(s: State, ops: seq<Op>, id: int)
    requires Inv(s) && Live(s, id) && s.slots[Index(id)].state == Ready
    requires Delete(id) !in ops && Abort(id) !in ops && !Used(ops, id)
    ensures var t := Run(s, ops);
            && Inv(t) && Live(t, id) && t.slots[Index(id)] == s.slots[Index(id)]
            && DoPoll(t, id) == Error(ERROR_INVALID_ID)
    decreases |ops|
  {
    FoundIsLive(s, id);
    if ops != [] {
      var op := ops[0];
      FreeFromHolds(s.slots, 0);
      StepPreserves(s, op);
      assert Live(Step(s, op).0, id) && Step(s, op).0.slots[Index(id)] == s.slots[Index(id)] by {
        hide FreeFrom, CountLive, Inv;
      }
      hide Step, Inv;
      ReadyUntilUsed(Step(s, op).0, ops[1..], id);
    }
  }

  /** What the calls answer, each error exactly in its own case. A synchronous call tells its outcome, an asynchronous
      one only that it was accepted. */
  lemma AnswersAreExact(s: State, id: int, signedIn: bool)
    requires Inv(s)
    ensures var r := DoUse(s, id, signedIn).1;
            && (r == ERROR_INVALID_ARGUMENT <==> id == 0 || (Live(s, id) && s.slots[Index(id)].state == Complete))
            && (r == ERROR_REQUEST_NOT_FOUND <==> id != 0 && !Live(s, id))
            && (r == ERROR_ABORTED <==> id != 0 && Live(s, id) && s.slots[Index(id)].state == Aborted)
            && (r == ERROR_SIGNED_OUT <==>
                  && id != 0 && Live(s, id) && s.slots[Index(id)].state == Ready
                  && !signedIn && !s.slots[Index(id)].async)
            && (r == OK <==>
                  && id != 0 && Live(s, id) && s.slots[Index(id)].state == Ready
                  && (signedIn || s.slots[Index(id)].async))
    ensures DoAbort(s, id).1 == DoDelete(s, id).1 == if Live(s, id) then OK else ERROR_REQUEST_NOT_FOUND
    ensures var p := DoPoll(s, id);
            && (p == Error(ERROR_REQUEST_NOT_FOUND) <==> !Live(s, id))
            && (p == Error(ERROR_INVALID_ID) <==>
                  Live(s, id) && (!s.slots[Index(id)].async || s.slots[Index(id)].state == Ready))
            && (p.Result? <==> Live(s, id) && s.slots[Index(id)].async && s.slots[Index(id)].state != Ready)
  {
    FoundIsLive(s, id);
    hide Inv;
  }

  /** An abort ends a ready request and no other; the slot's result stays. A delete frees the id and nothing else. */
  lemma EndsExactlyOne(s: State, id: int)
    requires Inv(s) && Live(s, id)
    ensures var x, t := s.slots[Index(id)], DoAbort(s, id).0;
            t == s.(slots := s.slots[Index(id) := if x.state == Complete then x else x.(state := Aborted)])
    ensures var t := DoDelete(s, id).0;
            !Live(t, id) && t.active == s.active - 1 && forall j :: j != id && Live(s, j) ==>
              Live(t, j) && t.slots[Index(j)] == s.slots[Index(j)]
  {
    FoundIsLive(s, id);
    hide Inv;
  }

  /** What working on a request that is over leaves behind. */
  function OverError(x: SlotState): int {
    if x == Aborted then ERROR_ABORTED else ERROR_INVALID_ARGUMENT
  }

  /** Only a call that works on it changes the result of a request that is over. */
  lemma OverStep(s: State, op: Op, id: int)
    requires Inv(s) && Live(s, id) && s.slots[Index(id)].state != Ready && op != Delete(id) && id != 0
    ensures var x, t := s.slots[Index(id)], Step(s, op).0;
            && Inv(t) && Live(t, id)
            && t.slots[Index(id)] == x.(result := if op.Use? && op.id == id then OverError(x.state) else x.result)
  {
    FoundIsLive(s, id);
    StepPreserves(s, op);
    FreeFromHolds(s.slots, 0);
    hide CountLive, FreeFrom;
  }

  lemma {:induction false} OverRun(s: State, ops: seq<Op>, id: int)
    requires Inv(s) && Live(s, id) && s.slots[Index(id)].state != Ready && Delete(id) !in ops && id != 0
    ensures var x, t := s.slots[Index(id)], Run(s, ops);
            && Inv(t) && Live(t, id)
            && t.slots[Index(id)] == x.(result := if Used(ops, id) then OverError(x.state) else x.result)
    decreases |ops|
  {
    if ops != [] {
      OverStep(s, ops[0], id);
      hide Step, Inv, OverError;
      OverRun(Step(s, ops[0]).0, ops[1..], id);
    }
  }

  /** A completed asynchronous request polls its outcome, whatever happens up to its deletion, until some call works on
      it again; that call turns the polled result into an error. */
  lemma PollReportsTheOutcome(s: State, id: int, signedIn: bool, ops: seq<Op>)
    requires Inv(s) && Live(s, id) && s.slots[Index(id)].state == Ready && s.slots[Index(id)].async && id != 0
    requires Delete(id) !in ops
    ensures var t := Run(DoUse(s, id, signedIn).0, ops);
            var again := exists anyone :: Use(id, anyone) in ops;
            DoPoll(t, id) == Result(if again then ERROR_INVALID_ARGUMENT else if signedIn then OK else ERROR_SIGNED_OUT)
  {
    FoundIsLive(s, id);
    var done := DoUse(s, id, signedIn).0;
    StepPreserves(s, Use(id, signedIn));
    hide Inv;
    OverRun(done, ops, id);
    UsedMeans(ops, id);
    hide Run, Used;
    FoundIsLive(Run(done, ops), id);
  }

  lemma CreateKeepsLeftover(s: State, async: bool)
    requires Inv(s) && s.active != REQUEST_LIMIT
    ensures var (t, id) := DoCreate(s, async);
            && Live(t, id) && Index(id) == FreeFrom(s.slots, 0) && Inv(t)
            && t.slots[Index(id)] == Slot(Ready, async, if Index(id) < |s.slots| then s.slots[Index(id)].result else 0)
  {
    StepPreserves(s, Create(async));
    hide CountLive, FreeFrom;
  }

  lemma AbortKeepsResult(s: State, id: int)
    requires Inv(s) && Live(s, id) && s.slots[Index(id)].state == Ready
    ensures var t := DoAbort(s, id).0;
            Inv(t) && Live(t, id) && t.slots[Index(id)] == s.slots[Index(id)].(state := Aborted)
  {
    FoundIsLive(s, id);
    StepPreserves(s, Abort(id));
    hide CountLive;
  }

  /** An asynchronous request that is aborted before any call worked on it polls what its slot was left with by the
      request before it, whatever happens up to its deletion, until some call works on it again. So polling says
      aborted exactly if such a call came or the earlier request's last result happened to say so. */
  lemma AbortedPollsTheLeftover(s: State, ops: seq<Op>)
    requires Inv(s) && s.active != REQUEST_LIMIT
    requires Delete(DoCreate(s, true).1) !in ops
    ensures var (created, id) := DoCreate(s, true);
            var t := Run(DoAbort(created, id).0, ops);
            var i := FreeFrom(s.slots, 0);
            var left := if i < |s.slots| then s.slots[i].result else 0;
            var again := exists signedIn :: Use(id, signedIn) in ops;
            && DoPoll(t, id) == Result(if again then ERROR_ABORTED else left)
            && (DoPoll(t, id) == Result(ERROR_ABORTED) <==> again || left == ERROR_ABORTED)
  {
    CreateKeepsLeftover(s, true);
    var (created, id) := DoCreate(s, true);
    AbortKeepsResult(created, id);
    hide DoCreate, FreeFrom, CountLive, Inv;
    var ended := DoAbort(created, id).0;
    OverRun(ended, ops, id);
    UsedMeans(ops, id);
    FoundIsLive(Run(ended, ops), id);
    hide Run, DoAbort;
  }

  /** What a slot can hold: nothing yet, one of the two outcomes, or one of the two errors of working on an ended
      request. */
  ghost predicate KnownResults(s: State) {
    forall i :: 0 <= i < |s.slots| ==>
      s.slots[i].result in {OK, ERROR_SIGNED_OUT, ERROR_INVALID_ARGUMENT, ERROR_ABORTED}
  }

  lemma {:induction false} ResultsAreKnown(s: State, ops: seq<Op>)
    requires KnownResults(s)
    ensures KnownResults(Run(s, ops))
    decreases |ops|
  {
    if ops != [] {
      assert KnownResults(Step(s, ops[0]).0) by { hide FreeFrom; }
      hide Step, KnownResults;
      ResultsAreKnown(Step(s, ops[0]).0, ops[1..]);
    }
  }

  /** Two requests share a slot: the first is completed for a user who is signed in or not, then deleted; the second is
      aborted before any call worked on it, and polls the outcome of the first. */
  lemma StaleResult(signedIn: bool)
    ensures var first := DoCreate(Empty, true);
            var used := DoUse(first.0, first.1, signedIn);
            var deleted := DoDelete(used.0, first.1);
            var second := DoCreate(deleted.0, true);
            var aborted := DoAbort(second.0, second.1);
            second.1 == first.1 && DoPoll(aborted.0, second.1) == Result(if signedIn then OK else ERROR_SIGNED_OUT)
  {
    var first := DoCreate(Empty, true);
    assert Empty.slots + [Slot(Ready, true, 0)] == [Slot(Ready, true, 0)];
    var used := DoUse(first.0, first.1, signedIn);
    assert used.0 == State([Slot(Complete, true, Outcome(signedIn))], 1);
    var deleted := DoDelete(used.0, first.1);
    assert deleted.0 == State([Slot(Free, true, Outcome(signedIn))], 0);
    assert FreeFrom(deleted.0.slots, 0) == 0;
    var second := DoCreate(deleted.0, true);
    assert second.0 == State([Slot(Ready, true, Outcome(signedIn))], 1);
  }

  // ---- The object ----

  class RequestTable {
    var requests: seq<Slot>
    var active: int

    ghost function View(): State
      reads this
    {
      State(requests, active)
    }

    constructor ()
      ensures View() == Empty && Inv(View())
    {
      requests, active := [], 0;
    }

    method CreateNpRequest(async: bool) returns (id: int)
      requires Inv(View())
      modifies this
      ensures Inv(View()) && (View(), id) == DoCreate(old(View()), async)
    {
      StepPreserves(View(), Create(async));
      hide Inv, CountLive, Step, FreeFrom;
      if active == REQUEST_LIMIT {
        return ERROR_REQUEST_MAX;
      }
      var i := 0;
      ghost var before := requests;
      while i < |requests|
        invariant 0 <= i <= |requests| && requests == before
        invariant FreeFrom(before, i) == FreeFrom(before, 0)
        invariant active == old(active)
      {
        FreeFromStep(before, i);
        if requests[i].state.Free? {
          requests := requests[i := requests[i].(state := Ready)];
          requests := requests[i := requests[i].(async := async)];
          assert requests == before[i := Slot(Ready, async, before[i].result)];
          break;
        }
        i := i + 1;
      }
      FreeFromStep(before, i);
      if i == |requests| {
        requests := requests + [Slot(Ready, async, 0)];
      }
      active := active + 1;
      id := i + REQUEST_ID_OFFSET + 1;
      assert i == FreeFrom(before, 0);
    }

    /** The common part of every call that works on a request, with what the call finds out about the user. */
    method UseRequest(id: int, signedIn: bool) returns (r: int)
      requires Inv(View())
      modifies this
      ensures Inv(View()) && (View(), r) == DoUse(old(View()), id, signedIn)
    {
      StepPreserves(View(), Use(id, signedIn));
      hide Inv;
      if id == 0 {
        return ERROR_INVALID_ARGUMENT;
      }
      var i := id - REQUEST_ID_OFFSET - 1;
      if active == 0 || i < 0 || i >= |requests| || requests[i].state.Free? {
        return ERROR_REQUEST_NOT_FOUND;
      }
      if requests[i].state.Complete? {
        requests := requests[i := requests[i].(result := ERROR_INVALID_ARGUMENT)];
        return ERROR_INVALID_ARGUMENT;
      }
      if requests[i].state.Aborted? {
        requests := requests[i := requests[i].(result := ERROR_ABORTED)];
        return ERROR_ABORTED;
      }
      if !signedIn {
        r := CompleteRequest(i, ERROR_SIGNED_OUT);
        return;
      }
      r := CompleteRequest(i, OK);
    }

    method CompleteRequest(i: nat, result: int) returns (r: int)
      requires i < |requests|
      modifies this`requests
      ensures requests == old(requests)[i := Slot(Complete, old(requests)[i].async, result)]
      ensures r == if result != OK && old(requests)[i].async then OK else result
    {
      requests := requests[i := requests[i].(state := Complete, result := result)];
      if result != OK && requests[i].async {
        return OK;
      }
      r := result;
    }

    method AbortRequest(id: int) returns (r: int)
      requires Inv(View())
      modifies this
      ensures Inv(View()) && (View(), r) == DoAbort(old(View()), id)
    {
      StepPreserves(View(), Abort(id));
      hide Inv;
      var i := id - REQUEST_ID_OFFSET - 1;
      if active == 0 || i < 0 || i >= |requests| || requests[i].state.Free? {
        return ERROR_REQUEST_NOT_FOUND;
      }
      if requests[i].state.Complete? {
        return OK;
      }
      requests := requests[i := requests[i].(state := Aborted)];
      r := OK;
    }

    method DeleteRequest(id: int) returns (r: int)
      requires Inv(View())
      modifies this
      ensures Inv(View()) && (View(), r) == DoDelete(old(View()), id)
    {
      StepPreserves(View(), Delete(id));
      hide Inv;
      var i := id - REQUEST_ID_OFFSET - 1;
      if active == 0 || i < 0 || i >= |requests| || requests[i].state.Free? {
        return ERROR_REQUEST_NOT_FOUND;
      }
      active := active - 1;
      requests := requests[i := requests[i].(state := Free)];
      r := OK;
    }

    method PollAsync(id: int) returns (p: Poll)
      ensures p == DoPoll(View(), id)
    {
      var i := id - REQUEST_ID_OFFSET - 1;
      if active == 0 || i < 0 || i >= |requests| || requests[i].state.Free? {
        return Error(ERROR_REQUEST_NOT_FOUND);
      }
      if !requests[i].async || requests[i].state.Ready? {
        return Error(ERROR_INVALID_ID);
      }
      p := Result(requests[i].result);
    }
  }
}
