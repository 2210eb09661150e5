/** The Matching2 context table: ten slots, ids handed out in rotation, and a destroy that waits for a running stop. */
module ContextTable {
  import opened Options
  import opened Widths

  const MAX_CONTEXTS: nat := 10
  const OK: int := 0
  const ERROR_CONTEXT_MAX: int := ToS32(0x80550C04)
  const ERROR_CONTEXT_ALREADY_STARTED: int := ToS32(0x80550C07)
  const ERROR_CONTEXT_NOT_STARTED: int := ToS32(0x80550C08)
  const ERROR_INVALID_CONTEXT_ID: int := ToS32(0x80550C0B)

  /** A context object; `serial` is its identity, counted in the order of creation. */
  datatype Context = Context(serial: nat, ctxId: nat, started: bool, stopPending: bool, destroyPending: bool)

  /** Slot 0 is never used. */
  datatype Table = Table(slots: seq<Option<Context>>, nextId: nat, created: nat)

  datatype Op =
    | Create
    | Start(id: nat)
    | Stop(id: nat)
    | Destroy(id: nat)
    | CompleteStop(id: nat, expected: nat)
    | Reset

  const Empty := Table(seq(MAX_CONTEXTS + 1, _ => None), 1, 0)

  // ---- The operations ----

  predicate Shaped(t: Table) {
    |t.slots| == MAX_CONTEXTS + 1 && 1 <= t.nextId <= MAX_CONTEXTS
  }

  function Get(t: Table, id: nat): Option<Context>
    requires Shaped(t)
  {
    if id == 0 || id > MAX_CONTEXTS then None else t.slots[id]
  }

  /** The i-th id tried by a creation, starting from the rotating position. */
  function Candidate(t: Table, i: nat): (id: nat)
    requires Shaped(t)
    ensures 1 <= id <= MAX_CONTEXTS
  {
    (t.nextId - 1 + i) % MAX_CONTEXTS + 1
  }

  function FirstFree(t: Table, i: nat): Option<nat>
    requires Shaped(t)
    decreases MAX_CONTEXTS - i
  {
    if i >= MAX_CONTEXTS then None
    else if t.slots[Candidate(t, i)].None? then Some(Candidate(t, i))
    else FirstFree(t, i + 1)
  }

  function Apply(t: Table, op: Op): Table
    requires Shaped(t)
  {
    match op
    case Create =>
      var free := FirstFree(t, 0);
      if free.None? || !(0 < free.value <= MAX_CONTEXTS) then t
      else
        var id := free.value;
        Table(t.slots[id := Some(Context(t.created, id, false, false, false))], id % MAX_CONTEXTS + 1, t.created + 1)
    case Start(id) =>
      var c := Get(t, id);
      if c.None? || c.value.started then t
      else t.(slots := t.slots[id := Some(c.value.(started := true, stopPending := false, destroyPending := false))])
    case Stop(id) =>
      var c := Get(t, id);
      if c.None? || !c.value.started then t
      else t.(slots := t.slots[id := Some(c.value.(started := false, stopPending := true))])
    case Destroy(id) =>
      var c := Get(t, id);
      if c.None? then t
      else if c.value.stopPending then t.(slots := t.slots[id := Some(c.value.(destroyPending := true))])
      else t.(slots := t.slots[id := None])
    case CompleteStop(id, expected) =>
      var c := Get(t, id);
      if c.None? || c.value.serial != expected then t
      else if !c.value.destroyPending then t.(slots := t.slots[id := Some(c.value.(stopPending := false))])
      else t.(slots := t.slots[id := None])
    case Reset => Table(seq(MAX_CONTEXTS + 1, _ => None), 1, t.created)
  }

  function Run(t: Table, ops: seq<Op>): (r: Table)
    requires Shaped(t)
    ensures Shaped(r)
    decreases |ops|
  {
    if ops == [] then t else Run(Apply(t, ops[0]), ops[1..])
  }

  // ---- What every operation keeps ----

  ghost predicate ContextOk(t: Table, id: nat)
    requires id < |t.slots|
  {
    t.slots[id].Some? ==>
      var c := t.slots[id].value;
      && id != 0 && c.ctxId == id && c.serial < t.created
      && !(c.started && c.stopPending)
      && (c.destroyPending ==> c.stopPending)
  }

  ghost predicate Inv(t: Table) {
    && Shaped(t)
    && (forall id :: 0 <= id <= MAX_CONTEXTS ==> ContextOk(t, id))
    && (forall i, j :: 0 <= i < j <= MAX_CONTEXTS && t.slots[i].Some? && t.slots[j].Some? ==>
          t.slots[i].value.serial != t.slots[j].value.serial)
  }

  lemma SlotReplaced(t: Table, id: nat, c: Option<Context>, nextId: nat, created: nat)
    requires Inv(t) && 1 <= id <= MAX_CONTEXTS && 1 <= nextId <= MAX_CONTEXTS && t.created <= created
    requires ContextOk(Table(t.slots[id := c], nextId, created), id)
    requires c.Some? && c.value.serial < t.created ==> t.slots[id].Some? && t.slots[id].value.serial == c.value.serial
    ensures Inv(Table(t.slots[id := c], nextId, created))
  {
    var u := Table(t.slots[id := c], nextId, created);
    forall k | 0 <= k <= MAX_CONTEXTS ensures ContextOk(u, k) {
      assert ContextOk(t, k);
    }
    forall i, j | 0 <= i < j <= MAX_CONTEXTS && u.slots[i].Some? && u.slots[j].Some?
      ensures u.slots[i].value.serial != u.slots[j].value.serial
    {
      assert ContextOk(t, i) && ContextOk(t, j);
    }
  }

  lemma FreeIsASlot(t: Table)
    requires Shaped(t) && FirstFree(t, 0).Some?
    ensures 1 <= FirstFree(t, 0).value <= MAX_CONTEXTS
  {
    FirstFreeFrom(t, 0);
  }

  lemma CreatePreserves(t: Table)
    requires Inv(t)
    ensures Inv(Apply(t, Create))
  {
    var free := FirstFree(t, 0);
    if free.Some? {
      FreeIsASlot(t);
      hide FirstFree;
      SlotReplaced(t, free.value, Some(Context(t.created, free.value, false, false, false)),
                   free.value % MAX_CONTEXTS + 1, t.created + 1);
      hide Inv;
    }
  }

  lemma StepPreserves(t: Table, op: Op)
    requires Inv(t)
    ensures Shaped(t) && Inv(Apply(t, op))
  {
    match op
    case Create => CreatePreserves(t);
    case Reset => hide FirstFree;
    case Start(id) => SlotUpdated(t, op, id);
    case Stop(id) => SlotUpdated(t, op, id);
    case Destroy(id) => SlotUpdated(t, op, id);
    case CompleteStop(id, _) => SlotUpdated(t, op, id);
  }

  lemma SlotUpdated(t: Table, op: Op, id: nat)
    requires Inv(t) && (op == Start(id) || op == Stop(id) || op == Destroy(id) || (op.CompleteStop? && op.id == id))
    ensures Inv(Apply(t, op))
  {
    if Get(t, id).Some? {
      assert ContextOk(t, id);
      SlotReplaced(t, id, Apply(t, op).slots[id], t.nextId, t.created);
      assert t.slots[id := t.slots[id]] == t.slots;
    }
  }

  /** Over every sequence of operations, a slot holds only an object with its own id, never both started and
      stopping, and a deferred destroy always has a stop to wait for. */
  lemma {:induction false} RunPreserves(t: Table, ops: seq<Op>)
    requires Inv(t)
    ensures Inv(Run(t, ops))
    decreases |ops|
  {
    if ops != [] {
      StepPreserves(t, ops[0]);
      RunPreserves(Apply(t, ops[0]), ops[1..]);
    }
  }

  /** In particular after every sequence of operations on the empty table. */
  lemma EveryTableIsSound(ops: seq<Op>)
    ensures Inv(Run(Empty, ops))
  {
    assert Inv(Empty);
    RunPreserves(Empty, ops);
  }

  // ---- Creation ----

  lemma {:induction false} FirstFreeFrom(t: Table, i: nat)
    requires Shaped(t) && i <= MAX_CONTEXTS
    ensures var r := FirstFree(t, i);
            if r.None? then forall k :: i <= k < MAX_CONTEXTS ==> t.slots[Candidate(t, k)].Some?
            else exists n :: i <= n < MAX_CONTEXTS && r.value == Candidate(t, n) && t.slots[r.value].None?
                             && forall k :: i <= k < n ==> t.slots[Candidate(t, k)].Some?
    decreases MAX_CONTEXTS - i
  {
    if i < MAX_CONTEXTS && t.slots[Candidate(t, i)].Some? {
      FirstFreeFrom(t, i + 1);
      var r := FirstFree(t, i + 1);
      if r.Some? {
        var n :| i + 1 <= n < MAX_CONTEXTS && r.value == Candidate(t, n)
                 && forall k :: i + 1 <= k < n ==> t.slots[Candidate(t, k)].Some?;
        assert forall k :: i <= k < n ==> t.slots[Candidate(t, k)].Some?;
      }
    }
  }

  lemma CandidatesCoverAll(t: Table, id: nat)
    requires Shaped(t) && 1 <= id <= MAX_CONTEXTS
    ensures exists k :: 0 <= k < MAX_CONTEXTS && Candidate(t, k) == id
  {
    var k := if id >= t.nextId then id - t.nextId else id + MAX_CONTEXTS - t.nextId;
    assert Candidate(t, k) == id;
  }

  /** A creation fails exactly when all ten slots are taken; otherwise it takes the cyclically first free id at or
      after the rotating position, for a new object that is neither started nor stopping. */
  lemma CreateTakesFirstFree(t: Table)
    requires Inv(t)
    ensures var u := Apply(t, Create);
            if forall id :: 1 <= id <= MAX_CONTEXTS ==> t.slots[id].Some? then u == t
            else exists n :: 0 <= n < MAX_CONTEXTS
                   && (forall k :: 0 <= k < n ==> t.slots[Candidate(t, k)].Some?)
                   && t.slots[Candidate(t, n)].None?
                   && u.slots ==
                         t.slots[Candidate(t, n) := Some(Context(t.created, Candidate(t, n), false, false, false))]
                   && u.nextId == Candidate(t, n) % MAX_CONTEXTS + 1
                   && u.created == t.created + 1
  {
    FirstFreeFrom(t, 0);
    if FirstFree(t, 0).None? {
      forall id | 1 <= id <= MAX_CONTEXTS ensures t.slots[id].Some? {
        CandidatesCoverAll(t, id);
      }
    }
  }

  /** After a reset the ids are handed out from one again. */
  lemma ResetStartsOver(t: Table)
    requires Shaped(t)
    ensures var u := Apply(t, Reset);
            && (forall id :: 0 <= id <= MAX_CONTEXTS ==> u.slots[id].None?)
            && Apply(u, Create).slots[1] == Some(Context(t.created, 1, false, false, false))
  {
  }

  // ---- Stale stop events ----

  ghost predicate Gone(t: Table, serial: nat)
    requires Shaped(t)
  {
    && serial < t.created
    && forall id :: 0 <= id <= MAX_CONTEXTS && t.slots[id].Some? ==> t.slots[id].value.serial != serial
  }

  lemma {:induction false} GoneForGood(t: Table, ops: seq<Op>, serial: nat)
    requires Inv(t) && Gone(t, serial)
    ensures Gone(Run(t, ops), serial)
    decreases |ops|
  {
    if ops != [] {
      StepPreserves(t, ops[0]);
      assert Gone(Apply(t, ops[0]), serial) by { hide FirstFree; }
      GoneForGood(Apply(t, ops[0]), ops[1..], serial);
    }
  }

  /** A stop event of an object that has left its slot changes nothing, however late it arrives and whoever has the
      id by then. */
  lemma StaleStopChangesNothing(t: Table, ops: seq<Op>, serial: nat, id: nat)
    requires Inv(t) && Gone(t, serial)
    ensures var u := Run(t, ops); Apply(u, CompleteStop(id, serial)) == u
  {
    GoneForGood(t, ops, serial);
  }

  lemma CreateLeavesOthers(t: Table, id: nat)
    requires Inv(t) && 1 <= id <= MAX_CONTEXTS && t.slots[id].Some?
    ensures Apply(t, Create).slots[id] == t.slots[id]
  {
  }

  /** The only ways an object leaves its slot. */
  lemma LeavesOnlyWhenAsked(t: Table, op: Op, id: nat)
    requires Inv(t) && 1 <= id <= MAX_CONTEXTS && t.slots[id].Some?
    ensures var c := t.slots[id].value;
            var after := Apply(t, op).slots[id];
            (after.None? || after.value.serial != c.serial) <==>
            || (op == Destroy(id) && !c.stopPending)
            || (op == CompleteStop(id, c.serial) && c.destroyPending)
            || op == Reset
  {
  }

  // ---- The deferred destroy ----

  /** Operations other than the ones that could themselves settle the deferred destroy of this object. */
  predicate Unrelated(op: Op, id: nat, serial: nat) {
    op != Destroy(id) && op != CompleteStop(id, serial) && op != Reset
  }

  lemma UnrelatedStep(t: Table, op: Op, id: nat)
    requires Inv(t) && 1 <= id <= MAX_CONTEXTS && t.slots[id].Some?
    requires Unrelated(op, id, t.slots[id].value.serial)
    ensures var s := Apply(t, op).slots[id];
            && s.Some? && s.value.serial == t.slots[id].value.serial
            && (s.value.destroyPending <==> t.slots[id].value.destroyPending && op != Start(id))
  {
    CreateLeavesOthers(t, id);
    assert ContextOk(t, id);
    hide FirstFree;
  }

  lemma {:induction false} DestroyWaits(t: Table, ops: seq<Op>, id: nat, serial: nat)
    requires Inv(t) && 1 <= id <= MAX_CONTEXTS && t.slots[id].Some? && t.slots[id].value.serial == serial
    requires forall op :: op in ops ==> Unrelated(op, id, serial)
    ensures var s := Run(t, ops).slots[id];
            && s.Some? && s.value.serial == serial
            && (s.value.destroyPending <==> t.slots[id].value.destroyPending && Start(id) !in ops)
    decreases |ops|
  {
    if ops != [] {
      var op := ops[0];
      assert op in ops;
      StepPreserves(t, op);
      var u := Apply(t, op);
      UnrelatedStep(t, op, id);
      assert forall o :: o in ops[1..] ==> o in ops;
      DestroyWaits(u, ops[1..], id, serial);
      assert ops == [op] + ops[1..];
    }
  }

  /** The last of the starts and stops of this id was a start. */
  predicate RunningAfter(ops: seq<Op>, id: nat)
    decreases |ops|
  {
    ops != [] && (ops[|ops| - 1] == Start(id) || (ops[|ops| - 1] != Stop(id) && RunningAfter(ops[..|ops| - 1], id)))
  }

  /** No start came after the last destroy; an earlier destroy is taken to have come before `ops`. */
  predicate DestroyStands(ops: seq<Op>, id: nat)
    decreases |ops|
  {
    || ops == []
    || ops[|ops| - 1] == Destroy(id)
    || (ops[|ops| - 1] != Start(id) && DestroyStands(ops[..|ops| - 1], id))
  }

  ghost predicate DestroyedWhileRunning(ops: seq<Op>, id: nat) {
    exists j :: 0 <= j < |ops| && ops[j] == Destroy(id) && RunningAfter(ops[..j], id)
  }

  lemma {:induction false} RunAppend(t: Table, ops: seq<Op>, op: Op)
    requires Shaped(t)
    ensures Run(t, ops + [op]) == Apply(Run(t, ops), op)
    decreases |ops|
  {
    hide Apply;
    ShapedStays(t, op);
    if ops == [] {
      assert ops + [op] == [op] && [op][1..] == [];
      assert Run(Apply(t, op), []) == Apply(t, op);
    } else {
      ShapedStays(t, ops[0]);
      assert (ops + [op])[1..] == ops[1..] + [op];
      RunAppend(Apply(t, ops[0]), ops[1..], op);
    }
  }

  lemma ShapedStays(t: Table, op: Op)
    requires Shaped(t)
    ensures Shaped(Apply(t, op))
  {
    hide FirstFree;
  }

  lemma DestroyedEarlier(ops: seq<Op>, id: nat)
    requires ops != []
    ensures var n := |ops| - 1;
            DestroyedWhileRunning(ops, id) <==>
              DestroyedWhileRunning(ops[..n], id) || (ops[n] == Destroy(id) && RunningAfter(ops[..n], id))
  {
    hide RunningAfter;
    var n := |ops| - 1;
    forall j | 0 <= j < n ensures ops[..n][..j] == ops[..j] && ops[..n][j] == ops[j] {
    }
  }

  /** What has become of an object whose destroy was deferred. */
  ghost predicate Fate(u: Table, id: nat, serial: nat, gone: bool, running: bool, doomed: bool)
    requires Shaped(u) && id <= MAX_CONTEXTS
  {
    if gone then Gone(u, serial)
    else u.slots[id].Some? && u.slots[id].value == Context(serial, id, running, !running, doomed)
  }

  lemma FateStep(u: Table, op: Op, id: nat, serial: nat, gone: bool, running: bool, doomed: bool)
    requires Inv(u) && 1 <= id <= MAX_CONTEXTS && op != CompleteStop(id, serial) && op != Reset
    requires Fate(u, id, serial, gone, running, doomed) && !(running && doomed)
    ensures Shaped(Apply(u, op))
    ensures Fate(Apply(u, op), id, serial, gone || (op == Destroy(id) && running),
                 op == Start(id) || (op != Stop(id) && running),
                 op == Destroy(id) || (op != Start(id) && doomed))
  {
    ShapedStays(u, op);
    if gone {
      GoneStep(u, op, serial);
    } else {
      CreateLeavesOthers(u, id);
      hide FirstFree;
      if op == Destroy(id) && running {
        EmptiedIsGone(u, id, serial);
      }
    }
  }

  lemma EmptiedIsGone(u: Table, id: nat, serial: nat)
    requires Inv(u) && 1 <= id <= MAX_CONTEXTS && u.slots[id].Some? && u.slots[id].value.serial == serial
    ensures Gone(u.(slots := u.slots[id := None]), serial)
  {
    assert ContextOk(u, id);
  }

  lemma GoneStep(u: Table, op: Op, serial: nat)
    requires Inv(u) && Gone(u, serial)
    ensures Shaped(Apply(u, op)) && Gone(Apply(u, op), serial)
  {
    ShapedStays(u, op);
    hide FirstFree;
  }

  lemma {:induction false} NeverBoth(ops: seq<Op>, id: nat)
    ensures RunningAfter(ops, id) && DestroyStands(ops, id) ==> DestroyedWhileRunning(ops, id)
    decreases |ops|
  {
    if ops != [] {
      NeverBoth(ops[..|ops| - 1], id);
      DestroyedEarlier(ops, id);
      hide DestroyedWhileRunning;
    }
  }

  lemma {:induction false} DestroyFate(t: Table, ops: seq<Op>, id: nat, serial: nat)
    requires Inv(t) && 1 <= id <= MAX_CONTEXTS && t.slots[id] == Some(Context(serial, id, false, true, true))
    requires CompleteStop(id, serial) !in ops && Reset !in ops
    ensures Inv(Run(t, ops))
    ensures Fate(Run(t, ops), id, serial, DestroyedWhileRunning(ops, id), RunningAfter(ops, id), DestroyStands(ops, id))
    decreases |ops|
  {
    RunPreserves(t, ops);
    if ops != [] {
      var n := |ops| - 1;
      assert ops == ops[..n] + [ops[n]] && forall op :: op in ops[..n] ==> op in ops;
      DestroyFate(t, ops[..n], id, serial);
      RunAppend(t, ops[..n], ops[n]);
      DestroyedEarlier(ops, id);
      NeverBoth(ops[..n], id);
      hide Run, Apply, Inv, DestroyedWhileRunning;
      assert ops[n] in ops;
      var gone := DestroyedWhileRunning(ops[..n], id);
      if gone {
        hide Fate;
        GoneKeepsFate(Run(t, ops[..n]), ops[n], id, serial, RunningAfter(ops[..n], id), DestroyStands(ops[..n], id),
                      RunningAfter(ops, id), DestroyStands(ops, id));
      } else {
        FateStep(Run(t, ops[..n]), ops[n], id, serial, gone, RunningAfter(ops[..n], id), DestroyStands(ops[..n], id));
      }
    }
  }

  lemma GoneKeepsFate(u: Table, op: Op, id: nat, serial: nat, r: bool, d: bool, r': bool, d': bool)
    requires Inv(u) && id <= MAX_CONTEXTS && Fate(u, id, serial, true, r, d)
    ensures Shaped(Apply(u, op)) && Fate(Apply(u, op), id, serial, true, r', d')
  {
    GoneStep(u, op, serial);
  }

  /** A destroy issued while the stop is running takes effect by the time that stop completes if and only if no start
      came after the last destroy of this id, or some destroy came while the context was running. Any number of
      starts, stops and further destroys may come in between. */
  lemma DeferredDestroy(t: Table, ops: seq<Op>, id: nat)
    requires Inv(t) && 1 <= id <= MAX_CONTEXTS && t.slots[id].Some? && t.slots[id].value.stopPending
    requires CompleteStop(id, t.slots[id].value.serial) !in ops && Reset !in ops
    ensures var serial := t.slots[id].value.serial;
            var u := Run(Apply(t, Destroy(id)), ops);
            Shaped(Apply(u, CompleteStop(id, serial))) &&
            (Gone(Apply(u, CompleteStop(id, serial)), serial) <==>
               DestroyStands(ops, id) || DestroyedWhileRunning(ops, id))
  {
    var serial := t.slots[id].value.serial;
    var d := Apply(t, Destroy(id));
    assert ContextOk(t, id);
    StepPreserves(t, Destroy(id));
    DestroyFate(d, ops, id, serial);
    var u := Run(d, ops);
    assert Inv(u);
    hide Run, DestroyStands, DestroyedWhileRunning, FirstFree, RunningAfter;
    if DestroyedWhileRunning(ops, id) {
      GoneStep(u, CompleteStop(id, serial), serial);
    } else {
      EmptiedIsGone(u, id, serial);
      assert u.slots[id].value.destroyPending == DestroyStands(ops, id);
      var v := Apply(u, CompleteStop(id, serial));
      if DestroyStands(ops, id) {
        assert v == u.(slots := u.slots[id := None]);
      } else {
        assert v.slots[id].Some? && v.slots[id].value.serial == serial;
      }
    }
  }

  /** Without further destroys: the slot is freed if and only if nobody started the context in between; a start cancels
      the destroy for good. */
  lemma StartCancelsDestroy(t: Table, ops: seq<Op>, id: nat)
    requires Inv(t) && 1 <= id <= MAX_CONTEXTS && t.slots[id].Some? && t.slots[id].value.stopPending
    requires forall op :: op in ops ==> Unrelated(op, id, t.slots[id].value.serial)
    ensures var serial := t.slots[id].value.serial;
            var u := Run(Apply(t, Destroy(id)), ops);
            && u.slots[id].Some? && u.slots[id].value.serial == serial
            && (Apply(u, CompleteStop(id, serial)).slots[id].None? <==> Start(id) !in ops)
  {
    var serial := t.slots[id].value.serial;
    StepPreserves(t, Destroy(id));
    DestroyWaits(Apply(t, Destroy(id)), ops, id, serial);
  }

  // ---- What the history of an object decides ----

  /** The last accepted stop was neither completed nor followed by a start. A stop is accepted while running. */
  ghost predicate StopStands(ops: seq<Op>, id: nat, serial: nat) {
    exists j :: 0 <= j < |ops| && ops[j] == Stop(id) && RunningAfter(ops[..j], id)
                && Start(id) !in ops[j + 1..] && CompleteStop(id, serial) !in ops[j + 1..]
  }

  ghost predicate DestroyAsked(ops: seq<Op>, id: nat) {
    exists j :: 0 <= j < |ops| && ops[j] == Destroy(id) && Start(id) !in ops[j + 1..]
  }

  lemma LaterAppend(ops: seq<Op>, j: nat, o: Op)
    requires j < |ops| - 1
    ensures var n := |ops| - 1;
            && ops[..n][j] == ops[j] && ops[..n][..j] == ops[..j]
            && (o in ops[j + 1..] <==> o in ops[..n][j + 1..] || o == ops[n])
  {
    var n := |ops| - 1;
    assert ops[j + 1..] == ops[..n][j + 1..] + [ops[n]];
  }

  lemma StopStandsLast(ops: seq<Op>, id: nat, serial: nat)
    requires ops != []
    ensures var n := |ops| - 1;
            StopStands(ops, id, serial) <==>
              || (ops[n] == Stop(id) && RunningAfter(ops[..n], id))
              || (ops[n] != Start(id) && ops[n] != CompleteStop(id, serial) && StopStands(ops[..n], id, serial))
  {
    hide RunningAfter;
    var n := |ops| - 1;
    forall j | 0 <= j < n
      ensures ops[..n][j] == ops[j] && ops[..n][..j] == ops[..j]
      ensures Start(id) in ops[j + 1..] <==> Start(id) in ops[..n][j + 1..] || ops[n] == Start(id)
      ensures CompleteStop(id, serial) in ops[j + 1..] <==>
                CompleteStop(id, serial) in ops[..n][j + 1..] || ops[n] == CompleteStop(id, serial)
    {
      LaterAppend(ops, j, Start(id));
      LaterAppend(ops, j, CompleteStop(id, serial));
    }
  }

  lemma DestroyAskedLast(ops: seq<Op>, id: nat)
    requires ops != []
    ensures var n := |ops| - 1;
            DestroyAsked(ops, id) <==> ops[n] == Destroy(id) || (ops[n] != Start(id) && DestroyAsked(ops[..n], id))
  {
    var n := |ops| - 1;
    forall j | 0 <= j < n
      ensures ops[..n][j] == ops[j]
      ensures Start(id) in ops[j + 1..] <==> Start(id) in ops[..n][j + 1..] || ops[n] == Start(id)
    {
      LaterAppend(ops, j, Start(id));
    }
  }

  lemma {:induction false} CreatedGrows(t: Table, ops: seq<Op>)
    requires Shaped(t)
    ensures t.created <= Run(t, ops).created
    decreases |ops|
  {
    if ops != [] {
      ShapedStays(t, ops[0]);
      CreatedGrows(Apply(t, ops[0]), ops[1..]);
      hide FirstFree;
    }
  }

  ghost predicate Holds(t: Table, id: nat, serial: nat)
    requires Shaped(t) && id <= MAX_CONTEXTS
  {
    t.slots[id].Some? && t.slots[id].value.serial == serial
  }

  /** One more operation, seen from the slot that still holds the object afterwards. */
  lemma HistoryStep(u: Table, op: Op, id: nat, serial: nat)
    requires Inv(u) && 1 <= id <= MAX_CONTEXTS && serial < u.created
    requires Shaped(Apply(u, op)) && Holds(Apply(u, op), id, serial)
    ensures Holds(u, id, serial)
    ensures var c, d := u.slots[id].value, Apply(u, op).slots[id].value;
            && d.ctxId == c.ctxId
            && d.started == (op == Start(id) || (op != Stop(id) && c.started))
            && d.stopPending == ((op == Stop(id) && c.started) ||
                                 (op != Start(id) && op != CompleteStop(id, serial) && c.stopPending))
            && d.destroyPending == (op == Destroy(id) || (op != Start(id) && c.destroyPending))
  {
    assert ContextOk(u, id);
    hide FirstFree;
  }

  /** Over every run from its creation on, an object still in the table is started exactly if its last start or stop
      was a start, stopping exactly if an accepted stop was neither completed nor followed by a start, and waiting to
      be destroyed exactly if it was asked to be and not started since. */
  lemma {:induction false} HistoryDecides(t: Table, ops: seq<Op>, id: nat, serial: nat)
    requires Inv(t) && 1 <= id <= MAX_CONTEXTS && t.slots[id] == Some(Context(serial, id, false, false, false))
    requires Holds(Run(t, ops), id, serial)
    ensures Run(t, ops).slots[id].value ==
              Context(serial, id, RunningAfter(ops, id), StopStands(ops, id, serial), DestroyAsked(ops, id))
    decreases |ops|
  {
    if ops != [] {
      var n := |ops| - 1;
      var u := Run(t, ops[..n]);
      RunPreserves(t, ops[..n]);
      CreatedGrows(t, ops[..n]);
      assert ops == ops[..n] + [ops[n]];
      RunAppend(t, ops[..n], ops[n]);
      assert ContextOk(t, id);
      hide Run, Apply;
      ShapedStays(u, ops[n]);
      HistoryStep(u, ops[n], id, serial);
      HistoryDecides(t, ops[..n], id, serial);
      StopStandsLast(ops, id, serial);
      DestroyAskedLast(ops, id);
      hide RunningAfter, StopStands, DestroyAsked;
    }
  }

  /** So a destroy frees the slot at once exactly if no stop is left to be completed, and otherwise waits. */
  lemma DestroyFreesAtOnce(t: Table, ops: seq<Op>, id: nat, serial: nat)
    requires Inv(t) && 1 <= id <= MAX_CONTEXTS && t.slots[id] == Some(Context(serial, id, false, false, false))
    requires Holds(Run(t, ops), id, serial)
    ensures Shaped(Apply(Run(t, ops), Destroy(id)))
    ensures Apply(Run(t, ops), Destroy(id)).slots[id].None? <==> !StopStands(ops, id, serial)
  {
    HistoryDecides(t, ops, id, serial);
    ShapedStays(Run(t, ops), Destroy(id));
    hide Run, StopStands;
  }

  /** In particular once the stop was completed and nobody stopped again. */
  lemma CompletedStopIsOver(t: Table, ops: seq<Op>, more: seq<Op>, id: nat, serial: nat)
    requires Inv(t) && 1 <= id <= MAX_CONTEXTS && t.slots[id] == Some(Context(serial, id, false, false, false))
    requires Stop(id) !in more && Holds(Run(t, ops + [CompleteStop(id, serial)] + more), id, serial)
    ensures Apply(Run(t, ops + [CompleteStop(id, serial)] + more), Destroy(id)).slots[id].None?
  {
    var all := ops + [CompleteStop(id, serial)] + more;
    DestroyFreesAtOnce(t, all, id, serial);
    hide Run, Apply, RunningAfter;
    forall j | 0 <= j < |all| && all[j] == Stop(id) ensures CompleteStop(id, serial) in all[j + 1..] {
      assert all[j + 1..][|ops| - j - 1] == all[|ops|];
    }
  }

  // ---- Completions are matched by object, not by stop ----

  /** How many stops of this id were accepted, each with a stop event of its own. */
  function StopsAccepted(t: Table, ops: seq<Op>, id: nat): nat
    requires Shaped(t)
    decreases |ops|
  {
    if ops == [] then 0
    else
      ShapedStays(t, ops[0]);
      (if ops[0] == Stop(id) && Get(t, id).Some? && Get(t, id).value.started then 1 else 0)
      + StopsAccepted(Apply(t, ops[0]), ops[1..], id)
  }

  lemma UnrelatedStart(t: Table, op: Op, id: nat)
    requires Inv(t) && 1 <= id <= MAX_CONTEXTS && t.slots[id].Some? && Unrelated(op, id, t.slots[id].value.serial)
    ensures var s := Apply(t, op).slots[id];
            && s.Some? && s.value.serial == t.slots[id].value.serial
            && s.value.started == (op == Start(id) || (op != Stop(id) && t.slots[id].value.started))
            && s.value.stopPending ==
                 ((op == Stop(id) && t.slots[id].value.started)
                  || (!(op == Start(id) && !t.slots[id].value.started) && t.slots[id].value.stopPending))
  {
    CreateLeavesOthers(t, id);
    hide FirstFree;
  }

  lemma {:induction false} StopsBetween(t: Table, ops: seq<Op>, id: nat, serial: nat)
    requires Inv(t) && 1 <= id <= MAX_CONTEXTS && t.slots[id].Some? && t.slots[id].value.serial == serial
    requires forall op :: op in ops ==> Unrelated(op, id, serial)
    ensures var s, n := Run(t, ops).slots[id], StopsAccepted(t, ops, id);
            && s.Some? && s.value.serial == serial
            && (!s.value.started ==> (n > 0 <==> t.slots[id].value.started || Start(id) in ops))
    decreases |ops|
  {
    if ops != [] {
      var op := ops[0];
      assert op in ops && forall o :: o in ops[1..] ==> o in ops;
      StepPreserves(t, op);
      UnrelatedStart(t, op, id);
      hide Apply, Inv;
      StopsBetween(Apply(t, op), ops[1..], id, serial);
      assert ops == [op] + ops[1..];
    }
  }

  /** A destroy during a stop is carried out by the first stop event of the object to complete, which need not be the
      one of the stop it was issued in: later stop events of the same object are still on their way at that point if
      and only if the context was started between two stops. */
  lemma FreedByTheFirstStopEvent(t: Table, ops: seq<Op>, id: nat)
    requires Inv(t) && 1 <= id <= MAX_CONTEXTS && t.slots[id].Some? && t.slots[id].value.stopPending
    requires forall op :: op in ops ==> Unrelated(op, id, t.slots[id].value.serial)
    requires Run(t, ops).slots[id].Some? && Run(t, ops).slots[id].value.stopPending
    ensures var serial := t.slots[id].value.serial;
            var d := Apply(Run(t, ops), Destroy(id));
            && Shaped(d) && Apply(d, CompleteStop(id, serial)).slots[id].None?
            && (StopsAccepted(t, ops, id) > 0 <==> Start(id) in ops)
  {
    var serial := t.slots[id].value.serial;
    RunPreserves(t, ops);
    var u := Run(t, ops);
    StopsBetween(t, ops, id, serial);
    assert ContextOk(t, id) && ContextOk(u, id);
    hide FirstFree, Run;
  }

  lemma OneStep(t: Table, op: Op, ops: seq<Op>, id: nat)
    requires Shaped(t)
    ensures Shaped(Apply(t, op)) && Run(t, [op] + ops) == Run(Apply(t, op), ops)
    ensures StopsAccepted(t, [op] + ops, id) ==
              (if op == Stop(id) && Get(t, id).Some? && Get(t, id).value.started then 1 else 0)
              + StopsAccepted(Apply(t, op), ops, id)
  {
    ShapedStays(t, op);
    hide Apply;
    assert ([op] + ops)[1..] == ops;
  }

  /** A table with one object, in slot 1. */
  function OnlyFirst(started: bool, stopPending: bool, destroyPending: bool): Table {
    var c := Some(Context(0, 1, started, stopPending, destroyPending));
    Table([None, c, None, None, None, None, None, None, None, None, None], 2, 1)
  }

  /** A concrete case: the slot is free although the second stop's event is still to come. */
  lemma FirstStopEventFreesEarly()
    ensures var ops := [Create, Start(1), Stop(1), Start(1), Stop(1), Destroy(1), CompleteStop(1, 0)];
            Run(Empty, ops).slots[1].None? && StopsAccepted(Empty, ops, 1) == 2
  {
    assert FirstFree(Empty, 0) == Some(1);
    hide FirstFree;
    var created, running := OnlyFirst(false, false, false), OnlyFirst(true, false, false);
    var stopping, doomed := OnlyFirst(false, true, false), OnlyFirst(false, true, true);
    assert Apply(Empty, Create) == created && Apply(created, Start(1)) == running;
    assert Apply(running, Stop(1)) == stopping;
    assert Apply(stopping, Start(1)) == running && Apply(stopping, Destroy(1)) == doomed;
    assert Apply(doomed, CompleteStop(1, 0)).slots[1].None?;
    var o6 := [CompleteStop(1, 0)];
    var o5 := [Destroy(1)] + o6;
    var o4 := [Stop(1)] + o5;
    var o3 := [Start(1)] + o4;
    var o2 := [Stop(1)] + o3;
    var o1 := [Start(1)] + o2;
    assert [Create, Start(1), Stop(1), Start(1), Stop(1), Destroy(1), CompleteStop(1, 0)] == [Create] + o1;
    assert o6 == [CompleteStop(1, 0)] + [];
    hide Apply, Run, StopsAccepted;
    OneStep(Empty, Create, o1, 1);
    OneStep(created, Start(1), o2, 1);
    OneStep(running, Stop(1), o3, 1);
    OneStep(stopping, Start(1), o4, 1);
    OneStep(running, Stop(1), o5, 1);
    OneStep(stopping, Destroy(1), o6, 1);
    OneStep(doomed, CompleteStop(1, 0), [], 1);
    NoSteps(Apply(doomed, CompleteStop(1, 0)), 1);
  }

  lemma NoSteps(t: Table, id: nat)
    requires Shaped(t)
    ensures Run(t, []) == t && StopsAccepted(t, [], id) == 0
  {
  }

  /** So a destroy that was accepted need not complete. */
  lemma AcceptedDestroyCanBeLost()
    ensures var t := Run(Empty, [Create, Start(1), Stop(1), Destroy(1), Start(1), CompleteStop(1, 0)]);
            t.slots[1] == Some(Context(0, 1, true, false, false))
  {
  }

  // ---- The objects and the manager ----

  class ContextObject {
    const ctxId: u16
    ghost const serial: nat
    var started: bool
    var stopPending: bool
    var destroyPending: bool

    constructor (ctxId: u16, ghost serial: nat)
      ensures this.ctxId == ctxId && this.serial == serial
      ensures !started && !stopPending && !destroyPending
    {
      this.ctxId, this.serial := ctxId, serial;
      started, stopPending, destroyPending := false, false, false;
    }

    ghost function View(): Context
      reads this
    {
      Context(serial, ctxId, started, stopPending, destroyPending)
    }
  }

  class ContextManager {
    var contexts: array<ContextObject?>
    var nextId: u16
    /** Every object ever created, in order; the stop events in flight hold on to them. */
    ghost var created: seq<ContextObject>
    /** The contents of the slots. */
    ghost var slots: seq<Option<Context>>

    ghost predicate SlotsMatch()
      reads this, contexts, created
    {
      && contexts.Length == |slots| == MAX_CONTEXTS + 1
      && (forall k :: 0 <= k < |created| ==> created[k].serial == k)
      && (forall i :: 0 <= i < contexts.Length && contexts[i] == null ==> slots[i].None?)
      && (forall i :: 0 <= i < contexts.Length && contexts[i] != null ==>
            && contexts[i].serial < |created| && created[contexts[i].serial] == contexts[i]
            && slots[i] == Some(contexts[i].View()))
    }

    ghost predicate Valid()
      reads this, contexts, created
    {
      SlotsMatch() && Inv(View())
    }

    ghost function View(): Table
      reads this
    {
      Table(slots, nextId, |created|)
    }

    constructor ()
      ensures Valid() && View() == Empty && fresh(contexts) && created == []
    {
      contexts := new ContextObject?[MAX_CONTEXTS + 1](_ => null);
      nextId := 1;
      created := [];
      slots := Empty.slots;
    }

    /** The object of slot `id` sits in no other slot. */
    ghost predicate OnlyAt(id: nat)
      reads this, contexts
      requires id < contexts.Length
    {
      forall i :: 0 <= i < contexts.Length && i != id && contexts[i] != null ==> contexts[i] != contexts[id]
    }

    lemma Alone(id: nat)
      requires Valid() && id <= MAX_CONTEXTS && contexts[id] != null
      ensures OnlyAt(id)
    {
    }

    method GetLocked(id: u16) returns (ctx: ContextObject?)
      requires Valid()
      ensures ctx == null <==> Get(View(), id).None?
      ensures ctx != null ==> 0 < id <= MAX_CONTEXTS && ctx == contexts[id] && ctx in created
                              && Get(View(), id) == Some(ctx.View())
    {
      if id == 0 || id > MAX_CONTEXTS {
        return null;
      }
      ctx := contexts[id];
    }

    /** The rotating search for a free slot; zero means there is none. */
    method FindFreeSlot() returns (id: u16)
      requires SlotsMatch() && Shaped(View())
      ensures var free := FirstFree(View(), 0); id == if free.Some? then free.value else 0
      ensures id <= MAX_CONTEXTS
    {
      ghost var t := View();
      var i: nat := 0;
      while i < MAX_CONTEXTS
        invariant i <= MAX_CONTEXTS && FirstFree(t, 0) == FirstFree(t, i)
      {
        var candidate := (nextId - 1 + i) % MAX_CONTEXTS + 1;
        assert candidate == Candidate(t, i);
        if contexts[candidate] == null {
          return candidate;
        }
        i := i + 1;
      }
      return 0;
    }

    method CreateContext() returns (rc: int, id: u16)
      requires Valid()
      modifies this, contexts
      ensures Valid() && contexts == old(contexts)
      ensures View() == Apply(old(View()), Create)
      ensures rc == OK <==> FirstFree(old(View()), 0).Some?
      ensures rc == OK ==> id == FirstFree(old(View()), 0).value && |created| == |old(created)| + 1
                           && created[..|old(created)|] == old(created) && fresh(created[|old(created)|])
      ensures rc != OK ==> rc == ERROR_CONTEXT_MAX && id == 0 && created == old(created)
    {
      hide Inv, FirstFree;
      assert Shaped(View()) by { StepPreserves(View(), Create); }
      StepPreserves(View(), Create);
      FirstFreeFrom(View(), 0);
      id := FindFreeSlot();
      if id == 0 {
        return ERROR_CONTEXT_MAX, 0;
      }
      nextId := id % MAX_CONTEXTS + 1;
      var ctx := new ContextObject(id, |created|);
      created := created + [ctx];
      contexts[id] := ctx;
      slots := slots[id := Some(ctx.View())];
      rc := OK;
    }

    method Start(id: u16) returns (rc: int)
      requires Valid()
      modifies this`slots, created
      ensures Valid() && View() == Apply(old(View()), Op.Start(id))
      ensures rc == var c := Get(old(View()), id);
                    if c.None? then ERROR_INVALID_CONTEXT_ID
                    else if c.value.started then ERROR_CONTEXT_ALREADY_STARTED else OK
    {
      hide Inv, FirstFree;
      StepPreserves(View(), Op.Start(id));
      var ctx := GetLocked(id);
      if ctx == null {
        return ERROR_INVALID_CONTEXT_ID;
      }
      Alone(id);
      if ctx.started {
        return ERROR_CONTEXT_ALREADY_STARTED;
      }
      ctx.started, ctx.stopPending, ctx.destroyPending := true, false, false;
      slots := slots[id := Some(ctx.View())];
      return OK;
    }

    method Stop(id: u16) returns (rc: int)
      requires Valid()
      modifies this`slots, created
      ensures Valid() && View() == Apply(old(View()), Op.Stop(id))
      ensures rc == var c := Get(old(View()), id);
                    if c.None? then ERROR_INVALID_CONTEXT_ID
                    else if !c.value.started then ERROR_CONTEXT_NOT_STARTED else OK
    {
      hide Inv, FirstFree;
      StepPreserves(View(), Op.Stop(id));
      var ctx := GetLocked(id);
      if ctx == null {
        return ERROR_INVALID_CONTEXT_ID;
      }
      Alone(id);
      if !ctx.started {
        return ERROR_CONTEXT_NOT_STARTED;
      }
      ctx.started, ctx.stopPending := false, true;
      slots := slots[id := Some(ctx.View())];
      return OK;
    }

    method Destroy(id: u16) returns (accepted: bool)
      requires Valid()
      modifies this`slots, contexts, created
      ensures Valid() && View() == Apply(old(View()), Op.Destroy(id))
      ensures accepted <==> Get(old(View()), id).Some?
    {
      hide Inv, FirstFree;
      StepPreserves(View(), Op.Destroy(id));
      var ctx := GetLocked(id);
      if ctx == null {
        return false;
      }
      Alone(id);
      if ctx.stopPending {
        ctx.destroyPending := true;
        slots := slots[id := Some(ctx.View())];
      } else {
        contexts[id] := null;
        slots := slots[id := None];
      }
      return true;
    }

    /** Called when a stop event has been delivered, with the object the event was made for. */
    method CompleteStop(id: u16, expected: ContextObject)
      requires Valid() && expected in created
      modifies this`slots, contexts, created
      ensures Valid() && View() == Apply(old(View()), Op.CompleteStop(id, expected.serial))
    {
      hide Inv, FirstFree;
      StepPreserves(View(), Op.CompleteStop(id, expected.serial));
      var ctx := GetLocked(id);
      if ctx == null || ctx != expected {
        return;
      }
      Alone(id);
      ctx.stopPending := false;
      if ctx.destroyPending {
        contexts[id] := null;
        slots := slots[id := None];
      } else {
        slots := slots[id := Some(ctx.View())];
      }
    }

    method Clear()
      requires Valid()
      modifies this, contexts
      ensures Valid() && View() == Apply(old(View()), Reset)
      ensures contexts == old(contexts) && created == old(created)
    {
      StepPreserves(View(), Reset);
      forall i | 0 <= i < contexts.Length {
        contexts[i] := null;
      }
      nextId := 1;
      slots := Empty.slots;
    }
  }

  // ---- Request ids ----

  const REQUEST_IDS: nat := 0xFFFF_FFFF

  /** The id handed out by the n-th allocation since the library was initialized. */
  function RequestId(n: nat): u32 {
    n % REQUEST_IDS + 1
  }

  /** Ids are never zero, and a repetition is at least 2^32 - 1 allocations away. */
  lemma RequestIdsDiffer(m: nat, n: nat)
    requires m < n < m + REQUEST_IDS
    ensures RequestId(m) != RequestId(n) && RequestId(m) != 0 && RequestId(0) == 1
  {
  }

  class RequestIdCounter {
    var nextRequestId: u32
    ghost var allocations: nat

    ghost predicate Valid()
      reads this
    {
      nextRequestId == RequestId(allocations)
    }

    constructor ()
      ensures Valid() && allocations == 0
    {
      nextRequestId, allocations := 1, 0;
    }

    method AllocRequestId() returns (id: u32)
      requires Valid()
      modifies this
      ensures Valid() && id == RequestId(old(allocations)) && allocations == old(allocations) + 1
    {
      id := nextRequestId;
      nextRequestId := ToU32(nextRequestId + 1);
      if nextRequestId == 0 {
        nextRequestId := 1;
      }
      allocations := allocations + 1;
    }
  }
}
