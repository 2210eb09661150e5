/** Queued sign-in events, and what the callbacks are told of them however the queue is cut into batches. */
module NpStateEvents {
  import opened Options
  import opened Widths

  const ERROR_INVALID_ARGUMENT: int := ToS32(0x80550003)
  const ERROR_ALREADY_REGISTERED: int := ToS32(0x80550008)
  const ERROR_NOT_REGISTERED: int := ToS32(0x80550009)
  const ERROR_CALLBACK_MAX: int := ToS32(0x8055001D)
  const OK: int := 0
  const SLOTS: nat := 8

  datatype NpState = NotSignedUp | SignedOut | SignedIn
  datatype Reach = Unavailable | Available | Reachable

  /** The identifier travels with sign-ins only. */
  datatype Event = Event(user: int, state: NpState, npId: Option<seq<u8>>)

  datatype Listener = Legacy | Slot(i: nat) | Toolkit

  datatype Call = StateCall(who: Listener, event: Event) | ReachCall(user: int, reach: Reach)

  /** Which callbacks are registered; slots name their function. */
  datatype Callbacks = Callbacks(legacy: bool, slots: seq<Option<int>>, toolkit: bool, reach: bool)

  datatype State = State(events: seq<Event>, last: map<int, Reach>, cb: Callbacks)

  datatype Op =
    | Queue(user: int, state: NpState, npId: seq<u8>)
    | Dispatch
    | RegisterReach
    | UnregisterReach
    | OtherCallbacks(legacy: bool, slots: seq<Option<int>>, toolkit: bool)

  function EventOf(user: int, state: NpState, npId: seq<u8>): Event {
    Event(user, state, if state == SignedIn then Some(npId) else None)
  }

  function ReachOf(e: Event): Reach {
    if e.state == SignedIn then Reachable else Unavailable
  }

  // ---- One batch ----

  function Differs(last: map<int, Reach>, e: Event): bool {
    e.user !in last || last[e.user] != ReachOf(e)
  }

  function Note(last: map<int, Reach>, e: Event): map<int, Reach> {
    if Differs(last, e) then last[e.user := ReachOf(e)] else last
  }

  function LastAfter(last: map<int, Reach>, events: seq<Event>): map<int, Reach>
    decreases |events|
  {
    if events == [] then last else LastAfter(Note(last, events[0]), events[1..])
  }

  function Changes(last: map<int, Reach>, events: seq<Event>): seq<(int, Reach)>
    decreases |events|
  {
    if events == [] then []
    else (if Differs(last, events[0]) then [(events[0].user, ReachOf(events[0]))] else [])
         + Changes(Note(last, events[0]), events[1..])
  }

  function SlotListeners(slots: seq<Option<int>>): seq<Listener> {
    if slots == [] then []
    else SlotListeners(slots[..|slots| - 1]) + (if slots[|slots| - 1].Some? then [Slot(|slots| - 1)] else [])
  }

  function Listeners(cb: Callbacks): seq<Listener> {
    (if cb.legacy then [Legacy] else []) + SlotListeners(cb.slots) + (if cb.toolkit then [Toolkit] else [])
  }

  function CallsOf(listeners: seq<Listener>, e: Event): seq<Call> {
    seq(|listeners|, i requires 0 <= i < |listeners| => StateCall(listeners[i], e))
  }

  function StateCalls(listeners: seq<Listener>, events: seq<Event>): seq<Call> {
    if events == [] then [] else CallsOf(listeners, events[0]) + StateCalls(listeners, events[1..])
  }

  function ReachCalls(changes: seq<(int, Reach)>): seq<Call> {
    seq(|changes|, i requires 0 <= i < |changes| => ReachCall(changes[i].0, changes[i].1))
  }

  function BatchChanges(s: State): seq<(int, Reach)> {
    if s.cb.reach then Changes(s.last, s.events) else []
  }

  /** Everything a dispatch calls, in order: each event to each state callback, then the changes of reachability. */
  function BatchCalls(s: State): seq<Call> {
    StateCalls(Listeners(s.cb), s.events) + ReachCalls(BatchChanges(s))
  }

  // ---- Runs ----

  function Apply(s: State, op: Op): State {
    match op
    case Queue(user, state, npId) => s.(events := s.events + [EventOf(user, state, npId)])
    case Dispatch => s.(events := [], last := if s.cb.reach then LastAfter(s.last, s.events) else s.last)
    case RegisterReach => if s.cb.reach then s else s.(cb := s.cb.(reach := true), last := map[])
    case UnregisterReach => if s.cb.reach then s.(cb := s.cb.(reach := false), last := map[]) else s
    case OtherCallbacks(l, slots, t) => s.(cb := Callbacks(l, slots, t, s.cb.reach))
  }

  function Run(s: State, ops: seq<Op>): State
    decreases |ops|
  {
    if ops == [] then s else Run(Apply(s, ops[0]), ops[1..])
  }

  function CallsMade(s: State, ops: seq<Op>): seq<Call>
    decreases |ops|
  {
    if ops == [] then []
    else (if ops[0].Dispatch? then BatchCalls(s) else []) + CallsMade(Apply(s, ops[0]), ops[1..])
  }

  function Queued(ops: seq<Op>): seq<Event>
    decreases |ops|
  {
    if ops == [] then []
    else
      (match ops[0]
       case Queue(user, SignedIn, npId) => [Event(user, SignedIn, Some(npId))]
       case Queue(user, state, _) => [Event(user, state, None)]
       case _ => [])
      + Queued(ops[1..])
  }

  function Dispatched(s: State, ops: seq<Op>): seq<Event>
    decreases |ops|
  {
    if ops == [] then []
    else (if ops[0].Dispatch? then s.events else []) + Dispatched(Apply(s, ops[0]), ops[1..])
  }

  /** What one state callback is told. */
  function Told(calls: seq<Call>, who: Listener): seq<Event> {
    if calls == [] then []
    else (if calls[0].StateCall? && calls[0].who == who then [calls[0].event] else []) + Told(calls[1..], who)
  }

  function Notified(calls: seq<Call>): seq<(int, Reach)> {
    if calls == [] then []
    else (if calls[0].ReachCall? then [(calls[0].user, calls[0].reach)] else []) + Notified(calls[1..])
  }

  // ---- Nothing lost, nothing twice ----

  lemma Assoc<T>(x: seq<T>, y: seq<T>, z: seq<T>)
    ensures x + (y + z) == x + y + z
  {
  }

  lemma {:induction false} QueueIsConserved(s: State, ops: seq<Op>)
    ensures Dispatched(s, ops) + Run(s, ops).events == s.events + Queued(ops)
    decreases |ops|
  {
    if ops != [] {
      hide LastAfter, EventOf;
      var t, rest := Apply(s, ops[0]), ops[1..];
      QueueIsConserved(t, rest);
      var d, q := Dispatched(t, rest), Queued(rest);
      var out := if ops[0].Dispatch? then s.events else [];
      var added := if ops[0].Queue? then [EventOf(ops[0].user, ops[0].state, ops[0].npId)] else [];
      assert Dispatched(s, ops) == out + d && Queued(ops) == added + q && Run(s, ops) == Run(t, rest);
      hide Run, Dispatched, Queued;
      assert out + t.events == s.events + added;
      hide Apply;
      Assoc(out, d, Run(t, rest).events);
      Assoc(out, t.events, q);
      Assoc(s.events, added, q);
    }
  }

  lemma {:induction false} ToldConcat(a: seq<Call>, b: seq<Call>, who: Listener)
    ensures Told(a + b, who) == Told(a, who) + Told(b, who)
    decreases |a|
  {
    if a == [] {
      assert a + b == b;
    } else {
      assert (a + b)[1..] == a[1..] + b && (a + b)[0] == a[0];
      ToldConcat(a[1..], b, who);
      var head := if a[0].StateCall? && a[0].who == who then [a[0].event] else [];
      assert Told(a, who) == head + Told(a[1..], who) && Told(a + b, who) == head + Told(a[1..] + b, who);
      hide Told;
      Assoc(head, Told(a[1..], who), Told(b, who));
    }
  }

  lemma {:induction false} NotifiedConcat(a: seq<Call>, b: seq<Call>)
    ensures Notified(a + b) == Notified(a) + Notified(b)
    decreases |a|
  {
    if a == [] {
      assert a + b == b;
    } else {
      assert (a + b)[1..] == a[1..] + b && (a + b)[0] == a[0];
      NotifiedConcat(a[1..], b);
      var head := if a[0].ReachCall? then [(a[0].user, a[0].reach)] else [];
      assert Notified(a) == head + Notified(a[1..]) && Notified(a + b) == head + Notified(a[1..] + b);
      hide Notified;
      Assoc(head, Notified(a[1..]), Notified(b));
    }
  }

  lemma CallsOfConcat(a: seq<Listener>, b: seq<Listener>, e: Event)
    ensures CallsOf(a + b, e) == CallsOf(a, e) + CallsOf(b, e)
  {
  }

  ghost predicate NoneTwice(ls: seq<Listener>) {
    forall i, j :: 0 <= i < j < |ls| ==> ls[i] != ls[j]
  }

  lemma {:induction false} SlotListenersHolds(slots: seq<Option<int>>)
    ensures NoneTwice(SlotListeners(slots))
    ensures forall w :: w in SlotListeners(slots) <==> w.Slot? && w.i < |slots| && slots[w.i].Some?
  {
    if slots != [] {
      var n := |slots| - 1;
      SlotListenersHolds(slots[..n]);
      var front := SlotListeners(slots[..n]);
      forall i | 0 <= i < |front| ensures front[i] != Slot(n) { assert front[i] in front; }
    }
  }

  predicate Registered(cb: Callbacks, who: Listener) {
    match who
    case Legacy => cb.legacy
    case Slot(i) => i < |cb.slots| && cb.slots[i].Some?
    case Toolkit => cb.toolkit
  }

  lemma ListenersHolds(cb: Callbacks)
    ensures NoneTwice(Listeners(cb))
    ensures forall w :: w in Listeners(cb) <==> Registered(cb, w)
  {
    SlotListenersHolds(cb.slots);
    hide SlotListeners;
    var mid := SlotListeners(cb.slots);
    forall i | 0 <= i < |mid| ensures mid[i].Slot? { assert mid[i] in mid; }
  }

  lemma {:induction false} OneEventTold(ls: seq<Listener>, e: Event, who: Listener)
    requires NoneTwice(ls)
    ensures Told(CallsOf(ls, e), who) == if who in ls then [e] else []
    ensures Notified(CallsOf(ls, e)) == []
  {
    if ls != [] {
      assert CallsOf(ls, e)[1..] == CallsOf(ls[1..], e);
      OneEventTold(ls[1..], e, who);
      if who == ls[0] {
        assert who !in ls[1..];
      }
    }
  }

  lemma {:induction false} BatchTold(ls: seq<Listener>, events: seq<Event>, who: Listener)
    requires NoneTwice(ls)
    ensures Told(StateCalls(ls, events), who) == if who in ls then events else []
    ensures Notified(StateCalls(ls, events)) == []
  {
    if events != [] {
      BatchTold(ls, events[1..], who);
      OneEventTold(ls, events[0], who);
      ToldConcat(CallsOf(ls, events[0]), StateCalls(ls, events[1..]), who);
      NotifiedConcat(CallsOf(ls, events[0]), StateCalls(ls, events[1..]));
    }
  }

  lemma {:induction false} ReachCallsTold(changes: seq<(int, Reach)>, who: Listener)
    ensures Told(ReachCalls(changes), who) == []
    ensures Notified(ReachCalls(changes)) == changes
  {
    if changes != [] {
      assert ReachCalls(changes)[1..] == ReachCalls(changes[1..]);
      ReachCallsTold(changes[1..], who);
    }
  }

  /** One dispatch tells a registered state callback every queued event once, in order, and one not registered
      nothing. */
  lemma BatchCallsHolds(s: State, who: Listener)
    ensures Told(BatchCalls(s), who) == if Registered(s.cb, who) then s.events else []
    ensures Notified(BatchCalls(s)) == BatchChanges(s)
  {
    hide Told, Notified, StateCalls, ReachCalls, BatchChanges, Listeners, NoneTwice;
    ListenersHolds(s.cb);
    BatchTold(Listeners(s.cb), s.events, who);
    ReachCallsTold(BatchChanges(s), who);
    ToldConcat(StateCalls(Listeners(s.cb), s.events), ReachCalls(BatchChanges(s)), who);
    NotifiedConcat(StateCalls(Listeners(s.cb), s.events), ReachCalls(BatchChanges(s)));
  }

  ghost predicate Keeps(ops: seq<Op>, who: Listener) {
    forall op :: op in ops && op.OtherCallbacks? ==> Registered(Callbacks(op.legacy, op.slots, op.toolkit, false), who)
  }

  lemma KeepsStep(s: State, op: Op, who: Listener)
    requires Registered(s.cb, who)
    requires op.OtherCallbacks? ==> Registered(Callbacks(op.legacy, op.slots, op.toolkit, false), who)
    ensures Registered(Apply(s, op).cb, who)
  {
  }

  /** A state callback registered throughout a run sees every dispatched event exactly once, in queue order. */
  lemma {:induction false} StateCallbacksSeeAll(s: State, ops: seq<Op>, who: Listener)
    requires Registered(s.cb, who) && Keeps(ops, who)
    ensures Told(CallsMade(s, ops), who) == Dispatched(s, ops)
    decreases |ops|
  {
    if ops != [] {
      assert ops[0] in ops && forall op :: op in ops[1..] ==> op in ops;
      KeepsStep(s, ops[0], who);
      hide Apply, BatchCalls, Registered;
      var t := Apply(s, ops[0]);
      StateCallbacksSeeAll(t, ops[1..], who);
      BatchCallsHolds(s, who);
      ToldConcat(if ops[0].Dispatch? then BatchCalls(s) else [], CallsMade(t, ops[1..]), who);
    }
  }

  // ---- Reachability, however the events are batched ----

  lemma {:induction false} ChangesConcat(last: map<int, Reach>, a: seq<Event>, b: seq<Event>)
    ensures Changes(last, a + b) == Changes(last, a) + Changes(LastAfter(last, a), b)
    ensures LastAfter(last, a + b) == LastAfter(LastAfter(last, a), b)
    decreases |a|
  {
    if a == [] {
      assert a + b == b;
    } else {
      assert (a + b)[1..] == a[1..] + b && (a + b)[0] == a[0];
      ChangesUnfold(last, a);
      ChangesUnfold(last, a + b);
      hide Note, Differs, Changes, LastAfter;
      var next := Note(last, a[0]);
      ChangesConcat(next, a[1..], b);
      Assoc(if Differs(last, a[0]) then [(a[0].user, ReachOf(a[0]))] else [], Changes(next, a[1..]),
            Changes(LastAfter(next, a[1..]), b));
    }
  }

  ghost predicate ReachKept(ops: seq<Op>) {
    RegisterReach !in ops && UnregisterReach !in ops
  }

  /** While one reachability callback stays registered, its notifications are those of the whole event stream in one
      piece. */
  lemma {:induction false} BatchingDoesNotMatter(s: State, ops: seq<Op>)
    requires s.cb.reach && ReachKept(ops)
    ensures Notified(CallsMade(s, ops)) == Changes(s.last, Dispatched(s, ops))
    decreases |ops|
  {
    if ops != [] {
      var t := Apply(s, ops[0]);
      assert ops[0] in ops && forall op :: op in ops[1..] ==> op in ops;
      assert t.cb.reach && t.last == if ops[0].Dispatch? then LastAfter(s.last, s.events) else s.last;
      hide Apply, BatchCalls, Changes, LastAfter;
      BatchingDoesNotMatter(t, ops[1..]);
      BatchCallsHolds(s, Legacy);
      NotifiedConcat(if ops[0].Dispatch? then BatchCalls(s) else [], CallsMade(t, ops[1..]));
      ChangesConcat(s.last, if ops[0].Dispatch? then s.events else [], Dispatched(t, ops[1..]));
      assert LastAfter(s.last, []) == s.last && Changes(s.last, []) == [] by { EmptyBatch(s.last); }
    } else {
      hide Apply;
    }
  }

  lemma EmptyBatch(last: map<int, Reach>)
    ensures LastAfter(last, []) == last && Changes(last, []) == []
  {
  }

  /** Two runs that queue the same events and end with a dispatch give the same notifications. */
  lemma SameEventsSameNotifications(s: State, a: seq<Op>, b: seq<Op>)
    requires s.cb.reach && ReachKept(a) && ReachKept(b) && Queued(a) == Queued(b)
    requires Run(s, a).events == [] && Run(s, b).events == []
    ensures Notified(CallsMade(s, a)) == Notified(CallsMade(s, b))
  {
    hide Notified, CallsMade, Run, Queued, Dispatched;
    BatchingDoesNotMatter(s, a);
    BatchingDoesNotMatter(s, b);
    QueueIsConserved(s, a);
    QueueIsConserved(s, b);
    assert Dispatched(s, a) == Dispatched(s, a) + Run(s, a).events;
    assert Dispatched(s, b) == Dispatched(s, b) + Run(s, b).events;
  }

  // ---- Each user's notifications ----

  /** Consecutive repeats removed, given what came before. */
  function Dedup(prev: Option<Reach>, xs: seq<Reach>): seq<Reach>
    decreases |xs|
  {
    if xs == [] then []
    else (if prev == Some(xs[0]) then [] else [xs[0]]) + Dedup(Some(xs[0]), xs[1..])
  }

  /** The last of a stream, or what came before it. */
  function Final(prev: Option<Reach>, xs: seq<Reach>): Option<Reach>
    decreases |xs|
  {
    if xs == [] then prev else Final(Some(xs[0]), xs[1..])
  }

  function StreamOf(user: int, events: seq<Event>): seq<Reach> {
    if events == [] then []
    else (if events[0].user == user then [ReachOf(events[0])] else []) + StreamOf(user, events[1..])
  }

  function For(user: int, changes: seq<(int, Reach)>): seq<Reach> {
    if changes == [] then []
    else (if changes[0].0 == user then [changes[0].1] else []) + For(user, changes[1..])
  }

  function LastOf(last: map<int, Reach>, user: int): Option<Reach> {
    if user in last then Some(last[user]) else None
  }

  lemma ForFirst(user: int, head: seq<(int, Reach)>, rest: seq<(int, Reach)>)
    requires |head| <= 1
    ensures For(user, head + rest) == For(user, head) + For(user, rest)
  {
    if head == [] {
      assert head + rest == rest;
    } else {
      assert (head + rest)[1..] == rest && head[1..] == [];
    }
  }

  lemma NotedLast(last: map<int, Reach>, e: Event, user: int)
    ensures LastOf(Note(last, e), user) == if e.user == user then Some(ReachOf(e)) else LastOf(last, user)
    ensures Differs(last, e) <==> LastOf(last, e.user) != Some(ReachOf(e))
  {
  }

  lemma ForOne(user: int, u: int, r: Reach)
    ensures For(user, [(u, r)]) == (if u == user then [r] else []) && For(user, []) == []
  {
    assert [(u, r)][1..] == [];
  }

  lemma DedupFirst(prev: Option<Reach>, x: Reach, rest: seq<Reach>)
    ensures Dedup(prev, [x] + rest) == (if prev == Some(x) then [] else [x]) + Dedup(Some(x), rest)
    ensures Final(prev, [x] + rest) == Final(Some(x), rest)
  {
    assert ([x] + rest)[1..] == rest;
  }

  lemma StreamFirst(user: int, events: seq<Event>)
    requires events != []
    ensures StreamOf(user, events) ==
              (if events[0].user == user then [ReachOf(events[0])] else []) + StreamOf(user, events[1..])
  {
  }

  /** Each user is told that user's own stream of states with consecutive repeats removed. */
  lemma {:induction false} EachUserIsToldChangesOnly(last: map<int, Reach>, events: seq<Event>, user: int)
    ensures For(user, Changes(last, events)) == Dedup(LastOf(last, user), StreamOf(user, events))
    ensures LastOf(LastAfter(last, events), user) == Final(LastOf(last, user), StreamOf(user, events))
    decreases |events|
  {
    if events != [] {
      var e, next := events[0], Note(last, events[0]);
      ChangesUnfold(last, events);
      StreamFirst(user, events);
      hide Changes, LastAfter, For, StreamOf, Dedup, Final, Note, Differs, LastOf, ReachOf;
      EachUserIsToldChangesOnly(next, events[1..], user);
      NotedLast(last, e, user);
      ForOne(user, e.user, ReachOf(e));
      ForFirst(user, if Differs(last, e) then [(e.user, ReachOf(e))] else [], Changes(next, events[1..]));
      var rest := StreamOf(user, events[1..]);
      if e.user == user {
        DedupFirst(LastOf(last, user), ReachOf(e), rest);
      } else {
        assert [] + rest == rest;
        assert [] + For(user, Changes(next, events[1..])) == For(user, Changes(next, events[1..]));
      }
    }
  }

  lemma ChangesUnfold(last: map<int, Reach>, events: seq<Event>)
    requires events != []
    ensures Changes(last, events) == (if Differs(last, events[0]) then [(events[0].user, ReachOf(events[0]))] else [])
                                     + Changes(Note(last, events[0]), events[1..])
    ensures LastAfter(last, events) == LastAfter(Note(last, events[0]), events[1..])
  {
  }

  /** Each one differs from the one before. */
  ghost predicate Alternates(prev: Option<Reach>, d: seq<Reach>)
    decreases |d|
  {
    d == [] || (prev != Some(d[0]) && Alternates(Some(d[0]), d[1..]))
  }

  /** What repeat removal means: every notification is a change, and the last word is the last state. */
  lemma {:induction false} DedupHolds(prev: Option<Reach>, xs: seq<Reach>)
    ensures var d := Dedup(prev, xs);
            && Alternates(prev, d)
            && Final(prev, d) == Final(prev, xs)
    decreases |xs|
  {
    if xs != [] {
      var rest, d := Dedup(Some(xs[0]), xs[1..]), Dedup(prev, xs);
      assert d == (if prev == Some(xs[0]) then [] else [xs[0]]) + rest;
      hide Dedup;
      DedupHolds(Some(xs[0]), xs[1..]);
      if prev == Some(xs[0]) {
        assert d == rest;
      } else {
        assert d[1..] == rest;
      }
    }
  }

  /** Nobody is told anything only if nothing changed. */
  lemma {:induction false} SilenceMeansNoChange(prev: Option<Reach>, xs: seq<Reach>)
    ensures Dedup(prev, xs) == [] <==> forall i :: 0 <= i < |xs| ==> prev == Some(xs[i])
    decreases |xs|
  {
    if xs != [] {
      SilenceMeansNoChange(Some(xs[0]), xs[1..]);
      if prev == Some(xs[0]) {
        assert Dedup(prev, xs) == Dedup(Some(xs[0]), xs[1..]);
        assert forall i :: 0 < i < |xs| ==> xs[i] == xs[1..][i - 1];
      }
    }
  }

  /** Over every run with one reachability callback: each user's notifications are that user's dispatched states with
      consecutive repeats removed. */
  lemma EachUserOverRuns(s: State, ops: seq<Op>, user: int)
    requires s.cb.reach && ReachKept(ops)
    ensures For(user, Notified(CallsMade(s, ops))) == Dedup(LastOf(s.last, user), StreamOf(user, Dispatched(s, ops)))
  {
    hide Notified, CallsMade, Dispatched, Dedup, StreamOf, For, Changes;
    BatchingDoesNotMatter(s, ops);
    EachUserIsToldChangesOnly(s.last, Dispatched(s, ops), user);
  }

  // ---- Registrations ----

  /** Is the reachability callback registered after these operations? The last of its own decides. */
  function ReachAfter(before: bool, ops: seq<Op>): bool
    decreases |ops|
  {
    if ops == [] then before
    else
      match ops[|ops| - 1]
      case RegisterReach => true
      case UnregisterReach => false
      case _ => ReachAfter(before, ops[..|ops| - 1])
  }

  /** Which state callbacks are. */
  function ListenersAfter(before: Callbacks, ops: seq<Op>): Callbacks
    decreases |ops|
  {
    if ops == [] then before
    else
      match ops[|ops| - 1]
      case OtherCallbacks(l, slots, t) => Callbacks(l, slots, t, before.reach)
      case _ => ListenersAfter(before, ops[..|ops| - 1])
  }

  lemma {:induction false} RunsCompose(s: State, a: seq<Op>, b: seq<Op>)
    ensures Run(s, a + b) == Run(Run(s, a), b)
    ensures CallsMade(s, a + b) == CallsMade(s, a) + CallsMade(Run(s, a), b)
    decreases |a|
  {
    hide Apply, BatchCalls;
    if a == [] {
      assert a + b == b;
    } else {
      assert (a + b)[1..] == a[1..] + b && (a + b)[0] == a[0];
      RunsCompose(Apply(s, a[0]), a[1..], b);
      CallsUnfold(s, a);
      CallsUnfold(s, a + b);
      hide CallsMade;
      Assoc(if a[0].Dispatch? then BatchCalls(s) else [], CallsMade(Apply(s, a[0]), a[1..]), CallsMade(Run(s, a), b));
    }
  }

  lemma CallsUnfold(s: State, ops: seq<Op>)
    requires ops != []
    ensures CallsMade(s, ops) ==
              (if ops[0].Dispatch? then BatchCalls(s) else []) + CallsMade(Apply(s, ops[0]), ops[1..])
  {
    hide Apply, BatchCalls;
  }

  lemma LastOp(s: State, ops: seq<Op>)
    requires ops != []
    ensures var n := |ops| - 1; Run(s, ops) == Apply(Run(s, ops[..n]), ops[n])
  {
    var n := |ops| - 1;
    assert ops == ops[..n] + [ops[n]] && [ops[n]][1..] == [];
    RunsCompose(s, ops[..n], [ops[n]]);
    hide Apply;
    assert Run(Apply(Run(s, ops[..n]), ops[n]), []) == Apply(Run(s, ops[..n]), ops[n]);
  }

  /** Over every run the last operation on a callback decides whether it is registered. */
  lemma {:induction false} RegistrationsFollow(s: State, ops: seq<Op>)
    ensures var cb, last := Run(s, ops).cb, ListenersAfter(s.cb, ops);
            && cb.reach == ReachAfter(s.cb.reach, ops)
            && cb.legacy == last.legacy && cb.slots == last.slots && cb.toolkit == last.toolkit
    decreases |ops|
  {
    if ops != [] {
      RegistrationsFollow(s, ops[..|ops| - 1]);
      LastOp(s, ops);
      hide Run, LastAfter;
    }
  }

  /** While no reachability callback is registered, nobody is told of reachability, and nothing is recorded. */
  lemma {:induction false} NobodyIsTold(s: State, ops: seq<Op>)
    requires !s.cb.reach && RegisterReach !in ops
    ensures Notified(CallsMade(s, ops)) == [] && Run(s, ops).last == s.last
    decreases |ops|
  {
    if ops != [] {
      var t := Apply(s, ops[0]);
      assert ops[0] in ops && t.last == s.last && !t.cb.reach;
      hide Apply, BatchCalls;
      NobodyIsTold(t, ops[1..]);
      BatchCallsHolds(s, Legacy);
      NotifiedConcat(if ops[0].Dispatch? then BatchCalls(s) else [], CallsMade(t, ops[1..]));
    }
  }

  /** A new registration knows nothing of what an earlier one was told: it is told each user's first state dispatched
      to it, and from then on that user's changes; until it is replaced, registering again changes nothing. Taking it
      back ends that at once. */
  lemma EachRegistrationStartsAfresh(s: State, ops: seq<Op>, user: int)
    requires !s.cb.reach && ReachKept(ops)
    ensures var t := Apply(s, RegisterReach);
            var events := Dispatched(t, ops);
            && t.events == s.events
            && For(user, Notified(CallsMade(t, ops))) == Dedup(None, StreamOf(user, events))
            && (StreamOf(user, events) != [] ==>
                  Dedup(None, StreamOf(user, events)) != []
                  && Dedup(None, StreamOf(user, events))[0] == StreamOf(user, events)[0])
            && Apply(Run(t, ops), RegisterReach) == Run(t, ops)
            && Apply(Run(t, ops), UnregisterReach) == Run(t, ops).(cb := Run(t, ops).cb.(reach := false), last := map[])
  {
    var t := Apply(s, RegisterReach);
    EachUserOverRuns(t, ops, user);
    RegistrationsFollow(t, ops);
    ReachStays(ops);
    hide Run, CallsMade, Dispatched, Notified, For, StreamOf;
  }

  lemma {:induction false} ReachStays(ops: seq<Op>)
    requires ReachKept(ops)
    ensures forall before :: ReachAfter(before, ops) == before
    decreases |ops|
  {
    if ops != [] {
      assert ops[|ops| - 1] in ops;
      ReachStays(ops[..|ops| - 1]);
    }
  }

  /** A state callback that is not registered, and never gets registered, hears nothing. */
  lemma {:induction false} OthersHearNothing(s: State, ops: seq<Op>, who: Listener)
    requires !Registered(s.cb, who)
    requires forall op :: op in ops && op.OtherCallbacks? ==>
               !Registered(Callbacks(op.legacy, op.slots, op.toolkit, false), who)
    ensures Told(CallsMade(s, ops), who) == []
    decreases |ops|
  {
    if ops != [] {
      assert ops[0] in ops && forall op :: op in ops[1..] ==> op in ops;
      var t := Apply(s, ops[0]);
      assert !Registered(t.cb, who);
      hide Apply, BatchCalls, Registered;
      OthersHearNothing(t, ops[1..], who);
      BatchCallsHolds(s, who);
      ToldConcat(if ops[0].Dispatch? then BatchCalls(s) else [], CallsMade(t, ops[1..]), who);
    }
  }

  // ---- Dispatches that overlap ----

  /** A dispatch takes the queue under the locks and makes its calls after giving them up, so calls of several
      dispatches can be outstanding. `flights` are the calls each still has to make. */
  datatype Threads = Threads(s: State, flights: seq<seq<Call>>, log: seq<Call>)

  datatype Step = Locked(op: Op) | MakeCall(k: nat)

  function Advance(t: Threads, st: Step): Threads {
    match st
    case Locked(op) =>
      var taken := if op.Dispatch? && BatchCalls(t.s) != [] then [BatchCalls(t.s)] else [];
      Threads(Apply(t.s, op), t.flights + taken, t.log)
    case MakeCall(k) =>
      if k < |t.flights| && t.flights[k] != [] then
        Threads(t.s, t.flights[k := t.flights[k][1..]], t.log + [t.flights[k][0]])
      else t
  }

  function AdvanceAll(t: Threads, steps: seq<Step>): Threads
    decreases |steps|
  {
    if steps == [] then t else AdvanceAll(Advance(t, steps[0]), steps[1..])
  }

  function LockedOps(steps: seq<Step>): seq<Op>
    decreases |steps|
  {
    if steps == [] then []
    else (if steps[0].Locked? then [steps[0].op] else []) + LockedOps(steps[1..])
  }

  function Flatten(fl: seq<seq<Call>>): seq<Call> {
    if fl == [] then [] else Flatten(fl[..|fl| - 1]) + fl[|fl| - 1]
  }

  ghost predicate Idle(fl: seq<seq<Call>>) {
    forall k :: 0 <= k < |fl| ==> fl[k] == []
  }

  /** A dispatch that has calls to make, while another still has calls left. */
  ghost predicate Overlaps(t: Threads, st: Step) {
    st == Locked(Dispatch) && BatchCalls(t.s) != [] && !Idle(t.flights)
  }

  ghost predicate InTurn(t: Threads, steps: seq<Step>)
    decreases |steps|
  {
    steps == [] || (!Overlaps(t, steps[0]) && InTurn(Advance(t, steps[0]), steps[1..]))
  }

  ghost predicate OnlyLast(fl: seq<seq<Call>>) {
    forall k :: 0 <= k < |fl| - 1 ==> fl[k] == []
  }

  lemma {:induction false} FlattenIdle(fl: seq<seq<Call>>)
    requires Idle(fl)
    ensures Flatten(fl) == []
  {
    if fl != [] {
      FlattenIdle(fl[..|fl| - 1]);
    }
  }

  lemma FlattenLast(fl: seq<seq<Call>>)
    requires OnlyLast(fl) && fl != []
    ensures Flatten(fl) == fl[|fl| - 1]
  {
    FlattenIdle(fl[..|fl| - 1]);
  }

  lemma TakeInTurn(fl: seq<seq<Call>>, batch: seq<Call>)
    requires Idle(fl)
    ensures OnlyLast(fl + [batch]) && Flatten(fl + [batch]) == Flatten(fl) + batch
  {
    FlattenIdle(fl);
    hide Flatten;
    FlattenLast(fl + [batch]);
  }

  lemma CallInTurn(fl: seq<seq<Call>>, k: nat)
    requires OnlyLast(fl) && k < |fl| && fl[k] != []
    ensures OnlyLast(fl[k := fl[k][1..]]) && [fl[k][0]] + Flatten(fl[k := fl[k][1..]]) == Flatten(fl)
  {
    hide Flatten;
    assert k == |fl| - 1;
    FlattenLast(fl);
    FlattenLast(fl[k := fl[k][1..]]);
    assert fl[k] == [fl[k][0]] + fl[k][1..];
  }

  lemma InTurnStep(t: Threads, st: Step)
    requires OnlyLast(t.flights) && !Overlaps(t, st)
    ensures var u := Advance(t, st);
            && OnlyLast(u.flights)
            && u.log + Flatten(u.flights) ==
                 t.log + Flatten(t.flights) + (if st == Locked(Dispatch) then BatchCalls(t.s) else [])
  {
    hide BatchCalls, Apply, Flatten, OnlyLast, Idle;
    var before := t.log + Flatten(t.flights);
    if st == Locked(Dispatch) && BatchCalls(t.s) != [] {
      TakeInTurn(t.flights, BatchCalls(t.s));
      Assoc(t.log, Flatten(t.flights), BatchCalls(t.s));
    } else if st.MakeCall? && st.k < |t.flights| && t.flights[st.k] != [] {
      CallInTurn(t.flights, st.k);
      Assoc(t.log, [t.flights[st.k][0]], Flatten(Advance(t, st).flights));
      assert before + [] == before;
    } else {
      assert t.flights + [] == t.flights;
      assert before + [] == before;
    }
  }

  /** Dispatches that take turns make the calls of whole dispatches, in order, whatever happens between their calls. */
  lemma {:induction false} TurnsAreWholeDispatches(t: Threads, steps: seq<Step>)
    requires OnlyLast(t.flights) && InTurn(t, steps)
    ensures var u := AdvanceAll(t, steps);
            u.log + Flatten(u.flights) == t.log + Flatten(t.flights) + CallsMade(t.s, LockedOps(steps))
    decreases |steps|
  {
    if steps != [] {
      var st, next := steps[0], Advance(t, steps[0]);
      InTurnStep(t, st);
      LockedOpsStep(t.s, st, steps[1..]);
      assert next.s == if st.Locked? then Apply(t.s, st.op) else t.s;
      assert steps == [st] + steps[1..];
      hide Advance, BatchCalls, Apply, Flatten, CallsMade, LockedOps, OnlyLast, Idle;
      TurnsAreWholeDispatches(next, steps[1..]);
      Assoc(t.log + Flatten(t.flights), if st == Locked(Dispatch) then BatchCalls(t.s) else [],
            CallsMade(next.s, LockedOps(steps[1..])));
    } else {
      assert t.log + Flatten(t.flights) + [] == t.log + Flatten(t.flights);
    }
  }

  lemma LockedOpsStep(s: State, st: Step, rest: seq<Step>)
    ensures CallsMade(s, LockedOps([st] + rest)) ==
              (if st == Locked(Dispatch) then BatchCalls(s) else [])
              + CallsMade(if st.Locked? then Apply(s, st.op) else s, LockedOps(rest))
  {
    hide BatchCalls, Apply;
    assert ([st] + rest)[1..] == rest;
    var ops := LockedOps(rest);
    if st.Locked? {
      assert ([st.op] + ops)[1..] == ops;
    } else {
      assert [] + ops == ops;
      assert [] + CallsMade(s, ops) == CallsMade(s, ops);
    }
  }

  /** So when all calls have been made, everything proved of runs holds of the calls as they were made: each registered
      callback saw every dispatched event once, in queue order, and each user's notifications are that user's
      changes. */
  lemma CallsInTurn(s: State, steps: seq<Step>, who: Listener, user: int)
    requires InTurn(Threads(s, [], []), steps) && Idle(AdvanceAll(Threads(s, [], []), steps).flights)
    ensures var log, ops := AdvanceAll(Threads(s, [], []), steps).log, LockedOps(steps);
            && log == CallsMade(s, ops)
            && (Registered(s.cb, who) && Keeps(ops, who) ==> Told(log, who) == Dispatched(s, ops))
            && (s.cb.reach && ReachKept(ops) ==>
                  For(user, Notified(log)) == Dedup(LastOf(s.last, user), StreamOf(user, Dispatched(s, ops))))
  {
    var t, ops := Threads(s, [], []), LockedOps(steps);
    TurnsAreWholeDispatches(t, steps);
    var u := AdvanceAll(t, steps);
    FlattenIdle(u.flights);
    assert u.log + [] == u.log && [] + Flatten([]) + CallsMade(s, ops) == CallsMade(s, ops);
    hide AdvanceAll, CallsMade, Dispatched, Told, Notified, For, Dedup, StreamOf;
    if Registered(s.cb, who) && Keeps(ops, who) { StateCallbacksSeeAll(s, ops, who); }
    if s.cb.reach && ReachKept(ops) { EachUserOverRuns(s, ops, user); }
  }

  lemma CountConcat(a: seq<Call>, b: seq<Call>)
    ensures multiset(a + b) == multiset(a) + multiset(b)
  {
  }

  lemma CountHead(a: seq<Call>)
    requires a != []
    ensures multiset(a) == multiset(a[1..]) + multiset{a[0]}
  {
    assert a == [a[0]] + a[1..];
  }

  lemma {:induction false} FlattenUpdate(fl: seq<seq<Call>>, k: nat)
    requires k < |fl| && fl[k] != []
    ensures multiset(Flatten(fl)) == multiset(Flatten(fl[k := fl[k][1..]])) + multiset{fl[k][0]}
  {
    var n, gl := |fl| - 1, fl[k := fl[k][1..]];
    assert Flatten(fl) == Flatten(fl[..n]) + fl[n] && Flatten(gl) == Flatten(gl[..n]) + gl[n];
    hide Flatten;
    CountConcat(Flatten(fl[..n]), fl[n]);
    CountConcat(Flatten(gl[..n]), gl[n]);
    if k == n {
      assert gl[..n] == fl[..n];
      CountHead(fl[n]);
    } else {
      FlattenUpdate(fl[..n], k);
      assert gl[..n] == fl[..n][k := fl[k][1..]];
    }
  }

  /** The calls made and the calls outstanding. */
  ghost function AllCalls(t: Threads): multiset<Call> {
    multiset(t.log) + multiset(Flatten(t.flights))
  }

  lemma AddBatch(x: multiset<Call>, batch: seq<Call>, rest: seq<Call>)
    ensures x + multiset(batch) + multiset(rest) == x + multiset(batch + rest)
  {
  }

  /** Overlap or not, no call is lost, made twice or made up. */
  lemma {:induction false} EveryCallIsMadeOnce(t: Threads, steps: seq<Step>)
    ensures AllCalls(AdvanceAll(t, steps)) == AllCalls(t) + multiset(CallsMade(t.s, LockedOps(steps)))
    decreases |steps|
  {
    if steps != [] {
      var st, next := steps[0], Advance(t, steps[0]);
      var batch := if st == Locked(Dispatch) then BatchCalls(t.s) else [];
      assert next.s == if st.Locked? then Apply(t.s, st.op) else t.s;
      hide Advance, BatchCalls, Apply, Flatten, CallsMade, LockedOps, AllCalls;
      OverlapStep(t, st);
      LockedOpsStep(t.s, st, steps[1..]);
      assert steps == [st] + steps[1..];
      EveryCallIsMadeOnce(next, steps[1..]);
      AddBatch(AllCalls(t), batch, CallsMade(next.s, LockedOps(steps[1..])));
    } else {
      hide AllCalls;
      assert AllCalls(t) + multiset([]) == AllCalls(t);
    }
  }

  lemma FlattenPush(fl: seq<seq<Call>>, batch: seq<Call>)
    ensures Flatten(fl + [batch]) == Flatten(fl) + batch
  {
    assert (fl + [batch])[..|fl|] == fl;
  }

  lemma OverlapStep(t: Threads, st: Step)
    ensures AllCalls(Advance(t, st)) ==
              AllCalls(t) + multiset(if st == Locked(Dispatch) then BatchCalls(t.s) else [])
  {
    hide BatchCalls, Apply, Flatten;
    if st == Locked(Dispatch) && BatchCalls(t.s) != [] {
      FlattenPush(t.flights, BatchCalls(t.s));
      CountConcat(Flatten(t.flights), BatchCalls(t.s));
    } else if st.MakeCall? && st.k < |t.flights| && t.flights[st.k] != [] {
      FlattenUpdate(t.flights, st.k);
      CountConcat(t.log, [t.flights[st.k][0]]);
    } else {
      assert t.flights + [] == t.flights;
    }
  }

  /** The order does need the turns: a dispatch that has calls to make while another has calls left can make its first
      call before those. */
  lemma OverlapLetsTheLaterFirst(t: Threads, k: nat)
    requires k < |t.flights| && t.flights[k] != [] && BatchCalls(t.s) != []
    ensures var u := AdvanceAll(t, [Locked(Dispatch), MakeCall(|t.flights|)]);
            u.log == t.log + [BatchCalls(t.s)[0]] && |u.flights| == |t.flights| + 1 && u.flights[k] == t.flights[k]
  {
    hide BatchCalls, Apply;
    var steps := [Locked(Dispatch), MakeCall(|t.flights|)];
    assert steps[1..] == [MakeCall(|t.flights|)] && steps[1..][1..] == [];
    var v := Advance(t, steps[0]);
    assert AdvanceAll(Advance(v, steps[1]), []) == Advance(v, steps[1]);
    assert AdvanceAll(v, steps[1..]) == Advance(v, steps[1]);
  }

  /** Dispatches take turns exactly if no reached dispatch is one to which `OverlapLetsTheLaterFirst` applies. */
  lemma {:induction false} InTurnWithoutOverlaps(t: Threads, steps: seq<Step>)
    ensures InTurn(t, steps) <==> forall n :: 0 <= n < |steps| ==> !Overlaps(AdvanceAll(t, steps[..n]), steps[n])
    decreases |steps|
  {
    if steps != [] {
      var next, rest := Advance(t, steps[0]), steps[1..];
      hide Advance, Overlaps;
      InTurnWithoutOverlaps(next, rest);
      assert steps[..0] == [];
      forall n | 0 < n < |steps|
        ensures AdvanceAll(t, steps[..n]) == AdvanceAll(next, rest[..n - 1]) && steps[n] == rest[n - 1]
      {
        assert steps[..n][1..] == rest[..n - 1];
      }
      if InTurn(t, steps) {
      } else if !Overlaps(t, steps[0]) {
        var n :| 0 <= n < |rest| && Overlaps(AdvanceAll(next, rest[..n]), rest[n]);
        assert Overlaps(AdvanceAll(t, steps[..n + 1]), steps[n + 1]);
      } else {
        assert AdvanceAll(t, steps[..0]) == t;
      }
    }
  }

  /** A sign-in and a sign-out dispatched by two threads: the callback hears of them the wrong way round, and the user's
      last notification contradicts the recorded state. */
  lemma OverlapMisleads()
    ensures var signIn, signOut := EventOf(1, SignedIn, []), EventOf(1, SignedOut, []);
            var s := State([], map[], Callbacks(true, [], false, true));
            var steps := [Locked(Queue(1, SignedIn, [])), Locked(Dispatch)] +
                         ([Locked(Queue(1, SignedOut, [])), Locked(Dispatch)] +
                          [MakeCall(1), MakeCall(1), MakeCall(0), MakeCall(0)]);
            var u := AdvanceAll(Threads(s, [], []), steps);
            && Idle(u.flights) && Told(u.log, Legacy) == [signOut, signIn]
            && Notified(u.log) == [(1, Unavailable), (1, Reachable)] && u.s.last == map[1 := Unavailable]
  {
    var signIn, signOut := EventOf(1, SignedIn, []), EventOf(1, SignedOut, []);
    var cb := Callbacks(true, [], false, true);
    var first := [StateCall(Legacy, signIn), ReachCall(1, Reachable)];
    var second := [StateCall(Legacy, signOut), ReachCall(1, Unavailable)];
    var s0, s2 := State([], map[], cb), State([], map[1 := Reachable], cb);
    var s4 := State([], map[1 := Unavailable], cb);
    var calls := [MakeCall(1), MakeCall(1), MakeCall(0), MakeCall(0)];
    hide AdvanceAll, Advance, EventOf, BatchCalls;
    QueueAndTake(Threads(s0, [], []), 1, SignedIn);
    assert map[][1 := Reachable] == map[1 := Reachable];
    assert [] + [first] == [first];
    QueueAndTake(Threads(s2, [first], []), 1, SignedOut);
    assert map[1 := Reachable][1 := Unavailable] == map[1 := Unavailable];
    assert [first] + [second] == [first, second];
    TwoSteps(Threads(s0, [], []), Locked(Queue(1, SignedIn, [])), Locked(Dispatch),
             [Locked(Queue(1, SignedOut, [])), Locked(Dispatch)] + calls);
    TwoSteps(Threads(s2, [first], []), Locked(Queue(1, SignedOut, [])), Locked(Dispatch), calls);
    FourCalls(s4, first, second);
    HeardBackwards(first, second, signIn, signOut);
  }

  /** Queueing one event and taking it. */
  lemma QueueAndTake(t: Threads, user: int, state: NpState)
    requires t.s.cb == Callbacks(true, [], false, true) && t.s.events == []
    requires Differs(t.s.last, EventOf(user, state, []))
    ensures var e := EventOf(user, state, []);
            Advance(Advance(t, Locked(Queue(user, state, []))), Locked(Dispatch)) ==
              Threads(State([], t.s.last[user := ReachOf(e)], t.s.cb),
                      t.flights + [[StateCall(Legacy, e), ReachCall(user, ReachOf(e))]], t.log)
    ensures ReachOf(EventOf(user, state, [])) == if state == SignedIn then Reachable else Unavailable
  {
    var e := EventOf(user, state, []);
    var s := t.s.(events := [e]);
    assert Apply(t.s, Queue(user, state, [])) == s by { assert [] + [e] == [e]; }
    OneEventBatch(s, e);
    hide BatchCalls, LastAfter;
  }

  lemma TwoSteps(t: Threads, a: Step, b: Step, rest: seq<Step>)
    ensures AdvanceAll(t, [a, b] + rest) == AdvanceAll(Advance(Advance(t, a), b), rest)
  {
    hide Advance;
    assert ([a, b] + rest)[1..] == [b] + rest && ([b] + rest)[1..] == rest;
  }

  lemma FourCalls(s: State, a: seq<Call>, b: seq<Call>)
    requires |a| == |b| == 2
    ensures AdvanceAll(Threads(s, [a, b], []), [MakeCall(1), MakeCall(1), MakeCall(0), MakeCall(0)]) ==
              Threads(s, [[], []], b + a)
  {
    var t0, t1 := Threads(s, [a, b], []), Threads(s, [a, b[1..]], [b[0]]);
    var t2, t3 := Threads(s, [a, []], b), Threads(s, [a[1..], []], b + [a[0]]);
    var t4 := Threads(s, [[], []], b + a);
    assert Advance(t0, MakeCall(1)) == t1;
    assert Advance(t1, MakeCall(1)) == t2 by { assert [b[0]] + [b[1..][0]] == b && b[1..][1..] == []; }
    assert Advance(t2, MakeCall(0)) == t3;
    assert Advance(t3, MakeCall(0)) == t4 by { assert b + [a[0]] + [a[1..][0]] == b + a && a[1..][1..] == []; }
    hide Advance;
    TwoSteps(t0, MakeCall(1), MakeCall(1), [MakeCall(0), MakeCall(0)]);
    TwoSteps(t2, MakeCall(0), MakeCall(0), []);
    assert [MakeCall(1), MakeCall(1)] + [MakeCall(0), MakeCall(0)] ==
        [MakeCall(1), MakeCall(1), MakeCall(0), MakeCall(0)];
    assert [MakeCall(0), MakeCall(0)] + [] == [MakeCall(0), MakeCall(0)];
  }

  /** A batch of one event that changes the user's state, for the first callback and the reachability callback. */
  lemma OneEventBatch(s: State, e: Event)
    requires s.cb == Callbacks(true, [], false, true) && s.events == [e] && Differs(s.last, e)
    ensures BatchCalls(s) == [StateCall(Legacy, e), ReachCall(e.user, ReachOf(e))]
    ensures LastAfter(s.last, [e]) == s.last[e.user := ReachOf(e)]
  {
    assert [e][1..] == [];
    assert Listeners(s.cb) == [Legacy];
    assert CallsOf([Legacy], e) == [StateCall(Legacy, e)];
    assert StateCalls([Legacy], [e]) == [StateCall(Legacy, e)];
    assert Changes(s.last, [e]) == [(e.user, ReachOf(e))];
  }

  lemma HeardBackwards(a: seq<Call>, b: seq<Call>, e: Event, f: Event)
    requires a == [StateCall(Legacy, e), ReachCall(1, Reachable)]
    requires b == [StateCall(Legacy, f), ReachCall(1, Unavailable)]
    ensures Told(b + a, Legacy) == [f, e] && Notified(b + a) == [(1, Unavailable), (1, Reachable)]
  {
    ToldConcat(b, a, Legacy);
    NotifiedConcat(b, a);
    assert a[1..][1..] == [] && b[1..][1..] == [];
    assert Told(a[1..], Legacy) == [] && Told(b[1..], Legacy) == [];
    assert Notified(a[1..]) == [(1, Reachable)] && Notified(b[1..]) == [(1, Unavailable)];
  }

  // ---- The order of the calls of one dispatch ----

  function Rank(who: Listener): nat {
    match who
    case Legacy => 0
    case Slot(i) => 1 + i
    case Toolkit => 1 + SLOTS
  }

  ghost predicate Ascends(ls: seq<Listener>) {
    forall i, j :: 0 <= i < j < |ls| ==> Rank(ls[i]) < Rank(ls[j])
  }

  lemma AscendsConcat(a: seq<Listener>, b: seq<Listener>)
    requires Ascends(a) && Ascends(b)
    requires forall x, y :: x in a && y in b ==> Rank(x) < Rank(y)
    ensures Ascends(a + b)
  {
    hide Rank;
    var c := a + b;
    forall i, j | 0 <= i < j < |c| ensures Rank(c[i]) < Rank(c[j]) {
      if i < |a| <= j {
        assert c[i] in a && c[j] in b;
      }
    }
  }

  lemma {:induction false} SlotsAscend(slots: seq<Option<int>>)
    ensures Ascends(SlotListeners(slots))
  {
    if slots != [] {
      var n := |slots| - 1;
      SlotsAscend(slots[..n]);
      SlotListenersHolds(slots[..n]);
      AscendsConcat(SlotListeners(slots[..n]), if slots[n].Some? then [Slot(n)] else []);
    }
  }

  lemma ListenersAscend(cb: Callbacks)
    requires |cb.slots| == SLOTS
    ensures Ascends(Listeners(cb))
  {
    SlotsAscend(cb.slots);
    SlotListenersHolds(cb.slots);
    hide SlotListeners;
    var first, mid := if cb.legacy then [Legacy] else [], SlotListeners(cb.slots);
    AscendsConcat(first, mid);
    AscendsConcat(first + mid, if cb.toolkit then [Toolkit] else []);
  }

  lemma {:induction false} StateCallsAt(ls: seq<Listener>, events: seq<Event>, k: nat, i: nat)
    requires i < |ls| && k < |events|
    ensures |StateCalls(ls, events)| == |events| * |ls|
    ensures 0 <= k * |ls| + i < |events| * |ls|
    ensures StateCalls(ls, events)[k * |ls| + i] == StateCall(ls[i], events[k])
    decreases |events|
  {
    var rest := events[1..];
    assert |events| * |ls| == |ls| + |rest| * |ls|;
    if |rest| == 0 {
      assert StateCalls(ls, rest) == [];
    } else {
      StateCallsAt(ls, rest, if k > 0 then k - 1 else 0, i);
      if k > 0 {
        assert k * |ls| == |ls| + (k - 1) * |ls|;
      }
    }
  }

  /** Event by event, each to the first callback, then to the slots in order, then to the toolkit's; all changes of
      reachability after that. */
  lemma CallsComeInOrder(s: State, k: nat, i: nat, c: nat)
    requires |s.cb.slots| == SLOTS && k < |s.events| && i < |Listeners(s.cb)|
    ensures var ls, calls := Listeners(s.cb), BatchCalls(s);
            && Ascends(ls)
            && |calls| == |s.events| * |ls| + |BatchChanges(s)|
            && 0 <= k * |ls| + i < |s.events| * |ls|
            && calls[k * |ls| + i] == StateCall(ls[i], s.events[k])
            && (c < |BatchChanges(s)| ==>
                  calls[|s.events| * |ls| + c] == ReachCall(BatchChanges(s)[c].0, BatchChanges(s)[c].1))
  {
    ListenersAscend(s.cb);
    StateCallsAt(Listeners(s.cb), s.events, k, i);
    hide Listeners, StateCalls, BatchChanges, Ascends;
  }

  // ---- The objects ----

  class NpManager {
    var events: seq<Event>
    var last: map<int, Reach>
    var legacy: bool
    var toolkit: bool
    var reach: bool
    const slots: array<Option<int>>

    ghost predicate Valid()
      reads this, slots
    {
      && slots.Length == SLOTS
      && forall i, j :: 0 <= i < j < SLOTS && slots[i].Some? ==> slots[i] != slots[j]
    }

    ghost function View(): State
      reads this, slots
    {
      State(events, last, Callbacks(legacy, slots[..], toolkit, reach))
    }

    constructor ()
      ensures Valid() && fresh(slots)
              && View() == State([], map[], Callbacks(false, seq(SLOTS, _ => None), false, false))
    {
      events, last, legacy, toolkit, reach := [], map[], false, false, false;
      slots := new Option<int>[SLOTS](_ => None);
      new;
      assert slots[..] == seq(SLOTS, _ => None);
    }

    method QueueNpStateEvent(user: int, state: NpState, npId: seq<u8>)
      requires Valid()
      modifies this`events
      ensures Valid() && View() == Apply(old(View()), Queue(user, state, npId))
    {
      events := events + [Event(user, state, if state == SignedIn then Some(npId) else None)];
    }

    method RegisterReachability(callback: Option<int>) returns (error: int)
      requires Valid()
      modifies this
      ensures Valid()
      ensures error ==
                if callback.None? then ERROR_INVALID_ARGUMENT else if old(reach) then ERROR_ALREADY_REGISTERED else OK
      ensures View() == if callback.None? then old(View()) else Apply(old(View()), RegisterReach)
    {
      if callback.None? {
        return ERROR_INVALID_ARGUMENT;
      }
      if reach {
        return ERROR_ALREADY_REGISTERED;
      }
      reach, last := true, map[];
      error := OK;
    }

    method UnregisterReachability() returns (error: int)
      requires Valid()
      modifies this
      ensures Valid()
      ensures error == if old(reach) then OK else ERROR_NOT_REGISTERED
      ensures View() == Apply(old(View()), UnregisterReach)
    {
      if !reach {
        return ERROR_NOT_REGISTERED;
      }
      reach, last := false, map[];
      error := OK;
    }

    /** The first free slot, unless the function is registered already or all slots are taken. */
    method RegisterStateCallbackA(callback: Option<int>) returns (r: int)
      requires Valid()
      modifies slots
      ensures Valid()
      ensures callback.None? ==> r == ERROR_INVALID_ARGUMENT && slots[..] == old(slots[..])
      ensures callback.Some? && callback in old(slots[..]) ==>
                r == ERROR_ALREADY_REGISTERED && slots[..] == old(slots[..])
      ensures callback.Some? && callback !in old(slots[..]) && None !in old(slots[..]) ==>
                r == ERROR_CALLBACK_MAX && slots[..] == old(slots[..])
      ensures callback.Some? && callback !in old(slots[..]) && None in old(slots[..]) ==>
                && 1 <= r <= SLOTS && old(slots[..])[r - 1].None? && None !in old(slots[..])[..r - 1]
                && slots[..] == old(slots[..])[r - 1 := callback]
    {
      if callback.None? {
        return ERROR_INVALID_ARGUMENT;
      }
      for i := 0 to SLOTS
        invariant forall j :: 0 <= j < i ==> slots[j] != callback
      {
        if slots[i] == callback {
          return ERROR_ALREADY_REGISTERED;
        }
      }
      for i := 0 to SLOTS
        invariant forall j :: 0 <= j < i ==> slots[j].Some?
        invariant slots[..] == old(slots[..])
      {
        if slots[i].Some? {
          continue;
        }
        slots[i] := callback;
        return i + 1;
      }
      r := ERROR_CALLBACK_MAX;
    }

    method UnregisterStateCallbackA(id: int) returns (error: int)
      requires Valid()
      modifies slots
      ensures Valid()
      ensures id <= 0 || id > SLOTS ==> error == ERROR_INVALID_ARGUMENT && slots[..] == old(slots[..])
      ensures 0 < id <= SLOTS ==>
                && error == (if old(slots[id - 1]).None? then ERROR_NOT_REGISTERED else OK)
                && slots[..] == old(slots[..])[id - 1 := None]
    {
      if id <= 0 || id > SLOTS {
        return ERROR_INVALID_ARGUMENT;
      }
      if slots[id - 1].None? {
        return ERROR_NOT_REGISTERED;
      }
      slots[id - 1] := None;
      error := OK;
    }

    /** Records each user's latest state and collects what is new. */
    method FindChanges(pending: seq<Event>) returns (changes: seq<(int, Reach)>)
      requires Valid()
      modifies this`last
      ensures changes == Changes(old(last), pending) && last == LastAfter(old(last), pending)
    {
      changes := [];
      for i := 0 to |pending|
        invariant changes + Changes(last, pending[i..]) == Changes(old(last), pending)
        invariant LastAfter(last, pending[i..]) == LastAfter(old(last), pending)
      {
        ghost var rest := pending[i..];
        assert rest[0] == pending[i] && rest[1..] == pending[i + 1..];
        ChangesUnfold(last, rest);
        hide Changes, LastAfter;
        ghost var tail, before := Changes(Note(last, pending[i]), pending[i + 1..]), changes;
        ghost var new1 := if Differs(last, pending[i]) then [(pending[i].user, ReachOf(pending[i]))] else [];
        Assoc(before, new1, tail);
        var e := pending[i];
        var r := if e.state == SignedIn then Reachable else Unavailable;
        if e.user !in last || last[e.user] != r {
          last := last[e.user := r];
          changes := changes + [(e.user, r)];
        }
        assert changes == before + new1;
      }
    }

    method TellChanges(changes: seq<(int, Reach)>) returns (calls: seq<Call>)
      ensures calls == ReachCalls(changes)
    {
      calls := [];
      for i := 0 to |changes|
        invariant calls == ReachCalls(changes[..i])
      {
        calls := calls + [ReachCall(changes[i].0, changes[i].1)];
      }
    }

    /** Takes the whole queue, finds the changes of reachability, then makes the calls. */
    method DispatchPendingNpStateCallbacks() returns (calls: seq<Call>)
      requires Valid()
      modifies this
      ensures Valid() && View() == Apply(old(View()), Dispatch)
      ensures calls == BatchCalls(old(View()))
    {
      hide Listeners;
      if events == [] {
        assert ReachCalls([]) == [];
        return [];
      }
      var pending := events;
      events := [];
      var changes: seq<(int, Reach)> := [];
      if reach {
        changes := FindChanges(pending);
      }
      hide Changes, LastAfter, StateCalls, ReachCalls;
      var stateCalls := TellAll(pending);
      var reachCalls := TellChanges(changes);
      calls := stateCalls + reachCalls;
    }

    /** For each event: the first callback, the occupied slots in order, the toolkit's. */
    method TellAll(pending: seq<Event>) returns (calls: seq<Call>)
      requires Valid()
      ensures calls == StateCalls(Listeners(View().cb), pending)
    {
      calls := [];
      ghost var ls := Listeners(View().cb);
      for k := 0 to |pending|
        invariant calls + StateCalls(ls, pending[k..]) == StateCalls(ls, pending)
      {
        var e := pending[k];
        assert pending[k..][0] == e && pending[k..][1..] == pending[k + 1..];
        var told := TellOne(e);
        assert StateCalls(ls, pending[k..]) == told + StateCalls(ls, pending[k + 1..]);
        hide StateCalls, Listeners, CallsOf;
        Assoc(calls, told, StateCalls(ls, pending[k + 1..]));
        calls := calls + told;
      }
    }

    method TellSlots(e: Event) returns (calls: seq<Call>)
      requires Valid()
      ensures calls == CallsOf(SlotListeners(slots[..]), e)
    {
      calls := [];
      for i := 0 to SLOTS
        invariant calls == CallsOf(SlotListeners(slots[..i]), e)
      {
        assert slots[..i + 1][..i] == slots[..i] && slots[..i + 1][i] == slots[i];
        CallsOfConcat(SlotListeners(slots[..i]), if slots[i].Some? then [Slot(i)] else [], e);
        if slots[i].Some? {
          calls := calls + [StateCall(Slot(i), e)];
        }
      }
      assert slots[..SLOTS] == slots[..];
    }

    method TellOne(e: Event) returns (calls: seq<Call>)
      requires Valid()
      ensures calls == CallsOf(Listeners(View().cb), e)
    {
      hide SlotListeners;
      calls := [];
      if legacy {
        calls := calls + [StateCall(Legacy, e)];
      }
      var more := TellSlots(e);
      calls := calls + more;
      if toolkit {
        calls := calls + [StateCall(Toolkit, e)];
      }
      CallsOfConcat(if legacy then [Legacy] else [], SlotListeners(slots[..]), e);
      CallsOfConcat((if legacy then [Legacy] else []) + SlotListeners(slots[..]), if toolkit then [Toolkit] else [], e);
    }
  }
}
