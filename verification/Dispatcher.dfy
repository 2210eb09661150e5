/** The Matching2 event dispatcher: one thread that sleeps until the next deadline, delivers what is due, and
    does not scan while a caller holds delivery back. Every mutex-protected region is one step. */
module Dispatcher {
  import opened Widths

  /** `owned` tells whether the event still has its context object; `content` stands for the callback data. */
  datatype Event = Event(fireAt: int, owned: bool, content: nat)

  /** An event in the queue; `serial` is its place in the order of scheduling. */
  datatype Queued = Queued(serial: nat, event: Event)

  datatype Deadline = Never | At(time: int)

  datatype Phase =
    | Running                                   // about to take the mutex and test the loop conditions
    | Asleep(deadline: Deadline, notified: bool)
    | Firing(batch: seq<Queued>)                // outside the mutex, these events still to be delivered

  datatype Delivery = Delivery(serial: nat, at: int)

  /** `notifying` counts the callers between their unlock and their notify_all; `live` are the hold objects alive.
      `scheduled` and `delivered` record the run. */
  datatype State = State(
    clock: int, pending: seq<Queued>, holds: nat, live: set<nat>, notifying: nat, phase: Phase,
    scheduled: seq<Event>, delivered: seq<Delivery>)

  datatype Action =
    | Tick(elapsed: nat)
    | Schedule(event: Event)
    | Acquire(hold: nat)
    | Release(hold: nat)
    | NotifyAll
    | LoopHead
    | Wake
    | Fire

  /** The hold counter is 32 bits wide. */
  const WRAP: nat := 0x1_0000_0000

  const Init := State(0, [], 0, {}, 0, Running, [], [])

  // ---- One step ----

  function Due(q: seq<Queued>, now: int): seq<Queued> {
    if q == [] then [] else (if q[0].event.fireAt <= now then [q[0]] else []) + Due(q[1..], now)
  }

  function NotDue(q: seq<Queued>, now: int): seq<Queued> {
    if q == [] then [] else (if q[0].event.fireAt <= now then [] else [q[0]]) + NotDue(q[1..], now)
  }

  function Sooner(d: Deadline, time: int): Deadline {
    if d.At? && d.time <= time then d else At(time)
  }

  /** The earliest deadline in the queue. */
  function Nearest(q: seq<Queued>): Deadline {
    if q == [] then Never else Sooner(Nearest(q[..|q| - 1]), q[|q| - 1].event.fireAt)
  }

  predicate Enabled(s: State, a: Action) {
    match a
    case Tick(_) => true
    case Schedule(_) => true
    case Acquire(h) => h !in s.live
    case Release(h) => h in s.live
    case NotifyAll => s.notifying > 0
    case LoopHead => s.phase.Running?
    case Wake => s.phase.Asleep?
    case Fire => s.phase.Firing? && s.phase.batch != []
  }

  function Apply(s: State, a: Action): State
    requires Enabled(s, a)
  {
    match a
    case Tick(d) => s.(clock := s.clock + d)
    case Schedule(e) =>
      if !e.owned then s
      else s.(pending := s.pending + [Queued(|s.scheduled|, e)], scheduled := s.scheduled + [e],
              notifying := s.notifying + 1)
    case Acquire(h) => s.(holds := (s.holds + 1) % WRAP, live := s.live + {h})
    case Release(h) => s.(holds := (s.holds + WRAP - 1) % WRAP, live := s.live - {h}, notifying := s.notifying + 1)
    case NotifyAll =>
      s.(notifying := s.notifying - 1, phase := if s.phase.Asleep? then s.phase.(notified := true) else s.phase)
    case LoopHead =>
      if s.holds > 0 then s.(phase := Asleep(Never, false))
      else if Due(s.pending, s.clock) != [] then
        s.(pending := NotDue(s.pending, s.clock), phase := Firing(Due(s.pending, s.clock)))
      else s.(phase := Asleep(Nearest(s.pending), false))
    case Wake => s.(phase := Running)
    case Fire =>
      s.(delivered := s.delivered + [Delivery(s.phase.batch[0].serial, s.clock)],
         phase := if |s.phase.batch| == 1 then Running else Firing(s.phase.batch[1..]))
  }

  // ---- Runs ----

  ghost predicate IsRun(s: State, actions: seq<Action>)
    decreases |actions|
  {
    actions == [] || (Enabled(s, actions[0]) && IsRun(Apply(s, actions[0]), actions[1..]))
  }

  ghost function After(s: State, actions: seq<Action>): State
    requires IsRun(s, actions)
    decreases |actions|
  {
    if actions == [] then s else After(Apply(s, actions[0]), actions[1..])
  }

  // ---- What every step keeps ----

  function Batch(s: State): seq<Queued> {
    if s.phase.Firing? then s.phase.batch else []
  }

  ghost function Serials(q: seq<Queued>): seq<nat> {
    seq(|q|, i requires 0 <= i < |q| => q[i].serial)
  }

  /** The delivery order as far as it is decided: what was delivered, then what is being delivered. */
  ghost function Decided(s: State): seq<nat> {
    seq(|s.delivered|, i requires 0 <= i < |s.delivered| => s.delivered[i].serial) + Serials(Batch(s))
  }

  /** y must not be decided before x: x was scheduled earlier and is due no later. */
  ghost predicate Precedes(scheduled: seq<Event>, x: nat, y: nat) {
    x < y < |scheduled| && scheduled[x].fireAt <= scheduled[y].fireAt
  }

  ghost predicate Increasing(q: seq<Queued>) {
    forall i, j :: 0 <= i < j < |q| ==> q[i].serial < q[j].serial
  }

  ghost predicate Genuine(scheduled: seq<Event>, q: seq<Queued>) {
    forall x :: x in q ==> x.serial < |scheduled| && scheduled[x.serial] == x.event
  }

  /** Every scheduled event is in exactly one place: the queue or, once, the delivery order. */
  ghost predicate Conserved(scheduled: seq<Event>, pending: seq<Queued>, l: seq<nat>) {
    && Increasing(pending) && Genuine(scheduled, pending)
    && (forall k :: k in l ==> k < |scheduled|)
    && (forall i, j :: 0 <= i < j < |l| ==> l[i] != l[j])
    && (forall x :: x in pending ==> x.serial !in l)
    && (forall k :: 0 <= k < |scheduled| ==> k in l || Queued(k, scheduled[k]) in pending)
  }

  ghost predicate Ordered(scheduled: seq<Event>, pending: seq<Queued>, l: seq<nat>) {
    && (forall i, j :: 0 <= i < j < |l| ==> !Precedes(scheduled, l[j], l[i]))
    && (forall x, k :: x in pending && k in l ==> !Precedes(scheduled, x.serial, k))
  }

  ghost predicate Timely(s: State) {
    && (forall d :: d in s.delivered ==>
          d.serial < |s.scheduled| && s.scheduled[d.serial].fireAt <= d.at)
    && Genuine(s.scheduled, Batch(s))
    && (forall x :: x in Batch(s) ==> x.event.fireAt <= s.clock)
  }

  /** Asleep with nobody about to notify: held back, or sleeping until exactly the earliest deadline. */
  ghost predicate WakeupOk(s: State) {
    s.phase.Asleep? && !s.phase.notified && s.notifying == 0 && s.live == {} ==>
      s.phase.deadline == Nearest(s.pending)
  }

  ghost predicate Inv(s: State) {
    && Conserved(s.scheduled, s.pending, Decided(s)) && Ordered(s.scheduled, s.pending, Decided(s))
    && Timely(s) && WakeupOk(s)
    && s.holds == |s.live| % WRAP
    && (s.phase.Firing? ==> s.phase.batch != [])
  }

  // ---- Scanning the queue ----

  lemma {:induction false} ScanParts(q: seq<Queued>, now: int)
    ensures forall x :: x in Due(q, now) <==> x in q && x.event.fireAt <= now
    ensures forall x :: x in NotDue(q, now) <==> x in q && x.event.fireAt > now
  {
    if q != [] {
      ScanParts(q[1..], now);
      assert q == [q[0]] + q[1..];
    }
  }

  lemma {:induction false} ScanKeepsOrder(q: seq<Queued>, now: int)
    requires Increasing(q)
    ensures Increasing(Due(q, now)) && Increasing(NotDue(q, now))
  {
    if q != [] {
      var rest := q[1..];
      ScanKeepsOrder(rest, now);
      ScanParts(rest, now);
      ConsIncreasing(q[0], Due(rest, now), rest);
      ConsIncreasing(q[0], NotDue(rest, now), rest);
    }
  }

  lemma ConsIncreasing(x: Queued, part: seq<Queued>, whole: seq<Queued>)
    requires Increasing(part) && forall y :: y in part ==> y in whole
    requires forall i :: 0 <= i < |whole| ==> x.serial < whole[i].serial
    ensures Increasing([x] + part) && Increasing([] + part)
  {
    forall i | 0 <= i < |part| ensures x.serial < part[i].serial {
      assert part[i] in whole;
    }
  }

  lemma {:induction false} ScanAppend(q: seq<Queued>, x: Queued, now: int)
    ensures Due(q + [x], now) == Due(q, now) + Due([x], now)
    ensures NotDue(q + [x], now) == NotDue(q, now) + NotDue([x], now)
  {
    hide Due, NotDue;
    var longer := q + [x];
    if q == [] {
      ScanNone(now);
      assert longer == [x];
    } else {
      ScanAppend(q[1..], x, now);
      assert longer[1..] == q[1..] + [x] && longer[0] == q[0];
      ScanFirst(q, now);
      ScanFirst(longer, now);
    }
  }

  lemma ScanFirst(q: seq<Queued>, now: int)
    requires q != []
    ensures Due(q, now) == (if q[0].event.fireAt <= now then [q[0]] else []) + Due(q[1..], now)
    ensures NotDue(q, now) == (if q[0].event.fireAt <= now then [] else [q[0]]) + NotDue(q[1..], now)
  {
  }

  lemma ScanNone(now: int)
    ensures Due([], now) == [] && NotDue([], now) == [] && Nearest([]) == Never
  {
  }

  lemma ScanOne(x: Queued, now: int)
    ensures x.event.fireAt <= now ==> Due([x], now) == [x] && NotDue([x], now) == []
    ensures x.event.fireAt > now ==> Due([x], now) == [] && NotDue([x], now) == [x]
  {
  }

  lemma NearestAppend(q: seq<Queued>, x: Queued)
    ensures Nearest(q + [x]) == Sooner(Nearest(q), x.event.fireAt)
  {
  }

  /** The earliest deadline is a lower bound that some event attains. */
  lemma {:induction false} NearestIsMinimum(q: seq<Queued>)
    ensures Nearest(q).Never? <==> q == []
    ensures Nearest(q).At? ==> forall x :: x in q ==> Nearest(q).time <= x.event.fireAt
    ensures Nearest(q).At? ==> exists x :: x in q && x.event.fireAt == Nearest(q).time
  {
    if q != [] {
      var front, last := q[..|q| - 1], q[|q| - 1];
      NearestIsMinimum(front);
      assert q == front + [last];
      assert last in q;
    }
  }

  // ---- Preservation ----

  lemma ScheduleConserves(scheduled: seq<Event>, pending: seq<Queued>, l: seq<nat>, e: Event)
    requires Conserved(scheduled, pending, l) && Ordered(scheduled, pending, l)
    ensures var x := Queued(|scheduled|, e);
            && Conserved(scheduled + [e], pending + [x], l)
            && Ordered(scheduled + [e], pending + [x], l)
  {
  }

  lemma ScheduledStaysGenuine(scheduled: seq<Event>, q: seq<Queued>, e: Event)
    requires Genuine(scheduled, q)
    ensures Genuine(scheduled + [e], q)
  {
  }

  lemma FireDecides(s: State)
    requires Enabled(s, Fire)
    ensures Decided(Apply(s, Fire)) == Decided(s)
  {
  }

  lemma FireIsTimely(s: State)
    requires Timely(s) && Enabled(s, Fire)
    ensures Timely(Apply(s, Fire))
  {
  }

  /** What a scan does to the queue: two parts, the due one moved behind the delivery order. */
  ghost predicate Splits(pending: seq<Queued>, due: seq<Queued>, keep: seq<Queued>, now: int) {
    && Increasing(due) && Increasing(keep)
    && (forall x :: x in due <==> x in pending && x.event.fireAt <= now)
    && (forall x :: x in keep <==> x in pending && x.event.fireAt > now)
  }

  lemma SerialsAre(q: seq<Queued>)
    ensures |Serials(q)| == |q| && forall i :: 0 <= i < |q| ==> Serials(q)[i] == q[i].serial
    ensures forall x :: x in q ==> x.serial in Serials(q)
    ensures forall k :: k in Serials(q) ==> exists x :: x in q && x.serial == k
  {
  }

  lemma ScanConserves(scheduled: seq<Event>, pending: seq<Queued>, l: seq<nat>, due: seq<Queued>, keep: seq<Queued>,
                      now: int)
    requires Conserved(scheduled, pending, l) && Splits(pending, due, keep, now)
    ensures Conserved(scheduled, keep, l + Serials(due))
  {
    var m := l + Serials(due);
    SerialsAre(due);
    forall k | k in m ensures k < |scheduled| {}
    forall i, j | 0 <= i < j < |m| ensures m[i] != m[j] {
      if j >= |l| {
        assert due[j - |l|] in pending;
        if i < |l| { assert m[i] in l; }
      }
    }
    forall x | x in keep ensures x.serial !in m {
      assert scheduled[x.serial] == x.event;
    }
    forall k | 0 <= k < |scheduled| ensures k in m || Queued(k, scheduled[k]) in keep {
      var x := Queued(k, scheduled[k]);
      if x in due { assert x.serial in Serials(due); }
    }
  }

  lemma ScanOrders(scheduled: seq<Event>, pending: seq<Queued>, l: seq<nat>, due: seq<Queued>, keep: seq<Queued>,
                   now: int)
    requires Conserved(scheduled, pending, l) && Ordered(scheduled, pending, l) && Splits(pending, due, keep, now)
    ensures Ordered(scheduled, keep, l + Serials(due))
  {
  }

  lemma ScanIsTimely(s: State, due: seq<Queued>, keep: seq<Queued>)
    requires Timely(s) && s.phase.Running? && Genuine(s.scheduled, s.pending)
    requires Splits(s.pending, due, keep, s.clock)
    ensures Timely(s.(pending := keep, phase := Firing(due)))
    ensures Decided(s.(pending := keep, phase := Firing(due))) == Decided(s) + Serials(due)
  {
  }

  lemma ScanPreserves(s: State)
    requires Inv(s) && s.phase.Running? && s.holds == 0 && Due(s.pending, s.clock) != []
    ensures Inv(Apply(s, LoopHead))
  {
    hide Due, NotDue, Conserved, Ordered, Nearest, Timely, Decided, Genuine;
    var due, keep := Due(s.pending, s.clock), NotDue(s.pending, s.clock);
    ConservedParts(s.scheduled, s.pending, Decided(s));
    ScanParts(s.pending, s.clock);
    ScanKeepsOrder(s.pending, s.clock);
    ScanConserves(s.scheduled, s.pending, Decided(s), due, keep, s.clock);
    ScanOrders(s.scheduled, s.pending, Decided(s), due, keep, s.clock);
    ScanIsTimely(s, due, keep);
  }

  lemma ConservedParts(scheduled: seq<Event>, pending: seq<Queued>, l: seq<nat>)
    requires Conserved(scheduled, pending, l)
    ensures Increasing(pending) && Genuine(scheduled, pending)
  {
  }

  lemma SchedulePreserves(s: State, e: Event)
    requires Inv(s)
    ensures Inv(Apply(s, Schedule(e)))
  {
    hide Conserved, Ordered, Nearest;
    var t := Apply(s, Schedule(e));
    ScheduleConserves(s.scheduled, s.pending, Decided(s), e);
    assert Decided(t) == Decided(s);
    ScheduledStaysGenuine(s.scheduled, Batch(s), e);
  }

  lemma HoldPreserves(s: State, a: Action)
    requires Inv(s) && Enabled(s, a) && (a.Acquire? || a.Release?)
    ensures Inv(Apply(s, a))
  {
    hide Conserved, Ordered, Nearest, Due, NotDue, Decided, Genuine;
    SameQueues(s, Apply(s, a));
    if a.Acquire? {
      CountsUp(s.live, a.hold);
    } else {
      CountsDown(s.live, a.hold);
    }
  }

  lemma SameQueues(s: State, t: State)
    requires s.delivered == t.delivered && s.phase == t.phase
    ensures Decided(s) == Decided(t)
  {
  }

  lemma CountsUp(live: set<nat>, h: nat)
    requires h !in live
    ensures |live + {h}| % WRAP == (|live| % WRAP + 1) % WRAP
  {
  }

  lemma CountsDown(live: set<nat>, h: nat)
    requires h in live
    ensures |live - {h}| % WRAP == (|live| % WRAP + WRAP - 1) % WRAP
  {
    assert |live - {h}| == |live| - 1;
  }

  lemma StepPreserves(s: State, a: Action)
    requires Inv(s) && Enabled(s, a)
    ensures Inv(Apply(s, a))
  {
    hide Conserved, Ordered, Nearest, Due, NotDue;
    match a
    case Schedule(e) => SchedulePreserves(s, e);
    case Fire =>
      FireDecides(s);
      FireIsTimely(s);
    case LoopHead =>
      if s.holds == 0 && Due(s.pending, s.clock) != [] {
        ScanPreserves(s);
      } else {
        assert Decided(Apply(s, a)) == Decided(s);
      }
    case Acquire(h) => HoldPreserves(s, a);
    case Release(h) => HoldPreserves(s, a);
    case _ =>
      assert Decided(Apply(s, a)) == Decided(s);
  }

  lemma {:induction false} RunPreserves(s: State, actions: seq<Action>)
    requires Inv(s) && IsRun(s, actions)
    ensures Inv(After(s, actions))
    decreases |actions|
  {
    if actions != [] {
      StepPreserves(s, actions[0]);
      RunPreserves(Apply(s, actions[0]), actions[1..]);
    }
  }

  lemma NothingIsConserved()
    ensures Conserved([], [], []) && Ordered([], [], [])
  {
  }

  lemma InitIsSound()
    ensures Inv(Init)
  {
    hide Conserved, Ordered, Nearest, Decided, Serials, Due, NotDue;
    NothingIsConserved();
    DecidedAt(Init);
    assert Batch(Init) == [];
    assert Decided(Init) == [];
    hide WakeupOk;
  }

  lemma Reachable(actions: seq<Action>)
    requires IsRun(Init, actions)
    ensures Inv(After(Init, actions))
  {
    InitIsSound();
    hide Inv, IsRun, After;
    RunPreserves(Init, actions);
  }

  // ---- Theorems over every run ----

  ghost predicate IsDelivered(s: State, k: nat) {
    exists i :: 0 <= i < |s.delivered| && s.delivered[i].serial == k
  }

  /** Each scheduled event is delivered at most once and never early; it is undelivered exactly while it is
      pending or in the batch being delivered, and then in only one of the two. */
  lemma DeliveredOnceInTime(actions: seq<Action>, k: nat)
    requires IsRun(Init, actions) && k < |After(Init, actions).scheduled|
    ensures var s := After(Init, actions);
            && (forall i, j :: 0 <= i < j < |s.delivered| ==> s.delivered[i].serial != s.delivered[j].serial)
            && (forall i :: 0 <= i < |s.delivered| && s.delivered[i].serial == k ==>
                  s.scheduled[k].fireAt <= s.delivered[i].at)
            && (!IsDelivered(s, k) <==> k in Serials(s.pending) || k in Serials(Batch(s)))
            && !(k in Serials(s.pending) && k in Serials(Batch(s)))
  {
    Reachable(actions);
    var s := After(Init, actions);
    DecidedHolds(s, k);
    SerialsAre(s.pending);
  }

  /** The events offered over a run that still had their context. */
  function Offered(actions: seq<Action>): seq<Event>
    decreases |actions|
  {
    if actions == [] then []
    else (if actions[0].Schedule? && actions[0].event.owned then [actions[0].event] else []) + Offered(actions[1..])
  }

  lemma ScheduleRecords(s: State, a: Action)
    requires Enabled(s, a)
    ensures Apply(s, a).scheduled == s.scheduled + if a.Schedule? && a.event.owned then [a.event] else []
  {
    if !(a.Schedule? && a.event.owned) {
      assert s.scheduled + [] == s.scheduled;
    }
  }

  lemma {:induction false} RunRecords(s: State, actions: seq<Action>)
    requires IsRun(s, actions)
    ensures After(s, actions).scheduled == s.scheduled + Offered(actions)
    decreases |actions|
  {
    if actions != [] {
      ScheduleRecords(s, actions[0]);
      hide Apply;
      RunRecords(Apply(s, actions[0]), actions[1..]);
    } else {
      assert s.scheduled + [] == s.scheduled;
    }
  }

  /** Exactly the events that had their context are scheduled, in the order they were offered; so what is delivered,
      pending or in a batch is one of them. */
  lemma OnlyOwnedEvents(actions: seq<Action>)
    requires IsRun(Init, actions)
    ensures var s := After(Init, actions);
            && s.scheduled == Offered(actions)
            && (forall d :: d in s.delivered ==> d.serial < |Offered(actions)| && Offered(actions)[d.serial].owned)
            && (forall x :: x in s.pending || x in Batch(s) ==>
                  x.serial < |Offered(actions)| && Offered(actions)[x.serial] == x.event && x.event.owned)
  {
    Reachable(actions);
    RunRecords(Init, actions);
    OfferedAreOwned(actions);
    var s := After(Init, actions);
    assert [] + Offered(actions) == Offered(actions);
    ConservedParts(s.scheduled, s.pending, Decided(s));
    hide Conserved, Ordered, WakeupOk, Decided, Apply, After, IsRun, Offered;
  }

  lemma {:induction false} OfferedAreOwned(actions: seq<Action>)
    ensures forall i :: 0 <= i < |Offered(actions)| ==> Offered(actions)[i].owned
  {
    if actions != [] {
      OfferedAreOwned(actions[1..]);
    }
  }

  /** The delivery order read position by position. */
  lemma DecidedAt(s: State)
    ensures |Decided(s)| == |s.delivered| + |Batch(s)|
    ensures forall i :: 0 <= i < |s.delivered| ==> Decided(s)[i] == s.delivered[i].serial
    ensures forall i :: 0 <= i < |Batch(s)| ==> Decided(s)[|s.delivered| + i] == Serials(Batch(s))[i]
  {
  }

  lemma DecidedHolds(s: State, k: nat)
    requires Inv(s)
    ensures forall i :: 0 <= i < |s.delivered| ==> Decided(s)[i] == s.delivered[i].serial
    ensures k in Decided(s) <==> IsDelivered(s, k) || k in Serials(Batch(s))
    ensures !(IsDelivered(s, k) && k in Serials(Batch(s)))
  {
    hide Decided, Serials, Ordered, Timely, WakeupOk;
    DecidedAt(s);
    SerialsAre(Batch(s));
    var l, n, ks := Decided(s), |s.delivered|, Serials(Batch(s));
    if k in l {
      var i :| 0 <= i < |l| && l[i] == k;
      if i < n {
        assert s.delivered[i].serial == k;
      } else {
        assert ks[i - n] == l[n + (i - n)];
      }
    }
    if k in ks {
      var j :| 0 <= j < |ks| && ks[j] == k;
      assert l[n + j] == k;
    }
    if IsDelivered(s, k) {
      var i :| 0 <= i < n && s.delivered[i].serial == k;
      assert l[i] == k;
    }
  }

  /** Of two events, the one scheduled first and due no later is delivered first, across scan passes too. */
  lemma DeliveryOrder(actions: seq<Action>, x: nat, y: nat, b: nat)
    requires IsRun(Init, actions)
    requires var s := After(Init, actions);
             && x < y < |s.scheduled| && s.scheduled[x].fireAt <= s.scheduled[y].fireAt
             && b < |s.delivered| && s.delivered[b].serial == y
    ensures exists a :: 0 <= a < b && After(Init, actions).delivered[a].serial == x
  {
    Reachable(actions);
    var s := After(Init, actions);
    var l := Decided(s);
    assert l[b] == y && y in l && Precedes(s.scheduled, x, y);
    assert x in l;
    var a :| 0 <= a < |l| && l[a] == x;
    assert a < b;
    assert s.delivered[a].serial == x;
  }

  /** Asleep, not notified, nobody about to notify: either a hold is alive, or the thread sleeps until exactly the
      earliest deadline in the queue, forever only if the queue is empty. */
  lemma NoLostWakeup(actions: seq<Action>)
    requires IsRun(Init, actions)
    requires var s := After(Init, actions); s.phase.Asleep? && !s.phase.notified && s.notifying == 0
    ensures var s := After(Init, actions);
            || s.live != {}
            || (s.phase.deadline.Never? && s.pending == [])
            || (&& s.phase.deadline.At?
                && (forall x :: x in s.pending ==> s.phase.deadline.time <= x.event.fireAt)
                && (exists x :: x in s.pending && s.phase.deadline.time == x.event.fireAt))
  {
    Reachable(actions);
    NearestIsMinimum(After(Init, actions).pending);
  }

  /** So a due event never waits on a sleeping dispatcher: once the notifiers are through and nothing is held, the
      thread has been notified or has timed out, and waking it puts the event into the batch. */
  lemma DueEventIsServed(actions: seq<Action>, x: Queued)
    requires IsRun(Init, actions)
    requires var s := After(Init, actions);
             && x in s.pending && x.event.fireAt <= s.clock && s.live == {} && s.notifying == 0 && s.phase.Asleep?
    ensures var s := After(Init, actions);
            && (s.phase.notified || (s.phase.deadline.At? && s.phase.deadline.time <= s.clock))
            && IsRun(s, [Wake, LoopHead])
            && x in Batch(After(s, [Wake, LoopHead]))
  {
    hide Conserved, Ordered, Timely, Decided, Genuine, NotDue, Due, Nearest;
    Reachable(actions);
    var s := After(Init, actions);
    NearestIsMinimum(s.pending);
    ScanParts(s.pending, s.clock);
    var woken := Apply(s, Wake);
    assert [Wake, LoopHead][1..] == [LoopHead] && [LoopHead][1..] == [];
    assert IsRun(woken, [LoopHead]);
  }

  /** In every state of the run some hold is alive, as far as the counter can tell: it cannot see 2^32 holds. */
  ghost predicate AlwaysHeld(s: State, actions: seq<Action>)
    requires IsRun(s, actions)
    decreases |actions|
  {
    |s.live| % WRAP != 0 && (actions != [] ==> AlwaysHeld(Apply(s, actions[0]), actions[1..]))
  }

  lemma HeldStepKeepsPending(s: State, a: Action, x: Queued)
    requires Inv(s) && Enabled(s, a) && |s.live| % WRAP != 0 && x in s.pending
    ensures x in Apply(s, a).pending
  {
  }

  lemma {:induction false} HeldRunKeepsPending(s: State, actions: seq<Action>, x: Queued)
    requires Inv(s) && IsRun(s, actions) && AlwaysHeld(s, actions) && x in s.pending
    ensures x in After(s, actions).pending
    decreases |actions|
  {
    if actions != [] {
      HeldStepKeepsPending(s, actions[0], x);
      StepPreserves(s, actions[0]);
      HeldRunKeepsPending(Apply(s, actions[0]), actions[1..], x);
    }
  }

  lemma ScheduleQueues(s: State, e: Event)
    requires e.owned
    ensures Apply(s, Schedule(e)).pending == s.pending + [Queued(|s.scheduled|, e)]
  {
  }

  /** An event scheduled under a hold stays out of every batch until the hold counter has returned to zero: whatever
      callers, nested holds and the dispatcher do in between, if it was delivered the number of live holds was once
      zero, or a multiple of 2^32. */
  lemma HoldSafety(before: seq<Action>, e: Event, later: seq<Action>)
    requires IsRun(Init, before) && e.owned
    requires var s := Apply(After(Init, before), Schedule(e)); |s.live| % WRAP != 0 && IsRun(s, later)
    ensures var s := Apply(After(Init, before), Schedule(e));
            var t := After(s, later);
            var k := |After(Init, before).scheduled|;
            && s.holds == |s.live| % WRAP && t.holds == |t.live| % WRAP
            && (IsDelivered(t, k) || k in Serials(Batch(t)) ==> !AlwaysHeld(s, later))
  {
    hide Apply, Nearest, Ordered;
    Reachable(before);
    var r := After(Init, before);
    StepPreserves(r, Schedule(e));
    var s := Apply(r, Schedule(e));
    var x := Queued(|r.scheduled|, e);
    assert s.pending == r.pending + [x] by { ScheduleQueues(r, e); }
    RunPreserves(s, later);
    var t := After(s, later);
    if AlwaysHeld(s, later) {
      HeldRunKeepsPending(s, later, x);
      DecidedHolds(t, x.serial);
    }
  }

  // ---- What a run amounts to ----

  /** The holds alive, the callers yet to notify, the time, and when each delivery was made, by the actions alone. */
  datatype Tally = Tally(live: set<nat>, notifying: int, clock: int, times: seq<int>)

  function Counted(t: Tally, a: Action): Tally {
    match a
    case Tick(d) => t.(clock := t.clock + d)
    case Schedule(e) => if e.owned then t.(notifying := t.notifying + 1) else t
    case Acquire(h) => t.(live := t.live + {h})
    case Release(h) => t.(live := t.live - {h}, notifying := t.notifying + 1)
    case NotifyAll => t.(notifying := t.notifying - 1)
    case Fire => t.(times := t.times + [t.clock])
    case _ => t
  }

  function Counts(t: Tally, actions: seq<Action>): Tally
    decreases |actions|
  {
    if actions == [] then t else Counts(Counted(t, actions[0]), actions[1..])
  }

  ghost predicate Tallies(s: State, t: Tally) {
    && s.live == t.live && s.notifying == t.notifying && s.clock == t.clock
    && |s.delivered| == |t.times| && forall i :: 0 <= i < |t.times| ==> s.delivered[i].at == t.times[i]
  }

  lemma StepTallies(s: State, a: Action, t: Tally)
    requires Enabled(s, a) && Tallies(s, t)
    ensures Tallies(Apply(s, a), Counted(t, a))
  {
    hide Due, NotDue, Nearest;
  }

  /** Over every run: a hold is alive from its acquisition to its release, each scheduling and each release owes one
      notification, and every firing delivers one event, at its own time. */
  lemma {:induction false} RunTallies(s: State, actions: seq<Action>, t: Tally)
    requires IsRun(s, actions) && Tallies(s, t)
    ensures Tallies(After(s, actions), Counts(t, actions))
    decreases |actions|
  {
    if actions != [] {
      StepTallies(s, actions[0], t);
      hide Apply, Counted, Tallies;
      RunTallies(Apply(s, actions[0]), actions[1..], Counted(t, actions[0]));
    }
  }

  /** At the loop head the thread goes to sleep exactly if a hold is seen or nothing is due, forever exactly if a hold
      is seen or the queue is empty; a notification after that marks the sleeper. */
  lemma LoopHeadSleepsOrFires(s: State)
    requires s.phase.Running?
    ensures var t := Apply(s, LoopHead);
            && (t.phase.Asleep? <==> s.holds > 0 || forall x :: x in s.pending ==> x.event.fireAt > s.clock)
            && (t.phase.Asleep? ==>
                  && !t.phase.notified && t.pending == s.pending
                  && (t.phase.deadline.Never? <==> s.holds > 0 || s.pending == []))
            && (!t.phase.Asleep? ==> t.phase.Firing?)
            && (t.phase.Asleep? && s.notifying > 0 ==> Apply(t, NotifyAll).phase == t.phase.(notified := true))
            && (t.phase.Asleep? ==> Apply(t, Wake) == t.(phase := Running))
  {
    ScanParts(s.pending, s.clock);
    NearestIsMinimum(s.pending);
    hide Due, NotDue, Nearest;
    if Due(s.pending, s.clock) != [] {
      assert Due(s.pending, s.clock)[0] in Due(s.pending, s.clock);
    }
  }

  /** The batch has been delivered, one event after another, at this time. */
  ghost predicate Delivers(before: seq<Delivery>, after: seq<Delivery>, batch: seq<Queued>, now: int) {
    && |after| == |before| + |batch| && before <= after
    && forall i :: 0 <= i < |batch| ==> after[|before| + i] == Delivery(batch[i].serial, now)
  }

  function Fires(n: nat): seq<Action> {
    seq(n, _ => Fire)
  }

  lemma {:induction false} FiringDelivers(s: State, n: nat)
    requires s.phase.Firing? && |s.phase.batch| == n > 0
    ensures IsRun(s, Fires(n))
    ensures var t := After(s, Fires(n));
            && t == s.(phase := Running, delivered := t.delivered)
            && Delivers(s.delivered, t.delivered, s.phase.batch, s.clock)
    decreases n
  {
    var u := Apply(s, Fire);
    assert Fires(n)[1..] == Fires(n - 1);
    if n > 1 {
      FiringDelivers(u, n - 1);
    } else {
      assert IsRun(u, Fires(0)) && After(u, Fires(0)) == u;
    }
  }

  lemma PassSplits(s: State, n: nat)
    requires s.phase.Running? && IsRun(Apply(s, LoopHead), Fires(n))
    ensures IsRun(s, [LoopHead] + Fires(n))
    ensures After(s, [LoopHead] + Fires(n)) == After(Apply(s, LoopHead), Fires(n))
  {
    assert ([LoopHead] + Fires(n))[1..] == Fires(n);
    hide Apply;
  }

  lemma BatchIsDelivered(s: State, t: State, batch: seq<Queued>, x: Queued)
    requires Delivers(s.delivered, t.delivered, batch, s.clock) && x in batch
    ensures IsDelivered(t, x.serial)
  {
    var i :| 0 <= i < |batch| && batch[i] == x;
    assert t.delivered[|s.delivered| + i].serial == x.serial;
  }

  /** One pass of the thread without holds delivers everything that is due, once, in the order of scheduling, now; what
      is not due stays, and the thread is back at the loop head. */
  lemma OnePassDeliversAllDue(s: State)
    requires s.phase.Running? && s.holds == 0 && Due(s.pending, s.clock) != []
    ensures var due := Due(s.pending, s.clock);
            && IsRun(s, [LoopHead] + Fires(|due|))
            && var t := After(s, [LoopHead] + Fires(|due|));
               && t == s.(phase := Running, pending := NotDue(s.pending, s.clock), delivered := t.delivered)
               && Delivers(s.delivered, t.delivered, due, s.clock)
  {
    var due := Due(s.pending, s.clock);
    var u := Apply(s, LoopHead);
    assert u == s.(pending := NotDue(s.pending, s.clock), phase := Firing(due));
    hide Due, NotDue, Nearest, Apply;
    FiringDelivers(u, |due|);
    PassSplits(s, |due|);
    hide IsRun, After, Fires, Delivers;
  }

  /** So every due event is delivered by that pass, and no other. */
  lemma DueIsDelivered(s: State, x: Queued)
    requires Inv(s) && s.phase.Running? && s.live == {} && x in s.pending && x.event.fireAt <= s.clock
    ensures Due(s.pending, s.clock) != []
    ensures var pass := [LoopHead] + Fires(|Due(s.pending, s.clock)|);
            IsRun(s, pass) && IsDelivered(After(s, pass), x.serial) && !IsDelivered(s, x.serial)
  {
    ScanParts(s.pending, s.clock);
    DecidedHolds(s, x.serial);
    OnePassDeliversAllDue(s);
    BatchIsDelivered(s, After(s, [LoopHead] + Fires(|Due(s.pending, s.clock)|)), Due(s.pending, s.clock), x);
    hide Due, NotDue, Nearest, Apply, IsRun, After, Fires, Delivers, IsDelivered, Decided;
  }

  // ---- The width of the counter ----

  /** The counter is the number of live holds if and only if there are fewer than 2^32 of them. */
  lemma CounterIsExact(actions: seq<Action>)
    requires IsRun(Init, actions)
    ensures var s := After(Init, actions); s.holds == |s.live| <==> |s.live| < WRAP
  {
    Reachable(actions);
    hide Conserved, Ordered, Timely, WakeupOk;
  }

  lemma {:induction false} RunConcat(s: State, a: seq<Action>, b: seq<Action>)
    requires IsRun(s, a) && IsRun(After(s, a), b)
    ensures IsRun(s, a + b) && After(s, a + b) == After(After(s, a), b)
    decreases |a|
  {
    hide Apply;
    if a == [] {
      assert a + b == b;
    } else {
      assert (a + b)[1..] == a[1..] + b;
      RunConcat(Apply(s, a[0]), a[1..], b);
    }
  }

  lemma OneAction(s: State, a: Action)
    requires Enabled(s, a)
    ensures IsRun(s, [a]) && After(s, [a]) == Apply(s, a)
  {
    hide Apply;
    assert [a][1..] == [];
    assert IsRun(Apply(s, a), []) && After(Apply(s, a), []) == Apply(s, a);
  }

  lemma {:induction false} ManyHolds(n: nat) returns (actions: seq<Action>)
    ensures IsRun(Init, actions)
    ensures var s := After(Init, actions);
            |s.live| == n && (forall h :: h in s.live ==> h < n) && s == Init.(holds := n % WRAP, live := s.live)
    decreases n
  {
    if n == 0 {
      actions := [];
    } else {
      var front := ManyHolds(n - 1);
      var s := After(Init, front);
      var a := Acquire(n - 1);
      CountsUp(s.live, n - 1);
      assert Apply(s, a) == Init.(holds := n % WRAP, live := s.live + {n - 1});
      OneAction(s, a);
      RunConcat(Init, front, [a]);
      actions := front + [a];
    }
  }

  /** With 2^32 holds alive the counter reads zero, and a due event is taken into a batch under all of them. */
  lemma HoldsBeyondTheCounter(e: Event) returns (actions: seq<Action>)
    requires e.owned && e.fireAt <= 0
    ensures IsRun(Init, actions)
    ensures var s := After(Init, actions); |s.live| == WRAP && s.holds == 0 && s.phase == Firing([Queued(0, e)])
  {
    var front := ManyHolds(WRAP);
    var s := After(Init, front);
    var t := Apply(s, Schedule(e));
    assert t.pending == [Queued(0, e)];
    ScanOne(Queued(0, e), t.clock);
    var u := Apply(t, LoopHead);
    assert u.phase == Firing([Queued(0, e)]) && u.live == s.live && u.holds == 0;
    OneAction(s, Schedule(e));
    OneAction(t, LoopHead);
    hide Apply;
    RunConcat(s, [Schedule(e)], [LoopHead]);
    RunConcat(Init, front, [Schedule(e)] + [LoopHead]);
    actions := front + ([Schedule(e)] + [LoopHead]);
  }

  // ---- The shared state and its mutex-protected regions ----

  /** The process-wide dispatcher state. The queue, the hold counter and the thread's place are real; the rest
      records what the environment has done. */
  class EventDispatcher {
    var pendingEvents: seq<Queued>
    var dispatchHolds: u32
    var phase: Phase
    var nextSerial: nat
    ghost var clock: int
    ghost var live: set<nat>
    ghost var notifying: nat
    ghost var scheduled: seq<Event>
    ghost var delivered: seq<Delivery>

    ghost function View(): State
      reads this
    {
      State(clock, pendingEvents, dispatchHolds, live, notifying, phase, scheduled, delivered)
    }

    ghost predicate Valid()
      reads this
    {
      Inv(View()) && nextSerial == |scheduled|
    }

    constructor ()
      ensures Valid() && View() == Init
    {
      pendingEvents, dispatchHolds, phase, nextSerial := [], 0, Running, 0;
      clock, live, notifying, scheduled, delivered := 0, {}, 0, [], [];
      new;
      assert View() == Init;
    }

    method QueueEvent(e: Event)
      requires Valid()
      modifies this
      ensures Valid() && View() == Apply(old(View()), Schedule(e))
    {
      hide Inv;
      StepPreserves(View(), Schedule(e));
      if !e.owned {
        return;
      }
      pendingEvents := pendingEvents + [Queued(nextSerial, e)];
      nextSerial := nextSerial + 1;
      scheduled := scheduled + [e];
      notifying := notifying + 1;
    }

    method AcquireHold(h: nat)
      requires Valid() && h !in live
      modifies this
      ensures Valid() && Enabled(old(View()), Acquire(h)) && View() == Apply(old(View()), Acquire(h))
    {
      hide Inv;
      StepPreserves(View(), Acquire(h));
      dispatchHolds := ToU32(dispatchHolds + 1);
      live := live + {h};
    }

    method ReleaseHold(h: nat)
      requires Valid() && h in live
      modifies this
      ensures Valid() && Enabled(old(View()), Release(h)) && View() == Apply(old(View()), Release(h))
    {
      StepPreserves(View(), Release(h));
      dispatchHolds := ToU32(dispatchHolds - 1);
      live := live - {h};
      notifying := notifying + 1;
    }

    method Notify()
      requires Valid() && notifying > 0
      modifies this
      ensures Valid() && View() == Apply(old(View()), NotifyAll)
    {
      hide Inv;
      StepPreserves(View(), NotifyAll);
      notifying := notifying - 1;
      if phase.Asleep? {
        phase := phase.(notified := true);
      }
    }

    /** From taking the mutex at the loop head to giving it up again: sleep, or leave with what is due. */
    method RunLoopHead(now: int)
      requires Valid() && phase.Running? && now == clock
      modifies this
      ensures Valid() && View() == Apply(old(View()), LoopHead)
    {
      hide Inv, Due, NotDue, Nearest;
      StepPreserves(View(), LoopHead);
      if dispatchHolds > 0 {
        phase := Asleep(Never, false);
        return;
      }
      var ready, nearest := ScanQueue(now);
      if ready != [] {
        phase := Firing(ready);
      } else {
        NothingDue(old(pendingEvents), now);
        phase := Asleep(nearest, false);
      }
    }

    /** The scan erases what is due from the queue, in place, and keeps the earliest remaining deadline. */
    method ScanQueue(now: int) returns (ready: seq<Queued>, nearest: Deadline)
      modifies this`pendingEvents
      ensures ready == Due(old(pendingEvents), now)
      ensures pendingEvents == NotDue(old(pendingEvents), now) && nearest == Nearest(pendingEvents)
    {
      hide Due, NotDue, Nearest;
      ready, nearest := [], Never;
      ScanNone(now);
      ghost var done: seq<Queued> := [];
      var it := 0;
      while it < |pendingEvents|
        invariant it <= |pendingEvents|
        invariant done + pendingEvents[it..] == old(pendingEvents)
        invariant ready == Due(done, now) && pendingEvents[..it] == NotDue(done, now)
        invariant nearest == Nearest(pendingEvents[..it])
        decreases |pendingEvents| - it
      {
        var ev := pendingEvents[it];
        ghost var rest := pendingEvents[it + 1..];
        ghost var kept := pendingEvents[..it];
        ScanAppend(done, ev, now);
        ScanOne(ev, now);
        NearestAppend(kept, ev);
        assert done + pendingEvents[it..] == (done + [ev]) + rest;
        if ev.event.fireAt <= now {
          ready := ready + [ev];
          pendingEvents := pendingEvents[..it] + pendingEvents[it + 1..];
          assert pendingEvents[it..] == rest && pendingEvents[..it] == kept;
        } else {
          nearest := Sooner(nearest, ev.event.fireAt);
          it := it + 1;
          assert pendingEvents[..it] == kept + [ev] && pendingEvents[it..] == rest;
        }
        done := done + [ev];
      }
      assert pendingEvents[..it] == pendingEvents && done == old(pendingEvents);
    }

    /** One callback of the batch, outside the mutex. */
    method FireNext(now: int) returns (ev: Queued)
      requires Valid() && phase.Firing? && now == clock
      modifies this
      ensures Valid() && Enabled(old(View()), Fire) && View() == Apply(old(View()), Fire)
      ensures ev == old(phase).batch[0]
    {
      StepPreserves(View(), Fire);
      ev := phase.batch[0];
      delivered := delivered + [Delivery(ev.serial, now)];
      phase := if |phase.batch| == 1 then Running else Firing(phase.batch[1..]);
    }
  }

  lemma {:induction false} NothingDue(q: seq<Queued>, now: int)
    requires Due(q, now) == []
    ensures NotDue(q, now) == q
  {
    if q != [] {
      NothingDue(q[1..], now);
    }
  }
}
