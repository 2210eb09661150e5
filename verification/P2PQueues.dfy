/** One datagram socket shared by three byte-bounded channels. */
module P2PQueues {
  import opened Options
  import opened Widths

  const SIGNALING: nat := 0
  const CONTROL: nat := 1
  const MATCHING2: nat := 2
  const CHANNEL_COUNT: nat := 3

  const CHANNEL_QUEUE_BYTES: nat := 40 * 1024
  const RECV_BUFFER_SIZE: nat := 2048

  datatype Packet = Packet(data: seq<u8>, addr: u32, port: u16)

  /** "SHAD" */
  const TAG: seq<u8> := [0x53, 0x48, 0x41, 0x44]

  function Classify(data: seq<u8>): (c: nat)
    ensures c < CHANNEL_COUNT
    ensures c == CONTROL <==> |data| >= 5 && data[..4] == TAG && data[4] == 0x10
    ensures c == MATCHING2 <==> |data| >= 5 && data[..4] == TAG && data[4] == 0x21
  {
    if |data| < 5 || data[..4] != TAG then SIGNALING
    else if data[4] == 0x10 then CONTROL
    else if data[4] == 0x21 then MATCHING2
    else SIGNALING
  }

  /** The receive buffer cuts longer datagrams off. */
  function Received(p: Packet): Packet {
    if |p.data| <= RECV_BUFFER_SIZE then p else p.(data := p.data[..RECV_BUFFER_SIZE])
  }

  // ---- One channel ----

  datatype Chan = Chan(queue: seq<Packet>, bytes: nat)

  const Empty := Chan([], 0)

  datatype ChanOp = Arrive(packet: Packet) | Pop | Clear

  predicate Fits(ch: Chan, p: Packet) {
    ch.bytes + |p.data| <= CHANNEL_QUEUE_BYTES
  }

  function Push(ch: Chan, p: Packet): Chan {
    if Fits(ch, p) then Chan(ch.queue + [p], ch.bytes + |p.data|) else ch
  }

  function DropHead(ch: Chan): Chan {
    if ch.queue == [] then ch
    else Chan(ch.queue[1..], if |ch.queue[0].data| <= ch.bytes then ch.bytes - |ch.queue[0].data| else 0)
  }

  function ChanStep(ch: Chan, op: ChanOp): Chan {
    match op
    case Arrive(p) => Push(ch, p)
    case Pop => DropHead(ch)
    case Clear => Empty
  }

  function ChanRun(ch: Chan, ops: seq<ChanOp>): Chan
    decreases |ops|
  {
    if ops == [] then ch else ChanRun(ChanStep(ch, ops[0]), ops[1..])
  }

  /** What a pop hands out. */
  function Handed(ch: Chan, op: ChanOp): seq<Packet> {
    if op.Pop? && ch.queue != [] then [ch.queue[0]] else []
  }

  function Delivered(ch: Chan, ops: seq<ChanOp>): seq<Packet>
    decreases |ops|
  {
    if ops == [] then [] else Handed(ch, ops[0]) + Delivered(ChanStep(ch, ops[0]), ops[1..])
  }

  function Arrived(ops: seq<ChanOp>): seq<Packet>
    decreases |ops|
  {
    if ops == [] then []
    else (if ops[0].Arrive? then [ops[0].packet] else []) + Arrived(ops[1..])
  }

  /** The arrivals that were let in. */
  function Accepted(ch: Chan, ops: seq<ChanOp>): seq<Packet>
    decreases |ops|
  {
    if ops == [] then []
    else (if ops[0].Arrive? && Fits(ch, ops[0].packet) then [ops[0].packet] else [])
         + Accepted(ChanStep(ch, ops[0]), ops[1..])
  }

  function TotalBytes(q: seq<Packet>): nat {
    if q == [] then 0 else |q[0].data| + TotalBytes(q[1..])
  }

  lemma {:induction false} TotalBytesPush(q: seq<Packet>, p: Packet)
    ensures TotalBytes(q + [p]) == TotalBytes(q) + |p.data|
  {
    if q == [] {
      assert [p][1..] == [];
    } else {
      assert (q + [p])[1..] == q[1..] + [p];
      TotalBytesPush(q[1..], p);
    }
  }

  ghost predicate Ok(ch: Chan) {
    ch.bytes == TotalBytes(ch.queue) <= CHANNEL_QUEUE_BYTES
  }

  lemma ChanStepOk(ch: Chan, op: ChanOp)
    requires Ok(ch)
    ensures Ok(ChanStep(ch, op))
  {
    if op.Arrive? {
      TotalBytesPush(ch.queue, op.packet);
    }
  }

  /** Over every run the counter is the total size of the queued packets and stays within the bound; so an arrival is
      dropped exactly if it would exceed the bound. */
  lemma {:induction false} BytesAreBounded(ch: Chan, ops: seq<ChanOp>)
    requires Ok(ch)
    ensures Ok(ChanRun(ch, ops))
    ensures forall p :: Fits(ChanRun(ch, ops), p) <==>
              TotalBytes(ChanRun(ch, ops).queue) + |p.data| <= CHANNEL_QUEUE_BYTES
    decreases |ops|
  {
    if ops != [] {
      ChanStepOk(ch, ops[0]);
      BytesAreBounded(ChanStep(ch, ops[0]), ops[1..]);
    }
  }

  /** First in, first out: without a stop, what came out followed by what is queued is what was queued followed by
      what was let in. */
  lemma {:induction false} FirstInFirstOut(ch: Chan, ops: seq<ChanOp>)
    requires Clear !in ops
    ensures Delivered(ch, ops) + ChanRun(ch, ops).queue == ch.queue + Accepted(ch, ops)
    decreases |ops|
  {
    if ops != [] {
      var next, rest := ChanStep(ch, ops[0]), ops[1..];
      assert ops[0] in ops;
      FirstInFirstOut(next, rest);
      hide Delivered, Accepted, ChanRun;
      var d, a, q := Delivered(next, rest), Accepted(next, rest), ChanRun(next, rest).queue;
      FifoStep(ch, ops[0], d, a, q);
    }
    assert Delivered(ch, ops) + ChanRun(ch, ops).queue == ch.queue + Accepted(ch, ops);
  }

  lemma FifoStep(ch: Chan, op: ChanOp, d: seq<Packet>, a: seq<Packet>, q: seq<Packet>)
    requires op != Clear && d + q == ChanStep(ch, op).queue + a
    ensures Handed(ch, op) + d + q == ch.queue + ((if op.Arrive? && Fits(ch, op.packet) then [op.packet] else []) + a)
  {
    assert Handed(ch, op) + d + q == Handed(ch, op) + (d + q);
    if op.Pop? && ch.queue != [] {
      assert ch.queue == [ch.queue[0]] + ch.queue[1..];
    }
  }

  // ---- Order, also across stops ----

  ghost predicate Subsequence<T>(a: seq<T>, b: seq<T>)
    decreases |b|
  {
    || a == []
    || (b != [] && ((a[0] == b[0] && Subsequence(a[1..], b[1..])) || Subsequence(a, b[1..])))
  }

  lemma {:induction false} SubsequenceInsert<T>(a: seq<T>, x: seq<T>, m: seq<T>, y: seq<T>)
    requires Subsequence(a, x + y)
    ensures Subsequence(a, x + m + y)
    decreases |x| + |m|
  {
    if a == [] {
    } else if x == [] {
      assert x + y == y;
      if m == [] {
        assert x + m + y == y;
      } else {
        SubsequenceInsert(a, [], m[1..], y);
        assert [] + m[1..] + y == (x + m + y)[1..];
      }
    } else {
      assert (x + y)[1..] == x[1..] + y;
      assert (x + m + y)[1..] == x[1..] + m + y;
      if a[0] == x[0] && Subsequence(a[1..], x[1..] + y) {
        SubsequenceInsert(a[1..], x[1..], m, y);
      } else {
        SubsequenceInsert(a, x[1..], m, y);
      }
    }
  }

  /** In every run, stops included, packets come out as a subsequence of what was queued and then arrived. */
  lemma {:induction false} DeliveredInOrder(ch: Chan, ops: seq<ChanOp>)
    ensures Subsequence(Delivered(ch, ops), ch.queue + Arrived(ops))
    decreases |ops|
  {
    if ops != [] {
      var next, rest := ChanStep(ch, ops[0]), ops[1..];
      var arrival := if ops[0].Arrive? then [ops[0].packet] else [];
      assert Delivered(ch, ops) == Handed(ch, ops[0]) + Delivered(next, rest);
      assert Arrived(ops) == arrival + Arrived(rest);
      hide Delivered, Arrived, Subsequence, ChanStep, Handed;
      DeliveredInOrder(next, rest);
      DeliveredStep(ch, ops[0], Delivered(next, rest), Arrived(rest));
      assert ch.queue + (arrival + Arrived(rest)) == ch.queue + arrival + Arrived(rest);
    }
  }

  lemma DeliveredStep(ch: Chan, op: ChanOp, d: seq<Packet>, a: seq<Packet>)
    requires Subsequence(d, ChanStep(ch, op).queue + a)
    ensures Subsequence(Handed(ch, op) + d, ch.queue + (if op.Arrive? then [op.packet] else []) + a)
  {
    var q := ch.queue;
    match op
    case Arrive(p) =>
      assert Handed(ch, op) + d == d;
      if !Fits(ch, p) {
        SubsequenceInsert(d, q, [p], a);
      }
    case Pop =>
      assert q + [] + a == q + a;
      if q != [] {
        assert (q + a)[1..] == q[1..] + a;
        assert ([q[0]] + d)[1..] == d;
        assert Handed(ch, op) + d == [q[0]] + d;
      } else {
        assert Handed(ch, op) + d == d;
      }
    case Clear =>
      assert Handed(ch, op) + d == d;
      assert q + [] + a == [] + q + a;
      SubsequenceInsert(d, [], q, a);
  }

  // ---- The transport ----

  datatype Op =
    | Recv(channel: nat, arrivals: seq<Packet>)
    | Stop

  function DrainOne(s: seq<Chan>, p: Packet): seq<Chan>
    requires |s| == CHANNEL_COUNT
  {
    var c := Classify(Received(p).data);
    s[c := Push(s[c], Received(p))]
  }

  /** Reading the socket until it is empty. */
  function Drain(s: seq<Chan>, arrivals: seq<Packet>): (t: seq<Chan>)
    requires |s| == CHANNEL_COUNT
    ensures |t| == CHANNEL_COUNT
    decreases |arrivals|
  {
    if arrivals == [] then s else Drain(DrainOne(s, arrivals[0]), arrivals[1..])
  }

  function Apply(s: seq<Chan>, op: Op): (t: seq<Chan>)
    requires |s| == CHANNEL_COUNT
    ensures |t| == CHANNEL_COUNT
  {
    match op
    case Recv(c, arrivals) =>
      var drained := Drain(s, arrivals);
      if c < CHANNEL_COUNT then drained[c := DropHead(drained[c])] else drained
    case Stop => seq(CHANNEL_COUNT, _ => Empty)
  }

  function Run(s: seq<Chan>, ops: seq<Op>): (t: seq<Chan>)
    requires |s| == CHANNEL_COUNT
    ensures |t| == CHANNEL_COUNT
    decreases |ops|
  {
    if ops == [] then s else Run(Apply(s, ops[0]), ops[1..])
  }

  /** The packet handed out by an operation, with its channel. */
  function Result(s: seq<Chan>, op: Op): Option<Packet>
    requires |s| == CHANNEL_COUNT
  {
    if op.Stop? || op.channel >= CHANNEL_COUNT then None
    else
      var q := Drain(s, op.arrivals)[op.channel].queue;
      if q == [] then None else Some(q[0])
  }

  /** What a caller reading only channel `c` is given over a run. */
  function ResultsOn(s: seq<Chan>, ops: seq<Op>, c: nat): seq<Packet>
    requires |s| == CHANNEL_COUNT
    decreases |ops|
  {
    if ops == [] then []
    else
      var r := Result(s, ops[0]);
      (if r.Some? && ops[0].Recv? && ops[0].channel == c then [r.value] else [])
      + ResultsOn(Apply(s, ops[0]), ops[1..], c)
  }

  // ---- Channels do not interfere ----

  function ArrivalsOn(arrivals: seq<Packet>, c: nat): seq<ChanOp> {
    if arrivals == [] then []
    else (if Classify(Received(arrivals[0]).data) == c then [Arrive(Received(arrivals[0]))] else [])
         + ArrivalsOn(arrivals[1..], c)
  }

  /** What one channel sees of an operation. */
  function ProjectOp(op: Op, c: nat): seq<ChanOp> {
    match op
    case Recv(d, arrivals) => ArrivalsOn(arrivals, c) + (if d == c then [Pop] else [])
    case Stop => [Clear]
  }

  function Project(ops: seq<Op>, c: nat): seq<ChanOp>
    decreases |ops|
  {
    if ops == [] then [] else ProjectOp(ops[0], c) + Project(ops[1..], c)
  }

  lemma {:induction false} ChanRunConcat(ch: Chan, a: seq<ChanOp>, b: seq<ChanOp>)
    ensures ChanRun(ch, a + b) == ChanRun(ChanRun(ch, a), b)
    ensures Delivered(ch, a + b) == Delivered(ch, a) + Delivered(ChanRun(ch, a), b)
    decreases |a|
  {
    if a == [] {
      assert a + b == b;
    } else {
      assert (a + b)[1..] == a[1..] + b;
      ChanRunConcat(ChanStep(ch, a[0]), a[1..], b);
      assert (a + b)[0] == a[0];
    }
  }

  lemma {:induction false} DrainProjects(s: seq<Chan>, arrivals: seq<Packet>, c: nat)
    requires |s| == CHANNEL_COUNT && c < CHANNEL_COUNT
    ensures Drain(s, arrivals)[c] == ChanRun(s[c], ArrivalsOn(arrivals, c))
    ensures Delivered(s[c], ArrivalsOn(arrivals, c)) == []
    decreases |arrivals|
  {
    if arrivals != [] {
      DrainProjects(DrainOne(s, arrivals[0]), arrivals[1..], c);
      var rest := ArrivalsOn(arrivals[1..], c);
      if Classify(Received(arrivals[0]).data) == c {
        assert ArrivalsOn(arrivals, c)[1..] == rest;
      } else {
        assert ArrivalsOn(arrivals, c) == rest;
      }
    }
  }

  lemma StepProjects(s: seq<Chan>, op: Op, c: nat)
    requires |s| == CHANNEL_COUNT && c < CHANNEL_COUNT
    ensures Apply(s, op)[c] == ChanRun(s[c], ProjectOp(op, c))
    ensures Delivered(s[c], ProjectOp(op, c)) ==
              if op.Recv? && op.channel == c && Result(s, op).Some? then [Result(s, op).value] else []
  {
    match op
    case Recv(d, arrivals) =>
      DrainProjects(s, arrivals, c);
      var ops := ArrivalsOn(arrivals, c);
      hide Drain, ArrivalsOn;
      if d == c {
        ChanRunConcat(s[c], ops, [Pop]);
        assert [Pop][1..] == [];
      } else {
        assert ops + [] == ops;
      }
    case Stop =>
      assert [Clear][1..] == [];
  }

  /** A channel's contents, and what its readers are given, are those of a channel of its own that sees only the
      packets classified to it, its own reads, and the stops. */
  lemma {:induction false} ChannelsDoNotInterfere(s: seq<Chan>, ops: seq<Op>, c: nat)
    requires |s| == CHANNEL_COUNT && c < CHANNEL_COUNT
    ensures Run(s, ops)[c] == ChanRun(s[c], Project(ops, c))
    ensures ResultsOn(s, ops, c) == Delivered(s[c], Project(ops, c))
    decreases |ops|
  {
    if ops != [] {
      StepProjects(s, ops[0], c);
      hide Apply, ProjectOp, ChanRun, Delivered, Result;
      ChannelsDoNotInterfere(Apply(s, ops[0]), ops[1..], c);
      ChanRunConcat(s[c], ProjectOp(ops[0], c), Project(ops[1..], c));
    } else {
      hide Apply, ProjectOp, Result;
    }
  }

  /** So the readers of a channel get a subsequence of the packets classified to it, whatever the other channels do. */
  lemma ReadersGetTheirPacketsInOrder(ops: seq<Op>, c: nat)
    requires c < CHANNEL_COUNT
    ensures var s := seq(CHANNEL_COUNT, _ => Empty);
            && Subsequence(ResultsOn(s, ops, c), Arrived(Project(ops, c)))
            && Ok(Run(s, ops)[c])
  {
    var s := seq(CHANNEL_COUNT, _ => Empty);
    ChannelsDoNotInterfere(s, ops, c);
    DeliveredInOrder(Empty, Project(ops, c));
    assert Empty.queue + Arrived(Project(ops, c)) == Arrived(Project(ops, c));
    BytesAreBounded(Empty, Project(ops, c));
  }

  // ---- From the socket to the readers ----

  /** The datagrams for channel `c` that the socket hands out over a run, as they were sent. */
  function SentOn(ops: seq<Op>, c: nat): seq<Packet>
    decreases |ops|
  {
    if ops == [] then []
    else (if ops[0].Recv? then Only(ops[0].arrivals, c) else []) + SentOn(ops[1..], c)
  }

  function Only(arrivals: seq<Packet>, c: nat): seq<Packet> {
    if arrivals == [] then []
    else (if Classify(arrivals[0].data) == c then [arrivals[0]] else []) + Only(arrivals[1..], c)
  }

  /** Sender and bytes of a datagram, as many bytes as the receive buffer takes. */
  predicate Carries(p: Packet, sent: Packet) {
    && p.addr == sent.addr && p.port == sent.port
    && p.data == sent.data[..if |sent.data| < 2048 then |sent.data| else 2048]
  }

  ghost predicate AllCarry(a: seq<Packet>, b: seq<Packet>) {
    |a| == |b| && forall i :: 0 <= i < |a| ==> Carries(a[i], b[i])
  }

  /** a comes from b in order: some entries may be missing, none is made up. */
  ghost predicate ComeFrom(a: seq<Packet>, b: seq<Packet>)
    decreases |b|
  {
    || a == []
    || (b != [] && ((Carries(a[0], b[0]) && ComeFrom(a[1..], b[1..])) || ComeFrom(a, b[1..])))
  }

  lemma {:induction false} SubsequenceComesFrom(a: seq<Packet>, m: seq<Packet>, b: seq<Packet>)
    requires Subsequence(a, m) && AllCarry(m, b)
    ensures ComeFrom(a, b)
    decreases |m|
  {
    if a != [] {
      hide Carries;
      assert AllCarry(m[1..], b[1..]) && Carries(m[0], b[0]);
      if a[0] == m[0] && Subsequence(a[1..], m[1..]) {
        SubsequenceComesFrom(a[1..], m[1..], b[1..]);
      } else {
        SubsequenceComesFrom(a, m[1..], b[1..]);
      }
    }
  }

  lemma CutKeepsChannel(p: Packet)
    ensures Classify(Received(p).data) == Classify(p.data) && Carries(Received(p), p)
  {
    if |p.data| > RECV_BUFFER_SIZE {
      assert p.data[..RECV_BUFFER_SIZE][..4] == p.data[..4];
    }
  }

  lemma CarryConcat(a: seq<Packet>, b: seq<Packet>, a': seq<Packet>, b': seq<Packet>)
    requires AllCarry(a, b) && AllCarry(a', b')
    ensures AllCarry(a + a', b + b')
  {
    hide Carries;
  }

  lemma {:induction false} OnlyCarry(arrivals: seq<Packet>, c: nat)
    ensures AllCarry(Arrived(ArrivalsOn(arrivals, c)), Only(arrivals, c))
  {
    if arrivals != [] {
      var p, rest := arrivals[0], ArrivalsOn(arrivals[1..], c);
      var first := if Classify(p.data) == c then [Arrive(Received(p))] else [];
      OnlyCarry(arrivals[1..], c);
      CutKeepsChannel(p);
      ArrivedConcat(first, rest);
      assert first != [] ==> first[1..] == [] && Arrived(first) == [Received(p)] + [];
      assert ArrivalsOn(arrivals, c) == first + rest;
      hide Classify, Received, Carries, Only, Arrived, ArrivalsOn;
      CarryConcat(Arrived(first), if Classify(p.data) == c then [p] else [], Arrived(rest), Only(arrivals[1..], c));
      OnlyUnfolds(arrivals, c);
    }
  }

  lemma OnlyUnfolds(arrivals: seq<Packet>, c: nat)
    requires arrivals != []
    ensures Only(arrivals, c) ==
              (if Classify(arrivals[0].data) == c then [arrivals[0]] else []) + Only(arrivals[1..], c)
  {
  }

  lemma {:induction false} ArrivedConcat(a: seq<ChanOp>, b: seq<ChanOp>)
    ensures Arrived(a + b) == Arrived(a) + Arrived(b)
  {
    if a == [] {
      assert a + b == b;
    } else {
      assert (a + b)[1..] == a[1..] + b && (a + b)[0] == a[0];
      ArrivedConcat(a[1..], b);
    }
  }

  lemma OpCarries(op: Op, c: nat)
    ensures AllCarry(Arrived(ProjectOp(op, c)), if op.Recv? then Only(op.arrivals, c) else [])
  {
    match op
    case Recv(d, arrivals) =>
      OnlyCarry(arrivals, c);
      var last := if d == c then [Pop] else [];
      ArrivedConcat(ArrivalsOn(arrivals, c), last);
      assert Arrived(last) == [];
      hide Arrived, ArrivalsOn, Only, Carries;
    case Stop =>
      assert [Clear][1..] == [];
  }

  lemma {:induction false} ProjectCarries(ops: seq<Op>, c: nat)
    ensures AllCarry(Arrived(Project(ops, c)), SentOn(ops, c))
    decreases |ops|
  {
    if ops != [] {
      ProjectCarries(ops[1..], c);
      OpCarries(ops[0], c);
      hide Arrived, Only, ProjectOp, AllCarry;
      ArrivedConcat(ProjectOp(ops[0], c), Project(ops[1..], c));
      CarryConcat(Arrived(ProjectOp(ops[0], c)), if ops[0].Recv? then Only(ops[0].arrivals, c) else [],
                  Arrived(Project(ops[1..], c)), SentOn(ops[1..], c));
    }
  }

  /** The readers of a channel are given datagrams sent on that channel, in the order of their arrival, each with its
      sender and its first 2048 bytes. */
  lemma ReadersGetWhatWasSent(ops: seq<Op>, c: nat)
    requires c < CHANNEL_COUNT
    ensures ComeFrom(ResultsOn(seq(CHANNEL_COUNT, _ => Empty), ops, c), SentOn(ops, c))
  {
    ReadersGetTheirPacketsInOrder(ops, c);
    ProjectCarries(ops, c);
    SubsequenceComesFrom(ResultsOn(seq(CHANNEL_COUNT, _ => Empty), ops, c), Arrived(Project(ops, c)), SentOn(ops, c));
  }

  /** Nothing is dropped as long as everything that arrives would fit at once. */
  lemma {:induction false} AllLetIn(ch: Chan, ops: seq<ChanOp>)
    requires Ok(ch) && ch.bytes + TotalBytes(Arrived(ops)) <= CHANNEL_QUEUE_BYTES
    ensures Accepted(ch, ops) == Arrived(ops)
    decreases |ops|
  {
    if ops != [] {
      ChanStepOk(ch, ops[0]);
      var later := Arrived(ops[1..]);
      if ops[0].Arrive? {
        assert Arrived(ops) == [ops[0].packet] + later && ([ops[0].packet] + later)[1..] == later;
      } else {
        assert Arrived(ops) == [] + later == later;
      }
      AllLetIn(ChanStep(ch, ops[0]), ops[1..]);
    }
  }

  lemma {:induction false} ProjectHasNoClear(ops: seq<Op>, c: nat)
    requires Stop !in ops
    ensures Clear !in Project(ops, c)
    decreases |ops|
  {
    if ops != [] {
      assert ops[0] in ops;
      ProjectHasNoClear(ops[1..], c);
      OnlyArrivals(ops[0].arrivals, c);
      hide ArrivalsOn;
    }
  }

  lemma {:induction false} OnlyArrivals(arrivals: seq<Packet>, c: nat)
    ensures forall op :: op in ArrivalsOn(arrivals, c) ==> op.Arrive?
  {
    if arrivals != [] {
      OnlyArrivals(arrivals[1..], c);
    }
  }

  /** And none of them is lost: without a stop, and as long as the channel's datagrams fit its bound together, what the
      readers were given followed by what is queued is everything sent on the channel. */
  lemma NothingIsLostWithinTheBound(ops: seq<Op>, c: nat)
    requires c < CHANNEL_COUNT && Stop !in ops && TotalBytes(SentOn(ops, c)) <= 40 * 1024
    ensures var s := seq(CHANNEL_COUNT, _ => Empty);
            AllCarry(ResultsOn(s, ops, c) + Run(s, ops)[c].queue, SentOn(ops, c))
  {
    var s, own := seq(CHANNEL_COUNT, _ => Empty), Project(ops, c);
    ChannelsDoNotInterfere(s, ops, c);
    ProjectHasNoClear(ops, c);
    FirstInFirstOut(Empty, own);
    ProjectCarries(ops, c);
    CarriedBytes(Arrived(own), SentOn(ops, c));
    AllLetIn(Empty, own);
    assert Empty.queue + Accepted(Empty, own) == Arrived(own);
  }

  lemma {:induction false} CarriedBytes(a: seq<Packet>, b: seq<Packet>)
    requires AllCarry(a, b)
    ensures TotalBytes(a) <= TotalBytes(b)
  {
    if a != [] {
      assert Carries(a[0], b[0]) && AllCarry(a[1..], b[1..]);
      CarriedBytes(a[1..], b[1..]);
    }
  }

  // ---- How many packets ----

  ghost predicate AllOn(q: seq<Packet>, c: nat) {
    forall i :: 0 <= i < |q| ==> Classify(q[i].data) == c
  }

  lemma {:induction false} DrainClassifies(s: seq<Chan>, arrivals: seq<Packet>)
    requires |s| == CHANNEL_COUNT && forall c :: 0 <= c < CHANNEL_COUNT ==> AllOn(s[c].queue, c)
    ensures forall c :: 0 <= c < CHANNEL_COUNT ==> AllOn(Drain(s, arrivals)[c].queue, c)
    decreases |arrivals|
  {
    if arrivals != [] {
      hide Classify, Received;
      DrainClassifies(DrainOne(s, arrivals[0]), arrivals[1..]);
    }
  }

  lemma {:induction false} RunClassifies(s: seq<Chan>, ops: seq<Op>)
    requires |s| == CHANNEL_COUNT && forall c :: 0 <= c < CHANNEL_COUNT ==> AllOn(s[c].queue, c)
    ensures forall c :: 0 <= c < CHANNEL_COUNT ==> AllOn(Run(s, ops)[c].queue, c)
    decreases |ops|
  {
    if ops != [] {
      hide Classify, Drain;
      if ops[0].Recv? { DrainClassifies(s, ops[0].arrivals); }
      RunClassifies(Apply(s, ops[0]), ops[1..]);
    }
  }

  lemma {:induction false} FiveBytesEach(q: seq<Packet>, c: nat)
    requires AllOn(q, c) && c != SIGNALING
    ensures 5 * |q| <= TotalBytes(q)
  {
    if q != [] {
      assert Classify(q[0].data) == c;
      assert forall i :: 0 <= i < |q| - 1 ==> q[1..][i] == q[i + 1];
      FiveBytesEach(q[1..], c);
    }
  }

  /** The byte bound also bounds the number of packets on the two tagged channels. */
  lemma TaggedChannelsAreShort(ops: seq<Op>, c: nat)
    requires c == CONTROL || c == MATCHING2
    ensures |Run(seq(CHANNEL_COUNT, _ => Empty), ops)[c].queue| <= CHANNEL_QUEUE_BYTES / 5
  {
    var s := seq(CHANNEL_COUNT, _ => Empty);
    RunClassifies(s, ops);
    ReadersGetTheirPacketsInOrder(ops, c);
    FiveBytesEach(Run(s, ops)[c].queue, c);
  }

  /** On the signalling channel it does not: empty datagrams pile up without limit. */
  lemma {:induction false} EmptyDatagramsPileUp(s: seq<Chan>, n: nat)
    requires |s| == CHANNEL_COUNT && Ok(s[SIGNALING])
    ensures var arrivals := seq(n, _ => Packet([], 0, 0));
            |Drain(s, arrivals)[SIGNALING].queue| == |s[SIGNALING].queue| + n
    decreases n
  {
    var p := Packet([], 0, 0);
    var arrivals := seq(n, _ => p);
    if n > 0 {
      assert arrivals[1..] == seq(n - 1, _ => p);
      ChanStepOk(s[SIGNALING], Arrive(p));
      EmptyDatagramsPileUp(DrainOne(s, p), n - 1);
    }
  }

  // ---- The object ----

  class P2PTransport {
    const queues: array<seq<Packet>>
    const queueBytes: array<nat>

    ghost predicate Valid()
      reads this, queues, queueBytes
    {
      && queues.Length == CHANNEL_COUNT && queueBytes.Length == CHANNEL_COUNT
      && forall c :: 0 <= c < CHANNEL_COUNT ==> Ok(Chan(queues[c], queueBytes[c]))
    }

    ghost function View(): (s: seq<Chan>)
      requires queues.Length == CHANNEL_COUNT && queueBytes.Length == CHANNEL_COUNT
      reads this, queues, queueBytes
      ensures |s| == CHANNEL_COUNT
      ensures forall c :: 0 <= c < CHANNEL_COUNT ==> s[c] == Chan(queues[c], queueBytes[c])
    {
      [Chan(queues[0], queueBytes[0]), Chan(queues[1], queueBytes[1]), Chan(queues[2], queueBytes[2])]
    }

    constructor ()
      ensures Valid() && View() == [Empty, Empty, Empty] && fresh(queues) && fresh(queueBytes)
    {
      queues := new seq<Packet>[CHANNEL_COUNT](_ => []);
      queueBytes := new nat[CHANNEL_COUNT](_ => 0);
    }

    method StopLocked()
      requires Valid()
      modifies queues, queueBytes
      ensures Valid() && View() == Apply(old(View()), Stop)
    {
      for i := 0 to CHANNEL_COUNT
        invariant forall c :: 0 <= c < i ==> queues[c] == [] && queueBytes[c] == 0
      {
        queues[i] := [];
        queueBytes[i] := 0;
      }
      assert View() == Apply(old(View()), Stop);
    }

    /** `socket` is what the socket will hand out before it has nothing left. */
    method DrainLocked(socket: seq<Packet>)
      requires Valid()
      modifies queues, queueBytes
      ensures Valid() && View() == Drain(old(View()), socket)
    {
      var read: nat := 0;
      while read < |socket|
        invariant read <= |socket| && Valid()
        invariant Drain(View(), socket[read..]) == Drain(old(View()), socket)
      {
        hide Classify, TotalBytes;
        var packet := Received(socket[read]);
        ghost var before := View();
        assert socket[read..][1..] == socket[read + 1..];
        read := read + 1;
        var c := Classify(packet.data);
        ChanStepOk(before[c], Arrive(packet));
        if queueBytes[c] + |packet.data| > CHANNEL_QUEUE_BYTES {
          assert View() == DrainOne(before, socket[read - 1]);
          continue;
        }
        queueBytes[c] := queueBytes[c] + |packet.data|;
        queues[c] := queues[c] + [packet];
        assert View() == DrainOne(before, socket[read - 1]);
      }
    }

    /** Reads at most `len` bytes of the channel's oldest packet, after emptying the socket into the queues. */
    method RecvFrom(channel: nat, len: u32, socket: seq<Packet>) returns (r: Option<Packet>)
      requires Valid() && channel < CHANNEL_COUNT
      modifies queues, queueBytes
      ensures Valid() && View() == Apply(old(View()), Recv(channel, socket))
      ensures var front := Result(old(View()), Recv(channel, socket));
              && (r.None? <==> front.None?)
              && (r.Some? ==>
                    r.value.addr == front.value.addr && r.value.port == front.value.port
                    && r.value.data == if |front.value.data| <= len then front.value.data else front.value.data[..len])
    {
      DrainLocked(socket);
      hide Drain;
      ghost var drained := View();
      ChanStepOk(drained[channel], Pop);
      if queues[channel] == [] {
        assert View() == drained[channel := DropHead(drained[channel])];
        return None;
      }
      var packet := queues[channel][0];
      queues[channel] := queues[channel][1..];
      queueBytes[channel] := queueBytes[channel] - |packet.data|;
      assert View() == drained[channel := DropHead(drained[channel])];
      var n := if |packet.data| <= len then |packet.data| else len;
      r := Some(Packet(packet.data[..n], packet.addr, packet.port));
    }
  }
}
