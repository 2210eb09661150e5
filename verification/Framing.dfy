/** ShadNet packet framing: a 15-byte header and a payload, cut out of a byte stream that arrives in chunks. */
module Framing {
  import opened Widths
  import opened LittleEndian

  const HEADER_SIZE: nat := 15
  const MAX_PACKET_SIZE: nat := 0x80_0000
  const PACKET_TYPE_REQUEST: u8 := 0

  datatype Packet = Packet(kind: u8, command: u16, id: u64, payload: seq<u8>)

  /** Why the reader stopped: the stream ended inside a header or payload, or a header had an illegal size. */
  datatype Ending = StreamEnded | CorruptSize

  datatype Decoded = Decoded(packets: seq<Packet>, ending: Ending)

  predicate Legal(p: Packet) {
    HEADER_SIZE + |p.payload| <= MAX_PACKET_SIZE
  }

  /** The wire form. The size field is 32 bits wide, as in the sender. */
  function EncodePacket(p: Packet): (bytes: seq<u8>)
    ensures |bytes| == HEADER_SIZE + |p.payload|
  {
    [p.kind] + Encode(p.command, 2) + Encode(ToU32(HEADER_SIZE + |p.payload|), 4) + Encode(p.id, 8) + p.payload
  }

  function EncodeAll(ps: seq<Packet>): seq<u8> {
    if ps == [] then [] else EncodePacket(ps[0]) + EncodeAll(ps[1..])
  }

  function HeaderSize(s: seq<u8>): u32
    requires |s| >= HEADER_SIZE
  {
    GetLE32(s, 3)
  }

  predicate SizeIsLegal(total: u32) {
    HEADER_SIZE <= total <= MAX_PACKET_SIZE
  }

  function FirstPacket(s: seq<u8>): (p: Packet)
    requires |s| >= HEADER_SIZE && HEADER_SIZE <= HeaderSize(s) <= |s|
    ensures |p.payload| == HeaderSize(s) - HEADER_SIZE
  {
    EncodeDecode(s[7..15]);
    Pow256Of8();
    Packet(s[0], GetLE16(s, 1), Decode(s[7..15]), s[HEADER_SIZE..HeaderSize(s)])
  }

  /** What the reader loop makes of the whole byte stream. */
  function DecodeStream(s: seq<u8>): Decoded
    decreases |s|
  {
    if |s| < HEADER_SIZE then Decoded([], StreamEnded)
    else if !SizeIsLegal(HeaderSize(s)) then Decoded([], CorruptSize)
    else if |s| < HeaderSize(s) then Decoded([], StreamEnded)
    else
      Prepend([FirstPacket(s)], DecodeStream(s[HeaderSize(s)..]))
  }

  function Prepend(ps: seq<Packet>, d: Decoded): Decoded {
    Decoded(ps + d.packets, d.ending)
  }

  lemma PrependTwice(ps: seq<Packet>, qs: seq<Packet>, d: Decoded)
    ensures Prepend(ps, Prepend(qs, d)) == Prepend(ps + qs, d)
    ensures Prepend([], d) == d
  {
  }

  // ---- Encoding and decoding are inverse ----

  lemma EncodedFields(p: Packet, rest: seq<u8>)
    ensures var s := EncodePacket(p) + rest;
            && s[0] == p.kind
            && s[1..3] == Encode(p.command, 2)
            && s[3..7] == Encode(ToU32(HEADER_SIZE + |p.payload|), 4)
            && s[7..15] == Encode(p.id, 8)
            && s[15..15 + |p.payload|] == p.payload
            && s[15 + |p.payload|..] == rest
  {
  }

  lemma SliceOfPrefix(s: seq<u8>, e: seq<u8>, k: nat, i: nat, j: nat)
    requires i <= j <= k <= |s| && k <= |e| && s[..k] == e[..k]
    ensures s[i..j] == e[i..j]
  {
  }

  lemma HeaderOfEncoded(p: Packet, s: seq<u8>)
    requires Legal(p) && HEADER_SIZE <= |s|
    requires s[..HEADER_SIZE] == EncodePacket(p)[..HEADER_SIZE]
    ensures HeaderSize(s) == HEADER_SIZE + |p.payload|
    ensures s[0] == p.kind && GetLE16(s, 1) == p.command && Decode(s[7..15]) == p.id
  {
    var e := EncodePacket(p);
    EncodedFields(p, []);
    assert e + [] == e;
    SliceOfPrefix(s, e, HEADER_SIZE, 0, 1);
    SliceOfPrefix(s, e, HEADER_SIZE, 1, 3);
    SliceOfPrefix(s, e, HEADER_SIZE, 3, 7);
    SliceOfPrefix(s, e, HEADER_SIZE, 7, 15);
    assert s[0] == s[0..1][0] && e[0] == e[0..1][0];
    HeaderFields(p, s);
  }

  lemma HeaderFields(p: Packet, s: seq<u8>)
    requires Legal(p) && HEADER_SIZE <= |s|
    requires s[1..3] == Encode(p.command, 2)
    requires s[3..7] == Encode(ToU32(HEADER_SIZE + |p.payload|), 4)
    requires s[7..15] == Encode(p.id, 8)
    ensures HeaderSize(s) == HEADER_SIZE + |p.payload|
    ensures GetLE16(s, 1) == p.command && Decode(s[7..15]) == p.id
  {
    ReadsBack16(s, 1, p.command);
    ReadsBack32(s, 3, HEADER_SIZE + |p.payload|);
    ReadsBack64(s, 7, p.id);
  }

  lemma DecodeOne(p: Packet, rest: seq<u8>)
    requires Legal(p)
    ensures DecodeStream(EncodePacket(p) + rest) == Prepend([p], DecodeStream(rest))
  {
    var s := EncodePacket(p) + rest;
    EncodedFields(p, rest);
    assert s[..HEADER_SIZE] == EncodePacket(p)[..HEADER_SIZE];
    HeaderOfEncoded(p, s);
    assert FirstPacket(s) == p;
  }

  /** Packets in front of a stream are decoded one by one and do not disturb what follows them. */
  lemma {:induction false} DecodeEncodeAll(ps: seq<Packet>, rest: seq<u8>)
    requires forall p :: p in ps ==> Legal(p)
    ensures DecodeStream(EncodeAll(ps) + rest) == Prepend(ps, DecodeStream(rest))
  {
    if ps == [] {
      assert EncodeAll(ps) + rest == rest;
    } else {
      var tail := EncodeAll(ps[1..]) + rest;
      DecodeEncodeAll(ps[1..], rest);
      assert EncodeAll(ps) + rest == EncodePacket(ps[0]) + tail;
      DecodeOne(ps[0], tail);
      PrependTwice([ps[0]], ps[1..], DecodeStream(rest));
      assert ps == [ps[0]] + ps[1..];
    }
  }

  /** A stream cut inside a packet delivers exactly the packets that were complete. */
  lemma TruncatedStream(ps: seq<Packet>, cut: Packet, n: nat)
    requires Legal(cut) && forall p :: p in ps ==> Legal(p)
    requires n < |EncodePacket(cut)|
    ensures DecodeStream(EncodeAll(ps) + EncodePacket(cut)[..n]) == Decoded(ps, StreamEnded)
  {
    var part := EncodePacket(cut)[..n];
    if n >= HEADER_SIZE {
      assert part[..HEADER_SIZE] == EncodePacket(cut)[..HEADER_SIZE];
      HeaderOfEncoded(cut, part);
    }
    DecodeEncodeAll(ps, part);
    assert ps + [] == ps;
  }

  /** The reader can cut a packet off the front of s. */
  predicate HasPacket(s: seq<u8>) {
    |s| >= HEADER_SIZE && SizeIsLegal(HeaderSize(s)) && HeaderSize(s) <= |s|
  }

  /** Length of the prefix of s that the decoded packets occupy. */
  function Consumed(s: seq<u8>): (n: nat)
    ensures n <= |s| && !HasPacket(s[n..])
    decreases |s|
  {
    if !HasPacket(s) then assert s[0..] == s; 0
    else
      var k := HeaderSize(s);
      var m := Consumed(s[k..]);
      assert s[k..][m..] == s[k + m..];
      k + m
  }

  /** Only legal packets are delivered; together they are the stream up to where it stopped making sense. */
  lemma {:induction false} EncodeDecodeStream(s: seq<u8>)
    ensures forall p :: p in DecodeStream(s).packets ==> Legal(p)
    ensures EncodeAll(DecodeStream(s).packets) == s[..Consumed(s)]
    ensures DecodeStream(s).ending.CorruptSize? <==>
            |s| - Consumed(s) >= HEADER_SIZE && !SizeIsLegal(HeaderSize(s[Consumed(s)..]))
    decreases |s|
  {
    if !HasPacket(s) {
      assert s[0..] == s;
    } else {
      var k := HeaderSize(s);
      var rest := s[k..];
      EncodeDecodeStream(rest);
      FirstPacketEncodes(s);
      UnfoldOnce(s);
      EncodeAllCons(FirstPacket(s), DecodeStream(rest).packets);
      JoinSlices(s, k, Consumed(rest));
    }
  }

  lemma EncodeAllCons(p: Packet, ps: seq<Packet>)
    ensures EncodeAll([p] + ps) == EncodePacket(p) + EncodeAll(ps)
  {
  }

  lemma JoinSlices(s: seq<u8>, k: nat, m: nat)
    requires k + m <= |s|
    ensures s[..k] + s[k..][..m] == s[..k + m]
    ensures s[k..][m..] == s[k + m..]
  {
  }

  lemma UnfoldOnce(s: seq<u8>)
    requires HasPacket(s)
    ensures DecodeStream(s) == Prepend([FirstPacket(s)], DecodeStream(s[HeaderSize(s)..]))
    ensures Consumed(s) == HeaderSize(s) + Consumed(s[HeaderSize(s)..])
  {
  }

  lemma FirstPacketEncodes(s: seq<u8>)
    requires HasPacket(s)
    ensures Legal(FirstPacket(s)) && EncodePacket(FirstPacket(s)) == s[..HeaderSize(s)]
  {
    hide Encode, Decode, GetLE16, GetLE32;
    var p := FirstPacket(s);
    var k := HeaderSize(s);
    GetLE16Decodes(s, 1);
    GetLE32Decodes(s, 3);
    EncodeDecode(s[1..3]);
    EncodeDecode(s[3..7]);
    EncodeDecode(s[7..15]);
    assert Encode(p.command, 2) == s[1..3] && Encode(k, 4) == s[3..7] && Encode(p.id, 8) == s[7..15];
    assert s[..k] == [s[0]] + s[1..3] + s[3..7] + s[7..15] + s[15..k];
  }

  // ---- The socket and the loops over it ----

  function Flatten(chunks: seq<seq<u8>>): seq<u8> {
    if chunks == [] then [] else chunks[0] + Flatten(chunks[1..])
  }

  /** A connected stream socket: what it will still deliver, cut into the pieces `recv` will see. */
  class Socket {
    var chunks: seq<seq<u8>>

    ghost predicate Valid()
      reads this
    {
      forall c :: c in chunks ==> c != []
    }

    ghost function Contents(): seq<u8>
      reads this
    {
      Flatten(chunks)
    }

    constructor (chunks: seq<seq<u8>>)
      requires forall c :: c in chunks ==> c != []
      ensures Valid() && Contents() == Flatten(chunks)
    {
      this.chunks := chunks;
    }

    /** Up to `max` bytes of the next chunk; nothing means the peer closed. */
    method Recv(max: nat) returns (bytes: seq<u8>)
      requires Valid() && max > 0
      modifies this
      ensures Valid() && |bytes| <= max
      ensures old(Contents()) == bytes + Contents()
      ensures bytes == [] <==> old(Contents()) == []
    {
      if chunks == [] {
        return [];
      }
      var head := chunks[0];
      assert head in chunks;
      if |head| <= max {
        bytes := head;
        chunks := chunks[1..];
        assert forall c :: c in chunks ==> c in old(chunks);
      } else {
        bytes := head[..max];
        chunks := [head[max..]] + chunks[1..];
        assert chunks[1..] == old(chunks)[1..];
        assert forall c :: c in chunks[1..] ==> c in old(chunks);
        assert head == head[..max] + head[max..];
      }
    }
  }

  /** The bytes of one chunk after another. */
  lemma {:induction false} FlattenJoins(a: seq<seq<u8>>, b: seq<seq<u8>>, c: seq<u8>)
    ensures Flatten(a + b) == Flatten(a) + Flatten(b) && Flatten([c]) == c
  {
    assert [c][1..] == [];
    if a == [] {
      assert a + b == b;
    } else {
      assert (a + b)[1..] == a[1..] + b;
      FlattenJoins(a[1..], b, c);
    }
  }

  /** Fills the first n bytes of buf, over as many `recv` calls as it takes. */
  method RecvN(sock: Socket, buf: array<u8>, n: nat) returns (ok: bool)
    requires sock.Valid() && n <= buf.Length && buf as object != sock
    modifies sock, buf
    ensures sock.Valid()
    ensures ok <==> n <= |old(sock.Contents())|
    ensures ok ==> buf[..n] == old(sock.Contents())[..n] && sock.Contents() == old(sock.Contents())[n..]
    ensures !ok ==> sock.Contents() == []
  {
    ghost var stream := sock.Contents();
    var received := 0;
    while received < n
      invariant received <= n && sock.Valid()
      invariant stream == buf[..received] + sock.Contents()
    {
      var bytes := sock.Recv(n - received);
      if bytes == [] {
        return false;
      }
      ghost var before := buf[..received];
      forall i | 0 <= i < |bytes| {
        buf[received + i] := bytes[i];
      }
      assert buf[..received] == before;
      assert buf[..received + |bytes|] == before + bytes;
      received := received + |bytes|;
    }
    return true;
  }

  datatype NextPacket = Got(packet: Packet) | Stop(why: Ending)

  /** One round of the reader loop: a header, then the payload it announces. */
  method ReadPacket(sock: Socket) returns (next: NextPacket)
    requires sock.Valid()
    modifies sock
    ensures sock.Valid()
    ensures next.Got? <==> HasPacket(old(sock.Contents()))
    ensures next.Got? ==>
              var s := old(sock.Contents());
              next.packet == FirstPacket(s) && sock.Contents() == s[HeaderSize(s)..]
    ensures next.Stop? ==> DecodeStream(old(sock.Contents())) == Decoded([], next.why)
  {
    ghost var s := sock.Contents();
    var hdr := new u8[HEADER_SIZE];
    var ok := RecvN(sock, hdr, HEADER_SIZE);
    if !ok {
      return Stop(StreamEnded);
    }
    var h := hdr[..];
    assert h == s[..HEADER_SIZE];
    var total := GetLE32(h, 3);
    if total < HEADER_SIZE || total > MAX_PACKET_SIZE {
      return Stop(CorruptSize);
    }
    var id := GetLE64(h, 7);
    assert h[7..15] == s[7..15];
    var payloadSize := total - HEADER_SIZE;
    var payload: seq<u8> := [];
    if payloadSize > 0 {
      var body := new u8[payloadSize];
      ok := RecvN(sock, body, payloadSize);
      if !ok {
        return Stop(StreamEnded);
      }
      payload := body[..];
      assert payload == s[HEADER_SIZE..][..payloadSize];
    }
    assert payload == s[HEADER_SIZE..total];
    assert sock.Contents() == s[total..];
    next := Got(Packet(h[0], GetLE16(h, 1), id, payload));
  }

  /** The reader thread: the packets it dispatches, in order, and why it stops. */
  method ReaderThread(sock: Socket) returns (dispatched: seq<Packet>, ending: Ending)
    requires sock.Valid()
    modifies sock
    ensures Decoded(dispatched, ending) == DecodeStream(old(sock.Contents()))
  {
    dispatched := [];
    PrependTwice([], [], DecodeStream(sock.Contents()));
    while true
      invariant sock.Valid()
      invariant DecodeStream(old(sock.Contents())) == Prepend(dispatched, DecodeStream(sock.Contents()))
      decreases |sock.Contents()|
    {
      ghost var s := sock.Contents();
      var next := ReadPacket(sock);
      match next
      case Stop(why) =>
        assert DecodeStream(s) == Decoded([], why);
        return dispatched, why;
      case Got(packet) =>
        PrependTwice(dispatched, [packet], DecodeStream(sock.Contents()));
        dispatched := dispatched + [packet];
    }
  }

  /** The sender's packet builder writes the request form of the wire encoding. */
  method BuildPacket(command: u16, id: u64, payload: seq<u8>) returns (packet: seq<u8>)
    ensures packet == EncodePacket(Packet(PACKET_TYPE_REQUEST, command, id, payload))
  {
    var total := ToU32(HEADER_SIZE + |payload|);
    var out := new u8[HEADER_SIZE];
    out[0] := PACKET_TYPE_REQUEST;
    PutLE16(out, 1, command);
    PutLE32(out, 3, total);
    PutLE64(out, 7, id);
    assert out[..] == [PACKET_TYPE_REQUEST] + Encode(command, 2) + Encode(total, 4) + Encode(id, 8);
    packet := out[..] + payload;
  }

  /** End to end: packets sent back to back, in whatever pieces the network delivers, are dispatched unchanged. */
  method SendAndReceive(ps: seq<Packet>, cut: Packet, n: nat, chunks: seq<seq<u8>>)
    returns (dispatched: seq<Packet>, ending: Ending)
    requires forall p :: p in ps ==> Legal(p)
    requires Legal(cut) && n < |EncodePacket(cut)|
    requires forall c :: c in chunks ==> c != []
    requires Flatten(chunks) == EncodeAll(ps) + EncodePacket(cut)[..n]
    ensures dispatched == ps && ending == StreamEnded
  {
    var sock := new Socket(chunks);
    dispatched, ending := ReaderThread(sock);
    TruncatedStream(ps, cut, n);
  }
}
