/** The bind-file table: a header, then bodies of four length-prefixed entries, each body followed by padding. */
module NpBind {
  import opened Options
  import opened Widths
  import LE = LittleEndian

  const MAGIC: u32 := 0xD294A018
  const HEADER_SIZE: nat := 128
  const HEADER_PADDING: nat := 0x60
  const BODY_PADDING: nat := 0x98
  const DIGEST_SIZE: nat := 20

  datatype Header = Header(
    magic: u32, version: u32, fileSize: u64, entrySize: u64, numEntries: u64, padding: seq<u8>)

  datatype Entry = Entry(kind: u16, data: seq<u8>)

  datatype Body = Body(npcommid: Entry, trophy: Entry, unk1: Entry, unk2: Entry)

  // ---- Big-endian fields ----

  function Reversed(s: seq<u8>): (r: seq<u8>)
    ensures |r| == |s|
    ensures forall i :: 0 <= i < |s| ==> r[i] == s[|s| - 1 - i]
  {
    seq(|s|, i requires 0 <= i < |s| => s[|s| - 1 - i])
  }

  lemma ReversedTwice(s: seq<u8>)
    ensures Reversed(Reversed(s)) == s
  {
  }

  function DecodeBE(s: seq<u8>): nat {
    LE.Decode(Reversed(s))
  }

  function EncodeBE(v: nat, n: nat): (s: seq<u8>)
    ensures |s| == n
  {
    Reversed(LE.Encode(v, n))
  }

  lemma FieldReadsBack(v: nat, n: nat)
    ensures DecodeBE(EncodeBE(v, n)) == v % LE.Pow256(n)
  {
    ReversedTwice(LE.Encode(v, n));
    LE.DecodeEncode(v, n);
  }

  lemma FieldRewrites(s: seq<u8>)
    ensures EncodeBE(DecodeBE(s), |s|) == s
    ensures DecodeBE(s) < LE.Pow256(|s|)
  {
    LE.EncodeDecode(Reversed(s));
    ReversedTwice(s);
  }

  lemma Pow256Of2()
    ensures LE.Pow256(2) == 0x1_0000
  {
  }

  function Field16(s: seq<u8>): u16
    requires |s| == 2
  {
    FieldRewrites(s);
    Pow256Of2();
    DecodeBE(s)
  }

  function Field32(s: seq<u8>): u32
    requires |s| == 4
  {
    FieldRewrites(s);
    LE.Pow256Of4();
    DecodeBE(s)
  }

  function Field64(s: seq<u8>): u64
    requires |s| == 8
  {
    FieldRewrites(s);
    LE.Pow256Of8();
    DecodeBE(s)
  }

  lemma FieldHolds(s: seq<u8>, v: nat)
    requires v < LE.Pow256(|s|)
    ensures DecodeBE(s) == v <==> s == EncodeBE(v, |s|)
  {
    FieldRewrites(s);
    FieldReadsBack(v, |s|);
    hide DecodeBE, EncodeBE, LE.Pow256;
    SmallMod(v, LE.Pow256(|s|));
  }

  lemma SmallMod(v: nat, m: nat)
    requires v < m
    ensures v % m == v
  {
  }

  lemma Field16Holds(s: seq<u8>, v: u16)
    requires |s| == 2
    ensures Field16(s) == v <==> s == EncodeBE(v, 2)
  {
    Pow256Of2();
    hide LE.Pow256, DecodeBE, EncodeBE;
    FieldHolds(s, v);
  }

  lemma Field32Holds(s: seq<u8>, v: u32)
    requires |s| == 4
    ensures Field32(s) == v <==> s == EncodeBE(v, 4)
  {
    LE.Pow256Of4();
    hide LE.Pow256, DecodeBE, EncodeBE;
    FieldHolds(s, v);
  }

  lemma Field64Holds(s: seq<u8>, v: u64)
    requires |s| == 8
    ensures Field64(s) == v <==> s == EncodeBE(v, 8)
  {
    LE.Pow256Of8();
    hide LE.Pow256, DecodeBE, EncodeBE;
    FieldHolds(s, v);
  }

  function Byte(s: seq<u8>, i: nat): int
    requires i < |s|
  {
    s[i]
  }

  lemma {:induction false} DecodeConcat(a: seq<u8>, b: seq<u8>)
    ensures LE.Decode(a + b) == LE.Decode(a) + LE.Pow256(|a|) * LE.Decode(b)
  {
    if a == [] {
      assert a + b == b;
    } else {
      assert (a + b)[1..] == a[1..] + b;
      DecodeConcat(a[1..], b);
    }
  }

  /** The first byte counts most. */
  lemma DecodeBEFirst(s: seq<u8>)
    requires s != []
    ensures DecodeBE(s) == DecodeBE(s[1..]) + LE.Pow256(|s| - 1) * Byte(s, 0)
  {
    assert Reversed(s) == Reversed(s[1..]) + [s[0]];
    DecodeConcat(Reversed(s[1..]), [s[0]]);
    assert LE.Decode([s[0]]) == s[0];
  }

  /** The fields spelled out. */
  lemma FieldsAreBigEndian(a: seq<u8>, b: seq<u8>, c: seq<u8>)
    requires |a| == 2 && |b| == 4 && |c| == 8
    ensures Field16(a) == 0x100 * Byte(a, 0) + Byte(a, 1)
    ensures Field32(b) == 0x100_0000 * Byte(b, 0) + 0x1_0000 * Byte(b, 1) + 0x100 * Byte(b, 2) + Byte(b, 3)
    ensures Field64(c) == 0x1_0000_0000 * Field32(c[..4]) + Field32(c[4..])
  {
    TwoBytes(a);
    FourBytes(b);
    assert Reversed(c) == Reversed(c[4..]) + Reversed(c[..4]);
    LE.Pow256Of4();
    DecodeConcat(Reversed(c[4..]), Reversed(c[..4]));
  }

  lemma TwoBytes(s: seq<u8>)
    requires |s| == 2
    ensures DecodeBE(s) == 0x100 * Byte(s, 0) + Byte(s, 1)
  {
    DecodeBEFirst(s);
    DecodeBEFirst(s[1..]);
    assert s[1..][1..] == [] && DecodeBE([]) == 0;
  }

  lemma FourBytes(s: seq<u8>)
    requires |s| == 4
    ensures DecodeBE(s) == 0x100_0000 * Byte(s, 0) + 0x1_0000 * Byte(s, 1) + 0x100 * Byte(s, 2) + Byte(s, 3)
  {
    DecodeBEFirst(s);
    DecodeBEFirst(s[1..]);
    TwoBytes(s[2..]);
    assert s[1..][1..] == s[2..];
    hide DecodeBE;
  }

  // ---- The format ----

  predicate FitsHeader(h: Header) {
    |h.padding| == HEADER_PADDING
  }

  function EncodeHeader(h: Header): (s: seq<u8>)
    requires FitsHeader(h)
    ensures |s| == HEADER_SIZE
  {
    EncodeBE(h.magic, 4) + EncodeBE(h.version, 4) + EncodeBE(h.fileSize, 8) + EncodeBE(h.entrySize, 8)
    + EncodeBE(h.numEntries, 8) + h.padding
  }

  predicate FitsEntry(e: Entry) {
    |e.data| < 0x1_0000
  }

  predicate FitsBody(b: Body) {
    FitsEntry(b.npcommid) && FitsEntry(b.trophy) && FitsEntry(b.unk1) && FitsEntry(b.unk2)
  }

  function EncodeEntry(e: Entry): (s: seq<u8>)
    requires FitsEntry(e)
    ensures |s| == 4 + |e.data|
  {
    EncodeBE(e.kind, 2) + EncodeBE(|e.data|, 2) + e.data
  }

  function EncodeBody(b: Body): (s: seq<u8>)
    requires FitsBody(b)
    ensures |s| >= 16
  {
    EncodeEntry(b.npcommid) + EncodeEntry(b.trophy) + EncodeEntry(b.unk1) + EncodeEntry(b.unk2)
  }

  ghost predicate Fits(bodies: seq<Body>, pads: seq<seq<u8>>) {
    && (forall b :: b in bodies ==> FitsBody(b))
    && |pads| == (if bodies == [] then 0 else |bodies| - 1)
    && (forall p :: p in pads ==> |p| == BODY_PADDING)
  }

  /** Full padding between the bodies; after the last one anything may follow, such as padding and the digest, less
      than the padding, or nothing. */
  ghost function EncodeTable(bodies: seq<Body>, pads: seq<seq<u8>>, tail: seq<u8>): seq<u8>
    requires Fits(bodies, pads)
    decreases |bodies|
  {
    if bodies == [] then tail
    else
      assert bodies[0] in bodies;
      if |bodies| == 1 then EncodeBody(bodies[0]) + tail
      else EncodeBody(bodies[0]) + (pads[0] + EncodeTable(bodies[1..], pads[1..], tail))
  }

  // ---- Parsing ----

  function ParseHeader(s: seq<u8>): (h: Header)
    requires |s| == HEADER_SIZE
    ensures FitsHeader(h)
  {
    Header(Field32(s[0..4]), Field32(s[4..8]), Field64(s[8..16]), Field64(s[16..24]), Field64(s[24..32]), s[32..])
  }

  function ParseEntry(s: seq<u8>): (r: Option<(Entry, seq<u8>)>)
    ensures r.Some? ==> FitsEntry(r.value.0) && |r.value.1| == |s| - 4 - |r.value.0.data|
  {
    if |s| < 4 then None
    else
      var size := Field16(s[2..4]);
      if |s| - 4 < size then None else Some((Entry(Field16(s[0..2]), s[4..4 + size]), s[4 + size..]))
  }

  function ParseBody(s: seq<u8>): (r: Option<(Body, seq<u8>)>)
    ensures r.Some? ==> FitsBody(r.value.0) && |r.value.1| <= |s| - 16
  {
    if |s| < 16 then None
    else
      var a := ParseEntry(s);
      if a.None? then None
      else
        var b := ParseEntry(a.value.1);
        if b.None? then None
        else
          var c := ParseEntry(b.value.1);
          if c.None? then None
          else
            var d := ParseEntry(c.value.1);
            if d.None? then None
            else Some((Body(a.value.0, b.value.0, c.value.0, d.value.0), d.value.1))
  }

  function SkipPadding(s: seq<u8>): seq<u8> {
    if |s| >= BODY_PADDING then s[BODY_PADDING..] else []
  }

  /** The bodies read before the count was reached or one failed, and whether the count was reached. */
  datatype Parsed = Parsed(bodies: seq<Body>, ok: bool)

  function Joined(front: seq<Body>, p: Parsed): Parsed {
    Parsed(front + p.bodies, p.ok)
  }

  function ParseBodies(s: seq<u8>, n: nat): Parsed
    decreases n
  {
    if n == 0 then Parsed([], true)
    else
      match ParseBody(s)
      case None => Parsed([], false)
      case Some((b, rest)) =>
        Joined([b], ParseBodies(SkipPadding(rest), n - 1))
  }

  // ---- One entry, one body ----

  /** Parsing an entry accepts exactly the encodings. */
  lemma EntryHolds(s: seq<u8>, e: Entry, rest: seq<u8>)
    ensures ParseEntry(s) == Some((e, rest)) <==> FitsEntry(e) && s == EncodeEntry(e) + rest
  {
    hide EncodeBE, Field16;
    if FitsEntry(e) && s == EncodeEntry(e) + rest {
      assert s[0..2] == EncodeBE(e.kind, 2) && s[2..4] == EncodeBE(|e.data|, 2);
      Field16Holds(s[0..2], e.kind);
      Field16Holds(s[2..4], |e.data|);
      assert s[4..4 + |e.data|] == e.data && s[4 + |e.data|..] == rest;
    }
    if ParseEntry(s) == Some((e, rest)) {
      Field16Holds(s[0..2], e.kind);
      Field16Holds(s[2..4], |e.data|);
      assert s == s[0..2] + s[2..4] + s[4..4 + |e.data|] + s[4 + |e.data|..];
    }
  }

  lemma BodyAssoc(a: seq<u8>, b: seq<u8>, c: seq<u8>, d: seq<u8>, rest: seq<u8>)
    ensures a + b + c + d + rest == a + (b + (c + (d + rest)))
  {
  }

  /** And so does parsing a body. */
  lemma BodyHolds(s: seq<u8>, body: Body, rest: seq<u8>)
    ensures ParseBody(s) == Some((body, rest)) <==> FitsBody(body) && s == EncodeBody(body) + rest
  {
    hide ParseEntry, EncodeEntry;
    if FitsBody(body) && s == EncodeBody(body) + rest {
      var s3 := EncodeEntry(body.unk2) + rest;
      var s2 := EncodeEntry(body.unk1) + s3;
      var s1 := EncodeEntry(body.trophy) + s2;
      BodyAssoc(EncodeEntry(body.npcommid), EncodeEntry(body.trophy), EncodeEntry(body.unk1), EncodeEntry(body.unk2),
                rest);
      EntryHolds(s, body.npcommid, s1);
      EntryHolds(s1, body.trophy, s2);
      EntryHolds(s2, body.unk1, s3);
      EntryHolds(s3, body.unk2, rest);
    }
    if ParseBody(s) == Some((body, rest)) {
      var s1 := ParseEntry(s).value.1;
      var s2 := ParseEntry(s1).value.1;
      var s3 := ParseEntry(s2).value.1;
      EntryHolds(s, body.npcommid, s1);
      EntryHolds(s1, body.trophy, s2);
      EntryHolds(s2, body.unk1, s3);
      EntryHolds(s3, body.unk2, rest);
      BodyAssoc(EncodeEntry(body.npcommid), EncodeEntry(body.trophy), EncodeEntry(body.unk1), EncodeEntry(body.unk2),
                rest);
    }
  }

  lemma HeaderHolds(s: seq<u8>, h: Header)
    requires |s| == HEADER_SIZE
    ensures ParseHeader(s) == h <==> FitsHeader(h) && s == EncodeHeader(h)
  {
    hide EncodeBE, Field32, Field64;
    Field32Holds(s[0..4], h.magic);
    Field32Holds(s[4..8], h.version);
    Field64Holds(s[8..16], h.fileSize);
    Field64Holds(s[16..24], h.entrySize);
    Field64Holds(s[24..32], h.numEntries);
    if FitsHeader(h) && s == EncodeHeader(h) {
      assert s[0..4] == EncodeBE(h.magic, 4) && s[4..8] == EncodeBE(h.version, 4);
      assert s[8..16] == EncodeBE(h.fileSize, 8) && s[16..24] == EncodeBE(h.entrySize, 8);
      assert s[24..32] == EncodeBE(h.numEntries, 8) && s[32..] == h.padding;
    }
    if ParseHeader(s) == h {
      assert s == s[0..4] + s[4..8] + s[8..16] + s[16..24] + s[24..32] + s[32..];
    }
  }

  // ---- Whole tables ----

  lemma ParseStep(s: seq<u8>, n: nat, b: Body, rest: seq<u8>)
    requires n > 0 && ParseBody(s) == Some((b, rest))
    ensures ParseBodies(s, n) == Joined([b], ParseBodies(SkipPadding(rest), n - 1))
  {
  }

  lemma ParseStop(s: seq<u8>, n: nat)
    requires n > 0 ==> ParseBody(s).None?
    ensures ParseBodies(s, n) == Parsed([], n == 0)
  {
  }

  lemma EmptyTable(s: seq<u8>)
    ensures Fits([], []) && EncodeTable([], [], s) == s
  {
  }

  lemma TableStep(bodies: seq<Body>, pads: seq<seq<u8>>, tail: seq<u8>)
    requires Fits(bodies, pads) && bodies != []
    ensures FitsBody(bodies[0])
    ensures |bodies| == 1 ==> EncodeTable(bodies, pads, tail) == EncodeBody(bodies[0]) + tail
    ensures |bodies| > 1 ==>
              && |pads[0]| == BODY_PADDING && Fits(bodies[1..], pads[1..])
              && EncodeTable(bodies, pads, tail) ==
                   EncodeBody(bodies[0]) + (pads[0] + EncodeTable(bodies[1..], pads[1..], tail))
  {
  }

  lemma UndoOne(b: Body, rest: seq<u8>, bs: seq<Body>, k: nat)
    requires FitsBody(b) && ParseBodies(SkipPadding(rest), k) == Parsed(bs, true)
    ensures ParseBodies(EncodeBody(b) + rest, k + 1) == Parsed([b] + bs, true)
  {
    BodyHolds(EncodeBody(b) + rest, b, rest);
    hide ParseBody, EncodeBody, FitsBody, ParseBodies, SkipPadding;
    ParseStep(EncodeBody(b) + rest, k + 1, b, rest);
  }

  lemma HeadAndTail<T>(xs: seq<T>)
    requires xs != []
    ensures xs == [xs[0]] + xs[1..]
  {
  }

  lemma SkipsPadding(pad: seq<u8>, more: seq<u8>)
    requires |pad| == BODY_PADDING
    ensures SkipPadding(pad + more) == more
  {
  }

  /** Parsing undoes the encoding of every list of bodies, whatever the padding is and whatever follows. */
  lemma {:induction false} ParseUndoesEncode(bodies: seq<Body>, pads: seq<seq<u8>>, tail: seq<u8>)
    requires Fits(bodies, pads)
    ensures ParseBodies(EncodeTable(bodies, pads, tail), |bodies|) == Parsed(bodies, true)
    decreases |bodies|
  {
    if bodies != [] {
      TableStep(bodies, pads, tail);
      hide ParseBodies, EncodeBody, EncodeTable, FitsBody, Fits, SkipPadding;
      if |bodies| == 1 {
        ParseStop(SkipPadding(tail), 0);
        UndoOne(bodies[0], tail, bodies[1..], 0);
        HeadAndTail(bodies);
      } else {
        var rest, pad := bodies[1..], pads[0];
        var more := EncodeTable(rest, pads[1..], tail);
        ParseUndoesEncode(rest, pads[1..], tail);
        HeadAndTail(bodies);
        SkipsPadding(pad, more);
        UndoOne(bodies[0], pad + more, rest, |rest|);
      }
    }
  }

  /** Each body but the last takes at least 16 + 152 bytes. */
  lemma {:induction false} TableIsLong(bodies: seq<Body>, pads: seq<seq<u8>>, tail: seq<u8>)
    requires Fits(bodies, pads) && bodies != []
    ensures |EncodeTable(bodies, pads, tail)| >= 16 + (|bodies| - 1) * (16 + BODY_PADDING)
    decreases |bodies|
  {
    hide EncodeBody, FitsBody;
    assert bodies[0] in bodies;
    if |bodies| > 1 {
      assert pads[0] in pads;
      TableIsLong(bodies[1..], pads[1..], tail);
    }
  }

  lemma OneMore(b: Body, rest: seq<u8>, more: seq<Body>, p: seq<seq<u8>>, t: seq<u8>)
      returns (pads: seq<seq<u8>>, tail: seq<u8>)
    requires FitsBody(b) && Fits(more, p) && SkipPadding(rest) == EncodeTable(more, p, t)
    ensures Fits([b] + more, pads) && EncodeBody(b) + rest == EncodeTable([b] + more, pads, tail)
  {
    hide EncodeBody, FitsBody;
    var bodies := [b] + more;
    if more == [] {
      pads, tail := [], rest;
      assert bodies == [b];
    } else {
      TableIsLong(more, p, t);
      assert |rest| >= BODY_PADDING && rest == rest[..BODY_PADDING] + rest[BODY_PADDING..];
      pads, tail := [rest[..BODY_PADDING]] + p, t;
      assert bodies[1..] == more && pads[1..] == p;
    }
  }

  /** The other way round: what parses is an encoding, also where the parse stops early. */
  lemma {:induction false} ParsedIsEncoded(s: seq<u8>, n: nat) returns (pads: seq<seq<u8>>, tail: seq<u8>)
    ensures var p := ParseBodies(s, n);
            && |p.bodies| <= n && (p.ok <==> |p.bodies| == n)
            && Fits(p.bodies, pads) && s == EncodeTable(p.bodies, pads, tail)
    decreases n
  {
    hide ParseBody, ParseBodies, EncodeBody, EncodeTable, FitsBody, Fits, SkipPadding;
    if n > 0 && ParseBody(s).Some? {
      var Some((b, rest)) := ParseBody(s);
      BodyHolds(s, b, rest);
      ParseStep(s, n, b, rest);
      var p, t := ParsedIsEncoded(SkipPadding(rest), n - 1);
      pads, tail := OneMore(b, rest, ParseBodies(SkipPadding(rest), n - 1).bodies, p, t);
    } else {
      ParseStop(s, n);
      EmptyTable(s);
      pads, tail := [], s;
    }
  }

  /** However many entries the header claims, the loop reads no more bodies than fit in the data. */
  lemma BodiesFitTheData(s: seq<u8>, n: nat)
    ensures var k := |ParseBodies(s, n).bodies|;
            k > 0 ==> 16 + (k - 1) * (16 + BODY_PADDING) <= |s| && 16 * k <= |s|
  {
  }

  ghost predicate IsTable(s: seq<u8>, bodies: seq<Body>) {
    exists pads, tail :: Fits(bodies, pads) && s == EncodeTable(bodies, pads, tail)
  }

  lemma ParseAcceptsExactlyTables(s: seq<u8>, n: nat, bodies: seq<Body>)
    ensures ParseBodies(s, n) == Parsed(bodies, true) <==> |bodies| == n && IsTable(s, bodies)
  {
    hide ParseBodies, EncodeTable, Fits;
    if ParseBodies(s, n) == Parsed(bodies, true) {
      var pads, tail := ParsedIsEncoded(s, n);
    }
    if |bodies| == n && IsTable(s, bodies) {
      var pads, tail :| Fits(bodies, pads) && s == EncodeTable(bodies, pads, tail);
      ParseUndoesEncode(bodies, pads, tail);
    }
  }

  // ---- Loading a file ----

  function Zeros(n: nat): seq<u8> {
    seq(n, _ => 0)
  }

  function NoHeader(): Header {
    Header(0, 0, 0, 0, 0, Zeros(HEADER_PADDING))
  }

  /** What loading leaves in the object, and its result. */
  datatype LoadResult = LoadResult(header: Header, bodies: seq<Body>, digest: seq<u8>, ok: bool)

  function Loaded(data: seq<u8>): LoadResult {
    if |data| < HEADER_SIZE then LoadResult(NoHeader(), [], Zeros(DIGEST_SIZE), false)
    else
      var h := ParseHeader(data[..HEADER_SIZE]);
      if h.magic != MAGIC then LoadResult(h, [], Zeros(DIGEST_SIZE), false)
      else
        var p := ParseBodies(data[HEADER_SIZE..], h.numEntries);
        LoadResult(h, p.bodies, if p.ok then data[|data| - DIGEST_SIZE..] else Zeros(DIGEST_SIZE), p.ok)
  }

  /** Loading succeeds on exactly the files that consist of a header with the magic number and an encoding of as many
      bodies as the header says; and then the header and the bodies are those. */
  lemma LoadAcceptsExactlyTheFormat(data: seq<u8>, h: Header, bodies: seq<Body>)
    ensures Loaded(data).ok && Loaded(data).header == h && Loaded(data).bodies == bodies <==>
              && h.magic == MAGIC && FitsHeader(h) && |bodies| == h.numEntries && |data| >= HEADER_SIZE
              && data == EncodeHeader(h) + data[HEADER_SIZE..] && IsTable(data[HEADER_SIZE..], bodies)
  {
    if |data| >= HEADER_SIZE {
      var s := data[HEADER_SIZE..];
      HeaderHolds(data[..HEADER_SIZE], h);
      ParseAcceptsExactlyTables(s, h.numEntries, bodies);
      hide ParseHeader, EncodeHeader, ParseBodies, IsTable;
      assert data == data[..HEADER_SIZE] + s;
      if FitsHeader(h) && data == EncodeHeader(h) + s {
        assert data[..HEADER_SIZE] == EncodeHeader(h);
      }
    }
  }

  /** What the loaded object holds, by the bytes of the file: kind and length of an entry, then its bytes; in a body
      the communication id first; in the header the fields in their order. */
  lemma EntryIsAt(s: seq<u8>, e: Entry, rest: seq<u8>)
    requires ParseEntry(s) == Some((e, rest))
    ensures e.kind == 0x100 * Byte(s, 0) + Byte(s, 1) && |e.data| == 0x100 * Byte(s, 2) + Byte(s, 3)
    ensures e.data == s[4..4 + |e.data|] && rest == s[4 + |e.data|..]
  {
    TwoBytes(s[0..2]);
    TwoBytes(s[2..4]);
    hide DecodeBE;
  }

  lemma BodyIsAt(s: seq<u8>, b: Body, rest: seq<u8>)
    requires ParseBody(s) == Some((b, rest))
    ensures var s1 := s[4 + |b.npcommid.data|..];
            var s2 := s1[4 + |b.trophy.data|..];
            var s3 := s2[4 + |b.unk1.data|..];
            && ParseEntry(s) == Some((b.npcommid, s1)) && ParseEntry(s1) == Some((b.trophy, s2))
            && ParseEntry(s2) == Some((b.unk1, s3)) && ParseEntry(s3) == Some((b.unk2, rest))
  {
    hide Field16;
  }

  lemma HeaderIsAt(data: seq<u8>)
    ensures |data| < HEADER_SIZE ==> Loaded(data) == LoadResult(Header(0, 0, 0, 0, 0, Zeros(96)), [], Zeros(20), false)
    ensures |data| >= HEADER_SIZE ==>
            var h := Loaded(data).header;
            && h.magic == DecodeBE(data[0..4]) && h.version == DecodeBE(data[4..8])
            && h.fileSize == DecodeBE(data[8..16]) && h.entrySize == DecodeBE(data[16..24])
            && h.numEntries == DecodeBE(data[24..32]) && h.padding == data[32..128]
  {
    if |data| >= HEADER_SIZE {
      var s := data[..HEADER_SIZE];
      assert s[0..4] == data[0..4] && s[4..8] == data[4..8] && s[8..16] == data[8..16];
      assert s[16..24] == data[16..24] && s[24..32] == data[24..32] && s[32..] == data[32..128];
      hide DecodeBE, ParseBodies;
    }
  }

  /** The digest is the end of the file, wherever the bodies end; a load that fails leaves zeros. */
  lemma DigestIsTheEnd(data: seq<u8>)
    ensures var l := Loaded(data);
            && |l.digest| == 20
            && (l.ok ==> forall i :: 0 <= i < 20 ==> l.digest[i] == data[|data| - 20 + i])
            && (!l.ok ==> forall i :: 0 <= i < 20 ==> l.digest[i] == 0)
  {
    hide ParseHeader, ParseBodies;
  }

  /** A load that succeeds leaves a valid object. A load that fails does so too exactly if the header is there with the
      magic number while what follows is no encoding of as many bodies as it claims. */
  lemma FailedLoadLooksValid(data: seq<u8>)
    ensures Loaded(data).ok ==> Loaded(data).header.magic == MAGIC
    ensures !Loaded(data).ok && Loaded(data).header.magic == MAGIC <==>
              && |data| >= HEADER_SIZE && ParseHeader(data[..HEADER_SIZE]).magic == MAGIC
              && !exists bodies ::
                   |bodies| == ParseHeader(data[..HEADER_SIZE]).numEntries && IsTable(data[HEADER_SIZE..], bodies)
  {
    hide ParseHeader, ParseBodies, IsTable;
    if |data| >= HEADER_SIZE {
      var h, s := ParseHeader(data[..HEADER_SIZE]), data[HEADER_SIZE..];
      ParseAcceptsExactlyTables(s, h.numEntries, ParseBodies(s, h.numEntries).bodies);
      forall bodies | |bodies| == h.numEntries && IsTable(s, bodies) ensures ParseBodies(s, h.numEntries).ok {
        ParseAcceptsExactlyTables(s, h.numEntries, bodies);
      }
    }
  }

  /** For example a header that claims bodies, and nothing behind it. */
  lemma HeaderAloneLooksValid(h: Header)
    requires FitsHeader(h) && h.magic == MAGIC && h.numEntries > 0
    ensures Loaded(EncodeHeader(h)) == LoadResult(h, [], Zeros(DIGEST_SIZE), false)
  {
    var data := EncodeHeader(h);
    HeaderHolds(data, h);
    hide EncodeHeader, ParseHeader;
    assert data[..HEADER_SIZE] == data && data[HEADER_SIZE..] == [];
    ParseStop([], h.numEntries);
  }

  // ---- The object ----

  class NPBindFile {
    var header: Header
    var bodies: seq<Body>
    var digest: seq<u8>

    constructor ()
      ensures header == NoHeader() && bodies == [] && digest == Zeros(DIGEST_SIZE)
    {
      header, bodies, digest := NoHeader(), [], Zeros(DIGEST_SIZE);
    }

    predicate IsValid()
      reads this
    {
      header.magic == MAGIC
    }

    /** Reads one entry and moves past it, within the data. */
    method ReadEntry(data: seq<u8>, offset: nat) returns (e: Option<Entry>, next: nat)
      requires offset <= |data|
      ensures offset <= next <= |data|
      ensures e.None? <==> ParseEntry(data[offset..]).None?
      ensures e.Some? ==> ParseEntry(data[offset..]) == Some((e.value, data[next..]))
    {
      ghost var s := data[offset..];
      if offset + 4 > |data| {
        return None, offset;
      }
      assert s[0..2] == data[offset..offset + 2] && s[2..4] == data[offset + 2..offset + 4];
      var kind := Field16(data[offset..offset + 2]);
      var size := Field16(data[offset + 2..offset + 4]);
      hide Field16;
      next := offset + 4;
      if next + size > |data| {
        return None, next;
      }
      assert s[4..4 + size] == data[next..next + size] && s[4 + size..] == data[next + size..];
      e := Some(Entry(kind, data[next..next + size]));
      next := next + size;
    }

    method ReadBody(data: seq<u8>, offset: nat) returns (b: Option<Body>, next: nat)
      requires offset <= |data|
      ensures offset <= next <= |data|
      ensures b.None? <==> ParseBody(data[offset..]).None?
      ensures b.Some? ==> ParseBody(data[offset..]) == Some((b.value, data[next..]))
    {
      hide ParseEntry;
      next := offset;
      if offset + 4 * 4 > |data| {
        return None, next;
      }
      var npcommid, trophy, unk1, unk2;
      npcommid, next := ReadEntry(data, next);
      if npcommid.None? {
        return None, next;
      }
      trophy, next := ReadEntry(data, next);
      if trophy.None? {
        return None, next;
      }
      unk1, next := ReadEntry(data, next);
      if unk1.None? {
        return None, next;
      }
      unk2, next := ReadEntry(data, next);
      if unk2.None? {
        return None, next;
      }
      b := Some(Body(npcommid.value, trophy.value, unk1.value, unk2.value));
    }

    lemma JoinedTwice(front: seq<Body>, b: Body, p: Parsed)
      ensures Joined(front, Joined([b], p)) == Joined(front + [b], p)
    {
    }

    /** Reads up to `n` bodies after the header; padding that is not all there ends the data. */
    method LoadBodies(data: seq<u8>, n: nat) returns (ok: bool)
      requires |data| >= HEADER_SIZE && bodies == []
      modifies this`bodies
      ensures Parsed(bodies, ok) == ParseBodies(data[HEADER_SIZE..], n)
    {
      hide ParseBodies, ParseBody;
      ghost var whole := ParseBodies(data[HEADER_SIZE..], n);
      var offset: nat := HEADER_SIZE;
      for bi := 0 to n
        invariant offset <= |data|
        invariant whole == Joined(bodies, ParseBodies(data[offset..], n - bi))
      {
        ghost var s, before := data[offset..], bodies;
        var body, next := ReadBody(data, offset);
        if body.None? {
          ParseStop(s, n - bi);
          return false;
        }
        ParseStep(s, n - bi, body.value, data[next..]);
        if next + BODY_PADDING <= |data| {
          offset := next + BODY_PADDING;
        } else {
          offset := |data|;
        }
        assert SkipPadding(data[next..]) == data[offset..];
        bodies := bodies + [body.value];
        JoinedTwice(before, body.value, ParseBodies(data[offset..], n - bi - 1));
      }
      ParseStop(data[offset..], 0);
      ok := true;
    }

    /** A failed load keeps the header and the bodies read so far. */
    method Load(data: seq<u8>) returns (ok: bool)
      modifies this
      ensures LoadResult(header, bodies, digest, ok) == Loaded(data)
      ensures IsValid() <==> Loaded(data).header.magic == MAGIC
    {
      header, bodies, digest := NoHeader(), [], Zeros(DIGEST_SIZE);
      if |data| < HEADER_SIZE {
        return false;
      }
      header := ParseHeader(data[..HEADER_SIZE]);
      hide ParseHeader;
      if header.magic != MAGIC {
        return false;
      }
      ok := LoadBodies(data, header.numEntries);
      if !ok {
        return;
      }
      digest := data[|data| - DIGEST_SIZE..];
    }

    /** The communication ids of the bodies that have one. */
    method GetNpCommIds() returns (ids: seq<seq<u8>>)
      ensures ids == CommIds(bodies)
    {
      ids := [];
      for i := 0 to |bodies|
        invariant ids == CommIds(bodies[..i])
      {
        assert bodies[..i + 1][..i] == bodies[..i];
        if bodies[i].npcommid.data != [] {
          ids := ids + [bodies[i].npcommid.data];
        }
      }
      assert bodies[..|bodies|] == bodies;
    }
  }

  function IdOf(b: Body): seq<seq<u8>> {
    if b.npcommid.data != [] then [b.npcommid.data] else []
  }

  function CommIds(bodies: seq<Body>): seq<seq<u8>> {
    if bodies == [] then [] else CommIds(bodies[..|bodies| - 1]) + IdOf(bodies[|bodies| - 1])
  }

  lemma CommIdsLast(a: seq<Body>, b: Body)
    ensures CommIds(a + [b]) == CommIds(a) + IdOf(b)
  {
    assert (a + [b])[..|a|] == a;
  }

  /** The ids are those of the bodies, in order, without the empty ones: lists are put together from their parts, and
      one body adds its own id or nothing. */
  lemma {:induction false} CommIdsInOrder(a: seq<Body>, c: seq<Body>, b: Body)
    ensures CommIds(a + c) == CommIds(a) + CommIds(c)
    ensures CommIds([b]) == if b.npcommid.data != [] then [b.npcommid.data] else []
    decreases |c|
  {
    CommIdsLast([], b);
    assert [] + [b] == [b] && CommIds([]) + IdOf(b) == IdOf(b);
    if c == [] {
      assert a + c == a;
    } else {
      var front, last := c[..|c| - 1], c[|c| - 1];
      CommIdsInOrder(a, front, b);
      FrontAndLast(a, c);
      CommIdsLast(a + front, last);
      CommIdsLast(front, last);
      hide CommIds, IdOf;
      Associative(CommIds(a), CommIds(front), IdOf(last));
    }
  }

  lemma FrontAndLast<T>(a: seq<T>, c: seq<T>)
    requires c != []
    ensures a + c == a + c[..|c| - 1] + [c[|c| - 1]] && c == c[..|c| - 1] + [c[|c| - 1]]
  {
  }

  lemma Associative<T>(x: seq<T>, y: seq<T>, z: seq<T>)
    ensures x + y + z == x + (y + z)
  {
  }
}
