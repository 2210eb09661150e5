/** The hand-packed WebApiPushEvent notification: length-prefixed blobs, a label, key/value pairs, account ids. */
module PushEvent {
  import opened Widths
  import opened LittleEndian

  /** The reader thread never hands over a larger payload. */
  const MAX_PAYLOAD: nat := 0x80_0000 - 15
  const MAX_PAIRS: nat := 256

  datatype Pair = Pair(key: seq<u8>, value: seq<u8>)

  datatype Event = Event(
    serviceName: seq<u8>, serviceLabel: u32, dataType: seq<u8>, data: seq<u8>,
    fromNpid: seq<u8>, toNpid: seq<u8>, extdData: seq<Pair>,
    fromAccountId: u64, toAccountId: u64)

  /** `Undefined` marks a blob that passes the bounds check although it is not there: the read leaves the payload. */
  datatype Outcome<+T> = Done(value: T) | Undefined {
    predicate IsFailure() { Undefined? }
    function PropagateFailure<U>(): Outcome<U>
      requires Undefined?
    {
      Undefined
    }
    function Extract(): T
      requires Done?
    {
      value
    }
  }

  /** A position plus a length word in 32-bit arithmetic. */
  function Sum32(pos: nat, len: u32): int {
    ToS32(ToU32(pos + len))
  }

  /** The blob at `pos`, or nothing when its length is not there or the bounds check refuses it. The check adds in 32
      bits. */
  function ExtractBlob(p: seq<u8>, pos: nat): Outcome<seq<u8>> {
    if pos + 4 > |p| then Done([])
    else
      var len := GetLE32(p, pos);
      if Sum32(pos + 4, len) > |p| then Done([])
      else if pos + 4 + len > |p| then Undefined
      else Done(p[pos + 4..pos + 4 + len])
  }

  /** The blob at `off` and the offset behind it; a missing blob still advances by four. */
  function TakeBlob(p: seq<u8>, off: nat): Outcome<Taken> {
    var b :- ExtractBlob(p, off);
    Done(Taken(b, off + 4 + |b|))
  }

  datatype Taken = Taken(bytes: seq<u8>, next: nat)

  datatype PairList = PairList(pairs: seq<Pair>, next: nat, complete: bool)

  /** At most n pairs from `off` on. */
  function ReadPairs(p: seq<u8>, off: nat, n: nat): Outcome<PairList>
    decreases n
  {
    if n == 0 then Done(PairList([], off, true))
    else if off + 4 > |p| then Done(PairList([], off, false))
    else
      var key :- TakeBlob(p, off);
      if key.next + 4 > |p| then Done(PairList([], key.next, false))
      else
        var value :- TakeBlob(p, key.next);
        Prepended([Pair(key.bytes, value.bytes)], ReadPairs(p, value.next, n - 1))
  }

  datatype Tail = Tail(pairs: seq<Pair>, fromAccountId: u64, toAccountId: u64)

  function ReadTail(p: seq<u8>, off: nat): Outcome<Tail> {
    if off + 4 > |p| then Done(Tail([], 0, 0))
    else
      var count := GetLE32(p, off);
      var l :- ReadPairs(p, off + 4, if count < MAX_PAIRS then count else MAX_PAIRS);
      if count <= MAX_PAIRS && l.complete && l.next + 16 <= |p| then
        Done(Tail(l.pairs, ReadU64(p, l.next), ReadU64(p, l.next + 8)))
      else
        Done(Tail(l.pairs, 0, 0))
  }

  function ReadU64(p: seq<u8>, off: nat): u64
    requires off + 8 <= |p|
  {
    EncodeDecode(p[off..off + 8]);
    Pow256Of8();
    Decode(p[off..off + 8])
  }

  function Parse(p: seq<u8>): Outcome<Event> {
    var serviceName :- TakeBlob(p, 0);
    var hasLabel := serviceName.next + 4 <= |p|;
    var label' := if hasLabel then GetLE32(p, serviceName.next) else 0;
    var dataType :- TakeBlob(p, if hasLabel then serviceName.next + 4 else serviceName.next);
    var data :- TakeBlob(p, dataType.next);
    var fromNpid :- TakeBlob(p, data.next);
    var toNpid :- TakeBlob(p, fromNpid.next);
    var t :- ReadTail(p, toNpid.next);
    Done(Event(serviceName.bytes, label', dataType.bytes, data.bytes, fromNpid.bytes, toNpid.bytes,
               t.pairs, t.fromAccountId, t.toAccountId))
  }

  // ---- The encoding ----

  function EncodeBlob(b: seq<u8>): (s: seq<u8>)
    ensures |s| == 4 + |b|
  {
    Encode(ToU32(|b|), 4) + b
  }

  function EncodePairs(ps: seq<Pair>): seq<u8> {
    if ps == [] then [] else EncodePair(ps[0]) + EncodePairs(ps[1..])
  }

  function EncodePair(pair: Pair): (s: seq<u8>)
    ensures |s| == 8 + |pair.key| + |pair.value|
  {
    EncodeBlob(pair.key) + EncodeBlob(pair.value)
  }

  /** Everything up to the account ids. */
  function EncodeBody(e: Event): seq<u8> {
    EncodeBlob(e.serviceName) + (Encode(e.serviceLabel, 4) + (EncodeBlob(e.dataType) + (EncodeBlob(e.data) +
    (EncodeBlob(e.fromNpid) + (EncodeBlob(e.toNpid) + (Encode(ToU32(|e.extdData|), 4) + EncodePairs(e.extdData)))))))
  }

  function EncodeIds(e: Event): seq<u8> {
    Encode(e.fromAccountId, 8) + Encode(e.toAccountId, 8)
  }

  // ---- Reading back, one field at a time ----

  /** p continues at `off` with `field`, followed by `rest`. */
  ghost predicate Next(p: seq<u8>, off: nat, field: seq<u8>, rest: seq<u8>) {
    off <= |p| && p[off..] == field + rest
  }

  lemma NextAdvances(p: seq<u8>, off: nat, field: seq<u8>, rest: seq<u8>)
    requires Next(p, off, field, rest)
    ensures off + |field| <= |p|
    ensures p[off..off + |field|] == field && p[off + |field|..] == rest
  {
  }

  lemma BlobReadsBack(p: seq<u8>, off: nat, b: seq<u8>, rest: seq<u8>)
    requires |p| <= MAX_PAYLOAD && Next(p, off, EncodeBlob(b), rest)
    ensures TakeBlob(p, off) == Done(Taken(b, off + 4 + |b|))
    ensures off + 4 + |b| <= |p| && p[off + 4 + |b|..] == rest
  {
    hide Encode, GetLE32;
    NextAdvances(p, off, EncodeBlob(b), rest);
    var whole := p[off..off + 4 + |b|];
    assert p[off..off + 4] == whole[..4] == Encode(|b|, 4);
    assert p[off + 4..off + 4 + |b|] == whole[4..] == b;
    ReadsBack32(p, off, |b|);
  }

  lemma LabelReadsBack(p: seq<u8>, off: nat, v: u32, rest: seq<u8>)
    requires Next(p, off, Encode(v, 4), rest)
    ensures off + 4 <= |p| && GetLE32(p, off) == v && p[off + 4..] == rest
  {
    NextAdvances(p, off, Encode(v, 4), rest);
    ReadsBack32(p, off, v);
  }

  lemma Regroup(a: seq<u8>, b: seq<u8>, c: seq<u8>)
    ensures (a + b) + c == a + (b + c)
  {
  }

  lemma NextSplits(p: seq<u8>, off: nat, a: seq<u8>, b: seq<u8>, rest: seq<u8>)
    requires Next(p, off, a + b, rest)
    ensures Next(p, off, a, b + rest)
    ensures off + |a| <= |p| && Next(p, off + |a|, b, rest)
  {
  }

  lemma PairReadsBack(p: seq<u8>, off: nat, pair: Pair, rest: seq<u8>)
    requires |p| <= MAX_PAYLOAD && Next(p, off, EncodePair(pair), rest)
    ensures var off1 := off + 4 + |pair.key|;
            && off1 + 4 <= |p|
            && TakeBlob(p, off) == Done(Taken(pair.key, off1))
            && TakeBlob(p, off1) == Done(Taken(pair.value, off1 + 4 + |pair.value|))
    ensures p[off..off + |EncodePair(pair)|] == EncodePair(pair)
  {
    hide Encode, EncodeBlob, TakeBlob;
    var key, value := EncodeBlob(pair.key), EncodeBlob(pair.value);
    NextAdvances(p, off, key + value, rest);
    NextSplits(p, off, key, value, rest);
    BlobReadsBack(p, off, pair.key, value + rest);
    BlobReadsBack(p, off + |key|, pair.value, rest);
  }

  lemma {:induction false} PairsReadBack(p: seq<u8>, off: nat, ps: seq<Pair>, rest: seq<u8>)
    requires |p| <= MAX_PAYLOAD && Next(p, off, EncodePairs(ps), rest)
    ensures ReadPairs(p, off, |ps|) == Done(PairList(ps, off + |EncodePairs(ps)|, true))
    decreases |ps|
  {
    hide EncodePair, TakeBlob;
    if ps == [] {
    } else {
      var head, later := EncodePair(ps[0]), EncodePairs(ps[1..]);
      NextSplits(p, off, head, later, rest);
      PairReadsBack(p, off, ps[0], later + rest);
      PairsReadBack(p, off + |head|, ps[1..], rest);
      ReadPairsUnfolds(p, off, ps);
    }
  }

  lemma ReadPairsUnfolds(p: seq<u8>, off: nat, ps: seq<Pair>)
    requires ps != []
    requires var off1 := off + 4 + |ps[0].key|;
             && off1 + 4 <= |p|
             && TakeBlob(p, off) == Done(Taken(ps[0].key, off1))
             && TakeBlob(p, off1) == Done(Taken(ps[0].value, off1 + 4 + |ps[0].value|))
    requires ReadPairs(p, off + |EncodePair(ps[0])|, |ps| - 1)
          == Done(PairList(ps[1..], off + |EncodePair(ps[0])| + |EncodePairs(ps[1..])|, true))
    ensures ReadPairs(p, off, |ps|) == Done(PairList(ps, off + |EncodePairs(ps)|, true))
  {
    hide TakeBlob, EncodePair;
    assert ps == [Pair(ps[0].key, ps[0].value)] + ps[1..];
  }

  lemma {:induction false} EncodePairsSplit(ps: seq<Pair>, k: nat)
    requires k <= |ps|
    ensures EncodePairs(ps) == EncodePairs(ps[..k]) + EncodePairs(ps[k..])
  {
    hide EncodePair;
    if k == 0 {
      assert ps[0..] == ps;
    } else {
      EncodePairsSplit(ps[1..], k - 1);
      assert ps[..k][1..] == ps[1..][..k - 1];
      assert ps[1..][k - 1..] == ps[k..];
    }
  }

  lemma {:induction false} PairsAreNotTooMany(ps: seq<Pair>)
    ensures 8 * |ps| <= |EncodePairs(ps)|
  {
    if ps != [] {
      PairsAreNotTooMany(ps[1..]);
    }
  }

  /** What the reader keeps of an event whose account ids may be missing from the wire. */
  function Kept(e: Event, idsSent: bool): Event {
    if |e.extdData| > MAX_PAIRS then e.(extdData := e.extdData[..MAX_PAIRS], fromAccountId := 0, toAccountId := 0)
    else if !idsSent then e.(fromAccountId := 0, toAccountId := 0)
    else e
  }

  lemma IdsReadBack(p: seq<u8>, off: nat, e: Event, rest: seq<u8>)
    requires off <= |p| && p[off..] == rest && EncodeIds(e) <= rest
    ensures off + 16 <= |p|
    ensures ReadU64(p, off) == e.fromAccountId && ReadU64(p, off + 8) == e.toAccountId
  {
    var first, second := Encode(e.fromAccountId, 8), Encode(e.toAccountId, 8);
    assert rest == (first + second) + rest[16..];
    NextSplits(p, off, first, second, rest[16..]);
    NextAdvances(p, off, first, second + rest[16..]);
    NextAdvances(p, off + 8, second, rest[16..]);
    ReadsBack64(p, off, e.fromAccountId);
    ReadsBack64(p, off + 8, e.toAccountId);
  }

  lemma TailReadsBack(p: seq<u8>, off: nat, e: Event, rest: seq<u8>)
    requires |p| <= MAX_PAYLOAD
    requires Next(p, off, Encode(ToU32(|e.extdData|), 4) + EncodePairs(e.extdData), rest)
    requires EncodeIds(e) <= rest || |rest| < 16
    ensures var k := Kept(e, |rest| >= 16);
            ReadTail(p, off) == Done(Tail(k.extdData, k.fromAccountId, k.toAccountId))
  {
    hide Encode, EncodePairs, ReadPairs, GetLE32, EncodeIds, ReadU64;
    var ps := e.extdData;
    var pairs := EncodePairs(ps);
    PairsAreNotTooMany(ps);
    NextSplits(p, off, Encode(ToU32(|ps|), 4), pairs, rest);
    NextAdvances(p, off + 4, pairs, rest);
    LabelReadsBack(p, off, |ps|, pairs + rest);
    if |ps| <= MAX_PAIRS {
      PairsReadBack(p, off + 4, ps, rest);
      if |rest| >= 16 {
        IdsReadBack(p, off + 4 + |pairs|, e, rest);
      }
    } else {
      EncodePairsSplit(ps, MAX_PAIRS);
      var first, later := EncodePairs(ps[..MAX_PAIRS]), EncodePairs(ps[MAX_PAIRS..]);
      NextSplits(p, off + 4, first, later, rest);
      PairsReadBack(p, off + 4, ps[..MAX_PAIRS], later + rest);
    }
  }

  /** The part of the encoding behind the third field. */
  function EncodeRest(e: Event): seq<u8> {
    EncodeBlob(e.data) +
    (EncodeBlob(e.fromNpid) + (EncodeBlob(e.toNpid) + (Encode(ToU32(|e.extdData|), 4) + EncodePairs(e.extdData))))
  }

  lemma FirstFieldsReadBack(e: Event, rest: seq<u8>)
    requires |EncodeBody(e) + rest| <= MAX_PAYLOAD
    ensures var p := EncodeBody(e) + rest;
            var o1 := 4 + |e.serviceName|;
            var o2 := o1 + 4;
            && TakeBlob(p, 0) == Done(Taken(e.serviceName, o1))
            && o2 <= |p| && GetLE32(p, o1) == e.serviceLabel
            && TakeBlob(p, o2) == Done(Taken(e.dataType, o2 + 4 + |e.dataType|))
            && Next(p, o2 + 4 + |e.dataType|, EncodeRest(e), rest)
  {
    hide Encode, EncodeBlob, EncodePairs, TakeBlob, GetLE32, EncodeRest;
    var p := EncodeBody(e) + rest;
    var b1, b2, b3, b4 := EncodeBlob(e.serviceName), Encode(e.serviceLabel, 4), EncodeBlob(e.dataType), EncodeRest(e);
    assert EncodeBody(e) == b1 + (b2 + (b3 + b4)) by { BodySplits(e); }
    hide EncodeBody;
    assert Next(p, 0, b1 + (b2 + (b3 + b4)), rest) by { assert p[0..] == p; }
    hide Next;
    NextSplits(p, 0, b1, b2 + (b3 + b4), rest);
    NextSplits(p, |b1|, b2, b3 + b4, rest);
    NextSplits(p, |b1| + 4, b3, b4, rest);
    BlobReadsBack(p, 0, e.serviceName, b2 + (b3 + b4) + rest);
    LabelReadsBack(p, |b1|, e.serviceLabel, b3 + b4 + rest);
    BlobReadsBack(p, |b1| + 4, e.dataType, b4 + rest);
  }

  lemma BodySplits(e: Event)
    ensures EncodeBody(e) ==
              EncodeBlob(e.serviceName) + (Encode(e.serviceLabel, 4) + (EncodeBlob(e.dataType) + EncodeRest(e)))
  {
    hide Encode, EncodeBlob, EncodePairs;
  }

  lemma LastFieldsReadBack(p: seq<u8>, o: nat, e: Event, rest: seq<u8>)
    requires |p| <= MAX_PAYLOAD && Next(p, o, EncodeRest(e), rest)
    requires EncodeIds(e) <= rest || |rest| < 16
    ensures var o4 := o + 4 + |e.data|;
            var o5 := o4 + 4 + |e.fromNpid|;
            var o6 := o5 + 4 + |e.toNpid|;
            var k := Kept(e, |rest| >= 16);
            && TakeBlob(p, o) == Done(Taken(e.data, o4))
            && TakeBlob(p, o4) == Done(Taken(e.fromNpid, o5))
            && TakeBlob(p, o5) == Done(Taken(e.toNpid, o6))
            && ReadTail(p, o6) == Done(Tail(k.extdData, k.fromAccountId, k.toAccountId))
  {
    hide Encode, EncodeBlob, EncodePairs, TakeBlob, ReadTail, GetLE32, EncodeIds, Kept;
    var b4, b5, b6 := EncodeBlob(e.data), EncodeBlob(e.fromNpid), EncodeBlob(e.toNpid);
    var b7 := Encode(ToU32(|e.extdData|), 4) + EncodePairs(e.extdData);
    assert EncodeRest(e) == b4 + (b5 + (b6 + b7));
    hide EncodeRest;
    NextSplits(p, o, b4, b5 + (b6 + b7), rest);
    NextSplits(p, o + |b4|, b5, b6 + b7, rest);
    NextSplits(p, o + |b4| + |b5|, b6, b7, rest);
    BlobReadsBack(p, o, e.data, b5 + (b6 + b7) + rest);
    BlobReadsBack(p, o + |b4|, e.fromNpid, b6 + b7 + rest);
    BlobReadsBack(p, o + |b4| + |b5|, e.toNpid, b7 + rest);
    TailReadsBack(p, o + |b4| + |b5| + |b6|, e, rest);
  }

  /** Reading recovers every field of every event; past 256 pairs it keeps the first 256 and no account ids.
      Account ids that the sender left out, all sixteen bytes or part of them, read as zero. */
  lemma RoundTrip(e: Event, rest: seq<u8>)
    requires |EncodeBody(e) + rest| <= MAX_PAYLOAD
    requires EncodeIds(e) <= rest || |rest| < 16
    ensures Parse(EncodeBody(e) + rest) == Done(Kept(e, |rest| >= 16))
  {
    hide Encode, EncodeBody, EncodeRest, TakeBlob, ReadTail, GetLE32, EncodeIds, Next;
    FirstFieldsReadBack(e, rest);
    LastFieldsReadBack(EncodeBody(e) + rest, 12 + |e.serviceName| + |e.dataType|, e, rest);
  }

  /** No two events within the limits share an encoding. */
  lemma EncodingIsInjective(a: Event, b: Event)
    requires |a.extdData| <= MAX_PAIRS && |b.extdData| <= MAX_PAIRS
    requires EncodeBody(a) + EncodeIds(a) == EncodeBody(b) + EncodeIds(b)
    requires |EncodeBody(a) + EncodeIds(a)| <= MAX_PAYLOAD
    ensures a == b
  {
    RoundTrip(a, EncodeIds(a));
    RoundTrip(b, EncodeIds(b));
  }

  lemma SmallWord(v: u8)
    ensures Encode(v, 4) == [v, 0, 0, 0] && Encode(v, 8) == [v, 0, 0, 0, 0, 0, 0, 0]
  {
    assert Encode(0, 1) == [0] && Encode(0, 3) == [0, 0, 0];
    assert Encode(0, 4) == [0, 0, 0, 0];
  }

  lemma SmallBlob(b: u8)
    ensures EncodeBlob([b]) == [1, 0, 0, 0, b]
  {
    hide Encode;
    var word := Encode(1, 4);
    assert word == [1, 0, 0, 0] by { SmallWord(1); }
    assert EncodeBlob([b]) == word + [b];
    hide EncodeBlob;
  }

  /** The order of the fields on the wire, by an event whose fields all differ. */
  lemma FieldsOnTheWire()
    ensures Parse([1, 0, 0, 0, 11] + ([2, 0, 0, 0] + ([1, 0, 0, 0, 13] + ([1, 0, 0, 0, 14] + ([1, 0, 0, 0, 15] +
                  ([1, 0, 0, 0, 16] + ([1, 0, 0, 0] + ([1, 0, 0, 0, 17] + [1, 0, 0, 0, 18])))))))
                  + ([19, 0, 0, 0, 0, 0, 0, 0] + [20, 0, 0, 0, 0, 0, 0, 0]))
         == Done(Event([11], 2, [13], [14], [15], [16], [Pair([17], [18])], 19, 20))
  {
    var e := Event([11], 2, [13], [14], [15], [16], [Pair([17], [18])], 19, 20);
    SmallBlob(11);
    SmallBlob(13);
    SmallBlob(14);
    SmallBlob(15);
    SmallBlob(16);
    OnePair(17, 18);
    SmallWord(1);
    SmallWord(2);
    SmallWord(19);
    SmallWord(20);
    hide Encode, EncodeBlob, Parse, EncodePairs;
    RoundTrip(e, EncodeIds(e));
  }

  lemma OnePair(k: u8, v: u8)
    ensures EncodePairs([Pair([k], [v])]) == [1, 0, 0, 0, k] + [1, 0, 0, 0, v]
  {
    SmallBlob(k);
    SmallBlob(v);
    var ps := [Pair([k], [v])];
    assert ps[1..] == [];
    assert EncodePairs(ps) == EncodePair(ps[0]) + [] == EncodePair(ps[0]);
  }

  // ---- Lengths the bounds check lets through ----

  /** A length word at `off` after which the blob would end at 2^31 or later. */
  predicate TooLong(p: seq<u8>, off: nat) {
    off + 4 <= |p| && off + 4 + GetLE32(p, off) >= 0x8000_0000
  }

  /** A blob behind `pos` that does not end within n bytes passes the check in 32 bits exactly if its end does not fit
      into 31. */
  lemma SumOverflows(pos: nat, len: u32, n: nat)
    requires pos <= n <= MAX_PAYLOAD
    ensures Sum32(pos, len) <= n < pos + len <==> pos + len >= 0x8000_0000
    ensures pos + len < 0x8000_0000 ==> Sum32(pos, len) == pos + len
  {
  }

  /** The bounds check lets through exactly the blobs whose end overflows. */
  lemma BlobIsUndefined(p: seq<u8>, pos: nat)
    requires |p| <= MAX_PAYLOAD
    ensures ExtractBlob(p, pos).Undefined? <==> TooLong(p, pos)
    ensures TakeBlob(p, pos).Undefined? <==> TooLong(p, pos)
    ensures TakeBlob(p, pos).Done? ==> TakeBlob(p, pos).value.next == Behind(p, pos)
  {
    hide GetLE32, Sum32;
    if pos + 4 <= |p| {
      SumOverflows(pos + 4, GetLE32(p, pos), |p|);
    }
  }

  /** Four bytes are enough: a length with its top bit set, which the check reads as negative. */
  lemma NegativeLengthIsAccepted()
    ensures Parse([0xFF, 0xFF, 0xFF, 0xFF]) == Undefined
  {
  }

  /** Also a length with its top bit clear, which is positive, as long as the sum with its position is not. */
  lemma OverflowingLengthIsAccepted()
    ensures Parse([0xFC, 0xFF, 0xFF, 0x7F]) == Undefined
    ensures Parse([0xFB, 0xFF, 0xFF, 0x7F]) == Done(Event([], 0, [], [], [], [], [], 0, 0))
  {
  }

  /** The offset behind the blob at `off`; a blob that is not all there counts as empty. */
  function Behind(p: seq<u8>, off: nat): nat {
    if off + 4 > |p| || off + 4 + GetLE32(p, off) > |p| then off + 4 else off + 4 + GetLE32(p, off)
  }

  function BehindLabel(p: seq<u8>, off: nat): nat {
    if off + 4 <= |p| then off + 4 else off
  }

  /** Offsets of the length words of up to n pairs. */
  function PairWords(p: seq<u8>, off: nat, n: nat): seq<nat>
    decreases n
  {
    if n == 0 || off + 4 > |p| then []
    else
      var v := Behind(p, off);
      [off] + if v + 4 > |p| then [] else [v] + PairWords(p, Behind(p, v), n - 1)
  }

  function TailWords(p: seq<u8>, off: nat): seq<nat> {
    if off + 4 > |p| then []
    else
      var count := GetLE32(p, off);
      PairWords(p, off + 4, if count < MAX_PAIRS then count else MAX_PAIRS)
  }

  /** Offsets at which the walk looks for a length word, if no blob is too long. */
  function LengthWords(p: seq<u8>): seq<nat> {
    var o2 := BehindLabel(p, Behind(p, 0));
    var o3 := Behind(p, o2);
    var o4 := Behind(p, o3);
    var o5 := Behind(p, o4);
    [0, o2, o3, o4, o5] + TailWords(p, Behind(p, o5))
  }

  /** The walk ends at the first length that is too long. */
  function UpToTooLong(p: seq<u8>, offs: seq<nat>): seq<nat> {
    if offs == [] then []
    else if TooLong(p, offs[0]) then [offs[0]] else [offs[0]] + UpToTooLong(p, offs[1..])
  }

  function Reached(p: seq<u8>): seq<nat> {
    UpToTooLong(p, LengthWords(p))
  }

  ghost predicate AnyTooLong(p: seq<u8>, offs: seq<nat>) {
    exists off :: off in offs && TooLong(p, off)
  }

  lemma {:induction false} CutKeepsTooLong(p: seq<u8>, offs: seq<nat>)
    ensures AnyTooLong(p, UpToTooLong(p, offs)) <==> AnyTooLong(p, offs)
  {
    if offs != [] && !TooLong(p, offs[0]) {
      CutKeepsTooLong(p, offs[1..]);
      hide TooLong;
      assert offs == [offs[0]] + offs[1..];
    } else if offs != [] {
      hide TooLong;
      assert offs[0] in offs;
    }
  }

  lemma TooLongConcat(p: seq<u8>, a: seq<nat>, b: seq<nat>)
    ensures AnyTooLong(p, a + b) <==> AnyTooLong(p, a) || AnyTooLong(p, b)
  {
    hide TooLong;
  }

  lemma TooLongOne(p: seq<u8>, off: nat)
    ensures AnyTooLong(p, [off]) <==> TooLong(p, off)
    ensures !AnyTooLong(p, [])
  {
    hide TooLong;
    assert off in [off];
  }

  lemma {:induction false} PairsAreUndefined(p: seq<u8>, off: nat, n: nat)
    requires |p| <= MAX_PAYLOAD
    ensures ReadPairs(p, off, n).Undefined? <==> AnyTooLong(p, PairWords(p, off, n))
    decreases n
  {
    TooLongOne(p, off);
    ReadPairsStep(p, off, n);
    BlobIsUndefined(p, off);
    if n > 0 && off + 4 <= |p| {
      var v := Behind(p, off);
      BlobIsUndefined(p, v);
      TooLongOne(p, v);
      if v + 4 <= |p| {
        PairsAreUndefined(p, Behind(p, v), n - 1);
        PairWordsStep(p, off, n);
        hide AnyTooLong, TooLong, Behind, TakeBlob, PairWords, ReadPairs;
        TooLongConcat(p, [off], [v] + PairWords(p, Behind(p, v), n - 1));
        TooLongConcat(p, [v], PairWords(p, Behind(p, v), n - 1));
      }
    }
  }

  lemma PairWordsStep(p: seq<u8>, off: nat, n: nat)
    requires n > 0 && off + 4 <= |p| && Behind(p, off) + 4 <= |p|
    ensures var v := Behind(p, off);
            PairWords(p, off, n) == [off] + ([v] + PairWords(p, Behind(p, v), n - 1))
  {
  }

  /** The reader leaves its payload exactly if some blob that the walk reaches would end at 2^31 or
      later. */
  lemma UndefinedExactlyForOverflowingLengths(p: seq<u8>)
    requires |p| <= MAX_PAYLOAD
    ensures Parse(p).Undefined? <==> exists off :: off in Reached(p) && TooLong(p, off)
  {
    var o2 := BehindLabel(p, Behind(p, 0));
    var o3 := Behind(p, o2);
    var o4 := Behind(p, o3);
    var o5 := Behind(p, o4);
    var o6 := Behind(p, o5);
    BlobIsUndefined(p, 0);
    BlobIsUndefined(p, o2);
    BlobIsUndefined(p, o3);
    BlobIsUndefined(p, o4);
    BlobIsUndefined(p, o5);
    TailIsUndefined(p, o6);
    FiveWords(p, 0, o2, o3, o4, o5, TailWords(p, o6));
    assert LengthWords(p) == [0, o2, o3, o4, o5] + TailWords(p, o6);
    CutKeepsTooLong(p, LengthWords(p));
    assert AnyTooLong(p, Reached(p)) <==> exists off :: off in Reached(p) && TooLong(p, off);
    hide TooLong, Behind, TakeBlob, TailWords, ReadTail, UpToTooLong, LengthWords, AnyTooLong, GetLE32, Reached;
  }

  lemma TailIsUndefined(p: seq<u8>, off: nat)
    requires |p| <= MAX_PAYLOAD
    ensures ReadTail(p, off).Undefined? <==> AnyTooLong(p, TailWords(p, off))
  {
    hide GetLE32, ReadPairs, PairWords, ReadU64;
    if off + 4 <= |p| {
      PairsAreUndefined(p, off + 4, if GetLE32(p, off) < MAX_PAIRS then GetLE32(p, off) else MAX_PAIRS);
    }
  }

  lemma FiveWords(p: seq<u8>, a: nat, b: nat, c: nat, d: nat, e: nat, more: seq<nat>)
    ensures AnyTooLong(p, [a, b, c, d, e] + more) <==>
              || TooLong(p, a) || TooLong(p, b) || TooLong(p, c) || TooLong(p, d) || TooLong(p, e)
              || AnyTooLong(p, more)
  {
    hide TooLong;
    var five := [a, b, c, d, e];
    TooLongConcat(p, five, more);
    assert a in five && b in five && c in five && d in five && e in five;
  }

  // ---- The offset walk of the notification handler ----

  method HandleWebApiPushEvent(payload: seq<u8>) returns (r: Outcome<Event>)
    requires |payload| <= MAX_PAYLOAD
    ensures r == Parse(payload)
  {
    hide GetLE32, ExtractBlob, ReadTail;
    var off: nat := 0;
    var serviceName: seq<u8>, dataType: seq<u8>, data: seq<u8>, fromNpid: seq<u8>, toNpid: seq<u8>;
    var serviceLabel: u32 := 0;
    serviceName :- ExtractBlob(payload, off);
    off := off + 4 + |serviceName|;
    if off + 4 <= |payload| {
      serviceLabel := GetLE32(payload, off);
      off := off + 4;
    }
    dataType :- ExtractBlob(payload, off);
    off := off + 4 + |dataType|;
    data :- ExtractBlob(payload, off);
    off := off + 4 + |data|;
    fromNpid :- ExtractBlob(payload, off);
    off := off + 4 + |fromNpid|;
    toNpid :- ExtractBlob(payload, off);
    off := off + 4 + |toNpid|;
    var tail :- HandleTail(payload, off);
    r := Done(Event(serviceName, serviceLabel, dataType, data, fromNpid, toNpid,
                    tail.pairs, tail.fromAccountId, tail.toAccountId));
  }

  method HandleTail(payload: seq<u8>, start: nat) returns (r: Outcome<Tail>)
    ensures r == ReadTail(payload, start)
  {
    hide GetLE32, ExtractBlob, Decode, Encode, Pow256, ReadPairs;
    if start + 4 > |payload| {
      return Done(Tail([], 0, 0));
    }
    var count := GetLE32(payload, start);
    var l :- HandlePairs(payload, start + 4, count);
    var fromAccountId: u64, toAccountId: u64 := 0, 0;
    if l.complete && l.next + 16 <= |payload| {
      fromAccountId := GetLE64(payload, l.next);
      toAccountId := GetLE64(payload, l.next + 8);
    }
    r := Done(Tail(l.pairs, fromAccountId, toAccountId));
  }

  /** The loop over the announced pairs. The list is complete only if none was missing and none was dropped. */
  method HandlePairs(payload: seq<u8>, start: nat, count: u32) returns (r: Outcome<PairList>)
    ensures var l := ReadPairs(payload, start, if count < MAX_PAIRS then count else MAX_PAIRS);
            && (r.Done? <==> l.Done?)
            && (r.Done? ==> r.value == l.value.(complete := l.value.complete && count <= MAX_PAIRS))
  {
    hide GetLE32, ExtractBlob, ReadPairs;
    var off: nat := start;
    var complete := count <= MAX_PAIRS;
    var pairs: seq<Pair> := [];
    var i: nat := 0;
    ghost var limit: nat := if count < MAX_PAIRS then count else MAX_PAIRS;
    ghost var all := ReadPairs(payload, off, limit);
    PrependedNothing(all);
    while i < count && i < MAX_PAIRS
      invariant i <= limit && complete == (count <= MAX_PAIRS)
      invariant all == Prepended(pairs, ReadPairs(payload, off, limit - i))
    {
      ReadPairsStep(payload, off, limit - i);
      if off + 4 > |payload| {
        complete := false;
        break;
      }
      var key :- ExtractBlob(payload, off);
      off := off + 4 + |key|;
      if off + 4 > |payload| {
        complete := false;
        break;
      }
      var value :- ExtractBlob(payload, off);
      off := off + 4 + |value|;
      PrependedTwice(pairs, [Pair(key, value)], ReadPairs(payload, off, limit - i - 1));
      pairs := pairs + [Pair(key, value)];
      i := i + 1;
    }
    ReadPairsStep(payload, off, limit - i);
    r := Done(PairList(pairs, off, complete));
  }

  lemma ReadPairsStep(p: seq<u8>, off: nat, n: nat)
    ensures n == 0 ==> ReadPairs(p, off, n) == Done(PairList([], off, true))
    ensures n > 0 && off + 4 > |p| ==> ReadPairs(p, off, n) == Done(PairList([], off, false))
    ensures n > 0 && off + 4 <= |p| ==>
              var key := TakeBlob(p, off);
              if key.Undefined? then ReadPairs(p, off, n) == Undefined
              else if key.value.next + 4 > |p| then
                ReadPairs(p, off, n) == Done(PairList([], key.value.next, false))
              else
                var value := TakeBlob(p, key.value.next);
                if value.Undefined? then ReadPairs(p, off, n) == Undefined
                else
                  ReadPairs(p, off, n) ==
                  Prepended([Pair(key.value.bytes, value.value.bytes)], ReadPairs(p, value.value.next, n - 1))
  {
  }

  function Prepended(pairs: seq<Pair>, rest: Outcome<PairList>): Outcome<PairList> {
    var l :- rest;
    Done(l.(pairs := pairs + l.pairs))
  }

  lemma PrependedNothing(rest: Outcome<PairList>)
    ensures Prepended([], rest) == rest
  {
    if rest.Done? {
      assert [] + rest.value.pairs == rest.value.pairs;
    }
  }

  lemma PrependedTwice(a: seq<Pair>, b: seq<Pair>, rest: Outcome<PairList>)
    ensures Prepended(a, Prepended(b, rest)) == Prepended(a + b, rest)
  {
    if rest.Done? {
      assert a + (b + rest.value.pairs) == a + b + rest.value.pairs;
    }
  }
}
