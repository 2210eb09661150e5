/** Little-endian fields of the ShadNet wire format. */
module LittleEndian {
  import opened Widths

  function Pow256(n: nat): (r: nat)
    ensures r > 0
  {
    if n == 0 then 1 else 256 * Pow256(n - 1)
  }

  /** The n low-order bytes of v, least significant first. */
  function Encode(v: nat, n: nat): (bs: seq<u8>)
    ensures |bs| == n
  {
    if n == 0 then [] else [v % 256] + Encode(v / 256, n - 1)
  }

  function Decode(bs: seq<u8>): nat {
    if |bs| == 0 then 0 else bs[0] + 256 * Decode(bs[1..])
  }

  lemma NonzeroMultiple(m: nat, d: int)
    requires m > 0 && d != 0
    ensures m * d >= m || m * d + m <= 0
  {
  }

  lemma DivModUnique(v: nat, m: nat, q: nat, r: nat)
    requires m > 0 && v == m * q + r && r < m
    ensures v / m == q && v % m == r
  {
    var d := v / m - q;
    assert m * d == m * (v / m) - m * q;
    assert m * d == r - v % m;
    if d != 0 {
      NonzeroMultiple(m, d);
      assert false;
    }
  }

  /** Splitting v by a and the quotient by b splits v by a * b. */
  lemma Regroup(v: nat, a: nat, b: nat, q: nat, r: nat)
    requires a > 0 && b > 0 && v / a == b * q + r && r < b
    ensures a * b > 0 && v == (a * b) * q + (v % a + a * r)
    ensures v % a + a * r < a * b
  {
    var s := v % a;
    calc {
      v;
      a * (v / a) + s;
      a * (b * q + r) + s;
      { Distribute(a, b * q, r); }
      a * (b * q) + a * r + s;
      { Associate(a, b, q); }
      (a * b) * q + (s + a * r);
    }
    Distribute(a, b - 1 - r, r);
    Distribute(a, b - 1, 1);
  }

  lemma Distribute(a: nat, x: nat, y: nat)
    ensures a * (x + y) == a * x + a * y
    ensures a * x >= 0
  {
  }

  lemma Associate(a: nat, b: nat, c: nat)
    ensures a * (b * c) == (a * b) * c
  {
  }

  lemma DivModByProduct(v: nat, a: nat, b: nat)
    requires a > 0 && b > 0
    ensures a * b > 0 && v / (a * b) == (v / a) / b
    ensures v % (a * b) == v % a + a * ((v / a) % b)
  {
    var w := v / a;
    var q, r := w / b, w % b;
    assert w == b * q + r;
    Regroup(v, a, b, q, r);
    DivModUnique(v, a * b, q, v % a + a * r);
  }

  /** Writing n bytes and reading them back truncates the value to n bytes, and to nothing less. */
  lemma {:induction false} DecodeEncode(v: nat, n: nat)
    ensures Decode(Encode(v, n)) == v % Pow256(n)
  {
    if n == 0 {
    } else {
      DecodeEncode(v / 256, n - 1);
      assert Encode(v, n)[1..] == Encode(v / 256, n - 1);
      var p := Pow256(n - 1);
      DivModByProduct(v, 256, Pow256(n - 1));
    }
  }

  /** Reading bytes and writing them back restores them, so no two byte strings of a length collide. */
  lemma {:induction false} EncodeDecode(bs: seq<u8>)
    ensures Encode(Decode(bs), |bs|) == bs
    ensures Decode(bs) < Pow256(|bs|)
  {
    if |bs| == 0 {
    } else {
      EncodeDecode(bs[1..]);
      var rest := Decode(bs[1..]);
      assert Decode(bs) / 256 == rest && Decode(bs) % 256 == bs[0];
      assert bs == [bs[0]] + bs[1..];
      assert 256 * rest + 256 <= 256 * Pow256(|bs| - 1);
    }
  }

  function GetLE16(p: seq<u8>, off: nat): u16
    requires off + 2 <= |p|
  {
    p[off] as int + 0x100 * (p[off + 1] as int)
  }

  function GetLE32(p: seq<u8>, off: nat): u32
    requires off + 4 <= |p|
  {
    p[off] as int + 0x100 * (p[off + 1] as int) + 0x1_0000 * (p[off + 2] as int) +
    0x100_0000 * (p[off + 3] as int)
  }

  lemma GetLE16Decodes(p: seq<u8>, off: nat)
    requires off + 2 <= |p|
    ensures GetLE16(p, off) == Decode(p[off..off + 2])
  {
    var s := p[off..off + 2];
    assert s[1..][0] == p[off + 1] && s[1..][1..] == [];
    assert Decode(s[1..]) == p[off + 1];
  }

  lemma GetLE32Decodes(p: seq<u8>, off: nat)
    requires off + 4 <= |p|
    ensures GetLE32(p, off) == Decode(p[off..off + 4])
  {
    var s := p[off..off + 4];
    var s1, s2, s3 := s[1..], s[2..], s[3..];
    assert s1[1..] == s2 && s2[1..] == s3 && s3[1..] == [];
    assert Decode(s3) == p[off + 3];
    assert Decode(s2) == p[off + 2] + 256 * Decode(s3);
    assert Decode(s1) == p[off + 1] + 256 * Decode(s2);
  }

  lemma Pow256Of4()
    ensures Pow256(4) == 0x1_0000_0000
  {
  }

  lemma Pow256Of8()
    ensures Pow256(8) == 0x1_0000_0000_0000_0000
  {
  }

  /** A field that was written at `off` reads back, whatever surrounds it. */
  lemma ReadsBack16(p: seq<u8>, off: nat, v: u16)
    requires off + 2 <= |p| && p[off..off + 2] == Encode(v, 2)
    ensures GetLE16(p, off) == v
  {
  }

  lemma ReadsBack32(p: seq<u8>, off: nat, v: u32)
    requires off + 4 <= |p| && p[off..off + 4] == Encode(v, 4)
    ensures GetLE32(p, off) == v
  {
    hide Encode, GetLE32, Pow256, Decode;
    DecodeEncode(v, 4);
    Pow256Of4();
    GetLE32Decodes(p, off);
  }

  lemma ReadsBack64(p: seq<u8>, off: nat, v: u64)
    requires off + 8 <= |p| && p[off..off + 8] == Encode(v, 8)
    ensures Decode(p[off..off + 8]) == v
  {
    DecodeEncode(v, 8);
    Pow256Of8();
  }

  method GetLE64(p: seq<u8>, off: nat) returns (v: u64)
    requires off + 8 <= |p|
    ensures v == Decode(p[off..off + 8])
  {
    Pow256Of8();
    EncodeDecode(p[off..off + 8]);
    var acc: nat := 0;
    var weight: nat := 1;
    for i := 0 to 8
      invariant weight == Pow256(i)
      invariant acc == Decode(p[off..off + i])
    {
      DecodeAppend(p[off..off + i], p[off + i]);
      assert p[off..off + i] + [p[off + i]] == p[off..off + i + 1];
      acc := acc + p[off + i] * weight;
      weight := weight * 256;
    }
    v := acc;
  }

  lemma {:induction false} DecodeAppend(bs: seq<u8>, b: u8)
    ensures Decode(bs + [b]) == Decode(bs) + b * Pow256(|bs|)
  {
    if |bs| == 0 {
      assert bs + [b] == [b];
    } else {
      DecodeAppend(bs[1..], b);
      assert (bs + [b])[1..] == bs[1..] + [b];
      var p := Pow256(|bs| - 1);
      assert 256 * (b * p) == b * (256 * p);
    }
  }

  /** Byte k of the encoding is the value shifted right by 8k bits. */
  lemma {:induction false} EncodeAt(v: nat, n: nat, k: nat)
    requires k < n
    ensures Encode(v, n)[k] == (v / Pow256(k)) % 256
  {
    if k == 0 {
    } else {
      EncodeAt(v / 256, n - 1, k - 1);
      DivModByProduct(v, 256, Pow256(k - 1));
    }
  }

  /** `b` with the n-byte field at `off` replaced by v. */
  ghost predicate FieldPut(before: seq<u8>, after: seq<u8>, off: nat, v: nat, n: nat)
    requires off + n <= |before|
  {
    after == before[..off] + Encode(v, n) + before[off + n..]
  }

  method PutLE16(b: array<u8>, off: nat, v: u16)
    requires off + 2 <= b.Length
    modifies b
    ensures FieldPut(old(b[..]), b[..], off, v, 2)
  {
    b[off] := v % 256;
    b[off + 1] := (v / 0x100) % 256;
    assert Encode(v, 2) == [v % 256, (v / 256) % 256] by { assert Encode(v / 256, 1) == [(v / 256) % 256]; }
  }

  method PutLE32(b: array<u8>, off: nat, v: u32)
    requires off + 4 <= b.Length
    modifies b
    ensures FieldPut(old(b[..]), b[..], off, v, 4)
  {
    b[off] := v % 256;
    b[off + 1] := (v / 0x100) % 256;
    b[off + 2] := (v / 0x1_0000) % 256;
    b[off + 3] := (v / 0x100_0000) % 256;
    EncodeAt(v, 4, 0); EncodeAt(v, 4, 1); EncodeAt(v, 4, 2); EncodeAt(v, 4, 3);
    assert Pow256(1) == 0x100 && Pow256(2) == 0x1_0000 && Pow256(3) == 0x100_0000;
  }

  method PutLE64(b: array<u8>, off: nat, v: u64)
    requires off + 8 <= b.Length
    modifies b
    ensures FieldPut(old(b[..]), b[..], off, v, 8)
  {
    ghost var was := b[..];
    var rest: nat := v;
    var weight: nat := 1;
    for i := 0 to 8
      invariant weight == Pow256(i)
      invariant forall k :: 0 <= k < i ==> b[off + k] == Encode(v, 8)[k]
      invariant forall k :: 0 <= k < b.Length && !(off <= k < off + i) ==> b[k] == was[k]
    {
      EncodeAt(v, 8, i);
      b[off + i] := (v / weight) % 256;
      weight := weight * 256;
    }
  }
}
