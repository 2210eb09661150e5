/** Fields of bits inside a storage word of any width, signed and unsigned. A word is the sequence of its bits, lowest
    first. */
module BitFields {
  import LE = LittleEndian

  type Word = seq<bool>

  // ---- Machine operations on words ----

  function Fill(width: nat, bit: bool): (r: Word)
    ensures |r| == width
    ensures forall i :: 0 <= i < width ==> r[i] == bit
  {
    seq(width, _ => bit)
  }

  function Ones(width: nat): Word {
    Fill(width, true)
  }

  function Shl(w: Word, n: nat): (r: Word)
    ensures |r| == |w|
  {
    seq(|w|, i requires 0 <= i < |w| => i >= n && w[i - n])
  }

  function Shr(w: Word, n: nat): (r: Word)
    ensures |r| == |w|
  {
    seq(|w|, i requires 0 <= i < |w| => i + n < |w| && w[i + n])
  }

  /** The shift of signed values, which repeats the top bit. */
  function Sar(w: Word, n: nat): (r: Word)
    ensures |r| == |w|
  {
    seq(|w|, i requires 0 <= i < |w| => if i + n < |w| then w[i + n] else w[|w| - 1])
  }

  function And(a: Word, b: Word): (r: Word)
    requires |a| == |b|
    ensures |r| == |a|
  {
    seq(|a|, i requires 0 <= i < |a| => a[i] && b[i])
  }

  function Or(a: Word, b: Word): (r: Word)
    requires |a| == |b|
    ensures |r| == |a|
  {
    seq(|a|, i requires 0 <= i < |a| => a[i] || b[i])
  }

  function Not(a: Word): (r: Word)
    ensures |r| == |a|
  {
    seq(|a|, i requires 0 <= i < |a| => !a[i])
  }

  // ---- Fields ----

  datatype Field = Field(position: nat, bits: nat, signed: bool)

  /** What the program demands of a field at compile time. */
  predicate InRange(f: Field, width: nat) {
    0 < f.bits && f.position + f.bits <= width
  }

  predicate Covers(f: Field, i: int) {
    f.position <= i < f.position + f.bits
  }

  function Mask(f: Field, width: nat): (m: Word)
    requires InRange(f, width)
    ensures |m| == width
  {
    Shl(Shr(Ones(width), width - f.bits), f.position)
  }

  function FormatValue(f: Field, value: Word): (r: Word)
    requires InRange(f, |value|)
    ensures |r| == |value|
  {
    And(Shl(value, f.position), Mask(f, |value|))
  }

  function ExtractValue(f: Field, storage: Word): (r: Word)
    requires InRange(f, |storage|)
    ensures |r| == |storage|
  {
    if f.signed then
      var shift := |storage| - f.bits;
      Sar(Shl(storage, shift - f.position), shift)
    else Shr(And(storage, Mask(f, |storage|)), f.position)
  }

  function Assigned(f: Field, storage: Word, value: Word): (r: Word)
    requires InRange(f, |storage|) && |value| == |storage|
    ensures |r| == |storage|
  {
    Or(And(storage, Not(Mask(f, |storage|))), FormatValue(f, value))
  }

  // ---- Bit by bit ----

  lemma MaskBit(f: Field, width: nat, i: nat)
    requires InRange(f, width) && i < width
    ensures Mask(f, width)[i] <==> Covers(f, i)
  {
  }

  lemma AssignedBit(f: Field, s: Word, v: Word, i: nat)
    requires InRange(f, |s|) && |v| == |s| && i < |s|
    ensures Assigned(f, s, v)[i] == if Covers(f, i) then v[i - f.position] else s[i]
  {
    MaskBit(f, |s|, i);
    hide Mask;
  }

  lemma FormattedBit(f: Field, v: Word, i: nat)
    requires InRange(f, |v|) && i < |v|
    ensures FormatValue(f, v)[i] == (Covers(f, i) && v[i - f.position])
  {
    MaskBit(f, |v|, i);
    hide Mask;
  }

  lemma UnsignedBit(f: Field, s: Word, i: nat)
    requires InRange(f, |s|) && i < |s| && !f.signed
    ensures ExtractValue(f, s)[i] == (i < f.bits && s[f.position + i])
  {
    var masked := And(s, Mask(f, |s|));
    assert ExtractValue(f, s)[i] == (i + f.position < |s| && masked[i + f.position]);
    if i + f.position < |s| {
      MaskBit(f, |s|, i + f.position);
      hide Mask, ExtractValue;
    }
  }

  lemma SignedBit(f: Field, s: Word, i: nat)
    requires InRange(f, |s|) && i < |s| && f.signed
    ensures ExtractValue(f, s)[i] == s[f.position + if i < f.bits then i else f.bits - 1]
  {
    var shift := |s| - f.bits;
    var high := Shl(s, shift - f.position);
    var k := if i + shift < |s| then i + shift else |s| - 1;
    assert ExtractValue(f, s)[i] == high[k];
    hide ExtractValue;
    assert high[k] == s[k - (shift - f.position)];
  }

  lemma ExtractedBit(f: Field, s: Word, i: nat)
    requires InRange(f, |s|) && i < |s|
    ensures ExtractValue(f, s)[i] ==
              if i < f.bits then s[f.position + i] else f.signed && s[f.position + f.bits - 1]
  {
    hide ExtractValue;
    if f.signed {
      SignedBit(f, s, i);
    } else {
      UnsignedBit(f, s, i);
    }
  }

  /** A value cut to the field's length, then filled with zeros or with its sign. */
  function Cut(f: Field, v: Word): (r: Word)
    requires InRange(f, |v|)
    ensures |r| == |v|
  {
    v[..f.bits] + Fill(|v| - f.bits, f.signed && v[f.bits - 1])
  }

  // ---- The laws ----

  /** Reading after an assignment gives the value cut to the field. */
  lemma ReadAfterAssign(f: Field, s: Word, v: Word)
    requires InRange(f, |s|) && |v| == |s|
    ensures ExtractValue(f, Assigned(f, s, v)) == Cut(f, v)
  {
    var t := Assigned(f, s, v);
    hide ExtractValue, Assigned;
    forall i | 0 <= i < |s| ensures ExtractValue(f, t)[i] == Cut(f, v)[i] {
      ExtractedBit(f, t, i);
      AssignedBit(f, s, v, if i < f.bits then f.position + i else f.position + f.bits - 1);
    }
  }

  /** Assigning what was read changes nothing. */
  lemma AssignOfRead(f: Field, s: Word)
    requires InRange(f, |s|)
    ensures Assigned(f, s, ExtractValue(f, s)) == s
  {
    var v := ExtractValue(f, s);
    hide ExtractValue, Assigned;
    forall i | 0 <= i < |s| ensures Assigned(f, s, v)[i] == s[i] {
      AssignedBit(f, s, v, i);
      if Covers(f, i) { ExtractedBit(f, s, i - f.position); }
    }
  }

  /** The last of two assignments wins. */
  lemma LastAssignWins(f: Field, s: Word, a: Word, b: Word)
    requires InRange(f, |s|) && |a| == |b| == |s|
    ensures Assigned(f, Assigned(f, s, a), b) == Assigned(f, s, b)
  {
    hide Assigned;
    forall i | 0 <= i < |s| ensures Assigned(f, Assigned(f, s, a), b)[i] == Assigned(f, s, b)[i] {
      AssignedBit(f, Assigned(f, s, a), b, i);
      AssignedBit(f, s, a, i);
      AssignedBit(f, s, b, i);
    }
  }

  predicate Disjoint(f: Field, g: Field) {
    f.position + f.bits <= g.position || g.position + g.bits <= f.position
  }

  lemma OtherBitsUnchanged(f: Field, g: Field, s: Word, v: Word, i: nat)
    requires InRange(f, |s|) && InRange(g, |s|) && |v| == |s| && Disjoint(f, g) && Covers(g, i)
    ensures Assigned(f, s, v)[i] == s[i]
  {
    AssignedBit(f, s, v, i);
    hide Assigned;
  }

  /** An assignment leaves disjoint fields as they are. */
  lemma DisjointFieldsUnchanged(f: Field, g: Field, s: Word, v: Word)
    requires InRange(f, |s|) && InRange(g, |s|) && |v| == |s| && Disjoint(f, g)
    ensures ExtractValue(g, Assigned(f, s, v)) == ExtractValue(g, s)
  {
    var t := Assigned(f, s, v);
    hide ExtractValue, Assigned;
    forall i | 0 <= i < |s| ensures ExtractValue(g, t)[i] == ExtractValue(g, s)[i] {
      ExtractedBit(g, t, i);
      ExtractedBit(g, s, i);
      OtherBitsUnchanged(f, g, s, v, if i < g.bits then g.position + i else g.position + g.bits - 1);
    }
  }

  /** Assignments to disjoint fields can be made in either order. */
  lemma DisjointAssignsCommute(f: Field, g: Field, s: Word, a: Word, b: Word)
    requires InRange(f, |s|) && InRange(g, |s|) && |a| == |b| == |s| && Disjoint(f, g)
    ensures Assigned(g, Assigned(f, s, a), b) == Assigned(f, Assigned(g, s, b), a)
  {
    hide Assigned;
    forall i | 0 <= i < |s| ensures Assigned(g, Assigned(f, s, a), b)[i] == Assigned(f, Assigned(g, s, b), a)[i] {
      AssignedBit(g, Assigned(f, s, a), b, i);
      AssignedBit(f, s, a, i);
      AssignedBit(f, Assigned(g, s, b), a, i);
      AssignedBit(g, s, b, i);
    }
  }

  /** Values of disjoint fields, formatted and joined by a bitwise or, read back each from its field. */
  lemma FormattedValuesAssemble(f: Field, g: Field, a: Word, b: Word)
    requires InRange(f, |a|) && InRange(g, |a|) && |a| == |b| && Disjoint(f, g)
    ensures ExtractValue(f, Or(FormatValue(f, a), FormatValue(g, b))) == Cut(f, a)
    ensures ExtractValue(g, Or(FormatValue(f, a), FormatValue(g, b))) == Cut(g, b)
  {
    AssembledReads(f, g, a, b);
    AssembledReads(g, f, b, a);
    hide ExtractValue, FormatValue, Cut;
    assert Or(FormatValue(f, a), FormatValue(g, b)) == Or(FormatValue(g, b), FormatValue(f, a));
  }

  lemma AssembledReads(f: Field, g: Field, a: Word, b: Word)
    requires InRange(f, |a|) && InRange(g, |a|) && |a| == |b| && Disjoint(f, g)
    ensures ExtractValue(f, Or(FormatValue(f, a), FormatValue(g, b))) == Cut(f, a)
  {
    var w := Or(FormatValue(f, a), FormatValue(g, b));
    hide ExtractValue, FormatValue;
    forall i | 0 <= i < |a| ensures ExtractValue(f, w)[i] == Cut(f, a)[i] {
      ExtractedBit(f, w, i);
      var k := if i < f.bits then f.position + i else f.position + f.bits - 1;
      FormattedBit(f, a, k);
      FormattedBit(g, b, k);
    }
  }

  // ---- As numbers ----

  function Pow2(n: nat): (r: nat)
    ensures r > 0
  {
    if n == 0 then 1 else 2 * Pow2(n - 1)
  }

  function ToNat(w: Word): nat {
    if w == [] then 0 else (if w[0] then 1 else 0) + 2 * ToNat(w[1..])
  }

  /** Two's complement. */
  function ToInt(w: Word): int
    requires w != []
  {
    if w[|w| - 1] then ToNat(w) - Pow2(|w|) else ToNat(w)
  }

  lemma {:induction false} ToNatConcat(a: Word, b: Word)
    ensures ToNat(a + b) == ToNat(a) + Pow2(|a|) * ToNat(b)
    ensures ToNat(a) < Pow2(|a|)
  {
    if a == [] {
      assert a + b == b;
    } else {
      assert (a + b)[1..] == a[1..] + b && (a + b)[0] == a[0];
      ToNatConcat(a[1..], b);
      Double(Pow2(|a| - 1), ToNat(b));
    }
  }

  lemma Double(p: nat, q: nat)
    ensures 2 * (p * q) == 2 * p * q
  {
  }

  lemma {:induction false} ToNatFill(n: nat, bit: bool)
    ensures ToNat(Fill(n, bit)) == if bit then Pow2(n) - 1 else 0
  {
    if n > 0 {
      assert Fill(n, bit)[1..] == Fill(n - 1, bit);
      ToNatFill(n - 1, bit);
    }
  }

  lemma {:induction false} Pow2Sum(a: nat, b: nat)
    ensures Pow2(a + b) == Pow2(a) * Pow2(b)
  {
    if a > 0 {
      Pow2Sum(a - 1, b);
      Double(Pow2(a - 1), Pow2(b));
    }
  }

  lemma {:induction false} ToNatInjective(a: Word, b: Word)
    requires |a| == |b| && ToNat(a) == ToNat(b)
    ensures a == b
  {
    if a != [] {
      ToNatInjective(a[1..], b[1..]);
      assert a == [a[0]] + a[1..] && b == [b[0]] + b[1..];
    }
  }

  /** The low bits of a word are its remainder. */
  lemma LowBits(v: Word, n: nat)
    requires n <= |v|
    ensures ToNat(v[..n]) == ToNat(v) % Pow2(n)
  {
    assert v == v[..n] + v[n..];
    ToNatConcat(v[..n], v[n..]);
    hide ToNat, Pow2;
    LE.DivModUnique(ToNat(v), Pow2(n), ToNat(v[n..]), ToNat(v[..n]));
  }

  /** The top bit says whether the value reaches the upper half. */
  lemma TopBit(v: Word)
    requires v != []
    ensures v[|v| - 1] <==> ToNat(v) >= Pow2(|v| - 1)
  {
  }

  function Wrapped(m: nat, bits: nat): int
    requires bits > 0
  {
    if m >= Pow2(bits - 1) then m - Pow2(bits) else m
  }

  lemma CutIsNumber(f: Field, v: Word)
    requires InRange(f, |v|)
    ensures var sign := f.signed && v[f.bits - 1];
            && ToNat(Cut(f, v)) == ToNat(v[..f.bits]) + Pow2(f.bits) * (if sign then Pow2(|v| - f.bits) - 1 else 0)
            && (f.signed ==> Cut(f, v)[|v| - 1] == sign == v[..f.bits][f.bits - 1])
  {
    hide ToNat, Pow2, Fill;
    var sign := f.signed && v[f.bits - 1];
    ToNatConcat(v[..f.bits], Fill(|v| - f.bits, sign));
    ToNatFill(|v| - f.bits, sign);
  }

  /** Reading an unsigned field gives the remainder of the assigned value. */
  lemma UnsignedReadIsRemainder(f: Field, s: Word, v: Word)
    requires InRange(f, |s|) && |v| == |s| && !f.signed
    ensures ToNat(ExtractValue(f, Assigned(f, s, v))) == ToNat(v) % Pow2(f.bits)
  {
    hide ToNat, Pow2, Cut, ExtractValue, Assigned;
    ReadAfterAssign(f, s, v);
    CutIsNumber(f, v);
    LowBits(v, f.bits);
  }

  lemma FillAbove(p: nat, q: nat)
    requires q > 0
    ensures p * (q - 1) - p * q == -(p as int)
  {
  }

  /** Reading a signed field gives the remainder, wrapped into the field's signed range. */
  lemma SignedReadIsWrapped(f: Field, s: Word, v: Word)
    requires InRange(f, |s|) && |v| == |s| && f.signed
    ensures ToInt(ExtractValue(f, Assigned(f, s, v))) == Wrapped(ToNat(v) % Pow2(f.bits), f.bits)
  {
    hide ToNat, Pow2, Cut, ExtractValue, Assigned;
    ReadAfterAssign(f, s, v);
    CutIsNumber(f, v);
    LowBits(v, f.bits);
    TopBit(v[..f.bits]);
    Pow2Sum(f.bits, |v| - f.bits);
    FillAbove(Pow2(f.bits), Pow2(|v| - f.bits));
  }

  predicate FitsField(f: Field, v: Word)
    requires InRange(f, |v|)
  {
    if f.signed then -(Pow2(f.bits - 1) as int) <= ToInt(v) < Pow2(f.bits - 1) else ToNat(v) < Pow2(f.bits)
  }

  /** A field gives a value back exactly if the value lies in the field's range. */
  lemma FieldHoldsExactlyItsRange(f: Field, s: Word, v: Word)
    requires InRange(f, |s|) && |v| == |s|
    ensures ExtractValue(f, Assigned(f, s, v)) == v <==> FitsField(f, v)
  {
    var r := ExtractValue(f, Assigned(f, s, v));
    hide ToNat, Pow2, ExtractValue, Assigned;
    if f.signed {
      SignedReadIsWrapped(f, s, v);
      SignedRange(f, v);
      hide Wrapped;
      if ToInt(r) == ToInt(v) { ToIntInjective(r, v); }
    } else {
      UnsignedReadIsRemainder(f, s, v);
      if ToNat(r) == ToNat(v) { ToNatInjective(r, v); }
      RemainderIsSame(ToNat(v), Pow2(f.bits));
    }
  }

  lemma ToIntInjective(a: Word, b: Word)
    requires |a| == |b| > 0 && ToInt(a) == ToInt(b)
    ensures a == b
  {
    ToNatConcat(a, []);
    ToNatConcat(b, []);
    hide ToNat, Pow2;
    ToNatInjective(a, b);
  }

  lemma RemainderIsSame(v: nat, m: nat)
    requires m > 0
    ensures v % m == v <==> v < m
  {
  }

  lemma SignedRange(f: Field, v: Word)
    requires InRange(f, |v|)
    ensures Wrapped(ToNat(v) % Pow2(f.bits), f.bits) == ToInt(v) <==>
              -(Pow2(f.bits - 1) as int) <= ToInt(v) < Pow2(f.bits - 1)
  {
    assert Pow2(f.bits) == 2 * Pow2(f.bits - 1);
    Pow2Sum(f.bits, |v| - f.bits);
    hide ToNat, Pow2;
    WrapRange(ToNat(v), Pow2(f.bits - 1), Pow2(f.bits), Pow2(|v| - f.bits), v[|v| - 1]);
  }

  lemma Spread(p: int, d: int, q: int)
    ensures p * d - p * q == p * (d - q)
  {
  }

  /** The signed reading of a word and its wrapped remainder differ by a multiple of `p`, so they agree exactly if the
      former is in the range of `p` values around zero. */
  lemma WrapRange(x: nat, half: nat, p: nat, q: nat, negative: bool)
    requires half > 0 && p == 2 * half
    ensures var m := x % p;
            var value := if negative then x - p * q else x;
            (if m >= half then m - p else m) == value <==> -(half as int) <= value < half
  {
    var m, d := x % p, x / p;
    var value := if negative then x - p * q else x;
    var w := if m >= half then m - p else m;
    var e := if negative then d - q else d;
    var e1 := if m >= half then e + 1 else e;
    assert x == p * d + m;
    Spread(p, d, q);
    Spread(p, e, -1);
    assert value == p * e1 + w;
    if e1 != 0 { LE.NonzeroMultiple(p, e1); }
  }

  // ---- The object ----

  class BitField {
    const field: Field
    var storage: Word

    ghost predicate Valid()
      reads this
    {
      InRange(field, |storage|)
    }

    constructor (f: Field, s: Word)
      requires InRange(f, |s|)
      ensures Valid() && field == f && storage == s
    {
      field, storage := f, s;
    }

    method Assign(value: Word)
      requires Valid() && |value| == |storage|
      modifies this
      ensures Valid() && |storage| == |old(storage)|
      ensures ExtractValue(field, storage) == Cut(field, value)
      ensures forall i :: 0 <= i < |storage| && !Covers(field, i) ==> storage[i] == old(storage)[i]
    {
      ghost var before := storage;
      var mask := Mask(field, |storage|);
      storage := Or(And(storage, Not(mask)), FormatValue(field, value));
      ReadAfterAssign(field, before, value);
      assert storage == Assigned(field, before, value);
      forall i | 0 <= i < |storage| && !Covers(field, i) ensures storage[i] == before[i] {
        AssignedBit(field, before, value, i);
      }
    }

    method Value() returns (v: Word)
      requires Valid()
      ensures v == ExtractValue(field, storage) == Cut(field, v)
    {
      v := ExtractValue(field, storage);
      ReadAfterAssign(field, storage, v);
      AssignOfRead(field, storage);
    }
  }
}
