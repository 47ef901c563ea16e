/**
 The table-driven CRC-32 of cartridge-core/src/save_coordinator.rs, against the bit-serial
 definition with the reflected polynomial of clause 3.2.9 of IEEE Std 802.3.

 The word operations have names of their own so that each bit-vector fact is proved once.
 */
module Crc32 {
  import opened Bytes
  import opened OctetValues

  const POLY: bv32 := 0xEDB8_8320
  const ONES: bv32 := 0xFFFF_FFFF

  function Xor(a: bv32, b: bv32): bv32 { a ^ b }
  function Half(c: bv32): bv32 { c >> 1 }
  function Double(c: bv32): bv32 { c << 1 }
  function Low(c: bv32): bv32 { c & 0xFF }
  function High(c: bv32): bv32 { c & 0xFFFF_FF00 }
  function Down8(c: bv32): bv32 { c >> 8 }
  function Up8(c: bv32): bv32 { c << 8 }
  function Word(b: bv8): bv32 { b as bv32 }
  predicate Odd(c: bv32) { c & 1 != 0 }

  /** One bit of the reflected shift register. */
  function Shift(c: bv32): bv32 {
    if Odd(c) then Xor(POLY, Half(c)) else Half(c)
  }

  function Shifts(c: bv32, n: nat): bv32 {
    if n == 0 then c else Shift(Shifts(c, n - 1))
  }

  function Shift8(c: bv32): bv32 {
    Shift(Shift(Shift(Shift(Shift(Shift(Shift(Shift(c))))))))
  }

  /** The bit-serial register after a message: each byte enters at the low end, low bit first. */
  function Serial(c: bv32, buf: seq<bv8>): bv32 {
    if buf == [] then c else Shift8(Xor(Serial(c, buf[..|buf| - 1]), Word(buf[|buf| - 1])))
  }

  function Checksum(buf: seq<bv8>): bv32 {
    Xor(Serial(ONES, buf), ONES)
  }

  // ----- single bit-vector facts -----

  lemma OddXor(a: bv32, b: bv32)
    ensures Odd(Xor(a, b)) <==> Odd(a) != Odd(b)
  {}

  lemma HalfXor(a: bv32, b: bv32)
    ensures Half(Xor(a, b)) == Xor(Half(a), Half(b))
  {}

  lemma XorLeft(p: bv32, a: bv32, b: bv32)
    ensures Xor(p, Xor(a, b)) == Xor(Xor(p, a), b)
  {}

  lemma XorSwap(p: bv32, a: bv32, b: bv32)
    ensures Xor(p, Xor(a, b)) == Xor(a, Xor(p, b))
  {}

  lemma XorTwice(p: bv32, a: bv32)
    ensures Xor(p, Xor(p, a)) == a && Xor(a, Xor(p, p)) == a
  {}

  lemma XorCancel(p: bv32, a: bv32, b: bv32)
    ensures Xor(Xor(p, a), Xor(p, b)) == Xor(a, b)
  {
    XorSwap(Xor(p, a), p, b);
    XorLeft(p, a, b);
    XorTwice(p, Xor(a, b));
  }

  lemma XorPairs(p: bv32, q: bv32, r: bv32, s: bv32)
    ensures Xor(Xor(p, q), Xor(r, s)) == Xor(Xor(p, r), Xor(q, s))
  {
    XorLeft(p, r, Xor(q, s));
    XorLeft(p, q, Xor(r, s));
    XorSwap(q, r, s);
  }

  lemma XorSolve(a: bv32, b: bv32)
    ensures a == Xor(b, Xor(a, b))
  {
    XorSwap(b, a, b);
    XorTwice(b, a);
  }

  lemma XorNothing(b: bv32)
    ensures Xor(b, 0) == b
  {}

  lemma XorSelf(a: bv32)
    ensures Xor(a, a) == 0
  {}

  lemma XorZero(a: bv32, b: bv32)
    ensures Xor(a, b) == 0 <==> a == b
  {
    if Xor(a, b) == 0 {
      XorSolve(a, b);
      XorNothing(b);
    }
    XorSelf(a);
  }

  lemma WordXor(x: bv8, y: bv8)
    ensures Word(x ^ y) == Xor(Word(x), Word(y))
  {}

  lemma SplitByte(c: bv32)
    ensures c == Xor(Low(c), High(c)) && Down8(High(c)) == Down8(c) && Low(High(c)) == 0
  {}

  lemma ByteInLow(c: bv32, b: bv8)
    ensures Down8(Xor(c, Word(b))) == Down8(c)
  {}

  lemma LowByteIndex(c: bv32)
    ensures 0 <= Low(c) as int < 256 && (Low(c) as int) as bv32 == Low(c)
  {
    assert Low(c) < 256;
  }

  lemma TopBit(c: bv32)
    ensures Xor(POLY, Half(c)) >= 0x8000_0000
  {}

  lemma HalfDouble(c: bv32)
    requires !Odd(c)
    ensures Double(Half(c)) == c
  {}

  // ----- the register is linear and loses nothing -----

  lemma ShiftLinear(a: bv32, b: bv32)
    ensures Shift(Xor(a, b)) == Xor(Shift(a), Shift(b))
  {
    OddXor(a, b);
    HalfXor(a, b);
    XorLeft(POLY, Half(a), Half(b));
    XorSwap(POLY, Half(a), Half(b));
    XorCancel(POLY, Half(a), Half(b));
  }

  lemma Shift8Linear(a: bv32, b: bv32)
    ensures Shift8(Xor(a, b)) == Xor(Shift8(a), Shift8(b))
  {
    ShiftLinear(a, b);
    var a1, b1 := Shift(a), Shift(b);   ShiftLinear(a1, b1);
    var a2, b2 := Shift(a1), Shift(b1); ShiftLinear(a2, b2);
    var a3, b3 := Shift(a2), Shift(b2); ShiftLinear(a3, b3);
    var a4, b4 := Shift(a3), Shift(b3); ShiftLinear(a4, b4);
    var a5, b5 := Shift(a4), Shift(b4); ShiftLinear(a5, b5);
    var a6, b6 := Shift(a5), Shift(b5); ShiftLinear(a6, b6);
    var a7, b7 := Shift(a6), Shift(b6); ShiftLinear(a7, b7);
  }

  /** A result with a clear top bit can only come from its double. */
  lemma Unshift(u: bv32)
    requires Shift(u) < 0x8000_0000
    ensures u == Double(Shift(u))
  {
    if Odd(u) { TopBit(u); } else { HalfDouble(u); }
  }

  lemma DoubleChain(v: bv32)
    requires v < 0x100_0000
    ensures var d1 := Double(v); var d2 := Double(d1); var d3 := Double(d2); var d4 := Double(d3);
      var d5 := Double(d4); var d6 := Double(d5); var d7 := Double(d6);
      && d1 < 0x200_0000 && d2 < 0x400_0000 && d3 < 0x800_0000 && d4 < 0x1000_0000
      && d5 < 0x2000_0000 && d6 < 0x4000_0000 && d7 < 0x8000_0000 && Double(d7) == Up8(v)
  {}

  lemma Unshift8(u: bv32)
    requires Shift8(u) < 0x100_0000
    ensures u == Up8(Shift8(u))
  {
    var u1 := Shift(u); var u2 := Shift(u1); var u3 := Shift(u2); var u4 := Shift(u3);
    var u5 := Shift(u4); var u6 := Shift(u5); var u7 := Shift(u6);
    DoubleChain(Shift8(u));
    Unshift(u7); Unshift(u6); Unshift(u5); Unshift(u4);
    Unshift(u3); Unshift(u2); Unshift(u1); Unshift(u);
  }

  /** Eight shifts of a value with a clear low byte feed nothing back. */
  lemma Shift8High(c: bv32)
    requires Low(c) == 0
    ensures Shift8(c) == Down8(c)
  {
  }

  /** A byte step only needs the table entry of the low byte. */
  lemma TableStep(c: bv32)
    ensures Shift8(c) == Xor(Shift8(Low(c)), Down8(c))
  {
    SplitByte(c);
    Shift8Linear(Low(c), High(c));
    Shift8High(High(c));
  }

  lemma EightShifts(c: bv32)
    ensures Shifts(c, 8) == Shift8(c)
  {
    assert Shifts(c, 1) == Shift(Shifts(c, 0));
    assert Shifts(c, 2) == Shift(Shifts(c, 1));
    assert Shifts(c, 3) == Shift(Shifts(c, 2));
    assert Shifts(c, 4) == Shift(Shifts(c, 3));
    assert Shifts(c, 5) == Shift(Shifts(c, 4));
    assert Shifts(c, 6) == Shift(Shifts(c, 5));
    assert Shifts(c, 7) == Shift(Shifts(c, 6));
  }

  // ----- the loops of the source -----

  function Entry(i: int): bv32
    requires 0 <= i < 256
  {
    Shifts(i as bv32, 8)
  }

  /** The inner loop of `CRC32_TABLE`. */
  method EightBits(start: bv32) returns (c: bv32)
    ensures c == Shifts(start, 8)
  {
    c := start;
    var j := 0;
    while j < 8
      invariant 0 <= j <= 8
      invariant c == Shifts(start, j)
    {
      c := if c & 1 != 0 then POLY ^ (c >> 1) else c >> 1;
      j := j + 1;
    }
  }

  /** `CRC32_TABLE`. */
  method Table() returns (table: array<bv32>)
    ensures fresh(table) && table.Length == 256
    ensures forall i :: 0 <= i < 256 ==> table[i] == Entry(i)
  {
    table := new bv32[256];
    var i := 0;
    while i < 256
      invariant 0 <= i <= 256
      invariant forall k :: 0 <= k < i ==> table[k] == Entry(k)
    {
      var entry := EightBits(i as bv32);
      table[i] := entry;
      i := i + 1;
    }
  }

  lemma ByteStep(c: bv32, b: bv8)
    ensures Xor(Shift8(Low(Xor(c, Word(b)))), Down8(c)) == Shift8(Xor(c, Word(b)))
  {
    TableStep(Xor(c, Word(b)));
    ByteInLow(c, b);
  }

  lemma SerialStep(c: bv32, buf: seq<bv8>, i: nat)
    requires i < |buf|
    ensures Serial(c, buf[..i + 1]) == Shift8(Xor(Serial(c, buf[..i]), Word(buf[i])))
  {
    assert buf[..i + 1][..i] == buf[..i];
  }

  /** `crc32`: the table loop computes the bit-serial checksum of every buffer. */
  method Crc(buf: seq<bv8>) returns (r: bv32)
    ensures r == Checksum(buf)
  {
    var table := Table();
    var c := ONES;
    var i := 0;
    while i < |buf|
      invariant 0 <= i <= |buf|
      invariant forall k :: 0 <= k < 256 ==> table[k] == Entry(k)
      invariant c == Serial(ONES, buf[..i])
    {
      var low := Low(Xor(c, Word(buf[i])));
      LowByteIndex(Xor(c, Word(buf[i])));
      ByteStep(c, buf[i]);
      SerialStep(ONES, buf, i);
      EightShifts(low);
      c := Xor(table[low as int], Down8(c));
      i := i + 1;
    }
    assert buf[..|buf|] == buf;
    r := Xor(c, ONES);
  }

  // ----- short bursts are always detected -----

  function XorBytes(a: seq<bv8>, b: seq<bv8>): (d: seq<bv8>)
    requires |a| == |b|
    ensures |d| == |a|
  {
    seq(|a|, i requires 0 <= i < |a| => a[i] ^ b[i])
  }

  lemma {:induction false} SerialLinear(c: bv32, d: bv32, a: seq<bv8>, b: seq<bv8>)
    requires |a| == |b|
    ensures Xor(Serial(c, a), Serial(d, b)) == Serial(Xor(c, d), XorBytes(a, b))
  {
    if a != [] {
      var n := |a| - 1;
      var x, y := Word(a[n]), Word(b[n]);
      var sa, sb := Serial(c, a[..n]), Serial(d, b[..n]);
      SerialLinear(c, d, a[..n], b[..n]);
      assert XorBytes(a, b)[..n] == XorBytes(a[..n], b[..n]);
      WordXor(a[n], b[n]);
      XorPairs(sa, x, sb, y);
      Shift8Linear(Xor(sa, x), Xor(sb, y));
    }
  }

  lemma {:induction false} SerialConcat(c: bv32, a: seq<bv8>, b: seq<bv8>)
    ensures Serial(c, a + b) == Serial(Serial(c, a), b)
  {
    if b == [] {
      assert a + b == a;
    } else {
      var n := |b| - 1;
      assert (a + b)[..|a + b| - 1] == a + b[..n];
      SerialConcat(c, a, b[..n]);
    }
  }

  predicate IsZero(b: bv8) { b == 0 }

  ghost predicate AllZero(ds: seq<bv8>) {
    forall i :: 0 <= i < |ds| ==> IsZero(ds[i])
  }

  lemma ByteShift(d: bv32, x: bv8)
    ensures Serial(d, [x]) == Shift8(Xor(d, Word(x)))
  {
    assert [x][..0] == [];
  }

  lemma Shift8Zero()
    ensures Shift8(0) == 0
  {}

  /** Over equal bytes a register difference neither appears nor vanishes. */
  lemma {:induction false} ZeroBytes(d: bv32, ds: seq<bv8>)
    requires AllZero(ds)
    ensures Serial(d, ds) == 0 <==> d == 0
  {
    if ds != [] {
      var n := |ds| - 1;
      var e := Serial(d, ds[..n]);
      ZeroBytes(d, ds[..n]);
      assert Xor(e, Word(0)) == e;
      Shift8Zero();
      if Shift8(e) == 0 { Unshift8(e); assert Up8(0) == 0; }
    }
  }

  /** Up to four bytes as a little-endian word. */
  function Packed(w: seq<bv8>): bv32 {
    if w == [] then 0 else Xor(Word(w[0]), Up8(Packed(w[1..])))
  }

  lemma PackBound(x: bv8, v: bv32)
    ensures v == 0 ==> Xor(Word(x), Up8(v)) < 0x100
    ensures v < 0x100 ==> Xor(Word(x), Up8(v)) < 0x1_0000
    ensures v < 0x1_0000 ==> Xor(Word(x), Up8(v)) < 0x100_0000
    ensures v < 0x100_0000 && Xor(Word(x), Up8(v)) == 0 ==> x == 0 && v == 0
  {}

  lemma {:induction false} WordBound(w: seq<bv8>)
    requires |w| <= 3
    ensures Packed(w) < 0x100_0000
    ensures |w| <= 2 ==> Packed(w) < 0x1_0000
    ensures |w| <= 1 ==> Packed(w) < 0x100
    ensures |w| == 0 ==> Packed(w) == 0
  {
    if w != [] {
      WordBound(w[1..]);
      PackBound(w[0], Packed(w[1..]));
    }
  }

  /** Four bytes bring the register to zero only from the state they spell. */
  lemma {:induction false} OnlyFromItsWord(d: bv32, w: seq<bv8>)
    requires |w| <= 4 && Serial(d, w) == 0
    ensures d == Packed(w)
    decreases |w|
  {
    if w != [] {
      assert w == [w[0]] + w[1..];
      SerialConcat(d, [w[0]], w[1..]);
      ByteShift(d, w[0]);
      var e := Xor(d, Word(w[0]));
      OnlyFromItsWord(Shift8(e), w[1..]);
      WordBound(w[1..]);
      Unshift8(e);
      XorSolve(d, Word(w[0]));
    }
  }

  lemma {:induction false} ZeroWord(w: seq<bv8>)
    requires |w| <= 4 && Packed(w) == 0
    ensures AllZero(w)
  {
    if w != [] {
      WordBound(w[1..]);
      PackBound(w[0], Packed(w[1..]));
      ZeroWord(w[1..]);
      assert w == [w[0]] + w[1..];
    }
  }

  /** A difference of at most four consecutive bytes that leaves the register alone is none. */
  lemma QuietBurstIsZero(left: seq<bv8>, mid: seq<bv8>, right: seq<bv8>)
    requires AllZero(left) && AllZero(right) && |mid| <= 4
    requires Serial(0, left + (mid + right)) == 0
    ensures AllZero(mid)
  {
    SerialConcat(0, left, mid + right);
    SerialConcat(Serial(0, left), mid, right);
    ZeroBytes(0, left);
    ZeroBytes(Serial(0, mid), right);
    OnlyFromItsWord(0, mid);
    ZeroWord(mid);
  }

  /**
   Two buffers of equal length that differ, but only within four consecutive bytes, never have
   the same checksum.
   */
  lemma BurstChangesChecksum(a: seq<bv8>, b: seq<bv8>, at: nat)
    requires |a| == |b| && a != b
    requires forall i :: 0 <= i < |a| && a[i] != b[i] ==> at <= i < at + 4
    ensures Checksum(a) != Checksum(b)
  {
    if Checksum(a) == Checksum(b) {
      var lo := if at <= |a| then at else |a|;
      var hi := if at + 4 <= |a| then at + 4 else |a|;
      SerialsAgree(a, b);
      SerialLinear(ONES, ONES, a, b);
      XorZero(ONES, ONES);
      XorZero(Serial(ONES, a), Serial(ONES, b));
      SameByte(a, b);
      BurstIsZero(XorBytes(a, b), lo, hi);
    }
  }

  lemma ThreeParts<T>(s: seq<T>, lo: nat, hi: nat)
    requires lo <= hi <= |s|
    ensures s == s[..lo] + (s[lo..hi] + s[hi..])
  {}

  lemma BurstIsZero(ds: seq<bv8>, lo: nat, hi: nat)
    requires lo <= hi <= |ds| && hi <= lo + 4 && Serial(0, ds) == 0
    requires forall i :: 0 <= i < |ds| && !IsZero(ds[i]) ==> lo <= i < hi
    ensures AllZero(ds)
  {
    ThreeParts(ds, lo, hi);
    QuietBurstIsZero(ds[..lo], ds[lo..hi], ds[hi..]);
    forall i | lo <= i < hi
      ensures IsZero(ds[i])
    {
      assert ds[i] == ds[lo..hi][i - lo];
    }
  }

  lemma SerialsAgree(a: seq<bv8>, b: seq<bv8>)
    requires Checksum(a) == Checksum(b)
    ensures Serial(ONES, a) == Serial(ONES, b)
  {
    XorSolve(Serial(ONES, a), ONES);
    XorSolve(Serial(ONES, b), ONES);
  }

  /** Equal bytes have difference zero and only they do. */
  lemma SameByte(a: seq<bv8>, b: seq<bv8>)
    requires |a| == |b|
    ensures forall i :: 0 <= i < |a| ==> (IsZero(XorBytes(a, b)[i]) <==> a[i] == b[i])
  {}

  // ----- four is the limit -----

  const BURST5: seq<bv8> := [0x01, 0x96, 0x30, 0x07, 0x77]

  lemma TableEntryOne()
    ensures Shift8(1) == 0x7707_3096
  {
    assert Shift(1) == 0xEDB8_8320;
    assert Shift(0xEDB8_8320) == 0x76DC_4190;
    assert Shift(0x76DC_4190) == 0x3B6E_20C8;
    assert Shift(0x3B6E_20C8) == 0x1DB7_1064;
    assert Shift(0x1DB7_1064) == 0x0EDB_8832;
    assert Shift(0x0EDB_8832) == 0x076D_C419;
    assert Shift(0x076D_C419) == 0xEE0E_612C;
    assert Shift(0xEE0E_612C) == 0x7707_3096;
  }

  lemma BurstIsQuiet()
    ensures Serial(0, BURST5) == 0
  {
    TableEntryOne();
    ByteShift(0, 0x01);
    ByteShift(0x7707_3096, 0x96);
    ByteShift(0x0077_0730, 0x30);
    ByteShift(0x0000_7707, 0x07);
    ByteShift(0x0000_0077, 0x77);
    Shift8High(0x7707_3000);
    Shift8High(0x0077_0700);
    Shift8High(0x0000_7700);
    Shift8Zero();
    assert BURST5 == [0x01] + ([0x96] + ([0x30] + ([0x07] + [0x77])));
    SerialConcat(0, [0x01], [0x96] + ([0x30] + ([0x07] + [0x77])));
    SerialConcat(0x7707_3096, [0x96], [0x30] + ([0x07] + [0x77]));
    SerialConcat(0x0077_0730, [0x30], [0x07] + [0x77]);
    SerialConcat(0x0000_7707, [0x07], [0x77]);
  }

  /** Five consecutive bytes can go unnoticed, over any buffer of zeros. */
  lemma FiveBytesCanCollide(zero: seq<bv8>)
    requires |zero| == 5 && AllZero(zero)
    ensures BURST5 != zero && Checksum(BURST5) == Checksum(zero)
  {
    assert !IsZero(BURST5[0]) && IsZero(zero[0]);
    BurstIsQuiet();
    SerialLinear(ONES, ONES, BURST5, zero);
    XorZero(ONES, ONES);
    SameAsItself(BURST5, zero);
    XorZero(Serial(ONES, BURST5), Serial(ONES, zero));
  }

  lemma SameAsItself(w: seq<bv8>, zero: seq<bv8>)
    requires |w| == |zero| && AllZero(zero)
    ensures XorBytes(w, zero) == w
  {
    forall i | 0 <= i < |w|
      ensures XorBytes(w, zero)[i] == w[i]
    {
      assert IsZero(zero[i]);
      assert w[i] ^ 0 == w[i];
    }
  }

  // ----- the check value -----

  lemma NextRegister(c: bv32, text: seq<bv8>, b: bv8, c': bv32) returns (longer: seq<bv8>)
    requires Serial(ONES, text) == c && Shift8(Xor(c, Word(b))) == c'
    ensures longer == text + [b] && Serial(ONES, longer) == c'
  {
    longer := text + [b];
    assert longer[..|text|] == text;
  }

  /** The check value of this CRC, over the digits 1 to 9. */
  lemma CheckValue()
    ensures Checksum([0x31, 0x32, 0x33, 0x34, 0x35, 0x36, 0x37, 0x38, 0x39]) == 0xCBF4_3926
  {
    var text: seq<bv8> := [];
    text := NextRegister(0xFFFF_FFFF, text, 0x31, 0x7C23_1048);
    text := NextRegister(0x7C23_1048, text, 0x32, 0xB0AC_BB32);
    text := NextRegister(0xB0AC_BB32, text, 0x33, 0x77B7_9C2D);
    text := NextRegister(0x77B7_9C2D, text, 0x34, 0x641C_1F5C);
    text := NextRegister(0x641C_1F5C, text, 0x35, 0x340A_C5E3);
    text := NextRegister(0x340A_C5E3, text, 0x36, 0xF68D_2C9E);
    text := NextRegister(0xF68D_2C9E, text, 0x37, 0xAFFC_9660);
    text := NextRegister(0xAFFC_9660, text, 0x38, 0x651F_2550);
    text := NextRegister(0x651F_2550, text, 0x39, 0x340B_C6D9);
    assert text == [0x31, 0x32, 0x33, 0x34, 0x35, 0x36, 0x37, 0x38, 0x39];
  }

  // ----- byte values as eight-bit words -----

  function Octets(s: seq<byte>): (o: seq<bv8>)
    ensures |o| == |s|
  {
    seq(|s|, i requires 0 <= i < |s| => Octet(s[i]))
  }

  /** The checksum of an image, and the burst guarantee in terms of its bytes. */
  function ImageCrc(s: seq<byte>): bv32 {
    Checksum(Octets(s))
  }

  lemma BurstChangesImageCrc(a: seq<byte>, b: seq<byte>, at: nat)
    requires |a| == |b| && a != b
    requires forall i :: 0 <= i < |a| && a[i] != b[i] ==> at <= i < at + 4
    ensures ImageCrc(a) != ImageCrc(b)
  {
    var k :| 0 <= k < |a| && a[k] != b[k];
    OctetValue(a[k]);
    OctetValue(b[k]);
    assert Octets(a)[k] != Octets(b)[k];
    BurstChangesChecksum(Octets(a), Octets(b), at);
  }
}
