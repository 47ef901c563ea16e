/**
 UTF-8, in which the standard library compares names (src/sd_psbt.rs sorts by `String::cmp`, byte by
 byte): the order of the bytes is the order of the characters that `NameOrder` uses.
 */
module Utf8 {
  import opened Bytes
  import opened NameOrder
  import opened Utf16

  function EncodeOne(c: scalar): seq<byte> {
    if c < 0x80 then [c]
    else if c < 0x800 then [0xC0 + c / 64, 0x80 + c % 64]
    else if c < 0x1_0000 then [0xE0 + c / 4096, 0x80 + c / 64 % 64, 0x80 + c % 64]
    else [0xF0 + c / 0x4_0000, 0x80 + c / 4096 % 64, 0x80 + c / 64 % 64, 0x80 + c % 64]
  }

  function Text(s: seq<scalar>): seq<byte> {
    if s == [] then [] else EncodeOne(s[0]) + Text(s[1..])
  }

  /** Alike up to position `k`, where the first text has ended or has the smaller byte. */
  predicate SmallerAt(a: seq<byte>, b: seq<byte>, k: nat) {
    k <= |a| && k <= |b| && a[..k] == b[..k] && (k == |a| || (k < |b| && a[k] < b[k]))
  }

  ghost predicate Precedes(a: seq<byte>, b: seq<byte>) { exists k: nat :: SmallerAt(a, b, k) }

  /** Of two numbers in base 64 the smaller one has the smaller front, or the same front and the smaller last digit. */
  lemma LastDigit(c: nat, d: nat)
    requires c <= d
    ensures c / 64 < d / 64 || (c / 64 == d / 64 && c % 64 <= d % 64 && (c < d ==> c % 64 < d % 64))
  {
  }

  lemma Fronts(c: nat)
    ensures c / 4096 == c / 64 / 64 && c / 0x4_0000 == c / 64 / 64 / 64
  {
  }

  lemma TwoPrecede(c: scalar, d: scalar) returns (k: nat)
    requires c < d && 0x80 <= c && d < 0x800
    ensures k < 2 && EncodeOne(c)[..k] == EncodeOne(d)[..k] && EncodeOne(c)[k] < EncodeOne(d)[k]
  {
    LastDigit(c, d);
    k := if c / 64 < d / 64 then 0 else 1;
  }

  lemma ThreePrecede(c: scalar, d: scalar) returns (k: nat)
    requires c < d && 0x800 <= c && d < 0x1_0000
    ensures k < 3 && EncodeOne(c)[..k] == EncodeOne(d)[..k] && EncodeOne(c)[k] < EncodeOne(d)[k]
  {
    LastDigit(c, d);
    LastDigit(c / 64, d / 64);
    Fronts(c);
    Fronts(d);
    k := if c / 4096 < d / 4096 then 0 else if c / 64 < d / 64 then 1 else 2;
  }

  lemma FourPrecede(c: scalar, d: scalar) returns (k: nat)
    requires c < d && 0x1_0000 <= c
    ensures k < 4 && EncodeOne(c)[..k] == EncodeOne(d)[..k] && EncodeOne(c)[k] < EncodeOne(d)[k]
  {
    LastDigit(c, d);
    LastDigit(c / 64, d / 64);
    LastDigit(c / 64 / 64, d / 64 / 64);
    Fronts(c);
    Fronts(d);
    k := if c / 0x4_0000 < d / 0x4_0000 then 0 else if c / 4096 < d / 4096 then 1 else if c / 64 < d / 64 then 2 else 3;
  }

  /** A smaller character has a smaller byte at a place that both encodings have. */
  lemma OnePrecedes(c: scalar, d: scalar) returns (k: nat)
    requires c < d
    ensures var e, f := EncodeOne(c), EncodeOne(d);
      k < |e| && k < |f| && e[..k] == f[..k] && e[k] < f[k]
  {
    if c >= 0x1_0000 { k := FourPrecede(c, d); }
    else if c >= 0x800 && d < 0x1_0000 { k := ThreePrecede(c, d); }
    else if c >= 0x80 && d < 0x800 { k := TwoPrecede(c, d); }
    else { k := 0; }
  }

  lemma SameStart(e: seq<byte>, a: seq<byte>, b: seq<byte>)
    ensures Precedes(e + a, e + b) <==> Precedes(a, b)
  {
    if k: nat :| SmallerAt(e + a, e + b, k) {
      assert a[..k - |e|] == (e + a)[..k][|e|..] == (e + b)[..k][|e|..] == b[..k - |e|];
      assert SmallerAt(a, b, k - |e|);
    }
    if k: nat :| SmallerAt(a, b, k) {
      assert (e + a)[..|e| + k] == e + a[..k] && (e + b)[..|e| + k] == e + b[..k];
      assert SmallerAt(e + a, e + b, |e| + k);
    }
  }

  lemma StartDecides(e: seq<byte>, f: seq<byte>, a: seq<byte>, b: seq<byte>, k: nat)
    requires k < |e| && k < |f| && e[..k] == f[..k] && e[k] < f[k]
    ensures Precedes(e + a, f + b) && !Precedes(f + b, e + a)
  {
    var x, y := e + a, f + b;
    assert x[..k] == e[..k] && y[..k] == f[..k];
    assert SmallerAt(x, y, k);
    forall j: nat ensures !SmallerAt(y, x, j) {
      if j < k { assert x[j] == x[..k][j] == y[..k][j] == y[j]; }
      if j > k && j <= |x| && j <= |y| { assert x[..j][k] != y[..j][k]; }
    }
  }

  /** The names are sorted as their UTF-8 bytes compare. */
  lemma {:induction false} BelowIsByteOrder(a: seq<scalar>, b: seq<scalar>)
    ensures Below(a, b) <==> Precedes(Text(a), Text(b))
  {
    if a == [] {
      assert SmallerAt(Text(a), Text(b), 0);
    } else if b != [] {
      if a[0] == b[0] {
        BelowIsByteOrder(a[1..], b[1..]);
        SameStart(EncodeOne(a[0]), Text(a[1..]), Text(b[1..]));
      } else if a[0] < b[0] {
        var k := OnePrecedes(a[0], b[0]);
        StartDecides(EncodeOne(a[0]), EncodeOne(b[0]), Text(a[1..]), Text(b[1..]), k);
      } else {
        var k := OnePrecedes(b[0], a[0]);
        StartDecides(EncodeOne(b[0]), EncodeOne(a[0]), Text(b[1..]), Text(a[1..]), k);
      }
    }
  }
}
