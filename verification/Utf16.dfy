/** UTF-16 as `String::from_utf16` reads it: a lone surrogate makes the whole name invalid. */
module Utf16 {
  import opened Bytes

  type word = w: int | 0 <= w < 0x10000

  /** A Unicode scalar value: any code point but a surrogate. */
  type scalar = c: int | 0 <= c < 0xD800 || 0xE000 <= c < 0x110000

  predicate High(u: word) { 0xD800 <= u < 0xDC00 }

  predicate Low(u: word) { 0xDC00 <= u < 0xE000 }

  function Decode(u: seq<word>): Option<seq<scalar>> {
    if u == [] then Some([])
    else if High(u[0]) then
      if |u| > 1 && Low(u[1]) then
        match Decode(u[2..])
        case None => None
        case Some(rest) => Some([0x10000 + (u[0] - 0xD800) * 0x400 + (u[1] - 0xDC00)] + rest)
      else None
    else if Low(u[0]) then None
    else match Decode(u[1..])
      case None => None
      case Some(rest) => Some([u[0]] + rest)
  }

  function EncodeOne(c: scalar): seq<word> {
    if c < 0x10000 then [c]
    else [0xD800 + (c - 0x10000) / 0x400, 0xDC00 + (c - 0x10000) % 0x400]
  }

  function Encode(s: seq<scalar>): seq<word> {
    if s == [] then [] else EncodeOne(s[0]) + Encode(s[1..])
  }

  predicate PairedAt(u: seq<word>, i: nat)
    requires i < |u|
  {
    && (High(u[i]) ==> i + 1 < |u| && Low(u[i + 1]))
    && (Low(u[i]) ==> i > 0 && High(u[i - 1]))
  }

  /** Every high surrogate is followed by a low one, every low one preceded by a high one. */
  ghost predicate WellFormed(u: seq<word>) {
    forall i :: 0 <= i < |u| ==> PairedAt(u, i)
  }

  lemma DropPaired(u: seq<word>, k: nat)
    requires 1 <= k <= 2 && k <= |u| && WellFormed(u[..k])
    ensures WellFormed(u) <==> WellFormed(u[k..])
  {
    var rest := u[k..];
    assert PairedAt(u[..k], k - 1);
    assert !High(u[k - 1]);
    if WellFormed(rest) {
      forall i | 0 <= i < |u| ensures PairedAt(u, i) {
        if i < k { assert PairedAt(u[..k], i); } else { assert PairedAt(rest, i - k); }
      }
    }
    if WellFormed(u) {
      forall i | 0 <= i < |rest| ensures PairedAt(rest, i) {
        assert PairedAt(u, i + k);
      }
    }
  }

  /** A name decodes if and only if it is well formed, and then encodes back to itself. */
  lemma {:induction false} DecodesIffWellFormed(u: seq<word>)
    ensures Decode(u).Some? <==> WellFormed(u)
    ensures Decode(u).Some? ==> Encode(Decode(u).value) == u
  {
    if u == [] {
    } else if High(u[0]) && |u| > 1 && Low(u[1]) {
      assert PairedAt(u[..2], 0) && PairedAt(u[..2], 1);
      DropPaired(u, 2);
      DecodesIffWellFormed(u[2..]);
      if Decode(u).Some? {
        var s := Decode(u).value;
        assert s[1..] == Decode(u[2..]).value;
        assert EncodeOne(s[0]) == [u[0], u[1]];
        assert u == [u[0], u[1]] + u[2..];
      }
    } else if High(u[0]) || Low(u[0]) {
      assert !PairedAt(u, 0);
    } else {
      assert PairedAt(u[..1], 0);
      DropPaired(u, 1);
      DecodesIffWellFormed(u[1..]);
      if Decode(u).Some? {
        assert Decode(u).value[1..] == Decode(u[1..]).value;
        assert u == [u[0]] + u[1..];
      }
    }
  }

  lemma DecodeConcat(c: scalar, rest: seq<word>)
    ensures Decode(EncodeOne(c) + rest) == match Decode(rest) case None => None case Some(s) => Some([c] + s)
  {
    var u := EncodeOne(c) + rest;
    if c < 0x10000 {
      assert u[1..] == rest;
    } else {
      assert u[2..] == rest;
    }
  }

  lemma {:induction false} EncodeDecodes(s: seq<scalar>)
    ensures Decode(Encode(s)) == Some(s)
  {
    if s != [] {
      EncodeDecodes(s[1..]);
      DecodeConcat(s[0], Encode(s[1..]));
      assert [s[0]] + s[1..] == s;
    }
  }
}
