/**
 The checksum that ties long-name slots to their short entry, section "FAT Long Directory Entries" of
 the FAT overview, told by the bits: eleven times, the sum so far is turned right by one bit and the
 next byte of the short name is added. `LongName.Checksum` computes it.
 */
module ShortName {
  import opened Bits
  import opened Bytes
  import opened LongName

  /** Turned right by one: every bit moves down by one place, the lowest to the top. */
  ghost predicate Turned(x: byte, y: byte) {
    forall i :: 0 <= i < 8 ==> Bit(y, i) == Bit(x, (i + 1) % 8)
  }

  /** One step of the sum. */
  ghost predicate Adds(sum: byte, b: byte, sum': byte) {
    exists y: byte :: Turned(sum, y) && sum' == (y + b) % 256
  }

  ghost predicate SumsUp(short: seq<byte>, sums: seq<byte>) {
    && |sums| == |short| + 1 && sums[0] == 0
    && forall i :: 0 <= i < |short| ==> Adds(sums[i], short[i], sums[i + 1])
  }

  /** The checksum of these bytes. */
  ghost predicate FatSum(short: seq<byte>, sum: byte) {
    exists sums: seq<byte> :: SumsUp(short, sums) && sums[|short|] == sum
  }

  // ----- bits of a byte -----

  lemma HighPart(a: nat, c: nat, p: nat)
    ensures (a + 2 * p * c) % 2 == a % 2 && (a + 2 * p * c) / 2 == a / 2 + p * c
  {
    assert a + 2 * p * c == a + 2 * (p * c);
  }

  /** The bits below 2^n do not see what is added above. */
  lemma {:induction false} LowBits(a: nat, c: nat, n: nat, i: nat)
    requires i < n
    ensures Bit(a + Pow2(n) * c, i) == Bit(a, i)
    decreases n
  {
    HighPart(a, c, Pow2(n - 1));
    if i > 0 { LowBits(a / 2, c, n - 1, i - 1); }
  }

  /** A number below 2^n is known by its n lowest bits. */
  lemma {:induction false} KnownByBits(x: nat, y: nat, n: nat)
    requires x < Pow2(n) && y < Pow2(n) && forall i :: 0 <= i < n ==> Bit(x, i) == Bit(y, i)
    ensures x == y
    decreases n
  {
    if n > 0 {
      assert Bit(x, 0) == Bit(y, 0);
      forall i | 0 <= i < n - 1 ensures Bit(x / 2, i) == Bit(y / 2, i) {
        assert Bit(x, i + 1) == Bit(y, i + 1);
      }
      KnownByBits(x / 2, y / 2, n - 1);
    }
  }

  lemma TopBit(x: byte)
    ensures Bit(RotateRight(x), 7) == Bit(x, 0)
  {
    Pow2Values();
    MasksBit(RotateRight(x), 7);
  }

  lemma RotateTurns(x: byte)
    ensures Turned(x, RotateRight(x))
  {
    forall i | 0 <= i < 8 ensures Bit(RotateRight(x), i) == Bit(x, (i + 1) % 8) {
      if i == 7 {
        TopBit(x);
      } else {
        Pow2Values();
        LowBits(x / 2, x % 2, 7, i);
      }
    }
  }

  lemma TurnedIff(x: byte, y: byte)
    ensures Turned(x, y) <==> y == RotateRight(x)
  {
    RotateTurns(x);
    if Turned(x, y) {
      Pow2Values();
      forall i | 0 <= i < 8 ensures Bit(y, i) == Bit(RotateRight(x), i) {
        assert Bit(y, i) == Bit(x, (i + 1) % 8) == Bit(RotateRight(x), i);
      }
      KnownByBits(y, RotateRight(x), 8);
    }
  }

  lemma AddsIff(sum: byte, b: byte, sum': byte)
    ensures Adds(sum, b, sum') <==> sum' == (RotateRight(sum) + b) % 256
  {
    TurnedIff(sum, RotateRight(sum));
    if Adds(sum, b, sum') {
      var y: byte :| Turned(sum, y) && sum' == (y + b) % 256;
      TurnedIff(sum, y);
    }
  }

  // ----- the sum -----

  lemma {:induction false} SumsAreChecksum(short: seq<byte>, sums: seq<byte>)
    requires SumsUp(short, sums)
    ensures sums[|short|] == Checksum(short)
  {
    if short != [] {
      var n := |short| - 1;
      assert Adds(sums[n], short[n], sums[n + 1]);
      AddsIff(sums[n], short[n], sums[n + 1]);
      forall i | 0 <= i < n ensures Adds(sums[..n + 1][i], short[..n][i], sums[..n + 1][i + 1]) {
        assert Adds(sums[i], short[i], sums[i + 1]);
      }
      SumsAreChecksum(short[..n], sums[..n + 1]);
    }
  }

  lemma {:induction false} ChecksumHasSums(short: seq<byte>) returns (sums: seq<byte>)
    ensures SumsUp(short, sums) && sums[|short|] == Checksum(short)
  {
    if short == [] {
      sums := [0];
    } else {
      var n := |short| - 1;
      var before := ChecksumHasSums(short[..n]);
      sums := before + [Checksum(short)];
      forall i | 0 <= i < |short| ensures Adds(sums[i], short[i], sums[i + 1]) {
        if i < n {
          assert Adds(before[i], short[..n][i], before[i + 1]);
        } else {
          AddsIff(before[n], short[n], Checksum(short));
        }
      }
    }
  }

  /** What the parser computes is the checksum, for every name. */
  lemma FatSumIff(short: seq<byte>, sum: byte)
    ensures FatSum(short, sum) <==> sum == Checksum(short)
  {
    if FatSum(short, sum) {
      var sums: seq<byte> :| SumsUp(short, sums) && sums[|short|] == sum;
      SumsAreChecksum(short, sums);
    }
    if sum == Checksum(short) {
      var sums := ChecksumHasSums(short);
    }
  }
}
