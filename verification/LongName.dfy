/**
 FAT long names (src/sd_lfn.rs, `LongName`): a name is spread over up to twenty directory slots,
 last part first, and belongs to the short entry that follows them and matches their checksum.

 `Parser` is the value of the object; the lemmas speak about every sequence of calls.
 */
module LongName {
  import opened Bytes
  import opened Utf16

  const UNITS := 260
  const PER_SLOT := 13
  const MAX_SLOTS := 20
  const MAX_NAME := 255
  const OFFSETS: seq<nat> := [1, 3, 5, 7, 9, 14, 16, 18, 20, 22, 24, 28, 30]
  const LFN_ATTRIBUTE: byte := 0x0f
  const BLANK: word := 0xffff

  /** One 32-byte directory entry. */
  type raw = s: seq<byte> | |s| == 32 witness Zeros(32)

  datatype Parser = Parser(units: seq<word>, next: nat, checksum: byte, count: nat)

  function Fill(n: nat): (s: seq<word>)
    ensures |s| == n && forall i :: 0 <= i < n ==> s[i] == BLANK
  {
    seq(n, i => BLANK)
  }

  function New(): Parser { Parser(Fill(UNITS), 0, 0, 0) }

  ghost predicate Wf(p: Parser) {
    && |p.units| == UNITS && p.count <= UNITS && p.count % PER_SLOT == 0
    && PER_SLOT * p.next <= p.count && p.next <= MAX_SLOTS
  }

  function Reset(p: Parser): Parser { p.(next := 0, count := 0) }

  // ----- one slot -----

  function Ordinal(r: raw): nat { r[0] % 32 }

  predicate First(r: raw) { r[0] / 64 % 2 == 1 }

  /** An entry that can be a long-name slot at all; bits 5 and 7 of its order byte are clear. */
  predicate Plausible(r: raw) {
    && r[11] == LFN_ATTRIBUTE && r[12] == 0 && r[26] == 0 && r[27] == 0
    && r[0] / 32 % 2 == 0 && r[0] / 128 == 0 && 1 <= Ordinal(r) <= MAX_SLOTS
  }

  function UnitOf(low: byte, high: byte): word {
    (low as int) + 256 * (high as int)
  }

  function UnitAt(r: raw, n: nat): word
    requires n < PER_SLOT
  {
    UnitOf(r[OFFSETS[n]], r[OFFSETS[n] + 1])
  }

  function SlotUnits(r: raw): (u: seq<word>)
    ensures |u| == PER_SLOT
  {
    seq(PER_SLOT, n requires 0 <= n < PER_SLOT => UnitAt(r, n))
  }

  /** A first slot starts a new name whatever went before. */
  function Begun(p: Parser, r: raw): Parser {
    if First(r) then Parser(Fill(UNITS), Ordinal(r), r[13], PER_SLOT * Ordinal(r)) else p
  }

  predicate Continues(q: Parser, r: raw) {
    q.count != 0 && Ordinal(r) == q.next && r[13] == q.checksum
  }

  function Stored(q: Parser, r: raw): Parser
    requires Continues(q, r) && |q.units| == UNITS && 1 <= Ordinal(r) <= MAX_SLOTS
  {
    var at := PER_SLOT * (Ordinal(r) - 1);
    q.(units := q.units[..at] + SlotUnits(r) + q.units[at + PER_SLOT..], next := q.next - 1)
  }

  function Slotted(p: Parser, r: raw): (p': Parser)
    requires |p.units| == UNITS
    ensures |p'.units| == UNITS
  {
    var q := Begun(p, r);
    if !Plausible(r) then Reset(p) else if Continues(q, r) then Stored(q, r) else Reset(q)
  }

  lemma SlottedWf(p: Parser, r: raw)
    requires Wf(p)
    ensures Wf(Slotted(p, r))
  {
  }

  // ----- the short entry -----

  function RotateRight(x: byte): byte { x / 2 + x % 2 * 128 }

  /** The checksum of a short name, section "FAT Long Directory Entries" of the FAT overview. */
  function Checksum(short: seq<byte>): byte {
    if short == [] then 0
    else (RotateRight(Checksum(short[..|short| - 1])) + short[|short| - 1]) % 256
  }

  function ShortSum(r: raw): byte { Checksum(r[..11]) }

  /** A name of `|name|` units laid out over `n` units: terminated and padded if there is room. */
  function Padded(name: seq<word>, n: nat): (u: seq<word>)
    requires |name| <= n
    ensures |u| == n
  {
    if |name| == n then name else name + [0] + Fill(n - |name| - 1)
  }

  predicate ValidName(name: seq<word>) {
    1 <= |name| <= MAX_NAME && 0 !in name && BLANK !in name
  }

  function FirstZero(u: seq<word>): (n: nat)
    ensures n <= |u| && (forall i :: 0 <= i < n ==> u[i] != 0) && (n < |u| ==> u[n] == 0)
  {
    if u == [] || u[0] == 0 then 0 else 1 + FirstZero(u[1..])
  }

  /** The name that assembled units spell, if they are laid out properly and are valid UTF-16. */
  function Spelled(u: seq<word>): Option<seq<scalar>> {
    var name := u[..FirstZero(u)];
    if ValidName(name) && u == Padded(name, |u|) then Decode(name) else None
  }

  function Finished(p: Parser, short: raw): Option<seq<scalar>>
    requires Wf(p)
  {
    if p.count != 0 && p.next == 0 && ShortSum(short) == p.checksum then Spelled(p.units[..p.count]) else None
  }

  /** A name of `n` units as FAT lays it out: 1 to 255 of them, no 0x0000 or 0xffff, then one zero, then 0xffff. */
  predicate LaidOut(u: seq<word>, n: nat) {
    && 1 <= n <= 255 && n <= |u| && (forall i :: 0 <= i < n ==> u[i] != 0 && u[i] != 0xffff)
    && (n < |u| ==> u[n] == 0) && forall i :: n < i < |u| ==> u[i] == 0xffff
  }

  /** What is spelled is exactly what was laid out. */
  lemma SpelledIff(u: seq<word>, s: seq<scalar>)
    ensures Spelled(u) == Some(s) <==> exists n: nat :: LaidOut(u, n) && Decode(u[..n]) == Some(s)
  {
    if Spelled(u) == Some(s) {
      var n := FirstZero(u);
      LaidOutIsPadded(u, n);
      assert LaidOut(u, n) && Decode(u[..n]) == Some(s);
    }
    if n: nat :| LaidOut(u, n) && Decode(u[..n]) == Some(s) {
      LaidOutIsPadded(u, n);
      PaddedSpells(u[..n], |u|);
    }
  }

  lemma LaidOutIsPadded(u: seq<word>, n: nat)
    requires n <= |u|
    ensures LaidOut(u, n) <==> ValidName(u[..n]) && u == Padded(u[..n], |u|)
  {
    var name := u[..n];
    forall i | 0 <= i < n ensures name[i] == u[i] && u[i] in name {}
    if ValidName(name) && u == Padded(name, |u|) {
      assert forall i :: 0 <= i < n ==> u[i] in name;
    }
  }

  lemma PaddedSpells(name: seq<word>, n: nat)
    requires |name| <= n && ValidName(name)
    ensures FirstZero(Padded(name, n)) == |name| && Padded(name, n)[..|name|] == name
    ensures Spelled(Padded(name, n)) == Decode(name)
  {
    var u := Padded(name, n);
    assert forall i :: 0 <= i < |name| ==> u[i] == name[i];
    assert u[..|name|] == name;
    var f := FirstZero(u);
    assert forall i :: 0 <= i < |name| ==> name[i] in name;
    assert |name| < n ==> u[|name|] == 0;
    assert u == Padded(u[..|name|], |u|);
  }

  // ----- the object -----

  class LongNameParser {
    const units: array<word>
    var next: nat
    var checksum: byte
    var count: nat

    ghost function State(): Parser
      reads this, units
    {
      Parser(units[..], next, checksum, count)
    }

    ghost predicate Valid()
      reads this, units
    {
      Wf(State())
    }

    constructor ()
      ensures Valid() && fresh(units) && State() == New()
    {
      units := new word[UNITS](_ => BLANK);
      next, checksum, count := 0, 0, 0;
      new;
      assert units[..] == Fill(UNITS);
    }

    method ResetName()
      requires Valid()
      modifies this
      ensures Valid() && State() == Reset(old(State()))
    {
      next, count := 0, 0;
    }

    method Slot(r: raw)
      requires Valid()
      modifies this, units
      ensures Valid() && State() == Slotted(old(State()), r)
    {
      SlottedWf(State(), r);
      ghost var p := State();
      var order := r[0];
      var index := order % 32;
      if r[11] != LFN_ATTRIBUTE || r[12] != 0 || r[26] != 0 || r[27] != 0
         || order / 32 % 2 != 0 || order / 128 != 0 || index == 0 || index > MAX_SLOTS {
        ResetName();
        return;
      }
      if order / 64 % 2 != 0 {
        forall i | 0 <= i < units.Length { units[i] := BLANK; }
        count := index * PER_SLOT;
        next := index;
        checksum := r[13];
        assert units[..] == Fill(UNITS);
      }
      assert State() == Begun(p, r);
      if count == 0 || index != next || r[13] != checksum {
        ResetName();
        return;
      }
      Store(r);
      next := next - 1;
    }

    /** Copy the thirteen units of a slot to their place. */
    method Store(r: raw)
      requires units.Length == UNITS && 1 <= Ordinal(r) <= MAX_SLOTS
      modifies units
      ensures var at := PER_SLOT * (Ordinal(r) - 1);
        units[..] == old(units[..at]) + SlotUnits(r) + old(units[at + PER_SLOT..])
    {
      var at := PER_SLOT * (Ordinal(r) - 1);
      var n := 0;
      while n < PER_SLOT
        invariant 0 <= n <= PER_SLOT
        invariant units[..at] == old(units[..at]) && units[at + PER_SLOT..] == old(units[at + PER_SLOT..])
        invariant forall j :: 0 <= j < n ==> units[at + j] == UnitAt(r, j)
      {
        units[at + n] := UnitOf(r[OFFSETS[n]], r[OFFSETS[n] + 1]);
        n := n + 1;
      }
      assert units[at..at + PER_SLOT] == SlotUnits(r);
      assert units[..] == units[..at] + units[at..at + PER_SLOT] + units[at + PER_SLOT..];
    }

    method Finish(short: raw) returns (name: Option<seq<scalar>>)
      requires Valid()
      modifies this
      ensures Valid() && State() == Reset(old(State()))
      ensures name == Finished(old(State()), short)
    {
      var sum: byte := 0;
      var i := 0;
      while i < 11
        invariant 0 <= i <= 11 && sum == Checksum(short[..i])
      {
        assert short[..i + 1][..i] == short[..i];
        sum := (RotateRight(sum) + short[i]) % 256;
        i := i + 1;
      }
      var valid := count != 0 && next == 0 && sum == checksum;
      var n := count;
      ResetName();
      if !valid {
        return None;
      }
      name := Read(n);
    }

    /** The name in the first `n` units. */
    method Read(n: nat) returns (name: Option<seq<scalar>>)
      requires n <= units.Length
      ensures name == Spelled(units[..n])
    {
      ghost var u := units[..n];
      var len := 0;
      while len < n && units[len] != 0
        invariant 0 <= len <= n && forall j :: 0 <= j < len ==> units[j] != 0
      {
        len := len + 1;
      }
      assert FirstZero(u) == len && u[..len] == units[..len];
      var k := if len + 1 < n then len + 1 else n;
      if len == 0 || len > MAX_NAME || BLANK in units[..len] || exists c :: c in units[k..n] && c != BLANK {
        if exists c :: c in units[k..n] && c != BLANK {
          var c :| c in units[k..n] && c != BLANK;
          ghost var j :| 0 <= j < |units[k..n]| && units[k..n][j] == c;
          assert u[k + j] == c;
        }
        return None;
      }
      assert u == Padded(u[..len], n) by {
        forall j | k <= j < n ensures u[j] == BLANK {
          assert units[k..n][j - k] == u[j];
          assert u[j] in units[k..n];
        }
      }
      return Decode(units[..len]);
    }
  }
}
