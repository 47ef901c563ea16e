/**
 Save images on the card (cartridge-core/src/savefile.rs): `<name>.TMP` is written before
 `<name>.SAV`, and boot restores the best complete image.

 The card is a map from names to contents. A write truncates its file and then grows it byte
 by byte; when the byte allowance runs out, by an error or because the power went, the file is
 left as the prefix written so far.
 */
module SaveFile {
  import opened Bytes

  const RTC_TAIL_LEN := 48

  /** File names as their UTF-8 bytes. */
  type Name = seq<byte>
  type Card = map<Name, seq<byte>>

  datatype Source = Primary | Temp
  datatype Regs = Regs(live: seq<byte>, latch: seq<byte>)
  datatype IoError = ReadFailed

  // ----- names -----

  const DOT: byte := 0x2E
  const SPACE: byte := 0x20
  const NAME_CAP := 12
  const TMP_SUFFIX: seq<byte> := [0x2E, 0x54, 0x4D, 0x50]
  const SAV_SUFFIX: seq<byte> := [0x2E, 0x53, 0x41, 0x56]

  function UpToDot(s: Name): (r: Name)
    ensures |r| <= |s| && r == s[..|r|] && DOT !in r
    ensures |r| < |s| ==> s[|r|] == DOT
  {
    if s == [] || s[0] == DOT then [] else [s[0]] + UpToDot(s[1..])
  }

  function Upper(b: byte): byte {
    if 0x61 <= b <= 0x7A then b - 32 else b
  }

  /** UTF-8 of the code point with the value of `b`. */
  function Encode(b: byte): (e: seq<byte>)
    ensures 1 <= |e| <= 2
  {
    if b < 0x80 then [b] else [0xC0 + b / 64, 0x80 + b % 64]
  }

  function TryPush(out: Name, piece: seq<byte>): Name {
    if |out| + |piece| <= NAME_CAP then out + piece else out
  }

  /** The stem loop: at most eight bytes, stopping at a space or a zero. */
  function Stem(raw: Name, left: nat, out: Name): Name
    decreases left
  {
    if raw == [] || left == 0 || raw[0] == SPACE || raw[0] == 0 then out
    else Stem(raw[1..], left - 1, TryPush(out, Encode(Upper(raw[0]))))
  }

  function TempName(primary: Name): Name {
    TryPush(Stem(UpToDot(primary), 8, []), TMP_SUFFIX)
  }

  /** The part of the name before the first dot. */
  method Base(primary: Name) returns (raw: Name)
    ensures raw == UpToDot(primary)
  {
    raw := [];
    var i := 0;
    while i < |primary| && primary[i] != DOT
      invariant 0 <= i <= |primary|
      invariant UpToDot(primary) == raw + UpToDot(primary[i..])
    {
      raw := raw + [primary[i]];
      i := i + 1;
    }
  }

  /** `temp_save_name`. */
  method TempSaveName(primary: Name) returns (out: Name)
    ensures out == TempName(primary)
  {
    var raw := Base(primary);
    out := [];
    var k := 0;
    while k < |raw| && k < 8 && raw[k] != SPACE && raw[k] != 0
      invariant 0 <= k <= |raw| && k <= 8
      invariant Stem(raw, 8, []) == Stem(raw[k..], 8 - k, out)
    {
      out := TryPush(out, Encode(Upper(raw[k])));
      k := k + 1;
    }
    out := TryPush(out, TMP_SUFFIX);
  }

  lemma {:induction false} StemHasNoDot(raw: Name, left: nat, out: Name)
    requires DOT !in raw && DOT !in out
    ensures DOT !in Stem(raw, left, out)
    decreases left
  {
    if !(raw == [] || left == 0 || raw[0] == SPACE || raw[0] == 0) {
      StemHasNoDot(raw[1..], left - 1, TryPush(out, Encode(Upper(raw[0]))));
    }
  }

  ghost predicate EndsWith(s: Name, suffix: Name) {
    |suffix| <= |s| && s[|s| - |suffix|..] == suffix
  }

  /** The journal name never collides with a `.SAV` name, whatever its bytes are. */
  lemma TempNameDiffers(primary: Name)
    requires EndsWith(primary, SAV_SUFFIX)
    ensures TempName(primary) != primary
  {
    var stem := Stem(UpToDot(primary), 8, []);
    StemHasNoDot(UpToDot(primary), 8, []);
    assert primary[|primary| - 4] == SAV_SUFFIX[0] == DOT;
    assert primary[|primary| - 1] == SAV_SUFFIX[3];
    if TempName(primary) != stem {
      assert TempName(primary)[|TempName(primary)| - 1] == TMP_SUFFIX[3];
    }
  }

  /** What ends the stem: the dot, a space of the padding, or a zero. */
  predicate EndsStem(b: byte) { b == 0x2E || b == 0x20 || b == 0 }

  /** The first `n` characters are the stem: as many as there are, but no more than eight. */
  ghost predicate StemIs(primary: Name, n: nat) {
    && n <= 8 && n <= |primary| && (forall i :: 0 <= i < n ==> !EndsStem(primary[i]))
    && (n == 8 || n == |primary| || EndsStem(primary[n]))
  }

  /** Each of these bytes as a character, in upper case. */
  function UpperText(raw: seq<byte>): seq<byte> {
    if raw == [] then [] else Encode(Upper(raw[0])) + UpperText(raw[1..])
  }

  lemma {:induction false} UpToDotGoesOn(front: Name, rest: Name)
    requires DOT !in front
    ensures UpToDot(front + rest) == front + UpToDot(rest)
  {
    if front == [] {
      assert front + rest == rest;
    } else {
      assert (front + rest)[0] == front[0] && (front + rest)[1..] == front[1..] + rest;
      UpToDotGoesOn(front[1..], rest);
    }
  }

  /** One character of the stem after another. */
  lemma StemNext(raw: Name, rest: Name, left: nat, out: Name)
    requires raw != [] && left > 0 && raw[0] != SPACE && raw[0] != 0
    ensures Stem(raw + rest, left, out) == Stem(raw[1..] + rest, left - 1, TryPush(out, Encode(Upper(raw[0]))))
  {
    assert (raw + rest)[0] == raw[0] && (raw + rest)[1..] == raw[1..] + rest;
  }

  predicate StopsHere(rest: Name, left: nat) { left == 0 || rest == [] || rest[0] == SPACE || rest[0] == 0 }

  predicate NoStop(raw: Name) { forall i :: 0 <= i < |raw| ==> raw[i] != SPACE && raw[i] != 0 }

  lemma PushRegroups(out: Name, piece: Name, rest: Name)
    requires |out| + |piece + rest| <= 8
    ensures TryPush(out, piece) + rest == out + (piece + rest) && |TryPush(out, piece)| + |rest| <= 8
  {
  }

  lemma UpperTextNext(raw: Name, out: Name)
    requires raw != [] && |out| + |UpperText(raw)| <= 8
    ensures var longer := TryPush(out, Encode(Upper(raw[0])));
      longer + UpperText(raw[1..]) == out + UpperText(raw) && |longer| + |UpperText(raw[1..])| <= 8
  {
    PushRegroups(out, Encode(Upper(raw[0])), UpperText(raw[1..]));
  }

  /** The whole text, if it fits into eight bytes. */
  lemma {:induction false} StemFits(raw: Name, rest: Name, left: nat, out: Name)
    requires |raw| <= left && NoStop(raw) && StopsHere(rest, left - |raw|) && |out| + |UpperText(raw)| <= 8
    ensures Stem(raw + rest, left, out) == out + UpperText(raw)
    decreases left
  {
    if raw == [] {
      assert raw + rest == rest;
    } else {
      StemNext(raw, rest, left, out);
      UpperTextNext(raw, out);
      StemFits(raw[1..], rest, left - 1, TryPush(out, Encode(Upper(raw[0]))));
    }
  }

  /** Otherwise more than eight bytes, so that there is no room for a suffix. */
  lemma {:induction false} StemOverflows(raw: Name, rest: Name, left: nat, out: Name)
    requires |raw| <= left && NoStop(raw) && StopsHere(rest, left - |raw|)
    requires |out| > 8 || |out| + |UpperText(raw)| > 8
    ensures |Stem(raw + rest, left, out)| > 8
    decreases left
  {
    if raw == [] {
      assert raw + rest == rest;
    } else {
      StemNext(raw, rest, left, out);
      StemOverflows(raw[1..], rest, left - 1, TryPush(out, Encode(Upper(raw[0]))));
    }
  }

  /**
   Which name the temporary file has: the stem in upper case and `.TMP`. It has that suffix if and only
   if the stem takes at most eight bytes, which it always does for ASCII names.
   */
  lemma TempNameIff(primary: Name, n: nat)
    requires StemIs(primary, n)
    ensures EndsWith(TempName(primary), TMP_SUFFIX) <==> |UpperText(primary[..n])| <= 8
    ensures |UpperText(primary[..n])| <= 8 ==> TempName(primary) == UpperText(primary[..n]) + TMP_SUFFIX
  {
    StemFromText(primary, n);
    StemHasNoDot(UpToDot(primary), 8, []);
    Suffixed(Stem(UpToDot(primary), 8, []));
  }

  /** A stem without a dot takes the suffix if there is room, and else does not end in it. */
  lemma Suffixed(stem: Name)
    requires DOT !in stem
    ensures |stem| <= 8 ==> TryPush(stem, TMP_SUFFIX) == stem + TMP_SUFFIX && EndsWith(stem + TMP_SUFFIX, TMP_SUFFIX)
    ensures |stem| > 8 ==> !EndsWith(TryPush(stem, TMP_SUFFIX), TMP_SUFFIX)
  {
    SuffixHasDot(stem);
  }

  lemma StemFromText(primary: Name, n: nat)
    requires StemIs(primary, n)
    ensures var text, stem := UpperText(primary[..n]), Stem(UpToDot(primary), 8, []);
      if |text| <= 8 then stem == text else |stem| > 8
  {
    var raw, behind := primary[..n], primary[n..];
    assert primary == raw + behind;
    assert DOT !in raw;
    UpToDotGoesOn(raw, behind);
    StopsBehind(behind, n);
    StemOf(raw, UpToDot(behind));
  }

  lemma StopsBehind(behind: Name, n: nat)
    requires n == 8 || behind == [] || EndsStem(behind[0])
    requires n <= 8
    ensures StopsHere(UpToDot(behind), 8 - n)
  {
  }

  lemma StemOf(raw: Name, rest: Name)
    requires |raw| <= 8 && NoStop(raw) && StopsHere(rest, 8 - |raw|)
    ensures |UpperText(raw)| <= 8 ==> Stem(raw + rest, 8, []) == UpperText(raw)
    ensures |UpperText(raw)| > 8 ==> |Stem(raw + rest, 8, [])| > 8
  {
    if |UpperText(raw)| <= 8 { StemFits(raw, rest, 8, []); } else { StemOverflows(raw, rest, 8, []); }
  }

  lemma SuffixHasDot(s: Name)
    ensures EndsWith(s, TMP_SUFFIX) ==> DOT in s
  {
    if EndsWith(s, TMP_SUFFIX) { assert s[|s| - 4..][0] == DOT; }
  }

  lemma {:induction false} AsciiFits(raw: seq<byte>)
    requires forall b :: b in raw ==> b < 0x80
    ensures |UpperText(raw)| == |raw|
    ensures forall i :: 0 <= i < |raw| ==>
      UpperText(raw)[i] == if 0x61 <= raw[i] <= 0x7A then raw[i] - 0x20 else raw[i]
  {
    if raw != [] {
      assert raw[0] in raw && forall b :: b in raw[1..] ==> b in raw;
      AsciiFits(raw[1..]);
    }
  }

  // ----- the clock tail -----

  function Power256(n: nat): nat {
    if n == 0 then 1 else 256 * Power256(n - 1)
  }

  lemma {:induction false} LittleEndianRoundTrip(value: nat, n: nat)
    requires value < Power256(n)
    ensures FromLittleEndian(LittleEndian(value, n)) == value
  {
    if n > 0 {
      LittleEndianRoundTrip(value / 256, n - 1);
      assert LittleEndian(value, n)[1..] == LittleEndian(value / 256, n - 1);
    }
  }

  /** A register is stored as a little-endian 32-bit word: its value, then three zero bytes. */
  function RegisterByte(regs: seq<byte>, k: nat): byte
    requires |regs| == 5 && k < 20
  {
    if k % 4 == 0 then regs[k / 4] else 0
  }

  function TailByte(regs: Regs, unix: nat, k: nat): byte
    requires |regs.live| == |regs.latch| == 5 && k < RTC_TAIL_LEN
  {
    if k < 20 then RegisterByte(regs.live, k)
    else if k < 40 then RegisterByte(regs.latch, k - 20)
    else LittleEndian(unix, 8)[k - 40]
  }

  function Tail(regs: Regs, unix: nat): (t: seq<byte>)
    requires |regs.live| == |regs.latch| == 5
    ensures |t| == RTC_TAIL_LEN
  {
    seq(RTC_TAIL_LEN, k requires 0 <= k < RTC_TAIL_LEN => TailByte(regs, unix, k))
  }

  lemma RegisterWord(b: byte)
    ensures LittleEndian(b, 4) == [b, 0, 0, 0]
  {
    assert LittleEndian(0, 3) == [0] + LittleEndian(0, 2) && LittleEndian(0, 2) == [0] + LittleEndian(0, 1);
  }

  /** The body of the register loop: one word of each view. */
  method PutRegister(out: array<byte>, at: nat, reg: byte)
    requires out.Length == RTC_TAIL_LEN && at + 4 <= 40
    modifies out
    ensures out[at] == reg && out[at + 1] == out[at + 2] == out[at + 3] == 0
    ensures forall k :: 0 <= k < RTC_TAIL_LEN && !(at <= k < at + 4) ==> out[k] == old(out[k])
  {
    var word := LittleEndian(reg, 4);
    RegisterWord(reg);
    forall k | 0 <= k < 4 { out[at + k] := word[k]; }
    assert out[at + 0] == word[0] && out[at + 1] == word[1] && out[at + 2] == word[2] && out[at + 3] == word[3];
  }

  /** `pack_rtc` into a caller's buffer. */
  method PackRtc(regs: Regs, unix: nat, out: array<byte>)
    requires |regs.live| == |regs.latch| == 5 && out.Length == RTC_TAIL_LEN
    modifies out
    ensures out[..] == Tail(regs, unix)
  {
    for i := 0 to 5
      invariant forall k :: 0 <= k < 4 * i ==> out[k] == TailByte(regs, unix, k)
      invariant forall k :: 20 <= k < 20 + 4 * i ==> out[k] == TailByte(regs, unix, k)
    {
      PutRegister(out, 4 * i, regs.live[i]);
      PutRegister(out, 20 + 4 * i, regs.latch[i]);
    }
    var u := LittleEndian(unix, 8);
    forall k | 40 <= k < 48 { out[k] := u[k - 40]; }
  }

  /** `unpack_rtc`: the low byte of each word, and the 64-bit time. */
  function Unpack(buf: seq<byte>): (Regs, nat)
    requires |buf| == RTC_TAIL_LEN
  {
    (Regs(seq(5, i requires 0 <= i < 5 => LowByte(FromLittleEndian(buf[4 * i..4 * i + 4]))),
          seq(5, i requires 0 <= i < 5 => LowByte(FromLittleEndian(buf[20 + 4 * i..24 + 4 * i])))),
     FromLittleEndian(buf[40..48]))
  }

  lemma WordAt(buf: seq<byte>, at: nat, reg: byte)
    requires at + 4 <= |buf|
    requires buf[at] == reg && buf[at + 1] == buf[at + 2] == buf[at + 3] == 0
    ensures LowByte(FromLittleEndian(buf[at..at + 4])) == reg
  {
    assert buf[at..at + 4] == [reg, 0, 0, 0];
    assert FromLittleEndian([0, 0, 0]) == 0 by { assert [0, 0, 0][1..] == [0, 0]; }
    assert [reg, 0, 0, 0][1..] == [0, 0, 0];
  }

  lemma UnpackRegister(regs: Regs, unix: nat, i: nat)
    requires |regs.live| == |regs.latch| == 5 && i < 5
    ensures LowByte(FromLittleEndian(Tail(regs, unix)[4 * i..4 * i + 4])) == regs.live[i]
    ensures LowByte(FromLittleEndian(Tail(regs, unix)[20 + 4 * i..24 + 4 * i])) == regs.latch[i]
  {
    var buf := Tail(regs, unix);
    WordAt(buf, 4 * i, regs.live[i]);
    WordAt(buf, 20 + 4 * i, regs.latch[i]);
  }

  /** Whatever `pack_rtc` wrote, `unpack_rtc` reads back. */
  lemma PackRoundTrip(regs: Regs, unix: nat)
    requires |regs.live| == |regs.latch| == 5 && unix < Power256(8)
    ensures Unpack(Tail(regs, unix)) == (regs, unix)
  {
    LittleEndianRoundTrip(unix, 8);
    assert Tail(regs, unix)[40..48] == LittleEndian(unix, 8);
    forall i: nat | i < 5 { UnpackRegister(regs, unix, i); }
    assert Unpack(Tail(regs, unix)).0.live == regs.live;
    assert Unpack(Tail(regs, unix)).0.latch == regs.latch;
  }

  // ----- writing -----

  /** What a write leaves: the card, whether it was reported as good, and the allowance left. */
  datatype Outcome = Outcome(card: Card, ok: bool, left: nat)

  /**
   Opening costs one unit and truncates, every byte costs one, closing costs one. When the allowance
   ends in between, at most `kept` of the bytes written so far are in the file: the FAT library
   commits the length on close, so that a power loss leaves none, while a failed write still closes.
   */
  function AfterWrite(card: Card, name: Name, data: seq<byte>, allowance: nat, kept: nat): Outcome {
    if allowance == 0 then Outcome(card, false, 0)
    else if allowance < |data| + 2 then
      Outcome(card[name := data[..Min(kept, Min(allowance - 1, |data|))]], false, 0)
    else Outcome(card[name := data], true, allowance - |data| - 2)
  }

  /** `.TMP` first; `.SAV` only after `.TMP` was written and closed. */
  function AfterPersist(card: Card, primary: Name, data: seq<byte>, allowance: nat, kept: nat): Outcome {
    var tmp := AfterWrite(card, TempName(primary), data, allowance, kept);
    if tmp.ok then AfterWrite(tmp.card, primary, data, tmp.left, kept) else tmp
  }

  class Store {
    var card: Card
    var allowance: nat
    const kept: nat

    constructor (card: Card, allowance: nat, kept: nat)
      ensures this.card == card && this.allowance == allowance && this.kept == kept
    {
      this.card, this.allowance, this.kept := card, allowance, kept;
    }

    /** The write ends here: of the open file only so much survives. */
    method CutOff(name: Name)
      requires name in card
      modifies this`card
      ensures card == old(card)[name := old(card)[name][..Min(kept, |old(card)[name]|)]]
    {
      card := card[name := card[name][..Min(kept, |card[name]|)]];
    }

    /** `write_save`: create or truncate, write SRAM and the optional tail, close. */
    method WriteSave(name: Name, sram: seq<byte>, tail: seq<byte>) returns (ok: bool)
      modifies this
      ensures Outcome(card, ok, allowance) == AfterWrite(old(card), name, sram + tail, old(allowance), kept)
    {
      if allowance == 0 {
        return false;
      }
      allowance := allowance - 1;
      card := card[name := []];
      var data := sram + tail;
      var i := 0;
      while i < |data| && allowance > 0
        invariant 0 <= i <= |data| && i + allowance == old(allowance) - 1
        invariant card == old(card)[name := data[..i]]
      {
        allowance := allowance - 1;
        assert data[..i] + [data[i]] == data[..i + 1];
        card := card[name := card[name] + [data[i]]];
        i := i + 1;
      }
      if allowance == 0 {
        assert data[..i][..Min(kept, i)] == data[..Min(kept, i)];
        CutOff(name);
        return false;
      }
      assert data[..|data|] == data;
      allowance := allowance - 1;
      return true;
    }

    /** `persist_atomic`. */
    method PersistAtomic(primary: Name, sram: seq<byte>, tail: seq<byte>) returns (ok: bool)
      modifies this
      ensures Outcome(card, ok, allowance) == AfterPersist(old(card), primary, sram + tail, old(allowance), kept)
    {
      var tmp := TempSaveName(primary);
      ok := WriteSave(tmp, sram, tail);
      if ok {
        ok := WriteSave(primary, sram, tail);
      }
    }

    /** `restore_best_in_place`; each of its three reads may fail. */
    method RestoreBestInPlace(
      primary: Name, hasRtc: bool, sram: array<byte>, clock: Clock, now: nat, faults: ReadFaults)
      returns (r: Result<Option<Source>, IoError>)
      modifies sram, clock
      ensures (match Restored(card, primary, hasRtc, sram.Length, faults)
               case Err(_) => r.Err?
               case Ok(None) =>
                 r == Ok(None) && sram[..] == old(sram[..]) && clock.Same(old(clock.regs), old(clock.owed))
               case Ok(Some(image)) =>
                 && r == Ok(Some(image.source)) && sram[..] == image.sram
                 && match image.tail
                    case None => clock.Same(old(clock.regs), old(clock.owed))
                    case Some(t) => clock.Same(Unpack(t).0, old(clock.owed) + Elapsed(t, now)))
    {
      var tmpName := TempSaveName(primary);
      var primaryLen := if faults.primary then None else Length(card, primary);
      var tmpLen := if faults.temp then None else Length(card, tmpName);
      var pick := PickRestoreSlot(primaryLen, tmpLen, sram.Length, hasRtc);
      if pick.None? {
        return Ok(None);
      }
      if faults.image {
        return Err(ReadFailed);
      }
      var content := card[if pick.value.Primary? then primary else tmpName];
      forall i | 0 <= i < sram.Length { sram[i] := content[i]; }
      if hasRtc && |content| >= ExpectedLen(sram.Length, true) {
        clock.ApplyTail(content[sram.Length..sram.Length + RTC_TAIL_LEN], now);
      }
      return Ok(Some(pick.value));
    }
  }

  /** The register provider: what was restored and how many seconds it was told to advance. */
  class Clock {
    var regs: Regs
    var owed: nat

    ghost predicate Same(regs: Regs, owed: nat)
      reads this
    {
      this.regs == regs && this.owed == owed
    }

    /** `apply_rtc_tail`: a time in the future of `now` keeps the registers as saved. */
    method ApplyTail(tail: seq<byte>, now: nat)
      requires |tail| == RTC_TAIL_LEN
      modifies this
      ensures Same(Unpack(tail).0, old(owed) + Elapsed(tail, now))
    {
      var (saved, at) := Unpack(tail);
      regs := saved;
      if now >= at {
        var diff := now - at;
        if diff > 0 {
          owed := owed + diff;
        }
      }
    }
  }

  function Elapsed(tail: seq<byte>, now: nat): nat
    requires |tail| == RTC_TAIL_LEN
  {
    var at := Unpack(tail).1;
    if now >= at then now - at else 0
  }

  /** From save to restore: the registers come back and exactly the time in between is owed, if any. */
  lemma TimeAwayIsOwed(regs: Regs, at: nat, now: nat)
    requires |regs.live| == |regs.latch| == 5 && at < Power256(8)
    ensures var tail := Tail(regs, at);
      Unpack(tail).0 == regs && at + Elapsed(tail, now) == if at < now then now else at
  {
    PackRoundTrip(regs, at);
  }

  // ----- reading -----

  datatype ReadFaults = ReadFaults(primary: bool, temp: bool, image: bool)
  const NO_FAULTS := ReadFaults(false, false, false)

  datatype Image = Image(source: Source, sram: seq<byte>, tail: Option<seq<byte>>)

  function ExpectedLen(sramLen: nat, hasRtc: bool): nat {
    sramLen + if hasRtc then RTC_TAIL_LEN else 0
  }

  function Length(card: Card, name: Name): Option<nat> {
    if name in card then Some(|card[name]|) else None
  }

  predicate AtLeast(len: Option<nat>, n: nat) { len.Some? && len.value >= n }

  function PickRestoreSlot(primaryLen: Option<nat>, tmpLen: Option<nat>, sramLen: nat, hasRtc: bool): Option<Source> {
    var full := ExpectedLen(sramLen, hasRtc);
    if AtLeast(primaryLen, full) then Some(Primary)
    else if AtLeast(tmpLen, full) then Some(Temp)
    else if AtLeast(primaryLen, sramLen) then Some(Primary)
    else if AtLeast(tmpLen, sramLen) then Some(Temp)
    else None
  }

  function ImageIn(content: seq<byte>, source: Source, sramLen: nat, hasRtc: bool): Image
    requires |content| >= sramLen
  {
    Image(source, content[..sramLen],
          if hasRtc && |content| >= sramLen + RTC_TAIL_LEN
          then Some(content[sramLen..sramLen + RTC_TAIL_LEN]) else None)
  }

  function Restored(
    card: Card, primary: Name, hasRtc: bool, sramLen: nat, faults: ReadFaults): Result<Option<Image>, IoError>
  {
    var primaryLen := if faults.primary then None else Length(card, primary);
    var tmpLen := if faults.temp then None else Length(card, TempName(primary));
    match PickRestoreSlot(primaryLen, tmpLen, sramLen, hasRtc)
    case None => Ok(None)
    case Some(source) =>
      if faults.image then Err(ReadFailed)
      else Ok(Some(ImageIn(card[if source.Primary? then primary else TempName(primary)], source, sramLen, hasRtc)))
  }

  /** The bytes a boot would hand to the game and its clock. */
  ghost predicate BootsWith(card: Card, primary: Name, hasRtc: bool, sramLen: nat, data: seq<byte>) {
    match Restored(card, primary, hasRtc, sramLen, NO_FAULTS)
    case Ok(Some(image)) =>
      && |data| >= ExpectedLen(sramLen, hasRtc) && image.sram == data[..sramLen]
      && image.tail == if hasRtc then Some(data[sramLen..sramLen + RTC_TAIL_LEN]) else None
    case _ => false
  }

  /** How good a file is to restore from: a whole image before bare SRAM, `.SAV` before `.TMP`, 0 for useless. */
  function Worth(len: Option<nat>, source: Source, sramLen: nat, hasRtc: bool): nat {
    if len.None? || len.value < sramLen then 0
    else 1 + (if source.Primary? then 1 else 0) + (if len.value >= sramLen + (if hasRtc then 48 else 0) then 2 else 0)
  }

  /** The length of a file as far as it can be found out. */
  function SeenLength(card: Card, name: Name, fault: bool): Option<nat> {
    if fault || name !in card then None else Some(|card[name]|)
  }

  /** What boot restores, read errors included: the better file if either is of use, SRAM and all of its clock. */
  lemma RestoredIsBest(card: Card, primary: Name, hasRtc: bool, sramLen: nat, faults: ReadFaults)
    ensures var sav := Worth(SeenLength(card, primary, faults.primary), Primary, sramLen, hasRtc);
      var tmp := Worth(SeenLength(card, TempName(primary), faults.temp), Temp, sramLen, hasRtc);
      match Restored(card, primary, hasRtc, sramLen, faults)
      case Ok(None) => sav == tmp == 0
      case Err(_) => faults.image && sav != tmp
      case Ok(Some(image)) =>
        && !faults.image && sav != tmp && (image.source == Primary <==> sav > tmp)
        && var name := if sav > tmp then primary else TempName(primary);
        && name in card && |card[name]| >= sramLen && image.sram == card[name][..sramLen]
        && (image.tail.Some? <==> hasRtc && |card[name]| >= sramLen + 48)
        && (image.tail.Some? ==> image.tail.value == card[name][sramLen..sramLen + 48])
  {
  }

  // ----- crash atomicity -----

  /**
   For an image that does not change while it is written: a persist that starts from a full `.SAV`
   and is cut after any number of operations, whatever part of the open file survives, leaves
   exactly the old image, or exactly the new one; it is the new one from the moment the `.SAV` has
   been truncated. `SaveProtocol.FlushCutIsAtomic` has the image live.
   */
  lemma CutPersistIsAtomic(
    card: Card, primary: Name, hasRtc: bool, sramLen: nat, data: seq<byte>, allowance: nat, kept: nat)
    requires TempName(primary) != primary && |data| == ExpectedLen(sramLen, hasRtc)
    requires primary in card && |card[primary]| >= ExpectedLen(sramLen, hasRtc)
    ensures BootsWith(AfterPersist(card, primary, data, allowance, kept).card, primary, hasRtc, sramLen,
                      if allowance >= |data| + 3 then data else card[primary])
  {
    var tmp := AfterWrite(card, TempName(primary), data, allowance, kept);
    var after := AfterPersist(card, primary, data, allowance, kept).card;
    if allowance < |data| + 3 {
      assert after[primary] == card[primary];
    } else {
      assert after[TempName(primary)] == data;
      assert data[..|data|] == data;
      assert tmp.left >= |data| + 2 || after[primary] == data[..Min(kept, Min(tmp.left - 1, |data|))];
    }
  }

  /** A persist reported as good is what boot restores, from whatever card it started. */
  lemma GoodPersistBoots(
    card: Card, primary: Name, hasRtc: bool, sramLen: nat, data: seq<byte>, allowance: nat, kept: nat)
    requires |data| == ExpectedLen(sramLen, hasRtc) && AfterPersist(card, primary, data, allowance, kept).ok
    ensures BootsWith(AfterPersist(card, primary, data, allowance, kept).card, primary, hasRtc, sramLen, data)
  {
  }

  /** The image handed over on boot, up to what the game and its clock can see. */
  function Visible(content: seq<byte>, sramLen: nat, hasRtc: bool): seq<byte>
    requires |content| >= ExpectedLen(sramLen, hasRtc)
  {
    content[..ExpectedLen(sramLen, hasRtc)]
  }

  /**
   A complete `.TMP` is not enough for the new image: cut between closing `.TMP` and truncating
   a full `.SAV`, boot prefers the old `.SAV`. With `.TMP` written and closed the new image comes
   back if and only if the `.SAV` has been truncated, or the two images look alike anyway.
   */
  lemma CompleteTempIsNotEnough(
    card: Card, primary: Name, hasRtc: bool, sramLen: nat, data: seq<byte>, allowance: nat, kept: nat)
    requires TempName(primary) != primary && |data| == ExpectedLen(sramLen, hasRtc)
    requires primary in card && |card[primary]| >= ExpectedLen(sramLen, hasRtc)
    requires allowance >= |data| + 2
    ensures var after := AfterPersist(card, primary, data, allowance, kept).card;
      && TempName(primary) in after && after[TempName(primary)] == data
      && (BootsWith(after, primary, hasRtc, sramLen, data)
          <==> allowance >= |data| + 3 || Visible(card[primary], sramLen, hasRtc) == data)
  {
    CutPersistIsAtomic(card, primary, hasRtc, sramLen, data, allowance, kept);
    var after := AfterPersist(card, primary, data, allowance, kept).card;
    assert data[..|data|] == data;
    if allowance < |data| + 3 {
      SameBootSameBytes(after, primary, hasRtc, sramLen, card[primary], data);
    }
  }

  lemma SameBootSameBytes(card: Card, primary: Name, hasRtc: bool, sramLen: nat, a: seq<byte>, b: seq<byte>)
    requires BootsWith(card, primary, hasRtc, sramLen, a) && |b| == ExpectedLen(sramLen, hasRtc)
    ensures BootsWith(card, primary, hasRtc, sramLen, b) <==> Visible(a, sramLen, hasRtc) == b
  {
    var n := ExpectedLen(sramLen, hasRtc);
    var v := Visible(a, sramLen, hasRtc);
    assert v[..sramLen] == a[..sramLen] && v[sramLen..] == a[sramLen..n];
    assert b == b[..sramLen] + b[sramLen..] && v == v[..sramLen] + v[sramLen..];
    assert b[sramLen..n] == b[sramLen..];
  }

  /** The concrete case: one byte of SRAM, cut right after `.TMP` was closed. */
  lemma CompleteTempStillBootsOld(primary: Name, kept: nat)
    requires TempName(primary) != primary
    ensures var after := AfterPersist(map[primary := [1]], primary, [2], 3, kept).card;
      && after == map[primary := [1], TempName(primary) := [2]]
      && BootsWith(after, primary, false, 1, [1]) && !BootsWith(after, primary, false, 1, [2])
  {
    var after := AfterPersist(map[primary := [1]], primary, [2], 3, kept).card;
    assert [2][..1] == [2];
    assert after == map[primary := [1], TempName(primary) := [2]];
    assert [1][..1] == [1] && [2] != [1] by { assert [2][0] != [1][0]; }
    assert Restored(after, primary, false, 1, NO_FAULTS).value.value.sram == [1];
  }

  /**
   Without a usable `.SAV` the journal cannot help: for every starting card, a persist cut after
   any number of operations leaves nothing to restore if and only if `.SAV` was missing or
   shorter than SRAM and either `.TMP` was being rewritten and too little of it survived, or
   nothing had been touched and `.TMP` was unusable too.
   */
  lemma NothingLeftIff(
    card: Card, primary: Name, hasRtc: bool, sramLen: nat, data: seq<byte>, allowance: nat, kept: nat)
    requires TempName(primary) != primary && |data| == ExpectedLen(sramLen, hasRtc)
    ensures var after := AfterPersist(card, primary, data, allowance, kept).card;
      Restored(after, primary, hasRtc, sramLen, NO_FAULTS) == Ok(None)
      <==> !AtLeast(Length(card, primary), sramLen)
           && (if allowance == 0 then !AtLeast(Length(card, TempName(primary)), sramLen)
               else allowance < |data| + 2 && Min(kept, allowance - 1) < sramLen)
  {
  }

  /**
   Two cuts in a row lose both images: cut once while `.SAV` is being rewritten and again while
   the retry rewrites `.TMP`.
   */
  lemma TwoCutsLoseBoth(
    card: Card, primary: Name, hasRtc: bool, sramLen: nat, data: seq<byte>, first: nat, second: nat, kept: nat)
    requires TempName(primary) != primary && |data| == ExpectedLen(sramLen, hasRtc) && sramLen > 0
    requires |data| + 3 <= first < |data| + 3 + sramLen && 1 <= second <= sramLen
    ensures var once := AfterPersist(card, primary, data, first, kept).card;
      && BootsWith(once, primary, hasRtc, sramLen, data)
      && Restored(AfterPersist(once, primary, data, second, kept).card, primary, hasRtc, sramLen, NO_FAULTS) == Ok(None)
  {
    NothingLeftIff(AfterPersist(card, primary, data, first, kept).card, primary, hasRtc, sramLen, data, second, kept);
  }
}
