/**
 The MBC3 clock. `GbRtc` is the firmware's (src/gb_rtc.rs), `HostRtc` the host model
 (cartridge-core/src/rtc.rs). The five registers are a mixed-radix number of seconds that wraps
 after 512 days and leaves a sticky carry behind.
 */
module Rtc {
  import opened Arithmetic
  import opened Bytes

  const DAY := 86400
  const SPAN := 512 * DAY

  const HALT := 0x40
  const CARRY := 0x80

  datatype Regs = Regs(seconds: byte, minutes: byte, hours: byte, days: byte, status: byte)

  predicate DaysHigh(r: Regs) { r.status % 2 == 1 }

  predicate Halted(r: Regs) { r.status / HALT % 2 == 1 }

  predicate Carried(r: Regs) { r.status / CARRY == 1 }

  /** Status bits 1 to 5 do not exist. */
  predicate Masked(r: Regs) {
    r.seconds < 0x40 && r.minutes < 0x40 && r.hours < 0x20 && r.status % HALT / 2 == 0
  }

  function Mask(r: Regs): (m: Regs)
    ensures Masked(m)
    ensures Masked(r) ==> m == r
  {
    Regs(r.seconds % 0x40, r.minutes % 0x40, r.hours % 0x20, r.days, r.status / HALT * HALT + r.status % 2)
  }

  predicate Valid(r: Regs) { r.seconds < 60 && r.minutes < 60 && r.hours < 24 }

  function Day(r: Regs): nat { (r.days as int) + if DaysHigh(r) then 256 else 0 }

  function SecondOfDay(r: Regs): (t: nat)
    ensures Valid(r) ==> t < DAY
  {
    (r.seconds as int) + 60 * ((r.minutes as int) + 60 * (r.hours as int))
  }

  /** The time the registers encode, in seconds. */
  function Time(r: Regs): (t: nat)
    ensures Valid(r) ==> t < SPAN
  {
    SecondOfDay(r) + DAY * Day(r)
  }

  function Inc(b: byte): byte { (b + 1) % 256 }

  function SetCarry(status: byte): byte { status % CARRY + CARRY }

  function FlipDaysHigh(status: byte): byte { if status % 2 == 1 then status - 1 else status + 1 }

  /** One second, with every register wrapping as the code has it. */
  function Tick(r: Regs): Regs {
    if Inc(r.seconds) != 60 then r.(seconds := Inc(r.seconds))
    else if Inc(r.minutes) != 60 then r.(seconds := 0, minutes := Inc(r.minutes))
    else if Inc(r.hours) != 24 then r.(seconds := 0, minutes := 0, hours := Inc(r.hours))
    else
      var days := Inc(r.days);
      var status := if days != 0 then r.status
                    else FlipDaysHigh(if DaysHigh(r) then SetCarry(r.status) else r.status);
      Regs(0, 0, 0, days, status)
  }

  function Advanced(r: Regs, n: nat): Regs {
    if n == 0 then r else Tick(Advanced(r, n - 1))
  }

  // ----- the registers as a number -----

  /** The bits that ticking leaves alone: halt, and the ones that do not exist. */
  function Kept(r: Regs): nat { r.status % CARRY / 2 }

  /** The first second of the next day: what becomes of the day registers. */
  function NextDay(days: byte, status: byte): (byte, byte) {
    if Inc(days) != 0 then (Inc(days), status)
    else (0, FlipDaysHigh(if status % 2 == 1 then SetCarry(status) else status))
  }

  lemma FlipFacts(status: byte)
    ensures var f := FlipDaysHigh(status);
      && f % 2 == 1 - status % 2 && f / 2 == status / 2
      && f / CARRY == status / CARRY && f / HALT == status / HALT
      && f % CARRY / 2 == status % CARRY / 2 && f % HALT / 2 == status % HALT / 2
  {
  }

  lemma CarryFacts(status: byte)
    ensures var c := SetCarry(status);
      && c % 2 == status % 2 && c / CARRY == 1 && c / HALT % 2 == status / HALT % 2
      && c % CARRY == status % CARRY && c % HALT == status % HALT
  {
  }

  lemma NextDayCounts(r: Regs, r': Regs)
    requires (r'.days, r'.status) == NextDay(r.days, r.status)
    ensures Kept(r') == Kept(r) && Halted(r') == Halted(r) && r'.status % HALT / 2 == r.status % HALT / 2
    ensures Day(r') == (Day(r) + 1) % 512
    ensures Carried(r') == (Carried(r) || Day(r) == 511)
  {
    if r.days == 255 {
      CarryFacts(r.status);
      FlipFacts(if DaysHigh(r) then SetCarry(r.status) else r.status);
    }
  }

  /** Time and carry, one second on. */
  predicate TimeLater(t: int, t': int, carried: bool, carried': bool) {
    t' == (t + 1) % SPAN && carried' == (carried || t + 1 == SPAN)
  }

  /** The bits that ticking leaves alone, and the limits it respects. */
  predicate SameBits(r: Regs, r': Regs) {
    Kept(r') == Kept(r) && Halted(r') == Halted(r) && Valid(r') && (Masked(r) ==> Masked(r'))
  }

  /** How the registers of one second follow from those of the second before. */
  predicate OneLater(r: Regs, r': Regs) {
    SameBits(r, r') && TimeLater(Time(r), Time(r'), Carried(r), Carried(r'))
  }

  lemma SameDayTime(second: nat, day: nat, carried: bool)
    requires second + 1 < DAY && day < 512
    ensures TimeLater(second + DAY * day, second + 1 + DAY * day, carried, carried)
  {
  }

  lemma SameDay(r: Regs, r': Regs)
    requires Valid(r) && Valid(r') && SecondOfDay(r') == SecondOfDay(r) + 1
    requires r'.days == r.days && r'.status == r.status
    ensures OneLater(r, r')
  {
    SameDayTime(SecondOfDay(r), Day(r), Carried(r));
  }

  lemma NewDayTime(t: int, t': int, day: nat, carried: bool, carried': bool)
    requires day < 512 && t == DAY - 1 + DAY * day && t' == DAY * ((day + 1) % 512)
    requires carried' == (carried || day == 511)
    ensures TimeLater(t, t', carried, carried')
  {
    if day == 511 {
      assert t + 1 == SPAN;
    } else {
      assert t + 1 < SPAN;
    }
  }

  lemma NewDayBits(r: Regs, r': Regs)
    requires Kept(r') == Kept(r) && Halted(r') == Halted(r) && r'.status % HALT / 2 == r.status % HALT / 2
    requires r'.seconds == r'.minutes == r'.hours == 0
    ensures SameBits(r, r')
  {
  }

  lemma NewDay(r: Regs, r': Regs)
    requires Valid(r) && SecondOfDay(r) == DAY - 1
    requires r'.seconds == r'.minutes == r'.hours == 0 && (r'.days, r'.status) == NextDay(r.days, r.status)
    ensures OneLater(r, r')
  {
    NextDayCounts(r, r');
    NewDayBits(r, r');
    NewDayTime(Time(r), Time(r'), Day(r), Carried(r), Carried(r'));
  }

  lemma TickSeconds(r: Regs)
    requires Valid(r)
    ensures SecondOfDay(r) < DAY - 1 ==>
      && Valid(Tick(r)) && SecondOfDay(Tick(r)) == SecondOfDay(r) + 1
      && Tick(r).days == r.days && Tick(r).status == r.status
    ensures SecondOfDay(r) == DAY - 1 ==>
      Tick(r) == Regs(0, 0, 0, NextDay(r.days, r.status).0, NextDay(r.days, r.status).1)
  {
  }

  lemma TickCounts(r: Regs)
    requires Valid(r)
    ensures OneLater(r, Tick(r))
  {
    TickSeconds(r);
    if SecondOfDay(r) == DAY - 1 { NewDay(r, Tick(r)); } else { SameDay(r, Tick(r)); }
  }

  /** What `n` seconds make of time, carry and the other bits. */
  predicate Counts(r: Regs, a: Regs, n: nat) {
    SameBits(r, a) && Time(a) == (Time(r) + n) % SPAN && Carried(a) == (Carried(r) || Time(r) + n >= SPAN)
  }

  lemma CountsNothing(r: Regs)
    requires Valid(r)
    ensures Counts(r, r, 0)
  {
    assert Day(r) < 512 && SecondOfDay(r) < DAY;
  }

  lemma SameBitsStill(r: Regs, a: Regs, a': Regs)
    requires SameBits(r, a) && SameBits(a, a')
    ensures SameBits(r, a')
  {
  }

  lemma CountsOneMore(r: Regs, a: Regs, a': Regs, n: nat)
    requires Valid(r) && 0 <= Time(r) < SPAN && Counts(r, a, n) && OneLater(a, a')
    ensures Counts(r, a', n + 1)
  {
    SameBitsStill(r, a, a');
    LaterAgain(Time(r), n, Time(a), Time(a'), Carried(r), Carried(a), Carried(a'));
  }

  lemma TimeInSpan(r: Regs)
    requires Valid(r)
    ensures 0 <= Time(r) < SPAN
  {
    assert Day(r) < 512 && SecondOfDay(r) < DAY;
  }

  /**
   The clock as arithmetic: on valid registers, n seconds take the encoded time T to T + n modulo
   512 days and raise the carry exactly when T + n reaches 512 days; nothing else changes.
   */
  lemma {:induction false} AdvancedCounts(r: Regs, n: nat)
    requires Valid(r)
    ensures Counts(r, Advanced(r, n), n)
  {
    if n == 0 {
      CountsNothing(r);
    } else {
      AdvancedCounts(r, n - 1);
      var a := Advanced(r, n - 1);
      TickCounts(a);
      TimeInSpan(r);
      CountsOneMore(r, a, Tick(a), n - 1);
    }
  }

  lemma LaterAgain(t: int, n: nat, u: int, u': int, c: bool, d: bool, d': bool)
    requires 0 <= t < SPAN && u == (t + n) % SPAN && d == (c || t + n >= SPAN) && TimeLater(u, u', d, d')
    ensures u' == (t + n + 1) % SPAN && d' == (c || t + n + 1 >= SPAN)
  {
    WrapOnce(t + n);
  }

  /** Below two spans, reaching the end of the first is the only wrap that matters. */
  lemma WrapOnce(x: nat)
    ensures (x % SPAN + 1) % SPAN == (x + 1) % SPAN
    ensures x < SPAN ==> (x % SPAN + 1 == SPAN <==> x + 1 >= SPAN)
  {
    ModNext(x, SPAN);
  }

  /** Time, carry and the untouched bits are all there is. */
  lemma RegistersAreTheirTime(a: Regs, b: Regs)
    requires Valid(a) && Valid(b)
    ensures a == b <==> Time(a) == Time(b) && Carried(a) == Carried(b) && Kept(a) == Kept(b)
  {
    if Time(a) == Time(b) && Carried(a) == Carried(b) && Kept(a) == Kept(b) {
      DayAndSecond(SecondOfDay(a), Day(a), SecondOfDay(b), Day(b));
      SecondMinuteHour(a.seconds, a.minutes, a.hours, b.seconds, b.minutes, b.hours);
      StatusBits(a.status, b.status);
    }
  }

  lemma DayAndSecond(s: int, d: int, s': int, d': int)
    requires 0 <= s < DAY && 0 <= s' < DAY && s + DAY * d == s' + DAY * d'
    ensures s == s' && d == d'
  {
  }

  lemma SecondMinuteHour(s: int, m: int, h: int, s': int, m': int, h': int)
    requires 0 <= s < 60 && 0 <= s' < 60 && 0 <= m < 60 && 0 <= m' < 60
    requires s + 60 * (m + 60 * h) == s' + 60 * (m' + 60 * h')
    ensures s == s' && m == m' && h == h'
  {
    assert m + 60 * h == m' + 60 * h';
  }

  lemma StatusBits(a: byte, b: byte)
    requires a / CARRY == b / CARRY && a % CARRY / 2 == b % CARRY / 2 && a % 2 == b % 2
    ensures a == b
  {
    assert a % CARRY % 2 == a % 2 && b % CARRY % 2 == b % 2;
  }

  lemma {:induction false} AdvancedConcat(r: Regs, m: nat, n: nat)
    ensures Advanced(r, m + n) == Advanced(Advanced(r, m), n)
    decreases n
  {
    if n > 0 { AdvancedConcat(r, m, n - 1); }
  }

  /** `advance_by_seconds` of the firmware as a function. */
  function Later(r: Regs, n: nat): Regs {
    if Halted(r) then r else Advanced(r, n)
  }

  lemma {:induction false} AdvancedKeepsHalt(r: Regs, n: nat)
    ensures Halted(Advanced(r, n)) == Halted(r)
  {
    if n > 0 {
      AdvancedKeepsHalt(r, n - 1);
      TickKeepsHaltBit(Advanced(r, n - 1));
    }
  }

  lemma TickKeepsHaltBit(r: Regs)
    ensures Halted(Tick(r)) == Halted(r)
  {
    if Tick(r).status != r.status {
      CarryFacts(r.status);
      FlipFacts(if DaysHigh(r) then SetCarry(r.status) else r.status);
    }
  }

  /** For the firmware, time away may be counted in any number of parts. */
  lemma AdvancesAddUp(r: Regs, m: nat, n: nat)
    ensures Later(Later(r, m), n) == Later(r, m + n)
  {
    AdvancedKeepsHalt(r, m);
    AdvancedConcat(r, m, n);
  }

  /** The bits a register has, which masking keeps, and no others. */
  predicate SameWithin(a: byte, b: byte, limit: nat)
    requires limit > 0
  {
    a < limit && (a - b) % limit == 0
  }

  lemma WithinIff(a: byte, b: byte, limit: nat)
    requires limit > 0
    ensures SameWithin(a, b, limit) <==> a == b % limit
  {
    if SameWithin(a, b, limit) {
      var k := (a - b) / limit;
      assert b == (-k) * limit + a;
      DivModUnique(b, -k, a, limit);
    }
    if a == b % limit {
      assert (a - b) == (-(b / limit)) * limit + 0;
      DivModUnique(a - b, -(b / limit), 0, limit);
    }
  }

  lemma MaskIff(r: Regs, m: Regs)
    ensures m == Mask(r) <==>
      && SameWithin(m.seconds, r.seconds, 64) && SameWithin(m.minutes, r.minutes, 64)
      && SameWithin(m.hours, r.hours, 32) && m.days == r.days
      && Masked(m) && DaysHigh(m) == DaysHigh(r) && Halted(m) == Halted(r) && Carried(m) == Carried(r)
  {
    WithinIff(m.seconds, r.seconds, 64);
    WithinIff(m.minutes, r.minutes, 64);
    WithinIff(m.hours, r.hours, 32);
    StatusIff(m.status, r.status);
  }

  lemma StatusIff(m: byte, s: byte)
    ensures m == s / HALT * HALT + s % 2 <==>
      m % HALT / 2 == 0 && m % 2 == s % 2 && m / HALT % 2 == s / HALT % 2 && (m / CARRY == 1 <==> s / CARRY == 1)
  {
  }

  /** What follows one value of a register: only `last` itself starts over and carries, all else runs on. */
  predicate CountsOn(before: byte, after: byte, carry: bool, last: byte, limit: nat) {
    if carry then before == last && after == 0
    else before != last && (after == before + 1 || (before + 1 == limit && after == 0))
  }

  /** One second of any registers the hardware can hold, those that show no valid time included. */
  lemma AnyTick(r: Regs)
    requires Masked(r)
    ensures var m := Mask(Tick(r));
      var minute, hour := r.seconds == 59, r.seconds == 59 && r.minutes == 59;
      && CountsOn(r.seconds, m.seconds, minute, 59, 64)
      && (if minute then CountsOn(r.minutes, m.minutes, hour, 59, 64) else m.minutes == r.minutes)
      && (if hour then CountsOn(r.hours, m.hours, r.hours == 23, 23, 32) else m.hours == r.hours)
      && (!(hour && r.hours == 23) ==> m.days == r.days && m.status == r.status)
  {
  }

  /** What `n` seconds away make of the registers: nothing of halted ones, and exactly this of running ones. */
  lemma LaterIff(r: Regs, n: nat, a: Regs)
    requires Valid(r)
    ensures a == Later(r, n) <==> if Halted(r) then a == r else Counts(r, a, n)
    ensures Halted(r) ==> HostLater(r, n) == r
  {
    AdvancedCounts(r, n);
    if !Halted(r) && Counts(r, a, n) { RegistersAreTheirTime(a, Later(r, n)); }
  }

  // ----- the host model -----

  /** Ticks the host does: it looks at the carry only after each tick. */
  function HostTicks(r: Regs, n: nat): nat
    requires Valid(r)
  {
    if Carried(r) then Min(n, 1) else Min(n, SPAN - Time(r))
  }

  function HostLater(r: Regs, n: nat): Regs
    requires Valid(r)
  {
    if Halted(r) then r else Mask(Advanced(r, HostTicks(r, n)))
  }

  lemma CarriedAfter(r: Regs, n: nat)
    requires Valid(r)
    ensures 0 <= Time(r) < SPAN && Carried(Advanced(r, n)) == (Carried(r) || Time(r) + n >= SPAN)
  {
    TimeInSpan(r);
    AdvancedCounts(r, n);
  }

  class HostRtc {
    var regs: Regs

    /** `advance_by_seconds` of the host: stops at the carry, masks at the end. */
    method AdvanceBySeconds(n: nat)
      requires Valid(regs)
      modifies this
      ensures regs == HostLater(old(regs), n)
    {
      if Halted(regs) {
        return;
      }
      ghost var start := regs;
      var r := regs;
      var i := 0;
      while i < n
        invariant 0 <= i <= HostTicks(start, n) && start == regs
        invariant r == Advanced(start, i)
        invariant i > 0 ==> !Carried(r)
      {
        CarriedAfter(start, i);
        CarriedAfter(start, i + 1);
        r := Tick(r);
        i := i + 1;
        if Carried(r) {
          break;
        }
      }
      CarriedAfter(start, i);
      assert i == HostTicks(start, n);
      regs := Mask(r);
    }
  }

  lemma MaskKeepsTime(r: Regs)
    requires Valid(r)
    ensures Valid(Mask(r)) && Time(Mask(r)) == Time(r) && Carried(Mask(r)) == Carried(r)
    ensures Kept(Mask(r)) == if Halted(r) then HALT / 2 else 0
  {
  }

  /** The masked registers after n seconds, as time, carry and remaining bits. */
  lemma MaskedAfter(r: Regs, n: nat)
    requires Valid(r)
    ensures var m := Mask(Advanced(r, n));
      && Valid(m) && Time(m) == (Time(r) + n) % SPAN && Carried(m) == (Carried(r) || Time(r) + n >= SPAN)
      && Kept(m) == (if Halted(r) then HALT / 2 else 0)
  {
    AdvancedCounts(r, n);
    MaskKeepsTime(Advanced(r, n));
  }

  /**
   Host and firmware agree after n seconds if and only if the host's number of ticks is n modulo
   512 days.
   */
  lemma HostAgreesIff(r: Regs, n: nat)
    requires Valid(r)
    ensures Mask(Advanced(r, HostTicks(r, n))) == Mask(Advanced(r, n)) <==> (n - HostTicks(r, n)) % SPAN == 0
  {
    var k := HostTicks(r, n);
    TimeInSpan(r);
    MaskedAfter(r, k);
    MaskedAfter(r, n);
    RegistersAreTheirTime(Mask(Advanced(r, k)), Mask(Advanced(r, n)));
    SameResidue(Time(r) + k, Time(r) + n);
  }

  lemma SameResidue(x: nat, y: nat)
    requires x <= y
    ensures x % SPAN == y % SPAN <==> (y - x) % SPAN == 0
  {
  }

  /** In particular they agree whenever the carry starts clear and stays clear. */
  lemma HostAgreesWithoutCarry(r: Regs, n: nat)
    requires Valid(r) && !Carried(Advanced(r, n))
    ensures Mask(Advanced(r, HostTicks(r, n))) == Mask(Advanced(r, n))
  {
    AdvancedCounts(r, n);
  }

  /** Past the carry they part: the host stands at the wrap, however far the firmware is beyond it. */
  lemma HostStopsAtCarry(r: Regs, n: nat)
    requires Valid(r) && !Carried(r) && SPAN < Time(r) + n < 2 * SPAN
    ensures Time(Mask(Advanced(r, HostTicks(r, n)))) == 0
    ensures Time(Mask(Advanced(r, n))) == Time(r) + n - SPAN
  {
    HostReachesWrap(r, n);
    MaskedAfter(r, HostTicks(r, n));
    MaskedAfter(r, n);
    OneSpanOff(Time(r) + HostTicks(r, n));
    OneSpanOff(Time(r) + n);
  }

  lemma HostReachesWrap(r: Regs, n: nat)
    requires Valid(r) && !Carried(r) && SPAN < Time(r) + n
    ensures Time(r) + HostTicks(r, n) == SPAN
  {
    TimeInSpan(r);
  }

  lemma OneSpanOff(x: nat)
    requires SPAN <= x < 2 * SPAN
    ensures x % SPAN == x - SPAN
  {
  }

  lemma HostLaterValid(r: Regs, n: nat)
    requires Valid(r)
    ensures Valid(HostLater(r, n)) && Halted(HostLater(r, n)) == Halted(r)
  {
    if !Halted(r) {
      var a := Advanced(r, HostTicks(r, n));
      AdvancedCounts(r, HostTicks(r, n));
      MaskKeepsTime(a);
      MaskKeepsHalt(a);
    }
  }

  /** The host counts one second too many for a second part that starts with the carry set. */
  lemma HostTicksInParts(t: nat, carried: bool, m: nat, n: nat, t1: nat, carried1: bool, k: nat)
    requires t < SPAN && k == (if carried then Min(m, 1) else Min(m, SPAN - t))
    requires t1 == (t + k) % SPAN && carried1 == (carried || t + k >= SPAN)
    ensures var k1 := if carried1 then Min(n, 1) else Min(n, SPAN - t1);
      var whole := if carried then Min(m + n, 1) else Min(m + n, SPAN - t);
      k + k1 == whole + if m > 0 && n > 0 && carried1 then 1 else 0
  {
    if !carried && t + k < SPAN { assert t1 == t + k; }
  }

  /** Not so for the host: in two parts it gets as far as in one unless the first part ends carried. */
  lemma HostAddsUpIff(r: Regs, m: nat, n: nat)
    requires Valid(r)
    ensures Valid(HostLater(r, m))
    ensures HostLater(HostLater(r, m), n) == HostLater(r, m + n)
       <==> Halted(r) || m == 0 || n == 0 || !Carried(HostLater(r, m))
  {
    HostLaterValid(r, m);
    if !Halted(r) {
      HostPartsAgreeIff(r, m, n);
    }
  }

  lemma OneMoreDiffers(x: nat)
    ensures (x + 1) % SPAN != x % SPAN
  {
    WrapOnce(x);
  }

  lemma SumWraps(x: nat, k: nat)
    ensures (x % SPAN + k) % SPAN == (x + k) % SPAN
  {
  }

  /** Time, carry and remaining bits of running registers after `ticks` of the host. */
  predicate HostShows(r: Regs, a: Regs, ticks: nat) {
    Valid(a) && Time(a) == (Time(r) + ticks) % SPAN && Carried(a) == (Carried(r) || Time(r) + ticks >= SPAN)
    && Kept(a) == 0
  }

  lemma HostOnce(r: Regs, n: nat)
    requires Valid(r) && !Halted(r)
    ensures HostShows(r, HostLater(r, n), HostTicks(r, n))
  {
    MaskedAfter(r, HostTicks(r, n));
  }

  lemma CarryAgain(t: nat, k: nat, k1: nat)
    requires t < SPAN
    ensures t + k >= SPAN || (t + k) % SPAN + k1 >= SPAN <==> t + k + k1 >= SPAN
  {
    if t + k < SPAN { assert (t + k) % SPAN == t + k; }
  }

  lemma ShowsAgain(r: Regs, r1: Regs, a: Regs, k: nat, k1: nat)
    requires Valid(r) && HostShows(r, r1, k) && HostShows(r1, a, k1)
    ensures HostShows(r, a, k + k1)
  {
    TimeInSpan(r);
    SumWraps(Time(r) + k, k1);
    CarryAgain(Time(r), k, k1);
  }

  lemma ShowsSameIff(r: Regs, a: Regs, b: Regs, x: nat, y: nat)
    requires HostShows(r, a, x) && HostShows(r, b, y) && y <= x <= y + 1
    ensures a == b <==> x == y
  {
    OneMoreDiffers(Time(r) + y);
    RegistersAreTheirTime(a, b);
  }

  lemma HostPartsAgreeIff(r: Regs, m: nat, n: nat)
    requires Valid(r) && !Halted(r) && Valid(HostLater(r, m)) && !Halted(HostLater(r, m))
    ensures HostLater(HostLater(r, m), n) == HostLater(r, m + n)
       <==> m == 0 || n == 0 || !Carried(HostLater(r, m))
  {
    var k, r1 := HostTicks(r, m), HostLater(r, m);
    HostOnce(r, m);
    HostOnce(r1, n);
    HostOnce(r, m + n);
    ShowsAgain(r, r1, HostLater(r1, n), k, HostTicks(r1, n));
    TimeInSpan(r);
    HostTicksInParts(Time(r), Carried(r), m, n, Time(r1), Carried(r1), k);
    ShowsSameIff(r, HostLater(r1, n), HostLater(r, m + n), k + HostTicks(r1, n), HostTicks(r, m + n));
  }

  // ----- the firmware clock -----

  datatype Clock = Clock(regs: Regs, lastMilli: nat, millies: nat, wasHalted: bool)

  function Reset(regs: Regs): Clock { Clock(regs, 0, 0, false) }

  const MILLI := 1000

  /** After leaving the halt the millisecond count starts at the present. */
  function Resumed(c: Clock, now: nat): Clock {
    c.(lastMilli := if c.wasHalted && !Halted(c.regs) then now else c.lastMilli, wasHalted := Halted(c.regs))
  }

  function Counted(c: Clock, now: nat): Clock
    requires now >= c.lastMilli
  {
    if now - c.lastMilli > MILLI then c.(lastMilli := c.lastMilli + MILLI, millies := c.millies + 1) else c
  }

  function Carry(c: Clock): Clock {
    if c.millies >= 1000 then c.(millies := 0, regs := Tick(c.regs)) else c
  }

  /** The clock never asks for the time since a moment that lies ahead. */
  predicate Ready(c: Clock, now: nat) {
    !Halted(c.regs) ==> Resumed(c, now).lastMilli <= now
  }

  function Processed(c: Clock, now: nat): Clock
    requires Ready(c, now)
  {
    var c1 := Resumed(c, now);
    var c2 := if Halted(c.regs) then c1 else Carry(Counted(c1, now));
    c2.(regs := Mask(c2.regs))
  }

  class GbRtc {
    var regs: Regs
    var lastMilli: nat
    var millies: nat
    var oldHalt: bool

    ghost function State(): Clock
      reads this
    {
      Clock(regs, lastMilli, millies, oldHalt)
    }

    constructor ()
      ensures State() == Reset(Regs(0, 0, 0, 0, 0))
    {
      regs, lastMilli, millies, oldHalt := Regs(0, 0, 0, 0, 0), 0, 0, false;
    }

    method ProcessTick()
      modifies this`regs
      ensures regs == Tick(old(regs))
    {
      var r := regs;
      r := r.(seconds := Inc(r.seconds));
      if r.seconds == 60 {
        r := r.(seconds := 0, minutes := Inc(r.minutes));
        if r.minutes == 60 {
          r := r.(minutes := 0, hours := Inc(r.hours));
          if r.hours == 24 {
            r := r.(hours := 0, days := Inc(r.days));
            if r.days == 0 {
              if DaysHigh(r) {
                r := r.(status := SetCarry(r.status));
              }
              r := r.(status := FlipDaysHigh(r.status));
            }
          }
        }
      }
      regs := r;
    }

    method AdvanceBySeconds(n: nat)
      modifies this`regs
      ensures regs == Later(old(regs), n)
    {
      ghost var start := regs;
      if !Halted(regs) {
        var seconds: nat := n;
        while seconds > 0
          invariant seconds <= n && regs == Advanced(start, n - seconds)
        {
          ProcessTick();
          seconds := seconds - 1;
        }
      }
    }

    method Process(now: nat)
      requires Ready(State(), now)
      modifies this
      ensures State() == Processed(old(State()), now)
    {
      if oldHalt && !Halted(regs) {
        lastMilli := now;
      }
      oldHalt := Halted(regs);
      if !Halted(regs) {
        if now - lastMilli > MILLI {
          lastMilli := lastMilli + MILLI;
          millies := millies + 1;
        }
        if millies >= 1000 {
          millies := 0;
          ProcessTick();
        }
      }
      regs := Mask(regs);
    }
  }

  // ----- every run of the clock -----

  /** The game writes a register, or the mapper loop processes the clock at time `now`. */
  datatype Event = Poke(regs: Regs) | Process(now: nat)

  /**
   All but the clock is history, told without looking at how the clock keeps time: the last time seen,
   how often the milliseconds started over, whether the last call found the clock halted, when one last
   found it running, the time between calls that both found it running, and by how much the counting
   point lay behind the present at the calls that found it running again.
   */
  datatype Run = Run(
    clock: Clock, latest: nat, ticks: nat, halted: bool, seen: nat, awake: nat, skipped: nat)

  /** The clock at reset, and time zero. */
  function Started(regs: Regs): Run { Run(Reset(regs), 0, 0, false, 0, 0, 0) }

  predicate Forward(r: Run, e: Event) { e.Process? ==> e.now >= r.latest }

  ghost predicate RunInv(r: Run) {
    r.clock.lastMilli <= r.latest && r.clock.millies < 1000
  }

  function Next(r: Run, e: Event): Run
    requires RunInv(r) && Forward(r, e)
  {
    match e
    case Poke(regs) => r.(clock := r.clock.(regs := regs))
    case Process(now) =>
      var c, halted := Processed(r.clock, now), Halted(r.clock.regs);
      Run(c, now,
          r.ticks + (if c.millies < r.clock.millies then 1 else 0),
          halted,
          if halted then r.seen else now,
          r.awake + (if !r.halted && !halted then now - r.latest else 0),
          r.skipped + (if r.halted && !halted then now - r.clock.lastMilli else 0))
  }

  /** In every run, halted or not, the clock stays behind the time it is given. */
  lemma NextInv(r: Run, e: Event)
    requires RunInv(r) && Forward(r, e)
    ensures RunInv(Next(r, e)) && (e.Process? ==> Ready(r.clock, e.now))
  {
  }

  /** The clock is not halted now, and no halt is remembered. */
  predicate Running(c: Clock) { !Halted(c.regs) && !c.wasHalted }

  ghost predicate NeverHalts(events: seq<Event>) {
    forall e :: e in events && e.Poke? ==> !Halted(e.regs)
  }

  ghost predicate Monotonic(latest: nat, events: seq<Event>)
    decreases |events|
  {
    events == [] || ((events[0].Process? ==> events[0].now >= latest)
                     && Monotonic(if events[0].Process? then events[0].now else latest, events[1..]))
  }

  function Exec(r: Run, events: seq<Event>): Run
    requires RunInv(r) && Monotonic(r.latest, events)
    decreases |events|
  {
    if events == [] then r
    else
      NextInv(r, events[0]);
      Exec(Next(r, events[0]), events[1..])
  }

  /** Microseconds the clock has accounted for. */
  function Accounted(r: Run): nat { 1000 * (1000 * r.ticks + r.clock.millies) }

  lemma NextAccounts(r: Run, e: Event)
    requires RunInv(r) && Forward(r, e) && Running(r.clock) && (e.Poke? ==> !Halted(e.regs))
    ensures var r' := Next(r, e);
      && Running(r'.clock) && r'.clock.lastMilli - r.clock.lastMilli == Accounted(r') - Accounted(r)
  {
    if e.Process? {
      TickKeepsHalt(r.clock.regs);
    }
  }

  // ----- halts -----

  /** Where the counting point stands, and that no more is counted than the clock was seen to run. */
  ghost predicate Accounts(r: Run) {
    && RunInv(r) && r.clock.wasHalted == r.halted
    && r.clock.lastMilli == Accounted(r) + r.skipped
    && r.clock.lastMilli <= r.seen <= r.latest && (!r.halted ==> r.seen == r.latest)
    && Accounted(r) + (r.seen - r.clock.lastMilli) <= r.awake
  }

  /** A call that finds the clock halted leaves time, milliseconds and registers where they are. */
  lemma HaltStops(r: Run, now: nat)
    requires RunInv(r) && Forward(r, Process(now)) && Halted(r.clock.regs)
    ensures var r' := Next(r, Process(now));
      && r'.clock.lastMilli == r.clock.lastMilli && r'.clock.millies == r.clock.millies && r'.ticks == r.ticks
      && r'.clock.regs == Mask(r.clock.regs) && Halted(r'.clock.regs)
  {
    TickKeepsHalt(r.clock.regs);
  }

  /** The registers move by the seconds counted and by nothing else. */
  lemma RegistersMoveByTicks(r: Run, now: nat)
    requires RunInv(r) && Forward(r, Process(now))
    ensures var r' := Next(r, Process(now));
      && r.ticks <= r'.ticks <= r.ticks + 1
      && r'.clock.regs == Mask(if r'.ticks > r.ticks then Tick(r.clock.regs) else r.clock.regs)
  {
  }

  /** What a call does to the counting point; one millisecond is counted once more than that has passed. */
  predicate Moves(r: Run, r': Run, now: nat) {
    if Halted(r.clock.regs) then r'.clock.lastMilli == r.clock.lastMilli && Accounted(r') == Accounted(r)
    else if r.halted then r'.clock.lastMilli == now && Accounted(r') == Accounted(r)
    else
      && r'.clock.lastMilli - r.clock.lastMilli == Accounted(r') - Accounted(r)
      && Accounted(r') - Accounted(r) == if now > r.clock.lastMilli + 1000 then 1000 else 0
  }

  lemma ProcessMoves(r: Run, now: nat)
    requires Accounts(r) && Forward(r, Process(now))
    ensures Moves(r, Next(r, Process(now)), now) && RunInv(Next(r, Process(now)))
    ensures Next(r, Process(now)).clock.wasHalted == Halted(r.clock.regs)
  {
  }

  lemma NextAccountsHalts(r: Run, e: Event)
    requires Accounts(r) && Forward(r, e)
    ensures Accounts(Next(r, e))
  {
    if e.Process? { ProcessMoves(r, e.now); }
  }

  /**
   In every run from reset, with any register writes, halts among them, and a clock that does not go
   back: the counting point is what seconds and milliseconds account for plus what was skipped at the
   resumptions, and no more is ever counted than the time between calls that both found the clock
   running. So halted time is not counted, and running time is not counted twice.
   */
  lemma {:induction false} HaltedTimeIsNotCounted(r: Run, events: seq<Event>)
    requires Accounts(r) && Monotonic(r.latest, events)
    ensures var r' := Exec(r, events);
      r'.clock.lastMilli == Accounted(r') + r'.skipped && Accounted(r') <= r'.awake && Accounts(r')
    decreases |events|
  {
    if events != [] {
      NextAccountsHalts(r, events[0]);
      NextInv(r, events[0]);
      HaltedTimeIsNotCounted(Next(r, events[0]), events[1..]);
    }
  }

  lemma StartAccounts(regs: Regs)
    ensures Accounts(Started(regs))
  {
  }

  lemma TickKeepsHalt(r: Regs)
    ensures Halted(Mask(Tick(r))) == Halted(r) && Halted(Mask(r)) == Halted(r)
  {
    MaskKeepsHalt(r);
    MaskKeepsHalt(Tick(r));
    TickKeepsHaltBit(r);
  }

  lemma MaskKeepsHalt(r: Regs)
    ensures Halted(Mask(r)) == Halted(r)
  {
  }

  /**
   In every never-halted run from reset, with any register writes in between and a clock that does
   not go back: the last millisecond is exactly what seconds and milliseconds account for, so no
   second is lost or counted twice, and it never runs ahead of the time.
   */
  lemma {:induction false} NoSecondLost(r: Run, events: seq<Event>)
    requires RunInv(r) && Monotonic(r.latest, events) && Running(r.clock) && NeverHalts(events)
    requires r.clock.lastMilli == Accounted(r)
    ensures var r' := Exec(r, events);
      && RunInv(r') && Running(r'.clock)
      && r'.clock.lastMilli == Accounted(r') <= r'.latest
      && r'.ticks == r'.clock.lastMilli / 1_000_000
    decreases |events|
  {
    if events != [] {
      NextInv(r, events[0]);
      NextAccounts(r, events[0]);
      NoSecondLost(Next(r, events[0]), events[1..]);
    }
  }

  lemma NextCounts(r: Run, start: Regs, e: Event)
    requires RunInv(r) && Forward(r, e) && Running(r.clock) && e.Process?
    requires Valid(start) && Masked(start) && r.clock.regs == Advanced(start, r.ticks)
    ensures Next(r, e).clock.regs == Advanced(start, Next(r, e).ticks)
  {
    AdvancedCounts(start, r.ticks);
    AdvancedCounts(start, r.ticks + 1);
  }

  lemma TimeAfter(r: Regs, n: nat)
    requires Valid(r)
    ensures Time(Advanced(r, n)) == (Time(r) + n) % SPAN
  {
    AdvancedCounts(r, n);
  }

  /** Without register writes, the registers show the start plus the seconds counted. */
  lemma {:induction false} RegistersCount(r: Run, start: Regs, events: seq<Event>)
    requires RunInv(r) && Monotonic(r.latest, events) && Running(r.clock)
    requires Valid(start) && Masked(start) && r.clock.regs == Advanced(start, r.ticks)
    requires forall e :: e in events ==> e.Process?
    ensures var r' := Exec(r, events);
      && r'.clock.regs == Advanced(start, r'.ticks)
      && Time(r'.clock.regs) == (Time(start) + r'.ticks) % SPAN
    decreases |events|
  {
    if events == [] {
      TimeAfter(start, r.ticks);
    } else {
      NextInv(r, events[0]);
      NextAccounts(r, events[0]);
      NextCounts(r, start, events[0]);
      RegistersCount(Next(r, events[0]), start, events[1..]);
    }
  }

  /** A deferred clock catches up by one millisecond per call while it lags by more than one. */
  lemma {:induction false} CatchesUp(r: Run, events: seq<Event>)
    requires RunInv(r) && Monotonic(r.latest, events) && Running(r.clock)
    requires forall e :: e in events ==> e.Process? && e.now > r.clock.lastMilli + MILLI * |events|
    ensures Exec(r, events).clock.lastMilli == r.clock.lastMilli + MILLI * |events|
    decreases |events|
  {
    if events != [] {
      assert events[0] in events;
      NextInv(r, events[0]);
      NextAccounts(r, events[0]);
      var r1 := Next(r, events[0]);
      CatchesUp(r1, events[1..]);
    }
  }

  /** Calls at most a millisecond apart. */
  ghost predicate Dense(latest: nat, events: seq<Event>)
    decreases |events|
  {
    events == [] || (events[0].Process? && latest <= events[0].now <= latest + MILLI
                     && Dense(events[0].now, events[1..]))
  }

  /** A clock that is processed every millisecond is never more than a millisecond behind. */
  lemma {:induction false} KeepsUp(r: Run, events: seq<Event>)
    requires RunInv(r) && Monotonic(r.latest, events) && Running(r.clock) && Dense(r.latest, events)
    requires r.latest <= r.clock.lastMilli + MILLI
    ensures Exec(r, events).latest <= Exec(r, events).clock.lastMilli + MILLI
    decreases |events|
  {
    if events != [] {
      NextInv(r, events[0]);
      NextAccounts(r, events[0]);
      KeepsUp(Next(r, events[0]), events[1..]);
    }
  }
}
