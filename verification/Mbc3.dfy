/**
 The MBC3 mapper (src/gb_mbc.rs and, without the hardware, cartridge-core/src/mbc3.rs): the step for
 one bus write, and the loop iteration around it with its fast path for ROM bank selects and the
 mailbox beside it.

 Calls to the RAM and RTC controls are recorded; the pointers are offsets into ROM and SRAM.
 */
module Mbc3 {
  import opened Bytes
  import B = CrystalBus
  import L = SeedLink

  const ROM_BANK_SIZE := 0x4000
  const RAM_BANK_SIZE := 0x2000

  datatype RamCall = EnableRam | DisableRam | EnableRtc

  datatype RtcCall = Activate(register: byte) | Latch

  /** The atomics that core 1 reads; the generation is taken not to wrap. */
  datatype Shared = Shared(enabled: bool, generation: nat, dirty: bool)

  datatype Mapper = Mapper(
    romBank: byte, pending: byte, ramBank: byte, ramEnabled: bool, rtcLatch: bool,
    romPtr: nat, ramPtr: nat, ramCalls: seq<RamCall>, rtcCalls: seq<RtcCall>, shared: Shared)

  /** A bus write. Only address bits 13 to 15 select the register. */
  datatype Write = Write(addr: nat, data: byte)

  function Region(addr: nat): nat { addr / 0x2000 % 8 }

  predicate Bit3(data: byte) { data / 8 % 2 == 1 }

  /** At boot ROM bank 1 and SRAM bank 0 are mapped, and RAM access has just been disabled. */
  function Boot(): Mapper {
    Mapper(1, 1, 1, false, false, ROM_BANK_SIZE, 0, [DisableRam], [], Shared(false, 0, false))
  }

  function Publish(s: Shared, was: bool, now: bool): Shared {
    var edge := was && !now;
    Shared(now, s.generation + if edge then 1 else 0, s.dirty || edge)
  }

  /** The RAM control call that fits an enabled or disabled window and the selected bank. */
  function FittingCall(enabled: bool, ramBank: byte): RamCall {
    if !enabled then DisableRam else if Bit3(ramBank) then EnableRtc else EnableRam
  }

  function AtRegister(m: Mapper, w: Write): Mapper {
    match Region(w.addr)
    case 0 =>
      var on := w.data % 16 == 10;
      m.(ramEnabled := on, ramCalls := m.ramCalls + [FittingCall(on, m.ramBank)])
    case 1 => m.(pending := if w.data % 128 == 0 then 1 else w.data % 128)
    case 2 =>
      var calls := if m.ramEnabled then m.ramCalls + [FittingCall(true, w.data)] else m.ramCalls;
      if Bit3(w.data)
      then m.(ramBank := w.data, ramCalls := calls, rtcCalls := m.rtcCalls + [Activate(w.data % 8)])
      else m.(ramBank := w.data, ramCalls := calls, ramPtr := w.data % 8 * RAM_BANK_SIZE)
    case 3 =>
      m.(rtcLatch := w.data != 0,
         rtcCalls := if w.data != 0 && !m.rtcLatch then m.rtcCalls + [Latch] else m.rtcCalls)
    case _ => m
  }

  function MapRom(m: Mapper): Mapper {
    var pending: byte := m.pending % 128;
    if m.romBank != pending then m.(pending := pending, romBank := pending, romPtr := pending * ROM_BANK_SIZE)
    else m.(pending := pending)
  }

  /** One write handled by the full state machine and then published. */
  function Stepped(m: Mapper, w: Write): Mapper {
    var m' := MapRom(AtRegister(m, w));
    m'.(shared := Publish(m.shared, m.ramEnabled, m'.ramEnabled))
  }

  /** One write handled by the loop with its shortcut. */
  function Served(m: Mapper, w: Write): Mapper {
    if Region(w.addr) == 1 then
      var bank: byte := if w.data % 128 > 1 then w.data % 128 else 1;
      m.(pending := bank, romBank := bank, romPtr := bank * ROM_BANK_SIZE)
    else Stepped(m, w)
  }

  /** With the mailbox in the cartridge, its three addresses are not the mapper's. */
  predicate Mailed(inUse: bool, w: Write) { inUse && B.COMMAND <= w.addr <= B.PUBLISH }

  function ServedBeside(inUse: bool, m: Mapper, w: Write): Mapper {
    if Mailed(inUse, w) then m else Served(m, w)
  }

  // ----- the object -----

  class Mbc3State {
    var romBank: byte
    var pending: byte
    var ramBank: byte
    var ramEnabled: bool
    var rtcLatch: bool
    var romPtr: nat
    var ramPtr: nat
    var ramCalls: seq<RamCall>
    var rtcCalls: seq<RtcCall>
    var shared: Shared

    ghost function State(): Mapper
      reads this
    {
      Mapper(romBank, pending, ramBank, ramEnabled, rtcLatch, romPtr, ramPtr, ramCalls, rtcCalls, shared)
    }

    constructor ()
      ensures State() == Boot()
    {
      romBank, pending, ramBank, ramEnabled, rtcLatch := 1, 1, 1, false, false;
      romPtr, ramPtr, ramCalls, rtcCalls := ROM_BANK_SIZE, 0, [DisableRam], [];
      shared := Shared(false, 0, false);
    }

    method Step(addr: nat, data: byte)
      modifies this
      ensures State() == MapRom(AtRegister(old(State()), Write(addr, data)))
    {
      match addr / 0x2000 % 8 {
        case 0 =>
          ramEnabled := data % 16 == 10;
          if ramEnabled {
            if Bit3(ramBank) {
              ramCalls := ramCalls + [EnableRtc];
            } else {
              ramCalls := ramCalls + [EnableRam];
            }
          } else {
            ramCalls := ramCalls + [DisableRam];
          }
        case 1 =>
          pending := data % 128;
          if pending == 0 {
            pending := 1;
          }
        case 2 =>
          ramBank := data;
          if Bit3(ramBank) {
            rtcCalls := rtcCalls + [Activate(ramBank % 8)];
            if ramEnabled {
              ramCalls := ramCalls + [EnableRtc];
            }
          } else {
            ramPtr := ramBank % 8 * RAM_BANK_SIZE;
            if ramEnabled {
              ramCalls := ramCalls + [EnableRam];
            }
          }
        case 3 =>
          if data != 0 {
            if !rtcLatch {
              rtcLatch := true;
              rtcCalls := rtcCalls + [Latch];
            }
          } else {
            rtcLatch := false;
          }
        case _ =>
      }
      pending := pending % 128;
      if romBank != pending {
        romBank := pending;
        romPtr := romBank * ROM_BANK_SIZE;
      }
    }

    method SelectRom(data: byte)
      modifies this`pending, this`romBank, this`romPtr
      ensures var bank: byte := if data % 128 > 1 then data % 128 else 1;
        pending == romBank == bank && romPtr == bank * ROM_BANK_SIZE
    {
      var bank: byte := if data % 128 > 1 then data % 128 else 1;
      pending := bank;
      romBank := bank;
      romPtr := bank * ROM_BANK_SIZE;
    }

    method StepAndPublish(addr: nat, data: byte)
      modifies this
      ensures State() == Stepped(old(State()), Write(addr, data))
    {
      var wasEnabled := ramEnabled;
      Step(addr, data);
      shared := Publish(shared, wasEnabled, ramEnabled);
    }
  }

  /** The loop on core 0: mapper and mailbox share the bus. */
  class Mbc3 {
    const state: Mbc3State
    const seedBus: B.Bus

    constructor (state: Mbc3State, seedBus: B.Bus)
      ensures this.state == state && this.seedBus == seedBus
    {
      this.state, this.seedBus := state, seedBus;
    }

    /** One iteration: ROM bank selects first, then the mailbox, then the mapper. */
    method Serve(addr: nat, data: byte, rom: array<byte>)
      requires seedBus.Valid(rom)
      modifies state, seedBus, seedBus.link, seedBus.link.frame, rom
      ensures seedBus.Valid(rom)
      ensures state.State() == ServedBeside(seedBus.offset.Some?, old(state.State()), Write(addr, data))
      ensures var mine := Mailed(seedBus.offset.Some?, Write(addr, data));
        && seedBus.command == (if mine && addr == B.COMMAND then data else old(seedBus.command))
        && seedBus.stamp == (if mine && addr == B.PUBLISH then B.Advance(old(seedBus.stamp)) else old(seedBus.stamp))
        && seedBus.link.State() == (if mine && addr == B.SUBMIT
                                    then L.Submitted(old(seedBus.link.State()), data, old(seedBus.command))
                                    else old(seedBus.link.State()))
        && (mine && addr == B.PUBLISH ==>
              seedBus.Window(rom) == B.Published(old(seedBus.link.State()), data, seedBus.stamp))
        && (!(mine && addr == B.PUBLISH) ==> rom[..] == old(rom[..]))
    {
      if addr / 0x2000 % 8 == 1 {
        state.SelectRom(data);
        return;
      }
      if 0x7000 <= addr <= 0x7002 {
        var mine := seedBus.Write(addr, data, rom);
        if mine {
          return;
        }
      }
      state.StepAndPublish(addr, data);
    }
  }

  // ----- the invariant -----

  ghost predicate Inv(m: Mapper) {
    && m.romBank == m.pending && 1 <= m.romBank < 128 && m.romPtr == m.romBank * ROM_BANK_SIZE
    && m.shared.enabled == m.ramEnabled
    && |m.ramCalls| > 0 && m.ramCalls[|m.ramCalls| - 1] == FittingCall(m.ramEnabled, m.ramBank)
    && m.ramPtr <= 7 * RAM_BANK_SIZE
  }

  lemma BootInv()
    ensures Inv(Boot())
  {
  }

  lemma ShortcutIsStepped(m: Mapper, w: Write)
    requires Inv(m) && Region(w.addr) == 1
    ensures Served(m, w) == Stepped(m, w) && Inv(Served(m, w))
  {
  }

  lemma SteppedInv(m: Mapper, w: Write)
    requires Inv(m) && Region(w.addr) != 1
    ensures Inv(Stepped(m, w))
  {
  }

  /** One write: the shortcut changes nothing, and the invariant is kept. */
  lemma ServedIsStepped(m: Mapper, w: Write)
    requires Inv(m)
    ensures Served(m, w) == Stepped(m, w) && Inv(Served(m, w))
  {
    if Region(w.addr) == 1 { ShortcutIsStepped(m, w); } else { SteppedInv(m, w); }
  }

  function RunStepped(m: Mapper, trace: seq<Write>): Mapper {
    if trace == [] then m else Stepped(RunStepped(m, trace[..|trace| - 1]), trace[|trace| - 1])
  }

  function RunServed(m: Mapper, trace: seq<Write>): Mapper {
    if trace == [] then m else Served(RunServed(m, trace[..|trace| - 1]), trace[|trace| - 1])
  }

  /**
   For every bus trace the loop with its fast path reaches the same registers, ROM and RAM pointers,
   control calls and published atomics as the state machine alone, and the last RAM control call
   always fits what is enabled and selected.
   */
  lemma {:induction false} FastPathRefinesStep(trace: seq<Write>)
    ensures RunServed(Boot(), trace) == RunStepped(Boot(), trace)
    ensures Inv(RunServed(Boot(), trace))
  {
    if trace == [] {
      BootInv();
    } else {
      FastPathRefinesStep(trace[..|trace| - 1]);
      ServedIsStepped(RunServed(Boot(), trace[..|trace| - 1]), trace[|trace| - 1]);
    }
  }

  /** What the mapper sees of a trace when the mailbox is in use. */
  function Unmailed(inUse: bool, trace: seq<Write>): seq<Write> {
    if trace == [] then []
    else
      var before, w := trace[..|trace| - 1], trace[|trace| - 1];
      Unmailed(inUse, before) + if inUse && 0x7000 <= w.addr <= 0x7002 then [] else [w]
  }

  function RunBeside(inUse: bool, m: Mapper, trace: seq<Write>): Mapper {
    if trace == [] then m
    else ServedBeside(inUse, RunBeside(inUse, m, trace[..|trace| - 1]), trace[|trace| - 1])
  }

  /** Beside the mailbox, the loop is the state machine on all writes but those to the mailbox. */
  lemma {:induction false} MailboxIsInvisible(inUse: bool, trace: seq<Write>)
    ensures RunBeside(inUse, Boot(), trace) == RunServed(Boot(), Unmailed(inUse, trace))
    ensures RunBeside(inUse, Boot(), trace) == RunStepped(Boot(), Unmailed(inUse, trace))
  {
    FastPathRefinesStep(Unmailed(inUse, trace));
    if trace != [] {
      var before, w := trace[..|trace| - 1], trace[|trace| - 1];
      MailboxIsInvisible(inUse, before);
      if !Mailed(inUse, w) {
        assert (Unmailed(inUse, before) + [w])[..|Unmailed(inUse, before)|] == Unmailed(inUse, before);
      } else {
        assert Unmailed(inUse, before) + [] == Unmailed(inUse, before);
      }
    }
  }

  // ----- what the registers mean -----

  /** The last value written to a region; with `ramOnly`, leaving out RTC register selects. */
  function LastWrite(trace: seq<Write>, region: nat, ramOnly: bool): Option<byte> {
    if trace == [] then None
    else
      var w := trace[|trace| - 1];
      if Region(w.addr) == region && !(ramOnly && Bit3(w.data)) then Some(w.data)
      else LastWrite(trace[..|trace| - 1], region, ramOnly)
  }

  predicate Enables(last: Option<byte>) { last.Some? && last.value % 16 == 10 }

  predicate NonZero(last: Option<byte>) { last.Some? && last.value != 0 }

  /** The write number `i` closes the SRAM window: it is open before and disabled by this write. */
  predicate Closes(trace: seq<Write>, i: nat)
    requires i < |trace|
  {
    Region(trace[i].addr) == 0 && trace[i].data % 16 != 10 && Enables(LastWrite(trace[..i], 0, false))
  }

  function Closings(trace: seq<Write>, n: nat): nat
    requires n <= |trace|
  {
    if n == 0 then 0 else Closings(trace, n - 1) + if Closes(trace, n - 1) then 1 else 0
  }

  lemma {:induction false} ClosingsPrefix(trace: seq<Write>, n: nat, m: nat)
    requires n <= m <= |trace|
    ensures Closings(trace[..m], n) == Closings(trace, n)
  {
    if n > 0 {
      ClosingsPrefix(trace, n - 1, m);
      assert trace[..m][..n - 1] == trace[..n - 1];
    }
  }

  /** What each register shows, told from the trace alone. */
  ghost predicate ShowsBanks(m: Mapper, trace: seq<Write>) {
    var rom, bank, ram := LastWrite(trace, 1, false), LastWrite(trace, 2, false), LastWrite(trace, 2, true);
    && m.romBank == (if rom.None? || rom.value % 128 == 0 then 1 else rom.value % 128)
    && m.ramBank == (if bank.None? then 1 else bank.value)
    && m.ramPtr == (if ram.None? then 0 else ram.value % 8 * RAM_BANK_SIZE)
  }

  ghost predicate ShowsFlags(m: Mapper, trace: seq<Write>) {
    && m.ramEnabled == Enables(LastWrite(trace, 0, false))
    && m.rtcLatch == NonZero(LastWrite(trace, 3, false))
    && m.shared.generation == Closings(trace, |trace|)
    && m.shared.dirty == (m.shared.generation > 0)
  }

  lemma LastNext(trace: seq<Write>, w: Write, region: nat, ramOnly: bool)
    ensures LastWrite(trace + [w], region, ramOnly)
      == if Region(w.addr) == region && !(ramOnly && Bit3(w.data)) then Some(w.data)
         else LastWrite(trace, region, ramOnly)
  {
    assert (trace + [w])[..|trace|] == trace;
  }

  lemma BanksNext(m: Mapper, trace: seq<Write>, w: Write)
    requires Inv(m) && ShowsBanks(m, trace)
    ensures ShowsBanks(Stepped(m, w), trace + [w])
  {
    LastNext(trace, w, 1, false);
    LastNext(trace, w, 2, false);
    LastNext(trace, w, 2, true);
  }

  lemma FlagsNext(m: Mapper, trace: seq<Write>, w: Write)
    requires Inv(m) && ShowsFlags(m, trace)
    ensures ShowsFlags(Stepped(m, w), trace + [w])
  {
    LastNext(trace, w, 0, false);
    LastNext(trace, w, 3, false);
    var trace' := trace + [w];
    assert trace'[..|trace|] == trace;
    ClosingsPrefix(trace', |trace|, |trace|);
    assert Closes(trace', |trace|) == (m.ramEnabled && !Stepped(m, w).ramEnabled);
  }

  /**
   Every register is the last write to its region: the window is open iff the last enable write had
   low nibble 0xA, the ROM bank is the last select with 0 read as 1, the SRAM pointer is the last
   select that was not an RTC register (bank 0 before any), and the published generation counts the
   writes that closed an open window.
   */
  lemma {:induction false} RegistersShowLastWrites(trace: seq<Write>)
    ensures ShowsBanks(RunServed(Boot(), trace), trace) && ShowsFlags(RunServed(Boot(), trace), trace)
  {
    if trace != [] {
      var before := trace[..|trace| - 1];
      var w := trace[|trace| - 1];
      RegistersShowLastWrites(before);
      FastPathRefinesStep(before);
      ServedIsStepped(RunServed(Boot(), before), w);
      BanksNext(RunServed(Boot(), before), before, w);
      FlagsNext(RunServed(Boot(), before), before, w);
      assert before + [w] == trace;
    }
  }

  /** The calls to the clock that one more write asks for: for an RTC select, for a rising edge of the latch. */
  function ClockCallsOf(before: seq<Write>, w: Write): seq<RtcCall> {
    if Region(w.addr) == 2 && Bit3(w.data) then [Activate(w.data % 8)]
    else if Region(w.addr) == 3 && w.data != 0 && !NonZero(LastWrite(before, 3, false)) then [Latch]
    else []
  }

  function ClockCalls(trace: seq<Write>): seq<RtcCall> {
    if trace == [] then []
    else ClockCalls(trace[..|trace| - 1]) + ClockCallsOf(trace[..|trace| - 1], trace[|trace| - 1])
  }

  lemma ClockCallsNext(m: Mapper, before: seq<Write>, w: Write)
    requires m.rtcLatch == NonZero(LastWrite(before, 3, false))
    ensures Served(m, w).rtcCalls == m.rtcCalls + ClockCallsOf(before, w)
  {
  }

  /** The clock is latched exactly on rising edges and its registers selected as the game asked. */
  lemma {:induction false} ClockIsCalledAsAsked(trace: seq<Write>)
    ensures RunServed(Boot(), trace).rtcCalls == ClockCalls(trace)
  {
    if trace != [] {
      var before, w := trace[..|trace| - 1], trace[|trace| - 1];
      ClockIsCalledAsAsked(before);
      RegistersShowLastWrites(before);
      ClockCallsNext(RunServed(Boot(), before), before, w);
    }
  }

  /** The RAM control calls that one more write asks for. */
  function RamCallsOf(before: seq<Write>, w: Write): seq<RamCall> {
    var bank := LastWrite(before, 2, false);
    if Region(w.addr) == 0 && w.data % 16 != 10 then [DisableRam]
    else if Region(w.addr) == 0 then [if bank.Some? && Bit3(bank.value) then EnableRtc else EnableRam]
    else if Region(w.addr) == 2 && Enables(LastWrite(before, 0, false))
    then [if Bit3(w.data) then EnableRtc else EnableRam]
    else []
  }

  function RamCalls(trace: seq<Write>): seq<RamCall> {
    if trace == [] then []
    else RamCalls(trace[..|trace| - 1]) + RamCallsOf(trace[..|trace| - 1], trace[|trace| - 1])
  }

  lemma RamCallsNext(m: Mapper, before: seq<Write>, w: Write)
    requires m.ramEnabled == Enables(LastWrite(before, 0, false))
    requires Bit3(m.ramBank) == (LastWrite(before, 2, false).Some? && Bit3(LastWrite(before, 2, false).value))
    ensures Served(m, w).ramCalls == m.ramCalls + RamCallsOf(before, w)
  {
  }

  /** SRAM is opened, closed and exchanged for the clock exactly as the game asked, call by call. */
  lemma {:induction false} RamIsCalledAsAsked(trace: seq<Write>)
    ensures RunServed(Boot(), trace).ramCalls == [DisableRam] + RamCalls(trace)
  {
    if trace != [] {
      var before, w := trace[..|trace| - 1], trace[|trace| - 1];
      RamIsCalledAsAsked(before);
      RegistersShowLastWrites(before);
      RamCallsNext(RunServed(Boot(), before), before, w);
      var asked, more := RamCalls(before), RamCallsOf(before, w);
      assert [DisableRam] + (asked + more) == [DisableRam] + asked + more;
    }
  }

  /** At boot the RAM bank register and the RAM pointer disagree until the first RAM bank select. */
  lemma RamPointerFollowsAfterSelect(trace: seq<Write>)
    ensures var m := RunServed(Boot(), trace);
      m.ramPtr == m.ramBank % 8 * RAM_BANK_SIZE && !Bit3(m.ramBank)
      <==> LastWrite(trace, 2, false).Some? && !Bit3(LastWrite(trace, 2, false).value)
  {
    RegistersShowLastWrites(trace);
    if LastWrite(trace, 2, false).Some? && !Bit3(LastWrite(trace, 2, false).value) {
      SelectIsRamSelect(trace);
    }
  }

  lemma {:induction false} SelectIsRamSelect(trace: seq<Write>)
    requires LastWrite(trace, 2, false).Some? && !Bit3(LastWrite(trace, 2, false).value)
    ensures LastWrite(trace, 2, true) == LastWrite(trace, 2, false)
  {
    if trace != [] && Region(trace[|trace| - 1].addr) != 2 {
      SelectIsRamSelect(trace[..|trace| - 1]);
    }
  }
}
