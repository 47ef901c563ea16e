/**
 Core 0's side of the Crystal link (src/crystal_seed.rs, `Bus`): the cartridge finds the window
 in its ROM image, latches commands, submits tickets and publishes pages byte by byte. Next to
 it stands the Game Boy's reader (integrations/pokecrystal/native/seed.asm, `SeedReadPage`).

 Here each routine runs to its end; `SeqLock` has them interleaved, `CrystalProtocol` has the
 whole exchange.
 */
module CrystalBus {
  import opened Bytes
  import L = SeedLink
  import W = SeqLock

  // ----- finding the window -----

  predicate MarkerAt(bank: seq<byte>, i: nat) {
    i + |L.MARKER| + L.PAGE_BYTES <= |bank| && bank[i..i + |L.MARKER|] == L.MARKER
  }

  /** The five bytes `CSD2` and 1, somewhere in the bank with a whole page behind them. */
  lemma MarkerAtIff(bank: seq<byte>, i: nat)
    ensures MarkerAt(bank, i) <==> exists front: seq<byte>, page: seq<byte>, back: seq<byte> ::
      |front| == i && |page| == 38 && bank == front + [0x43, 0x53, 0x44, 0x32, 1] + page + back
  {
    if MarkerAt(bank, i) {
      var front, page, back := bank[..i], bank[i + 5..i + 43], bank[i + 43..];
      assert bank == front + [0x43, 0x53, 0x44, 0x32, 1] + page + back;
    }
    if front: seq<byte>, page: seq<byte>, back: seq<byte> :|
      |front| == i && |page| == 38 && bank == front + [0x43, 0x53, 0x44, 0x32, 1] + page + back {
      assert bank[i..i + 5] == [0x43, 0x53, 0x44, 0x32, 1];
    }
  }

  /** The window starts behind the first marker that leaves room for a whole page. */
  method MarkerOffset(bank: array<byte>) returns (off: Option<nat>)
    ensures match off
      case Some(o) => o >= |L.MARKER| && MarkerAt(bank[..], o - |L.MARKER|)
                      && forall i :: 0 <= i < o - |L.MARKER| ==> !MarkerAt(bank[..], i)
      case None => forall i: nat :: !MarkerAt(bank[..], i)
  {
    var i := 0;
    while i + |L.MARKER| + L.PAGE_BYTES <= bank.Length
      invariant forall j :: 0 <= j < i ==> !MarkerAt(bank[..], j)
    {
      if bank[i..i + |L.MARKER|] == L.MARKER {
        assert bank[i..i + |L.MARKER|] == bank[..][i..i + |L.MARKER|];
        return Some(i + |L.MARKER|);
      }
      assert bank[i..i + |L.MARKER|] == bank[..][i..i + |L.MARKER|];
      i := i + 1;
    }
    return None;
  }

  // ----- the bus -----

  const COMMAND := 0x7000
  const SUBMIT := 0x7001
  const PUBLISH := 0x7002

  function Advance(stamp: byte): byte { (stamp + 2) % 256 }

  /** The bytes a publication leaves in the window. */
  function Published(m: L.Mailbox, index: byte, stamp: byte): (p: seq<byte>)
    requires |m.frame| == L.FRAME_BYTES
    ensures |p| == L.PAGE_BYTES
  {
    W.Stamped(L.PageOf(m, index), stamp)
  }

  class Bus {
    const link: L.Link
    const offset: Option<nat>
    var command: byte
    var stamp: byte

    ghost predicate Valid(rom: array<byte>)
      reads this, link, link.frame
    {
      && link.Valid() && rom != link.frame
      && (offset.Some? ==> offset.value + L.PAGE_BYTES <= rom.Length)
      && stamp % 2 == 0
    }

    constructor (link: L.Link, rom: array<byte>)
      requires link.Valid() && rom != link.frame
      ensures Valid(rom) && this.link == link && command == 0 && stamp == 0
      ensures offset.None? ==> forall i: nat :: !MarkerAt(rom[..], i)
      ensures offset.Some? ==> offset.value >= |L.MARKER| && MarkerAt(rom[..], offset.value - |L.MARKER|)
    {
      var off := MarkerOffset(rom);
      this.link, offset, command, stamp := link, off, 0, 0;
    }

    /** The current contents of the window. */
    ghost function Window(rom: array<byte>): seq<byte>
      requires offset.Some? && offset.value + L.PAGE_BYTES <= rom.Length
      reads this, rom
    {
      rom[offset.value..offset.value + L.PAGE_BYTES]
    }

    /**
     A write of the game to the bus; the answer says whether it was one of the three mailbox
     addresses.
     */
    method Write(addr: nat, data: byte, rom: array<byte>) returns (mine: bool)
      requires Valid(rom)
      modifies this, link, link.frame, rom
      ensures Valid(rom)
      ensures mine == (offset.Some? && COMMAND <= addr <= PUBLISH)
      ensures command == if mine && addr == COMMAND then data else old(command)
      ensures stamp == if mine && addr == PUBLISH then Advance(old(stamp)) else old(stamp)
      ensures link.State() == if mine && addr == SUBMIT then L.Submitted(old(link.State()), data, old(command))
                              else old(link.State())
      ensures !(mine && addr == PUBLISH) ==> rom[..] == old(rom[..])
      ensures mine && addr == PUBLISH ==>
        && Window(rom) == Published(old(link.State()), data, stamp)
        && rom[..offset.value] == old(rom[..offset.value])
        && rom[offset.value + L.PAGE_BYTES..] == old(rom[offset.value + L.PAGE_BYTES..])
    {
      if offset.None? {
        return false;
      }
      if addr == COMMAND {
        command := data;
      } else if addr == SUBMIT {
        var _ := link.Submit(data, command);
      } else if addr == PUBLISH {
        var page := link.Page(data);
        stamp := (stamp + 2) % 256;
        page := page[0 := stamp][37 := stamp];
        Copy(page, rom);
      } else {
        return false;
      }
      return true;
    }

    /** The stores of one publication: mark odd, copy, commit. */
    method Copy(page: seq<byte>, rom: array<byte>)
      requires Valid(rom) && offset.Some? && |page| == L.PAGE_BYTES && page[0] == stamp
      modifies rom
      ensures Window(rom) == page
      ensures rom[..offset.value] == old(rom[..offset.value])
      ensures rom[offset.value + L.PAGE_BYTES..] == old(rom[offset.value + L.PAGE_BYTES..])
    {
      var off := offset.value;
      rom[off] := W.SetBit0(stamp);
      var i := 1;
      while i < L.PAGE_BYTES
        invariant 1 <= i <= L.PAGE_BYTES
        invariant rom[off + 1..off + i] == page[1..i]
        invariant rom[..off] == old(rom[..off]) && rom[off + L.PAGE_BYTES..] == old(rom[off + L.PAGE_BYTES..])
      {
        rom[off + i] := page[i];
        assert rom[off + 1..off + i + 1] == rom[off + 1..off + i] + [page[i]];
        i := i + 1;
      }
      rom[off] := stamp;
      assert Window(rom) == [stamp] + rom[off + 1..off + L.PAGE_BYTES];
    }
  }

  // ----- the reader -----

  /** What the reader makes of a window nobody is writing to. */
  predicate Acceptable(window: seq<byte>, index: byte)
    requires |window| == L.PAGE_BYTES
  {
    window[0] % 2 == 0 && window[37] == window[0] && window[36] == 1 && window[3] == index
  }

  /** `SeedReadPage`, without a publication in between: copy, then validate. */
  method ReadPage(rom: array<byte>, off: nat, index: byte) returns (stage: Option<seq<byte>>)
    requires off + L.PAGE_BYTES <= rom.Length
    ensures var window := rom[off..off + L.PAGE_BYTES];
      stage == if Acceptable(window, index) then Some(window) else None
  {
    var first := rom[off];
    if first % 2 == 1 {
      return None;
    }
    var copy := [];
    while |copy| < L.PAGE_BYTES
      invariant |copy| <= L.PAGE_BYTES && copy == rom[off..off + |copy|]
    {
      assert rom[off..off + |copy| + 1] == rom[off..off + |copy|] + [rom[off + |copy|]];
      copy := copy + [rom[off + |copy|]];
    }
    if rom[off] != first || copy[37] != first || copy[36] != 1 || copy[3] != index {
      return None;
    }
    return Some(copy);
  }

  /** The reader takes exactly what is laid out as a page of this index, committed and published at least once. */
  lemma AcceptableIff(window: seq<byte>, index: byte)
    requires |window| == L.PAGE_BYTES
    ensures Acceptable(window, index) <==> exists stamp: byte, ack: byte, busy: byte, payload: seq<byte> ::
      stamp % 2 == 0 && |payload| == 32 && window == [stamp, ack, busy, index] + payload + [1, stamp]
  {
    if Acceptable(window, index) {
      assert window == [window[0], window[1], window[2], index] + window[4..36] + [1, window[0]];
    }
  }

  /** Every publication is acceptable for the index it was asked for, and for no other. */
  lemma PublishedIsAcceptable(m: L.Mailbox, index: byte, stamp: byte, asked: byte)
    requires |m.frame| == L.FRAME_BYTES && stamp % 2 == 0
    ensures Acceptable(Published(m, index, stamp), asked) <==> asked == index
    ensures var p := Published(m, index, stamp);
      p[1] == m.ack && p[4..36] == L.Payload(m, index) && (p[2] == 0 <==> m.active.None? && L.InFrame(index))
  {
    var page := L.PageOf(m, index);
    assert Published(m, index, stamp)[4..36] == page[4..36];
  }

  /** Ask for a page and read it: with nothing in between it always arrives, unchanged. */
  method Fetch(bus: Bus, rom: array<byte>, index: byte) returns (stage: Option<seq<byte>>)
    requires bus.Valid(rom) && bus.offset.Some?
    modifies bus, bus.link, bus.link.frame, rom
    ensures bus.Valid(rom) && bus.link.State() == old(bus.link.State())
    ensures stage.Some? && |stage.value| == L.PAGE_BYTES
    ensures stage.value[1] == bus.link.ack && stage.value[4..36] == L.Payload(bus.link.State(), index)
    ensures stage.value[2] == 0 <==> bus.link.active.None? && L.InFrame(index)
  {
    var _ := bus.Write(PUBLISH, index, rom);
    PublishedIsAcceptable(bus.link.State(), index, bus.stamp, index);
    stage := ReadPage(rom, bus.offset.value, index);
  }

  // ----- the bus and the shared window -----

  /**
   The object and the interleaved model agree: starting from a port that shows the same stamp, one
   undisturbed publication of the mailbox's page ends in exactly the window the object leaves.
   */
  lemma BusRefinesPort(w: W.World, m: L.Mailbox, index: byte, acts: seq<W.Act>)
    requires W.WorldInv(w) && w.port.writer == W.Quiet && |m.frame| == L.FRAME_BYTES
    requires acts == [W.Publish(L.PageOf(m, index))] + W.Repeat(W.StoreByte, W.WINDOW + 1)
    ensures var w' := W.Exec(w, acts);
      && w'.port.writer == W.Quiet && w'.reader == w.reader
      && w'.port.stamp == Advance(w.port.stamp)
      && w'.port.win == Published(m, index, Advance(w.port.stamp))
  {
    W.PublishOnce(w, L.PageOf(m, index));
    StampAdvances(|w.port.pubs| - 1);
  }

  lemma StampAdvances(k: nat)
    ensures W.StampOf(k + 1) == Advance(W.StampOf(k))
  {
  }
}
