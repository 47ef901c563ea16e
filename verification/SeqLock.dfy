/**
 The 38-byte response window. Core 0 publishes a page one byte store at a time
 (src/crystal_seed.rs, `Bus::write`); the Game Boy reads it one byte at a time
 (integrations/pokecrystal/native/seed.asm, `SeedReadPage`). Nothing excludes the two from
 each other, so every store and every read is a step of its own here.
 */
module SeqLock {
  import opened Bytes

  const WINDOW := 38

  /** Store 0 marks the window odd, stores 1 to 37 copy the page, store 38 commits the stamp. */
  datatype Writer = Quiet | Storing(next: nat)

  /** `pubs` is the history of pages, the current one last; the window starts as one blank page. */
  datatype Port = Port(win: seq<byte>, stamp: byte, writer: Writer, pubs: seq<seq<byte>>)

  function Blank(): Port {
    Port(Zeros(WINDOW), 0, Quiet, [Zeros(WINDOW)])
  }

  /** The page with its publication stamp in the first and last byte. */
  function Stamped(page: seq<byte>, stamp: byte): (p: seq<byte>)
    requires |page| == WINDOW
    ensures |p| == WINDOW && p[0] == p[37] == stamp
    ensures forall i :: 1 <= i < 37 ==> p[i] == page[i]
  {
    page[0 := stamp][37 := stamp]
  }

  function SetBit0(b: byte): byte {
    if b % 2 == 0 then b + 1 else b
  }

  function Begin(p: Port, page: seq<byte>): Port
    requires |page| == WINDOW
  {
    var stamp: byte := (p.stamp + 2) % 256;
    p.(stamp := stamp, writer := Storing(0), pubs := p.pubs + [Stamped(page, stamp)])
  }

  /** One store of the publication in progress; the last page of the history is its source. */
  function Store(p: Port): Port
    requires p.writer.Storing? && p.writer.next <= WINDOW && |p.win| == WINDOW
    requires |p.pubs| > 0 && |p.pubs[|p.pubs| - 1]| == WINDOW
  {
    var n := p.writer.next;
    if n == 0 then p.(win := p.win[0 := SetBit0(p.stamp)], writer := Storing(1))
    else if n < WINDOW then p.(win := p.win[n := p.pubs[|p.pubs| - 1][n]], writer := Storing(n + 1))
    else p.(win := p.win[0 := p.stamp], writer := Quiet)
  }

  /** The stamp of the k-th page: the counter advances by two and wraps at 256. */
  function StampOf(k: nat): byte {
    2 * k % 256
  }

  /** Index of the latest page whose first store has happened. */
  function Begun(p: Port): int {
    if p.writer == Storing(0) then |p.pubs| - 2 else |p.pubs| - 1
  }

  ghost predicate PortInv(p: Port) {
    && |p.win| == WINDOW && |p.pubs| >= 1 && p.pubs[0] == Zeros(WINDOW)
    && (forall k :: 0 <= k < |p.pubs| ==>
          |p.pubs[k]| == WINDOW && p.pubs[k][0] == p.pubs[k][37] == StampOf(k))
    && p.stamp == StampOf(|p.pubs| - 1)
    && match p.writer
       case Quiet => p.win == p.pubs[|p.pubs| - 1]
       case Storing(n) =>
         && n <= WINDOW && |p.pubs| >= 2
         && (n == 0 ==> p.win == p.pubs[|p.pubs| - 2])
         && (n >= 1 ==> p.win[0] == p.stamp + 1
                        && forall i :: 1 <= i < n ==> p.win[i] == p.pubs[|p.pubs| - 1][i])
  }

  lemma BlankInv()
    ensures PortInv(Blank())
  {
  }

  lemma NextStamp(k: nat)
    ensures (StampOf(k) + 2) % 256 == StampOf(k + 1)
  {
  }

  lemma BeginInv(p: Port, page: seq<byte>)
    requires PortInv(p) && p.writer == Quiet && |page| == WINDOW
    ensures PortInv(Begin(p, page)) && Begun(Begin(p, page)) == Begun(p)
  {
    NextStamp(|p.pubs| - 1);
  }

  lemma StoreInv(p: Port)
    requires PortInv(p) && p.writer.Storing?
    ensures PortInv(Store(p))
    ensures Begun(Store(p)) == if p.writer.next == 0 then Begun(p) + 1 else Begun(p)
  {
    if p.writer.next == 0 { FirstStoreInv(p); }
    else if p.writer.next < WINDOW { CopyStoreInv(p); }
    else { LastStoreInv(p); }
  }

  lemma FirstStoreInv(p: Port)
    requires PortInv(p) && p.writer == Storing(0)
    ensures PortInv(Store(p))
  {
    StampEven(|p.pubs| - 1);
  }

  lemma CopyStoreInv(p: Port)
    requires PortInv(p) && p.writer.Storing? && 1 <= p.writer.next < WINDOW
    ensures PortInv(Store(p))
  {
  }

  lemma LastStoreInv(p: Port)
    requires PortInv(p) && p.writer == Storing(WINDOW)
    ensures PortInv(Store(p))
  {
    assert Store(p).win == p.pubs[|p.pubs| - 1];
  }

  lemma StampEven(k: nat)
    ensures StampOf(k) % 2 == 0
  {
  }

  // ----- the reader -----

  /** `origin` remembers which publication was the latest begun at the first read. */
  datatype Reader = Fresh | Copying(first: byte, stage: seq<byte>, origin: int)

  /** Read the stamp; an odd one means a publication is under way. */
  function ReadFirst(p: Port): Option<Reader>
    requires |p.win| == WINDOW
  {
    if p.win[0] % 2 == 1 then None else Some(Copying(p.win[0], [], Begun(p)))
  }

  function ReadNext(p: Port, r: Reader): Reader
    requires |p.win| == WINDOW && r.Copying? && |r.stage| < WINDOW
  {
    r.(stage := r.stage + [p.win[|r.stage|]])
  }

  /** The checks after the copy: stamp unchanged, trailing stamp, version and page number. */
  predicate Verdict(p: Port, r: Reader, index: byte)
    requires |p.win| == WINDOW && r.Copying? && |r.stage| == WINDOW
  {
    p.win[0] == r.first && r.stage[37] == r.first && r.stage[36] == 1 && r.stage[3] == index
  }

  ghost predicate ReaderInv(p: Port, r: Reader)
    requires PortInv(p)
  {
    r.Copying? ==>
      && 0 <= r.origin <= Begun(p) && r.first == StampOf(r.origin) && |r.stage| <= WINDOW
      && (r.origin == Begun(p) ==>
            && (p.writer == Quiet || p.writer == Storing(0))
            && p.win == p.pubs[r.origin] && r.stage == p.pubs[r.origin][..|r.stage|])
  }

  lemma ReadFirstInv(p: Port)
    requires PortInv(p) && ReadFirst(p).Some?
    ensures ReaderInv(p, ReadFirst(p).value)
  {
    StampEven(|p.pubs| - 1);
    var k := Begun(p);
    assert p.win == p.pubs[k] && p.win[0] == StampOf(k);
    assert p.pubs[k][..0] == [];
  }

  lemma ReadNextInv(p: Port, r: Reader)
    requires PortInv(p) && ReaderInv(p, r) && r.Copying? && |r.stage| < WINDOW
    ensures ReaderInv(p, ReadNext(p, r))
  {
  }

  lemma ReaderInvUnderStore(p: Port, r: Reader)
    requires PortInv(p) && ReaderInv(p, r) && p.writer.Storing?
    ensures PortInv(Store(p)) && ReaderInv(Store(p), r)
  {
    StoreInv(p);
  }

  lemma ReaderInvUnderBegin(p: Port, page: seq<byte>, r: Reader)
    requires PortInv(p) && ReaderInv(p, r) && p.writer == Quiet && |page| == WINDOW
    ensures PortInv(Begin(p, page)) && ReaderInv(Begin(p, page), r)
  {
    BeginInv(p, page);
  }

  /**
   The heart of the window: a reader that passes the stamp checks, while fewer than 128
   publications began, has seen exactly one publication, and none began meanwhile.
   */
  lemma AcceptedIsOnePublication(p: Port, r: Reader, index: byte)
    requires PortInv(p) && ReaderInv(p, r) && r.Copying? && |r.stage| == WINDOW
    requires Begun(p) - r.origin < 128 && Verdict(p, r, index)
    ensures Begun(p) == r.origin && r.stage == p.pubs[r.origin]
  {
  }

  // ----- every interleaving -----

  datatype Act = Publish(page: seq<byte>) | StoreByte | FirstRead | CopyByte

  datatype World = World(port: Port, reader: Reader)

  /** One step of either side; a step that is not possible leaves the world as it is. */
  function Step(w: World, a: Act): World
    requires PortInv(w.port)
  {
    match a
    case Publish(page) =>
      if w.port.writer == Quiet && |page| == WINDOW then w.(port := Begin(w.port, page)) else w
    case StoreByte =>
      if w.port.writer.Storing? then w.(port := Store(w.port)) else w
    case FirstRead =>
      w.(reader := match ReadFirst(w.port) case Some(r) => r case None => Fresh)
    case CopyByte =>
      if w.reader.Copying? && |w.reader.stage| < WINDOW
      then w.(reader := ReadNext(w.port, w.reader)) else w
  }

  ghost predicate WorldInv(w: World) {
    PortInv(w.port) && ReaderInv(w.port, w.reader)
  }

  lemma StepInv(w: World, a: Act)
    requires WorldInv(w)
    ensures WorldInv(Step(w, a))
  {
    match a
    case Publish(page) =>
      if w.port.writer == Quiet && |page| == WINDOW { ReaderInvUnderBegin(w.port, page, w.reader); }
    case StoreByte =>
      if w.port.writer.Storing? { ReaderInvUnderStore(w.port, w.reader); }
    case FirstRead =>
      if ReadFirst(w.port).Some? { ReadFirstInv(w.port); }
    case CopyByte =>
      if w.reader.Copying? && |w.reader.stage| < WINDOW { ReadNextInv(w.port, w.reader); }
  }

  ghost function Exec(w: World, acts: seq<Act>): (w': World)
    requires WorldInv(w)
    ensures WorldInv(w')
    decreases |acts|
  {
    if acts == [] then w
    else StepInv(w, acts[0]); Exec(Step(w, acts[0]), acts[1..])
  }

  ghost function Start(): World
    ensures WorldInv(Start())
  {
    BlankInv();
    World(Blank(), Fresh)
  }

  /**
   In every interleaving: a page accepted for `index` while fewer than 128 publications began
   is one published page in full, that page carries the version byte and the index asked for,
   and it is a real publication, never the blank start.
   */
  lemma NeverTorn(acts: seq<Act>, index: byte)
    requires var w := Exec(Start(), acts);
      && w.reader.Copying? && |w.reader.stage| == WINDOW
      && Verdict(w.port, w.reader, index)
      && Begun(w.port) - w.reader.origin < 128
    ensures var w := Exec(Start(), acts);
      && 1 <= w.reader.origin < |w.port.pubs|
      && w.reader.stage == w.port.pubs[w.reader.origin]
      && w.port.pubs[w.reader.origin][36] == 1 && w.port.pubs[w.reader.origin][3] == index
  {
    var w := Exec(Start(), acts);
    AcceptedIsOnePublication(w.port, w.reader, index);
  }

  // ----- the bound is exact -----

  function Repeat(a: Act, n: nat): (acts: seq<Act>)
    ensures |acts| == n && forall i :: 0 <= i < n ==> acts[i] == a
  {
    seq(n, i => a)
  }

  lemma {:induction false} ExecSplit(w: World, a: seq<Act>, b: seq<Act>)
    requires WorldInv(w)
    ensures Exec(w, a + b) == Exec(Exec(w, a), b)
    decreases |a|
  {
    if a == [] {
      assert a + b == b;
    } else {
      StepInv(w, a[0]);
      assert (a + b)[0] == a[0] && (a + b)[1..] == a[1..] + b;
      ExecSplit(Step(w, a[0]), a[1..], b);
    }
  }

  lemma {:induction false} StoresFinish(w: World, n: nat)
    requires n <= WINDOW + 1 && WorldInv(w) && w.port.writer == Storing(WINDOW + 1 - n)
    ensures var w' := Exec(w, Repeat(StoreByte, n));
      && w'.port.writer == Quiet && w'.port.pubs == w.port.pubs && w'.reader == w.reader
    decreases n
  {
    var acts := Repeat(StoreByte, n);
    if n > 0 {
      StepInv(w, StoreByte);
      assert acts[1..] == Repeat(StoreByte, n - 1);
      if n > 1 {
        StoresFinish(Step(w, StoreByte), n - 1);
      }
    }
  }

  /** One whole publication: the window holds the stamped page and the reader is untouched. */
  lemma PublishOnce(w: World, page: seq<byte>)
    requires WorldInv(w) && w.port.writer == Quiet && |page| == WINDOW
    ensures var w' := Exec(w, [Publish(page)] + Repeat(StoreByte, WINDOW + 1));
      && w'.port.writer == Quiet && w'.reader == w.reader && |w'.port.pubs| == |w.port.pubs| + 1
      && w'.port.win == Stamped(page, StampOf(|w.port.pubs|))
  {
    var stores := Repeat(StoreByte, WINDOW + 1);
    var acts := [Publish(page)] + stores;
    assert acts[1..] == stores;
    StepInv(w, acts[0]);
    StoresFinish(Step(w, acts[0]), WINDOW + 1);
  }

  function Publications(page: seq<byte>, n: nat): seq<Act> {
    if n == 0 then [] else Publications(page, n - 1) + ([Publish(page)] + Repeat(StoreByte, WINDOW + 1))
  }

  lemma {:induction false} PublishMany(w: World, page: seq<byte>, n: nat)
    requires WorldInv(w) && w.port.writer == Quiet && |page| == WINDOW
    ensures var w' := Exec(w, Publications(page, n));
      && w'.port.writer == Quiet && w'.reader == w.reader && |w'.port.pubs| == |w.port.pubs| + n
      && (n > 0 ==> w'.port.win == Stamped(page, StampOf(|w.port.pubs| + n - 1)))
  {
    if n > 0 {
      var once := [Publish(page)] + Repeat(StoreByte, WINDOW + 1);
      PublishMany(w, page, n - 1);
      ExecSplit(w, Publications(page, n - 1), once);
      PublishOnce(Exec(w, Publications(page, n - 1)), page);
    }
  }

  lemma {:induction false} CopyMany(w: World, n: nat)
    requires WorldInv(w) && w.reader.Copying? && |w.reader.stage| + n <= WINDOW
    ensures var w' := Exec(w, Repeat(CopyByte, n));
      && w'.port == w.port && w'.reader.Copying? && w'.reader.first == w.reader.first
      && w'.reader.origin == w.reader.origin
      && w'.reader.stage == w.reader.stage + w.port.win[|w.reader.stage|..|w.reader.stage| + n]
    decreases n
  {
    var acts := Repeat(CopyByte, n);
    if n > 0 {
      StepInv(w, CopyByte);
      assert acts[1..] == Repeat(CopyByte, n - 1);
      CopyMany(Step(w, CopyByte), n - 1);
    }
  }

  /** Publish `older`, then read the stamp and the first twenty bytes. */
  function HalfRead(older: seq<byte>): seq<Act> {
    Publications(older, 1) + ([FirstRead] + Repeat(CopyByte, 20))
  }

  /** `n` publications of `newer` between the two halves of the read. */
  function TornSchedule(older: seq<byte>, newer: seq<byte>, n: nat): seq<Act> {
    HalfRead(older) + (Publications(newer, n) + Repeat(CopyByte, 18))
  }

  lemma AfterHalfRead(older: seq<byte>)
    requires |older| == WINDOW
    ensures var w := Exec(Start(), HalfRead(older));
      && w.port.writer == Quiet && |w.port.pubs| == 2
      && w.reader == Copying(2, Stamped(older, 2)[..20], 1)
  {
    var copies := [FirstRead] + Repeat(CopyByte, 20);
    PublishMany(Start(), older, 1);
    ExecSplit(Start(), Publications(older, 1), copies);
    var w := Exec(Start(), Publications(older, 1));
    StepInv(w, FirstRead);
    assert copies[1..] == Repeat(CopyByte, 20);
    CopyMany(Step(w, FirstRead), 20);
    assert [] + w.port.win[0..20] == Stamped(older, 2)[..20];
  }

  lemma FullCopy(w: World, n: nat)
    requires WorldInv(w) && w.reader.Copying? && |w.reader.stage| + n == WINDOW
    ensures var w' := Exec(w, Repeat(CopyByte, n));
      w'.port == w.port && w'.reader == w.reader.(stage := w.reader.stage + w.port.win[WINDOW - n..])
  {
    CopyMany(w, n);
    assert w.port.win[WINDOW - n..WINDOW] == w.port.win[WINDOW - n..];
  }

  lemma AfterSecondHalf(w: World, newer: seq<byte>, n: nat)
    requires WorldInv(w) && w.port.writer == Quiet && |newer| == WINDOW && n > 0
    requires w.reader.Copying? && |w.reader.stage| == 20
    ensures var w' := Exec(w, Publications(newer, n) + Repeat(CopyByte, 18));
      && w'.port.writer == Quiet && |w'.port.pubs| == |w.port.pubs| + n
      && w'.port.win == Stamped(newer, StampOf(|w.port.pubs| + n - 1))
      && w'.reader == w.reader.(stage := w.reader.stage + w'.port.win[20..])
  {
    PublishMany(w, newer, n);
    ExecSplit(w, Publications(newer, n), Repeat(CopyByte, 18));
    FullCopy(Exec(w, Publications(newer, n)), 18);
  }

  /**
   128 publications during one read defeat the check: for any two pages for the same index
   that differ before byte 20 and after it, the stamp comes round to its first value and a
   page that was never published is accepted.
   */
  lemma TornAfter128(older: seq<byte>, newer: seq<byte>, index: byte, i: nat, j: nat, n: nat)
    requires |older| == |newer| == WINDOW && older[36] == newer[36] == 1 && older[3] == newer[3] == index
    requires 1 <= i < 20 && older[i] != newer[i] && 20 <= j < 36 && older[j] != newer[j]
    requires n == 128
    ensures var w := Exec(Start(), TornSchedule(older, newer, n));
      && w.reader.Copying? && |w.reader.stage| == WINDOW && Verdict(w.port, w.reader, index)
      && Begun(w.port) - w.reader.origin == n
      && w.reader.stage[i] == older[i] && w.reader.stage[j] == newer[j]
  {
    AfterHalfRead(older);
    ExecSplit(Start(), HalfRead(older), Publications(newer, n) + Repeat(CopyByte, 18));
    AfterSecondHalf(Exec(Start(), HalfRead(older)), newer, n);
  }
}
