/**
 A QR code on its way from the signer to the Game Boy's screen: packed into bits
 (signer-probe/src/terminal.rs, `export_qr`), framed by the mailbox, refetched page by page and
 painted into 13 x 13 tiles (integrations/pokecrystal/native/seed.asm, `SeedSend`, `SeedDrawQR`,
 `SeedQRModule`, `SeedQRPixel`).
 */
module Qr {
  import opened Arithmetic
  import opened Bytes
  import opened Bits
  import B = CrystalBus
  import L = SeedLink

  const MAX_MODULES := 41
  const MIN_MODULES := 21
  const QR_BUFFER_BYTES := 211
  const QR_READY: byte := 7
  const TILES := 13
  const TILE_BYTES := 2704
  const PIXELS := 104

  /** `get_module(x, y)` */
  type Grid = (nat, nat) -> bool

  // ----- packing -----

  predicate PackedBit(buf: seq<byte>, i: nat)
    requires i / 8 < |buf|
  {
    Bit(buf[i / 8], i % 8)
  }

  function OrAt(buf: seq<byte>, i: nat): (r: seq<byte>)
    requires i / 8 < |buf|
    ensures |r| == |buf|
  {
    buf[i / 8 := OrBit(buf[i / 8], i % 8)]
  }

  lemma OrAtBits(buf: seq<byte>, i: nat, j: nat)
    requires i / 8 < |buf| && j / 8 < |buf|
    ensures PackedBit(OrAt(buf, i), j) == (j == i || PackedBit(buf, j))
  {
    SetBitBits(buf[i / 8], i % 8, j % 8);
  }

  /** Row by row, from the least significant bit on, with nothing behind the last module. */
  ghost predicate PacksUpTo(buf: seq<byte>, size: nat, get: Grid, n: nat)
    requires size > 0
  {
    && |buf| == QR_BUFFER_BYTES
    && forall i :: 0 <= i < 8 * QR_BUFFER_BYTES ==> PackedBit(buf, i) == (i < n && get(i % size, i / size))
  }

  ghost predicate Packs(buf: seq<byte>, size: nat, get: Grid)
    requires size > 0
  {
    PacksUpTo(buf, size, get, size * size)
  }

  lemma PacksNext(buf: seq<byte>, size: nat, get: Grid, n: nat)
    requires 0 < size && n < 8 * QR_BUFFER_BYTES && PacksUpTo(buf, size, get, n)
    ensures PacksUpTo(if get(n % size, n / size) then OrAt(buf, n) else buf, size, get, n + 1)
  {
    forall i | 0 <= i < 8 * QR_BUFFER_BYTES
      ensures PackedBit(OrAt(buf, n), i) == (i == n || PackedBit(buf, i))
    {
      OrAtBits(buf, n, i);
    }
  }

  lemma SquareBound(size: nat)
    requires size <= MAX_MODULES
    ensures size * size <= MAX_MODULES * MAX_MODULES < 8 * QR_BUFFER_BYTES
  {
    assert size * size <= size * MAX_MODULES;
  }

  lemma RowEnds(size: nat, y: nat)
    requires y < size
    ensures y * size + size == (y + 1) * size <= size * size
  {
    assert (y + 1) * size == y * size + size;
    MulMonotone(y + 1, size, size);
  }

  /** The number of modules of a code. */
  function Modules(size: nat): (n: nat)
    requires size <= MAX_MODULES
    ensures n == size * size <= 8 * QR_BUFFER_BYTES
  {
    SquareBound(size);
    size * size
  }

  /** The buffer with the first `n` modules packed. */
  function Packed(size: nat, get: Grid, n: nat): (buf: seq<byte>)
    requires n <= 8 * QR_BUFFER_BYTES && (n > 0 ==> size > 0)
    ensures |buf| == QR_BUFFER_BYTES
  {
    if n == 0 then Zeros(QR_BUFFER_BYTES)
    else
      var buf := Packed(size, get, n - 1);
      if get((n - 1) % size, (n - 1) / size) then OrAt(buf, n - 1) else buf
  }

  lemma {:induction false} PackedPacks(size: nat, get: Grid, n: nat)
    requires 0 < size && n <= 8 * QR_BUFFER_BYTES
    ensures PacksUpTo(Packed(size, get, n), size, get, n)
  {
    if n == 0 {
      forall i | 0 <= i < 8 * QR_BUFFER_BYTES ensures !PackedBit(Zeros(QR_BUFFER_BYTES), i) { ZeroBits(i % 8); }
    } else {
      PackedPacks(size, get, n - 1);
      PacksNext(Packed(size, get, n - 1), size, get, n - 1);
    }
  }

  method PackQr(size: nat, get: Grid, buf: array<byte>)
    requires size <= MAX_MODULES && buf.Length == QR_BUFFER_BYTES
    modifies buf
    ensures buf[..] == Packed(size, get, Modules(size))
    ensures size > 0 ==> Packs(buf[..], size, get)
  {
    forall k | 0 <= k < buf.Length { buf[k] := 0; }
    assert buf[..] == Zeros(QR_BUFFER_BYTES);
    SquareBound(size);
    var i := 0;
    var y := 0;
    while y < size
      invariant 0 <= y <= size && i == y * size <= size * size
      invariant buf[..] == Packed(size, get, i)
    {
      RowEnds(size, y);
      var x := 0;
      while x < size
        invariant 0 <= x <= size && i == y * size + x
        invariant buf[..] == Packed(size, get, i)
      {
        DivModUnique(i, y, x, size);
        if get(x, y) {
          ghost var was := buf[..];
          buf[i / 8] := OrBit(buf[i / 8], i % 8);
          assert buf[..] == OrAt(was, i);
        }
        i := i + 1;
        x := x + 1;
      }
      y := y + 1;
    }
    if size > 0 {
      PackedPacks(size, get, size * size);
    }
  }

  // ----- one pixel -----

  /** The address of the first plane's byte for a pixel row of eight. */
  function Addr(x: nat, y: nat): nat {
    (y / 8 * TILES + x / 8) * 16 + y % 8 * 2
  }

  lemma AddrBound(x: nat, y: nat)
    requires x < PIXELS && y < PIXELS
    ensures Addr(x, y) + 1 < TILE_BYTES && Addr(x, y) % 2 == 0
  {
  }

  lemma AddrInjective(x: nat, y: nat, x': nat, y': nat)
    requires x < PIXELS && y < PIXELS && x' < PIXELS && y' < PIXELS
    ensures Addr(x, y) == Addr(x', y') <==> x / 8 == x' / 8 && y == y'
  {
    AddrParts(x, y);
    AddrParts(x', y');
  }

  lemma AddrParts(x: nat, y: nat)
    requires x < PIXELS && y < PIXELS
    ensures Addr(x, y) / 16 / TILES == y / 8 && Addr(x, y) / 16 % TILES == x / 8 && Addr(x, y) % 16 / 2 == y % 8
  {
    var tile := y / 8 * TILES + x / 8;
    assert Addr(x, y) / 16 == tile && Addr(x, y) % 16 == y % 8 * 2;
  }

  predicate Lit(tiles: seq<byte>, plane: nat, x: nat, y: nat)
    requires |tiles| == TILE_BYTES && plane < 2 && x < PIXELS && y < PIXELS
  {
    AddrBound(x, y);
    Bit(tiles[Addr(x, y) + plane], 7 - x % 8)
  }

  /** The pixel is lit in both planes, and no other pixel changes. */
  ghost predicate LightsOne(t: seq<byte>, t': seq<byte>, x: int, y: int)
    requires |t| == |t'| == TILE_BYTES
  {
    forall plane: nat, px: nat, py: nat :: plane < 2 && px < PIXELS && py < PIXELS ==>
      Lit(t', plane, px, py) == ((px == x && py == y) || Lit(t, plane, px, py))
  }

  /** `or` the bit into the two bytes of a pixel row. */
  function OrRow(t: seq<byte>, a: nat, k: nat): (t': seq<byte>)
    requires a + 1 < |t| && k < 8
    ensures |t'| == |t|
  {
    t[a := OrBit(t[a], k)][a + 1 := OrBit(t[a + 1], k)]
  }

  lemma OrRowLightsAt(t: seq<byte>, x: nat, y: nat, plane: nat, px: nat, py: nat)
    requires |t| == TILE_BYTES && x < PIXELS && y < PIXELS && plane < 2 && px < PIXELS && py < PIXELS
    requires Addr(x, y) + 1 < TILE_BYTES
    ensures Lit(OrRow(t, Addr(x, y), 7 - x % 8), plane, px, py) == ((px == x && py == y) || Lit(t, plane, px, py))
  {
    AddrBound(x, y);
    AddrBound(px, py);
    AddrInjective(x, y, px, py);
    SetBitBits(t[Addr(x, y) + plane], 7 - x % 8, 7 - px % 8);
  }

  lemma OrRowLights(t: seq<byte>, x: nat, y: nat)
    requires |t| == TILE_BYTES && x < PIXELS && y < PIXELS && Addr(x, y) + 1 < TILE_BYTES
    ensures LightsOne(t, OrRow(t, Addr(x, y), 7 - x % 8), x, y)
  {
    var t' := OrRow(t, Addr(x, y), 7 - x % 8);
    forall plane: nat, px: nat, py: nat | plane < 2 && px < PIXELS && py < PIXELS
      ensures Lit(t', plane, px, py) == ((px == x && py == y) || Lit(t, plane, px, py))
    {
      OrRowLightsAt(t, x, y, plane, px, py);
    }
  }

  /** `SeedQRPixel`: the address by doubling, the mask by shifting. */
  method SeedQRPixel(x: nat, y: nat, tiles: array<byte>)
    requires tiles.Length == TILE_BYTES && x < PIXELS && y < PIXELS
    modifies tiles
    ensures LightsOne(old(tiles[..]), tiles[..], x, y)
  {
    AddrBound(x, y);
    var row := y / 8;
    var hl := row + row;
    hl := hl + row;
    hl := hl + hl;
    hl := hl + hl;
    hl := hl + row;
    hl := hl + x / 8;
    hl := hl + hl;
    hl := hl + hl;
    hl := hl + hl;
    hl := hl + hl;
    hl := hl + y % 8 * 2;
    assert hl == Addr(x, y);
    var bit := 7;
    var b := x % 8;
    while b != 0
      invariant 0 <= b <= x % 8 && bit == 7 - (x % 8 - b)
    {
      bit := bit - 1;
      b := b - 1;
    }
    ghost var was := tiles[..];
    OrRowLights(was, x, y);
    tiles[hl] := OrBit(tiles[hl], bit);
    tiles[hl + 1] := OrBit(tiles[hl + 1], bit);
    assert tiles[..] == OrRow(was, hl, bit);
  }

  // ----- one module -----

  function Left(size: nat): int { 56 - size }

  function Top(size: nat): int { 48 - size }

  predicate Fits(size: nat) { 0 < size <= MAX_MODULES }

  /** The pixel belongs to the 2 x 2 block of this module. */
  predicate InBlock(size: nat, key: int, focus: int, px: int, py: int) {
    && 2 * key + Left(size) <= px <= 2 * key + Left(size) + 1
    && 2 * focus + Top(size) <= py <= 2 * focus + Top(size) + 1
  }

  /** The block of the module is lit in both planes, and nothing else changes. */
  ghost predicate LightsBlock(t: seq<byte>, t': seq<byte>, size: nat, key: int, focus: int)
    requires |t| == |t'| == TILE_BYTES
  {
    forall plane: nat, px: nat, py: nat :: plane < 2 && px < PIXELS && py < PIXELS ==>
      Lit(t', plane, px, py) == (InBlock(size, key, focus, px, py) || Lit(t, plane, px, py))
  }

  method SeedQRModule(size: nat, key: nat, focus: nat, tiles: array<byte>)
    requires tiles.Length == TILE_BYTES && Fits(size) && key < size && focus < size
    modifies tiles
    ensures LightsBlock(old(tiles[..]), tiles[..], size, key, focus)
  {
    var x: nat := key + key + (56 - size);
    var y: nat := focus + focus + (48 - size);
    ghost var t0 := tiles[..];
    SeedQRPixel(x, y, tiles);
    ghost var t1 := tiles[..];
    x := x + 1;
    SeedQRPixel(x, y, tiles);
    ghost var t2 := tiles[..];
    y := y + 1;
    SeedQRPixel(x, y, tiles);
    ghost var t3 := tiles[..];
    x := x - 1;
    SeedQRPixel(x, y, tiles);
    FourPixels(t0, t1, t2, t3, tiles[..], size, key, focus);
  }

  lemma FourPixels(t0: seq<byte>, t1: seq<byte>, t2: seq<byte>, t3: seq<byte>, t4: seq<byte>,
                   size: nat, key: int, focus: int)
    requires |t0| == |t1| == |t2| == |t3| == |t4| == TILE_BYTES
    requires var x, y := 2 * key + Left(size), 2 * focus + Top(size);
      && LightsOne(t0, t1, x, y) && LightsOne(t1, t2, x + 1, y)
      && LightsOne(t2, t3, x + 1, y + 1) && LightsOne(t3, t4, x, y + 1)
    ensures LightsBlock(t0, t4, size, key, focus)
  {
  }

  // ----- the whole picture -----

  /** The pixel is within the square of the code. */
  predicate InCode(size: nat, px: int, py: int) {
    Left(size) <= px < Left(size) + 2 * size && Top(size) <= py < Top(size) + 2 * size
  }

  function Column(size: nat, px: int): int { (px - Left(size)) / 2 }

  function Row(size: nat, py: int): int { (py - Top(size)) / 2 }

  /** The running number of the module a pixel belongs to, or -1. */
  function Cell(size: nat, px: int, py: int): int {
    if InCode(size, px, py) then Row(size, py) * size + Column(size, px) else -1
  }

  lemma BlockIsCell(size: nat, key: nat, focus: nat, px: int, py: int)
    requires key < size && focus < size
    ensures InBlock(size, key, focus, px, py)
       <==> InCode(size, px, py) && Column(size, px) == key && Row(size, py) == focus
  {
  }

  lemma CellBounds(size: nat, px: int, py: int)
    requires InCode(size, px, py)
    ensures 0 <= Column(size, px) < size && 0 <= Row(size, py) < size
  {
  }

  lemma CellRange(size: nat, px: int, py: int)
    requires InCode(size, px, py)
    ensures 0 <= Cell(size, px, py) < size * size
    ensures Cell(size, px, py) % size == Column(size, px) && Cell(size, px, py) / size == Row(size, py)
  {
    CellBounds(size, px, py);
    RowEnds(size, Row(size, py));
    DivModUnique(Cell(size, px, py), Row(size, py), Column(size, px), size);
  }

  lemma BlockIffCell(size: nat, key: nat, focus: nat, n: nat, px: int, py: int)
    requires key < size && focus < size && n == focus * size + key
    ensures InBlock(size, key, focus, px, py) <==> Cell(size, px, py) == n
  {
    BlockIsCell(size, key, focus, px, py);
    DivModUnique(n, focus, key, size);
    if InCode(size, px, py) {
      CellRange(size, px, py);
    }
  }

  /** Lit are exactly the pixels of dark modules among the first `n`. */
  ghost predicate LightsUpTo(tiles: seq<byte>, bits: seq<byte>, size: nat, n: nat) {
    && |tiles| == TILE_BYTES && n <= 8 * |bits|
    && forall plane: nat, px: nat, py: nat :: plane < 2 && px < PIXELS && py < PIXELS ==>
         Lit(tiles, plane, px, py) == (0 <= Cell(size, px, py) < n && PackedBit(bits, Cell(size, px, py)))
  }

  lemma BlankLightsNone(bits: seq<byte>, size: nat)
    ensures LightsUpTo(Zeros(TILE_BYTES), bits, size, 0)
  {
    forall plane: nat, px: nat, py: nat | plane < 2 && px < PIXELS && py < PIXELS
      ensures !Lit(Zeros(TILE_BYTES), plane, px, py)
    {
      ZeroBits(7 - px % 8);
      AddrBound(px, py);
    }
  }

  lemma NextModule(t: seq<byte>, t': seq<byte>, bits: seq<byte>, size: nat, key: nat, focus: nat, n: nat)
    requires LightsUpTo(t, bits, size, n) && key < size && focus < size && n == focus * size + key
    requires |t'| == TILE_BYTES && n < 8 * |bits|
    requires if PackedBit(bits, n) then LightsBlock(t, t', size, key, focus) else t' == t
    ensures LightsUpTo(t', bits, size, n + 1)
  {
    forall plane: nat, px: nat, py: nat | plane < 2 && px < PIXELS && py < PIXELS
      ensures Lit(t', plane, px, py) == (0 <= Cell(size, px, py) < n + 1 && PackedBit(bits, Cell(size, px, py)))
    {
      BlockIffCell(size, key, focus, n, px, py);
    }
  }

  /** The pixel is part of the 2 x 2 block of a dark module of the code centred in the tiles. */
  predicate Dark(size: nat, get: Grid, px: nat, py: nat)
    requires Fits(size)
  {
    InCode(size, px, py) && get(Column(size, px), Row(size, py))
  }

  /** Both planes show exactly the dark modules. */
  ghost predicate Shows(tiles: seq<byte>, size: nat, get: Grid)
    requires Fits(size)
  {
    && |tiles| == TILE_BYTES
    && forall plane: nat, x: nat, y: nat :: plane < 2 && x < PIXELS && y < PIXELS ==>
         Lit(tiles, plane, x, y) == Dark(size, get, x, y)
  }

  /**
   Packing and painting fit together: tiles that light the modules set in a packed grid show exactly
   the 2 x 2 block of every dark module and nothing else, in both planes.
   */
  lemma PackedGridIsShown(tiles: seq<byte>, bits: seq<byte>, size: nat, get: Grid)
    requires Fits(size) && Packs(bits, size, get) && LightsUpTo(tiles, bits, size, size * size)
    ensures Shows(tiles, size, get)
  {
    forall plane: nat, x: nat, y: nat | plane < 2 && x < PIXELS && y < PIXELS
      ensures Lit(tiles, plane, x, y) == Dark(size, get, x, y)
    {
      if InCode(size, x, y) {
        CellRange(size, x, y);
        SquareBound(size);
      }
    }
  }

  /** Every bit of the tile memory is one of these pixels, so there is nothing else to light. */
  lemma EveryBitIsAPixel(a: nat, k: nat)
    requires a < TILE_BYTES && k < 8
    ensures var x, y, plane := a / 16 % TILES * 8 + 7 - k, a / 16 / TILES * 8 + a % 16 / 2, a % 2;
      x < PIXELS && y < PIXELS && a == Addr(x, y) + plane && k == 7 - x % 8
  {
    var tile, line := a / 16, a % 16;
    assert tile < TILES * TILES;
    assert (tile % TILES * 8 + 7 - k) / 8 == tile % TILES && (tile / TILES * 8 + line / 2) / 8 == tile / TILES;
  }

  /** On the screen the tiles start at (24, 24): the code is centred in 160 x 144 pixels. */
  lemma CentredOnScreen(size: nat, x: int, y: int)
    ensures InCode(size, x - 24, y - 24) <==> InCode(size, 159 - x - 24, 143 - y - 24)
  {
  }

  /** `SeedDrawQR`: one mask bit and one key and focus counter per module. */
  method SeedDrawQR(report: array<byte>, tiles: array<byte>)
    requires report.Length == L.FRAME_BYTES && tiles.Length == TILE_BYTES && report != tiles
    requires Fits(report[64])
    modifies tiles
    ensures var size: nat := report[64];
      LightsUpTo(tiles[..], report[128..128 + QR_BUFFER_BYTES], size, size * size)
  {
    var size: nat := report[64];
    SquareBound(size);
    forall k | 0 <= k < tiles.Length { tiles[k] := 0; }
    ghost var bits := report[128..128 + QR_BUFFER_BYTES];
    BlankLightsNone(bits, size);
    assert tiles[..] == Zeros(TILE_BYTES);
    ghost var n := 0;
    var key, focus := 0, 0;
    var hl := 128;
    var mask := 1;
    while focus < size
      invariant 0 <= key < size && 0 <= focus <= size && n == focus * size + key
      invariant focus == size ==> key == 0
      invariant hl == 128 + n / 8 && mask == Pow2(n % 8)
      invariant report[128..128 + QR_BUFFER_BYTES] == bits
      invariant LightsUpTo(tiles[..], bits, size, n)
      decreases size - focus, size - key
    {
      RowEnds(size, focus);
      ghost var was := tiles[..];
      MasksBit(report[hl], n % 8);
      assert report[hl] == bits[n / 8];
      if Masks(report[hl], mask) {
        SeedQRModule(size, key, focus, tiles);
      }
      NextModule(was, tiles[..], bits, size, key, focus, n);
      MaskShifts(n);
      n := n + 1;
      mask := mask * 2 % 256;
      if mask == 0 {
        mask := 1;
        hl := hl + 1;
      }
      if key + 1 < size {
        key := key + 1;
      } else {
        key := 0;
        focus := focus + 1;
      }
    }
    assert focus * size == size * size;
  }

  /** Shifting the mask out of the byte is moving to the next byte. */
  lemma MaskShifts(n: nat)
    ensures Pow2(n % 8) * 2 % 256 == if n % 8 == 7 then 0 else Pow2((n + 1) % 8)
    ensures n % 8 == 7 ==> (n + 1) % 8 == 0 && (n + 1) / 8 == n / 8 + 1 && Pow2((n + 1) % 8) == 1
    ensures n % 8 != 7 ==> (n + 1) / 8 == n / 8
  {
    Pow2Values();
  }

  // ----- from the frame to the Game Boy -----

  function PagesFor(state: byte): nat { if state == QR_READY then 11 else 4 }

  /** Freeze one page of the answer in the report. */
  method CopyPage(stage: seq<byte>, page: nat, report: array<byte>, ghost frame: seq<byte>)
    requires |stage| == L.PAGE_BYTES && report.Length == |frame| == L.FRAME_BYTES && page < 11
    requires report[..32 * page] == frame[..32 * page] && stage[4..36] == frame[32 * page..32 * page + 32]
    modifies report
    ensures report[..32 * (page + 1)] == frame[..32 * (page + 1)]
  {
    forall k | 0 <= k < 32 { report[32 * page + k] := stage[4 + k]; }
    assert report[32 * page..32 * page + 32] == stage[4..36];
    assert report[..32 * (page + 1)] == report[..32 * page] + report[32 * page..32 * page + 32];
    assert frame[..32 * (page + 1)] == frame[..32 * page] + frame[32 * page..32 * page + 32];
  }

  /** The second half of `SeedSend`: four pages, and seven more for a QR code. */
  method Refetch(bus: B.Bus, rom: array<byte>, report: array<byte>) returns (ok: bool)
    requires bus.Valid(rom) && bus.offset.Some? && report.Length == L.FRAME_BYTES
    requires report != rom && report != bus.link.frame
    modifies bus, bus.link, bus.link.frame, rom, report
    ensures bus.Valid(rom) && bus.link.State() == old(bus.link.State())
    ensures ok && var n := 32 * PagesFor(bus.link.State().frame[1]); report[..n] == bus.link.State().frame[..n]
  {
    ghost var mailbox := bus.link.State();
    var page := 0;
    while page < 4 || (report[1] == QR_READY && page < 11)
      invariant 0 <= page <= 11
      invariant bus.Valid(rom) && bus.link.State() == mailbox
      invariant report[..32 * page] == mailbox.frame[..32 * page]
      invariant page > 4 ==> mailbox.frame[1] == QR_READY
      decreases 11 - page
    {
      var stage := B.Fetch(bus, rom, page);
      if stage.None? {
        return false;
      }
      CopyPage(stage.value, page, report, mailbox.frame);
      page := page + 1;
      assert report[1] == report[..32 * page][1];
    }
    return true;
  }

  /**
   The way to the screen: a packed grid and a report that announces it, finished into the mailbox,
   refetched page by page and painted, appear on the tiles as the grid was.
   */
  method ShowQr(
    ghost size: nat, ghost get: Grid, text: seq<byte>, qr: seq<byte>, request: L.Request,
    bus: B.Bus, rom: array<byte>, report: array<byte>, tiles: array<byte>)
    requires MIN_MODULES <= size <= MAX_MODULES && size % 2 == 1 && Packs(qr, size, get)
    requires |text| == L.REPORT_BYTES && text[1] == QR_READY && text[64] == size
    requires bus.Valid(rom) && bus.offset.Some? && bus.link.active == Some(request)
    requires report.Length == L.FRAME_BYTES && tiles.Length == TILE_BYTES
    requires report != rom && report != bus.link.frame && report != tiles
    requires tiles != rom && tiles != bus.link.frame
    modifies bus, bus.link, bus.link.frame, rom, report, tiles
    ensures Fits(size) && Shows(tiles[..], size, get)
  {
    var _ := bus.link.Finish(request, text, qr);
    ghost var frame := bus.link.State().frame;
    var _ := Refetch(bus, rom, report);
    FrameCarriesCode(text, qr, frame, report[..]);
    SeedDrawQR(report, tiles);
    assert report[128..128 + QR_BUFFER_BYTES] == report[..][128..128 + QR_BUFFER_BYTES] == qr;
    PackedGridIsShown(tiles[..], qr, size, get);
  }

  lemma FrameCarriesCode(text: seq<byte>, qr: seq<byte>, frame: seq<byte>, report: seq<byte>)
    requires |text| == L.REPORT_BYTES && |qr| == QR_BUFFER_BYTES && frame == L.FrameOf(text, qr)
    requires |report| == L.FRAME_BYTES && report[..352] == frame[..352]
    ensures report[64] == text[64] && report[128..128 + QR_BUFFER_BYTES] == qr
  {
    assert frame[64] == frame[..352][64] == report[..352][64];
    forall i | 0 <= i < QR_BUFFER_BYTES ensures report[128 + i] == qr[i] {
      assert frame[128 + i] == frame[..352][128 + i] == report[..352][128 + i];
    }
  }
}
