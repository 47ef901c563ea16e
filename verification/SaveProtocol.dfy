/**
 The automatic save as it runs on two cores: the game and the mapper loop on core 0
 (src/gb_mbc.rs, `publish_sram_transition`) against the endless worker loop on core 1
 (src/main.rs, `core1_task`). Every atomic access, every game write, every byte summed or
 written and every file operation is a step of its own.

 The 32-bit generation is taken not to wrap within one run.
 */
module SaveProtocol {
  import opened Bytes
  import E = SaveEngine
  import F = SaveFile
  import Runs

  /** Core 0 between its mapper steps: about to store the flag, to bump, to mark dirty. */
  datatype Core0 = Run | Publishing(was: bool, now: bool) | Bumping | Dirtying

  datatype Core1 =
    | Seeding(read: seq<byte>)
    | Swap
    | LoadGeneration(now: nat, dirty: bool)
    | LoadEnabled(now: nat, dirty: bool, seen: nat)
    | Poll(now: nat, dirty: bool, seen: nat, disabled: bool)
    | Recheck(g: nat)
    | Summing(g: nat, read: seq<byte>)
    | Opening(g: nat, crc: bv32, tail: seq<byte>, temp: bool)
    | Writing(g: nat, crc: bv32, tail: seq<byte>, temp: bool, at: nat)
    | Ending(g: nat, crc: bv32, ok: bool)
    | Redirty

  datatype Record = Record(generation: nat, byWrite: bool)

  /**
   What the remembered CRC is worth. Clean: it is the CRC of what `.SAV` holds. Broken: a flush has
   truncated `.SAV` and not been recorded, and no save session overlapped it. Unknown: a session
   overlapped the last write of `.SAV`.
   */
  datatype Trust = Clean | Broken | Unknown

  /**
   `mapped` is both the mapper's register and the hardware window; `sum` is the checksum in use.
   The last three fields are history: how the disk generation was last recorded, what the remembered
   CRC is worth, and what `.SAV` held when the present flush started.
   */
  datatype State = State(
    sram: seq<byte>, mapped: bool, pc0: Core0,
    enabled: bool, generation: nat, dirty: bool,
    engine: E.Engine, pc1: Core1, card: F.Card,
    primary: F.Name, hasRtc: bool, sum: seq<byte> -> bv32,
    recorded: Option<Record>, trust: Trust, before: Option<seq<byte>>)

  /** With a `fault`, the file operation fails, and of a file that was open so many bytes are left. */
  datatype Act =
    | GameWrite(addr: nat, value: byte)
    | MapperWrite(enable: bool)
    | StepCore0
    | StepCore1(now: nat, tail: seq<byte>, fault: Option<nat>)

  /** What `.SAV` holds is a full image of this SRAM. */
  ghost predicate Holds(s: State, sram: seq<byte>) {
    && s.primary in s.card
    && |s.card[s.primary]| >= F.ExpectedLen(|sram|, s.hasRtc)
    && s.card[s.primary][..|sram|] == sram
  }

  /** Boot has restored `sram` from `card` (or found nothing there) and released the game. */
  ghost predicate Initial(s: State) {
    && !s.mapped && s.pc0 == Run && !s.enabled && s.generation == 0 && !s.dirty
    && s.engine == E.New(E.QUIET_PERIOD_MS) && s.pc1 == Seeding([])
    && s.recorded == None && s.trust != Broken && (s.trust == Clean ==> Holds(s, s.sram))
    && F.TempName(s.primary) != s.primary
  }

  // ----- core 0 -----

  /** What no step changes. */
  ghost predicate SameSetup(s: State, s': State) {
    s'.primary == s.primary && s'.hasRtc == s.hasRtc && s'.sum == s.sum && |s'.sram| == |s.sram|
  }

  function Core0Next(s: State): (s': State)
    ensures SameSetup(s, s')
  {
    match s.pc0
    case Run => s
    case Publishing(was, now) => s.(enabled := now, pc0 := if was && !now then Bumping else Run)
    case Bumping => s.(generation := s.generation + 1, pc0 := Dirtying)
    case Dirtying => s.(dirty := true, pc0 := Run)
  }

  // ----- core 1 -----

  function FileOf(s: State, temp: bool): F.Name {
    if temp then F.TempName(s.primary) else s.primary
  }

  /**
   The card when an operation fails or power is lost now: of a file that is still open, any part of
   what was written may have reached the card. The FAT library commits the length only on close,
   which is the case 0.
   */
  function Cut(s: State, kept: nat): F.Card {
    if s.pc1.Writing? && FileOf(s, s.pc1.temp) in s.card then
      var content := s.card[FileOf(s, s.pc1.temp)];
      s.card[FileOf(s, s.pc1.temp) := content[..Min(kept, |content|)]]
    else s.card
  }

  function Append(card: F.Card, name: F.Name, b: byte): F.Card {
    card[name := (if name in card then card[name] else []) + [b]]
  }

  /** No disable edge is being published and the window is closed. */
  predicate Stable(s: State) {
    !s.mapped && s.pc0 != Publishing(true, false) && s.pc0 != Bumping
  }

  /** Nothing has happened to SRAM since the generation became `g`. */
  predicate Still(s: State, g: nat) { s.generation == g && Stable(s) }

  /** What the worker never touches. */
  ghost predicate SameGame(s: State, s': State) {
    && s'.sram == s.sram && s'.mapped == s.mapped && s'.pc0 == s.pc0 && s'.enabled == s.enabled
    && s'.generation == s.generation
  }

  function PollNext(s: State): (s': State)
    requires s.pc1.Poll?
    ensures SameSetup(s, s') && SameGame(s, s')
  {
    var e := E.Polled(s.engine, s.pc1.dirty, s.pc1.seen, s.pc1.now);
    match E.Decide(e, s.pc1.disabled, s.pc1.now)
    case Persist(g) => s.(engine := e, pc1 := Recheck(g))
    case _ => s.(engine := e, pc1 := Swap)
  }

  function SumNext(s: State, tail: seq<byte>, fault: Option<nat>): (s': State)
    requires s.pc1.Summing?
    ensures SameSetup(s, s') && SameGame(s, s')
  {
    var g, read := s.pc1.g, s.pc1.read;
    if |read| < |s.sram| then s.(pc1 := Summing(g, read + [s.sram[|read|]]))
    else
      var crc := s.sum(read);
      var e := E.Begun(s.engine);
      if E.SkipsIdentical(e, crc) then
        s.(engine := E.Succeeded(e, g, crc), pc1 := Swap, recorded := Some(Record(g, false)))
      else s.(engine := e, pc1 := if fault.Some? then Ending(g, crc, false) else Opening(g, crc, tail, true),
              before := if s.primary in s.card then Some(s.card[s.primary]) else None)
  }

  function WriteNext(s: State, fault: Option<nat>): (s': State)
    requires s.pc1.Writing?
    ensures SameSetup(s, s') && SameGame(s, s')
  {
    var Writing(g, crc, tail, temp, at) := s.pc1;
    if fault.Some? then s.(card := Cut(s, fault.value), pc1 := Ending(g, crc, false))
    else if at < |s.sram| then
      s.(card := Append(s.card, FileOf(s, temp), s.sram[at]), pc1 := s.pc1.(at := at + 1))
    else if at < |s.sram| + |tail| then
      s.(card := Append(s.card, FileOf(s, temp), tail[at - |s.sram|]), pc1 := s.pc1.(at := at + 1))
    else s.(pc1 := if temp then Opening(g, crc, tail, false) else Ending(g, crc, true))
  }

  function SeedNext(s: State): (s': State)
    requires s.pc1.Seeding?
    ensures SameSetup(s, s') && SameGame(s, s')
  {
    var read := s.pc1.read;
    if |read| < |s.sram| then s.(pc1 := Seeding(read + [s.sram[|read|]]))
    else s.(engine := E.Seeded(s.engine, s.sum(read)), pc1 := Swap,
            trust := if s.trust == Clean && Still(s, 0) then Clean else Unknown)
  }

  function OpenNext(s: State, fault: Option<nat>): (s': State)
    requires s.pc1.Opening?
    ensures SameSetup(s, s') && SameGame(s, s')
  {
    var Opening(g, crc, t, temp) := s.pc1;
    if fault.Some? then s.(pc1 := Ending(g, crc, false))
    else s.(card := s.card[FileOf(s, temp) := []], pc1 := Writing(g, crc, t, temp, 0),
            trust := if temp then s.trust else Broken)
  }

  function EndNext(s: State): (s': State)
    requires s.pc1.Ending?
    ensures SameSetup(s, s') && SameGame(s, s')
  {
    var Ending(g, crc, ok) := s.pc1;
    if ok && !s.enabled then
      s.(engine := E.Succeeded(s.engine, g, crc), pc1 := Swap, recorded := Some(Record(g, true)),
         trust := if Still(s, g) then Clean else Unknown)
    else s.(engine := E.Failed(s.engine), pc1 := Redirty,
            trust := if s.trust == Broken && !Still(s, g) then Unknown else s.trust)
  }

  function Core1Next(s: State, now: nat, tail: seq<byte>, fault: Option<nat>): (s': State)
    ensures SameSetup(s, s') && SameGame(s, s')
  {
    match s.pc1
    case Seeding(_) => SeedNext(s)
    case Swap => s.(dirty := false, pc1 := LoadGeneration(now, s.dirty))
    case LoadGeneration(t, d) => s.(pc1 := LoadEnabled(t, d, s.generation))
    case LoadEnabled(t, d, seen) => s.(pc1 := Poll(t, d, seen, !s.enabled))
    case Poll(_, _, _, _) => PollNext(s)
    case Recheck(g) => s.(pc1 := if s.enabled then Swap else Summing(g, []))
    case Summing(_, _) => SumNext(s, tail, fault)
    case Opening(_, _, _, _) => OpenNext(s, fault)
    case Writing(_, _, _, _, _) => WriteNext(s, fault)
    case Ending(_, _, _) => EndNext(s)
    case Redirty => s.(dirty := true, pc1 := Swap)
  }

  /** A step that is not possible leaves the state alone. */
  function Step(s: State, a: Act): (s': State)
    ensures SameSetup(s, s')
  {
    match a
    case GameWrite(addr, v) => if s.mapped && addr < |s.sram| then s.(sram := s.sram[addr := v]) else s
    case MapperWrite(enable) =>
      if s.pc0 == Run then s.(pc0 := Publishing(s.mapped, enable), mapped := enable) else s
    case StepCore0 => Core0Next(s)
    case StepCore1(now, tail, fault) =>
      if |tail| == (if s.hasRtc then F.RTC_TAIL_LEN else 0) then Core1Next(s, now, tail, fault) else s
  }

  function Exec(s: State, acts: seq<Act>): State {
    Runs.Exec(Step, s, acts)
  }

  // ----- no disable edge is lost -----

  /** Core 1 has swapped the flag out and not yet handed it to the engine. */
  predicate HoldsDirty(pc1: Core1) {
    (pc1.LoadGeneration? || pc1.LoadEnabled? || pc1.Poll?) && pc1.dirty
  }

  ghost predicate EdgeKept(s: State) {
    s.generation == s.engine.pending || s.dirty || s.pc0 == Dirtying || HoldsDirty(s.pc1)
  }

  /** The generation a persist in progress is for. */
  function Target(pc1: Core1): Option<nat> {
    match pc1
    case Recheck(g) => Some(g)
    case Summing(g, _) => Some(g)
    case Opening(g, _, _, _) => Some(g)
    case Writing(g, _, _, _, _) => Some(g)
    case Ending(g, _, _) => Some(g)
    case _ => None
  }

  ghost predicate CountInv(s: State) {
    && s.engine.disk <= s.engine.pending <= s.generation
    && ((s.pc1.LoadEnabled? || s.pc1.Poll?) ==> s.pc1.seen <= s.generation)
    && ((s.pc1.LoadEnabled? || s.pc1.Poll?) && s.pc1.dirty ==>
          s.pc1.seen == s.generation || s.dirty || s.pc0 == Dirtying)
    && (Target(s.pc1).Some? ==> s.engine.disk < Target(s.pc1).value <= s.generation
                                && Target(s.pc1).value == s.engine.pending)
    && (s.engine.inFlight <==> s.pc1.Opening? || s.pc1.Writing? || s.pc1.Ending?)
    && (s.pc1.Seeding? ==> s.engine.disk == s.engine.pending == 0)
    && (s.pc0 == Run || s.pc0 == Dirtying ==> s.enabled == s.mapped)
    && (s.pc0.Publishing? ==> s.mapped == s.pc0.now) && (s.pc0 == Bumping ==> !s.mapped && !s.enabled)
    && (s.pc0 == Dirtying ==> !s.mapped && !s.enabled)
    && s.engine.quietPeriod == E.QUIET_PERIOD_MS
    && EdgeKept(s)
  }

  // ----- what is written is what the game left -----

  function Full(s: State, tail: seq<byte>): seq<byte> { s.sram + tail }

  ghost predicate FlushInv(s: State) {
    match s.pc1
    case Seeding(read) =>
      |read| <= |s.sram| && (Still(s, 0) ==> read == s.sram[..|read|] && (s.trust == Clean ==> Holds(s, s.sram)))
    case Summing(g, read) => |read| <= |s.sram| && (Still(s, g) ==> read == s.sram[..|read|])
    case Opening(g, crc, tail, _) =>
      && |tail| == (if s.hasRtc then F.RTC_TAIL_LEN else 0)
      && (Still(s, g) ==> crc == s.sum(s.sram))
    case Writing(g, crc, tail, temp, at) =>
      && |tail| == (if s.hasRtc then F.RTC_TAIL_LEN else 0) && at <= |s.sram| + |tail|
      && FileOf(s, temp) in s.card
      && (Still(s, g) ==> crc == s.sum(s.sram) && s.card[FileOf(s, temp)] == Full(s, tail)[..at])
    case Ending(g, crc, ok) => ok && Still(s, g) ==> crc == s.sum(s.sram) && Holds(s, s.sram)
    case _ => true
  }

  ghost predicate RecordInv(s: State) {
    && (s.engine.disk > 0 ==> s.recorded.Some?)
    && (s.recorded.Some? ==>
      var r := s.recorded.value;
      && r.generation == s.engine.disk && r.generation >= 1
      && (Still(s, r.generation) && r.byWrite ==> Holds(s, s.sram))
      && (Still(s, r.generation) && !r.byWrite ==> s.engine.lastCrc == Some(s.sum(s.sram))))
  }

  /** The flush in progress has its CRC and is on its way to the files. */
  predicate Flushing(pc1: Core1) { pc1.Opening? || pc1.Writing? || pc1.Ending? }

  /** A flush is made only for a CRC that is not the remembered one. */
  ghost predicate NewCrc(pc1: Core1, lastCrc: Option<bv32>) {
    Flushing(pc1) ==> Some(pc1.crc) != lastCrc
  }

  /** The remembered CRC is the CRC of the SRAM part of `.SAV`. */
  ghost predicate CleanInv(s: State) {
    s.trust == Clean && !s.pc1.Seeding? ==>
      && s.primary in s.card && |s.card[s.primary]| >= F.ExpectedLen(|s.sram|, s.hasRtc)
      && s.engine.lastCrc == Some(s.sum(s.card[s.primary][..|s.sram|]))
      && !(s.pc1.Writing? && !s.pc1.temp) && !(s.pc1.Ending? && s.pc1.ok)
  }

  /** If the file can be restored at all, what is restored does not have this CRC. */
  ghost predicate Differs(card: F.Card, name: F.Name, n: nat, crc: Option<bv32>, sum: seq<byte> -> bv32) {
    name in card && |card[name]| >= n ==> Some(sum(card[name][..n])) != crc
  }

  /** No file holds an image with the remembered CRC. */
  ghost predicate NoneMatches(s: State) {
    && Differs(s.card, s.primary, |s.sram|, s.engine.lastCrc, s.sum)
    && Differs(s.card, F.TempName(s.primary), |s.sram|, s.engine.lastCrc, s.sum)
  }

  ghost predicate BrokenInv(s: State) {
    s.trust == Broken ==> !s.pc1.Seeding? && (!Flushing(s.pc1) || Still(s, s.pc1.g) ==> NoneMatches(s))
  }

  /** `.SAV` is as it was when the flush started. */
  ghost predicate Untouched(s: State) {
    s.before.Some? ==> s.primary in s.card && s.card[s.primary] == s.before.value
  }

  /** `.TMP` holds a full image of this SRAM. */
  ghost predicate TempHolds(s: State) {
    var temp := F.TempName(s.primary);
    && temp in s.card && |s.card[temp]| >= F.ExpectedLen(|s.sram|, s.hasRtc)
    && s.card[temp][..|s.sram|] == s.sram
  }

  /** And `.SAV`, if it is full, does too. */
  ghost predicate BothHold(s: State) {
    && TempHolds(s)
    && (s.primary in s.card && |s.card[s.primary]| >= F.ExpectedLen(|s.sram|, s.hasRtc) ==>
          s.card[s.primary][..|s.sram|] == s.sram)
  }

  /** What a power loss finds while a flush is under way. */
  ghost predicate CutInv(s: State) {
    match s.pc1
    case Opening(g, _, _, temp) => Untouched(s) && (!temp && Still(s, g) ==> TempHolds(s))
    case Writing(g, _, _, temp, _) => if temp then Untouched(s) else Still(s, g) ==> BothHold(s)
    case Ending(g, _, _) => Untouched(s) || (Still(s, g) ==> BothHold(s))
    case _ => true
  }

  ghost predicate FileInv(s: State) {
    NewCrc(s.pc1, s.engine.lastCrc) && CleanInv(s) && BrokenInv(s) && CutInv(s)
  }

  ghost predicate Inv(s: State) {
    CountInv(s) && FlushInv(s) && RecordInv(s) && FileInv(s) && F.TempName(s.primary) != s.primary
  }

  lemma InitialInv(s: State)
    requires Initial(s)
    ensures Inv(s)
  {
  }

  /** A step of core 0 or the game can only end the stillness, and the files do not notice. */
  lemma FilesUnderCore0(s: State, s': State)
    requires FileInv(s) && FlushInv(s) && (s.pc1.Seeding? ==> s.trust != Broken)
    requires s' == s.(sram := s'.sram, mapped := s'.mapped, pc0 := s'.pc0, enabled := s'.enabled,
                      generation := s'.generation, dirty := s'.dirty)
    requires |s'.sram| == |s.sram|
    requires forall g: nat :: Still(s', g) ==> Still(s, g) && s'.sram == s.sram
    ensures FileInv(s') && FlushInv(s')
  {
  }

  lemma GameWriteInv(s: State, addr: nat, v: byte)
    requires Inv(s)
    ensures Inv(Step(s, GameWrite(addr, v)))
  {
    FilesUnderCore0(s, Step(s, GameWrite(addr, v)));
  }

  lemma MapperInv(s: State, enable: bool)
    requires Inv(s)
    ensures Inv(Step(s, MapperWrite(enable)))
  {
    FilesUnderCore0(s, Step(s, MapperWrite(enable)));
  }

  lemma PublishInv(s: State)
    requires Inv(s) && s.pc0.Publishing?
    ensures Inv(Core0Next(s))
  {
    FilesUnderCore0(s, Core0Next(s));
  }

  lemma BumpInv(s: State)
    requires Inv(s) && s.pc0 == Bumping
    ensures Inv(Core0Next(s))
  {
    assert forall g: nat :: Still(Core0Next(s), g) ==> g > s.generation;
    assert CountInv(Core0Next(s));
  }

  lemma MarkInv(s: State)
    requires Inv(s) && s.pc0 == Dirtying
    ensures Inv(Core0Next(s))
  {
    FilesUnderCore0(s, Core0Next(s));
  }

  lemma Core0Inv(s: State)
    requires Inv(s)
    ensures Inv(Step(s, StepCore0))
  {
    match s.pc0
    case Run =>
    case Publishing(_, _) => PublishInv(s);
    case Bumping => BumpInv(s);
    case Dirtying => MarkInv(s);
  }

  ghost predicate RightTail(s: State, tail: seq<byte>) {
    |tail| == if s.hasRtc then F.RTC_TAIL_LEN else 0
  }

  lemma AppendOne(content: seq<byte>, whole: seq<byte>, at: nat)
    requires at < |whole| && content == whole[..at]
    ensures content + [whole[at]] == whole[..at + 1]
  {
  }

  lemma SeedByteInv(s: State)
    requires Inv(s) && s.pc1.Seeding? && |s.pc1.read| < |s.sram|
    ensures Inv(SeedNext(s))
  {
    if Still(s, 0) { AppendOne(s.pc1.read, s.sram, |s.pc1.read|); }
  }

  lemma SeedEndInv(s: State)
    requires Inv(s) && s.pc1.Seeding? && |s.pc1.read| == |s.sram|
    ensures Inv(SeedNext(s))
  {
    assert s.sram[..|s.sram|] == s.sram;
  }

  lemma SeedInv(s: State)
    requires Inv(s) && s.pc1.Seeding?
    ensures Inv(SeedNext(s))
  {
    if |s.pc1.read| < |s.sram| { SeedByteInv(s); } else { SeedEndInv(s); }
  }

  /** The steps that only look at the shared flags. */
  lemma LookInv(s: State, now: nat)
    requires Inv(s) && (s.pc1.Swap? || s.pc1.LoadGeneration? || s.pc1.LoadEnabled? || s.pc1.Recheck? || s.pc1.Redirty?)
    ensures Inv(Core1Next(s, now, [], None))
  {
  }

  lemma PollRest(s: State, e: E.Engine, pc1: Core1)
    requires Inv(s) && s.pc1.Poll?
    requires e == s.engine.(pending := e.pending, lastActivity := e.lastActivity)
    requires s.engine.pending <= e.pending <= s.generation
    requires e.pending == s.generation || s.dirty || s.pc0 == Dirtying
    requires pc1 == Swap || (pc1 == Recheck(e.pending) && e.pending > e.disk)
    ensures Inv(s.(engine := e, pc1 := pc1))
  {
  }

  lemma PollInv(s: State)
    requires Inv(s) && s.pc1.Poll?
    ensures Inv(PollNext(s))
  {
    var e := E.Polled(s.engine, s.pc1.dirty, s.pc1.seen, s.pc1.now);
    PollRest(s, e, PollNext(s).pc1);
  }

  lemma SumByteInv(s: State, tail: seq<byte>, fault: Option<nat>)
    requires Inv(s) && s.pc1.Summing? && |s.pc1.read| < |s.sram|
    ensures Inv(SumNext(s, tail, fault))
  {
    if Still(s, s.pc1.g) { AppendOne(s.pc1.read, s.sram, |s.pc1.read|); }
  }

  lemma SkipInv(s: State, tail: seq<byte>, fault: Option<nat>)
    requires Inv(s) && s.pc1.Summing? && |s.pc1.read| == |s.sram|
    requires E.SkipsIdentical(s.engine, s.sum(s.pc1.read))
    ensures Inv(SumNext(s, tail, fault))
  {
    assert s.sram[..|s.sram|] == s.sram;
  }

  lemma StartFlushInv(s: State, tail: seq<byte>, fault: Option<nat>)
    requires Inv(s) && s.pc1.Summing? && |s.pc1.read| == |s.sram| && RightTail(s, tail)
    requires !E.SkipsIdentical(s.engine, s.sum(s.pc1.read))
    ensures Inv(SumNext(s, tail, fault))
  {
    assert s.sram[..|s.sram|] == s.sram;
  }

  lemma OpenFailInv(s: State, fault: Option<nat>)
    requires Inv(s) && s.pc1.Opening? && fault.Some?
    ensures Inv(OpenNext(s, fault))
  {
  }

  lemma OpenTempInv(s: State)
    requires Inv(s) && s.pc1.Opening? && s.pc1.temp
    ensures Inv(OpenNext(s, None))
  {
    assert Full(s, s.pc1.tail)[..0] == [];
  }

  lemma OpenSaveInv(s: State)
    requires Inv(s) && s.pc1.Opening? && !s.pc1.temp
    ensures Inv(OpenNext(s, None))
  {
    var s' := OpenNext(s, None);
    assert Full(s, s.pc1.tail)[..0] == [];
    assert !Still(s, s.engine.disk);
  }

  lemma OpenInv(s: State, fault: Option<nat>)
    requires Inv(s) && s.pc1.Opening?
    ensures Inv(OpenNext(s, fault))
  {
    if fault.Some? { OpenFailInv(s, fault); } else if s.pc1.temp { OpenTempInv(s); } else { OpenSaveInv(s); }
  }

  /** Writing a byte touches one file and the counter, nothing else. */
  lemma WriteByteShape(s: State)
    requires FlushInv(s) && s.pc1.Writing? && s.pc1.at < |Full(s, s.pc1.tail)|
    ensures WriteNext(s, None) == s.(
      card := Append(s.card, FileOf(s, s.pc1.temp), Full(s, s.pc1.tail)[s.pc1.at]),
      pc1 := s.pc1.(at := s.pc1.at + 1))
  {
  }

  lemma WriteByteFlush(s: State, s': State)
    requires FlushInv(s) && s.pc1.Writing? && s.pc1.at < |Full(s, s.pc1.tail)|
    requires s' == s.(
      card := Append(s.card, FileOf(s, s.pc1.temp), Full(s, s.pc1.tail)[s.pc1.at]),
      pc1 := s.pc1.(at := s.pc1.at + 1))
    ensures FlushInv(s')
  {
    var full := Full(s, s.pc1.tail);
    if Still(s, s.pc1.g) { AppendOne(s.card[FileOf(s, s.pc1.temp)], full, s.pc1.at); }
  }

  /** The file grows by the next byte of SRAM and tail; the other file stays. */
  lemma GrownFile(s: State, s': State)
    requires FlushInv(s) && s.pc1.Writing? && s.pc1.at < |Full(s, s.pc1.tail)| && Still(s, s.pc1.g)
    requires s' == s.(
      card := Append(s.card, FileOf(s, s.pc1.temp), Full(s, s.pc1.tail)[s.pc1.at]),
      pc1 := s.pc1.(at := s.pc1.at + 1))
    ensures var file := FileOf(s, s.pc1.temp);
      && file in s'.card && s'.card[file] == Full(s, s.pc1.tail)[..s.pc1.at + 1]
      && (|s'.card[file]| >= |s.sram| ==> s'.card[file][..|s.sram|] == s.sram)
  {
    var full := Full(s, s.pc1.tail);
    AppendOne(s.card[FileOf(s, s.pc1.temp)], full, s.pc1.at);
    if s.pc1.at + 1 >= |s.sram| { assert full[..s.pc1.at + 1][..|s.sram|] == s.sram; }
  }

  lemma WriteByteFile(s: State, s': State)
    requires FlushInv(s) && FileInv(s) && s.pc1.Writing? && s.pc1.at < |Full(s, s.pc1.tail)|
    requires F.TempName(s.primary) != s.primary
    requires s' == s.(
      card := Append(s.card, FileOf(s, s.pc1.temp), Full(s, s.pc1.tail)[s.pc1.at]),
      pc1 := s.pc1.(at := s.pc1.at + 1))
    ensures FileInv(s')
  {
    if Still(s, s.pc1.g) { GrownFile(s, s'); }
  }

  lemma WriteByteRest(s: State, s': State)
    requires CountInv(s) && RecordInv(s) && s.pc1.Writing? && s.pc1.at < |Full(s, s.pc1.tail)|
    requires s' == s.(
      card := Append(s.card, FileOf(s, s.pc1.temp), Full(s, s.pc1.tail)[s.pc1.at]),
      pc1 := s.pc1.(at := s.pc1.at + 1))
    ensures CountInv(s') && RecordInv(s')
  {
  }

  lemma WriteByteInv(s: State)
    requires Inv(s) && s.pc1.Writing? && s.pc1.at < |Full(s, s.pc1.tail)|
    ensures Inv(WriteNext(s, None))
  {
    WriteByteShape(s);
    WriteByteFlush(s, WriteNext(s, None));
    WriteByteRest(s, WriteNext(s, None));
    WriteByteFile(s, WriteNext(s, None));
  }

  /** What is left of the file that was being written is a part of it from the start. */
  lemma CutShape(s: State, kept: nat)
    requires s.pc1.Writing? && FileOf(s, s.pc1.temp) in s.card
    ensures var file, content := FileOf(s, s.pc1.temp), s.card[FileOf(s, s.pc1.temp)];
      && Cut(s, kept) == s.card[file := content[..Min(kept, |content|)]]
      && (|s.sram| <= Min(kept, |content|) ==> Cut(s, kept)[file][..|s.sram|] == content[..|s.sram|])
  {
  }

  lemma WriteFailInv(s: State, fault: Option<nat>)
    requires Inv(s) && s.pc1.Writing? && fault.Some?
    ensures Inv(WriteNext(s, fault))
  {
    var full := Full(s, s.pc1.tail);
    assert full[..|s.sram|] == s.sram;
    CutShape(s, fault.value);
  }

  lemma WriteCloseInv(s: State)
    requires Inv(s) && s.pc1.Writing? && s.pc1.at == |Full(s, s.pc1.tail)|
    ensures Inv(WriteNext(s, None))
  {
    var full := Full(s, s.pc1.tail);
    assert full[..|full|] == full && full[..|s.sram|] == s.sram;
  }

  lemma EndInv(s: State)
    requires Inv(s) && s.pc1.Ending?
    ensures Inv(EndNext(s))
  {
    if s.pc1.ok && !s.enabled { EndGoodInv(s); } else { EndBadInv(s); }
  }

  lemma EndGoodInv(s: State)
    requires Inv(s) && s.pc1.Ending? && s.pc1.ok && !s.enabled
    ensures Inv(EndNext(s))
  {
  }

  lemma EndBadInv(s: State)
    requires Inv(s) && s.pc1.Ending? && !(s.pc1.ok && !s.enabled)
    ensures Inv(EndNext(s))
  {
  }

  lemma Core1Inv(s: State, now: nat, tail: seq<byte>, fault: Option<nat>)
    requires Inv(s) && RightTail(s, tail)
    ensures Inv(Core1Next(s, now, tail, fault))
  {
    match s.pc1
    case Seeding(_) => SeedInv(s);
    case Swap => LookInv(s, now);
    case LoadGeneration(_, _) => LookInv(s, now);
    case LoadEnabled(_, _, _) => LookInv(s, now);
    case Poll(_, _, _, _) => PollInv(s);
    case Recheck(_) => LookInv(s, now);
    case Summing(_, read) =>
      if |read| < |s.sram| { SumByteInv(s, tail, fault); }
      else if E.SkipsIdentical(s.engine, s.sum(read)) { SkipInv(s, tail, fault); }
      else { StartFlushInv(s, tail, fault); }
    case Opening(_, _, _, _) => OpenInv(s, fault);
    case Writing(_, _, t, _, at) =>
      if fault.Some? { WriteFailInv(s, fault); }
      else if at == |Full(s, t)| { WriteCloseInv(s); }
      else { WriteByteInv(s); }
    case Ending(_, _, _) => EndInv(s);
    case Redirty => LookInv(s, now);
  }

  lemma StepInv(s: State, a: Act)
    requires Inv(s)
    ensures Inv(Step(s, a))
  {
    match a
    case GameWrite(addr, v) => GameWriteInv(s, addr, v);
    case MapperWrite(enable) => MapperInv(s, enable);
    case StepCore0 => Core0Inv(s);
    case StepCore1(now, tail, fault) => if RightTail(s, tail) { Core1Inv(s, now, tail, fault); }
  }

  lemma {:induction false} ExecInv(s: State, acts: seq<Act>)
    requires Inv(s)
    ensures Inv(Exec(s, acts)) && SameSetup(s, Exec(s, acts))
    decreases |acts|
  {
    if acts != [] {
      StepInv(s, acts[0]);
      ExecInv(Step(s, acts[0]), acts[1..]);
    }
  }

  // ----- main results -----

  /**
   No disable edge is lost. In every reachable state of every interleaving the newest generation
   is the pending one, or the dirty flag is up, or core 0 is about to raise it, or core 1 holds
   it and has not handed it over yet.
   */
  lemma NoEdgeLost(s: State, acts: seq<Act>)
    requires Initial(s)
    ensures var e := Exec(s, acts);
      e.generation == e.engine.pending || e.dirty || e.pc0 == Dirtying || HoldsDirty(e.pc1)
  {
    InitialInv(s);
    ExecInv(s, acts);
  }

  /** The game is out of SRAM, core 0 is not publishing and the newest edge is on record. */
  ghost predicate AtRest(s: State) {
    !s.mapped && s.pc0 == Run && s.generation == s.engine.disk && s.generation != 0
  }

  /**
   In every interleaving of game, mapper and worker, with flushes failing anywhere: at rest, if
   the newest generation was recorded by a write, the next boot restores exactly this SRAM.
   */
  lemma RecordedWriteRestoresSram(s: State, acts: seq<Act>)
    requires Initial(s)
    requires var e := Exec(s, acts); AtRest(e) && e.recorded.Some? && e.recorded.value.byWrite
    ensures var e := Exec(s, acts);
      var boot := F.Restored(e.card, e.primary, e.hasRtc, |e.sram|, F.NO_FAULTS);
      boot.Ok? && boot.value.Some? && boot.value.value.sram == e.sram && boot.value.value.tail.Some? == e.hasRtc
  {
    InitialInv(s);
    ExecInv(s, acts);
  }

  /** At rest the newest generation is on record one way or the other. */
  lemma AtRestIsRecorded(s: State, acts: seq<Act>)
    requires Initial(s) && AtRest(Exec(s, acts))
    ensures Exec(s, acts).recorded.Some? && Exec(s, acts).recorded.value.generation == Exec(s, acts).generation
  {
    InitialInv(s);
    ExecInv(s, acts);
  }

  /** What the next boot makes of this card. */
  function Boot(s: State, card: F.Card): Result<Option<F.Image>, F.IoError> {
    F.Restored(card, s.primary, s.hasRtc, |s.sram|, F.NO_FAULTS)
  }

  /** Boot finds an image, and its CRC is that of the present SRAM. */
  predicate BootsSameCrc(s: State, card: F.Card) {
    Boot(s, card).Ok? && Boot(s, card).value.Some? && s.sum(Boot(s, card).value.value.sram) == s.sum(s.sram)
  }

  /**
   A skip because of an equal CRC is as good as a write when the last write of `.SAV` was clean:
   its generation was still the newest, with SRAM unmapped, when it was recorded. Then boot
   restores an image with the CRC of this SRAM.
   */
  lemma CleanSkipRestoresSameCrc(s: State, acts: seq<Act>)
    requires Initial(s)
    requires var e := Exec(s, acts); AtRest(e) && e.recorded.Some? && !e.recorded.value.byWrite && e.trust == Clean
    ensures BootsSameCrc(Exec(s, acts), Exec(s, acts).card)
  {
    InitialInv(s);
    ExecInv(s, acts);
    var e := Exec(s, acts);
    assert !e.pc1.Seeding?;
  }

  /**
   A skip is worthless for every content once a flush has truncated `.SAV` without being recorded
   and no save session overlapped it: boot finds nothing, or an image with another CRC.
   */
  lemma BrokenSkipLosesSram(s: State, acts: seq<Act>)
    requires Initial(s)
    requires var e := Exec(s, acts); AtRest(e) && e.recorded.Some? && !e.recorded.value.byWrite && e.trust == Broken
    ensures var e := Exec(s, acts);
      && Boot(e, e.card).Ok? && !BootsSameCrc(e, e.card)
      && (Boot(e, e.card).value.Some? ==> Boot(e, e.card).value.value.sram != e.sram)
  {
    InitialInv(s);
    ExecInv(s, acts);
  }

  /**
   Exactly when a skip can be trusted: unless a save session overlapped the last write of `.SAV`,
   boot restores an image with the CRC of this SRAM if and only if that write was recorded.
   */
  lemma SkipRestoresIffClean(s: State, acts: seq<Act>)
    requires Initial(s)
    requires var e := Exec(s, acts); AtRest(e) && e.recorded.Some? && !e.recorded.value.byWrite && e.trust != Unknown
    ensures var e := Exec(s, acts); BootsSameCrc(e, e.card) <==> e.trust == Clean
  {
    if Exec(s, acts).trust == Clean { CleanSkipRestoresSameCrc(s, acts); } else { BrokenSkipLosesSram(s, acts); }
  }

  predicate HasAtLeast(card: F.Card, name: F.Name, n: nat) { name in card && |card[name]| >= n }

  /** The image that lies on the card: full files before ones without their tail, `.SAV` before `.TMP`. */
  function OnCard(s: State): Option<seq<byte>> {
    var n, full, temp := |s.sram|, F.ExpectedLen(|s.sram|, s.hasRtc), F.TempName(s.primary);
    if HasAtLeast(s.card, s.primary, full) then Some(s.card[s.primary][..n])
    else if HasAtLeast(s.card, temp, full) then Some(s.card[temp][..n])
    else if HasAtLeast(s.card, s.primary, n) then Some(s.card[s.primary][..n])
    else if HasAtLeast(s.card, temp, n) then Some(s.card[temp][..n])
    else None
  }

  /**
   And with no condition on what overlapped what: a skip is right if and only if the image on the
   card has the remembered CRC, which a read of the file before the skip would tell; and it keeps the
   game's save, byte for byte, if and only if that image is this SRAM.
   */
  lemma SkipIsRightIffCardMatches(s: State, acts: seq<Act>)
    requires Initial(s)
    requires var e := Exec(s, acts); AtRest(e) && e.recorded.Some? && !e.recorded.value.byWrite
    ensures var e := Exec(s, acts);
      && (BootsSameCrc(e, e.card) <==> OnCard(e).Some? && e.engine.lastCrc == Some(e.sum(OnCard(e).value)))
      && (BootsImage(e, e.card, e.sram) <==> OnCard(e) == Some(e.sram))
  {
    InitialInv(s);
    ExecInv(s, acts);
    BootTakesCard(Exec(s, acts));
  }

  lemma BootTakesCard(e: State)
    ensures Boot(e, e.card).Ok? && (Boot(e, e.card).value.Some? <==> OnCard(e).Some?)
    ensures OnCard(e).Some? ==> Boot(e, e.card).value.value.sram == OnCard(e).value
  {
  }

  // ----- a power loss during a flush -----

  ghost predicate StartedFull(s: State) {
    s.before.Some? && |s.before.value| >= F.ExpectedLen(|s.sram|, s.hasRtc)
  }

  ghost predicate BootsImage(s: State, card: F.Card, sram: seq<byte>) {
    Boot(s, card).Ok? && Boot(s, card).value.Some? && Boot(s, card).value.value.sram == sram
  }

  /** Until `.SAV` is truncated a power loss boots the old image, whatever the game does. */
  lemma CutBeforeSaveBootsOld(s: State, acts: seq<Act>, kept: nat)
    requires Initial(s)
    requires var e := Exec(s, acts); StartedFull(e) && (e.pc1.Opening? || (e.pc1.Writing? && e.pc1.temp))
    ensures var e := Exec(s, acts); BootsImage(e, Cut(e, kept), e.before.value[..|e.sram|])
  {
    InitialInv(s);
    ExecInv(s, acts);
  }

  /**
   Crash atomicity over every interleaving, with SRAM live: at any moment of a flush that started
   from a full `.SAV`, as long as no save session has begun since its generation, a power loss boots
   exactly the old image or exactly this SRAM; this SRAM from the truncation of `.SAV` on.
   */
  lemma FlushCutIsAtomic(s: State, acts: seq<Act>, kept: nat)
    requires Initial(s)
    requires var e := Exec(s, acts); Flushing(e.pc1) && Still(e, e.pc1.g) && StartedFull(e)
    ensures var e := Exec(s, acts);
      && (BootsImage(e, Cut(e, kept), e.before.value[..|e.sram|]) || BootsImage(e, Cut(e, kept), e.sram))
      && (e.pc1.Writing? && !e.pc1.temp ==> BootsImage(e, Cut(e, kept), e.sram))
  {
    InitialInv(s);
    ExecInv(s, acts);
    FlushCutBoots(Exec(s, acts), kept);
  }

  lemma FlushCutBoots(e: State, kept: nat)
    requires Inv(e) && Flushing(e.pc1) && Still(e, e.pc1.g) && StartedFull(e)
    ensures BootsImage(e, Cut(e, kept), e.before.value[..|e.sram|]) || BootsImage(e, Cut(e, kept), e.sram)
    ensures e.pc1.Writing? && !e.pc1.temp ==> BootsImage(e, Cut(e, kept), e.sram)
  {
  }
}
