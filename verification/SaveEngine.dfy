/**
 The save decisions of core 1 (cartridge-core/src/save_coordinator.rs, `AutoSaveEngine`).
 `Engine` is the value of the object; its functions specify the methods of the class.
 */
module SaveEngine {
  import opened Bytes

  const QUIET_PERIOD_MS := 500

  datatype Decision = Idle | WaitForDisable | WaitForQuiet | Persist(generation: nat)

  datatype Engine = Engine(
    pending: nat, disk: nat, lastActivity: nat, lastCrc: Option<bv32>, inFlight: bool, quietPeriod: nat)

  function New(quietPeriod: nat): Engine {
    Engine(0, 0, 0, None, false, quietPeriod)
  }

  function Ingested(e: Engine, generation: nat, now: nat): Engine {
    e.(pending := if generation > e.pending then generation else e.pending, lastActivity := now)
  }

  /** A clock that runs backwards counts as no time at all. */
  function SaturatingSub(a: nat, b: nat): nat {
    if a >= b then a - b else 0
  }

  function Decide(e: Engine, sramDisabled: bool, now: nat): Decision {
    if e.inFlight || e.pending <= e.disk then Idle
    else if !sramDisabled then WaitForDisable
    else if SaturatingSub(now, e.lastActivity) < e.quietPeriod then WaitForQuiet
    else Persist(e.pending)
  }

  function Polled(e: Engine, dirty: bool, generation: nat, now: nat): Engine {
    if dirty then Ingested(e, generation, now) else e
  }

  function Begun(e: Engine): Engine { e.(inFlight := true) }

  predicate SkipsIdentical(e: Engine, crc: bv32) { e.lastCrc == Some(crc) }

  function Succeeded(e: Engine, generation: nat, crc: bv32): Engine {
    e.(disk := if generation > e.disk then generation else e.disk, lastCrc := Some(crc), inFlight := false)
  }

  function Failed(e: Engine): Engine { e.(inFlight := false) }

  function Seeded(e: Engine, crc: bv32): Engine { e.(lastCrc := Some(crc), disk := e.pending) }

  class AutoSaveEngine {
    var pendingGeneration: nat
    var diskGeneration: nat
    var lastActivityMs: nat
    var lastCrc: Option<bv32>
    var inFlight: bool
    const quietPeriodMs: nat

    ghost function State(): Engine
      reads this
    {
      Engine(pendingGeneration, diskGeneration, lastActivityMs, lastCrc, inFlight, quietPeriodMs)
    }

    constructor (quietPeriodMs: nat)
      ensures State() == New(quietPeriodMs)
    {
      pendingGeneration, diskGeneration, lastActivityMs := 0, 0, 0;
      lastCrc, inFlight, this.quietPeriodMs := None, false, quietPeriodMs;
    }

    method IngestDirty(generation: nat, nowMs: nat)
      modifies this
      ensures State() == Ingested(old(State()), generation, nowMs)
    {
      if generation > pendingGeneration {
        pendingGeneration := generation;
      }
      lastActivityMs := nowMs;
    }

    method DecideNow(sramDisabled: bool, nowMs: nat) returns (d: Decision)
      ensures d == Decide(State(), sramDisabled, nowMs)
    {
      if inFlight {
        return Idle;
      }
      if pendingGeneration <= diskGeneration {
        return Idle;
      }
      if !sramDisabled {
        return WaitForDisable;
      }
      if SaturatingSub(nowMs, lastActivityMs) < quietPeriodMs {
        return WaitForQuiet;
      }
      return Persist(pendingGeneration);
    }

    method Poll(dirty: bool, generation: nat, sramDisabled: bool, nowMs: nat) returns (d: Decision)
      modifies this
      ensures State() == Polled(old(State()), dirty, generation, nowMs)
      ensures d == Decide(State(), sramDisabled, nowMs)
    {
      if dirty {
        IngestDirty(generation, nowMs);
      }
      d := DecideNow(sramDisabled, nowMs);
    }

    method BeginPersist()
      modifies this
      ensures State() == Begun(old(State()))
    {
      inFlight := true;
    }

    method ShouldSkipIdentical(crc: bv32) returns (skip: bool)
      ensures skip == SkipsIdentical(State(), crc)
    {
      skip := lastCrc == Some(crc);
    }

    method OnSuccess(generation: nat, crc: bv32)
      modifies this
      ensures State() == Succeeded(old(State()), generation, crc)
    {
      if generation > diskGeneration {
        diskGeneration := generation;
      }
      lastCrc := Some(crc);
      inFlight := false;
    }

    method OnFailure()
      modifies this
      ensures State() == Failed(old(State()))
    {
      inFlight := false;
    }

    method OnRestored(crc: bv32)
      modifies this
      ensures State() == Seeded(old(State()), crc)
    {
      lastCrc := Some(crc);
      diskGeneration := pendingGeneration;
    }
  }

  // ----- every sequence of calls -----

  datatype Call =
    | CPoll(dirty: bool, generation: nat, sramDisabled: bool, now: nat)
    | CBegin
    | CSuccess(generation: nat, crc: bv32)
    | CFailure
    | CRestored(crc: bv32)

  function Apply(e: Engine, c: Call): Engine {
    match c
    case CPoll(dirty, g, _, now) => Polled(e, dirty, g, now)
    case CBegin => Begun(e)
    case CSuccess(g, crc) => Succeeded(e, g, crc)
    case CFailure => Failed(e)
    case CRestored(crc) => Seeded(e, crc)
  }

  function ApplyAll(e: Engine, cs: seq<Call>): Engine {
    if cs == [] then e else Apply(ApplyAll(e, cs[..|cs| - 1]), cs[|cs| - 1])
  }

  /** Latest time at which a dirty poll arrived. */
  function LastDirty(start: nat, cs: seq<Call>): nat {
    if cs == [] then start
    else
      var c := cs[|cs| - 1];
      if c.CPoll? && c.dirty then c.now else LastDirty(start, cs[..|cs| - 1])
  }

  /** Highest generation any dirty poll has announced. */
  function HighestDirty(start: nat, cs: seq<Call>): nat {
    if cs == [] then start
    else
      var c := cs[|cs| - 1];
      var h := HighestDirty(start, cs[..|cs| - 1]);
      if c.CPoll? && c.dirty && c.generation > h then c.generation else h
  }

  /** Up to which generation the saves are done: the highest success, or all that was known at a restore. */
  function HighestSaved(pending: nat, disk: nat, cs: seq<Call>): nat {
    if cs == [] then disk
    else
      var before, c := cs[..|cs| - 1], cs[|cs| - 1];
      var h := HighestSaved(pending, disk, before);
      if c.CRestored? then HighestDirty(pending, before)
      else if c.CSuccess? && c.generation > h then c.generation else h
  }

  /** The CRC of the latest success or restore. */
  function LatestCrc(start: Option<bv32>, cs: seq<Call>): Option<bv32> {
    if cs == [] then start
    else
      var c := cs[|cs| - 1];
      if c.CSuccess? || c.CRestored? then Some(c.crc) else LatestCrc(start, cs[..|cs| - 1])
  }

  /** A persist has begun and has neither succeeded nor failed. */
  predicate Unfinished(start: bool, cs: seq<Call>) {
    if cs == [] then start
    else
      var c := cs[|cs| - 1];
      c.CBegin? || (!c.CSuccess? && !c.CFailure? && Unfinished(start, cs[..|cs| - 1]))
  }

  /** Over every history of calls, each field is what the history alone says. */
  lemma {:induction false} EngineTracksPolls(e: Engine, cs: seq<Call>)
    ensures var e' := ApplyAll(e, cs);
      && e'.pending == HighestDirty(e.pending, cs) && e'.lastActivity == LastDirty(e.lastActivity, cs)
      && e'.disk == HighestSaved(e.pending, e.disk, cs) && e'.lastCrc == LatestCrc(e.lastCrc, cs)
      && e'.inFlight == Unfinished(e.inFlight, cs) && e'.quietPeriod == e.quietPeriod
  {
    if cs != [] {
      EngineTracksPolls(e, cs[..|cs| - 1]);
    }
  }

  /**
   Quiescence over any history: a persist is decided only for the newest generation ever announced,
   and exactly when no persist is unfinished, that generation is not saved yet, SRAM is unmapped, and
   the quiet period has passed since the latest dirty poll.
   */
  lemma PersistOnlyWhenQuiet(cs: seq<Call>, quietPeriod: nat, sramDisabled: bool, now: nat)
    ensures var e := ApplyAll(New(quietPeriod), cs);
      var newest := HighestDirty(0, cs);
      Decide(e, sramDisabled, now) == Persist(newest)
      <==> !Unfinished(false, cs) && newest > HighestSaved(0, 0, cs) && sramDisabled
           && (quietPeriod == 0 || now >= LastDirty(0, cs) + quietPeriod)
    ensures Decide(ApplyAll(New(quietPeriod), cs), sramDisabled, now).Persist? ==>
              Decide(ApplyAll(New(quietPeriod), cs), sramDisabled, now) == Persist(HighestDirty(0, cs))
  {
    EngineTracksPolls(New(quietPeriod), cs);
  }
}
