/**
 What a single step of the save may do, told from the states of a run alone: nothing is summed or
 recorded while the window is open, and a flush that ends unrecorded is forgotten and asked for again.
 */
module SaveSteps {
  import opened Bytes
  import E = SaveEngine
  import F = SaveFile
  import Runs
  import opened SaveProtocol

  /** The step moves core 1. */
  ghost predicate WorkerSteps(s: State, a: Act) { a.StepCore1? && RightTail(s, a.tail) }

  // ----- what a step may do -----

  /** Summing begins, and a record is made, only from a state whose flag says that SRAM is disabled. */
  ghost predicate OnlyWhileClosed(e: State, e': State) {
    && (e'.pc1.Summing? && !e.pc1.Summing? ==> !e.enabled && e.pc1 == Recheck(e'.pc1.g))
    && (e'.recorded != e.recorded && e'.recorded.Some? && e'.recorded.value.byWrite ==>
          !e.enabled && e.pc1.Ending? && e.pc1.ok && e'.recorded.value.generation == e.pc1.g)
  }

  /** How a flush ends: exactly when it is recorded, and what is left of it when it is not. */
  ghost predicate EndsProperly(e: State, e': State, a: Act) {
    e.pc1.Ending? && WorkerSteps(e, a) ==>
      && (e'.recorded == Some(Record(e.pc1.g, true)) && e'.engine.disk == e.pc1.g
          && e'.engine.lastCrc == Some(e.pc1.crc) && e'.pc1 == Swap
          <==> e.pc1.ok && !e.enabled)
      && (!(e.pc1.ok && !e.enabled) ==>
            && e'.recorded == e.recorded && e'.engine.disk == e.engine.disk
            && e'.engine.lastCrc == e.engine.lastCrc && e'.pc1 == Redirty)
      && !e'.engine.inFlight && e'.engine.pending == e.engine.pending
  }

  /** The next step of core 1 raises the flag again. */
  ghost predicate AsksAgain(e: State, e': State, a: Act) {
    e.pc1 == Redirty && WorkerSteps(e, a) ==>
      e'.dirty && e'.pc1 == Swap && e'.engine == e.engine && e'.recorded == e.recorded
  }

  /** A recheck that finds the window open goes back for the next round and leaves everything as it is. */
  ghost predicate RechecksFirst(e: State, e': State, a: Act) {
    e.pc1.Recheck? && WorkerSteps(e, a) ==>
      e' == e.(pc1 := e'.pc1) && e'.pc1 == if e.enabled then Swap else Summing(e.pc1.g, [])
  }

  lemma EndOnly(e: State)
    requires e.pc1.Ending?
    ensures OnlyWhileClosed(e, EndNext(e))
  {
  }

  lemma SumOnly(e: State, tail: seq<byte>, fault: Option<nat>)
    requires e.pc1.Summing?
    ensures OnlyWhileClosed(e, SumNext(e, tail, fault))
  {
  }

  lemma FileOnly(e: State, now: nat, tail: seq<byte>, fault: Option<nat>)
    requires e.pc1.Opening? || e.pc1.Writing? || e.pc1.Seeding?
    ensures OnlyWhileClosed(e, Core1Next(e, now, tail, fault))
  {
  }

  lemma WorkerOnlyWhileClosed(e: State, now: nat, tail: seq<byte>, fault: Option<nat>)
    ensures OnlyWhileClosed(e, Core1Next(e, now, tail, fault))
  {
    match e.pc1
    case Ending(_, _, _) => EndOnly(e);
    case Summing(_, _) => SumOnly(e, tail, fault);
    case Opening(_, _, _, _) => FileOnly(e, now, tail, fault);
    case Writing(_, _, _, _, _) => FileOnly(e, now, tail, fault);
    case Seeding(_) => FileOnly(e, now, tail, fault);
    case _ =>
  }

  lemma GameOnlyWhileClosed(e: State, a: Act)
    requires !WorkerSteps(e, a)
    ensures OnlyWhileClosed(e, Step(e, a)) && Step(e, a).pc1 == e.pc1
  {
  }

  lemma FlushEnds(e: State, a: Act)
    requires CountInv(e) && e.pc1.Ending?
    ensures EndsProperly(e, EndNext(e), a)
  {
  }

  // ----- main results -----

  /**
   In every interleaving: no sum is begun and nothing is recorded by a write from a state in which
   SRAM is enabled, and what is recorded is the generation of the flush that just ended well.
   */
  lemma NothingSavedWhileOpen(s: State, acts: seq<Act>, a: Act)
    requires Initial(s)
    ensures OnlyWhileClosed(Exec(s, acts), Exec(s, acts + [a]))
  {
    InitialInv(s);
    ExecInv(s, acts);
    Runs.Snoc(Step, s, acts, a);
    var e := Exec(s, acts);
    if WorkerSteps(e, a) { WorkerOnlyWhileClosed(e, a.now, a.tail, a.fault); } else { GameOnlyWhileClosed(e, a); }
  }

  /**
   In every interleaving: a flush is recorded if and only if it ended well with SRAM disabled. Otherwise
   disk generation, record and remembered CRC stay as they were, nothing is in flight, and the worker's
   next step raises the dirty flag.
   */
  lemma UnrecordedFlushIsRetried(s: State, acts: seq<Act>, a: Act)
    requires Initial(s)
    ensures EndsProperly(Exec(s, acts), Exec(s, acts + [a]), a)
    ensures AsksAgain(Exec(s, acts), Exec(s, acts + [a]), a)
  {
    InitialInv(s);
    ExecInv(s, acts);
    Runs.Snoc(Step, s, acts, a);
    var e := Exec(s, acts);
    if e.pc1.Ending? && WorkerSteps(e, a) { FlushEnds(e, a); }
  }

  /** In every interleaving: a decision to save is dropped if SRAM has been enabled since. */
  lemma DecisionIsRechecked(s: State, acts: seq<Act>, a: Act)
    requires Initial(s)
    ensures RechecksFirst(Exec(s, acts), Exec(s, acts + [a]), a)
  {
    Runs.Snoc(Step, s, acts, a);
  }

  // ----- the generation -----

  /** The mapper closes an open window with action `i`. */
  ghost predicate Closes(s: State, acts: seq<Act>, i: nat)
    requires i < |acts|
  {
    acts[i] == MapperWrite(false) && Exec(s, acts[..i]).pc0 == Run && Exec(s, acts[..i]).mapped
  }

  ghost function Closings(s: State, acts: seq<Act>, n: nat): nat
    requires n <= |acts|
  {
    if n == 0 then 0 else Closings(s, acts, n - 1) + if Closes(s, acts, n - 1) then 1 else 0
  }

  /** A closing whose generation is still to be stored. */
  predicate OneToCome(s: State) { s.pc0 == Publishing(true, false) || s.pc0 == Bumping }

  lemma {:induction false} ClosingsBefore(s: State, acts: seq<Act>, a: Act, n: nat)
    requires n <= |acts|
    ensures Closings(s, acts + [a], n) == Closings(s, acts, n)
  {
    if n > 0 {
      ClosingsBefore(s, acts, a, n - 1);
      assert (acts + [a])[..n - 1] == acts[..n - 1];
    }
  }

  lemma GenerationNext(e: State, a: Act)
    requires CountInv(e)
    ensures var e' := Step(e, a);
      e'.generation + (if OneToCome(e') then 1 else 0)
      == e.generation + (if OneToCome(e) then 1 else 0)
         + if a == MapperWrite(false) && e.pc0 == Run && e.mapped then 1 else 0
  {
  }

  /** In every interleaving, the generation counts how often an open window was closed: nothing else, and each once. */
  lemma {:induction false} GenerationCountsClosings(s: State, acts: seq<Act>)
    requires Initial(s)
    ensures Exec(s, acts).generation + (if OneToCome(Exec(s, acts)) then 1 else 0) == Closings(s, acts, |acts|)
    decreases |acts|
  {
    if acts != [] {
      var before, a := acts[..|acts| - 1], acts[|acts| - 1];
      assert acts == before + [a];
      GenerationCountsClosings(s, before);
      InitialInv(s);
      ExecInv(s, before);
      Runs.Snoc(Step, s, before, a);
      GenerationNext(Exec(s, before), a);
      ClosingsBefore(s, before, a, |before|);
      assert acts[..|before|] == before;
    }
  }
}
