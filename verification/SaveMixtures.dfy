/**
 What a flush leaves behind however many save sessions overlap it: every byte of `.SAV` is the byte
 SRAM had at some moment, and these moments go forward through the file.
 */
module SaveMixtures {
  import opened Bytes
  import F = SaveFile
  import Runs
  import opened SaveProtocol

  /** The state after the first `k` steps. */
  function After(s: State, acts: seq<Act>, k: nat): State
    requires k <= |acts|
  {
    Exec(s, acts[..k])
  }

  /** A flush has just truncated `.SAV`. */
  ghost predicate OpenedAt(s: State, acts: seq<Act>, from: nat) {
    from <= |acts| && JustOpened(After(s, acts, from))
  }

  predicate JustOpened(e: State) { e.pc1.Writing? && !e.pc1.temp && e.pc1.at == 0 }

  /** The SRAM part of `content` was read from SRAM at the moments `ks`, by a flush opened at `from`. */
  ghost predicate ReadAt(s: State, acts: seq<Act>, content: seq<byte>, from: nat, ks: seq<nat>) {
    && OpenedAt(s, acts, from) && |ks| == Min(|content|, |s.sram|)
    && (forall i :: 0 <= i < |ks| ==> from <= ks[i] && ByteAt(s, acts, i, ks[i], content[i]))
    && (forall i, j :: 0 <= i < j < |ks| ==> ks[i] <= ks[j])
  }

  ghost predicate ByteAt(s: State, acts: seq<Act>, i: nat, k: nat, b: byte) {
    k <= |acts| && i < |After(s, acts, k).sram| && After(s, acts, k).sram[i] == b
  }

  ghost predicate Mixture(s: State, acts: seq<Act>, content: seq<byte>) {
    exists from: nat, ks: seq<nat> :: ReadAt(s, acts, content, from, ks)
  }

  /** `.SAV` is the one the run began with, or a mixture of what SRAM has been since. */
  ghost predicate SaveIsMixed(s: State, acts: seq<Act>, e: State) {
    e.primary in e.card ==>
      (s.primary in s.card && e.card[e.primary] == s.card[s.primary]) || Mixture(s, acts, e.card[e.primary])
  }

  /** The file being written has the bytes written so far, none of them from before the flush. */
  ghost predicate Grows(s: State, acts: seq<Act>, e: State) {
    e.pc1.Writing? && !e.pc1.temp ==>
      e.primary in e.card && |e.card[e.primary]| == e.pc1.at && Mixture(s, acts, e.card[e.primary])
  }

  ghost predicate MixInv(s: State, acts: seq<Act>, e: State) {
    && e == Exec(s, acts) && SameSetup(s, e) && F.TempName(s.primary) != s.primary
    && SaveIsMixed(s, acts, e) && Grows(s, acts, e)
  }

  // ----- one more step -----

  lemma AfterLonger(s: State, acts: seq<Act>, a: Act, k: nat)
    requires k <= |acts|
    ensures After(s, acts + [a], k) == After(s, acts, k)
  {
    assert (acts + [a])[..k] == acts[..k];
  }

  lemma AfterAll(s: State, acts: seq<Act>)
    ensures After(s, acts, |acts|) == Exec(s, acts)
  {
    assert acts[..|acts|] == acts;
  }

  lemma LongerRun(s: State, acts: seq<Act>, a: Act, content: seq<byte>)
    requires Mixture(s, acts, content)
    ensures Mixture(s, acts + [a], content)
  {
    var from: nat, ks: seq<nat> :| ReadAt(s, acts, content, from, ks);
    forall i | 0 <= i < |ks| ensures ByteAt(s, acts + [a], i, ks[i], content[i]) {
      assert ByteAt(s, acts, i, ks[i], content[i]);
      AfterLonger(s, acts, a, ks[i]);
    }
    AfterLonger(s, acts, a, from);
    assert ReadAt(s, acts + [a], content, from, ks);
  }

  /** What the card keeps of a file is a mixture too. */
  lemma PartOfMixture(s: State, acts: seq<Act>, content: seq<byte>, m: nat)
    requires Mixture(s, acts, content) && m <= |content|
    ensures Mixture(s, acts, content[..m])
  {
    var from: nat, ks: seq<nat> :| ReadAt(s, acts, content, from, ks);
    assert ReadAt(s, acts, content[..m], from, ks[..Min(m, |s.sram|)]);
  }

  lemma EmptyMixture(s: State, acts: seq<Act>)
    requires JustOpened(Exec(s, acts))
    ensures Mixture(s, acts, [])
  {
    AfterAll(s, acts);
    assert ReadAt(s, acts, [], |acts|, []);
  }

  /** The next byte comes from SRAM as it is now, or from the clock tail. */
  lemma NextByte(s: State, acts: seq<Act>, content: seq<byte>, b: byte)
    requires Mixture(s, acts, content) && SameSetup(s, Exec(s, acts))
    requires |content| < |s.sram| ==> Exec(s, acts).sram[|content|] == b
    ensures Mixture(s, acts, content + [b])
  {
    var from: nat, ks: seq<nat> :| ReadAt(s, acts, content, from, ks);
    if |content| < |s.sram| {
      AfterAll(s, acts);
      assert ByteAt(s, acts, |content|, |acts|, b);
      forall i | 0 <= i < |ks| ensures ByteAt(s, acts, i, ks[i], (content + [b])[i]) && ks[i] <= |acts| {
        assert ByteAt(s, acts, i, ks[i], content[i]);
      }
      assert ReadAt(s, acts, content + [b], from, ks + [|acts|]);
    } else {
      assert ReadAt(s, acts, content + [b], from, ks);
    }
  }

  /** The step from `e` to `e'` does one of these to `.SAV`. */
  ghost predicate Touches(e: State, e': State) {
    LeavesAlone(e, e') || Truncates(e, e') || AppendsByte(e, e') || CutsOff(e, e')
  }

  ghost predicate LeavesAlone(e: State, e': State) {
    && (e.primary in e'.card <==> e.primary in e.card)
    && (e.primary in e.card ==> e'.card[e.primary] == e.card[e.primary])
    && (e'.pc1.Writing? && !e'.pc1.temp ==> e'.pc1 == e.pc1)
  }

  ghost predicate Truncates(e: State, e': State) {
    e.primary in e'.card && e'.card[e.primary] == [] && JustOpened(e')
  }

  ghost predicate AppendsByte(e: State, e': State) {
    && e.pc1.Writing? && !e.pc1.temp && e.primary in e.card && e.primary in e'.card
    && e'.pc1 == e.pc1.(at := e.pc1.at + 1)
    && exists b :: e'.card[e.primary] == e.card[e.primary] + [b] && (e.pc1.at < |e.sram| ==> b == e.sram[e.pc1.at])
  }

  ghost predicate CutsOff(e: State, e': State) {
    && e.pc1.Writing? && !e.pc1.temp && e.primary in e.card && e.primary in e'.card && !e'.pc1.Writing?
    && exists m: nat :: m <= |e.card[e.primary]| && e'.card[e.primary] == e.card[e.primary][..m]
  }

  lemma FailTouches(e: State, fault: Option<nat>)
    requires e.pc1.Writing? && fault.Some? && F.TempName(e.primary) != e.primary
    requires !e.pc1.temp ==> e.primary in e.card
    ensures Touches(e, WriteNext(e, fault))
  {
    CutShapeOf(e, fault.value);
  }

  lemma CutShapeOf(e: State, kept: nat)
    requires e.pc1.Writing? && F.TempName(e.primary) != e.primary
    ensures var card := Cut(e, kept);
      && (e.primary in card <==> e.primary in e.card)
      && (e.primary in e.card ==>
            var m := if e.pc1.temp then |e.card[e.primary]| else Min(kept, |e.card[e.primary]|);
            card[e.primary] == e.card[e.primary][..m])
  {
  }

  lemma GrowTouches(e: State)
    requires e.pc1.Writing? && F.TempName(e.primary) != e.primary && e.pc1.at < |e.sram| + |e.pc1.tail|
    requires !e.pc1.temp ==> e.primary in e.card
    ensures Touches(e, WriteNext(e, None))
  {
    var b := Full(e, e.pc1.tail)[e.pc1.at];
    assert WriteNext(e, None).card == Append(e.card, FileOf(e, e.pc1.temp), b);
  }

  lemma CloseTouches(e: State)
    requires e.pc1.Writing? && e.pc1.at >= |e.sram| + |e.pc1.tail|
    ensures Touches(e, WriteNext(e, None))
  {
    SamePlace(e, WriteNext(e, None));
  }

  lemma SamePlace(e: State, e': State)
    requires NoFile(e, e')
    ensures LeavesAlone(e, e')
  {
  }

  lemma OpenTouches(e: State, fault: Option<nat>)
    requires e.pc1.Opening? && F.TempName(e.primary) != e.primary
    ensures Touches(e, OpenNext(e, fault))
  {
  }

  /** Nothing but a file operation gets at the card or moves a writer. */
  ghost predicate NoFile(e: State, e': State) {
    e'.card == e.card && e'.primary == e.primary && (e'.pc1.Writing? ==> e'.pc1 == e.pc1)
  }

  lemma LookNoFile(e: State, now: nat, tail: seq<byte>, fault: Option<nat>)
    requires e.pc1.Swap? || e.pc1.LoadGeneration? || e.pc1.LoadEnabled? || e.pc1.Recheck? || e.pc1.Redirty?
    ensures NoFile(e, Core1Next(e, now, tail, fault))
  {
  }

  lemma SumNoFile(e: State, tail: seq<byte>, fault: Option<nat>)
    requires e.pc1.Summing?
    ensures NoFile(e, SumNext(e, tail, fault))
  {
  }

  lemma PollNoFile(e: State)
    requires e.pc1.Poll?
    ensures NoFile(e, PollNext(e))
  {
  }

  lemma SeedNoFile(e: State)
    requires e.pc1.Seeding?
    ensures NoFile(e, SeedNext(e))
  {
  }

  lemma EndNoFile(e: State)
    requires e.pc1.Ending?
    ensures NoFile(e, EndNext(e))
  {
  }

  lemma WorkerNoFile(e: State, now: nat, tail: seq<byte>, fault: Option<nat>)
    requires !e.pc1.Writing? && !e.pc1.Opening?
    ensures NoFile(e, Core1Next(e, now, tail, fault))
  {
    match e.pc1
    case Summing(_, _) => SumNoFile(e, tail, fault);
    case Poll(_, _, _, _) => PollNoFile(e);
    case Seeding(_) => SeedNoFile(e);
    case Ending(_, _, _) => EndNoFile(e);
    case _ => LookNoFile(e, now, tail, fault);
  }

  lemma GameNoFile(e: State, a: Act)
    requires a.StepCore1? ==> !RightTail(e, a.tail)
    ensures NoFile(e, Step(e, a))
  {
  }

  lemma StepTouches(e: State, a: Act)
    requires F.TempName(e.primary) != e.primary && (e.pc1.Writing? && !e.pc1.temp ==> e.primary in e.card)
    ensures Touches(e, Step(e, a))
  {
    if a.StepCore1? && RightTail(e, a.tail) && e.pc1.Writing? {
      if a.fault.Some? { FailTouches(e, a.fault); }
      else if e.pc1.at < |e.sram| + |e.pc1.tail| { GrowTouches(e); }
      else { CloseTouches(e); }
    } else if a.StepCore1? && RightTail(e, a.tail) && e.pc1.Opening? {
      OpenTouches(e, a.fault);
    } else {
      if a.StepCore1? && RightTail(e, a.tail) { WorkerNoFile(e, a.now, a.tail, a.fault); }
      else { GameNoFile(e, a); }
      SamePlace(e, Step(e, a));
    }
  }

  lemma MixNext(s: State, acts: seq<Act>, a: Act, e: State, e': State)
    requires MixInv(s, acts, e) && Touches(e, e') && SameSetup(e, e') && e' == Exec(s, acts + [a])
    ensures MixInv(s, acts + [a], e')
  {
    if e.primary in e.card && Mixture(s, acts, e.card[e.primary]) {
      LongerRun(s, acts, a, e.card[e.primary]);
    }
    if Truncates(e, e') {
      EmptyMixture(s, acts + [a]);
    } else if AppendsByte(e, e') {
      var b :| e'.card[e.primary] == e.card[e.primary] + [b] && (e.pc1.at < |e.sram| ==> b == e.sram[e.pc1.at]);
      NextByte(s, acts, e.card[e.primary], b);
      LongerRun(s, acts, a, e'.card[e.primary]);
    } else if CutsOff(e, e') {
      var m: nat :| m <= |e.card[e.primary]| && e'.card[e.primary] == e.card[e.primary][..m];
      PartOfMixture(s, acts + [a], e.card[e.primary], m);
    }
  }

  lemma {:induction false} ExecMixes(s: State, acts: seq<Act>)
    requires Initial(s)
    ensures MixInv(s, acts, Exec(s, acts))
    decreases |acts|
  {
    if acts != [] {
      var before, a := acts[..|acts| - 1], acts[|acts| - 1];
      assert acts == before + [a];
      ExecMixes(s, before);
      Runs.Snoc(Step, s, before, a);
      StepTouches(Exec(s, before), a);
      MixNext(s, before, a, Exec(s, before), Exec(s, acts));
    }
  }

  // ----- main results -----

  /**
   In every interleaving, with failures anywhere and any part of an open file lost: `.SAV` is the file
   that was there at boot, or each of its SRAM bytes is the byte SRAM had at a moment after a flush
   opened the file, the moments never going back.
   */
  lemma SaveIsAMixture(s: State, acts: seq<Act>)
    requires Initial(s) && Exec(s, acts).primary in Exec(s, acts).card
    ensures var content := Exec(s, acts).card[Exec(s, acts).primary];
      (s.primary in s.card && content == s.card[s.primary]) || Mixture(s, acts, content)
  {
    ExecMixes(s, acts);
  }

  ghost predicate FullSave(e: State) {
    e.primary in e.card && |e.card[e.primary]| >= F.ExpectedLen(|e.sram|, e.hasRtc)
  }

  /**
   So the exact price of an overlapped flush and a later skip: with a full `.SAV` read from SRAM at
   the moments `ks`, boot restores this SRAM if and only if every byte is now what it was when the
   flush came by.
   */
  lemma SkipKeepsSaveIffNothingMoved(s: State, acts: seq<Act>, from: nat, ks: seq<nat>)
    requires Initial(s)
    requires var e := Exec(s, acts); AtRest(e) && e.recorded.Some? && !e.recorded.value.byWrite
    requires FullSave(Exec(s, acts)) && ReadAt(s, acts, Exec(s, acts).card[Exec(s, acts).primary], from, ks)
    ensures var e := Exec(s, acts);
      && |ks| == |e.sram|
      && (BootsImage(e, e.card, e.sram)
          <==> forall i :: 0 <= i < |e.sram| ==> ByteAt(s, acts, i, ks[i], e.sram[i]))
  {
    var e := Exec(s, acts);
    ExecMixes(s, acts);
    SkipIsRightIffCardMatches(s, acts);
    var content := e.card[e.primary];
    assert OnCard(e) == Some(content[..|e.sram|]);
    if forall i :: 0 <= i < |e.sram| ==> ByteAt(s, acts, i, ks[i], e.sram[i]) {
      forall i | 0 <= i < |e.sram| ensures content[..|e.sram|][i] == e.sram[i] {
        assert ByteAt(s, acts, i, ks[i], content[i]);
      }
      assert content[..|e.sram|] == e.sram;
    }
    if content[..|e.sram|] == e.sram {
      forall i | 0 <= i < |e.sram| ensures ByteAt(s, acts, i, ks[i], e.sram[i]) {
        assert ByteAt(s, acts, i, ks[i], content[i]) && content[..|e.sram|][i] == content[i];
      }
    }
  }
}
