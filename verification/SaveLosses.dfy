/**
 Runs of the save protocol in which something is lost, each with the exact condition on the images:
 a flush torn by a save session, and the two ways in which a CRC skip trusts the wrong file.
 */
module SaveLosses {
  import opened Bytes
  import C = Crc32
  import E = SaveEngine
  import F = SaveFile
  import Runs
  import opened SaveProtocol
  import opened SaveRuns

  // ----- segments of runs -----

  lemma WorksLeads(s: State, t: State, u: State)
    requires Leads(s, t) && Works(t, u)
    ensures Leads(s, u)
  {
    var a :| Exec(s, a) == t;
    var b :| Smooth(b) && Exec(t, b) == u;
    Runs.Concat(Step, s, a, b);
    assert Exec(s, a + b) == u;
  }

  lemma LeadsThen(s0: State, s: State, a: Act, t: State)
    requires Leads(s0, s) && t == Step(s, a)
    ensures Leads(s0, t)
  {
    LeadsStep(s, a);
    LeadsTrans(s0, s, t);
  }

  /** The game writes its image byte by byte. */
  lemma {:induction false} WritesLead(s0: State, s: State, u: seq<byte>, k: nat)
    requires Leads(s0, s) && s.mapped && |u| == |s.sram| && k <= |u| && s.sram[..k] == u[..k]
    ensures Leads(s0, s.(sram := u))
    decreases |u| - k
  {
    if k == |u| {
      assert s.sram == s.sram[..k] == u[..k] == u;
    } else {
      var t := s.(sram := s.sram[k := u[k]]);
      LeadsThen(s0, s, GameWrite(k, u[k]), t);
      assert t.sram[..k + 1] == s.sram[..k] + [u[k]] && u[..k + 1] == u[..k] + [u[k]];
      WritesLead(s0, t, u, k + 1);
    }
  }

  /** The game maps SRAM, stores an image and unmaps it again. */
  function AfterSession(s: State, u: seq<byte>): State {
    s.(sram := u, generation := s.generation + 1, dirty := true)
  }

  lemma SessionLeads(s0: State, s: State, u: seq<byte>)
    requires Leads(s0, s) && s.pc0 == Run && !s.mapped && !s.enabled && |u| == |s.sram|
    ensures Leads(s0, AfterSession(s, u))
  {
    var s1 := s.(mapped := true, pc0 := Publishing(false, true));
    var s2 := s.(mapped := true, enabled := true);
    LeadsThen(s0, s, MapperWrite(true), s1);
    LeadsThen(s0, s1, StepCore0, s2);
    WritesLead(s0, s2, u, 0);
    CloseSession(s0, s, s2.(sram := u), u);
  }

  lemma CloseSession(s0: State, s: State, s3: State, u: seq<byte>)
    requires Leads(s0, s3) && s3 == s.(sram := u, mapped := true, enabled := true)
    requires s.pc0 == Run && !s.mapped && !s.enabled
    ensures Leads(s0, AfterSession(s, u))
  {
    var s4 := s3.(mapped := false, pc0 := Publishing(true, false));
    var s5 := s3.(mapped := false, enabled := false, pc0 := Bumping);
    var s6 := s5.(generation := s.generation + 1, pc0 := Dirtying);
    LeadsThen(s0, s3, MapperWrite(false), s4);
    LeadsThen(s0, s4, StepCore0, s5);
    LeadsThen(s0, s5, StepCore0, s6);
    LeadsThen(s0, s6, StepCore0, AfterSession(s, u));
  }

  /** A freshly booted machine without a clock: SRAM is what `.SAV` holds. */
  function Booted(primary: F.Name, a: seq<byte>, sum: seq<byte> -> bv32): State {
    State(a, false, Run, false, 0, false, E.New(E.QUIET_PERIOD_MS), Seeding([]),
          map[primary := a], primary, false, sum, None, Clean, None)
  }

  lemma BootedIsInitial(primary: F.Name, a: seq<byte>, sum: seq<byte> -> bv32)
    requires F.TempName(primary) != primary
    ensures Initial(Booted(primary, a, sum))
  {
    assert a[..|a|] == a;
  }

  lemma {:induction false} SeedAlone(s: State)
    requires s.pc1.Seeding? && |s.pc1.read| <= |s.sram| && s.pc1.read == s.sram[..|s.pc1.read|] && !s.hasRtc
    ensures Works(s, s.(pc1 := Seeding(s.sram)))
    decreases |s.sram| - |s.pc1.read|
  {
    var read := s.pc1.read;
    if |read| == |s.sram| {
      assert read == s.sram;
      WorksSelf(s);
    } else {
      AppendOne(read, s.sram, |read|);
      var s1 := SeedNext(s);
      WorksStep(s, 0, []);
      SeedAlone(s1);
      WorksTrans(s, s1, s.(pc1 := Seeding(s.sram)));
    }
  }

  lemma SeedLeads(primary: F.Name, a: seq<byte>, sum: seq<byte> -> bv32) returns (s: State)
    ensures Leads(Booted(primary, a, sum), s)
    ensures s == Booted(primary, a, sum).(engine := E.New(E.QUIET_PERIOD_MS).(lastCrc := Some(sum(a))), pc1 := Swap)
  {
    var s0 := Booted(primary, a, sum);
    var s1 := s0.(pc1 := Seeding(a));
    assert a[..0] == [];
    SeedAlone(s0);
    WorksStep(s1, 0, []);
    s := SeedNext(s1);
    WorksTrans(s0, s1, s);
    WorksAreRuns(s0, s);
  }

  lemma WorksAreRuns(s: State, t: State)
    requires Works(s, t)
    ensures Leads(s, t)
  {
  }

  /** Two polls, the quiet period apart, turn a pending edge into a persist. */
  lemma TwoPolls(s0: State, s: State, now: nat)
    requires Leads(s0, s) && s.pc1 == Swap && s.dirty && !s.enabled && !s.hasRtc
    requires !s.engine.inFlight && s.engine.quietPeriod == E.QUIET_PERIOD_MS
    requires s.generation > s.engine.pending && s.generation > s.engine.disk
    ensures Leads(s0, s.(dirty := false, pc1 := Recheck(s.generation),
                         engine := s.engine.(pending := s.generation, lastActivity := now)))
  {
    var s1 := AfterPoll(s, now);
    PollAlone(s, now, []);
    PollAlone(s1, now + E.QUIET_PERIOD_MS, []);
    WorksLeads(s0, s, s1);
    WorksLeads(s0, s1, AfterPoll(s1, now + E.QUIET_PERIOD_MS));
    assert AfterPoll(s1, now + E.QUIET_PERIOD_MS)
      == s.(dirty := false, pc1 := Recheck(s.generation),
            engine := s.engine.(pending := s.generation, lastActivity := now));
  }

  /** A poll that is persisted, up to the verdict on its CRC. */
  lemma ToVerdict(s0: State, s: State, now: nat) returns (t: State)
    requires Leads(s0, s) && s.pc1 == Swap && s.dirty && !s.enabled && !s.hasRtc
    requires !s.engine.inFlight && s.engine.quietPeriod == E.QUIET_PERIOD_MS
    requires s.generation > s.engine.pending && s.generation > s.engine.disk
    ensures Leads(s0, t) && Undisturbed(s.(dirty := false), t) && t.card == s.card
    ensures if s.engine.lastCrc == Some(s.sum(s.sram))
            then t.pc1 == Swap && t.engine.disk == s.generation && t.recorded == Some(Record(s.generation, false))
                 && t.trust == s.trust
            else t.pc1 == Opening(s.generation, s.sum(s.sram), [], true)
                 && t.engine == s.engine.(pending := s.generation, lastActivity := now, inFlight := true)
                 && t.before == (if s.primary in s.card then Some(s.card[s.primary]) else None)
  {
    TwoPolls(s0, s, now);
    var s3 := s.(dirty := false, pc1 := Recheck(s.generation),
                 engine := s.engine.(pending := s.generation, lastActivity := now));
    var s4 := SumPhase(s3, now + E.QUIET_PERIOD_MS, []);
    WorksLeads(s0, s3, s4);
    SummedShape(s4, []);
    SummedStep(s4, now + E.QUIET_PERIOD_MS, []);
    t := SumNext(s4, [], None);
    WorksLeads(s0, s4, t);
  }

  /** Boot with `a`, a save of `b`, and the flush has its CRC. */
  lemma ToFirstFlush(primary: F.Name, a: seq<byte>, b: seq<byte>, sum: seq<byte> -> bv32) returns (s: State)
    requires sum(a) != sum(b) && |a| == |b|
    ensures Leads(Booted(primary, a, sum), s) && s.pc1 == Opening(1, sum(b), [], true)
    ensures s.sram == b && s.generation == 1 && !s.mapped && s.pc0 == Run && !s.enabled && !s.dirty
    ensures SameSetup(Booted(primary, a, sum), s) && s.card == map[primary := a] && s.before == Some(a)
    ensures s.engine == E.Engine(1, 0, 0, Some(sum(a)), true, E.QUIET_PERIOD_MS)
  {
    var s0 := Booted(primary, a, sum);
    var s1 := SeedLeads(primary, a, sum);
    SessionLeads(s0, s1, b);
    s := ToVerdict(s0, AfterSession(s1, b), 0);
  }

  // ----- a flush torn by a save session -----

  /** Boot finds the present SRAM, the image the flush was for, or the image before it. */
  ghost predicate BootsWhole(s: State, a: seq<byte>, b: seq<byte>) {
    BootsImage(s, s.card, a) || BootsImage(s, s.card, b) || BootsImage(s, s.card, s.sram)
  }

  lemma TempFiled(s0: State, s: State)
    requires Leads(s0, s) && s.pc1.Opening? && s.pc1.temp && s.pc1.tail == [] && !s.hasRtc
    ensures Leads(s0, Filed(s)) && Filed(s).card == s.card[F.TempName(s.primary) := s.sram]
  {
    assert s.sram + [] == s.sram;
    FileAlone(s, 0, []);
    WorksLeads(s0, s, Filed(s));
  }

  lemma SaveBegun(s0: State, s: State, k: nat) returns (t: State)
    requires Leads(s0, s) && s.pc1.Opening? && !s.pc1.temp && s.pc1.tail == [] && !s.hasRtc && k <= |s.sram|
    ensures Leads(s0, t) && AtWriter(t) && t.pc1 == Writing(s.pc1.g, s.pc1.crc, [], false, k)
    ensures t == s.(pc1 := t.pc1, card := t.card, trust := Broken)
    ensures t.card == s.card[s.primary := s.sram[..k]]
  {
    assert s.sram + [] == s.sram;
    OpenStep(s, 0, []);
    var s2 := Opened(s);
    WorksLeads(s0, s, s2);
    WriteAlone(s2, k, 0, []);
    t := WrittenTo(s2, k);
    WorksLeads(s0, s2, t);
    assert [] + s.sram[0..k] == s.sram[..k];
    PutTwice(s.card, s.primary, [], s.sram[..k]);
  }

  lemma PutTwice(card: F.Card, name: F.Name, x: seq<byte>, y: seq<byte>)
    ensures card[name := x][name := y] == card[name := y]
  {
  }

  /** Writing `.SAV` has reached position `k`. */
  lemma ToPosition(s0: State, s: State, k: nat) returns (t: State)
    requires Leads(s0, s) && s.pc1.Opening? && s.pc1.temp && s.pc1.tail == [] && !s.hasRtc && k <= |s.sram|
    ensures Leads(s0, t) && AtWriter(t) && t.pc1 == Writing(s.pc1.g, s.pc1.crc, [], false, k)
    ensures t == s.(pc1 := t.pc1, card := t.card, trust := Broken)
    ensures t.card == s.card[F.TempName(s.primary) := s.sram][s.primary := s.sram[..k]]
  {
    TempFiled(s0, s);
    t := SaveBegun(s0, Filed(s), k);
  }

  /** The rest of `.SAV` is written from whatever SRAM holds by then, and the file is closed. */
  lemma ToClose(s0: State, s: State) returns (t: State)
    requires Leads(s0, s) && AtWriter(s) && !s.pc1.temp && s.pc1.tail == [] && !s.hasRtc
    ensures Leads(s0, t) && t.pc1 == Ending(s.pc1.g, s.pc1.crc, true) && t == s.(pc1 := t.pc1, card := t.card)
    ensures t.card == s.card[s.primary := s.card[s.primary] + s.sram[s.pc1.at..]]
  {
    var n := |s.sram|;
    assert s.sram + [] == s.sram;
    WriteAlone(s, n, 0, []);
    var s1 := WrittenTo(s, n);
    WorksLeads(s0, s, s1);
    CloseStep(s1, 0, []);
    t := Closed(s1);
    WorksLeads(s0, s1, t);
  }

  /**
   What a session in the middle of a flush does: after boot with `a`, a save of `b` whose flush has
   written `k` bytes of `.SAV` when the game saves `c`, the closed `.SAV` holds the first `k` bytes
   of `b` and the rest of `c`, and that is what a power loss boots. It is the image before, the
   image of the flush or the present SRAM if and only if the two halves fit one of them.
   */
  lemma TornFlush(primary: F.Name, a: seq<byte>, b: seq<byte>, c: seq<byte>, k: nat, sum: seq<byte> -> bv32)
    returns (e: State)
    requires F.TempName(primary) != primary && |a| == |b| == |c| && k <= |a| && sum(a) != sum(b)
    ensures Initial(Booted(primary, a, sum)) && Leads(Booted(primary, a, sum), e)
    ensures e.pc1 == Ending(1, sum(b), true) && StartedFull(e) && e.before == Some(a)
    ensures e.sram == c && !e.mapped && e.pc0 == Run && e.generation == 2
    ensures BootsImage(e, e.card, b[..k] + c[k..])
    ensures BootsWhole(e, a, b)
       <==> c[..k] == b[..k] || c[k..] == b[k..] || (a[..k] == b[..k] && a[k..] == c[k..])
  {
    var s0 := Booted(primary, a, sum);
    BootedIsInitial(primary, a, sum);
    var s1 := ToFirstFlush(primary, a, b, sum);
    var s2 := ToPosition(s0, s1, k);
    SessionLeads(s0, s2, c);
    var s3 := AfterSession(s2, c);
    e := ToClose(s0, s3);
    var torn := b[..k] + c[k..];
    assert e.card[primary] == torn && torn[..|torn|] == torn;
    Halves(torn, a, k);
    Halves(torn, b, k);
    Halves(torn, c, k);
  }

  lemma Halves(torn: seq<byte>, x: seq<byte>, k: nat)
    requires |torn| == |x| && k <= |x|
    ensures torn == x <==> torn[..k] == x[..k] && torn[k..] == x[k..]
  {
    assert torn == torn[..k] + torn[k..] && x == x[..k] + x[k..];
  }

  /** Two bytes of SRAM and four values are enough for an image that never was. */
  lemma TornFlushExample(primary: F.Name, a: byte, b: byte, c: byte, d: byte) returns (e: State)
    requires F.TempName(primary) != primary && a != b && b != c && a != d
    ensures Initial(Booted(primary, [a, a], C.ImageCrc)) && Leads(Booted(primary, [a, a], C.ImageCrc), e)
    ensures e.sram == [c, d] && BootsImage(e, e.card, [b, d]) && !BootsWhole(e, [a, a], [b, a])
  {
    FirstByteCounts(a, b);
    ExampleHalves(a, b, c, d);
    e := TornFlush(primary, [a, a], [b, a], [c, d], 1, C.ImageCrc);
  }

  lemma FirstByteCounts(a: byte, b: byte)
    requires a != b
    ensures C.ImageCrc([a, a]) != C.ImageCrc([b, a])
  {
    assert [a, a][0] != [b, a][0];
    C.BurstChangesImageCrc([a, a], [b, a], 0);
  }

  lemma ExampleHalves(a: byte, b: byte, c: byte, d: byte)
    requires a != b && b != c && a != d
    ensures [c, d][..1] != [b, a][..1] && [c, d][1..] != [b, a][1..] && [a, a][..1] != [b, a][..1]
    ensures [b, a][..1] + [c, d][1..] == [b, d]
  {
    assert [c, d][..1][0] == c && [b, a][..1][0] == b && [a, a][..1][0] == a;
    assert [c, d][1..][0] == d && [b, a][1..][0] == a;
  }

  // ----- a skip after an overlapped flush -----

  lemma RestoresFull(s: State, x: seq<byte>)
    requires !s.hasRtc && s.primary in s.card && s.card[s.primary] == x && |x| == |s.sram|
    ensures BootsImage(s, s.card, x)
  {
    assert x[..|x|] == x;
  }

  /** The game saves `c` while the flush for `b` is under way; the file gets `c`, the engine `b`. */
  lemma OverlappedFlush(primary: F.Name, a: seq<byte>, b: seq<byte>, c: seq<byte>, sum: seq<byte> -> bv32)
    returns (s: State)
    requires F.TempName(primary) != primary && |a| == |b| == |c| && sum(a) != sum(b)
    ensures Leads(Booted(primary, a, sum), s)
    ensures s.sram == c && s.generation == 2 && s.dirty && !s.mapped && s.pc0 == Run && !s.enabled && s.pc1 == Swap
    ensures primary in s.card && s.card[primary] == c && SameSetup(Booted(primary, a, sum), s)
    ensures s.engine == E.Engine(1, 1, 0, Some(sum(b)), false, E.QUIET_PERIOD_MS)
  {
    var s0 := Booted(primary, a, sum);
    var s1 := ToFirstFlush(primary, a, b, sum);
    SessionLeads(s0, s1, c);
    var s2 := AfterSession(s1, c);
    assert c + [] == c;
    s := FlushAlone(s2, 500, []);
    WorksLeads(s0, s2, s);
  }

  /**
   One limit of the CRC skip: after boot with `a`, a save of `b` whose flush is overlapped by a save
   of `c`, and a save of `b` again, everything is at rest and on record, the SRAM holds `b` and the
   next boot restores `c`. A loss up to coincidence: none if and only if the two are equal.
   */
  lemma SkipAfterOverlapLosesData(
    primary: F.Name, a: seq<byte>, b: seq<byte>, c: seq<byte>, sum: seq<byte> -> bv32) returns (e: State)
    requires F.TempName(primary) != primary && |a| == |b| == |c| && sum(a) != sum(b)
    ensures Initial(Booted(primary, a, sum)) && Leads(Booted(primary, a, sum), e)
    ensures AtRest(e) && e.recorded == Some(Record(3, false)) && e.pc1 == Swap && !e.dirty && e.sram == b
    ensures BootsImage(e, e.card, c)
    ensures BootsImage(e, e.card, e.sram) <==> b == c
  {
    var s0 := Booted(primary, a, sum);
    BootedIsInitial(primary, a, sum);
    var s1 := OverlappedFlush(primary, a, b, c, sum);
    SessionLeads(s0, s1, b);
    e := ToVerdict(s0, AfterSession(s1, b), 1000);
    RestoresFull(e, c);
  }

  // ----- a skip after a failed flush -----

  /** The flush has written `.TMP` and `k` bytes of `.SAV` when the card fails and keeps some of them. */
  lemma FailedFlush(
    primary: F.Name, a: seq<byte>, b: seq<byte>, k: nat, kept: nat, sum: seq<byte> -> bv32) returns (s: State)
    requires F.TempName(primary) != primary && |a| == |b| && k <= |b| && sum(a) != sum(b)
    ensures Leads(Booted(primary, a, sum), s)
    ensures s.sram == b && s.generation == 1 && s.dirty && !s.mapped && s.pc0 == Run && !s.enabled && s.pc1 == Swap
    ensures s.card == map[primary := b[..Min(kept, k)], F.TempName(primary) := b]
    ensures SameSetup(Booted(primary, a, sum), s) && s.trust == Broken
    ensures s.engine == E.Engine(1, 0, 0, Some(sum(a)), false, E.QUIET_PERIOD_MS)
  {
    var s0 := Booted(primary, a, sum);
    var s1 := ToFirstFlush(primary, a, b, sum);
    var s2 := ToPosition(s0, s1, k);
    assert b[..k][..Min(kept, k)] == b[..Min(kept, k)];
    s := FailsAndRetries(s0, s2, kept);
  }

  /** A failed write is reported, and the worker raises the dirty flag again. */
  lemma FailsAndRetries(s0: State, s2: State, kept: nat) returns (s: State)
    requires Leads(s0, s2) && s2.pc1.Writing? && !s2.mapped && Still(s2, s2.pc1.g) && !s2.hasRtc
    ensures Leads(s0, s)
    ensures s == s2.(card := Cut(s2, kept), engine := E.Failed(s2.engine), pc1 := Swap, dirty := true)
  {
    var fail := StepCore1(0, [], Some(kept));
    var s3 := s2.(card := Cut(s2, kept), pc1 := Ending(s2.pc1.g, s2.pc1.crc, false));
    LeadsThen(s0, s2, fail, s3);
    var s4 := s3.(engine := E.Failed(s3.engine), pc1 := Redirty);
    LeadsThen(s0, s3, fail, s4);
    s := s4.(dirty := true, pc1 := Swap);
    LeadsThen(s0, s4, fail, s);
  }

  /** With a full `b` in `.TMP` and the beginning of `b` in `.SAV`, boot takes `b`. */
  lemma EitherFileHolds(s: State, b: seq<byte>, n: nat)
    requires !s.hasRtc && |s.sram| == |b| && n <= |b| && F.TempName(s.primary) != s.primary
    requires s.card == map[s.primary := b[..n], F.TempName(s.primary) := b]
    ensures BootsImage(s, s.card, b)
  {
    assert b[..|b|] == b;
    if n == |b| { assert b[..n] == b; }
  }

  /**
   The other limit, without any overlap: after boot with `a`, a save of `b` whose flush fails at any
   byte of `.SAV`, whatever the card keeps of it, and a save of `a` again, the skip trusts a file that
   is gone. Boot restores `b`, for every content.
   */
  lemma SkipAfterFailedFlushLosesData(
    primary: F.Name, a: seq<byte>, b: seq<byte>, k: nat, kept: nat, sum: seq<byte> -> bv32) returns (e: State)
    requires F.TempName(primary) != primary && |a| == |b| && k <= |b| && sum(a) != sum(b)
    ensures Initial(Booted(primary, a, sum)) && Leads(Booted(primary, a, sum), e)
    ensures AtRest(e) && e.recorded == Some(Record(2, false)) && e.pc1 == Swap && !e.dirty && e.sram == a
    ensures e.trust == Broken && BootsImage(e, e.card, b) && a != b
  {
    var s0 := Booted(primary, a, sum);
    BootedIsInitial(primary, a, sum);
    var s1 := FailedFlush(primary, a, b, k, kept, sum);
    SessionLeads(s0, s1, a);
    e := ToVerdict(s0, AfterSession(s1, a), 1000);
    EitherFileHolds(e, b, Min(kept, k));
  }

  // ----- what a skip after a clean write is worth with the real checksum -----

  /**
   With the real checksum, a skip after a clean write restores this very SRAM unless the image on
   disk differs from it in places more than four bytes apart.
   */
  lemma CleanSkipRestoresWithinBurst(s: State, acts: seq<Act>, at: nat)
    requires Initial(s) && s.sum == C.ImageCrc
    requires var e := Exec(s, acts); AtRest(e) && e.recorded.Some? && !e.recorded.value.byWrite && e.trust == Clean
    ensures var e := Exec(s, acts);
      && BootsSameCrc(e, e.card)
      && var image := Boot(e, e.card).value.value.sram;
      && |image| == |e.sram|
      && ((forall i :: 0 <= i < |image| && image[i] != e.sram[i] ==> at <= i < at + 4) ==> image == e.sram)
  {
    InitialInv(s);
    ExecInv(s, acts);
    CleanSkipRestoresSameCrc(s, acts);
    var e := Exec(s, acts);
    assert e.sum == C.ImageCrc;
    var image := Boot(e, e.card).value.value.sram;
    if image != e.sram && forall i :: 0 <= i < |image| && image[i] != e.sram[i] ==> at <= i < at + 4 {
      C.BurstChangesImageCrc(image, e.sram, at);
    }
  }
}
