/** Runs of the save protocol in which the worker is left alone: it catches up from anywhere. */
module SaveRuns {
  import opened Bytes
  import E = SaveEngine
  import F = SaveFile
  import Runs
  import opened SaveProtocol

  ghost predicate Leads(s: State, s': State) {
    exists acts :: Exec(s, acts) == s'
  }

  /** Only core 1 moves, and nothing fails. */
  ghost predicate Smooth(acts: seq<Act>) {
    forall a :: a in acts ==> a.StepCore1? && a.fault.None?
  }

  ghost predicate Works(s: State, s': State) {
    exists acts :: Smooth(acts) && Exec(s, acts) == s'
  }

  lemma LeadsTrans(s: State, t: State, u: State)
    requires Leads(s, t) && Leads(t, u)
    ensures Leads(s, u)
  {
    var a :| Exec(s, a) == t;
    var b :| Exec(t, b) == u;
    Runs.Concat(Step, s, a, b);
    assert Exec(s, a + b) == u;
  }

  lemma WorksTrans(s: State, t: State, u: State)
    requires Works(s, t) && Works(t, u)
    ensures Works(s, u)
  {
    var a :| Smooth(a) && Exec(s, a) == t;
    var b :| Smooth(b) && Exec(t, b) == u;
    Runs.Concat(Step, s, a, b);
    assert Smooth(a + b);
  }

  lemma LeadsStep(s: State, a: Act)
    ensures Leads(s, Step(s, a))
  {
    Runs.One(Step, s, a);
    assert Exec(s, [a]) == Step(s, a);
  }

  lemma WorksStep(s: State, now: nat, tail: seq<byte>)
    requires RightTail(s, tail)
    ensures Works(s, Core1Next(s, now, tail, None))
  {
    var a := StepCore1(now, tail, None);
    assert Smooth([a]);
    assert Exec(s, [a]) == Exec(Step(s, a), [a][1..]) == Step(s, a);
  }

  lemma WorksSelf(s: State)
    ensures Works(s, s)
  {
    assert Smooth([]) && Exec(s, []) == s;
  }

  // ----- one iteration, up to the decision -----

  /** The state after swapping, loading twice and polling without interference. */
  function AfterPoll(s: State, now: nat): State {
    var e := E.Polled(s.engine, s.dirty, s.generation, now);
    s.(dirty := false, engine := e,
       pc1 := match E.Decide(e, !s.enabled, now) case Persist(g) => Recheck(g) case _ => Swap)
  }

  lemma PollAlone(s: State, now: nat, tail: seq<byte>)
    requires s.pc1 == Swap && RightTail(s, tail)
    ensures Works(s, AfterPoll(s, now))
  {
    var s1 := Core1Next(s, now, tail, None);
    var s2 := Core1Next(s1, now, tail, None);
    var s3 := Core1Next(s2, now, tail, None);
    assert s3 == s.(dirty := false, pc1 := Poll(now, s.dirty, s.generation, !s.enabled));
    assert Core1Next(s3, now, tail, None) == AfterPoll(s, now);
    WorksStep(s, now, tail);
    WorksStep(s1, now, tail);
    WorksStep(s2, now, tail);
    WorksStep(s3, now, tail);
    WorksTrans(s, s1, s2);
    WorksTrans(s, s2, s3);
    WorksTrans(s, s3, AfterPoll(s, now));
  }

  // ----- one flush -----

  lemma {:induction false} SumAlone(s: State, now: nat, tail: seq<byte>)
    requires s.pc1.Summing? && RightTail(s, tail)
    requires |s.pc1.read| <= |s.sram| && s.pc1.read == s.sram[..|s.pc1.read|]
    ensures Works(s, s.(pc1 := Summing(s.pc1.g, s.sram)))
    decreases |s.sram| - |s.pc1.read|
  {
    var read := s.pc1.read;
    if |read| == |s.sram| {
      assert read == s.sram;
      WorksSelf(s);
    } else {
      AppendOne(read, s.sram, |read|);
      var s1 := Core1Next(s, now, tail, None);
      WorksStep(s, now, tail);
      SumAlone(s1, now, tail);
      assert s1.(pc1 := Summing(s1.pc1.g, s1.sram)) == s.(pc1 := Summing(s.pc1.g, s.sram));
      WorksTrans(s, s1, s.(pc1 := Summing(s.pc1.g, s.sram)));
    }
  }

  /** The same state with the card replaced and the writer at position `at`. */
  function WriterAt(s: State, card: F.Card, at: nat): State
    requires s.pc1.Writing?
  {
    s.(card := card, pc1 := s.pc1.(at := at))
  }

  predicate AtWriter(s: State) {
    && s.pc1.Writing? && s.pc1.at <= |Full(s, s.pc1.tail)| && FileOf(s, s.pc1.temp) in s.card
    && |s.pc1.tail| == (if s.hasRtc then F.RTC_TAIL_LEN else 0)
  }

  /** The next byte of SRAM and tail is appended, whatever the file holds. */
  function OneMore(s: State): State
    requires AtWriter(s) && s.pc1.at < |Full(s, s.pc1.tail)|
  {
    WriterAt(s, Append(s.card, FileOf(s, s.pc1.temp), Full(s, s.pc1.tail)[s.pc1.at]), s.pc1.at + 1)
  }

  lemma WriteStep(s: State, now: nat, tail: seq<byte>)
    requires AtWriter(s) && s.pc1.at < |Full(s, s.pc1.tail)| && RightTail(s, tail)
    ensures Works(s, OneMore(s)) && AtWriter(OneMore(s))
  {
    WorksStep(s, now, tail);
  }

  /** The file once the bytes up to position `to` have been appended. */
  function WrittenTo(s: State, to: nat): State
    requires AtWriter(s) && s.pc1.at <= to <= |Full(s, s.pc1.tail)|
  {
    var file := FileOf(s, s.pc1.temp);
    WriterAt(s, s.card[file := s.card[file] + Full(s, s.pc1.tail)[s.pc1.at..to]], to)
  }

  lemma WrittenAgain(s: State, to: nat)
    requires AtWriter(s) && s.pc1.at < to <= |Full(s, s.pc1.tail)|
    ensures AtWriter(OneMore(s)) && Full(OneMore(s), s.pc1.tail) == Full(s, s.pc1.tail)
    ensures WrittenTo(OneMore(s), to) == WrittenTo(s, to)
  {
    var full, at := Full(s, s.pc1.tail), s.pc1.at;
    AppendThen(s.card, FileOf(s, s.pc1.temp), full[at], full[at + 1..to]);
    assert [full[at]] + full[at + 1..to] == full[at..to];
  }

  lemma AppendThen(card: F.Card, file: F.Name, b: byte, rest: seq<byte>)
    requires file in card
    ensures var card' := Append(card, file, b);
      card'[file := card'[file] + rest] == card[file := card[file] + ([b] + rest)]
  {
    assert card[file] + [b] + rest == card[file] + ([b] + rest);
  }

  lemma {:induction false} WriteAlone(s: State, to: nat, now: nat, tail: seq<byte>)
    requires AtWriter(s) && s.pc1.at <= to <= |Full(s, s.pc1.tail)| && RightTail(s, tail)
    ensures Works(s, WrittenTo(s, to))
    decreases |Full(s, s.pc1.tail)| - s.pc1.at
  {
    if s.pc1.at == to {
      var file := FileOf(s, s.pc1.temp);
      assert s.card[file] + [] == s.card[file] && s.card[file := s.card[file]] == s.card;
      assert WrittenTo(s, to) == s;
      WorksSelf(s);
    } else {
      WriteStep(s, now, tail);
      WrittenAgain(s, to);
      WriteAlone(OneMore(s), to, now, tail);
      WorksTrans(s, OneMore(s), WrittenTo(s, to));
    }
  }

  /** The state once the file being opened is written and closed. */
  function Filed(s: State): State
    requires s.pc1.Opening?
  {
    s.(card := s.card[FileOf(s, s.pc1.temp) := Full(s, s.pc1.tail)], trust := if s.pc1.temp then s.trust else Broken,
       pc1 := if s.pc1.temp then Opening(s.pc1.g, s.pc1.crc, s.pc1.tail, false)
              else Ending(s.pc1.g, s.pc1.crc, true))
  }

  function Opened(s: State): State
    requires s.pc1.Opening?
  {
    s.(card := s.card[FileOf(s, s.pc1.temp) := []], trust := if s.pc1.temp then s.trust else Broken,
       pc1 := Writing(s.pc1.g, s.pc1.crc, s.pc1.tail, s.pc1.temp, 0))
  }

  lemma OpenStep(s: State, now: nat, tail: seq<byte>)
    requires s.pc1.Opening? && RightTail(s, s.pc1.tail) && RightTail(s, tail)
    ensures Works(s, Opened(s)) && AtWriter(Opened(s))
  {
    WorksStep(s, now, tail);
  }

  function Closed(s: State): State
    requires s.pc1.Writing?
  {
    s.(pc1 := if s.pc1.temp then Opening(s.pc1.g, s.pc1.crc, s.pc1.tail, false)
              else Ending(s.pc1.g, s.pc1.crc, true))
  }

  lemma CloseStep(s: State, now: nat, tail: seq<byte>)
    requires s.pc1.Writing? && s.pc1.at == |Full(s, s.pc1.tail)| && RightTail(s, tail)
    ensures Works(s, Closed(s))
  {
    WorksStep(s, now, tail);
  }

  lemma FiledIs(s: State)
    requires s.pc1.Opening? && RightTail(s, s.pc1.tail)
    ensures AtWriter(Opened(s)) && Closed(WrittenTo(Opened(s), |Full(s, s.pc1.tail)|)) == Filed(s)
  {
    var name, full := FileOf(s, s.pc1.temp), Full(s, s.pc1.tail);
    assert [] + full[0..|full|] == full;
    assert s.card[name := []][name := full] == s.card[name := full];
  }

  lemma FileAlone(s: State, now: nat, tail: seq<byte>)
    requires s.pc1.Opening? && RightTail(s, s.pc1.tail) && RightTail(s, tail)
    ensures Works(s, Filed(s))
  {
    var n := |Full(s, s.pc1.tail)|;
    OpenStep(s, now, tail);
    WriteAlone(Opened(s), n, now, tail);
    CloseStep(WrittenTo(Opened(s), n), now, tail);
    FiledIs(s);
    WorksTrans(s, Opened(s), WrittenTo(Opened(s), n));
    WorksTrans(s, WrittenTo(Opened(s), n), Filed(s));
  }

  /** What catching up leaves alone. */
  ghost predicate Undisturbed(s: State, s': State) {
    && s'.sram == s.sram && s'.generation == s.generation && s'.mapped == s.mapped
    && s'.pc0 == s.pc0 && s'.enabled == s.enabled && s'.dirty == s.dirty
    && s'.primary == s.primary && s'.hasRtc == s.hasRtc && s'.sum == s.sum
  }

  lemma EndStep(s: State, now: nat, tail: seq<byte>)
    requires s.pc1.Ending? && s.pc1.ok && !s.enabled
    ensures var s' := Core1Next(s, now, tail, None);
      && s'.pc1 == Swap && s'.recorded == Some(Record(s.pc1.g, true)) && Undisturbed(s, s')
      && s'.engine == E.Succeeded(s.engine, s.pc1.g, s.pc1.crc) && s'.card == s.card
  {
  }

  /** Both files, then the verdict. */
  lemma FlushAlone(s: State, now: nat, tail: seq<byte>) returns (s': State)
    requires s.pc1.Opening? && s.pc1.temp && !s.enabled && RightTail(s, tail) && RightTail(s, s.pc1.tail)
    ensures Works(s, s') && s'.pc1 == Swap && s'.recorded == Some(Record(s.pc1.g, true)) && Undisturbed(s, s')
    ensures s'.engine == E.Succeeded(s.engine, s.pc1.g, s.pc1.crc)
    ensures s'.card == Filed(Filed(s)).card
  {
    var s1 := Filed(s);
    var s2 := Filed(s1);
    FileAlone(s, now, tail);
    FileAlone(s1, now, tail);
    WorksTrans(s, s1, s2);
    EndStep(s2, now, tail);
    s' := Core1Next(s2, now, tail, None);
    WorksStep(s2, now, tail);
    WorksTrans(s, s2, s');
  }

  /** With the image summed, the CRC decides between a skip and a flush. */
  ghost predicate Judged(s: State, s': State, tail: seq<byte>)
    requires s.pc1.Summing?
  {
    var crc := s.sum(s.sram);
    && Undisturbed(s, s')
    && if s.engine.lastCrc == Some(crc)
       then s'.pc1 == Swap && s'.engine.disk == s.pc1.g && s'.recorded == Some(Record(s.pc1.g, false))
         && s'.card == s.card
       else s'.pc1 == Opening(s.pc1.g, crc, tail, true) && s'.engine == E.Begun(s.engine)
  }

  lemma SummedShape(s: State, tail: seq<byte>)
    requires s.pc1.Summing? && s.pc1.read == s.sram && s.pc1.g > s.engine.disk
    ensures Judged(s, SumNext(s, tail, None), tail)
  {
  }

  lemma SummedStep(s: State, now: nat, tail: seq<byte>)
    requires s.pc1.Summing? && RightTail(s, tail)
    ensures Works(s, SumNext(s, tail, None))
  {
    WorksStep(s, now, tail);
  }

  lemma SumPhase(s: State, now: nat, tail: seq<byte>) returns (s': State)
    requires s.pc1.Recheck? && !s.enabled && RightTail(s, tail)
    ensures Works(s, s') && s' == s.(pc1 := Summing(s.pc1.g, s.sram))
  {
    var s1 := s.(pc1 := Summing(s.pc1.g, []));
    assert s1 == Core1Next(s, now, tail, None);
    WorksStep(s, now, tail);
    assert s.sram[..0] == [];
    SumAlone(s1, now, tail);
    s' := s.(pc1 := Summing(s.pc1.g, s.sram));
    assert s' == s1.(pc1 := Summing(s1.pc1.g, s1.sram));
    WorksTrans(s, s1, s');
  }

  /** From the decision to the record. */
  lemma PersistAlone(s: State, now: nat, tail: seq<byte>) returns (s': State)
    requires s.pc1.Recheck? && !s.enabled && RightTail(s, tail) && s.pc1.g > s.engine.disk
    ensures Works(s, s') && s'.pc1 == Swap && s'.engine.disk == s.pc1.g && Undisturbed(s, s')
    ensures s'.recorded == Some(Record(s.pc1.g, s.engine.lastCrc != Some(s.sum(s.sram))))
  {
    var s2 := SumPhase(s, now, tail);
    SummedShape(s2, tail);
    SummedStep(s2, now, tail);
    var s3 := SumNext(s2, tail, None);
    WorksTrans(s, s2, s3);
    if s.engine.lastCrc == Some(s.sum(s.sram)) {
      s' := s3;
    } else {
      s' := FlushAlone(s3, now, tail);
      WorksTrans(s, s3, s');
    }
  }

  // ----- from anywhere to the head of the loop -----

  /** The length of a full file. */
  function All(s: State): nat { F.ExpectedLen(|s.sram|, s.hasRtc) }

  /** How many steps an undisturbed worker has at most before it is at the head of the loop. */
  function Rank(pc1: Core1, n: nat, all: nat): int {
    match pc1
    case Swap => 0
    case Redirty => 1
    case Ending(_, _, _) => 2
    case Writing(_, _, _, temp, at) => 3 + all - at + if temp then 2 + all else 0
    case Opening(_, _, _, temp) => 4 + all + if temp then 2 + all else 0
    case Summing(_, read) => 7 + 2 * all + n - |read|
    case Recheck(_) => 8 + 2 * all + n
    case Poll(_, _, _, _) => 9 + 2 * all + n
    case LoadEnabled(_, _, _) => 10 + 2 * all + n
    case LoadGeneration(_, _) => 11 + 2 * all + n
    case Seeding(read) => 1 + n - |read|
  }

  /** The game is out of SRAM and core 0 is idle. */
  predicate Quiet(s: State) { !s.mapped && s.pc0 == Run }

  /** The positions of the worker are in range. */
  predicate InRange(pc1: Core1, n: nat, all: nat) {
    match pc1
    case Writing(_, _, tail, _, at) => n + |tail| == all && at <= all
    case Opening(_, _, tail, _) => n + |tail| == all
    case Summing(_, read) => |read| <= n
    case Seeding(read) => |read| <= n
    case _ => true
  }

  lemma FlushInRange(s: State)
    requires FlushInv(s)
    ensures InRange(s.pc1, |s.sram|, All(s)) && Rank(s.pc1, |s.sram|, All(s)) >= 0
  {
  }

  lemma WriteRankFalls(s: State)
    requires s.pc1.Writing? && InRange(s.pc1, |s.sram|, All(s))
    ensures Rank(WriteNext(s, None).pc1, |s.sram|, All(s)) < Rank(s.pc1, |s.sram|, All(s))
  {
    var pc1 := WriteNext(s, None).pc1;
    assert pc1 == if s.pc1.at < All(s) then s.pc1.(at := s.pc1.at + 1)
                  else if s.pc1.temp then Opening(s.pc1.g, s.pc1.crc, s.pc1.tail, false)
                  else Ending(s.pc1.g, s.pc1.crc, true);
  }

  lemma SumRankFalls(s: State, tail: seq<byte>)
    requires s.pc1.Summing? && |s.pc1.read| <= |s.sram|
    ensures Rank(SumNext(s, tail, None).pc1, |s.sram|, All(s)) < Rank(s.pc1, |s.sram|, All(s))
  {
    var pc1 := SumNext(s, tail, None).pc1;
    assert pc1.Opening? || pc1.Swap? || (pc1.Summing? && |pc1.read| == |s.pc1.read| + 1);
  }

  lemma PollRankFalls(s: State)
    requires s.pc1.Poll?
    ensures Rank(PollNext(s).pc1, |s.sram|, All(s)) < Rank(s.pc1, |s.sram|, All(s))
  {
  }

  lemma SeedRankFalls(s: State)
    requires s.pc1.Seeding? && |s.pc1.read| <= |s.sram|
    ensures Rank(SeedNext(s).pc1, |s.sram|, All(s)) < Rank(s.pc1, |s.sram|, All(s))
  {
    var pc1 := SeedNext(s).pc1;
    assert pc1.Swap? || (pc1.Seeding? && |pc1.read| == |s.pc1.read| + 1);
  }

  lemma OpenedRank(pc1: Core1, n: nat, all: nat)
    requires pc1.Opening?
    ensures Rank(Writing(pc1.g, pc1.crc, pc1.tail, pc1.temp, 0), n, all) < Rank(pc1, n, all)
  {
  }

  lemma OpenRankFalls(s: State)
    requires s.pc1.Opening?
    ensures Rank(OpenNext(s, None).pc1, |s.sram|, All(s)) < Rank(s.pc1, |s.sram|, All(s))
  {
    OpenedRank(s.pc1, |s.sram|, All(s));
  }

  lemma EndRankFalls(s: State)
    requires s.pc1.Ending?
    ensures Rank(EndNext(s).pc1, |s.sram|, All(s)) < Rank(s.pc1, |s.sram|, All(s))
  {
  }

  lemma OtherRankFalls(s: State, now: nat, tail: seq<byte>)
    requires InRange(s.pc1, |s.sram|, All(s)) && s.pc1 != Swap
    requires !s.pc1.Writing? && !s.pc1.Summing? && !s.pc1.Poll? && !s.pc1.Seeding? && !s.pc1.Opening? && !s.pc1.Ending?
    ensures Rank(Core1Next(s, now, tail, None).pc1, |s.sram|, All(s)) < Rank(s.pc1, |s.sram|, All(s))
  {
  }

  lemma RankFalls(s: State, now: nat, tail: seq<byte>)
    requires InRange(s.pc1, |s.sram|, All(s)) && s.pc1 != Swap
    ensures Rank(Core1Next(s, now, tail, None).pc1, |s.sram|, All(s)) < Rank(s.pc1, |s.sram|, All(s))
  {
    if s.pc1.Writing? { WriteRankFalls(s); }
    else if s.pc1.Summing? { SumRankFalls(s, tail); }
    else if s.pc1.Poll? { PollRankFalls(s); }
    else if s.pc1.Seeding? { SeedRankFalls(s); }
    else if s.pc1.Opening? { OpenRankFalls(s); }
    else if s.pc1.Ending? { EndRankFalls(s); }
    else { OtherRankFalls(s, now, tail); }
  }

  lemma {:induction false} ReachesHead(s: State, tail: seq<byte>) returns (t: State)
    requires Inv(s) && Quiet(s) && RightTail(s, tail)
    ensures Inv(t) && Quiet(t) && RightTail(t, tail) && Works(s, t) && t.pc1 == Swap
    ensures t.sram == s.sram && t.generation == s.generation
    decreases Rank(s.pc1, |s.sram|, All(s))
  {
    FlushInRange(s);
    if s.pc1 == Swap {
      WorksSelf(s);
      t := s;
    } else {
      var s1 := Core1Next(s, 0, tail, None);
      RankFalls(s, 0, tail);
      Core1Inv(s, 0, tail, None);
      FlushInRange(s1);
      WorksStep(s, 0, tail);
      t := ReachesHead(s1, tail);
      WorksTrans(s, s1, t);
    }
  }

  /**
   The worker always catches up. From every reachable state, wherever the worker is and whatever
   overlapped its flush, once the game is out of SRAM and core 0 is idle it only takes the worker
   running undisturbed and without an error to put the newest generation on record, with SRAM
   untouched.
   */
  lemma WorkerCatchesUp(start: State, acts: seq<Act>, tail: seq<byte>) returns (s': State)
    requires Initial(start)
    requires Quiet(Exec(start, acts)) && RightTail(Exec(start, acts), tail)
    ensures var s := Exec(start, acts);
      && Works(s, s') && s'.sram == s.sram && s'.generation == s.generation && Quiet(s')
      && s'.engine.disk == s'.generation && s'.pc1 == Swap
  {
    InitialInv(start);
    ExecInv(start, acts);
    var s := Exec(start, acts);
    var t := ReachesHead(s, tail);
    s' := CatchesUp(t, t.engine.lastActivity + E.QUIET_PERIOD_MS, tail);
    WorksTrans(s, t, s');
  }

  /** One poll takes in the dirty flag, one more after the quiet period decides to persist. */
  lemma PollsDecide(s: State, now: nat)
    requires Inv(s) && s.pc1 == Swap && s.pc0 == Run && !s.mapped
    requires now >= s.engine.lastActivity + E.QUIET_PERIOD_MS
    ensures var t := if s.dirty then AfterPoll(AfterPoll(s, now), now + E.QUIET_PERIOD_MS) else AfterPoll(s, now);
      && Undisturbed(s.(dirty := false), t) && t.engine.disk == s.engine.disk
      && t.pc1 == if s.engine.disk < s.generation then Recheck(s.generation) else Swap
    ensures s.dirty ==> AfterPoll(s, now).pc1 == Swap
  {
  }

  lemma CatchesUp(s: State, now: nat, tail: seq<byte>) returns (s': State)
    requires Inv(s) && s.pc1 == Swap && s.pc0 == Run && !s.mapped && RightTail(s, tail)
    requires now >= s.engine.lastActivity + E.QUIET_PERIOD_MS
    ensures Works(s, s') && s'.sram == s.sram && s'.generation == s.generation && !s'.mapped && s'.pc0 == Run
    ensures s'.engine.disk == s'.generation && s'.pc1 == Swap
  {
    PollsDecide(s, now);
    PollAlone(s, now, tail);
    var s1 := AfterPoll(s, now);
    if s.dirty {
      PollAlone(s1, now + E.QUIET_PERIOD_MS, tail);
      var s2 := AfterPoll(s1, now + E.QUIET_PERIOD_MS);
      WorksTrans(s, s1, s2);
      s' := FinishIteration(s, s2, now + E.QUIET_PERIOD_MS, tail);
    } else {
      s' := FinishIteration(s, s1, now, tail);
    }
  }

  lemma FinishIteration(s: State, t: State, now: nat, tail: seq<byte>) returns (s': State)
    requires Works(s, t) && t.sram == s.sram && t.generation == s.generation && !t.mapped && t.pc0 == Run
    requires !t.enabled && RightTail(t, tail)
    requires t.engine.disk <= t.generation
    requires if t.engine.disk < t.generation then t.pc1 == Recheck(t.generation) else t.pc1 == Swap
    ensures Works(s, s') && s'.sram == s.sram && s'.generation == s.generation && !s'.mapped && s'.pc0 == Run
    ensures s'.engine.disk == s'.generation && s'.pc1 == Swap
  {
    if t.engine.disk < t.generation {
      s' := PersistAlone(t, now, tail);
      WorksTrans(s, t, s');
    } else {
      s' := t;
    }
  }
}
