/**
 Sends do succeed: from every reachable state in which cartridge and client are at rest, every
 command the client may start has a run in which it is answered and delivered.
 */
module CrystalRuns {
  import opened Bytes
  import L = SeedLink
  import W = SeqLock
  import opened CrystalProtocol

  /** Everything but the worker's own steps. */
  predicate IsBus(a: Act) { !a.ATake? && !a.AFinish? }

  predicate AllBus(acts: seq<Act>) { forall a :: a in acts ==> IsBus(a) }

  /** Client and core 0 alone get from one state to the other. */
  ghost predicate Leads(s: State, t: State)
    requires Inv(s)
  {
    exists acts :: Goes(s, acts, t)
  }

  ghost predicate Goes(s: State, acts: seq<Act>, t: State)
    requires Inv(s)
  {
    AllBus(acts) && Exec(s, acts) == t
  }

  lemma {:induction false} ExecConcat(s: State, a: seq<Act>, b: seq<Act>)
    requires Inv(s)
    ensures Exec(s, a + b) == Exec(Exec(s, a), b)
    decreases |a|
  {
    if a == [] {
      assert a + b == b;
    } else {
      StepInv(s, a[0]);
      assert (a + b)[0] == a[0] && (a + b)[1..] == a[1..] + b;
      ExecConcat(Step(s, a[0]), a[1..], b);
    }
  }

  lemma LeadsTrans(s: State, t: State, u: State)
    requires Inv(s) && Inv(t) && Leads(s, t) && Leads(t, u)
    ensures Leads(s, u)
  {
    var a :| Goes(s, a, t);
    var b :| Goes(t, b, u);
    ExecConcat(s, a, b);
    assert Goes(s, a + b, u);
  }

  lemma LeadsSelf(s: State)
    requires Inv(s)
    ensures Leads(s, s)
  {
    assert Goes(s, [], s);
  }

  lemma ExecOne(s: State, acts: seq<Act>)
    requires Inv(s) && |acts| == 1
    ensures Inv(Step(s, acts[0])) && Exec(s, acts) == Step(s, acts[0])
  {
    StepInv(s, acts[0]);
    assert acts[1..] == [];
  }

  lemma LeadsStep(s: State, a: Act)
    requires Inv(s) && IsBus(a)
    ensures Inv(Step(s, a)) && Leads(s, Step(s, a))
  {
    ExecOne(s, [a]);
    assert Goes(s, [a], Step(s, a));
  }

  lemma LeadsThen(s: State, t: State, a: Act, u: State)
    requires Inv(s) && Inv(t) && Leads(s, t) && IsBus(a) && Enabled(t, a) && u == Step(t, a)
    ensures Inv(u) && Leads(s, u)
  {
    LeadsStep(t, a);
    LeadsTrans(s, t, u);
  }

  // ----- one page -----

  /** The publication in progress runs to its end. */
  function Flushed(p: W.Port): W.Port
    requires |p.pubs| > 0
  {
    p.(win := p.pubs[|p.pubs| - 1], writer := W.Quiet)
  }

  lemma StoreFlushes(p: W.Port)
    requires W.PortInv(p) && p.writer.Storing?
    ensures W.PortInv(W.Store(p)) && Flushed(W.Store(p)) == Flushed(p)
    ensures p.writer.next == W.WINDOW ==> W.Store(p) == Flushed(p)
    ensures p.writer.next < W.WINDOW ==> W.Store(p).writer == W.Storing(p.writer.next + 1)
  {
    W.StoreInv(p);
  }

  lemma OneStore(s: State)
    requires Inv(s) && s.port.writer.Storing?
    ensures var s1 := s.(port := W.Store(s.port)); Inv(s1) && Leads(s, s1)
  {
    LeadsStep(s, AStore);
  }

  lemma {:induction false} StoresLead(s: State)
    requires Inv(s) && s.port.writer.Storing?
    ensures var t := s.(port := Flushed(s.port)); Inv(t) && Leads(s, t)
    decreases W.WINDOW - s.port.writer.next
  {
    var t := s.(port := Flushed(s.port));
    var s1 := s.(port := W.Store(s.port));
    StoreFlushes(s.port);
    OneStore(s);
    if s.port.writer.next < W.WINDOW {
      StoresLead(s1);
      assert s1.(port := Flushed(s1.port)) == t;
      LeadsTrans(s, s1, t);
    }
  }

  /** The client's copy after it has read the whole window. */
  function Copied(s: State): State
    requires s.pc.Reading? && s.pc.reader.Copying?
  {
    s.(pc := Reading(s.pc.phase, s.pc.reader.(stage := s.port.win)))
  }

  lemma OneRead(s: State)
    requires Inv(s) && s.pc.Reading? && s.pc.reader.Copying? && |s.pc.reader.stage| < W.WINDOW
    requires s.pc.reader.stage == s.port.win[..|s.pc.reader.stage|]
    ensures var s1 := ReadStep(s);
      && Inv(s1) && Leads(s, s1) && s1.port == s.port && s1.pc.Reading? && s1.pc.reader.Copying?
      && s1.pc.reader.stage == s.port.win[..|s.pc.reader.stage| + 1] && Copied(s1) == Copied(s)
  {
    LeadsStep(s, ARead);
  }

  lemma {:induction false} ReadsLead(s: State)
    requires Inv(s) && s.pc.Reading? && s.pc.reader.Copying? && |s.pc.reader.stage| <= W.WINDOW
    requires s.pc.reader.stage == s.port.win[..|s.pc.reader.stage|]
    ensures Inv(Copied(s)) && Leads(s, Copied(s))
    decreases W.WINDOW - |s.pc.reader.stage|
  {
    if |s.pc.reader.stage| == W.WINDOW {
      assert Copied(s) == s;
      LeadsSelf(s);
    } else {
      OneRead(s);
      ReadsLead(ReadStep(s));
      LeadsTrans(s, ReadStep(s), Copied(s));
    }
  }

  /** Nobody is in the way: no bus write pending, no publication, no job. */
  ghost predicate AtRest(s: State) {
    s.bus == [] && s.port.writer == W.Quiet && s.worker.None?
  }

  /** What a page round leaves alone. */
  ghost predicate SamePart(s: State, t: State) {
    t.link == s.link && t.sent == s.sent && t.ticket == s.ticket && t.answers == s.answers
  }

  lemma AskLeads(s: State)
    requires Inv(s) && s.pc.Asking? && AtRest(s)
    ensures var s1 := AskPage(s);
      && |s1.bus| == 1 && s1.bus[0] == BusWrite(RequestPage, s.page, |s.sent|)
      && Inv(Pop(s1)) && Leads(s, Pop(s1))
  {
    LeadsStep(s, AAsk);
    LeadsThen(s, AskPage(s), APop, Pop(AskPage(s)));
  }

  /** The page has been asked for and published. */
  lemma PagePublished(s: State) returns (t: State)
    requires Inv(s) && s.pc.Asking? && AtRest(s)
    ensures Inv(t) && Leads(s, t) && AtRest(t) && SamePart(s, t)
    ensures t.pc == Reading(s.pc.phase, W.Fresh) && t.page == s.page && t.report == s.report
    ensures t.port.win == W.Stamped(L.PageOf(s.link, s.page), t.port.stamp)
  {
    var s2 := Pop(AskPage(s));
    AskLeads(s);
    StoresLead(s2);
    t := s2.(port := Flushed(s2.port));
    LeadsTrans(s, s2, t);
  }

  /** The page has been copied in full. */
  lemma PageCopied(s: State) returns (t: State)
    requires Inv(s) && s.pc.Asking? && AtRest(s)
    ensures Inv(t) && Leads(s, t) && AtRest(t) && SamePart(s, t)
    ensures t.pc.Reading? && t.pc.phase == s.pc.phase && t.page == s.page && t.report == s.report
    ensures t.pc.reader.Copying? && t.pc.reader.first == t.port.stamp && t.pc.reader.stage == t.port.win
    ensures t.port.win == W.Stamped(L.PageOf(s.link, s.page), t.port.stamp)
  {
    var s3 := PagePublished(s);
    W.StampEven(|s3.port.pubs| - 1);
    var s4 := s3.(pc := Reading(s.pc.phase, W.Copying(s3.port.win[0], [], W.Begun(s3.port))));
    LeadsThen(s, s3, ARead, s4);
    ReadsLead(s4);
    t := Copied(s4);
    LeadsTrans(s, s4, t);
  }

  /** The copy of a whole page passes every check. */
  lemma CopyIsAccepted(c: State)
    requires Inv(c) && c.pc.Reading? && c.pc.reader.Copying? && c.pc.reader.first == c.port.stamp
    requires c.pc.reader.stage == c.port.win == W.Stamped(L.PageOf(c.link, c.page), c.port.stamp)
    ensures c.page <= 10 && Step(c, ARead) == Accepted(c, c.pc.reader.stage)
  {
  }

  /** A page round ends with the page accepted. */
  lemma PageRound(s: State) returns (t: State)
    requires Inv(s) && s.pc.Asking? && AtRest(s)
    requires s.pc.phase.Waiting? ==> s.link.active.None? && s.link.ack == s.ticket
    ensures Inv(t) && Leads(s, t) && AtRest(t) && SamePart(s, t)
    ensures if s.pc.phase.Waiting? then t.pc == Asking(Fetching) && t.page == 0
            else t.page == s.page + 1 && t.pc == if Again(t) then Asking(Fetching) else Idle(true)
  {
    var c := PageCopied(s);
    t := Accepted(c, c.pc.reader.stage);
    CopyIsAccepted(c);
    LeadsThen(s, c, ARead, t);
  }

  /** Four pages, and seven more for a QR code. */
  ghost predicate Again(s: State) {
    s.page < 4 || (|s.report| > 1 && s.report[1] == QR_READY && s.page < 11)
  }

  lemma {:induction false} FetchLeads(s: State) returns (t: State)
    requires Inv(s) && s.pc == Asking(Fetching) && AtRest(s)
    ensures Inv(t) && Leads(s, t) && AtRest(t) && SamePart(s, t) && t.pc == Idle(true)
    decreases 11 - s.page
  {
    var s1 := PageRound(s);
    if Again(s1) {
      t := FetchLeads(s1);
      LeadsTrans(s, s1, t);
    } else {
      t := s1;
    }
  }

  // ----- one send -----

  lemma PushLeads(s: State, command: byte)
    requires Inv(s) && AtRest(s) && CanStart(s, command)
    ensures var t := PushTicket(StartSend(s, command)); Inv(t) && Leads(s, t)
  {
    LeadsStep(s, AStart(command));
    LeadsThen(s, StartSend(s, command), ATicket, PushTicket(StartSend(s, command)));
  }

  /** Both writes of a submission reach core 0. */
  lemma PopTwoLeads(s: State)
    requires Inv(s) && |s.bus| == 2 && s.bus[0].kind == SetCommand && s.bus[1].kind == SubmitTicket
    requires s.port.writer == W.Quiet && s.worker.None?
    ensures var t := Pop(Pop(s)); Inv(Pop(s)) && Inv(t) && Leads(s, t)
  {
    LeadsStep(s, APop);
    LeadsThen(s, Pop(s), APop, Pop(Pop(s)));
  }

  lemma SecondPopGrants(s: State)
    requires Inv(s) && |s.bus| == 1 && s.bus[0].kind == SubmitTicket && s.port.writer == W.Quiet && s.worker.None?
    requires s.link.active.None? && s.pc.Asking? && s.bus[0].value == s.ticket && s.bus[0].no == |s.sent|
    ensures var t := Pop(s);
      && t.link.queued.Some? && t.link.queued == t.link.active && t.link.active.value.ticket == s.ticket
      && Submits(t.rank) == |s.sent|
  {
    TicketRank(s.bus, s.rank, s.pushed, s.origin, s.sent, s.command, s.snaps);
    NextTicketIsGranted(s.link, Submits(s.rank), s.origin, s.sent, s.answers);
  }

  /** The command and its ticket reach the mailbox, which grants them. */
  lemma SubmitLeads(s: State, command: byte) returns (t: State)
    requires Inv(s) && AtRest(s) && CanStart(s, command) && s.link.active.None?
    ensures Inv(t) && Leads(s, t) && AtRest(t) && t.pc == Asking(Waiting(TRIES)) && t.answers == s.answers
    ensures t.sent == s.sent + [command] && t.link.queued.Some? && t.link.queued == t.link.active
    ensures t.link.active.value.ticket == t.ticket && Submits(t.rank) == |t.sent|
    ensures t.link.active.value.command == command
  {
    var s2 := PushTicket(StartSend(s, command));
    PushLeads(s, command);
    PopTwoLeads(s2);
    t := Pop(Pop(s2));
    LeadsTrans(s, s2, t);
    SecondPopGrants(Pop(s2));
    ActiveCommand(t);
  }

  lemma ActiveCommand(s: State)
    requires Inv(s) && s.link.active.Some? && Submits(s.rank) == |s.sent| >= 1
    ensures s.link.active.value.command == s.sent[|s.sent| - 1]
  {
  }

  /** Core 1 takes the request and answers it. */
  lemma AnswerLeads(s: State, report: seq<byte>, qr: seq<byte>)
    requires Inv(s) && AtRest(s) && s.pc == Asking(Waiting(TRIES)) && |report| == L.REPORT_BYTES
    requires s.link.queued.Some? && s.link.queued == s.link.active && Submits(s.rank) == |s.sent|
    ensures Take(s).worker.Some? && Take(s).worker.value.request == s.link.queued.value
    ensures var t := Finish(Take(s), report, qr);
      && Inv(Take(s)) && Inv(t) && AtRest(t) && t.pc == s.pc && t.sent == s.sent && t.ticket == s.ticket
      && t.link.active.None? && t.link.ack == s.link.active.value.ticket
      && t.answers == s.answers[|s.sent| := Answer(report, qr)]
  {
    TakeInv(s);
    FinishInv(Take(s), report, qr);
  }

  /** From the answer to the report in work RAM. */
  lemma DeliveryLeads(s: State) returns (t: State)
    requires Inv(s) && AtRest(s) && s.pc.Asking? && s.pc.phase.Waiting?
    requires s.link.active.None? && s.link.ack == s.ticket
    ensures Inv(t) && Leads(s, t) && AtRest(t) && SamePart(s, t) && t.pc == Idle(true)
  {
    var s3 := PageRound(s);
    t := FetchLeads(s3);
    LeadsTrans(s, s3, t);
  }

  /**
   Whatever happened before, once cartridge and client are at rest, a command that may be sent has
   a run that delivers any answer the worker chooses to give.
   */
  lemma SendCanSucceed(o: Origin, acts: seq<Act>, command: byte, report: seq<byte>, qr: seq<byte>)
    returns (more: seq<Act>)
    requires Entered(o) && |report| == L.REPORT_BYTES
    requires var s := CrystalProtocol.Run(o, acts);
      AtRest(s) && s.link.active.None? && CanStart(s, command)
    ensures var s, t := CrystalProtocol.Run(o, acts), CrystalProtocol.Run(o, acts + more);
      && t.pc == Idle(true) && t.sent == s.sent + [command]
      && Delivered(t, |t.sent|) && t.answers[|t.sent|] == Answer(report, qr)
  {
    var s := CrystalProtocol.Run(o, acts);
    var t;
    t, more := SendLeads(s, command, report, qr);
    InitInv(o);
    ExecConcat(Init(o), acts, more);
    SettledIsDelivered(t);
  }

  lemma SendLeads(s: State, command: byte, report: seq<byte>, qr: seq<byte>) returns (t: State, acts: seq<Act>)
    requires Inv(s) && AtRest(s) && CanStart(s, command) && s.link.active.None? && |report| == L.REPORT_BYTES
    ensures Inv(t) && Exec(s, acts) == t && t.pc == Idle(true) && t.sent == s.sent + [command]
    ensures t.answers == s.answers[|t.sent| := Answer(report, qr)]
  {
    var s1 := SubmitLeads(s, command);
    AnswerLeads(s1, report, qr);
    var s2 := Finish(Take(s1), report, qr);
    t := DeliveryLeads(s2);
    var a :| Goes(s, a, s1);
    var b :| Goes(s2, b, t);
    AnswerRun(s1, report, qr);
    ExecConcat(s, a, [ATake, AFinish(report, qr)]);
    ExecConcat(s, a + [ATake, AFinish(report, qr)], b);
    acts := a + [ATake, AFinish(report, qr)] + b;
  }

  lemma AnswerRun(s: State, report: seq<byte>, qr: seq<byte>)
    requires Inv(s) && s.worker.None? && s.link.queued.Some? && |report| == L.REPORT_BYTES
    ensures Exec(s, [ATake, AFinish(report, qr)]) == Finish(Take(s), report, qr)
  {
    TakeInv(s);
    TakeStep(s, ATake);
    FinishStep(Take(s), AFinish(report, qr));
    ExecTwo(s, [ATake, AFinish(report, qr)], Take(s));
  }

  lemma TakeStep(s: State, a: Act)
    requires Inv(s) && a.ATake? && s.worker.None? && s.link.queued.Some?
    ensures Step(s, a) == Take(s)
  {
  }

  lemma FinishStep(s: State, a: Act)
    requires Inv(s) && a.AFinish? && s.worker.Some? && |a.report| == L.REPORT_BYTES
    ensures Step(s, a) == Finish(s, a.report, a.qr)
  {
  }

  lemma ExecTwo(s: State, acts: seq<Act>, mid: State)
    requires Inv(s) && Inv(mid) && |acts| == 2 && Step(s, acts[0]) == mid
    ensures Exec(s, acts) == Step(mid, acts[1])
  {
    ExecOne(mid, acts[1..]);
  }

  // ----- how long a client waits -----

  /** A page was read and is not the answer waited for. */
  predicate Misses(s: State, s': State) {
    s.pc.Reading? && s.pc.phase.Waiting? && !s'.pc.Reading? && s'.pc != Asking(Fetching)
  }

  /** The pages missed since the ticket was handed in, told from the client's states alone. */
  function MissedNext(s: State, s': State, n: nat): nat {
    if s.pc.Submitting? then 0 else if Misses(s, s') then n + 1 else n
  }

  ghost function Missed(s: State, n: nat, acts: seq<Act>): nat
    requires Inv(s)
    decreases |acts|
  {
    if acts == [] then n
    else
      StepInv(s, acts[0]);
      Missed(Step(s, acts[0]), MissedNext(s, Step(s, acts[0]), n), acts[1..])
  }

  /** What is left of the 1200 tries while waiting. */
  predicate TriesLeft(s: State, n: nat) {
    (s.pc.Asking? || s.pc.Reading?) && s.pc.phase.Waiting? ==> s.pc.phase.left + n == 1200 && s.pc.phase.left > 0
  }

  /** A missed page is asked for again until 1200 were missed; a page fetched is taken at once or fails the send. */
  predicate Perseveres(s: State, s': State, n': nat) {
    && (Misses(s, s') ==> n' <= 1200 && s'.pc == if n' == 1200 then Idle(false) else Asking(Waiting(1200 - n')))
    && (s.pc.Reading? && s.pc.phase == Fetching && !s'.pc.Reading? ==>
          if s'.pc == Idle(false) then s'.report == s.report && s'.page == s.page
          else s'.page == s.page + 1 && (s'.pc == Asking(Fetching) || s'.pc == Idle(true)))
  }

  predicate TriesAndOn(s: State, s': State, n: nat) {
    TriesLeft(s', MissedNext(s, s', n)) && Perseveres(s, s', MissedNext(s, s', n))
  }

  lemma RejectedTries(s: State, n: nat)
    requires s.pc.Reading? && TriesLeft(s, n)
    ensures TriesAndOn(s, Rejected(s), n)
  {
  }

  lemma AcceptedTries(s: State, stage: seq<byte>, n: nat)
    requires s.pc.Reading? && TriesLeft(s, n)
    requires |stage| == W.WINDOW && |s.report| == REPORT_WRAM && s.page <= 10
    ensures TriesAndOn(s, Accepted(s, stage), n)
  {
    RejectedTries(s, n);
  }

  lemma ReadTries(s: State, n: nat)
    requires s.pc.Reading? && |s.port.win| == W.WINDOW && |s.report| == REPORT_WRAM && s.page <= 10
    requires TriesLeft(s, n)
    ensures TriesAndOn(s, ReadStep(s), n)
  {
    RejectedTries(s, n);
    var r := s.pc.reader;
    if !r.Fresh? && |r.stage| == W.WINDOW { AcceptedTries(s, r.stage, n); }
  }

  lemma AskTries(s: State, n: nat)
    requires TriesLeft(s, n)
    ensures s.pc.Asking? ==> TriesAndOn(s, AskPage(s), n)
    ensures s.pc.Submitting? ==> TriesAndOn(s, PushTicket(s), n)
  {
  }

  lemma StepTries(s: State, a: Act, n: nat)
    requires Inv(s) && TriesLeft(s, n)
    ensures TriesAndOn(s, Step(s, a), n)
  {
    if Enabled(s, a) {
      if a == ARead { ReadFits(s); ReadTries(s, n); }
      else if a == AAsk || a == ATicket { AskTries(s, n); }
      else { OtherTries(s, a, n); }
    }
  }

  lemma ReadFits(s: State)
    requires Inv(s) && s.pc.Reading?
    ensures |s.port.win| == W.WINDOW && |s.report| == REPORT_WRAM && s.page <= 10
  {
  }

  lemma OtherTries(s: State, a: Act, n: nat)
    requires Inv(s) && TriesLeft(s, n) && Enabled(s, a) && a != ARead && a != AAsk && a != ATicket
    ensures TriesAndOn(s, Step(s, a), n)
  {
  }

  lemma {:induction false} ExecTries(s: State, n: nat, acts: seq<Act>)
    requires Inv(s) && TriesLeft(s, n)
    ensures TriesLeft(Exec(s, acts), Missed(s, n, acts))
    decreases |acts|
  {
    if acts != [] {
      StepInv(s, acts[0]);
      StepTries(s, acts[0], n);
      ExecTries(Step(s, acts[0]), MissedNext(s, Step(s, acts[0]), n), acts[1..]);
    }
  }

  /**
   In every interleaving: a send that waits is given up at the 1200th page that is not its answer and
   not before, and one that fetches at the first page that is not accepted.
   */
  lemma GivesUpAfter1200(o: Origin, acts: seq<Act>, a: Act)
    requires Entered(o)
    ensures Inv(Init(o))
    ensures var s, n := Run(o, acts), Missed(Init(o), 0, acts);
      Perseveres(s, Step(s, a), MissedNext(s, Step(s, a), n))
  {
    InitInv(o);
    ExecTries(Init(o), 0, acts);
    StepTries(Run(o, acts), a, Missed(Init(o), 0, acts));
  }
}
