/**
 The whole exchange between the Game Boy client (`SeedSend` and `SeedReadPage` in seed.asm),
 core 0 (the bus decoder of src/crystal_seed.rs) and core 1 (its worker), as one transition
 system in which every bus write, every byte store, every byte read and every locked mailbox
 operation is a step of its own.

 A send is identified by its position: the command of send number i is `sent[i - 1]`.
 Fields after the first blank line of `State` record what happened and are never consulted
 by the three parties.
 */
module CrystalProtocol {
  import opened Bytes
  import L = SeedLink
  import W = SeqLock

  /** Bus writes core 0 may lag behind. The receive FIFO of the cartridge holds far fewer. */
  const BUS_DEPTH := 64
  const TRIES := 1200
  const QR_READY: byte := 7
  const REPORT_WRAM := 640

  datatype Kind = SetCommand | SubmitTicket | RequestPage
  datatype BusWrite = BusWrite(kind: Kind, value: byte, no: nat)

  datatype Phase = Waiting(left: nat) | Fetching
  datatype Client = Idle(ok: bool) | Submitting | Asking(phase: Phase) | Reading(phase: Phase, reader: W.Reader)

  datatype Job = Job(request: L.Request, no: nat)
  datatype Snap = Snap(no: nat, index: byte, link: L.Mailbox)
  datatype Answer = Answer(report: seq<byte>, qr: seq<byte>)

  /**
   What a session finds when the client enters: the ticket byte left in work RAM, the command latch,
   the mailbox with whatever request is still under way in it, and the request core 1 is working on,
   which `lag` grants have superseded since.
   */
  datatype Origin = Origin(ticket: byte, command: byte, link: L.Mailbox, worker: Option<L.Request>, lag: nat)

  datatype State = State(
    pc: Client, ticket: byte, page: byte, report: seq<byte>,
    bus: seq<BusWrite>, command: byte, port: W.Port, link: L.Mailbox, worker: Option<Job>,

    origin: Origin, sent: seq<byte>, pushed: nat, rank: nat, snaps: seq<Snap>, ran: seq<nat>,
    performed: seq<byte>, answers: map<nat, Answer>)

  /** A cartridge that has just been switched on; the ticket byte in work RAM is arbitrary. */
  function Fresh(ticket: byte): Origin { Origin(ticket, 0, L.Empty(), None, 0) }

  function Init(o: Origin): State {
    State(Idle(false), o.ticket, 0, Zeros(REPORT_WRAM), [], o.command, W.Blank(), o.link,
          if o.worker.Some? then Some(Job(o.worker.value, 0)) else None,
          o, [], 2, 2, [Snap(0, 0, o.link)], [], [], map[])
  }

  // ----- the client -----

  function NextTicket(t: byte): byte {
    var up := (t + 1) % 256;
    if up == 0 then 1 else up
  }

  ghost predicate Room(s: State) { |s.bus| < BUS_DEPTH }

  /** Only LOCK may follow a failed send or open a session. */
  ghost predicate CanStart(s: State, command: byte) {
    s.pc.Idle? && command != 0 && (s.pc.ok || command == L.LOCK) && Room(s)
  }

  function StartSend(s: State, command: byte): State {
    var no := |s.sent| + 1;
    s.(pc := Submitting, ticket := NextTicket(s.ticket), page := 0,
       bus := s.bus + [BusWrite(SetCommand, command, no)], sent := s.sent + [command], pushed := 3 * no)
  }

  function PushTicket(s: State): State {
    s.(pc := Asking(Waiting(TRIES)), bus := s.bus + [BusWrite(SubmitTicket, s.ticket, |s.sent|)],
       pushed := 3 * |s.sent| + 1)
  }

  function AskPage(s: State): State
    requires s.pc.Asking?
  {
    s.(pc := Reading(s.pc.phase, W.Fresh), bus := s.bus + [BusWrite(RequestPage, s.page, |s.sent|)],
       pushed := 3 * |s.sent| + 2)
  }

  /** A rejected page costs a try while waiting and fails the send while fetching. */
  function Rejected(s: State): State
    requires s.pc.Reading?
  {
    match s.pc.phase
    case Waiting(left) => s.(pc := if left <= 1 then Idle(false) else Asking(Waiting(left - 1)))
    case Fetching => s.(pc := Idle(false))
  }

  function Splice(report: seq<byte>, at: nat, payload: seq<byte>): (r: seq<byte>)
    requires at + |payload| <= |report|
    ensures |r| == |report|
  {
    report[..at] + payload + report[at + |payload|..]
  }

  function Accepted(s: State, stage: seq<byte>): State
    requires s.pc.Reading? && |stage| == W.WINDOW && |s.report| == REPORT_WRAM && s.page <= 10
  {
    match s.pc.phase
    case Waiting(_) =>
      if stage[1] == s.ticket && stage[2] == 0 then s.(pc := Asking(Fetching), page := 0) else Rejected(s)
    case Fetching =>
      var report := Splice(s.report, s.page * L.PAYLOAD, stage[4..36]);
      var page: byte := s.page + 1;
      var more := page < 4 || (report[1] == QR_READY && page < 11);
      s.(report := report, page := page, pc := if more then Asking(Fetching) else Idle(true))
  }

  function ReadStep(s: State): State
    requires s.pc.Reading? && |s.port.win| == W.WINDOW && |s.report| == REPORT_WRAM && s.page <= 10
  {
    var r := s.pc.reader;
    if r.Fresh? then
      match W.ReadFirst(s.port)
      case None => Rejected(s)
      case Some(r') => s.(pc := Reading(s.pc.phase, r'))
    else if |r.stage| < W.WINDOW then s.(pc := Reading(s.pc.phase, W.ReadNext(s.port, r)))
    else if |r.stage| == W.WINDOW && W.Verdict(s.port, r, s.page) then Accepted(s, r.stage)
    else Rejected(s)
  }

  // ----- core 0 -----

  function Rank(w: BusWrite): nat {
    3 * w.no + match w.kind case SetCommand => 0 case SubmitTicket => 1 case RequestPage => 2
  }

  /** How many tickets core 0 has handed to the mailbox once the write of this rank is done. */
  function Submits(rank: nat): nat {
    if rank == 0 then 0 else (rank - 1) / 3
  }

  /** By how many grants a request from before this session was behind when it began. */
  function Lag(o: Origin, r: L.Request): nat { if o.link.active == Some(r) then 0 else o.lag }

  /** How many grants there have been since the one of this job. */
  function Age(o: Origin, job: Job, p: nat): int {
    if job.no == 0 then p + Lag(o, job.request) else p - job.no
  }

  /** Core 0 is free, and a held job is not superseded 2^32 times. */
  ghost predicate CanPop(s: State) {
    && s.port.writer == W.Quiet && s.bus != []
    && (s.worker.Some? ==> Age(s.origin, s.worker.value, Submits(s.rank)) + 1 < L.EPOCHS)
  }

  function Pop(s: State): State
    requires s.bus != [] && |s.link.frame| == L.FRAME_BYTES
  {
    var w := s.bus[0];
    var s1 := s.(bus := s.bus[1..], rank := Rank(w));
    match w.kind
    case SetCommand => s1.(command := w.value)
    case SubmitTicket => s1.(link := L.Submitted(s.link, w.value, s.command))
    case RequestPage =>
      s1.(port := W.Begin(s.port, L.PageOf(s.link, w.value)), snaps := s.snaps + [Snap(w.no, w.value, s.link)])
  }

  // ----- core 1 -----

  /** A request from before this session is job number 0, and no part of its story. */
  function Take(s: State): State
    requires s.link.queued.Some?
  {
    var no := Submits(s.rank);
    s.(link := L.Taken(s.link), worker := Some(Job(s.link.queued.value, no)),
       ran := if no == 0 then s.ran else s.ran + [no],
       performed := if no == 0 then s.performed else s.performed + [s.link.queued.value.command])
  }

  /** The report and QR buffer are whatever the terminal produced. */
  function Finish(s: State, report: seq<byte>, qr: seq<byte>): State
    requires s.worker.Some? && |report| == L.REPORT_BYTES
  {
    var job := s.worker.value;
    s.(link := L.Finished(s.link, job.request, report, qr), worker := None,
       answers := if s.link.active == Some(job.request) && job.no > 0
                  then s.answers[job.no := Answer(report, qr)] else s.answers)
  }

  // ----- runs -----

  datatype Act =
    | AStart(command: byte) | ATicket | AAsk | ARead
    | APop | AStore
    | ATake | AFinish(report: seq<byte>, qr: seq<byte>)

  ghost predicate Enabled(s: State, a: Act) {
    match a
    case AStart(c) => CanStart(s, c)
    case ATicket => s.pc.Submitting? && Room(s)
    case AAsk => s.pc.Asking? && Room(s)
    case ARead => s.pc.Reading?
    case APop => CanPop(s)
    case AStore => s.port.writer.Storing?
    case ATake => s.worker.None? && s.link.queued.Some?
    case AFinish(report, _) => s.worker.Some? && |report| == L.REPORT_BYTES
  }

  /** A step that is not enabled leaves the state alone. */
  ghost function Step(s: State, a: Act): State
    requires Inv(s)
  {
    if !Enabled(s, a) then s else
    match a
    case AStart(c) => StartSend(s, c)
    case ATicket => PushTicket(s)
    case AAsk => AskPage(s)
    case ARead => ReadStep(s)
    case APop => Pop(s)
    case AStore => s.(port := W.Store(s.port))
    case ATake => Take(s)
    case AFinish(report, qr) => Finish(s, report, qr)
  }

  // ----- the invariant -----

  /** The ticket byte of send number `no`. */
  function Tick(o: Origin, no: nat): byte
    requires no >= 1
  {
    (o.ticket + no - 1) % 255 + 1
  }

  lemma TickNext(o: Origin, no: nat)
    requires no >= 1
    ensures NextTicket(o.ticket) == Tick(o, 1)
    ensures NextTicket(Tick(o, no)) == Tick(o, no + 1)
    ensures Tick(o, no) != Tick(o, no + 1)
  {
    NextTicketIs(o.ticket);
    NextTicketIs(Tick(o, no));
    Mod255(o.ticket + no - 1);
  }

  lemma NextTicketIs(t: byte)
    ensures NextTicket(t) == t % 255 + 1
  {
  }

  lemma Mod255(x: nat)
    ensures (x % 255 + 1) % 255 == (x + 1) % 255 && x % 255 != (x + 1) % 255
  {
  }

  lemma TickInjective(o: Origin, a: nat, b: nat)
    requires 1 <= a <= b < a + 255 && Tick(o, a) == Tick(o, b)
    ensures a == b
  {
  }

  function Req(o: Origin, sent: seq<byte>, no: nat): L.Request
    requires 1 <= no <= |sent|
  {
    L.Request((o.link.epoch + no) % L.EPOCHS, Tick(o, no), sent[no - 1])
  }

  function Before(bus: seq<BusWrite>, rank: nat, i: nat): nat
    requires i <= |bus|
  {
    if i == 0 then rank else Rank(bus[i - 1])
  }

  /** A bus write continues the previous one without a gap; only page requests repeat. */
  ghost predicate Continues(w: BusWrite, before: nat, o: Origin, sent: seq<byte>) {
    && (Rank(w) == before + 1 || (Rank(w) == before && w.kind == RequestPage))
    && 1 <= w.no <= |sent|
    && (w.kind == SetCommand ==> w.value == sent[w.no - 1])
    && (w.kind == SubmitTicket ==> w.value == Tick(o, w.no))
  }

  ghost predicate ContinuesAt(bus: seq<BusWrite>, rank: nat, o: Origin, sent: seq<byte>, i: nat) {
    i < |bus| && Continues(bus[i], Before(bus, rank, i), o, sent)
  }

  ghost predicate BusInv(bus: seq<BusWrite>, rank: nat, pushed: nat, o: Origin, sent: seq<byte>) {
    && |bus| <= BUS_DEPTH && rank >= 2
    && (forall i: nat :: i < |bus| ==> ContinuesAt(bus, rank, o, sent, i))
    && pushed == Before(bus, rank, |bus|)
  }

  ghost predicate SentInv(sent: seq<byte>, rank: nat, command: byte) {
    && Submits(rank) <= |sent|
    && (rank % 3 == 0 ==> Submits(rank) < |sent| && command == sent[Submits(rank)])
    && (forall i :: 0 <= i < |sent| ==> sent[i] != 0)
  }

  /** A request of an earlier session that core 1 may hold in this one. */
  ghost predicate Leftover(o: Origin, r: L.Request) {
    r.epoch < L.EPOCHS && (r.epoch + Lag(o, r)) % L.EPOCHS == o.link.epoch
  }

  /**
   The mailbox as earlier sessions leave it. The one thing asked of it is that no request is under way
   in it under the ticket that this session will use first.
   */
  ghost predicate Entered(o: Origin) {
    && L.Wf(o.link) && (o.link.queued.Some? ==> o.link.queued == o.link.active)
    && (o.link.active.Some? ==>
          o.link.active.value.epoch == o.link.epoch && o.link.active.value.ticket != Tick(o, 1))
    && (o.worker.Some? ==> Leftover(o, o.worker.value) && Lag(o, o.worker.value) < L.EPOCHS)
    && (o.worker.Some? && o.worker == o.link.active ==> o.link.queued.None?)
  }

  /** Nothing but LOCK can be waiting behind a request that is still active. */
  ghost predicate OnlyLockWaits(active: bool, sent: seq<byte>, p: nat) {
    forall k :: p <= k < |sent| && sent[k] != L.LOCK ==> k == p && p >= 1 && !active
  }

  /** Everything but LOCK was submitted only after the send before it had been answered. */
  ghost predicate InTurn(sent: seq<byte>, p: nat, answers: map<nat, Answer>) {
    forall k :: 0 <= k < p && k < |sent| && sent[k] != L.LOCK ==> k >= 1 && k in answers
  }

  /** The mailbox serves the latest ticket it was given. */
  ghost predicate LinkInv(link: L.Mailbox, p: nat, o: Origin, sent: seq<byte>, answers: map<nat, Answer>) {
    && |link.frame| == L.FRAME_BYTES && link.epoch == (o.link.epoch + p) % L.EPOCHS
    && (link.active.Some? ==>
          if p == 0 then link.active == o.link.active else p <= |sent| && link.active.value == Req(o, sent, p))
    && (link.queued.Some? ==> link.queued == link.active)
    && (p >= 1 && link.active.None? ==>
          && link.ack == Tick(o, p) && p in answers && |answers[p].report| == L.REPORT_BYTES
          && link.frame == L.FrameOf(answers[p].report, answers[p].qr))
  }

  /** Jobs are taken in order, each once, and only taken jobs are answered. */
  ghost predicate WorkInv(
    queued: bool, worker: Option<Job>, ran: seq<nat>, performed: seq<byte>, p: nat, o: Origin, sent: seq<byte>,
    answers: map<nat, Answer>)
  {
    && p <= |sent| && |performed| == |ran|
    && (forall i :: 0 <= i < |ran| ==> 1 <= ran[i] <= p && performed[i] == sent[ran[i] - 1])
    && (queued ==> forall i :: 0 <= i < |ran| ==> ran[i] < p)
    && (forall i, j :: 0 <= i < j < |ran| ==> ran[i] < ran[j])
    && (worker.Some? ==>
          var job := worker.value;
          && Age(o, job, p) < L.EPOCHS
          && if job.no == 0 then Leftover(o, job.request) && (queued && p == 0 ==> o.link.active != Some(job.request))
             else job.no in ran && job.no <= |sent| && job.request == Req(o, sent, job.no))
    && (forall no :: no in answers ==> no in ran)
  }

  /** A published page shows the mailbox as it was when the page was built. */
  ghost predicate Displays(page: seq<byte>, snap: Snap) {
    && |page| == W.WINDOW && |snap.link.frame| == L.FRAME_BYTES
    && page[1] == snap.link.ack && (page[2] == 0 <==> snap.link.active.None? && L.InFrame(snap.index))
    && page[3] == snap.index && page[4..36] == L.Payload(snap.link, snap.index)
  }

  ghost predicate SnapAt(snaps: seq<Snap>, pubs: seq<seq<byte>>, p: nat, o: Origin, j: nat)
    requires 1 <= j < |snaps| == |pubs|
  {
    && Displays(pubs[j], snaps[j])
    && 1 <= snaps[j].no <= p
    && snaps[j - 1].no <= snaps[j].no <= snaps[j - 1].no + 1
    && (snaps[j].link.active.None? ==> snaps[j].link.ack == Tick(o, snaps[j].no))
  }

  ghost predicate SnapInv(snaps: seq<Snap>, pubs: seq<seq<byte>>, p: nat, o: Origin) {
    && |snaps| == |pubs| && |snaps| >= 1 && snaps[0].no == 0
    && (forall j: nat :: 1 <= j < |snaps| ==> SnapAt(snaps, pubs, p, o, j))
    && (forall i, j :: 1 <= i < j < |snaps| && snaps[i].no == snaps[j].no && snaps[i].link.active.None? ==>
          snaps[j].link.active.None? && snaps[j].link.frame == snaps[i].link.frame)
  }

  /** An answer once shown for the current ticket stays the mailbox's answer. */
  ghost predicate AnswerStays(snaps: seq<Snap>, p: nat, link: L.Mailbox) {
    forall j :: 1 <= j < |snaps| && snaps[j].no == p && snaps[j].link.active.None? ==>
      link.active.None? && link.frame == snaps[j].link.frame
  }

  ghost predicate LagInv(snaps: seq<Snap>, writer: W.Writer, rank: nat) {
    && |snaps| >= 1
    && var last := snaps[|snaps| - 1].no;
       3 * last + 2 <= rank <= 3 * last + (if writer.Quiet? then 4 else 2)
  }

  /** The current send has been answered and nothing can disturb its answer. */
  ghost predicate Settled(link: L.Mailbox, p: nat, n: nat) {
    n >= 1 && p == n && link.active.None? && |link.frame| == L.FRAME_BYTES
  }

  ghost predicate Shows(snap: Snap, n: nat, link: L.Mailbox) {
    snap.no == n && snap.link.active.None? && snap.link.frame == link.frame
  }

  ghost predicate FetchInv(s: State) {
    && Settled(s.link, Submits(s.rank), |s.sent|)
    && (forall j :: W.Begun(s.port) <= j < |s.snaps| ==> 0 <= j && Shows(s.snaps[j], |s.sent|, s.link))
    && |s.report| == REPORT_WRAM && s.page <= 10
    && s.report[..L.PAYLOAD * s.page] == s.link.frame[..L.PAYLOAD * s.page]
  }

  ghost predicate Complete(report: seq<byte>, frame: seq<byte>) {
    && |frame| == L.FRAME_BYTES && |report| == REPORT_WRAM
    && report[..128] == frame[..128]
    && (frame[1] == QR_READY ==> report[..352] == frame[..352])
  }

  /** The stretch of the window history a read in progress can span. */
  ghost predicate ReadInv(pc: Client, port: W.Port, backlog: nat)
    requires W.PortInv(port)
  {
    pc.Reading? ==>
      && W.ReaderInv(port, pc.reader)
      && (pc.reader.Copying? ==>
            W.Begun(port) - pc.reader.origin + backlog + (if port.writer == W.Storing(0) then 1 else 0)
            <= BUS_DEPTH + 1)
  }

  ghost predicate PhaseInv(s: State, phase: Phase) {
    match phase
    case Waiting(left) => left >= 1 && s.page == 0
    case Fetching => FetchInv(s) && s.pushed == 3 * |s.sent| + 2
  }

  ghost predicate ClientInv(s: State) {
    var n := |s.sent|;
    && |s.report| == REPORT_WRAM
    && s.ticket == (if n == 0 then s.origin.ticket else Tick(s.origin, n))
    && match s.pc
       case Idle(ok) =>
         s.pushed == 3 * n + 2 && (ok ==> Settled(s.link, Submits(s.rank), n) && Complete(s.report, s.link.frame))
       case Submitting => n >= 1 && s.pushed == 3 * n && s.page == 0
       case Asking(phase) => n >= 1 && 3 * n + 1 <= s.pushed <= 3 * n + 2 && PhaseInv(s, phase)
       case Reading(phase, _) => n >= 1 && s.pushed == 3 * n + 2 && PhaseInv(s, phase)
  }

  /** The part of the invariant that only core 0 and core 1 can disturb. */
  ghost predicate CartInv(s: State) {
    var p := Submits(s.rank);
    && Entered(s.origin) && BusInv(s.bus, s.rank, s.pushed, s.origin, s.sent) && SentInv(s.sent, s.rank, s.command)
    && LinkInv(s.link, p, s.origin, s.sent, s.answers) && OnlyLockWaits(s.link.active.Some?, s.sent, p)
    && InTurn(s.sent, p, s.answers)
    && WorkInv(s.link.queued.Some?, s.worker, s.ran, s.performed, p, s.origin, s.sent, s.answers)
    && W.PortInv(s.port)
    && SnapInv(s.snaps, s.port.pubs, p, s.origin) && AnswerStays(s.snaps, p, s.link)
    && LagInv(s.snaps, s.port.writer, s.rank)
  }

  ghost predicate Inv(s: State) {
    CartInv(s) && ReadInv(s.pc, s.port, |s.bus|) && ClientInv(s)
  }

  lemma InitInv(o: Origin)
    requires Entered(o)
    ensures Inv(Init(o))
  {
    W.BlankInv();
  }

  // ----- every step keeps it -----

  lemma ContinuesMore(w: BusWrite, before: nat, o: Origin, sent: seq<byte>, more: seq<byte>)
    requires Continues(w, before, o, sent)
    ensures Continues(w, before, o, sent + more)
  {
  }

  lemma PushInv(bus: seq<BusWrite>, rank: nat, pushed: nat, o: Origin, sent: seq<byte>, more: seq<byte>, w: BusWrite)
    requires BusInv(bus, rank, pushed, o, sent) && |bus| < BUS_DEPTH
    requires Continues(w, pushed, o, sent + more)
    ensures BusInv(bus + [w], rank, Rank(w), o, sent + more)
  {
    var bus' := bus + [w];
    forall i: nat | i < |bus'|
      ensures ContinuesAt(bus', rank, o, sent + more, i)
    {
      assert Before(bus', rank, i) == Before(bus, rank, i);
      if i < |bus| {
        assert ContinuesAt(bus, rank, o, sent, i);
        ContinuesMore(bus[i], Before(bus, rank, i), o, sent, more);
      }
    }
  }

  lemma SendMoreWork(s: State, command: byte)
    requires CartInv(s)
    ensures var p := Submits(s.rank);
      WorkInv(s.link.queued.Some?, s.worker, s.ran, s.performed, p, s.origin, s.sent + [command], s.answers)
  {
  }

  lemma SendMoreLink(s: State, command: byte)
    requires Inv(s) && CanStart(s, command)
    ensures var sent, p := s.sent + [command], Submits(s.rank);
      && LinkInv(s.link, p, s.origin, sent, s.answers) && OnlyLockWaits(s.link.active.Some?, sent, p)
      && SentInv(sent, s.rank, s.command) && InTurn(sent, p, s.answers)
  {
  }

  lemma StartCart(s: State, command: byte)
    requires Inv(s) && CanStart(s, command)
    ensures CartInv(StartSend(s, command))
  {
    SendMoreWork(s, command);
    SendMoreLink(s, command);
    PushInv(s.bus, s.rank, s.pushed, s.origin, s.sent, [command], BusWrite(SetCommand, command, |s.sent| + 1));
  }

  lemma StartInv(s: State, command: byte)
    requires Inv(s) && CanStart(s, command)
    ensures Inv(StartSend(s, command))
  {
    StartCart(s, command);
    TickNext(s.origin, if |s.sent| >= 1 then |s.sent| else 1);
  }

  lemma TicketInv(s: State)
    requires Inv(s) && s.pc.Submitting? && Room(s)
    ensures Inv(PushTicket(s))
  {
    assert s.sent + [] == s.sent;
    PushInv(s.bus, s.rank, s.pushed, s.origin, s.sent, [], BusWrite(SubmitTicket, s.ticket, |s.sent|));
  }

  lemma AskInv(s: State)
    requires Inv(s) && s.pc.Asking? && Room(s)
    ensures Inv(AskPage(s))
  {
    assert s.sent + [] == s.sent;
    PushInv(s.bus, s.rank, s.pushed, s.origin, s.sent, [], BusWrite(RequestPage, s.page, |s.sent|));
  }

  lemma StoreInv(s: State)
    requires Inv(s) && s.port.writer.Storing?
    ensures Inv(s.(port := W.Store(s.port)))
  {
    W.StoreInv(s.port);
    if s.pc.Reading? { W.ReaderInvUnderStore(s.port, s.pc.reader); }
  }

  lemma PopInv(bus: seq<BusWrite>, rank: nat, pushed: nat, o: Origin, sent: seq<byte>)
    requires BusInv(bus, rank, pushed, o, sent) && bus != []
    ensures BusInv(bus[1..], Rank(bus[0]), pushed, o, sent)
    ensures Continues(bus[0], rank, o, sent)
  {
    var bus', rank' := bus[1..], Rank(bus[0]);
    assert ContinuesAt(bus, rank, o, sent, 0);
    forall i: nat | i < |bus'|
      ensures ContinuesAt(bus', rank', o, sent, i)
    {
      assert ContinuesAt(bus, rank, o, sent, i + 1);
    }
  }

  lemma PopCommandCart(s: State)
    requires CartInv(s) && CanPop(s) && s.bus[0].kind == SetCommand
    ensures CartInv(Pop(s)) && Submits(Pop(s).rank) == Submits(s.rank)
  {
    PopInv(s.bus, s.rank, s.pushed, s.origin, s.sent);
  }

  lemma PopCommandInv(s: State)
    requires Inv(s) && CanPop(s) && s.bus[0].kind == SetCommand
    ensures Inv(Pop(s))
  {
    PopCommandCart(s);
  }

  /** The next ticket always starts a new request: its turn has come and nothing is in its way. */
  lemma NextTicketIsGranted(
    link: L.Mailbox, p: nat, o: Origin, sent: seq<byte>, answers: map<nat, Answer>)
    requires Entered(o) && LinkInv(link, p, o, sent, answers) && OnlyLockWaits(link.active.Some?, sent, p)
    requires p < |sent| && sent[p] != 0
    ensures L.Grants(link, Tick(o, p + 1), sent[p])
    ensures L.NewRequest(link, Tick(o, p + 1), sent[p]) == Req(o, sent, p + 1)
  {
    TickNext(o, if p >= 1 then p else 1);
    L.NextEpoch(o.link.epoch + p);
  }

  lemma SubmitLinkInv(
    link: L.Mailbox, p: nat, o: Origin, sent: seq<byte>, answers: map<nat, Answer>)
    requires Entered(o) && LinkInv(link, p, o, sent, answers) && OnlyLockWaits(link.active.Some?, sent, p)
    requires p < |sent| && sent[p] != 0
    ensures var link' := L.Submitted(link, Tick(o, p + 1), sent[p]);
      && LinkInv(link', p + 1, o, sent, answers) && OnlyLockWaits(true, sent, p + 1)
      && link'.active.Some? && link'.queued.Some?
    ensures InTurn(sent, p, answers) ==> InTurn(sent, p + 1, answers)
  {
    NextTicketIsGranted(link, p, o, sent, answers);
  }

  lemma SnapsAge(snaps: seq<Snap>, pubs: seq<seq<byte>>, p: nat, o: Origin, link: L.Mailbox)
    requires SnapInv(snaps, pubs, p, o)
    ensures SnapInv(snaps, pubs, p + 1, o) && AnswerStays(snaps, p + 1, link)
  {
    forall j: nat | 1 <= j < |snaps|
      ensures SnapAt(snaps, pubs, p + 1, o, j) && snaps[j].no <= p
    {
      assert SnapAt(snaps, pubs, p, o, j);
    }
  }

  lemma WorkAges(
    queued: bool, worker: Option<Job>, ran: seq<nat>, performed: seq<byte>, p: nat, o: Origin, sent: seq<byte>,
    answers: map<nat, Answer>)
    requires WorkInv(queued, worker, ran, performed, p, o, sent, answers) && p < |sent|
    requires worker.Some? ==> Age(o, worker.value, p) + 1 < L.EPOCHS
    ensures WorkInv(true, worker, ran, performed, p + 1, o, sent, answers)
  {
  }

  /** A ticket comes right after its command and raises the ticket count by one. */
  lemma TicketRank(
    bus: seq<BusWrite>, rank: nat, pushed: nat, o: Origin, sent: seq<byte>, command: byte, snaps: seq<Snap>)
    requires BusInv(bus, rank, pushed, o, sent) && bus != [] && bus[0].kind == SubmitTicket
    requires SentInv(sent, rank, command) && LagInv(snaps, W.Quiet, rank)
    ensures var p, rank' := Submits(rank), Rank(bus[0]);
      && Submits(rank') == p + 1 <= |sent| && command == sent[p] != 0 && bus[0].value == Tick(o, p + 1)
      && BusInv(bus[1..], rank', pushed, o, sent) && SentInv(sent, rank', command)
      && LagInv(snaps, W.Quiet, rank')
  {
    PopInv(bus, rank, pushed, o, sent);
  }

  lemma PopTicketCart(s: State)
    requires CartInv(s) && CanPop(s) && s.bus[0].kind == SubmitTicket
    ensures CartInv(Pop(s))
  {
    var p := Submits(s.rank);
    TicketRank(s.bus, s.rank, s.pushed, s.origin, s.sent, s.command, s.snaps);
    SubmitLinkInv(s.link, p, s.origin, s.sent, s.answers);
    SnapsAge(s.snaps, s.port.pubs, p, s.origin, Pop(s).link);
    WorkAges(s.link.queued.Some?, s.worker, s.ran, s.performed, p, s.origin, s.sent, s.answers);
  }

  lemma PopTicketInv(s: State)
    requires Inv(s) && CanPop(s) && s.bus[0].kind == SubmitTicket
    ensures Inv(Pop(s))
  {
    PopTicketCart(s);
    PopInv(s.bus, s.rank, s.pushed, s.origin, s.sent);
    assert ContinuesAt(s.bus, s.rank, s.origin, s.sent, 0);
    assert Submits(s.rank) < |s.sent|;
  }

  lemma ShowPage(
    snaps: seq<Snap>, port: W.Port, p: nat, o: Origin, sent: seq<byte>, answers: map<nat, Answer>,
    link: L.Mailbox, index: byte)
    requires LinkInv(link, p, o, sent, answers) && p >= 1
    requires W.PortInv(port) && port.writer == W.Quiet
    requires SnapInv(snaps, port.pubs, p, o) && AnswerStays(snaps, p, link)
    requires snaps[|snaps| - 1].no <= p <= snaps[|snaps| - 1].no + 1
    ensures var port', snaps' := W.Begin(port, L.PageOf(link, index)), snaps + [Snap(p, index, link)];
      SnapInv(snaps', port'.pubs, p, o) && AnswerStays(snaps', p, link)
  {
    var port', snaps' := W.Begin(port, L.PageOf(link, index)), snaps + [Snap(p, index, link)];
    var page := port'.pubs[|port.pubs|];
    assert page[4..36] == L.PageOf(link, index)[4..36];
    assert Displays(page, Snap(p, index, link));
    forall j: nat | 1 <= j < |snaps'|
      ensures SnapAt(snaps', port'.pubs, p, o, j)
    {
      if j < |snaps| { assert SnapAt(snaps, port.pubs, p, o, j); }
    }
  }

  /** A page published while an answer is being fetched shows that answer. */
  lemma FetchSeesItsAnswer(s: State)
    requires Inv(s) && CanPop(s) && s.bus[0].kind == RequestPage && s.bus[0].no == Submits(s.rank)
    requires FetchInv(s) && Submits(Rank(s.bus[0])) == Submits(s.rank)
    ensures FetchInv(Pop(s))
  {
    var s' := Pop(s);
    W.BeginInv(s.port, L.PageOf(s.link, s.bus[0].value));
    forall j | W.Begun(s'.port) <= j < |s'.snaps|
      ensures 0 <= j && Shows(s'.snaps[j], |s'.sent|, s'.link)
    {
      if j < |s.snaps| { assert Shows(s.snaps[j], |s.sent|, s.link); }
    }
  }

  /** A page request comes after its ticket and changes no ticket count. */
  lemma PageRank(
    bus: seq<BusWrite>, rank: nat, pushed: nat, o: Origin, sent: seq<byte>, snaps: seq<Snap>)
    requires BusInv(bus, rank, pushed, o, sent) && bus != [] && bus[0].kind == RequestPage
    requires LagInv(snaps, W.Quiet, rank)
    ensures bus[0].no == Submits(rank) == Submits(Rank(bus[0])) && Rank(bus[0]) % 3 == 2
    ensures BusInv(bus[1..], Rank(bus[0]), pushed, o, sent)
    ensures snaps[|snaps| - 1].no <= bus[0].no <= snaps[|snaps| - 1].no + 1 && bus[0].no >= 1
  {
    PopInv(bus, rank, pushed, o, sent);
  }

  lemma PopPageCart(s: State)
    requires Inv(s) && CanPop(s) && s.bus[0].kind == RequestPage
    ensures CartInv(Pop(s))
  {
    var w := s.bus[0];
    PageRank(s.bus, s.rank, s.pushed, s.origin, s.sent, s.snaps);
    ShowPage(s.snaps, s.port, w.no, s.origin, s.sent, s.answers, s.link, w.value);
    W.BeginInv(s.port, L.PageOf(s.link, w.value));
  }

  lemma PopPageInv(s: State)
    requires Inv(s) && CanPop(s) && s.bus[0].kind == RequestPage
    ensures Inv(Pop(s))
  {
    var w := s.bus[0];
    PopPageCart(s);
    PageRank(s.bus, s.rank, s.pushed, s.origin, s.sent, s.snaps);
    W.BeginInv(s.port, L.PageOf(s.link, w.value));
    if s.pc.Reading? { W.ReaderInvUnderBegin(s.port, L.PageOf(s.link, w.value), s.pc.reader); }
    if (s.pc.Asking? || s.pc.Reading?) && s.pc.phase.Fetching? { FetchSeesItsAnswer(s); }
  }

  lemma TakeWorkInv(
    ran: seq<nat>, performed: seq<byte>, p: nat, o: Origin, sent: seq<byte>, answers: map<nat, Answer>, r: L.Request)
    requires WorkInv(true, None, ran, performed, p, o, sent, answers)
    requires 1 <= p && r == Req(o, sent, p)
    ensures WorkInv(false, Some(Job(r, p)), ran + [p], performed + [r.command], p, o, sent, answers)
  {
  }

  /** Before the first ticket of this session, what is queued is the earlier session's request. */
  lemma TakeLeftoverInv(s: State)
    requires Inv(s) && s.worker.None? && s.link.queued.Some? && Submits(s.rank) == 0
    ensures Inv(Take(s))
  {
  }

  lemma TakeOwnInv(s: State)
    requires Inv(s) && s.worker.None? && s.link.queued.Some? && Submits(s.rank) > 0
    ensures Inv(Take(s))
  {
    TakeWorkInv(s.ran, s.performed, Submits(s.rank), s.origin, s.sent, s.answers, s.link.queued.value);
  }

  lemma TakeInv(s: State)
    requires Inv(s) && s.worker.None? && s.link.queued.Some?
    ensures Inv(Take(s))
  {
    if Submits(s.rank) == 0 { TakeLeftoverInv(s); } else { TakeOwnInv(s); }
  }

  /** A request of an earlier session does not have the epoch of one of this session. */
  lemma LeftoverIsOld(base: nat, e: nat, lag: nat, p: nat)
    requires base < L.EPOCHS && (e + lag) % L.EPOCHS == base && 0 < p && p + lag < L.EPOCHS
    ensures e != (base + p) % L.EPOCHS
  {
    if e == (base + p) % L.EPOCHS {
      EpochSum(base + p, lag);
      L.SameEpochSameRequest(base + L.EPOCHS - 1, base + L.EPOCHS - 1 + p + lag);
    }
  }

  lemma EpochSum(x: nat, lag: nat)
    ensures (x % L.EPOCHS + lag) % L.EPOCHS == (x + lag) % L.EPOCHS
  {
  }

  /** A completion is accepted only for the latest ticket. */
  lemma AcceptedJobIsLatest(s: State)
    requires Inv(s) && s.worker.Some? && s.link.active == Some(s.worker.value.request)
    ensures s.worker.value.no == Submits(s.rank)
  {
    var job, p, base := s.worker.value, Submits(s.rank), s.origin.link.epoch;
    if job.no == 0 {
      if p > 0 { LeftoverIsOld(base, job.request.epoch, Lag(s.origin, job.request), p); }
    } else {
      L.SameEpochSameRequest(base + job.no - 1, base + p - 1);
    }
  }

  lemma FinishStaleInv(s: State, report: seq<byte>, qr: seq<byte>)
    requires Inv(s) && s.worker.Some? && |report| == L.REPORT_BYTES
    requires s.link.active != Some(s.worker.value.request)
    ensures Inv(Finish(s, report, qr))
  {
  }

  lemma FinishOwnInv(s: State, report: seq<byte>, qr: seq<byte>)
    requires Inv(s) && s.worker.Some? && |report| == L.REPORT_BYTES && s.worker.value.no > 0
    requires s.link.active == Some(s.worker.value.request)
    ensures Inv(Finish(s, report, qr))
  {
    AcceptedJobIsLatest(s);
    assert AnswerStays(s.snaps, Submits(s.rank), Finish(s, report, qr).link);
  }

  /** Nothing of this session can be waiting for the answer to an earlier one. */
  lemma FinishLeftoverInv(s: State, report: seq<byte>, qr: seq<byte>)
    requires Inv(s) && s.worker.Some? && |report| == L.REPORT_BYTES && s.worker.value.no == 0
    requires s.link.active == Some(s.worker.value.request)
    ensures Inv(Finish(s, report, qr))
  {
    AcceptedJobIsLatest(s);
    NoPageYet(s.snaps, s.port.pubs, s.origin, Submits(s.rank));
  }

  lemma PagesFollowTickets(snaps: seq<Snap>, pubs: seq<seq<byte>>, o: Origin, p: nat)
    requires SnapInv(snaps, pubs, p, o) && |snaps| > 1
    ensures p >= 1
  {
    assert SnapAt(snaps, pubs, p, o, 1);
  }

  lemma NoPageYet(snaps: seq<Snap>, pubs: seq<seq<byte>>, o: Origin, p: nat)
    requires SnapInv(snaps, pubs, p, o) && p == 0
    ensures |snaps| == 1
  {
    if |snaps| > 1 { PagesFollowTickets(snaps, pubs, o, p); }
  }

  lemma FinishInv(s: State, report: seq<byte>, qr: seq<byte>)
    requires Inv(s) && s.worker.Some? && |report| == L.REPORT_BYTES
    ensures Inv(Finish(s, report, qr))
  {
    if s.link.active != Some(s.worker.value.request) { FinishStaleInv(s, report, qr); }
    else if s.worker.value.no > 0 { FinishOwnInv(s, report, qr); }
    else { FinishLeftoverInv(s, report, qr); }
  }

  lemma RejectedInv(s: State)
    requires Inv(s) && s.pc.Reading?
    ensures Inv(Rejected(s))
  {
  }

  /** Core 0 lags fewer than 255 sends behind the client. */
  lemma {:induction false} LagBound(bus: seq<BusWrite>, rank: nat, pushed: nat, o: Origin, sent: seq<byte>)
    requires BusInv(bus, rank, pushed, o, sent)
    ensures rank <= pushed <= rank + |bus|
    decreases |bus|
  {
    if bus != [] {
      PopInv(bus, rank, pushed, o, sent);
      LagBound(bus[1..], Rank(bus[0]), pushed, o, sent);
    }
  }

  /** What a full, accepted copy is: one publication, and no publication began since. */
  lemma AcceptedCopy(s: State)
    requires Inv(s) && s.pc.Reading? && s.pc.reader.Copying? && |s.pc.reader.stage| == W.WINDOW
    requires W.Verdict(s.port, s.pc.reader, s.page)
    ensures var j := W.Begun(s.port);
      && 1 <= j < |s.snaps| && s.pc.reader.stage == s.port.pubs[j]
      && SnapAt(s.snaps, s.port.pubs, Submits(s.rank), s.origin, j)
      && |s.sent| < s.snaps[j].no + 255 && s.snaps[j].index == s.page
  {
    W.AcceptedIsOnePublication(s.port, s.pc.reader, s.page);
    var j, last := W.Begun(s.port), |s.snaps| - 1;
    assert SnapAt(s.snaps, s.port.pubs, Submits(s.rank), s.origin, j);
    LastNumber(s);
    if j != last {
      assert SnapAt(s.snaps, s.port.pubs, Submits(s.rank), s.origin, last);
    }
  }

  /** Core 0 lags fewer than 254 sends behind the client. */
  lemma LastNumber(s: State)
    requires Inv(s)
    ensures |s.sent| + 1 < s.snaps[|s.snaps| - 1].no + 255
  {
    LagBound(s.bus, s.rank, s.pushed, s.origin, s.sent);
  }

  /** From the page that shows the latest answer on, every page shows it. */
  lemma AnswerShownFrom(
    snaps: seq<Snap>, pubs: seq<seq<byte>>, p: nat, o: Origin, link: L.Mailbox, j: nat)
    requires SnapInv(snaps, pubs, p, o) && AnswerStays(snaps, p, link)
    requires 1 <= j < |snaps| && snaps[j].no == p && snaps[j].link.active.None?
    ensures link.active.None? && forall k :: j <= k < |snaps| ==> Shows(snaps[k], p, link)
  {
    NumbersGrow(snaps, pubs, p, o, j);
  }

  lemma {:induction false} NumbersGrow(snaps: seq<Snap>, pubs: seq<seq<byte>>, p: nat, o: Origin, j: nat)
    requires SnapInv(snaps, pubs, p, o) && 1 <= j < |snaps| && snaps[j].no == p
    ensures forall k :: j <= k < |snaps| ==> snaps[k].no == p
    decreases |snaps| - j
  {
    if j + 1 < |snaps| {
      assert SnapAt(snaps, pubs, p, o, j + 1);
      NumbersGrow(snaps, pubs, p, o, j + 1);
    }
  }

  /** The accepted page belongs to this very send: tickets repeat only after 255 sends. */
  lemma AcceptedNumber(s: State)
    requires Inv(s) && s.pc.Reading? && s.pc.reader.Copying? && |s.pc.reader.stage| == W.WINDOW
    requires W.Verdict(s.port, s.pc.reader, s.page)
    requires s.page == 0 && s.pc.reader.stage[1] == s.ticket && s.pc.reader.stage[2] == 0
    ensures var j := W.Begun(s.port);
      && 1 <= j < |s.snaps| && s.snaps[j].no == |s.sent| == Submits(s.rank) && s.snaps[j].link.active.None?
  {
    AcceptedCopy(s);
    TickInjective(s.origin, s.snaps[W.Begun(s.port)].no, |s.sent|);
  }

  /** A page showing our ticket and no pending work is the answer to this very send. */
  lemma WaitingSeesItsAnswer(s: State)
    requires Inv(s) && s.pc.Reading? && s.pc.phase.Waiting?
    requires s.pc.reader.Copying? && |s.pc.reader.stage| == W.WINDOW
    requires W.Verdict(s.port, s.pc.reader, s.page)
    requires s.pc.reader.stage[1] == s.ticket && s.pc.reader.stage[2] == 0
    ensures FetchInv(s.(page := 0))
  {
    AcceptedNumber(s);
    AnswerShownFrom(s.snaps, s.port.pubs, Submits(s.rank), s.origin, s.link, W.Begun(s.port));
  }

  lemma AnsweredInv(s: State, s': State)
    requires Inv(s) && s.pc.Reading? && s.pc.phase.Waiting? && FetchInv(s.(page := 0))
    requires s' == s.(pc := Asking(Fetching), page := 0)
    ensures Inv(s')
  {
  }

  /** The payload of an accepted page while fetching is the answer's. */
  lemma FetchedPayload(s: State)
    requires Inv(s) && s.pc.Reading? && s.pc.phase.Fetching?
    requires s.pc.reader.Copying? && |s.pc.reader.stage| == W.WINDOW && W.Verdict(s.port, s.pc.reader, s.page)
    ensures var at := L.PAYLOAD * s.page;
      |s.link.frame| == L.FRAME_BYTES && s.pc.reader.stage[4..36] == s.link.frame[at..at + L.PAYLOAD]
  {
    AcceptedCopy(s);
    assert Shows(s.snaps[W.Begun(s.port)], |s.sent|, s.link);
  }

  lemma SpliceNext(report: seq<byte>, frame: seq<byte>, at: nat, n: nat)
    requires at + n <= |report| == |frame| && report[..at] == frame[..at]
    ensures Splice(report, at, frame[at..at + n])[..at + n] == frame[..at + n]
  {
    var r := Splice(report, at, frame[at..at + n]);
    assert r[..at + n] == r[..at] + frame[at..at + n];
    assert frame[..at + n] == frame[..at] + frame[at..at + n];
  }

  /** One more page of the answer in work RAM. */
  lemma FetchedPage(s: State)
    requires Inv(s) && s.pc.Reading? && s.pc.phase.Fetching?
    requires s.pc.reader.Copying? && |s.pc.reader.stage| == W.WINDOW && W.Verdict(s.port, s.pc.reader, s.page)
    ensures var s', n := Accepted(s, s.pc.reader.stage), L.PAYLOAD * (s.page + 1);
      s'.report[..n] == s.link.frame[..n] && |s'.report| == REPORT_WRAM
  {
    FetchedPayload(s);
    SpliceNext(s.report, s.link.frame, L.PAYLOAD * s.page, L.PAYLOAD);
  }

  lemma FetchedInv(s: State, s': State)
    requires Inv(s) && s.pc.Reading? && s.pc.phase.Fetching?
    requires s' == s.(report := s'.report, page := s.page + 1, pc := s'.pc)
    requires |s'.report| == REPORT_WRAM
    requires s'.report[..L.PAYLOAD * (s.page + 1)] == s.link.frame[..L.PAYLOAD * (s.page + 1)]
    requires var more := s'.page < 4 || (s'.report[1] == QR_READY && s'.page < 11);
      s'.pc == if more then Asking(Fetching) else Idle(true)
    ensures Inv(s')
  {
    var n := L.PAYLOAD * (s.page + 1);
    if s'.pc == Idle(true) {
      assert s'.report[..n][..128] == s'.report[..128] && s.link.frame[..n][..128] == s.link.frame[..128];
      assert s'.report[1] == s'.report[..128][1] && s.link.frame[1] == s.link.frame[..128][1];
    }
  }

  lemma AcceptedInv(s: State)
    requires Inv(s) && s.pc.Reading? && s.pc.reader.Copying? && |s.pc.reader.stage| == W.WINDOW
    requires W.Verdict(s.port, s.pc.reader, s.page)
    ensures Inv(Accepted(s, s.pc.reader.stage))
  {
    match s.pc.phase
    case Waiting(_) =>
      if s.pc.reader.stage[1] == s.ticket && s.pc.reader.stage[2] == 0 {
        WaitingSeesItsAnswer(s);
        AnsweredInv(s, Accepted(s, s.pc.reader.stage));
      } else {
        RejectedInv(s);
      }
    case Fetching =>
      FetchedPage(s);
      FetchedInv(s, Accepted(s, s.pc.reader.stage));
  }

  lemma ReadStepInv(s: State)
    requires Inv(s) && s.pc.Reading?
    ensures Inv(ReadStep(s))
  {
    var r := s.pc.reader;
    if r.Fresh? {
      if W.ReadFirst(s.port).Some? { W.ReadFirstInv(s.port); } else { RejectedInv(s); }
    } else if |r.stage| < W.WINDOW {
      W.ReadNextInv(s.port, r);
    } else if W.Verdict(s.port, r, s.page) {
      AcceptedInv(s);
    } else {
      RejectedInv(s);
    }
  }

  lemma StepInv(s: State, a: Act)
    requires Inv(s)
    ensures Inv(Step(s, a))
  {
    if Enabled(s, a) {
      match a
      case AStart(c) => StartInv(s, c);
      case ATicket => TicketInv(s);
      case AAsk => AskInv(s);
      case ARead => ReadStepInv(s);
      case APop =>
        if s.bus[0].kind == SetCommand { PopCommandInv(s); }
        else if s.bus[0].kind == SubmitTicket { PopTicketInv(s); }
        else { PopPageInv(s); }
      case AStore => StoreInv(s);
      case ATake => TakeInv(s);
      case AFinish(report, qr) => FinishInv(s, report, qr);
    }
  }

  ghost function Exec(s: State, acts: seq<Act>): (s': State)
    requires Inv(s)
    ensures Inv(s')
    decreases |acts|
  {
    if acts == [] then s
    else StepInv(s, acts[0]); Exec(Step(s, acts[0]), acts[1..])
  }

  // ----- what a successful send means -----

  /** How often the command of send number `no` was handed to the worker. */
  function TimesRun(ran: seq<nat>, no: nat): nat {
    multiset(ran)[no]
  }

  lemma {:induction false} IncreasingMeansOnce(ran: seq<nat>, no: nat)
    requires forall i, j :: 0 <= i < j < |ran| ==> ran[i] < ran[j]
    ensures TimesRun(ran, no) == if no in ran then 1 else 0
  {
    if ran != [] {
      var front, last := ran[..|ran| - 1], ran[|ran| - 1];
      assert ran == front + [last];
      IncreasingMeansOnce(front, no);
      assert no in ran <==> no in front || no == last;
    }
  }

  /** The state after a run that starts with what this session found. */
  ghost function Run(o: Origin, acts: seq<Act>): (s: State)
    requires Entered(o)
    ensures Inv(s)
  {
    InitInv(o);
    Exec(Init(o), acts)
  }

  /** The report of send `no` is in work RAM, and it is the answer the worker gave to it. */
  ghost predicate Delivered(s: State, no: nat) {
    && no in s.answers && |s.answers[no].report| == L.REPORT_BYTES && |s.report| == REPORT_WRAM
    && s.report[..128] == s.answers[no].report
    && (s.answers[no].report[1] == QR_READY ==>
          s.report[128..352] == L.FrameOf(s.answers[no].report, s.answers[no].qr)[128..352])
  }

  lemma SettledIsDelivered(s: State)
    requires Inv(s) && s.pc == Idle(true)
    ensures |s.sent| >= 1 && |s.sent| in s.ran && Delivered(s, |s.sent|)
  {
    var no := |s.sent|;
    var frame := s.link.frame;
    assert frame == L.FrameOf(s.answers[no].report, s.answers[no].qr);
    assert frame[..128] == s.answers[no].report;
    assert frame[1] == frame[..128][1];
    if frame[1] == QR_READY {
      assert s.report[128..352] == s.report[..352][128..] == frame[..352][128..] == frame[128..352];
    }
  }

  /**
   In every interleaving of client, core 0 and core 1, from any leftover ticket byte: whenever
   a send has succeeded, its command ran exactly once, the worker's answer for that very send
   is stored, the 128 report bytes in work RAM are exactly the report, and if the report says a
   QR is ready, the next 224 bytes are exactly the (zero padded) QR buffer.
   */
  lemma SuccessfulSendIsExact(o: Origin, acts: seq<Act>)
    requires Entered(o) && Run(o, acts).pc == Idle(true)
    ensures var s := Run(o, acts);
      |s.sent| >= 1 && TimesRun(s.ran, |s.sent|) == 1 && Delivered(s, |s.sent|)
  {
    var s := Run(o, acts);
    SettledIsDelivered(s);
    IncreasingMeansOnce(s.ran, |s.sent|);
  }

  /** Jobs run in sending order, each at most once, and only what ran is answered. */
  ghost predicate RanInOrder(s: State, no: nat) {
    && TimesRun(s.ran, no) <= 1 && (no in s.answers ==> TimesRun(s.ran, no) == 1)
    && |s.performed| == |s.ran|
    && (forall i, j :: 0 <= i < j < |s.ran| ==> s.ran[i] < s.ran[j])
    && (forall i :: 0 <= i < |s.ran| ==> 1 <= s.ran[i] <= |s.sent| && s.performed[i] == s.sent[s.ran[i] - 1])
    && (forall i :: 0 <= i < |s.ran| && s.performed[i] != L.LOCK ==> s.ran[i] - 1 in s.answers)
  }

  lemma InvRunsInOrder(s: State, no: nat)
    requires var p := Submits(s.rank);
      && WorkInv(s.link.queued.Some?, s.worker, s.ran, s.performed, p, s.origin, s.sent, s.answers)
      && InTurn(s.sent, p, s.answers)
    ensures RanInOrder(s, no)
  {
    IncreasingMeansOnce(s.ran, no);
  }

  /**
   Successful or not: no send runs twice, the commands core 1 performed are those of the sends it
   ran, in sending order, an answer exists only for a command that ran, and a command other than
   LOCK ran only after the send before it had been answered.
   */
  lemma NothingRunsTwice(o: Origin, acts: seq<Act>, no: nat)
    requires Entered(o)
    ensures RanInOrder(Run(o, acts), no)
  {
    InvRunsInOrder(Run(o, acts), no);
  }

  // ----- the next session -----

  /**
   What the next session finds if the client enters again now, with this ticket byte. Core 0 is taken
   to have handled the bus writes of the session before.
   */
  function Reentry(s: State, ticket: byte): Origin {
    Origin(ticket, s.command, s.link, if s.worker.Some? then Some(s.worker.value.request) else None,
           if s.worker.Some? then Max0(Age(s.origin, s.worker.value, Submits(s.rank))) else 0)
  }

  function Max0(x: int): nat { if x < 0 then 0 else x }

  /** A job's request is as many grants behind the mailbox as its age says. */
  lemma BehindByAge(s: State)
    requires Inv(s) && s.worker.Some?
    ensures var age := Age(s.origin, s.worker.value, Submits(s.rank));
      && 0 <= age < L.EPOCHS && s.worker.value.request.epoch < L.EPOCHS
      && (s.worker.value.request.epoch + age) % L.EPOCHS == s.link.epoch
  {
    var o, job, p := s.origin, s.worker.value, Submits(s.rank);
    if job.no == 0 {
      SameSum(job.request.epoch, Lag(o, job.request), o.link.epoch, p);
    } else {
      EpochSum(o.link.epoch + job.no, p - job.no);
    }
  }

  lemma SameSum(e: nat, lag: nat, base: nat, p: nat)
    requires (e + lag) % L.EPOCHS == base
    ensures (e + (p + lag)) % L.EPOCHS == (base + p) % L.EPOCHS
  {
    EpochSum(e + lag, p);
  }

  lemma ActiveEpoch(s: State)
    requires Inv(s) && s.link.active.Some?
    ensures s.link.active.value.epoch == s.link.epoch
  {
  }

  lemma HeldIsNotQueued(s: State)
    requires Inv(s) && s.worker.Some? && s.link.active == Some(s.worker.value.request)
    ensures s.link.queued.None?
  {
    AcceptedJobIsLatest(s);
  }

  /**
   Sessions follow each other: whatever a session has done so far, the next one can rely on all of the
   above if and only if the ticket it will use first is not the one of the request still under way.
   */
  lemma ReentryIff(s: State, ticket: byte)
    requires Inv(s)
    ensures Entered(Reentry(s, ticket))
       <==> !(s.link.active.Some? && s.link.active.value.ticket == NextTicket(ticket))
  {
    var o := Reentry(s, ticket);
    TickNext(o, 1);
    if s.link.active.Some? { ActiveEpoch(s); }
    if s.worker.Some? {
      BehindByAge(s);
      if s.link.active == Some(s.worker.value.request) { HeldIsNotQueued(s); }
    }
  }

  lemma ReachedReentryIff(o: Origin, acts: seq<Act>, ticket: byte)
    requires Entered(o)
    ensures var s := Run(o, acts);
      Entered(Reentry(s, ticket))
      <==> !(s.link.active.Some? && s.link.active.value.ticket == NextTicket(ticket))
  {
    ReentryIff(Run(o, acts), ticket);
  }

  /**
   And otherwise: the first LOCK is taken for a repetition and dropped, and once core 1 has finished the
   earlier request, page 0 shows this session's ticket, nothing under way, and the earlier report:
   all that the client asks of the answer to its LOCK.
   */
  lemma StaleTicketSwallowsLock(o: Origin, report: seq<byte>, qr: seq<byte>)
    requires L.Wf(o.link) && o.link.active.Some? && o.link.active.value.ticket == NextTicket(o.ticket)
    requires |report| == L.REPORT_BYTES
    ensures var s := StartSend(Init(o), L.LOCK);
      var t := PushTicket(s);
      && |t.bus| == 2 && Pop(Pop(t)).link == o.link
      && var page := L.PageOf(L.Finished(o.link, o.link.active.value, report, qr), 0);
         page[1] == t.ticket && page[2] == 0 && page[4..36] == report[..32]
  {
    var link := L.Finished(o.link, o.link.active.value, report, qr);
    assert link.frame[..128] == report;
    assert link.frame[0..32] == link.frame[..128][..32];
    assert L.PageOf(link, 0)[4..36] == L.Payload(link, 0);
  }
}
