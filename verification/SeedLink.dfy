/**
 The Crystal mailbox (cartridge-core/src/seed_link.rs): one slot, 8-bit tickets, 32-bit
 epochs and a LOCK command that supersedes whatever is in flight.

 `Mailbox` is the value of a `Link`; the functions on it specify the methods of the class,
 and the lemmas below speak about every sequence of calls.
 */
module SeedLink {
  import opened Bytes

  const MARKER: seq<byte> := [0x43, 0x53, 0x44, 0x32, 1]
  const PAYLOAD := 32
  const PAGE_BYTES := 38
  const FRAME_BYTES := 640
  const REPORT_BYTES := 128
  const QR_BYTES := 512
  const EPOCHS := 0x1_0000_0000
  const LOCK: byte := 10

  datatype Request = Request(epoch: nat, ticket: byte, command: byte)

  datatype Mailbox = Mailbox(
    frame: seq<byte>, queued: Option<Request>, active: Option<Request>, epoch: nat, ack: byte)

  ghost predicate Wf(m: Mailbox) {
    |m.frame| == FRAME_BYTES && m.epoch < EPOCHS
  }

  function Empty(): Mailbox {
    Mailbox(Zeros(FRAME_BYTES), None, None, 0, 0)
  }

  /** The request is already running, or its answer is already the current one. */
  predicate Duplicate(m: Mailbox, ticket: byte, command: byte) {
    (m.active.Some? && m.active.value.ticket == ticket) || (m.ack == ticket && command != LOCK)
  }

  /** The submission starts a new request. */
  predicate Grants(m: Mailbox, ticket: byte, command: byte) {
    ticket != 0 && command != 0 && !Duplicate(m, ticket, command) && (m.active.None? || command == LOCK)
  }

  /** What `submit` answers: a new request or a recognised duplicate. */
  predicate Acknowledges(m: Mailbox, ticket: byte, command: byte) {
    ticket != 0 && command != 0 && (Duplicate(m, ticket, command) || m.active.None? || command == LOCK)
  }

  function NewRequest(m: Mailbox, ticket: byte, command: byte): Request {
    Request((m.epoch + 1) % EPOCHS, ticket, command)
  }

  function Submitted(m: Mailbox, ticket: byte, command: byte): Mailbox {
    if !Grants(m, ticket, command) then m
    else
      var r := NewRequest(m, ticket, command);
      m.(epoch := r.epoch, active := Some(r), queued := Some(r),
         frame := if command == LOCK then Zeros(FRAME_BYTES) else m.frame)
  }

  /** The answer to a submission is yes exactly when its ticket is then under way or already answered. */
  lemma AcknowledgedIff(m: Mailbox, ticket: byte, command: byte)
    ensures var m' := Submitted(m, ticket, command);
      Acknowledges(m, ticket, command)
      <==> ticket != 0 && command != 0
           && ((m'.active.Some? && m'.active.value.ticket == ticket) || (m'.ack == ticket && command != LOCK))
  {
  }

  function Taken(m: Mailbox): Mailbox {
    m.(queued := None)
  }

  /** The frame built from a report and a QR buffer: 128 bytes, at most 512 bytes, zero padding. */
  function FrameOf(report: seq<byte>, qr: seq<byte>): (f: seq<byte>)
    requires |report| == REPORT_BYTES
    ensures |f| == FRAME_BYTES
  {
    var n := Min(|qr|, QR_BYTES);
    report + qr[..n] + Zeros(QR_BYTES - n)
  }

  /** Byte by byte: the report, then the code as far as 512 bytes take it, then zeros. */
  lemma FrameHolds(report: seq<byte>, qr: seq<byte>, i: nat)
    requires |report| == REPORT_BYTES && i < 640
    ensures FrameOf(report, qr)[i]
         == if i < 128 then report[i] else if i - 128 < |qr| then qr[i - 128] else 0
  {
  }

  function Finished(m: Mailbox, r: Request, report: seq<byte>, qr: seq<byte>): Mailbox
    requires |report| == REPORT_BYTES
  {
    if m.active != Some(r) then m
    else m.(frame := FrameOf(report, qr), ack := r.ticket, active := None)
  }

  predicate InFrame(index: byte) {
    index * PAYLOAD + PAYLOAD <= FRAME_BYTES
  }

  function Payload(m: Mailbox, index: byte): (p: seq<byte>)
    requires |m.frame| == FRAME_BYTES
    ensures |p| == PAYLOAD
  {
    if InFrame(index) then m.frame[index * PAYLOAD..index * PAYLOAD + PAYLOAD] else Zeros(PAYLOAD)
  }

  /** Byte 0 and byte 37 are left for the publication sequence number. */
  function PageOf(m: Mailbox, index: byte): (p: seq<byte>)
    requires |m.frame| == FRAME_BYTES
    ensures |p| == PAGE_BYTES
    ensures p[1] == m.ack && p[3] == index && p[36] == 1
    ensures p[2] == 0 <==> m.active.None? && InFrame(index)
    ensures p[4..36] == Payload(m, index)
  {
    var busy: byte := if !InFrame(index) then 2 else if m.active.Some? then 1 else 0;
    [0, m.ack, busy, index] + Payload(m, index) + [1, 0]
  }

  // ----- the object -----

  class Link {
    const frame: array<byte>
    var queued: Option<Request>
    var active: Option<Request>
    var epoch: nat
    var ack: byte

    ghost predicate Valid()
      reads this, frame
    {
      Wf(State())
    }

    ghost function State(): Mailbox
      reads this, frame
    {
      Mailbox(frame[..], queued, active, epoch, ack)
    }

    constructor ()
      ensures Valid() && fresh(frame)
      ensures State() == Empty()
    {
      frame := new byte[FRAME_BYTES](_ => 0);
      queued, active, epoch, ack := None, None, 0, 0;
      new;
      assert frame[..] == Zeros(FRAME_BYTES);
    }

    method Submit(ticket: byte, command: byte) returns (ok: bool)
      requires Valid()
      modifies this, frame
      ensures Valid()
      ensures ok == Acknowledges(old(State()), ticket, command)
      ensures State() == Submitted(old(State()), ticket, command)
    {
      if ticket == 0 || command == 0 {
        return false;
      }
      if (active.Some? && active.value.ticket == ticket) || (ack == ticket && command != LOCK) {
        return true;
      }
      if active.Some? && command != LOCK {
        return false;
      }
      epoch := (epoch + 1) % EPOCHS;
      var r := Request(epoch, ticket, command);
      if command == LOCK {
        forall i | 0 <= i < frame.Length { frame[i] := 0; }
        assert frame[..] == Zeros(FRAME_BYTES);
      }
      active := Some(r);
      queued := Some(r);
      return true;
    }

    method Take() returns (r: Option<Request>)
      requires Valid()
      modifies this`queued
      ensures Valid()
      ensures r == old(queued) && State() == Taken(old(State()))
    {
      r := queued;
      queued := None;
    }

    method Finish(r: Request, report: seq<byte>, qr: seq<byte>) returns (ok: bool)
      requires Valid() && |report| == REPORT_BYTES
      modifies this, frame
      ensures Valid()
      ensures ok == (old(active) == Some(r))
      ensures State() == Finished(old(State()), r, report, qr)
    {
      if active != Some(r) {
        return false;
      }
      var n := Min(|qr|, QR_BYTES);
      forall i | 0 <= i < frame.Length { frame[i] := 0; }
      forall i | 0 <= i < REPORT_BYTES { frame[i] := report[i]; }
      forall i | 0 <= i < n { frame[REPORT_BYTES + i] := qr[i]; }
      assert frame[..] == FrameOf(report, qr);
      ack := r.ticket;
      active := None;
      return true;
    }

    method Page(index: byte) returns (p: seq<byte>)
      requires Valid()
      ensures p == PageOf(State(), index)
    {
      var start := index * PAYLOAD;
      var busy: byte := if active.Some? then 1 else 0;
      var payload := Zeros(PAYLOAD);
      if start + PAYLOAD <= FRAME_BYTES {
        payload := frame[start..start + PAYLOAD];
      } else {
        busy := 2;
      }
      p := [0, ack, busy, index] + payload + [1, 0];
    }
  }

  // ----- all sequences of calls -----

  datatype Event =
    | Submit(ticket: byte, command: byte)
    | Take
    | Finish(request: Request, report: seq<byte>, qr: seq<byte>)

  ghost predicate WfEvent(e: Event) {
    e.Finish? ==> |e.report| == REPORT_BYTES
  }

  function Apply(m: Mailbox, e: Event): Mailbox
    requires WfEvent(e)
  {
    match e
    case Submit(t, c) => Submitted(m, t, c)
    case Take => Taken(m)
    case Finish(r, report, qr) => Finished(m, r, report, qr)
  }

  /**
   A mailbox with the story of its requests: those granted so far, the positions of those
   `take` handed out, and the position of the one the worker holds. There is one worker: it
   takes, runs and finishes one request at a time.
   */
  datatype Ledger = Ledger(m: Mailbox, granted: seq<Request>, taken: seq<nat>, held: Option<nat>)

  function Record(l: Ledger, e: Event): Ledger
    requires WfEvent(e)
  {
    var handsOut := e.Take? && l.m.queued.Some? && |l.granted| > 0;
    Ledger(
      Apply(l.m, e),
      if e.Submit? && Grants(l.m, e.ticket, e.command)
      then l.granted + [NewRequest(l.m, e.ticket, e.command)] else l.granted,
      if handsOut then l.taken + [|l.granted| - 1] else l.taken,
      if handsOut then Some(|l.granted| - 1) else if e.Finish? then None else l.held)
  }

  /**
   The worker takes only when it holds nothing and finishes what it holds, and fewer than 2^32
   requests are granted while it holds one.
   */
  ghost predicate Disciplined(l: Ledger, e: Event) {
    match e
    case Submit(_, _) => l.held.Some? ==> |l.granted| - l.held.value < EPOCHS
    case Take => l.held.None?
    case Finish(r, _, _) => l.held.Some? && l.held.value < |l.granted| && r == l.granted[l.held.value]
  }

  function RecordAll(l: Ledger, es: seq<Event>): Ledger
    requires forall e :: e in es ==> WfEvent(e)
  {
    if es == [] then l else Record(RecordAll(l, es[..|es| - 1]), es[|es| - 1])
  }

  ghost predicate DisciplinedRun(l: Ledger, es: seq<Event>)
    requires forall e :: e in es ==> WfEvent(e)
  {
    es != [] ==>
      DisciplinedRun(l, es[..|es| - 1]) && Disciplined(RecordAll(l, es[..|es| - 1]), es[|es| - 1])
  }

  ghost predicate Consistent(l: Ledger) {
    && Wf(l.m) && l.m.epoch == |l.granted| % EPOCHS
    && (forall i :: 0 <= i < |l.granted| ==> l.granted[i].epoch == (i + 1) % EPOCHS)
    && (l.m.queued.Some? ==> l.m.queued == l.m.active)
    && (l.m.active.Some? ==> |l.granted| > 0 && l.m.active.value == l.granted[|l.granted| - 1])
    && (forall i :: 0 <= i < |l.taken| ==> l.taken[i] < |l.granted|)
    && (l.m.queued.Some? ==> forall i :: 0 <= i < |l.taken| ==> l.taken[i] < |l.granted| - 1)
    && (forall i, j :: 0 <= i < j < |l.taken| ==> l.taken[i] < l.taken[j])
    && (l.held.Some? ==> |l.taken| > 0 && l.held.value == l.taken[|l.taken| - 1]
                         && |l.granted| - l.held.value <= EPOCHS)
  }

  lemma SameEpochSameRequest(i: nat, j: nat)
    requires i <= j < i + EPOCHS && (i + 1) % EPOCHS == (j + 1) % EPOCHS
    ensures i == j
  {
  }

  lemma NextEpoch(n: nat)
    ensures (n % EPOCHS + 1) % EPOCHS == (n + 1) % EPOCHS
  {
  }

  lemma SubmitKeepsConsistent(l: Ledger, ticket: byte, command: byte)
    requires Consistent(l) && Disciplined(l, Submit(ticket, command))
    ensures Consistent(Record(l, Submit(ticket, command)))
  {
    if Grants(l.m, ticket, command) { GrantKeepsConsistent(l, ticket, command); }
  }

  lemma GrantKeepsConsistent(l: Ledger, ticket: byte, command: byte)
    requires Consistent(l) && Disciplined(l, Submit(ticket, command)) && Grants(l.m, ticket, command)
    ensures Consistent(Record(l, Submit(ticket, command)))
  {
    NextEpoch(|l.granted|);
    var r := NewRequest(l.m, ticket, command);
    assert Record(l, Submit(ticket, command))
      == Ledger(Submitted(l.m, ticket, command), l.granted + [r], l.taken, l.held);
  }

  lemma FinishKeepsConsistent(l: Ledger, e: Event)
    requires e.Finish? && WfEvent(e) && Consistent(l) && Disciplined(l, e)
    ensures Consistent(Record(l, e))
  {
    if l.m.active == Some(e.request) {
      SameEpochSameRequest(l.held.value, |l.granted| - 1);
    }
  }

  /**
   Over every run of submissions and one disciplined worker: a queued request is the active
   one, the active one is the latest granted, and the requests handed out by `take` form a
   strictly increasing subsequence of the granted ones, so none is handed out twice.
   */
  lemma {:induction false} QueuedIsActiveAndTakenOnce(es: seq<Event>)
    requires forall e :: e in es ==> WfEvent(e)
    requires DisciplinedRun(Ledger(Empty(), [], [], None), es)
    ensures Consistent(RecordAll(Ledger(Empty(), [], [], None), es))
  {
    if es != [] {
      QueuedIsActiveAndTakenOnce(es[..|es| - 1]);
      var l, e := RecordAll(Ledger(Empty(), [], [], None), es[..|es| - 1]), es[|es| - 1];
      match e
      case Submit(t, c) => SubmitKeepsConsistent(l, t, c);
      case Take =>
      case Finish(_, _, _) => FinishKeepsConsistent(l, e);
    }
  }

  /** The run of `es` from `m`. */
  function Run(m: Mailbox, es: seq<Event>): Mailbox
    requires forall e :: e in es ==> WfEvent(e)
    decreases |es|
  {
    if es == [] then m else Run(Apply(m, es[0]), es[1..])
  }

  /** No completion of a LOCK is accepted anywhere in the run of `es` from `m`. */
  ghost predicate NoLockCompletes(m: Mailbox, es: seq<Event>)
    requires forall e :: e in es ==> WfEvent(e)
    decreases |es|
  {
    es != [] ==>
      && !(es[0].Finish? && m.active == Some(es[0].request) && es[0].request.command == LOCK)
      && NoLockCompletes(Apply(m, es[0]), es[1..])
  }

  ghost predicate Locking(m: Mailbox) {
    m.frame == Zeros(FRAME_BYTES) && m.active.Some? && m.active.value.command == LOCK
  }

  lemma {:induction false} LockingPersists(m: Mailbox, es: seq<Event>)
    requires forall e :: e in es ==> WfEvent(e)
    requires Locking(m) && NoLockCompletes(m, es)
    ensures Locking(Run(m, es))
    decreases |es|
  {
    if es != [] {
      LockingPersists(Apply(m, es[0]), es[1..]);
    }
  }

  /**
   From the acceptance of a LOCK until some LOCK completes, every page carries an all-zero
   payload, whatever other submissions, takes and late completions arrive.
   */
  lemma {:induction false} LockBlanksEveryPage(m: Mailbox, ticket: byte, es: seq<Event>, index: byte)
    requires Wf(m) && Grants(m, ticket, LOCK)
    requires forall e :: e in es ==> WfEvent(e)
    requires NoLockCompletes(Submitted(m, ticket, LOCK), es)
    ensures var after := Run(Submitted(m, ticket, LOCK), es);
      |after.frame| == FRAME_BYTES && Payload(after, index) == Zeros(PAYLOAD)
  {
    LockingPersists(Submitted(m, ticket, LOCK), es);
    var after := Run(Submitted(m, ticket, LOCK), es);
    assert Payload(after, index) == Zeros(PAYLOAD);
  }

  /**
   A LOCK with a nonzero ticket is always answered "accepted", but it takes over exactly when
   its ticket differs from the ticket in flight; otherwise the mailbox does not change at all.
   */
  lemma LockTakesOverIffTicketDiffers(m: Mailbox, ticket: byte)
    requires Wf(m) && ticket != 0
    requires m.active.Some? ==> m.active.value.epoch == m.epoch
    ensures Acknowledges(m, ticket, LOCK)
    ensures var after := Submitted(m, ticket, LOCK);
      (Locking(after) && after.queued == after.active && after.epoch != m.epoch)
      <==> !(m.active.Some? && m.active.value.ticket == ticket)
    ensures m.active.Some? && m.active.value.ticket == ticket ==> Submitted(m, ticket, LOCK) == m
  {
    if Grants(m, ticket, LOCK) {
      assert NewRequest(m, ticket, LOCK).epoch != m.epoch;
    }
  }
}
