/**
 The signer behind the Crystal link: the exchange of `CrystalProtocol` with the worker and terminal
 of `SignerRuns` as core 1 (src/crystal_seed.rs, `Worker::poll`). The command a request carries
 drives the terminal when it is taken, and what finishes the request is the terminal's own report.
 */
module CrystalSigner {
  import opened Bytes
  import C = CrystalProtocol
  import CrystalRuns
  import L = SeedLink
  import P = Psbt
  import Runs
  import R = Report
  import S = SignerRuns
  import W = SeqLock
  import opened Terminal

  /**
   `turns` are the polls of the worker so far. `shown` is history: for every send that has succeeded,
   the 128 report bytes that were in work RAM at that moment.
   */
  datatype State = State(link: C.State, work: S.Work, turns: seq<S.Turn>, shown: map<nat, seq<byte>>)

  /** A step of client or core 0, or core 1 taking a request with this card, or answering it. */
  datatype Act = Bus(a: C.Act) | Serve(card: S.Card) | Answer

  function Init(ticket: byte): State {
    State(C.Init(C.Fresh(ticket)), S.Work(Default(), []), [], map[])
  }

  /** The worker after the first `n` polls. */
  ghost function After(env: Env, turns: seq<S.Turn>, n: nat): (w: S.Work)
    requires Sound(env) && n <= |turns|
    ensures S.WorkInv(env, w)
  {
    S.Polls(env, turns[..n])
  }

  /** The report that answers poll number `i`. */
  ghost function ReportAfter(env: Env, turns: seq<S.Turn>, i: nat): seq<byte>
    requires Sound(env) && i < |turns|
  {
    R.ReportOf(env, After(env, turns, i + 1).t)
  }

  ghost function Reports(env: Env, turns: seq<S.Turn>): (r: seq<seq<byte>>)
    requires Sound(env)
    ensures |r| == |turns| && forall i :: 0 <= i < |turns| ==> r[i] == ReportAfter(env, turns, i)
  {
    seq(|turns|, i requires 0 <= i < |turns| => ReportAfter(env, turns, i))
  }

  // ----- the invariant -----

  /** An answered job has its own report, and the worker's job is the last one, still unanswered. */
  ghost predicate AnswersInv(
    reports: seq<seq<byte>>, ran: seq<nat>, answers: map<nat, C.Answer>, worker: Option<C.Job>)
  {
    && |reports| == |ran|
    && (forall i :: 0 <= i < |ran| && ran[i] in answers ==> answers[ran[i]].report == reports[i])
    && (worker.Some? ==> |ran| > 0 && worker.value.no == ran[|ran| - 1] && worker.value.no !in answers)
  }

  /** The polls are the jobs that ran. */
  ghost predicate LogInv(env: Env, work: S.Work, turns: seq<S.Turn>, performed: seq<byte>)
    requires Sound(env)
  {
    && work == After(env, turns, |turns|) && |turns| == |performed|
    && (forall i :: 0 <= i < |turns| ==> turns[i].c == performed[i])
  }

  /** What was shown was the answer, and every send but LOCK followed one that was shown. */
  ghost predicate ShownInv(
    shown: map<nat, seq<byte>>, answers: map<nat, C.Answer>, sent: seq<byte>, pc: C.Client)
  {
    && (forall no :: no in shown ==> no in answers && shown[no] == answers[no].report)
    && (pc == C.Idle(true) ==> |sent| >= 1 && |sent| in shown)
    && (forall k :: 0 <= k < |sent| && sent[k] != L.LOCK ==> k >= 1 && k in shown)
  }

  ghost predicate Inv(env: Env, j: State)
    requires Sound(env)
  {
    && C.Inv(j.link) && j.link.origin.link.active.None?
    && LogInv(env, j.work, j.turns, j.link.performed)
    && AnswersInv(Reports(env, j.turns), j.link.ran, j.link.answers, j.link.worker)
    && ShownInv(j.shown, j.link.answers, j.link.sent, j.link.pc)
  }

  // ----- steps -----

  /** A success is noted with what it left in work RAM. */
  function Noted(shown: map<nat, seq<byte>>, s: C.State, s': C.State): map<nat, seq<byte>> {
    if s'.pc == C.Idle(true) && s.pc != C.Idle(true) && |s'.report| >= 128
    then shown[|s'.sent| := s'.report[..128]] else shown
  }

  ghost function BusStep(env: Env, j: State, a: C.Act): State
    requires Sound(env) && Inv(env, j)
  {
    var link := C.Step(j.link, a);
    j.(link := link, shown := Noted(j.shown, j.link, link))
  }

  ghost function ServeStep(env: Env, j: State, card: S.Card): State
    requires Sound(env) && Inv(env, j) && j.link.worker.None? && j.link.link.queued.Some?
  {
    var c := j.link.link.queued.value.command;
    j.(link := C.Take(j.link), work := S.Polled(env, j.work, c, card), turns := j.turns + [S.Turn(c, card)])
  }

  ghost function AnswerStep(env: Env, j: State): State
    requires Sound(env) && Inv(env, j) && j.link.worker.Some?
  {
    j.(link := C.Finish(j.link, R.ReportOf(env, j.work.t), j.work.t.qrBuffer))
  }

  /** A step that is not possible leaves the state alone. */
  ghost function Step(env: Env, j: State, a: Act): State
    requires Sound(env) && Inv(env, j)
  {
    match a
    case Bus(b) => if CrystalRuns.IsBus(b) then BusStep(env, j, b) else j
    case Serve(card) => if j.link.worker.None? && j.link.link.queued.Some? then ServeStep(env, j, card) else j
    case Answer => if j.link.worker.Some? then AnswerStep(env, j) else j
  }

  lemma InitInv(env: Env, ticket: byte)
    requires Sound(env)
    ensures Inv(env, Init(ticket))
  {
    C.InitInv(C.Fresh(ticket));
    assert After(env, [], 0) == S.Polls(env, []);
  }

  /** What the client and core 0 leave to core 1, and when a send begins. */
  predicate Leaves(s: C.State, s': C.State) {
    && s'.origin == s.origin && s'.worker == s.worker
    && s'.ran == s.ran && s'.performed == s.performed && s'.answers == s.answers
    && (s'.sent == s.sent
        || (s.pc.Idle? && !s'.pc.Idle? && |s'.sent| == |s.sent| + 1 && s'.sent[..|s.sent|] == s.sent
            && (s.pc.ok || s'.sent[|s.sent|] == L.LOCK)))
  }

  lemma StartLeaves(s: C.State, command: byte)
    requires s.pc.Idle? && (s.pc.ok || command == L.LOCK)
    ensures Leaves(s, C.StartSend(s, command))
  {
  }

  lemma ReadLeaves(s: C.State)
    requires s.pc.Reading? && |s.port.win| == W.WINDOW && |s.report| == C.REPORT_WRAM && s.page <= 10
    ensures Leaves(s, C.ReadStep(s)) && C.ReadStep(s).sent == s.sent
  {
  }

  lemma PopLeaves(s: C.State)
    requires s.bus != [] && |s.link.frame| == L.FRAME_BYTES
    ensures Leaves(s, C.Pop(s))
  {
  }

  lemma ReadShape(s: C.State)
    requires C.Inv(s) && s.pc.Reading?
    ensures |s.port.win| == W.WINDOW && |s.report| == C.REPORT_WRAM && s.page <= 10
  {
  }

  lemma BusFrame(s: C.State, a: C.Act)
    requires C.Inv(s) && CrystalRuns.IsBus(a)
    ensures Leaves(s, C.Step(s, a))
  {
    if C.Enabled(s, a) {
      match a
      case AStart(c) => StartLeaves(s, c);
      case ATicket => assert Leaves(s, C.PushTicket(s));
      case AAsk => assert Leaves(s, C.AskPage(s));
      case ARead => ReadShape(s); ReadLeaves(s);
      case APop => PopLeaves(s);
      case AStore => assert Leaves(s, s.(port := W.Store(s.port)));
    }
  }

  /** A new send is LOCK or follows one that was shown; a success shows the answer. */
  lemma ShownNext(shown: map<nat, seq<byte>>, s: C.State, s': C.State)
    requires Leaves(s, s') && ShownInv(shown, s.answers, s.sent, s.pc)
    requires s'.pc == C.Idle(true) ==> |s'.sent| >= 1 && C.Delivered(s', |s'.sent|)
    ensures ShownInv(Noted(shown, s, s'), s'.answers, s'.sent, s'.pc)
  {
    forall k | 0 <= k < |s'.sent| && s'.sent[k] != L.LOCK
      ensures k >= 1 && k in Noted(shown, s, s')
    {
      if k < |s.sent| { assert s'.sent[k] == s.sent[k]; }
    }
  }

  lemma BusStepInv(env: Env, j: State, a: C.Act)
    requires Sound(env) && Inv(env, j) && CrystalRuns.IsBus(a)
    ensures Inv(env, BusStep(env, j, a))
  {
    C.StepInv(j.link, a);
    BusFrame(j.link, a);
    var s' := C.Step(j.link, a);
    if s'.pc == C.Idle(true) { C.SettledIsDelivered(s'); }
    ShownNext(j.shown, j.link, s');
  }

  lemma AfterPrefix(env: Env, turns: seq<S.Turn>, turn: S.Turn, n: nat)
    requires Sound(env) && n <= |turns|
    ensures After(env, turns + [turn], n) == After(env, turns, n)
  {
    assert (turns + [turn])[..n] == turns[..n];
  }

  /** One more poll in the log. */
  lemma LogTakes(env: Env, work: S.Work, turns: seq<S.Turn>, performed: seq<byte>, turn: S.Turn)
    requires Sound(env) && LogInv(env, work, turns, performed)
    ensures LogInv(env, S.Polled(env, work, turn.c, turn.card), turns + [turn], performed + [turn.c])
  {
    var turns' := turns + [turn];
    assert turns'[..|turns'|] == turns' && turns'[..|turns|] == turns == turns[..|turns|];
  }

  lemma ReportsGrow(env: Env, turns: seq<S.Turn>, turn: S.Turn)
    requires Sound(env)
    ensures Reports(env, turns + [turn])[..|turns|] == Reports(env, turns)
  {
    forall i | 0 <= i < |turns|
      ensures ReportAfter(env, turns + [turn], i) == ReportAfter(env, turns, i)
    {
      AfterPrefix(env, turns, turn, i + 1);
    }
  }

  lemma AnswersTake(
    reports: seq<seq<byte>>, more: seq<seq<byte>>, ran: seq<nat>, answers: map<nat, C.Answer>, job: C.Job)
    requires AnswersInv(reports, ran, answers, None) && job.no !in answers
    requires |more| == |reports| + 1 && more[..|reports|] == reports
    ensures AnswersInv(more, ran + [job.no], answers, Some(job))
  {
    assert forall i :: 0 <= i < |reports| ==> more[i] == more[..|reports|][i];
  }

  lemma TakenIsNew(s: C.State)
    requires C.Inv(s) && s.worker.None? && s.link.queued.Some?
    ensures C.Submits(s.rank) !in s.answers
    ensures C.Take(s).worker == Some(C.Job(s.link.queued.value, C.Submits(s.rank)))
  {
  }

  lemma ServeStepInv(env: Env, j: State, card: S.Card)
    requires Sound(env) && Inv(env, j) && j.link.worker.None? && j.link.link.queued.Some?
    ensures Inv(env, ServeStep(env, j, card))
  {
    var s := j.link;
    C.TakeInv(s);
    TakenIsNew(s);
    var job := C.Take(s).worker.value;
    var turn := S.Turn(job.request.command, card);
    LogTakes(env, j.work, j.turns, s.performed, turn);
    ReportsGrow(env, j.turns, turn);
    AnswersTake(Reports(env, j.turns), Reports(env, j.turns + [turn]), s.ran, s.answers, job);
  }

  /** The last poll's report answers the last job. */
  lemma AnswersFinish(
    reports: seq<seq<byte>>, ran: seq<nat>, answers: map<nat, C.Answer>, job: C.Job, report: seq<byte>, qr: seq<byte>)
    requires AnswersInv(reports, ran, answers, Some(job)) && report == reports[|reports| - 1]
    requires forall i, k :: 0 <= i < k < |ran| ==> ran[i] < ran[k]
    ensures AnswersInv(reports, ran, answers, None)
    ensures AnswersInv(reports, ran, answers[job.no := C.Answer(report, qr)], None)
  {
    assert forall i :: 0 <= i < |ran| - 1 ==> ran[i] < ran[|ran| - 1];
  }

  lemma AnswerStepInv(env: Env, j: State)
    requires Sound(env) && Inv(env, j) && j.link.worker.Some?
    ensures Inv(env, AnswerStep(env, j))
  {
    var s := j.link;
    var report, qr := R.ReportOf(env, j.work.t), j.work.t.qrBuffer;
    C.FinishInv(s, report, qr);
    AnswersFinish(Reports(env, j.turns), s.ran, s.answers, s.worker.value, report, qr);
    AnswersGrow(j.shown, s, report, qr);
  }

  /** A new answer leaves what was shown as it was. */
  lemma AnswersGrow(shown: map<nat, seq<byte>>, s: C.State, report: seq<byte>, qr: seq<byte>)
    requires s.worker.Some? && |report| == L.REPORT_BYTES && s.worker.value.no !in s.answers
    requires ShownInv(shown, s.answers, s.sent, s.pc)
    ensures var s' := C.Finish(s, report, qr);
      ShownInv(shown, s'.answers, s'.sent, s'.pc) && s'.worker.None? && s'.ran == s.ran && s'.performed == s.performed
      && (s'.answers == s.answers || s'.answers == s.answers[s.worker.value.no := C.Answer(report, qr)])
  {
  }

  lemma StepInv(env: Env, j: State, a: Act)
    requires Sound(env) && Inv(env, j)
    ensures Inv(env, Step(env, j, a))
  {
    match a
    case Bus(b) => if CrystalRuns.IsBus(b) { BusStepInv(env, j, b); }
    case Serve(card) => if j.link.worker.None? && j.link.link.queued.Some? { ServeStepInv(env, j, card); }
    case Answer => if j.link.worker.Some? { AnswerStepInv(env, j); }
  }

  /** `Step` where the invariant holds, which is everywhere a run gets to. */
  ghost function Stepper(env: Env): (State, Act) -> State
    requires Sound(env)
  {
    (j: State, a: Act) => if Inv(env, j) then Step(env, j, a) else j
  }

  ghost function Exec(env: Env, j: State, acts: seq<Act>): State
    requires Sound(env)
  {
    Runs.Exec(Stepper(env), j, acts)
  }

  lemma StepperInv(env: Env, j: State, a: Act)
    requires Sound(env) && Inv(env, j)
    ensures Stepper(env)(j, a) == Step(env, j, a) && Inv(env, Stepper(env)(j, a))
  {
    StepInv(env, j, a);
  }

  lemma {:induction false} ExecInv(env: Env, j: State, acts: seq<Act>)
    requires Sound(env) && Inv(env, j)
    ensures Inv(env, Exec(env, j, acts))
    decreases |acts|
  {
    if acts != [] {
      StepperInv(env, j, acts[0]);
      ExecInv(env, Stepper(env)(j, acts[0]), acts[1..]);
    }
  }

  ghost function Run(env: Env, ticket: byte, acts: seq<Act>): (j: State)
    requires Sound(env)
    ensures Inv(env, j)
  {
    InitInv(env, ticket);
    ExecInv(env, Init(ticket), acts);
    Exec(env, Init(ticket), acts)
  }

  // ----- core 1 as it is written -----

  /** Worker and mailbox after one poll that nothing interrupts. */
  ghost function Turned(env: Env, w: S.Work, m: L.Mailbox, card: S.Card): (S.Work, L.Mailbox)
    requires Sound(env) && S.WorkInv(env, w)
  {
    match m.queued
    case None => (w, m)
    case Some(r) =>
      S.PolledInv(env, w, r.command, card);
      var w' := S.Polled(env, w, r.command, card);
      (w', L.Finished(L.Taken(m), r, R.ReportOf(env, w'.t), w'.t.qrBuffer))
  }

  lemma ServeShape(env: Env, j: State, card: S.Card)
    requires Sound(env) && Inv(env, j) && j.link.worker.None? && j.link.link.queued.Some?
    ensures var r, j' := j.link.link.queued.value, ServeStep(env, j, card);
      && j'.link.link == L.Taken(j.link.link) && j'.work == S.Polled(env, j.work, r.command, card)
      && j'.link.worker.Some? && j'.link.worker.value.request == r
  {
  }

  lemma AnswerShape(env: Env, j: State)
    requires Sound(env) && Inv(env, j) && j.link.worker.Some?
    ensures var r, j' := j.link.worker.value.request, AnswerStep(env, j);
      && j'.work == j.work
      && j'.link.link == L.Finished(j.link.link, r, R.ReportOf(env, j.work.t), j.work.t.qrBuffer)
  {
  }

  /** Its two steps are those of the runs above: what core 0 does between them is all they leave out. */
  lemma TurnIsServeThenAnswer(env: Env, j: State, card: S.Card)
    requires Sound(env) && Inv(env, j) && j.link.worker.None? && j.link.link.queued.Some?
    ensures S.WorkInv(env, j.work)
    ensures Inv(env, ServeStep(env, j, card)) && ServeStep(env, j, card).link.worker.Some?
    ensures var j' := AnswerStep(env, ServeStep(env, j, card));
      (j'.work, j'.link.link) == Turned(env, j.work, j.link.link, card)
  {
    ServeStepInv(env, j, card);
    ServeShape(env, j, card);
    AnswerShape(env, ServeStep(env, j, card));
  }

  class Core1 {
    const worker: S.Worker
    const link: L.Link

    constructor (worker: S.Worker, link: L.Link)
      ensures this.worker == worker && this.link == link
    {
      this.worker, this.link := worker, link;
    }

    /** No buffer of the terminal is the frame of the mailbox. */
    ghost predicate Separate()
      reads this, worker, worker.terminal, link
    {
      var t := worker.terminal;
      && t.Separate() && link.frame != t.prefix && link.frame != t.pass && link.frame != t.identity
      && link.frame != t.qrBuffer
    }

    method Answer(env: Env, request: L.Request)
      requires Separate() && link.Valid() && Terminal.Inv(env, worker.terminal.State())
      modifies link, link.frame
      ensures link.Valid()
      ensures var t := worker.terminal.State();
        link.State() == L.Finished(old(link.State()), request, R.ReportOf(env, t), t.qrBuffer)
      ensures worker.State() == old(worker.State())
    {
      var report := R.MakeReport(env, worker.terminal);
      var _ := link.Finish(request, report[..], worker.terminal.qrBuffer[..]);
    }

    method Perform(env: Env, c: byte, card: S.Card)
      requires Separate() && Sound(env) && S.WorkInv(env, worker.State())
      modifies worker, worker.terminal, worker.terminal.words, worker.terminal.prefix, worker.terminal.pass,
               worker.terminal.identity, worker.terminal.qrBuffer
      ensures worker.State() == S.Polled(env, old(worker.State()), c, card)
      ensures Terminal.Inv(env, worker.State().t) && link.State() == old(link.State())
    {
      S.PolledInv(env, worker.State(), c, card);
      worker.Poll(env, c, card);
    }

    method Poll(env: Env, card: S.Card)
      requires Separate() && link.Valid() && Sound(env) && S.WorkInv(env, worker.State())
      modifies worker, worker.terminal, worker.terminal.words, worker.terminal.prefix, worker.terminal.pass,
               worker.terminal.identity, worker.terminal.qrBuffer, link, link.frame
      ensures link.Valid()
      ensures (worker.State(), link.State()) == Turned(env, old(worker.State()), old(link.State()), card)
    {
      var request := link.Take();
      if request.Some? {
        Perform(env, request.value.command, card);
        Answer(env, request.value);
      }
    }
  }

  // ----- the way into a review -----

  /** A review on screen was there before the poll, one page away at most, or has just been loaded. */
  lemma PolledToReview(env: Env, w: S.Work, c: byte, card: S.Card) returns (bytes: seq<byte>)
    requires Sound(env) && S.WorkInv(env, w) && S.Polled(env, w, c, card).t.state == PSBT_REVIEW
    ensures var t := S.Polled(env, w, c, card).t;
      && !Begins(c) && t.seed == w.t.seed
      && if w.t.state == PSBT_REVIEW
         then t.review == w.t.review && t.reviewPage <= w.t.reviewPage + 1
         else c == FILE_OPEN && t.reviewPage == 0 && t.seed.Some? && t.review.Some?
              && P.Reviewed(env.lib, t.seed.value, bytes) == Ok(t.review.value)
  {
    bytes := [];
    S.AfterCommandAndFiles(env, w.t, c);
    var t := S.AfterCommand(env, w.t, c);
    if t.state == PSBT_LOADING {
      bytes := LoadedToReview(env, t, S.Opened(env, w, c), card);
      OpenKeepsSeed(env, w.t, c);
    } else {
      ReviewStays(env, w.t, c);
    }
  }

  lemma OpenKeepsSeed(env: Env, t: Term, c: byte)
    requires Sound(env) && Terminal.Inv(env, t) && t.state == PSBT_FILES && c == FILE_OPEN
    ensures S.AfterCommand(env, t, c).seed == t.seed
  {
  }

  lemma LoadedToReview(env: Env, t: Term, alias: Option<seq<byte>>, card: S.Card) returns (bytes: seq<byte>)
    requires t.state == PSBT_LOADING && S.LoadFrom(env, t, alias, card).state == PSBT_REVIEW
    ensures var t' := S.LoadFrom(env, t, alias, card);
      && t'.seed == t.seed && t.seed.Some? && t'.reviewPage == 0 && t'.review.Some?
      && P.Reviewed(env.lib, t.seed.value, bytes) == Ok(t'.review.value)
  {
    bytes := card.read(alias.value).value;
  }

  lemma ReviewStays(env: Env, t: Term, c: byte)
    requires Sound(env) && Terminal.Inv(env, t)
    requires t.state != PSBT_LOADING && t.state != PSBT_SIGNING && S.AfterCommand(env, t, c).state == PSBT_REVIEW
    ensures var t' := S.AfterCommand(env, t, c);
      && t.state == PSBT_REVIEW && !Begins(c) && t'.seed == t.seed && t'.review == t.review
      && t'.reviewPage <= t.reviewPage + 1
  {
  }

  /** Bytes leave only in the poll that approves the last page. */
  lemma SigningComesFromReview(env: Env, t: Term, c: byte)
    requires Sound(env) && Terminal.Inv(env, t) && t.state != PSBT_SIGNING
    requires S.AfterCommand(env, t, c).state == PSBT_SIGNING
    ensures var t' := S.AfterCommand(env, t, c);
      && t.state == PSBT_REVIEW && c == APPROVE_PSBT && t'.seed == t.seed && t'.review == t.review
      && t.reviewPage == LastPage(t.review.value)
  {
  }

  // ----- back to the load -----

  /** The terminal before the first poll and after every one. */
  ghost function Screens(env: Env, turns: seq<S.Turn>): (ts: seq<Term>)
    requires Sound(env)
    ensures |ts| == |turns| + 1 && forall m :: 0 <= m <= |turns| ==> ts[m] == After(env, turns, m).t
  {
    seq(|turns| + 1, m requires 0 <= m <= |turns| => After(env, turns, m).t)
  }

  ghost predicate OnScreen(t: Term, r: P.Review, s: P.Session) {
    t.state == PSBT_REVIEW && t.review == Some(r) && t.seed == Some(s)
  }

  ghost predicate IsReviewOf(lib: P.Lib, s: P.Session, r: P.Review, bytes: seq<byte>) {
    P.Reviewed(lib, s, bytes) == Ok(r)
  }

  /** A review just loaded, on its first page. */
  ghost predicate Opens(lib: P.Lib, t: Term, c: byte) {
    && c == FILE_OPEN && t.review.Some? && t.seed.Some? && t.reviewPage == 0
    && exists bytes :: IsReviewOf(lib, t.seed.value, t.review.value, bytes)
  }

  /** How a poll that ends in a review got there. */
  ghost predicate Moves(lib: P.Lib, t: Term, t': Term, c: byte) {
    t'.state == PSBT_REVIEW ==>
      && !Begins(c)
      && if t.state == PSBT_REVIEW
         then t'.review == t.review && t'.seed == t.seed && t'.reviewPage <= t.reviewPage + 1
         else Opens(lib, t', c)
  }

  ghost predicate AllMove(lib: P.Lib, ts: seq<Term>, turns: seq<S.Turn>) {
    && |ts| == |turns| + 1 && ts[0].state != PSBT_REVIEW
    && forall m :: 0 <= m < |turns| ==> Moves(lib, ts[m], ts[m + 1], turns[m].c)
  }

  lemma PollMoves(env: Env, turns: seq<S.Turn>, m: nat)
    requires Sound(env) && m < |turns|
    ensures Moves(env.lib, After(env, turns, m).t, After(env, turns, m + 1).t, turns[m].c)
  {
    assert turns[..m + 1][..m] == turns[..m];
    if After(env, turns, m + 1).t.state == PSBT_REVIEW {
      var bytes := PolledToReview(env, After(env, turns, m), turns[m].c, turns[m].card);
      var t := After(env, turns, m + 1).t;
      assert After(env, turns, m).t.state != PSBT_REVIEW ==>
          t.review.Some? && IsReviewOf(env.lib, t.seed.value, t.review.value, bytes);
    }
  }

  lemma ScreensMove(env: Env, turns: seq<S.Turn>)
    requires Sound(env)
    ensures AllMove(env.lib, Screens(env, turns), turns)
  {
    var ts := Screens(env, turns);
    assert turns[..0] == [];
    forall m | 0 <= m < |turns| ensures Moves(env.lib, ts[m], ts[m + 1], turns[m].c) {
      PollMoves(env, turns, m);
    }
  }

  /** From poll `from` on, this review is on screen under this seed, and no poll begins anew. */
  ghost predicate UnderReview(
    ts: seq<Term>, turns: seq<S.Turn>, from: nat, upto: nat, r: P.Review, s: P.Session)
    requires |ts| == |turns| + 1 && upto <= |turns|
  {
    && from < upto && turns[from].c == FILE_OPEN
    && (forall m :: from <= m < upto ==> !Begins(turns[m].c))
    && (forall m :: from < m <= upto ==> OnScreen(ts[m], r, s))
  }

  ghost predicate PageSeen(ts: seq<Term>, from: nat, upto: nat, p: nat) {
    exists m :: from < m <= upto < |ts| && ts[m].reviewPage == p
  }

  ghost predicate AllSeen(ts: seq<Term>, from: nat, upto: nat, last: nat) {
    forall p: nat :: p <= last ==> PageSeen(ts, from, upto, p)
  }

  /** Back from a review to its load: every page up to the present one was on screen since. */
  lemma {:induction false} BackToLoad(lib: P.Lib, ts: seq<Term>, turns: seq<S.Turn>, m: nat)
    returns (from: nat, r: P.Review, s: P.Session, bytes: seq<byte>)
    requires AllMove(lib, ts, turns) && m < |turns| && ts[m + 1].state == PSBT_REVIEW
    ensures from <= m && UnderReview(ts, turns, from, m + 1, r, s)
    ensures IsReviewOf(lib, s, r, bytes) && AllSeen(ts, from, m + 1, ts[m + 1].reviewPage)
    decreases m
  {
    assert Moves(lib, ts[m], ts[m + 1], turns[m].c);
    if ts[m].state == PSBT_REVIEW {
      from, r, s, bytes := BackToLoad(lib, ts, turns, m - 1);
      assert OnScreen(ts[m], r, s);
      SeenGrows(ts, from, m);
    } else {
      from, r, s := m, ts[m + 1].review.value, ts[m + 1].seed.value;
      bytes :| IsReviewOf(lib, s, r, bytes);
    }
  }

  lemma SeenGrows(ts: seq<Term>, from: nat, m: nat)
    requires from < m && m + 1 < |ts| && ts[m + 1].reviewPage <= ts[m].reviewPage + 1
    requires AllSeen(ts, from, m, ts[m].reviewPage)
    ensures AllSeen(ts, from, m + 1, ts[m + 1].reviewPage)
  {
    var upto := m + 1;
    forall p: nat | p <= ts[upto].reviewPage
      ensures PageSeen(ts, from, upto, p)
    {
      if p <= ts[m].reviewPage {
        assert PageSeen(ts, from, m, p);
        var k :| from < k <= m && ts[k].reviewPage == p;
      }
    }
  }

  // ----- the main result -----

  /** The client's work RAM held the report of poll `m`, and job `m + 1` was the very next send. */
  ghost predicate ShownThenNext(reports: seq<seq<byte>>, ran: seq<nat>, shown: map<nat, seq<byte>>, m: nat) {
    && m + 1 < |ran| == |reports| && ran[m + 1] == ran[m] + 1
    && ran[m] in shown && shown[ran[m]] == reports[m]
  }

  /** Jobs run in order: what an answered send ran just before is its predecessor in the log. */
  lemma PredecessorRan(s: C.State, k: nat)
    requires k < |s.ran| && s.ran[k] >= 1 && C.RanInOrder(s, s.ran[k] - 1) && s.performed[k] != L.LOCK
    ensures k >= 1 && s.ran[k - 1] == s.ran[k] - 1
    ensures s.ran[k] <= |s.sent| && s.sent[s.ran[k] - 1] == s.performed[k]
  {
    var no := s.ran[k] - 1;
    assert no in multiset(s.ran);
    var i :| 0 <= i < |s.ran| && s.ran[i] == no;
    assert i < k;
    assert s.ran[k - 1] < s.ran[k];
  }

  lemma PredecessorShown(s: C.State, reports: seq<seq<byte>>, shown: map<nat, seq<byte>>, k: nat)
    requires k < |s.ran| && s.ran[k] >= 1 && C.RanInOrder(s, s.ran[k] - 1) && s.performed[k] != L.LOCK
    requires AnswersInv(reports, s.ran, s.answers, s.worker) && ShownInv(shown, s.answers, s.sent, s.pc)
    ensures k >= 1 && ShownThenNext(reports, s.ran, shown, k - 1)
  {
    PredecessorRan(s, k);
    assert s.sent[s.ran[k] - 1] != L.LOCK;
  }

  /** What every job but LOCK follows: the job of the send before, answered and shown. */
  lemma PredecessorWasShown(env: Env, j: State, k: nat)
    requires Sound(env) && Inv(env, j) && k < |j.turns| && j.turns[k].c != L.LOCK
    ensures k >= 1 && ShownThenNext(Reports(env, j.turns), j.link.ran, j.shown, k - 1)
  {
    var s := j.link;
    LogLength(env, j);
    RunsInOrder(s, k);
    PredecessorShown(s, Reports(env, j.turns), j.shown, k);
  }

  lemma LogLength(env: Env, j: State)
    requires Sound(env) && Inv(env, j)
    ensures |j.turns| == |j.link.ran| == |j.link.performed|
    ensures forall k :: 0 <= k < |j.turns| ==> j.turns[k].c == j.link.performed[k]
  {
  }

  lemma RunsInOrder(s: C.State, k: nat)
    requires C.Inv(s) && k < |s.ran|
    ensures s.ran[k] >= 1 && C.RanInOrder(s, s.ran[k] - 1)
  {
    C.InvRunsInOrder(s, s.ran[k] - 1);
  }

  /** The bytes that leave the terminal in poll `i`. */
  ghost function Released(env: Env, turns: seq<S.Turn>, i: nat): Option<seq<byte>>
    requires Sound(env) && i < |turns|
  {
    SignedBytes(env, S.AfterCommand(env, After(env, turns, i).t, turns[i].c))
  }

  /** The review came from these bytes and the bytes that leave in poll `i` are its signature. */
  ghost predicate SignedIn(
    env: Env, turns: seq<S.Turn>, i: nat, r: P.Review, s: P.Session, bytes: seq<byte>)
    requires Sound(env) && i < |turns|
  {
    && IsReviewOf(env.lib, s, r, bytes)
    && P.Signed(env.lib, s, P.BindingOf(env.lib, r)).Ok?
    && Released(env, turns, i) == Some(P.Signed(env.lib, s, P.BindingOf(env.lib, r)).value.bytes)
  }

  /** From the load in poll `from` to poll `upto` this review alone was on screen, on all its pages. */
  ghost predicate WalkedThrough(
    ts: seq<Term>, turns: seq<S.Turn>, from: nat, upto: nat, r: P.Review, s: P.Session)
    requires |ts| == |turns| + 1 && upto <= |turns|
  {
    UnderReview(ts, turns, from, upto, r, s) && AllSeen(ts, from, upto, LastPage(r))
  }

  /** What leaves comes from the screen of the poll before. */
  lemma ReleaseFollowsReview(env: Env, turns: seq<S.Turn>, i: nat)
    requires Sound(env) && i < |turns| && Released(env, turns, i).Some?
    ensures var t := After(env, turns, i).t;
      && t.state == PSBT_REVIEW && t.review.Some? && t.seed.Some? && t.reviewPage == LastPage(t.review.value)
      && turns[i].c == APPROVE_PSBT
      && P.Signed(env.lib, t.seed.value, P.BindingOf(env.lib, t.review.value)).Ok?
      && Released(env, turns, i)
         == Some(P.Signed(env.lib, t.seed.value, P.BindingOf(env.lib, t.review.value)).value.bytes)
  {
    SigningComesFromReview(env, After(env, turns, i).t, turns[i].c);
  }

  /** On the last page of a walk, the walk is complete. */
  lemma WalkEnds(lib: P.Lib, ts: seq<Term>, turns: seq<S.Turn>, i: nat)
    returns (from: nat, r: P.Review, s: P.Session, bytes: seq<byte>)
    requires AllMove(lib, ts, turns) && i < |turns|
    requires ts[i].state == PSBT_REVIEW && ts[i].review.Some? && ts[i].reviewPage == LastPage(ts[i].review.value)
    ensures from < i && WalkedThrough(ts, turns, from, i, r, s) && IsReviewOf(lib, s, r, bytes)
    ensures ts[i].review == Some(r) && ts[i].seed == Some(s)
  {
    from, r, s, bytes := BackToLoad(lib, ts, turns, i - 1);
    assert OnScreen(ts[i], r, s);
  }

  lemma ReleaseWasWalked(env: Env, turns: seq<S.Turn>, i: nat)
    returns (from: nat, r: P.Review, s: P.Session, bytes: seq<byte>)
    requires Sound(env) && i < |turns| && Released(env, turns, i).Some?
    ensures from < i && turns[i].c == APPROVE_PSBT
    ensures WalkedThrough(Screens(env, turns), turns, from, i, r, s) && SignedIn(env, turns, i, r, s, bytes)
  {
    ReleaseFollowsReview(env, turns, i);
    ScreensMove(env, turns);
    from, r, s, bytes := WalkEnds(env.lib, Screens(env, turns), turns, i);
  }

  /** Since poll `from` this output, with its whole amount and its whole address, was in work RAM. */
  ghost predicate OutputShown(
    shown: map<nat, seq<byte>>, ran: seq<nat>, from: nat, upto: nat, item: P.DisplayItem, o: nat, n: nat)
  {
    exists m :: from <= m < upto <= |ran| && ran[m] in shown && ShowsOutput(shown[ran[m]], item, o, n)
  }

  ghost predicate ShowsOutput(b: seq<byte>, item: P.DisplayItem, o: nat, n: nat) {
    && |b| == L.REPORT_BYTES && b[1] == PSBT_REVIEW && b[8] == o && b[9] == n + 2
    && R.Holds(b, 36, 56, R.Sat(item.amount)) && R.Holds(b, 64, 108, R.Ascii(item.address))
    && b[16..22] == R.Ascii(if item.isChange then "Change" else "Output")
  }

  /** And so was the whole fee, on the page that says so. */
  ghost predicate FeeShown(
    shown: map<nat, seq<byte>>, ran: seq<nat>, from: nat, upto: nat, fee: nat, n: nat)
  {
    exists m :: from <= m < upto <= |ran| && ran[m] in shown && ShowsFee(shown[ran[m]], fee, n)
  }

  ghost predicate ShowsFee(b: seq<byte>, fee: nat, n: nat) {
    && |b| == L.REPORT_BYTES && b[1] == PSBT_REVIEW && b[8] == n && b[9] == n + 2
    && R.Holds(b, 16, 36, R.Ascii("Transaction fee")) && R.Holds(b, 36, 56, R.Sat(fee))
  }

  /**
   The two halves joined. In every interleaving of client, core 0 and core 1 with the terminal behind
   it: when signed bytes leave, they are the signature of a review that was loaded in an earlier
   poll, by the session that reviewed it; and for every page from the first output to the approval
   page, the client's work RAM has held the terminal's report of that page since that load, in full
   and with no other request in between. So it has held the amount and the address of every output,
   and the fee.
   */
  lemma ApprovedPagesWereShown(env: Env, ticket: byte, acts: seq<Act>, i: nat)
    returns (from: nat, r: P.Review, s: P.Session, bytes: seq<byte>)
    requires Sound(env) && P.AddressesFit(env.lib) && i < |Run(env, ticket, acts).turns|
    requires Released(env, Run(env, ticket, acts).turns, i).Some?
    ensures var j := Run(env, ticket, acts);
      && from < i && j.turns[i].c == APPROVE_PSBT
      && WalkedThrough(Screens(env, j.turns), j.turns, from, i, r, s) && SignedIn(env, j.turns, i, r, s, bytes)
      && (forall m: nat :: from <= m < i ==> ShownThenNext(Reports(env, j.turns), j.link.ran, j.shown, m))
      && (forall o: nat :: o < |r.outputs| ==>
            OutputShown(j.shown, j.link.ran, from, i, r.outputs[o], o, |r.outputs|))
      && FeeShown(j.shown, j.link.ran, from, i, r.fee, |r.outputs|)
  {
    var j := Run(env, ticket, acts);
    from, r, s, bytes := ReleaseWasWalked(env, j.turns, i);
    NoLockUnderReview(Screens(env, j.turns), j.turns, from, i, r, s);
    WalkWasShown(env, j, from, i);
    ReviewFits(env.lib, s, r, bytes);
    OutputsWereShown(env, j.turns, j.link.ran, j.shown, from, i, r, s);
    FeeWasShown(env, j.turns, j.link.ran, j.shown, from, i, r, s);
  }

  /** Everything an accepted review shows fits its field. */
  ghost predicate Fits(r: P.Review) {
    && |r.outputs| <= 2 && r.fee <= P.MAX_MONEY
    && forall o :: 0 <= o < |r.outputs| ==>
         r.outputs[o].amount <= P.MAX_MONEY && |r.outputs[o].address| <= P.ADDRESS_BYTES
  }

  lemma ReviewFits(lib: P.Lib, s: P.Session, r: P.Review, bytes: seq<byte>)
    requires IsReviewOf(lib, s, r, bytes) && P.AddressesFit(lib)
    ensures Fits(r)
  {
    P.AcceptedReviewIsHonest(lib, s, bytes);
  }

  lemma PageOfWalk(
    ts: seq<Term>, turns: seq<S.Turn>, from: nat, upto: nat, r: P.Review, s: P.Session, p: nat) returns (m: nat)
    requires |ts| == |turns| + 1 && upto <= |turns| && WalkedThrough(ts, turns, from, upto, r, s) && p <= LastPage(r)
    ensures from <= m < upto && OnScreen(ts[m + 1], r, s) && ts[m + 1].reviewPage == p
  {
    assert PageSeen(ts, from, upto, p);
    var k :| from < k <= upto && ts[k].reviewPage == p;
    m := k - 1;
  }

  lemma OutputsWereShown(
    env: Env, turns: seq<S.Turn>, ran: seq<nat>, shown: map<nat, seq<byte>>, from: nat, i: nat,
    r: P.Review, s: P.Session)
    requires Sound(env) && i <= |turns| && WalkedThrough(Screens(env, turns), turns, from, i, r, s) && Fits(r)
    requires forall m: nat :: from <= m < i ==> ShownThenNext(Reports(env, turns), ran, shown, m)
    ensures forall o: nat :: o < |r.outputs| ==> OutputShown(shown, ran, from, i, r.outputs[o], o, |r.outputs|)
  {
    forall o: nat | o < |r.outputs|
      ensures OutputShown(shown, ran, from, i, r.outputs[o], o, |r.outputs|)
    {
      var m := PageOfWalk(Screens(env, turns), turns, from, i, r, s, o);
      PollShowsOutput(env, turns, m, r, s, o);
      assert ShownThenNext(Reports(env, turns), ran, shown, m);
    }
  }

  lemma FeeWasShown(
    env: Env, turns: seq<S.Turn>, ran: seq<nat>, shown: map<nat, seq<byte>>, from: nat, i: nat,
    r: P.Review, s: P.Session)
    requires Sound(env) && i <= |turns| && WalkedThrough(Screens(env, turns), turns, from, i, r, s) && Fits(r)
    requires forall m: nat :: from <= m < i ==> ShownThenNext(Reports(env, turns), ran, shown, m)
    ensures FeeShown(shown, ran, from, i, r.fee, |r.outputs|)
  {
    var m := PageOfWalk(Screens(env, turns), turns, from, i, r, s, |r.outputs|);
    PollShowsFee(env, turns, m, r, s);
    assert ShownThenNext(Reports(env, turns), ran, shown, m);
  }

  lemma PollShowsOutput(env: Env, turns: seq<S.Turn>, m: nat, r: P.Review, s: P.Session, o: nat)
    requires Sound(env) && m < |turns| && OnScreen(After(env, turns, m + 1).t, r, s)
    requires After(env, turns, m + 1).t.reviewPage == o < |r.outputs| && Fits(r)
    ensures ShowsOutput(Reports(env, turns)[m], r.outputs[o], o, |r.outputs|)
  {
    R.OutputPageShowsOutput(env, After(env, turns, m + 1).t);
  }

  lemma PollShowsFee(env: Env, turns: seq<S.Turn>, m: nat, r: P.Review, s: P.Session)
    requires Sound(env) && m < |turns| && OnScreen(After(env, turns, m + 1).t, r, s)
    requires After(env, turns, m + 1).t.reviewPage == |r.outputs| && Fits(r)
    ensures ShowsFee(Reports(env, turns)[m], r.fee, |r.outputs|)
  {
    R.FeePageShowsFee(env, After(env, turns, m + 1).t);
  }

  lemma NoLockUnderReview(
    ts: seq<Term>, turns: seq<S.Turn>, from: nat, i: nat, r: P.Review, s: P.Session)
    requires |ts| == |turns| + 1 && i < |turns| && UnderReview(ts, turns, from, i, r, s)
    requires turns[i].c == APPROVE_PSBT
    ensures forall m :: from <= m <= i ==> turns[m].c != L.LOCK
  {
  }

  lemma WalkWasShown(env: Env, j: State, from: nat, i: nat)
    requires Sound(env) && Inv(env, j) && from < i < |j.turns|
    requires forall m :: from <= m <= i ==> j.turns[m].c != L.LOCK
    ensures forall m: nat :: from <= m < i ==> ShownThenNext(Reports(env, j.turns), j.link.ran, j.shown, m)
  {
    forall m: nat | from <= m < i
      ensures ShownThenNext(Reports(env, j.turns), j.link.ran, j.shown, m)
    {
      PredecessorWasShown(env, j, m + 1);
    }
  }

  // ----- every sequence of polls happens -----

  function Lifted(acts: seq<C.Act>): (r: seq<Act>)
    ensures |r| == |acts| && forall i :: 0 <= i < |acts| ==> r[i] == Bus(acts[i])
  {
    seq(|acts|, i requires 0 <= i < |acts| => Bus(acts[i]))
  }

  lemma BusAct(env: Env, j: State, act: Act)
    requires Sound(env) && Inv(env, j) && act.Bus? && CrystalRuns.IsBus(act.a)
    ensures var j' := Step(env, j, act);
      Inv(env, j') && j'.link == C.Step(j.link, act.a) && j'.work == j.work && j'.turns == j.turns
  {
    BusStepInv(env, j, act.a);
  }

  lemma LiftedHead(acts: seq<C.Act>)
    requires acts != []
    ensures Lifted(acts) == [Bus(acts[0])] + Lifted(acts[1..])
  {
  }

  lemma BusHead(env: Env, j: State, acts: seq<C.Act>) returns (j1: State)
    requires Sound(env) && Inv(env, j) && acts != [] && CrystalRuns.IsBus(acts[0])
    ensures Inv(env, j1) && j1.link == C.Step(j.link, acts[0]) && j1.work == j.work && j1.turns == j.turns
    ensures Exec(env, j, Lifted(acts)) == Exec(env, j1, Lifted(acts[1..]))
  {
    var act := Bus(acts[0]);
    BusAct(env, j, act);
    StepperInv(env, j, act);
    j1 := Step(env, j, act);
    LiftedHead(acts);
    Runs.Cons(Stepper(env), j, act, Lifted(acts[1..]));
  }

  lemma LinkHead(s: C.State, acts: seq<C.Act>)
    requires C.Inv(s) && acts != []
    ensures C.Inv(C.Step(s, acts[0])) && C.Exec(s, acts) == C.Exec(C.Step(s, acts[0]), acts[1..])
  {
    C.StepInv(s, acts[0]);
  }

  /** Client and core 0 do in the joint system what they do on their own. */
  lemma {:induction false} BusLift(env: Env, j: State, acts: seq<C.Act>)
    requires Sound(env) && Inv(env, j) && CrystalRuns.AllBus(acts)
    ensures var j' := Exec(env, j, Lifted(acts));
      j'.link == C.Exec(j.link, acts) && j'.work == j.work && j'.turns == j.turns
    decreases |acts|
  {
    if acts != [] {
      assert acts[0] in acts;
      LinkHead(j.link, acts);
      var j1 := BusHead(env, j, acts);
      BusLift(env, j1, acts[1..]);
    }
  }

  /** Ready for the next command: nothing under way, and the last send, if any, succeeded. */
  ghost predicate Ready(s: C.State) {
    CrystalRuns.AtRest(s) && s.link.active.None? && s.pc.Idle?
  }

  lemma ServeAct(env: Env, j: State, act: Act)
    requires Sound(env) && Inv(env, j) && act.Serve? && j.link.worker.None? && j.link.link.queued.Some?
    ensures var j' := Step(env, j, act);
      && Inv(env, j') && j'.link == C.Take(j.link)
      && j'.turns == j.turns + [S.Turn(j.link.link.queued.value.command, act.card)]
  {
    ServeStepInv(env, j, act.card);
  }

  lemma AnswerAct(env: Env, j: State, act: Act)
    requires Sound(env) && Inv(env, j) && act.Answer? && j.link.worker.Some?
    ensures var j' := Step(env, j, act);
      && Inv(env, j') && j'.turns == j.turns
      && j'.link == C.Finish(j.link, R.ReportOf(env, j.work.t), j.work.t.qrBuffer)
  {
    AnswerStepInv(env, j);
  }

  lemma ServeThenAnswer(env: Env, j: State, card: S.Card)
    returns (acts: seq<Act>, j': State, report: seq<byte>, qr: seq<byte>)
    requires Sound(env) && Inv(env, j) && j.link.worker.None? && j.link.link.queued.Some?
    requires C.Take(j.link).worker.Some?
    ensures Inv(env, j') && Exec(env, j, acts) == j' && |report| == L.REPORT_BYTES
    ensures j'.link == C.Finish(C.Take(j.link), report, qr)
    ensures j'.turns == j.turns + [S.Turn(j.link.link.queued.value.command, card)]
  {
    ServeAct(env, j, Serve(card));
    var j1 := Step(env, j, Serve(card));
    StepperInv(env, j, Serve(card));
    Runs.One(Stepper(env), j, Serve(card));
    AnswerAct(env, j1, Answer);
    j' := Step(env, j1, Answer);
    StepperInv(env, j1, Answer);
    Runs.One(Stepper(env), j1, Answer);
    report, qr := R.ReportOf(env, j1.work.t), j1.work.t.qrBuffer;
    acts := [Serve(card)] + [Answer];
    Runs.Concat(Stepper(env), j, [Serve(card)], [Answer]);
  }

  /** Core 1 performs the queued request and answers it. */
  lemma TurnAt(env: Env, j: State, c: byte, card: S.Card) returns (acts: seq<Act>)
    requires Sound(env) && Inv(env, j) && CrystalRuns.AtRest(j.link) && j.link.pc == C.Asking(C.Waiting(C.TRIES))
    requires j.link.link.queued.Some? && j.link.link.queued == j.link.link.active
    requires C.Submits(j.link.rank) == |j.link.sent| && j.link.link.queued.value.command == c
    requires j.link.link.active.value.ticket == j.link.ticket
    ensures var j' := Exec(env, j, acts);
      && j'.turns == j.turns + [S.Turn(c, card)] && CrystalRuns.AtRest(j'.link) && j'.link.pc == j.link.pc
      && j'.link.link.active.None? && j'.link.link.ack == j'.link.ticket
  {
    var j', report, qr;
    acts, j', report, qr := ServeThenAnswer(env, j, card);
    CrystalRuns.AnswerLeads(j.link, report, qr);
  }

  lemma LiftLeads(env: Env, j: State, t: C.State) returns (acts: seq<Act>)
    requires Sound(env) && Inv(env, j) && CrystalRuns.Leads(j.link, t)
    ensures Exec(env, j, acts).link == t && Exec(env, j, acts).turns == j.turns
  {
    var a :| CrystalRuns.Goes(j.link, a, t);
    BusLift(env, j, a);
    acts := Lifted(a);
  }

  /** From rest, a command the client may send has a run in which it is polled and delivered. */
  lemma TurnHappens(env: Env, j: State, c: byte, card: S.Card) returns (acts: seq<Act>)
    requires Sound(env) && Inv(env, j) && Ready(j.link) && C.CanStart(j.link, c)
    ensures var j' := Exec(env, j, acts);
      j'.turns == j.turns + [S.Turn(c, card)] && Ready(j'.link) && j'.link.pc == C.Idle(true)
  {
    var s1 := CrystalRuns.SubmitLeads(j.link, c);
    var a := LiftLeads(env, j, s1);
    var j1 := Exec(env, j, a);
    ExecInv(env, j, a);
    var b := TurnAt(env, j1, c, card);
    var j2 := Exec(env, j1, b);
    ExecInv(env, j1, b);
    var t := CrystalRuns.DeliveryLeads(j2.link);
    var d := LiftLeads(env, j2, t);
    Runs.Concat(Stepper(env), j, a, b);
    Runs.Concat(Stepper(env), j, a + b, d);
    acts := a + b + d;
  }

  lemma RunMore(env: Env, ticket: byte, before: seq<Act>, more: seq<Act>)
    requires Sound(env)
    ensures Run(env, ticket, before + more) == Exec(env, Run(env, ticket, before), more)
  {
    InitInv(env, ticket);
    Runs.Concat(Stepper(env), Init(ticket), before, more);
  }

  lemma RunNothing(env: Env, ticket: byte)
    requires Sound(env)
    ensures var j := Run(env, ticket, []); j.turns == [] && Ready(j.link) && C.CanStart(j.link, L.LOCK)
  {
    InitInv(env, ticket);
  }

  /** One more poll after a run that is ready for it. */
  lemma OneMorePoll(env: Env, ticket: byte, before: seq<Act>, turn: S.Turn) returns (acts: seq<Act>)
    requires Sound(env)
    requires var s := Run(env, ticket, before).link; Ready(s) && C.CanStart(s, turn.c)
    ensures var j := Run(env, ticket, acts);
      j.turns == Run(env, ticket, before).turns + [turn] && Ready(j.link) && j.link.pc == C.Idle(true)
  {
    var more := TurnHappens(env, Run(env, ticket, before), turn.c, turn.card);
    RunMore(env, ticket, before, more);
    acts := before + more;
  }

  /**
   So nothing about the terminal is lost behind the link: every sequence of polls that begins with
   LOCK, with any cards, is what core 1 performs in some run of client and core 0.
   */
  lemma {:induction false} PollsHappen(env: Env, ticket: byte, turns: seq<S.Turn>) returns (acts: seq<Act>)
    requires Sound(env) && turns != [] && turns[0].c == L.LOCK && forall i :: 0 <= i < |turns| ==> turns[i].c != 0
    ensures var j := Run(env, ticket, acts);
      j.turns == turns && Ready(j.link) && j.link.pc == C.Idle(true)
    decreases |turns|
  {
    var n := |turns| - 1;
    assert turns == turns[..n] + [turns[n]];
    var before := [];
    if n > 0 {
      before := PollsHappen(env, ticket, turns[..n]);
    } else {
      RunNothing(env, ticket);
    }
    acts := OneMorePoll(env, ticket, before, turns[n]);
  }
}
