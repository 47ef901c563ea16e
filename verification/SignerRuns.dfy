/**
 Every run of the terminal, over all commands and callbacks in any order: bytes leave it only for a
 transaction that was walked through page by page under the very seed that reviewed it, once.
 The worker on core 1 (src/crystal_seed.rs, `Worker::poll`) is one way to produce such runs.
 */
module SignerRuns {
  import opened Bytes
  import N = NameOrder
  import P = Psbt
  import S = SeedTerminal
  import opened Terminal

  datatype Event =
    | Cmd(c: byte)
    | Recovery
    | Files(files: seq<N.File>)
    | Load(bytes: seq<byte>)
    | Sign
    | Save(filename: string)
    | Fail(message: Message)

  function Applied(env: Env, t: Term, e: Event): Term
    requires Inv(env, t) && Sound(env)
  {
    match e
    case Cmd(c) => Commanded(env, t, c)
    case Recovery => Recovered(env, t)
    case Files(files) => Listed(t, files)
    case Load(bytes) => Loaded(env, t, bytes)
    case Sign => FinishedSigning(env, t)
    case Save(name) => Saved(t, name)
    case Fail(message) => Errored(t, message)
  }

  /** What leaves the terminal in this event. */
  function Yield(env: Env, t: Term, e: Event): Option<seq<byte>> {
    if e.Sign? then SignedBytes(env, t) else None
  }

  // ----- history -----

  /** The last transaction that was loaded, and the seed in use then. */
  datatype Loading = Loading(bytes: seq<byte>, session: P.Session, epoch: nat)

  /**
   `epoch` counts how often the seed was taken or replaced; `load`, `seen` and `released` tell what
   happened since the last `load_psbt`: what it accepted, the review pages that were current since,
   and how often bytes have left.
   */
  datatype World = World(t: Term, epoch: nat, load: Option<Loading>, seen: set<nat>, released: nat)

  function Start(env: Env): (w: World)
    requires Sound(env)
    ensures Inv(env, w.t)
  {
    DefaultInv(env);
    World(Default(), 0, None, {}, 0)
  }

  predicate SeedChanges(env: Env, t: Term, e: Event)
    requires Inv(env, t) && Sound(env)
  {
    (e.Cmd? && Begins(e.c)) || (e.Recovery? && t.state == BUSY && Recovered(env, t).state == IDENTITY)
  }

  predicate Loads(t: Term, e: Event) { e.Load? && t.state == PSBT_LOADING }

  function Next(env: Env, w: World, e: Event): World
    requires Inv(env, w.t) && Sound(env)
  {
    var t := Applied(env, w.t, e);
    World(
      t,
      w.epoch + if SeedChanges(env, w.t, e) then 1 else 0,
      if !Loads(w.t, e) then w.load
      else if t.state == PSBT_REVIEW && w.t.seed.Some? then Some(Loading(e.bytes, w.t.seed.value, w.epoch))
      else None,
      (if Loads(w.t, e) then {} else w.seen) + (if t.state == PSBT_REVIEW then {t.reviewPage} else {}),
      (if Loads(w.t, e) then 0 else w.released) + (if Yield(env, w.t, e).Some? then 1 else 0))
  }

  lemma AppliedInv(env: Env, t: Term, e: Event)
    requires Inv(env, t) && Sound(env)
    ensures Inv(env, Applied(env, t, e))
  {
    match e
    case Cmd(c) => CommandInv(env, t, c);
    case Recovery => RecoveredInv(env, t);
    case Files(files) => CallbacksInv(env, t, files, Blank, "");
    case Load(bytes) => LoadedInv(env, t, bytes);
    case Sign => FinishedSigningInv(env, t);
    case Save(name) => CallbacksInv(env, t, [], Blank, name);
    case Fail(message) => CallbacksInv(env, t, [], message, "");
  }

  function Exec(env: Env, w: World, events: seq<Event>): (w': World)
    requires Inv(env, w.t) && Sound(env)
    ensures Inv(env, w'.t)
    decreases |events|
  {
    if events == [] then w
    else
      AppliedInv(env, w.t, events[0]);
      Exec(env, Next(env, w, events[0]), events[1..])
  }

  // ----- the invariant of signing -----

  /** A review in hand is the last load's, under the present seed, seen page by page, unsigned. */
  ghost predicate Earned(env: Env, w: World) {
    && w.load.Some? && w.load.value.epoch == w.epoch && w.t.seed == Some(w.load.value.session)
    && w.t.review.Some?
    && P.Reviewed(env.lib, w.load.value.session, w.load.value.bytes) == Ok(w.t.review.value)
    && w.released == 0
    && forall p :: 0 <= p <= w.t.reviewPage ==> p in w.seen
  }

  ghost predicate WorldInv(env: Env, w: World) {
    Inv(env, w.t) && (w.t.review.Some? ==> Earned(env, w)) && w.released <= 1
  }

  lemma ReviewStep(env: Env, w: World, c: byte)
    requires WorldInv(env, w) && Sound(env) && w.t.state == PSBT_REVIEW && !Begins(c) && c != CANCEL_PSBT
    ensures WorldInv(env, Next(env, w, Cmd(c)))
  {
    AppliedInv(env, w.t, Cmd(c));
  }

  /** Away from the review screens a command leaves no review behind. */
  lemma OtherCommand(env: Env, w: World, c: byte)
    requires WorldInv(env, w) && Sound(env)
    requires w.t.state != PSBT_REVIEW || Begins(c) || c == CANCEL_PSBT
    ensures WorldInv(env, Next(env, w, Cmd(c)))
  {
    AppliedInv(env, w.t, Cmd(c));
    var t := Commanded(env, w.t, c);
    if t.review.Some? {
      assert w.t.state == PSBT_SIGNING;
      assert t == w.t;
    }
  }

  lemma LoadStep(env: Env, w: World, bytes: seq<byte>)
    requires WorldInv(env, w) && Sound(env)
    ensures WorldInv(env, Next(env, w, Load(bytes)))
  {
    AppliedInv(env, w.t, Load(bytes));
  }

  lemma SignStep(env: Env, w: World)
    requires WorldInv(env, w) && Sound(env)
    ensures WorldInv(env, Next(env, w, Sign))
  {
    AppliedInv(env, w.t, Sign);
  }

  lemma CallbackStep(env: Env, w: World, e: Event)
    requires WorldInv(env, w) && Sound(env) && (e.Recovery? || e.Files? || e.Save? || e.Fail?)
    ensures WorldInv(env, Next(env, w, e))
  {
    AppliedInv(env, w.t, e);
  }

  lemma StepInv(env: Env, w: World, e: Event)
    requires WorldInv(env, w) && Sound(env)
    ensures WorldInv(env, Next(env, w, e))
  {
    match e
    case Cmd(c) =>
      if w.t.state == PSBT_REVIEW && !Begins(c) && c != CANCEL_PSBT { ReviewStep(env, w, c); }
      else { OtherCommand(env, w, c); }
    case Load(bytes) => LoadStep(env, w, bytes);
    case Sign => SignStep(env, w);
    case _ => CallbackStep(env, w, e);
  }

  lemma {:induction false} ExecInv(env: Env, w: World, events: seq<Event>)
    requires WorldInv(env, w) && Sound(env)
    ensures WorldInv(env, Exec(env, w, events))
    decreases |events|
  {
    if events != [] {
      StepInv(env, w, events[0]);
      ExecInv(env, Next(env, w, events[0]), events[1..]);
    }
  }

  // ----- main results -----

  /**
   In every run, `finish_signing` yields bytes only when a review that `load_psbt` accepted is in
   hand, every page from the first output to the approval page was current since that load, the
   seed has not been taken or replaced since, no bytes have left since, and the bytes are the
   signature of exactly that review by exactly that session.
   */
  lemma SigningIsEarned(env: Env, events: seq<Event>)
    requires Sound(env)
    requires SignedBytes(env, Exec(env, Start(env), events).t).Some?
    ensures var w := Exec(env, Start(env), events);
      && w.load.Some?
      && var l := w.load.value;
      && l.epoch == w.epoch && w.t.seed == Some(l.session)
      && P.Reviewed(env.lib, l.session, l.bytes).Ok?
      && var r := P.Reviewed(env.lib, l.session, l.bytes).value;
      && (forall p :: 0 <= p <= |r.outputs| + 1 ==> p in w.seen)
      && w.released == 0
      && P.Signed(env.lib, l.session, P.BindingOf(env.lib, r)).Ok?
      && SignedBytes(env, w.t) == Some(P.Signed(env.lib, l.session, P.BindingOf(env.lib, r)).value.bytes)
  {
    ExecInv(env, Start(env), events);
  }

  /** In every run at most one signed transaction leaves per load. */
  lemma SignsAtMostOncePerLoad(env: Env, events: seq<Event>)
    requires Sound(env)
    ensures Exec(env, Start(env), events).released <= 1
  {
    ExecInv(env, Start(env), events);
  }

  function Walk(n: nat): seq<Event> { seq(n, i => Cmd(REVIEW_NEXT)) }

  lemma {:induction false} WalkTurnsPages(env: Env, w: World, n: nat)
    requires Inv(env, w.t) && Sound(env) && w.t.state == PSBT_REVIEW
    requires w.t.reviewPage + n <= LastPage(w.t.review.value)
    ensures Exec(env, w, Walk(n)).t == w.t.(reviewPage := w.t.reviewPage + n)
    decreases n
  {
    if n > 0 {
      assert Walk(n)[0] == Cmd(REVIEW_NEXT) && Walk(n)[1..] == Walk(n - 1);
      AppliedInv(env, w.t, Cmd(REVIEW_NEXT));
      WalkTurnsPages(env, Next(env, w, Cmd(REVIEW_NEXT)), n - 1);
    }
  }

  /**
   And such runs sign: loading a transaction the session accepts, paging to the end and approving
   makes the terminal yield the signed transaction.
   */
  lemma WalkingThroughSigns(env: Env, w: World, s: P.Session, bytes: seq<byte>, events: seq<Event>)
    requires Inv(env, w.t) && Sound(env) && P.Lawful(env.lib)
    requires w.t.state == PSBT_LOADING && w.t.seed == Some(s) && P.Reviewed(env.lib, s, bytes).Ok?
    requires events == [Load(bytes)] + (Walk(LastPage(P.Reviewed(env.lib, s, bytes).value)) + [Cmd(APPROVE_PSBT)])
    ensures SignedBytes(env, Exec(env, w, events).t).Some?
  {
    var r := P.Reviewed(env.lib, s, bytes).value;
    AppliedInv(env, w.t, Load(bytes));
    var w1 := Next(env, w, Load(bytes));
    assert events[1..] == Walk(LastPage(r)) + [Cmd(APPROVE_PSBT)];
    ExecConcat(env, w1, Walk(LastPage(r)), [Cmd(APPROVE_PSBT)]);
    WalkTurnsPages(env, w1, LastPage(r));
    ExecOne(env, Exec(env, w1, Walk(LastPage(r))), Cmd(APPROVE_PSBT));
    P.AcceptedReviewSigns(env.lib, s, bytes);
  }

  /** What leaves adds one valid signature to the transaction that was walked through. */
  lemma SignedBytesCarryOneSignature(env: Env, events: seq<Event>)
    requires Sound(env) && P.Lawful(env.lib)
    requires SignedBytes(env, Exec(env, Start(env), events).t).Some?
    ensures var w := Exec(env, Start(env), events);
      && w.load.Some? && P.Reviewed(env.lib, w.load.value.session, w.load.value.bytes).Ok?
      && var r := P.Reviewed(env.lib, w.load.value.session, w.load.value.bytes).value;
      && |r.psbt.inputs| == 1
      && exists sig :: env.lib.verify(r.sighash, sig, r.key)
                       && env.lib.deserialize(SignedBytes(env, w.t).value)
                          == Some(P.WithSignature(r.psbt, r.key, sig))
  {
    SigningIsEarned(env, events);
    var l := Exec(env, Start(env), events).load.value;
    P.SigningAddsOneSignature(env.lib, l.session, l.session, l.bytes);
  }

  // ----- the worker -----

  /** What the SD card answers during one poll. */
  datatype Card = Card(
    list: Option<seq<N.File>>,
    read: seq<byte> -> Option<seq<byte>>,
    write: seq<byte> -> Option<string>)

  datatype Work = Work(t: Term, aliases: seq<seq<byte>>)

  function Aliases(files: seq<N.File>): seq<seq<byte>> {
    seq(|files|, i requires 0 <= i < |files| => files[i].shortName)
  }

  /** The terminal after the command, recovery included. */
  function AfterCommand(env: Env, t: Term, c: byte): (t': Term)
    requires Inv(env, t) && Sound(env)
    ensures Inv(env, t')
  {
    CommandInv(env, t, c);
    RecoveredInv(env, Commanded(env, t, c));
    var t1 := Commanded(env, t, c);
    if t1.state == BUSY then Recovered(env, t1) else t1
  }

  /** The short name handed to the SD reader in this poll. */
  function Opened(env: Env, w: Work, c: byte): Option<seq<byte>>
    requires Inv(env, w.t) && Sound(env)
  {
    var t := AfterCommand(env, w.t, c);
    if t.state == PSBT_LOADING && t.fileIndex < |w.aliases| then Some(w.aliases[t.fileIndex]) else None
  }

  function ListFrom(t: Term, card: Card): Work {
    match card.list
    case None => Work(Errored(t, Said("SD listing failed")), [])
    case Some(files) => Work(Listed(t, files), Aliases(files))
  }

  function LoadFrom(env: Env, t: Term, alias: Option<seq<byte>>, card: Card): Term {
    match alias
    case None => Errored(t, Said("Rescan SD"))
    case Some(name) =>
      match card.read(name)
      case None => Errored(t, Said("SD read failed"))
      case Some(bytes) => Loaded(env, t, bytes)
  }

  function SignTo(env: Env, t: Term, card: Card): Term {
    var t' := FinishedSigning(env, t);
    match SignedBytes(env, t)
    case None => t'
    case Some(bytes) =>
      match card.write(bytes)
      case None => Errored(t', Said("SD write failed"))
      case Some(name) => Saved(t', name)
  }

  function Polled(env: Env, w: Work, c: byte, card: Card): Work
    requires Inv(env, w.t) && Sound(env)
  {
    var t := AfterCommand(env, w.t, c);
    if t.state == PSBT_LISTING then ListFrom(t, card)
    else if t.state == PSBT_LOADING then Work(LoadFrom(env, t, Opened(env, w, c), card), w.aliases)
    else if t.state == PSBT_SIGNING then Work(SignTo(env, t, card), w.aliases)
    else Work(t, w.aliases)
  }

  class Worker {
    const terminal: S.SeedTerminal
    var aliases: seq<seq<byte>>

    ghost function State(): Work
      reads this, terminal, terminal.words, terminal.prefix, terminal.pass, terminal.identity,
            terminal.qrBuffer, terminal.seed
    {
      Work(terminal.State(), aliases)
    }

    constructor (terminal: S.SeedTerminal)
      ensures this.terminal == terminal && aliases == []
    {
      this.terminal, aliases := terminal, [];
    }

    method List(card: Card)
      requires terminal.Valid()
      modifies this`aliases, terminal`files, terminal`review, terminal`message, terminal`state, terminal`fileIndex,
               terminal`namePage
      ensures State() == ListFrom(old(terminal.State()), card)
    {
      aliases := [];
      match card.list {
        case Some(files) =>
          aliases := Aliases(files);
          terminal.SetFiles(files);
        case None => terminal.PsbtError(Said("SD listing failed"));
      }
    }

    method Load(env: Env, card: Card)
      requires terminal.Valid()
      modifies terminal`files, terminal`review, terminal`message, terminal`state, terminal`reviewPage
      ensures aliases == old(aliases)
      ensures var t := old(terminal.State());
        terminal.State() == LoadFrom(env, t, if t.fileIndex < |aliases| then Some(aliases[t.fileIndex]) else None, card)
    {
      if terminal.fileIndex >= |aliases| {
        terminal.PsbtError(Said("Rescan SD"));
      } else {
        match card.read(aliases[terminal.fileIndex]) {
          case Some(bytes) => terminal.LoadPsbt(env, bytes);
          case None => terminal.PsbtError(Said("SD read failed"));
        }
      }
    }

    method Sign(env: Env, card: Card)
      requires terminal.Valid()
      modifies terminal`files, terminal`review, terminal`message, terminal`state
      ensures aliases == old(aliases) && terminal.State() == SignTo(env, old(terminal.State()), card)
    {
      var signed := terminal.FinishSigning(env);
      if signed.Some? {
        match card.write(signed.value) {
          case Some(name) => terminal.PsbtSaved(name);
          case None => terminal.PsbtError(Said("SD write failed"));
        }
      }
    }

    method Poll(env: Env, c: byte, card: Card)
      requires terminal.Separate() && Sound(env) && Inv(env, terminal.State())
      modifies this, terminal, terminal.words, terminal.prefix, terminal.pass, terminal.identity, terminal.qrBuffer
      ensures State() == Polled(env, old(State()), c, card)
    {
      terminal.Command(env, c);
      if terminal.state == BUSY {
        terminal.FinishRecovery(env);
      }
      if terminal.state == PSBT_LISTING {
        List(card);
      } else if terminal.state == PSBT_LOADING {
        Load(env, card);
      } else if terminal.state == PSBT_SIGNING {
        Sign(env, card);
      }
    }
  }

  // ----- runs of the worker -----

  /** Between polls no work is left over, and the files on screen are the ones listed. */
  ghost predicate WorkInv(env: Env, w: Work) {
    && Inv(env, w.t)
    && w.t.state != BUSY && w.t.state != PSBT_LISTING && w.t.state != PSBT_LOADING && w.t.state != PSBT_SIGNING
    && (w.t.state == PSBT_FILES ==> w.aliases == Aliases(w.t.files))
  }

  /** A poll is a run of the terminal, so everything above holds of the worker. */
  lemma PollIsRun(env: Env, w: Work, c: byte, card: Card) returns (events: seq<Event>)
    requires Inv(env, w.t) && Sound(env)
    ensures forall world: World :: world.t == w.t ==> Exec(env, world, events).t == Polled(env, w, c, card).t
  {
    CommandInv(env, w.t, c);
    var t1 := Commanded(env, w.t, c);
    var t := AfterCommand(env, w.t, c);
    events := [Cmd(c)] + if t1.state == BUSY then [Recovery] else [];
    var more := MoreEvents(env, t, Opened(env, w, c), card);
    forall world: World | world.t == w.t
      ensures Exec(env, world, events + more).t == Polled(env, w, c, card).t
    {
      ExecConcat(env, world, events, more);
      FirstEvents(env, world, c);
      LastEvents(env, Exec(env, world, events), w, c, card);
    }
    events := events + more;
  }

  function ListEvents(card: Card): seq<Event> {
    [if card.list.None? then Fail(Said("SD listing failed")) else Files(card.list.value)]
  }

  function LoadEvents(alias: Option<seq<byte>>, card: Card): seq<Event> {
    match alias
    case None => [Fail(Said("Rescan SD"))]
    case Some(name) =>
      match card.read(name)
      case None => [Fail(Said("SD read failed"))]
      case Some(bytes) => [Load(bytes)]
  }

  function SignEvents(env: Env, t: Term, card: Card): seq<Event> {
    match SignedBytes(env, t)
    case None => [Sign]
    case Some(bytes) =>
      match card.write(bytes)
      case None => [Sign, Fail(Said("SD write failed"))]
      case Some(name) => [Sign, Save(name)]
  }

  lemma {:induction false} ExecConcat(env: Env, w: World, a: seq<Event>, b: seq<Event>)
    requires Inv(env, w.t) && Sound(env)
    ensures Exec(env, w, a + b) == Exec(env, Exec(env, w, a), b)
    decreases |a|
  {
    if a == [] {
      assert a + b == b;
    } else {
      AppliedInv(env, w.t, a[0]);
      assert (a + b)[0] == a[0] && (a + b)[1..] == a[1..] + b;
      ExecConcat(env, Next(env, w, a[0]), a[1..], b);
    }
  }

  lemma ExecOne(env: Env, w: World, e: Event)
    requires Inv(env, w.t) && Sound(env)
    ensures Exec(env, w, [e]) == Next(env, w, e)
  {
    AppliedInv(env, w.t, e);
    assert [e][1..] == [];
  }

  lemma ExecTwo(env: Env, w: World, d: Event, e: Event)
    requires Inv(env, w.t) && Sound(env)
    ensures Inv(env, Next(env, w, d).t) && Exec(env, w, [d, e]) == Next(env, Next(env, w, d), e)
  {
    AppliedInv(env, w.t, d);
    assert [d, e][1..] == [e];
    ExecOne(env, Next(env, w, d), e);
  }

  /** What one or two events do to the terminal. */
  lemma TermOne(env: Env, w: World, e: Event)
    requires Inv(env, w.t) && Sound(env)
    ensures Exec(env, w, [e]).t == Applied(env, w.t, e)
  {
    ExecOne(env, w, e);
  }

  lemma TermTwo(env: Env, w: World, d: Event, e: Event)
    requires Inv(env, w.t) && Sound(env)
    ensures Inv(env, Applied(env, w.t, d)) && Exec(env, w, [d, e]).t == Applied(env, Applied(env, w.t, d), e)
  {
    ExecTwo(env, w, d, e);
  }

  lemma FirstEvents(env: Env, w: World, c: byte)
    requires Inv(env, w.t) && Sound(env)
    ensures var events := [Cmd(c)] + if Commanded(env, w.t, c).state == BUSY then [Recovery] else [];
      Exec(env, w, events).t == AfterCommand(env, w.t, c)
  {
    if Commanded(env, w.t, c).state == BUSY {
      TermTwo(env, w, Cmd(c), Recovery);
      assert [Cmd(c)] + [Recovery] == [Cmd(c), Recovery];
    } else {
      TermOne(env, w, Cmd(c));
      assert [Cmd(c)] + [] == [Cmd(c)];
    }
  }

  lemma LoadEventsRun(env: Env, w: World, alias: Option<seq<byte>>, card: Card)
    requires Inv(env, w.t) && Sound(env)
    ensures Exec(env, w, LoadEvents(alias, card)).t == LoadFrom(env, w.t, alias, card)
  {
    var events := LoadEvents(alias, card);
    assert events == [events[0]];
    TermOne(env, w, events[0]);
  }

  lemma SignEventsRun(env: Env, w: World, card: Card)
    requires Inv(env, w.t) && Sound(env)
    ensures Exec(env, w, SignEvents(env, w.t, card)).t == SignTo(env, w.t, card)
  {
    var events := SignEvents(env, w.t, card);
    if |events| == 1 {
      TermOne(env, w, Sign);
    } else {
      assert events == [Sign, events[1]];
      TermTwo(env, w, Sign, events[1]);
    }
  }

  lemma ListEventsRun(env: Env, w: World, card: Card)
    requires Inv(env, w.t) && Sound(env)
    ensures Exec(env, w, ListEvents(card)).t == ListFrom(w.t, card).t
  {
    TermOne(env, w, ListEvents(card)[0]);
  }

  /** The events that follow the command in one poll. */
  function MoreEvents(env: Env, t: Term, alias: Option<seq<byte>>, card: Card): seq<Event> {
    if t.state == PSBT_LISTING then ListEvents(card)
    else if t.state == PSBT_LOADING then LoadEvents(alias, card)
    else if t.state == PSBT_SIGNING then SignEvents(env, t, card)
    else []
  }

  lemma LastEvents(env: Env, w: World, was: Work, c: byte, card: Card)
    requires Inv(env, was.t) && Inv(env, w.t) && Sound(env) && w.t == AfterCommand(env, was.t, c)
    ensures Exec(env, w, MoreEvents(env, w.t, Opened(env, was, c), card)).t == Polled(env, was, c, card).t
  {
    if w.t.state == PSBT_LISTING { ListEventsRun(env, w, card); }
    else if w.t.state == PSBT_LOADING { LoadEventsRun(env, w, Opened(env, was, c), card); }
    else if w.t.state == PSBT_SIGNING { SignEventsRun(env, w, card); }
  }

  /** A command starts loading only from the list of files, and shows files only if it did before. */
  lemma CommandAndFiles(env: Env, t: Term, c: byte)
    requires Inv(env, t) && t.state != PSBT_LOADING
    ensures var t' := Commanded(env, t, c);
      && (t'.state == PSBT_LOADING <==> t.state == PSBT_FILES && c == FILE_OPEN)
      && (t'.state == PSBT_LOADING ==> t'.fileIndex == t.fileIndex)
      && (t'.state == PSBT_FILES ==> t.state == PSBT_FILES && t'.files == t.files)
  {
  }

  lemma AfterCommandAndFiles(env: Env, t: Term, c: byte)
    requires Inv(env, t) && Sound(env) && t.state != PSBT_LOADING
    ensures var t' := AfterCommand(env, t, c);
      && t'.state != BUSY
      && (t'.state == PSBT_LOADING <==> t.state == PSBT_FILES && c == FILE_OPEN)
      && (t'.state == PSBT_LOADING ==> t'.fileIndex == t.fileIndex)
      && (t'.state == PSBT_FILES ==> t.state == PSBT_FILES && t'.files == t.files)
  {
    CommandAndFiles(env, t, c);
    CommandInv(env, t, c);
  }

  lemma PolledInv(env: Env, w: Work, c: byte, card: Card)
    requires WorkInv(env, w) && Sound(env)
    ensures WorkInv(env, Polled(env, w, c, card))
  {
    AfterCommandAndFiles(env, w.t, c);
    var t := AfterCommand(env, w.t, c);
    if t.state == PSBT_LISTING {
      ListingPollInv(env, t, card);
    } else if t.state == PSBT_LOADING {
      LoadingPollInv(env, t, Opened(env, w, c), card);
    } else if t.state == PSBT_SIGNING {
      SigningPollInv(env, t, card);
    }
  }

  lemma ListingPollInv(env: Env, t: Term, card: Card)
    requires Inv(env, t) && t.state == PSBT_LISTING
    ensures WorkInv(env, ListFrom(t, card))
  {
    CallbacksInv(env, t, if card.list.Some? then card.list.value else [], Said("SD listing failed"), "");
  }

  lemma LoadingPollInv(env: Env, t: Term, alias: Option<seq<byte>>, card: Card)
    requires Inv(env, t) && t.state == PSBT_LOADING
    ensures Inv(env, LoadFrom(env, t, alias, card))
    ensures LoadFrom(env, t, alias, card).state == PSBT_ERROR || LoadFrom(env, t, alias, card).state == PSBT_REVIEW
  {
    CallbacksInv(env, t, [], Said("Rescan SD"), "");
    CallbacksInv(env, t, [], Said("SD read failed"), "");
    if alias.Some? && card.read(alias.value).Some? {
      LoadedInv(env, t, card.read(alias.value).value);
    }
  }

  lemma SigningPollInv(env: Env, t: Term, card: Card)
    requires Inv(env, t) && t.state == PSBT_SIGNING
    ensures Inv(env, SignTo(env, t, card))
    ensures SignTo(env, t, card).state == PSBT_ERROR || SignTo(env, t, card).state == PSBT_SAVED
  {
    var t' := FinishedSigning(env, t);
    FinishedSigningInv(env, t);
    CallbacksInv(env, t', [], Said("SD write failed"), "");
    if SignedBytes(env, t).Some? && card.write(SignedBytes(env, t).value).Some? {
      CallbacksInv(env, t', [], Blank, card.write(SignedBytes(env, t).value).value);
    }
  }

  datatype Turn = Turn(c: byte, card: Card)

  ghost function Polls(env: Env, turns: seq<Turn>): (w: Work)
    requires Sound(env)
    ensures WorkInv(env, w)
  {
    if turns == [] then DefaultInv(env); Work(Default(), [])
    else
      var w := Polls(env, turns[..|turns| - 1]);
      PolledInv(env, w, turns[|turns| - 1].c, turns[|turns| - 1].card);
      Polled(env, w, turns[|turns| - 1].c, turns[|turns| - 1].card)
  }

  /**
   After any sequence of polls: the worker opens a file if and only if the game chose to open one
   from the list, and the short name it opens is the one of the file then on screen.
   */
  lemma OpensWhatIsShown(env: Env, turns: seq<Turn>, c: byte, alias: seq<byte>)
    requires Sound(env)
    ensures var w := Polls(env, turns);
      (Opened(env, w, c) == Some(alias))
      == (w.t.state == PSBT_FILES && c == FILE_OPEN && alias == w.t.files[w.t.fileIndex].shortName)
  {
    AfterCommandAndFiles(env, Polls(env, turns).t, c);
  }
}
