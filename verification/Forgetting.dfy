/**
 What LOCK and a new beginning leave of the past: nothing in memory, and nothing that any later screen,
 QR code, file access or signature could tell. Two workers with different pasts behave alike from then
 on, whatever the player and the card do.
 */
module Forgetting {
  import opened Bytes
  import P = Psbt
  import R = Report
  import opened SignerRuns
  import opened Terminal

  // ----- what can be told apart -----

  /** The transaction, if any, that leaves the terminal in the poll of this command. */
  function Given(env: Env, w: Work, c: byte): Option<seq<byte>>
    requires Inv(env, w.t) && Sound(env)
  {
    SignedBytes(env, AfterCommand(env, w.t, c))
  }

  /** The command makes the worker list the card. */
  predicate Lists(env: Env, w: Work, c: byte)
    requires Inv(env, w.t) && Sound(env)
  {
    AfterCommand(env, w.t, c).state == PSBT_LISTING
  }

  /** All that the Game Boy and the card get to see of a worker: the screen, and what the next command does. */
  ghost predicate LookAlike(env: Env, v: Work, w: Work)
    requires Inv(env, v.t) && Inv(env, w.t) && Sound(env)
  {
    && R.ReportOf(env, v.t) == R.ReportOf(env, w.t) && v.t.qrBuffer == w.t.qrBuffer
    && forall c :: Opened(env, v, c) == Opened(env, w, c) && Given(env, v, c) == Given(env, w, c)
                   && Lists(env, v, c) == Lists(env, w, c)
  }

  ghost function Played(env: Env, w: Work, turns: seq<Turn>): (w': Work)
    requires WorkInv(env, w) && Sound(env)
    ensures WorkInv(env, w')
    decreases |turns|
  {
    if turns == [] then w
    else
      PolledInv(env, w, turns[0].c, turns[0].card);
      Played(env, Polled(env, w, turns[0].c, turns[0].card), turns[1..])
  }

  // ----- alike but for what is not in use -----

  predicate UsesFile(state: nat) { state == PSBT_FILES || state == PSBT_LOADING }

  /** Positions in files and review count only while there are files and a review. */
  predicate SameTerm(t: Term, u: Term) {
    && t.(fileIndex := u.fileIndex, namePage := u.namePage, reviewPage := u.reviewPage) == u
    && (t.files != [] ==> t.namePage == u.namePage) && (t.review.Some? ==> t.reviewPage == u.reviewPage)
    && (t.files != [] || UsesFile(t.state) ==> t.fileIndex == u.fileIndex)
  }

  ghost predicate Same(v: Work, w: Work) {
    SameTerm(v.t, w.t) && (UsesFile(v.t.state) ==> v.aliases == w.aliases)
  }

  lemma TypingSame(env: Env, t: Term, u: Term, c: byte)
    requires Inv(env, t) && Inv(env, u) && SameTerm(t, u) && (t.state == WORDS || t.state == PASSPHRASE)
    ensures SameTerm(AtEntry(env, t, c), AtEntry(env, u, c))
  {
  }

  lemma ActiveSame(env: Env, t: Term, u: Term, c: byte)
    requires Inv(env, t) && Inv(env, u) && SameTerm(t, u) && t.state == ACTIVE
    ensures SameTerm(AtEntry(env, t, c), AtEntry(env, u, c))
  {
  }

  lemma OtherSame(env: Env, t: Term, u: Term, c: byte)
    requires Inv(env, t) && Inv(env, u) && SameTerm(t, u)
    requires t.state != WORDS && t.state != PASSPHRASE && t.state != ACTIVE
    requires t.state != PSBT_FILES && t.state != PSBT_REVIEW
    ensures SameTerm(AtEntry(env, t, c), AtEntry(env, u, c))
  {
  }

  lemma FilesSame(env: Env, t: Term, u: Term, c: byte)
    requires Inv(env, t) && Inv(env, u) && SameTerm(t, u) && (t.state == PSBT_FILES || t.state == PSBT_REVIEW)
    ensures SameTerm(Commanded(env, t, c), Commanded(env, u, c))
  {
  }

  lemma CommandedSame(env: Env, t: Term, u: Term, c: byte)
    requires Inv(env, t) && Inv(env, u) && SameTerm(t, u)
    ensures SameTerm(Commanded(env, t, c), Commanded(env, u, c))
  {
    if t.state == PSBT_FILES || t.state == PSBT_REVIEW {
      FilesSame(env, t, u, c);
    } else if t.state == WORDS || t.state == PASSPHRASE {
      TypingSame(env, t, u, c);
    } else if t.state == ACTIVE {
      ActiveSame(env, t, u, c);
    } else {
      OtherSame(env, t, u, c);
    }
  }

  lemma RecoveredSame(env: Env, t: Term, u: Term)
    requires Inv(env, t) && Inv(env, u) && SameTerm(t, u) && Sound(env)
    ensures SameTerm(Recovered(env, t), Recovered(env, u))
  {
  }

  lemma AfterCommandSame(env: Env, t: Term, u: Term, c: byte)
    requires Inv(env, t) && Inv(env, u) && SameTerm(t, u) && Sound(env)
    ensures SameTerm(AfterCommand(env, t, c), AfterCommand(env, u, c))
  {
    CommandedSame(env, t, u, c);
    CommandInv(env, t, c);
    CommandInv(env, u, c);
    RecoveredSame(env, Commanded(env, t, c), Commanded(env, u, c));
  }

  /** A command that opens a file does it from the list, so that the short names are the same. */
  lemma OpenedSame(env: Env, v: Work, w: Work, c: byte)
    requires WorkInv(env, v) && WorkInv(env, w) && Sound(env) && Same(v, w)
    ensures Opened(env, v, c) == Opened(env, w, c)
    ensures UsesFile(AfterCommand(env, v.t, c).state) ==> v.aliases == w.aliases
  {
    AfterCommandSame(env, v.t, w.t, c);
    AfterCommandAndFiles(env, v.t, c);
  }

  lemma ListedSame(t: Term, u: Term, card: Card)
    requires SameTerm(t, u) && t.state == PSBT_LISTING
    ensures Same(ListFrom(t, card), ListFrom(u, card))
  {
  }

  lemma LoadedSame(env: Env, t: Term, u: Term, alias: Option<seq<byte>>, card: Card)
    requires SameTerm(t, u) && t.state == PSBT_LOADING
    ensures SameTerm(LoadFrom(env, t, alias, card), LoadFrom(env, u, alias, card))
  {
  }

  lemma SignedSame(env: Env, t: Term, u: Term, card: Card)
    requires SameTerm(t, u) && t.state == PSBT_SIGNING
    ensures SameTerm(SignTo(env, t, card), SignTo(env, u, card))
  {
    FinishedSame(env, t, u);
  }

  lemma FinishedSame(env: Env, t: Term, u: Term)
    requires SameTerm(t, u)
    ensures SignedBytes(env, t) == SignedBytes(env, u)
    ensures SameTerm(FinishedSigning(env, t), FinishedSigning(env, u))
  {
  }

  lemma PolledSame(env: Env, v: Work, w: Work, c: byte, card: Card)
    requires WorkInv(env, v) && WorkInv(env, w) && Sound(env) && Same(v, w)
    ensures Same(Polled(env, v, c, card), Polled(env, w, c, card))
  {
    AfterCommandSame(env, v.t, w.t, c);
    OpenedSame(env, v, w, c);
    var t, u := AfterCommand(env, v.t, c), AfterCommand(env, w.t, c);
    PolledParts(env, t, u, v.aliases, w.aliases, Opened(env, v, c), card);
  }

  /** The work behind the command, from terminals that are the same by now. */
  lemma PolledParts(
    env: Env, t: Term, u: Term, a: seq<seq<byte>>, b: seq<seq<byte>>, alias: Option<seq<byte>>, card: Card)
    requires SameTerm(t, u) && (UsesFile(t.state) ==> a == b)
    ensures t.state == PSBT_LISTING ==> Same(ListFrom(t, card), ListFrom(u, card))
    ensures t.state == PSBT_LOADING ==>
      Same(Work(LoadFrom(env, t, alias, card), a), Work(LoadFrom(env, u, alias, card), b))
    ensures t.state == PSBT_SIGNING ==> Same(Work(SignTo(env, t, card), a), Work(SignTo(env, u, card), b))
  {
    if t.state == PSBT_LISTING { ListedSame(t, u, card); }
    if t.state == PSBT_LOADING { LoadedSame(env, t, u, alias, card); }
    if t.state == PSBT_SIGNING { SignedSame(env, t, u, card); SignedShowsNoFiles(env, t, card); }
  }

  lemma SignedShowsNoFiles(env: Env, t: Term, card: Card)
    requires t.state == PSBT_SIGNING
    ensures !UsesFile(SignTo(env, t, card).state)
  {
  }

  lemma ScreenSame(env: Env, t: Term, u: Term)
    requires Inv(env, t) && Inv(env, u) && SameTerm(t, u)
    ensures R.ReportOf(env, t) == R.ReportOf(env, u) && t.qrBuffer == u.qrBuffer
    ensures SignedBytes(env, t) == SignedBytes(env, u)
  {
  }

  lemma SameLookAlike(env: Env, v: Work, w: Work)
    requires WorkInv(env, v) && WorkInv(env, w) && Sound(env) && Same(v, w)
    ensures LookAlike(env, v, w)
  {
    ScreenSame(env, v.t, w.t);
    forall c
      ensures Opened(env, v, c) == Opened(env, w, c) && Given(env, v, c) == Given(env, w, c)
      ensures Lists(env, v, c) == Lists(env, w, c)
    {
      AfterCommandSame(env, v.t, w.t, c);
      OpenedSame(env, v, w, c);
      ScreenSame(env, AfterCommand(env, v.t, c), AfterCommand(env, w.t, c));
    }
  }

  lemma {:induction false} PlayedSame(env: Env, v: Work, w: Work, turns: seq<Turn>)
    requires WorkInv(env, v) && WorkInv(env, w) && Sound(env) && Same(v, w)
    ensures Same(Played(env, v, turns), Played(env, w, turns))
    decreases |turns|
  {
    if turns != [] {
      var c, card := turns[0].c, turns[0].card;
      PolledInv(env, v, c, card);
      PolledInv(env, w, c, card);
      PolledSame(env, v, w, c, card);
      PlayedSame(env, Polled(env, v, c, card), Polled(env, w, c, card), turns[1..]);
    }
  }

  lemma WipedSame(env: Env, v: Work, w: Work, c: byte, card: Card)
    requires WorkInv(env, v) && WorkInv(env, w) && Sound(env)
    requires Begins(c) && (c == LOCK ==> v.t.network == w.t.network)
    ensures Same(Polled(env, v, c, card), Polled(env, w, c, card))
  {
  }

  // ----- main results -----

  /**
   After LOCK or a new beginning, whatever two workers did before: through every later sequence of polls
   they show the same screens and QR codes, open the same files and sign the same bytes. The one thing
   LOCK lets through is which network was in use.
   */
  lemma PastIsForgotten(env: Env, v: Work, w: Work, c: byte, card: Card, turns: seq<Turn>)
    requires WorkInv(env, v) && WorkInv(env, w) && Sound(env)
    requires Begins(c) && (c == LOCK ==> v.t.network == w.t.network)
    ensures WorkInv(env, Polled(env, v, c, card)) && WorkInv(env, Polled(env, w, c, card))
    ensures LookAlike(env, Played(env, Polled(env, v, c, card), turns), Played(env, Polled(env, w, c, card), turns))
  {
    PolledInv(env, v, c, card);
    PolledInv(env, w, c, card);
    WipedSame(env, v, w, c, card);
    PlayedSame(env, Polled(env, v, c, card), Polled(env, w, c, card), turns);
    SameLookAlike(
      env, Played(env, Polled(env, v, c, card), turns), Played(env, Polled(env, w, c, card), turns));
  }

  /** The network that was in use is still to be seen after LOCK. */
  lemma NetworkIsNot(env: Env, t: Term, u: Term)
    requires Inv(env, t) && Inv(env, u) && Sound(env)
    ensures Inv(env, Commanded(env, t, LOCK)) && Inv(env, Commanded(env, u, LOCK))
    ensures R.ReportOf(env, Commanded(env, t, LOCK)) == R.ReportOf(env, Commanded(env, u, LOCK))
       <==> (t.network == P.Bitcoin <==> u.network == P.Bitcoin)
  {
    CommandInv(env, t, LOCK);
    CommandInv(env, u, LOCK);
    R.HeaderIsBlank(Commanded(env, t, LOCK));
    assert R.ReportOf(env, Commanded(env, t, LOCK))[6] == if t.network == P.Bitcoin then 1 else 0;
    assert R.ReportOf(env, Commanded(env, u, LOCK))[6] == if u.network == P.Bitcoin then 1 else 0;
  }

  /** No byte of words, passphrase, identity or QR code is left in memory, and no seed. */
  lemma NothingIsLeft(env: Env, t: Term, c: byte)
    requires Inv(env, t) && Begins(c)
    ensures var t' := Commanded(env, t, c);
      && ZeroFrom(t'.entry.words, 0) && ZeroFrom(t'.entry.prefix, 0) && ZeroFrom(t'.entry.pass, 0)
      && t'.entry.passLen == t'.entry.prefixLen == t'.entry.slot == t'.entry.candidate == 0
      && ZeroFrom(t'.identity, 0) && ZeroFrom(t'.qrBuffer, 0) && t'.qrSize == 0 && t'.addressIndex == 0
      && t'.seed == None && t'.review == None && t'.files == [] && t'.message == Blank
  {
  }
}
