/**
 What the player's commands lead to beyond typing and reviewing: walking through files, names and
 addresses, listing and opening files, saving, and going back without losing the session.
 */
module Browsing {
  import opened Bytes
  import A = Arithmetic
  import D = Directory
  import F = Forgetting
  import N = NameOrder
  import P = Psbt
  import opened SignerRuns
  import opened Terminal

  // ----- from file to file, from page to page -----

  predicate Walks(c: byte) { c == FILE_NEXT || c == FILE_PREV || c == NAME_NEXT || c == NAME_PREV }

  function Walked(env: Env, t: Term, cs: seq<byte>): (t': Term)
    requires Inv(env, t) && Sound(env)
    ensures Inv(env, t')
    decreases |cs|
  {
    if cs == [] then t
    else
      CommandInv(env, t, cs[0]);
      Walked(env, Commanded(env, t, cs[0]), cs[1..])
  }

  /** How far these commands go forward. */
  function Net(cs: seq<byte>): int {
    if cs == [] then 0 else Move(cs[0]) + Net(cs[1..])
  }

  function Move(c: byte): int { if c == FILE_NEXT then 1 else if c == FILE_PREV then -1 else 0 }

  /** The file after one command, and how often the walk has gone round, 1 for backwards past the first. */
  lemma OneFile(env: Env, t: Term, c: byte) returns (turn: int)
    requires Inv(env, t) && t.state == PSBT_FILES && Walks(c)
    ensures var t' := Commanded(env, t, c);
      && t'.state == PSBT_FILES && t'.files == t.files
      && t'.fileIndex == t.fileIndex + Move(c) + turn * |t.files|
  {
    var n := |t.files|;
    turn := if c == FILE_NEXT && t.fileIndex + 1 == n then -1 else if c == FILE_PREV && t.fileIndex == 0 then 1 else 0;
    A.Around(t.fileIndex, n);
  }

  lemma RoundsAddUp(start: int, a: int, b: int, net: int, more: int, n: nat, k: int, k': int)
    requires k == start + more + a * n && k' == k + net + b * n
    ensures k' == start + (more + net) + (a + b) * n
  {
  }

  lemma WalkedCons(env: Env, t: Term, c: byte, cs: seq<byte>)
    requires Inv(env, t) && Sound(env)
    ensures Inv(env, Commanded(env, t, c)) && Walked(env, t, [c] + cs) == Walked(env, Commanded(env, t, c), cs)
  {
    CommandInv(env, t, c);
    assert ([c] + cs)[0] == c && ([c] + cs)[1..] == cs;
  }

  /** The files go round: after any walk the file on screen is the one so many places on, counted in circles. */
  lemma {:induction false} FilesGoRound(env: Env, t: Term, cs: seq<byte>) returns (rounds: int)
    requires Inv(env, t) && Sound(env) && t.state == PSBT_FILES && forall i :: 0 <= i < |cs| ==> Walks(cs[i])
    ensures var t' := Walked(env, t, cs);
      && t'.state == PSBT_FILES && t'.files == t.files
      && t'.fileIndex == t.fileIndex + Net(cs) + rounds * |t.files|
    decreases |cs|
  {
    if cs == [] {
      rounds := 0;
    } else {
      assert cs == [cs[0]] + cs[1..];
      WalkedCons(env, t, cs[0], cs[1..]);
      var turn := OneFile(env, t, cs[0]);
      var t1 := Commanded(env, t, cs[0]);
      var others := FilesGoRound(env, t1, cs[1..]);
      rounds := turn + others;
      RoundsAddUp(
        t.fileIndex, turn, others, Net(cs[1..]), Move(cs[0]), |t.files|, t1.fileIndex, Walked(env, t, cs).fileIndex);
    }
  }

  function Times(c: byte, n: nat): (cs: seq<byte>)
    ensures |cs| == n && forall i :: 0 <= i < n ==> cs[i] == c
  {
    seq(n, _ => c)
  }

  lemma TimesCons(c: byte, n: nat)
    ensures Times(c, n + 1) == [c] + Times(c, n)
  {
  }

  lemma OnePage(env: Env, t: Term)
    requires Inv(env, t) && t.state == PSBT_FILES
    ensures Commanded(env, t, NAME_NEXT)
         == t.(namePage := if t.namePage + 1 < Pages(t.files[t.fileIndex]) then t.namePage + 1 else t.namePage)
    ensures Commanded(env, t, NAME_PREV) == t.(namePage := if t.namePage > 0 then t.namePage - 1 else 0)
  {
  }

  /** The pages of a name are turned one by one up to the last. */
  lemma {:induction false} NamePagesTurn(env: Env, t: Term, n: nat)
    requires Inv(env, t) && Sound(env) && t.state == PSBT_FILES
    ensures Walked(env, t, Times(NAME_NEXT, n))
         == t.(namePage := Min(t.namePage + n, Pages(t.files[t.fileIndex]) - 1))
    decreases n
  {
    if n > 0 {
      TimesCons(NAME_NEXT, n - 1);
      WalkedCons(env, t, NAME_NEXT, Times(NAME_NEXT, n - 1));
      OnePage(env, t);
      NamePagesTurn(env, Commanded(env, t, NAME_NEXT), n - 1);
    }
  }

  /** And back down to the first. */
  lemma {:induction false} NamePagesTurnBack(env: Env, t: Term, n: nat)
    requires Inv(env, t) && Sound(env) && t.state == PSBT_FILES
    ensures Walked(env, t, Times(NAME_PREV, n)) == t.(namePage := if t.namePage >= n then t.namePage - n else 0)
    decreases n
  {
    if n > 0 {
      TimesCons(NAME_PREV, n - 1);
      WalkedCons(env, t, NAME_PREV, Times(NAME_PREV, n - 1));
      OnePage(env, t);
      NamePagesTurnBack(env, Commanded(env, t, NAME_PREV), n - 1);
    }
  }

  lemma OneReviewPage(env: Env, t: Term)
    requires Inv(env, t) && t.state == PSBT_REVIEW
    ensures Commanded(env, t, REVIEW_NEXT)
         == t.(reviewPage := if t.reviewPage <= |t.review.value.outputs| then t.reviewPage + 1 else t.reviewPage)
    ensures Commanded(env, t, REVIEW_BACK) == t.(reviewPage := if t.reviewPage > 0 then t.reviewPage - 1 else 0)
  {
  }

  /** The pages of a review turn one by one up to the approval behind outputs and fee. */
  lemma {:induction false} ReviewPagesTurn(env: Env, t: Term, n: nat)
    requires Inv(env, t) && Sound(env) && t.state == PSBT_REVIEW
    ensures Walked(env, t, Times(REVIEW_NEXT, n))
         == t.(reviewPage := Min(t.reviewPage + n, |t.review.value.outputs| + 1))
    decreases n
  {
    if n > 0 {
      TimesCons(REVIEW_NEXT, n - 1);
      WalkedCons(env, t, REVIEW_NEXT, Times(REVIEW_NEXT, n - 1));
      OneReviewPage(env, t);
      ReviewPagesTurn(env, Commanded(env, t, REVIEW_NEXT), n - 1);
    }
  }

  /** And back down to the first. */
  lemma {:induction false} ReviewPagesTurnBack(env: Env, t: Term, n: nat)
    requires Inv(env, t) && Sound(env) && t.state == PSBT_REVIEW
    ensures Walked(env, t, Times(REVIEW_BACK, n)) == t.(reviewPage := if t.reviewPage >= n then t.reviewPage - n else 0)
    decreases n
  {
    if n > 0 {
      TimesCons(REVIEW_BACK, n - 1);
      WalkedCons(env, t, REVIEW_BACK, Times(REVIEW_BACK, n - 1));
      OneReviewPage(env, t);
      ReviewPagesTurnBack(env, Commanded(env, t, REVIEW_BACK), n - 1);
    }
  }

  // ----- addresses -----

  /** The address shown with the identity is the receive address of index zero. */
  ghost predicate FirstAddress(env: Env) {
    forall s :: env.identity(s).Some? ==> env.receive(s, 0) == Some(env.identity(s).value.1)
  }

  /** The field holds as much of this text as fits, and zeros behind it. */
  predicate Filled(field: seq<byte>, text: seq<byte>) {
    forall i :: 0 <= i < |field| ==> field[i] == if i < |text| then text[i] else 0
  }

  /** The address on screen is the one of the current index. */
  ghost predicate AddressShown(env: Env, t: Term) {
    t.seed.Some? ==>
      && |t.identity| == IDENTITY_BYTES && env.identity(t.seed.value).Some?
      && env.receive(t.seed.value, t.addressIndex).Some?
      && Filled(t.identity[8..], env.receive(t.seed.value, t.addressIndex).value)
  }

  /** Without a seed nothing is shown there, and the next one starts at index zero. */
  ghost predicate AddressInv(env: Env, t: Term) {
    && AddressShown(env, t) && (t.seed.None? ==> t.addressIndex == 0 && Filled(t.identity, []))
    && (NeedsWords(t.state) ==> t.seed.None?)
  }

  /** One address on, with the fingerprint as it was; an address that cannot be derived is passed over. */
  lemma NextAddressShown(env: Env, t: Term)
    requires Inv(env, t) && FirstAddress(env) && AddressInv(env, t) && t.state == ACTIVE && t.seed.Some?
    ensures AddressInv(env, Commanded(env, t, VERIFY_NEXT))
    ensures var next := if t.addressIndex == 1000 then 0 else t.addressIndex + 1;
      Commanded(env, t, VERIFY_NEXT).addressIndex
      == if env.receive(t.seed.value, next).Some? then next else t.addressIndex
    ensures Commanded(env, t, VERIFY_NEXT).identity[..8] == t.identity[..8]
  {
  }

  lemma RecoveredShown(env: Env, t: Term)
    requires Inv(env, t) && Sound(env) && FirstAddress(env) && AddressInv(env, t)
    ensures AddressInv(env, Recovered(env, t))
  {
  }

  /** What the address depends on. */
  predicate SameAddress(t: Term, u: Term) {
    u.seed == t.seed && u.identity == t.identity && u.addressIndex == t.addressIndex
    && (NeedsWords(u.state) ==> NeedsWords(t.state))
  }

  lemma CommandKeepsAddress(env: Env, t: Term, c: byte)
    requires Inv(env, t) && !Begins(c) && !(c == VERIFY_NEXT && t.state == ACTIVE && t.seed.Some?)
    ensures SameAddress(t, Commanded(env, t, c))
  {
  }

  lemma BeginShowsNothing(env: Env, t: Term, c: byte)
    requires Inv(env, t) && Begins(c)
    ensures AddressInv(env, Commanded(env, t, c))
  {
  }

  lemma CallbackKeepsAddress(env: Env, t: Term, e: Event)
    requires Inv(env, t) && Sound(env) && !e.Cmd? && !e.Recovery?
    ensures SameAddress(t, Applied(env, t, e))
  {
  }

  lemma AddressNext(env: Env, t: Term, e: Event)
    requires Inv(env, t) && Sound(env) && FirstAddress(env) && AddressInv(env, t)
    ensures AddressInv(env, Applied(env, t, e))
  {
    if e.Recovery? { RecoveredShown(env, t); }
    else if !e.Cmd? { CallbackKeepsAddress(env, t, e); }
    else if Begins(e.c) { BeginShowsNothing(env, t, e.c); }
    else if e.c == VERIFY_NEXT && t.state == ACTIVE && t.seed.Some? { NextAddressShown(env, t); }
    else { CommandKeepsAddress(env, t, e.c); }
  }

  /** In every run: whenever a seed is in use, the address on screen is that of the current index. */
  lemma {:induction false} ShownAddressIsCurrent(env: Env, w: World, events: seq<Event>)
    requires Inv(env, w.t) && Sound(env) && FirstAddress(env) && AddressInv(env, w.t)
    ensures AddressInv(env, Exec(env, w, events).t)
    decreases |events|
  {
    if events != [] {
      AppliedInv(env, w.t, events[0]);
      AddressNext(env, w.t, events[0]);
      ShownAddressIsCurrent(env, Next(env, w, events[0]), events[1..]);
    }
  }

  lemma StartShowsNothing(env: Env)
    requires Sound(env)
    ensures AddressInv(env, Start(env).t)
  {
  }

  // ----- files leave the session alone -----

  /** Commands of the file and review screens, and the callbacks of the worker for them. */
  predicate FileWork(e: Event) {
    match e
    case Cmd(c) => IMPORT_PSBT <= c <= NAME_PREV
    case Recovery => false
    case _ => true
  }

  predicate SameSession(t: Term, u: Term) {
    && u.seed == t.seed && u.network == t.network && u.identity == t.identity && u.addressIndex == t.addressIndex
    && u.entry == t.entry && u.qrSize == t.qrSize && u.qrBuffer == t.qrBuffer
  }

  lemma FileCommand(env: Env, t: Term, c: byte)
    requires Inv(env, t) && IMPORT_PSBT <= c <= NAME_PREV
    ensures SameSession(t, Commanded(env, t, c))
  {
  }

  lemma FileCallback(env: Env, t: Term, e: Event)
    requires Inv(env, t) && Sound(env) && FileWork(e) && !e.Cmd?
    ensures SameSession(t, Applied(env, t, e))
  {
  }

  lemma FileStep(env: Env, t: Term, e: Event)
    requires Inv(env, t) && Sound(env) && FileWork(e)
    ensures SameSession(t, Applied(env, t, e))
  {
    if e.Cmd? { FileCommand(env, t, e.c); } else { FileCallback(env, t, e); }
  }

  /**
   Whatever is listed, opened, reviewed, signed, saved or goes wrong, in any order: seed, network,
   identity, address and export stay, and CANCEL leads from every resting screen back to where it began.
   */
  lemma {:induction false} FileWorkKeepsSession(env: Env, w: World, events: seq<Event>)
    requires Inv(env, w.t) && Sound(env) && forall i :: 0 <= i < |events| ==> FileWork(events[i])
    ensures var t := Exec(env, w, events).t;
      && SameSession(w.t, t)
      && (t.state == PSBT_FILES || t.state == PSBT_REVIEW || t.state == PSBT_ERROR || t.state == PSBT_SAVED ==>
            var t' := Commanded(env, t, CANCEL_PSBT);
            t'.state == ACTIVE && SameSession(w.t, t') && t'.files == [] && t'.review == None && t'.message == Blank)
    decreases |events|
  {
    if events == [] {
      Cancels(env, w.t);
    } else {
      AppliedInv(env, w.t, events[0]);
      FileStep(env, w.t, events[0]);
      FileWorkKeepsSession(env, Next(env, w, events[0]), events[1..]);
    }
  }

  lemma Cancels(env: Env, t: Term)
    requires Inv(env, t)
    ensures t.state == PSBT_FILES || t.state == PSBT_REVIEW || t.state == PSBT_ERROR || t.state == PSBT_SAVED ==>
      var t' := Commanded(env, t, CANCEL_PSBT);
      t'.state == ACTIVE && SameSession(t, t') && t'.files == [] && t'.review == None && t'.message == Blank
  {
  }

  /** An export that is left again leaves nothing but a blank code. */
  lemma ExportAndBack(env: Env, t: Term, c: byte)
    requires Inv(env, t) && Sound(env) && t.state == ACTIVE && (c == EXPORT_ACCOUNT || c == EXPORT_SEGWIT)
    ensures Inv(env, Commanded(env, t, c))
    ensures var t' := Commanded(env, Commanded(env, t, c), EXPORT_BACK);
      t' == t.(qrSize := 0, qrBuffer := t'.qrBuffer) && ZeroFrom(t'.qrBuffer, 0)
  {
    CommandInv(env, t, c);
  }

  // ----- what one poll does with the card -----

  /** The files come on screen exactly when the player asked for them and the card has 1 to 32 of them. */
  lemma FilesComeIff(env: Env, w: Work, c: byte, card: Card, files: seq<N.File>)
    requires WorkInv(env, w) && Sound(env) && w.t.state != PSBT_FILES
    ensures var w' := Polled(env, w, c, card);
      w'.t.state == PSBT_FILES && w'.t.files == files
      <==> w.t.state == ACTIVE && c == IMPORT_PSBT && card.list == Some(files) && 1 <= |files| <= 32
    ensures var w' := Polled(env, w, c, card);
      w'.t.state == PSBT_FILES ==> w'.t.fileIndex == w'.t.namePage == 0
  {
    AfterCommandAndFiles(env, w.t, c);
    ListsIff(env, w, c);
    CardsLeadOn(env, AfterCommand(env, w.t, c), Opened(env, w, c), card);
  }

  lemma ListsIff(env: Env, w: Work, c: byte)
    requires WorkInv(env, w) && Sound(env)
    ensures F.Lists(env, w, c) <==> w.t.state == ACTIVE && c == IMPORT_PSBT
    ensures AfterCommand(env, w.t, c).state == PSBT_LISTING ==> AfterCommand(env, w.t, c).files == []
  {
  }

  lemma CardsLeadOn(env: Env, t: Term, alias: Option<seq<byte>>, card: Card)
    ensures t.state == PSBT_LOADING ==>
      LoadFrom(env, t, alias, card).state == PSBT_ERROR || LoadFrom(env, t, alias, card).state == PSBT_REVIEW
    ensures t.state == PSBT_SIGNING ==>
      SignTo(env, t, card).state == PSBT_ERROR || SignTo(env, t, card).state == PSBT_SAVED || SignTo(env, t, card) == t
  {
  }

  /** This poll opens the file on screen, and the card gives these bytes for it. */
  ghost predicate Reads(w: Work, c: byte, card: Card, bytes: seq<byte>)
    requires w.t.state == PSBT_FILES ==> w.t.fileIndex < |w.t.files|
  {
    w.t.state == PSBT_FILES && c == FILE_OPEN && card.read(w.t.files[w.t.fileIndex].shortName) == Some(bytes)
  }

  /** A review comes on screen exactly when the file on screen is opened, read and accepted, at its first page. */
  lemma ReviewComesIff(env: Env, w: Work, c: byte, card: Card, review: P.Review)
    requires WorkInv(env, w) && Sound(env) && w.t.state != PSBT_REVIEW
    ensures var t' := Polled(env, w, c, card).t;
      t'.state == PSBT_REVIEW && t'.review == Some(review)
      <==> w.t.seed.Some? && exists bytes ::
             Reads(w, c, card, bytes) && P.Reviewed(env.lib, w.t.seed.value, bytes) == Ok(review)
    ensures var t' := Polled(env, w, c, card).t;
      t'.state == PSBT_REVIEW ==> t'.reviewPage == 0 && t'.seed == w.t.seed
  {
    AfterCommandAndFiles(env, w.t, c);
    CardsLeadOn(env, AfterCommand(env, w.t, c), Opened(env, w, c), card);
    ReviewStarts(env, w, c);
    var t' := Polled(env, w, c, card).t;
    if t'.state == PSBT_REVIEW {
      assert Reads(w, c, card, card.read(w.t.files[w.t.fileIndex].shortName).value);
    }
  }

  /** A file that is opened and refused says why; one that cannot be read says so. */
  lemma RefusalIsSaid(env: Env, w: Work, card: Card)
    requires WorkInv(env, w) && Sound(env) && w.t.state == PSBT_FILES && w.t.seed.Some?
    ensures var t' := Polled(env, w, FILE_OPEN, card).t;
      match card.read(w.t.files[w.t.fileIndex].shortName)
      case None => t'.state == PSBT_ERROR && t'.message == Said("SD read failed")
      case Some(bytes) =>
        match P.Reviewed(env.lib, w.t.seed.value, bytes)
        case Err(e) => t'.state == PSBT_ERROR && t'.message == Refused(e)
        case Ok(_) => t'.state == PSBT_REVIEW
  {
    AfterCommandAndFiles(env, w.t, FILE_OPEN);
    ReviewStarts(env, w, FILE_OPEN);
  }

  lemma ReviewStarts(env: Env, w: Work, c: byte)
    requires WorkInv(env, w) && Sound(env)
    ensures var t := AfterCommand(env, w.t, c);
      && (t.state == PSBT_REVIEW ==> w.t.state == PSBT_REVIEW)
      && (t.state == PSBT_LOADING ==>
            t.seed == w.t.seed && Opened(env, w, c) == Some(w.t.files[w.t.fileIndex].shortName))
  {
    AfterCommandAndFiles(env, w.t, c);
  }

  /** A file is reported as saved exactly when signed bytes left for the card and it took them, by their name. */
  lemma SavedIff(env: Env, w: Work, c: byte, card: Card, name: string)
    requires WorkInv(env, w) && Sound(env) && w.t.state != PSBT_SAVED
    ensures var t' := Polled(env, w, c, card).t;
      t'.state == PSBT_SAVED && t'.message == Said(name)
      <==> F.Given(env, w, c).Some? && card.write(F.Given(env, w, c).value) == Some(name)
    ensures F.Given(env, w, c).Some? ==> Polled(env, w, c, card).t.seed == w.t.seed
  {
    AfterCommandAndFiles(env, w.t, c);
    SavingStarts(env, w, c);
    CardsLeadOn(env, AfterCommand(env, w.t, c), Opened(env, w, c), card);
  }

  lemma SavingStarts(env: Env, w: Work, c: byte)
    requires WorkInv(env, w) && Sound(env)
    ensures var t := AfterCommand(env, w.t, c);
      && (t.state == PSBT_SAVED ==> w.t.state == PSBT_SAVED)
      && (t.state == PSBT_SIGNING ==> t.seed == w.t.seed && t.review.Some?)
  {
  }

  /** The card as the directory scan presents it is always shown: the scan gives at most 32 files. */
  lemma ScannedCardIsShown(env: Env, w: Work, card: Card, root: Result<D.Root, D.ReadError>)
    requires WorkInv(env, w) && Sound(env) && w.t.state == ACTIVE
    requires card.list == (match D.Listing(root) case Ok(l) => Some(l) case Err(_) => None)
    ensures var t' := Polled(env, w, IMPORT_PSBT, card).t;
      match D.Listing(root)
      case Ok(l) => if l == [] then t'.state == PSBT_ERROR && t'.message == Said("No .psbt/.psb files")
                    else t'.state == PSBT_FILES && t'.files == l
      case Err(_) => t'.state == PSBT_ERROR && t'.message == Said("SD listing failed")
  {
    D.ListingIsShort(root);
  }
}
