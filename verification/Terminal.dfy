/**
 The signer's terminal (signer-probe/src/terminal.rs): entering words and passphrase, recovery,
 file selection, review pages and signing. `Term` is the value of the object; every command and
 every callback of the worker is a function on it that specifies the method of the class.
 */
module Terminal {
  import opened Bytes
  import N = NameOrder
  import P = Psbt
  import Q = Qr

  // ----- commands and states -----

  const BEGIN12 := 1
  const BEGIN24 := 2
  const DELETE := 3
  const NEXT := 4
  const PREV := 5
  const CHOOSE := 6
  const BACK := 7
  const RECOVER := 8
  const CONFIRM := 9
  const LOCK := 10
  const VERIFY_NEXT := 11
  const EXPORT_ACCOUNT := 12
  const EXPORT_BACK := 13
  const BEGIN_MAIN12 := 14
  const BEGIN_MAIN24 := 15
  const EXPORT_SEGWIT := 16
  const IMPORT_PSBT := 17
  const REVIEW_NEXT := 18
  const REVIEW_BACK := 19
  const APPROVE_PSBT := 20
  const CANCEL_PSBT := 21
  const FILE_NEXT := 22
  const FILE_PREV := 23
  const FILE_OPEN := 24
  const NAME_NEXT := 25
  const NAME_PREV := 26

  const LOCKED := 0
  const WORDS := 1
  const PASSPHRASE := 2
  const BUSY := 3
  const IDENTITY := 4
  const ACTIVE := 5
  const REJECTED := 6
  const QR_READY := 7
  const QR_ERROR := 8
  const PSBT_LOADING := 9
  const PSBT_REVIEW := 10
  const PSBT_SIGNING := 11
  const PSBT_ERROR := 13
  const PSBT_SAVING := 14
  const PSBT_SAVED := 15
  const PSBT_LISTING := 16
  const PSBT_FILES := 17

  const MAX_WORDS := 24
  const PREFIX := 4
  const MAX_PASS := 100
  const IDENTITY_BYTES := 52
  const MAX_FILES := 32
  const NAME_PAGE := 60

  datatype Message = Blank | Said(text: string) | Refused(failure: P.Failure)

  /**
   The libraries behind the terminal: the word list, recovery of a seed from phrase and passphrase,
   the texts shown for a session, and the QR code of its account.
   */
  datatype Env = Env(
    lib: P.Lib,
    words: seq<seq<byte>>,
    recover: (seq<byte>, seq<byte>, P.Network) -> Option<seq<byte>>,
    identity: P.Session -> Option<(seq<byte>, seq<byte>)>,
    receive: (P.Session, nat) -> Option<seq<byte>>,
    qr: (P.Session, bool) -> Option<(nat, Q.Grid)>)

  /** A fingerprint is eight characters, an address fits its 44 bytes. */
  ghost predicate Sound(env: Env) {
    && 0 < |env.words| <= 0x1_0000
    && forall s :: env.identity(s).Some? ==>
         |env.identity(s).value.0| == 8 && |env.identity(s).value.1| <= IDENTITY_BYTES - 8
  }

  /** The words and the passphrase being entered. */
  datatype Entry = Entry(
    count: nat, slot: nat, words: seq<nat>, prefix: seq<byte>, prefixLen: nat, candidate: nat,
    pass: seq<byte>, passLen: nat)

  datatype Term = Term(
    state: nat, entry: Entry, files: seq<N.File>, fileIndex: nat, namePage: nat,
    review: Option<P.Review>, reviewPage: nat, message: Message, network: P.Network,
    seed: Option<P.Session>, identity: seq<byte>, addressIndex: nat, qrSize: nat, qrBuffer: seq<byte>)

  function NoWords(): (w: seq<nat>)
    ensures |w| == MAX_WORDS && forall i :: 0 <= i < MAX_WORDS ==> w[i] == 0
  {
    seq(MAX_WORDS, i => 0)
  }

  function NoEntry(): Entry {
    Entry(0, 0, NoWords(), Zeros(PREFIX), 0, 0, Zeros(MAX_PASS), 0)
  }

  function Default(): Term {
    Term(LOCKED, NoEntry(), [], 0, 0, None, 0, Blank, P.Testnet,
         None, Zeros(IDENTITY_BYTES), 0, 0, Zeros(Q.QR_BUFFER_BYTES))
  }

  // ----- the word list -----

  predicate StartsWith(word: seq<byte>, prefix: seq<byte>) {
    |prefix| <= |word| && word[..|prefix|] == prefix
  }

  /** Positions of the matching words among the first `n`, in order. */
  function MatchesAmong(words: seq<seq<byte>>, prefix: seq<byte>, n: nat): (ms: seq<nat>)
    requires n <= |words|
    ensures forall m :: m in ms ==> m < n && StartsWith(words[m], prefix)
    ensures forall i :: 0 <= i < n && StartsWith(words[i], prefix) ==> i in ms
  {
    if n == 0 then []
    else MatchesAmong(words, prefix, n - 1) + if StartsWith(words[n - 1], prefix) then [n - 1] else []
  }

  function Matches(words: seq<seq<byte>>, prefix: seq<byte>): (ms: seq<nat>)
    ensures forall m :: m in ms ==> m < |words| && StartsWith(words[m], prefix)
    ensures forall i :: 0 <= i < |words| && StartsWith(words[i], prefix) ==> i in ms
  {
    MatchesAmong(words, prefix, |words|)
  }

  /** A shorter prefix matches at least as much. */
  lemma ShorterMatches(words: seq<seq<byte>>, prefix: seq<byte>, n: nat)
    requires n <= |prefix| && Matches(words, prefix) != []
    ensures Matches(words, prefix[..n]) != []
  {
    var m := Matches(words, prefix)[0];
    assert m in Matches(words, prefix);
    assert words[m][..n] == words[m][..|prefix|][..n];
    assert m in Matches(words, prefix[..n]);
  }

  lemma EmptyMatches(words: seq<seq<byte>>)
    requires |words| > 0
    ensures Matches(words, []) != []
  {
    assert StartsWith(words[0], []);
    assert 0 in Matches(words, []);
  }

  // ----- the invariant -----

  /** Pages of sixty characters, at least one. */
  function Pages(f: N.File): nat {
    if |f.name| == 0 then 1 else (|f.name| + NAME_PAGE - 1) / NAME_PAGE
  }

  /** The approval page comes after one page per output and the fee page. */
  function LastPage(r: P.Review): nat { |r.outputs| + 1 }

  function Prefix(e: Entry): seq<byte>
    requires e.prefixLen <= |e.prefix|
  {
    e.prefix[..e.prefixLen]
  }

  /** The entry of words and passphrase: every index is in range, no modulus is zero. */
  ghost predicate EntryInv(env: Env, e: Entry) {
    && |e.words| == MAX_WORDS && |e.prefix| == PREFIX && |e.pass| == MAX_PASS
    && (forall i :: 0 <= i < MAX_WORDS ==> e.words[i] < |env.words|)
    && e.prefixLen <= PREFIX && e.candidate < |Matches(env.words, Prefix(e))|
    && e.passLen <= MAX_PASS && (forall i :: 0 <= i < e.passLen ==> 32 <= e.pass[i] < 127)
    && (e.count == 0 || e.count == 12 || e.count == 24)
    && (if e.count == 0 then e.slot == 0 else e.slot < e.count)
  }

  predicate NeedsWords(state: nat) {
    state == WORDS || state == PASSPHRASE || state == BUSY || state == REJECTED
  }

  /** The screens after recovery: file, name page, review page and address stay in range. */
  ghost predicate ScreenInv(t: Term) {
    && (t.files != [] <==> t.state == PSBT_FILES)
    && (t.state == PSBT_FILES ==>
          |t.files| <= MAX_FILES && t.fileIndex < |t.files| && t.namePage < Pages(t.files[t.fileIndex]))
    && (t.review.Some? <==> t.state == PSBT_REVIEW || t.state == PSBT_SIGNING)
    && (t.review.Some? ==> t.reviewPage <= LastPage(t.review.value))
    && (t.state == PSBT_SIGNING ==> t.reviewPage == LastPage(t.review.value))
    && |t.identity| == IDENTITY_BYTES && |t.qrBuffer| == Q.QR_BUFFER_BYTES
    && t.addressIndex <= P.MAX_ADDRESS_INDEX
    && t.qrSize <= Q.MAX_MODULES && (t.seed.Some? ==> !t.seed.value.locked)
  }

  ghost predicate Inv(env: Env, t: Term) {
    EntryInv(env, t.entry) && (NeedsWords(t.state) ==> t.entry.count > 0) && ScreenInv(t)
  }

  // ----- commands -----

  predicate Begins(c: byte) {
    c == LOCK || c == BEGIN12 || c == BEGIN24 || c == BEGIN_MAIN12 || c == BEGIN_MAIN24
  }

  /** Clearing keeps how many words there are and which one is next. */
  function ClearedEntry(e: Entry): Entry {
    NoEntry().(count := e.count, slot := e.slot)
  }

  function ClearedQr(t: Term): Term {
    t.(qrSize := 0, qrBuffer := Zeros(Q.QR_BUFFER_BYTES))
  }

  function Wiped(t: Term): Term {
    ClearedQr(t).(entry := NoEntry(), files := [], review := None, message := Blank, seed := None,
      identity := Zeros(IDENTITY_BYTES), addressIndex := 0, state := LOCKED)
  }

  function Begun(t: Term, c: byte): Term {
    if c == LOCK then Wiped(t)
    else Wiped(t).(
      network := if c == BEGIN_MAIN12 || c == BEGIN_MAIN24 then P.Bitcoin else P.Testnet,
      entry := NoEntry().(count := if c == BEGIN12 || c == BEGIN_MAIN12 then 12 else 24),
      state := WORDS)
  }

  function Imported(t: Term): Term {
    t.(review := None, reviewPage := 0, message := Blank, files := [], fileIndex := 0, namePage := 0,
       state := PSBT_LISTING)
  }

  predicate Cancellable(state: nat) {
    state == PSBT_FILES || state == PSBT_REVIEW || state == PSBT_ERROR || state == PSBT_SAVED
  }

  function Cancelled(t: Term): Term {
    t.(files := [], review := None, message := Blank, state := ACTIVE)
  }

  function InFiles(t: Term, c: byte): Term
    requires t.fileIndex < |t.files|
  {
    if c == FILE_NEXT then t.(fileIndex := (t.fileIndex + 1) % |t.files|, namePage := 0)
    else if c == FILE_PREV then t.(fileIndex := (t.fileIndex + |t.files| - 1) % |t.files|, namePage := 0)
    else if c == NAME_NEXT && t.namePage + 1 < Pages(t.files[t.fileIndex]) then t.(namePage := t.namePage + 1)
    else if c == NAME_PREV && t.namePage > 0 then t.(namePage := t.namePage - 1)
    else if c == FILE_OPEN then t.(files := [], state := PSBT_LOADING)
    else t
  }

  function InReview(t: Term, c: byte): Term {
    var last := if t.review.Some? then LastPage(t.review.value) else 0;
    if c == REVIEW_NEXT && t.reviewPage < last then t.(reviewPage := t.reviewPage + 1)
    else if c == REVIEW_BACK && t.reviewPage > 0 then t.(reviewPage := t.reviewPage - 1)
    else if c == APPROVE_PSBT && t.reviewPage == last && t.review.Some? then t.(state := PSBT_SIGNING)
    else t
  }

  /** The next receive address, or one index back if it cannot be derived. */
  function NextAddress(env: Env, t: Term): Term
    requires t.seed.Some? && |t.identity| == IDENTITY_BYTES
  {
    var index := (t.addressIndex + 1) % (P.MAX_ADDRESS_INDEX + 1);
    match env.receive(t.seed.value, index)
    case None => t.(addressIndex := if index > 0 then index - 1 else 0)
    case Some(text) =>
      var n := Min(|text|, IDENTITY_BYTES - 8);
      t.(addressIndex := index, identity := t.identity[..8] + text[..n] + Zeros(IDENTITY_BYTES - 8 - n))
  }

  function Exported(env: Env, t: Term, segwit: bool): Term {
    var code := if t.seed.None? then None else env.qr(t.seed.value, segwit);
    if code.None? || code.value.0 > Q.MAX_MODULES then ClearedQr(t).(state := QR_ERROR)
    else
      var (size, grid) := code.value;
      t.(qrSize := size, qrBuffer := Q.Packed(size, grid, Q.Modules(size)), state := QR_READY)
  }

  function Typed(env: Env, e: Entry, b: byte): Entry
    requires e.prefixLen < |e.prefix|
  {
    var p := e.prefix[e.prefixLen := b];
    if Matches(env.words, p[..e.prefixLen + 1]) == [] then e.(prefix := p[e.prefixLen := 0], candidate := 0)
    else e.(prefix := p, prefixLen := e.prefixLen + 1, candidate := 0)
  }

  function Deleted(e: Entry): Entry
    requires e.prefixLen <= |e.prefix|
  {
    if e.prefixLen > 0
    then e.(prefixLen := e.prefixLen - 1, prefix := e.prefix[e.prefixLen - 1 := 0], candidate := 0) else e
  }

  function NoPrefix(e: Entry): Entry { e.(prefix := Zeros(PREFIX), prefixLen := 0, candidate := 0) }

  function Chosen(env: Env, t: Term): Term
    requires EntryInv(env, t.entry)
  {
    var e := t.entry;
    var ms := Matches(env.words, Prefix(e));
    var e' := NoPrefix(e.(words := e.words[e.slot := ms[e.candidate]]));
    if e.slot + 1 == e.count then t.(entry := e', state := PASSPHRASE) else t.(entry := e'.(slot := e.slot + 1))
  }

  predicate IsKey(c: byte) { 0x80 <= c <= 0xde }

  function KeyByte(c: byte): byte
    requires IsKey(c)
  {
    c - 0x80 + 32
  }

  function InWords(env: Env, t: Term, c: byte): Term
    requires EntryInv(env, t.entry)
  {
    var e := t.entry;
    var n := |Matches(env.words, Prefix(e))|;
    if IsKey(c) then
      if 97 <= KeyByte(c) <= 122 && e.prefixLen < PREFIX then t.(entry := Typed(env, e, KeyByte(c))) else t
    else if c == DELETE then t.(entry := Deleted(e))
    else if c == NEXT then t.(entry := e.(candidate := (e.candidate + 1) % n))
    else if c == PREV then t.(entry := e.(candidate := (e.candidate + n - 1) % n))
    else if c == CHOOSE then Chosen(env, t)
    else if c == BACK then t.(entry := NoPrefix(e.(slot := if e.slot > 0 then e.slot - 1 else 0)))
    else t
  }

  function InPass(t: Term, c: byte): Term
    requires |t.entry.pass| == MAX_PASS && t.entry.passLen <= MAX_PASS
  {
    var e := t.entry;
    if IsKey(c) then
      if e.passLen < MAX_PASS
      then t.(entry := e.(pass := e.pass[e.passLen := KeyByte(c)], passLen := e.passLen + 1)) else t
    else if c == DELETE then
      if e.passLen > 0 then t.(entry := e.(passLen := e.passLen - 1, pass := e.pass[e.passLen - 1 := 0])) else t
    else if c == BACK then t.(state := WORDS)
    else if c == RECOVER then t.(state := BUSY)
    else t
  }

  /** Commands outside the file and review screens. */
  function AtEntry(env: Env, t: Term, c: byte): Term
    requires Inv(env, t)
  {
    if c == CONFIRM && t.state == IDENTITY then t.(state := ACTIVE)
    else if c == VERIFY_NEXT && t.state == ACTIVE && t.seed.Some? then NextAddress(env, t)
    else if (c == EXPORT_ACCOUNT || c == EXPORT_SEGWIT) && t.state == ACTIVE
    then Exported(env, t, c == EXPORT_SEGWIT)
    else if c == EXPORT_BACK && (t.state == QR_READY || t.state == QR_ERROR) then ClearedQr(t).(state := ACTIVE)
    else if t.state == REJECTED && c == BACK then t.(state := WORDS, entry := t.entry.(slot := t.entry.count - 1))
    else if t.state == WORDS then InWords(env, t, c)
    else if t.state == PASSPHRASE then InPass(t, c)
    else t
  }

  function Commanded(env: Env, t: Term, c: byte): Term
    requires Inv(env, t)
  {
    if Begins(c) then Begun(t, c)
    else if c == IMPORT_PSBT && t.state == ACTIVE then Imported(t)
    else if c == CANCEL_PSBT && Cancellable(t.state) then Cancelled(t)
    else if t.state == PSBT_FILES then InFiles(t, c)
    else if t.state == PSBT_REVIEW then InReview(t, c)
    else AtEntry(env, t, c)
  }

  // ----- callbacks -----

  /** The words in order, separated by single spaces. */
  function Phrase(env: Env, words: seq<nat>): seq<byte>
    requires forall i :: 0 <= i < |words| ==> words[i] < |env.words|
  {
    if words == [] then []
    else if |words| == 1 then env.words[words[0]]
    else Phrase(env, words[..|words| - 1]) + [32] + env.words[words[|words| - 1]]
  }

  function Recovered(env: Env, t: Term): Term
    requires Inv(env, t) && Sound(env)
  {
    if t.state != BUSY then t
    else match env.recover(Phrase(env, t.entry.words[..t.entry.count]), t.entry.pass[..t.entry.passLen], t.network)
      case None => t.(state := REJECTED)
      case Some(seed) =>
        var s := P.Session(seed, t.network, false);
        match env.identity(s)
        case None => t.(state := REJECTED)
        case Some((fp, address)) =>
          t.(entry := ClearedEntry(t.entry), identity := fp + address + t.identity[8 + |address|..],
             seed := Some(s), state := IDENTITY)
  }

  function Errored(t: Term, message: Message): Term {
    t.(files := [], review := None, message := message, state := PSBT_ERROR)
  }

  function Listed(t: Term, files: seq<N.File>): Term {
    if t.state != PSBT_LISTING then t
    else if files == [] then Errored(t, Said("No .psbt/.psb files"))
    else if |files| > MAX_FILES then Errored(t, Said("Too many PSBT files"))
    else t.(files := files, fileIndex := 0, namePage := 0, state := PSBT_FILES)
  }

  function Loaded(env: Env, t: Term, bytes: seq<byte>): Term {
    if t.state != PSBT_LOADING then t
    else if t.seed.None? then Errored(t, Said("Seed locked"))
    else match P.Reviewed(env.lib, t.seed.value, bytes)
      case Err(e) => Errored(t, Refused(e))
      case Ok(review) => t.(review := Some(review), reviewPage := 0, state := PSBT_REVIEW)
  }

  /** The bytes that leave the terminal, if any, and the terminal after. */
  function SignedBytes(env: Env, t: Term): Option<seq<byte>> {
    if t.state != PSBT_SIGNING || t.review.None? || t.seed.None? then None
    else match P.Signed(env.lib, t.seed.value, P.BindingOf(env.lib, t.review.value))
      case Err(_) => None
      case Ok(signed) => Some(signed.bytes)
  }

  function FinishedSigning(env: Env, t: Term): Term {
    if t.state != PSBT_SIGNING || t.review.None? then t
    else if t.seed.None? then Errored(t, Said("Seed locked"))
    else if SignedBytes(env, t).Some? then t.(review := None, state := PSBT_SAVING)
    else Errored(t, Said("Signing failed"))
  }

  function Saved(t: Term, filename: string): Term {
    if t.state == PSBT_SAVING then t.(message := Said(filename), state := PSBT_SAVED) else t
  }

  // ----- every command and callback keeps the invariant -----

  lemma NoPrefixInv(env: Env, e: Entry)
    requires Sound(env) && |e.words| == MAX_WORDS && |e.pass| == MAX_PASS
    requires forall i :: 0 <= i < MAX_WORDS ==> e.words[i] < |env.words|
    requires e.passLen <= MAX_PASS && forall i :: 0 <= i < e.passLen ==> 32 <= e.pass[i] < 127
    requires e.count == 0 || e.count == 12 || e.count == 24
    requires if e.count == 0 then e.slot == 0 else e.slot < e.count
    ensures EntryInv(env, NoPrefix(e))
  {
    EmptyMatches(env.words);
    assert Prefix(NoPrefix(e)) == [];
  }

  lemma NoEntryInv(env: Env, count: nat, slot: nat)
    requires Sound(env) && (count == 0 || count == 12 || count == 24)
    requires if count == 0 then slot == 0 else slot < count
    ensures EntryInv(env, NoEntry().(count := count, slot := slot))
  {
    NoPrefixInv(env, NoEntry().(count := count, slot := slot));
    assert NoPrefix(NoEntry().(count := count, slot := slot)) == NoEntry().(count := count, slot := slot);
  }

  lemma DefaultInv(env: Env)
    requires Sound(env)
    ensures Inv(env, Default())
  {
    NoEntryInv(env, 0, 0);
  }

  lemma BegunInv(env: Env, t: Term, c: byte)
    requires Sound(env) && Inv(env, t)
    ensures Inv(env, Begun(t, c))
  {
    NoEntryInv(env, 0, 0);
    NoEntryInv(env, 12, 0);
    NoEntryInv(env, 24, 0);
  }

  lemma TypedInv(env: Env, e: Entry, b: byte)
    requires EntryInv(env, e) && e.prefixLen < PREFIX
    ensures EntryInv(env, Typed(env, e, b))
  {
    var e' := Typed(env, e, b);
    if e'.prefixLen == e.prefixLen {
      assert Prefix(e') == Prefix(e);
    } else {
      assert Prefix(e') == e.prefix[e.prefixLen := b][..e.prefixLen + 1];
    }
  }

  lemma DeletedInv(env: Env, e: Entry)
    requires EntryInv(env, e)
    ensures EntryInv(env, Deleted(e))
  {
    if e.prefixLen > 0 {
      ShorterMatches(env.words, Prefix(e), e.prefixLen - 1);
      assert Prefix(Deleted(e)) == Prefix(e)[..e.prefixLen - 1];
    }
  }

  lemma TurnedInv(env: Env, e: Entry, candidate: nat)
    requires EntryInv(env, e) && candidate < |Matches(env.words, Prefix(e))|
    ensures EntryInv(env, e.(candidate := candidate))
  {
    assert Prefix(e.(candidate := candidate)) == Prefix(e);
  }

  lemma ChosenInv(env: Env, t: Term)
    requires Sound(env) && Inv(env, t) && t.state == WORDS
    ensures Inv(env, Chosen(env, t))
  {
    var e := t.entry;
    var ms := Matches(env.words, Prefix(e));
    assert ms[e.candidate] in ms;
    var e' := e.(words := e.words[e.slot := ms[e.candidate]]);
    NoPrefixInv(env, e');
    if e.slot + 1 < e.count { NoPrefixInv(env, e'.(slot := e.slot + 1)); }
  }

  lemma InWordsInv(env: Env, t: Term, c: byte)
    requires Sound(env) && Inv(env, t) && t.state == WORDS
    ensures Inv(env, InWords(env, t, c))
  {
    var e := t.entry;
    var n := |Matches(env.words, Prefix(e))|;
    if IsKey(c) {
      if 97 <= KeyByte(c) <= 122 && e.prefixLen < PREFIX { TypedInv(env, e, KeyByte(c)); }
    } else if c == DELETE {
      DeletedInv(env, e);
    } else if c == NEXT {
      TurnedInv(env, e, (e.candidate + 1) % n);
    } else if c == PREV {
      TurnedInv(env, e, (e.candidate + n - 1) % n);
    } else if c == CHOOSE {
      ChosenInv(env, t);
    } else if c == BACK {
      NoPrefixInv(env, e.(slot := if e.slot > 0 then e.slot - 1 else 0));
    }
  }

  lemma InPassInv(env: Env, t: Term, c: byte)
    requires Inv(env, t) && t.state == PASSPHRASE
    ensures Inv(env, InPass(t, c))
  {
    assert Prefix(InPass(t, c).entry) == Prefix(t.entry);
  }

  lemma InFilesInv(env: Env, t: Term, c: byte)
    requires Inv(env, t) && t.state == PSBT_FILES
    ensures Inv(env, InFiles(t, c))
  {
  }

  lemma InReviewInv(env: Env, t: Term, c: byte)
    requires Inv(env, t) && t.state == PSBT_REVIEW
    ensures Inv(env, InReview(t, c))
  {
  }

  lemma AddressInv(env: Env, t: Term)
    requires Inv(env, t) && t.seed.Some? && t.state == ACTIVE
    ensures Inv(env, NextAddress(env, t))
  {
  }

  lemma OtherInv(env: Env, t: Term, c: byte)
    requires Inv(env, t) && !Begins(c)
    requires t.state != WORDS && t.state != PASSPHRASE && t.state != REJECTED
    requires c == CANCEL_PSBT || (t.state != PSBT_FILES && t.state != PSBT_REVIEW)
    requires !(c == VERIFY_NEXT && t.state == ACTIVE && t.seed.Some?)
    ensures Inv(env, Commanded(env, t, c))
  {
  }

  lemma RetryInv(env: Env, t: Term)
    requires Inv(env, t) && t.state == REJECTED
    ensures Inv(env, t.(state := WORDS, entry := t.entry.(slot := t.entry.count - 1)))
  {
    assert Prefix(t.entry.(slot := t.entry.count - 1)) == Prefix(t.entry);
  }

  /** No command can break the terminal, whatever it showed before. */
  lemma CommandInv(env: Env, t: Term, c: byte)
    requires Sound(env) && Inv(env, t)
    ensures Inv(env, Commanded(env, t, c))
  {
    if Begins(c) { BegunInv(env, t, c); }
    else if t.state == WORDS { InWordsInv(env, t, c); }
    else if t.state == PASSPHRASE { InPassInv(env, t, c); }
    else if t.state == REJECTED { RetryInv(env, t); }
    else if t.state == PSBT_FILES && c != CANCEL_PSBT { InFilesInv(env, t, c); }
    else if t.state == PSBT_REVIEW && c != CANCEL_PSBT { InReviewInv(env, t, c); }
    else if t.state == ACTIVE && c == VERIFY_NEXT && t.seed.Some? { AddressInv(env, t); }
    else { OtherInv(env, t, c); }
  }

  lemma RecoveredInv(env: Env, t: Term)
    requires Sound(env) && Inv(env, t)
    ensures Inv(env, Recovered(env, t))
  {
    NoEntryInv(env, t.entry.count, t.entry.slot);
  }

  /** Nor can any callback, even out of turn. */
  lemma CallbacksInv(env: Env, t: Term, files: seq<N.File>, message: Message, name: string)
    requires Inv(env, t)
    ensures Inv(env, Listed(t, files)) && Inv(env, Errored(t, message)) && Inv(env, Saved(t, name))
  {
  }

  lemma LoadedInv(env: Env, t: Term, bytes: seq<byte>)
    requires Inv(env, t)
    ensures Inv(env, Loaded(env, t, bytes))
  {
  }

  lemma FinishedSigningInv(env: Env, t: Term)
    requires Inv(env, t)
    ensures Inv(env, FinishedSigning(env, t))
  {
  }
}
