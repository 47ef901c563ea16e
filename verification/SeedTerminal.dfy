/** The terminal as an object (signer-probe/src/terminal.rs, `Terminal`), proved against `Term`. */
module SeedTerminal {
  import opened Bytes
  import N = NameOrder
  import P = Psbt
  import Q = Qr
  import opened Terminal

  class SeedTerminal {
    var state: nat
    var files: seq<N.File>
    var fileIndex: nat
    var namePage: nat
    var review: Option<P.Review>
    var reviewPage: nat
    var message: Message
    var network: P.Network
    var count: nat
    var slot: nat
    const words: array<nat>
    const prefix: array<byte>
    var prefixLen: nat
    var candidate: nat
    const pass: array<byte>
    var passLen: nat
    var seed: P.SeedSession?
    const identity: array<byte>
    var addressIndex: nat
    var qrSize: nat
    const qrBuffer: array<byte>

    ghost predicate Valid()
      reads this
    {
      && words.Length == MAX_WORDS && prefix.Length == PREFIX && pass.Length == MAX_PASS
      && identity.Length == IDENTITY_BYTES && qrBuffer.Length == Q.QR_BUFFER_BYTES
    }

    ghost function EntryState(): Entry
      reads this, words, prefix, pass
    {
      Entry(count, slot, words[..], prefix[..], prefixLen, candidate, pass[..], passLen)
    }

    ghost function State(): Term
      reads this, words, prefix, pass, identity, qrBuffer, seed
    {
      Term(state, EntryState(), files, fileIndex, namePage, review, reviewPage, message, network,
           if seed == null then None else Some(seed.State()), identity[..], addressIndex, qrSize, qrBuffer[..])
    }

    constructor ()
      ensures Valid() && State() == Default()
      ensures fresh(words) && fresh(prefix) && fresh(pass) && fresh(identity) && fresh(qrBuffer)
    {
      words := new nat[MAX_WORDS](_ => 0);
      prefix := new byte[PREFIX](_ => 0);
      pass := new byte[MAX_PASS](_ => 0);
      identity := new byte[IDENTITY_BYTES](_ => 0);
      qrBuffer := new byte[Q.QR_BUFFER_BYTES](_ => 0);
      state, files, fileIndex, namePage, review, reviewPage := LOCKED, [], 0, 0, None, 0;
      message, network, count, slot, prefixLen, candidate, passLen := Blank, P.Testnet, 0, 0, 0, 0, 0;
      seed, addressIndex, qrSize := null, 0, 0;
      new;
      assert words[..] == NoWords() && prefix[..] == Zeros(PREFIX) && pass[..] == Zeros(MAX_PASS);
      assert identity[..] == Zeros(IDENTITY_BYTES) && qrBuffer[..] == Zeros(Q.QR_BUFFER_BYTES);
    }

    // ----- clearing -----

    method ClearPrefix()
      requires Valid()
      modifies this`prefixLen, this`candidate, prefix
      ensures prefix[..] == Zeros(PREFIX) && prefixLen == 0 && candidate == 0
    {
      forall i | 0 <= i < prefix.Length { prefix[i] := 0; }
      prefixLen, candidate := 0, 0;
    }

    method ClearEntry()
      requires Valid() && prefix != pass
      modifies this`prefixLen, this`candidate, this`passLen, words, prefix, pass
      ensures EntryState() == ClearedEntry(old(EntryState()))
    {
      forall i | 0 <= i < words.Length { words[i] := 0; }
      forall i | 0 <= i < pass.Length { pass[i] := 0; }
      assert words[..] == NoWords() && pass[..] == Zeros(MAX_PASS);
      passLen := 0;
      ClearPrefix();
    }

    method ClearQr()
      requires Valid()
      modifies this`qrSize, qrBuffer
      ensures qrSize == 0 && qrBuffer[..] == Zeros(Q.QR_BUFFER_BYTES)
    {
      qrSize := 0;
      forall i | 0 <= i < qrBuffer.Length { qrBuffer[i] := 0; }
    }

    /** The five byte and word buffers are different arrays. */
    ghost predicate Separate()
      reads this
    {
      && Valid() && prefix != pass && prefix != identity && prefix != qrBuffer
      && pass != identity && pass != qrBuffer && identity != qrBuffer
    }

    method ClearIdentity()
      requires Valid()
      modifies identity
      ensures identity[..] == Zeros(IDENTITY_BYTES)
    {
      forall i | 0 <= i < identity.Length { identity[i] := 0; }
    }

    // ----- commands -----

    /** Drop the listing, the review and the message, and move on. */
    method LeaveFor(next: nat)
      requires Valid()
      modifies this`files, this`review, this`message, this`state
      ensures State() == old(State()).(files := [], review := None, message := Blank, state := next)
    {
      files, review, message, state := [], None, Blank, next;
    }

    method Forget()
      requires Valid()
      modifies this`files, this`review, this`message, this`seed, this`addressIndex, this`state
      ensures State() == old(State()).(
        files := [], review := None, message := Blank, seed := None, addressIndex := 0, state := LOCKED)
    {
      LeaveFor(LOCKED);
      seed, addressIndex := null, 0;
    }

    method Wipe()
      requires Separate()
      modifies this, words, prefix, pass, identity, qrBuffer
      ensures State() == Wiped(old(State()))
    {
      Forget();
      slot, count := 0, 0;
      ClearEntry();
      ClearIdentity();
      ClearQr();
    }

    method Begin(c: byte)
      requires Separate() && Begins(c)
      modifies this, words, prefix, pass, identity, qrBuffer
      ensures State() == Begun(old(State()), c)
    {
      Wipe();
      if c != LOCK {
        network := if c == BEGIN_MAIN12 || c == BEGIN_MAIN24 then P.Bitcoin else P.Testnet;
        count := if c == BEGIN12 || c == BEGIN_MAIN12 then 12 else 24;
        state := WORDS;
      }
    }

    method Files(c: byte)
      requires Valid() && fileIndex < |files|
      modifies this`fileIndex, this`namePage, this`files, this`state
      ensures State() == InFiles(old(State()), c)
    {
      var pages := Pages(files[fileIndex]);
      if c == FILE_NEXT {
        fileIndex := (fileIndex + 1) % |files|;
        namePage := 0;
      } else if c == FILE_PREV {
        fileIndex := (fileIndex + |files| - 1) % |files|;
        namePage := 0;
      } else if c == NAME_NEXT && namePage + 1 < pages {
        namePage := namePage + 1;
      } else if c == NAME_PREV && namePage > 0 {
        namePage := namePage - 1;
      } else if c == FILE_OPEN {
        files := [];
        state := PSBT_LOADING;
      }
    }

    method ReviewPages(c: byte)
      requires Valid()
      modifies this`reviewPage, this`state
      ensures State() == InReview(old(State()), c)
    {
      var last := if review.Some? then LastPage(review.value) else 0;
      if c == REVIEW_NEXT && reviewPage < last {
        reviewPage := reviewPage + 1;
      } else if c == REVIEW_BACK && reviewPage > 0 {
        reviewPage := reviewPage - 1;
      } else if c == APPROVE_PSBT && reviewPage == last && review.Some? {
        state := PSBT_SIGNING;
      }
    }

    /** `refresh_address` after moving to the next index. */
    method VerifyNext(env: Env)
      requires Separate() && seed != null
      modifies this`addressIndex, identity
      ensures State() == NextAddress(env, old(State()))
    {
      ghost var was := identity[..];
      addressIndex := (addressIndex + 1) % (P.MAX_ADDRESS_INDEX + 1);
      match env.receive(P.Session(seed.seed, seed.network, seed.locked), addressIndex) {
        case Some(text) =>
          var n := Min(|text|, IDENTITY_BYTES - 8);
          forall i | 8 <= i < identity.Length { identity[i] := if i - 8 < n then text[i - 8] else 0; }
          assert identity[..] == was[..8] + text[..n] + Zeros(IDENTITY_BYTES - 8 - n);
        case None =>
          addressIndex := if addressIndex > 0 then addressIndex - 1 else 0;
      }
    }

    /** `export_qr` with its cleaning before and after a failure. */
    method ExportQr(env: Env, segwit: bool)
      requires Separate()
      modifies this`qrSize, this`state, qrBuffer
      ensures State() == Exported(env, old(State()), segwit)
    {
      ClearQr();
      var code := if seed == null then None else env.qr(P.Session(seed.seed, seed.network, seed.locked), segwit);
      if code.None? || code.value.0 > Q.MAX_MODULES {
        ClearQr();
        state := QR_ERROR;
        return;
      }
      qrSize := code.value.0;
      Q.PackQr(code.value.0, code.value.1, qrBuffer);
      state := QR_READY;
    }

    method TypeLetter(env: Env, b: byte)
      requires Separate() && prefixLen < PREFIX
      modifies this`prefixLen, this`candidate, prefix
      ensures EntryState() == Typed(env, old(EntryState()), b)
    {
      ghost var was := prefix[..];
      prefix[prefixLen] := b;
      prefixLen := prefixLen + 1;
      assert prefix[..] == was[prefixLen - 1 := b];
      assert prefix[..prefixLen] == prefix[..][..prefixLen];
      if Matches(env.words, prefix[..prefixLen]) == [] {
        prefixLen := prefixLen - 1;
        prefix[prefixLen] := 0;
      }
      candidate := 0;
    }

    method SetWord(i: nat)
      requires Valid() && slot < MAX_WORDS
      modifies words
      ensures words[..] == old(words[..])[slot := i]
    {
      words[slot] := i;
    }

    method TakeWord(i: nat)
      requires Separate() && slot < MAX_WORDS
      modifies this`prefixLen, this`candidate, prefix, words
      ensures EntryState() == NoPrefix(old(EntryState()).(words := old(EntryState()).words[slot := i]))
    {
      SetWord(i);
      ClearPrefix();
    }

    method DeleteLetter()
      requires Valid() && prefixLen <= PREFIX
      modifies this`prefixLen, this`candidate, prefix
      ensures EntryState() == Deleted(old(EntryState()))
    {
      if prefixLen > 0 {
        prefixLen := prefixLen - 1;
        prefix[prefixLen] := 0;
        candidate := 0;
      }
    }

    method Choose(env: Env)
      requires Separate() && EntryInv(env, EntryState())
      modifies this`prefixLen, this`candidate, this`slot, this`state, prefix, words
      ensures State() == Chosen(env, old(State()))
    {
      assert prefix[..prefixLen] == Prefix(EntryState());
      var ms := Matches(env.words, prefix[..prefixLen]);
      if candidate < |ms| {
        TakeWord(ms[candidate]);
        NextSlot();
      }
    }

    method NextSlot()
      modifies this`slot, this`state
      ensures if old(slot) + 1 == count then state == PASSPHRASE && slot == old(slot)
              else state == old(state) && slot == old(slot) + 1
    {
      if slot + 1 == count {
        state := PASSPHRASE;
      } else {
        slot := slot + 1;
      }
    }

    method EnterWord(env: Env, c: byte)
      requires Separate() && EntryInv(env, EntryState())
      modifies this`prefixLen, this`candidate, this`slot, this`state, prefix, words
      ensures State() == InWords(env, old(State()), c)
    {
      assert prefix[..prefixLen] == Prefix(EntryState());
      if IsKey(c) {
        var b := KeyByte(c);
        if 97 <= b <= 122 && prefixLen < PREFIX {
          TypeLetter(env, b);
        }
      } else if c == DELETE {
        DeleteLetter();
      } else if c == NEXT {
        var n := |Matches(env.words, prefix[..prefixLen])|;
        candidate := (candidate + 1) % n;
      } else if c == PREV {
        var n := |Matches(env.words, prefix[..prefixLen])|;
        candidate := (candidate + n - 1) % n;
      } else if c == CHOOSE {
        Choose(env);
      } else if c == BACK {
        if slot > 0 {
          slot := slot - 1;
        }
        ClearPrefix();
      }
    }

    method EnterPass(c: byte)
      requires Separate() && passLen <= MAX_PASS
      modifies this`passLen, this`state, pass
      ensures State() == InPass(old(State()), c)
    {
      if IsKey(c) {
        if passLen < MAX_PASS {
          pass[passLen] := KeyByte(c);
          passLen := passLen + 1;
        }
      } else if c == DELETE {
        if passLen > 0 {
          passLen := passLen - 1;
          pass[passLen] := 0;
        }
      } else if c == BACK {
        state := WORDS;
      } else if c == RECOVER {
        state := BUSY;
      }
    }

    method Import()
      requires Valid()
      modifies this`review, this`reviewPage, this`message, this`files, this`fileIndex, this`namePage, this`state
      ensures State() == Imported(old(State()))
    {
      LeaveFor(PSBT_LISTING);
      reviewPage, fileIndex, namePage := 0, 0, 0;
    }

    method Cancel()
      requires Valid()
      modifies this`files, this`review, this`message, this`state
      ensures State() == Cancelled(old(State()))
    {
      LeaveFor(ACTIVE);
    }

    method LeaveExport()
      requires Valid()
      modifies this`state, this`qrSize, qrBuffer
      ensures State() == ClearedQr(old(State())).(state := ACTIVE)
    {
      ClearQr();
      state := ACTIVE;
    }

    method EntryCommand(env: Env, c: byte)
      requires Separate() && Inv(env, State())
      modifies this, words, prefix, pass, identity, qrBuffer
      ensures State() == AtEntry(env, old(State()), c)
    {
      if c == CONFIRM && state == IDENTITY {
        state := ACTIVE;
      } else if c == VERIFY_NEXT && state == ACTIVE && seed != null {
        VerifyNext(env);
      } else if (c == EXPORT_ACCOUNT || c == EXPORT_SEGWIT) && state == ACTIVE {
        ExportQr(env, c == EXPORT_SEGWIT);
      } else if c == EXPORT_BACK && (state == QR_READY || state == QR_ERROR) {
        LeaveExport();
      } else if state == REJECTED && c == BACK {
        state := WORDS;
        slot := count - 1;
      } else if state == WORDS {
        EnterWord(env, c);
      } else if state == PASSPHRASE {
        EnterPass(c);
      }
    }

    method Dispatch(env: Env, c: byte)
      requires Separate() && Inv(env, State())
      modifies this, words, prefix, pass, identity, qrBuffer
      ensures State() == Commanded(env, old(State()), c)
    {
      if Begins(c) {
        Begin(c);
      } else if c == IMPORT_PSBT && state == ACTIVE {
        Import();
      } else if c == CANCEL_PSBT && Cancellable(state) {
        Cancel();
      } else if state == PSBT_FILES && files != [] {
        Files(c);
      } else if state == PSBT_REVIEW {
        ReviewPages(c);
      } else {
        EntryCommand(env, c);
      }
    }

    method Command(env: Env, c: byte)
      requires Separate() && Sound(env) && Inv(env, State())
      modifies this, words, prefix, pass, identity, qrBuffer
      ensures Inv(env, State()) && State() == Commanded(env, old(State()), c)
    {
      CommandInv(env, State(), c);
      Dispatch(env, c);
    }

    // ----- callbacks -----

    /** Write out the chosen words. */
    method MakePhrase(env: Env) returns (phrase: seq<byte>)
      requires Separate() && EntryInv(env, EntryState()) && count <= MAX_WORDS
      ensures phrase == Phrase(env, words[..count])
    {
      phrase := [];
      var i := 0;
      while i < count
        invariant 0 <= i <= count
        invariant forall k :: 0 <= k < MAX_WORDS ==> words[k] < |env.words|
        invariant phrase == Phrase(env, words[..i])
      {
        assert words[i] == EntryState().words[i];
        if i > 0 {
          phrase := phrase + [32];
        }
        phrase := phrase + env.words[words[i]];
        assert words[..i + 1][..i] == words[..i];
        i := i + 1;
      }
    }

    method FinishRecovery(env: Env)
      requires Separate() && Sound(env) && Inv(env, State())
      modifies this, words, prefix, pass, identity
      ensures Inv(env, State()) && State() == Recovered(env, old(State()))
    {
      RecoveredInv(env, State());
      if state != BUSY {
        return;
      }
      var phrase := MakePhrase(env);
      assert words[..count] == State().entry.words[..count] && pass[..passLen] == State().entry.pass[..passLen];
      var seedBytes := env.recover(phrase, pass[..passLen], network);
      if seedBytes.None? {
        state := REJECTED;
        return;
      }
      var texts := env.identity(P.Session(seedBytes.value, network, false));
      if texts.None? {
        state := REJECTED;
        return;
      }
      Welcome(seedBytes.value, texts.value.0, texts.value.1);
    }

    /** Show the fingerprint and the first address, and forget what was typed. */
    method Welcome(seedBytes: seq<byte>, fp: seq<byte>, address: seq<byte>)
      requires Separate() && |fp| == 8 && |address| <= IDENTITY_BYTES - 8
      modifies this, words, prefix, pass, identity
      ensures State() == old(State()).(
        entry := ClearedEntry(old(EntryState())), seed := Some(P.Session(seedBytes, old(network), false)),
        identity := fp + address + old(identity[8 + |address|..]), state := IDENTITY)
    {
      ghost var was := identity[..];
      var n := 8 + |address|;
      forall i | 0 <= i < n { identity[i] := if i < 8 then fp[i] else address[i - 8]; }
      assert identity[..] == fp + address + was[n..];
      seed := new P.SeedSession(seedBytes, network);
      ClearEntry();
      state := IDENTITY;
    }

    method PsbtError(m: Message)
      requires Valid()
      modifies this`files, this`review, this`message, this`state
      ensures State() == Errored(old(State()), m)
    {
      files, review, message, state := [], None, m, PSBT_ERROR;
    }

    method SetFiles(listing: seq<N.File>)
      requires Valid()
      modifies this`files, this`review, this`message, this`state, this`fileIndex, this`namePage
      ensures State() == Listed(old(State()), listing)
    {
      if state != PSBT_LISTING {
        return;
      }
      if listing == [] {
        PsbtError(Said("No .psbt/.psb files"));
      } else if |listing| > MAX_FILES {
        PsbtError(Said("Too many PSBT files"));
      } else {
        files, fileIndex, namePage, state := listing, 0, 0, PSBT_FILES;
      }
    }

    method LoadPsbt(env: Env, bytes: seq<byte>)
      requires Valid()
      modifies this`files, this`review, this`message, this`state, this`reviewPage
      ensures State() == Loaded(env, old(State()), bytes)
    {
      if state != PSBT_LOADING {
        return;
      }
      if seed == null {
        PsbtError(Said("Seed locked"));
        return;
      }
      var result := seed.ReviewPsbt(env.lib, bytes);
      match result {
        case Ok(r) => review, reviewPage, state := Some(r), 0, PSBT_REVIEW;
        case Err(e) => PsbtError(Refused(e));
      }
    }

    method FinishSigning(env: Env) returns (bytes: Option<seq<byte>>)
      requires Valid()
      modifies this`files, this`review, this`message, this`state
      ensures State() == FinishedSigning(env, old(State())) && bytes == SignedBytes(env, old(State()))
    {
      if state != PSBT_SIGNING || review.None? {
        return None;
      }
      var r := review.value;
      review := None;
      if seed == null {
        PsbtError(Said("Seed locked"));
        return None;
      }
      var result := seed.SignPsbt(env.lib, P.BindingOf(env.lib, r));
      match result {
        case Ok(signed) =>
          state := PSBT_SAVING;
          return Some(signed.bytes);
        case Err(_) =>
          PsbtError(Said("Signing failed"));
          return None;
      }
    }

    method PsbtSaved(filename: string)
      requires Valid()
      modifies this`message, this`state
      ensures State() == Saved(old(State()), filename)
    {
      if state == PSBT_SAVING {
        message, state := Said(filename), PSBT_SAVED;
      }
    }
  }
}
