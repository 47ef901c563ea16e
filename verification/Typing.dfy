/**
 What is typed is what is recovered: the entry of words and passphrase against a plain text editor that
 knows neither arrays nor cursors (`Draft`), over every sequence of keys from any state.
 */
module Typing {
  import opened Arithmetic
  import opened Bytes
  import P = Psbt
  import opened Terminal

  /** A command byte, or the worker finishing a recovery. */
  datatype Press = Key(c: byte) | Finish

  datatype Phase = Spelling | Phrasing | Submitted | Rejected | Known(seed: seq<byte>) | Away

  /** The words chosen so far, the letters of the next one, which match is marked, and the passphrase. */
  datatype Draft = Draft(
    phase: Phase, count: nat, network: P.Network, words: seq<nat>, letters: seq<byte>, marked: nat, pass: seq<byte>)

  // ----- the word list -----

  predicate HasPrefix(word: seq<byte>, prefix: seq<byte>) {
    |prefix| <= |word| && forall i :: 0 <= i < |prefix| ==> word[i] == prefix[i]
  }

  /** How many of the first `n` words begin with these letters. */
  function Count(words: seq<seq<byte>>, prefix: seq<byte>, n: nat): nat
    requires n <= |words|
  {
    if n == 0 then 0 else Count(words, prefix, n - 1) + if HasPrefix(words[n - 1], prefix) then 1 else 0
  }

  function Matching(words: seq<seq<byte>>, prefix: seq<byte>): nat { Count(words, prefix, |words|) }

  /** Word `w` begins with these letters, and exactly `k` words before it do. */
  predicate IsNth(words: seq<seq<byte>>, prefix: seq<byte>, k: nat, w: nat) {
    w < |words| && HasPrefix(words[w], prefix) && Count(words, prefix, w) == k
  }

  function NthAmong(words: seq<seq<byte>>, prefix: seq<byte>, k: nat, n: nat): nat
    requires n <= |words|
  {
    if n == 0 then 0
    else if IsNth(words, prefix, k, n - 1) then n - 1 else NthAmong(words, prefix, k, n - 1)
  }

  function Nth(words: seq<seq<byte>>, prefix: seq<byte>, k: nat): nat { NthAmong(words, prefix, k, |words|) }

  // ----- the plain editor -----

  predicate BeginsEntry(c: byte) { c == BEGIN12 || c == BEGIN24 || c == BEGIN_MAIN12 || c == BEGIN_MAIN24 }

  function WordsOf(c: byte): nat { if c == BEGIN12 || c == BEGIN_MAIN12 then 12 else 24 }

  function NetworkOf(c: byte): P.Network { if c == BEGIN12 || c == BEGIN24 then P.Testnet else P.Bitcoin }

  function Blanked(c: byte): Draft { Draft(Spelling, WordsOf(c), NetworkOf(c), [], [], 0, []) }

  function Gone(): Draft { Draft(Away, 0, P.Testnet, [], [], 0, []) }

  /** The keys are the printable characters from 0x20 to 0x7e, moved up by 0x60. */
  predicate Printable(c: byte) { 0x20 + 0x60 <= c <= 0x7e + 0x60 }

  predicate SmallLetter(c: byte) { 0x61 + 0x60 <= c <= 0x7a + 0x60 }

  function CharOf(c: byte): byte
    requires Printable(c)
  {
    c - 0x60
  }

  function WithoutLast<T>(s: seq<T>): seq<T> { if s == [] then [] else s[..|s| - 1] }

  function Spelled(env: Env, d: Draft, c: byte): Draft {
    var total := Matching(env.words, d.letters);
    if SmallLetter(c) then
      if |d.letters| == 4 then d
      else if Matching(env.words, d.letters + [CharOf(c)]) == 0 then d.(marked := 0)
      else d.(letters := d.letters + [CharOf(c)], marked := 0)
    else if c == DELETE then
      if d.letters == [] then d else d.(letters := WithoutLast(d.letters), marked := 0)
    else if c == NEXT then d.(marked := if d.marked + 1 >= total then 0 else d.marked + 1)
    else if c == PREV then d.(marked := if d.marked == 0 then (if total == 0 then 0 else total - 1) else d.marked - 1)
    else if c == CHOOSE then
      d.(words := d.words + [Nth(env.words, d.letters, d.marked)], letters := [], marked := 0,
         phase := if |d.words| + 1 == d.count then Phrasing else Spelling)
    else if c == BACK then d.(words := WithoutLast(d.words), letters := [], marked := 0)
    else d
  }

  function Phrased(d: Draft, c: byte): Draft {
    if Printable(c) then if |d.pass| == 100 then d else d.(pass := d.pass + [CharOf(c)])
    else if c == DELETE then d.(pass := WithoutLast(d.pass))
    else if c == BACK then d.(phase := Spelling, words := WithoutLast(d.words))
    else if c == RECOVER then d.(phase := Submitted)
    else d
  }

  /** Single spaces between the texts. */
  function Joined(texts: seq<seq<byte>>): seq<byte> {
    if texts == [] then [] else if |texts| == 1 then texts[0] else texts[0] + [0x20] + Joined(texts[1..])
  }

  predicate AreWords(env: Env, ws: seq<nat>) { forall i :: 0 <= i < |ws| ==> ws[i] < |env.words| }

  function Texts(env: Env, ws: seq<nat>): seq<seq<byte>>
    requires AreWords(env, ws)
  {
    seq(|ws|, i requires 0 <= i < |ws| => env.words[ws[i]])
  }

  /** The seed of these words and this passphrase, if they are a valid phrase. */
  function SeedOf(env: Env, ws: seq<nat>, pass: seq<byte>, network: P.Network): Option<seq<byte>>
    requires AreWords(env, ws)
  {
    match env.recover(Joined(Texts(env, ws)), pass, network)
    case None => None
    case Some(seed) => if env.identity(P.Session(seed, network, false)).None? then None else Some(seed)
  }

  function Pressed(env: Env, d: Draft, p: Press): Draft {
    match p
    case Finish =>
      if !d.phase.Submitted? || !AreWords(env, d.words) then d
      else
        var seed := SeedOf(env, d.words, d.pass, d.network);
        d.(phase := if seed.None? then Rejected else Known(seed.value))
    case Key(c) =>
      if BeginsEntry(c) then Blanked(c)
      else if c == LOCK then Gone()
      else match d.phase
        case Spelling => Spelled(env, d, c)
        case Phrasing => Phrased(d, c)
        case Rejected => if c == BACK then d.(phase := Spelling, words := WithoutLast(d.words)) else d
        case Known(_) => if c == CONFIRM then Gone() else d
        case _ => d
  }

  function Drafted(env: Env, ps: seq<Press>): Draft {
    if ps == [] then Gone() else Pressed(env, Drafted(env, ps[..|ps| - 1]), ps[|ps| - 1])
  }

  // ----- the terminal -----

  function Does(env: Env, t: Term, p: Press): Term
    requires Inv(env, t) && Sound(env)
  {
    match p case Key(c) => Commanded(env, t, c) case Finish => Recovered(env, t)
  }

  function Operated(env: Env, t: Term, ps: seq<Press>): (t': Term)
    requires Inv(env, t) && Sound(env)
    ensures Inv(env, t')
    decreases |ps|
  {
    if ps == [] then t
    else
      var before := Operated(env, t, ps[..|ps| - 1]);
      DoesInv(env, before, ps[|ps| - 1]);
      Does(env, before, ps[|ps| - 1])
  }

  lemma DoesInv(env: Env, t: Term, p: Press)
    requires Inv(env, t) && Sound(env)
    ensures Inv(env, Does(env, t, p))
  {
    match p
    case Key(c) => CommandInv(env, t, c);
    case Finish => RecoveredInv(env, t);
  }

  // ----- how they agree -----

  /** Nothing of words and passphrase is left in memory. */
  predicate Erased(e: Entry) {
    ZeroFrom(e.words, 0) && ZeroFrom(e.prefix, 0) && ZeroFrom(e.pass, 0) && e.prefixLen == e.passLen == 0
  }

  /** Fingerprint and first address of this session, and nothing behind them. */
  predicate Identifies(env: Env, s: P.Session, identity: seq<byte>) {
    && env.identity(s).Some?
    && var (fp, address) := env.identity(s).value;
    && |fp| == 8 && 8 + |address| <= |identity| == 52 && identity[..8] == fp && identity[8..8 + |address|] == address
    && ZeroFrom(identity, 8 + |address|)
  }

  /** The session of this seed is in use and on screen, and what was typed is gone. */
  ghost predicate Opens(env: Env, t: Term, seed: seq<byte>, network: P.Network) {
    var s := P.Session(seed, network, false);
    t.state == IDENTITY && t.seed == Some(s) && Identifies(env, s, t.identity) && Erased(t.entry)
  }

  ghost predicate SameEntry(env: Env, d: Draft, t: Term) {
    var e := t.entry;
    && e.count == d.count && t.network == d.network && d.count <= |e.words| && |d.words| <= d.count
    && e.words[..|d.words|] == d.words && AreWords(env, d.words)
    && e.prefixLen <= |e.prefix| && e.prefix[..e.prefixLen] == d.letters && e.candidate == d.marked
    && ZeroFrom(e.prefix, e.prefixLen) && ZeroFrom(t.identity, 0)
    && e.passLen <= |e.pass| && e.pass[..e.passLen] == d.pass
  }

  /** All words are in, and the last place is still the current one. */
  ghost predicate Entered(env: Env, d: Draft, t: Term) {
    && SameEntry(env, d, t) && |d.words| == d.count > 0 && t.entry.slot + 1 == d.count
    && d.letters == [] && d.marked == 0
  }

  ghost predicate Agrees(env: Env, d: Draft, t: Term) {
    match d.phase
    case Spelling => t.state == WORDS && SameEntry(env, d, t) && t.entry.slot == |d.words| < d.count
    case Phrasing => t.state == PASSPHRASE && Entered(env, d, t)
    case Submitted => t.state == BUSY && Entered(env, d, t)
    case Rejected => t.state == REJECTED && Entered(env, d, t)
    case Known(seed) => Opens(env, t, seed, d.network)
    case Away => true
  }

  // ----- matches -----

  lemma PrefixIff(word: seq<byte>, prefix: seq<byte>)
    ensures HasPrefix(word, prefix) <==> StartsWith(word, prefix)
  {
    if StartsWith(word, prefix) {
      forall i | 0 <= i < |prefix| ensures word[i] == prefix[i] { assert word[..|prefix|][i] == prefix[i]; }
    }
  }

  lemma {:induction false} MatchesAreCounted(words: seq<seq<byte>>, prefix: seq<byte>, n: nat)
    requires n <= |words|
    ensures |MatchesAmong(words, prefix, n)| == Count(words, prefix, n)
    ensures forall k :: 0 <= k < |MatchesAmong(words, prefix, n)| ==>
      MatchesAmong(words, prefix, n)[k] < n && IsNth(words, prefix, k, MatchesAmong(words, prefix, n)[k])
  {
    if n > 0 {
      MatchesAreCounted(words, prefix, n - 1);
      PrefixIff(words[n - 1], prefix);
    }
  }

  lemma {:induction false} CountGrows(words: seq<seq<byte>>, prefix: seq<byte>, m: nat, n: nat)
    requires m <= n <= |words|
    ensures Count(words, prefix, m) <= Count(words, prefix, n)
  {
    if m < n { CountGrows(words, prefix, m, n - 1); }
  }

  /** There is only one such word. */
  lemma NthIsUnique(words: seq<seq<byte>>, prefix: seq<byte>, k: nat, v: nat, w: nat)
    requires IsNth(words, prefix, k, v) && IsNth(words, prefix, k, w)
    ensures v == w
  {
    if v < w { CountGrows(words, prefix, v + 1, w); }
    if w < v { CountGrows(words, prefix, w + 1, v); }
  }

  lemma {:induction false} NthAmongIs(words: seq<seq<byte>>, prefix: seq<byte>, k: nat, n: nat, w: nat)
    requires w < n <= |words| && IsNth(words, prefix, k, w)
    ensures NthAmong(words, prefix, k, n) == w
  {
    if IsNth(words, prefix, k, n - 1) { NthIsUnique(words, prefix, k, n - 1, w); }
    else { NthAmongIs(words, prefix, k, n - 1, w); }
  }

  lemma NthIs(words: seq<seq<byte>>, prefix: seq<byte>, k: nat, w: nat)
    requires IsNth(words, prefix, k, w)
    ensures Nth(words, prefix, k) == w && k < Matching(words, prefix)
  {
    NthAmongIs(words, prefix, k, |words|, w);
    CountGrows(words, prefix, w + 1, |words|);
  }

  lemma MarkedIsNth(words: seq<seq<byte>>, prefix: seq<byte>, k: nat)
    requires k < |Matches(words, prefix)|
    ensures |Matches(words, prefix)| == Matching(words, prefix)
    ensures Matches(words, prefix)[k] == Nth(words, prefix, k) < |words|
  {
    MatchesAreCounted(words, prefix, |words|);
    NthIs(words, prefix, k, Matches(words, prefix)[k]);
  }

  lemma MatchingIs(words: seq<seq<byte>>, prefix: seq<byte>)
    ensures |Matches(words, prefix)| == Matching(words, prefix)
  {
    MatchesAreCounted(words, prefix, |words|);
  }

  // ----- one key -----

  lemma LetterAgrees(env: Env, d: Draft, t: Term, c: byte)
    requires Inv(env, t) && Agrees(env, d, t) && d.phase.Spelling? && SmallLetter(c)
    ensures Agrees(env, Spelled(env, d, c), Commanded(env, t, c))
  {
    if t.entry.prefixLen < PREFIX { RoomForLetter(env, d, t, c); }
  }

  lemma RoomForLetter(env: Env, d: Draft, t: Term, c: byte)
    requires Inv(env, t) && Agrees(env, d, t) && d.phase.Spelling? && SmallLetter(c) && t.entry.prefixLen < PREFIX
    ensures Agrees(env, Spelled(env, d, c), Commanded(env, t, c))
  {
    var letters := d.letters + [CharOf(c)];
    assert t.entry.prefix[t.entry.prefixLen := CharOf(c)][..t.entry.prefixLen + 1] == letters;
    MatchingIs(env.words, letters);
    if Matching(env.words, letters) == 0 { LetterIsRefused(env, d, t, c); } else { LetterIsTaken(env, d, t, c); }
  }

  lemma LetterIsTaken(env: Env, d: Draft, t: Term, c: byte)
    requires Inv(env, t) && Agrees(env, d, t) && d.phase.Spelling? && SmallLetter(c) && t.entry.prefixLen < PREFIX
    requires var letters := d.letters + [CharOf(c)];
      && t.entry.prefix[t.entry.prefixLen := CharOf(c)][..t.entry.prefixLen + 1] == letters
      && |Matches(env.words, letters)| == Matching(env.words, letters) != 0
    ensures Agrees(env, Spelled(env, d, c), Commanded(env, t, c))
  {
  }

  lemma LetterIsRefused(env: Env, d: Draft, t: Term, c: byte)
    requires Inv(env, t) && Agrees(env, d, t) && d.phase.Spelling? && SmallLetter(c) && t.entry.prefixLen < PREFIX
    requires var letters := d.letters + [CharOf(c)];
      && t.entry.prefix[t.entry.prefixLen := CharOf(c)][..t.entry.prefixLen + 1] == letters
      && |Matches(env.words, letters)| == Matching(env.words, letters) == 0
    ensures Agrees(env, Spelled(env, d, c), Commanded(env, t, c))
  {
    var p := t.entry.prefix[t.entry.prefixLen := CharOf(c)];
    assert p[t.entry.prefixLen := 0][..t.entry.prefixLen] == d.letters;
  }

  lemma TurnAgrees(env: Env, d: Draft, t: Term, c: byte)
    requires Inv(env, t) && Agrees(env, d, t) && d.phase.Spelling? && (c == NEXT || c == PREV)
    ensures Agrees(env, Spelled(env, d, c), Commanded(env, t, c))
  {
    MatchingIs(env.words, d.letters);
    Around(d.marked, Matching(env.words, d.letters));
  }

  lemma ChooseAgrees(env: Env, d: Draft, t: Term)
    requires Inv(env, t) && Agrees(env, d, t) && d.phase.Spelling?
    ensures Agrees(env, Spelled(env, d, CHOOSE), Commanded(env, t, CHOOSE))
  {
    var e := t.entry;
    MarkedIsNth(env.words, d.letters, d.marked);
    var w := Nth(env.words, d.letters, d.marked);
    assert e.words[e.slot := w][..|d.words| + 1] == d.words + [w];
  }

  lemma SpellingAgrees(env: Env, d: Draft, t: Term, c: byte)
    requires Inv(env, t) && Agrees(env, d, t) && d.phase.Spelling? && !Begins(c)
    ensures Agrees(env, Spelled(env, d, c), Commanded(env, t, c))
  {
    if SmallLetter(c) { LetterAgrees(env, d, t, c); }
    else if c == NEXT || c == PREV { TurnAgrees(env, d, t, c); }
    else if c == CHOOSE { ChooseAgrees(env, d, t); }
    else { EraseAgrees(env, d, t, c); }
  }

  lemma EraseAgrees(env: Env, d: Draft, t: Term, c: byte)
    requires Inv(env, t) && Agrees(env, d, t) && d.phase.Spelling? && !Begins(c)
    requires !SmallLetter(c) && c != NEXT && c != PREV && c != CHOOSE
    ensures Agrees(env, Spelled(env, d, c), Commanded(env, t, c))
  {
    var e := t.entry;
    if c == DELETE && e.prefixLen > 0 {
      assert e.prefix[e.prefixLen - 1 := 0][..e.prefixLen - 1] == WithoutLast(d.letters);
    }
    if c == BACK && d.words != [] {
      assert e.words[..|d.words| - 1] == WithoutLast(d.words);
    }
  }

  lemma PhrasingAgrees(env: Env, d: Draft, t: Term, c: byte)
    requires Inv(env, t) && Agrees(env, d, t) && d.phase.Phrasing? && !Begins(c)
    ensures Agrees(env, Phrased(d, c), Commanded(env, t, c))
  {
    var e := t.entry;
    if Printable(c) && e.passLen < MAX_PASS {
      assert e.pass[e.passLen := CharOf(c)][..e.passLen + 1] == d.pass + [CharOf(c)];
    }
    if c == DELETE && e.passLen > 0 {
      assert e.pass[e.passLen - 1 := 0][..e.passLen - 1] == WithoutLast(d.pass);
    }
    assert e.words[..|d.words| - 1] == WithoutLast(d.words);
  }

  lemma OtherAgrees(env: Env, d: Draft, t: Term, c: byte)
    requires Inv(env, t) && Agrees(env, d, t) && !Begins(c) && !d.phase.Spelling? && !d.phase.Phrasing?
    ensures Agrees(env, Pressed(env, d, Key(c)), Commanded(env, t, c))
  {
    if d.phase.Rejected? { assert t.entry.words[..|d.words| - 1] == WithoutLast(d.words); }
  }

  lemma BeginAgrees(env: Env, d: Draft, t: Term, c: byte)
    requires Inv(env, t) && Begins(c)
    ensures Agrees(env, Pressed(env, d, Key(c)), Commanded(env, t, c))
  {
  }

  // ----- recovery -----

  lemma {:induction false} JoinedSnoc(texts: seq<seq<byte>>, text: seq<byte>)
    requires texts != []
    ensures Joined(texts + [text]) == Joined(texts) + [0x20] + text
  {
    assert (texts + [text])[0] == texts[0];
    if |texts| == 1 {
      assert (texts + [text])[1..] == [text];
    } else {
      assert (texts + [text])[1..] == texts[1..] + [text];
      JoinedSnoc(texts[1..], text);
    }
  }

  lemma {:induction false} PhraseIsJoined(env: Env, ws: seq<nat>)
    requires AreWords(env, ws)
    ensures Phrase(env, ws) == Joined(Texts(env, ws))
  {
    if |ws| >= 2 {
      var front := ws[..|ws| - 1];
      PhraseIsJoined(env, front);
      assert Texts(env, ws) == Texts(env, front) + [env.words[ws[|ws| - 1]]];
      JoinedSnoc(Texts(env, front), env.words[ws[|ws| - 1]]);
    }
  }

  lemma FinishAgrees(env: Env, d: Draft, t: Term)
    requires Inv(env, t) && Sound(env) && Agrees(env, d, t)
    ensures Agrees(env, Pressed(env, d, Finish), Recovered(env, t))
  {
    if d.phase.Submitted? {
      PhraseIsJoined(env, d.words);
      assert t.entry.words[..t.entry.count] == d.words;
    }
  }

  lemma PressAgrees(env: Env, d: Draft, t: Term, p: Press)
    requires Inv(env, t) && Sound(env) && Agrees(env, d, t)
    ensures Agrees(env, Pressed(env, d, p), Does(env, t, p))
  {
    match p
    case Finish => FinishAgrees(env, d, t);
    case Key(c) =>
      if Begins(c) { BeginAgrees(env, d, t, c); }
      else if d.phase.Spelling? { SpellingAgrees(env, d, t, c); }
      else if d.phase.Phrasing? { PhrasingAgrees(env, d, t, c); }
      else { OtherAgrees(env, d, t, c); }
  }

  /** From any state, for every sequence of keys and recoveries: the terminal holds what the editor holds. */
  lemma {:induction false} TypingIsFollowed(env: Env, t: Term, ps: seq<Press>)
    requires Inv(env, t) && Sound(env)
    ensures Agrees(env, Drafted(env, ps), Operated(env, t, ps))
    decreases |ps|
  {
    if ps != [] {
      TypingIsFollowed(env, t, ps[..|ps| - 1]);
      PressAgrees(env, Drafted(env, ps[..|ps| - 1]), Operated(env, t, ps[..|ps| - 1]), ps[|ps| - 1]);
    }
  }

  // ----- main results -----

  /**
   What recovery uses. Whatever came before and from any state: if the keys so far leave the plain
   editor submitted, then the terminal recovers from exactly its words, joined by single spaces, its
   passphrase and the network of the beginning, and shows the identity of that very session; it
   rejects exactly when these are no valid phrase.
   */
  lemma RecoveryUsesWhatWasTyped(env: Env, t: Term, ps: seq<Press>)
    requires Inv(env, t) && Sound(env) && Drafted(env, ps).phase == Submitted
    ensures var d := Drafted(env, ps);
      var t' := Operated(env, t, ps + [Finish]);
      && AreWords(env, d.words) && |d.words| == d.count
      && match SeedOf(env, d.words, d.pass, d.network)
         case Some(seed) => Opens(env, t', seed, d.network)
         case None => t'.state == REJECTED
  {
    TypingIsFollowed(env, t, ps);
    TypingIsFollowed(env, t, ps + [Finish]);
    assert (ps + [Finish])[..|ps|] == ps;
  }

  // ----- how to type -----

  function DraftedFrom(env: Env, d: Draft, ps: seq<Press>): Draft {
    if ps == [] then d else Pressed(env, DraftedFrom(env, d, ps[..|ps| - 1]), ps[|ps| - 1])
  }

  lemma {:induction false} DraftedConcat(env: Env, d: Draft, a: seq<Press>, b: seq<Press>)
    ensures DraftedFrom(env, d, a + b) == DraftedFrom(env, DraftedFrom(env, d, a), b)
    decreases |b|
  {
    if b == [] {
      assert a + b == a;
    } else {
      assert (a + b)[..|a + b| - 1] == a + b[..|b| - 1];
      DraftedConcat(env, d, a, b[..|b| - 1]);
    }
  }

  lemma {:induction false} DraftedIs(env: Env, ps: seq<Press>)
    ensures Drafted(env, ps) == DraftedFrom(env, Gone(), ps)
  {
    if ps != [] { DraftedIs(env, ps[..|ps| - 1]); }
  }

  predicate Typeable(text: seq<byte>) { forall i :: 0 <= i < |text| ==> 0x20 <= text[i] <= 0x7e }

  predicate Letters(text: seq<byte>) { forall i :: 0 <= i < |text| ==> 0x61 <= text[i] <= 0x7a }

  /** The keys of a text. */
  function Keys(text: seq<byte>): (ps: seq<Press>)
    requires Typeable(text)
    ensures |ps| == |text|
    ensures forall i :: 0 <= i < |text| ==> ps[i] == Key(text[i] + 0x60)
  {
    seq(|text|, i requires 0 <= i < |text| => Key(text[i] + 0x60))
  }

  function Nexts(k: nat): (ps: seq<Press>)
    ensures |ps| == k
  {
    seq(k, i => Key(NEXT))
  }

  /** Up to four letters of the word, NEXT until it is marked, and CHOOSE. */
  function WordKeys(env: Env, w: nat, n: nat): seq<Press>
    requires w < |env.words| && n <= |env.words[w]| && Letters(env.words[w])
  {
    Keys(env.words[w][..n]) + Nexts(Count(env.words, env.words[w][..n], w)) + [Key(CHOOSE)]
  }

  predicate Spellable(env: Env, ws: seq<nat>, ns: seq<nat>) {
    && |ns| == |ws| && AreWords(env, ws)
    && forall i :: 0 <= i < |ws| ==> ns[i] <= 4 && ns[i] <= |env.words[ws[i]]| && Letters(env.words[ws[i]])
  }

  function AllWordKeys(env: Env, ws: seq<nat>, ns: seq<nat>): seq<Press>
    requires Spellable(env, ws, ns)
  {
    if ws == [] then []
    else AllWordKeys(env, ws[..|ws| - 1], ns[..|ns| - 1]) + WordKeys(env, ws[|ws| - 1], ns[|ns| - 1])
  }

  lemma KeysSnoc(text: seq<byte>, n: nat)
    requires Typeable(text) && |text| == n + 1
    ensures Typeable(text[..n]) && Keys(text)[..n] == Keys(text[..n]) && Keys(text)[n] == Key(text[n] + 0x60)
    ensures text[..n] + [text[n]] == text
  {
  }

  lemma LastKey(env: Env, d: Draft, text: seq<byte>, n: nat)
    requires Typeable(text) && |text| == n + 1
    ensures Typeable(text[..n]) && text[..n] + [text[n]] == text
    ensures DraftedFrom(env, d, Keys(text))
         == Pressed(env, DraftedFrom(env, d, Keys(text[..n])), Key(text[n] + 0x60))
  {
    KeysSnoc(text, n);
  }

  lemma LetterIsTyped(env: Env, d: Draft, x: byte, letters: seq<byte>)
    requires d.phase == Spelling && d.marked == 0 && |d.letters| < 4 && 0x61 <= x <= 0x7a
    requires letters == d.letters + [x] && Matching(env.words, letters) > 0
    ensures Pressed(env, d, Key(x + 0x60)) == d.(letters := letters)
  {
  }

  lemma LetterFollows(env: Env, d: Draft, text: seq<byte>, front: seq<byte>)
    requires Typeable(text) && |text| <= 4 && text != [] && front == text[..|text| - 1]
    requires 0x61 <= text[|text| - 1] <= 0x7a && Matching(env.words, text) > 0
    requires d.phase == Spelling && d.marked == 0 && d.letters == front
    ensures Pressed(env, d, Key(text[|text| - 1] + 0x60)) == d.(letters := text)
  {
    assert front + [text[|text| - 1]] == text;
    LetterIsTyped(env, d, text[|text| - 1], text);
  }

  lemma PrefixMatches(words: seq<seq<byte>>, w: nat, text: seq<byte>)
    requires w < |words| && text <= words[w]
    ensures Matching(words, text) > 0
  {
    NthIs(words, text, Count(words, text, w), w);
  }

  lemma {:induction false} LettersAreTyped(env: Env, d: Draft, w: nat, text: seq<byte>)
    requires w < |env.words| && |text| <= 4 && text <= env.words[w] && Letters(text)
    requires d.phase == Spelling && d.letters == [] && d.marked == 0
    ensures DraftedFrom(env, d, Keys(text)) == d.(letters := text)
  {
    if text != [] {
      var front := text[..|text| - 1];
      LettersAreTyped(env, d, w, front);
      PrefixMatches(env.words, w, text);
      LetterFollows(env, d.(letters := front), text, front);
      LastKey(env, d, text, |text| - 1);
    }
  }

  lemma MatchesItself(env: Env, w: nat, n: nat)
    requires w < |env.words| && n <= |env.words[w]|
    ensures IsNth(env.words, env.words[w][..n], Count(env.words, env.words[w][..n], w), w)
    ensures Matching(env.words, env.words[w][..n]) > Count(env.words, env.words[w][..n], w)
  {
    NthIs(env.words, env.words[w][..n], Count(env.words, env.words[w][..n], w), w);
  }

  lemma {:induction false} NextsAreTyped(env: Env, d: Draft, k: nat)
    requires d.phase == Spelling && d.marked == 0 && k < Matching(env.words, d.letters)
    ensures DraftedFrom(env, d, Nexts(k)) == d.(marked := k)
  {
    if k > 0 {
      NextsAreTyped(env, d, k - 1);
      assert Nexts(k)[..k - 1] == Nexts(k - 1);
    }
  }

  lemma OneKey(env: Env, d: Draft, p: Press)
    ensures DraftedFrom(env, d, [p]) == Pressed(env, d, p)
  {
    assert [p][..0] == [];
    assert DraftedFrom(env, d, [p][..0]) == d;
  }

  /** The word that was meant is the word that is chosen. */
  lemma WordIsTyped(env: Env, d: Draft, w: nat, n: nat)
    requires w < |env.words| && n <= 4 && n <= |env.words[w]| && Letters(env.words[w])
    requires d.phase == Spelling && d.letters == [] && d.marked == 0
    ensures DraftedFrom(env, d, WordKeys(env, w, n))
         == d.(words := d.words + [w], phase := if |d.words| + 1 == d.count then Phrasing else Spelling)
  {
    var prefix := env.words[w][..n];
    var k := Count(env.words, prefix, w);
    LettersAreTyped(env, d, w, prefix);
    MatchesItself(env, w, n);
    NextsAreTyped(env, d.(letters := prefix), k);
    NthIs(env.words, prefix, k, w);
    DraftedConcat(env, d, Keys(prefix), Nexts(k));
    DraftedConcat(env, d, Keys(prefix) + Nexts(k), [Key(CHOOSE)]);
    OneKey(env, d.(letters := prefix, marked := k), Key(CHOOSE));
  }

  lemma WordFollows(env: Env, d: Draft, front: Draft, ws: seq<nat>, ns: seq<nat>, n: nat)
    requires Spellable(env, ws, ns) && |ws| == n + 1 && front.words == ws[..n]
    requires front.phase == Spelling && front.letters == [] && front.marked == 0
    requires DraftedFrom(env, d, AllWordKeys(env, ws[..n], ns[..n])) == front
    ensures DraftedFrom(env, d, AllWordKeys(env, ws, ns))
         == front.(words := ws, phase := if |ws| == front.count then Phrasing else Spelling)
  {
    WordIsTyped(env, front, ws[n], ns[n]);
    DraftedConcat(env, d, AllWordKeys(env, ws[..n], ns[..n]), WordKeys(env, ws[n], ns[n]));
    assert ws[..n] + [ws[n]] == ws;
  }

  lemma {:induction false} WordsAreTyped(env: Env, d: Draft, ws: seq<nat>, ns: seq<nat>)
    requires Spellable(env, ws, ns) && d.phase == Spelling && d.letters == [] && d.marked == 0
    requires d.words == [] && 0 < d.count && |ws| <= d.count
    ensures DraftedFrom(env, d, AllWordKeys(env, ws, ns))
         == d.(words := ws, phase := if |ws| == d.count then Phrasing else Spelling)
  {
    if ws != [] {
      var n := |ws| - 1;
      WordsAreTyped(env, d, ws[..n], ns[..n]);
      WordFollows(env, d, d.(words := ws[..n]), ws, ns, n);
    }
  }

  lemma CharIsTyped(env: Env, d: Draft, x: byte)
    requires d.phase == Phrasing && |d.pass| < 100 && 0x20 <= x <= 0x7e
    ensures Pressed(env, d, Key(x + 0x60)) == d.(pass := d.pass + [x])
  {
  }

  lemma {:induction false} PassIsTyped(env: Env, d: Draft, text: seq<byte>)
    requires Typeable(text) && |text| <= 100 && d.phase == Phrasing && d.pass == []
    ensures DraftedFrom(env, d, Keys(text)) == d.(pass := text)
  {
    if text != [] {
      var n := |text| - 1;
      LastKey(env, d, text, n);
      PassIsTyped(env, d, text[..n]);
      CharIsTyped(env, d.(pass := text[..n]), text[n]);
    }
  }

  lemma Inserted(env: Env, a: seq<Press>, m: seq<Press>, b: seq<Press>)
    requires DraftedFrom(env, Drafted(env, a), m) == Drafted(env, a)
    ensures Drafted(env, a + m + b) == Drafted(env, a + b)
  {
    DraftedIs(env, a);
    DraftedIs(env, a + m + b);
    DraftedIs(env, a + b);
    DraftedConcat(env, Gone(), a, m);
    DraftedConcat(env, Gone(), a + m, b);
    DraftedConcat(env, Gone(), a, b);
  }

  lemma TwoKeys(env: Env, d: Draft, p: Press, q: Press)
    ensures DraftedFrom(env, d, [p] + [q]) == Pressed(env, Pressed(env, d, p), q)
  {
    DraftedConcat(env, d, [p], [q]);
    OneKey(env, d, p);
    OneKey(env, Pressed(env, d, p), q);
  }

  /** A letter or character that is taken back with DELETE leaves no trace, wherever it comes in a run. */
  lemma DeletedKeysDoNotMatter(env: Env, a: seq<Press>, c: byte, b: seq<Press>)
    requires var d := Drafted(env, a);
      || (d.phase == Phrasing && Printable(c) && |d.pass| < 100)
      || (d.phase == Spelling && SmallLetter(c) && d.marked == 0 && |d.letters| < 4
          && Matching(env.words, d.letters + [CharOf(c)]) > 0)
    ensures Drafted(env, a + ([Key(c)] + [Key(DELETE)]) + b) == Drafted(env, a + b)
  {
    var d := Drafted(env, a);
    assert WithoutLast(d.letters + [CharOf(c)]) == d.letters && WithoutLast(d.pass + [CharOf(c)]) == d.pass;
    TwoKeys(env, d, Key(c), Key(DELETE));
    Inserted(env, a, [Key(c)] + [Key(DELETE)], b);
  }

  /** A whole word that is taken back with BACK leaves no trace, the last one included. */
  lemma WithdrawnWordsDoNotMatter(env: Env, a: seq<Press>, w: nat, n: nat, b: seq<Press>)
    requires w < |env.words| && n <= 4 && n <= |env.words[w]| && Letters(env.words[w])
    requires var d := Drafted(env, a); d.phase == Spelling && d.letters == [] && d.marked == 0
    ensures Drafted(env, a + (WordKeys(env, w, n) + [Key(BACK)]) + b) == Drafted(env, a + b)
  {
    var d := Drafted(env, a);
    WordIsTyped(env, d, w, n);
    assert WithoutLast(d.words + [w]) == d.words;
    DraftedConcat(env, d, WordKeys(env, w, n), [Key(BACK)]);
    OneKey(env, DraftedFrom(env, d, WordKeys(env, w, n)), Key(BACK));
    Inserted(env, a, WordKeys(env, w, n) + [Key(BACK)], b);
  }

  /** Begin, enter the words, type the passphrase, recover. */
  function Script(env: Env, begin: byte, ws: seq<nat>, ns: seq<nat>, pass: seq<byte>): seq<Press>
    requires Spellable(env, ws, ns) && Typeable(pass)
  {
    [Key(begin)] + AllWordKeys(env, ws, ns) + Keys(pass) + [Key(RECOVER)]
  }

  lemma ScriptSubmits(env: Env, begin: byte, ws: seq<nat>, ns: seq<nat>, pass: seq<byte>)
    requires BeginsEntry(begin) && Spellable(env, ws, ns) && |ws| == WordsOf(begin)
    requires Typeable(pass) && |pass| <= 100
    ensures Drafted(env, Script(env, begin, ws, ns, pass))
         == Draft(Submitted, WordsOf(begin), NetworkOf(begin), ws, [], 0, pass)
  {
    var a, b, c := [Key(begin)], AllWordKeys(env, ws, ns), Keys(pass);
    DraftedIs(env, a + b + c + [Key(RECOVER)]);
    DraftedConcat(env, Gone(), a + b + c, [Key(RECOVER)]);
    DraftedConcat(env, Gone(), a + b, c);
    DraftedConcat(env, Gone(), a, b);
    OneKey(env, Gone(), Key(begin));
    WordsAreTyped(env, Blanked(begin), ws, ns);
    var d := Blanked(begin).(words := ws, phase := Phrasing);
    PassIsTyped(env, d, pass);
    OneKey(env, d.(pass := pass), Key(RECOVER));
  }

  /**
   From any state: after a beginning, the keys that enter twelve or twenty-four words, each by any of
   its first letters, the keys of a passphrase and RECOVER, the session has the seed that the library
   gives for these words joined by single spaces, this passphrase and the network of the beginning.
   */
  lemma TypedPhraseIsRecovered(
    env: Env, t: Term, begin: byte, ws: seq<nat>, ns: seq<nat>, pass: seq<byte>)
    requires Inv(env, t) && Sound(env)
    requires BeginsEntry(begin) && Spellable(env, ws, ns) && |ws| == WordsOf(begin)
    requires Typeable(pass) && |pass| <= 100
    ensures var t' := Operated(env, t, Script(env, begin, ws, ns, pass) + [Finish]);
      match SeedOf(env, ws, pass, NetworkOf(begin))
      case Some(seed) => Opens(env, t', seed, NetworkOf(begin))
      case None => t'.state == REJECTED
  {
    ScriptSubmits(env, begin, ws, ns, pass);
    RecoveryUsesWhatWasTyped(env, t, Script(env, begin, ws, ns, pass));
  }
}
