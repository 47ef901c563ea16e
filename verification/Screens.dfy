/**
 What the other screens show (signer-probe/src/terminal.rs, `report`): the words that match what was
 typed, the whole name of a file page by page, the identity that was recovered, and the message of an
 error or of a saved file.
 */
module Screens {
  import opened Bytes
  import D = Directory
  import N = NameOrder
  import P = Psbt
  import opened Report
  import opened Terminal
  import T = Typing
  import opened Utf16

  // ----- the words -----

  /** Row `row` of the word list holds this text, followed by zeros. */
  predicate RowIs(r: seq<byte>, row: nat, text: seq<byte>)
    requires |r| == REPORT && row < 3
  {
    |text| <= 9 && forall i :: 0 <= i < 9 ==> r[16 + 9 * row + i] == if i < |text| then text[i] else 0
  }

  function RowText(env: Env, ms: seq<nat>, i: nat): seq<byte>
    requires forall m :: m in ms ==> m < |env.words|
  {
    if i < |ms| then assert ms[i] in ms; env.words[ms[i]] else []
  }

  /** No word is longer than eight letters, as in the list of BIP 39. */
  ghost predicate ShortWords(env: Env) { forall w :: 0 <= w < |env.words| ==> |env.words[w]| <= 8 }

  predicate ZeroBehind(r: seq<byte>, rows: nat)
    requires |r| == REPORT && rows <= 3
  {
    forall i :: 16 + 9 * rows <= i < 43 ==> r[i] == 0
  }

  lemma RowPut(env: Env, r: seq<byte>, ms: seq<nat>, i: nat, row: nat)
    requires |r| == REPORT && row < 3 && (forall m :: m in ms ==> m < |env.words|) && ShortWords(env)
    requires ZeroBehind(r, row)
    ensures var r' := PutWord(env, r, ms, i, row);
      && RowIs(r', row, RowText(env, ms, i)) && ZeroBehind(r', row + 1)
      && forall j :: 0 <= j < 16 + 9 * row ==> r'[j] == r[j]
  {
    if i < |ms| {
      assert ms[i] in ms;
      var word := env.words[ms[i]];
      assert PutWord(env, r, ms, i, row) == r[..16 + 9 * row] + word + r[16 + 9 * row + |word|..];
    }
  }

  /** Three rows of texts. */
  predicate RowsAre(r: seq<byte>, a: seq<byte>, b: seq<byte>, c: seq<byte>)
    requires |r| == REPORT
  {
    RowIs(r, 0, a) && RowIs(r, 1, b) && RowIs(r, 2, c)
  }

  lemma RowStays(r: seq<byte>, r': seq<byte>, row: nat, text: seq<byte>)
    requires |r| == |r'| == REPORT && row < 3 && RowIs(r, row, text)
    requires forall j :: 0 <= j < 25 + 9 * row ==> r'[j] == r[j]
    ensures RowIs(r', row, text)
  {
  }

  lemma ThreeRows(env: Env, r: seq<byte>, ms: seq<nat>, k: nat, rows: nat)
    requires |r| == REPORT && rows == 3 && (forall m :: m in ms ==> m < |env.words|) && ShortWords(env)
    requires ZeroBehind(r, 0)
    ensures var r' := PutWords(env, r, ms, k, rows);
      && RowsAre(r', RowText(env, ms, k), RowText(env, ms, k + 1), RowText(env, ms, k + 2))
      && forall j :: 0 <= j < 16 ==> r'[j] == r[j]
  {
    var r1 := PutWord(env, r, ms, k, 0);
    var r2 := PutWord(env, r1, ms, k + 1, 1);
    var r3 := PutWord(env, r2, ms, k + 2, 2);
    RowPut(env, r, ms, k, 0);
    RowPut(env, r1, ms, k + 1, 1);
    RowPut(env, r2, ms, k + 2, 2);
    RowStays(r1, r2, 0, RowText(env, ms, k));
    RowStays(r2, r3, 0, RowText(env, ms, k));
    RowStays(r2, r3, 1, RowText(env, ms, k + 1));
    ThreePuts(env, r, ms, k, rows);
  }

  lemma ThreePuts(env: Env, r: seq<byte>, ms: seq<nat>, k: nat, rows: nat)
    requires |r| == REPORT && rows == 3 && forall m :: m in ms ==> m < |env.words|
    ensures PutWords(env, r, ms, k, rows)
         == PutWord(env, PutWord(env, PutWord(env, r, ms, k, 0), ms, k + 1, 1), ms, k + 2, 2)
  {
    assert PutWords(env, r, ms, k, rows - 3) == r;
    assert PutWords(env, r, ms, k, rows - 2) == PutWord(env, r, ms, k, 0);
  }

  /** The word on row `row`: the match so many places behind the marked one, if there is one. */
  function MatchOnRow(env: Env, d: T.Draft, row: nat): seq<byte> {
    var k, w := d.marked + row, T.Nth(env.words, d.letters, d.marked + row);
    if k < T.Matching(env.words, d.letters) && w < |env.words| then env.words[w] else []
  }

  lemma RowIsMatch(env: Env, d: T.Draft, row: nat)
    ensures RowText(env, Matches(env.words, d.letters), d.marked + row) == MatchOnRow(env, d, row)
  {
    T.MatchingIs(env.words, d.letters);
    if d.marked + row < T.Matching(env.words, d.letters) {
      T.MarkedIsNth(env.words, d.letters, d.marked + row);
    }
  }

  /** What the screen tells of the words: how many, how many are in, the letters typed, and three matches. */
  ghost predicate WordScreen(env: Env, r: seq<byte>, d: T.Draft)
    requires |r| == REPORT
  {
    && r[1] == WORDS && r[2] == d.count && r[3] == |d.words| && r[4] == |d.letters| <= 4
    && (forall i :: 0 <= i < 4 ==> r[10 + i] == if i < |d.letters| then d.letters[i] else 0)
    && RowsAre(r, MatchOnRow(env, d, 0), MatchOnRow(env, d, 1), MatchOnRow(env, d, 2))
  }

  lemma ScreenOfWords(env: Env, t: Term)
    requires Inv(env, t) && t.state == WORDS && ShortWords(env)
    ensures var r, ms, k := ReportOf(env, t), Matches(env.words, Prefix(t.entry)), t.entry.candidate;
      && RowsAre(r, RowText(env, ms, k), RowText(env, ms, k + 1), RowText(env, ms, k + 2))
      && forall j :: 0 <= j < 16 ==> r[j] == Header(t)[j]
  {
    HeaderIsBlank(t);
    var ms, k := Matches(env.words, Prefix(t.entry)), t.entry.candidate;
    ThreeRows(env, Header(t), ms, k, 3);
    var s: seq<byte> := PutWords(env, Header(t), ms, k, 3);
    RowStays(s, s[REPORT - 1 := 1], 0, RowText(env, ms, k));
    RowStays(s, s[REPORT - 1 := 1], 1, RowText(env, ms, k + 1));
    RowStays(s, s[REPORT - 1 := 1], 2, RowText(env, ms, k + 2));
  }

  lemma LettersInPlace(prefix: seq<byte>, n: nat, letters: seq<byte>)
    requires |prefix| == 4 && n <= 4 && prefix[..n] == letters && ZeroFrom(prefix, n)
    ensures forall i :: 0 <= i < 4 ==> prefix[i] == if i < |letters| then letters[i] else 0
  {
    forall i | 0 <= i < n ensures prefix[i] == letters[i] { assert prefix[..n][i] == letters[i]; }
  }

  lemma EntryOnScreen(env: Env, d: T.Draft, t: Term)
    requires Inv(env, t) && ShortWords(env) && d.phase == T.Spelling && T.Agrees(env, d, t)
    ensures WordScreen(env, ReportOf(env, t), d)
  {
    ScreenOfWords(env, t);
    HeaderShows(t);
    LettersInPlace(t.entry.prefix, t.entry.prefixLen, d.letters);
    RowsMatch(env, d);
    assert Prefix(t.entry) == d.letters;
  }

  lemma RowsMatch(env: Env, d: T.Draft)
    ensures var ms, k := Matches(env.words, d.letters), d.marked;
      && RowText(env, ms, k) == MatchOnRow(env, d, 0)
      && RowText(env, ms, k + 1) == MatchOnRow(env, d, 1) && RowText(env, ms, k + 2) == MatchOnRow(env, d, 2)
  {
    RowIsMatch(env, d, 0);
    RowIsMatch(env, d, 1);
    RowIsMatch(env, d, 2);
  }

  /**
   From any state and after any keys: while words are spelled the screen tells how many words there are
   to be and how many there are, shows the letters typed, and lists the match that CHOOSE would take
   and the two behind it.
   */
  lemma WordScreenShowsMatches(env: Env, t: Term, ps: seq<T.Press>)
    requires Inv(env, t) && Sound(env) && ShortWords(env) && T.Drafted(env, ps).phase == T.Spelling
    ensures WordScreen(env, ReportOf(env, T.Operated(env, t, ps)), T.Drafted(env, ps))
  {
    T.TypingIsFollowed(env, t, ps);
    EntryOnScreen(env, T.Drafted(env, ps), T.Operated(env, t, ps));
  }

  lemma HeaderShows(t: Term)
    requires |t.entry.prefix| == PREFIX && t.state < 256 && t.entry.count < 256 && t.entry.slot < 256
    requires t.entry.prefixLen < 256 && t.entry.passLen < 256
    ensures var h := Header(t);
      && h[1] == t.state && h[2] == t.entry.count && h[3] == t.entry.slot && h[4] == t.entry.prefixLen
      && h[5] == t.entry.passLen && h[6] == (if t.network == P.Bitcoin then 1 else 0)
      && forall i :: 0 <= i < 4 ==> h[10 + i] == t.entry.prefix[i]
  {
  }

  // ----- files, identities, messages -----

  /** The bytes of a field are the text, as far as it goes, and zeros. */
  predicate Shows(r: seq<byte>, from: nat, to: nat, text: seq<byte>)
    requires from <= to <= |r|
  {
    forall i :: from <= i < to ==> r[i] == if i - from < |text| then text[i - from] else 0
  }

  lemma PutShows(r: seq<byte>, from: nat, to: nat, text: seq<byte>)
    requires from <= to <= |r| && forall i :: from <= i < to ==> r[i] == 0
    ensures Shows(Put(r, from, to, text), from, to, text)
    ensures forall i :: 0 <= i < |r| && !(from <= i < to) ==> Put(r, from, to, text)[i] == r[i]
  {
  }

  /** Printable characters as they are, a question mark for any other. */
  function Visible(c: scalar): byte { if 32 <= c < 127 then c else 63 }

  /** The sixty characters of the name on this page, and zeros behind the end of the name. */
  predicate NamePart(r: seq<byte>, name: seq<scalar>, page: nat)
    requires |r| == REPORT
  {
    && (forall k :: 60 * page <= k < 60 * page + 60 && k < |name| ==> r[16 + (k - 60 * page)] == Visible(name[k]))
    && forall i :: 16 <= i < 76 && i - 16 >= |name| - 60 * page ==> r[i] == 0
  }

  /** The screen of a file: which one of how many, which part of its name, its short name and size. */
  predicate FileScreen(r: seq<byte>, t: Term)
    requires |r| == REPORT && t.fileIndex < |t.files|
  {
    var f := t.files[t.fileIndex];
    && r[8] == t.fileIndex && r[9] == |t.files| && r[10] == t.namePage
    && r[11] == (if f.name == [] then 1 else (|f.name| + 59) / 60)
    && NamePart(r, f.name, t.namePage)
    && Shows(r, 80, 92, Printable(D.AliasFrom(f.shortName, 0))) && Shows(r, 96, 108, Decimal(f.size))
  }

  lemma NameOnPage(r: seq<byte>, name: seq<scalar>, page: nat)
    requires |r| == REPORT && forall i :: 16 <= i < 76 ==> r[i] == 0
    ensures var from := Min(page * NAME_PAGE, |name|);
      var to := Min(from + NAME_PAGE, |name|);
      NamePart(Put(r, 16, 76, Printable(name[from..to])), name, page)
  {
    var from := Min(page * NAME_PAGE, |name|);
    var to := Min(from + NAME_PAGE, |name|);
    PutShows(r, 16, 76, Printable(name[from..to]));
    forall k | 60 * page <= k < 60 * page + 60 && k < |name| ensures name[k] == name[from..to][k - from] {}
  }

  lemma NamePartStays(r: seq<byte>, r': seq<byte>, name: seq<scalar>, page: nat)
    requires |r| == |r'| == REPORT && NamePart(r, name, page) && forall i :: 16 <= i < 76 ==> r'[i] == r[i]
    ensures NamePart(r', name, page)
  {
  }

  /** The three texts of the screen. */
  function FileTexts(r: seq<byte>, f: N.File, part: seq<scalar>): (r': seq<byte>)
    requires |r| == REPORT
    ensures |r'| == REPORT
  {
    Put(Put(Put(r, 16, 76, Printable(part)), 80, 92, Printable(D.AliasFrom(f.shortName, 0))), 96, 108, Decimal(f.size))
  }

  lemma FileTextsShow(r: seq<byte>, f: N.File, part: seq<scalar>, page: nat)
    requires |r| == REPORT && forall i :: 16 <= i < REPORT ==> r[i] == 0
    requires var from := Min(page * NAME_PAGE, |f.name|); part == f.name[from..Min(from + NAME_PAGE, |f.name|)]
    ensures var r' := FileTexts(r, f, part);
      && NamePart(r', f.name, page)
      && Shows(r', 80, 92, Printable(D.AliasFrom(f.shortName, 0))) && Shows(r', 96, 108, Decimal(f.size))
      && forall i :: 0 <= i < 16 ==> r'[i] == r[i]
  {
    var r2 := Put(r, 16, 76, Printable(part));
    var r3 := Put(r2, 80, 92, Printable(D.AliasFrom(f.shortName, 0)));
    NameOnPage(r, f.name, page);
    PutShows(r, 16, 76, Printable(part));
    PutShows(r2, 80, 92, Printable(D.AliasFrom(f.shortName, 0)));
    PutShows(r3, 96, 108, Decimal(f.size));
    NamePartStays(r2, FileTexts(r, f, part), f.name, page);
  }

  /** The screen is made of the numbers and the texts. */
  lemma FileIsTexts(t: Term, h: seq<byte>)
    requires |h| == REPORT && t.fileIndex < |t.files|
    ensures var f := t.files[t.fileIndex];
      var from := Min(t.namePage * NAME_PAGE, |f.name|);
      PutFile(t, h) == FileTexts(
        h[8 := t.fileIndex % 256][9 := |t.files| % 256][10 := t.namePage % 256][11 := Pages(f) % 256],
        f, f.name[from..Min(from + NAME_PAGE, |f.name|)])
  {
  }

  lemma PageCount(n: nat)
    requires n <= 255
    ensures (if n == 0 then 1 else (n + NAME_PAGE - 1) / NAME_PAGE) == (if n == 0 then 1 else (n + 59) / 60) <= 5
  {
  }

  lemma FileFields(t: Term, h: seq<byte>)
    requires BlankFrom16(h) && t.fileIndex < |t.files| <= 32
    requires |t.files[t.fileIndex].name| <= 255 && t.namePage < Pages(t.files[t.fileIndex])
    ensures FileScreen(PutFile(t, h)[REPORT - 1 := 1], t)
  {
    var f := t.files[t.fileIndex];
    var from := Min(t.namePage * NAME_PAGE, |f.name|);
    var r1 := h[8 := t.fileIndex % 256][9 := |t.files| % 256][10 := t.namePage % 256][11 := Pages(f) % 256];
    var part := f.name[from..Min(from + NAME_PAGE, |f.name|)];
    PageCount(|f.name|);
    FileTextsShow(r1, f, part, t.namePage);
    FileIsTexts(t, h);
    NamePartStays(FileTexts(r1, f, part), PutFile(t, h)[REPORT - 1 := 1], f.name, t.namePage);
  }

  /** Every page of a file's name shows its part of it, so that no character of the name is kept from the player. */
  lemma FileIsShown(env: Env, t: Term)
    requires Inv(env, t) && t.state == PSBT_FILES && |t.files[t.fileIndex].name| <= 255
    ensures ReportOf(env, t)[1] == PSBT_FILES && FileScreen(ReportOf(env, t), t)
  {
    HeaderIsBlank(t);
    FileFields(t, Header(t));
    FileKeepsState(t, Header(t));
  }

  lemma FileKeepsState(t: Term, h: seq<byte>)
    requires |h| == REPORT && t.fileIndex < |t.files|
    ensures PutFile(t, h)[1] == h[1]
  {
  }

  /** A recovered identity is on screen as the libraries gave it: fingerprint, and first address in full. */
  lemma IdentityIsShown(env: Env, t: Term, seed: seq<byte>, network: P.Network)
    requires Inv(env, t) && T.Opens(env, t, seed, network)
    ensures var r, (fp, address) := ReportOf(env, t), env.identity(P.Session(seed, network, false)).value;
      r[1] == IDENTITY && Shows(r, 48, 56, fp) && Shows(r, 64, 108, address)
  {
    HeaderIsBlank(t);
    var h := Header(t);
    var r1 := Put(h, 48, 56, t.identity[..8]);
    PutShows(h, 48, 56, t.identity[..8]);
    PutShows(r1, 64, 108, t.identity[8..]);
    var (fp, address) := env.identity(P.Session(seed, network, false)).value;
    forall i | 0 <= i < |address| ensures t.identity[8 + i] == address[i] {
      assert t.identity[8..8 + |address|][i] == address[i];
    }
    assert ReportOf(env, t) == Put(r1, 64, 108, t.identity[8..])[REPORT - 1 := 1];
  }

  /** An error and a saved file say what they have to say. */
  lemma MessageIsShown(env: Env, t: Term)
    requires Inv(env, t) && (t.state == PSBT_ERROR || t.state == PSBT_SAVED)
    ensures ReportOf(env, t)[1] == t.state && Shows(ReportOf(env, t), 16, 64, MessageText(t.message))
  {
    HeaderIsBlank(t);
    PutShows(Header(t), 16, 64, MessageText(t.message));
    assert ReportOf(env, t) == Put(Header(t), 16, 64, MessageText(t.message))[REPORT - 1 := 1];
  }

  // ----- what no screen shows -----

  /** Alike but for the words chosen, the characters of the passphrase and the seed. */
  predicate SecretsAside(t: Term, u: Term) {
    u == t.(entry := t.entry.(words := u.entry.words, pass := u.entry.pass), seed := u.seed)
  }

  /** No screen tells words already chosen, characters of the passphrase or the seed. */
  lemma SecretsAreNotShown(env: Env, t: Term, u: Term)
    requires Inv(env, t) && Inv(env, u) && SecretsAside(t, u)
    ensures ReportOf(env, t) == ReportOf(env, u)
  {
    assert Header(t) == Header(u) && Prefix(t.entry) == Prefix(u.entry);
  }
}
