/**
 What the player sees: the 128-byte report of the terminal (signer-probe/src/terminal.rs, `report`),
 which the mailbox carries to the Game Boy.
 */
module Report {
  import opened Bytes
  import D = Directory
  import P = Psbt
  import B = CrystalBus
  import L = SeedLink
  import Q = Qr
  import S = SeedTerminal
  import opened Terminal
  import opened Utf16

  // ----- texts -----

  function Ascii(s: string): (b: seq<byte>)
    ensures |b| == |s|
  {
    seq(|s|, i requires 0 <= i < |s| => if s[i] as int < 128 then s[i] as int else 63)
  }

  /** A decimal number without leading zeros. */
  function Decimal(n: nat): (d: seq<byte>)
    ensures |d| >= 1
  {
    if n < 10 then [48 + n] else Decimal(n / 10) + [48 + n % 10]
  }

  /** What a decimal number stands for. */
  function Digits(d: seq<byte>): int {
    if d == [] then 0 else 10 * Digits(d[..|d| - 1]) + (d[|d| - 1] as int) - 48
  }

  lemma {:induction false} DecimalStandsFor(n: nat)
    ensures Digits(Decimal(n)) == n
  {
    var d := Decimal(n);
    if n >= 10 {
      DecimalStandsFor(n / 10);
      assert d[..|d| - 1] == Decimal(n / 10);
    } else {
      assert d[..0] == [];
    }
  }

  function Pow10(k: nat): nat { if k == 0 then 1 else 10 * Pow10(k - 1) }

  lemma {:induction false} DecimalFits(n: nat, k: nat)
    requires n < Pow10(k) && k > 0
    ensures |Decimal(n)| <= k
  {
    if n >= 10 { DecimalFits(n / 10, k - 1); }
  }

  function Sat(amount: nat): seq<byte> { Decimal(amount) + Ascii(" sat") }

  /** Printable ASCII as it is, everything else as a question mark. */
  function Printable(text: seq<scalar>): (b: seq<byte>)
    ensures |b| == |text|
  {
    seq(|text|, i requires 0 <= i < |text| => if 32 <= text[i] < 127 then text[i] else 63)
  }

  function MessageText(m: Message): seq<byte> {
    match m
    case Blank => []
    case Said(text) => Ascii(text)
    case Refused(failure) => Ascii(FailureText(failure))
  }

  function FailureText(f: P.Failure): string {
    match f
    case SizeLimit => "PSBT size: 1-4096"
    case InvalidPsbt => "Invalid binary PSBT"
    case Version => "Only PSBT version 0"
    case InputCount => "Need exactly 1 input"
    case OutputCount => "Need 1 or 2 outputs"
    case SeedLocked => "Seed locked"
    case SighashType => "Only SIGHASH_ALL"
    case AlreadySigned => "PSBT already signed"
    case MissingKeyOrigin => "Need input key origin"
    case NetworkMismatch => "Network mismatch    Check main/testnet"
    case FingerprintMismatch => "Fingerprint mismatchCheck Sparrow origin"
    case WrongPath => "Wrong account/path"
    case DerivationFailed => "Key derivation failed"
    case InputKeyMismatch => "Input key mismatch  Check seed + pass"
    case MissingUtxo => "Missing witness UTXO"
    case InputAmount => "Invalid input amount"
    case InputScript => "Input script mismatch"
    case PreviousTx => "Previous TX mismatch"
    case OutputAmount => "Invalid output amount"
    case NotSegwit => "Only Native SegWit"
    case Multisig => "No multisig support"
    case ChangeKey => "Change key mismatch"
    case Amounts => "Invalid amounts"
    case BadAddress => "Invalid address"
    case NegativeFee => "Negative fee"
    case FeeLimit => "Fee exceeds limit"
    case BadSighash => "Invalid sighash"
  }

  // ----- the report -----

  const REPORT := 128

  /** As much of the text as the field `from..to` takes. */
  function Put(r: seq<byte>, from: nat, to: nat, text: seq<byte>): (r': seq<byte>)
    requires from <= to <= |r|
    ensures |r'| == |r|
  {
    var n := Min(to - from, |text|);
    r[..from] + text[..n] + r[from + n..]
  }

  function Numbers(t: Term): (n: seq<byte>)
    ensures |n| == 6
  {
    [t.state % 256, t.entry.count % 256, t.entry.slot % 256, t.entry.prefixLen % 256, t.entry.passLen % 256,
     if t.network == P.Bitcoin then 1 else 0]
  }

  function Header(t: Term): (r: seq<byte>)
    requires |t.entry.prefix| == PREFIX
    ensures |r| == REPORT
  {
    Zeros(1) + Numbers(t) + Zeros(3) + t.entry.prefix + Zeros(REPORT - 14)
  }

  /** The candidate word of one row, if there is one. */
  function PutWord(env: Env, r: seq<byte>, ms: seq<nat>, i: nat, row: nat): (r': seq<byte>)
    requires |r| == REPORT && row < 3 && forall m :: m in ms ==> m < |env.words|
    ensures |r'| == REPORT
  {
    if i < |ms| then
      assert ms[i] in ms;
      Put(r, 16 + 9 * row, REPORT, env.words[ms[i]])
    else r
  }

  /** The candidate words from the selected one on, one a row. */
  function PutWords(env: Env, r: seq<byte>, ms: seq<nat>, candidate: nat, rows: nat): (r': seq<byte>)
    requires |r| == REPORT && rows <= 3 && forall m :: m in ms ==> m < |env.words|
    ensures |r'| == REPORT
  {
    if rows == 0 then r
    else PutWord(env, PutWords(env, r, ms, candidate, rows - 1), ms, candidate + rows - 1, rows - 1)
  }

  function PutFile(t: Term, r: seq<byte>): (r': seq<byte>)
    requires |r| == REPORT && t.fileIndex < |t.files|
    ensures |r'| == REPORT
  {
    var f := t.files[t.fileIndex];
    var from := Min(t.namePage * NAME_PAGE, |f.name|);
    var to := Min(from + NAME_PAGE, |f.name|);
    var r1 := r[8 := t.fileIndex % 256][9 := |t.files| % 256][10 := t.namePage % 256][11 := Pages(f) % 256];
    var r2 := Put(r1, 16, 76, Printable(f.name[from..to]));
    Put(Put(r2, 80, 92, Printable(D.AliasFrom(f.shortName, 0))), 96, 108, Decimal(f.size))
  }

  function PutOutput(r: seq<byte>, item: P.DisplayItem, page: nat): (r': seq<byte>)
    requires |r| == REPORT
    ensures |r'| == REPORT
  {
    var title := Ascii(if item.isChange then "Change" else "Output") + [32] + Decimal(page + 1);
    Put(Put(Put(r, 16, 36, title), 36, 56, Sat(item.amount)), 64, 108, Ascii(item.address))
  }

  function PutReview(t: Term, r: seq<byte>, review: P.Review): (r': seq<byte>)
    requires |r| == REPORT
    ensures |r'| == REPORT
  {
    var n := |review.outputs|;
    var r1 := r[8 := t.reviewPage % 256][9 := (n + 2) % 256];
    if t.reviewPage < n then PutOutput(r1, review.outputs[t.reviewPage], t.reviewPage)
    else if t.reviewPage == n then Put(Put(r1, 16, 36, Ascii("Transaction fee")), 36, 56, Sat(review.fee))
    else Put(r1[10 := 1], 16, 36, Ascii("Approve signing?"))
  }

  /** What the present screen adds to the header. */
  function Screen(env: Env, t: Term, r: seq<byte>): (r': seq<byte>)
    requires Inv(env, t) && |r| == REPORT
    ensures |r'| == REPORT
  {
    if t.state == WORDS then PutWords(env, r, Matches(env.words, Prefix(t.entry)), t.entry.candidate, 3)
    else if t.state == IDENTITY || t.state == ACTIVE then
      Put(Put(r, 48, 56, t.identity[..8]), 64, 108, t.identity[8..])
    else if t.state == QR_READY then r[64 := t.qrSize % 256][65 := t.qrSize / 256 % 256]
    else if t.state == PSBT_FILES then PutFile(t, r)
    else if t.state == PSBT_REVIEW && t.review.Some? then PutReview(t, r, t.review.value)
    else if t.state == PSBT_ERROR || t.state == PSBT_SAVED then Put(r, 16, 64, MessageText(t.message))
    else r
  }

  function ReportOf(env: Env, t: Term): (r: seq<byte>)
    requires Inv(env, t)
    ensures |r| == REPORT
  {
    Screen(env, t, Header(t))[REPORT - 1 := 1]
  }

  // ----- filling the buffer -----

  method PutText(r: array<byte>, from: nat, to: nat, text: seq<byte>)
    requires from <= to <= r.Length
    modifies r
    ensures r[..] == Put(old(r[..]), from, to, text)
  {
    var n := Min(to - from, |text|);
    forall i | from <= i < from + n { r[i] := text[i - from]; }
    assert r[..] == old(r[..from]) + text[..n] + old(r[from + n..]);
  }

  method FillHeader(t: S.SeedTerminal, r: array<byte>)
    requires t.Valid() && r.Length == REPORT && r[..] == Zeros(REPORT) && r != t.prefix
    modifies r
    ensures r[..] == Header(t.State())
  {
    FillNumbers(t, r);
    ghost var was: seq<byte> := r[..];
    forall i | 0 <= i < PREFIX { r[10 + i] := t.prefix[i]; }
    assert r[..] == was[..10] + t.prefix[..] + Zeros(REPORT - 14);
  }

  method FillNumbers(t: S.SeedTerminal, r: array<byte>)
    requires r.Length == REPORT && r[..] == Zeros(REPORT)
    modifies r
    ensures r[..] == Zeros(1) + Numbers(t.State()) + Zeros(REPORT - 7)
  {
    r[1] := t.state % 256;
    r[2] := t.count % 256;
    r[3] := t.slot % 256;
    r[4] := t.prefixLen % 256;
    r[5] := t.passLen % 256;
    r[6] := if t.network == P.Bitcoin then 1 else 0;
    assert r[..] == Zeros(1) + Numbers(t.State()) + Zeros(REPORT - 7);
  }

  method FillWord(env: Env, ms: seq<nat>, i: nat, row: nat, r: array<byte>)
    requires r.Length == REPORT && row < 3 && forall m :: m in ms ==> m < |env.words|
    modifies r
    ensures r[..] == PutWord(env, old(r[..]), ms, i, row)
  {
    if i < |ms| {
      assert ms[i] in ms;
      PutText(r, 16 + 9 * row, REPORT, env.words[ms[i]]);
    }
  }

  method FillWords(env: Env, ms: seq<nat>, candidate: nat, rows: nat, r: array<byte>)
    requires r.Length == REPORT && rows <= 3 && forall m :: m in ms ==> m < |env.words|
    modifies r
    ensures r[..] == PutWords(env, old(r[..]), ms, candidate, rows)
  {
    ghost var was: seq<byte> := r[..];
    var row := 0;
    while row < rows
      invariant 0 <= row <= rows && r[..] == PutWords(env, was, ms, candidate, row)
    {
      FillWord(env, ms, candidate + row, row, r);
      row := row + 1;
    }
  }

  method FillFile(t: S.SeedTerminal, r: array<byte>)
    requires t.Valid() && r.Length == REPORT && t.fileIndex < |t.files|
    requires r != t.prefix && r != t.pass && r != t.identity && r != t.qrBuffer
    modifies r
    ensures r[..] == PutFile(old(t.State()), old(r[..]))
  {
    var f := t.files[t.fileIndex];
    ghost var was: seq<byte> := r[..];
    r[8] := t.fileIndex % 256;
    r[9] := |t.files| % 256;
    r[10] := t.namePage % 256;
    r[11] := Pages(f) % 256;
    assert r[..] == was[8 := r[8]][9 := r[9]][10 := r[10]][11 := r[11]];
    var from := Min(t.namePage * NAME_PAGE, |f.name|);
    var to := Min(from + NAME_PAGE, |f.name|);
    PutText(r, 16, 76, Printable(f.name[from..to]));
    PutText(r, 80, 92, Printable(D.AliasFrom(f.shortName, 0)));
    PutText(r, 96, 108, Decimal(f.size));
  }

  method FillPage(page: nat, n: nat, r: array<byte>)
    requires r.Length == REPORT
    modifies r
    ensures r[..] == old(r[..])[8 := page % 256][9 := (n + 2) % 256]
  {
    r[8] := page % 256;
    r[9] := (n + 2) % 256;
  }

  method FillOutput(item: P.DisplayItem, page: nat, r: array<byte>)
    requires r.Length == REPORT
    modifies r
    ensures r[..] == PutOutput(old(r[..]), item, page)
  {
    PutText(r, 16, 36, Ascii(if item.isChange then "Change" else "Output") + [32] + Decimal(page + 1));
    PutText(r, 36, 56, Sat(item.amount));
    PutText(r, 64, 108, Ascii(item.address));
  }

  method FillReview(page: nat, review: P.Review, ghost t: Term, r: array<byte>)
    requires r.Length == REPORT && t.reviewPage == page
    modifies r
    ensures r[..] == PutReview(t, old(r[..]), review)
  {
    var n := |review.outputs|;
    FillPage(page, n, r);
    if page < n {
      FillOutput(review.outputs[page], page, r);
    } else if page == n {
      PutText(r, 16, 36, Ascii("Transaction fee"));
      PutText(r, 36, 56, Sat(review.fee));
    } else {
      ghost var before: seq<byte> := r[..];
      r[10] := 1;
      assert r[..] == before[10 := 1];
      PutText(r, 16, 36, Ascii("Approve signing?"));
    }
  }

  /** `report` */
  method MakeReport(env: Env, t: S.SeedTerminal) returns (report: array<byte>)
    requires t.Valid() && Inv(env, t.State())
    ensures fresh(report) && report[..] == ReportOf(env, t.State())
  {
    var r := new byte[REPORT](_ => 0);
    ghost var term := t.State();
    assert r[..] == Zeros(REPORT);
    FillHeader(t, r);
    FillScreen(env, t, r);
    assert t.State() == term;
    ghost var was: seq<byte> := r[..];
    r[REPORT - 1] := 1;
    assert r[..] == was[REPORT - 1 := 1];
    return r;
  }

  method FillScreen(env: Env, t: S.SeedTerminal, r: array<byte>)
    requires t.Valid() && Inv(env, t.State()) && r.Length == REPORT
    requires r != t.prefix && r != t.pass && r != t.identity && r != t.qrBuffer
    modifies r
    ensures r[..] == Screen(env, old(t.State()), old(r[..]))
  {
    if t.state == WORDS {
      assert t.prefix[..t.prefixLen] == Prefix(t.State().entry);
      FillWords(env, Matches(env.words, t.prefix[..t.prefixLen]), t.candidate, 3, r);
    } else if t.state == IDENTITY || t.state == ACTIVE {
      PutText(r, 48, 56, t.identity[..8]);
      PutText(r, 64, 108, t.identity[8..]);
      assert t.identity[..8] == t.State().identity[..8] && t.identity[8..] == t.State().identity[8..];
    } else if t.state == QR_READY {
      ghost var was: seq<byte> := r[..];
      r[64] := t.qrSize % 256;
      r[65] := t.qrSize / 256 % 256;
      assert r[..] == was[64 := r[64]][65 := r[65]];
    } else if t.state == PSBT_FILES {
      FillFile(t, r);
    } else if t.state == PSBT_REVIEW && t.review.Some? {
      FillReview(t.reviewPage, t.review.value, t.State(), r);
    } else if t.state == PSBT_ERROR || t.state == PSBT_SAVED {
      PutText(r, 16, 64, MessageText(t.message));
    }
  }

  // ----- what is on screen -----

  /** The field holds the whole text, followed by zeros. */
  predicate Holds(r: seq<byte>, from: nat, to: nat, text: seq<byte>)
    requires from <= to <= |r|
  {
    |text| <= to - from && r[from..to] == text + Zeros(to - from - |text|)
  }

  /** Blank from the ninth byte on, as far as a screen writes. */
  predicate BlankFrom16(r: seq<byte>) {
    |r| == REPORT && forall i :: 14 <= i < REPORT ==> r[i] == 0
  }

  lemma HeaderIsBlank(t: Term)
    requires |t.entry.prefix| == PREFIX
    ensures BlankFrom16(Header(t)) && Header(t)[1] == t.state % 256
  {
  }

  /** An amount of at most 21 million coins fits its field. */
  lemma SatFits(amount: nat)
    requires amount <= P.MAX_MONEY
    ensures |Sat(amount)| <= 20
  {
    Pow10Sixteen();
    DecimalFits(amount, 16);
  }

  lemma Pow10Sixteen()
    ensures Pow10(16) == 10_000_000_000_000_000
  {
    assert Pow10(4) == 10_000;
    assert Pow10(8) == 100_000_000;
    assert Pow10(12) == 1_000_000_000_000;
  }

  lemma PutHolds(r: seq<byte>, from: nat, to: nat, text: seq<byte>)
    requires from <= to <= |r| && |text| <= to - from && forall i :: from <= i < to ==> r[i] == 0
    ensures Holds(Put(r, from, to, text), from, to, text)
  {
    assert text[..|text|] == text;
  }

  lemma PutElsewhere(r: seq<byte>, from: nat, to: nat, text: seq<byte>, a: nat, b: nat)
    requires from <= to <= |r| && a <= b <= |r| && (b <= from || to <= a)
    ensures Put(r, from, to, text)[a..b] == r[a..b]
  {
  }

  /**
   The page of an output shows that output and no other: its amount in full, its address in full,
   its number, and how many pages there are.
   */
  lemma OutputPageShowsOutput(env: Env, t: Term)
    requires Inv(env, t) && t.state == PSBT_REVIEW && t.reviewPage < |t.review.value.outputs| <= 2
    requires var item := t.review.value.outputs[t.reviewPage];
      item.amount <= P.MAX_MONEY && |item.address| <= P.ADDRESS_BYTES
    ensures var r, item := ReportOf(env, t), t.review.value.outputs[t.reviewPage];
      && r[1] == PSBT_REVIEW && r[8] == t.reviewPage && r[9] == |t.review.value.outputs| + 2
      && Holds(r, 36, 56, Sat(item.amount)) && Holds(r, 64, 108, Ascii(item.address))
      && r[16..22] == Ascii(if item.isChange then "Change" else "Output")
  {
    HeaderIsBlank(t);
    OutputPageFields(t, t.review.value, Header(t));
    assert ReportOf(env, t) == PutReview(t, Header(t), t.review.value)[REPORT - 1 := 1];
  }

  lemma OutputPageFields(t: Term, review: P.Review, h: seq<byte>)
    requires BlankFrom16(h) && t.reviewPage < |review.outputs| <= 2
    requires var item := review.outputs[t.reviewPage]; item.amount <= P.MAX_MONEY && |item.address| <= P.ADDRESS_BYTES
    ensures var r, item := PutReview(t, h, review)[REPORT - 1 := 1], review.outputs[t.reviewPage];
      && r[1] == h[1] && r[8] == t.reviewPage && r[9] == |review.outputs| + 2
      && Holds(r, 36, 56, Sat(item.amount)) && Holds(r, 64, 108, Ascii(item.address))
      && r[16..22] == Ascii(if item.isChange then "Change" else "Output")
  {
    var item, n := review.outputs[t.reviewPage], |review.outputs|;
    var r1 := h[8 := t.reviewPage][9 := n + 2];
    OutputFields(r1, item, t.reviewPage);
    var r := PutOutput(r1, item, t.reviewPage);
    var r' := r[REPORT - 1 := 1];
    assert r'[36..56] == r[36..56] && r'[64..108] == r[64..108] && r'[16..22] == r[16..22];
    assert r[..16][1] == r[1] && r[..16][8] == r[8] && r[..16][9] == r[9];
  }

  lemma PutBegins(r: seq<byte>, from: nat, to: nat, head: seq<byte>, rest: seq<byte>)
    requires from + |head| <= to <= |r|
    ensures Put(r, from, to, head + rest)[from..from + |head|] == head
  {
    var text := head + rest;
    assert text[..Min(to - from, |text|)][..|head|] == head;
  }

  lemma PutLeavesRest(r: seq<byte>, from: nat, to: nat, text: seq<byte>)
    requires from <= to <= |r|
    ensures forall i :: to <= i < |r| ==> Put(r, from, to, text)[i] == r[i]
  {
  }

  lemma OutputFields(r: seq<byte>, item: P.DisplayItem, page: nat)
    requires BlankFrom16(r) && item.amount <= P.MAX_MONEY && |item.address| <= P.ADDRESS_BYTES
    ensures var r' := PutOutput(r, item, page);
      && r'[..16] == r[..16]
      && Holds(r', 36, 56, Sat(item.amount)) && Holds(r', 64, 108, Ascii(item.address))
      && r'[16..22] == Ascii(if item.isChange then "Change" else "Output")
  {
    var kind := Ascii(if item.isChange then "Change" else "Output");
    var title := kind + [32] + Decimal(page + 1);
    var r1 := Put(r, 16, 36, title);
    var r2 := Put(r1, 36, 56, Sat(item.amount));
    var r3 := Put(r2, 64, 108, Ascii(item.address));
    assert |kind| == 6;
    PutBegins(r, 16, 36, kind, [32] + Decimal(page + 1));
    assert title == kind + ([32] + Decimal(page + 1));
    PutLeavesRest(r, 16, 36, title);
    PutLeavesRest(r1, 36, 56, Sat(item.amount));
    SatFits(item.amount);
    PutHolds(r1, 36, 56, Sat(item.amount));
    PutHolds(r2, 64, 108, Ascii(item.address));
    PutElsewhere(r1, 36, 56, Sat(item.amount), 16, 22);
    PutElsewhere(r2, 64, 108, Ascii(item.address), 16, 22);
    PutElsewhere(r2, 64, 108, Ascii(item.address), 36, 56);
    PutElsewhere(r, 16, 36, title, 0, 16);
    PutElsewhere(r1, 36, 56, Sat(item.amount), 0, 16);
    PutElsewhere(r2, 64, 108, Ascii(item.address), 0, 16);
    assert r[..16] == r[0..16] && r3[..16] == r3[0..16];
  }

  /** The fee page says that it is the fee page and shows the fee in full. */
  lemma FeePageShowsFee(env: Env, t: Term)
    requires Inv(env, t) && t.state == PSBT_REVIEW && t.reviewPage == |t.review.value.outputs| <= 2
    requires t.review.value.fee <= P.MAX_MONEY
    ensures var r, n := ReportOf(env, t), |t.review.value.outputs|;
      && r[1] == PSBT_REVIEW && r[8] == n && r[9] == n + 2
      && Holds(r, 16, 36, Ascii("Transaction fee")) && Holds(r, 36, 56, Sat(t.review.value.fee))
  {
    HeaderIsBlank(t);
    var n := |t.review.value.outputs|;
    var r1 := Header(t)[8 := n][9 := n + 2];
    FeeFields(r1, t.review.value.fee);
    var r := Put(Put(r1, 16, 36, Ascii("Transaction fee")), 36, 56, Sat(t.review.value.fee));
    assert ReportOf(env, t) == r[REPORT - 1 := 1];
    assert ReportOf(env, t)[36..56] == r[36..56] && ReportOf(env, t)[16..36] == r[16..36];
    assert r[..16][1] == r[1] && r[..16][8] == r[8] && r[..16][9] == r[9];
  }

  lemma FeeFields(r: seq<byte>, fee: nat)
    requires BlankFrom16(r) && fee <= P.MAX_MONEY
    ensures var r' := Put(Put(r, 16, 36, Ascii("Transaction fee")), 36, 56, Sat(fee));
      r'[..16] == r[..16] && Holds(r', 16, 36, Ascii("Transaction fee")) && Holds(r', 36, 56, Sat(fee))
  {
    var title := Ascii("Transaction fee");
    var r1 := Put(r, 16, 36, title);
    SatFits(fee);
    PutHolds(r, 16, 36, title);
    PutHolds(r1, 36, 56, Sat(fee));
    PutElsewhere(r1, 36, 56, Sat(fee), 16, 36);
    PutElsewhere(r, 16, 36, title, 0, 16);
    PutElsewhere(r1, 36, 56, Sat(fee), 0, 16);
  }

  /** The list shows the short name that opening would read. */
  lemma FilePageShowsAlias(env: Env, t: Term)
    requires Inv(env, t) && t.state == PSBT_FILES && |t.files[t.fileIndex].shortName| == 11
    ensures Holds(ReportOf(env, t), 80, 92, Printable(D.AliasFrom(t.files[t.fileIndex].shortName, 0)))
  {
    var f := t.files[t.fileIndex];
    var alias := Printable(D.AliasFrom(f.shortName, 0));
    AliasFits(f.shortName, 0);
    HeaderIsBlank(t);
    var from := Min(t.namePage * NAME_PAGE, |f.name|);
    var to := Min(from + NAME_PAGE, |f.name|);
    var r1 := Header(t)[8 := t.fileIndex % 256][9 := |t.files| % 256][10 := t.namePage % 256][11 := Pages(f) % 256];
    var r2 := Put(r1, 16, 76, Printable(f.name[from..to]));
    PutElsewhere(r1, 16, 76, Printable(f.name[from..to]), 80, 92);
    assert forall i :: 80 <= i < 92 ==> r2[i] == r2[80..92][i - 80];
    PutHolds(r2, 80, 92, alias);
    var r3 := Put(r2, 80, 92, alias);
    PutElsewhere(r3, 96, 108, Decimal(f.size), 80, 92);
    assert ReportOf(env, t)[80..92] == Put(r3, 96, 108, Decimal(f.size))[80..92];
  }

  lemma {:induction false} AliasFits(short: seq<byte>, i: nat)
    requires i <= |short|
    ensures |D.AliasFrom(short, i)| <= |short| - i + if i <= 8 then 1 else 0
    decreases |short| - i
  {
    if i < |short| { AliasFits(short, i + 1); }
  }

  /** A ready QR code announces itself and its size, as the client expects. */
  lemma QrScreenAnnouncesSize(env: Env, t: Term)
    requires Inv(env, t) && t.state == QR_READY
    ensures ReportOf(env, t)[1] == QR_READY && ReportOf(env, t)[64] == t.qrSize
  {
    HeaderIsBlank(t);
    assert Screen(env, t, Header(t)) == Header(t)[64 := t.qrSize % 256][65 := t.qrSize / 256 % 256];
  }

  /**
   From the export command to the screen: the account's QR code, exported by the terminal, reported,
   finished into the mailbox, refetched page by page and painted, appears on the tiles as it was.
   */
  method ExportToScreen(
    env: Env, t: S.SeedTerminal, segwit: bool, request: L.Request,
    bus: B.Bus, rom: array<byte>, wram: array<byte>, tiles: array<byte>)
    requires t.Separate() && Sound(env) && Inv(env, t.State()) && t.state == ACTIVE && t.seed != null
    requires var code := env.qr(t.seed.State(), segwit);
      code.Some? && Q.MIN_MODULES <= code.value.0 <= Q.MAX_MODULES && code.value.0 % 2 == 1
    requires bus.Valid(rom) && bus.offset.Some? && bus.link.active == Some(request)
    requires wram.Length == L.FRAME_BYTES && tiles.Length == Q.TILE_BYTES && wram != tiles
    requires {rom, wram, tiles, bus.link.frame} !! {t.prefix, t.pass, t.identity, t.qrBuffer}
    requires rom != wram && rom != tiles && wram != bus.link.frame && tiles != bus.link.frame
    modifies t, t.words, t.prefix, t.pass, t.identity, t.qrBuffer
    modifies bus, bus.link, bus.link.frame, rom, wram, tiles
    ensures var code := env.qr(old(t.seed.State()), segwit).value; Q.Shows(tiles[..], code.0, code.1)
  {
    ghost var code := env.qr(t.seed.State(), segwit).value;
    t.Command(env, if segwit then EXPORT_SEGWIT else EXPORT_ACCOUNT);
    assert t.state == QR_READY && t.qrSize == code.0;
    ExportPacks(code.0, code.1);
    QrScreenAnnouncesSize(env, t.State());
    var text := MakeReport(env, t);
    Q.ShowQr(code.0, code.1, text[..], t.qrBuffer[..], request, bus, rom, wram, tiles);
  }

  lemma ExportPacks(size: nat, get: Q.Grid)
    requires 0 < size <= Q.MAX_MODULES
    ensures Q.Packs(Q.Packed(size, get, Q.Modules(size)), size, get)
  {
    Q.PackedPacks(size, get, Q.Modules(size));
  }
}
