/**
 The scan of the root directory for files to sign (src/sd_psbt.rs, `list`): it drives the
 long-name parser and keeps at most 32 files. `FileAt` says for every directory entry, on its own,
 which file it contributes; the listing is exactly these, in the order of their names.
 */
module Directory {
  import opened Bits
  import opened Bytes
  import opened Utf16
  import opened LongName
  import opened LongNameRuns
  import opened NameOrder
  import opened ShortName

  const MAX_DIRECTORY_SLOTS := 4096
  const MAX_PSBT_FILES := 32
  const DELETED: byte := 0xe5
  const DOT: scalar := 46

  datatype ReadError = Volume | Directory | ListingLimit

  /** The root directory as it is read: with `broken`, reading on behind these entries fails. */
  datatype Root = Root(entries: seq<raw>, broken: bool)

  /** What the scan does with the parser for one directory entry. */
  function CallOf(r: raw): Call {
    if r[0] == DELETED then DoReset else if r[11] == LFN_ATTRIBUTE then DoSlot(r) else DoFinish(r)
  }

  function CallsOf(es: seq<raw>): (calls: seq<Call>)
    ensures |calls| == |es| && forall i :: 0 <= i < |es| ==> calls[i] == CallOf(es[i])
  {
    seq(|es|, i requires 0 <= i < |es| => CallOf(es[i]))
  }

  /** The directory ends at the first entry that starts with a zero byte. */
  function Live(es: seq<raw>): (n: nat)
    ensures n <= |es| && (forall i :: 0 <= i < n ==> es[i][0] != 0) && (n < |es| ==> es[n][0] == 0)
  {
    if es == [] || es[0][0] == 0 then 0 else 1 + Live(es[1..])
  }

  /** Neither a directory nor a volume label, and neither hidden nor a system file. */
  predicate PlainFile(r: raw) {
    !Masks(r[11], 16) && !Masks(r[11], 8) && !Masks(r[11], 2) && !Masks(r[11], 4)
  }

  /** The short name as it is displayed: no padding, and a dot before the extension. */
  function AliasFrom(short: seq<byte>, i: nat): seq<scalar>
    requires i <= |short|
    decreases |short| - i
  {
    if i == |short| then []
    else (if short[i] == 32 then [] else if i == 8 then [DOT, short[i]] else [short[i]]) + AliasFrom(short, i + 1)
  }

  function Alias(r: raw): seq<scalar> { AliasFrom(r[..11], 0) }

  function AfterLastDot(s: seq<scalar>): seq<scalar> {
    if s == [] || s[|s| - 1] == DOT then [] else AfterLastDot(s[..|s| - 1]) + [s[|s| - 1]]
  }

  function Lower(c: scalar): scalar { if 65 <= c <= 90 then c + 32 else c }

  function Lowered(s: seq<scalar>): seq<scalar> { seq(|s|, i requires 0 <= i < |s| => Lower(s[i])) }

  /** Ends in .psbt or .psb in any case, and is not a dot file. */
  predicate Offered(name: seq<scalar>) {
    && (name == [] || name[0] != DOT)
    && (Lowered(AfterLastDot(name)) == [112, 115, 98, 116] || Lowered(AfterLastDot(name)) == [112, 115, 98])
  }

  function Size(r: raw): nat {
    (r[28] as int) + 0x100 * (r[29] as int) + 0x1_0000 * (r[30] as int) + 0x100_0000 * (r[31] as int)
  }

  function Display(long: Option<seq<scalar>>, r: raw): seq<scalar> {
    if long.Some? then long.value else Alias(r)
  }

  /** The file a short entry contributes when the parser returned `long` for it. */
  function Contribution(long: Option<seq<scalar>>, r: raw): Option<File> {
    if PlainFile(r) && Offered(Display(long, r)) then Some(File(Display(long, r), r[..11], Size(r))) else None
  }

  /** The long name the scan attaches to entry `k`. */
  function LongAt(es: seq<raw>, k: nat): Option<seq<scalar>>
    requires k < |es|
  {
    RunWf(New(), CallsOf(es[..k]));
    if CallOf(es[k]).DoFinish? then Finished(Run(New(), CallsOf(es[..k])), es[k]) else None
  }

  function FileAt(es: seq<raw>, k: nat): Option<File>
    requires k < |es|
  {
    if CallOf(es[k]).DoFinish? then Contribution(LongAt(es, k), es[k]) else None
  }

  /** The files of the first `n` entries, in directory order. */
  function Files(es: seq<raw>, n: nat): (files: seq<File>)
    requires n <= |es|
  {
    if n == 0 then [] else Files(es, n - 1) + match FileAt(es, n - 1) case Some(f) => [f] case None => []
  }

  lemma {:induction false} FilesGrow(es: seq<raw>, m: nat, n: nat)
    requires m <= n <= |es|
    ensures |Files(es, m)| <= |Files(es, n)|
  {
    if m < n { FilesGrow(es, m, n - 1); }
  }

  /** The files of the whole directory, unless there are too many. */
  function Scanned(es: seq<raw>): Option<seq<File>> {
    var n := Live(es);
    if n > MAX_DIRECTORY_SLOTS || |Files(es, n)| > MAX_PSBT_FILES then None else Some(Files(es, n))
  }

  function Listing(root: Result<Root, ReadError>): Result<seq<File>, ReadError> {
    match root
    case Err(e) => Err(e)
    case Ok(Root(es, broken)) =>
      if Scanned(es).None? then Err(ListingLimit)
      else if broken && Live(es) == |es| then Err(ReadError.Directory)
      else Ok(Sorted(Scanned(es).value))
  }

  lemma CallsOfNext(es: seq<raw>, k: nat)
    requires k < |es|
    ensures CallsOf(es[..k + 1]) == CallsOf(es[..k]) + [CallOf(es[k])]
    ensures Run(New(), CallsOf(es[..k + 1])) == Applied(Run(New(), CallsOf(es[..k])), CallOf(es[k]))
  {
    var calls := CallsOf(es[..k + 1]);
    assert calls[..k] == CallsOf(es[..k]);
  }

  /** What one entry gives when it is met in this state of the parser. */
  function Visited(p: Parser, r: raw): Option<File>
    requires Wf(p)
  {
    if CallOf(r).DoFinish? then Contribution(Finished(p, r), r) else None
  }

  lemma VisitedFile(es: seq<raw>, k: nat)
    requires k < |es|
    ensures Wf(Run(New(), CallsOf(es[..k])))
    ensures FileAt(es, k) == Visited(Run(New(), CallsOf(es[..k])), es[k])
  {
    RunWf(New(), CallsOf(es[..k]));
  }

  method Visit(name: LongNameParser, r: raw) returns (file: Option<File>)
    requires name.Valid()
    modifies name, name.units
    ensures name.Valid() && name.State() == Applied(old(name.State()), CallOf(r))
    ensures file == Visited(old(name.State()), r)
  {
    file := None;
    if r[0] == DELETED {
      name.ResetName();
    } else if r[11] == LFN_ATTRIBUTE {
      name.Slot(r);
    } else {
      var long := name.Finish(r);
      file := Contribution(long, r);
    }
  }

  /** None of the first `k` entries marks the end. */
  predicate AllLive(es: seq<raw>, k: nat) {
    k <= |es| && forall i :: 0 <= i < k ==> es[i][0] != 0
  }

  lemma LiveFrom(es: seq<raw>, k: nat)
    requires AllLive(es, k)
    ensures k <= Live(es) && (k == |es| || es[k][0] == 0 ==> k == Live(es))
  {
  }

  /** The first `k` entries have been met: parser and files are where they belong. */
  ghost predicate Met(es: seq<raw>, k: nat, p: Parser, files: seq<File>) {
    k <= |es| && p == Run(New(), CallsOf(es[..k])) && files == Files(es, k)
  }

  function WithFile(files: seq<File>, file: Option<File>): seq<File> {
    match file case Some(f) => files + [f] case None => files
  }

  lemma FilesNext(es: seq<raw>, k: nat)
    requires k < |es|
    ensures Files(es, k + 1) == WithFile(Files(es, k), FileAt(es, k))
  {
  }

  lemma MetNext(es: seq<raw>, k: nat, p: Parser, files: seq<File>)
    requires Met(es, k, p, files) && k < |es|
    ensures Wf(p) && |p.units| == UNITS
    ensures Met(es, k + 1, Applied(p, CallOf(es[k])), WithFile(files, Visited(p, es[k])))
  {
    CallsOfNext(es, k);
    VisitedFile(es, k);
    FilesNext(es, k);
  }

  lemma TooManyFiles(es: seq<raw>, k: nat, p: Parser, files: seq<File>)
    requires AllLive(es, k) && Met(es, k, p, files) && |files| > MAX_PSBT_FILES
    ensures Scanned(es).None?
  {
    LiveFrom(es, k);
    FilesGrow(es, k, Live(es));
  }

  lemma TooManySlots(es: seq<raw>, k: nat)
    requires AllLive(es, k) && k > MAX_DIRECTORY_SLOTS
    ensures Scanned(es).None?
  {
    LiveFrom(es, k);
  }

  lemma AllMet(es: seq<raw>, k: nat, p: Parser, files: seq<File>)
    requires AllLive(es, k) && (k == |es| || es[k][0] == 0) && Met(es, k, p, files)
    requires k <= MAX_DIRECTORY_SLOTS && |files| <= MAX_PSBT_FILES
    ensures Scanned(es) == Some(files) && Live(es) == k
  {
    LiveFrom(es, k);
  }

  /** The loop over the entries; `ended` tells that no entry marked the end. */
  method Scan(es: seq<raw>) returns (found: Option<seq<File>>, ended: bool)
    ensures found == Scanned(es)
    ensures found.Some? ==> ended == (Live(es) == |es|)
  {
    var files: seq<File> := [];
    var name := new LongNameParser();
    var k := 0;
    assert es[..0] == [];
    while k < |es| && es[k][0] != 0
      invariant AllLive(es, k) && k <= MAX_DIRECTORY_SLOTS && |files| <= MAX_PSBT_FILES
      invariant fresh(name) && fresh(name.units) && name.Valid()
      invariant Met(es, k, name.State(), files)
      decreases |es| - k
    {
      if k + 1 > MAX_DIRECTORY_SLOTS {
        TooManySlots(es, k + 1);
        return None, false;
      }
      MetNext(es, k, name.State(), files);
      var file := Visit(name, es[k]);
      k := k + 1;
      if file.Some? {
        if |files| == MAX_PSBT_FILES {
          TooManyFiles(es, k, name.State(), files + [file.value]);
          return None, false;
        }
        files := files + [file.value];
      }
    }
    AllMet(es, k, name.State(), files);
    return Some(files), k == |es|;
  }

  /** Opening the volume or the directory fails with the error it is given. */
  method List(root: Result<Root, ReadError>) returns (listing: Result<seq<File>, ReadError>)
    ensures listing == Listing(root)
  {
    if root.Err? {
      return Err(root.error);
    }
    var files, ended := Scan(root.value.entries);
    if root.value.broken && ended && files.Some? {
      return Err(ReadError.Directory);
    }
    if files.None? {
      return Err(ListingLimit);
    }
    return Ok(Sorted(files.value));
  }

  // ----- what an entry stands for -----

  /** Without its padding. */
  function Unpadded(s: seq<byte>): seq<byte> {
    if s == [] then [] else (if s[0] == 32 then [] else [s[0]]) + Unpadded(s[1..])
  }

  /** The alias is the base of eight characters and, behind a dot, the extension of three. */
  lemma {:induction false} AliasBehind(short: seq<byte>, i: nat)
    requires 9 <= i <= |short|
    ensures AliasFrom(short, i) == Unpadded(short[i..])
    decreases |short| - i
  {
    if i < |short| {
      AliasBehind(short, i + 1);
      assert short[i..][0] == short[i] && short[i..][1..] == short[i + 1..];
    }
  }

  lemma {:induction false} AliasBase(short: seq<byte>, i: nat, base: nat)
    requires i <= base == 8 <= |short|
    ensures AliasFrom(short, i) == Unpadded(short[i..base]) + AliasFrom(short, base)
    decreases base - i
  {
    if i < base {
      AliasBase(short, i + 1, base);
      assert short[i..base][0] == short[i] && short[i..base][1..] == short[i + 1..base];
    }
  }

  lemma AliasDot(short: seq<byte>, base: nat)
    requires base == 8 < |short|
    ensures AliasFrom(short, base)
         == (if short[base] == 32 then [] else [DOT, short[base]]) + AliasFrom(short, base + 1)
  {
  }

  lemma AliasOf(short: seq<byte>, start: nat, base: nat)
    requires start == 0 && base == 8 && |short| == 11
    ensures AliasFrom(short, start)
         == Unpadded(short[..8]) + (if short[8] == 32 then [] else [DOT, short[8]]) + Unpadded(short[9..])
  {
    AliasBase(short, start, base);
    AliasDot(short, base);
    AliasBehind(short, base + 1);
    assert short[start..base] == short[..8];
  }

  lemma AliasIs(r: raw)
    ensures Alias(r) == Unpadded(r[..8]) + (if r[8] == 32 then [] else [DOT, r[8]]) + Unpadded(r[9..11])
  {
    var short: seq<byte> := r[..11];
    AliasOf(short, 0, 8);
    assert short[..8] == r[..8] && short[9..] == r[9..11];
  }

  /** Neither directory nor volume label, neither hidden nor system, by the attribute bits 4, 3, 1 and 2. */
  lemma PlainFileIff(r: raw)
    ensures PlainFile(r) <==> !Bit(r[11], 4) && !Bit(r[11], 3) && !Bit(r[11], 1) && !Bit(r[11], 2)
  {
    Pow2Values();
    MasksBit(r[11], 4);
    MasksBit(r[11], 3);
    MasksBit(r[11], 1);
    MasksBit(r[11], 2);
  }

  /** The size is the little-endian number in the last four bytes. */
  lemma SizeIsLittleEndian(r: raw)
    ensures Size(r) == FromLittleEndian(r[28..32])
  {
    var t := r[28..32];
    assert FromLittleEndian(t[4..]) == 0;
    BytesNext(t, 3);
    BytesNext(t, 2);
    BytesNext(t, 1);
    BytesNext(t, 0);
  }

  lemma BytesNext(t: seq<byte>, i: nat)
    requires i < |t|
    ensures FromLittleEndian(t[i..]) == t[i] + 256 * FromLittleEndian(t[i + 1..])
  {
    assert t[i..][1..] == t[i + 1..];
  }

  /** Small letters and capitals alike. */
  predicate Reads(s: seq<scalar>, small: seq<scalar>) {
    |s| == |small| && forall i :: 0 <= i < |s| ==> s[i] == small[i] || (s[i] as int) + 32 == small[i]
  }

  /** The last dot is right before position `at`, or there is none and `at` is the start. */
  ghost predicate ExtensionAt(name: seq<scalar>, at: nat) {
    at <= |name| && DOT !in name[at..] && (at == 0 || name[at - 1] == DOT)
  }

  ghost predicate SignableExtension(ext: seq<scalar>) {
    Reads(ext, [112, 115, 98, 116]) || Reads(ext, [112, 115, 98])
  }

  lemma {:induction false} AfterLastDotIs(name: seq<scalar>, at: nat)
    requires ExtensionAt(name, at)
    ensures AfterLastDot(name) == name[at..]
  {
    if name != [] {
      var n := |name| - 1;
      ExtensionEnds(name, at);
      if name[n] != DOT {
        assert name[at..] == name[..n][at..] + [name[n]];
        AfterLastDotIs(name[..n], at);
      }
    }
  }

  lemma ExtensionEnds(name: seq<scalar>, at: nat)
    requires ExtensionAt(name, at) && name != []
    ensures at == |name| <==> name[|name| - 1] == DOT
  {
    if at < |name| { assert name[at..][|name| - 1 - at] == name[|name| - 1]; }
  }

  lemma LoweredIs(ext: seq<scalar>, small: seq<scalar>)
    requires forall c :: c in small ==> 97 <= c <= 122
    ensures Lowered(ext) == small <==> Reads(ext, small)
  {
    if Lowered(ext) == small {
      forall i | 0 <= i < |ext| ensures ext[i] == small[i] || (ext[i] as int) + 32 == small[i] {
        assert Lowered(ext)[i] == small[i];
      }
    }
    if Reads(ext, small) {
      forall i | 0 <= i < |ext| ensures Lowered(ext)[i] == small[i] {
        assert small[i] in small;
      }
    }
  }

  /** Offered is every name that is no dot file and ends in psbt or psb, in any case, behind its last dot. */
  lemma OfferedIff(name: seq<scalar>, at: nat)
    requires ExtensionAt(name, at)
    ensures Offered(name) <==> !(name != [] && name[0] == DOT) && SignableExtension(name[at..])
  {
    AfterLastDotIs(name, at);
    LoweredIs(name[at..], [112, 115, 98, 116]);
    LoweredIs(name[at..], [112, 115, 98]);
  }

  lemma {:induction false} ExtensionExists(name: seq<scalar>) returns (at: nat)
    ensures ExtensionAt(name, at)
  {
    if name == [] || name[|name| - 1] == DOT {
      at := |name|;
    } else {
      at := ExtensionExists(name[..|name| - 1]);
      assert name[at..] == name[..|name| - 1][at..] + [name[|name| - 1]];
    }
  }

  /** What a file in the listing tells about its short entry, and which entries are listed. */
  lemma ContributionIff(long: Option<seq<scalar>>, r: raw, f: File, at: nat)
    requires ExtensionAt(f.name, at)
    ensures Contribution(long, r) == Some(f) <==>
      && f.name == (if long.Some? then long.value
                    else Unpadded(r[..8]) + (if r[8] == 32 then [] else [DOT, r[8]]) + Unpadded(r[9..11]))
      && f.shortName == r[..11] && f.size == FromLittleEndian(r[28..32])
      && !Bit(r[11], 4) && !Bit(r[11], 3) && !Bit(r[11], 1) && !Bit(r[11], 2)
      && !(f.name != [] && f.name[0] == DOT) && SignableExtension(f.name[at..])
  {
    AliasIs(r);
    PlainFileIff(r);
    SizeIsLittleEndian(r);
    OfferedIff(f.name, at);
  }

  // ----- what the listing is -----

  /** Reading ends behind these entries: at a zero byte, or at the end of a directory that could be read. */
  predicate EndsAt(es: seq<raw>, broken: bool, n: nat) {
    && n <= |es| && (forall i :: 0 <= i < n ==> es[i][0] != 0)
    && if n < |es| then es[n][0] == 0 else !broken
  }

  /**
   Exactly what is listed: the root directory could be read up to its end within 4096 entries, at most
   32 of them contribute a file, and the listing is their stable sort by name.
   */
  lemma ListingIff(es: seq<raw>, broken: bool, listing: seq<File>)
    ensures Listing(Ok(Root(es, broken))) == Ok(listing)
       <==> exists n: nat :: EndsAt(es, broken, n) && n <= 4096 && |Files(es, n)| <= 32
                             && StableSort(Files(es, n), listing)
  {
    if Listing(Ok(Root(es, broken))) == Ok(listing) {
      SortIsUnique(Files(es, Live(es)), listing);
      assert EndsAt(es, broken, Live(es));
    }
    if n: nat :| EndsAt(es, broken, n) && n <= 4096 && |Files(es, n)| <= 32 && StableSort(Files(es, n), listing) {
      LiveFrom(es, n);
      SortIsUnique(Files(es, n), listing);
    }
  }

  /** A listing loses no file, so that it has at most 32. */
  lemma ListingIsShort(root: Result<Root, ReadError>)
    ensures Listing(root).Ok? ==> |Listing(root).value| <= 32
  {
    if Listing(root).Ok? {
      var files := Scanned(root.value.entries).value;
      SortedIsStable(files);
      assert |multiset(Sorted(files))| == |multiset(files)|;
    }
  }

  /** Deleted entries and slots contribute nothing, every other one what its long name and itself say. */
  lemma FileAtIff(es: seq<raw>, k: nat, f: File)
    requires k < |es|
    ensures FileAt(es, k) == Some(f)
       <==> es[k][0] != 0xE5 && es[k][11] != 0x0F && Contribution(LongAt(es, k), es[k]) == Some(f)
  {
  }

  // ----- long names stay with their files -----

  /**
   In the scan, a file gets the long name `s` if and only if the entries right before its short
   entry are a whole chain of slots with this short entry's checksum that spells `s`.
   */
  lemma LongNameIff(es: seq<raw>, k: nat, s: seq<scalar>)
    requires k < |es| && CallOf(es[k]).DoFinish?
    ensures LongAt(es, k) == Some(s)
       <==> exists from: nat, sum: byte ::
              from <= k && FatSum(es[k][..11], sum) && Delivers(CallsOf(es[from..k]), sum, s)
  {
    var calls := CallsOf(es[..k]);
    FinishIff(calls, es[k], s);
    forall from: nat | from <= k
      ensures CallsOf(es[from..k]) == calls[from..] && EndsWith(calls, CallsOf(es[from..k]))
    {
      assert CallsOf(es[from..k]) == calls[from..];
    }
    if LongAt(es, k) == Some(s) {
      var tail, sum :| EndsWith(calls, tail) && FatSum(es[k][..11], sum) && Delivers(tail, sum, s);
      assert tail == CallsOf(es[k - |tail|..k]);
    }
  }

  /** The slots of one file lie strictly between the previous short entry and its own. */
  lemma SlotsAreNotShared(es: seq<raw>, i: nat, k: nat, from: nat, sum: byte, s: seq<scalar>)
    requires i < k < |es| && CallOf(es[i]).DoFinish? && from <= k
    requires Delivers(CallsOf(es[from..k]), sum, s)
    ensures i < from
  {
    var calls := CallsOf(es[from..k]);
    forall j | from <= j < k ensures CallOf(es[j]).DoSlot? {
      assert calls[j - from] == CallOf(es[j]);
      assert calls[j - from] in calls;
    }
  }

  function EncodedEntries(name: seq<word>, sum: byte): (es: seq<raw>)
    requires 1 <= |name| <= MAX_NAME
  {
    seq(SlotCount(name), j requires 0 <= j < SlotCount(name) => EncodedSlot(name, sum, j))
  }

  /**
   Whatever precedes them in the directory: the slots of a name and then its short entry are listed
   under that name, if it is well-formed UTF-16, and under the alias otherwise.
   */
  lemma EncodedEntriesAreListed(before: seq<raw>, name: seq<word>, short: raw, sum: byte, k: nat)
    requires ValidName(name) && CallOf(short).DoFinish? && FatSum(short[..11], sum)
    requires k == |before| + SlotCount(name)
    ensures var es := before + EncodedEntries(name, sum) + [short];
      && k < |es|
      && LongAt(es, k) == Decode(name)
      && FileAt(es, k) == Contribution(Decode(name), short)
  {
    var slots := EncodedEntries(name, sum);
    var es := before + slots + [short];
    assert es[..k] == before + slots && es[k] == short;
    assert CallsOf(es[..k]) == CallsOf(before) + EncodedCalls(name, sum) by {
      forall j | 0 <= j < SlotCount(name) ensures CallOf(slots[j]) == EncodedCalls(name, sum)[j] {
        EncodedForm(name, sum, j);
      }
    }
    RunConcat(New(), CallsOf(before), EncodedCalls(name, sum));
    RoundTrip(Run(New(), CallsOf(before)), name, short, sum);
  }
}
