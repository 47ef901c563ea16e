/**
 Every sequence of calls to the long-name parser: which calls make it return a name, and that an
 encoded name comes back.
 */
module LongNameRuns {
  import opened Bytes
  import opened Utf16
  import opened LongName
  import opened ShortName

  datatype Call = DoReset | DoSlot(raw: raw) | DoFinish(raw: raw)

  function Applied(p: Parser, c: Call): (p': Parser)
    requires |p.units| == UNITS
    ensures |p'.units| == UNITS
  {
    match c
    case DoReset => Reset(p)
    case DoSlot(r) => Slotted(p, r)
    case DoFinish(_) => Reset(p)
  }

  function Run(p: Parser, calls: seq<Call>): (p': Parser)
    requires |p.units| == UNITS
    ensures |p'.units| == UNITS
  {
    if calls == [] then p else Applied(Run(p, calls[..|calls| - 1]), calls[|calls| - 1])
  }

  lemma {:induction false} RunWf(p: Parser, calls: seq<Call>)
    requires Wf(p)
    ensures Wf(Run(p, calls))
  {
    if calls != [] {
      RunWf(p, calls[..|calls| - 1]);
      var last := calls[|calls| - 1];
      if last.DoSlot? { SlottedWf(Run(p, calls[..|calls| - 1]), last.raw); }
    }
  }

  lemma {:induction false} RunConcat(p: Parser, a: seq<Call>, b: seq<Call>)
    requires |p.units| == UNITS
    ensures Run(p, a + b) == Run(Run(p, a), b)
    decreases |b|
  {
    if b == [] {
      assert a + b == a;
    } else {
      assert (a + b)[..|a + b| - 1] == a + b[..|b| - 1];
      RunConcat(p, a, b[..|b| - 1]);
    }
  }

  // ----- chains of slots -----

  /** A slot with this ordinal and checksum, flagged as the first of its name or not. */
  predicate SlotForm(r: raw, ordinal: int, first: bool, sum: byte) {
    && 1 <= ordinal <= 20 && r[0] == ordinal + (if first then 0x40 else 0)
    && r[11] == 0x0f && r[12] == 0 && r[13] == sum && r[26] == 0 && r[27] == 0
  }

  /** It is what the parser takes for one. */
  lemma SlotFormIff(r: raw, ordinal: int, first: bool, sum: byte)
    ensures SlotForm(r, ordinal, first, sum)
       <==> Plausible(r) && Ordinal(r) == ordinal && First(r) == first && r[13] == sum
  {
  }

  predicate ChainAt(calls: seq<Call>, n: nat, sum: byte, j: nat)
    requires j < |calls|
  {
    calls[j].DoSlot? && SlotForm(calls[j].raw, n - j, j == 0, sum)
  }

  /** The calls are slots with ordinals n, n - 1, ..., only the first one flagged. */
  ghost predicate Chain(calls: seq<Call>, n: nat, sum: byte) {
    |calls| <= n <= MAX_SLOTS && forall j :: 0 <= j < |calls| ==> ChainAt(calls, n, sum, j)
  }

  /** The units that the slots carry; later slots hold earlier parts of the name. */
  function Assembled(calls: seq<Call>): (u: seq<word>)
    requires forall c :: c in calls ==> c.DoSlot?
    ensures |u| == PER_SLOT * |calls|
  {
    if calls == [] then []
    else SlotUnits(calls[|calls| - 1].raw) + Assembled(calls[..|calls| - 1])
  }

  lemma ChainSlots(calls: seq<Call>, n: nat, sum: byte)
    requires Chain(calls, n, sum)
    ensures forall c :: c in calls ==> c.DoSlot?
  {
    forall c | c in calls ensures c.DoSlot? {
      var j :| 0 <= j < |calls| && calls[j] == c;
      assert ChainAt(calls, n, sum, j);
    }
  }

  /** The parser has taken exactly this unfinished chain. */
  ghost predicate Holds(p: Parser, calls: seq<Call>, n: nat) {
    && |p.units| == UNITS && |calls| >= 1 && Chain(calls, n, p.checksum)
    && p.count == PER_SLOT * n && p.next == n - |calls|
    && (forall c :: c in calls ==> c.DoSlot?)
    && p.units[PER_SLOT * p.next..p.count] == Assembled(calls)
  }

  lemma HoldsFirst(p: Parser, r: raw)
    requires |p.units| == UNITS && Plausible(r) && First(r)
    ensures Holds(Slotted(p, r), [DoSlot(r)], Ordinal(r))
  {
    var n := Ordinal(r);
    var p' := Slotted(p, r);
    var calls := [DoSlot(r)];
    assert ChainAt(calls, n, r[13], 0);
    assert Assembled(calls) == SlotUnits(r) + Assembled([]);
    assert p'.units[PER_SLOT * (n - 1)..PER_SLOT * n] == SlotUnits(r);
  }

  lemma StoredAt(units: seq<word>, at: nat, u: seq<word>, hi: nat)
    requires at + |u| <= hi <= |units|
    ensures (units[..at] + u + units[at + |u|..])[at..hi] == u + units[at + |u|..hi]
  {
  }

  lemma HoldsNext(p: Parser, calls: seq<Call>, n: nat, r: raw)
    requires Holds(p, calls, n) && Plausible(r) && !First(r) && Continues(p, r)
    ensures Holds(Slotted(p, r), calls + [DoSlot(r)], n)
  {
    var p' := Slotted(p, r);
    var calls' := calls + [DoSlot(r)];
    assert calls'[..|calls|] == calls;
    forall j | 0 <= j < |calls'| ensures ChainAt(calls', n, p.checksum, j) {
      if j < |calls| { assert ChainAt(calls, n, p.checksum, j); }
    }
    ChainSlots(calls', n, p.checksum);
    var at := PER_SLOT * (Ordinal(r) - 1);
    assert p'.next == Ordinal(r) - 1 && at + PER_SLOT == PER_SLOT * p.next;
    StoredAt(p.units, at, SlotUnits(r), p.count);
  }

  lemma ChainPrefix(calls: seq<Call>, n: nat, sum: byte, k: nat)
    requires Chain(calls, n, sum) && k <= |calls|
    ensures Chain(calls[..k], n, sum)
  {
    forall j | 0 <= j < k ensures ChainAt(calls[..k], n, sum, j) {
      assert ChainAt(calls, n, sum, j);
    }
  }

  lemma SlotAt(calls: seq<Call>, n: nat, sum: byte, j: nat) returns (r: raw)
    requires Chain(calls, n, sum) && j < |calls|
    ensures calls[j] == DoSlot(r) && Plausible(r) && Ordinal(r) == n - j && First(r) == (j == 0) && r[13] == sum
  {
    assert ChainAt(calls, n, sum, j);
    r := calls[j].raw;
    SlotFormIff(r, n - j, j == 0, sum);
  }

  lemma RunSlot(p: Parser, before: seq<Call>, r: raw)
    requires |p.units| == UNITS
    ensures Run(p, before + [DoSlot(r)]) == Slotted(Run(p, before), r)
  {
    assert (before + [DoSlot(r)])[..|before|] == before;
  }

  lemma SlotContinues(q: Parser, before: seq<Call>, n: nat, r: raw)
    requires Holds(q, before, n) && |before| < n && Ordinal(r) == n - |before| && r[13] == q.checksum
    ensures Continues(q, r)
  {
  }

  lemma ChainGoesOn(q: Parser, before: seq<Call>, n: nat, r: raw)
    requires Holds(q, before, n) && |before| < n
    requires Plausible(r) && !First(r) && Ordinal(r) == n - |before| && r[13] == q.checksum
    ensures Holds(Slotted(q, r), before + [DoSlot(r)], n) && Slotted(q, r).checksum == q.checksum
  {
    SlotContinues(q, before, n, r);
    HoldsNext(q, before, n, r);
  }

  lemma ChainBegins(p: Parser, n: nat, r: raw)
    requires |p.units| == UNITS && Plausible(r) && First(r) && Ordinal(r) == n
    ensures Holds(Slotted(p, r), [DoSlot(r)], n) && Slotted(p, r).checksum == r[13]
  {
    HoldsFirst(p, r);
  }

  /** Whatever the parser did before, it takes a chain. */
  lemma {:induction false} ChainIsTaken(p: Parser, calls: seq<Call>, n: nat, sum: byte)
    requires |p.units| == UNITS && Chain(calls, n, sum) && |calls| >= 1
    ensures Holds(Run(p, calls), calls, n) && Run(p, calls).checksum == sum
    decreases |calls|
  {
    var before := calls[..|calls| - 1];
    var r := SlotAt(calls, n, sum, |before|);
    assert calls == before + [DoSlot(r)];
    RunSlot(p, before, r);
    if before == [] {
      ChainBegins(p, n, r);
    } else {
      ChainPrefix(calls, n, sum, |before|);
      ChainIsTaken(p, before, n, sum);
      ChainGoesOn(Run(p, before), before, n, r);
    }
  }

  lemma SlotKeepsChain(p: Parser, calls: seq<Call>, n: nat, r: raw) returns (calls': seq<Call>, n': nat)
    requires |p.units| == UNITS && (p.count != 0 ==> Holds(p, calls, n)) && Slotted(p, r).count != 0
    ensures calls' == [DoSlot(r)] || (p.count != 0 && calls' == calls + [DoSlot(r)])
    ensures Holds(Slotted(p, r), calls', n')
  {
    if First(r) {
      calls', n' := [DoSlot(r)], Ordinal(r);
      HoldsFirst(p, r);
    } else {
      calls', n' := calls + [DoSlot(r)], n;
      HoldsNext(p, calls, n, r);
    }
  }

  /** The sequence ends with these calls. */
  predicate EndsWith(calls: seq<Call>, tail: seq<Call>) {
    |tail| <= |calls| && calls[|calls| - |tail|..] == tail
  }

  lemma EndsLonger(calls: seq<Call>, tail: seq<Call>, c: Call)
    ensures EndsWith(calls + [c], [c])
    ensures EndsWith(calls, tail) ==> EndsWith(calls + [c], tail + [c])
  {
  }

  /** The parser, if not idle, holds a chain made by the last of these calls. */
  ghost predicate Explained(p: Parser, calls: seq<Call>, tail: seq<Call>, n: nat) {
    p.count != 0 ==> EndsWith(calls, tail) && Holds(p, tail, n)
  }

  lemma ExplainedNext(p: Parser, calls: seq<Call>, tail: seq<Call>, n: nat, c: Call)
    returns (tail': seq<Call>, n': nat)
    requires |p.units| == UNITS && Explained(p, calls, tail, n)
    ensures Explained(Applied(p, c), calls + [c], tail', n')
  {
    tail', n' := tail, n;
    if c.DoSlot? && Slotted(p, c.raw).count != 0 {
      tail', n' := SlotKeepsChain(p, tail, n, c.raw);
      EndsLonger(calls, tail, c);
    }
  }

  /** In any run, a parser that is not idle holds the chain made by its last calls. */
  lemma {:induction false} BusyHoldsChain(calls: seq<Call>) returns (tail: seq<Call>, n: nat)
    ensures Explained(Run(New(), calls), calls, tail, n)
    decreases |calls|
  {
    tail, n := [], 0;
    if calls != [] {
      var init, last := calls[..|calls| - 1], calls[|calls| - 1];
      tail, n := BusyHoldsChain(init);
      tail, n := ExplainedNext(Run(New(), init), init, tail, n, last);
      assert calls == init + [last];
    }
  }

  // ----- main results -----

  /** These calls are a whole chain, for this checksum, spelling this name. */
  ghost predicate Delivers(calls: seq<Call>, sum: byte, s: seq<scalar>) {
    && |calls| >= 1 && Chain(calls, |calls|, sum)
    && (forall c :: c in calls ==> c.DoSlot?)
    && Spelled(Assembled(calls)) == Some(s)
  }

  /**
   Exactly when a name comes back: in every run of the parser, `finish` returns the name `s` if and
   only if the last N calls were slots with ordinals N down to 1, the first of them and no other
   flagged 0x40, all with the short entry's checksum, and their units spell `s`.
   */
  lemma FinishIff(calls: seq<Call>, short: raw, s: seq<scalar>)
    ensures Wf(Run(New(), calls))
    ensures Finished(Run(New(), calls), short) == Some(s)
       <==> exists tail, sum :: EndsWith(calls, tail) && FatSum(short[..11], sum) && Delivers(tail, sum, s)
  {
    RunWf(New(), calls);
    FatSumIff(short[..11], ShortSum(short));
    if Finished(Run(New(), calls), short) == Some(s) {
      var tail := FinishedDelivers(calls, short, s);
    }
    if tail, sum :| EndsWith(calls, tail) && FatSum(short[..11], sum) && Delivers(tail, sum, s) {
      FatSumIff(short[..11], sum);
      DeliveredFinishes(calls, tail, short, s);
    }
  }

  lemma FinishedDelivers(calls: seq<Call>, short: raw, s: seq<scalar>) returns (tail: seq<Call>)
    requires Wf(Run(New(), calls)) && Finished(Run(New(), calls), short) == Some(s)
    ensures EndsWith(calls, tail) && Delivers(tail, ShortSum(short), s)
  {
    var p := Run(New(), calls);
    var n;
    tail, n := BusyHoldsChain(calls);
    HeldUnits(p, tail, n);
  }

  lemma DeliveredFinishes(calls: seq<Call>, tail: seq<Call>, short: raw, s: seq<scalar>)
    requires EndsWith(calls, tail) && Delivers(tail, ShortSum(short), s) && Wf(Run(New(), calls))
    ensures Finished(Run(New(), calls), short) == Some(s)
  {
    var init := calls[..|calls| - |tail|];
    assert calls == init + tail;
    RunConcat(New(), init, tail);
    ChainIsTaken(Run(New(), init), tail, |tail|, ShortSum(short));
    var p := Run(New(), calls);
    assert p.units[PER_SLOT * 0..p.count] == p.units[..p.count];
  }

  // ----- encoding -----

  function SlotCount(name: seq<word>): nat { (|name| + PER_SLOT - 1) / PER_SLOT }

  function HighByte(w: word): byte { w / 256 }

  function HalfOf(w: word, low: bool): byte { if low then LowByte(w) else HighByte(w) }

  /** A slot as FAT writes it: order, five units, attribute and checksum, six units, two units. */
  function SlotByte(order: byte, sum: byte, u: seq<word>, i: nat): byte
    requires |u| == PER_SLOT && i < 32
  {
    if i == 0 then order
    else if 1 <= i < 11 then HalfOf(u[(i - 1) / 2], i % 2 == 1)
    else if i == 11 then LFN_ATTRIBUTE
    else if i == 13 then sum
    else if 14 <= i < 26 then HalfOf(u[5 + (i - 14) / 2], i % 2 == 0)
    else if 28 <= i then HalfOf(u[11 + (i - 28) / 2], i % 2 == 0)
    else 0
  }

  function SlotBytes(order: byte, sum: byte, u: seq<word>): raw
    requires |u| == PER_SLOT
  {
    seq(32, i requires 0 <= i < 32 => SlotByte(order, sum, u, i))
  }

  lemma WordBytes(w: word)
    ensures UnitOf(LowByte(w), HighByte(w)) == w
  {
  }

  lemma OffsetFormula(n: nat)
    requires n < PER_SLOT
    ensures OFFSETS[n] == if n < 5 then 1 + 2 * n else if n < 11 then 4 + 2 * n else 6 + 2 * n
  {
  }

  lemma HalvesAt(order: byte, sum: byte, u: seq<word>, n: nat, at: nat)
    requires |u| == PER_SLOT && n < PER_SLOT
    requires at == if n < 5 then 1 + 2 * n else if n < 11 then 4 + 2 * n else 6 + 2 * n
    ensures SlotByte(order, sum, u, at) == LowByte(u[n]) && SlotByte(order, sum, u, at + 1) == HighByte(u[n])
  {
    if n < 5 { assert (at - 1) / 2 == n == at / 2; }
    else if n < 11 { assert 5 + (at - 14) / 2 == n == 5 + (at - 13) / 2; }
    else { assert 11 + (at - 28) / 2 == n == 11 + (at - 27) / 2; }
  }

  lemma SlotUnitAt(order: byte, sum: byte, u: seq<word>, n: nat)
    requires |u| == PER_SLOT && n < PER_SLOT
    ensures UnitAt(SlotBytes(order, sum, u), n) == u[n]
  {
    OffsetFormula(n);
    HalvesAt(order, sum, u, n, OFFSETS[n]);
    WordBytes(u[n]);
  }

  lemma SlotBytesUnits(order: byte, sum: byte, u: seq<word>)
    requires |u| == PER_SLOT
    ensures SlotUnits(SlotBytes(order, sum, u)) == u
  {
    var r := SlotBytes(order, sum, u);
    forall n | 0 <= n < PER_SLOT ensures UnitAt(r, n) == u[n] {
      SlotUnitAt(order, sum, u, n);
    }
  }

  /** The slot number `j` of a name, counted from the one written first. */
  function EncodedSlot(name: seq<word>, sum: byte, j: nat): raw
    requires 1 <= |name| <= MAX_NAME && j < SlotCount(name)
  {
    var n := SlotCount(name);
    var order: byte := n - j + if j == 0 then 0x40 else 0;
    SlotBytes(order, sum, Padded(name, PER_SLOT * n)[PER_SLOT * (n - j - 1)..PER_SLOT * (n - j)])
  }

  function EncodedCalls(name: seq<word>, sum: byte): seq<Call>
    requires 1 <= |name| <= MAX_NAME
  {
    seq(SlotCount(name), j requires 0 <= j < SlotCount(name) => DoSlot(EncodedSlot(name, sum, j)))
  }

  lemma EncodedForm(name: seq<word>, sum: byte, j: nat)
    requires 1 <= |name| <= MAX_NAME && j < SlotCount(name)
    ensures SlotForm(EncodedSlot(name, sum, j), SlotCount(name) - j, j == 0, sum)
  {
  }

  lemma EncodedIsChain(name: seq<word>, sum: byte)
    requires 1 <= |name| <= MAX_NAME
    ensures Chain(EncodedCalls(name, sum), SlotCount(name), sum)
  {
    var calls, n := EncodedCalls(name, sum), SlotCount(name);
    forall j | 0 <= j < n ensures ChainAt(calls, n, sum, j) {
      EncodedForm(name, sum, j);
    }
  }

  lemma EncodedSlotUnits(name: seq<word>, sum: byte, j: nat)
    requires 1 <= |name| <= MAX_NAME && j < SlotCount(name)
    ensures var n := SlotCount(name);
      SlotUnits(EncodedSlot(name, sum, j)) == Padded(name, PER_SLOT * n)[PER_SLOT * (n - j - 1)..PER_SLOT * (n - j)]
  {
    var n := SlotCount(name);
    SlotBytesUnits(EncodedSlot(name, sum, j)[0], sum,
                   Padded(name, PER_SLOT * n)[PER_SLOT * (n - j - 1)..PER_SLOT * (n - j)]);
  }

  lemma AllSlots(name: seq<word>, sum: byte)
    requires 1 <= |name| <= MAX_NAME
    ensures forall c :: c in EncodedCalls(name, sum) ==> c.DoSlot?
  {
  }

  lemma SplitAt(all: seq<word>, from: nat, mid: nat)
    requires from <= mid <= |all|
    ensures all[from..] == all[from..mid] + all[mid..]
  {
  }

  lemma AssembledNext(calls: seq<Call>, k: nat)
    requires 1 <= k <= |calls| && forall c :: c in calls ==> c.DoSlot?
    ensures Assembled(calls[..k]) == SlotUnits(calls[k - 1].raw) + Assembled(calls[..k - 1])
  {
    assert calls[..k][..k - 1] == calls[..k - 1];
  }

  lemma {:induction false} EncodedUnits(name: seq<word>, sum: byte, k: nat)
    requires 1 <= |name| <= MAX_NAME && k <= SlotCount(name)
    ensures var calls, n := EncodedCalls(name, sum), SlotCount(name);
      && (forall c :: c in calls[..k] ==> c.DoSlot?)
      && Assembled(calls[..k]) == Padded(name, PER_SLOT * n)[PER_SLOT * (n - k)..]
  {
    var calls, n := EncodedCalls(name, sum), SlotCount(name);
    var all := Padded(name, PER_SLOT * n);
    AllSlots(name, sum);
    if k > 0 {
      EncodedUnits(name, sum, k - 1);
      AssembledNext(calls, k);
      EncodedSlotUnits(name, sum, k - 1);
      SplitAt(all, PER_SLOT * (n - k), PER_SLOT * (n - k + 1));
    }
  }

  lemma AllEncodedUnits(name: seq<word>, sum: byte)
    requires 1 <= |name| <= MAX_NAME
    ensures var calls, n := EncodedCalls(name, sum), SlotCount(name);
      && (forall c :: c in calls ==> c.DoSlot?)
      && Assembled(calls) == Padded(name, PER_SLOT * n)
  {
    var calls, n := EncodedCalls(name, sum), SlotCount(name);
    EncodedUnits(name, sum, n);
    assert calls[..n] == calls;
    assert PER_SLOT * (n - n) == 0;
  }

  /** A parser that holds a whole chain has its units in place. */
  lemma HeldUnits(p: Parser, calls: seq<Call>, n: nat)
    requires Holds(p, calls, n) && |calls| == n
    ensures Wf(p) && p.count > 0 && p.next == 0 && p.units[..p.count] == Assembled(calls)
  {
    assert p.units[..p.count] == p.units[PER_SLOT * 0..p.count];
  }

  lemma HeldSpells(p: Parser, calls: seq<Call>, n: nat, short: raw, name: seq<word>)
    requires Holds(p, calls, n) && |calls| == n && p.checksum == ShortSum(short)
    requires |name| <= PER_SLOT * n && ValidName(name) && Assembled(calls) == Padded(name, PER_SLOT * n)
    ensures Wf(p) && Finished(p, short) == Decode(name)
  {
    HeldUnits(p, calls, n);
    PaddedSpells(name, PER_SLOT * n);
  }

  /**
   The round trip, from any earlier state of the parser: a name of 1 to 255 units with no 0x0000
   and no 0xffff, encoded into slots with the checksum of the short entry, comes back as `String::from_utf16` reads
   it. It comes back at all if and only if its surrogates are paired, and then it is unchanged.
   */
  lemma RoundTrip(p: Parser, name: seq<word>, short: raw, sum: byte)
    requires |p.units| == UNITS && ValidName(name) && FatSum(short[..11], sum)
    ensures var p' := Run(p, EncodedCalls(name, sum));
      && Wf(p') && Finished(p', short) == Decode(name)
      && (Finished(p', short).Some? <==> WellFormed(name))
      && (Finished(p', short).Some? ==> Encode(Finished(p', short).value) == name)
  {
    FatSumIff(short[..11], sum);
    var n := SlotCount(name);
    var calls := EncodedCalls(name, sum);
    EncodedIsChain(name, sum);
    ChainIsTaken(p, calls, n, sum);
    AllEncodedUnits(name, sum);
    HeldSpells(Run(p, calls), calls, n, short, name);
    DecodesIffWellFormed(name);
  }

  /** Any text of at most 255 units without U+0000 and U+FFFF comes back as it was. */
  lemma TextRoundTrip(p: Parser, text: seq<scalar>, short: raw, sum: byte)
    requires |p.units| == UNITS && ValidName(Encode(text)) && FatSum(short[..11], sum)
    ensures var p' := Run(p, EncodedCalls(Encode(text), sum));
      Wf(p') && Finished(p', short) == Some(text)
  {
    RoundTrip(p, Encode(text), short, sum);
    EncodeDecodes(text);
  }

  /** A valid FAT name that does not come back: one lone high surrogate. */
  lemma LoneSurrogateIsRefused(p: Parser, short: raw, sum: byte)
    requires |p.units| == UNITS && FatSum(short[..11], sum)
    ensures var name: seq<word> := [0xD800];
      && ValidName(name) && !WellFormed(name)
      && var p' := Run(p, EncodedCalls(name, sum));
         Wf(p') && Finished(p', short) == None
  {
    var name: seq<word> := [0xD800];
    assert !PairedAt(name, 0);
    RoundTrip(p, name, short, sum);
  }
}
