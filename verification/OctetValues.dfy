/** Byte values as eight-bit words, and back. */
module OctetValues {
  import opened Bytes

  /** Counted up, not converted: the solver then has no integer as a word to reason about. */
  function Octet(x: byte): bv8 { if x == 0 then 0 else Octet(x - 1) + 1 }

  function Value(o: bv8): int { o as int }

  lemma NextValue(o: bv8)
    requires o != 255
    ensures Value(o + 1) == Value(o) + 1
  {}

  lemma {:induction false} OctetValue(x: byte)
    ensures Value(Octet(x)) == x
  {
    if x > 0 {
      OctetValue(x - 1);
      assert Value(255) == 255;
      NextValue(Octet(x - 1));
    }
  }
}
