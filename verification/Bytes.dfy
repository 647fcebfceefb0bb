/** The `uint8_t` of the firmware, where it is used as a number. Code that works on single bits uses `bv8`. */
module Bytes {
  type byte = b: int | 0 <= b < 0x100

  /** Concatenation of a list of byte strings, used for framed and chunked streams. */
  function Concat(parts: seq<seq<byte>>): seq<byte> {
    if parts == [] then [] else parts[0] + Concat(parts[1..])
  }

  lemma {:induction false} ConcatAppend(parts: seq<seq<byte>>, more: seq<seq<byte>>)
    ensures Concat(parts + more) == Concat(parts) + Concat(more)
  {
    if parts == [] {
      assert parts + more == more;
    } else {
      assert (parts + more)[1..] == parts[1..] + more;
      ConcatAppend(parts[1..], more);
    }
  }

  lemma ConcatOne(part: seq<byte>)
    ensures Concat([part]) == part
  {
    assert [part][1..] == [];
    assert Concat([part]) == part + [];
  }
}
