/** Byte strings and the concatenation of their pieces. */
module ByteStrings {

  type Bytes = seq<bv8>

  function Concat(chunks: seq<Bytes>): Bytes {
    if chunks == [] then [] else chunks[0] + Concat(chunks[1..])
  }

  lemma {:induction false} ConcatAppend(chunks: seq<Bytes>, more: seq<Bytes>)
    ensures Concat(chunks + more) == Concat(chunks) + Concat(more)
  {
    if chunks == [] {
      assert chunks + more == more;
    } else {
      assert (chunks + more)[1..] == chunks[1..] + more;
      ConcatAppend(chunks[1..], more);
      assert chunks[0] + (Concat(chunks[1..]) + Concat(more)) == (chunks[0] + Concat(chunks[1..])) + Concat(more);
    }
  }

  lemma ConcatOne(data: Bytes)
    ensures Concat([data]) == data
  {
    assert [data][1..] == [];
  }

  lemma ConcatLast(chunks: seq<Bytes>, last: Bytes)
    ensures Concat(chunks + [last]) == Concat(chunks) + last
  {
    ConcatAppend(chunks, [last]);
    ConcatOne(last);
  }
}
