/** The enumerator `graphs_of_len` (dominating.py:25-26): every path graph
    on `size` vertices, as the strings `to_bin(i, size)` for `i` from 0 to
    2^size - 1 in that order. */
module Enumeration {
  import opened Wrappers
  import opened Encoding

  /** `graphs_of_len(size)`, with the generator's elements collected into a
      sequence. */
  function GraphsOfLen(size: nat): (r: seq<string>)
    ensures |r| == Pow2(size)
    ensures forall i :: 0 <= i < |r| ==> IsBinary(r[i]) && Value(r[i]) == i
  {
    seq(Pow2(size), i requires 0 <= i => ToBin(i, size))
  }

  /** There are 2^size graphs; the one at position `i` is binary, reads
      back as `i`, and (for a positive size) has exactly `size` vertices. */
  lemma GraphsOfLenShape(size: nat)
    ensures |GraphsOfLen(size)| == Pow2(size)
    ensures forall i :: 0 <= i < |GraphsOfLen(size)| ==>
      && IsBinary(GraphsOfLen(size)[i])
      && ToInt(GraphsOfLen(size)[i]) == Success(i)
      && (size >= 1 ==> |GraphsOfLen(size)[i]| == size)
  {
    var r := GraphsOfLen(size);
    forall i | 0 <= i < |r|
      ensures IsBinary(r[i]) && ToInt(r[i]) == Success(i)
      ensures size >= 1 ==> |r[i]| == size
    {
      ToIntToBin(i, size);
      ToBinShape(i, size);
    }
  }

  /** No graph is produced twice. */
  lemma GraphsOfLenDistinct(size: nat)
    ensures forall i, j :: 0 <= i < j < |GraphsOfLen(size)| ==>
      GraphsOfLen(size)[i] != GraphsOfLen(size)[j]
  {
    GraphsOfLenShape(size);
  }

  /** The graphs come in strictly ascending order, both as numbers and as
      strings. */
  lemma GraphsOfLenAscending(size: nat)
    ensures forall i, j :: 0 <= i < j < |GraphsOfLen(size)| ==>
      && Value(GraphsOfLen(size)[i]) < Value(GraphsOfLen(size)[j])
      && LexLess(GraphsOfLen(size)[i], GraphsOfLen(size)[j])
  {
    var r := GraphsOfLen(size);
    GraphsOfLenShape(size);
    if size == 0 {
      GraphsOfLenZero();
    }
    forall i, j | 0 <= i < j < |r|
      ensures Value(r[i]) < Value(r[j]) && LexLess(r[i], r[j])
    {
      ValueOrderIsLexOrder(r[i], r[j]);
    }
  }

  /** Every path graph on `size >= 1` vertices is produced, at the position
      given by its value. */
  lemma GraphsOfLenComplete(size: nat, g: string)
    requires IsBinary(g) && |g| == size && size >= 1
    ensures Value(g) < |GraphsOfLen(size)| && GraphsOfLen(size)[Value(g)] == g
  {
    var v := Value(g);
    ToBinToInt(g);
    assert v < Pow2(size);
    assert GraphsOfLen(size)[v] == ToBin(v, size);
  }

  /** For size 0 the one graph produced is "0", a one-vertex string: the
      empty graph is never produced. */
  lemma GraphsOfLenZero()
    ensures GraphsOfLen(0) == ["0"]
  {
    ToBinZeroWidth();
  }
}
