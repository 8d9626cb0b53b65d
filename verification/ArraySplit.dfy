/**
 * Splitting an array among the threads, transform_split_array: the pieces put on the queues and the
 * last piece, which the splitting thread visits itself, cover the array exactly.
 */
module ArraySplit {

  /** One call of visit on an element: where it is read and where it is written. */
  datatype Call = Call(from: int, to: int)

  /** A piece of an array: a queued task, or the part visited at once. */
  datatype Piece = Piece(from: int, to: int, len: nat)

  /** The calls transform_array makes for `n` elements. */
  function Calls(from: int, to: int, sizeIn: nat, sizeOut: nat, n: nat): seq<Call>
    decreases n
  {
    if n == 0 then [] else [Call(from, to)] + Calls(from + sizeIn, to + sizeOut, sizeIn, sizeOut, n - 1)
  }

  /** transform_array, with the visits recorded. */
  method TransformArray(from: int, to: int, sizeIn: nat, sizeOut: nat, count: nat) returns (calls: seq<Call>)
    ensures calls == Calls(from, to, sizeIn, sizeOut, count)
  {
    calls := [];
    var p, q := from, to;
    for i := 0 to count
      invariant calls + Calls(p, q, sizeIn, sizeOut, count - i) == Calls(from, to, sizeIn, sizeOut, count)
    {
      MoreCalls(calls, Call(p, q), Calls(p + sizeIn, q + sizeOut, sizeIn, sizeOut, count - i - 1));
      calls := calls + [Call(p, q)];
      p, q := p + sizeIn, q + sizeOut;
    }
  }

  lemma MoreCalls(calls: seq<Call>, c: Call, rest: seq<Call>)
    ensures calls + ([c] + rest) == (calls + [c]) + rest
  {
  }

  /** The calls of several pieces, one after the other. */
  function AllCalls(pieces: seq<Piece>, sizeIn: nat, sizeOut: nat): seq<Call>
  {
    if pieces == [] then []
    else
      var p := pieces[|pieces| - 1];
      AllCalls(pieces[..|pieces| - 1], sizeIn, sizeOut) + Calls(p.from, p.to, sizeIn, sizeOut, p.len)
  }

  /** An array is its first `n` elements and the rest. */
  lemma {:induction false} CallsSplit(from: int, to: int, sizeIn: nat, sizeOut: nat, n: nat, m: nat)
    ensures Calls(from, to, sizeIn, sizeOut, n + m)
         == Calls(from, to, sizeIn, sizeOut, n) + Calls(from + sizeIn * n, to + sizeOut * n, sizeIn, sizeOut, m)
    decreases n
  {
    if n > 0 {
      CallsSplit(from + sizeIn, to + sizeOut, sizeIn, sizeOut, n - 1, m);
      OneElement(sizeIn, n);
      OneElement(sizeOut, n);
    }
  }

  lemma OneElement(size: nat, n: nat)
    requires n > 0
    ensures size + size * (n - 1) == size * n
  {
  }

  lemma OneMore(pieces: seq<Piece>, p: Piece, sizeIn: nat, sizeOut: nat)
    ensures AllCalls(pieces + [p], sizeIn, sizeOut) == AllCalls(pieces, sizeIn, sizeOut) + Calls(p.from, p.to, sizeIn,
        sizeOut, p.len)
  {
    assert (pieces + [p])[..|pieces|] == pieces;
  }

  lemma Offset(size: nat, i: nat, share: nat)
    ensures size * i * share == size * (i * share) && (i + 1) * share == i * share + share
  {
  }

  lemma ShareFits(count: nat, split: nat)
    requires split > 0
    ensures (split - 1) * (count / split) + count / split <= count
  {
  }

  /** One more piece of `share` elements. */
  lemma NextPiece(pieces: seq<Piece>, from: int, to: int, sizeIn: nat, sizeOut: nat, done: nat, share: nat, p: Piece)
    requires AllCalls(pieces, sizeIn, sizeOut) == Calls(from, to, sizeIn, sizeOut, done)
    requires p == Piece(from + sizeIn * done, to + sizeOut * done, share)
    ensures AllCalls(pieces + [p], sizeIn, sizeOut) == Calls(from, to, sizeIn, sizeOut, done + share)
  {
    OneMore(pieces, p, sizeIn, sizeOut);
    CallsSplit(from, to, sizeIn, sizeOut, done, share);
  }

  /** transform_split_array: the pieces it queues, and the piece it visits itself. */
  method SplitArray(from: int, to: int, sizeIn: nat, sizeOut: nat, count: nat, split: nat, parallel: bool)
    returns (queued: seq<Piece>, own: Piece)
    requires split > 0
    ensures AllCalls(queued + [own], sizeIn, sizeOut) == Calls(from, to, sizeIn, sizeOut, count)
    ensures |queued| == if parallel && count >= split then split - 1 else 0
    ensures forall i :: 0 <= i < |queued| ==> queued[i].len == count / split
    ensures |queued| > 0 ==> 0 < count / split <= own.len < count / split + split
  {
    queued := [];
    if !parallel || count < split {
      own := Piece(from, to, count);
      NextPiece([], from, to, sizeIn, sizeOut, 0, count, own);
      return;
    }
    var share, remainder: int := count / split, count;
    ghost var done := 0;
    var i := 0;
    while i < split - 1
      invariant 0 <= i <= split - 1 && |queued| == i && done == i * share && remainder == count - done
      invariant AllCalls(queued, sizeIn, sizeOut) == Calls(from, to, sizeIn, sizeOut, done)
      invariant forall k :: 0 <= k < i ==> queued[k].len == share
    {
      var piece := Piece(from + sizeIn * i * share, to + sizeOut * i * share, share);
      Offset(sizeIn, i, share);
      Offset(sizeOut, i, share);
      NextPiece(queued, from, to, sizeIn, sizeOut, done, share, piece);
      queued := queued + [piece];
      remainder := remainder - share;
      done := done + share;
      i := i + 1;
    }
    ShareFits(count, split);
    LastShare(count, split, share, done);
    Offset(sizeIn, i, share);
    Offset(sizeOut, i, share);
    own := Piece(from + sizeIn * i * share, to + sizeOut * i * share, remainder);
    NextPiece(queued, from, to, sizeIn, sizeOut, done, remainder, own);
  }

  lemma LastShare(count: nat, split: nat, share: nat, done: nat)
    requires split > 0 && count >= split && share == count / split && done == (split - 1) * share
    ensures 0 < share <= count - done < share + split
  {
    assert count == share * split + count % split;
    assert done == split * share - share;
  }
}
