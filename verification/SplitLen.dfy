/** Splitting a binary string at a separator, sdssplitlen. */
module SplitLen {
  import opened Options

  ghost predicate Occurs<T>(s: seq<T>, sep: seq<T>, k: nat)
  {
    k + |sep| <= |s| && s[k..k + |sep|] == sep
  }

  /** The tokens with a separator between neighbours. */
  function Join<T>(ts: seq<seq<T>>, sep: seq<T>): seq<T>
    requires ts != []
  {
    if |ts| == 1 then ts[0] else ts[0] + sep + Join(ts[1..], sep)
  }

  /** The tokens, each with a separator after it. */
  function Ended<T>(ts: seq<seq<T>>, sep: seq<T>): seq<T>
  {
    if ts == [] then [] else ts[0] + sep + Ended(ts[1..], sep)
  }

  /** In a token and the separator after it, the separator does not start earlier. */
  ghost predicate Closed<T>(t: seq<T>, sep: seq<T>)
  {
    forall k: nat :: k < |t| ==> !Occurs(t + sep, sep, k)
  }

  ghost predicate AllClosed<T>(ts: seq<seq<T>>, sep: seq<T>)
  {
    forall i :: 0 <= i < |ts| ==> Closed(ts[i], sep)
  }

  ghost predicate Free<T>(t: seq<T>, sep: seq<T>)
  {
    forall k: nat :: !Occurs(t, sep, k)
  }

  /** Tokens as a search from left to right for the separator finds them. */
  ghost predicate Leftmost<T>(ts: seq<seq<T>>, sep: seq<T>)
  {
    ts != [] && AllClosed(ts[..|ts| - 1], sep) && Free(ts[|ts| - 1], sep)
  }

  lemma {:induction false} EndedSnoc<T>(ts: seq<seq<T>>, t: seq<T>, sep: seq<T>)
    ensures Ended(ts + [t], sep) == Ended(ts, sep) + t + sep
  {
    if ts == [] {
      assert [t][1..] == [];
    } else {
      assert (ts + [t])[1..] == ts[1..] + [t];
      EndedSnoc(ts[1..], t, sep);
      assert Ended(ts + [t], sep) == ts[0] + sep + (Ended(ts[1..], sep) + t + sep);
    }
  }

  lemma {:induction false} JoinSnoc<T>(ts: seq<seq<T>>, t: seq<T>, sep: seq<T>)
    ensures Join(ts + [t], sep) == Ended(ts, sep) + t
  {
    if ts != [] {
      assert (ts + [t])[1..] == ts[1..] + [t];
      JoinSnoc(ts[1..], t, sep);
      assert Join(ts + [t], sep) == ts[0] + sep + (Ended(ts[1..], sep) + t);
    }
  }

  /** An occurrence in a piece is one in the whole. */
  lemma OccursInPiece<T>(s: seq<T>, sep: seq<T>, a: nat, b: nat, k: nat)
    requires a <= b <= |s| && Occurs(s[a..b], sep, k)
    ensures Occurs(s, sep, a + k)
  {
    var x, y := s[a..b][k..k + |sep|], s[a + k..a + k + |sep|];
    assert forall i :: 0 <= i < |sep| ==> x[i] == y[i];
  }

  lemma OccursInFront<T>(s: seq<T>, t: seq<T>, sep: seq<T>, k: nat)
    requires t <= s && Occurs(s, sep, k) && k + |sep| <= |t|
    ensures Occurs(t, sep, k)
  {
    assert t[k..k + |sep|] == s[k..k + |sep|];
  }

  lemma OccursAfter<T>(t: seq<T>, sep: seq<T>, rest: seq<T>)
    ensures Occurs(t + sep + rest, sep, |t|)
  {
  }

  /** The first token of a join is where its first separator is. */
  lemma FirstToken<T>(a: seq<T>, b: seq<T>, sep: seq<T>, x: seq<T>, y: seq<T>)
    requires a + sep + x == b + sep + y && Closed(b, sep)
    ensures |a| >= |b|
  {
    if |a| < |b| {
      OccursAfter(a, sep, x);
      assert b + sep <= b + sep + y;
      OccursInFront(b + sep + y, b + sep, sep, |a|);
    }
  }

  lemma SameParts<T>(a: seq<T>, b: seq<T>, sep: seq<T>, x: seq<T>, y: seq<T>)
    requires a + sep + x == b + sep + y && |a| == |b|
    ensures a == b && x == y
  {
    var s := a + sep + x;
    assert a == s[..|a|] && b == s[..|a|];
    assert x == s[|a| + |sep|..] && y == s[|a| + |sep|..];
  }

  lemma LeftmostTail<T>(ts: seq<seq<T>>, sep: seq<T>)
    requires Leftmost(ts, sep) && |ts| > 1
    ensures Leftmost(ts[1..], sep) && Closed(ts[0], sep)
  {
    assert ts[..|ts| - 1][0] == ts[0];
    assert ts[1..][..|ts| - 2] == ts[..|ts| - 1][1..];
  }

  /** A string has one leftmost split, so splitting a join gives the tokens back exactly when they are one. */
  lemma {:induction false} LeftmostUnique<T>(a: seq<seq<T>>, b: seq<seq<T>>, sep: seq<T>)
    requires sep != [] && Leftmost(a, sep) && Leftmost(b, sep) && Join(a, sep) == Join(b, sep)
    ensures a == b
    decreases |a|
  {
    if |a| > 1 && |b| > 1 {
      var x, y := Join(a[1..], sep), Join(b[1..], sep);
      LeftmostTail(a, sep);
      LeftmostTail(b, sep);
      FirstToken(a[0], b[0], sep, x, y);
      FirstToken(b[0], a[0], sep, y, x);
      SameParts(a[0], b[0], sep, x, y);
      LeftmostUnique(a[1..], b[1..], sep);
      assert a == [a[0]] + a[1..] && b == [b[0]] + b[1..];
    } else if |a| > 1 {
      OccursAfter(a[0], sep, Join(a[1..], sep));
    } else if |b| > 1 {
      OccursAfter(b[0], sep, Join(b[1..], sep));
    }
  }

  /** No separator starts in `s` from `start` up to `j`. */
  ghost predicate Quiet<T>(s: seq<T>, sep: seq<T>, start: nat, j: int)
  {
    forall k: nat :: start <= k < j ==> !Occurs(s, sep, k)
  }

  lemma TokenClosed<T>(s: seq<T>, sep: seq<T>, start: nat, j: nat)
    requires start <= j && Quiet(s, sep, start, j) && Occurs(s, sep, j)
    ensures Closed(s[start..j], sep) && s[..j + |sep|] == s[..start] + s[start..j] + sep
  {
    var t := s[start..j];
    assert t + sep == s[start..j + |sep|];
    forall k: nat | k < |t|
      ensures !Occurs(t + sep, sep, k)
    {
      if Occurs(t + sep, sep, k) {
        OccursInPiece(s, sep, start, j + |sep|, k);
      }
    }
  }

  lemma LastFree<T>(s: seq<T>, sep: seq<T>, start: nat, j: int)
    requires start <= |s| && Quiet(s, sep, start, j) && j > |s| - |sep|
    ensures Free(s[start..], sep)
  {
    forall k: nat
      ensures !Occurs(s[start..], sep, k)
    {
      if Occurs(s[start..], sep, k) {
        assert s[start..] == s[start..|s|];
        OccursInPiece(s, sep, start, |s|, k);
      }
    }
  }

  /** sdssplitlen: NULL for an empty separator, no token for an empty string, else the leftmost split. */
  method Split<T(==)>(s: seq<T>, sep: seq<T>) returns (r: Option<seq<seq<T>>>)
    ensures r.None? <==> sep == []
    ensures sep != [] && s == [] ==> r == Some([])
    ensures sep != [] && s != [] ==> Leftmost(r.value, sep) && Join(r.value, sep) == s
  {
    if |sep| < 1 {
      return None;
    }
    if |s| == 0 {
      return Some([]);
    }
    var tokens, start, j := [], 0, 0;
    while j < |s| - (|sep| - 1)
      invariant 0 <= start <= j && start <= |s| && Ended(tokens, sep) == s[..start]
      invariant AllClosed(tokens, sep) && Quiet(s, sep, start, j)
      decreases |s| - j
    {
      if (|sep| == 1 && s[j] == sep[0]) || s[j..j + |sep|] == sep {
        assert Occurs(s, sep, j);
        TokenClosed(s, sep, start, j);
        EndedSnoc(tokens, s[start..j], sep);
        tokens := tokens + [s[start..j]];
        start := j + |sep|;
        j := j + |sep| - 1;
      }
      j := j + 1;
    }
    LastFree(s, sep, start, j);
    JoinSnoc(tokens, s[start..], sep);
    ghost var before := tokens;
    tokens := tokens + [s[start..]];
    assert tokens[..|tokens| - 1] == before;
    r := Some(tokens);
  }
}
