/**
 * LZF compression as shipped with Redis (lzf_c.c, lzf_d.c).
 *
 * `Expand` gives the meaning of a compressed stream. The decompressor is proved to compute it,
 * and the compressor is proved to write a stream whose meaning is its input.
 */
module Lzf {
  import opened Bytes

  const MAX_LIT := 32
  const MAX_OFF := 8192
  const MAX_REF := 264
  const HSIZE := 65536

  /** What a stream stands for: its plain text, or the error the decompressor reports. */
  datatype Expansion = Plain(text: seq<Byte>) | TooBig | Malformed

  /** Append `n` octets to `text`, each copied from `back` octets before the end reached so far. */
  function CopyBack(text: seq<Byte>, back: nat, n: nat): (r: seq<Byte>)
    requires 0 < back <= |text|
    ensures |r| == |text| + n
    decreases n
  {
    if n == 0 then text else CopyBack(text + [text[|text| - back]], back, n - 1)
  }

  /** Octets minus two of the back reference at the head of `s`. */
  function RefLength(s: seq<Byte>): nat
    requires |s| >= 2
  {
    var ctrl: int := s[0];
    if ctrl / 32 == 7 then 7 + s[1] as int else ctrl / 32
  }

  /** Distance of the back reference at the head of `s`. */
  function RefDistance(s: seq<Byte>): nat
    requires |s| >= 2 && (s[0] / 32 == 7 ==> |s| >= 3)
  {
    var ctrl: int := s[0];
    (ctrl % 32) * 256 + s[if ctrl / 32 == 7 then 2 else 1] as int + 1
  }

  /** The outcome of reading one token: an error, or the bytes it took and the longer text. */
  datatype Reading = Failed(error: Expansion) | Read(size: nat, text: seq<Byte>)

  function ReadToken(s: seq<Byte>, text: seq<Byte>, room: nat): (r: Reading)
    requires s != []
    ensures r.Read? ==> 0 < r.size <= |s| && |text| < |r.text| <= room
    ensures r.Failed? ==> !r.error.Plain?
  {
    if s[0] < 32 then
      var run: int := s[0] as int + 1;
      if |text| + run > room then Failed(TooBig)
      else if run + 1 > |s| then Failed(Malformed)
      else Read(run + 1, text + s[1..run + 1])
    else if |s| < 2 || (s[0] / 32 == 7 && |s| < 3) then
      Failed(Malformed)
    else if |text| + RefLength(s) + 2 > room then
      Failed(TooBig)
    else if RefDistance(s) > |text| then
      Failed(Malformed)
    else
      Read(if s[0] / 32 == 7 then 3 else 2, CopyBack(text, RefDistance(s), RefLength(s) + 2))
  }

  /** Read the tokens of `s`, extending `text`; the result may not exceed `room` octets. */
  function Expand(s: seq<Byte>, text: seq<Byte>, room: nat): Expansion
    decreases |s|
  {
    if s == [] then Plain(text)
    else
      match ReadToken(s, text, room)
      case Failed(e) => e
      case Read(size, text') => Expand(s[size..], text', room)
  }

  // ----- properties of Expand

  lemma ReadTokenPrefix(s: seq<Byte>, t: seq<Byte>, text: seq<Byte>, room: nat)
    requires s != [] && ReadToken(s, text, room).Read?
    ensures ReadToken(s + t, text, room) == ReadToken(s, text, room)
  {
    if s[0] < 32 {
      var run: int := s[0] as int + 1;
      assert (s + t)[1..run + 1] == s[1..run + 1];
    }
  }

  lemma {:induction false} ExpandAppend(s: seq<Byte>, t: seq<Byte>, text: seq<Byte>, room: nat)
    requires Expand(s, text, room).Plain?
    ensures Expand(s + t, text, room) == Expand(t, Expand(s, text, room).text, room)
    decreases |s|
  {
    if s == [] {
      assert s + t == t;
    } else {
      var r := ReadToken(s, text, room);
      ReadTokenPrefix(s, t, text, room);
      assert (s + t)[r.size..] == s[r.size..] + t;
      ExpandAppend(s[r.size..], t, r.text, room);
    }
  }

  /** Every token of an accepted stream adds to the text, which stays within the room. */
  lemma {:induction false} ExpandGrows(s: seq<Byte>, text: seq<Byte>, room: nat)
    requires Expand(s, text, room).Plain?
    ensures |Expand(s, text, room).text| >= |text|
    ensures s != [] ==> |text| < |Expand(s, text, room).text| <= room
    decreases |s|
  {
    if s != [] {
      var r := ReadToken(s, text, room);
      ExpandGrows(s[r.size..], r.text, room);
    }
  }

  /** A stream that expands within some room expands to the same text in any room that holds it. */
  lemma {:induction false} ExpandAnyRoom(s: seq<Byte>, text: seq<Byte>, room: nat, room': nat)
    requires Expand(s, text, room).Plain?
    requires |Expand(s, text, room).text| <= room'
    ensures Expand(s, text, room') == Expand(s, text, room)
    decreases |s|
  {
    if s != [] {
      var r := ReadToken(s, text, room);
      ExpandGrows(s[r.size..], r.text, room);
      ExpandAnyRoom(s[r.size..], r.text, room, room');
    }
  }

  /** The `n` octets at `a` and at `b` agree. */
  ghost predicate Same(src: seq<Byte>, a: nat, b: nat, n: nat)
  {
    a <= b && b + n <= |src| && forall i :: a <= i < a + n ==> src[i] == src[i + (b - a)]
  }

  /** Copying from an earlier equal stretch, overlapping or not, reproduces the stretch. */
  lemma {:induction false} CopyBackReproduces(src: seq<Byte>, ref: nat, p: nat, n: nat)
    requires ref < p && Same(src, ref, p, n)
    ensures CopyBack(src[..p], p - ref, n) == src[..p + n]
    decreases n
  {
    if n != 0 {
      assert src[..p] + [src[..p][p - (p - ref)]] == src[..p + 1];
      CopyBackReproduces(src, ref + 1, p + 1, n - 1);
    }
  }

  // ----- the format, token by token

  /** A literal run, or `count` octets copied from `off + 1` octets back. */
  datatype Token = Literals(run: seq<Byte>) | Copy(off: nat, count: nat)

  predicate Fits(t: Token)
  {
    match t
    case Literals(run) => 0 < |run| <= MAX_LIT
    case Copy(off, count) => off < MAX_OFF && 3 <= count <= MAX_REF
  }

  /** 000LLLLL <L+1>, LLLooooo oooooooo, or 111ooooo LLLLLLLL oooooooo. */
  function TokenBytes(t: Token): seq<Byte>
    requires Fits(t)
  {
    match t
    case Literals(run) => [|run| - 1] + run
    case Copy(off, count) =>
      if count - 2 < 7 then [off / 256 + (count - 2) * 32, off % 256]
      else [off / 256 + 7 * 32, count - 2 - 7, off % 256]
  }

  /** What one token appends to the text so far. */
  function Play(text: seq<Byte>, t: Token): seq<Byte>
  {
    match t
    case Literals(run) => text + run
    case Copy(off, count) => if off < |text| then CopyBack(text, off + 1, count) else text
  }

  /** The text a token list stands for. */
  ghost function Text(toks: seq<Token>): seq<Byte>
  {
    if toks == [] then [] else Play(Text(toks[..|toks| - 1]), toks[|toks| - 1])
  }

  /** The token fits the format and refers back only to text already produced. */
  predicate Playable(text: seq<Byte>, t: Token)
  {
    Fits(t) && (t.Copy? ==> t.off < |text|)
  }

  ghost predicate WellFormed(toks: seq<Token>)
  {
    toks == [] || (WellFormed(toks[..|toks| - 1]) && Playable(Text(toks[..|toks| - 1]), toks[|toks| - 1]))
  }

  ghost function Encoding(toks: seq<Token>): seq<Byte>
    requires WellFormed(toks)
  {
    if toks == [] then [] else Encoding(toks[..|toks| - 1]) + TokenBytes(toks[|toks| - 1])
  }

  lemma ReadLiterals(run: seq<Byte>, text: seq<Byte>, room: nat)
    requires Fits(Literals(run)) && |text + run| <= room
    ensures ReadToken(TokenBytes(Literals(run)), text, room) == Read(|run| + 1, text + run)
  {
    var b := TokenBytes(Literals(run));
    assert b[1..|run| + 1] == run;
  }

  lemma ReadCopy(off: nat, count: nat, text: seq<Byte>, room: nat)
    requires Fits(Copy(off, count)) && off < |text| && |text| + count <= room
    ensures var b := TokenBytes(Copy(off, count));
            ReadToken(b, text, room) == Read(|b|, CopyBack(text, off + 1, count))
  {
    var b := TokenBytes(Copy(off, count));
    var hi, lo := off / 256, off % 256;
    assert hi < 32 && hi * 256 + lo == off;
    var ctrl: int := b[0];
    assert ctrl == hi + (if count - 2 < 7 then count - 2 else 7) * 32;
    assert ctrl % 32 == hi && ctrl / 32 == (if count - 2 < 7 then count - 2 else 7);
    assert RefLength(b) == count - 2;
    assert RefDistance(b) == off + 1;
  }

  /** Expanding one encoded token. */
  lemma ExpandToken(t: Token, text: seq<Byte>, room: nat)
    requires Playable(text, t) && |Play(text, t)| <= room
    ensures Expand(TokenBytes(t), text, room) == Plain(Play(text, t))
  {
    var b := TokenBytes(t);
    assert b[|b|..] == [];
    match t
    case Literals(run) => ReadLiterals(run, text, room);
    case Copy(off, count) => ReadCopy(off, count, text, room);
  }

  /** The expansion of an encoded token list is its text. */
  lemma {:induction false} ExpandEncoding(toks: seq<Token>, room: nat)
    requires WellFormed(toks) && |Text(toks)| <= room
    ensures Expand(Encoding(toks), [], room) == Plain(Text(toks))
  {
    if toks != [] {
      var init, t := toks[..|toks| - 1], toks[|toks| - 1];
      ExpandEncoding(init, room);
      ExpandAppend(Encoding(init), TokenBytes(t), [], room);
      ExpandToken(t, Text(init), room);
    }
  }

  lemma PushToken(toks: seq<Token>, t: Token)
    requires WellFormed(toks) && Playable(Text(toks), t)
    ensures WellFormed(toks + [t])
    ensures Encoding(toks + [t]) == Encoding(toks) + TokenBytes(t)
    ensures Text(toks + [t]) == Play(Text(toks), t)
  {
    assert (toks + [t])[..|toks|] == toks;
  }

  /** The token at the head of a stream that can be read. */
  lemma TokenOf(s: seq<Byte>, text: seq<Byte>, room: nat) returns (t: Token)
    requires s != [] && ReadToken(s, text, room).Read?
    ensures var r := ReadToken(s, text, room);
            Playable(text, t) && TokenBytes(t) == s[..r.size] && Play(text, t) == r.text
  {
    if s[0] < 32 {
      t := Literals(s[1..s[0] as int + 2]);
    } else {
      t := Copy(RefDistance(s) - 1, RefLength(s) + 2);
      CopyOf(s);
    }
  }

  lemma CopyOf(s: seq<Byte>)
    requires |s| >= 2 && s[0] >= 32 && (s[0] / 32 == 7 ==> |s| >= 3)
    ensures var t := Copy(RefDistance(s) - 1, RefLength(s) + 2);
            Fits(t) && TokenBytes(t) == s[..if s[0] / 32 == 7 then 3 else 2]
  {
    HeaderOf(s[0], if s[0] / 32 == 7 then s[2] else s[1]);
  }

  lemma HeaderOf(ctrl: int, low: int)
    requires 0 <= ctrl < 256 && 0 <= low < 256
    ensures var off := (ctrl % 32) * 256 + low;
            off < MAX_OFF && off / 256 + ctrl / 32 * 32 == ctrl && off % 256 == low
  {
  }

  /** The next token moves from the rest of the stream to those read. */
  lemma DecodeOne(s: seq<Byte>, toks: seq<Token>, room: nat) returns (toks': seq<Token>, rest: seq<Byte>)
    requires WellFormed(toks) && s != [] && ReadToken(s, Text(toks), room).Read?
    ensures WellFormed(toks') && Encoding(toks') + rest == Encoding(toks) + s && |rest| < |s|
    ensures Expand(s, Text(toks), room) == Expand(rest, Text(toks'), room) && |Text(toks')| <= room
  {
    var text := Text(toks);
    var t := TokenOf(s, text, room);
    PushToken(toks, t);
    var n := |TokenBytes(t)|;
    toks', rest := toks + [t], s[n..];
    SplitOff(Encoding(toks), TokenBytes(t), s, n);
  }

  lemma SplitOff(a: seq<Byte>, b: seq<Byte>, s: seq<Byte>, n: nat)
    requires n <= |s| && b == s[..n]
    ensures (a + b) + s[n..] == a + s
  {
  }

  lemma {:induction false} DecodeOn(s: seq<Byte>, toks: seq<Token>, room: nat) returns (toks': seq<Token>)
    requires WellFormed(toks) == true && |Text(toks)| <= room && Expand(s, Text(toks), room).Plain?
    ensures WellFormed(toks') == true && Encoding(toks') == Encoding(toks) + s
    ensures Expand(s, Text(toks), room) == Plain(Text(toks')) && |Text(toks')| <= room
    decreases |s|
  {
    if s == [] {
      toks' := toks;
    } else {
      var more, rest := DecodeOne(s, toks, room);
      toks' := DecodeOn(rest, more, room);
    }
  }

  /** The streams that are accepted are the encodings of token lists, and the text is that of the tokens. */
  lemma ExpandExact(s: seq<Byte>, text: seq<Byte>, room: nat)
    ensures Expand(s, [], room) == Plain(text)
       <==> |text| <= room && exists toks :: WellFormed(toks) && Encoding(toks) == s && Text(toks) == text
  {
    if Expand(s, [], room) == Plain(text) {
      var toks := DecodeOn(s, [], room);
      assert Encoding(toks) == s;
    }
    if |text| <= room {
      forall toks | WellFormed(toks) && Encoding(toks) == s && Text(toks) == text
        ensures Expand(s, [], room) == Plain(text)
      {
        ExpandEncoding(toks, room);
      }
    }
  }

  // ----- the decompressor

  /** The `errno` values the decompressor sets. */
  datatype Errno = NoError | E2BIG | EINVAL

  ghost predicate Reports(e: Expansion, n: nat, err: Errno, out: seq<Byte>)
    requires n <= |out|
  {
    match e
    case Plain(text) => n == |text| && out[..n] == text && err == NoError
    case TooBig => n == 0 && err == E2BIG
    case Malformed => n == 0 && err == EINVAL
  }

  /** lzf_decompress: for a non-empty stream it returns the text or the right error, within bounds. */
  method Decompress(src: seq<Byte>, dst: array<Byte>, outLen: nat) returns (n: nat, err: Errno)
    requires src != [] && outLen <= dst.Length
    modifies dst
    ensures n <= outLen
    ensures Reports(Expand(src, [], outLen), n, err, dst[..])
    ensures dst[outLen..] == old(dst[outLen..])
  {
    var ip, op := 0, 0;
    assert dst[..0] == [] && src[0..] == src;
    while ip < |src|
      invariant 0 <= ip <= |src| && 0 <= op <= outLen
      invariant Expand(src[ip..], dst[..op], outLen) == Expand(src, [], outLen)
      invariant dst[outLen..] == old(dst[outLen..])
    {
      ghost var start, text := ip, dst[..op];
      if src[ip] < 32 {
        ip, op, err := LiteralToken(src, ip, dst, op, outLen);
      } else {
        ip, op, err := ReferenceToken(src, ip, dst, op, outLen);
      }
      ExpandStep(src, start, ip, err, text, dst[..op], outLen);
      if err != NoError {
        return 0, err;
      }
    }
    assert src[ip..] == [];
    return op, NoError;
  }

  /** A branch of the loop did what reading the token at `ip` prescribes. */
  ghost predicate TokenDone(r: Reading, ip: nat, ip': nat, err: Errno, text: seq<Byte>)
  {
    match r
    case Failed(e) => err == if e.TooBig? then E2BIG else EINVAL
    case Read(size, text') => err == NoError && ip' == ip + size && text == text'
  }

  lemma ExpandStep(src: seq<Byte>, ip: nat, ip': nat, err: Errno, text: seq<Byte>, text': seq<Byte>, room: nat)
    requires ip < |src| && TokenDone(ReadToken(src[ip..], text, room), ip, ip', err, text')
    ensures err == NoError ==>
              ip < ip' <= |src| && Expand(src[ip'..], text', room) == Expand(src[ip..], text, room)
    ensures err != NoError ==>
              Expand(src[ip..], text, room) == if err == E2BIG then TooBig else Malformed
  {
    var r := ReadToken(src[ip..], text, room);
    if r.Read? {
      assert src[ip..][r.size..] == src[ip'..];
    }
  }

  /** The literal branch of the decompressor's loop. */
  method LiteralToken(src: seq<Byte>, ip: nat, dst: array<Byte>, op: nat, outLen: nat)
    returns (ip': nat, op': nat, err: Errno)
    requires ip < |src| && op <= outLen <= dst.Length && src[ip] < 32
    modifies dst
    ensures op' <= outLen
    ensures TokenDone(ReadToken(src[ip..], old(dst[..op]), outLen), ip, ip', err, dst[..op'])
    ensures dst[outLen..] == old(dst[outLen..])
  {
    ip', op' := ip + 1, op;
    var run: int := src[ip] as int + 1;
    if op + run > outLen {
      return ip', op', E2BIG;
    }
    if ip' + run > |src| {
      return ip', op', EINVAL;
    }
    assert src[ip..][1..run + 1] == src[ip + 1..ip + 1 + run];
    op' := CopyLiterals(src, ip', dst, op, run);
    ip' := ip' + run;
    return ip', op', NoError;
  }

  /** The back-reference branch of the decompressor's loop. */
  method ReferenceToken(src: seq<Byte>, ip: nat, dst: array<Byte>, op: nat, outLen: nat)
    returns (ip': nat, op': nat, err: Errno)
    requires ip < |src| && op <= outLen <= dst.Length && src[ip] >= 32
    modifies dst
    ensures op' <= outLen
    ensures TokenDone(ReadToken(src[ip..], old(dst[..op]), outLen), ip, ip', err, dst[..op'])
    ensures dst[outLen..] == old(dst[outLen..])
  {
    ip', op' := ip + 1, op;
    var ctrl: int := src[ip];
    var len: int := ctrl / 32;
    var ref: int := op - (ctrl % 32) * 256 - 1;
    if ip' >= |src| {
      return ip', op', EINVAL;
    }
    if len == 7 {
      len := len + src[ip'] as int;
      ip' := ip' + 1;
      if ip' >= |src| {
        return ip', op', EINVAL;
      }
    }
    ref := ref - src[ip'] as int;
    ip' := ip' + 1;
    ReferenceParts(src, ip);
    assert len == RefLength(src[ip..]) && ref == op - RefDistance(src[ip..]);
    if op + len + 2 > outLen {
      return ip', op', E2BIG;
    }
    if ref < 0 {
      return ip', op', EINVAL;
    }
    op' := CopyReference(dst, op, ref, len + 2);
    return ip', op', NoError;
  }

  lemma ReferenceParts(src: seq<Byte>, ip: nat)
    requires ip + 1 < |src| && (src[ip] / 32 == 7 ==> ip + 2 < |src|)
    ensures RefLength(src[ip..]) == if src[ip] / 32 == 7 then 7 + src[ip + 1] as int else src[ip] / 32
    ensures RefDistance(src[ip..])
         == (src[ip] % 32) * 256 + src[if src[ip] / 32 == 7 then ip + 2 else ip + 1] as int + 1
  {
  }

  /** The literal-run copy loop. */
  method CopyLiterals(src: seq<Byte>, ip: nat, dst: array<Byte>, op: nat, run: nat)
    returns (op': nat)
    requires op + run <= dst.Length && ip + run <= |src|
    modifies dst
    ensures op' == op + run
    ensures dst[..op'] == old(dst[..op]) + src[ip..ip + run]
    ensures forall i :: op' <= i < dst.Length ==> dst[i] == old(dst[i])
  {
    op' := op;
    while op' < op + run
      invariant op <= op' <= op + run
      invariant dst[..op'] == old(dst[..op]) + src[ip..ip + (op' - op)]
      invariant forall i :: op' <= i < dst.Length ==> dst[i] == old(dst[i])
    {
      dst[op'] := src[ip + (op' - op)];
      op' := op' + 1;
    }
  }

  /** The back-reference copy loop, byte by byte so that source and target may overlap. */
  method CopyReference(dst: array<Byte>, op: nat, ref: nat, n: nat) returns (op': nat)
    requires ref < op && op + n <= dst.Length
    modifies dst
    ensures op' == op + n
    ensures dst[..op'] == CopyBack(old(dst[..op]), op - ref, n)
    ensures forall i :: op' <= i < dst.Length ==> dst[i] == old(dst[i])
  {
    op' := op;
    ghost var goal := CopyBack(dst[..op], op - ref, n);
    while op' < op + n
      invariant op <= op' <= op + n
      invariant CopyBack(dst[..op'], op - ref, n - (op' - op)) == goal
      invariant forall i :: op' <= i < dst.Length ==> dst[i] == old(dst[i])
    {
      ghost var text := dst[..op'];
      dst[op'] := dst[op' - (op - ref)];
      op' := op' + 1;
      assert dst[..op'] == text + [text[|text| - (op - ref)]];
    }
  }

  // ----- which tokens the compressor chooses

  /** The hash slot of the three octets at `p`. */
  function Slot(src: seq<Byte>, p: nat): (s: nat)
    requires p + 2 < |src|
    ensures s < HSIZE
  {
    (src[p] as int * 256 + src[p + 1] as int - 5 * (src[p + 1] as int * 256 + src[p + 2] as int)) % HSIZE
  }

  /** The three octets at `p` can be copied from `ref`. */
  ghost predicate Usable(src: seq<Byte>, ref: int, p: nat)
  {
    0 < ref < p <= ref + MAX_OFF && p + 4 < |src| && Same(src, ref, p, 3)
  }

  /** No match goes on beyond this, the last two octets mostly being spared. */
  function Limit(src: seq<Byte>, p: nat): int
  {
    var m := if |src| - p - 2 > MAX_REF then MAX_REF else |src| - p - 2;
    if 16 < m < 19 then 19 else m
  }

  /** `len` octets at `p` agree with those at `ref`, and no more up to the limit. */
  ghost predicate Longest(src: seq<Byte>, ref: nat, p: nat, len: nat)
  {
    && Same(src, ref, p, len) && 3 <= len <= Limit(src, p)
    && (len < Limit(src, p) ==> ref + len < |src| && p + len < |src| && src[ref + len] != src[p + len])
  }

  function Range(p: nat, q: int): seq<nat>
  {
    if q <= p then [] else seq(q - p, i requires 0 <= i => p + i)
  }

  /** The last of the positions with hash slot `s`, or what the table held there before. */
  function LastEntry(src: seq<Byte>, h0: seq<int>, entries: seq<nat>, s: nat): int
    requires |h0| == HSIZE && s < HSIZE
  {
    if entries == [] then h0[s]
    else
      var q := entries[|entries| - 1];
      if q + 2 < |src| && Slot(src, q) == s then q else LastEntry(src, h0, entries[..|entries| - 1], s)
  }

  /** The literals of a run that starts at `p`, up to `q`, as far as they are entered into the table. */
  function RunEntries(src: seq<Byte>, p: nat, q: nat): seq<nat>
  {
    Range(p, if q < |src| - 2 then q else |src| - 2)
  }

  /**
   * The positions entered: every literal but the last two octets, the start of every match, and the
   * last two octets of a match after which the search goes on.
   */
  ghost function Entries(src: seq<Byte>, toks: seq<Token>): seq<nat>
  {
    if toks == [] then []
    else
      var init := toks[..|toks| - 1];
      Entries(src, init) + TokenEntries(src, |Text(init)|, toks[|toks| - 1])
  }

  function TokenEntries(src: seq<Byte>, p: nat, t: Token): seq<nat>
  {
    match t
    case Literals(run) => RunEntries(src, p, p + |run|)
    case Copy(_, count) =>
      if 2 <= p + count < |src| - 2 then [p, p + count - 2, p + count - 1] else [p]
  }

  /** When the literal at `q` is reached, in a run from `p` on, the table offers no match. */
  ghost predicate NoMatch(src: seq<Byte>, h0: seq<int>, entries: seq<nat>, p: nat, q: nat)
    requires |h0| == HSIZE
  {
    q + 2 < |src| ==> !Usable(src, LastEntry(src, h0, entries + RunEntries(src, p, q), Slot(src, q)), q)
  }

  ghost predicate Run(src: seq<Byte>, h0: seq<int>, entries: seq<nat>, p: nat, n: nat)
    requires |h0| == HSIZE
  {
    forall q {:trigger NoMatch(src, h0, entries, p, q)} :: p <= q < p + n ==> NoMatch(src, h0, entries, p, q)
  }

  /** A run is cut short only by a match or the end. */
  predicate AfterFull(toks: seq<Token>)
  {
    toks != [] && toks[|toks| - 1].Literals? ==> |toks[|toks| - 1].run| == MAX_LIT
  }

  /** The next token: a match if the table offers one, as long as it goes, else literals. */
  ghost predicate Choice(src: seq<Byte>, h0: seq<int>, t: Token, full: bool, p: nat, entries: seq<nat>)
    requires |h0| == HSIZE
  {
    match t
    case Literals(run) =>
      full && p + |run| <= |src| && run == src[p..p + |run|] && Run(src, h0, entries, p, |run|)
    case Copy(off, count) =>
      p + 2 < |src|
      && var ref := LastEntry(src, h0, entries, Slot(src, p));
         Usable(src, ref, p) && off == p - ref - 1 && Longest(src, ref, p, count)
  }

  ghost predicate Chosen(src: seq<Byte>, h0: seq<int>, toks: seq<Token>, t: Token)
    requires |h0| == HSIZE
  {
    Choice(src, h0, t, AfterFull(toks), |Text(toks)|, Entries(src, toks)) == true
  }

  /** Every token is the one to choose, for an input and a table with whatever it held before. */
  ghost predicate Greedy(src: seq<Byte>, h0: seq<int>, toks: seq<Token>)
    requires |h0| == HSIZE
  {
    toks == [] || var init, t := toks[..|toks| - 1], toks[|toks| - 1];
                  Greedy(src, h0, init) && Playable(Text(init), t) && Chosen(src, h0, init, t)
  }

  lemma {:induction false} GreedyWellFormed(src: seq<Byte>, h0: seq<int>, toks: seq<Token>)
    requires |h0| == HSIZE && Greedy(src, h0, toks)
    ensures WellFormed(toks)
  {
    if toks != [] {
      GreedyWellFormed(src, h0, toks[..|toks| - 1]);
    }
  }

  lemma GreedyPush(src: seq<Byte>, h0: seq<int>, toks: seq<Token>, t: Token)
    requires |h0| == HSIZE && Greedy(src, h0, toks) && Playable(Text(toks), t) && Chosen(src, h0, toks, t)
    ensures Greedy(src, h0, toks + [t])
    ensures Entries(src, toks + [t]) == Entries(src, toks) + TokenEntries(src, |Text(toks)|, t)
    ensures Text(toks + [t]) == Play(Text(toks), t)
  {
    assert (toks + [t])[..|toks|] == toks;
  }

  ghost predicate Opened(i: int) { true }

  /** The tokens and `lit` more literals up to `ip` are chosen; in view only where `Opened` is mentioned. */
  ghost predicate Parsed(src: seq<Byte>, h0: seq<int>, toks: seq<Token>, ip: nat, lit: nat)
    requires |h0| == HSIZE
  {
    (forall i {:trigger Opened(i)} :: Opened(i) ==>
       && Greedy(src, h0, toks) && lit <= ip <= |src| && |Text(toks)| == ip - lit && AfterFull(toks)
       && Run(src, h0, Entries(src, toks), ip - lit, lit)) == true
  }

  /** The positions entered so far, with `lit` literals in the open run. */
  ghost function Entered(src: seq<Byte>, toks: seq<Token>, ip: nat, lit: nat): seq<nat>
    requires lit <= ip
  {
    Entries(src, toks) + RunEntries(src, ip - lit, ip)
  }

  /** The table holds the last entries; in view only where `Opened` is mentioned. */
  ghost predicate Tabled(src: seq<Byte>, h0: seq<int>, entries: seq<nat>, table: seq<int>)
    requires |h0| == HSIZE
  {
    (forall i {:trigger Opened(i)} :: Opened(i) ==>
       |table| == HSIZE && forall s :: 0 <= s < HSIZE ==> table[s] == LastEntry(src, h0, entries, s)) == true
  }

  lemma TableAt(src: seq<Byte>, h0: seq<int>, entries: seq<nat>, table: seq<int>, s: nat)
    requires |h0| == HSIZE && Tabled(src, h0, entries, table) && s < HSIZE
    ensures |table| == HSIZE && table[s] == LastEntry(src, h0, entries, s)
  {
    assert Opened(0);
  }

  /** Entering a position. */
  lemma TableMore(src: seq<Byte>, h0: seq<int>, entries: seq<nat>, table: seq<int>, q: nat)
    requires |h0| == |table| == HSIZE && q + 2 < |src| && Tabled(src, h0, entries, table)
    ensures Tabled(src, h0, entries + [q], table[Slot(src, q) := q])
  {
    assert Opened(0);
    assert (entries + [q])[..|entries|] == entries;
  }

  /** The tokens with the open run, if it holds anything. */
  function Closed(src: seq<Byte>, toks: seq<Token>, ip: nat, lit: nat): seq<Token>
    requires lit <= ip <= |src|
  {
    if lit == 0 then toks else toks + [Literals(src[ip - lit..ip])]
  }

  lemma ParsedStart(src: seq<Byte>, h0: seq<int>)
    requires |h0| == HSIZE
    ensures Parsed(src, h0, [], 0, 0) && Tabled(src, h0, Entered(src, [], 0, 0), h0)
  {
    assert Entered(src, [], 0, 0) == [];
  }

  lemma EnteredMore(src: seq<Byte>, toks: seq<Token>, ip: nat, lit: nat)
    requires lit <= ip && ip + 2 < |src|
    ensures Entered(src, toks, ip + 1, lit + 1) == Entered(src, toks, ip, lit) + [ip]
  {
    assert RunEntries(src, ip - lit, ip + 1) == RunEntries(src, ip - lit, ip) + [ip];
  }

  lemma RunMore(src: seq<Byte>, h0: seq<int>, entries: seq<nat>, p: nat, n: nat, q: nat, n1: nat)
    requires |h0| == HSIZE && Run(src, h0, entries, p, n) == true && q == p + n && n1 == n + 1
    requires NoMatch(src, h0, entries, p, q) == true
    ensures Run(src, h0, entries, p, n1) == true
  {
  }

  /** An octet that is passed over. */
  lemma ParsedLiteral(src: seq<Byte>, h0: seq<int>, toks: seq<Token>, ip: nat, lit: nat, table: seq<int>)
    requires |h0| == |table| == HSIZE && lit <= ip && ip + 2 < |src| && Parsed(src, h0, toks, ip, lit)
    requires Tabled(src, h0, Entered(src, toks, ip, lit), table) && !Usable(src, table[Slot(src, ip)], ip)
    ensures Parsed(src, h0, toks, ip + 1, lit + 1)
    ensures Tabled(src, h0, Entered(src, toks, ip + 1, lit + 1), table[Slot(src, ip) := ip])
  {
    TableAt(src, h0, Entered(src, toks, ip, lit), table, Slot(src, ip));
    TableMore(src, h0, Entered(src, toks, ip, lit), table, ip);
    EnteredMore(src, toks, ip, lit);
    ParsedOn(src, h0, toks, ip, lit);
  }

  /** One more literal for which the table offers no match, or which is not looked up. */
  lemma ParsedOn(src: seq<Byte>, h0: seq<int>, toks: seq<Token>, ip: nat, lit: nat)
    requires |h0| == HSIZE && lit <= ip < |src| && Parsed(src, h0, toks, ip, lit)
    requires ip + 2 < |src| ==> !Usable(src, LastEntry(src, h0, Entered(src, toks, ip, lit), Slot(src, ip)), ip)
    ensures Parsed(src, h0, toks, ip + 1, lit + 1)
  {
    var p, lit1, entries := ip - lit, lit + 1, Entries(src, toks);
    ParsedNow(src, h0, toks, ip, lit, p);
    RunMore(src, h0, entries, p, lit, ip, lit1);
    ParsedIs(src, h0, toks, ip + 1, lit1, p);
  }

  lemma ParsedNow(src: seq<Byte>, h0: seq<int>, toks: seq<Token>, ip: nat, lit: nat, p: nat)
    requires |h0| == HSIZE && Parsed(src, h0, toks, ip, lit) && ip == p + lit
    ensures Greedy(src, h0, toks) == true && p == |Text(toks)| && ip <= |src| && AfterFull(toks)
    ensures Run(src, h0, Entries(src, toks), p, lit) == true
  {
    assert Opened(0);
  }

  lemma ParsedIs(src: seq<Byte>, h0: seq<int>, toks: seq<Token>, ip: nat, lit: nat, p: nat)
    requires |h0| == HSIZE && Greedy(src, h0, toks) == true && p == |Text(toks)| && ip == p + lit <= |src|
    requires AfterFull(toks) && Run(src, h0, Entries(src, toks), p, lit) == true
    ensures Parsed(src, h0, toks, ip, lit)
  {
  }

  /** Closing the open run. */
  lemma ParsedClosed(src: seq<Byte>, h0: seq<int>, toks: seq<Token>, ip: nat, lit: nat)
    requires |h0| == HSIZE && Parsed(src, h0, toks, ip, lit) && lit <= MAX_LIT && lit <= ip <= |src|
    ensures var cs := Closed(src, toks, ip, lit);
            Greedy(src, h0, cs) == true && |Text(cs)| == ip && Entries(src, cs) == Entered(src, toks, ip, lit)
  {
    var p, cs := ip - lit, Closed(src, toks, ip, lit);
    ParsedNow(src, h0, toks, ip, lit, p);
    if lit > 0 {
      RunPush(src, h0, toks, src[p..ip], p, ip, Entries(src, toks), cs);
    } else {
      EnteredNone(src, toks, ip);
    }
  }

  lemma RunPush(src: seq<Byte>, h0: seq<int>, toks: seq<Token>, run: seq<Byte>, p: nat, ip: nat, entries: seq<nat>,
      cs: seq<Token>)
    requires |h0| == HSIZE && Greedy(src, h0, toks) == true && 0 < |run| <= MAX_LIT && AfterFull(toks)
    requires p == |Text(toks)| && p + |run| == ip <= |src| && run == src[p..ip] && entries == Entries(src, toks)
    requires Run(src, h0, entries, p, |run|) == true && cs == toks + [Literals(run)]
    ensures Greedy(src, h0, cs) == true && |Text(cs)| == ip && Entries(src, cs) == entries + RunEntries(src, p, ip)
  {
    RunChoice(src, h0, run, p, ip, entries);
    GreedyPush(src, h0, toks, Literals(run));
  }

  lemma RunChoice(src: seq<Byte>, h0: seq<int>, run: seq<Byte>, p: nat, ip: nat, entries: seq<nat>)
    requires |h0| == HSIZE && p + |run| == ip <= |src| && run == src[p..ip]
    requires Run(src, h0, entries, p, |run|) == true
    ensures Choice(src, h0, Literals(run), true, p, entries) == true
    ensures TokenEntries(src, p, Literals(run)) == RunEntries(src, p, ip)
  {
  }

  lemma EnteredNone(src: seq<Byte>, toks: seq<Token>, ip: nat)
    ensures Entered(src, toks, ip, 0) == Entries(src, toks)
  {
    assert RunEntries(src, ip, ip) == [];
  }

  /** A full run. */
  lemma ParsedFull(src: seq<Byte>, h0: seq<int>, toks: seq<Token>, ip: nat)
    requires |h0| == HSIZE && Parsed(src, h0, toks, ip, MAX_LIT) && MAX_LIT <= ip <= |src|
    ensures var cs := Closed(src, toks, ip, MAX_LIT);
            Parsed(src, h0, cs, ip, 0) && Entered(src, cs, ip, 0) == Entered(src, toks, ip, MAX_LIT)
  {
    var cs := Closed(src, toks, ip, MAX_LIT);
    ParsedClosed(src, h0, toks, ip, MAX_LIT);
    EnteredNone(src, cs, ip);
  }

  /** A match is taken. */
  lemma ParsedMatch(src: seq<Byte>, h0: seq<int>, cs: seq<Token>, ip: nat, ref: nat, t: Token, e: nat, toks: seq<Token>)
    requires |h0| == HSIZE && Greedy(src, h0, cs) && |Text(cs)| == ip && ip + 2 < |src|
    requires ref == LastEntry(src, h0, Entries(src, cs), Slot(src, ip)) && Usable(src, ref, ip)
    requires t.Copy? && t.off == ip - ref - 1 && Longest(src, ref, ip, t.count) == true && e == ip + t.count
    requires toks == cs + [t]
    ensures Parsed(src, h0, toks, e, 0) && Entered(src, toks, e, 0) == Entries(src, cs) + TokenEntries(src, ip, t)
  {
    GreedyPush(src, h0, cs, t);
    EnteredNone(src, toks, e);
  }

  /** The table after a match that ends at `e`, if the search goes on. */
  ghost predicate Refreshed(src: seq<Byte>, table: seq<int>, ip: nat, e: nat, table': seq<int>)
    requires |table| == HSIZE && ip + 2 <= e < |src| - 2
  {
    table' == table[Slot(src, ip) := ip][Slot(src, e - 2) := e - 2][Slot(src, e - 1) := e - 1]
  }

  lemma TableMatch(src: seq<Byte>, h0: seq<int>, entries: seq<nat>, table: seq<int>, ip: nat, t: Token, e: nat,
      table': seq<int>)
    requires |h0| == |table| == HSIZE && Tabled(src, h0, entries, table) && t.Copy? && t.count >= 3
    requires e == ip + t.count < |src| - 2 && Refreshed(src, table, ip, e, table')
    ensures Tabled(src, h0, entries + TokenEntries(src, ip, t), table')
  {
    var t1 := table[Slot(src, ip) := ip];
    TableMore(src, h0, entries, table, ip);
    TableMore(src, h0, entries + [ip], t1, e - 2);
    TableMore(src, h0, entries + [ip] + [e - 2], t1[Slot(src, e - 2) := e - 2], e - 1);
    assert entries + TokenEntries(src, ip, t) == entries + [ip] + [e - 2] + [e - 1];
  }

  lemma ParsedPut(src: seq<Byte>, h0: seq<int>, toks: seq<Token>, ip: nat, lit: nat)
    requires |h0| == HSIZE && Parsed(src, h0, toks, ip, lit) && 0 < lit <= MAX_LIT && lit <= ip <= |src|
    ensures var toks' := if lit == MAX_LIT then Closed(src, toks, ip, MAX_LIT) else toks;
            var lit' := if lit == MAX_LIT then 0 else lit;
            Parsed(src, h0, toks', ip, lit') && Entered(src, toks', ip, lit') == Entered(src, toks, ip, lit)
  {
    if lit == MAX_LIT {
      ParsedFull(src, h0, toks, ip);
    }
  }

  /** So many tokens leave no room for another; in view only where `Opened` is mentioned. */
  ghost predicate Fills(toks: seq<Token>, outLen: nat)
  {
    (forall i {:trigger Opened(i)} :: Opened(i) ==> WellFormed(toks) && |Encoding(toks)| + 4 >= outLen) == true
  }

  /** The compressor gives up: the tokens chosen so far leave no room; in view only where `Opened` is mentioned. */
  ghost predicate Blocked(src: seq<Byte>, h0: seq<int>, toks: seq<Token>, outLen: nat)
    requires |h0| == HSIZE
  {
    (forall i {:trigger Opened(i)} :: Opened(i) ==> Greedy(src, h0, toks) && Fills(toks, outLen)) == true
  }

  // ----- the compressor

  function First(src: seq<Byte>, ip: nat): int
    requires ip + 1 < |src|
  {
    src[ip] as int * 256 + src[ip + 1] as int
  }

  function Next(hval: int, src: seq<Byte>, ip: nat): int
    requires ip + 2 < |src|
  {
    (hval * 256) % 0x1_0000_0000 + src[ip + 2] as int
  }

  /** The hash slot: 32-bit arithmetic masked to 16 bits. */
  function Index(hval: int): (slot: nat)
    ensures slot < HSIZE
  {
    (hval / 256 - hval * 5) % HSIZE
  }

  /** The rolling value holds the two octets at `p` in its low half, whatever came before. */
  predicate Rolls(src: seq<Byte>, hval: int, p: nat)
    requires p + 1 < |src|
  {
    hval >= 0 && hval % 0x1_0000 == First(src, p)
  }

  /** The slot of the rolling value is that of three octets. */
  lemma NextIndex(src: seq<Byte>, hval: int, p: nat)
    requires p + 2 < |src| && Rolls(src, hval, p)
    ensures Index(Next(hval, src, p)) == Slot(src, p) && Rolls(src, Next(hval, src, p), p + 1)
  {
    var m, k := Shifted(hval, src[p], src[p + 1]);
    Masked(Next(hval, src, p), m, k, src[p], src[p + 1], src[p + 2]);
  }

  /** Shifting left drops the oldest octet. */
  lemma Shifted(hval: int, a: int, b: int) returns (m: int, k: int)
    requires hval >= 0 && hval % 0x1_0000 == a * 256 + b
    ensures hval * 256 % 0x1_0000_0000 == 256 * m && m == 0x1_0000 * k + (a * 256 + b) && m >= 0
  {
    m := hval % 0x100_0000;
    k := m / 0x1_0000;
    assert hval == 0x100_0000 * (hval / 0x100_0000) + m;
    assert m % 0x1_0000 == a * 256 + b by {
      SameRemainder(256 * (hval / 0x100_0000), m, hval);
    }
  }

  lemma Masked(h: int, m: int, k: int, a: int, b: int, c: int)
    requires m == 0x1_0000 * k + (a * 256 + b) && h == 256 * m + c && m >= 0
    requires 0 <= a < 256 && 0 <= b < 256 && 0 <= c < 256
    ensures (h / 256 - h * 5) % 0x1_0000 == (a * 256 + b - 5 * (b * 256 + c)) % 0x1_0000
    ensures h % 0x1_0000 == b * 256 + c
  {
    assert h / 256 == m;
    SameRemainder(k - 256 * 5 * k - 5 * a, a * 256 + b - 5 * (b * 256 + c), h / 256 - h * 5);
    SameRemainder(256 * k + a, b * 256 + c, h);
  }

  lemma SameRemainder(k: int, r: int, n: int)
    requires n == 0x1_0000 * k + r
    ensures n % 0x1_0000 == r % 0x1_0000
  {
  }

  /**
   * Extend a three-octet match: sixteen unchecked comparisons when there is room for them, then
   * one at a time up to the limit.
   */
  method MatchLength(src: seq<Byte>, ref: nat, ip: nat) returns (len: nat)
    requires ref < ip && ip + 4 < |src|
    requires Same(src, ref, ip, 3)
    ensures Longest(src, ref, ip, len) && len <= MAX_REF
  {
    len := 2;
    var maxlen := |src| - ip - len;
    maxlen := if maxlen > MAX_REF then MAX_REF else maxlen;
    if maxlen > 16 {
      var k := 0;
      while k < 16
        invariant 0 <= k <= 16 && len == 2 + k
        invariant Same(src, ref, ip, len + 1)
      {
        len := len + 1;
        if src[ref + len] != src[ip + len] {
          return;
        }
        k := k + 1;
      }
    }
    len := len + 1;
    while len < maxlen && src[ref + len] == src[ip + len]
      invariant 3 <= len && (len <= maxlen || len == 19)
      invariant len == 19 ==> maxlen > 16
      invariant Same(src, ref, ip, len)
    {
      len := len + 1;
    }
  }

  /** Write the two or three bytes of a back reference. */
  method EmitReference(dst: array<Byte>, op: nat, off: nat, m: nat) returns (op': nat)
    requires Fits(Copy(off, m)) && op + 3 <= dst.Length
    modifies dst
    ensures op' == op + |TokenBytes(Copy(off, m))|
    ensures dst[..op'] == old(dst[..op]) + TokenBytes(Copy(off, m))
  {
    var len := m - 2;
    op' := op;
    if len < 7 {
      dst[op'] := off / 256 + len * 32;
      op' := op' + 1;
    } else {
      dst[op'] := off / 256 + 7 * 32;
      op' := op' + 1;
      dst[op'] := len - 7;
      op' := op' + 1;
    }
    dst[op'] := off % 256;
    op' := op' + 1;
  }

  ghost predicate Counted(i: int) { true }

  /** The bytes `out` encode the first `p` octets of `src`; in view only where `Counted` is mentioned. */
  ghost predicate Spells(toks: seq<Token>, out: seq<Byte>, src: seq<Byte>, p: int)
  {
    (forall i {:trigger Counted(i)} :: Counted(i) ==>
       0 <= p <= |src| && WellFormed(toks) && Encoding(toks) == out && Text(toks) == src[..p]) == true
  }

  /** They do so with at most one extra byte per 32. */
  ghost predicate Commits(toks: seq<Token>, out: seq<Byte>, src: seq<Byte>, p: int)
  {
    0 <= p <= |src| && Spells(toks, out, src, p) && |out| <= p + p / 32
  }

  /** Where the compressor is: octets read, bytes written, octets in the open literal run. */
  datatype Cursor = Cursor(ip: nat, op: nat, lit: nat)

  /** All before the run's header is written, and its octets after it; in view only where `Counted` is mentioned. */
  ghost predicate Holding(toks: seq<Token>, out: seq<Byte>, src: seq<Byte>, ip: nat, op: nat, lit: nat)
    requires lit <= ip <= |src| && lit + 1 <= op <= |out|
  {
    (forall i {:trigger Counted(i)} :: Counted(i) ==>
       Commits(toks, out[..op - lit - 1], src, ip - lit) && out[op - lit..op] == src[ip - lit..ip]) == true
  }

  /** The run header cell is at `op - lit - 1`, the run's octets follow, and all before it is committed. */
  ghost predicate Open(toks: seq<Token>, out: seq<Byte>, src: seq<Byte>, c: Cursor)
  {
    match c
    case Cursor(ip, op, lit) =>
      && lit <= MAX_LIT && lit <= ip <= |src| && lit + 1 <= op <= |out|
      && Holding(toks, out, src, ip, op, lit)
  }

  /** One more literal octet. */
  lemma OpenExtends(toks: seq<Token>, out: seq<Byte>, src: seq<Byte>, ip: nat, op: nat, lit: nat)
    requires Open(toks, out, src, Cursor(ip, op, lit)) == true && lit < MAX_LIT && op < |out| && lit <= ip < |src|
        && lit < op
    ensures Open(toks, out[op := src[ip]], src, Cursor(ip + 1, op + 1, lit + 1)) == true
  {
    var out', a, b := out[op := src[ip]], op - lit, ip - lit;
    OpenParts(toks, out, src, ip, op, lit, a, b);
    RunExtends(out, out', src, ip, op, a, b);
    MakeOpen(toks, out', src, ip + 1, op + 1, lit + 1, a, b);
  }

  lemma OpenParts(toks: seq<Token>, out: seq<Byte>, src: seq<Byte>, ip: nat, op: nat, lit: nat, a: nat, b: nat)
    requires Open(toks, out, src, Cursor(ip, op, lit)) == true && op == a + lit && ip == b + lit
    ensures b <= ip <= |src| && 1 <= a <= op <= |out| && Commits(toks, out[..a - 1], src, b) == true
        && out[a..op] == src[b..ip]
  {
    assert Counted(0);
  }

  /** The open run, by where it starts in the output and in the input. */
  lemma MakeOpen(toks: seq<Token>, out: seq<Byte>, src: seq<Byte>, ip: nat, op: nat, lit: nat, a: nat, b: nat)
    requires lit <= MAX_LIT && b <= ip <= |src| && 1 <= a <= op <= |out| && op == a + lit && ip == b + lit
    requires Commits(toks, out[..a - 1], src, b) == true && out[a..op] == src[b..ip]
    ensures Open(toks, out, src, Cursor(ip, op, lit)) == true
  {
  }

  lemma RunExtends(out: seq<Byte>, out': seq<Byte>, src: seq<Byte>, ip: nat, op: nat, a: nat, b: nat)
    requires b <= ip < |src| && 1 <= a <= op < |out| && out[a..op] == src[b..ip] && out' == out[op := src[ip]]
    ensures out'[..a - 1] == out[..a - 1] && out'[a..op + 1] == src[b..ip + 1]
  {
    assert out'[a..op + 1] == out[a..op] + [src[ip]];
    assert src[b..ip + 1] == src[b..ip] + [src[ip]];
  }

  /** Storing the header of an open run turns it into a token. */
  lemma CloseRun(toks: seq<Token>, out: seq<Byte>, src: seq<Byte>, ip: nat, op: nat, lit: nat)
    requires Open(toks, out, src, Cursor(ip, op, lit)) && 0 < lit
    ensures var t := Literals(src[ip - lit..ip]);
            Spells(toks + [t], out[op - lit - 1 := lit - 1][..op], src, ip)
  {
    assert Counted(0);
    var a, b := op - lit, ip - lit;
    SplitAt(src, b, ip);
    CloseAt(toks, out, src[..b], src[b..ip], op, a, lit);
  }

  /** The run from `a` on. */
  lemma CloseAt(toks: seq<Token>, out: seq<Byte>, text: seq<Byte>, run: seq<Byte>, op: nat, a: nat, lit: nat)
    requires 1 <= a <= op <= |out| && op == a + lit && 0 < lit <= MAX_LIT && out[a..op] == run
    requires WellFormed(toks) && Encoding(toks) == out[..a - 1] && Text(toks) == text
    ensures WellFormed(toks + [Literals(run)]) && Text(toks + [Literals(run)]) == text + run
    ensures Encoding(toks + [Literals(run)]) == out[a - 1 := lit - 1][..op]
  {
    PushRun(toks, out[..a - 1], text, run);
    HeaderStored(out, run, op, lit);
  }

  lemma PushRun(toks: seq<Token>, enc: seq<Byte>, text: seq<Byte>, run: seq<Byte>)
    requires WellFormed(toks) && Encoding(toks) == enc && Text(toks) == text && 0 < |run| <= MAX_LIT
    ensures WellFormed(toks + [Literals(run)])
    ensures Encoding(toks + [Literals(run)]) == enc + TokenBytes(Literals(run))
    ensures Text(toks + [Literals(run)]) == text + run
  {
    PushToken(toks, Literals(run));
  }

  lemma SplitAt(s: seq<Byte>, i: nat, j: nat)
    requires i <= j <= |s|
    ensures s[..i] + s[i..j] == s[..j]
  {
  }

  lemma HeaderStored(out: seq<Byte>, run: seq<Byte>, op: nat, lit: nat)
    requires 0 < lit <= MAX_LIT && lit < op <= |out| && out[op - lit..op] == run
    ensures out[op - lit - 1 := lit - 1][..op] == out[..op - lit - 1] + TokenBytes(Literals(run))
  {
    assert out[op - lit - 1 := lit - 1][..op] == out[..op - lit - 1] + ([lit - 1] + out[op - lit..op]);
  }

  /** A new run opens where the committed bytes end. */
  lemma OpenEmpty(toks: seq<Token>, out: seq<Byte>, src: seq<Byte>, ip: nat, op: nat)
    requires 0 < op <= |out| && Commits(toks, out[..op - 1], src, ip)
    ensures Open(toks, out, src, Cursor(ip, op, 0))
  {
  }

  /** A match of at least three octets pays for its own bytes and for the header of the run it ends. */
  lemma MatchPays(toks: seq<Token>, sealed: seq<Byte>, src: seq<Byte>, ref: nat, ip: nat, m: nat, lit: nat)
    requires Spells(toks, sealed, src, ip) && ip <= |src|
    requires lit <= ip && |sealed| <= ip + (ip - lit) / 32 + 1
    requires ref < ip <= ref + MAX_OFF && 3 <= m <= MAX_REF && Same(src, ref, ip, m)
    ensures var t := Copy(ip - ref - 1, m); Commits(toks + [t], sealed + TokenBytes(t), src, ip + m)
  {
    assert Counted(0);
    PushToken(toks, Copy(ip - ref - 1, m));
    CopyBackReproduces(src, ref, ip, m);
  }

  lemma OpenAfterMatch(toks: seq<Token>, sealed: seq<Byte>, out: seq<Byte>, src: seq<Byte>, ref: nat, ip: nat, m: nat,
      lit: nat, op: nat)
    requires Spells(toks, sealed, src, ip) && ip <= |src|
    requires lit <= ip && |sealed| <= ip + (ip - lit) / 32 + 1
    requires ref < ip <= ref + MAX_OFF && 3 <= m <= MAX_REF && Same(src, ref, ip, m)
    requires op < |out| && out[..op] == sealed + TokenBytes(Copy(ip - ref - 1, m))
    ensures Open(toks + [Copy(ip - ref - 1, m)], out, src, Cursor(ip + m, op + 1, 0))
  {
    MatchPays(toks, sealed, src, ref, ip, m, lit);
    OpenEmpty(toks + [Copy(ip - ref - 1, m)], out, src, ip + m, op + 1);
  }

  lemma FillsSpelled(toks: seq<Token>, out: seq<Byte>, src: seq<Byte>, p: nat, outLen: nat)
    requires Spells(toks, out, src, p) && |out| + 4 >= outLen
    ensures Fills(toks, outLen)
  {
    assert Counted(0);
  }

  /** The run closed has the bytes up to `op`, or one less when it was empty. */
  lemma ClosedSize(toks: seq<Token>, out: seq<Byte>, src: seq<Byte>, ip: nat, op: nat, lit: nat)
    requires Open(toks, out, src, Cursor(ip, op, lit))
    ensures var cs := Closed(src, toks, ip, lit);
            WellFormed(cs) && |Encoding(cs)| == if lit == 0 then op - 1 else op
  {
    if lit > 0 {
      CloseRun(toks, out, src, ip, op, lit);
    }
    assert Counted(0);
  }

  lemma GivesUp(src: seq<Byte>, h0: seq<int>, toks: seq<Token>, out: seq<Byte>, c: Cursor, outLen: nat)
    requires |h0| == HSIZE && Open(toks, out, src, c) && Parsed(src, h0, toks, c.ip, c.lit) && c.op + 3 >= outLen
    ensures Blocked(src, h0, Closed(src, toks, c.ip, c.lit), outLen)
  {
    ClosedSize(toks, out, src, c.ip, c.op, c.lit);
    ParsedClosed(src, h0, toks, c.ip, c.lit);
  }

  ghost predicate Looked(i: int) { true }

  /**
   * The rolling value and the hash table belong to the tokens chosen up to `ip`, if the search goes on;
   * in view only where `Looked` is mentioned.
   */
  ghost predicate Working(src: seq<Byte>, h0: seq<int>, toks: seq<Token>, ip: nat, lit: nat, hval: int, table: seq<int>)
    requires |h0| == HSIZE
  {
    (forall i {:trigger Looked(i)} :: Looked(i) ==>
       lit <= ip && Parsed(src, h0, toks, ip, lit)
       && (ip < |src| - 2 ==> Rolls(src, hval, ip) && Tabled(src, h0, Entered(src, toks, ip, lit), table))) == true
  }

  lemma WorkingIs(src: seq<Byte>, h0: seq<int>, toks: seq<Token>, ip: nat, lit: nat, hval: int, table: seq<int>)
    requires |h0| == HSIZE && lit <= ip && Parsed(src, h0, toks, ip, lit)
    requires ip < |src| - 2 ==> Rolls(src, hval, ip) && Tabled(src, h0, Entered(src, toks, ip, lit), table)
    ensures Working(src, h0, toks, ip, lit, hval, table)
  {
  }

  lemma WorkingNow(src: seq<Byte>, h0: seq<int>, toks: seq<Token>, ip: nat, lit: nat, hval: int, table: seq<int>)
    requires |h0| == HSIZE && Working(src, h0, toks, ip, lit, hval, table)
    ensures lit <= ip && Parsed(src, h0, toks, ip, lit)
    ensures ip < |src| - 2 ==> Rolls(src, hval, ip) && Tabled(src, h0, Entered(src, toks, ip, lit), table)
  {
    assert Looked(0);
  }

  /** The match branch of the loop. */
  method TakeMatch(src: seq<Byte>, ref: nat, dst: array<Byte>, c: Cursor, outLen: nat, htab: array<int>,
      ghost toks: seq<Token>, ghost h0: seq<int>, ghost table: seq<int>)
    returns (ok: bool, c': Cursor, hval: int, ghost toks': seq<Token>)
    requires htab.Length == |h0| == |table| == HSIZE && outLen < dst.Length && c.op <= outLen + 1 && c.lit < MAX_LIT
    requires c.lit <= c.ip && c.ip + 2 < |src| && Open(toks, dst[..], src, c) && Parsed(src, h0, toks, c.ip, c.lit)
    requires Tabled(src, h0, Entered(src, toks, c.ip, c.lit), table) && htab[..] == table[Slot(src, c.ip) := c.ip]
    requires ref == table[Slot(src, c.ip)] && Usable(src, ref, c.ip)
    modifies dst, htab
    ensures !ok ==> outLen < |src| + |src| / 32 + 4 && Blocked(src, h0, toks', outLen)
    ensures ok ==> c.ip < c'.ip <= |src| && c'.op <= outLen + 1 && c'.lit < MAX_LIT
    ensures ok ==> Open(toks', dst[..], src, c') == true
    ensures ok ==> Working(src, h0, toks', c'.ip, c'.lit, hval, htab[..])
  {
    hval := 0;
    ok, c', toks' := PutMatch(src, ref, dst, c, outLen, toks);
    if !ok {
      MatchBlocked(src, h0, toks, c.ip, c.lit, outLen);
      return;
    }
    ghost var t := Copy(c.ip - ref - 1, c'.ip - c.ip);
    if c'.ip < |src| - 2 {
      hval := Refresh(src, c'.ip, htab);
      assert Refreshed(src, table, c.ip, c'.ip, htab[..]);
    }
    MatchDone(src, h0, toks, c.ip, c.lit, table, ref, t, c'.ip, toks', hval, htab[..]);
  }

  lemma MatchBlocked(src: seq<Byte>, h0: seq<int>, toks: seq<Token>, ip: nat, lit: nat, outLen: nat)
    requires |h0| == HSIZE && lit <= MAX_LIT && lit <= ip <= |src| && Parsed(src, h0, toks, ip, lit)
    requires Fills(Closed(src, toks, ip, lit), outLen)
    ensures Blocked(src, h0, Closed(src, toks, ip, lit), outLen)
  {
    ParsedClosed(src, h0, toks, ip, lit);
  }

  lemma MatchDone(src: seq<Byte>, h0: seq<int>, toks: seq<Token>, ip: nat, lit: nat, table: seq<int>, ref: nat,
      t: Token, e: nat, toks': seq<Token>, hval: int, table': seq<int>)
    requires |h0| == |table| == HSIZE && lit <= MAX_LIT && lit <= ip < e && ip + 2 < |src|
    requires Parsed(src, h0, toks, ip, lit) && Tabled(src, h0, Entered(src, toks, ip, lit), table)
    requires ref == table[Slot(src, ip)] && Usable(src, ref, ip)
    requires t.Copy? && t.off == ip - ref - 1 && Longest(src, ref, ip, t.count) == true && e == ip + t.count
    requires e < |src| - 2 ==> Refreshed(src, table, ip, e, table') && Rolls(src, hval, e)
    requires toks' == Closed(src, toks, ip, lit) + [t]
    ensures Working(src, h0, toks', e, 0, hval, table')
  {
    var entries := Entered(src, toks, ip, lit);
    ParsedClosed(src, h0, toks, ip, lit);
    TableAt(src, h0, entries, table, Slot(src, ip));
    ParsedMatch(src, h0, Closed(src, toks, ip, lit), ip, ref, t, e, toks');
    if e < |src| - 2 {
      TableMatch(src, h0, entries, table, ip, t, e, table');
    }
  }

  /** The literal branch of the loop. */
  method PassOver(src: seq<Byte>, dst: array<Byte>, c: Cursor, outLen: nat, ghost toks: seq<Token>, ghost h0: seq<int>,
      ghost table: seq<int>)
    returns (ok: bool, c': Cursor, ghost toks': seq<Token>)
    requires |h0| == |table| == HSIZE && outLen < dst.Length && c.op <= outLen + 1 && c.lit < MAX_LIT
    requires c.lit <= c.ip && c.ip + 2 < |src| && Open(toks, dst[..], src, c) && Parsed(src, h0, toks, c.ip, c.lit)
    requires Tabled(src, h0, Entered(src, toks, c.ip, c.lit), table) && !Usable(src, table[Slot(src, c.ip)], c.ip)
    modifies dst
    ensures !ok ==> outLen < |src| + |src| / 32 + 4 && Blocked(src, h0, toks', outLen)
    ensures ok ==> c'.ip == c.ip + 1 && c'.op <= outLen + 1 && c'.lit < MAX_LIT
    ensures ok ==> Open(toks', dst[..], src, c') == true
    ensures ok ==> c'.lit <= c'.ip && Parsed(src, h0, toks', c'.ip, c'.lit)
                   && Tabled(src, h0, Entered(src, toks', c'.ip, c'.lit), table[Slot(src, c.ip) := c.ip])
  {
    ok, c', toks' := c.op < outLen, c, Closed(src, toks, c.ip, c.lit);
    if !ok {
      SpaceUsed(toks, dst[..], src, c);
      GivesUp(src, h0, toks, dst[..], c, outLen);
      return;
    }
    c', toks' := PutLiteral(src, dst, c, toks);
    LiteralDone(src, h0, toks, c.ip, c.lit, table, toks', c'.ip, c'.lit, table[Slot(src, c.ip) := c.ip]);
  }

  lemma LiteralDone(src: seq<Byte>, h0: seq<int>, toks: seq<Token>, ip: nat, lit: nat, table: seq<int>,
      toks': seq<Token>, ip': nat, lit': nat, table': seq<int>)
    requires |h0| == |table| == HSIZE && lit < MAX_LIT && lit <= ip && ip + 2 < |src| && ip' == ip + 1
    requires Parsed(src, h0, toks, ip, lit) && Tabled(src, h0, Entered(src, toks, ip, lit), table)
    requires !Usable(src, table[Slot(src, ip)], ip) && table' == table[Slot(src, ip) := ip]
    requires if lit + 1 == MAX_LIT then lit' == 0 && toks' == Closed(src, toks, ip', MAX_LIT)
             else lit' == lit + 1 && toks' == toks
    ensures lit' <= ip' && Parsed(src, h0, toks', ip', lit') && Tabled(src, h0, Entered(src, toks', ip', lit'), table')
  {
    ParsedLiteral(src, h0, toks, ip, lit, table);
    ParsedPut(src, h0, toks, ip', lit + 1);
  }

  /** The main loop, one step. */
  method Advance(src: seq<Byte>, dst: array<Byte>, c: Cursor, outLen: nat, htab: array<int>, hval: int,
      ghost toks: seq<Token>, ghost h0: seq<int>)
    returns (ok: bool, c': Cursor, hval': int, ghost toks': seq<Token>)
    requires htab.Length == |h0| == HSIZE && outLen < dst.Length && c.op <= outLen + 1 && c.lit < MAX_LIT
    requires c.ip < |src| - 2 && Open(toks, dst[..], src, c) == true 
    requires Working(src, h0, toks, c.ip, c.lit, hval, htab[..])
    modifies dst, htab
    ensures !ok ==> outLen < |src| + |src| / 32 + 4 && Blocked(src, h0, toks', outLen)
    ensures ok ==> c.ip < c'.ip <= |src| && c'.op <= outLen + 1 && c'.lit < MAX_LIT
    ensures ok ==> Open(toks', dst[..], src, c') == true
    ensures ok ==> Working(src, h0, toks', c'.ip, c'.lit, hval', htab[..])
  {
    ghost var table := htab[..];
    WorkingNow(src, h0, toks, c.ip, c.lit, hval, table);
    var found, ref;
    hval', found, ref := FindMatch(src, c.ip, hval, htab);
    if found {
      ok, c', hval', toks' := TakeMatch(src, ref, dst, c, outLen, htab, toks, h0, table);
    } else {
      ok, c', toks' := PassOver(src, dst, c, outLen, toks, h0, table);
      if ok {
        WorkingIs(src, h0, toks', c'.ip, c'.lit, hval', htab[..]);
      }
    }
  }

  /**
   * lzf_compress. `htab` is the hash table with whatever it held before, each slot an offset from
   * the start of the input; `dst` has one cell beyond the `outLen` the caller grants, because the
   * run header is stored before the space check.
   *
   * The result holds the tokens chosen for the whole input, or there is none because the tokens chosen
   * for a part of it leave no room.
   */
  method Compress(src: seq<Byte>, dst: array<Byte>, outLen: nat, htab: array<int>)
    returns (n: nat, ghost toks: seq<Token>)
    requires htab.Length == HSIZE && outLen < dst.Length
    modifies dst, htab
    ensures n <= outLen
    ensures n > 0 ==> Expand(dst[..n], [], |src|) == Plain(src)
    ensures n <= |src| + (|src| + 31) / 32
    ensures |src| > 0 && outLen >= |src| + |src| / 32 + 4 ==> n > 0
    ensures Greedy(src, old(htab[..]), toks) == true
    ensures n > 0 ==> Spells(toks, dst[..n], src, |src|)
    ensures n == 0 && |src| > 0 ==> Fills(toks, outLen)
  {
    toks := [];
    if |src| == 0 || outLen == 0 {
      return 0, [];
    }
    ghost var h0 := htab[..];
    var c := Cursor(0, 1, 0);
    var hval := if |src| >= 2 then First(src, 0) else 0;
    OpenStart(dst[..], src, h0, hval);
    while c.ip < |src| - 2
      invariant c.ip <= |src| && c.op <= outLen + 1 && c.lit < MAX_LIT
      invariant Open(toks, dst[..], src, c) == true && Working(src, h0, toks, c.ip, c.lit, hval, htab[..])
      decreases |src| - c.ip
    {
      var ok;
      ok, c, hval, toks := Advance(src, dst, c, outLen, htab, hval, toks, h0);
      if !ok {
        BlockedNow(src, h0, toks, outLen);
        return 0, toks;
      }
    }
    SpaceUsed(toks, dst[..], src, c);
    WorkingNow(src, h0, toks, c.ip, c.lit, hval, htab[..]);
    if c.op + 3 > outLen {
      GivesUp(src, h0, toks, dst[..], c, outLen);
      toks := Closed(src, toks, c.ip, c.lit);
      BlockedNow(src, h0, toks, outLen);
      return 0, toks;
    }
    n, toks := Finish(src, dst, c, outLen, toks, h0);
  }

  lemma OpenStart(out: seq<Byte>, src: seq<Byte>, h0: seq<int>, hval: int)
    requires |h0| == HSIZE && |out| >= 1 && (|src| > 2 ==> hval == First(src, 0))
    ensures Open([], out, src, Cursor(0, 1, 0)) == true && Working(src, h0, [], 0, 0, hval, h0)
  {
    OpenEmpty([], out, src, 0, 1);
    ParsedStart(src, h0);
  }

  lemma BlockedNow(src: seq<Byte>, h0: seq<int>, toks: seq<Token>, outLen: nat)
    requires |h0| == HSIZE && Blocked(src, h0, toks, outLen)
    ensures Greedy(src, h0, toks) == true && Fills(toks, outLen)
  {
    assert Opened(0);
  }

  lemma SpaceUsed(toks: seq<Token>, out: seq<Byte>, src: seq<Byte>, c: Cursor)
    requires Open(toks, out, src, c)
    ensures c.lit <= c.ip <= |src| && c.op <= c.ip + (c.ip - c.lit) / 32 + 1
  {
    assert Counted(0);
  }

  /** Look up and replace the hash slot of the three octets at `ip`; is its old content a usable match? */
  method FindMatch(src: seq<Byte>, ip: nat, hval: int, htab: array<int>) returns (hval': int, found: bool, ref: int)
    requires ip + 2 < |src| && htab.Length == HSIZE && Rolls(src, hval, ip)
    modifies htab
    ensures ref == old(htab[Slot(src, ip)]) && found == Usable(src, ref, ip)
    ensures htab[..] == old(htab[..])[Slot(src, ip) := ip] && Rolls(src, hval', ip + 1)
  {
    NextIndex(src, hval, ip);
    hval' := Next(hval, src, ip);
    var slot := Index(hval');
    ref := htab[slot];
    htab[slot] := ip;
    var off := ip - ref - 1;
    found := 0 <= off < MAX_OFF && ip + 4 < |src| && ref > 0
             && src[ref] == src[ip] && src[ref + 1] == src[ip + 1] && src[ref + 2] == src[ip + 2];
    UsableIs(src, ref, ip);
  }

  lemma UsableIs(src: seq<Byte>, ref: int, p: nat)
    ensures Usable(src, ref, p)
       <==> 0 < ref < p <= ref + MAX_OFF && p + 4 < |src|
            && src[ref] == src[p] && src[ref + 1] == src[p + 1] && src[ref + 2] == src[p + 2]
  {
    if 0 < ref < p && p + 4 < |src| {
      assert ref + (p - ref) == p;
    }
  }

  /** Enter the last two positions of a match into the hash table. */
  method Refresh(src: seq<Byte>, ip: nat, htab: array<int>) returns (hval: int)
    requires 2 <= ip < |src| - 2 && htab.Length == HSIZE
    modifies htab
    ensures htab[..] == old(htab[..])[Slot(src, ip - 2) := ip - 2][Slot(src, ip - 1) := ip - 1] && Rolls(src, hval, ip)
  {
    NextIndex(src, First(src, ip - 2), ip - 2);
    hval := Next(First(src, ip - 2), src, ip - 2);
    htab[Index(hval)] := ip - 2;
    NextIndex(src, hval, ip - 1);
    hval := Next(hval, src, ip - 1);
    htab[Index(hval)] := ip - 1;
  }

  /** The match branch: close the open run, check the space, extend the match and emit it. */
  method PutMatch(src: seq<Byte>, ref: nat, dst: array<Byte>, c: Cursor, outLen: nat, ghost toks: seq<Token>)
    returns (ok: bool, c': Cursor, ghost toks': seq<Token>)
    requires outLen < dst.Length && c.op <= outLen + 1 && c.lit < MAX_LIT
    requires Open(toks, dst[..], src, c)
    requires ref < c.ip <= ref + MAX_OFF && c.ip + 4 < |src| && Same(src, ref, c.ip, 3)
    modifies dst
    ensures !ok ==> outLen < |src| + |src| / 32 + 4
    ensures !ok ==> toks' == Closed(src, toks, c.ip, c.lit) && Fills(toks', outLen)
    ensures ok ==>
          c'.ip >= c.ip + 3 && c'.ip <= |src| && c'.op <= outLen + 1 && c'.lit == 0 && Open(toks', dst[..], src, c')
    ensures ok ==> toks' == Closed(src, toks, c.ip, c.lit) + [Copy(c.ip - ref - 1, c'.ip - c.ip)]
                   && Longest(src, ref, c.ip, c'.ip - c.ip) == true
  {
    var ip := c.ip;
    SpaceUsed(toks, dst[..], src, c);
    var op;
    op, toks' := Seal(src, dst, c, toks);
    if op + 3 + 1 >= outLen {
      FillsSpelled(toks', dst[..op], src, c.ip, outLen);
      return false, c, toks';
    }
    c', toks' := ExtendMatch(src, ref, dst, ip, op, c.lit, toks');
    ok := true;
  }

  /** Extend the match at `ip`, emit its token and open an empty run. */
  method ExtendMatch(src: seq<Byte>, ref: nat, dst: array<Byte>, ip: nat, op: nat, ghost lit: nat,
      ghost toks: seq<Token>)
    returns (c: Cursor, ghost toks': seq<Token>)
    requires op + 4 < dst.Length
    requires ref < ip <= ref + MAX_OFF && ip + 4 < |src| && Same(src, ref, ip, 3)
    requires Spells(toks, dst[..op], src, ip)
    requires lit <= ip && op <= ip + (ip - lit) / 32 + 1
    modifies dst
    ensures ip + 3 <= c.ip <= |src| && c.op <= op + 4 && c.lit == 0 && Open(toks', dst[..], src, c)
    ensures toks' == toks + [Copy(ip - ref - 1, c.ip - ip)] && Longest(src, ref, ip, c.ip - ip) == true
  {
    var len := MatchLength(src, ref, ip);
    ghost var sealed := dst[..op];
    var end := EmitReference(dst, op, ip - ref - 1, len);
    assert dst[..][..end] == dst[..end];
    OpenAfterMatch(toks, sealed, dst[..], src, ref, ip, len, lit, end);
    c, toks' := Cursor(ip + len, end + 1, 0), toks + [Copy(ip - ref - 1, len)];
  }

  /** Store the run header; an empty run is undone. */
  method Seal(src: seq<Byte>, dst: array<Byte>, c: Cursor, ghost toks: seq<Token>)
    returns (op': nat, ghost toks': seq<Token>)
    requires Open(toks, dst[..], src, c)
    modifies dst
    ensures op' == (if c.lit == 0 then c.op - 1 else c.op) && toks' == Closed(src, toks, c.ip, c.lit)
    ensures Spells(toks', dst[..op'], src, c.ip)
  {
    var Cursor(ip, op, lit) := c;
    ghost var before := dst[..];
    var header: Byte := if lit == 0 then 255 else lit - 1;
    dst[op - lit - 1] := header;
    assert dst[..] == before[op - lit - 1 := header];
    op', toks' := op, toks;
    if lit == 0 {
      op' := op' - 1;
      assert dst[..op'] == before[..op'];
      OpenParts(toks, before, src, ip, op, 0, op, ip);
    } else {
      CloseRun(toks, before, src, ip, op, lit);
      toks' := toks + [Literals(src[ip - lit..ip])];
      assert dst[..op'] == dst[..][..op'];
    }
  }

  /** Add one literal octet to the open run, closing the run when it is full. */
  method PutLiteral(src: seq<Byte>, dst: array<Byte>, c: Cursor, ghost toks: seq<Token>)
    returns (c': Cursor, ghost toks': seq<Token>)
    requires c.op + 2 <= dst.Length && c.ip < |src| && c.lit < MAX_LIT
    requires Open(toks, dst[..], src, c)
    modifies dst
    ensures c' == if c.lit + 1 == MAX_LIT then Cursor(c.ip + 1, c.op + 2, 0)
                  else Cursor(c.ip + 1, c.op + 1, c.lit + 1)
    ensures Open(toks', dst[..], src, c') == true
    ensures c.lit + 1 == MAX_LIT ==> toks' == Closed(src, toks, c.ip + 1, MAX_LIT)
    ensures c.lit + 1 < MAX_LIT ==> toks' == toks
  {
    var Cursor(ip, op, lit) := c;
    toks' := toks;
    ghost var before := dst[..];
    dst[op] := src[ip];
    assert dst[..] == before[op := src[ip]];
    OpenExtends(toks, before, src, ip, op, lit);
    c' := Cursor(ip + 1, op + 1, lit + 1);
    if lit + 1 == MAX_LIT {
      c', toks' := NextRun(src, dst, c', toks);
    }
  }

  /** A full run: store its header and open the next one. */
  method NextRun(src: seq<Byte>, dst: array<Byte>, c: Cursor, ghost toks: seq<Token>)
    returns (c': Cursor, ghost toks': seq<Token>)
    requires c.op + 1 <= dst.Length && c.lit == MAX_LIT
    requires Open(toks, dst[..], src, c)
    modifies dst
    ensures c' == Cursor(c.ip, c.op + 1, 0) && Open(toks', dst[..], src, c') == true
        && toks' == Closed(src, toks, c.ip, MAX_LIT)
  {
    SpaceUsed(toks, dst[..], src, c);
    var op;
    op, toks' := Seal(src, dst, c, toks);
    c' := Cursor(c.ip, op + 1, 0);
    assert dst[..][..op] == dst[..op];
    OpenEmpty(toks', dst[..], src, c.ip, op + 1);
  }

  /** The octets left after the last match position: at most two, so at most one run fills up. */
  method PutRest(src: seq<Byte>, dst: array<Byte>, c: Cursor, ghost toks: seq<Token>, ghost h0: seq<int>)
    returns (c': Cursor, ghost toks': seq<Token>)
    requires |src| - 2 <= c.ip <= |src| && c.op + 4 <= dst.Length && c.lit < MAX_LIT && c.lit <= c.ip
    requires Open(toks, dst[..], src, c) && |h0| == HSIZE && Parsed(src, h0, toks, c.ip, c.lit)
    modifies dst
    ensures c'.ip == |src| && c'.lit < MAX_LIT && c'.op <= c.op + 3 && Open(toks', dst[..], src, c')
    ensures c'.lit <= c'.ip && Parsed(src, h0, toks', c'.ip, c'.lit)
  {
    c', toks' := c, toks;
    while c'.ip < |src|
      invariant c.ip <= c'.ip <= |src| && c'.lit < MAX_LIT && c'.lit <= c'.ip
      invariant if c'.lit == c.lit + (c'.ip - c.ip) then c'.op == c.op + (c'.ip - c.ip)
                else c'.lit + MAX_LIT == c.lit + (c'.ip - c.ip) && c'.op == c.op + (c'.ip - c.ip) + 1
      invariant Open(toks', dst[..], src, c') && Parsed(src, h0, toks', c'.ip, c'.lit)
      decreases |src| - c'.ip
    {
      c', toks' := PutOne(src, dst, c', toks', h0);
    }
  }

  /** One of the octets left. */
  method PutOne(src: seq<Byte>, dst: array<Byte>, c: Cursor, ghost toks: seq<Token>, ghost h0: seq<int>)
    returns (c': Cursor, ghost toks': seq<Token>)
    requires |src| - 2 <= c.ip < |src| && c.op + 2 <= dst.Length && c.lit < MAX_LIT && c.lit <= c.ip
    requires Open(toks, dst[..], src, c) && |h0| == HSIZE && Parsed(src, h0, toks, c.ip, c.lit)
    modifies dst
    ensures c' == if c.lit + 1 == MAX_LIT then Cursor(c.ip + 1, c.op + 2, 0)
                  else Cursor(c.ip + 1, c.op + 1, c.lit + 1)
    ensures Open(toks', dst[..], src, c') && Parsed(src, h0, toks', c'.ip, c'.lit)
  {
    ParsedOn(src, h0, toks, c.ip, c.lit);
    ParsedPut(src, h0, toks, c.ip + 1, c.lit + 1);
    c', toks' := PutLiteral(src, dst, c, toks);
  }

  lemma ExpandSpelled(toks: seq<Token>, out: seq<Byte>, src: seq<Byte>)
    requires Spells(toks, out, src, |src|)
    ensures Expand(out, [], |src|) == Plain(src)
  {
    assert Counted(0);
    assert src[..|src|] == src;
    ExpandEncoding(toks, |src|);
  }

  /** The end of the input: the remaining octets and the header of the last run. */
  method Finish(src: seq<Byte>, dst: array<Byte>, c: Cursor, outLen: nat, ghost toks: seq<Token>, ghost h0: seq<int>)
    returns (n: nat, ghost toks': seq<Token>)
    requires |src| - 2 <= c.ip <= |src| && c.op + 3 <= outLen < dst.Length && |src| > 0 && c.lit < MAX_LIT
    requires Open(toks, dst[..], src, c) && c.lit <= c.ip && |h0| == HSIZE && Parsed(src, h0, toks, c.ip, c.lit)
    modifies dst
    ensures 0 < n <= outLen
    ensures Expand(dst[..n], [], |src|) == Plain(src)
    ensures n <= |src| + (|src| + 31) / 32
    ensures Greedy(src, h0, toks') == true && Spells(toks', dst[..n], src, |src|)
  {
    var c';
    c', toks' := PutRest(src, dst, c, toks, h0);
    SpaceUsed(toks', dst[..], src, c');
    ParsedClosed(src, h0, toks', c'.ip, c'.lit);
    assert src[..|src|] == src;
    n, toks' := Seal(src, dst, c', toks');
    ExpandSpelled(toks', dst[..n], src);
  }

  /**
   * Compressing and decompressing: whenever the compressor succeeds, decompressing exactly its
   * bytes into any buffer large enough for the input returns the input.
   */
  method RoundTrip(src: seq<Byte>, packed: array<Byte>, outLen: nat, htab: array<int>, plain: array<Byte>)
    returns (n: nat, m: nat, err: Errno)
    requires htab.Length == HSIZE && outLen < packed.Length && |src| <= plain.Length
    requires packed != plain
    modifies packed, htab, plain
    ensures n > 0 ==> err == NoError && m == |src| && plain[..m] == src
    ensures |src| > 0 && outLen >= |src| + |src| / 32 + 4 ==> n > 0
  {
    ghost var toks;
    n, toks := Compress(src, packed, outLen, htab);
    m, err := 0, NoError;
    if n > 0 {
      ExpandAnyRoom(packed[..n], [], |src|, plain.Length);
      m, err := Decompress(packed[..n], plain, plain.Length);
    }
  }
}
