/**
 * Splitting a command line into arguments, sdssplitargs, and the printer of quoted strings that goes
 * with it, printStringRepr. Characters are bytes; a line ends at its first zero byte or at its end.
 */
module SplitArgs {
  import opened Bytes

  const BEL: Byte := 7
  const BS: Byte := 8
  const TAB: Byte := 9
  const LF: Byte := 10
  const CR: Byte := 13
  const SPACE: Byte := 32
  const QUOTE: Byte := 34
  const BACKSLASH: Byte := 92
  const LOWER_A: Byte := 97
  const LOWER_B: Byte := 98
  const LOWER_N: Byte := 110
  const LOWER_R: Byte := 114
  const LOWER_T: Byte := 116
  const LOWER_X: Byte := 120

  predicate IsSpace(c: Byte) { c == SPACE || 9 <= c <= 13 }

  predicate IsPrint(c: Byte) { 32 <= c <= 126 }

  /** The character at `p`; the line is followed by a zero. */
  function At(line: seq<Byte>, p: nat): Byte
  {
    if p < |line| then line[p] else 0
  }

  function Unescape(c: Byte): Byte
  {
    if c == LOWER_N then LF else if c == LOWER_R then CR else if c == LOWER_T then TAB
    else if c == LOWER_B then BS else if c == LOWER_A then BEL else c
  }

  // ----- what sdssplitargs computes

  datatype Token = Token(text: seq<Byte>, next: nat) | Unbalanced

  datatype Result = Args(values: seq<seq<Byte>>) | Error

  /** The first character at or after `p` that is not blank. */
  function Skip(line: seq<Byte>, p: nat): (q: nat)
    ensures q >= p && !IsSpace(At(line, q))
    decreases |line| - p
  {
    if IsSpace(At(line, p)) then Skip(line, p + 1) else p
  }

  /** One argument, from `p` on, after `text` has been read; `quoted` inside quotes. */
  function Scan(line: seq<Byte>, p: nat, quoted: bool, text: seq<Byte>): (t: Token)
    ensures t.Token? && (At(line, p) != 0 || quoted) ==> p < t.next <= |line|
    decreases |line| - p
  {
    var c, d := At(line, p), At(line, p + 1);
    if quoted then
      if c == BACKSLASH && d != 0 then Scan(line, p + 2, true, text + [Unescape(d)])
      else if c == QUOTE then if d != 0 && !IsSpace(d) then Unbalanced else Token(text, p + 1)
      else if c == 0 then Unbalanced
      else Scan(line, p + 1, true, text + [c])
    else if c == 0 then Token(text, p)
    else if c == SPACE || c == LF || c == CR || c == TAB then Token(text, p + 1)
    else if c == QUOTE then Scan(line, p + 1, true, text)
    else Scan(line, p + 1, false, text + [c])
  }

  function Parse(line: seq<Byte>, p: nat): Result
    decreases |line| - p
  {
    var q := Skip(line, p);
    if At(line, q) == 0 then Args([])
    else match Scan(line, q, false, [])
      case Unbalanced => Error
      case Token(text, next) =>
        match Parse(line, next)
        case Error => Error
        case Args(rest) => Args([text] + rest)
  }

  /** What is left to parse decides; the arguments found so far come first. */
  function After(found: seq<seq<Byte>>, r: Result): Result
  {
    match r
    case Error => Error
    case Args(rest) => Args(found + rest)
  }

  /** The loop over the blanks. */
  method SkipBlanks(line: seq<Byte>, start: nat) returns (p: nat)
    ensures p == Skip(line, start)
  {
    p := start;
    while At(line, p) != 0 && IsSpace(At(line, p))
      invariant Skip(line, p) == Skip(line, start)
      decreases |line| - p
    {
      p := p + 1;
    }
  }

  /** The loop over the characters of one argument. */
  method GetToken(line: seq<Byte>, start: nat) returns (t: Token)
    ensures t == Scan(line, start, false, [])
  {
    var p, inq, done, current := start, false, false, [];
    while !done
      invariant !done ==> Scan(line, p, inq, current) == Scan(line, start, false, [])
      invariant done ==> Token(current, p) == Scan(line, start, false, [])
      decreases !done, |line| - p
    {
      if inq {
        if At(line, p) == BACKSLASH && At(line, p + 1) != 0 {
          p := p + 1;
          current := current + [Unescape(At(line, p))];
        } else if At(line, p) == QUOTE {
          if At(line, p + 1) != 0 && !IsSpace(At(line, p + 1)) {
            return Unbalanced;
          }
          done := true;
        } else if At(line, p) == 0 {
          return Unbalanced;
        } else {
          current := current + [At(line, p)];
        }
      } else {
        var c := At(line, p);
        if c == SPACE || c == LF || c == CR || c == TAB || c == 0 {
          done := true;
        } else if c == QUOTE {
          inq := true;
        } else {
          current := current + [c];
        }
      }
      if At(line, p) != 0 {
        p := p + 1;
      }
    }
    t := Token(current, p);
  }

  /** sdssplitargs: the line reads as an argument list or as unbalanced quotes, and the result is what it says. */
  method Split(line: seq<Byte>) returns (r: Result)
    ensures r == Parse(line, 0)
    ensures exists blanks, items, e, junk :: Reads(line, blanks, items, e, junk) && r == Outcome(items, e)
  {
    SplitExact(line, Parse(line, 0));
    var p, vector := 0, [];
    while true
      invariant After(vector, Parse(line, p)) == Parse(line, 0)
      decreases |line| - p
    {
      p := SkipBlanks(line, p);
      if At(line, p) == 0 {
        return Args(vector);
      }
      var t := GetToken(line, p);
      if t.Unbalanced? {
        return Error;
      }
      AfterToken(vector, t.text, Parse(line, t.next));
      vector, p := vector + [t.text], t.next;
    }
  }

  lemma AfterToken(found: seq<seq<Byte>>, text: seq<Byte>, r: Result)
    ensures After(found + [text], r) == After(found, After([text], r))
  {
    if r.Args? {
      assert found + [text] + r.values == found + ([text] + r.values);
    }
  }

  // ----- what printStringRepr prints

  function HexDigit(n: nat): Byte
    requires n < 16
  {
    if n < 10 then 48 + n else 87 + n
  }

  /** The characters printed for one character of the string. */
  function Escaped(c: Byte): seq<Byte>
  {
    if c == BACKSLASH || c == QUOTE then [BACKSLASH, c]
    else if c == LF then [BACKSLASH, LOWER_N]
    else if c == CR then [BACKSLASH, LOWER_R]
    else if c == TAB then [BACKSLASH, LOWER_T]
    else if c == BEL then [BACKSLASH, LOWER_A]
    else if c == BS then [BACKSLASH, LOWER_B]
    else if IsPrint(c) then [c]
    else [BACKSLASH, LOWER_X, HexDigit(c / 16), HexDigit(c % 16)]
  }

  function Body(s: seq<Byte>): seq<Byte>
  {
    if s == [] then [] else Escaped(s[0]) + Body(s[1..])
  }

  function Quoted(s: seq<Byte>): seq<Byte>
  {
    [QUOTE] + Body(s) + [QUOTE]
  }

  /** printStringRepr, appending to what has been printed. */
  method PrintRepr(s: seq<Byte>, printed: seq<Byte>) returns (out: seq<Byte>)
    ensures out == printed + Quoted(s)
  {
    out := printed + [QUOTE];
    var i, len := 0, |s|;
    while len > 0
      invariant 0 <= i <= |s| && i + len == |s| && out + Body(s[i..]) == printed + [QUOTE] + Body(s)
    {
      len := len - 1;
      BodyNext(s, i);
      MoreOut(out, Escaped(s[i]), Body(s[i + 1..]));
      out := out + Escaped(s[i]);
      i := i + 1;
    }
    assert out + Body([]) == out && s[i..] == [];
    out := out + [QUOTE];
  }

  lemma BodyNext(s: seq<Byte>, i: nat)
    requires i < |s|
    ensures Body(s[i..]) == Escaped(s[i]) + Body(s[i + 1..])
  {
    assert s[i..][1..] == s[i + 1..];
  }

  lemma MoreOut(out: seq<Byte>, e: seq<Byte>, b: seq<Byte>)
    ensures (out + e) + b == out + (e + b)
  {
  }

  /** The arguments as printed, with a space between neighbours. */
  function Line(args: seq<seq<Byte>>): seq<Byte>
  {
    if args == [] then [] else Quoted(args[0]) + (Space(args[1..]) + Line(args[1..]))
  }

  function Space(args: seq<seq<Byte>>): seq<Byte> { if args == [] then [] else [SPACE] }

  // ----- the grammar of command lines

  /** Inside quotes: a character for itself, or one after a backslash. */
  datatype Unit = Char(c: Byte) | Escape(c: Byte)

  /** An argument: bare text, which quotes may follow. */
  datatype Word = Bare(plain: seq<Byte>) | WithQuotes(plain: seq<Byte>, units: seq<Unit>)

  /** An argument and the blanks after it. */
  datatype Item = Item(word: Word, gap: seq<Byte>)

  /** What the line ends with: nothing, quotes that are not closed, or ones that a character follows at once. */
  datatype Ending = Proper | Open(plain: seq<Byte>, units: seq<Unit>, slash: bool)
                  | Followed(plain: seq<Byte>, units: seq<Unit>, rest: seq<Byte>)

  function UnitBytes(u: Unit): seq<Byte>
  {
    match u
    case Char(c) => [c]
    case Escape(c) => [BACKSLASH, c]
  }

  function Spelled(us: seq<Unit>): seq<Byte>
  {
    if us == [] then [] else UnitBytes(us[0]) + Spelled(us[1..])
  }

  /** The letters that stand for a control character after a backslash. */
  const CONTROLS: map<Byte, Byte> :=
    map[LOWER_N := LF, LOWER_R := CR, LOWER_T := TAB, LOWER_B := BS, LOWER_A := BEL]

  function UnitMeaning(u: Unit): Byte
  {
    match u
    case Char(c) => c
    case Escape(c) => if c in CONTROLS then CONTROLS[c] else c
  }

  lemma EscapeMeans(c: Byte)
    ensures UnitMeaning(Escape(c)) == Unescape(c)
  {
  }

  function Meaning(us: seq<Unit>): seq<Byte>
  {
    seq(|us|, i requires 0 <= i < |us| => UnitMeaning(us[i]))
  }

  /** Bare text, a quote and what is inside. */
  function Inside(plain: seq<Byte>, units: seq<Unit>): seq<Byte>
  {
    plain + ([QUOTE] + Spelled(units))
  }

  function WordBytes(w: Word): seq<Byte>
  {
    match w
    case Bare(plain) => plain
    case WithQuotes(plain, units) => Inside(plain, units) + [QUOTE]
  }

  /** What the argument says: its bare text, then what is inside the quotes. */
  function WordText(w: Word): seq<Byte>
  {
    match w
    case Bare(plain) => plain
    case WithQuotes(plain, units) => plain + Meaning(units)
  }

  function EndingBytes(e: Ending): seq<Byte>
  {
    match e
    case Proper => []
    case Open(plain, units, slash) => Inside(plain, units) + (if slash then [BACKSLASH] else [])
    case Followed(plain, units, rest) => Inside(plain, units) + ([QUOTE] + rest)
  }

  function Rendered(items: seq<Item>, e: Ending): seq<Byte>
  {
    if items == [] then EndingBytes(e) else WordBytes(items[0].word) + (items[0].gap + Rendered(items[1..], e))
  }

  function Texts(items: seq<Item>): seq<seq<Byte>>
  {
    seq(|items|, i requires 0 <= i < |items| => WordText(items[i].word))
  }

  /** What ends an argument outside quotes. */
  predicate Delimits(c: Byte) { c == SPACE || c == LF || c == CR || c == TAB }

  /** What outside quotes stands for itself; vertical tab and form feed do, if they are not the first. */
  predicate Ordinary(c: Byte) { c != 0 && c != QUOTE && !Delimits(c) }

  predicate Blank(gap: seq<Byte>) { forall c :: c in gap ==> IsSpace(c) }

  predicate GoodPlain(plain: seq<Byte>)
  {
    (forall c :: c in plain ==> Ordinary(c)) && (plain != [] ==> !IsSpace(plain[0]))
  }

  predicate GoodUnit(u: Unit)
  {
    match u
    case Char(c) => c != BACKSLASH && c != QUOTE && c != 0
    case Escape(c) => c != 0
  }

  predicate GoodUnits(us: seq<Unit>) { forall u :: u in us ==> GoodUnit(u) }

  predicate GoodWord(w: Word)
  {
    match w
    case Bare(plain) => GoodPlain(plain) && plain != []
    case WithQuotes(plain, units) => GoodPlain(plain) && GoodUnits(units)
  }

  predicate GoodEnding(e: Ending)
  {
    match e
    case Proper => true
    case Open(plain, units, _) => GoodPlain(plain) && GoodUnits(units)
    case Followed(plain, units, rest) =>
      GoodPlain(plain) && GoodUnits(units) && rest != [] && rest[0] != 0 && !IsSpace(rest[0])
  }

  /** Blanks follow an argument unless it is the last; what ends a bare one is not a vertical tab or form feed. */
  predicate GoodItem(item: Item, last: bool)
  {
    && GoodWord(item.word) && Blank(item.gap) && (last || item.gap != [])
    && (item.word.Bare? && item.gap != [] ==> Delimits(item.gap[0]))
  }

  predicate GoodLine(items: seq<Item>, e: Ending)
  {
    if items == [] then GoodEnding(e)
    else GoodItem(items[0], Last(items, e)) && GoodLine(items[1..], e)
  }

  predicate Last(items: seq<Item>, e: Ending) { |items| == 1 && e.Proper? }

  /** The end of the line, or a zero, which ends it early. */
  predicate Over(junk: seq<Byte>) { junk == [] || junk[0] == 0 }

  // ----- splitting follows the grammar

  ghost predicate Opened(i: int) { true }

  /** From `p` on, after `text`, the argument is `t`; in view only where `Opened` is mentioned. */
  ghost predicate Scans(line: seq<Byte>, p: nat, quoted: bool, text: seq<Byte>, t: Token)
  {
    (forall i {:trigger Opened(i)} :: Opened(i) ==> t == Scan(line, p, quoted, text)) == true
  }

  /** The arguments from `p` on are `r`; in view only where `Opened` is mentioned. */
  ghost predicate Parses(line: seq<Byte>, p: nat, r: Result)
  {
    (forall i {:trigger Opened(i)} :: Opened(i) ==> r == Parse(line, p)) == true
  }

  ghost predicate Looked(i: int) { true }

  /** The line from `p` on is `tail`; in view only where `Looked` is mentioned. */
  ghost predicate Here(line: seq<Byte>, p: nat, tail: seq<Byte>)
  {
    (forall i {:trigger Looked(i)} :: Looked(i) ==> p <= |line| && line[p..] == tail) == true
  }

  lemma HereSplit(line: seq<Byte>, p: nat, e: seq<Byte>, tail: seq<Byte>)
    requires Here(line, p, e + tail)
    ensures Here(line, p + |e|, tail)
  {
    assert Looked(0);
    assert line[p + |e|..] == line[p..][|e|..];
  }

  lemma HereAt(line: seq<Byte>, p: nat, tail: seq<Byte>, i: nat)
    requires Here(line, p, tail)
    ensures At(line, p + i) == At(tail, i)
  {
    assert Looked(0);
    if i < |tail| {
      assert line[p + i] == line[p..][i];
    }
  }

  lemma HereNext(line: seq<Byte>, p: nat, c: Byte, tail: seq<Byte>)
    requires Here(line, p, [c] + tail)
    ensures At(line, p) == c && Here(line, p + 1, tail)
  {
    HereAt(line, p, [c] + tail, 0);
    HereSplit(line, p, [c], tail);
  }

  lemma HereAgain(line: seq<Byte>, p: nat, a: seq<Byte>, b: seq<Byte>, c: seq<Byte>)
    requires Here(line, p, (a + b) + c)
    ensures Here(line, p, a + (b + c))
  {
    assert (a + b) + c == a + (b + c);
  }

  lemma HereHead(line: seq<Byte>, p: nat, s: seq<Byte>, tail: seq<Byte>)
    requires Here(line, p, s + tail) && s != []
    ensures At(line, p) == s[0] && Here(line, p + 1, s[1..] + tail)
  {
    assert s + tail == [s[0]] + (s[1..] + tail);
    HereNext(line, p, s[0], s[1..] + tail);
  }

  /** Bare text is taken as it is. */
  lemma {:induction false} ScanPlain(line: seq<Byte>, p: nat, text: seq<Byte>, plain: seq<Byte>, rest: seq<Byte>,
      t: Token)
    requires Here(line, p, plain + rest) && (forall c :: c in plain ==> Ordinary(c))
    requires Scans(line, p + |plain|, false, text + plain, t)
    ensures Scans(line, p, false, text, t)
    decreases |plain|
  {
    if plain == [] {
      assert text + plain == text;
    } else {
      HereHead(line, p, plain, rest);
      assert plain[0] in plain;
      assert text + plain == (text + [plain[0]]) + plain[1..];
      ScanPlain(line, p + 1, text + [plain[0]], plain[1..], rest, t);
      assert Opened(0);
    }
  }

  lemma ScanUnit(line: seq<Byte>, p: nat, text: seq<Byte>, u: Unit, rest: seq<Byte>, t: Token)
    requires Here(line, p, UnitBytes(u) + rest) && GoodUnit(u)
    requires Scans(line, p + |UnitBytes(u)|, true, text + [UnitMeaning(u)], t)
    ensures Scans(line, p, true, text, t)
  {
    HereAt(line, p, UnitBytes(u) + rest, 0);
    HereAt(line, p, UnitBytes(u) + rest, 1);
    EscapeMeans(u.c);
    assert Opened(0);
  }

  /** Inside quotes every character, and every escape, is taken for what it means. */
  lemma {:induction false} ScanUnits(line: seq<Byte>, p: nat, text: seq<Byte>, us: seq<Unit>, rest: seq<Byte>, t: Token,
      end: nat)
    requires Here(line, p, Spelled(us) + rest) && GoodUnits(us) == true && end == p + |Spelled(us)|
    requires Scans(line, end, true, text + Meaning(us), t)
    ensures Scans(line, p, true, text, t)
    decreases |us|
  {
    if us == [] {
      assert text + Meaning(us) == text;
    } else {
      var b, more := UnitBytes(us[0]), Spelled(us[1..]);
      Regroup(b, more, rest);
      HereSplit(line, p, b, more + rest);
      MeaningHead(text, us);
      ScanUnits(line, p + |b|, text + [UnitMeaning(us[0])], us[1..], rest, t, end);
      ScanUnit(line, p, text, us[0], more + rest, t);
    }
  }

  lemma MeaningHead(text: seq<Byte>, us: seq<Unit>)
    requires us != []
    ensures text + Meaning(us) == (text + [UnitMeaning(us[0])]) + Meaning(us[1..])
  {
  }

  /** Bare text, a quote and what is inside. */
  lemma ScanInside(line: seq<Byte>, p: nat, plain: seq<Byte>, us: seq<Unit>, rest: seq<Byte>, t: Token)
    requires Here(line, p, Inside(plain, us) + rest) && GoodPlain(plain) && GoodUnits(us)
    requires Scans(line, p + |Inside(plain, us)|, true, plain + Meaning(us), t)
    ensures Scans(line, p, false, [], t)
  {
    var q, b := p + |plain|, Spelled(us);
    HereAgain(line, p, plain, [QUOTE] + b, rest);
    assert [] + plain == plain;
    HereSplit(line, p, plain, ([QUOTE] + b) + rest);
    ScanUnquoted(line, q, plain, us, b, rest, t, q + 1, p + |Inside(plain, us)|);
    ScanPlain(line, p, [], plain, ([QUOTE] + b) + rest, t);
  }

  lemma ScanUnquoted(line: seq<Byte>, q: nat, text: seq<Byte>, us: seq<Unit>, b: seq<Byte>, rest: seq<Byte>, t: Token,
      r: nat, end: nat)
    requires Here(line, q, ([QUOTE] + b) + rest) && GoodUnits(us) == true && b == Spelled(us)
    requires r == q + 1 && end == r + |b| && Scans(line, end, true, text + Meaning(us), t)
    ensures Scans(line, q, false, text, t)
  {
    HereAgain(line, q, [QUOTE], b, rest);
    HereNext(line, q, QUOTE, b + rest);
    ScanUnits(line, r, text, us, rest, t, end);
    ScanQuote(line, q, text, t);
  }

  lemma ScanQuote(line: seq<Byte>, q: nat, text: seq<Byte>, t: Token)
    requires At(line, q) == QUOTE && Scans(line, q + 1, true, text, t)
    ensures Scans(line, q, false, text, t)
  {
    assert Opened(0);
  }

  lemma {:induction false} ParseGap(line: seq<Byte>, p: nat, gap: seq<Byte>, rest: seq<Byte>, r: Result)
    requires Here(line, p, gap + rest) && Blank(gap) && Parses(line, p + |gap|, r)
    ensures Parses(line, p, r)
    decreases |gap|
  {
    if gap != [] {
      HereHead(line, p, gap, rest);
      ParseGap(line, p + 1, gap[1..], rest, r);
      assert Opened(0);
    }
  }

  lemma ParseToken(line: seq<Byte>, p: nat, text: seq<Byte>, next: nat, r: Result)
    requires At(line, p) != 0 && !IsSpace(At(line, p))
    requires Scans(line, p, false, [], Token(text, next)) && Parses(line, next, r)
    ensures Parses(line, p, After([text], r))
  {
    assert Skip(line, p) == p;
    assert Opened(0);
  }

  /** An argument, the blanks after it and what the rest yields. */
  lemma ParseItem(line: seq<Byte>, p: nat, w: Word, gap: seq<Byte>, tail: seq<Byte>, last: bool, r: Result, next: nat)
    requires Here(line, p, WordBytes(w) + (gap + tail)) && GoodItem(Item(w, gap), last) == true
    requires last ==> Over(tail) == true
    requires next == p + |WordBytes(w)| + |gap| && Parses(line, next, r)
    ensures Parses(line, p, After([WordText(w)], r))
  {
    match w {
      case Bare(plain) =>
        ParseBare(line, p, plain, gap, tail, r);
      case WithQuotes(plain, us) =>
        var q := p + |WordBytes(w)|;
        GapDone(line, p, WordBytes(w), gap, tail, q, r);
        ParseQuoted(line, p, plain, us, gap + tail, q, r);
    }
  }

  lemma ParseBare(line: seq<Byte>, p: nat, plain: seq<Byte>, gap: seq<Byte>, tail: seq<Byte>, r: Result)
    requires Here(line, p, plain + (gap + tail)) && GoodPlain(plain) && plain != []
    requires Blank(gap) && (if gap == [] then Over(tail) else Delimits(gap[0]))
    requires Parses(line, p + |plain| + |gap|, r)
    ensures Parses(line, p, After([plain], r))
  {
    var q := p + |plain|;
    var next := if gap == [] then q else q + 1;
    HereHead(line, p, plain, gap + tail);
    assert plain[0] in plain;
    HereSplit(line, p, plain, gap + tail);
    BareEnds(line, q, plain, gap, tail, r);
    assert [] + plain == plain;
    ScanPlain(line, p, [], plain, gap + tail, Token(plain, next));
    ParseToken(line, p, plain, next, r);
  }

  lemma GapDone(line: seq<Byte>, p: nat, b: seq<Byte>, gap: seq<Byte>, tail: seq<Byte>, q: nat, r: Result)
    requires Here(line, p, b + (gap + tail)) && q == p + |b| && Blank(gap) && (gap == [] ==> Over(tail))
    requires Parses(line, q + |gap|, r)
    ensures Parses(line, q, r) && (At(gap + tail, 0) == 0 || IsSpace(At(gap + tail, 0)))
  {
    HereSplit(line, p, b, gap + tail);
    ParseGap(line, q, gap, tail, r);
    if gap != [] {
      assert gap[0] in gap;
    }
  }

  lemma ParseQuoted(line: seq<Byte>, p: nat, plain: seq<Byte>, us: seq<Unit>, rest: seq<Byte>, next: nat, r: Result)
    requires Here(line, p, (Inside(plain, us) + [QUOTE]) + rest) && GoodPlain(plain) && GoodUnits(us)
    requires At(rest, 0) == 0 || IsSpace(At(rest, 0))
    requires next == p + |Inside(plain, us) + [QUOTE]| && Parses(line, next, r)
    ensures Parses(line, p, After([plain + Meaning(us)], r))
  {
    var q, text := p + |Inside(plain, us)|, plain + Meaning(us);
    HereAgain(line, p, Inside(plain, us), [QUOTE], rest);
    HereSplit(line, p, Inside(plain, us), [QUOTE] + rest);
    HereNext(line, q, QUOTE, rest);
    HereAt(line, q + 1, rest, 0);
    Closes(line, q, text);
    ScanInside(line, p, plain, us, [QUOTE] + rest, Token(text, q + 1));
    StartsWord(line, p, plain, us, [QUOTE] + rest);
    ParseToken(line, p, text, q + 1, r);
  }

  lemma StartsWord(line: seq<Byte>, p: nat, plain: seq<Byte>, us: seq<Unit>, rest: seq<Byte>)
    requires Here(line, p, Inside(plain, us) + rest) && GoodPlain(plain)
    ensures At(line, p) != 0 && !IsSpace(At(line, p))
  {
    HereHead(line, p, Inside(plain, us), rest);
    if plain != [] {
      assert plain[0] in plain;
    }
  }

  lemma Closes(line: seq<Byte>, q: nat, text: seq<Byte>)
    requires At(line, q) == QUOTE && (At(line, q + 1) == 0 || IsSpace(At(line, q + 1)))
    ensures Scans(line, q, true, text, Token(text, q + 1))
  {
  }

  /** Bare text ends with the line or with a blank, which is passed over. */
  lemma BareEnds(line: seq<Byte>, q: nat, plain: seq<Byte>, gap: seq<Byte>, tail: seq<Byte>, r: Result)
    requires Here(line, q, gap + tail) && Blank(gap) && (if gap == [] then Over(tail) else Delimits(gap[0]))
    requires Parses(line, q + |gap|, r)
    ensures Scans(line, q, false, plain, Token(plain, if gap == [] then q else q + 1))
    ensures Parses(line, if gap == [] then q else q + 1, r)
  {
    if gap == [] {
      HereAt(line, q, gap + tail, 0);
    } else {
      HereHead(line, q, gap, tail);
      ParseGap(line, q + 1, gap[1..], tail, r);
    }
  }

  /** What the arguments and the end of a line amount to. */
  function Outcome(items: seq<Item>, e: Ending): Result
  {
    if e.Proper? then Args(Texts(items)) else Error
  }

  /** The two ways in which quotes are not balanced. */
  lemma ParseBroken(line: seq<Byte>, p: nat, plain: seq<Byte>, us: seq<Unit>, rest: seq<Byte>)
    requires Here(line, p, Inside(plain, us) + rest) && GoodPlain(plain) && GoodUnits(us)
    requires Unclosed(At(rest, 0), At(rest, 1))
    ensures Parses(line, p, Error)
  {
    var q := p + |Inside(plain, us)|;
    HereSplit(line, p, Inside(plain, us), rest);
    HereAt(line, q, rest, 0);
    HereAt(line, q, rest, 1);
    NotClosed(line, q, plain + Meaning(us));
    ScanInside(line, p, plain, us, rest, Unbalanced);
    StartsWord(line, p, plain, us, rest);
    assert Skip(line, p) == p;
    assert Opened(0);
  }

  lemma ParseEnding(line: seq<Byte>, p: nat, e: Ending, junk: seq<Byte>)
    requires Here(line, p, EndingBytes(e) + junk) && GoodEnding(e) && Over(junk)
    ensures Parses(line, p, Outcome([], e))
  {
    match e {
      case Proper =>
        HereAt(line, p, EndingBytes(e) + junk, 0);
        assert Skip(line, p) == p;
      case Open(plain, us, slash) =>
        var rest := if slash then [BACKSLASH] else [];
        HereAgain(line, p, Inside(plain, us), rest, junk);
        ParseBroken(line, p, plain, us, rest + junk);
      case Followed(plain, us, rest) =>
        HereAgain(line, p, Inside(plain, us), [QUOTE] + rest, junk);
        ParseBroken(line, p, plain, us, ([QUOTE] + rest) + junk);
    }
  }

  /** Neither a character of the inside nor a quote that a blank or the end follows. */
  predicate Unclosed(c: Byte, d: Byte)
  {
    c == 0 || (c == BACKSLASH && d == 0) || (c == QUOTE && d != 0 && !IsSpace(d))
  }

  lemma NotClosed(line: seq<Byte>, q: nat, text: seq<Byte>)
    requires Unclosed(At(line, q), At(line, q + 1))
    ensures Scans(line, q, true, text, Unbalanced)
  {
    if At(line, q) == BACKSLASH {
      assert Scan(line, q, true, text) == Scan(line, q + 1, true, text + [BACKSLASH]);
    }
  }

  lemma {:induction false} ParseItems(line: seq<Byte>, p: nat, items: seq<Item>, e: Ending, junk: seq<Byte>)
    requires Here(line, p, Rendered(items, e) + junk) && GoodLine(items, e) == true && Over(junk)
    ensures Parses(line, p, Outcome(items, e))
    decreases |items|
  {
    if items == [] {
      ParseEnding(line, p, e, junk);
      assert Texts(items) == Texts([]);
    } else {
      var w, gap, more := WordBytes(items[0].word), items[0].gap, Rendered(items[1..], e);
      FirstItem(items, e, junk);
      HereParts(line, p, w, gap, more, junk);
      var q := p + |w| + |gap|;
      ParseItems(line, q, items[1..], e, junk);
      ParseItem(line, p, items[0].word, gap, more + junk, Last(items, e), Outcome(items[1..], e), q);
      OutcomeMore(items, e);
    }
  }

  lemma FirstItem(items: seq<Item>, e: Ending, junk: seq<Byte>)
    requires items != [] && GoodLine(items, e) && Over(junk)
    ensures GoodItem(Item(items[0].word, items[0].gap), Last(items, e)) == true && GoodLine(items[1..], e) == true
    ensures Last(items, e) ==> Over(Rendered(items[1..], e) + junk) == true
  {
    if Last(items, e) {
      assert Rendered(items[1..], e) + junk == junk;
    }
  }

  lemma HereParts(line: seq<Byte>, p: nat, w: seq<Byte>, gap: seq<Byte>, more: seq<Byte>, junk: seq<Byte>)
    requires Here(line, p, (w + (gap + more)) + junk)
    ensures Here(line, p, w + (gap + (more + junk))) && Here(line, p + |w| + |gap|, more + junk)
  {
    HereAgain(line, p, w, gap + more, junk);
    Regroup(gap, more, junk);
    HereSplit(line, p, w, gap + (more + junk));
    HereSplit(line, p + |w|, gap, more + junk);
  }

  lemma OutcomeMore(items: seq<Item>, e: Ending)
    requires items != []
    ensures Outcome(items, e) == After([WordText(items[0].word)], Outcome(items[1..], e))
  {
    assert Texts(items) == [WordText(items[0].word)] + Texts(items[1..]);
  }

  /** The line consists of blanks, arguments and an ending, up to its end or a zero. */
  ghost predicate Reads(line: seq<Byte>, blanks: seq<Byte>, items: seq<Item>, e: Ending, junk: seq<Byte>)
  {
    line == blanks + (Rendered(items, e) + junk) && Blank(blanks) && GoodLine(items, e) && Over(junk)
  }

  /** A line of the grammar is split as the grammar says. */
  lemma SplitRendered(line: seq<Byte>, blanks: seq<Byte>, items: seq<Item>, e: Ending, junk: seq<Byte>)
    requires Reads(line, blanks, items, e, junk)
    ensures Parse(line, 0) == Outcome(items, e)
  {
    assert Here(line, 0, line);
    HereSplit(line, 0, blanks, Rendered(items, e) + junk);
    ParseItems(line, |blanks|, items, e, junk);
    ParseGap(line, 0, blanks, Rendered(items, e) + junk, Outcome(items, e));
    assert Opened(0);
  }

  // ----- every line is of the grammar

  lemma TakeBlanks(s: seq<Byte>) returns (k: nat)
    ensures k <= |s| && Blank(s[..k]) && (k < |s| ==> !IsSpace(s[k]))
  {
    k := 0;
    while k < |s| && IsSpace(s[k])
      invariant 0 <= k <= |s| && Blank(s[..k])
    {
      k := k + 1;
    }
  }

  lemma TakePlain(s: seq<Byte>) returns (k: nat)
    requires 0 !in s && (s == [] || !IsSpace(s[0]))
    ensures k <= |s| && GoodPlain(s[..k]) && (k < |s| ==> s[k] == QUOTE || Delimits(s[k]))
  {
    k := 0;
    while k < |s| && Ordinary(s[k])
      invariant 0 <= k <= |s| && forall c :: c in s[..k] ==> Ordinary(c)
    {
      k := k + 1;
    }
  }

  /** The inside of quotes, up to a closing quote, to a backslash at the end, or to the end. */
  lemma {:induction false} TakeUnits(s: seq<Byte>) returns (us: seq<Unit>, rest: seq<Byte>)
    requires 0 !in s
    ensures s == Spelled(us) + rest && GoodUnits(us) && (rest == [] || rest == [BACKSLASH] || rest[0] == QUOTE)
    decreases |s|
  {
    if s == [] || s[0] == QUOTE || s == [BACKSLASH] {
      us, rest := [], s;
    } else {
      var u := HeadUnit(s);
      var n := |UnitBytes(u)|;
      us, rest := TakeUnits(s[n..]);
      SpelledCons(u, us);
      Regroup(UnitBytes(u), Spelled(us), rest);
      us := [u] + us;
    }
  }

  lemma HeadUnit(s: seq<Byte>) returns (u: Unit)
    requires 0 !in s && s != [] && s[0] != QUOTE && s != [BACKSLASH]
    ensures GoodUnit(u) && |UnitBytes(u)| <= |s| && s == UnitBytes(u) + s[|UnitBytes(u)|..]
  {
    u := if s[0] == BACKSLASH then Escape(s[1]) else Char(s[0]);
  }

  lemma SpelledCons(u: Unit, us: seq<Unit>)
    ensures Spelled([u] + us) == UnitBytes(u) + Spelled(us)
  {
    assert ([u] + us)[1..] == us;
  }

  lemma {:induction false} Decompose(s: seq<Byte>) returns (blanks: seq<Byte>, items: seq<Item>, e: Ending)
    requires 0 !in s
    ensures s == blanks + Rendered(items, e) && Blank(blanks) && GoodLine(items, e)
    ensures s != [] && IsSpace(s[0]) ==> blanks != [] && blanks[0] == s[0]
    decreases |s|, 1
  {
    var k := TakeBlanks(s);
    blanks := s[..k];
    items, e := DecomposeWords(s[k..]);
  }

  lemma {:induction false} DecomposeWords(s: seq<Byte>) returns (items: seq<Item>, e: Ending)
    requires 0 !in s && (s == [] || !IsSpace(s[0]))
    ensures s == Rendered(items, e) && GoodLine(items, e)
    decreases |s|, 0
  {
    if s == [] {
      return [], Proper;
    }
    var k := TakePlain(s);
    var plain := s[..k];
    if k == |s| {
      items, e := Extend(Bare(plain), []);
    } else if Delimits(s[k]) {
      items, e := Extend(Bare(plain), s[k..]);
    } else {
      var us, rest := TakeUnits(s[k + 1..]);
      InsideParts(s, k, us, rest);
      items, e := DecomposeQuoted(plain, us, rest);
    }
  }

  /** Bare text, a quote, what is inside, and what comes after it. */
  lemma {:induction false} DecomposeQuoted(plain: seq<Byte>, us: seq<Unit>, rest: seq<Byte>)
      returns (items: seq<Item>, e: Ending)
    requires GoodPlain(plain) && GoodUnits(us)
    requires 0 !in rest && (rest == [] || rest == [BACKSLASH] || rest[0] == QUOTE)
    ensures Inside(plain, us) + rest == Rendered(items, e) && GoodLine(items, e)
    decreases |rest|, 3
  {
    if rest == [] || rest[0] == BACKSLASH {
      items, e := [], Open(plain, us, rest != []);
    } else if |rest| > 1 && !IsSpace(rest[1]) {
      items, e := [], Followed(plain, us, rest[1..]);
      assert rest == [QUOTE] + rest[1..];
    } else {
      QuoteParts(Inside(plain, us), rest);
      items, e := Extend(WithQuotes(plain, us), rest[1..]);
    }
  }

  lemma QuoteParts(b: seq<Byte>, rest: seq<Byte>)
    requires rest != [] && rest[0] == QUOTE
    ensures b + rest == (b + [QUOTE]) + rest[1..]
  {
  }

  lemma InsideParts(s: seq<Byte>, k: nat, us: seq<Unit>, rest: seq<Byte>)
    requires k < |s| && s[k] == QUOTE && s[k + 1..] == Spelled(us) + rest
    ensures s == Inside(s[..k], us) + rest
  {
    assert s == s[..k] + ([QUOTE] + s[k + 1..]);
  }

  /** A word, and what comes after it. */
  lemma {:induction false} Extend(w: Word, s: seq<Byte>) returns (items: seq<Item>, e: Ending)
    requires GoodWord(w) && 0 !in s && (s == [] || IsSpace(s[0])) && (w.Bare? && s != [] ==> Delimits(s[0]))
    ensures WordBytes(w) + s == Rendered(items, e) && GoodLine(items, e)
    decreases |s|, 2
  {
    var gap, more, e' := Decompose(s);
    items, e := [Item(w, gap)] + more, e';
    assert items[1..] == more;
  }

  lemma UpToZero(line: seq<Byte>) returns (k: nat)
    ensures k <= |line| && 0 !in line[..k] && Over(line[k..])
  {
    k := 0;
    while k < |line| && line[k] != 0
      invariant 0 <= k <= |line| && 0 !in line[..k]
    {
      k := k + 1;
    }
  }

  lemma Regroup(a: seq<Byte>, b: seq<Byte>, c: seq<Byte>)
    ensures (a + b) + c == a + (b + c)
  {
  }

  lemma EveryLine(line: seq<Byte>) returns (blanks: seq<Byte>, items: seq<Item>, e: Ending, junk: seq<Byte>)
    ensures Reads(line, blanks, items, e, junk)
  {
    var k := UpToZero(line);
    blanks, items, e := Decompose(line[..k]);
    junk := line[k..];
    assert line == line[..k] + junk;
    Regroup(blanks, Rendered(items, e), junk);
  }

  /** Splitting yields what the grammar says a line means, and an error exactly for quotes that are not balanced. */
  lemma SplitExact(line: seq<Byte>, r: Result)
    ensures r == Parse(line, 0)
       <==> exists blanks, items, e, junk :: Reads(line, blanks, items, e, junk) && r == Outcome(items, e)
  {
    if r == Parse(line, 0) {
      var blanks, items, e, junk := EveryLine(line);
      SplitRendered(line, blanks, items, e, junk);
    }
    forall blanks, items, e, junk | Reads(line, blanks, items, e, junk)
      ensures Parse(line, 0) == Outcome(items, e)
    {
      SplitRendered(line, blanks, items, e, junk);
    }
  }

  /** Arguments without quotes are the stretches between the blanks. */
  lemma SplitBare(line: seq<Byte>, blanks: seq<Byte>, items: seq<Item>, junk: seq<Byte>)
    requires Reads(line, blanks, items, Proper, junk) && forall i :: 0 <= i < |items| ==> items[i].word.Bare?
    ensures Parse(line, 0) == Args(seq(|items|, i requires 0 <= i < |items| => items[i].word.plain))
  {
    SplitRendered(line, blanks, items, Proper, junk);
    assert Texts(items) == seq(|items|, i requires 0 <= i < |items| => items[i].word.plain);
  }

  // ----- the round trip

  /** A character that survives printing and splitting. */
  predicate Survives(c: Byte)
  {
    IsPrint(c) || c == LF || c == CR || c == TAB || c == BEL || c == BS
  }

  /** What splitting makes of a printed character: the x of a hexadecimal escape loses its backslash only. */
  function Reread(c: Byte): seq<Byte>
  {
    if Survives(c) then [c] else [LOWER_X, HexDigit(c / 16), HexDigit(c % 16)]
  }

  function RereadAll(s: seq<Byte>): seq<Byte>
  {
    if s == [] then [] else Reread(s[0]) + RereadAll(s[1..])
  }

  function RereadArgs(args: seq<seq<Byte>>): (r: seq<seq<Byte>>)
    ensures |r| == |args|
  {
    seq(|args|, i requires 0 <= i < |args| => RereadAll(args[i]))
  }

  /** The units that one character is printed as. */
  function UnitsOf(c: Byte): seq<Unit>
  {
    if c == BACKSLASH || c == QUOTE then [Escape(c)]
    else if c == LF then [Escape(LOWER_N)]
    else if c == CR then [Escape(LOWER_R)]
    else if c == TAB then [Escape(LOWER_T)]
    else if c == BEL then [Escape(LOWER_A)]
    else if c == BS then [Escape(LOWER_B)]
    else if IsPrint(c) then [Char(c)]
    else HexUnits(c)
  }

  function AllUnits(s: seq<Byte>): seq<Unit>
  {
    if s == [] then [] else UnitsOf(s[0]) + AllUnits(s[1..])
  }

  lemma SpelledOne(u: Unit)
    ensures Spelled([u]) == UnitBytes(u) && Meaning([u]) == [if u.Char? then u.c else Unescape(u.c)]
  {
    EscapeMeans(u.c);
    assert Spelled([u][1..]) == [];
  }

  lemma UnitsOfOne(c: Byte)
    ensures Spelled(UnitsOf(c)) == Escaped(c) && Meaning(UnitsOf(c)) == Reread(c) && GoodUnits(UnitsOf(c))
  {
    if UnitsOf(c) == HexUnits(c) {
      HexSpelled(c);
    } else {
      SpelledOne(UnitsOf(c)[0]);
    }
  }

  function HexUnits(c: Byte): seq<Unit>
  {
    [Escape(LOWER_X), Char(HexDigit(c / 16)), Char(HexDigit(c % 16))]
  }

  lemma HexSpelled(c: Byte)
    ensures Spelled(HexUnits(c)) == [BACKSLASH, LOWER_X, HexDigit(c / 16), HexDigit(c % 16)]
    ensures Meaning(HexUnits(c)) == [LOWER_X, HexDigit(c / 16), HexDigit(c % 16)] && GoodUnits(HexUnits(c))
  {
    var x, h, l := Escape(LOWER_X), Char(HexDigit(c / 16)), Char(HexDigit(c % 16));
    SpelledOne(x);
    SpelledOne(h);
    SpelledOne(l);
    SpelledMore([x], [h]);
    SpelledMore([x, h], [l]);
    EscapeMeans(LOWER_X);
    assert [x] + [h] == [x, h] && [x, h] + [l] == HexUnits(c);
  }

  lemma {:induction false} SpelledMore(a: seq<Unit>, b: seq<Unit>)
    ensures Spelled(a + b) == Spelled(a) + Spelled(b)
    decreases |a|
  {
    if a == [] {
      assert a + b == b;
    } else {
      var c := a + b;
      assert c[0] == a[0] && c[1..] == a[1..] + b;
      SpelledMore(a[1..], b);
      Regroup(UnitBytes(a[0]), Spelled(a[1..]), Spelled(b));
    }
  }

  lemma MeaningMore(a: seq<Unit>, b: seq<Unit>)
    ensures Meaning(a + b) == Meaning(a) + Meaning(b)
  {
  }

  /** A printed string is a spelling of what is read again. */
  lemma {:induction false} BodyUnits(s: seq<Byte>)
    ensures Spelled(AllUnits(s)) == Body(s) && Meaning(AllUnits(s)) == RereadAll(s) && GoodUnits(AllUnits(s))
    decreases |s|
  {
    if s != [] {
      UnitsOfOne(s[0]);
      SpelledMore(UnitsOf(s[0]), AllUnits(s[1..]));
      MeaningMore(UnitsOf(s[0]), AllUnits(s[1..]));
      BodyUnits(s[1..]);
    }
  }

  lemma PrintedWord(us: seq<Unit>)
    ensures WordBytes(WithQuotes([], us)) == [QUOTE] + Spelled(us) + [QUOTE]
  {
  }

  lemma TextsMore(items: seq<Item>, args: seq<seq<Byte>>)
    requires items != [] && args != [] && WordText(items[0].word) == RereadAll(args[0])
    requires Texts(items[1..]) == RereadArgs(args[1..])
    ensures Texts(items) == RereadArgs(args)
  {
    assert Texts(items) == [WordText(items[0].word)] + Texts(items[1..]);
    assert RereadArgs(args) == [RereadAll(args[0])] + RereadArgs(args[1..]);
  }

  function Printed(args: seq<seq<Byte>>): (items: seq<Item>)
    ensures |items| == |args|
  {
    if args == [] then [] else [Item(WithQuotes([], AllUnits(args[0])), Space(args[1..]))] + Printed(args[1..])
  }

  lemma {:induction false} LineIsRendered(args: seq<seq<Byte>>)
    ensures Rendered(Printed(args), Proper) == Line(args) && GoodLine(Printed(args), Proper)
    ensures Texts(Printed(args)) == RereadArgs(args)
    decreases |args|
  {
    if args != [] {
      BodyUnits(args[0]);
      LineIsRendered(args[1..]);
      var items := Printed(args);
      assert items[1..] == Printed(args[1..]);
      assert [] + Meaning(AllUnits(args[0])) == RereadAll(args[0]);
      PrintedWord(AllUnits(args[0]));
      TextsMore(items, args);
    }
  }

  /** Splitting the printed arguments yields them with every hexadecimal escape spelled out. */
  lemma SplitPrinted(args: seq<seq<Byte>>)
    ensures Parse(Line(args), 0) == Args(RereadArgs(args))
  {
    LineIsRendered(args);
    assert Line(args) == [] + (Rendered(Printed(args), Proper) + []);
    SplitRendered(Line(args), [], Printed(args), Proper, []);
  }

  lemma {:induction false} RereadSame(s: seq<Byte>)
    ensures |RereadAll(s)| >= |s|
    ensures RereadAll(s) == s <==> forall i :: 0 <= i < |s| ==> Survives(s[i])
    ensures (exists i :: 0 <= i < |s| && !Survives(s[i])) ==> |RereadAll(s)| > |s|
  {
    if s != [] {
      var t := s[1..];
      RereadSame(t);
      assert s == [s[0]] + t;
      if Survives(s[0]) {
        assert RereadAll(s) == [s[0]] + RereadAll(t);
        if RereadAll(t) == t {
          assert forall i :: 0 <= i < |s| ==> i == 0 || s[i] == t[i - 1];
        } else {
          var i :| 0 <= i < |t| && !Survives(t[i]);
          assert !Survives(s[i + 1]);
        }
      }
    }
  }

  /** Printing and splitting give the arguments back exactly when every character survives. */
  lemma RoundTrip(args: seq<seq<Byte>>)
    ensures Parse(Line(args), 0) == Args(args) <==> forall i, j :: 0 <= i < |args| && 0 <= j < |args[i]| ==>
          Survives(args[i][j])
  {
    SplitPrinted(args);
    var r := RereadArgs(args);
    forall i | 0 <= i < |args|
      ensures r[i] == args[i] <==> forall j :: 0 <= j < |args[i]| ==> Survives(args[i][j])
    {
      RereadSame(args[i]);
    }
    if r == args {
      forall i, j | 0 <= i < |args| && 0 <= j < |args[i]|
        ensures Survives(args[i][j])
      {
        assert r[i] == args[i];
      }
    }
  }

  /** Against the documented form with hexadecimal bytes, any other character comes back as three. */
  lemma HexEscapeIsNotRead(c: Byte)
    requires !Survives(c)
    ensures Parse(Line([[c]]), 0) == Args([[LOWER_X, HexDigit(c / 16), HexDigit(c % 16)]])
  {
    SplitPrinted([[c]]);
    assert RereadAll([c]) == Reread(c);
    assert RereadArgs([[c]]) == [RereadAll([c])];
  }
}
