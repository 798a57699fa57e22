/** parse_format_string: which arguments a printf-style format consumes. The
    parser is one loop over characters with prefix look-ahead; it is proved to
    compute a recursive tokenizer, and the tokenizer to give every well-formed
    format its meaning. Strings are the characters before the terminating NUL. */
module Format {
  import opened Wire
  import opened Records

  const CHAR: byte := 1        // also P8_LOG_ARG_TYPE_INT8
  const INT16: byte := 3
  const INT32: byte := 4
  const INT64: byte := 5
  const DOUBLE: byte := 6
  const PVOID: byte := 7
  const USTR16: byte := 8
  const STRA: byte := 9
  const USTR8: byte := 10
  const USTR32: byte := 11
  const CHAR32: byte := 12
  const INTMAX: byte := 13
  const LDOUBLE: byte := 14
  const MAX_ARGS := 32

  /** s_p8_log_varg; for string types size is the has-width flag. */
  datatype VArg = VArg(kind: byte, size: byte)

  datatype Prefix = I64 | I32 | Ll | L | Hh | H | I | W | J | UpperL | Unknown

  /** gs_prefixes, in the order in which it is searched. */
  const PREFIXES: seq<(string, Prefix)> := [
    ("I64", I64), ("I32", I32), ("ll", Ll), ("hh", Hh), ("h", H), ("l", L), ("L", UpperL), ("I", I), ("z", I),
    ("t", I), ("w", W), ("j", J)]

  predicate StartsWith(s: string, p: string) { |p| <= |s| && s[..|p|] == p }

  predicate IsPrefixChar(c: char) { c in {'I', 'l', 'h', 'w', 'z', 'j', 't', 'L'} }

  predicate IsDigit(c: char) { '0' <= c <= '9' }

  predicate IsInteger(c: char) { c in {'d', 'i', 'o', 'u', 'x', 'X', 'b', 'B'} }

  predicate IsReal(c: char) { c in {'e', 'E', 'f', 'F', 'g', 'G', 'a', 'A'} }

  predicate IsConversion(c: char) { IsInteger(c) || IsReal(c) || c in {'s', 'S', 'p', 'c', 'C'} }

  /** The longest prefix at the head of s. */
  function LongestPrefix(s: string): (r: (nat, Prefix))
    requires s != "" && IsPrefixChar(s[0])
    ensures 1 <= r.0 <= |s| && r.0 <= 3
  {
    if |s| >= 3 && s[0] == 'I' && s[1] == '6' && s[2] == '4' then (3, I64)
    else if |s| >= 3 && s[0] == 'I' && s[1] == '3' && s[2] == '2' then (3, I32)
    else
      match s[0]
      case 'l' => if |s| >= 2 && s[1] == 'l' then (2, Ll) else (1, L)
      case 'h' => if |s| >= 2 && s[1] == 'h' then (2, Hh) else (1, H)
      case 'L' => (1, UpperL)
      case 'w' => (1, W)
      case 'j' => (1, J)
      case _ => (1, I)
  }

  /** The argument one conversion consumes. */
  function ArgFor(c: char, p: Prefix, width: byte): VArg {
    if IsInteger(c) then
      match p
      case Ll => VArg(INT64, 8)
      case I64 => VArg(INT64, 8)
      case L => VArg(INT64, 8)
      case I => VArg(INT64, 8)
      case H => VArg(INT16, 8)
      case Hh => VArg(CHAR, 8)
      case J => VArg(INTMAX, 8)
      case _ => VArg(INT32, 8)
    else if c == 's' || c == 'S' then
      if p.H? then VArg(STRA, width)
      else if c == 'S' || p.L? then VArg(USTR32, width)
      else VArg(USTR8, width)
    else if c == 'p' then VArg(PVOID, 8)
    else if c == 'c' || c == 'C' then (if p.L? then VArg(CHAR32, 8) else VArg(CHAR, 8))
    else if p.UpperL? then VArg(LDOUBLE, 16)
    else VArg(DOUBLE, 8)
  }

  // -------------------------------------------------------------- tokenizer

  /** Arguments of a format, read from outside any conversion. */
  function Plain(s: string): seq<VArg>
    decreases |s|
  {
    if s == "" then []
    else if s[0] == '%' then Inside(s[1..], Unknown, 0)
    else Plain(s[1..])
  }

  /** The same from inside a conversion whose prefix and width flag are known. */
  function Inside(s: string, p: Prefix, width: byte): seq<VArg>
    decreases |s|
  {
    if s == "" then []
    else if s[0] == '*' then [VArg(INT32, 8)] + Inside(s[1..], p, 1)
    else if IsPrefixChar(s[0]) then
      var (n, q) := LongestPrefix(s);
      Inside(s[n..], q, if IsDigit(s[n - 1]) then 1 else width)
    else if IsConversion(s[0]) then [ArgFor(s[0], p, width)] + Plain(s[1..])
    else if s[0] == '%' then Plain(s[1..])
    else Inside(s[1..], p, if IsDigit(s[0]) then 1 else width)
  }

  function Tokens(s: string, percent: bool, p: Prefix, width: byte): seq<VArg> {
    if percent then Inside(s, p, width) else Plain(s)
  }

  lemma PlainStep(s: string)
    requires s != ""
    ensures Plain(s) == if s[0] == '%' then Inside(s[1..], Unknown, 0) else Plain(s[1..])
  {
  }

  lemma InsideStep(s: string, p: Prefix, width: byte)
    requires s != ""
    ensures Inside(s, p, width)
            == if s[0] == '*' then [VArg(INT32, 8)] + Inside(s[1..], p, 1)
               else if IsPrefixChar(s[0]) then
                 var (n, q) := LongestPrefix(s);
                 Inside(s[n..], q, if IsDigit(s[n - 1]) then 1 else width)
               else if IsConversion(s[0]) then [ArgFor(s[0], p, width)] + Plain(s[1..])
               else if s[0] == '%' then Plain(s[1..])
               else Inside(s[1..], p, if IsDigit(s[0]) then 1 else width)
  {
  }

  // -------------------------------------------------------------- the parser

  lemma TableFinds(s: string, i: nat)
    requires s != "" && IsPrefixChar(s[0]) && i <= |PREFIXES|
    requires forall k :: 0 <= k < i ==> !StartsWith(s, PREFIXES[k].0)
    ensures i < |PREFIXES|
    ensures StartsWith(s, PREFIXES[i].0) ==> LongestPrefix(s) == (|PREFIXES[i].0|, PREFIXES[i].1)
  {
    assert forall c: string :: |c| == 1 ==> (StartsWith(s, c) <==> s[..1] == c);
    assert s[..1] == [s[0]];
    assert PREFIXES[0].0 == "I64" && PREFIXES[1].0 == "I32" && PREFIXES[2].0 == "ll" && PREFIXES[3].0 == "hh";
    assert PREFIXES[4].0 == "h" && PREFIXES[5].0 == "l" && PREFIXES[6].0 == "L" && PREFIXES[7].0 == "I";
    assert PREFIXES[8].0 == "z" && PREFIXES[9].0 == "t" && PREFIXES[10].0 == "w" && PREFIXES[11].0 == "j";
  }

  /** find_prefix: the first table entry that matches; on a prefix character
      there always is one, and it is the longest. */
  method FindPrefix(s: string) returns (n: nat, p: Prefix)
    requires s != "" && IsPrefixChar(s[0])
    ensures (n, p) == LongestPrefix(s)
  {
    hide LongestPrefix, StartsWith, IsPrefixChar;
    var i := 0;
    TableFinds(s, i);
    while !StartsWith(s, PREFIXES[i].0)
      invariant 0 <= i < |PREFIXES|
      invariant forall k :: 0 <= k < i ==> !StartsWith(s, PREFIXES[k].0)
      decreases |PREFIXES| - i
    {
      TableFinds(s, i + 1);
      i := i + 1;
    }
    TableFinds(s, i);
    n, p := |PREFIXES[i].0|, PREFIXES[i].1;
  }

  function Take<T>(s: seq<T>, n: nat): (r: seq<T>)
    ensures r <= s && |r| == if |s| <= n then |s| else n
  {
    if |s| <= n then s else s[..n]
  }

  lemma Shift<T>(done: seq<T>, x: T, more: seq<T>)
    ensures done + ([x] + more) == (done + [x]) + more
  {
  }

  lemma NoTokens(percent: bool, p: Prefix, width: byte)
    ensures Tokens("", percent, p, width) == []
  {
  }

  lemma TakeAll<T>(s: seq<T>, n: nat)
    requires |s| <= n
    ensures Take(s + [], n) == s
  {
    assert s + [] == s;
  }

  lemma TakeNone(format: Option<string>, n: nat)
    ensures format.Some? && n == 0 ==> Take(Plain(format.value), n) == []
  {
  }

  lemma TakeMore<T>(done: seq<T>, more: seq<T>, n: nat)
    requires |done| <= n
    ensures |done| == n ==> Take(done + more, n) == done
  {
    assert (done + more)[..|done|] == done;
  }

  lemma Suffix(s: string, i: nat, n: nat)
    requires i + n <= |s| && n > 0
    ensures s[i..][0] == s[i] && s[i..][n - 1] == s[i + (n - 1)] && s[i..][n..] == s[i + n..]
  {
  }

  /** parse_format_string with room for max results; None is a null format. */
  method ParseFormat(format: Option<string>, max: nat) returns (args: seq<VArg>)
    ensures args == if format.None? then [] else Take(Plain(format.value), max)
  {
    hide LongestPrefix, ArgFor, IsPrefixChar, IsConversion, IsDigit, Plain, Inside, Take;
    args := [];
    TakeNone(format, max);
    if format.None? || max == 0 {
      return;
    }
    var fmt := format.value;
    var i, percent, prefix := 0, false, Unknown;
    var width: byte := 0;
    assert fmt[0..] == fmt;
    while i < |fmt|
      invariant 0 <= i <= |fmt| && |args| <= max
      invariant Plain(fmt) == args + Tokens(fmt[i..], percent, prefix, width)
    {
      var c := fmt[i];
      if percent {
        InsideStep(fmt[i..], prefix, width);
      } else {
        PlainStep(fmt[i..]);
      }
      Suffix(fmt, i, 1);
      if !percent {
        if c == '%' {
          percent, prefix, width := true, Unknown, 0;
        }
      } else if c == '*' {
        TakeMore(args, Tokens(fmt[i..], percent, prefix, width), max);
        if |args| >= max {
          return;
        }
        Shift(args, VArg(INT32, 8), Inside(fmt[i + 1..], prefix, 1));
        args := args + [VArg(INT32, 8)];
        width := 1;
      } else if IsPrefixChar(c) {
        var n, p := FindPrefix(fmt[i..]);
        Suffix(fmt, i, n);
        prefix := p;
        i := i + (n - 1);
        if IsDigit(fmt[i]) {
          width := 1;
        }
      } else if IsConversion(c) {
        TakeMore(args, Tokens(fmt[i..], percent, prefix, width), max);
        if |args| >= max {
          return;
        }
        Shift(args, ArgFor(c, prefix, width), Plain(fmt[i + 1..]));
        args := args + [ArgFor(c, prefix, width)];
        percent := false;
      } else if c == '%' {
        percent := false;
      } else if IsDigit(c) {
        width := 1;
      }
      i := i + 1;
    }
    assert fmt[i..] == "";
    NoTokens(percent, prefix, width);
    TakeAll(args, max);
  }

  // ------------------------------------------------------ concatenation

  /** Does s, read from outside a conversion, end outside one? */
  predicate Closed(s: string)
    decreases |s|
  {
    s == "" || if s[0] == '%' then Closes(s[1..]) else Closed(s[1..])
  }

  /** The same for s read from inside a conversion. */
  predicate Closes(s: string)
    decreases |s|
  {
    s != ""
    && if s[0] == '*' then Closes(s[1..])
       else if IsPrefixChar(s[0]) then Closes(s[LongestPrefix(s).0..])
       else if IsConversion(s[0]) || s[0] == '%' then Closed(s[1..])
       else Closes(s[1..])
  }

  lemma LastOpen(c: char)
    ensures Closes([c]) ==> IsConversion(c) || c == '%'
  {
    assert [c][1..] == "" && !Closes("");
    if IsPrefixChar(c) {
      assert LongestPrefix([c]).0 == 1;
    }
  }

  lemma PrefixLocal(a: string, b: string)
    requires a != "" && IsPrefixChar(a[0]) && Closes(a)
    ensures LongestPrefix(a + b) == LongestPrefix(a)
  {
    if |a| == 2 && a[0] == 'I' {
      LastOpen(a[1]);
      assert LongestPrefix(a) == (1, I) && a[1..] == [a[1]];
    }
  }

  /** Parsing distributes over concatenation at any point outside a conversion. */
  lemma {:induction false} PlainConcat(a: string, b: string)
    requires Closed(a)
    ensures Plain(a + b) == Plain(a) + Plain(b)
    decreases |a|
  {
    if a == "" {
      assert a + b == b;
    } else {
      assert (a + b)[0] == a[0] && (a + b)[1..] == a[1..] + b;
      if a[0] == '%' {
        InsideConcat(a[1..], b, Unknown, 0);
      } else {
        PlainConcat(a[1..], b);
      }
    }
  }

  lemma {:induction false} InsideConcat(a: string, b: string, p: Prefix, width: byte)
    requires Closes(a)
    ensures Inside(a + b, p, width) == Inside(a, p, width) + Plain(b)
    decreases |a|
  {
    hide ArgFor, LongestPrefix;
    assert (a + b)[0] == a[0] && (a + b)[1..] == a[1..] + b;
    if a[0] == '*' {
      InsideConcat(a[1..], b, p, 1);
    } else if IsPrefixChar(a[0]) {
      PrefixLocal(a, b);
      var (n, q) := LongestPrefix(a);
      assert (a + b)[n..] == a[n..] + b && (a + b)[n - 1] == a[n - 1];
      InsideConcat(a[n..], b, q, if IsDigit(a[n - 1]) then 1 else width);
    } else if IsConversion(a[0]) {
      PlainConcat(a[1..], b);
    } else if a[0] == '%' {
      PlainConcat(a[1..], b);
    } else {
      InsideConcat(a[1..], b, p, if IsDigit(a[0]) then 1 else width);
    }
  }

  // ------------------------------------------------- the grammar's meaning

  /** A length prefix, as an index into the table, and what stands before it. */
  datatype Group = Group(mods: string, prefix: PrefixIndex)

  type PrefixIndex = k: nat | k < |PREFIXES|

  /** A format as printf's grammar describes it: text, and conversions. Between
      the percent sign and the letter stand flags, widths and precisions and any
      number of length prefixes; a second percent sign in the letter's place ends
      the conversion with nothing converted. */
  datatype Piece =
    | Text(text: string)
    | Conversion(groups: seq<Group>, mods: string, letter: char)

  /** Digits, stars, flags, and whatever else the parser passes over. */
  predicate IsMod(c: char) {
    c !in {'%', 'I', 'l', 'h', 'w', 'z', 'j', 't', 'L', 'd', 'i', 'o', 'u', 'x', 'X', 'b', 'B', 'e', 'E', 'f', 'F', 'g',
           'G', 'a', 'A', 's', 'S', 'p', 'c', 'C'}
  }

  function PrefixText(k: PrefixIndex): string { PREFIXES[k].0 }

  /** Everything behind the percent sign. */
  function Spell(groups: seq<Group>, mods: string, letter: char): string {
    if groups == [] then mods + [letter]
    else groups[0].mods + (PrefixText(groups[0].prefix) + Spell(groups[1..], mods, letter))
  }

  /** What follows prefix p does not make it a longer one. */
  predicate Ends(p: string, rest: string)
    requires rest != ""
  {
    (p == "l" ==> rest[0] != 'l') && (p == "h" ==> rest[0] != 'h')
    && (p == "I" ==> !StartsWith(rest, "64") && !StartsWith(rest, "32"))
  }

  lemma SpellSome(groups: seq<Group>, mods: string, letter: char)
    ensures Spell(groups, mods, letter) != ""
  {
    if groups != [] {
      SpellSome(groups[1..], mods, letter);
    }
  }

  predicate Spaced(groups: seq<Group>, mods: string, letter: char) {
    groups == []
    || (SpellSome(groups[1..], mods, letter);
        Ends(PrefixText(groups[0].prefix), Spell(groups[1..], mods, letter)) && Spaced(groups[1..], mods, letter))
  }

  ghost predicate AllMods(mods: string) { forall c <- mods :: IsMod(c) }

  predicate IsLetter(c: char) { IsConversion(c) || c == '%' }

  ghost predicate ValidPiece(x: Piece) {
    match x
    case Text(text) => forall c <- text :: c != '%'
    case Conversion(groups, mods, letter) =>
      (forall g <- groups :: AllMods(g.mods)) && AllMods(mods) && IsLetter(letter) && Spaced(groups, mods, letter)
  }

  function Render(x: Piece): string {
    match x
    case Text(text) => text
    case Conversion(groups, mods, letter) => "%" + Spell(groups, mods, letter)
  }

  /** A star consumes an int of its own. */
  function StarArgs(mods: string): (r: seq<VArg>)
    ensures |r| == multiset(mods)['*'] && forall v <- r :: v == VArg(INT32, 8)
  {
    if mods == "" then []
    else
      assert mods == [mods[0]] + mods[1..];
      (if mods[0] == '*' then [VArg(INT32, 8)] else []) + StarArgs(mods[1..])
  }

  function GroupStars(groups: seq<Group>, mods: string): seq<VArg> {
    if groups == [] then StarArgs(mods) else StarArgs(groups[0].mods) + GroupStars(groups[1..], mods)
  }

  predicate HasWidth(mods: string) { exists i :: 0 <= i < |mods| && (mods[i] == '*' || IsDigit(mods[i])) }

  /** A star or a digit anywhere, those of I64 and I32 included. */
  predicate Wide(groups: seq<Group>, mods: string) {
    if groups == [] then HasWidth(mods)
    else HasWidth(groups[0].mods) || PrefixText(groups[0].prefix) in {"I64", "I32"} || Wide(groups[1..], mods)
  }

  /** Of several prefixes the last one counts. */
  function LastPrefix(groups: seq<Group>): string {
    if groups == [] then "" else PrefixText(groups[|groups| - 1].prefix)
  }

  /** The argument of a letter behind a length prefix. */
  function Converted(letter: char, prefix: string, wide: bool): (v: VArg)
    ensures var ints := {'d', 'i', 'o', 'u', 'x', 'X', 'b', 'B'};
      (v.kind == INT64 <==> letter in ints && prefix in {"ll", "I64", "l", "I", "z", "t"})
      && (v.kind == INT16 <==> letter in ints && prefix == "h")
      && (v.kind == INTMAX <==> letter in ints && prefix == "j")
      && (v.kind == INT32 <==> letter in ints && prefix !in {"ll", "I64", "l", "I", "z", "t", "h", "hh", "j"})
    ensures var reals := {'e', 'E', 'f', 'F', 'g', 'G', 'a', 'A'};
      (v.kind == LDOUBLE <==> letter in reals && prefix == "L")
      && (v.kind == DOUBLE <==> letter in reals && prefix != "L")
    ensures v.kind == STRA <==> letter in {'s', 'S'} && prefix == "h"
    ensures v.kind == USTR32 <==> (letter == 'S' && prefix != "h") || (letter == 's' && prefix == "l")
    ensures v.kind == USTR8 <==> letter == 's' && prefix !in {"h", "l"}
    ensures v.kind == PVOID <==> letter == 'p'
    ensures letter in {'c', 'C'} ==> v.kind == if prefix == "l" then CHAR32 else CHAR
    ensures v.size == if v.kind == LDOUBLE then 16
                      else if v.kind in {STRA, USTR32, USTR8} then (if wide then 1 else 0) else 8
  {
    if letter in {'d', 'i', 'o', 'u', 'x', 'X', 'b', 'B'} then
      VArg(if prefix in {"ll", "I64", "l", "I", "z", "t"} then INT64
           else if prefix == "h" then INT16
           else if prefix == "hh" then CHAR
           else if prefix == "j" then INTMAX
           else INT32, 8)
    else if letter in {'e', 'E', 'f', 'F', 'g', 'G', 'a', 'A'} then
      if prefix == "L" then VArg(LDOUBLE, 16) else VArg(DOUBLE, 8)
    else if letter in {'s', 'S'} then
      VArg(if prefix == "h" then STRA else if letter == 'S' || prefix == "l" then USTR32 else USTR8,
           if wide then 1 else 0)
    else if letter == 'p' then VArg(PVOID, 8)
    else VArg(if prefix == "l" then CHAR32 else CHAR, 8)
  }

  /** The arguments a piece consumes. */
  function Meaning(x: Piece): seq<VArg> {
    match x
    case Text(_) => []
    case Conversion(groups, mods, letter) =>
      GroupStars(groups, mods)
      + if letter == '%' then [] else [Converted(letter, LastPrefix(groups), Wide(groups, mods))]
  }

  ghost predicate ValidPieces(xs: seq<Piece>) { forall x <- xs :: ValidPiece(x) }

  function RenderAll(xs: seq<Piece>): string {
    if xs == [] then "" else Render(xs[0]) + RenderAll(xs[1..])
  }

  function MeaningAll(xs: seq<Piece>): seq<VArg> {
    if xs == [] then [] else Meaning(xs[0]) + MeaningAll(xs[1..])
  }

  lemma {:induction false} PlainText(s: string)
    requires forall c <- s :: c != '%'
    ensures Closed(s) && Plain(s) == []
    decreases |s|
  {
    if s != "" {
      assert s[0] in s && forall c <- s[1..] :: c in s;
      PlainText(s[1..]);
    }
  }

  lemma ModKinds(c: char)
    ensures IsMod(c) <==> !IsPrefixChar(c) && !IsConversion(c) && c != '%'
    ensures IsLetter(c) ==> !IsPrefixChar(c) && c != '*'
  {
  }

  lemma ModsSplit(mods: string, rest: string)
    requires mods != ""
    ensures (mods + rest)[0] == mods[0] && (mods + rest)[1..] == mods[1..] + rest
    ensures StarArgs(mods) == (if mods[0] == '*' then [VArg(INT32, 8)] else []) + StarArgs(mods[1..])
  {
  }

  lemma NoMods()
    ensures AllMods("") && !HasWidth("") && forall vs: seq<VArg> :: StarArgs("") + vs == vs
  {
  }

  lemma {:induction false} ReadMods(mods: string, rest: string, p: Prefix, width: byte)
    requires AllMods(mods) && Closes(rest)
    ensures Closes(mods + rest)
    ensures Inside(mods + rest, p, width) == StarArgs(mods) + Inside(rest, p, if HasWidth(mods) then 1 else width)
    decreases |mods|
  {
    hide IsPrefixChar, IsConversion, IsLetter, LongestPrefix, ArgFor, IsMod, IsDigit;
    hide Inside, Closes, HasWidth, StarArgs;
    if mods == "" {
      NoMods();
      assert mods + rest == rest;
    } else {
      var s := mods + rest;
      assert mods[0] in mods && forall c <- mods[1..] :: c in mods;
      ModKinds(mods[0]);
      ModsSplit(mods, rest);
      ReadMods(mods[1..], rest, p, if mods[0] == '*' || IsDigit(mods[0]) then 1 else width);
      InsideStep(s, p, width);
      ClosesMod(s);
      WidthCons(mods);
    }
  }

  lemma TableTexts()
    ensures PREFIXES[0].0 == "I64" && PREFIXES[1].0 == "I32" && PREFIXES[2].0 == "ll" && PREFIXES[3].0 == "hh"
    ensures PREFIXES[4].0 == "h" && PREFIXES[5].0 == "l" && PREFIXES[6].0 == "L" && PREFIXES[7].0 == "I"
    ensures PREFIXES[8].0 == "z" && PREFIXES[9].0 == "t" && PREFIXES[10].0 == "w" && PREFIXES[11].0 == "j"
  {
  }

  lemma PrefixThen(k: PrefixIndex, rest: string)
    requires rest != "" && Ends(PrefixText(k), rest)
    ensures var t := PrefixText(k);
      t + rest != "" && IsPrefixChar((t + rest)[0]) && (t + rest)[0] != '*'
      && LongestPrefix(t + rest) == (|t|, PREFIXES[k].1) && (t + rest)[|t|..] == rest
      && (IsDigit((t + rest)[|t| - 1]) <==> t in {"I64", "I32"})
  {
    TableTexts();
    if k == 7 && |rest| >= 2 {
      assert rest[..2] == [rest[0], rest[1]];
    }
  }

  lemma ReadPrefix(k: PrefixIndex, rest: string, p: Prefix, width: byte)
    requires rest != "" && Ends(PrefixText(k), rest) && Closes(rest)
    ensures Closes(PrefixText(k) + rest)
    ensures Inside(PrefixText(k) + rest, p, width)
            == Inside(rest, PREFIXES[k].1, if PrefixText(k) in {"I64", "I32"} then 1 else width)
  {
    hide ArgFor, LongestPrefix, IsConversion, IsPrefixChar, IsDigit, Inside, Closes, PrefixText;
    var s := PrefixText(k) + rest;
    PrefixThen(k, rest);
    InsideStep(s, p, width);
    ClosesStep(s);
  }

  lemma LetterOnly(letter: char, p: Prefix, width: byte)
    requires IsLetter(letter)
    ensures Closes([letter]) && Inside([letter], p, width) == if letter == '%' then [] else [ArgFor(letter, p, width)]
  {
    hide ArgFor;
    assert [letter][1..] == "";
  }

  lemma ClosesStep(s: string)
    requires s != "" && s[0] != '*' && IsPrefixChar(s[0])
    ensures Closes(s) == Closes(s[LongestPrefix(s).0..])
  {
    hide IsPrefixChar, LongestPrefix, IsConversion;
  }

  lemma ClosesMod(s: string)
    requires s != "" && !IsPrefixChar(s[0]) && !IsConversion(s[0]) && s[0] != '%'
    ensures Closes(s) == Closes(s[1..])
  {
    hide IsPrefixChar, LongestPrefix, IsConversion;
  }

  lemma WidthCons(mods: string)
    requires mods != ""
    ensures HasWidth(mods) <==> (mods[0] == '*' || IsDigit(mods[0])) || HasWidth(mods[1..])
  {
    hide IsDigit;
    if HasWidth(mods) && !(mods[0] == '*' || IsDigit(mods[0])) {
      var i :| 0 <= i < |mods| && (mods[i] == '*' || IsDigit(mods[i]));
      assert mods[1..][i - 1] == mods[i];
    }
    if HasWidth(mods[1..]) {
      var i :| 0 <= i < |mods[1..]| && (mods[1..][i] == '*' || IsDigit(mods[1..][i]));
      assert mods[i + 1] == mods[1..][i];
    }
  }

  /** The prefix in force behind the groups. */
  function Kind(groups: seq<Group>, p: Prefix): Prefix {
    if groups == [] then p else PREFIXES[groups[|groups| - 1].prefix].1
  }

  /** The parser's table of letters is the one on texts. */
  lemma SameTable(letter: char, groups: seq<Group>, wide: bool)
    requires IsConversion(letter)
    ensures ArgFor(letter, Kind(groups, Unknown), if wide then 1 else 0) == Converted(letter, LastPrefix(groups), wide)
  {
    if groups != [] {
      SamePrefix(letter, groups[|groups| - 1].prefix, wide);
    }
  }

  lemma SamePrefix(letter: char, k: PrefixIndex, wide: bool)
    requires IsConversion(letter)
    ensures ArgFor(letter, PREFIXES[k].1, if wide then 1 else 0) == Converted(letter, PrefixText(k), wide)
  {
    TableTexts();
  }

  lemma GroupsCons(groups: seq<Group>, mods: string, letter: char, p: Prefix)
    requires groups != [] && ValidPiece(Conversion(groups, mods, letter))
    ensures var g, more := groups[0], groups[1..];
      var rest := Spell(more, mods, letter);
      ValidPiece(Conversion(more, mods, letter)) && AllMods(g.mods)
      && rest != "" && Ends(PrefixText(g.prefix), rest) && Kind(groups, p) == Kind(more, PREFIXES[g.prefix].1)
      && Spell(groups, mods, letter) == g.mods + (PrefixText(g.prefix) + rest)
      && GroupStars(groups, mods) == StarArgs(g.mods) + GroupStars(more, mods)
      && (Wide(groups, mods) <==> HasWidth(g.mods) || PrefixText(g.prefix) in {"I64", "I32"} || Wide(more, mods))
  {
    hide StarArgs, HasWidth, PrefixText, AllMods, IsLetter, Ends;
    SpellSome(groups[1..], mods, letter);
    assert forall h <- groups[1..] :: h in groups;
  }

  lemma {:induction false} ReadGroups(groups: seq<Group>, mods: string, letter: char, p: Prefix, width: byte)
    requires ValidPiece(Conversion(groups, mods, letter))
    ensures Closes(Spell(groups, mods, letter))
    ensures Inside(Spell(groups, mods, letter), p, width)
            == GroupStars(groups, mods)
               + if letter == '%' then []
                 else [ArgFor(letter, Kind(groups, p), if Wide(groups, mods) then 1 else width)]
    decreases |groups|
  {
    hide ArgFor, Inside, Closes, StarArgs, HasWidth, PrefixText, AllMods, IsLetter, Ends;
    if groups == [] {
      LetterOnly(letter, p, if HasWidth(mods) then 1 else width);
      ReadMods(mods, [letter], p, width);
    } else {
      hide Spell, GroupStars, Wide, Kind, ValidPiece;
      GroupsCons(groups, mods, letter, p);
      var g, more := groups[0], groups[1..];
      var rest := Spell(more, mods, letter);
      var w: byte := if HasWidth(g.mods) then 1 else width;
      ReadGroups(more, mods, letter, PREFIXES[g.prefix].1, if PrefixText(g.prefix) in {"I64", "I32"} then 1 else w);
      ReadPrefix(g.prefix, rest, p, w);
      ReadMods(g.mods, PrefixText(g.prefix) + rest, p, width);
    }
  }

  lemma ReadPiece(x: Piece)
    requires ValidPiece(x)
    ensures Closed(Render(x)) && Plain(Render(x)) == Meaning(x)
  {
    hide ArgFor, Inside, Closes, Spell, GroupStars, Wide, LastPrefix, Kind, Converted, IsConversion, Spaced, AllMods;
    match x
    case Text(text) => PlainText(text);
    case Conversion(groups, mods, letter) =>
      ReadGroups(groups, mods, letter, Unknown, 0);
      if letter != '%' {
        SameTable(letter, groups, Wide(groups, mods));
      }
      assert Render(x)[1..] == Spell(groups, mods, letter);
  }

  /** Every format built from the grammar parses to exactly what it means. */
  lemma {:induction false} GrammarRoundTrip(xs: seq<Piece>)
    requires ValidPieces(xs)
    ensures Plain(RenderAll(xs)) == MeaningAll(xs)
    decreases |xs|
  {
    hide Render, Meaning;
    if xs != [] {
      assert xs[0] in xs;
      ReadPiece(xs[0]);
      GrammarRoundTrip(xs[1..]);
      PlainConcat(Render(xs[0]), RenderAll(xs[1..]));
    }
  }

  // ---------------------------------------------------- every format has one

  /** The table entry at the head of s. */
  lemma PrefixFound(s: string) returns (k: PrefixIndex)
    requires s != "" && IsPrefixChar(s[0])
    ensures LongestPrefix(s).0 == |PrefixText(k)| && s[..|PrefixText(k)|] == PrefixText(k)
    ensures |s| > |PrefixText(k)| ==> Ends(PrefixText(k), s[|PrefixText(k)|..])
  {
    TableTexts();
    var n, q := LongestPrefix(s).0, LongestPrefix(s).1;
    k := if q == I64 then 0 else if q == I32 then 1 else if q == Ll then 2 else if q == Hh then 3
         else match s[0]
              case 'h' => 4
              case 'l' => 5
              case 'L' => 6
              case 'I' => 7
              case 'z' => 8
              case 't' => 9
              case 'w' => 10
              case _ => 11;
    assert n == 1 ==> s[..1] == [s[0]];
    assert n == 2 ==> s[..2] == [s[0], s[1]];
    assert n == 3 ==> s[..3] == [s[0], s[1], s[2]];
    if n == 1 && s[0] == 'I' && |s| >= 3 {
      assert s[1..][..2] == [s[1], s[2]];
    }
  }

  lemma EndsPart(p: string, a: string, b: string)
    requires a != "" && Ends(p, a + b)
    ensures Ends(p, a)
  {
    assert |a| >= 2 ==> a[..2] == (a + b)[..2];
  }

  /** A closed format is the rendering of pieces of the grammar. */
  lemma {:induction false} Decompose(s: string) returns (xs: seq<Piece>)
    requires Closed(s)
    ensures ValidPieces(xs) && RenderAll(xs) == s
    decreases |s|
  {
    hide Spell, Spaced;
    if s == "" {
      xs := [];
    } else if s[0] == '%' {
      var groups, mods, letter, rest := DecomposeInside(s[1..]);
      var x := Conversion(groups, mods, letter);
      xs := [x] + rest;
      assert xs[1..] == rest && s == Render(x) + RenderAll(rest);
    } else {
      var rest := Decompose(s[1..]);
      xs := [Piece.Text([s[0]])] + rest;
      assert xs[1..] == rest && s == [s[0]] + s[1..];
    }
  }

  lemma ClosesCases(s: string)
    requires Closes(s)
    ensures s != "" && (IsPrefixChar(s[0]) ==> Closes(s[LongestPrefix(s).0..]))
    ensures IsMod(s[0]) ==> Closes(s[1..])
    ensures !IsPrefixChar(s[0]) && !IsMod(s[0]) ==> IsLetter(s[0]) && Closed(s[1..])
  {
    ModKinds(s[0]);
    hide IsPrefixChar, IsConversion, IsMod, LongestPrefix;
  }

  lemma {:induction false} DecomposeInside(s: string)
    returns (groups: seq<Group>, mods: string, letter: char, rest: seq<Piece>)
    requires Closes(s)
    ensures ValidPiece(Conversion(groups, mods, letter)) && ValidPieces(rest)
    ensures s == Spell(groups, mods, letter) + RenderAll(rest)
    decreases |s|
  {
    hide IsPrefixChar, IsConversion, IsMod, LongestPrefix, PrefixText, Ends, RenderAll, IsLetter, Closes, Closed;
    ClosesCases(s);
    if IsPrefixChar(s[0]) {
      var k := PrefixFound(s);
      groups, mods, letter, rest := DecomposeInside(s[|PrefixText(k)|..]);
      PutPrefix(k, groups, mods, letter, s, RenderAll(rest));
      groups := [Group("", k)] + groups;
    } else if IsMod(s[0]) {
      groups, mods, letter, rest := DecomposeInside(s[1..]);
      PutMod(s[0], groups, mods, letter);
      if groups == [] {
        mods := [s[0]] + mods;
      } else {
        groups := [groups[0].(mods := [s[0]] + groups[0].mods)] + groups[1..];
      }
    } else {
      rest := Decompose(s[1..]);
      groups, mods, letter := [], "", s[0];
    }
  }

  lemma PutPrefix(k: PrefixIndex, groups: seq<Group>, mods: string, letter: char, s: string, rest: string)
    requires ValidPiece(Conversion(groups, mods, letter)) && |PrefixText(k)| <= |s|
    requires s[..|PrefixText(k)|] == PrefixText(k)
    requires s[|PrefixText(k)|..] == Spell(groups, mods, letter) + rest
    requires |s| > |PrefixText(k)| ==> Ends(PrefixText(k), s[|PrefixText(k)|..])
    ensures ValidPiece(Conversion([Group("", k)] + groups, mods, letter))
    ensures s == Spell([Group("", k)] + groups, mods, letter) + rest
  {
    hide IsMod, PrefixText, Ends, IsLetter;
    SpellSome(groups, mods, letter);
    EndsPart(PrefixText(k), Spell(groups, mods, letter), rest);
    var more := [Group("", k)] + groups;
    assert more[1..] == groups && forall g <- more :: g == more[0] || g in groups;
    assert s == PrefixText(k) + s[|PrefixText(k)|..];
  }

  lemma PutMod(c: char, groups: seq<Group>, mods: string, letter: char)
    requires ValidPiece(Conversion(groups, mods, letter)) && IsMod(c)
    ensures groups == [] ==>
              ValidPiece(Conversion([], [c] + mods, letter))
              && Spell([], [c] + mods, letter) == [c] + Spell(groups, mods, letter)
    ensures groups != [] ==>
              var more := [groups[0].(mods := [c] + groups[0].mods)] + groups[1..];
              ValidPiece(Conversion(more, mods, letter))
              && Spell(more, mods, letter) == [c] + Spell(groups, mods, letter)
  {
    hide IsMod, PrefixText, Ends, IsLetter;
    if groups != [] {
      var more := [groups[0].(mods := [c] + groups[0].mods)] + groups[1..];
      assert more[1..] == groups[1..] && forall g <- more :: g == more[0] || g in groups;
    }
  }

  /** A format that stops inside a conversion consumes what it would consume with
      one more percent sign. */
  lemma {:induction false} OpenEnd(s: string)
    requires !Closed(s)
    ensures Closed(s + "%") && Plain(s + "%") == Plain(s)
    decreases |s|
  {
    assert (s + "%")[1..] == s[1..] + "%";
    if s[0] == '%' {
      OpenInside(s[1..], Unknown, 0);
    } else {
      OpenEnd(s[1..]);
    }
  }

  lemma PercentLast(s: string)
    requires s != "" && IsPrefixChar(s[0])
    ensures LongestPrefix(s + "%") == LongestPrefix(s)
  {
  }

  lemma {:induction false} OpenInside(s: string, p: Prefix, width: byte)
    requires !Closes(s)
    ensures Closes(s + "%") && Inside(s + "%", p, width) == Inside(s, p, width)
    decreases |s|
  {
    hide ArgFor, IsConversion, IsPrefixChar, LongestPrefix, IsDigit, Inside;
    if s == "" {
      LetterOnly('%', p, width);
      NoTokens(true, p, width);
      assert s + "%" == ['%'];
    } else {
      var t := s + "%";
      assert t[0] == s[0] && t[1..] == s[1..] + "%";
      InsideStep(s, p, width);
      InsideStep(t, p, width);
      if s[0] == '*' {
        OpenInside(s[1..], p, 1);
      } else if IsPrefixChar(s[0]) {
        var (n, q) := LongestPrefix(s);
        PercentLast(s);
        assert t[n - 1] == s[n - 1] && t[n..] == s[n..] + "%";
        OpenInside(s[n..], q, if IsDigit(s[n - 1]) then 1 else width);
      } else if IsConversion(s[0]) || s[0] == '%' {
        OpenEnd(s[1..]);
      } else {
        OpenInside(s[1..], p, if IsDigit(s[0]) then 1 else width);
      }
    }
  }

  /** Every format whatever, cut short in a conversion or not, parses to the
      meaning of pieces of the grammar that spell it. */
  lemma EveryFormat(s: string) returns (xs: seq<Piece>)
    ensures ValidPieces(xs) && RenderAll(xs) == if Closed(s) then s else s + "%"
    ensures Plain(s) == MeaningAll(xs)
  {
    if !Closed(s) {
      OpenEnd(s);
    }
    xs := Decompose(if Closed(s) then s else s + "%");
    GrammarRoundTrip(xs);
  }

  // ---------------------------------------------------- one conversion

  lemma PrefixListed(prefix: string) returns (k: PrefixIndex)
    requires prefix in {"I64", "I32", "ll", "hh", "h", "l", "L", "I", "z", "t", "w", "j"}
    ensures PrefixText(k) == prefix
  {
    TableTexts();
    k := if prefix == "I64" then 0 else if prefix == "I32" then 1 else if prefix == "ll" then 2
         else if prefix == "hh" then 3 else if prefix == "h" then 4 else if prefix == "l" then 5
         else if prefix == "L" then 6 else if prefix == "I" then 7 else if prefix == "z" then 8
         else if prefix == "t" then 9 else if prefix == "w" then 10 else 11;
  }

  lemma LetterEnds(k: PrefixIndex, letter: char)
    requires IsLetter(letter)
    ensures Ends(PrefixText(k), "" + [letter])
  {
  }

  lemma NoStars(mods: string)
    ensures StarArgs(mods) + StarArgs("") == StarArgs(mods)
  {
  }

  lemma OneGroup(mods: string, k: PrefixIndex, letter: char)
    requires AllMods(mods) && IsLetter(letter)
    ensures var x := Conversion([Group(mods, k)], "", letter);
      ValidPiece(x) && Render(x) == "%" + (mods + (PrefixText(k) + [letter])) && LastPrefix(x.groups) == PrefixText(k)
      && GroupStars(x.groups, "") == StarArgs(mods)
      && (Wide(x.groups, "") <==> HasWidth(mods) || PrefixText(k) in {"I64", "I32"})
  {
    LetterEnds(k, letter);
    hide AllMods, PrefixText, Ends, IsLetter;
    var gs := [Group(mods, k)];
    assert gs[1..] == [] && "" + [letter] == [letter];
    assert Spell([], "", letter) == [letter] && Spaced([], "", letter);
    NoMods();
    NoStars(mods);
  }

  lemma BehindPrefix(mods: string, k: PrefixIndex, letter: char)
    requires AllMods(mods) && IsConversion(letter)
    ensures Plain("%" + (mods + (PrefixText(k) + [letter])))
            == StarArgs(mods) + [Converted(letter, PrefixText(k), HasWidth(mods) || PrefixText(k) in {"I64", "I32"})]
  {
    hide Plain, HasWidth, StarArgs, AllMods, PrefixText, Converted, Render, ValidPiece, Wide, GroupStars, LastPrefix;
    OneGroup(mods, k, letter);
    ReadPiece(Conversion([Group(mods, k)], "", letter));
  }

  lemma BareConversion(mods: string, letter: char)
    requires AllMods(mods) && IsConversion(letter)
    ensures Plain("%" + (mods + [letter])) == StarArgs(mods) + [Converted(letter, "", HasWidth(mods))]
  {
    hide Plain, HasWidth, StarArgs, AllMods, Converted;
    ReadPiece(Conversion([], mods, letter));
  }

  /** One conversion with at most one length prefix: an int for each star, then
      the argument of its letter. */
  lemma ConversionMeans(mods: string, prefix: string, letter: char)
    requires AllMods(mods) && IsConversion(letter)
    requires prefix in {"", "I64", "I32", "ll", "hh", "h", "l", "L", "I", "z", "t", "w", "j"}
    ensures Plain("%" + mods + prefix + [letter])
            == StarArgs(mods) + [Converted(letter, prefix, HasWidth(mods) || prefix in {"I64", "I32"})]
  {
    hide Plain, HasWidth, StarArgs, AllMods, PrefixText, ArgFor, Converted, IsConversion;
    if prefix == "" {
      BareConversion(mods, letter);
      assert "%" + mods + prefix + [letter] == "%" + (mods + [letter]);
    } else {
      var k := PrefixListed(prefix);
      BehindPrefix(mods, k, letter);
      assert "%" + mods + prefix + [letter] == "%" + (mods + (prefix + [letter]));
    }
  }

  // ------------------------------------------------- sizes on the wire

  predicate IsString(v: VArg) { v.kind == USTR8 || v.kind == USTR16 || v.kind == USTR32 || v.kind == STRA }

  /** mz_fixed_args_size. */
  function FixedSize(vs: seq<VArg>): nat {
    if vs == [] then 0
    else FixedSize(vs[..|vs| - 1]) + if IsString(vs[|vs| - 1]) then 0 else vs[|vs| - 1].size
  }

  method FixedArgsSize(vs: seq<VArg>) returns (n: nat)
    ensures n == FixedSize(vs)
  {
    n := 0;
    var i := 0;
    while i < |vs|
      invariant 0 <= i <= |vs| && n == FixedSize(vs[..i])
    {
      assert vs[..i + 1][..i] == vs[..i];
      if vs[i].kind != USTR8 && vs[i].kind != USTR16 && vs[i].kind != USTR32 && vs[i].kind != STRA {
        n := n + vs[i].size;
      }
      i := i + 1;
    }
    assert vs[..i] == vs;
  }

  /** The arguments a caller passes agree with what the format says. */
  ghost predicate Agree(vs: seq<VArg>, args: seq<Arg>) {
    |vs| == |args|
    && forall i :: 0 <= i < |vs| ==>
         if IsString(vs[i]) then args[i].Text? else args[i].Fixed? && |args[i].raw| == vs[i].size
  }

  /** What the descriptor's types tell a reader. */
  function ToldKinds(vs: seq<VArg>): (r: seq<ArgKind>)
    ensures |r| == |vs|
    ensures forall i :: 0 <= i < |vs| ==> r[i] == if IsString(vs[i]) then TextKind else FixedKind(vs[i].size)
  {
    seq(|vs|, i requires 0 <= i < |vs| => if IsString(vs[i]) then TextKind else FixedKind(vs[i].size))
  }

  /** A reader that has only the descriptor recovers every argument of a call
      that agrees with it. */
  lemma ReadByDescriptor(vs: seq<VArg>, args: seq<Arg>)
    requires Agree(vs, args)
    ensures var got := DecodeArgs(ArgsBytes(args), ToldKinds(vs));
      got.Some? && |got.value| == |args|
      && forall i :: 0 <= i < |args| ==>
           got.value[i] == if args[i].Text? then Arg.Text(Clip(args[i].chars)) else args[i]
  {
    hide DecodeArgs, ArgsBytes, IsString, Clip;
    assert Kinds(args) == ToldKinds(vs);
    ArgsSeen(args);
  }

  /** Two bytes of length and the characters, over the string arguments. */
  function StringSize(args: seq<Arg>): nat {
    if args == [] then 0
    else StringSize(args[..|args| - 1]) + if args[|args| - 1].Text? then 2 + |Clip(args[|args| - 1].chars)| else 0
  }

  /** send writes the descriptor's fixed size plus 2 + length for every string. */
  lemma {:induction false} BytesWritten(vs: seq<VArg>, args: seq<Arg>)
    requires Agree(vs, args)
    ensures |ArgsBytes(args)| == FixedSize(vs) + StringSize(args)
    decreases |args|
  {
    if args != [] {
      BytesWritten(vs[..|vs| - 1], args[..|args| - 1]);
    }
  }

  /** Whatever the format, its arguments are strings, 8-byte values or 16-byte
      long doubles, so a caller that agrees with it passes valid arguments. */
  lemma {:induction false} PlainSizes(s: string)
    ensures forall v <- Plain(s) :: IsString(v) || v.size == 8 || v.size == 16
    decreases |s|
  {
    hide IsString, ArgFor, LongestPrefix;
    if s != "" {
      if s[0] == '%' {
        InsideSizes(s[1..], Unknown, 0);
      } else {
        PlainSizes(s[1..]);
      }
    }
  }

  lemma ArgForSize(c: char, p: Prefix, width: byte)
    ensures var v := ArgFor(c, p, width); IsString(v) || v.size == 8 || v.size == 16
  {
  }

  lemma {:induction false} InsideSizes(s: string, p: Prefix, width: byte)
    ensures forall v <- Inside(s, p, width) :: IsString(v) || v.size == 8 || v.size == 16
    decreases |s|
  {
    hide IsString, ArgFor, LongestPrefix, IsPrefixChar, IsConversion;
    if s != "" {
      if s[0] == '*' {
        InsideSizes(s[1..], p, 1);
      } else if IsPrefixChar(s[0]) {
        var (n, q) := LongestPrefix(s);
        InsideSizes(s[n..], q, if IsDigit(s[n - 1]) then 1 else width);
      } else if IsConversion(s[0]) {
        ArgForSize(s[0], p, width);
        PlainSizes(s[1..]);
      } else if s[0] == '%' {
        PlainSizes(s[1..]);
      } else {
        InsideSizes(s[1..], p, if IsDigit(s[0]) then 1 else width);
      }
    }
  }

  /** Any call whose arguments agree with its parsed format is a valid record body. */
  lemma ParsedArgsValid(s: string, max: nat, args: seq<Arg>)
    requires Agree(Take(Plain(s), max), args)
    ensures forall a <- args :: ValidArg(a)
  {
    hide Plain;
    PlainSizes(s);
  }
}
