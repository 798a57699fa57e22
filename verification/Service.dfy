/** The service stream: descriptors packed into plain buffers as size-prefixed,
    zero-padded entries, and the walk that reads them back. */
module Service {
  import opened Wire
  import opened Layout
  import opened Records
  import opened Format

  const SVC_HDR := 4
  const STR_LIMIT := 1024       // P8_SVC_STR_MAX_LEN
  const PACKET_SERVICE: byte := 4
  const SVC_LOG: byte := 1
  const SVC_ATTR: byte := 2
  const SVC_MTK: byte := 5
  const SVC_MODULE: byte := 6

  /** A descriptor to transmit; a null string is the empty one. Doubles are
      their eight bytes and attrs is the blob of encoded attributes. */
  datatype Desc =
    | AttrDesc(id: nat, kind: byte, name: seq<byte>)
    | ModDesc(id: nat, verb: byte, name: seq<byte>)
    | LogDesc(line: nat, hash: nat, file: seq<byte>, func: seq<byte>, fmt: seq<byte>, args: seq<VArg>)
    | MtkDesc(id: nat, min: seq<byte>, max: seq<byte>, flags: byte, name: seq<byte>, text: seq<byte>, unit: seq<byte>,
              attrs: seq<byte>, count: byte)

  ghost predicate ValidDesc(d: Desc) {
    match d
    case AttrDesc(id, _, name) => id < 0x8000_0000 && 0 !in name
    case ModDesc(id, _, name) => id < 0x1_0000 && 0 !in name
    case LogDesc(line, hash, _, _, _, _) => line < 0x1_0000_0000 && hash < 0x1_0000_0000_0000_0000
    case MtkDesc(id, min, max, _, _, _, _, _, _) => id < 0x8000_0000 && |min| == 8 && |max| == 8
  }

  /** An over-long string keeps its first length-modulo-1024 bytes. */
  function Cut(s: seq<byte>): (r: seq<byte>)
    ensures |r| == |s| % STR_LIMIT && r <= s
  {
    s[..|s| % STR_LIMIT]
  }

  /** The string survives exactly when it is short enough. */
  lemma CutIff(s: seq<byte>)
    ensures Cut(s) == s <==> |s| < STR_LIMIT
  {
  }

  /** Not the first 1024 bytes: a string of 1024 bytes vanishes altogether. */
  lemma CutExample(s: seq<byte>)
    requires |s| == STR_LIMIT
    ensures Cut(s) == []
  {
  }

  function AllArgs(args: seq<VArg>): seq<byte> {
    if args == [] then [] else AllArgs(args[..|args| - 1]) + [args[|args| - 1].kind, args[|args| - 1].size]
  }

  function Capped(args: seq<VArg>): (r: seq<VArg>)
    ensures if |args| <= MAX_ARGS then r == args else |r| == MAX_ARGS && r <= args
  {
    if |args| > MAX_ARGS then args[..MAX_ARGS] else args
  }

  function KindByte(d: Desc): byte {
    match d
    case AttrDesc(_, _, _) => SVC_ATTR
    case ModDesc(_, _, _) => SVC_MODULE
    case LogDesc(_, _, _, _, _, _) => SVC_LOG
    case MtkDesc(_, _, _, _, _, _, _, _, _) => SVC_MTK
  }

  /** The fixed part after the four-byte entry header; the gaps are struct padding. */
  function Fixed(d: Desc): seq<byte> {
    match d
    case AttrDesc(id, kind, _) => LE(id, 4) + [kind, 0, 0, 0]
    case ModDesc(id, verb, _) => LE(id, 2) + [verb, 0]
    case LogDesc(line, hash, file, func, fmt, args) =>
      LE(line, 4) + LE(hash, 8) + LE(|Cut(fmt)|, 2) + LE(|Cut(file)|, 2) + LE(|Cut(func)|, 2) + [|Capped(args)|, 0]
    case MtkDesc(id, min, max, flags, name, text, unit, attrs, count) =>
      LE(id, 4) + min + max + [flags, count] + LE(|Cut(name)|, 2) + LE(|Cut(text)|, 2) + LE(|Cut(unit)|, 2)
  }

  /** The variable parts, in the order in which they are copied. */
  function Parts(d: Desc): seq<seq<byte>> {
    match d
    case AttrDesc(_, _, name) => [Cut(name), [0]]
    case ModDesc(_, _, name) => [Cut(name), [0]]
    case LogDesc(_, _, file, func, fmt, args) => [Cut(file), Cut(func), Cut(fmt), AllArgs(Capped(args))]
    case MtkDesc(_, _, _, _, name, text, unit, attrs, _) => [Cut(name), Cut(text), Cut(unit), attrs]
  }

  function Join(ps: seq<seq<byte>>): seq<byte> {
    if ps == [] then [] else Join(ps[..|ps| - 1]) + ps[|ps| - 1]
  }

  function Zeros(n: nat): (r: seq<byte>)
    ensures |r| == n && forall i :: 0 <= i < n ==> r[i] == 0
  {
    seq(n, _ => 0)
  }

  /** Size of the whole entry, a multiple of 8. */
  function Padded(d: Desc): nat { Bare(d) + Pad(Bare(d)) }

  /** The same without the trailing padding. */
  function Bare(d: Desc): nat { SVC_HDR + |Fixed(d)| + |Join(Parts(d))| }

  function EntryHdr(d: Desc): seq<byte> {
    [PACKET_SERVICE, KindByte(d)] + LE(Padded(d), 2)
  }

  function Entry(d: Desc): seq<byte> {
    EntryHdr(d) + Fixed(d) + Join(Parts(d)) + Zeros(Tail(d))
  }

  /** Zero bytes after the last part. */
  function Tail(d: Desc): nat { Padded(d) - Bare(d) }

  lemma EntrySize(d: Desc)
    ensures |Entry(d)| == Padded(d) == Bare(d) + Tail(d) && Padded(d) >= SVC_HDR
  {
    hide Fixed, Parts, Join;
  }

  /** So every entry of a buffer starts at a multiple of 8. */
  lemma EntryAligned(d: Desc)
    ensures Padded(d) % 8 == 0 && Tail(d) < 8
  {
    hide Fixed, Parts, Join;
  }

  function Entries(ds: seq<Desc>): seq<byte> {
    if ds == [] then [] else Entries(ds[..|ds| - 1]) + Entry(ds[|ds| - 1])
  }

  // ---------------------------------------------------------------- reading

  datatype Found = Found(kind: byte, bytes: seq<byte>)

  /** The walk over one buffer. */
  function Walk(b: seq<byte>): seq<Found>
    decreases |b|
  {
    if |b| < SVC_HDR then []
    else
      var size := Field(b, 2, 2);
      if size < SVC_HDR || size > |b| then [] else [Found(b[1], b[..size])] + Walk(b[size..])
  }

  function WalkAll(bs: seq<seq<byte>>): seq<Found> {
    if bs == [] then [] else WalkAll(bs[..|bs| - 1]) + Walk(bs[|bs| - 1])
  }

  function ReadName(e: seq<byte>, off: nat): seq<byte>
    decreases |e| - off
  {
    if off >= |e| || e[off] == 0 then [] else [e[off]] + ReadName(e, off + 1)
  }

  function ReadArgs(s: seq<byte>): seq<VArg> {
    if |s| < 2 then [] else [VArg(s[0], s[1])] + ReadArgs(s[2..])
  }

  /** Decodes one entry; the attribute blob of a metric still carries the padding. */
  function Decode(f: Found): Option<Desc> {
    var e := f.bytes;
    if f.kind == SVC_ATTR && |e| >= 12 then Some(AttrDesc(Field(e, 4, 4), e[8], ReadName(e, 12)))
    else if f.kind == SVC_MODULE && |e| >= 8 then Some(ModDesc(Field(e, 4, 2), e[6], ReadName(e, 8)))
    else if f.kind == SVC_LOG && |e| >= 24 then
      var n, file, func := Field(e, 16, 2), Field(e, 18, 2), Field(e, 20, 2);
      var count: nat := e[22];
      if |e| < 24 + file + func + n + 2 * count then None
      else
        var a := 24 + file + func + n;
        Some(LogDesc(Field(e, 4, 4), Field(e, 8, 8), e[24..24 + file], e[24 + file..24 + file + func],
                     e[24 + file + func..a], ReadArgs(e[a..a + 2 * count])))
    else if f.kind == SVC_MTK && |e| >= 32 then
      var name, text, unit := Field(e, 26, 2), Field(e, 28, 2), Field(e, 30, 2);
      if |e| < 32 + name + text + unit then None
      else
        var a := 32 + name;
        Some(MtkDesc(Field(e, 4, 4), e[8..16], e[16..24], e[24], e[32..a], e[a..a + text],
                     e[a + text..a + text + unit], e[a + text + unit..], e[25]))
    else None
  }

  /** What a reader can recover of d. */
  function Visible(d: Desc): Desc {
    match d
    case AttrDesc(id, kind, name) => AttrDesc(id, kind, Cut(name))
    case ModDesc(id, verb, name) => ModDesc(id, verb, Cut(name))
    case LogDesc(line, hash, file, func, fmt, args) => LogDesc(line, hash, Cut(file), Cut(func), Cut(fmt), Capped(args))
    case MtkDesc(id, min, max, flags, name, text, unit, attrs, count) =>
      MtkDesc(id, min, max, flags, Cut(name), Cut(text), Cut(unit), attrs + Zeros(Tail(d)), count)
  }

  lemma JoinTwo(a: seq<byte>, b: seq<byte>)
    ensures Join([a, b]) == a + b
  {
    assert [a, b][..1] == [a] && [a][..0] == [];
    assert Join([a]) == Join([a][..0]) + a;
  }

  lemma JoinFour(a: seq<byte>, b: seq<byte>, c: seq<byte>, d: seq<byte>)
    ensures Join([a, b, c, d]) == a + b + c + d
  {
    JoinTwo(a, b);
    assert [a, b, c, d][..3] == [a, b, c] && [a, b, c][..2] == [a, b];
  }

  lemma {:induction false} ReadNameBack(e: seq<byte>, off: nat, name: seq<byte>)
    requires off + |name| < |e| && e[off..off + |name|] == name && 0 !in name && e[off + |name|] == 0
    ensures ReadName(e, off) == name
    decreases |name|
  {
    if name != [] {
      assert e[off] == e[off..off + |name|][0] == name[0] && name[0] in name;
      assert e[off + 1..off + 1 + |name[1..]|] == e[off..off + |name|][1..] == name[1..];
      ReadNameBack(e, off + 1, name[1..]);
    }
  }

  lemma {:induction false} AllArgsCons(args: seq<VArg>)
    requires args != []
    ensures AllArgs(args) == [args[0].kind, args[0].size] + AllArgs(args[1..])
    decreases |args|
  {
    var n := |args| - 1;
    if n > 0 {
      AllArgsCons(args[..n]);
      assert args[..n][1..] == args[1..][..n - 1];
    }
  }

  lemma {:induction false} ReadArgsBack(args: seq<VArg>)
    ensures ReadArgs(AllArgs(args)) == args && |AllArgs(args)| == 2 * |args|
    decreases |args|
  {
    if args != [] {
      ReadArgsBack(args[1..]);
      AllArgsCons(args);
      assert AllArgs(args)[2..] == AllArgs(args[1..]);
    }
  }

  lemma Nest(e: seq<byte>, lo: nat, part: seq<byte>, i: nat, j: nat)
    requires lo + |part| <= |e| && e[lo..lo + |part|] == part && i <= j <= |part|
    ensures e[lo + i..lo + j] == part[i..j]
    ensures i < |part| ==> e[lo + i] == part[i]
  {
    forall k | 0 <= k < |part| ensures e[lo + k] == part[k] {
      assert e[lo..lo + |part|][k] == part[k];
    }
  }

  lemma FourParts(a: seq<byte>, b: seq<byte>, c: seq<byte>, d: seq<byte>)
    ensures var v, n, m := a + b + c + d, |a| + |b|, |a| + |b| + |c|;
      |v| == m + |d| && v[0..|a|] == a && v[|a|..n] == b && v[n..m] == c && v[m..m + |d|] == d
  {
  }

  /** The pieces of an entry in place. */
  lemma EntryPieces(d: Desc)
    ensures var e, f, v := Entry(d), Fixed(d), Join(Parts(d));
      |e| == 4 + |f| + |v| + Tail(d) && e[4..4 + |f|] == f && e[4 + |f|..4 + |f| + |v|] == v
      && e[4 + |f| + |v|..] == Zeros(Tail(d))
  {
    hide LE, Fixed, Parts, Join, Pad, KindByte;
  }

  lemma LogFixed(d: Desc)
    requires d.LogDesc?
    ensures var f := Fixed(d);
      |f| == 20 && f[0..4] == LE(d.line, 4) && f[4..12] == LE(d.hash, 8) && f[12..14] == LE(|Cut(d.fmt)|, 2)
      && f[14..16] == LE(|Cut(d.file)|, 2) && f[16..18] == LE(|Cut(d.func)|, 2) && f[18] == |Capped(d.args)|
  {
    hide LE, Cut, Capped;
  }

  lemma MtkFixed(d: Desc)
    requires d.MtkDesc? && |d.min| == 8 && |d.max| == 8
    ensures var f := Fixed(d);
      |f| == 28 && f[0..4] == LE(d.id, 4) && f[4..12] == d.min && f[12..20] == d.max
      && f[20] == d.flags && f[21] == d.count
      && f[22..24] == LE(|Cut(d.name)|, 2) && f[24..26] == LE(|Cut(d.text)|, 2) && f[26..28] == LE(|Cut(d.unit)|, 2)
  {
    hide LE, Cut;
  }

  lemma LogNumbers(d: Desc, e: seq<byte>)
    requires ValidDesc(d) && d.LogDesc? && |e| >= 24 && e[4..24] == Fixed(d)
    ensures Field(e, 4, 4) == d.line && Field(e, 8, 8) == d.hash && Field(e, 16, 2) == |Cut(d.fmt)|
    ensures Field(e, 18, 2) == |Cut(d.file)| && Field(e, 20, 2) == |Cut(d.func)| && e[22] == |Capped(d.args)|
  {
    hide LE, FromLE, Cut, Capped, Fixed;
    Pow256Values();
    ReadBackLE(d.line, 4);
    ReadBackLE(d.hash, 8);
    ReadBackLE(|Cut(d.fmt)|, 2);
    ReadBackLE(|Cut(d.file)|, 2);
    ReadBackLE(|Cut(d.func)|, 2);
    LogFixed(d);
    var f := Fixed(d);
    Nest(e, 4, f, 0, 4);
    Nest(e, 4, f, 4, 12);
    Nest(e, 4, f, 12, 14);
    Nest(e, 4, f, 14, 16);
    Nest(e, 4, f, 16, 18);
    Nest(e, 4, f, 18, 19);
  }

  lemma MtkNumbers(d: Desc, e: seq<byte>)
    requires ValidDesc(d) && d.MtkDesc? && |e| >= 32 && e[4..32] == Fixed(d)
    ensures Field(e, 4, 4) == d.id && e[8..16] == d.min && e[16..24] == d.max && e[24] == d.flags && e[25] == d.count
    ensures Field(e, 26, 2) == |Cut(d.name)| && Field(e, 28, 2) == |Cut(d.text)| && Field(e, 30, 2) == |Cut(d.unit)|
  {
    hide LE, FromLE, Cut, Fixed;
    Pow256Values();
    ReadBackLE(d.id, 4);
    ReadBackLE(|Cut(d.name)|, 2);
    ReadBackLE(|Cut(d.text)|, 2);
    ReadBackLE(|Cut(d.unit)|, 2);
    MtkFixed(d);
    var f := Fixed(d);
    Nest(e, 4, f, 0, 4);
    Nest(e, 4, f, 4, 12);
    Nest(e, 4, f, 12, 20);
    Nest(e, 4, f, 20, 21);
    Nest(e, 4, f, 21, 22);
    Nest(e, 4, f, 22, 24);
    Nest(e, 4, f, 24, 26);
    Nest(e, 4, f, 26, 28);
  }

  lemma SliceFour(e: seq<byte>, lo: nat, v: seq<byte>, a: seq<byte>, b: seq<byte>, c: seq<byte>, d: seq<byte>)
    requires v == a + b + c + d && lo + |v| <= |e| && e[lo..lo + |v|] == v
    ensures var n, m, k := lo + |a|, lo + |a| + |b|, lo + |a| + |b| + |c|;
      k + |d| <= |e| && e[lo..n] == a && e[n..m] == b && e[m..k] == c && e[k..k + |d|] == d
  {
    FourParts(a, b, c, d);
    var n, m, k := |a|, |a| + |b|, |a| + |b| + |c|;
    Nest(e, lo, v, 0, n);
    Nest(e, lo, v, n, m);
    Nest(e, lo, v, m, k);
    Nest(e, lo, v, k, k + |d|);
  }

  lemma NamePart(e: seq<byte>, lo: nat, v: seq<byte>, name: seq<byte>)
    requires v == name + [0] && 0 !in name && lo + |v| <= |e| && e[lo..lo + |v|] == v
    ensures ReadName(e, lo) == name
  {
    Nest(e, lo, v, 0, |name|);
    Nest(e, lo, v, |name|, |name| + 1);
    hide ReadName;
    assert v[0..|name|] == name;
    ReadNameBack(e, lo, name);
  }

  lemma ShortNumbers(d: Desc, e: seq<byte>)
    requires ValidDesc(d)
    ensures d.AttrDesc? && |e| >= 12 && e[4..12] == Fixed(d) ==> Field(e, 4, 4) == d.id && e[8] == d.kind
    ensures d.ModDesc? && |e| >= 8 && e[4..8] == Fixed(d) ==> Field(e, 4, 2) == d.id && e[6] == d.verb
  {
    hide LE, FromLE;
    Pow256Values();
    var f := Fixed(d);
    if d.AttrDesc? && |e| >= 12 && e[4..12] == f {
      ReadBackLE(d.id, 4);
      Nest(e, 4, f, 0, 4);
      Nest(e, 4, f, 4, 5);
      assert f[0..4] == LE(d.id, 4);
    } else if d.ModDesc? && |e| >= 8 && e[4..8] == f {
      ReadBackLE(d.id, 2);
      Nest(e, 4, f, 0, 2);
      Nest(e, 4, f, 2, 3);
      assert f[0..2] == LE(d.id, 2);
    }
  }

  lemma FixedShort(d: Desc)
    ensures d.AttrDesc? ==> |Fixed(d)| == 8
    ensures d.ModDesc? ==> |Fixed(d)| == 4
  {
  }

  lemma DecodeShort(d: Desc)
    requires ValidDesc(d) && (d.AttrDesc? || d.ModDesc?)
    ensures Decode(Found(KindByte(d), Entry(d))) == Some(Visible(d))
  {
    hide LE, FromLE, Padded, Pad, Bare, Zeros, Join, Cut, Entry, Field, Fixed, ReadName, Tail;
    var e, name := Entry(d), Cut(d.name);
    JoinTwo(name, [0]);
    EntryPieces(d);
    FixedShort(d);
    ShortNumbers(d, e);
    NamePart(e, if d.AttrDesc? then 12 else 8, Join(Parts(d)), name);
  }

  lemma DecodeLog(d: Desc)
    requires ValidDesc(d) && d.LogDesc?
    ensures Decode(Found(KindByte(d), Entry(d))) == Some(Visible(d))
  {
    hide LE, FromLE, Padded, Pad, Bare, Zeros, Join, ReadArgs, AllArgs, Capped, Cut, Entry, Field, Fixed;
    var e := Entry(d);
    var file, func, fmt, args := Cut(d.file), Cut(d.func), Cut(d.fmt), AllArgs(Capped(d.args));
    JoinFour(file, func, fmt, args);
    ReadArgsBack(Capped(d.args));
    EntryPieces(d);
    LogFixed(d);
    LogNumbers(d, e);
    SliceFour(e, 24, Join(Parts(d)), file, func, fmt, args);
  }

  lemma DecodeMtk(d: Desc)
    requires ValidDesc(d) && d.MtkDesc?
    ensures Decode(Found(KindByte(d), Entry(d))) == Some(Visible(d))
  {
    hide LE, FromLE, Padded, Pad, Bare, Zeros, Join, Cut, Entry, Field, Fixed, Tail;
    var e := Entry(d);
    var name, text, unit := Cut(d.name), Cut(d.text), Cut(d.unit);
    JoinFour(name, text, unit, d.attrs);
    EntryPieces(d);
    MtkFixed(d);
    MtkNumbers(d, e);
    SliceFour(e, 32, Join(Parts(d)), name, text, unit, d.attrs);
    var a := 32 + |name| + |text| + |unit|;
    assert e[a..] == e[a..a + |d.attrs|] + e[a + |d.attrs|..];
  }

  /** One entry, read back: everything but the tails of over-long strings. */
  lemma EntryRoundTrip(d: Desc)
    requires ValidDesc(d)
    ensures Decode(Found(KindByte(d), Entry(d))) == Some(Visible(d))
  {
    hide Decode, Entry, Visible, ValidDesc;
    match d
    case AttrDesc(_, _, _) => DecodeShort(d);
    case ModDesc(_, _, _) => DecodeShort(d);
    case LogDesc(_, _, _, _, _, _) => DecodeLog(d);
    case MtkDesc(_, _, _, _, _, _, _, _, _) => DecodeMtk(d);
  }

  /** A log descriptor's entry, piece by piece: line and hash, each string's first
      length-modulo-1024 bytes, and the arguments, up to 32 of them. */
  lemma LogEntryRead(d: Desc)
    requires ValidDesc(d) && d.LogDesc?
    ensures Decode(Found(1, Entry(d)))
            == Some(LogDesc(d.line, d.hash, d.file[..|d.file| % 1024], d.func[..|d.func| % 1024],
                            d.fmt[..|d.fmt| % 1024], if |d.args| <= 32 then d.args else d.args[..32]))
  {
    hide Decode, Entry;
    DecodeLog(d);
  }

  /** A metric's entry: what follows the strings is the blob and fewer than eight
      zero bytes. */
  lemma MtkEntryRead(d: Desc)
    requires ValidDesc(d) && d.MtkDesc?
    ensures var got := Decode(Found(5, Entry(d)));
      got.Some? && got.value.MtkDesc? && |d.attrs| <= |got.value.attrs| < |d.attrs| + 8
      && got.value
         == MtkDesc(d.id, d.min, d.max, d.flags, d.name[..|d.name| % 1024], d.text[..|d.text| % 1024],
                    d.unit[..|d.unit| % 1024], d.attrs + seq(|got.value.attrs| - |d.attrs|, _ => 0), d.count)
  {
    hide Decode, Entry, Padded, Bare;
    DecodeMtk(d);
    EntryAligned(d);
    assert Zeros(Tail(d)) == seq(Tail(d), _ => 0);
  }

  /** Every string is shorter than 1024 bytes, there are at most 32 arguments, and
      a metric's entry needs no padding. */
  predicate Intact(d: Desc) {
    match d
    case AttrDesc(_, _, name) => |name| < 1024
    case ModDesc(_, _, name) => |name| < 1024
    case LogDesc(_, _, file, func, fmt, args) => |file| < 1024 && |func| < 1024 && |fmt| < 1024 && |args| <= 32
    case MtkDesc(_, min, max, _, name, text, unit, attrs, _) =>
      |name| < 1024 && |text| < 1024 && |unit| < 1024 && (|name| + |text| + |unit| + |attrs|) % 8 == 0
  }

  lemma VisibleIff(d: Desc)
    requires ValidDesc(d)
    ensures Visible(d) == d <==> Intact(d)
  {
    hide Fixed, Parts, Join, Pad;
    if d.MtkDesc? && |d.name| < 1024 && |d.text| < 1024 && |d.unit| < 1024 {
      MtkTail(d);
      assert d.attrs + Zeros(Tail(d)) == d.attrs <==> Tail(d) == 0;
    }
  }

  lemma MtkTail(d: Desc)
    requires ValidDesc(d) && d.MtkDesc? && |d.name| < 1024 && |d.text| < 1024 && |d.unit| < 1024
    ensures Tail(d) == 0 <==> (|d.name| + |d.text| + |d.unit| + |d.attrs|) % 8 == 0
  {
    hide Fixed, Join, Pad, Cut, LE;
    JoinFour(Cut(d.name), Cut(d.text), Cut(d.unit), d.attrs);
    MtkFixed(d);
    PadNone(|d.name| + |d.text| + |d.unit| + |d.attrs|);
  }

  lemma PadNone(n: nat)
    ensures Pad(32 + n) == 0 <==> n % 8 == 0
  {
  }

  /** A descriptor comes back as it was registered exactly when it is intact. */
  lemma EntryExactIff(d: Desc)
    requires ValidDesc(d)
    ensures |Entry(d)| >= 8 && Entry(d)[0] == 4
    ensures Entry(d)[1] == if d.LogDesc? then 1 else if d.AttrDesc? then 2 else if d.MtkDesc? then 5 else 6
    ensures Decode(Found(Entry(d)[1], Entry(d))) == Some(d) <==> Intact(d)
  {
    EntrySize(d);
    EntryAligned(d);
    assert Entry(d)[1] == KindByte(d) && Entry(d)[0] == 4;
    hide Decode, Entry, Visible, ValidDesc, Padded, Bare, Intact;
    EntryRoundTrip(d);
    VisibleIff(d);
  }

  // ------------------------------------------------------- whole streams

  /** An entry that fits a buffer announces its own size exactly: mu_size is
      never truncated. */
  lemma SizeNeverTruncated(d: Desc)
    requires Padded(d) <= BUFFER_SIZE
    ensures Field(Entry(d), 2, 2) == |Entry(d)| && Entry(d)[1] == KindByte(d) && |Entry(d)| % 8 == 0
  {
    EntrySize(d);
    EntryAligned(d);
    Pow256Values();
    ReadBackLE(Padded(d), 2);
    hide LE, FromLE, Fixed, Parts, Join, Zeros;
    assert Entry(d)[2..4] == EntryHdr(d)[2..4] == LE(Padded(d), 2);
  }

  function Listed(ds: seq<Desc>): seq<Found> {
    if ds == [] then [] else [Found(KindByte(ds[0]), Entry(ds[0]))] + Listed(ds[1..])
  }

  ghost predicate AllFitBuffer(ds: seq<Desc>) { forall d <- ds :: Padded(d) <= BUFFER_SIZE }

  lemma WalkStep(d: Desc, rest: seq<byte>)
    requires Padded(d) <= BUFFER_SIZE
    ensures Walk(Entry(d) + rest) == [Found(KindByte(d), Entry(d))] + Walk(rest)
  {
    SizeNeverTruncated(d);
    hide Entry, FromLE, Padded, KindByte;
    EntrySize(d);
    var b := Entry(d) + rest;
    assert b[2..4] == Entry(d)[2..4] && b[..|Entry(d)|] == Entry(d) && b[|Entry(d)|..] == rest;
  }

  lemma {:induction false} EntriesCons(ds: seq<Desc>)
    requires ds != []
    ensures Entries(ds) == Entry(ds[0]) + Entries(ds[1..])
    decreases |ds|
  {
    hide Entry;
    var n := |ds| - 1;
    if n > 0 {
      EntriesCons(ds[..n]);
      assert ds[..n][1..] == ds[1..][..n - 1];
    }
  }

  /** Walking a buffer of entries finds each of them, whole and in order. */
  lemma {:induction false} WalkBuffer(ds: seq<Desc>)
    requires AllFitBuffer(ds)
    ensures Walk(Entries(ds)) == Listed(ds)
    decreases |ds|
  {
    hide Entry, Walk, KindByte, Padded;
    if ds != [] {
      assert ds[0] in ds;
      WalkBuffer(ds[1..]);
      EntriesCons(ds);
      WalkStep(ds[0], Entries(ds[1..]));
    } else {
      WalkNothing();
    }
  }

  lemma WalkNothing()
    ensures Walk([]) == []
  {
  }

  function Flat(parts: seq<seq<Desc>>): seq<Desc> {
    if parts == [] then [] else Flat(parts[..|parts| - 1]) + parts[|parts| - 1]
  }

  lemma ListedCons(d: Desc, rest: seq<Desc>)
    ensures Listed([d] + rest) == [Found(KindByte(d), Entry(d))] + Listed(rest)
  {
    hide Entry, KindByte;
    assert ([d] + rest)[1..] == rest;
  }

  lemma {:induction false} ListedConcat(a: seq<Desc>, b: seq<Desc>)
    ensures Listed(a + b) == Listed(a) + Listed(b)
    decreases |a|
  {
    hide *;
    if a == [] {
      ListedNothing();
      assert a + b == b;
    } else {
      ListedConcat(a[1..], b);
      ListedCons(a[0], a[1..]);
      ListedCons(a[0], a[1..] + b);
      assert a + b == [a[0]] + (a[1..] + b) && a == [a[0]] + a[1..];
    }
  }

  /** Entries never cross buffers: each buffer is a whole number of entries. */
  ghost predicate Holds(bs: seq<seq<byte>>, parts: seq<seq<Desc>>) {
    |bs| == |parts|
    && forall i :: 0 <= i < |bs| ==> bs[i] == Entries(parts[i]) && AllFitBuffer(parts[i])
  }

  /** The walk over all buffers finds every entry once, in order. */
  lemma {:induction false} WalkStream(bs: seq<seq<byte>>, parts: seq<seq<Desc>>)
    requires Holds(bs, parts)
    ensures WalkAll(bs) == Listed(Flat(parts))
    decreases |bs|
  {
    hide Walk, Listed, Entries;
    if bs == [] {
      ListedNothing();
    } else {
      var n := |bs| - 1;
      WalkStream(bs[..n], parts[..n]);
      WalkBuffer(parts[n]);
      ListedConcat(Flat(parts[..n]), parts[n]);
    }
  }

  lemma ListedNothing()
    ensures Listed([]) == []
  {
  }

  lemma HoldsConcat(a: seq<seq<byte>>, b: seq<seq<byte>>, p: seq<seq<Desc>>, q: seq<seq<Desc>>)
    requires Holds(a, p) && Holds(b, q)
    ensures Holds(a + b, p + q)
  {
    hide Entries, AllFitBuffer;
  }

  lemma FlatSnoc(parts: seq<seq<Desc>>, p: seq<Desc>)
    ensures Flat(parts + [p]) == Flat(parts) + p
  {
    assert (parts + [p])[..|parts|] == parts;
  }

  lemma {:induction false} FlatConcat(p: seq<seq<Desc>>, q: seq<seq<Desc>>)
    ensures Flat(p + q) == Flat(p) + Flat(q)
    decreases |q|
  {
    if q == [] {
      assert p + q == p;
    } else {
      var front, last := q[..|q| - 1], q[|q| - 1];
      FlatConcat(p, front);
      assert p + q == (p + front) + [last];
      FlatSnoc(p + front, last);
      assert (Flat(p) + Flat(front)) + last == Flat(p) + (Flat(front) + last);
    }
  }
}
