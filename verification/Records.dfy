/** Log records as values: what send writes for each argument and attribute, and
    how a reader gets them back. */
module Records {
  import opened Wire
  import opened Layout

  // ------------------------------------------------------- arguments

  /** One variadic argument: a fixed-size value or a string (a null pointer is
      the empty string). */
  datatype Arg = Fixed(raw: seq<byte>) | Text(chars: seq<byte>)

  predicate ValidArg(a: Arg) { a.Fixed? ==> |a.raw| == 8 || |a.raw| == 16 }

  /** String lengths are capped by their 16-bit prefix. */
  function Clip(s: seq<byte>): (r: seq<byte>)
    ensures |r| == (if |s| <= UINT16_MAX then |s| else UINT16_MAX) && r <= s
  {
    if |s| > UINT16_MAX then s[..UINT16_MAX] else s
  }

  function ArgBytes(a: Arg): seq<byte> {
    match a
    case Fixed(raw) => raw
    case Text(chars) => LE(|Clip(chars)|, 2) + Clip(chars)
  }

  function ArgChunks(a: Arg): seq<Chunk> {
    match a
    case Fixed(raw) => [Whole(|raw|)]
    case Text(chars) => [Whole(2), Split(|Clip(chars)|)]
  }

  function ArgsBytes(args: seq<Arg>): seq<byte> {
    if args == [] then [] else ArgsBytes(args[..|args| - 1]) + ArgBytes(args[|args| - 1])
  }

  function ArgsChunks(args: seq<Arg>): seq<Chunk> {
    if args == [] then [] else ArgsChunks(args[..|args| - 1]) + ArgChunks(args[|args| - 1])
  }

  // ------------------------------------------------------- attributes

  /** s_p8_attr_val: the registered type of id decides which member is live. */
  datatype AttrVal = AttrVal(id: int, raw: seq<byte>, chars: seq<byte>)

  /** An attribute as it appears on the wire. */
  datatype Attr = NumAttr(id: nat, raw: seq<byte>) | StrAttr(id: nat, chars: seq<byte>)

  const MAX_ATTRS := 0x8000_0000   // p8_attr_id is a signed 32-bit index

  predicate ValidAttr(a: Attr) { a.id < MAX_ATTRS && (a.NumAttr? ==> |a.raw| == 8) }

  /** Unregistered and negative ids are skipped; isStr is the registry. */
  function Resolve(v: AttrVal, isStr: seq<bool>): seq<Attr> {
    if v.id < 0 || v.id >= |isStr| then []
    else if isStr[v.id] then [StrAttr(v.id, v.chars)] else [NumAttr(v.id, v.raw)]
  }

  function ResolveAll(vs: seq<AttrVal>, isStr: seq<bool>): seq<Attr> {
    if vs == [] then [] else ResolveAll(vs[..|vs| - 1], isStr) + Resolve(vs[|vs| - 1], isStr)
  }

  /** How many entries of vs name one of n registered attributes. */
  function Known(vs: seq<AttrVal>, n: nat): nat {
    if vs == [] then 0 else Known(vs[..|vs| - 1], n) + if 0 <= vs[|vs| - 1].id < n then 1 else 0
  }

  /** got is what a reader is to see of vs: an attribute for each of the first
      |got| entries whose id is registered, in order, with the characters of a
      string attribute and the eight bytes of any other. */
  ghost predicate Lists(got: seq<Attr>, vs: seq<AttrVal>, isStr: seq<bool>) {
    |got| <= Known(vs, |isStr|)
    && forall i :: 0 <= i < |vs| && 0 <= vs[i].id < |isStr| && Known(vs[..i], |isStr|) < |got| ==>
         got[Known(vs[..i], |isStr|)]
         == if isStr[vs[i].id] then StrAttr(vs[i].id, Clip(vs[i].chars)) else NumAttr(vs[i].id, vs[i].raw)
  }

  function AttrBytes(a: Attr): seq<byte> {
    match a
    case NumAttr(id, raw) => LE(id, 4) + raw
    case StrAttr(id, chars) => LE(id, 4) + (LE(|Clip(chars)|, 2) + Clip(chars))
  }

  function AttrChunks(a: Attr): seq<Chunk> {
    match a
    case NumAttr(id, raw) => [Whole(4 + |raw|)]
    case StrAttr(id, chars) => [Whole(4), Whole(2), Split(|Clip(chars)|)]
  }

  function AttrsBytes(attrs: seq<Attr>): seq<byte> {
    if attrs == [] then [] else AttrsBytes(attrs[..|attrs| - 1]) + AttrBytes(attrs[|attrs| - 1])
  }

  function AttrsChunks(attrs: seq<Attr>): seq<Chunk> {
    if attrs == [] then [] else AttrsChunks(attrs[..|attrs| - 1]) + AttrChunks(attrs[|attrs| - 1])
  }

  // ------------------------------------------------------- decoding payloads

  /** What the descriptor of a format string says about one argument. */
  datatype ArgKind = FixedKind(n: nat) | TextKind

  datatype Option<T> = None | Some(value: T)

  function KindOf(a: Arg): ArgKind { if a.Fixed? then FixedKind(|a.raw|) else TextKind }

  function Kinds(args: seq<Arg>): (r: seq<ArgKind>)
    ensures |r| == |args| && forall i :: 0 <= i < |args| ==> r[i] == KindOf(args[i])
  {
    if args == [] then [] else [KindOf(args[0])] + Kinds(args[1..])
  }

  function ClipArg(a: Arg): Arg { if a.Text? then Text(Clip(a.chars)) else a }

  function ClipArgs(args: seq<Arg>): (r: seq<Arg>)
    ensures |r| == |args| && forall i :: 0 <= i < |args| ==> r[i] == ClipArg(args[i])
  {
    if args == [] then [] else [ClipArg(args[0])] + ClipArgs(args[1..])
  }

  function ClipAttr(a: Attr): Attr { if a.StrAttr? then StrAttr(a.id, Clip(a.chars)) else a }

  function ClipAttrs(attrs: seq<Attr>): seq<Attr> {
    if attrs == [] then [] else [ClipAttr(attrs[0])] + ClipAttrs(attrs[1..])
  }

  /** Reads a length-prefixed string: its characters and what follows. */
  function ReadText(s: seq<byte>): Option<(seq<byte>, seq<byte>)> {
    if |s| < 2 then None
    else
      var n := Field(s, 0, 2);
      if |s| < 2 + n then None else Some((s[2..2 + n], s[2 + n..]))
  }

  function DecodeArgs(s: seq<byte>, kinds: seq<ArgKind>): Option<seq<Arg>>
    decreases |kinds|
  {
    if kinds == [] then (if s == [] then Some([]) else None)
    else
      match kinds[0]
      case FixedKind(n) =>
        if |s| < n then None
        else
          var rest := DecodeArgs(s[n..], kinds[1..]);
          if rest.None? then None else Some([Fixed(s[..n])] + rest.value)
      case TextKind =>
        var t := ReadText(s);
        if t.None? then None
        else
          var rest := DecodeArgs(t.value.1, kinds[1..]);
          if rest.None? then None else Some([Text(t.value.0)] + rest.value)
  }

  /** Reads n attributes, which name their own types through the registry, and
      ignores what follows them. */
  function DecodeAttrs(s: seq<byte>, n: nat, isStr: seq<bool>): Option<seq<Attr>>
    decreases n
  {
    if n == 0 then Some([])
    else if |s| < 4 || Field(s, 0, 4) >= |isStr| then None
    else
      var id := Field(s, 0, 4);
      if isStr[id] then
        var t := ReadText(s[4..]);
        if t.None? then None
        else
          var rest := DecodeAttrs(t.value.1, n - 1, isStr);
          if rest.None? then None else Some([StrAttr(id, t.value.0)] + rest.value)
      else if |s| < 12 then None
      else
        var rest := DecodeAttrs(s[12..], n - 1, isStr);
        if rest.None? then None else Some([NumAttr(id, s[4..12])] + rest.value)
  }

  lemma ReadTextBack(chars: seq<byte>, rest: seq<byte>)
    ensures ReadText(LE(|Clip(chars)|, 2) + Clip(chars) + rest) == Some((Clip(chars), rest))
  {
    Pow256Values();
    ReadBackLE(|Clip(chars)|, 2);
    var s := LE(|Clip(chars)|, 2) + Clip(chars) + rest;
    assert s[0..2] == LE(|Clip(chars)|, 2);
  }

  lemma {:induction false} ArgsBytesCons(args: seq<Arg>)
    requires args != []
    ensures ArgsBytes(args) == ArgBytes(args[0]) + ArgsBytes(args[1..])
    decreases |args|
  {
    var n := |args| - 1;
    if n > 0 {
      ArgsBytesCons(args[..n]);
      assert args[..n][1..] == args[1..][..n - 1];
    }
  }

  lemma {:induction false} AttrsBytesCons(attrs: seq<Attr>)
    requires attrs != []
    ensures AttrsBytes(attrs) == AttrBytes(attrs[0]) + AttrsBytes(attrs[1..])
    decreases |attrs|
  {
    hide AttrBytes;
    var n := |attrs| - 1;
    if n > 0 {
      AttrsBytesCons(attrs[..n]);
      assert attrs[..n][1..] == attrs[1..][..n - 1];
    }
  }

  lemma AttrsJoin(done: seq<Attr>, v: AttrVal, isStr: seq<bool>)
    ensures AttrsBytes(done + Resolve(v, isStr)) == AttrsBytes(done) + AttrsBytes(Resolve(v, isStr))
    ensures AttrsChunks(done + Resolve(v, isStr)) == AttrsChunks(done) + AttrsChunks(Resolve(v, isStr))
  {
    hide AttrBytes, AttrChunks;
    var x := Resolve(v, isStr);
    if x == [] {
      assert done + x == done;
    } else {
      AttrOne(x[0]);
      assert x == [x[0]] && (done + x)[..|done|] == done;
    }
  }

  lemma AttrOne(a: Attr)
    ensures AttrsBytes([a]) == AttrBytes(a) && AttrsChunks([a]) == AttrChunks(a)
  {
    hide AttrBytes, AttrChunks;
    assert [a][..0] == [];
  }

  /** A reader that knows the argument kinds recovers every argument, strings
      cut to their first 65535 bytes. */
  lemma {:induction false} ArgsRoundTrip(args: seq<Arg>)
    ensures DecodeArgs(ArgsBytes(args), Kinds(args)) == Some(ClipArgs(args))
    decreases |args|
  {
    if args != [] {
      ArgsRoundTrip(args[1..]);
      ArgsBytesCons(args);
      hide ArgBytes, ArgsBytes, DecodeArgs, ClipArg;
      DecodeFirstArg(args[0], ArgsBytes(args[1..]), KindOf(args[0]), Kinds(args[1..]));
    }
  }

  /** The same, argument by argument. */
  lemma ArgsSeen(args: seq<Arg>)
    ensures var got := DecodeArgs(ArgsBytes(args), Kinds(args));
      got.Some? && |got.value| == |args|
      && forall i :: 0 <= i < |args| ==>
           got.value[i] == if args[i].Text? then Text(Clip(args[i].chars)) else args[i]
  {
    hide ArgsBytes, DecodeArgs, Kinds;
    ArgsRoundTrip(args);
  }

  lemma DecodeFirstArg(a: Arg, rest: seq<byte>, k: ArgKind, kinds: seq<ArgKind>)
    requires k == KindOf(a) && DecodeArgs(rest, kinds).Some?
    ensures DecodeArgs(ArgBytes(a) + rest, [k] + kinds) == Some([ClipArg(a)] + DecodeArgs(rest, kinds).value)
  {
    assert ([k] + kinds)[1..] == kinds;
    if a.Text? {
      ReadTextBack(a.chars, rest);
    } else {
      assert (a.raw + rest)[..|a.raw|] == a.raw && (a.raw + rest)[|a.raw|..] == rest;
    }
  }

  ghost predicate Registered(attrs: seq<Attr>, isStr: seq<bool>) {
    forall a <- attrs :: ValidAttr(a) && a.id < |isStr| && isStr[a.id] == a.StrAttr?
  }

  /** A reader that knows how many attributes there are recovers all of them,
      whatever padding follows. */
  lemma {:induction false} AttrsRoundTrip(attrs: seq<Attr>, pad: seq<byte>, isStr: seq<bool>)
    requires Registered(attrs, isStr)
    ensures DecodeAttrs(AttrsBytes(attrs) + pad, |attrs|, isStr) == Some(ClipAttrs(attrs))
    decreases |attrs|
  {
    hide AttrBytes, AttrsBytes, DecodeAttrs, ClipAttr, Registered;
    if attrs == [] {
      NoAttrsLeft(pad, isStr);
    } else {
      RegisteredParts(attrs, isStr);
      AttrsRoundTrip(attrs[1..], pad, isStr);
      AttrsBytesCons(attrs);
      DecodeFirstAttr(attrs[0], AttrsBytes(attrs[1..]) + pad, |attrs| - 1, isStr);
      assert AttrBytes(attrs[0]) + AttrsBytes(attrs[1..]) + pad == AttrBytes(attrs[0]) + (AttrsBytes(attrs[1..]) + pad);
    }
  }

  /** The same reader, told of fewer attributes than there are. */
  lemma FirstAttrs(attrs: seq<Attr>, k: nat, pad: seq<byte>, isStr: seq<bool>)
    requires Registered(attrs, isStr) && k <= |attrs|
    ensures DecodeAttrs(AttrsBytes(attrs) + pad, k, isStr) == Some(ClipAttrs(attrs[..k]))
  {
    hide AttrsBytes, DecodeAttrs, ClipAttrs;
    assert Registered(attrs[..k], isStr);
    var more := AttrsRest(attrs, k);
    AttrsRoundTrip(attrs[..k], more + pad, isStr);
    assert AttrsBytes(attrs) + pad == AttrsBytes(attrs[..k]) + (more + pad);
  }

  lemma {:induction false} AttrsRest(attrs: seq<Attr>, k: nat) returns (more: seq<byte>)
    requires k <= |attrs|
    ensures AttrsBytes(attrs) == AttrsBytes(attrs[..k]) + more
    decreases |attrs|
  {
    hide AttrBytes;
    if k == |attrs| {
      assert attrs[..k] == attrs;
      more := [];
    } else {
      var n := |attrs| - 1;
      more := AttrsRest(attrs[..n], k);
      assert attrs[..n][..k] == attrs[..k];
      more := more + AttrBytes(attrs[n]);
    }
  }

  lemma {:induction false} ResolvedCount(vs: seq<AttrVal>, isStr: seq<bool>)
    ensures |ResolveAll(vs, isStr)| == Known(vs, |isStr|)
  {
    if vs != [] {
      ResolvedCount(vs[..|vs| - 1], isStr);
    }
  }

  /** One attribute for each entry with a registered id, in order. */
  lemma {:induction false} ResolvedAt(vs: seq<AttrVal>, isStr: seq<bool>, i: nat)
    requires i < |vs| && 0 <= vs[i].id < |isStr|
    ensures Known(vs[..i], |isStr|) < |ResolveAll(vs, isStr)|
    ensures ResolveAll(vs, isStr)[Known(vs[..i], |isStr|)]
            == if isStr[vs[i].id] then StrAttr(vs[i].id, vs[i].chars) else NumAttr(vs[i].id, vs[i].raw)
    decreases |vs|
  {
    var n := |vs| - 1;
    if i == n {
      ResolvedCount(vs[..n], isStr);
    } else {
      ResolvedAt(vs[..n], isStr, i);
      assert vs[..n][..i] == vs[..i];
    }
  }

  lemma {:induction false} ClippedAt(attrs: seq<Attr>)
    ensures |ClipAttrs(attrs)| == |attrs|
    ensures forall i :: 0 <= i < |attrs| ==> ClipAttrs(attrs)[i] == ClipAttr(attrs[i])
    decreases |attrs|
  {
    hide ClipAttr;
    if attrs != [] {
      ClippedAt(attrs[1..]);
    }
  }

  /** A reader told of k attributes, no more than were sent, sees the first k
      entries with a registered id: their text cut to 65535 bytes if the
      attribute is a string, their eight bytes if not. */
  lemma AttrsSeen(vs: seq<AttrVal>, isStr: seq<bool>, k: nat, pad: seq<byte>)
    requires |isStr| <= MAX_ATTRS && (forall v <- vs :: |v.raw| == 8) && k <= Known(vs, |isStr|)
    ensures var got := DecodeAttrs(AttrsBytes(ResolveAll(vs, isStr)) + pad, k, isStr);
      got.Some? && |got.value| == k && Lists(got.value, vs, isStr)
  {
    hide DecodeAttrs, AttrsBytes, ResolveAll, ClipAttrs, Registered, Known, AllFit, AttrsChunks;
    ResolvedFit(vs, isStr);
    ResolvedCount(vs, isStr);
    var all := ResolveAll(vs, isStr);
    FirstAttrs(all, k, pad, isStr);
    ClippedAt(all[..k]);
    forall i | 0 <= i < |vs| && 0 <= vs[i].id < |isStr|
      ensures var j := Known(vs[..i], |isStr|);
        j < |all| && all[j] == if isStr[vs[i].id] then StrAttr(vs[i].id, vs[i].chars) else NumAttr(vs[i].id, vs[i].raw)
    {
      ResolvedAt(vs, isStr, i);
    }
  }

  lemma NoAttrsLeft(pad: seq<byte>, isStr: seq<bool>)
    ensures DecodeAttrs(AttrsBytes([]) + pad, 0, isStr) == Some([])
  {
  }

  lemma RegisteredParts(attrs: seq<Attr>, isStr: seq<bool>)
    requires Registered(attrs, isStr) && attrs != []
    ensures Registered(attrs[1..], isStr)
    ensures var a := attrs[0]; ValidAttr(a) && a.id < |isStr| && isStr[a.id] == a.StrAttr?
  {
    assert attrs[0] in attrs;
  }

  lemma DecodeFirstAttr(a: Attr, rest: seq<byte>, n: nat, isStr: seq<bool>)
    requires ValidAttr(a) && a.id < |isStr| && isStr[a.id] == a.StrAttr? && DecodeAttrs(rest, n, isStr).Some?
    ensures DecodeAttrs(AttrBytes(a) + rest, n + 1, isStr) == Some([ClipAttr(a)] + DecodeAttrs(rest, n, isStr).value)
  {
    AttrIdBack(a, rest);
    if a.StrAttr? {
      AttrTail(a, Clip(a.chars), rest);
    } else {
      var s := AttrBytes(a) + rest;
      hide Field, LE;
      assert s[4..12] == a.raw && s[12..] == rest;
    }
  }

  lemma AttrTail(a: Attr, c: seq<byte>, rest: seq<byte>)
    requires a.StrAttr? && c == Clip(a.chars)
    ensures ReadText((AttrBytes(a) + rest)[4..]) == Some((c, rest))
  {
    hide LE, Clip, ReadText;
    ReadTextBack(a.chars, rest);
    assert (AttrBytes(a) + rest)[4..] == LE(|c|, 2) + c + rest;
  }

  lemma AttrIdBack(a: Attr, rest: seq<byte>)
    requires ValidAttr(a)
    ensures |AttrBytes(a)| >= 4 && Field(AttrBytes(a) + rest, 0, 4) == a.id
  {
    Pow256Values();
    ReadBackLE(a.id, 4);
    assert (AttrBytes(a) + rest)[0..4] == LE(a.id, 4);
  }

  // ------------------------------------------------------- whole items

  datatype Record = Record(hash: nat, timestamp: nat, traceId: nat, level: nat, modId: nat,
                           args: seq<Arg>, attrs: seq<AttrVal>)

  ghost predicate ValidRecord(r: Record) {
    r.hash < 0x1_0000_0000_0000_0000 && r.timestamp < 0x1_0000_0000_0000_0000
    && r.traceId < 0x1_0000_0000_0000_0000 && r.level < 256 && r.modId < 0x1_0000
    && (forall a <- r.args :: ValidArg(a)) && (forall v <- r.attrs :: |v.raw| == 8)
  }

  /** What a reader should see for one record. */
  datatype Item = Item(hdr: ItemHdr, args: seq<byte>, attrs: seq<byte>) {
    function Size(): nat { ITEM_HDR + |args| + |attrs| }

    function Padded(): (n: nat)
      ensures n % 8 == 0 && Size() <= n < Size() + 8
    {
      Size() + Pad(Size())
    }
  }

  /** Sizes and counts are cut to the width of their header fields. */
  function ItemOf(r: Record, threadId: nat, isStr: seq<bool>): Item {
    var args, attrs := ArgsBytes(r.args), AttrsBytes(ResolveAll(r.attrs, isStr));
    var n := ITEM_HDR + |args| + |attrs|;
    Item(ItemHdr(r.hash, r.timestamp, r.traceId, threadId, r.level, 0, |args| % 0x1_0000,
                 (n + Pad(n)) % 0x1_0000, r.modId, |ResolveAll(r.attrs, isStr)| % 256, 0),
         args, attrs)
  }

  lemma ItemShape(r: Record, threadId: nat, isStr: seq<bool>, argsSize: nat, attrsSize: nat, count: nat, size: nat)
    requires argsSize == |ArgsBytes(r.args)| && attrsSize == |AttrsBytes(ResolveAll(r.attrs, isStr))|
    requires count == |ResolveAll(r.attrs, isStr)| && size == ITEM_HDR + argsSize + attrsSize
    ensures var it := ItemOf(r, threadId, isStr);
      it.args == ArgsBytes(r.args) && it.attrs == AttrsBytes(ResolveAll(r.attrs, isStr)) && it.Size() == size
      && it.hdr == ItemHdr(r.hash, r.timestamp, r.traceId, threadId, r.level, 0, argsSize % 0x1_0000,
                           (size + Pad(size)) % 0x1_0000, r.modId, count % 256, 0)
  {
    hide ArgsBytes, AttrsBytes, ResolveAll, Pad;
  }

  /** The header as first written: sizes and trailing bytes are still stale. */
  ghost predicate Drafted(h: seq<byte>, r: Record, threadId: nat)
    requires ValidRecord(r)
  {
    |h| == ITEM_HDR
    && h[..30] == LE(r.hash, 8) + LE(r.timestamp, 8) + LE(r.traceId, 8) + LE(threadId, 4) + [r.level, 0]
    && h[34..38] == LE(r.modId, 2) + [0, 0]
  }

  /** The header once its three size fields are patched in. */
  function Patched(h: seq<byte>, argsSize: nat, count: byte, size: nat): (p: seq<byte>)
    requires |h| == ITEM_HDR
    ensures |p| == ITEM_HDR
  {
    Splice(Splice(Splice(h, 30, LE(argsSize, 2)), 36, [count]), 32, LE(size, 2))
  }

  lemma PatchedPieces(h: seq<byte>, argsSize: nat, count: byte, size: nat)
    requires |h| == ITEM_HDR
    ensures var p := Patched(h, argsSize, count, size);
      p[..30] == h[..30] && p[30..32] == LE(argsSize, 2) && p[32..34] == LE(size, 2)
      && p[34..36] == h[34..36] && p[36] == count && p[37] == h[37]
  {
    hide LE;
  }

  lemma DraftedPieces(h: seq<byte>, r: Record, threadId: nat)
    requires ValidRecord(r) && Drafted(h, r, threadId)
    ensures h[0..8] == LE(r.hash, 8) && h[8..16] == LE(r.timestamp, 8) && h[16..24] == LE(r.traceId, 8)
    ensures h[24..28] == LE(threadId, 4) && h[28] == r.level && h[29] == 0
    ensures h[34..36] == LE(r.modId, 2) && h[37] == 0
  {
    hide LE;
    var a := h[..30];
    assert h[0..8] == a[0..8] && h[8..16] == a[8..16] && h[16..24] == a[16..24] && h[24..28] == a[24..28];
    assert h[28] == a[28] && h[29] == a[29];
    var m := h[34..38];
    assert h[34..36] == m[0..2] && h[37] == m[3];
  }

  lemma HeaderDone(h: seq<byte>, r: Record, threadId: nat, argsSize: nat, count: byte, size: nat)
    requires |h| == ITEM_HDR && ValidRecord(r) && Drafted(h, r, threadId) && threadId < 0x1_0000_0000
    requires argsSize < 0x1_0000 && size < 0x1_0000
    ensures HoldsItemHdr(Patched(h, argsSize, count, size),
              ItemHdr(r.hash, r.timestamp, r.traceId, threadId, r.level, 0, argsSize, size, r.modId, count, 0))
  {
    hide LE, Patched, Drafted;
    DraftedPieces(h, r, threadId);
    PatchedPieces(h, argsSize, count, size);
    var p := Patched(h, argsSize, count, size);
    var q := p[..30];
    assert p[0..8] == q[0..8] == h[0..8] && p[8..16] == q[8..16] == h[8..16];
    assert p[16..24] == q[16..24] == h[16..24] && p[24..28] == q[24..28] == h[24..28];
    assert p[28] == q[28] == h[28] && p[29] == q[29] == h[29];
  }

  lemma EncodesJoin(h: seq<byte>, pad: seq<byte>, it: Item)
    requires |h| == ITEM_HDR && HoldsItemHdr(h, it.hdr) && it.hdr.size == it.Padded() % 0x1_0000
    requires |pad| == Pad(it.Size())
    ensures Encodes(h + (it.args + it.attrs) + pad, it)
  {
    hide HoldsItemHdr;
    var b := h + (it.args + it.attrs) + pad;
    assert b[..ITEM_HDR] == h;
    assert b[ITEM_HDR..ITEM_HDR + |it.args|] == it.args;
    assert b[ITEM_HDR + |it.args|..it.Size()] == it.attrs;
  }

  /** b holds the item; pad bytes are unspecified. */
  ghost predicate Encodes(b: seq<byte>, it: Item) {
    |b| == it.Padded() && HoldsItemHdr(b[..ITEM_HDR], it.hdr) && it.hdr.size == it.Padded() % 0x1_0000
    && b[ITEM_HDR..ITEM_HDR + |it.args|] == it.args && b[ITEM_HDR + |it.args|..it.Size()] == it.attrs
  }

  /** b holds the item, all but its pad. */
  ghost predicate Bare(b: seq<byte>, it: Item) {
    |b| == it.Size() && HoldsItemHdr(b[..ITEM_HDR], it.hdr) && b[ITEM_HDR..] == it.args + it.attrs
  }

  lemma BareJoin(h: seq<byte>, it: Item)
    requires |h| == ITEM_HDR && HoldsItemHdr(h, it.hdr)
    ensures Bare(h + (it.args + it.attrs), it)
  {
    hide HoldsItemHdr;
    var b := h + (it.args + it.attrs);
    assert b[..ITEM_HDR] == h && b[ITEM_HDR..] == it.args + it.attrs;
  }

  /** s begins with the items laid end to end, none above the reader's limit;
      what follows them may be anything. */
  ghost predicate Begins(s: seq<byte>, items: seq<Item>)
    decreases |items|
  {
    items == []
    || (var n := items[0].Padded();
        n <= |s| && n <= UINT16_MAX && Encodes(s[..n], items[0]) && Begins(s[n..], items[1..]))
  }

  /** How many bytes the items take. */
  function Extent(items: seq<Item>): nat { if items == [] then 0 else items[0].Padded() + Extent(items[1..]) }

  /** The items that fit n bytes whole. */
  function FitWhole(items: seq<Item>, n: nat): seq<Item> {
    if items == [] || items[0].Padded() > n then [] else [items[0]] + FitWhole(items[1..], n - items[0].Padded())
  }

  lemma {:induction false} BeginsFits(s: seq<byte>, items: seq<Item>)
    requires Begins(s, items)
    ensures Extent(items) <= |s|
    decreases |items|
  {
    hide Encodes;
    if items != [] {
      BeginsFits(s[items[0].Padded()..], items[1..]);
    }
  }

  /** More bytes at the end take nothing away, and an item put where the others
      end joins them. */
  lemma {:induction false} BeginsMore(s: seq<byte>, items: seq<Item>, b: seq<byte>, it: Item)
    requires Begins(s, items)
    ensures Begins(s + b, items)
    ensures Encodes(b, it) && |b| <= UINT16_MAX && |s| == Extent(items) ==>
              Begins(s + b, items + [it]) && |s + b| == Extent(items + [it])
    decreases |items|
  {
    if items == [] {
      BeginsOne(s, b, it);
    } else {
      var n := items[0].Padded();
      BeginsMore(s[n..], items[1..], b, it);
      hide Encodes;
      assert (s + b)[..n] == s[..n] && (s + b)[n..] == s[n..] + b;
      assert (items + [it])[1..] == items[1..] + [it];
    }
  }

  lemma BeginsOne(s: seq<byte>, b: seq<byte>, it: Item)
    ensures Encodes(b, it) && |b| <= UINT16_MAX && s == [] ==> Begins(s + b, [] + [it]) && |b| == Extent([] + [it])
  {
    if Encodes(b, it) && s == [] {
      assert |b| == it.Padded() && (s + b)[..|b|] == b;
      assert ([] + [it])[1..] == [];
    }
  }

  /** Cutting the bytes keeps the items that are whole. */
  lemma {:induction false} BeginsCut(s: seq<byte>, items: seq<Item>, n: nat)
    requires Begins(s, items) && n <= |s|
    ensures Begins(s[..n], FitWhole(items, n))
    decreases |items|
  {
    hide Encodes;
    if items != [] && items[0].Padded() <= n {
      var k := items[0].Padded();
      BeginsCut(s[k..], items[1..], n - k);
      assert s[..n][..k] == s[..k] && s[..n][k..] == s[k..][..n - k];
      assert ([items[0]] + FitWhole(items[1..], n - k))[1..] == FitWhole(items[1..], n - k);
    }
  }

  /** They are the longest such part of the items. */
  lemma {:induction false} WholeLongest(items: seq<Item>, n: nat, k: nat)
    requires k <= |items|
    ensures Extent(items[..k]) <= n <==> k <= |FitWhole(items, n)|
    decreases |items|
  {
    if k > 0 {
      assert items[..k][1..] == items[1..][..k - 1];
      if items[0].Padded() <= n {
        WholeLongest(items[1..], n - items[0].Padded(), k - 1);
      }
    }
  }

  lemma AllWhole(items: seq<Item>, n: nat)
    requires Extent(items) <= n
    ensures FitWhole(items, n) == items
  {
    assert items[..|items|] == items;
    WholeLongest(items, n, |items|);
    WholePrefix(items, n);
  }

  lemma {:induction false} WholePrefix(items: seq<Item>, n: nat)
    ensures FitWhole(items, n) <= items
    decreases |items|
  {
    if items != [] && items[0].Padded() <= n {
      WholePrefix(items[1..], n - items[0].Padded());
    }
  }

  lemma EncodedSize(b: seq<byte>, it: Item)
    requires Encodes(b, it)
    ensures |b| == it.Padded()
  {
  }

  /** A decoded item equals the item sent: same header, arguments, attributes. */
  ghost predicate Matches(p: Parsed, it: Item) {
    p.hdr == it.hdr && |p.payload| == it.Padded() - ITEM_HDR
    && p.payload[..|it.args|] == it.args && p.payload[|it.args|..it.Size() - ITEM_HDR] == it.attrs
  }

  lemma FirstItem(s: seq<byte>, n: nat, it: Item)
    requires n == it.Padded() <= |s| && Encodes(s[..n], it) && n <= UINT16_MAX
    ensures ParseItems(s) == [Parsed(it.hdr, s[ITEM_HDR..n])] + ParseItems(s[n..])
  {
    HeaderOf(s, n, it);
    hide *;
    WalkFirst(s, n);
  }

  lemma HeaderOf(s: seq<byte>, n: nat, it: Item)
    requires n == it.Padded() <= |s| && Encodes(s[..n], it)
    ensures DecodeItemHdr(s) == it.hdr && (n <= UINT16_MAX ==> it.hdr.size == n)
  {
    hide HoldsItemHdr, DecodeItemHdr;
    assert s[..n][..ITEM_HDR] == s[..ITEM_HDR];
    SameHeader(s, it.hdr);
  }

  lemma WalkFirst(s: seq<byte>, n: nat)
    requires ITEM_HDR <= n <= |s| && DecodeItemHdr(s).size == n
    ensures ParseItems(s) == [Parsed(DecodeItemHdr(s), s[ITEM_HDR..n])] + ParseItems(s[n..])
  {
    hide DecodeItemHdr;
    var last := [Parsed(DecodeItemHdr(s), s[ITEM_HDR..])];
    if n == |s| {
      assert ParseItems(s) == last;
      assert s[n..] == [] && s[ITEM_HDR..] == s[ITEM_HDR..n];
      assert ParseItems([]) == [] && last + [] == last;
    } else {
      assert ParseItems(s) == [Parsed(DecodeItemHdr(s), s[ITEM_HDR..n])] + ParseItems(s[n..]);
    }
  }

  lemma PayloadMatches(s: seq<byte>, n: nat, it: Item)
    requires n == it.Padded() && |s| >= n && Encodes(s[..n], it)
    ensures Matches(Parsed(it.hdr, s[ITEM_HDR..n]), it)
  {
    hide HoldsItemHdr;
    var p := s[ITEM_HDR..n];
    assert p[..|it.args|] == s[..n][ITEM_HDR..ITEM_HDR + |it.args|];
    assert p[|it.args|..it.Size() - ITEM_HDR] == s[..n][ITEM_HDR + |it.args|..it.Size()];
  }

  lemma SameHeader(s: seq<byte>, h: ItemHdr)
    requires |s| >= ITEM_HDR && HoldsItemHdr(s[..ITEM_HDR], h)
    ensures DecodeItemHdr(s) == h
  {
    var b := s[..ITEM_HDR];
    assert b[0..8] == s[0..8] && b[8..16] == s[8..16] && b[16..24] == s[16..24] && b[24..28] == s[24..28];
    assert b[30..32] == s[30..32] && b[32..34] == s[32..34] && b[34..36] == s[34..36];
    ReadItemHdr(s, h);
  }

  /** Walking the stream by mu_size yields the items first, in order, and nothing
      else if the stream ends with them. */
  lemma {:induction false} StreamRoundTrip(s: seq<byte>, items: seq<Item>)
    requires Begins(s, items)
    ensures |ParseItems(s)| >= |items| && (|s| == Extent(items) ==> |ParseItems(s)| == |items|)
    ensures forall i :: 0 <= i < |items| ==> Matches(ParseItems(s)[i], items[i])
    decreases |items|
  {
    if items != [] {
      var n := items[0].Padded();
      FirstItem(s, n, items[0]);
      PayloadMatches(s, n, items[0]);
      StreamRoundTrip(s[n..], items[1..]);
      forall i | 0 <= i < |items| ensures Matches(ParseItems(s)[i], items[i]) {
        if i > 0 {
          assert ParseItems(s)[i] == ParseItems(s[n..])[i - 1] && items[i] == items[1..][i - 1];
        }
      }
    }
  }

  /** The layout of a record's body. */
  function BodyChunks(r: Record, isStr: seq<bool>): seq<Chunk> {
    ArgsChunks(r.args) + AttrsChunks(ResolveAll(r.attrs, isStr))
  }

  lemma {:induction false} ArgsFit(args: seq<Arg>)
    requires forall a <- args :: ValidArg(a)
    ensures AllFit(ArgsChunks(args))
  {
    if args != [] {
      assert args[|args| - 1] in args;
      ArgsFit(args[..|args| - 1]);
    }
  }

  lemma {:induction false} AttrsFit(attrs: seq<Attr>)
    requires forall a <- attrs :: ValidAttr(a)
    ensures AllFit(AttrsChunks(attrs))
  {
    if attrs != [] {
      assert attrs[|attrs| - 1] in attrs;
      AttrsFit(attrs[..|attrs| - 1]);
    }
  }

  /** Every registered attribute that survives the registry check is well formed. */
  lemma {:induction false} ResolvedFit(vs: seq<AttrVal>, isStr: seq<bool>)
    requires |isStr| <= MAX_ATTRS && forall v <- vs :: |v.raw| == 8
    ensures Registered(ResolveAll(vs, isStr), isStr) && AllFit(AttrsChunks(ResolveAll(vs, isStr)))
  {
    hide AllFit, AttrsChunks;
    if vs != [] {
      assert vs[|vs| - 1] in vs;
      ResolvedFit(vs[..|vs| - 1], isStr);
    }
    AttrsFit(ResolveAll(vs, isStr));
  }

  /** No piece of a record is larger than an empty buffer. */
  lemma BodyFits(r: Record, isStr: seq<bool>)
    requires ValidRecord(r) && |isStr| <= MAX_ATTRS
    ensures AllFit(BodyChunks(r, isStr))
  {
    ArgsFit(r.args);
    ResolvedFit(r.attrs, isStr);
  }

  lemma ResolveFit(v: AttrVal, isStr: seq<bool>)
    requires |isStr| <= MAX_ATTRS && |v.raw| == 8
    ensures AllFit(AttrsChunks(Resolve(v, isStr)))
  {
    AttrsFit(Resolve(v, isStr));
  }

  lemma {:induction false} ArgsSize(args: seq<Arg>)
    ensures Size(ArgsChunks(args)) == |ArgsBytes(args)|
  {
    if args != [] {
      var a := args[|args| - 1];
      ArgsSize(args[..|args| - 1]);
      SizeConcat(ArgsChunks(args[..|args| - 1]), ArgChunks(a));
      SizeFew(Whole(if a.Fixed? then |a.raw| else 2), Split(if a.Fixed? then 0 else |Clip(a.chars)|), Whole(0));
    }
  }

  lemma {:induction false} AttrsSize(attrs: seq<Attr>)
    ensures Size(AttrsChunks(attrs)) == |AttrsBytes(attrs)|
  {
    if attrs != [] {
      var a := attrs[|attrs| - 1];
      AttrsSize(attrs[..|attrs| - 1]);
      SizeConcat(AttrsChunks(attrs[..|attrs| - 1]), AttrChunks(a));
      SizeFew(Whole(if a.NumAttr? then 4 + |a.raw| else 4), Whole(2), Split(if a.NumAttr? then 0 else |Clip(a.chars)|));
    }
  }

  lemma BodySize(r: Record, threadId: nat, isStr: seq<bool>)
    ensures RecordSize(BodyChunks(r, isStr)) == ItemOf(r, threadId, isStr).Size()
  {
    ArgsSize(r.args);
    AttrsSize(ResolveAll(r.attrs, isStr));
    SizeConcat(ArgsChunks(r.args), AttrsChunks(ResolveAll(r.attrs, isStr)));
  }

  /** One item alone is read back exactly when its padded size fits mu_size. */
  lemma SizeLimitIff(b: seq<byte>, it: Item)
    requires Encodes(b, it)
    ensures (|ParseItems(b)| == 1 && Matches(ParseItems(b)[0], it)) <==> it.Padded() <= UINT16_MAX
  {
    assert b[..it.Padded()] == b;
    if it.Padded() <= UINT16_MAX {
      FirstItem(b, it.Padded(), it);
      PayloadMatches(b, it.Padded(), it);
    } else {
      SameHeader(b, it.hdr);
      assert it.hdr.size < |b|;
    }
  }

  /** From a decoded item back to the call that produced it: the header fields,
      every argument, and every attribute that was registered, or of more than
      255 as many as the 8-bit count says, provided the item kept to the limit of
      its 16-bit size. */
  lemma RecordRoundTrip(r: Record, threadId: nat, isStr: seq<bool>, p: Parsed)
    requires ValidRecord(r) && |isStr| <= MAX_ATTRS && Matches(p, ItemOf(r, threadId, isStr))
    requires ItemOf(r, threadId, isStr).Padded() <= UINT16_MAX
    ensures p.hdr.hash == r.hash && p.hdr.timestamp == r.timestamp && p.hdr.traceId == r.traceId
    ensures p.hdr.threadId == threadId && p.hdr.level == r.level && p.hdr.modId == r.modId
    ensures p.hdr.size == ITEM_HDR + |p.payload| && p.hdr.argsSize <= |p.payload|
    ensures var got := DecodeArgs(p.payload[..p.hdr.argsSize], Kinds(r.args));
      got.Some? && |got.value| == |r.args| && forall i :: 0 <= i < |r.args| ==>
        got.value[i] == if r.args[i].Text? then Text(Clip(r.args[i].chars)) else r.args[i]
    ensures p.hdr.attrsCount == Known(r.attrs, |isStr|) % 256
    ensures var got := DecodeAttrs(p.payload[p.hdr.argsSize..], p.hdr.attrsCount, isStr);
      got.Some? && |got.value| == p.hdr.attrsCount && Lists(got.value, r.attrs, isStr)
  {
    hide ArgsBytes, AttrsBytes, ResolveAll, DecodeArgs, DecodeAttrs, Kinds, ClipArgs, ClipAttrs;
    hide Registered, Fits, AllFit, Known, Lists, Clip;
    var it := ItemOf(r, threadId, isStr);
    var n := |it.args|;
    ArgsSeen(r.args);
    ResolvedCount(r.attrs, isStr);
    var pad := p.payload[it.Size() - ITEM_HDR..];
    AttrsSeen(r.attrs, isStr, p.hdr.attrsCount, pad);
    assert p.payload[n..] == p.payload[n..it.Size() - ITEM_HDR] + pad;
  }

  // ------------------------------------------------------- alignment of calls

  predicate IsFixed(a: Arg) { a.Fixed? && (|a.raw| == 8 || |a.raw| == 16) }

  /** A piece of 8 or 16 bytes at a multiple of 8 abandons a multiple of 8. */
  lemma FixedStep(c: Cursor, n: nat)
    requires c.Valid() && c.off % 8 == 0 && c.lost % 8 == 0 && (n == 8 || n == 16)
    ensures Place(c, Whole(n)).off % 8 == 0 && Place(c, Whole(n)).lost % 8 == 0
  {
  }

  lemma {:induction false} FixedArgsLose(c: Cursor, args: seq<Arg>)
    requires c.Valid() && c.off % 8 == 0 && c.lost % 8 == 0 && forall a <- args :: IsFixed(a)
    ensures AllFit(ArgsChunks(args))
    ensures var r := PlaceAll(c, ArgsChunks(args)); r.off % 8 == 0 && r.lost % 8 == 0
    decreases |args|
  {
    if args != [] {
      var n := |args| - 1;
      assert args[n] in args && forall a <- args[..n] :: a in args;
      FixedArgsLose(c, args[..n]);
      hide Place;
      var k := Whole(|args[n].raw|);
      assert ArgChunks(args[n]) == [k] && ArgsChunks(args) == ArgsChunks(args[..n]) + [k];
      assert ArgsChunks(args)[..|ArgsChunks(args)| - 1] == ArgsChunks(args[..n]);
      FixedStep(PlaceAll(c, ArgsChunks(args[..n])), |args[n].raw|);
    }
  }

  /** A call without strings whose attributes are all unknown keeps alignment,
      however many buffers it takes: its pad fits and the next item is aligned. */
  lemma FixedCallsAlign(start: nat, r: Record, isStr: seq<bool>)
    requires BUF_HDR <= start <= BUFFER_SIZE - ITEM_HDR && start % 8 == 0
    requires (forall a <- r.args :: IsFixed(a)) && ResolveAll(r.attrs, isStr) == []
    ensures AllFit(BodyChunks(r, isStr)) && PadFits(start, BodyChunks(r, isStr))
    ensures RecordEnd(start, BodyChunks(r, isStr)).lost % 8 == 0
    ensures (RecordEnd(start, BodyChunks(r, isStr)).off + Pad(RecordSize(BodyChunks(r, isStr)))) % 8 == 0
  {
    hide ResolveAll, ArgsChunks, PlaceAll, Pad, AllFit, PadFits;
    FixedArgsLose(Cursor(start + ITEM_HDR, 0, 0), r.args);
    assert ArgsChunks(r.args) + [] == ArgsChunks(r.args);
    AlignedRecord(start, BodyChunks(r, isStr));
  }

  function Chars(n: nat): (r: seq<byte>)
    ensures |r| == n
  {
    seq(n, _ => 65)
  }

  function Call(args: seq<Arg>): Record { Record(0, 0, 0, 0, 0, args, []) }

  lemma CallChunks(args: seq<Arg>)
    requires forall a <- args :: ValidArg(a)
    ensures ValidRecord(Call(args)) && BodyChunks(Call(args), []) == ArgsChunks(args) && AllFit(ArgsChunks(args))
  {
    ArgsFit(args);
  }

  /** Placing a string or a fixed argument where the cursor stands. */
  lemma PlaceSplit(c: Cursor, n: nat)
    requires c.Valid() && c.off + n <= BUFFER_SIZE
    ensures Place(c, Split(n)) == c.(off := c.off + n)
  {
    if 0 < n && c.off < BUFFER_SIZE {
      assert Place(c.(off := c.off + n), Split(0)) == c.(off := c.off + n);
    }
  }

  lemma TextChunks(args: seq<Arg>, n: nat)
    requires AllFit(ArgsChunks(args)) && n <= UINT16_MAX
    ensures ArgsChunks(args + [Text(Chars(n))]) == ArgsChunks(args) + [Whole(2), Split(n)]
    ensures AllFit([Whole(2), Split(n)]) && AllFit(ArgsChunks(args) + [Whole(2), Split(n)])
  {
    var a := Text(Chars(n));
    assert (args + [a])[..|args|] == args && Clip(a.chars) == a.chars;
  }

  lemma {:induction false} TextAfter(c: Cursor, args: seq<Arg>, n: nat)
    requires c.Valid() && AllFit(ArgsChunks(args)) && n <= UINT16_MAX
    requires PlaceAll(c, ArgsChunks(args)).off + 2 + n <= BUFFER_SIZE
    ensures AllFit(ArgsChunks(args + [Text(Chars(n))]))
    ensures var d := PlaceAll(c, ArgsChunks(args));
      PlaceAll(c, ArgsChunks(args + [Text(Chars(n))])) == d.(off := d.off + 2 + n)
    ensures Size(ArgsChunks(args + [Text(Chars(n))])) == Size(ArgsChunks(args)) + 2 + n
  {
    hide Place, ArgsChunks, AllFit, Size, PlaceAll;
    TextChunks(args, n);
    var d := PlaceAll(c, ArgsChunks(args));
    PlaceAllConcat(c, ArgsChunks(args), [Whole(2), Split(n)]);
    PlaceFew(d, Whole(2), Split(n), Whole(0));
    SizeConcat(ArgsChunks(args), [Whole(2), Split(n)]);
    SizeFew(Whole(2), Split(n), Whole(0));
    PlaceWhole(d, 2);
    PlaceSplit(d.(off := d.off + 2), n);
  }

  lemma PlaceWhole(c: Cursor, n: nat)
    requires c.Valid() && n <= BUFFER_SIZE - BUF_HDR
    ensures Place(c, Whole(n)) == if c.off + n <= BUFFER_SIZE then c.(off := c.off + n)
                                  else Cursor(BUF_HDR + n, c.rotations + 1, c.lost + BUFFER_SIZE - c.off)
  {
  }

  lemma {:induction false} FixedAfter(c: Cursor, args: seq<Arg>)
    requires c.Valid() && AllFit(ArgsChunks(args))
    ensures AllFit(ArgsChunks(args + [Fixed(Chars(8))]))
    ensures var d := PlaceAll(c, ArgsChunks(args));
      PlaceAll(c, ArgsChunks(args + [Fixed(Chars(8))])) == Place(d, Whole(8))
    ensures Size(ArgsChunks(args + [Fixed(Chars(8))])) == Size(ArgsChunks(args)) + 8
  {
    hide Place;
    var d, a := PlaceAll(c, ArgsChunks(args)), Fixed(Chars(8));
    assert (args + [a])[..|args|] == args;
    PlaceAllConcat(c, ArgsChunks(args), [Whole(8)]);
    PlaceFew(d, Whole(8), Whole(0), Whole(0));
    SizeConcat(ArgsChunks(args), [Whole(8)]);
    SizeFew(Whole(8), Whole(0), Whole(0));
  }

  lemma NothingPlaced(c: Cursor)
    requires c.Valid()
    ensures ArgsChunks([]) == [] && AllFit([]) && PlaceAll(c, []) == c && Size([]) == 0
  {
  }

  const T1 := Text(Chars(8123))
  const F8 := Fixed(Chars(8))
  const T2 := Text(Chars(8157))
  const T3 := Text(Chars(8113))

  /** A string of 8123 bytes and an integer, from an empty buffer: three bytes are
      abandoned before the integer. */
  lemma SplitCall()
    ensures AllFit(ArgsChunks([T1, F8]))
    ensures RecordEnd(BUF_HDR, ArgsChunks([T1, F8])) == Cursor(32, 1, 3)
    ensures Size(ArgsChunks([T1, F8])) == 8133
  {
    hide Place;
    var c := Cursor(BUF_HDR + ITEM_HDR, 0, 0);
    NothingPlaced(c);
    TextAfter(c, [], 8123);
    assert [] + [T1] == [T1] && [T1] + [F8] == [T1, F8];
    FixedAfter(c, [T1]);
    PlaceWhole(Cursor(8189, 0, 0), 8);
  }

  /** A call whose pad leaves the buffer: two strings around an integer, sent into
      an empty buffer. */
  lemma PadOverrunExample() returns (r: Record)
    ensures ValidRecord(r) && AllFit(BodyChunks(r, [])) && !PadFits(BUF_HDR, BodyChunks(r, []))
  {
    hide Place, PlaceAll, Size, ArgsChunks, BodyChunks, AllFit;
    var args := [T1, F8, T2];
    r := Call(args);
    CallChunks(args);
    SplitCall();
    assert [T1, F8] + [T2] == args;
    TextAfter(Cursor(BUF_HDR + ITEM_HDR, 0, 0), [T1, F8], 8157);
    assert RecordEnd(BUF_HDR, ArgsChunks(args)) == Cursor(8191, 1, 3) && RecordSize(ArgsChunks(args)) == 16332;
  }

  /** Two calls in a row: the first abandons three bytes and its pad fits, but it
      leaves the position at 35. The second rotates nowhere and abandons nothing,
      and its pad leaves the buffer all the same. */
  lemma UnalignedStartExample() returns (r: Record, q: Record)
    ensures ValidRecord(r) && AllFit(BodyChunks(r, [])) && PadFits(BUF_HDR, BodyChunks(r, []))
    ensures UsedAfter(0, BodyChunks(r, [])) == 35 && StartOffset(35) == 35
    ensures ValidRecord(q) && AllFit(BodyChunks(q, []))
    ensures RecordEnd(35, BodyChunks(q, [])).rotations == 0 && RecordEnd(35, BodyChunks(q, [])).lost == 0
    ensures !PadFits(35, BodyChunks(q, []))
  {
    hide Place, PlaceAll, Size, BodyChunks, AllFit;
    r, q := Call([T1, F8]), Call([T3]);
    CallChunks([T1, F8]);
    CallChunks([T3]);
    SplitCall();
    var c := Cursor(35 + ITEM_HDR, 0, 0);
    NothingPlaced(c);
    assert [] + [T3] == [T3];
    TextAfter(c, [], 8113);
    assert RecordEnd(35, ArgsChunks([T3])) == Cursor(8190, 0, 0) && RecordSize(ArgsChunks([T3])) == 8155;
  }
}
