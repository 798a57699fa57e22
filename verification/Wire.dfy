/** Byte-level wire format: little-endian fields, the data-buffer header, the
    log item header and the decoders that walk a stream of items. Offsets and
    sizes are those frozen for a 64-bit little-endian host. */
module Wire {
  type byte = x: int | 0 <= x < 256

  const BUFFER_SIZE := 8192   // mz_data_buffer_size
  const BUF_HDR := 24         // sizeof(s_p8_data_buf_hdr)
  const ITEM_HDR := 40        // sizeof(s_p8_log_item_dat)
  const MTK_ITEM := 24        // sizeof(s_p8_mtk_item_dat)
  const UINT16_MAX := 65535
  const PACKET_LOGS: byte := 1
  const PACKET_METRICS: byte := 3

  // ---------------------------------------------------------------- integers

  function Pow256(k: nat): (p: nat)
    ensures p > 0
  {
    if k == 0 then 1 else 256 * Pow256(k - 1)
  }

  /** The k low bytes of n, least significant first. */
  function LE(n: nat, k: nat): (r: seq<byte>)
    ensures |r| == k
  {
    if k == 0 then [] else [n % 256] + LE(n / 256, k - 1)
  }

  function FromLE(s: seq<byte>): nat {
    if s == [] then 0 else s[0] + 256 * FromLE(s[1..])
  }

  lemma {:induction false} ReadBackLE(n: nat, k: nat)
    requires n < Pow256(k)
    ensures FromLE(LE(n, k)) == n
  {
    if k > 0 {
      ReadBackLE(n / 256, k - 1);
      assert LE(n, k)[1..] == LE(n / 256, k - 1);
    }
  }

  /** Byte i of a field has weight 256 to the i. */
  lemma {:induction false} LowByteFirst(n: nat, k: nat, i: nat)
    requires i < k
    ensures LE(n, k)[i] == (n / Pow256(i)) % 256
    decreases i
  {
    if i > 0 {
      LowByteFirst(n / 256, k - 1, i - 1);
      DivTwice(n, Pow256(i - 1));
    }
  }

  lemma DivTwice(n: nat, p: nat)
    requires p > 0
    ensures n / 256 / p == n / (256 * p)
  {
    var q, r := n / 256 / p, n / 256 % p;
    assert n / 256 == p * q + r;
    assert n == 256 * (p * q + r) + n % 256 == (256 * p) * q + (256 * r + n % 256);
    Quotient(n, 256 * p, q, 256 * r + n % 256);
  }

  lemma Quotient(n: nat, d: nat, q: nat, r: nat)
    requires d > 0 && r < d && n == d * q + r
    ensures n / d == q
  {
    var e := n / d - q;
    assert d * e + n % d == r;
    AtLeast(d, e);
    AtLeast(d, -e);
    assert d * -e == -(d * e);
  }

  lemma AtLeast(d: nat, e: int)
    ensures e > 0 ==> d * e >= d
  {
  }

  lemma Pow256Values()
    ensures Pow256(1) == 0x100 && Pow256(2) == 0x1_0000 && Pow256(4) == 0x1_0000_0000
    ensures Pow256(8) == 0x1_0000_0000_0000_0000
  {
    assert Pow256(3) == 256 * Pow256(2);
    assert Pow256(4) == 256 * Pow256(3);
    assert Pow256(5) == 256 * Pow256(4);
    assert Pow256(6) == 256 * Pow256(5);
    assert Pow256(7) == 256 * Pow256(6);
  }

  /** Reads a k-byte field at offset off. */
  function Field(s: seq<byte>, off: nat, k: nat): nat
    requires off + k <= |s|
  {
    FromLE(s[off..off + k])
  }

  // ----------------------------------------------------------------- memory

  /** s with src copied over it at off: the effect of memcpy. */
  function Splice(s: seq<byte>, off: nat, src: seq<byte>): (r: seq<byte>)
    requires off + |src| <= |s|
    ensures |r| == |s|
    ensures forall i :: 0 <= i < |s| ==> r[i] == if off <= i < off + |src| then src[i - off] else s[i]
  {
    seq(|s|, i requires 0 <= i < |s| => if off <= i < off + |src| then src[i - off] else s[i])
  }

  lemma SpliceRegions(s: seq<byte>, off: nat, src: seq<byte>, lo: nat, hi: nat)
    requires off + |src| <= |s| && lo <= hi <= |s|
    ensures hi <= off || off + |src| <= lo ==> Splice(s, off, src)[lo..hi] == s[lo..hi]
    ensures Splice(s, off, src)[off..off + |src|] == src
    ensures lo <= off && off + |src| <= hi ==> Splice(s, off, src)[lo..hi] == Splice(s[lo..hi], off - lo, src)
  {
  }

  method Poke(a: array<byte>, off: nat, src: seq<byte>)
    requires off + |src| <= a.Length
    modifies a
    ensures a[..] == Splice(old(a[..]), off, src)
  {
    var i := 0;
    while i < |src|
      invariant 0 <= i <= |src|
      invariant forall k :: 0 <= k < i ==> a[off + k] == src[k]
      invariant forall k :: 0 <= k < off || off + i <= k < a.Length ==> a[k] == old(a[k])
    {
      a[off + i] := src[i];
      i := i + 1;
    }
    assert forall k :: 0 <= k < a.Length ==> a[..][k] == Splice(old(a[..]), off, src)[k];
  }

  // ----------------------------------------------------------- data buffers

  function SizeField(b: seq<byte>): nat
    requires |b| >= BUF_HDR
  {
    Field(b, 2, 2)
  }

  /** The item bytes of one captured buffer, by its own size field. */
  function Payload(b: seq<byte>): seq<byte> {
    if |b| < BUF_HDR then []
    else
      var size := if SizeField(b) > |b| then |b| else SizeField(b);
      if size > BUF_HDR then b[BUF_HDR..size] else []
  }

  /** The linear stream a reader rebuilds from captured buffers. */
  function Flatten(bs: seq<seq<byte>>): seq<byte> {
    if bs == [] then [] else Flatten(bs[..|bs| - 1]) + Payload(bs[|bs| - 1])
  }

  lemma FlattenSnoc(bs: seq<seq<byte>>, b: seq<byte>)
    ensures Flatten(bs + [b]) == Flatten(bs) + Payload(b)
  {
    assert (bs + [b])[..|bs|] == bs;
  }

  lemma {:induction false} FlattenConcat(a: seq<seq<byte>>, b: seq<seq<byte>>)
    ensures Flatten(a + b) == Flatten(a) + Flatten(b)
    decreases |b|
  {
    hide Payload;
    if b == [] {
      assert a + b == a;
    } else {
      var front, last := b[..|b| - 1], b[|b| - 1];
      calc {
        Flatten(a + b);
        { assert a + b == (a + front) + [last]; }
        Flatten((a + front) + [last]);
        { FlattenSnoc(a + front, last); }
        Flatten(a + front) + Payload(last);
        { FlattenConcat(a, front); }
        (Flatten(a) + Flatten(front)) + Payload(last);
        Flatten(a) + (Flatten(front) + Payload(last));
        Flatten(a) + Flatten(b);
      }
    }
  }

  predicate IsFragment(b: seq<byte>)
    requires |b| >= BUF_HDR
  {
    b[1] % 2 == 1
  }

  lemma SplicePayload(b: seq<byte>, off: nat, src: seq<byte>)
    requires |b| >= BUF_HDR && BUF_HDR <= off && off + |src| <= SizeField(b) <= |b|
    ensures SizeField(Splice(b, off, src)) == SizeField(b)
    ensures |Payload(b)| == SizeField(b) - BUF_HDR
    ensures Payload(Splice(b, off, src)) == Splice(Payload(b), off - BUF_HDR, src)
  {
    SpliceRegions(b, off, src, 2, 4);
    SpliceRegions(b, off, src, BUF_HDR, SizeField(b));
  }

  lemma SpliceInside(a: seq<byte>, m: seq<byte>, z: seq<byte>, off: nat, src: seq<byte>)
    requires off + |src| <= |m|
    ensures a + Splice(m, off, src) + z == Splice(a + m + z, |a| + off, src)
  {
  }

  lemma FlattenAround(pre: seq<seq<byte>>, b: seq<byte>, post: seq<seq<byte>>)
    ensures Flatten(pre + [b] + post) == Flatten(pre) + Payload(b) + Flatten(post)
  {
    FlattenConcat(pre + [b], post);
    FlattenSnoc(pre, b);
  }

  lemma FlattenReplace(pre: seq<seq<byte>>, b: seq<byte>, c: seq<byte>, post: seq<seq<byte>>, off: nat, src: seq<byte>)
    requires off + |src| <= |Payload(b)| && Payload(c) == Splice(Payload(b), off, src)
    ensures |Flatten(pre)| + off + |src| <= |Flatten(pre + [b] + post)|
    ensures Flatten(pre + [c] + post) == Splice(Flatten(pre + [b] + post), |Flatten(pre)| + off, src)
  {
    hide *;
    FlattenAround(pre, b, post);
    FlattenAround(pre, c, post);
    SpliceInside(Flatten(pre), Payload(b), Flatten(post), off, src);
  }

  /** Overwriting item bytes inside buffer k overwrites the same bytes of the stream. */
  lemma FlattenPatch(bs: seq<seq<byte>>, k: nat, c: seq<byte>, off: nat, src: seq<byte>)
    requires k < |bs| && off + |src| <= |Payload(bs[k])| && Payload(c) == Splice(Payload(bs[k]), off, src)
    ensures |Flatten(bs[..k])| + off + |src| <= |Flatten(bs)|
    ensures Flatten(bs[k := c]) == Splice(Flatten(bs), |Flatten(bs[..k])| + off, src)
  {
    hide *;
    FlattenReplace(bs[..k], bs[k], c, bs[k + 1..], off, src);
    assert bs == bs[..k] + [bs[k]] + bs[k + 1..];
    assert bs[k := c] == bs[..k] + [c] + bs[k + 1..];
  }

  // -------------------------------------------------------------- log items

  datatype ItemHdr = ItemHdr(hash: nat, timestamp: nat, traceId: nat, threadId: nat, level: nat,
                             processor: nat, argsSize: nat, size: nat, modId: nat, attrsCount: nat, flags: nat)
  {
    predicate InRange() {
      hash < 0x1_0000_0000_0000_0000 && timestamp < 0x1_0000_0000_0000_0000 && traceId < 0x1_0000_0000_0000_0000
      && threadId < 0x1_0000_0000 && level < 256 && processor < 256 && argsSize < 0x1_0000 && size < 0x1_0000
      && modId < 0x1_0000 && attrsCount < 256 && flags < 256
    }
  }

  function DecodeItemHdr(s: seq<byte>): ItemHdr
    requires |s| >= ITEM_HDR
  {
    ItemHdr(Field(s, 0, 8), Field(s, 8, 8), Field(s, 16, 8), Field(s, 24, 4), s[28], s[29],
            Field(s, 30, 2), Field(s, 32, 2), Field(s, 34, 2), s[36], s[37])
  }

  /** Memory that holds h; the two trailing bytes of the struct are whatever was there. */
  ghost predicate HoldsItemHdr(s: seq<byte>, h: ItemHdr) {
    |s| >= ITEM_HDR && h.InRange()
    && s[0..8] == LE(h.hash, 8) && s[8..16] == LE(h.timestamp, 8) && s[16..24] == LE(h.traceId, 8)
    && s[24..28] == LE(h.threadId, 4) && s[28] == h.level && s[29] == h.processor
    && s[30..32] == LE(h.argsSize, 2) && s[32..34] == LE(h.size, 2) && s[34..36] == LE(h.modId, 2)
    && s[36] == h.attrsCount && s[37] == h.flags
  }

  lemma ReadItemHdr(s: seq<byte>, h: ItemHdr)
    requires HoldsItemHdr(s, h)
    ensures DecodeItemHdr(s) == h
  {
    Pow256Values();
    ReadBackLE(h.hash, 8);
    ReadBackLE(h.timestamp, 8);
    ReadBackLE(h.traceId, 8);
    ReadBackLE(h.threadId, 4);
    ReadBackLE(h.argsSize, 2);
    ReadBackLE(h.size, 2);
    ReadBackLE(h.modId, 2);
  }

  /** One decoded item: its header and everything up to the next item. */
  datatype Parsed = Parsed(hdr: ItemHdr, payload: seq<byte>)

  function ParseItems(s: seq<byte>): seq<Parsed>
    decreases |s|
  {
    if |s| < ITEM_HDR then []
    else
      var hdr := DecodeItemHdr(s);
      if hdr.size < ITEM_HDR then []
      else if hdr.size >= |s| then [Parsed(hdr, s[ITEM_HDR..])]
      else [Parsed(hdr, s[ITEM_HDR..hdr.size])] + ParseItems(s[hdr.size..])
  }
}
