/** The thread-local writer: records are serialized in place into 8 KB buffers,
    split over a chain of them, back-patched, padded, or rolled back. */
module LogWriter {
  import opened Wire
  import opened Layout
  import opened Records

  ghost predicate Sized(b: seq<byte>) {
    |b| == BUFFER_SIZE && BUF_HDR <= SizeField(b) <= BUFFER_SIZE
  }

  /** A buffer says what it holds and who wrote it. */
  ghost predicate Labelled(b: seq<byte>, kind: byte, threadId: nat) {
    |b| >= BUF_HDR && b[0] == kind && b[4..8] == LE(threadId, 4)
  }

  ghost predicate Labels(chain: seq<seq<byte>>, kind: byte, threadId: nat) {
    forall i :: 0 <= i < |chain| ==> Labelled(chain[i], kind, threadId)
  }

  lemma LabelsSnoc(chain: seq<seq<byte>>, b: seq<byte>, kind: byte, threadId: nat)
    requires Labels(chain, kind, threadId) && Labelled(b, kind, threadId)
    ensures Labels(chain + [b], kind, threadId)
  {
    hide Labelled;
  }

  lemma LabelsFront(chain: seq<seq<byte>>, n: nat, kind: byte, threadId: nat)
    requires Labels(chain, kind, threadId) && n <= |chain|
    ensures Labels(chain[..n], kind, threadId) && Labels([], kind, threadId)
  {
    hide Labelled;
  }

  lemma LabelsPatch(chain: seq<seq<byte>>, k: nat, off: nat, src: seq<byte>, kind: byte, threadId: nat)
    requires Labels(chain, kind, threadId) && k < |chain| && BUF_HDR <= off && off + |src| <= |chain[k]|
    ensures Labels(chain[k := Splice(chain[k], off, src)], kind, threadId)
  {
    hide Labelled;
    LabelSplice(chain[k], off, src, kind, threadId);
  }

  lemma LabelSplice(b: seq<byte>, off: nat, src: seq<byte>, kind: byte, threadId: nat)
    requires Labelled(b, kind, threadId) && off + |src| <= |b|
    requires off >= 8 || (1 <= off && off + |src| <= 4)
    ensures Labelled(Splice(b, off, src), kind, threadId)
  {
    SpliceRegions(b, off, src, 4, 8);
  }

  lemma FlagSplice(b: seq<byte>, off: nat, src: seq<byte>)
    requires BUF_HDR <= off && off + |src| <= |b|
    ensures IsFragment(Splice(b, off, src)) == IsFragment(b)
  {
    SpliceRegions(b, off, src, 1, 2);
    assert Splice(b, off, src)[1] == Splice(b, off, src)[1..2][0];
  }

  lemma LabelKept(b: seq<byte>, c: seq<byte>, kind: byte, threadId: nat)
    requires Labelled(b, kind, threadId) && |c| >= BUF_HDR && c[0] == b[0] && c[4..16] == b[4..16]
    ensures Labelled(c, kind, threadId)
  {
    assert c[4..8] == c[4..16][..4] && b[4..8] == b[4..16][..4];
  }

  /** fs are distinct, on loan, and hold exactly chain. */
  ghost predicate Linked(fs: seq<array<byte>>, chain: seq<seq<byte>>, lent: set<array<byte>>)
    reads fs
  {
    |chain| == |fs|
    && (forall i :: 0 <= i < |fs| ==> fs[i] in lent && fs[i][..] == chain[i] && Sized(chain[i]))
    && (forall i, j :: 0 <= i < j < |fs| ==> fs[i] != fs[j])
  }

  lemma LinkedSnoc(fs: seq<array<byte>>, chain: seq<seq<byte>>, lent: set<array<byte>>, f: array<byte>)
    requires Linked(fs, chain, lent) && f in lent && f !in fs && Sized(f[..])
    ensures Linked(fs + [f], chain + [f[..]], lent)
  {
    hide Sized;
  }

  lemma LinkedLent(fs: seq<array<byte>>, chain: seq<seq<byte>>, lent: set<array<byte>>)
    requires Linked(fs, chain, lent)
    ensures |chain| == |fs| && forall f <- fs :: f in lent
  {
  }

  lemma LinkedMore(fs: seq<array<byte>>, chain: seq<seq<byte>>, lent: set<array<byte>>, more: set<array<byte>>)
    requires Linked(fs, chain, lent) && lent <= more
    ensures Linked(fs, chain, more)
  {
    hide Sized;
  }

  function OrFragment(flags: byte): byte { if flags % 2 == 1 then flags else flags + 1 }

  function FreshHeader(packetType: byte, threadId: nat, now: nat): (h: seq<byte>)
    ensures |h| == BUF_HDR
  {
    [packetType, 0] + LE(BUF_HDR, 2) + LE(threadId, 4) + LE(now, 8) + LE(0, 8)
  }

  /** s_p8_data_buf_hdr. */
  datatype BufHdr = BufHdr(kind: byte, flags: byte, size: nat, threadId: nat, start: nat, stop: nat)

  function DecodeBufHdr(b: seq<byte>): BufHdr
    requires |b| >= BUF_HDR
  {
    BufHdr(b[0], b[1], Field(b, 2, 2), Field(b, 4, 4), Field(b, 8, 8), Field(b, 16, 8))
  }

  /** What a reader makes of the header of a buffer that was opened at start and
      closed at stop with n bytes used. */
  lemma ReadBufHdr(b: seq<byte>, kind: byte, flags: byte, n: nat, threadId: nat, start: nat, stop: nat)
    requires |b| >= BUF_HDR && b[0] == kind && b[1] == flags && b[2..4] == LE(n, 2) && b[4..8] == LE(threadId, 4)
    requires b[8..16] == LE(start, 8) && b[16..24] == LE(stop, 8)
    requires n <= BUFFER_SIZE && threadId < 0x1_0000_0000
    requires start < 0x1_0000_0000_0000_0000 && stop < 0x1_0000_0000_0000_0000
    ensures DecodeBufHdr(b) == BufHdr(kind, flags, n, threadId, start, stop)
  {
    hide LE, FromLE;
    Pow256Values();
    ReadBackLE(n, 2);
    ReadBackLE(threadId, 4);
    ReadBackLE(start, 8);
    ReadBackLE(stop, 8);
  }

  lemma FreshBuffer(b: seq<byte>, packetType: byte, threadId: nat, now: nat)
    requires |b| == BUFFER_SIZE
    ensures var c := Splice(b, 0, FreshHeader(packetType, threadId, now));
      Sized(c) && SizeField(c) == BUF_HDR && c[BUF_HDR..BUF_HDR] == [] && Payload(c) == [] && !IsFragment(c)
      && Labelled(c, packetType, threadId) && c[1] == 0 && c[8..16] == LE(now, 8) && c[16..24] == LE(0, 8)
  {
    hide LE, FromLE, FreshHeader, Splice;
    var h := FreshHeader(packetType, threadId, now);
    var c := Splice(b, 0, h);
    FreshFields(packetType, threadId, now);
    SpliceRegions(b, 0, h, 0, BUF_HDR);
    InFront(c, h, 2, 4);
    InFront(c, h, 4, 8);
    InFront(c, h, 8, 16);
    InFront(c, h, 16, 24);
    SizeBack(BUF_HDR);
  }

  lemma InFront(c: seq<byte>, h: seq<byte>, i: nat, j: nat)
    requires |h| <= |c| && c[..|h|] == h && i <= j <= |h|
    ensures c[i..j] == h[i..j] && forall k :: 0 <= k < |h| ==> c[k] == h[k]
  {
    assert forall k :: 0 <= k < |h| ==> c[k] == c[..|h|][k];
  }

  lemma FreshFields(packetType: byte, threadId: nat, now: nat)
    ensures var h := FreshHeader(packetType, threadId, now);
      h[0] == packetType && h[1] == 0 && h[2..4] == LE(BUF_HDR, 2) && h[4..8] == LE(threadId, 4)
      && h[8..16] == LE(now, 8) && h[16..24] == LE(0, 8)
  {
    hide LE;
  }

  lemma SizeBack(n: nat)
    requires n <= BUFFER_SIZE
    ensures FromLE(LE(n, 2)) == n
  {
    Pow256Values();
    ReadBackLE(n, 2);
  }

  /** Closing a buffer at n: flags, size and stop time; item bytes are untouched. */
  lemma ClosedBuffer(b: seq<byte>, c: seq<byte>, d: seq<byte>, flags: byte, n: nat, now: nat)
    requires |b| == BUFFER_SIZE && BUF_HDR <= n <= BUFFER_SIZE
    requires c == Splice(b, 1, [flags] + LE(n, 2)) && d == Splice(c, 16, LE(now, 8))
    ensures Sized(d) && SizeField(d) == n && d[1] == flags && Payload(d) == b[BUF_HDR..n]
    ensures d[0] == b[0] && d[4..16] == b[4..16] && d[16..24] == LE(now, 8)
  {
    assert d[2..4] == c[2..4] == LE(n, 2);
    SizeBack(n);
    assert d[BUF_HDR..n] == b[BUF_HDR..n];
  }

  /** The oldest free buffer is taken; with none free, a new one is made if there
      is room for it. */
  ghost predicate FirstFree(free: seq<array<byte>>, room: nat, left: seq<array<byte>>, rest: nat, b: array?<byte>) {
    if free != [] then b == free[0] && left == free[1..] && rest == room
    else left == [] && rest == (if room == 0 then 0 else room - 1) && (room > 0 ==> b != null)
  }

  /** The core as a writer sees it: buffers it may hand out and buffers out on
      loan, to this writer or to others. */
  class Core {
    var free: seq<array<byte>>
    var room: nat   // buffers the budget still allows to be allocated
    ghost var lent: set<array<byte>>

    ghost predicate Valid()
      reads this
    {
      (forall i :: 0 <= i < |free| ==> free[i].Length == BUFFER_SIZE && free[i] !in lent)
      && (forall i, j :: 0 <= i < j < |free| ==> free[i] != free[j])
      && (forall b <- lent :: b.Length == BUFFER_SIZE)
    }

    ghost function Stock(): set<array<byte>>
      reads this
    {
      set b <- free
    }

    /** Buffers that can be handed out before anybody has to wait. */
    ghost function Avail(): nat
      reads this
    {
      |free| + room
    }

    /** acquire_buffer(false): a free buffer, else a new one within the budget. */
    method AcquireBuffer() returns (b: array?<byte>)
      requires Valid()
      modifies this
      ensures Valid() && Stock() == old(Stock()) - {b}
      ensures b == null <==> old(Avail()) == 0
      ensures Avail() == if b == null then 0 else old(Avail()) - 1
      ensures b == null ==> lent == old(lent)
      ensures b != null ==> b.Length == BUFFER_SIZE && b !in old(lent) && lent == old(lent) + {b}
      ensures b != null ==> fresh({b} - old(Stock()))
      ensures FirstFree(old(free), old(room), free, room, b)
    {
      if free != [] {
        b := free[0];
        free := free[1..];
      } else if room > 0 {
        b := new byte[BUFFER_SIZE];
        room := room - 1;
      } else {
        return null;
      }
      lent := lent + {b};
    }

    /** acquire_buffer(true): as above, else whatever the wait ends with: a
        buffer someone else gave up, or null at shutdown. */
    method AcquireWait(handed: array?<byte>) returns (b: array?<byte>)
      requires Valid()
      requires handed != null ==> handed.Length == BUFFER_SIZE && handed !in lent && handed !in Stock()
      modifies this
      ensures Valid() && Stock() == old(Stock()) - {b}
      ensures Avail() == if old(Avail()) == 0 then 0 else old(Avail()) - 1
      ensures b == null <==> old(Avail()) == 0 && handed == null
      ensures b == null ==> lent == old(lent)
      ensures b != null ==> b.Length == BUFFER_SIZE && b !in old(lent) && lent == old(lent) + {b}
      ensures b != null && b != handed ==> fresh({b} - old(Stock()))
      ensures FirstFree(old(free), old(room), free, room, b)
      ensures old(Avail()) == 0 ==> b == handed
    {
      b := AcquireBuffer();
      if b == null && handed != null {
        b := handed;
        lent := lent + {b};
      }
    }

    method ReleaseBuffer(b: array<byte>)
      requires Valid() && b in lent
      modifies this
      ensures Valid() && lent == old(lent) - {b} && Stock() == old(Stock()) + {b}
      ensures Avail() == old(Avail()) + 1 && free == old(free) + [b] && room == old(room)
    {
      free := free + [b];
      lent := lent - {b};
    }
  }

  /** How a call of send ended. */
  datatype Outcome = Accepted | Overran | Gated | Stopped | NoDescriptor | RolledBack

  /** The ownership state of a writer at one moment. */
  datatype View = View(fragments: seq<array<byte>>, chain: seq<seq<byte>>, buffer: array?<byte>,
                       lent: set<array<byte>>, avail: nat)
  {
    /** Buffers held plus buffers still to be had. */
    ghost function Reserve(): nat { avail + |fragments| + if buffer == null then 0 else 1 }

    ghost function Held(): set<array<byte>> {
      (set f <- fragments) + if buffer == null then {} else {buffer}
    }

    /** Buffers on loan to anyone else. */
    ghost function Others(): set<array<byte>> { lent - Held() }
  }

  /** What moving the tail from offset d to e may do to the chain, whether or not
      the core ran out of buffers: closed buffers stay, the old tail is the first
      buffer added, every buffer added is flagged, and nobody else gains or loses one. */
  ghost predicate Grew(v: View, w: View, d: nat, e: nat) {
    v.fragments <= w.fragments && v.chain <= w.chain
    && |v.fragments| == |v.chain| && |w.fragments| == |w.chain|
    && (|w.fragments| == |v.fragments| ==> w.buffer == v.buffer && d <= e)
    && (|w.fragments| > |v.fragments| ==>
          w.fragments[|v.fragments|] == v.buffer
          && |w.chain[|v.chain|]| == BUFFER_SIZE && SizeField(w.chain[|v.chain|]) >= d)
    && (forall i :: |v.chain| <= i < |w.chain| ==> |w.chain[i]| == BUFFER_SIZE && IsFragment(w.chain[i]))
    && w.Others() == v.Others() && w.Reserve() == v.Reserve() && (w.buffer == null ==> w.avail == 0)
  }

  /** The tail was changed at most as often as moving the cursor from a to b
      demands, and exactly that often unless the core ran out of buffers. */
  ghost predicate Turned(v: View, w: View, a: Cursor, b: Cursor) {
    |w.fragments| - |v.fragments| <= b.rotations - a.rotations
    && (w.buffer != null ==> |w.fragments| - |v.fragments| == b.rotations - a.rotations)
  }

  lemma GrewRefl(v: View, d: nat)
    requires |v.fragments| == |v.chain| && v.buffer != null
    ensures Grew(v, v, d, d)
  {
  }

  /** One more buffer in the chain, the flagged tail of before. */
  lemma GrewOne(v: View, w: View, d: nat)
    requires |v.fragments| == |v.chain| && w.fragments == v.fragments + [v.buffer] && |w.chain| == |v.chain| + 1
    requires w.chain[..|v.chain|] == v.chain && |w.chain[|v.chain|]| == BUFFER_SIZE
    requires SizeField(w.chain[|v.chain|]) == d && IsFragment(w.chain[|v.chain|])
    requires w.Others() == v.Others() && w.Reserve() == v.Reserve() && (w.buffer == null ==> w.avail == 0)
    ensures Grew(v, w, d, BUF_HDR)
  {
    hide SizeField, IsFragment, View.Others, View.Reserve;
  }

  lemma GrewPrefix(v: View, w: View, d: nat, e: nat)
    requires Grew(v, w, d, e)
    ensures |v.fragments| == |v.chain| <= |w.fragments| == |w.chain| && w.Others() == v.Others()
    ensures w.Reserve() == v.Reserve() && (w.buffer == null ==> w.avail == 0)
    ensures w.fragments[..|v.fragments|] == v.fragments && w.chain[..|v.chain|] == v.chain
  {
  }

  lemma GrewFurther(v: View, w: View, d: nat, e: nat, f: nat)
    requires Grew(v, w, d, e) && e <= f
    ensures Grew(v, w, d, f)
  {
  }

  lemma SpliceTail(b: seq<byte>, d: nat, src: seq<byte>)
    requires BUF_HDR <= d && d + |src| <= |b|
    ensures Splice(b, d, src)[BUF_HDR..d + |src|] == b[BUF_HDR..d] + src
  {
  }

  lemma SpliceBehind(a: seq<byte>, b: seq<byte>, off: nat, src: seq<byte>)
    requires off + |src| <= |b|
    ensures a + Splice(b, off, src) == Splice(a + b, |a| + off, src)
  {
  }

  lemma SpliceFront(a: seq<byte>, b: seq<byte>, off: nat, src: seq<byte>)
    requires off + |src| <= |a|
    ensures Splice(a, off, src) + b == Splice(a + b, off, src)
  {
  }

  lemma PlaceNone(c: Cursor)
    requires c.Valid()
    ensures AllFit([]) && PlaceAll(c, []) == c
  {
  }

  lemma {:induction false} ArgsTurn(c: Cursor, args: seq<Arg>, i: nat)
    requires c.Valid() && i <= |args| && forall a <- args :: ValidArg(a)
    ensures AllFit(ArgsChunks(args)) && AllFit(ArgsChunks(args[..i]))
    ensures PlaceAll(c, ArgsChunks(args[..i])).rotations <= PlaceAll(c, ArgsChunks(args)).rotations
    decreases |args|
  {
    hide PlaceAll, AllFit, ArgChunks;
    ArgsFit(args);
    ArgsFit(args[..i]);
    var n := |args| - 1;
    if i == |args| {
      assert args[..i] == args;
    } else {
      ArgsTurn(c, args[..n], i);
      assert args[..n][..i] == args[..i];
      ArgsFit(args[..n]);
      PlaceAllTurns(c, ArgsChunks(args[..n]), ArgChunks(args[n]));
    }
  }

  lemma AttrsTurnOne(c: Cursor, done: seq<Attr>, v: AttrVal, isStr: seq<bool>)
    requires c.Valid() && AllFit(AttrsChunks(done)) && |isStr| <= MAX_ATTRS && |v.raw| == 8
    ensures AllFit(AttrsChunks(done + Resolve(v, isStr)))
    ensures PlaceAll(c, AttrsChunks(done)).rotations <= PlaceAll(c, AttrsChunks(done + Resolve(v, isStr))).rotations
  {
    hide *;
    AttrsJoin(done, v, isStr);
    ResolveFit(v, isStr);
    PlaceAllTurns(c, AttrsChunks(done), AttrsChunks(Resolve(v, isStr)));
  }

  lemma {:induction false} AttrsTurn(c: Cursor, vs: seq<AttrVal>, isStr: seq<bool>, i: nat)
    requires c.Valid() && i <= |vs| && |isStr| <= MAX_ATTRS && forall v <- vs :: |v.raw| == 8
    ensures AllFit(AttrsChunks(ResolveAll(vs, isStr))) && AllFit(AttrsChunks(ResolveAll(vs[..i], isStr)))
    ensures PlaceAll(c, AttrsChunks(ResolveAll(vs[..i], isStr))).rotations
            <= PlaceAll(c, AttrsChunks(ResolveAll(vs, isStr))).rotations
    decreases |vs|
  {
    hide PlaceAll, AllFit, AttrChunks, AttrsChunks, Resolve, Registered;
    ResolvedFit(vs, isStr);
    ResolvedFit(vs[..i], isStr);
    var n := |vs| - 1;
    if i == |vs| {
      assert vs[..i] == vs;
    } else {
      AttrsTurn(c, vs[..n], isStr, i);
      assert vs[..n][..i] == vs[..i];
      AttrsTurnOne(c, ResolveAll(vs[..n], isStr), vs[n], isStr);
    }
  }

  lemma NoAttrs()
    ensures AttrsBytes([]) == [] && AttrsChunks([]) == []
  {
  }

  lemma DraftAt(b: seq<byte>, c: seq<byte>, e: seq<byte>, ho: nat, first: seq<byte>, last: seq<byte>)
    requires BUF_HDR <= ho && ho + ITEM_HDR <= |b| && |first| == 30 && |last| == 4
    requires c == Splice(b, ho, first) && e == Splice(c, ho + 34, last)
    ensures e[BUF_HDR..ho + ITEM_HDR] == b[BUF_HDR..ho] + e[ho..ho + ITEM_HDR]
    ensures e[ho..ho + ITEM_HDR][..30] == first && e[ho..ho + ITEM_HDR][34..38] == last
  {
    SpliceRegions(b, ho, first, BUF_HDR, ho);
    SpliceRegions(c, ho + 34, last, BUF_HDR, ho);
    SpliceRegions(c, ho + 34, last, ho, ho + 30);
    hide Splice;
    CutRange(e, ho, ho + ITEM_HDR, 0, 30);
    CutRange(e, ho, ho + ITEM_HDR, 34, 38);
  }

  lemma CutRange(s: seq<byte>, lo: nat, hi: nat, from: nat, to: nat)
    requires lo <= hi <= |s| && from <= to <= hi - lo
    ensures s[lo..hi][from..to] == s[lo + from..lo + to]
  {
    var m, t, u := s[lo..hi], s[lo..hi][from..to], s[lo + from..lo + to];
    forall k | 0 <= k < to - from ensures t[k] == u[k] {
      assert t[k] == m[from + k] == s[lo + from + k];
    }
  }

  lemma LinkedPop(fs: seq<array<byte>>, chain: seq<seq<byte>>, lent: set<array<byte>>)
    requires Linked(fs, chain, lent) && fs != []
    ensures fs[|fs| - 1] in lent && fs[|fs| - 1] !in fs[..|fs| - 1]
    ensures Linked(fs[..|fs| - 1], chain[..|fs| - 1], lent - {fs[|fs| - 1]})
  {
    hide Sized;
  }

  lemma LinkedShift(fs: seq<array<byte>>, chain: seq<seq<byte>>, lent: set<array<byte>>)
    requires Linked(fs, chain, lent) && fs != []
    ensures fs[0] in lent && fs[0] !in fs[1..] && Linked(fs[1..], chain[1..], lent - {fs[0]})
    ensures (set f <- fs) == {fs[0]} + set f <- fs[1..]
  {
    hide Sized;
    assert fs == [fs[0]] + fs[1..];
  }

  lemma NoLinks(lent: set<array<byte>>)
    ensures Linked([], [], lent)
  {
  }

  lemma NoBytes()
    ensures Flatten([]) == []
  {
  }

  /** A tail that stays or is parked is held as before. */
  lemma SameOthers(v: View, w: View)
    requires v.lent == w.lent && v.buffer != null
    requires (w.fragments == v.fragments && w.buffer == v.buffer)
             || (w.fragments == v.fragments + [v.buffer] && w.buffer == null)
    ensures w.Others() == v.Others()
  {
  }

  lemma PopOthers(v: View, w: View, n: nat)
    requires |v.fragments| == n + 1 && v.buffer == null && w.buffer == null && w.fragments == v.fragments[..n]
    requires v.fragments[n] !in v.fragments[..n] && w.lent == v.lent - {v.fragments[n]}
    ensures w.Others() == v.Others()
  {
    assert v.fragments == v.fragments[..n] + [v.fragments[n]];
    assert v.Held() == w.Held() + {v.fragments[n]};
  }

  lemma AppendSome(o: seq<byte>, src: seq<byte>, n: nat)
    requires n <= |src|
    ensures (o + src[..n]) + src[n..] == o + src
  {
  }

  lemma GrewTrans(u: View, v: View, w: View, d: nat, e: nat, f: nat)
    requires Grew(u, v, d, e) && Grew(v, w, e, f)
    ensures Grew(u, w, d, f)
  {
    hide SizeField, IsFragment, View.Others;
    assert forall i :: 0 <= i < |v.chain| ==> w.chain[i] == v.chain[i];
    assert forall i :: 0 <= i < |v.fragments| ==> w.fragments[i] == v.fragments[i];
  }

  /** Room a kept tail must have: P8_LOG_MIN_BUFFER_SPACE plus an item header. */
  const NEED := MIN_SPACE + ITEM_HDR

  function OneLess(n: nat): nat { if n == 0 then 0 else n - 1 }

  /** Of the buffers closed since the chain was pre, exactly those whose record
      goes on in another buffer carry the flag. */
  ghost predicate Flagged(pre: seq<seq<byte>>, chain: seq<seq<byte>>, tail: bool) {
    pre <= chain
    && forall i :: |pre| <= i < |chain| ==>
         |chain[i]| == BUFFER_SIZE && (IsFragment(chain[i]) <==> i + 1 < |chain| || tail)
  }

  lemma GrewFlagged(v: View, w: View, d: nat, e: nat)
    requires Grew(v, w, d, e)
    ensures Flagged(v.chain, w.chain, true)
  {
  }

  lemma FlaggedLast(pre: seq<seq<byte>>, chain: seq<seq<byte>>, more: seq<seq<byte>>)
    requires Flagged(pre, chain, true) && |more| == |chain| + 1 && more[..|chain|] == chain
    requires |more[|chain|]| == BUFFER_SIZE && !IsFragment(more[|chain|])
    ensures Flagged(pre, more, false)
  {
    assert forall i :: 0 <= i < |chain| ==> more[i] == chain[i];
  }

  function Backwards<T>(s: seq<T>): (r: seq<T>)
    ensures |r| == |s| && forall i :: 0 <= i < |s| ==> r[i] == s[|s| - 1 - i]
  {
    seq(|s|, i requires 0 <= i < |s| => s[|s| - 1 - i])
  }

  lemma BackwardsMore<T>(front: seq<T>, s: seq<T>, n: nat)
    requires n <= |s|
    ensures n == |s| ==> front + Backwards(s[n..]) == front
    ensures n < |s| ==> front + Backwards(s[n..]) == (front + Backwards(s[n + 1..])) + [s[n]]
  {
  }

  class TlsWriter {
    const core: Core
    const packetType: byte
    const threadId: nat
    var fragments: seq<array<byte>>   // mo_fragments: closed buffers, oldest first
    var buffer: array?<byte>          // mp_buffer: the tail being written
    var used: nat                     // mz_buf_used
    var dropped: nat
    ghost var chain: seq<seq<byte>>   // contents of fragments
    ghost var past: seq<seq<byte>>    // contents of the buffers handed over so far
    ghost var sent: seq<Item>         // records accepted so far
    ghost var kept: seq<Item>         // of these, what the reader's walk finds before it loses its way

    constructor (core: Core, packetType: byte, threadId: nat)
      requires core.Valid() && threadId < 0x1_0000_0000
      ensures Valid() && this.core == core && this.packetType == packetType && this.threadId == threadId
      ensures fragments == [] && buffer == null && dropped == 0 && past == [] && chain == []
      ensures sent == [] && kept == [] && Total() == []
    {
      this.core, this.packetType, this.threadId := core, packetType, threadId;
      fragments, buffer, used, dropped := [], null, 0, 0;
      chain, past, sent, kept := [], [], [], [];
    }

    /** Buffers a write may touch: the tail and whatever the core may hand out. */
    ghost function Area(): set<array<byte>>
      reads this, core
    {
      core.Stock() + if buffer == null then {} else {buffer}
    }

    ghost predicate WF()
      reads this, core, fragments
    {
      core.Valid() && Linked(fragments, chain, core.lent) && threadId < 0x1_0000_0000
      && Labels(chain, packetType, threadId) && Labels(past, packetType, threadId)
      && (buffer != null ==> buffer in core.lent && buffer !in fragments && buffer.Length == BUFFER_SIZE)
    }

    ghost function Stream(): seq<byte>
      reads this, buffer
    {
      Flatten(chain) + if buffer == null then [] else Payload(buffer[..])
    }

    ghost function Delivered(): seq<byte>
      reads this
    {
      Flatten(past)
    }

    /** The buffers the writer holds, oldest first. */
    ghost function HeldBytes(): seq<seq<byte>>
      reads this, buffer
    {
      chain + if buffer == null then [] else [buffer[..]]
    }

    /** Every item byte this writer has produced and not rolled back. */
    ghost function Total(): seq<byte>
      reads this, buffer
    {
      Delivered() + Stream()
    }

    /** The ownership state between records. */
    ghost predicate Settled()
      reads this, core, fragments, buffer
    {
      WF()
      && (buffer != null ==>
            BUF_HDR <= used <= BUFFER_SIZE && SizeField(buffer[..]) == used && !IsFragment(buffer[..])
            && Labelled(buffer[..], packetType, threadId))
    }

    /** All that was produced is what the reader finds. */
    ghost predicate Intact()
      reads this, buffer
    {
      |Total()| == Extent(kept)
    }

    /** A log writer between records: its stream begins with the records kept. */
    ghost predicate Valid()
      reads this, core, fragments, buffer
    {
      Settled() && Begins(Total(), kept)
    }

    /** The state inside a record whose next byte goes at d. */
    ghost predicate Writing(d: nat)
      reads this, core, fragments, buffer
    {
      WF() && buffer != null && BUF_HDR <= d <= BUFFER_SIZE && !IsFragment(buffer[..])
      && Labelled(buffer[..], packetType, threadId)
    }

    ghost function Open(d: nat): seq<byte>
      requires Writing(d)
      reads this, core, fragments, buffer
    {
      Flatten(chain) + buffer[BUF_HDR..d]
    }

    ghost function Shot(): View
      reads this, core
    {
      View(fragments, chain, buffer, core.lent, core.Avail())
    }

    /** Stamps flags, size and stop time into the tail's header. */
    method CloseTail(flags: byte, n: nat, now: nat)
      requires buffer != null && buffer.Length == BUFFER_SIZE && BUF_HDR <= n <= BUFFER_SIZE
      modifies buffer
      ensures Sized(buffer[..]) && SizeField(buffer[..]) == n && buffer[1] == flags
      ensures Payload(buffer[..]) == old(buffer[BUF_HDR..n])
      ensures buffer[0] == old(buffer[0]) && buffer[4..16] == old(buffer[4..16]) && buffer[16..24] == LE(now, 8)
      ensures old(Labelled(buffer[..], packetType, threadId)) ==> Labelled(buffer[..], packetType, threadId)
    {
      hide Splice, LE, FromLE, Payload, Sized, SizeField;
      ghost var b := buffer[..];
      Poke(buffer, 1, [flags] + LE(n, 2));
      ghost var c := buffer[..];
      Poke(buffer, 16, LE(now, 8));
      ClosedBuffer(b, c, buffer[..], flags, n, now);
      if Labelled(b, packetType, threadId) {
        LabelKept(b, buffer[..], packetType, threadId);
      }
    }

    /** Writes a fresh data-buffer header into the tail. */
    method OpenTail(now: nat)
      requires buffer != null && buffer.Length == BUFFER_SIZE
      modifies buffer
      ensures Sized(buffer[..]) && SizeField(buffer[..]) == BUF_HDR && Payload(buffer[..]) == []
      ensures !IsFragment(buffer[..]) && Labelled(buffer[..], packetType, threadId)
      ensures buffer[8..16] == LE(now, 8) && buffer[16..24] == LE(0, 8)
    {
      hide Splice, LE, FromLE, Payload, Sized, SizeField, FreshHeader, IsFragment;
      FreshBuffer(buffer[..], packetType, threadId, now);
      Poke(buffer, 0, FreshHeader(packetType, threadId, now));
    }

    /** Closes the tail at n and appends it to the chain. */
    method ParkTail(flags: byte, n: nat, now: nat)
      requires Writing(n)
      modifies this`fragments, this`buffer, this`chain, buffer
      ensures WF() && buffer == null
      ensures fragments == old(fragments) + [old(buffer)]
      ensures |chain| == |fragments| && chain[..|chain| - 1] == old(chain)
      ensures |chain[|chain| - 1]| == BUFFER_SIZE && Sized(chain[|chain| - 1])
      ensures SizeField(chain[|chain| - 1]) == n && chain[|chain| - 1][1] == flags
      ensures chain[|chain| - 1][8..16] == old(buffer[8..16]) && chain[|chain| - 1][16..24] == LE(now, 8)
      ensures Flatten(chain) == old(Open(n))
    {
      hide Labels, Labelled, Sized, SizeField, Payload, Flatten, Linked, Core.Valid;
      LinkedLent(fragments, chain, core.lent);
      CloseTail(flags, n, now);
      LinkedSnoc(fragments, chain, core.lent, buffer);
      LabelsSnoc(chain, buffer[..], packetType, threadId);
      FlattenSnoc(chain, buffer[..]);
      assert buffer[8..16] == buffer[4..16][4..12];
      fragments, chain, buffer := fragments + [buffer], chain + [buffer[..]], null;
    }

    /** Takes b as the new tail, its header written and nothing else. */
    method StartTail(b: array<byte>, now: nat)
      requires WF() && buffer == null && b in core.lent && b !in fragments && b.Length == BUFFER_SIZE
      modifies this`buffer, this`used, b
      ensures Writing(BUF_HDR) && buffer == b && used == BUF_HDR
      ensures Sized(buffer[..]) && SizeField(buffer[..]) == BUF_HDR && Payload(buffer[..]) == []
      ensures Open(BUF_HDR) == Flatten(chain)
      ensures buffer[8..16] == LE(now, 8) && buffer[16..24] == LE(0, 8)
    {
      hide Labels, Labelled, Sized, SizeField, Payload, Flatten, Linked, Core.Valid;
      buffer, used := b, BUF_HDR;
      OpenTail(now);
      assert buffer[BUF_HDR..BUF_HDR] == [];
    }

    method RotateFragmentBuffer(now: nat) returns (ok: bool)
      requires Writing(used)
      modifies this`fragments, this`buffer, this`chain, this`used, core, Area()
      ensures WF() && fragments == old(fragments) + [old(buffer)]
      ensures Grew(old(Shot()), Shot(), old(used), BUF_HDR) && fresh(Area() - old(Area()))
      ensures Flatten(chain) == old(Open(used))
      ensures ok <==> buffer != null
      ensures ok ==> Writing(BUF_HDR) && used == BUF_HDR && Open(BUF_HDR) == old(Open(used))
      ensures |chain| == |fragments| > 0 && |chain[|chain| - 1]| == BUFFER_SIZE
      ensures chain[|chain| - 1][8..16] == old(buffer[8..16]) && chain[|chain| - 1][16..24] == LE(now, 8)
      ensures ok ==> buffer[8..16] == LE(now, 8) && buffer[16..24] == LE(0, 8)
    {
      hide Labels, Labelled, Sized, SizeField, Payload, Flatten, Linked, Core.Valid, Grew, FirstFree;
      ParkTail(OrFragment(buffer[1]), used, now);
      LinkedLent(fragments, chain, core.lent);
      ghost var lent := core.lent;
      var b := core.AcquireBuffer();
      LinkedMore(fragments, chain, lent, core.lent);
      if b == null {
        assert Shot().Held() == old(Shot().Held());
      } else {
        StartTail(b, now);
        assert Shot().Held() == old(Shot().Held()) + {b};
      }
      GrewOne(old(Shot()), Shot(), old(used));
      return b != null;
    }

    method EnsureSpace(d: nat, needed: nat, now: nat, ghost c: Cursor)
      returns (ok: bool, e: nat, ghost r: Cursor)
      requires Writing(d) && c.off == d && needed <= BUFFER_SIZE - BUF_HDR
      modifies this`fragments, this`buffer, this`chain, this`used, core, Area()
      ensures WF() && Grew(old(Shot()), Shot(), d, e) && fresh(Area() - old(Area()))
      ensures ok <==> buffer != null
      ensures ok ==> Writing(e) && Open(e) == old(Open(d)) && e + needed <= BUFFER_SIZE
      ensures r == (if d + needed > BUFFER_SIZE then c.Rotate() else c) && r.off == e && r.Valid()
      ensures Turned(old(Shot()), Shot(), c, r)
    {
      hide Labels, Labelled, Sized, SizeField, Payload, Flatten, Linked, Core.Valid, Grew;
      ok, e, r := true, d, c;
      LinkedLent(fragments, chain, core.lent);
      GrewRefl(Shot(), d);
      if d + needed > BUFFER_SIZE {
        used := d;
        ok := RotateFragmentBuffer(now);
        e, r := BUF_HDR, c.Rotate();
      }
    }

    /** memcpy at the write position, which must have room. */
    method Put(d: nat, src: seq<byte>)
      requires Writing(d) && d + |src| <= BUFFER_SIZE
      modifies buffer
      ensures Writing(d + |src|) && Open(d + |src|) == old(Open(d)) + src
    {
      hide Labels, Labelled, Sized, SizeField, Payload, Flatten, Linked, Core.Valid, Splice;
      ghost var b := buffer[..];
      LabelSplice(b, d, src, packetType, threadId);
      Poke(buffer, d, src);
      SpliceTail(b, d, src);
    }

    method PutWhole(d: nat, src: seq<byte>, now: nat, ghost c: Cursor)
      returns (ok: bool, e: nat, ghost r: Cursor)
      requires Writing(d) && c.off == d && |src| <= BUFFER_SIZE - BUF_HDR
      modifies this`fragments, this`buffer, this`chain, this`used, core, Area()
      ensures WF() && Grew(old(Shot()), Shot(), d, e) && fresh(Area() - old(Area()))
      ensures ok <==> buffer != null
      ensures ok ==> Writing(e) && Open(e) == old(Open(d)) + src && r == Place(c, Whole(|src|)) && r.off == e
      ensures Turned(old(Shot()), Shot(), c, Place(c, Whole(|src|)))
    {
      hide Labels, Labelled, Sized, SizeField, Payload, Flatten, Linked, Core.Valid, Grew;
      ghost var v := Shot();
      ok, e, r := EnsureSpace(d, |src|, now, c);
      if ok {
        Put(e, src);
        GrewFurther(v, Shot(), d, e, e + |src|);
        e, r := e + |src|, r.(off := r.off + |src|);
      }
    }

    /** One pass of the copy loop: rotates if the tail is full, then copies as
        much of src as fits. */
    method CopySome(d: nat, src: seq<byte>, now: nat, ghost c: Cursor)
      returns (ok: bool, n: nat, e: nat, ghost r: Cursor)
      requires Writing(d) && c.off == d && src != []
      modifies this`fragments, this`buffer, this`chain, this`used, core, Area()
      ensures WF() && Grew(old(Shot()), Shot(), d, e) && fresh(Area() - old(Area()))
      ensures ok <==> buffer != null
      ensures ok ==> 0 < n <= |src| && Writing(e) && Open(e) == old(Open(d)) + src[..n]
      ensures n <= |src| && r.off == e && r.Valid() && Place(c, Split(|src|)) == Place(r, Split(|src| - n))
      ensures Turned(old(Shot()), Shot(), c, r)
    {
      hide Labels, Labelled, Sized, SizeField, Payload, Flatten, Linked, Core.Valid, Grew;
      ghost var v := Shot();
      n := 0;
      ok, e, r := EnsureSpace(d, 1, now, c);
      if ok {
        n := if |src| < BUFFER_SIZE - e then |src| else BUFFER_SIZE - e;
        Put(e, src[..n]);
        GrewFurther(v, Shot(), d, e, e + n);
        e, r := e + n, r.(off := e + n);
      }
    }

    method CopyFragmented(d: nat, src: seq<byte>, now: nat, ghost c: Cursor)
      returns (ok: bool, e: nat, ghost r: Cursor)
      requires Writing(d) && c.off == d
      modifies this`fragments, this`buffer, this`chain, this`used, core, Area()
      ensures WF() && Grew(old(Shot()), Shot(), d, e) && fresh(Area() - old(Area()))
      ensures ok <==> buffer != null
      ensures ok ==> Writing(e) && Open(e) == old(Open(d)) + src && r == Place(c, Split(|src|)) && r.off == e
      ensures Turned(old(Shot()), Shot(), c, Place(c, Split(|src|)))
    {
      hide Labels, Labelled, Sized, SizeField, Payload, Flatten, Linked, Core.Valid, Grew;
      var rest := src;
      ok, e, r := true, d, c;
      LinkedLent(fragments, chain, core.lent);
      GrewRefl(Shot(), d);
      while rest != []
        invariant ok && Writing(e) && r.off == e
        invariant Open(e) + rest == old(Open(d)) + src
        invariant Grew(old(Shot()), Shot(), d, e) && fresh(Area() - old(Area()))
        invariant Place(c, Split(|src|)) == Place(r, Split(|rest|)) && Turned(old(Shot()), Shot(), c, r)
        decreases |rest|
      {
        ghost var v, o, was := Shot(), Open(e), e;
        var n;
        ok, n, e, r := CopySome(e, rest, now, r);
        GrewTrans(old(Shot()), v, Shot(), d, was, e);
        if !ok {
          PlaceTurns(r, Split(|rest| - n));
          return;
        }
        AppendSome(o, rest, n);
        rest := rest[n..];
      }
    }

    /** Rewrites bytes already written to the tail. */
    method PatchTail(at: nat, src: seq<byte>, d: nat)
      requires Writing(d) && BUF_HDR <= at && at + |src| <= d
      modifies buffer
      ensures Writing(d) && |Flatten(chain)| + (at - BUF_HDR) + |src| <= |old(Open(d))|
      ensures Open(d) == Splice(old(Open(d)), |Flatten(chain)| + (at - BUF_HDR), src)
    {
      hide Labels, Labelled, Sized, SizeField, Payload, Flatten, Linked, Core.Valid, Splice, IsFragment;
      ghost var b := buffer[..];
      LabelSplice(b, at, src, packetType, threadId);
      FlagSplice(b, at, src);
      Poke(buffer, at, src);
      SpliceRegions(b, at, src, BUF_HDR, d);
      SpliceBehind(Flatten(chain), b[BUF_HDR..d], at - BUF_HDR, src);
    }

    /** Rewrites item bytes of a buffer already in the chain. */
    method PatchChain(hb: array<byte>, ghost k: nat, at: nat, src: seq<byte>, d: nat)
      requires Writing(d) && k < |fragments| && fragments[k] == hb
      requires |chain| == |fragments| && |chain[k]| == BUFFER_SIZE
      requires BUF_HDR <= at && at + |src| <= SizeField(chain[k])
      modifies hb, this`chain
      ensures Writing(d) && |chain| == |old(chain)| && chain[..k] == old(chain[..k])
      ensures |Flatten(chain[..k])| + (at - BUF_HDR) + |src| <= |old(Open(d))|
      ensures Open(d) == Splice(old(Open(d)), |Flatten(chain[..k])| + (at - BUF_HDR), src)
      ensures |chain[k]| == BUFFER_SIZE && SizeField(chain[k]) == old(SizeField(chain[k]))
      ensures chain[k][1] == old(chain[k][1])
      ensures forall i :: 0 <= i < |chain| && i != k ==> chain[i] == old(chain[i])
    {
      hide Labels, Labelled, SizeField, Payload, Flatten, Core.Valid, Splice;
      ghost var b := chain[k];
      SplicePayload(b, at, src);
      SpliceRegions(b, at, src, 1, 2);
      LabelsPatch(chain, k, at, src, packetType, threadId);
      Poke(hb, at, src);
      ghost var c := hb[..];
      FlattenPatch(chain, k, c, at - BUF_HDR, src);
      SpliceFront(Flatten(chain), buffer[BUF_HDR..d], |Flatten(chain[..k])| + (at - BUF_HDR), src);
      assert c[1..2] == b[1..2] && c[1] == c[1..2][0] && b[1] == b[1..2][0];
      chain := chain[k := c];
      assert chain[..k] == old(chain[..k]);
    }

    /** Rewrites bytes of the item header at offset ho of the buffer the record
        began in, which by now may be the tail or the first buffer added since v. */
    method Patch(hb: array<byte>, ghost v: View, ho: nat, off: nat, src: seq<byte>, d: nat)
      requires Writing(d) && Grew(v, Shot(), ho + ITEM_HDR, d) && v.buffer == hb
      requires BUF_HDR <= ho && off + |src| <= ITEM_HDR
      modifies hb, this`chain
      ensures Writing(d) && Grew(v, Shot(), ho + ITEM_HDR, d)
      ensures |Flatten(v.chain)| + (ho - BUF_HDR) + off + |src| <= |old(Open(d))|
      ensures Open(d) == Splice(old(Open(d)), |Flatten(v.chain)| + (ho - BUF_HDR) + off, src)
    {
      hide Labels, Labelled, Sized, Payload, SizeField, Flatten, Core.Valid, Linked, Splice;
      LinkedLent(fragments, chain, core.lent);
      ghost var k := |v.chain|;
      assert chain[..k] == v.chain;
      if hb == buffer {
        assert forall i :: 0 <= i < |fragments| ==> fragments[i] != buffer;
        assert chain == v.chain;
        PatchTail(ho + off, src, d);
      } else {
        PatchChain(hb, k, ho + off, src, d);
        assert v.chain <= chain;
      }
    }

    /** A length prefix kept whole, then characters that may be split. */
    method PutText(d: nat, chars: seq<byte>, now: nat, ghost c: Cursor)
      returns (ok: bool, e: nat, ghost r: Cursor)
      requires Writing(d) && c.off == d
      modifies this`fragments, this`buffer, this`chain, this`used, core, Area()
      ensures WF() && Grew(old(Shot()), Shot(), d, e) && fresh(Area() - old(Area()))
      ensures ok <==> buffer != null
      ensures ok ==> Writing(e) && Open(e) == old(Open(d)) + (LE(|Clip(chars)|, 2) + Clip(chars))
      ensures ok ==> r == Place(Place(c, Whole(2)), Split(|Clip(chars)|)) && r.off == e
      ensures Turned(old(Shot()), Shot(), c, Place(Place(c, Whole(2)), Split(|Clip(chars)|)))
    {
      hide Labels, Labelled, Sized, SizeField, Payload, Flatten, Linked, Core.Valid, Grew, LE, Clip, Place;
      PlaceTurns(Place(c, Whole(2)), Split(|Clip(chars)|));
      ok, e, r := PutWhole(d, LE(|Clip(chars)|, 2), now, c);
      if ok {
        ghost var v, was := Shot(), e;
        ok, e, r := CopyFragmented(e, Clip(chars), now, r);
        GrewTrans(old(Shot()), v, Shot(), d, was, e);
      }
    }

    method WriteArg(d: nat, a: Arg, now: nat, ghost c: Cursor)
      returns (ok: bool, e: nat, ghost r: Cursor)
      requires Writing(d) && c.off == d && ValidArg(a)
      modifies this`fragments, this`buffer, this`chain, this`used, core, Area()
      ensures WF() && Grew(old(Shot()), Shot(), d, e) && fresh(Area() - old(Area()))
      ensures ok <==> buffer != null
      ensures ok ==> Writing(e) && Open(e) == old(Open(d)) + ArgBytes(a)
      ensures AllFit(ArgChunks(a)) && Turned(old(Shot()), Shot(), c, PlaceAll(c, ArgChunks(a)))
      ensures ok ==> r == PlaceAll(c, ArgChunks(a)) && r.off == e
    {
      hide Labels, Labelled, Sized, SizeField, Payload, Flatten, Linked, Core.Valid, Grew, LE, Clip, Place, PlaceAll;
      match a
      case Fixed(raw) =>
        PlaceFew(c, Whole(|raw|), Whole(0), Whole(0));
        ok, e, r := PutWhole(d, raw, now, c);
      case Text(chars) =>
        PlaceFew(c, Whole(2), Split(|Clip(chars)|), Whole(0));
        ok, e, r := PutText(d, chars, now, c);
    }

    method WriteArgs(d: nat, args: seq<Arg>, now: nat, ghost c: Cursor)
      returns (ok: bool, e: nat, written: nat, ghost r: Cursor)
      requires Writing(d) && c.off == d && forall a <- args :: ValidArg(a)
      modifies this`fragments, this`buffer, this`chain, this`used, core, Area()
      ensures WF() && Grew(old(Shot()), Shot(), d, e) && fresh(Area() - old(Area()))
      ensures ok <==> buffer != null
      ensures ok ==> Writing(e) && Open(e) == old(Open(d)) + ArgsBytes(args) && written == |ArgsBytes(args)|
      ensures AllFit(ArgsChunks(args)) && Turned(old(Shot()), Shot(), c, PlaceAll(c, ArgsChunks(args)))
      ensures ok ==> r == PlaceAll(c, ArgsChunks(args)) && r.off == e
    {
      hide Labels, Labelled, Sized, SizeField, Payload, Flatten, Linked, Core.Valid;
      hide Grew, LE, Clip, Place, PlaceAll, ArgBytes, ArgChunks, Core.Avail, IsFragment;
      var i := 0;
      ok, e, written, r := true, d, 0, c;
      LinkedLent(fragments, chain, core.lent);
      GrewRefl(Shot(), d);
      PlaceNone(c);
      while i < |args|
        invariant 0 <= i <= |args| && ok && Writing(e) && r.off == e
        invariant Grew(old(Shot()), Shot(), d, e) && fresh(Area() - old(Area()))
        invariant Open(e) == old(Open(d)) + ArgsBytes(args[..i]) && written == |ArgsBytes(args[..i])|
        invariant AllFit(ArgsChunks(args[..i])) && r == PlaceAll(c, ArgsChunks(args[..i]))
        invariant Turned(old(Shot()), Shot(), c, r)
      {
        ghost var v, was := Shot(), e;
        ok, e, r := WriteArg(e, args[i], now, r);
        GrewTrans(old(Shot()), v, Shot(), d, was, e);
        PlaceAllConcat(c, ArgsChunks(args[..i]), ArgChunks(args[i]));
        assert args[..i + 1][..i] == args[..i];
        if !ok {
          ArgsTurn(c, args, i + 1);
          return;
        }
        written := written + |ArgBytes(args[i])|;
        i := i + 1;
      }
      assert args[..i] == args;
    }

    method WriteAttr(d: nat, a: Attr, now: nat, ghost c: Cursor)
      returns (ok: bool, e: nat, ghost r: Cursor)
      requires Writing(d) && c.off == d && ValidAttr(a)
      modifies this`fragments, this`buffer, this`chain, this`used, core, Area()
      ensures WF() && Grew(old(Shot()), Shot(), d, e) && fresh(Area() - old(Area()))
      ensures ok <==> buffer != null
      ensures ok ==> Writing(e) && Open(e) == old(Open(d)) + AttrBytes(a)
      ensures AllFit(AttrChunks(a)) && Turned(old(Shot()), Shot(), c, PlaceAll(c, AttrChunks(a)))
      ensures ok ==> r == PlaceAll(c, AttrChunks(a)) && r.off == e
    {
      hide Labels, Labelled, Sized, SizeField, Payload, Flatten, Linked, Core.Valid, Grew, LE, Clip, Place, PlaceAll;
      match a
      case NumAttr(id, raw) =>
        PlaceFew(c, Whole(4 + |raw|), Whole(0), Whole(0));
        ok, e, r := PutWhole(d, LE(id, 4) + raw, now, c);
      case StrAttr(id, chars) =>
        PlaceFew(c, Whole(4), Whole(2), Split(|Clip(chars)|));
        PlaceTurns(Place(c, Whole(4)), Whole(2));
        PlaceTurns(Place(Place(c, Whole(4)), Whole(2)), Split(|Clip(chars)|));
        ok, e, r := PutWhole(d, LE(id, 4), now, c);
        if ok {
          ghost var v, was := Shot(), e;
          ok, e, r := PutText(e, chars, now, r);
          GrewTrans(old(Shot()), v, Shot(), d, was, e);
        }
    }

    /** One iteration of the attribute loop: unknown ids write nothing. */
    method WriteAttrVal(d: nat, v: AttrVal, isStr: seq<bool>, now: nat, ghost c: Cursor)
      returns (ok: bool, e: nat, written: nat, ghost r: Cursor)
      requires Writing(d) && c.off == d && |isStr| <= MAX_ATTRS && |v.raw| == 8
      modifies this`fragments, this`buffer, this`chain, this`used, core, Area()
      ensures WF() && Grew(old(Shot()), Shot(), d, e) && fresh(Area() - old(Area()))
      ensures ok <==> buffer != null
      ensures ok ==> Writing(e) && Open(e) == old(Open(d)) + AttrsBytes(Resolve(v, isStr))
      ensures ok ==> written == |AttrsBytes(Resolve(v, isStr))|
      ensures AllFit(AttrsChunks(Resolve(v, isStr)))
      ensures Turned(old(Shot()), Shot(), c, PlaceAll(c, AttrsChunks(Resolve(v, isStr))))
      ensures ok ==> r == PlaceAll(c, AttrsChunks(Resolve(v, isStr))) && r.off == e
    {
      hide Labels, Labelled, Sized, SizeField, Payload, Flatten, Linked, Core.Valid, Grew, LE, Clip;
      hide Place, PlaceAll, AttrBytes, AttrChunks;
      if 0 <= v.id < |isStr| {
        var a := if isStr[v.id] then StrAttr(v.id, v.chars) else NumAttr(v.id, v.raw);
        AttrOne(a);
        ok, e, r := WriteAttr(d, a, now, c);
        written := |AttrBytes(a)|;
      } else {
        ok, e, written, r := true, d, 0, c;
        LinkedLent(fragments, chain, core.lent);
        GrewRefl(Shot(), d);
        PlaceNone(c);
      }
    }

    method WriteAttrs(d: nat, vs: seq<AttrVal>, isStr: seq<bool>, now: nat, ghost c: Cursor)
      returns (ok: bool, e: nat, count: nat, written: nat, ghost r: Cursor)
      requires Writing(d) && c.off == d && |isStr| <= MAX_ATTRS && forall v <- vs :: |v.raw| == 8
      modifies this`fragments, this`buffer, this`chain, this`used, core, Area()
      ensures WF() && Grew(old(Shot()), Shot(), d, e) && fresh(Area() - old(Area()))
      ensures ok <==> buffer != null
      ensures ok ==> Writing(e) && Open(e) == old(Open(d)) + AttrsBytes(ResolveAll(vs, isStr))
      ensures ok ==> count == |ResolveAll(vs, isStr)| && written == |AttrsBytes(ResolveAll(vs, isStr))|
      ensures AllFit(AttrsChunks(ResolveAll(vs, isStr)))
      ensures Turned(old(Shot()), Shot(), c, PlaceAll(c, AttrsChunks(ResolveAll(vs, isStr))))
      ensures ok ==> r == PlaceAll(c, AttrsChunks(ResolveAll(vs, isStr))) && r.off == e
    {
      hide Labels, Labelled, Sized, SizeField, Payload, Flatten, Linked, Core.Valid, Grew;
      hide Place, PlaceAll, Resolve, AttrsBytes, AttrsChunks, Core.Avail, IsFragment;
      var i := 0;
      ghost var done: seq<Attr> := [];
      ok, e, count, written, r := true, d, 0, 0, c;
      LinkedLent(fragments, chain, core.lent);
      GrewRefl(Shot(), d);
      PlaceNone(c);
      NoAttrs();
      while i < |vs|
        invariant 0 <= i <= |vs| && ok && Writing(e) && r.off == e && done == ResolveAll(vs[..i], isStr)
        invariant Grew(old(Shot()), Shot(), d, e) && fresh(Area() - old(Area()))
        invariant Open(e) == old(Open(d)) + AttrsBytes(done)
        invariant count == |done| && written == |AttrsBytes(done)|
        invariant AllFit(AttrsChunks(done)) && r == PlaceAll(c, AttrsChunks(done))
        invariant Turned(old(Shot()), Shot(), c, r)
      {
        ghost var v, was := Shot(), e;
        var n;
        ok, e, n, r := WriteAttrVal(e, vs[i], isStr, now, r);
        GrewTrans(old(Shot()), v, Shot(), d, was, e);
        assert vs[..i + 1][..i] == vs[..i];
        AttrsJoin(done, vs[i], isStr);
        PlaceAllConcat(c, AttrsChunks(done), AttrsChunks(Resolve(vs[i], isStr)));
        if !ok {
          AttrsTurn(c, vs, isStr, i + 1);
          return;
        }
        done := done + Resolve(vs[i], isStr);
        count, written := count + |Resolve(vs[i], isStr)|, written + n;
        i := i + 1;
      }
      assert vs[..i] == vs;
    }

    /** Writes the item header at the tail; its size fields come later. */
    method WriteHeader(r: Record) returns (ghost h: seq<byte>)
      requires Writing(used) && used + ITEM_HDR <= BUFFER_SIZE && ValidRecord(r)
      modifies buffer
      ensures Writing(used + ITEM_HDR) && Open(used + ITEM_HDR) == old(Open(used)) + h
      ensures Drafted(h, r, threadId) && |h| == ITEM_HDR
    {
      hide Labels, Labelled, Sized, SizeField, Payload, Flatten, Linked, Core.Valid, Splice, LE;
      ghost var b := buffer[..];
      var first := LE(r.hash, 8) + LE(r.timestamp, 8) + LE(r.traceId, 8) + LE(threadId, 4) + [r.level, 0];
      var last := LE(r.modId, 2) + [0, 0];
      LabelSplice(b, used, first, packetType, threadId);
      Poke(buffer, used, first);
      ghost var c := buffer[..];
      LabelSplice(c, used + 34, last, packetType, threadId);
      Poke(buffer, used + 34, last);
      h := buffer[used..used + ITEM_HDR];
      DraftAt(b, c, buffer[..], used, first, last);
    }

    /** Back-patches the three size fields of the item header. */
    method PatchSizes(hb: array<byte>, ghost v: View, ho: nat, d: nat, argsSize: nat, count: byte, size: nat,
                      ghost head: seq<byte>, ghost h: seq<byte>, ghost body: seq<byte>)
      requires Writing(d) && Grew(v, Shot(), ho + ITEM_HDR, d) && v.buffer == hb && BUF_HDR <= ho
      requires |h| == ITEM_HDR && |head| == |Flatten(v.chain)| + (ho - BUF_HDR) && Open(d) == head + h + body
      modifies hb, this`chain
      ensures Writing(d) && Grew(v, Shot(), ho + ITEM_HDR, d)
      ensures Open(d) == head + Patched(h, argsSize, count, size) + body
    {
      hide Labels, Labelled, Sized, SizeField, Payload, Flatten, Linked, Core.Valid, Splice, LE, Grew;
      Patch(hb, v, ho, 30, LE(argsSize, 2), d);
      SpliceInside(head, h, body, 30, LE(argsSize, 2));
      ghost var h1 := Splice(h, 30, LE(argsSize, 2));
      Patch(hb, v, ho, 36, [count], d);
      SpliceInside(head, h1, body, 36, [count]);
      ghost var h2 := Splice(h1, 36, [count]);
      Patch(hb, v, ho, 32, LE(size, 2), d);
      SpliceInside(head, h2, body, 32, LE(size, 2));
    }

    /** Ends a record whose last byte is at d: steps over the pad, updates the
        data-buffer header and parks the buffer once it is nearly full. */
    method EndRecord(d: nat, pad: nat, minRoom: nat, now: nat) returns (ghost skipped: seq<byte>)
      requires Writing(d) && d + pad <= BUFFER_SIZE
      modifies this`fragments, this`buffer, this`chain, this`used, buffer
      ensures WF() && |skipped| == pad && Stream() == old(Open(d)) + skipped
      ensures BUFFER_SIZE - (d + pad) >= minRoom ==>
                buffer == old(buffer) && used == d + pad && SizeField(buffer[..]) == used
                && fragments == old(fragments) && chain == old(chain)
      ensures BUFFER_SIZE - (d + pad) < minRoom ==>
                buffer == null && used == 0 && fragments == old(fragments) + [old(buffer)]
      ensures BUFFER_SIZE - (d + pad) < minRoom ==>
                |chain| == |old(chain)| + 1 && chain[..|old(chain)|] == old(chain)
                && |chain[|old(chain)|]| == BUFFER_SIZE && !IsFragment(chain[|old(chain)|])
                && |Payload(chain[|old(chain)|])| == d + pad - BUF_HDR
      ensures buffer != null ==> !IsFragment(buffer[..]) && Labelled(buffer[..], packetType, threadId)
      ensures buffer != null ==> buffer[16..24] == LE(now, 8)
    {
      hide Labels, Labelled, Sized, SizeField, Payload, Flatten, Linked, Core.Valid, Splice, LE;
      used := d + pad;
      skipped := buffer[d..used];
      assert buffer[BUF_HDR..used] == buffer[BUF_HDR..d] + skipped;
      LinkedLent(fragments, chain, core.lent);
      CloseTail(buffer[1], used, now);
      if BUFFER_SIZE - used < minRoom {
        LinkedSnoc(fragments, chain, core.lent, buffer);
        LabelsSnoc(chain, buffer[..], packetType, threadId);
        FlattenSnoc(chain, buffer[..]);
        fragments, chain, buffer, used := fragments + [buffer], chain + [buffer[..]], null, 0;
      }
    }

    /** What has been handed over and what is held make up the whole stream. */
    lemma AllHeld()
      ensures Flatten(past + HeldBytes()) == Total()
    {
      hide Payload;
      FlattenConcat(past, HeldBytes());
      if buffer != null {
        FlattenSnoc(chain, buffer[..]);
      } else {
        assert chain + [] == chain;
      }
    }

    /** Every buffer this writer has handed over or holds says what it is and whose. */
    lemma AllLabelled()
      requires Settled()
      ensures Labels(past + HeldBytes(), packetType, threadId)
    {
      hide Labelled, Linked, Core.Valid, SizeField, IsFragment;
      if buffer != null {
        LabelsSnoc(chain, buffer[..], packetType, threadId);
      }
    }

    /** Moves everything held to io, closed buffers first, then the tail. */
    method Pull(io: seq<array<byte>>) returns (out: seq<array<byte>>)
      requires Settled()
      modifies this`fragments, this`buffer, this`chain, this`used, this`past
      ensures Settled() && fragments == [] && chain == [] && buffer == null
      ensures out == io + old(fragments) + (if old(buffer) == null then [] else [old(buffer)])
      ensures past == old(past + HeldBytes()) && Total() == old(Total()) && Delivered() == Total()
    {
      hide Labels, Labelled, Sized, SizeField, Payload, Linked, Core.Valid, Begins, Flatten, IsFragment;
      out := io;
      ghost var held := HeldBytes();
      AllHeld();
      AllLabelled();
      LabelsFront(chain, 0, packetType, threadId);
      while fragments != []
        invariant out + fragments == io + old(fragments)
        modifies this`fragments
        decreases |fragments|
      {
        out := out + [fragments[0]];
        fragments := fragments[1..];
      }
      assert out == io + old(fragments);
      if buffer != null {
        out := out + [buffer];
        buffer, used := null, 0;
      }
      chain, past := [], past + held;
      NoLinks(core.lent);
      NoBytes();
      assert Stream() == [] && Total() == Delivered() + [];
    }

    /** Rolls the record back: its buffers, including the one it began in, go
        back to the core, newest first. */
    method Discard(mark: nat)
      requires WF() && buffer == null && mark <= |fragments|
      modifies this`fragments, this`chain, this`used, this`dropped, core
      ensures WF() && fragments == old(fragments[..mark]) && mark <= |old(chain)| && chain == old(chain[..mark])
      ensures Shot().Others() == old(Shot().Others()) && used == 0 && dropped == old(dropped) + 1
      ensures core.Avail() == old(core.Avail()) + |old(fragments)| - mark
      ensures core.free == old(core.free) + Backwards(old(fragments[mark..]))
    {
      hide Labels, Labelled, Sized, Linked, Core.Valid, Core.Avail, Backwards;
      LinkedLent(fragments, chain, core.lent);
      BackwardsMore(core.free, fragments, |fragments|);
      while |fragments| > mark
        invariant mark <= |fragments| <= |old(fragments)| && |chain| == |fragments| && WF()
        invariant fragments == old(fragments)[..|fragments|] && chain == old(chain)[..|fragments|]
        invariant Shot().Others() == old(Shot().Others())
        invariant core.Avail() + |fragments| == old(core.Avail()) + |old(fragments)|
        invariant core.free == old(core.free) + Backwards(old(fragments)[|fragments|..])
        modifies this`fragments, this`chain, core
        decreases |fragments|
      {
        LinkedPop(fragments, chain, core.lent);
        LabelsFront(chain, |fragments| - 1, packetType, threadId);
        var n := |fragments| - 1;
        var b := fragments[n];
        ghost var v := Shot();
        BackwardsMore(old(core.free), old(fragments), n);
        fragments, chain := fragments[..n], chain[..n];
        core.ReleaseBuffer(b);
        PopOthers(v, Shot(), n);
      }
      used := 0;
      dropped := dropped + 1;
    }

    /** The window in which send waits for a buffer with the writer unlocked: the
        worker may drain this writer and recycle what it took. */
    method Yield(pulled: bool)
      requires Settled() && buffer == null
      modifies this`fragments, this`buffer, this`chain, this`used, this`past, core
      ensures Settled() && buffer == null && Total() == old(Total()) && past + chain == old(past + chain)
      ensures fragments == (if pulled then [] else old(fragments)) && chain == (if pulled then [] else old(chain))
      ensures Shot().Others() == old(Shot().Others())
      ensures core.Stock() == old(core.Stock()) + (if pulled then old(Shot().Held()) else {})
      ensures core.lent <= old(core.lent)
      ensures core.Avail() == old(core.Avail()) + if pulled then |old(fragments)| else 0
    {
      hide Labels, Labelled, Sized, SizeField, Payload, Flatten, Linked, Core.Valid, Core.Stock, Begins;
      if pulled {
        ghost var links := chain;
        LinkedLent(fragments, chain, core.lent);
        var out := Pull([]);
        assert out == old(fragments);
        while out != []
          invariant core.Valid() && Linked(out, links, core.lent) && |links| == |out|
          invariant core.lent - (set f <- out) == old(core.lent) - (set f <- old(fragments))
          invariant core.lent <= old(core.lent) && core.Avail() + |out| == old(core.Avail()) + |old(fragments)|
          invariant core.Stock() + (set f <- out) == old(core.Stock()) + (set f <- old(fragments))
          modifies core
          decreases |out|
        {
          LinkedShift(out, links, core.lent);
          core.ReleaseBuffer(out[0]);
          out, links := out[1..], links[1..];
        }
        NoLinks(core.lent);
        assert Shot().Held() == {} && (set f <- out) == {};
      }
    }

    /** Is the tail kept for a record that needs this much room? */
    ghost predicate Keeps(need: nat)
      reads this
    {
      buffer != null && used <= BUFFER_SIZE && BUFFER_SIZE - used >= need
    }

    /** Where the next record starts: mz_buf_used once a buffer is in place. */
    ghost function StartAt(need: nat): nat
      reads this
    {
      if Keeps(need) then used else BUF_HDR
    }

    /** The write position, 0 when there is no tail. */
    ghost function Pos(): nat
      reads this
    {
      if buffer == null then 0 else used
    }

    /** The closed buffers ahead of the next record. */
    ghost function Ahead(need: nat, pulled: bool): seq<array<byte>>
      reads this
    {
      if Keeps(need) then fragments
      else if pulled then []
      else if buffer == null then fragments
      else fragments + [buffer]
    }

    ghost function AheadBytes(need: nat, pulled: bool): seq<seq<byte>>
      reads this, buffer
    {
      if Keeps(need) then chain
      else if pulled then []
      else if buffer == null then chain
      else chain + [buffer[..]]
    }

    /** Buffers to be had when the next record looks for a tail. */
    ghost function AvailAt(need: nat, pulled: bool): nat
      reads this, core
    {
      core.Avail() + if pulled && !Keeps(need) then |Ahead(need, false)| else 0
    }

    /** Every buffer a record may be written to. */
    ghost function Reach(handed: array?<byte>): set<array<byte>>
      reads this, core
    {
      Area() + (set f <- fragments) + if handed == null then {} else {handed}
    }

    /** Moves a tail with too little room to the closed buffers. */
    method ParkFull()
      requires Settled() && buffer != null
      modifies this`fragments, this`buffer, this`chain
      ensures Settled() && buffer == null && Total() == old(Total()) && Shot().Others() == old(Shot().Others())
      ensures fragments == old(fragments) + [old(buffer)] && chain == old(chain) + [old(buffer[..])]
    {
      hide Labels, Labelled, SizeField, Payload, Flatten, Linked, Core.Valid, Begins;
      LinkedLent(fragments, chain, core.lent);
      LinkedSnoc(fragments, chain, core.lent, buffer);
      LabelsSnoc(chain, buffer[..], packetType, threadId);
      FlattenSnoc(chain, buffer[..]);
      fragments, chain, buffer := fragments + [buffer], chain + [buffer[..]], null;
      assert Shot().Held() == old(Shot().Held());
      assert Stream() == old(Stream());
    }

    /** Blocks for a tail; the writer is unlocked meanwhile. */
    method AcquireTail(handed: array?<byte>, pulled: bool, now: nat) returns (ready: bool)
      requires Settled() && buffer == null
      requires handed != null ==> handed.Length == BUFFER_SIZE && handed !in core.lent && handed !in core.Stock()
      modifies this`fragments, this`buffer, this`chain, this`used, this`past, this`dropped, core, Reach(handed)
      ensures Settled() && Total() == old(Total()) && Shot().Others() == old(Shot().Others())
      ensures past + chain == old(past + chain)
      ensures fragments == (if pulled then [] else old(fragments)) && chain == (if pulled then [] else old(chain))
      ensures forall b <- Area() :: b in old(Reach(handed)) || fresh(b)
      ensures ready <==> buffer != null
      ensures ready ==> used == BUF_HDR && dropped == old(dropped)
      ensures !ready ==> dropped == old(dropped) + 1
      ensures !ready <==> handed == null && old(core.Avail()) + (if pulled then |old(fragments)| else 0) == 0
      ensures core.Avail() == OneLess(old(core.Avail()) + if pulled then |old(fragments)| else 0)
    {
      hide Labels, Labelled, Sized, SizeField, Payload, Flatten, Linked, Core.Valid, Core.Stock, Core.Avail, Begins;
      hide IsFragment, FirstFree;
      LinkedLent(fragments, chain, core.lent);
      Yield(pulled);
      LinkedLent(fragments, chain, core.lent);
      ghost var v := Shot();
      var b := core.AcquireWait(handed);
      LinkedMore(fragments, chain, v.lent, core.lent);
      ready := b != null;
      if !ready {
        dropped := dropped + 1;
        return;
      }
      StartTail(b, now);
      assert Shot().Held() == v.Held() + {b};
    }

    /** Makes sure there is a tail with room for need more bytes. */
    method BeginRecord(need: nat, handed: array?<byte>, pulled: bool, now: nat) returns (ready: bool)
      requires Settled() && need <= BUFFER_SIZE - BUF_HDR
      requires handed != null ==> handed.Length == BUFFER_SIZE && handed !in core.lent && handed !in core.Stock()
      modifies this`fragments, this`buffer, this`chain, this`used, this`past, this`dropped, core, Reach(handed)
      ensures Settled() && Total() == old(Total()) && Shot().Others() == old(Shot().Others())
      ensures fragments == old(Ahead(need, pulled)) && chain == old(AheadBytes(need, pulled))
      ensures past + chain == old(past + AheadBytes(need, false))
      ensures forall b <- Area() :: b in old(Reach(handed)) || fresh(b)
      ensures ready <==> buffer != null
      ensures old(buffer != null && BUFFER_SIZE - used >= need) ==>
                buffer == old(buffer) && used == old(used) && fragments == old(fragments)
                && core.Avail() == old(core.Avail())
      ensures old(buffer == null || BUFFER_SIZE - used < need) ==> buffer == null || used == BUF_HDR
      ensures ready ==> used == old(StartAt(need)) && BUFFER_SIZE - used >= need && dropped == old(dropped)
      ensures !ready ==> dropped == old(dropped) + 1
      ensures !ready <==> old(!Keeps(need) && AvailAt(need, pulled) == 0) && handed == null
      ensures core.Avail() == old(if Keeps(need) then AvailAt(need, pulled) else OneLess(AvailAt(need, pulled)))
    {
      hide Labels, Labelled, Sized, SizeField, Payload, Flatten, Linked, Core.Valid;
      hide Core.Stock, Begins, Stream, View.Others;
      if buffer != null && BUFFER_SIZE - used < need {
        ParkFull();
        assert Reach(handed) == old(Reach(handed));
        ready := AcquireTail(handed, pulled, now);
      } else if buffer == null {
        ready := AcquireTail(handed, pulled, now);
      } else {
        ready := true;
      }
    }

    ghost function Others(): set<array<byte>>
      reads this, core
    {
      Shot().Others()
    }

    lemma OpenIsStream()
      requires Settled() && buffer != null
      ensures Open(used) == Stream()
    {
      hide Labels, Labelled, Flatten, Linked, Core.Valid, Begins;
    }

    /** Writes header, arguments and attributes at the tail. When the core runs
        out of buffers the chain is left as it stands, with no tail. */
    method WriteBody(r: Record, isStr: seq<bool>)
      returns (ok: bool, d: nat, argsSize: nat, attrsSize: nat, count: nat, ghost h: seq<byte>, ghost c: Cursor)
      requires Writing(used) && used + ITEM_HDR <= BUFFER_SIZE && ValidRecord(r) && |isStr| <= MAX_ATTRS
      modifies this`fragments, this`buffer, this`chain, this`used, core, Area()
      ensures WF() && Grew(old(Shot()), Shot(), old(used) + ITEM_HDR, d) && fresh(Area() - old(Area()))
      ensures ok <==> buffer != null
      ensures ok ==> Writing(d) && |h| == ITEM_HDR && Drafted(h, r, threadId)
      ensures ok ==> Open(d) == old(Open(used)) + h + (ArgsBytes(r.args) + AttrsBytes(ResolveAll(r.attrs, isStr)))
      ensures ok ==> argsSize == |ArgsBytes(r.args)| && attrsSize == |AttrsBytes(ResolveAll(r.attrs, isStr))|
      ensures ok ==> count == |ResolveAll(r.attrs, isStr)|
      ensures AllFit(BodyChunks(r, isStr))
      ensures Turned(old(Shot()), Shot(), Cursor(old(used) + ITEM_HDR, 0, 0),
                     RecordEnd(old(used), BodyChunks(r, isStr)))
      ensures ok ==> c == RecordEnd(old(used), BodyChunks(r, isStr)) && c.off == d
    {
      hide Labels, Labelled, Sized, SizeField, Payload, Flatten, Linked, Core.Valid, Grew, LE, Place, PlaceAll, Drafted;
      hide ArgsBytes, AttrsBytes, ArgsChunks, AttrsChunks, ResolveAll, Core.Avail, IsFragment;
      ghost var v, start := Shot(), used;
      h := WriteHeader(r);
      c := Cursor(used + ITEM_HDR, 0, 0);
      d := used + ITEM_HDR;
      attrsSize, count := 0, 0;
      ArgsFit(r.args);
      ResolvedFit(r.attrs, isStr);
      PlaceAllConcat(c, ArgsChunks(r.args), AttrsChunks(ResolveAll(r.attrs, isStr)));
      PlaceAllTurns(c, ArgsChunks(r.args), AttrsChunks(ResolveAll(r.attrs, isStr)));
      ok, d, argsSize, c := WriteArgs(d, r.args, r.timestamp, c);
      if !ok {
        return;
      }
      ghost var w, was := Shot(), d;
      ok, d, count, attrsSize, c := WriteAttrs(d, r.attrs, isStr, r.timestamp, c);
      GrewTrans(v, w, Shot(), start + ITEM_HDR, was, d);
    }

    /** Completes a record whose body ends at d, provided its pad fits. */
    method CompleteRecord(hb: array<byte>, ghost v: View, ho: nat, d: nat, r: Record, isStr: seq<bool>,
                          argsSize: nat, attrsSize: nat, count: nat, ghost head: seq<byte>, ghost h: seq<byte>)
      returns (ghost bytes: seq<byte>)
      requires Writing(d) && Grew(v, Shot(), ho + ITEM_HDR, d) && v.buffer == hb && BUF_HDR <= ho
      requires |h| == ITEM_HDR && ValidRecord(r) && Drafted(h, r, threadId)
      requires |head| == |Flatten(v.chain)| + (ho - BUF_HDR)
      requires Open(d) == head + h + (ArgsBytes(r.args) + AttrsBytes(ResolveAll(r.attrs, isStr)))
      requires argsSize == |ArgsBytes(r.args)| && attrsSize == |AttrsBytes(ResolveAll(r.attrs, isStr))|
      requires count == |ResolveAll(r.attrs, isStr)|
      requires d + Pad(ITEM_HDR + argsSize + attrsSize) <= BUFFER_SIZE
      modifies this`fragments, this`buffer, this`chain, this`used, hb, buffer
      ensures WF() && Others() == old(Others())
      ensures Encodes(bytes, ItemOf(r, threadId, isStr)) && Stream() == head + bytes
      ensures buffer != null ==>
                used == d + Pad(ITEM_HDR + argsSize + attrsSize) && BUFFER_SIZE - used >= MIN_SPACE
                && SizeField(buffer[..]) == used && !IsFragment(buffer[..])
                && Labelled(buffer[..], packetType, threadId)
      ensures Flagged(v.chain, chain, buffer != null)
      ensures buffer == null ==>
                used == 0 && BUFFER_SIZE - (d + Pad(ITEM_HDR + argsSize + attrsSize)) < MIN_SPACE
    {
      hide Labels, Labelled, Sized, SizeField, Payload, Flatten, Linked, Core.Valid, Splice, LE, Grew;
      hide Encodes, HoldsItemHdr, Drafted, Patched;
      hide ArgsBytes, AttrsBytes, ResolveAll, ItemOf, Flagged, IsFragment, View.Others, Labelled, ValidRecord, Pad;
      ghost var start := Shot();
      var size := ITEM_HDR + argsSize + attrsSize;
      var pad := Pad(size);
      ghost var it := ItemOf(r, threadId, isStr);
      ItemShape(r, threadId, isStr, argsSize, attrsSize, count, size);
      PatchSizes(hb, v, ho, d, argsSize % 0x1_0000, count % 256, (size + pad) % 0x1_0000, head, h, it.args + it.attrs);
      ghost var p := Patched(h, argsSize % 0x1_0000, count % 256, (size + pad) % 0x1_0000);
      HeaderDone(h, r, threadId, argsSize % 0x1_0000, count % 256, (size + pad) % 0x1_0000);
      GrewFlagged(v, Shot(), ho + ITEM_HDR, d);
      ghost var done := chain;
      ghost var skipped := EndRecord(d, pad, MIN_SPACE, r.timestamp);
      SameOthers(start, Shot());
      if buffer == null {
        FlaggedLast(v.chain, done, chain);
      }
      EncodesJoin(p, skipped, it);
      bytes := p + (it.args + it.attrs) + skipped;
    }

    /** The record is in: closes its books. */
    method Accept(hb: array<byte>, ghost v: View, ho: nat, d: nat, r: Record, isStr: seq<bool>,
                  argsSize: nat, attrsSize: nat, count: nat, ghost head: seq<byte>, ghost h: seq<byte>)
      returns (ghost bytes: seq<byte>)
      requires Writing(d) && Grew(v, Shot(), ho + ITEM_HDR, d) && v.buffer == hb && BUF_HDR <= ho
      requires |h| == ITEM_HDR && ValidRecord(r) && Drafted(h, r, threadId)
      requires |head| == |Flatten(v.chain)| + (ho - BUF_HDR)
      requires Open(d) == head + h + (ArgsBytes(r.args) + AttrsBytes(ResolveAll(r.attrs, isStr)))
      requires argsSize == |ArgsBytes(r.args)| && attrsSize == |AttrsBytes(ResolveAll(r.attrs, isStr))|
      requires count == |ResolveAll(r.attrs, isStr)|
      requires d + Pad(ITEM_HDR + argsSize + attrsSize) <= BUFFER_SIZE
      requires Begins(Delivered() + head, kept)
      modifies this`fragments, this`buffer, this`chain, this`used, this`sent, this`kept, hb, buffer
      ensures Valid() && Others() == old(Others())
      ensures Encodes(bytes, ItemOf(r, threadId, isStr)) && Total() == Delivered() + head + bytes
      ensures sent == old(sent) + [ItemOf(r, threadId, isStr)]
      ensures kept == old(kept) + (if |Delivered() + head| == Extent(old(kept))
                                      && ItemOf(r, threadId, isStr).Padded() <= UINT16_MAX
                                   then [ItemOf(r, threadId, isStr)] else [])
      ensures |Delivered() + head| == Extent(old(kept)) && ItemOf(r, threadId, isStr).Padded() <= UINT16_MAX ==>
                Intact()
      ensures var end := d + Pad(ITEM_HDR + argsSize + attrsSize);
        if BUFFER_SIZE - end < MIN_SPACE then buffer == null else buffer != null && used == end
      ensures Flagged(v.chain, chain, buffer != null)
    {
      hide Labels, Labelled, Sized, SizeField, Payload, Flatten, Linked, Core.Valid;
      hide Splice, LE, Grew, Encodes, Begins, Drafted, Flagged;
      hide IsFragment;
      hide ArgsBytes, AttrsBytes, ResolveAll, View.Others, ItemOf;
      ghost var it := ItemOf(r, threadId, isStr);
      bytes := CompleteRecord(hb, v, ho, d, r, isStr, argsSize, attrsSize, count, head, h);
      BeginsMore(Delivered() + head, kept, bytes, it);
      assert Delivered() + (head + bytes) == Delivered() + head + bytes;
      assert |bytes| == it.Padded() by { EncodedSize(bytes, it); }
      if |Delivered() + head| == Extent(kept) && it.Padded() <= UINT16_MAX {
        kept := kept + [it];
      }
      sent := sent + [it];
    }

    /** Stamps size and stop time of a tail whose write position is past its end. */
    method StampTail(d: nat, n: nat, now: nat)
      requires Writing(d) && n < 0x1_0000
      modifies buffer
      ensures Writing(d) && Open(d) == old(Open(d)) && SizeField(buffer[..]) == n && buffer[16..24] == LE(now, 8)
    {
      hide Labels, Labelled, Flatten, Linked, Core.Valid, Splice, LE, FromLE;
      ghost var b := buffer[..];
      LabelSplice(b, 2, LE(n, 2), packetType, threadId);
      Poke(buffer, 2, LE(n, 2));
      ghost var c := buffer[..];
      LabelSplice(c, 16, LE(now, 8), packetType, threadId);
      Poke(buffer, 16, LE(now, 8));
      SpliceRegions(b, 2, LE(n, 2), 1, 2);
      SpliceRegions(c, 16, LE(now, 8), 1, 2);
      SpliceRegions(c, 16, LE(now, 8), 2, 4);
      SpliceRegions(b, 2, LE(n, 2), BUF_HDR, d);
      SpliceRegions(c, 16, LE(now, 8), BUF_HDR, d);
      assert buffer[..][1..2] == b[1..2] && buffer[..][2..4] == LE(n, 2);
      assert buffer[..][1] == buffer[..][1..2][0] && b[1] == b[1..2][0];
      Pow256Values();
      ReadBackLE(n, 2);
    }

    /** The record is in but its pad reaches past the end of the tail: its fields
        are patched as ever, and the tail is kept. */
    method Overrun(hb: array<byte>, ghost v: View, ho: nat, d: nat, r: Record, isStr: seq<bool>,
                   argsSize: nat, attrsSize: nat, count: nat, ghost head: seq<byte>, ghost h: seq<byte>)
      returns (ghost bytes: seq<byte>)
      requires Writing(d) && Grew(v, Shot(), ho + ITEM_HDR, d) && v.buffer == hb && BUF_HDR <= ho
      requires |h| == ITEM_HDR && ValidRecord(r) && Drafted(h, r, threadId)
      requires |head| == |Flatten(v.chain)| + (ho - BUF_HDR)
      requires Open(d) == head + h + (ArgsBytes(r.args) + AttrsBytes(ResolveAll(r.attrs, isStr)))
      requires argsSize == |ArgsBytes(r.args)| && attrsSize == |AttrsBytes(ResolveAll(r.attrs, isStr))|
      requires count == |ResolveAll(r.attrs, isStr)|
      modifies this`chain, this`used, hb, buffer
      ensures Writing(d) && Others() == old(Others()) && used == d + Pad(ITEM_HDR + argsSize + attrsSize)
      ensures Bare(bytes, ItemOf(r, threadId, isStr)) && Open(d) == head + bytes
      ensures SizeField(buffer[..]) == used && buffer[16..24] == LE(r.timestamp, 8)
    {
      hide Labels, Labelled, SizeField, Payload, Flatten, Linked, Core.Valid, Splice, LE, Grew;
      hide Bare, HoldsItemHdr, Drafted, Patched, ArgsBytes, AttrsBytes, ResolveAll, ItemOf, IsFragment;
      var size := ITEM_HDR + argsSize + attrsSize;
      var pad := Pad(size);
      ghost var it := ItemOf(r, threadId, isStr);
      ItemShape(r, threadId, isStr, argsSize, attrsSize, count, size);
      GrewPrefix(v, Shot(), ho + ITEM_HDR, d);
      PatchSizes(hb, v, ho, d, argsSize % 0x1_0000, count % 256, (size + pad) % 0x1_0000, head, h, it.args + it.attrs);
      GrewPrefix(v, Shot(), ho + ITEM_HDR, d);
      ghost var p := Patched(h, argsSize % 0x1_0000, count % 256, (size + pad) % 0x1_0000);
      HeaderDone(h, r, threadId, argsSize % 0x1_0000, count % 256, (size + pad) % 0x1_0000);
      BareJoin(p, it);
      used := d + pad;
      StampTail(d, used, r.timestamp);
      bytes := p + (it.args + it.attrs);
      assert head + p + (it.args + it.attrs) == head + bytes;
    }

    /** The record is out: everything past the mark goes back. */
    method Undo(mark: nat, ghost v: View, ho: nat, ghost d: nat, ghost head: seq<byte>)
      requires WF() && buffer == null && Grew(v, Shot(), ho + ITEM_HDR, d) && mark == |v.fragments|
      requires BUF_HDR <= ho && Flatten(v.chain) <= head && |head| == |Flatten(v.chain)| + (ho - BUF_HDR)
      requires Begins(Delivered() + head, kept)
      modifies this`fragments, this`chain, this`used, this`dropped, this`kept, core
      ensures Valid() && Others() == old(Others()) && used == 0 && dropped == old(dropped) + 1
      ensures fragments == v.fragments && chain == v.chain
      ensures core.Avail() == old(core.Avail()) + |old(fragments)| - mark
      ensures Total() <= Delivered() + head && |Delivered() + head| - |Total()| == ho - BUF_HDR
      ensures kept == FitWhole(old(kept), |Total()|) && (ho == BUF_HDR ==> kept == old(kept))
    {
      hide Labels, Labelled, Sized, SizeField, Payload, Flatten, Linked, Core.Valid, Begins, Grew, View.Others;
      GrewPrefix(v, Shot(), ho + ITEM_HDR, d);
      Discard(mark);
      assert Total() == Delivered() + Flatten(v.chain);
      assert head == Flatten(v.chain) + head[|Flatten(v.chain)|..];
      assert Delivered() + head == Total() + head[|Flatten(v.chain)|..];
      BeginsCut(Delivered() + head, kept, |Total()|);
      if ho == BUF_HDR {
        BeginsFits(Delivered() + head, kept);
        AllWhole(kept, |Total()|);
      }
      assert (Delivered() + head)[..|Total()|] == Total();
      kept := FitWhole(kept, |Total()|);
    }

    /** The end of a record whose body ends at d: it is accepted exactly if its pad fits. */
    method Finish(hb: array<byte>, ghost v: View, ho: nat, d: nat, r: Record, isStr: seq<bool>,
                  argsSize: nat, attrsSize: nat, count: nat, ghost head: seq<byte>, ghost h: seq<byte>)
      returns (ghost why: Outcome, ghost bytes: seq<byte>)
      requires Writing(d) && Grew(v, Shot(), ho + ITEM_HDR, d) && v.buffer == hb && BUF_HDR <= ho
      requires |h| == ITEM_HDR && ValidRecord(r) && Drafted(h, r, threadId)
      requires |head| == |Flatten(v.chain)| + (ho - BUF_HDR)
      requires Open(d) == head + h + (ArgsBytes(r.args) + AttrsBytes(ResolveAll(r.attrs, isStr)))
      requires argsSize == |ArgsBytes(r.args)| && attrsSize == |AttrsBytes(ResolveAll(r.attrs, isStr))|
      requires count == |ResolveAll(r.attrs, isStr)|
      requires Begins(Delivered() + head, kept)
      modifies this`fragments, this`buffer, this`chain, this`used, this`sent, this`kept, hb, buffer
      ensures Others() == old(Others())
      ensures var end := d + Pad(ITEM_HDR + argsSize + attrsSize);
        why == (if end <= BUFFER_SIZE then Accepted else Overran)
        && if end <= BUFFER_SIZE && BUFFER_SIZE - end < MIN_SPACE then buffer == null else buffer != null && used == end
      ensures why.Accepted? ==>
                Valid() && Encodes(bytes, ItemOf(r, threadId, isStr)) && Total() == Delivered() + head + bytes
                && sent == old(sent) + [ItemOf(r, threadId, isStr)]
                && kept == old(kept) + (if |Delivered() + head| == Extent(old(kept))
                                           && ItemOf(r, threadId, isStr).Padded() <= UINT16_MAX
                                        then [ItemOf(r, threadId, isStr)] else [])
                && (|Delivered() + head| == Extent(old(kept)) && ItemOf(r, threadId, isStr).Padded() <= UINT16_MAX
                    ==> Intact())
                && Flagged(v.chain, chain, buffer != null)
      ensures why.Overran? ==>
                Writing(d) && Bare(bytes, ItemOf(r, threadId, isStr))
                && Delivered() + Open(d) == Delivered() + head + bytes
                && SizeField(buffer[..]) == used && sent == old(sent) && kept == old(kept)
    {
      hide Labels, Labelled, Sized, SizeField, Payload, Flatten, Linked, Core.Valid;
      hide Splice, LE, Grew, Encodes, Begins, Drafted, Flagged, IsFragment, Bare;
      hide ArgsBytes, AttrsBytes, ResolveAll, View.Others, ItemOf, Pad;
      if d + Pad(ITEM_HDR + argsSize + attrsSize) > BUFFER_SIZE {
        why := Overran;
        bytes := Overrun(hb, v, ho, d, r, isStr, argsSize, attrsSize, count, head, h);
        assert Delivered() + (head + bytes) == Delivered() + head + bytes;
      } else {
        why := Accepted;
        bytes := Accept(hb, v, ho, d, r, isStr, argsSize, attrsSize, count, head, h);
      }
    }

    /** Serializes r at a tail that has room for its header: the part of send that
        runs with the writer locked throughout. */
    method Serialize(r: Record, isStr: seq<bool>) returns (ghost why: Outcome, ok: bool, ghost bytes: seq<byte>)
      requires Valid() && buffer != null && BUFFER_SIZE - used >= MIN_SPACE + ITEM_HDR
      requires ValidRecord(r) && |isStr| <= MAX_ATTRS
      modifies this`fragments, this`buffer, this`chain, this`used, this`dropped, this`sent, this`kept, core, Area()
      ensures why.Accepted? || why.Overran? || why.RolledBack?
      ensures ok <==> !why.RolledBack?
      ensures Others() == old(Others())
      ensures !why.Overran? ==> Valid()
      ensures dropped == old(dropped) + if why.RolledBack? then 1 else 0
      ensures AllFit(BodyChunks(r, isStr))
      ensures ok <==> RecordEnd(old(used), BodyChunks(r, isStr)).rotations <= old(core.Avail())
      ensures core.Avail() == old(core.Avail())
                + (if ok then 0 else 1) - (if ok then RecordEnd(old(used), BodyChunks(r, isStr)).rotations else 0)
      ensures ok ==> (why.Accepted? <==> PadFits(old(used), BodyChunks(r, isStr)))
      ensures ok ==>
        var end := RecordEnd(old(used), BodyChunks(r, isStr)).off + Pad(RecordSize(BodyChunks(r, isStr)));
        if end <= BUFFER_SIZE && BUFFER_SIZE - end < MIN_SPACE then buffer == null else buffer != null && used == end
      ensures why.Accepted? ==>
                Encodes(bytes, ItemOf(r, threadId, isStr)) && Total() == old(Total()) + bytes
                && sent == old(sent) + [ItemOf(r, threadId, isStr)]
                && kept == old(kept) + (if old(Intact()) && ItemOf(r, threadId, isStr).Padded() <= UINT16_MAX
                                        then [ItemOf(r, threadId, isStr)] else [])
                && (old(Intact()) && ItemOf(r, threadId, isStr).Padded() <= UINT16_MAX ==> Intact())
                && Flagged(old(chain), chain, buffer != null)
      ensures why.Overran? ==>
                var d := RecordEnd(old(used), BodyChunks(r, isStr)).off;
                Bare(bytes, ItemOf(r, threadId, isStr)) && sent == old(sent) && kept == old(kept)
                && Writing(d) && Delivered() + Open(d) == old(Total()) + bytes && SizeField(buffer[..]) == used
      ensures why.RolledBack? ==>
                buffer == null && used == 0 && sent == old(sent)
                && fragments == old(fragments) && chain == old(chain)
                && Total() <= old(Total()) && |old(Total())| - |Total()| == old(used) - BUF_HDR
                && kept == FitWhole(old(kept), |Total()|) && (old(used) == BUF_HDR ==> kept == old(kept))
    {
      hide Labels, Labelled, Sized, SizeField, Payload, Flatten, Linked, Core.Valid;
      hide Core.Stock, Splice, LE, Grew, Encodes, Begins, Stream;
      hide ArgsBytes, AttrsBytes, ArgsChunks, AttrsChunks, ResolveAll, View.Others, Drafted, BodyChunks;
      hide Core.Avail, Flagged, IsFragment;
      hide ItemOf, RecordEnd, RecordSize, Pad, Bare, FitWhole, AllFit;
      var hb, ho, mark := buffer, used, |fragments|;
      ghost var v, head := Shot(), Open(used);
      OpenIsStream();
      LinkedLent(fragments, chain, core.lent);
      var d, argsSize, attrsSize, count;
      ghost var h, c;
      ok, d, argsSize, attrsSize, count, h, c := WriteBody(r, isStr);
      bytes := [];
      GrewPrefix(v, Shot(), ho + ITEM_HDR, d);
      if !ok {
        why := RolledBack;
        Undo(mark, v, ho, d, head);
        return;
      }
      BodySize(r, threadId, isStr);
      ItemShape(r, threadId, isStr, argsSize, attrsSize, count, ITEM_HDR + argsSize + attrsSize);
      why, bytes := Finish(hb, v, ho, d, r, isStr, argsSize, attrsSize, count, head, h);
    }

    /** send: logs r, or says why not. handed is the buffer a blocking wait ends
        with (null only at shutdown), pulled whether the worker drained this
        writer during that wait. */
    method Send(r: Record, minLevel: nat, hasDesc: bool, isStr: seq<bool>, handed: array?<byte>, pulled: bool)
      returns (ok: bool, ghost why: Outcome, ghost bytes: seq<byte>)
      requires Valid() && ValidRecord(r) && |isStr| <= MAX_ATTRS
      requires handed != null ==> handed.Length == BUFFER_SIZE && handed !in core.lent && handed !in core.Stock()
      modifies this`fragments, this`buffer, this`chain, this`used, this`past, this`dropped, this`sent, this`kept
      modifies core, Reach(handed)
      ensures ok <==> why.Accepted? || why.Overran?
      ensures Others() == old(Others())
      ensures !why.Overran? ==> Valid()
      ensures why.Gated? <==> r.level < minLevel
      ensures why.Stopped? <==>
                !why.Gated? && handed == null && old(!Keeps(NEED) && AvailAt(NEED, pulled) == 0)
      ensures why.NoDescriptor? <==> !why.Gated? && !why.Stopped? && !hasDesc
      ensures dropped == old(dropped) + if why.Stopped? || why.RolledBack? then 1 else 0
      ensures AllFit(BodyChunks(r, isStr))
      ensures var spare := old(if Keeps(NEED) then AvailAt(NEED, pulled) else OneLess(AvailAt(NEED, pulled)));
        why.RolledBack? ==> RecordEnd(old(StartAt(NEED)), BodyChunks(r, isStr)).rotations > spare
                            && core.Avail() == spare + 1
      ensures var spare := old(if Keeps(NEED) then AvailAt(NEED, pulled) else OneLess(AvailAt(NEED, pulled)));
        ok ==> spare - RecordEnd(old(StartAt(NEED)), BodyChunks(r, isStr)).rotations == core.Avail()
      ensures ok ==> (why.Accepted? <==> PadFits(old(StartAt(NEED)), BodyChunks(r, isStr)))
      ensures ok ==> Pos() == UsedAfter(old(Pos()), BodyChunks(r, isStr))
      ensures ok ==> old(StartAt(NEED)) == StartOffset(old(Pos()))
      ensures ok && old(Pos()) % 8 == 0 && RecordEnd(old(StartAt(NEED)), BodyChunks(r, isStr)).lost % 8 == 0 ==>
                why.Accepted? && Pos() % 8 == 0
      ensures why.Accepted? ==>
                Encodes(bytes, ItemOf(r, threadId, isStr)) && Total() == old(Total()) + bytes
                && sent == old(sent) + [ItemOf(r, threadId, isStr)]
                && kept == old(kept) + (if old(Intact()) && ItemOf(r, threadId, isStr).Padded() <= UINT16_MAX
                                        then [ItemOf(r, threadId, isStr)] else [])
                && (old(Intact()) && ItemOf(r, threadId, isStr).Padded() <= UINT16_MAX ==> Intact())
                && Flagged(old(AheadBytes(NEED, pulled)), chain, buffer != null)
      ensures why.Overran? ==>
                var d := RecordEnd(old(StartAt(NEED)), BodyChunks(r, isStr)).off;
                Bare(bytes, ItemOf(r, threadId, isStr)) && sent == old(sent) && kept == old(kept)
                && Writing(d) && Delivered() + Open(d) == old(Total()) + bytes && SizeField(buffer[..]) == used
      ensures why.Gated? || why.Stopped? || why.NoDescriptor? ==>
                Total() == old(Total()) && sent == old(sent) && kept == old(kept)
      ensures why.RolledBack? ==>
                buffer == null && used == 0 && sent == old(sent)
                && fragments == old(Ahead(NEED, pulled)) && chain == old(AheadBytes(NEED, pulled))
                && Total() <= old(Total()) && |old(Total())| - |Total()| == old(StartAt(NEED)) - BUF_HDR
                && kept == FitWhole(old(kept), |Total()|) && (old(StartAt(NEED)) == BUF_HDR ==> kept == old(kept))
    {
      hide Labels, Labelled, Sized, SizeField, Payload, Flatten, Linked, Core.Valid;
      hide Core.Stock, Core.Avail, Begins, Encodes, Stream;
      hide BodyChunks, ResolveAll, ArgsBytes, AttrsBytes, AllFit, RecordEnd, PadFits, ItemOf, Ahead, AheadBytes, Bare;
      hide View.Others, Flagged, IsFragment;
      why, ok, bytes := Gated, false, [];
      BodyFits(r, isStr);
      if r.level < minLevel {
        return;
      }
      var ready := BeginRecord(NEED, handed, pulled, r.timestamp);
      if !ready {
        why := Stopped;
        return;
      }
      if !hasDesc {
        why := NoDescriptor;
        return;
      }
      why, ok, bytes := Serialize(r, isStr);
      if ok && old(Pos()) % 8 == 0 && RecordEnd(old(StartAt(NEED)), BodyChunks(r, isStr)).lost % 8 == 0 {
        AlignedNext(old(Pos()), BodyChunks(r, isStr));
      }
    }

    /** The reader's view of a run: walking everything this writer produced, in
        hand-over order, yields the kept records first, and nothing else while
        the stream is intact. */
    lemma ReadBack()
      requires Valid()
      ensures |ParseItems(Total())| >= |kept| && (Intact() ==> |ParseItems(Total())| == |kept|)
      ensures forall i :: 0 <= i < |kept| ==> Matches(ParseItems(Total())[i], kept[i])
    {
      hide Begins, Total, ParseItems, Matches, Extent;
      StreamRoundTrip(Total(), kept);
    }

    /** core_push: the destructor hands everything over in one piece. */
    method CorePush(ready: seq<array<byte>>) returns (out: seq<array<byte>>)
      requires Settled()
      modifies this`fragments, this`buffer, this`chain, this`used, this`past
      ensures Settled() && fragments == [] && chain == [] && buffer == null && used == 0
      ensures out == ready + old(fragments) + (if old(buffer) == null then [] else [old(buffer)])
      ensures past == old(past + HeldBytes()) && Total() == old(Total()) && Delivered() == Total()
    {
      hide Labels, Labelled, Sized, SizeField, Payload, Linked, Core.Valid, Begins, Flatten, IsFragment;
      ghost var held := HeldBytes();
      AllHeld();
      AllLabelled();
      LabelsFront(chain, 0, packetType, threadId);
      out := ready;
      if fragments != [] {
        if buffer != null {
          fragments, buffer := fragments + [buffer], null;
        }
        out := out + fragments;
        fragments := [];
      } else if buffer != null {
        out := out + [buffer];
        buffer := null;
      }
      used := 0;
      chain, past := [], past + held;
      NoLinks(core.lent);
      NoBytes();
      assert Stream() == [] && Total() == Delivered() + [];
    }
  }
}
