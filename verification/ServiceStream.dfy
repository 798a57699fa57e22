/** mo_svc_buffers and the code that fills it: svc_reserve and the four
    serialize functions, writing entries in place into pool buffers. */
module ServiceStream {
  import opened Wire
  import opened Layout
  import opened LogWriter
  import opened Service

  /** s_p8_svc_buf. */
  datatype Slot = Slot(buf: array<byte>, used: nat)

  /** The buffers are distinct, on loan, and hold exactly chain. */
  ghost predicate Filled(slots: seq<Slot>, chain: seq<seq<byte>>, lent: set<array<byte>>)
    reads set s <- slots :: s.buf
  {
    |chain| == |slots|
    && (forall i :: 0 <= i < |slots| ==>
          slots[i].buf in lent && slots[i].used <= slots[i].buf.Length == BUFFER_SIZE
          && slots[i].buf[..slots[i].used] == chain[i])
    && (forall i, j :: 0 <= i < j < |slots| ==> slots[i].buf != slots[j].buf)
  }

  lemma FilledSnoc(slots: seq<Slot>, chain: seq<seq<byte>>, lent: set<array<byte>>, b: array<byte>)
    requires Filled(slots, chain, lent) && b !in lent && b.Length == BUFFER_SIZE
    ensures Filled(slots + [Slot(b, 0)], chain + [[]], lent + {b})
  {
  }

  lemma FilledLent(slots: seq<Slot>, chain: seq<seq<byte>>, lent: set<array<byte>>)
    requires Filled(slots, chain, lent)
    ensures |chain| == |slots| && forall s <- slots :: s.buf in lent && s.used <= s.buf.Length == BUFFER_SIZE
  {
  }

  /** The last buffer has been extended by bytes. */
  lemma FilledMore(slots: seq<Slot>, chain: seq<seq<byte>>, lent: set<array<byte>>, was: seq<byte>, n: nat)
    requires slots != [] && |chain| == |slots| && slots[|slots| - 1].buf.Length == BUFFER_SIZE
    requires Filled(slots[..|slots| - 1], chain[..|slots| - 1], lent)
    requires slots[|slots| - 1].buf in lent
    requires forall i :: 0 <= i < |slots| - 1 ==> slots[i].buf != slots[|slots| - 1].buf
    requires slots[|slots| - 1].used == n <= BUFFER_SIZE && slots[|slots| - 1].buf[..n] == chain[|slots| - 1]
    ensures Filled(slots, chain, lent)
  {
  }

  lemma FilledFront(slots: seq<Slot>, chain: seq<seq<byte>>, lent: set<array<byte>>)
    requires Filled(slots, chain, lent) && slots != []
    ensures var n := |slots| - 1;
      |chain| == |slots| && Filled(slots[..n], chain[..n], lent) && slots[n].buf in lent
      && (forall i :: 0 <= i < n ==> slots[i].buf != slots[n].buf)
      && slots[n].used <= slots[n].buf.Length == BUFFER_SIZE && slots[n].buf[..slots[n].used] == chain[n]
  {
  }

  lemma CutAt(s: seq<byte>, end: nat, a: seq<byte>, b: seq<byte>)
    requires end == |a| + |b| <= |s|
    ensures s[..end] == a + b <==> s[..|a|] == a && s[|a|..end] == b
  {
    assert s[..end] == s[..|a|] + s[|a|..end];
  }

  /** The parts of an entry laid out so far. */
  function Laid(d: Desc, k: nat): seq<byte>
    requires k <= |Parts(d)|
  {
    EntryHdr(d) + Fixed(d) + Join(Parts(d)[..k])
  }

  lemma LaidMore(d: Desc, k: nat)
    requires k < |Parts(d)|
    ensures Laid(d, k + 1) == Laid(d, k) + Parts(d)[k]
    ensures |Laid(d, k + 1)| <= Bare(d)
  {
    hide Fixed, Parts, EntryHdr;
    JoinPrefix(Parts(d), k + 1);
    assert Parts(d)[..k + 1][..k] == Parts(d)[..k];
    HdrSize(d);
  }

  lemma HdrSize(d: Desc)
    ensures |EntryHdr(d)| == SVC_HDR
  {
  }

  lemma LaidEnds(d: Desc)
    ensures Laid(d, 0) == EntryHdr(d) + Fixed(d) && |Laid(d, 0)| <= Bare(d)
    ensures |Laid(d, |Parts(d)|)| == Bare(d) && Entry(d) == Laid(d, |Parts(d)|) + Zeros(Tail(d))
  {
    hide Fixed, Parts, EntryHdr, Tail;
    HdrSize(d);
    assert Parts(d)[..0] == [] && Parts(d)[..|Parts(d)|] == Parts(d);
  }

  lemma {:induction false} JoinPrefix(ps: seq<seq<byte>>, k: nat)
    requires k <= |ps|
    ensures |Join(ps[..k])| <= |Join(ps)|
    decreases |ps|
  {
    if k == |ps| {
      assert ps[..k] == ps;
    } else {
      JoinPrefix(ps[..|ps| - 1], k);
      assert ps[..|ps| - 1][..k] == ps[..k];
    }
  }

  /** An entry under construction: front, then done, then zeros up to end. */
  ghost predicate Progress(s: seq<byte>, front: seq<byte>, done: seq<byte>, end: nat) {
    |front| + |done| <= end <= |s| && s[..|front|] == front && s[|front|..|front| + |done|] == done
    && s[|front| + |done|..end] == Zeros(end - |front| - |done|)
  }

  /** Copying src over the first zeros. */
  lemma Overlay(s: seq<byte>, front: seq<byte>, done: seq<byte>, end: nat, src: seq<byte>)
    requires Progress(s, front, done, end) && |front| + |done| + |src| <= end
    ensures Progress(Splice(s, |front| + |done|, src), front, done + src, end)
  {
    var pos := |front| + |done|;
    var c := Splice(s, pos, src);
    forall k | pos + |src| <= k < end ensures c[k] == 0 {
      assert s[pos..end][k - pos] == 0;
    }
    forall k | 0 <= k < |done| ensures c[|front| + k] == done[k] {
      assert s[|front|..pos][k] == done[k];
    }
  }

  lemma RoomFor(s: seq<byte>, front: seq<byte>, done: seq<byte>, end: nat, src: seq<byte>)
    requires Progress(s, front, done, end) && |front| + |done| + |src| <= end
    ensures |front| + |done| + |src| <= |s|
  {
  }

  lemma ProgressStart(s: seq<byte>, off: nat, end: nat)
    requires off <= end <= |s| && s[off..end] == Zeros(end - off)
    ensures Progress(s, s[..off], [], end)
  {
  }

  lemma ProgressEnd(s: seq<byte>, front: seq<byte>, done: seq<byte>, end: nat)
    requires Progress(s, front, done, end)
    ensures s[|front|..end] == done + Zeros(end - |front| - |done|) && s[..|front|] == front
  {
  }

  function Bufs(slots: seq<Slot>): (r: seq<array<byte>>)
    ensures |r| == |slots| && forall i :: 0 <= i < |slots| ==> r[i] == slots[i].buf
  {
    seq(|slots|, i requires 0 <= i < |slots| => slots[i].buf)
  }

  lemma BufsCons(front: seq<array<byte>>, slots: seq<Slot>)
    ensures front + Bufs([]) == front
    ensures slots != [] ==> front + Bufs(slots) == (front + [slots[0].buf]) + Bufs(slots[1..])
  {
    assert slots != [] ==> Bufs(slots) == [slots[0].buf] + Bufs(slots[1..]);
  }

  class Stream {
    const core: Core
    var pending: seq<Slot>             // mo_svc_buffers
    var dropped: nat                   // mu_dropped_svc
    ghost var chain: seq<seq<byte>>    // contents of pending
    ghost var parts: seq<seq<Desc>>    // the descriptors in each pending buffer
    ghost var written: seq<seq<byte>>  // buffers handed to the sink
    ghost var sent: seq<seq<Desc>>     // the descriptors in each of those

    ghost predicate WF()
      reads this, core, set s <- pending :: s.buf
    {
      core.Valid() && Filled(pending, chain, core.lent)
    }

    /** Between calls: every buffer is a whole number of entries. */
    ghost predicate Valid()
      reads this, core, set s <- pending :: s.buf
    {
      WF() && Holds(chain, parts) && Holds(written, sent)
    }

    /** Every descriptor serialized so far. */
    ghost function Kept(): seq<Desc>
      reads this
    {
      Flat(sent) + Flat(parts)
    }

    constructor (core: Core)
      requires core.Valid()
      ensures Valid() && this.core == core && pending == [] && Kept() == [] && dropped == 0
    {
      this.core := core;
      pending, dropped, chain, parts, written, sent := [], 0, [], [], [], [];
    }

    /** svc_acquire_new: never blocks. */
    method AcquireNew() returns (ok: bool)
      requires WF()
      modifies this`pending, this`dropped, this`chain, core
      ensures WF() && ok == (old(core.Avail()) > 0)
      ensures dropped == old(dropped) + (if ok then 0 else 1)
      ensures !ok ==> pending == old(pending) && chain == old(chain)
      ensures ok ==> |pending| == |old(pending)| + 1 && pending[..|old(pending)|] == old(pending)
                     && pending[|old(pending)|].used == 0 && chain == old(chain) + [[]]
                     && (forall s <- old(pending) :: s.buf != pending[|old(pending)|].buf)
      ensures ok ==> pending[|old(pending)|].buf in old(core.Stock()) || fresh(pending[|old(pending)|].buf)
    {
      hide Core.Valid, Core.Avail, Core.Stock, Filled, FirstFree;
      FilledLent(pending, chain, core.lent);
      var b := core.AcquireBuffer();
      if b == null {
        dropped := dropped + 1;
        return false;
      }
      FilledSnoc(pending, chain, core.lent - {b}, b);
      assert core.lent - {b} + {b} == core.lent;
      pending, chain := pending + [Slot(b, 0)], chain + [[]];
      return true;
    }

    /** Does an entry of this size need a buffer of its own to start in? */
    predicate NeedsNew(padded: nat)
      reads this
    {
      pending == [] || pending[|pending| - 1].used + padded > BUFFER_SIZE
    }

    /** The bytes already in the buffer that the next entry joins. */
    ghost function Before(padded: nat): seq<byte>
      reads this
    {
      if NeedsNew(padded) || |chain| != |pending| then [] else chain[|pending| - 1]
    }

    /** The closed buffers ahead of the one that the next entry joins. */
    ghost function Ahead(padded: nat): seq<seq<byte>>
      reads this
    {
      if NeedsNew(padded) || |chain| != |pending| then chain else chain[..|pending| - 1]
    }

    /** svc_reserve: zeroed room for one entry, never across buffers. */
    method Reserve(padded: nat) returns (b: array?<byte>, off: nat)
      requires WF()
      modifies this`pending, this`dropped, this`chain, core, core.Stock(), set s <- pending :: s.buf
      ensures WF()
      ensures b == null <==> padded > BUFFER_SIZE || (old(NeedsNew(padded)) && old(core.Avail()) == 0)
      ensures dropped == old(dropped) + (if b == null && padded <= BUFFER_SIZE then 1 else 0)
      ensures b == null ==> pending == old(pending) && chain == old(chain)
      ensures b != null ==> chain == old(Ahead(padded)) + [old(Before(padded)) + Zeros(padded)]
      ensures b != null ==> off == |old(Before(padded))| && b == pending[|pending| - 1].buf
                            && pending[|pending| - 1].used == off + padded
      ensures old(pending != [] && pending[|pending| - 1].used + padded <= BUFFER_SIZE) ==>
                b == old(pending[|pending| - 1].buf) && |chain| == |old(chain)| && core.Avail() == old(core.Avail())
      ensures b != null ==> (exists s <- old(pending) :: s.buf == b) || b in old(core.Stock()) || fresh(b)
    {
      hide Core.Valid, Core.Avail, Core.Stock, Filled, Zeros;
      b, off := null, 0;
      FilledLent(pending, chain, core.lent);
      if padded > BUFFER_SIZE {
        return;
      }
      if pending == [] || pending[|pending| - 1].used + padded > BUFFER_SIZE {
        var ok := AcquireNew();
        if !ok {
          return;
        }
      }
      FilledLent(pending, chain, core.lent);
      b, off := Extend(padded);
    }

    /** memset and the bump of mz_used. */
    method Extend(padded: nat) returns (b: array<byte>, off: nat)
      requires WF() && pending != [] && pending[|pending| - 1].used + padded <= BUFFER_SIZE && |chain| == |pending|
      modifies this`pending, this`chain, pending[|pending| - 1].buf
      ensures WF() && |pending| == |old(pending)|
      ensures chain == old(chain[..|chain| - 1]) + [old(chain[|chain| - 1]) + Zeros(padded)]
      ensures off == old(pending[|pending| - 1].used) == |old(chain[|chain| - 1])|
      ensures b == old(pending[|pending| - 1].buf) == pending[|pending| - 1].buf
      ensures pending[|pending| - 1].used == off + padded
    {
      hide Core.Valid, Splice, Filled;
      FilledFront(pending, chain, core.lent);
      var n := |pending| - 1;
      b, off := pending[n].buf, pending[n].used;
      ghost var was, front := b[..], pending[..n];
      assert b !in (set s <- front :: s.buf);
      Poke(b, off, Zeros(padded));
      assert Filled(front, chain[..n], core.lent);
      ghost var now := chain[n] + Zeros(padded);
      assert b[..off + padded] == now by {
        SpliceRegions(was, off, Zeros(padded), 0, off);
        CutAt(b[..], off + padded, chain[n], Zeros(padded));
      }
      pending, chain := pending[..n] + [Slot(b, off + padded)], chain[..n] + [now];
      assert pending[..n] == front;
      FilledMore(pending, chain, core.lent, was, off + padded);
    }

    /** Copies the variable parts behind the fixed ones. */
    method CopyParts(b: array<byte>, off: nat, d: Desc, ghost front: seq<byte>, ghost end: nat)
      requires Progress(b[..], front, Laid(d, 0), end) && |front| == off && off + Bare(d) <= end
      modifies b
      ensures Progress(b[..], front, Laid(d, |Parts(d)|), end)
    {
      hide Laid, Parts, Bare, Splice, Progress;
      var ps := Parts(d);
      var pos := off + |Laid(d, 0)|;
      var i := 0;
      while i < |ps|
        invariant 0 <= i <= |ps| && pos == off + |Laid(d, i)|
        invariant Progress(b[..], front, Laid(d, i), end)
      {
        LaidMore(d, i);
        Overlay(b[..], front, Laid(d, i), end, ps[i]);
        RoomFor(b[..], front, Laid(d, i), end, ps[i]);
        Poke(b, pos, ps[i]);
        pos := pos + |ps[i]|;
        i := i + 1;
      }
    }

    /** Writes the entry of d into zeroed room: header, fixed fields, then each
        variable part in turn. */
    method Fill(b: array<byte>, off: nat, d: Desc)
      requires off + Padded(d) <= b.Length && b[off..off + Padded(d)] == Zeros(Padded(d))
      modifies b
      ensures b[off..off + Padded(d)] == Entry(d) && b[..off] == old(b[..off])
    {
      hide Padded, Entry, Laid, Parts, Fixed, EntryHdr, Bare, Tail, Zeros, Splice, Progress;
      EntrySize(d);
      LaidEnds(d);
      ghost var end, front := off + Padded(d), b[..off];
      ProgressStart(b[..], off, end);
      Overlay(b[..], front, [], end, Laid(d, 0));
      assert [] + Laid(d, 0) == Laid(d, 0);
      Poke(b, off, Laid(d, 0));
      CopyParts(b, off, d, front, end);
      ghost var s := b[..];
      ProgressEnd(s, front, Laid(d, |Parts(d)|), end);
      assert b[off..end] == s[off..end];
      assert b[..off] == s[..off];
    }

    /** Completes the entry that Reserve made room for. */
    method Complete(b: array<byte>, off: nat, d: Desc, ghost before: seq<byte>)
      requires WF() && pending != [] && |chain| == |pending| && off + Padded(d) <= BUFFER_SIZE
      requires b == pending[|pending| - 1].buf && pending[|pending| - 1].used == off + Padded(d) && off == |before|
      requires chain[|chain| - 1] == before + Zeros(Padded(d))
      modifies b, this`chain
      ensures WF() && chain == old(chain[..|chain| - 1]) + [before + Entry(d)]
    {
      hide Padded, Entry, Zeros, Core.Valid, Filled;
      EntrySize(d);
      ghost var n := |pending| - 1;
      ghost var was := b[..];
      ghost var end := off + Padded(d);
      FilledFront(pending, chain, core.lent);
      CutAt(was, end, before, Zeros(Padded(d)));
      Fill(b, off, d);
      CutAt(b[..], end, before, Entry(d));
      chain := chain[..n] + [before + Entry(d)];
      FilledMore(pending, chain, core.lent, was, end);
    }

    /** How the descriptors are distributed once d joins them. */
    ghost function PartsWith(d: Desc): seq<seq<Desc>>
      reads this
    {
      if NeedsNew(Padded(d)) || |parts| != |pending| then parts + [[d]]
      else parts[..|pending| - 1] + [parts[|pending| - 1] + [d]]
    }

    lemma PartsHold(d: Desc)
      requires Holds(chain, parts) && |chain| == |pending| && Padded(d) <= BUFFER_SIZE
      ensures Holds(Ahead(Padded(d)) + [Before(Padded(d)) + Entry(d)], PartsWith(d))
      ensures Flat(PartsWith(d)) == Flat(parts) + [d]
    {
      hide Entry, Padded, Holds, Flat;
      HoldsSize(chain, parts);
      if NeedsNew(Padded(d)) {
        NewPart(chain, parts, d);
        assert [] + Entry(d) == Entry(d);
      } else {
        JoinPart(chain, parts, d);
      }
    }

    /** serialize_attr_desc, serialize_log_mod, serialize_log_desc and
        serialize_mtk_desc: an entry that finds no room is dropped. */
    method Serialize(d: Desc) returns (ok: bool)
      requires Valid() && ValidDesc(d)
      modifies this`pending, this`dropped, this`chain, this`parts, core, core.Stock(), set s <- pending :: s.buf
      ensures Valid()
      ensures ok <==> Padded(d) <= BUFFER_SIZE && (old(NeedsNew(Padded(d))) ==> old(core.Avail()) > 0)
      ensures old(pending != [] && pending[|pending| - 1].used + Padded(d) <= BUFFER_SIZE) ==>
                ok && |pending| == |old(pending)| && core.Avail() == old(core.Avail())
      ensures dropped == old(dropped) + (if !ok && Padded(d) <= BUFFER_SIZE then 1 else 0)
      ensures Kept() == if ok then old(Kept()) + [d] else old(Kept())
    {
      hide Core.Valid, Core.Avail, Core.Stock, Filled, Zeros, Padded, Entry, Holds, Flat, Bare;
      HoldsSize(chain, parts);
      FilledLent(pending, chain, core.lent);
      if Padded(d) <= BUFFER_SIZE {
        PartsHold(d);
      }
      ghost var before, ps := Before(Padded(d)), PartsWith(d);
      var b, off := Reserve(Padded(d));
      if b == null {
        return false;
      }
      FilledLent(pending, chain, core.lent);
      Complete(b, off, d, before);
      parts := ps;
      return true;
    }

    /** One worker pass: the sink sees every pending buffer, oldest first, and
        the buffers go back to the core. */
    method Flush()
      requires Valid()
      modifies this`pending, this`chain, this`parts, this`written, this`sent, core
      ensures Valid() && pending == [] && Kept() == old(Kept())
      ensures written == old(written) + old(chain) && core.Avail() == old(core.Avail()) + |old(pending)|
      ensures core.free == old(core.free) + Bufs(old(pending))
    {
      hide Core.Valid, Core.Avail, Core.Stock, Holds, Flat, Bufs;
      ghost var bs, ps := chain, parts;
      while pending != []
        invariant WF() && core.Avail() + |pending| == old(core.Avail()) + |old(pending)|
        invariant core.free + Bufs(pending) == old(core.free) + Bufs(old(pending))
        modifies this`pending, this`chain, core
        decreases |pending|
      {
        FilledShift(pending, chain, core.lent);
        BufsCons(core.free, pending);
        core.ReleaseBuffer(pending[0].buf);
        pending, chain := pending[1..], chain[1..];
      }
      BufsCons(core.free, []);
      HoldsConcat(written, bs, sent, ps);
      FlatConcat(sent, ps);
      NoParts();
      chain, written, sent, parts := [], written + bs, sent + ps, [];
    }

    /** The whole stream, delivered and pending, walked buffer by buffer: one
        entry per descriptor that was not dropped, in order. */
    lemma ReadBack()
      requires Valid()
      ensures WalkAll(written + chain) == Listed(Kept())
    {
      hide WalkAll, Listed, Flat, Holds;
      HoldsConcat(written, chain, sent, parts);
      FlatConcat(sent, parts);
      WalkStream(written + chain, sent + parts);
    }
  }

  lemma NewPart(bs: seq<seq<byte>>, ps: seq<seq<Desc>>, d: Desc)
    requires Holds(bs, ps) && Padded(d) <= BUFFER_SIZE
    ensures Holds(bs + [Entry(d)], ps + [[d]]) && Flat(ps + [[d]]) == Flat(ps) + [d]
  {
    hide Entry, Padded, Flat;
    FlatSnoc(ps, [d]);
    EntriesSnoc([], d);
    NoEntries();
    assert [] + [d] == [d] && Entries([d]) == Entry(d) && AllFitBuffer([d]);
    HoldsConcat(bs, [Entry(d)], ps, [[d]]);
  }

  lemma JoinPart(bs: seq<seq<byte>>, ps: seq<seq<Desc>>, d: Desc)
    requires Holds(bs, ps) && bs != [] && |ps| == |bs| && Padded(d) <= BUFFER_SIZE
    ensures var n := |bs| - 1; var qs := ps[..n] + [ps[n] + [d]];
      Holds(bs[..n] + [bs[n] + Entry(d)], qs) && Flat(qs) == Flat(ps) + [d]
  {
    hide Entry, Padded, Flat;
    var n := |bs| - 1;
    EntriesSnoc(ps[n], d);
    FlatSnoc(ps[..n], ps[n]);
    FlatSnoc(ps[..n], ps[n] + [d]);
    assert ps == ps[..n] + [ps[n]];
    assert Flat(ps[..n]) + (ps[n] + [d]) == (Flat(ps[..n]) + ps[n]) + [d];
    FitMore(ps[n], d);
    HoldsFront(bs, ps, n);
    HoldsConcat(bs[..n], [bs[n] + Entry(d)], ps[..n], [ps[n] + [d]]);
  }

  lemma FitMore(ds: seq<Desc>, d: Desc)
    requires AllFitBuffer(ds) && Padded(d) <= BUFFER_SIZE
    ensures AllFitBuffer(ds + [d])
  {
    hide Padded;
  }

  lemma FilledShift(slots: seq<Slot>, chain: seq<seq<byte>>, lent: set<array<byte>>)
    requires Filled(slots, chain, lent) && slots != []
    ensures |chain| == |slots| && slots[0].buf in lent && Filled(slots[1..], chain[1..], lent - {slots[0].buf})
  {
  }

  lemma EntriesSnoc(ds: seq<Desc>, d: Desc)
    ensures Entries(ds + [d]) == Entries(ds) + Entry(d)
  {
    hide Entry;
    assert (ds + [d])[..|ds|] == ds;
  }

  lemma NoEntries()
    ensures Entries([]) == []
  {
  }

  lemma NoParts()
    ensures Flat([]) == [] && Holds([], []) && forall ds: seq<Desc> :: ds + Flat([]) == ds
  {
  }

  lemma HoldsSize(bs: seq<seq<byte>>, parts: seq<seq<Desc>>)
    requires Holds(bs, parts)
    ensures |bs| == |parts|
  {
  }

  lemma HoldsFront(bs: seq<seq<byte>>, parts: seq<seq<Desc>>, n: nat)
    requires Holds(bs, parts) && n <= |bs|
    ensures Holds(bs[..n], parts[..n])
  {
    hide Entries, AllFitBuffer;
  }
}
