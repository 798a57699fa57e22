/** Metric samples: fixed-size items appended to the same kind of buffer chain,
    never split and never padded. */
module Metrics {
  import opened Wire
  import opened Layout
  import opened LogWriter

  /** s_p8_mtk_item_dat; value is the double's eight bytes. */
  datatype Raw = Raw(timestamp: nat, value: seq<byte>, id: nat)

  const MAX_ID := 0x8000_0000   // h_p8_mtk_id is a signed 32-bit handle

  type Sample = s: Raw | s.timestamp < 0x1_0000_0000_0000_0000 && |s.value| == 8 && s.id < MAX_ID
    witness Raw(0, [0, 0, 0, 0, 0, 0, 0, 0], 0)

  function SampleBytes(s: Sample): (r: seq<byte>)
    ensures |r| == MTK_ITEM
  {
    LE(s.timestamp, 8) + s.value + LE(s.id, 4) + LE(MTK_ITEM, 2) + [0, 0]
  }

  function SamplesBytes(ss: seq<Sample>): seq<byte> {
    if ss == [] then [] else SamplesBytes(ss[..|ss| - 1]) + SampleBytes(ss[|ss| - 1])
  }

  function DecodeSample(b: seq<byte>): Raw
    requires |b| >= MTK_ITEM
  {
    Raw(Field(b, 0, 8), b[8..16], Field(b, 16, 4))
  }

  /** The reader's walk over the payload of one buffer. */
  function DecodeSamples(b: seq<byte>): seq<Raw>
    decreases |b|
  {
    if |b| < MTK_ITEM then []
    else
      var size := Field(b, 20, 2);
      if size < MTK_ITEM then []
      else [DecodeSample(b)] + if size > |b| then [] else DecodeSamples(b[size..])
  }

  /** What a reader makes of a list of captured buffers, each walked alone. */
  function DecodeBuffers(bs: seq<seq<byte>>): seq<Raw> {
    if bs == [] then [] else DecodeBuffers(bs[..|bs| - 1]) + DecodeSamples(Payload(bs[|bs| - 1]))
  }

  lemma ReadSample(s: Sample, rest: seq<byte>)
    ensures DecodeSamples(SampleBytes(s) + rest) == [s] + DecodeSamples(rest)
  {
    hide SampleBytes, LE, FromLE, Pow256;
    SampleFields(s, rest);
    Pow256Values();
    ReadBackLE(s.timestamp, 8);
    ReadBackLE(s.id, 4);
    ReadBackLE(MTK_ITEM, 2);
  }

  lemma SampleFields(s: Sample, rest: seq<byte>)
    ensures var b := SampleBytes(s) + rest;
      b[0..8] == LE(s.timestamp, 8) && b[8..16] == s.value && b[16..20] == LE(s.id, 4)
      && b[20..22] == LE(MTK_ITEM, 2) && b[MTK_ITEM..] == rest
  {
    hide LE;
  }

  lemma SamplesBytesSnoc(ss: seq<Sample>, s: Sample)
    ensures SamplesBytes(ss + [s]) == SamplesBytes(ss) + SampleBytes(s)
  {
    hide SampleBytes;
    assert (ss + [s])[..|ss|] == ss;
  }

  lemma {:induction false} SamplesBytesCons(ss: seq<Sample>)
    requires ss != []
    ensures SamplesBytes(ss) == SampleBytes(ss[0]) + SamplesBytes(ss[1..])
    decreases |ss|
  {
    hide SampleBytes;
    var n := |ss| - 1;
    if n > 0 {
      SamplesBytesCons(ss[..n]);
      assert ss[..n][1..] == ss[1..][..n - 1];
    }
  }

  lemma {:induction false} SamplesRoundTrip(ss: seq<Sample>)
    ensures DecodeSamples(SamplesBytes(ss)) == ss && |SamplesBytes(ss)| == MTK_ITEM * |ss|
    decreases |ss|
  {
    if ss != [] {
      SamplesRoundTrip(ss[1..]);
      SamplesBytesCons(ss);
      ReadSample(ss[0], SamplesBytes(ss[1..]));
      assert ss == [ss[0]] + ss[1..];
    }
  }

  lemma {:induction false} SamplesBytesSplit(ss: seq<Sample>, k: nat)
    requires k <= |ss|
    ensures SamplesBytes(ss) == SamplesBytes(ss[..k]) + SamplesBytes(ss[k..])
    decreases |ss|
  {
    hide SampleBytes;
    if k == |ss| {
      assert ss[..k] == ss && ss[k..] == [];
    } else {
      var n := |ss| - 1;
      SamplesBytesSplit(ss[..n], k);
      assert ss[..n][..k] == ss[..k] && ss[k..][..n - k] == ss[..n][k..];
    }
  }

  lemma PayloadSize(b: seq<byte>)
    requires Sized(b)
    ensures |Payload(b)| == SizeField(b) - BUF_HDR
  {
    hide SizeField;
  }

  ghost predicate WholeItems(bs: seq<seq<byte>>) {
    forall b <- bs :: |Payload(b)| % MTK_ITEM == 0
  }

  lemma WholeItemsSnoc(bs: seq<seq<byte>>, b: seq<byte>)
    requires WholeItems(bs) && |Payload(b)| % MTK_ITEM == 0
    ensures WholeItems(bs + [b])
  {
  }

  /** A stream of samples cut at a multiple of the item size is cut between samples. */
  lemma CutStream(a: seq<byte>, b: seq<byte>, ss: seq<Sample>) returns (k: nat)
    requires a + b == SamplesBytes(ss) && |b| % MTK_ITEM == 0
    ensures k <= |ss| && a == SamplesBytes(ss[..k]) && b == SamplesBytes(ss[k..])
  {
    hide SamplesBytes, DecodeSamples;
    SamplesRoundTrip(ss);
    k := |ss| - |b| / MTK_ITEM;
    SamplesRoundTrip(ss[..k]);
    SamplesBytesSplit(ss, k);
    assert a == (a + b)[..|a|] && b == (a + b)[|a|..];
  }

  /** Walking every buffer alone loses nothing, because no sample is split. */
  lemma {:induction false} BuffersRoundTrip(bs: seq<seq<byte>>, ss: seq<Sample>)
    requires WholeItems(bs) && Flatten(bs) == SamplesBytes(ss)
    ensures DecodeBuffers(bs) == ss
    decreases |bs|
  {
    hide SamplesBytes, DecodeSamples, Payload;
    SamplesRoundTrip(ss);
    if bs != [] {
      var front, last := bs[..|bs| - 1], bs[|bs| - 1];
      assert last in bs;
      var k := CutStream(Flatten(front), Payload(last), ss);
      BuffersRoundTrip(front, ss[..k]);
      SamplesRoundTrip(ss[k..]);
      assert ss == ss[..k] + ss[k..];
    }
  }

  class MtkWriter {
    const out: TlsWriter
    ghost var samples: seq<Sample>   // samples accepted so far

    ghost predicate Valid()
      reads this, out, out.core, out.fragments, out.buffer
    {
      out.Settled() && out.packetType == PACKET_METRICS && out.Total() == SamplesBytes(samples)
      && WholeItems(out.past + out.chain) && (out.buffer != null ==> (out.used - BUF_HDR) % MTK_ITEM == 0)
    }

    constructor (core: Core, threadId: nat)
      requires core.Valid() && threadId < 0x1_0000_0000
      ensures Valid() && fresh(out) && samples == [] && out.core == core && out.threadId == threadId
      ensures out.packetType == PACKET_METRICS
    {
      out := new TlsWriter(core, PACKET_METRICS, threadId);
      samples := [];
    }

    lemma WholeAhead()
      requires Valid()
      ensures WholeItems(out.past + out.AheadBytes(MTK_ITEM, false))
      ensures (out.StartAt(MTK_ITEM) - BUF_HDR) % MTK_ITEM == 0
    {
      hide SizeField, Payload, Flatten, Linked, Core.Valid, IsFragment, SamplesBytes;
      if out.buffer != null {
        PayloadSize(out.buffer[..]);
        WholeItemsSnoc(out.past + out.chain, out.buffer[..]);
        assert out.past + out.chain + [out.buffer[..]] == out.past + (out.chain + [out.buffer[..]]);
      }
    }

    /** Writes one sample at the tail, which has room for it. */
    method Append(s: Sample)
      requires Valid() && out.buffer != null && out.used + MTK_ITEM <= BUFFER_SIZE
      modifies out`fragments, out`buffer, out`chain, out`used, out.buffer, this`samples
      ensures Valid() && samples == old(samples) + [s]
      ensures out.Pos() == (if BUFFER_SIZE - (old(out.used) + MTK_ITEM) < MTK_ITEM then 0 else old(out.used) + MTK_ITEM)
    {
      hide Sized, SizeField, Payload, Flatten, Linked, Core.Valid, IsFragment, SampleBytes, SamplesBytes, WholeItems;
      hide Labels, Labelled, LE, Splice, Grew;
      var d := out.used;
      out.OpenIsStream();
      out.Put(d, SampleBytes(s));
      ghost var chain := out.chain;
      ghost var skipped := out.EndRecord(d + MTK_ITEM, 0, MTK_ITEM, s.timestamp);
      if out.buffer == null {
        ghost var b := out.chain[|chain|];
        assert out.chain == chain + [b];
        WholeItemsSnoc(out.past + chain, b);
        assert out.past + chain + [b] == out.past + out.chain;
      }
      SamplesBytesSnoc(samples, s);
      assert out.Settled();
      assert out.Total() == old(out.Total()) + SampleBytes(s);
      samples := samples + [s];
    }

    /** emit: records one sample of a registered metric. handed and pulled
        describe a blocking wait, as for log records. */
    method Emit(s: Sample, registered: nat, handed: array?<byte>, pulled: bool) returns (ok: bool)
      requires Valid()
      requires handed != null ==>
                 handed.Length == BUFFER_SIZE && handed !in out.core.lent && handed !in out.core.Stock()
      modifies this`samples, out`fragments, out`buffer, out`chain, out`used, out`past, out`dropped
      modifies out.core, out.Reach(handed)
      ensures Valid() && samples == if ok then old(samples) + [s] else old(samples)
      ensures !ok <==> s.id >= registered
                       || (handed == null && old(!out.Keeps(MTK_ITEM) && out.AvailAt(MTK_ITEM, pulled) == 0))
      ensures out.dropped == old(out.dropped) + if !ok && s.id < registered then 1 else 0
      ensures s.id >= registered ==> out.Pos() == old(out.Pos()) && out.fragments == old(out.fragments)
    {
      hide Sized, SizeField, Payload, Flatten, Linked, Core.Valid, Core.Stock, IsFragment, SamplesBytes, WholeItems;
      WholeAhead();
      ok := s.id < registered;
      if ok {
        ok := out.BeginRecord(MTK_ITEM, handed, pulled, s.timestamp);
        if ok {
          Append(s);
        }
      }
    }

    /** Every buffer handed over or held is marked as metrics, packet type 3, and
        with the thread. */
    lemma Marked()
      requires Valid()
      ensures forall b <- out.past + out.HeldBytes() :: |b| >= BUF_HDR && b[0] == 3 && Field(b, 4, 4) == out.threadId
    {
      hide Linked, Core.Valid, IsFragment, SizeField, WholeItems, SamplesBytes, FromLE, LE;
      out.AllLabelled();
      Pow256Values();
      ReadBackLE(out.threadId, 4);
    }

    /** Walking each buffer alone, those handed over and those still held, yields
        every sample in order. */
    lemma ReadBack()
      requires Valid()
      ensures DecodeBuffers(out.past + out.HeldBytes()) == samples
    {
      hide SizeField, Payload, Linked, Core.Valid, IsFragment, SamplesBytes, Flatten, DecodeBuffers, WholeItems;
      out.AllHeld();
      if out.buffer == null {
        assert out.past + out.HeldBytes() == out.past + out.chain;
      } else {
        PayloadSize(out.buffer[..]);
        WholeItemsSnoc(out.past + out.chain, out.buffer[..]);
        assert out.past + out.chain + [out.buffer[..]] == out.past + out.HeldBytes();
      }
      BuffersRoundTrip(out.past + out.HeldBytes(), samples);
    }
  }
}
