/** Where the bytes of a record land: the offset arithmetic of P8_ENSURE_SPACE,
    copy_fragmented and the trailing pad, with the contents left out. */
module Layout {
  import opened Wire

  const MIN_SPACE := 32   // P8_LOG_MIN_BUFFER_SPACE

  /** A piece of a record: Whole must not be split, Split may be cut anywhere. */
  datatype Chunk = Whole(n: nat) | Split(n: nat)

  /** Write position, number of rotations, and bytes left unused at rotations. */
  datatype Cursor = Cursor(off: nat, rotations: nat, lost: nat) {
    predicate Valid() { BUF_HDR <= off <= BUFFER_SIZE }

    /** Item bytes passed, not counting abandoned tails. */
    function Travelled(): int { off + rotations * (BUFFER_SIZE - BUF_HDR) - lost }

    function Rotate(): Cursor
      requires Valid()
    {
      Cursor(BUF_HDR, rotations + 1, lost + BUFFER_SIZE - off)
    }
  }

  predicate Fits(k: Chunk) { k.n <= BUFFER_SIZE - BUF_HDR || k.Split? }

  predicate AllFit(ks: seq<Chunk>) { forall k <- ks :: Fits(k) }

  function Place(c: Cursor, k: Chunk): (r: Cursor)
    requires c.Valid() && Fits(k)
    ensures r.Valid()
    decreases k.n, BUFFER_SIZE - c.off == 0
  {
    match k
    case Whole(n) =>
      var c' := if c.off + n > BUFFER_SIZE then c.Rotate() else c;
      c'.(off := c'.off + n)
    case Split(n) =>
      if n == 0 then c
      else if c.off == BUFFER_SIZE then Place(c.Rotate(), k)
      else
        var m := if n < BUFFER_SIZE - c.off then n else BUFFER_SIZE - c.off;
        Place(c.(off := c.off + m), Split(n - m))
  }

  function PlaceAll(c: Cursor, ks: seq<Chunk>): (r: Cursor)
    requires c.Valid() && AllFit(ks)
    ensures r.Valid()
  {
    if ks == [] then c else Place(PlaceAll(c, ks[..|ks| - 1]), ks[|ks| - 1])
  }

  function Size(ks: seq<Chunk>): nat {
    if ks == [] then 0 else Size(ks[..|ks| - 1]) + ks[|ks| - 1].n
  }

  lemma {:induction false} SizeConcat(a: seq<Chunk>, b: seq<Chunk>)
    ensures Size(a + b) == Size(a) + Size(b)
    decreases |b|
  {
    if b == [] {
      assert a + b == a;
    } else {
      SizeConcat(a, b[..|b| - 1]);
      assert (a + b)[..|a + b| - 1] == a + b[..|b| - 1];
    }
  }

  lemma SizeFew(k: Chunk, l: Chunk, m: Chunk)
    ensures Size([k]) == k.n && Size([k, l]) == k.n + l.n && Size([k, l, m]) == k.n + l.n + m.n
  {
    assert [k][..0] == [] && [k, l][..1] == [k] && [k, l, m][..2] == [k, l];
  }

  lemma PlaceFew(c: Cursor, k: Chunk, l: Chunk, m: Chunk)
    requires c.Valid() && Fits(k) && Fits(l) && Fits(m)
    ensures PlaceAll(c, [k]) == Place(c, k)
    ensures PlaceAll(c, [k, l]) == Place(Place(c, k), l)
    ensures PlaceAll(c, [k, l, m]) == Place(Place(Place(c, k), l), m)
  {
    hide Place;
    assert [k][..0] == [] && [k, l][..1] == [k] && [k, l, m][..2] == [k, l];
    assert PlaceAll(c, [k]) == Place(PlaceAll(c, [k][..0]), k);
    assert PlaceAll(c, [k, l]) == Place(PlaceAll(c, [k, l][..1]), l);
  }

  lemma {:induction false} PlaceAllConcat(c: Cursor, a: seq<Chunk>, b: seq<Chunk>)
    requires c.Valid() && AllFit(a) && AllFit(b)
    ensures AllFit(a + b) && PlaceAll(c, a + b) == PlaceAll(PlaceAll(c, a), b)
    decreases |b|
  {
    if b == [] {
      assert a + b == a;
    } else {
      PlaceAllConcat(c, a, b[..|b| - 1]);
      assert (a + b)[..|a + b| - 1] == a + b[..|b| - 1];
    }
  }

  /** No byte is invented or hidden: the distance travelled is the bytes placed
      plus the tails abandoned at rotations. A piece that may be cut abandons
      nothing and takes no buffer it does not use; one that may not abandons a
      tail only where it does not fit. */
  lemma {:induction false} PlaceConserves(c: Cursor, k: Chunk)
    requires c.Valid() && Fits(k)
    ensures Place(c, k).Travelled() == c.Travelled() + k.n
    ensures k.Split? ==> Place(c, k).lost == c.lost && (k.n > 0 ==> Place(c, k).off > BUF_HDR)
    ensures k.Whole? ==> Place(c, k).lost == c.lost + if c.off + k.n > BUFFER_SIZE then BUFFER_SIZE - c.off else 0
    decreases k.n, BUFFER_SIZE - c.off == 0
  {
    if k.Split? && k.n > 0 {
      if c.off == BUFFER_SIZE {
        PlaceConserves(c.Rotate(), k);
      } else {
        var m := if k.n < BUFFER_SIZE - c.off then k.n else BUFFER_SIZE - c.off;
        PlaceConserves(c.(off := c.off + m), Split(k.n - m));
      }
    }
  }

  lemma {:induction false} PlaceTurns(c: Cursor, k: Chunk)
    requires c.Valid() && Fits(k)
    ensures c.rotations <= Place(c, k).rotations
    decreases k.n, BUFFER_SIZE - c.off == 0
  {
    if k.Split? && k.n > 0 {
      if c.off == BUFFER_SIZE {
        PlaceTurns(c.Rotate(), k);
      } else {
        var m := if k.n < BUFFER_SIZE - c.off then k.n else BUFFER_SIZE - c.off;
        PlaceTurns(c.(off := c.off + m), Split(k.n - m));
      }
    }
  }

  lemma {:induction false} PlaceAllTurns(c: Cursor, a: seq<Chunk>, b: seq<Chunk>)
    requires c.Valid() && AllFit(a) && AllFit(b)
    ensures AllFit(a + b) && PlaceAll(c, a).rotations <= PlaceAll(c, a + b).rotations
    decreases |b|
  {
    if b == [] {
      assert a + b == a;
    } else {
      PlaceAllTurns(c, a, b[..|b| - 1]);
      assert (a + b)[..|a + b| - 1] == a + b[..|b| - 1];
      PlaceTurns(PlaceAll(c, (a + b)[..|a + b| - 1]), b[|b| - 1]);
    }
  }

  lemma {:induction false} PlaceAllConserves(c: Cursor, ks: seq<Chunk>)
    requires c.Valid() && AllFit(ks)
    ensures PlaceAll(c, ks).Travelled() == c.Travelled() + Size(ks)
  {
    if ks != [] {
      PlaceAllConserves(c, ks[..|ks| - 1]);
      PlaceConserves(PlaceAll(c, ks[..|ks| - 1]), ks[|ks| - 1]);
    }
  }

  // ------------------------------------------------------------------- pads

  function Pad(n: nat): (p: nat)
    ensures p < 8 && (n + p) % 8 == 0
  {
    PadWorks(n);
    (8 - n % 8) % 8
  }

  lemma PadWorks(n: nat)
    ensures (8 - n % 8) % 8 < 8 && (n + (8 - n % 8) % 8) % 8 == 0
  {
    var q, r := n / 8, n % 8;
    assert n == 8 * q + r;
    if r == 0 {
      assert (8 - r) % 8 == 0;
    } else {
      assert (8 - r) % 8 == 8 - r && n + (8 - r) == 8 * (q + 1);
    }
  }

  /** A whole record written at offset start: header, then its chunks. */
  function RecordEnd(start: nat, ks: seq<Chunk>): (r: Cursor)
    requires BUF_HDR <= start <= BUFFER_SIZE - ITEM_HDR && AllFit(ks)
    ensures r.Valid()
  {
    PlaceAll(Cursor(start + ITEM_HDR, 0, 0), ks)
  }

  function RecordSize(ks: seq<Chunk>): nat { ITEM_HDR + Size(ks) }

  predicate PadFits(start: nat, ks: seq<Chunk>)
    requires BUF_HDR <= start <= BUFFER_SIZE - ITEM_HDR && AllFit(ks)
  {
    RecordEnd(start, ks).off + Pad(RecordSize(ks)) <= BUFFER_SIZE
  }

  /** The pad leaves the buffer exactly when the record stops within 8 bytes of
      the end and its start plus the tails abandoned at rotations is off by 1..pad
      modulo 8. */
  lemma PadFitsIff(start: nat, ks: seq<Chunk>)
    requires BUF_HDR <= start <= BUFFER_SIZE - ITEM_HDR && AllFit(ks)
    ensures var end := RecordEnd(start, ks);
            !PadFits(start, ks) <==>
              BUFFER_SIZE - end.off < 8 && 0 < (start + end.lost) % 8 <= Pad(RecordSize(ks))
  {
    var c := Cursor(start + ITEM_HDR, 0, 0);
    PlaceAllConserves(c, ks);
    var end, n := RecordEnd(start, ks), RecordSize(ks);
    assert end.off + end.rotations * 8168 - end.lost == start + n;
    var left := BUFFER_SIZE - end.off;
    ShiftMod(left, Pad(n), start + end.lost, 1024 + end.rotations * 1021 - (n + Pad(n)) / 8);
  }

  lemma ShiftMod(left: nat, pad: nat, lost: nat, k: int)
    requires pad < 8 && left == pad - lost + 8 * k
    ensures left < pad <==> left < 8 && 0 < lost % 8 <= pad
  {
  }

  /** Whatever the record holds, it ends as far from a multiple of 8 as its start
      and the tails it abandoned. */
  lemma EndAlignment(start: nat, ks: seq<Chunk>)
    requires BUF_HDR <= start <= BUFFER_SIZE - ITEM_HDR && AllFit(ks)
    ensures (RecordEnd(start, ks).off + Pad(RecordSize(ks))) % 8 == (start + RecordEnd(start, ks).lost) % 8
  {
    PlaceAllConserves(Cursor(start + ITEM_HDR, 0, 0), ks);
    var end, n := RecordEnd(start, ks), RecordSize(ks);
    assert end.off + Pad(n) == start + end.lost + 8 * ((n + Pad(n)) / 8 - 1021 * end.rotations);
    SameMod(end.off + Pad(n), start + end.lost, (n + Pad(n)) / 8 - 1021 * end.rotations);
  }

  lemma SameMod(a: nat, b: nat, k: int)
    requires a == b + 8 * k
    ensures a % 8 == b % 8
  {
  }

  /** A record that starts aligned ends aligned exactly if what it abandons is a
      multiple of 8, and then its pad fits. */
  lemma AlignedRecord(start: nat, ks: seq<Chunk>)
    requires BUF_HDR <= start <= BUFFER_SIZE - ITEM_HDR && AllFit(ks) && start % 8 == 0
    ensures RecordEnd(start, ks).lost % 8 == 0 <==> (RecordEnd(start, ks).off + Pad(RecordSize(ks))) % 8 == 0
    ensures RecordEnd(start, ks).lost % 8 == 0 ==> PadFits(start, ks)
  {
    hide Pad;
    PadFitsIff(start, ks);
    EndAlignment(start, ks);
    AddMod(start, RecordEnd(start, ks).lost);
  }

  lemma AddMod(a: nat, b: nat)
    requires a % 8 == 0
    ensures (a + b) % 8 == b % 8
  {
  }

  // --------------------------------------------------------------- whole runs

  /** Where the next item goes; 0 stands for "no current buffer". */
  function StartOffset(used: nat): nat {
    if used == 0 || (used <= BUFFER_SIZE && BUFFER_SIZE - used < MIN_SPACE + ITEM_HDR) then BUF_HDR else used
  }

  /** mz_buf_used after a successful send that started with it at used. */
  function UsedAfter(used: nat, ks: seq<Chunk>): nat
    requires used == 0 || BUF_HDR <= used <= BUFFER_SIZE
    requires AllFit(ks)
  {
    var u := RecordEnd(StartOffset(used), ks).off + Pad(RecordSize(ks));
    if u <= BUFFER_SIZE && BUFFER_SIZE - u < MIN_SPACE then 0 else u
  }

  /** A tail is kept for the next record with 72 bytes or more to go, and after a
      record with 32 or more. */
  lemma Thresholds(used: nat, ks: seq<Chunk>)
    requires (used == 0 || BUF_HDR <= used <= BUFFER_SIZE) && AllFit(ks)
    ensures StartOffset(used) == if used == 0 || used > 8120 then 24 else used
    ensures var u := RecordEnd(StartOffset(used), ks).off + Pad(RecordSize(ks));
      UsedAfter(used, ks) == if 8160 < u <= 8192 then 0 else u
  {
  }

  /** A record sent at an aligned position that abandons a multiple of 8 fits and
      leaves the position aligned. */
  lemma AlignedNext(used: nat, ks: seq<Chunk>)
    requires (used == 0 || BUF_HDR <= used <= BUFFER_SIZE) && AllFit(ks)
    requires used % 8 == 0 && RecordEnd(StartOffset(used), ks).lost % 8 == 0
    ensures PadFits(StartOffset(used), ks) && UsedAfter(used, ks) % 8 == 0
  {
    AlignedRecord(StartOffset(used), ks);
  }

  /** What happens to a writer's position: a record is accepted, or the position
      is reset because the worker pulled the writer or a record was discarded. */
  datatype Event = Sent(ks: seq<Chunk>) | Reset

  function Moved(used: nat, e: Event): nat
    requires e.Sent? ==> (used == 0 || BUF_HDR <= used <= BUFFER_SIZE) && AllFit(e.ks)
  {
    if e.Reset? then 0 else UsedAfter(used, e.ks)
  }

  /** Every record of the run rotates at multiples of 8 only. */
  ghost predicate LosesMultiplesOf8(used: nat, run: seq<Event>)
    decreases |run|
  {
    run == [] || ((used == 0 || BUF_HDR <= used <= BUFFER_SIZE)
                  && (run[0].Sent? ==> AllFit(run[0].ks) && RecordEnd(StartOffset(used), run[0].ks).lost % 8 == 0)
                  && LosesMultiplesOf8(Moved(used, run[0]), run[1..]))
  }

  /** Every record of the run starts aligned with its header in one buffer, and
      its pad fits. */
  ghost predicate RunIsAligned(used: nat, run: seq<Event>)
    decreases |run|
  {
    run == [] || ((used == 0 || BUF_HDR <= used <= BUFFER_SIZE)
                  && (run[0].Sent? ==>
                        AllFit(run[0].ks) && StartOffset(used) % 8 == 0 && StartOffset(used) + ITEM_HDR <= BUFFER_SIZE
                        && PadFits(StartOffset(used), run[0].ks))
                  && RunIsAligned(Moved(used, run[0]), run[1..]))
  }

  /** Over any run of records, pulls and discarded records in which records rotate
      only at multiples of 8, every item starts 8-aligned, its header stays in one
      buffer and every pad fits. */
  lemma {:induction false} AlignedRun(used: nat, run: seq<Event>)
    requires used % 8 == 0 && LosesMultiplesOf8(used, run)
    ensures RunIsAligned(used, run)
    decreases |run|
  {
    if run != [] {
      if run[0].Sent? {
        AlignedNext(used, run[0].ks);
      }
      AlignedRun(Moved(used, run[0]), run[1..]);
    }
  }
}
