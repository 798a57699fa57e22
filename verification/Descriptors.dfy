/** How late a descriptor can be: data may reach the sink one cycle ahead of the
    descriptor it needs, never more. */
module Descriptors {
  import opened Records
  import opened Pool
  import opened System
  import opened Ownership
  import opened Delivery

  /** b only needs descriptors below n. */
  ghost predicate Low(b: Filled, n: nat) { forall p <- b.data :: p.desc < n }

  ghost predicate Below(bs: seq<Filled>, n: nat) { forall b <- bs :: Low(b, n) }

  /** A writer only refers to descriptors registered before. */
  ghost predicate Refers(x: Writer, n: nat) {
    Below(x.Held(), n) && (x.stage.Writing? && x.stage.piece.Some? ==> x.stage.piece.value.desc < n)
  }

  predicate Draining(p: Phase) { !p.Rest? && !p.Freeing? }

  /** Every descriptor is written, lost, or in a place where the worker will find it. */
  ghost predicate Tracked(s: Sys) {
    s.seen <= s.descs
    && (forall d :: 0 <= d < s.seen ==>
          d in s.svcOut || d in s.lost || (s.phase.HasSvc? && d in AllDescs(s.svcBatch)))
    && (forall d :: s.seen <= d < s.descs ==> d in AllDescs(s.svc) || d in s.lost)
  }

  ghost predicate DescInv(s: Sys) {
    Tracked(s) && (forall v :: 0 <= v < |s.writers| ==> Refers(s.writers[v], s.descs))
    && Below(s.sink, s.descs) && Below(s.batch, s.descs) && Below(s.ready, s.descs)
    && (Draining(s.phase) ==> Below(s.sink, s.seen))
  }

  lemma BelowConcat(a: seq<Filled>, b: seq<Filled>, n: nat)
    ensures Below(a + b, n) <==> Below(a, n) && Below(b, n)
  {
    hide Low;
    if Below(a + b, n) {
      assert forall i :: 0 <= i < |a| ==> (a + b)[i] == a[i];
      assert forall i :: 0 <= i < |b| ==> (a + b)[|a| + i] == b[i];
    }
  }

  lemma BelowOne(b: Filled, n: nat)
    ensures Below([b], n) <==> Low(b, n)
  {
    hide Low;
    assert [b][0] == b;
  }

  lemma LowMore(b: Filled, p: Piece, n: nat)
    requires Low(b, n) && p.desc < n
    ensures Low(b.(data := b.data + [p]), n)
  {
  }

  lemma BelowMore(bs: seq<Filled>, n: nat, m: nat)
    requires Below(bs, n) && n <= m
    ensures Below(bs, m)
  {
  }

  lemma RefersSame(x: Writer, y: Writer, n: nat)
    requires Refers(x, n) && y.Held() == x.Held()
    requires y.stage.Writing? && y.stage.piece.Some? ==> y.stage.piece.value.desc < n
    ensures Refers(y, n)
  {
    hide Below;
  }

  lemma RefersTail(x: Writer, y: Writer, b: Filled, n: nat)
    requires Refers(x, n) && y.Held() == x.frags + [b] && Low(b, n)
    requires y.stage.Writing? && y.stage.piece.Some? ==> y.stage.piece.value.desc < n
    ensures Refers(y, n)
  {
    hide Below, Low;
    if x.tail.Some? {
      BelowConcat(x.frags, [x.tail.value], n);
    }
    BelowConcat(x.frags, [b], n);
    BelowOne(b, n);
  }

  lemma TailLow(x: Writer, n: nat)
    requires Refers(x, n) && x.tail.Some?
    ensures Low(x.tail.value, n) && Below(x.frags, n)
  {
    hide Below, Low;
    BelowConcat(x.frags, [x.tail.value], n);
    BelowOne(x.tail.value, n);
  }

  lemma RotateRefers(s: Sys, w: nat, alloc: bool)
    requires Can(s, Rotate(w, alloc)) && Refers(s.writers[w], s.descs)
    ensures Refers(Rotated(s, w, alloc).writers[w], s.descs)
  {
    hide Below, QueueInRange, Take;
    var x, y := s.writers[w], Rotated(s, w, alloc).writers[w];
    var p := x.stage.piece.value;
    var f := x.tail.value.(frag := true);
    TailLow(x, s.descs);
    assert Low(f, s.descs);
    BelowOne(f, s.descs);
    BelowConcat(x.frags, [f], s.descs);
    if CanTake(s.pool, alloc) {
      var c := y.tail.value;
      assert c.data == [] + [p] && Low(c, s.descs);
      BelowOne(c, s.descs);
      BelowConcat(x.frags + [f], [c], s.descs);
    }
  }

  lemma ActorRefers(s: Sys, a: System.Step)
    requires Can(s, a) && !HandsOver(a) && Actor(s, a) < |s.writers|
    requires Refers(s.writers[Actor(s, a)], s.descs) && TailInv(s.writers[Actor(s, a)])
    ensures |System.Do(s, a).writers| == |s.writers| && Refers(System.Do(s, a).writers[Actor(s, a)], s.descs)
  {
    if Edits(a) {
      hide *;
      EditRefers(s, a);
    } else {
      PoolRefers(s, a);
    }
  }

  lemma EditRefers(s: Sys, a: System.Step)
    requires Can(s, a) && Edits(a) && Actor(s, a) < |s.writers|
    requires Refers(s.writers[Actor(s, a)], s.descs)
    ensures |System.Do(s, a).writers| == |s.writers| && Refers(System.Do(s, a).writers[Actor(s, a)], s.descs)
  {
    hide Refers, Below, Low, QueueInRange;
    var w, n := Actor(s, a), s.descs;
    var x, y := s.writers[w], System.Do(s, a).writers[w];
    match a
    case Head(_, p) =>
      TailLow(x, n);
      LowMore(x.tail.value, p, n);
      RefersTail(x, y, y.tail.value, n);
    case _ => RefersSame(x, y, n);
  }

  lemma PoolRefers(s: Sys, a: System.Step)
    requires Can(s, a) && !HandsOver(a) && !Edits(a) && Actor(s, a) < |s.writers|
    requires Refers(s.writers[Actor(s, a)], s.descs) && TailInv(s.writers[Actor(s, a)])
    ensures |System.Do(s, a).writers| == |s.writers| && Refers(System.Do(s, a).writers[Actor(s, a)], s.descs)
  {
    hide Refers, Below, Low, QueueInRange, Take, Park, Recycle, Pool.Do, Enabled;
    var w, n := Actor(s, a), s.descs;
    var x, y := s.writers[w], System.Do(s, a).writers[w];
    match a
    case Rotate(_, alloc) => RotateRefers(s, w, alloc);
    case Undo(_) =>
      if |x.frags| > x.stage.mark {
        RefersPop(x, y, n);
      } else {
        RefersSame(x, y, n);
      }
    case Relock(_) =>
      if x.stage.got == NULL {
        RefersSame(x, y, n);
      } else {
        NoData(y.tail.value, n);
        RefersTail(x, y, y.tail.value, n);
      }
    case Ask(_, _) => RefersSame(x, y, n);
    case Exit(_) => RefersSame(x, y, n);
    case Look(_) => RefersLook(x, y, n);
    case _ =>
  }

  lemma RefersLook(x: Writer, y: Writer, n: nat)
    requires Refers(x, n) && y.Held() == x.Held() && x.stage.Parked? && (y == x || y.stage.Exiting?)
    ensures Refers(y, n)
  {
    hide Below;
  }

  lemma NoData(b: Filled, n: nat)
    requires b.data == []
    ensures Low(b, n)
  {
  }

  lemma RefersPop(x: Writer, y: Writer, n: nat)
    requires Refers(x, n) && x.tail.None? && y.tail.None? && x.frags != [] && y.frags == x.frags[..|x.frags| - 1]
    requires !y.stage.Writing?
    ensures Refers(y, n)
  {
    hide Below;
    assert x.frags == y.frags + [x.frags[|x.frags| - 1]];
    BelowConcat(y.frags, [x.frags[|x.frags| - 1]], n);
  }

  lemma RefersMore(x: Writer, n: nat, m: nat)
    requires Refers(x, n) && n <= m
    ensures Refers(x, m)
  {
    hide Below;
    BelowMore(x.Held(), n, m);
  }

  // ------------------------------------------------------- service lists

  lemma AllDescsGrow(bs: seq<SvcBuf>, d: nat)
    requires bs != []
    ensures var n := |bs| - 1; AllDescs(bs[n := bs[n].(descs := bs[n].descs + [d])]) == AllDescs(bs) + [d]
  {
    var n := |bs| - 1;
    assert bs[n := bs[n].(descs := bs[n].descs + [d])][..n] == bs[..n];
  }

  lemma AllDescsSnoc(bs: seq<SvcBuf>, b: SvcBuf)
    ensures AllDescs(bs + [b]) == AllDescs(bs) + b.descs
  {
    assert (bs + [b])[..|bs|] == bs;
  }

  lemma RegisterTracked(s: Sys, own: bool, alloc: bool)
    requires Tracked(s) && Can(s, Register(own, alloc))
    ensures Tracked(Enrolled(s, own, alloc))
  {
    hide AllDescs, QueueInRange, Take;
    if !own {
      AllDescsGrow(s.svc, s.descs);
    } else if CanTake(s.pool, alloc) {
      AllDescsSnoc(s.svc, SvcBuf(Take(s.pool, alloc).1, [s.descs]));
    }
  }

  predicate MovesDescs(a: System.Step) { a.Register? || a.TakeSvc? || a.WriteSvc? }

  lemma DescsSame(s: Sys, a: System.Step)
    requires Can(s, a) && !MovesDescs(a)
    ensures var r := System.Do(s, a);
      r.svc == s.svc && r.svcOut == s.svcOut && r.descs == s.descs && r.lost == s.lost && r.seen == s.seen
      && !r.phase.HasSvc? == !s.phase.HasSvc? && (s.phase.HasSvc? ==> r.svcBatch == s.svcBatch)
      && (Draining(r.phase) ==> Draining(s.phase) && r.sink == s.sink)
  {
    hide RecycleAll, Pool.Do, QueueInRange, AllDescs, Append, Close, Open;
    hide Asked, Looked, Exited, Relocked, Rotated, Undone;
    if IsLocal(a) {
      LocalFrame(s, a);
    }
  }

  lemma TrackedSame(s: Sys, r: Sys)
    requires Tracked(s) && r.svc == s.svc && r.svcOut == s.svcOut
    requires r.descs == s.descs && r.lost == s.lost && r.seen == s.seen
    requires s.phase.HasSvc? ==> r.phase.HasSvc? && r.svcBatch == s.svcBatch
    ensures Tracked(r)
  {
    hide AllDescs;
  }

  lemma TrackedKeeps(s: Sys, a: System.Step)
    requires Tracked(s) && Can(s, a)
    ensures Tracked(System.Do(s, a))
  {
    hide AllDescs, QueueInRange;
    if a.Register? {
      RegisterTracked(s, a.own, a.alloc);
    } else if !MovesDescs(a) {
      DescsSame(s, a);
      TrackedSame(s, System.Do(s, a));
    }
  }

  // ------------------------------------------------------- steps and runs

  lemma ListsBelow(s: Sys, a: System.Step)
    requires DescInv(s) && Can(s, a)
    ensures var r := System.Do(s, a);
      s.descs <= r.descs && Below(r.sink, s.descs) && Below(r.batch, s.descs) && Below(r.ready, s.descs)
  {
    hide Below, Tracked, QueueInRange, RecycleAll;
    if MovesLists(a) {
      BelowConcat(s.batch, s.ready, s.descs);
      BelowConcat(s.sink, s.batch, s.descs);
      BelowNothing(s.descs);
    } else if a.PullNext? {
      BelowConcat(s.batch, s.writers[s.todo[0]].Held(), s.descs);
    } else if a.Die? {
      BelowConcat(s.ready, s.writers[a.w].Held(), s.descs);
    } else {
      hide Can, System.Do;
      ListsSame(s, a);
      DescsGrow(s, a);
    }
  }

  lemma DescsGrow(s: Sys, a: System.Step)
    requires Can(s, a)
    ensures s.descs <= System.Do(s, a).descs
  {
    if !MovesDescs(a) {
      DescsSame(s, a);
    }
  }

  lemma BelowNothing(n: nat)
    ensures Below([], n)
  {
  }

  lemma WritersRefer(s: Sys, a: System.Step)
    requires DescInv(s) && Tails(s) && Can(s, a)
    ensures forall v :: 0 <= v < |System.Do(s, a).writers| ==> Refers(System.Do(s, a).writers[v], System.Do(s, a).descs)
  {
    hide Refers, Below, Tracked, TailInv, Can, System.Do;
    OneActor(s, a);
    DescsGrow(s, a);
    var w, r := Actor(s, a), System.Do(s, a);
    if w < |s.writers| {
      if HandsOver(a) {
        EmptyRefers(s, a);
      } else {
        ActorRefers(s, a);
      }
    } else if a.Join? {
      NewcomerRefers(s.descs);
    }
    forall v | 0 <= v < |r.writers| ensures Refers(r.writers[v], r.descs) {
      RefersMore(r.writers[v], s.descs, r.descs);
    }
  }

  lemma NewcomerRefers(n: nat)
    ensures Refers(Writer(Idle, [], None, [], 0), n)
  {
  }

  lemma EmptyRefers(s: Sys, a: System.Step)
    requires Can(s, a) && HandsOver(a)
    ensures var w, r := Actor(s, a), System.Do(s, a); w < |r.writers| && Refers(r.writers[w], s.descs)
  {
    hide QueueInRange;
  }

  /** What was in the sink when the worker last looked at the service list stays
      covered by that look. */
  lemma SinkSeen(s: Sys, a: System.Step)
    requires DescInv(s) && Can(s, a)
    ensures var r := System.Do(s, a); Draining(r.phase) ==> Below(r.sink, r.seen)
  {
    hide Below, Refers, Tracked;
    if !MovesDescs(a) {
      hide Can, System.Do;
      DescsSame(s, a);
    }
  }

  lemma DescKeeps(s: Sys, a: System.Step)
    requires DescInv(s) && Tails(s) && Can(s, a)
    ensures DescInv(System.Do(s, a))
  {
    hide Below, Refers, Tracked, Can, System.Do, Tails;
    var r := System.Do(s, a);
    TrackedKeeps(s, a);
    WritersRefer(s, a);
    ListsBelow(s, a);
    SinkSeen(s, a);
    BelowMore(r.sink, s.descs, r.descs);
    BelowMore(r.batch, s.descs, r.descs);
    BelowMore(r.ready, s.descs, r.descs);
  }

  lemma {:induction false} DescRun(s: Sys, steps: seq<System.Step>, r: Sys)
    requires DescInv(s) && Tails(s) && System.Run(s, steps, r)
    ensures DescInv(r)
    decreases |steps|
  {
    hide DescInv, Tails, Can, System.Do;
    if steps != [] {
      TailsKeep(s, steps[0]);
      DescKeeps(s, steps[0]);
      DescRun(System.Do(s, steps[0]), steps[1..], r);
    }
  }

  lemma StartDesc(pool: State)
    ensures DescInv(Start(pool)) && Tails(Start(pool))
  {
  }

  /** When a cycle is about to write its data, every descriptor needed by the data
      of all earlier cycles has been passed to write_service, unless it was
      dropped for want of room. */
  lemma AtMostOneCycleLate(pool: State, steps: seq<System.Step>, s: Sys, i: nat, p: Piece)
    requires System.Run(Start(pool), steps, s) && Can(s, WriteData) && i < |s.sink| && p in s.sink[i].data
    ensures p.desc in s.svcOut || p.desc in s.lost
  {
    hide DescInv, Tails;
    StartDesc(pool);
    DescRun(Start(pool), steps, s);
    SeenWritten(s, i, p);
  }

  lemma SeenWritten(s: Sys, i: nat, p: Piece)
    requires DescInv(s) && s.phase.Flushing? && i < |s.sink| && p in s.sink[i].data
    ensures p.desc in s.svcOut || p.desc in s.lost
  {
    assert Below(s.sink, s.seen) && s.sink[i] in s.sink && Low(s.sink[i], s.seen);
  }

  /** And data never refers to a descriptor that was not registered first. */
  lemma RegisteredFirst(pool: State, steps: seq<System.Step>, s: Sys, i: nat, p: Piece)
    requires System.Run(Start(pool), steps, s) && i < |s.sink| && p in s.sink[i].data
    ensures p.desc < s.descs
    ensures p.desc in s.svcOut || p.desc in s.lost || p.desc in AllDescs(s.svc) || p.desc in AllDescs(s.svcBatch)
  {
    hide DescInv, Tails;
    StartDesc(pool);
    DescRun(Start(pool), steps, s);
    SinkRegistered(s, i, p);
  }

  lemma SinkRegistered(s: Sys, i: nat, p: Piece)
    requires DescInv(s) && i < |s.sink| && p in s.sink[i].data
    ensures p.desc < s.descs
    ensures p.desc in s.svcOut || p.desc in s.lost || p.desc in AllDescs(s.svc) || p.desc in AllDescs(s.svcBatch)
  {
    hide AllDescs;
    assert s.sink[i] in s.sink && Low(s.sink[i], s.descs);
  }

  // ------------------------------------------------------- exactly when

  /** Written descriptors are older than the worker's last look, waiting ones are
      not, and lost ones are neither. */
  ghost predicate Sorted(s: Sys) {
    s.seen <= s.descs
    && (forall d <- s.lost :: d < s.descs)
    && (forall d <- s.svcOut :: d < s.seen && d !in s.lost)
    && (forall d <- AllDescs(s.svc) :: s.seen <= d < s.descs && d !in s.lost)
    && (s.phase.HasSvc? ==> forall d <- AllDescs(s.svcBatch) :: d < s.seen && d !in s.lost)
  }

  lemma SortedSame(s: Sys, r: Sys)
    requires Sorted(s) && r.svc == s.svc && r.svcOut == s.svcOut
    requires r.descs == s.descs && r.lost == s.lost && r.seen == s.seen
    requires r.phase.HasSvc? ==> s.phase.HasSvc? && r.svcBatch == s.svcBatch
    ensures Sorted(r)
  {
    hide AllDescs;
  }

  lemma RegisterSorted(s: Sys, own: bool, alloc: bool)
    requires Sorted(s) && Can(s, Register(own, alloc))
    ensures Sorted(Enrolled(s, own, alloc))
  {
    hide AllDescs, QueueInRange, Take;
    if !own {
      AllDescsGrow(s.svc, s.descs);
    } else if CanTake(s.pool, alloc) {
      AllDescsSnoc(s.svc, SvcBuf(Take(s.pool, alloc).1, [s.descs]));
    }
  }

  lemma SortedKeeps(s: Sys, a: System.Step)
    requires Sorted(s) && Can(s, a)
    ensures Sorted(System.Do(s, a))
  {
    hide AllDescs, QueueInRange;
    if a.Register? {
      RegisterSorted(s, a.own, a.alloc);
    } else if a.TakeSvc? {
      NoDescs();
    } else if !a.WriteSvc? {
      DescsSame(s, a);
      SortedSame(s, System.Do(s, a));
    }
  }

  lemma NoDescs()
    ensures AllDescs([]) == []
  {
  }

  lemma {:induction false} SortedRun(s: Sys, steps: seq<System.Step>, r: Sys)
    requires Sorted(s) && System.Run(s, steps, r)
    ensures Sorted(r)
    decreases |steps|
  {
    hide Sorted, Can, System.Do;
    if steps != [] {
      SortedKeeps(s, steps[0]);
      SortedRun(System.Do(s, steps[0]), steps[1..], r);
    }
  }

  lemma StartSorted(pool: State)
    ensures Sorted(Start(pool))
  {
  }

  lemma SeenSame(s: Sys, a: System.Step)
    requires Can(s, a) && !a.TakeSvc?
    ensures System.Do(s, a).seen == s.seen
  {
    if !MovesDescs(a) {
      DescsSame(s, a);
    }
  }

  /** Only the worker's look at the service list moves its horizon. */
  lemma {:induction false} SeenRun(s: Sys, steps: seq<System.Step>, r: Sys)
    requires System.Run(s, steps, r) && forall i :: 0 <= i < |steps| ==> !steps[i].TakeSvc?
    ensures r.seen == s.seen
    decreases |steps|
  {
    hide Can, System.Do;
    if steps != [] {
      SeenSame(s, steps[0]);
      SeenRun(System.Do(s, steps[0]), steps[1..], r);
    }
  }

  lemma WrittenIffSeen(s: Sys, d: nat)
    requires Tracked(s) && Sorted(s) && s.phase.Flushing? && d < s.descs && d !in s.lost
    ensures d in s.svcOut <==> d < s.seen
  {
    hide AllDescs;
  }

  lemma TakeSeen(s: Sys)
    requires Can(s, TakeSvc)
    ensures System.Do(s, TakeSvc).seen == s.descs
  {
  }

  lemma FlushingNow(s: Sys)
    requires Can(s, WriteData)
    ensures s.phase.Flushing?
  {
  }

  /** When a cycle is about to write its data, a descriptor has been written if and
      only if it was registered before the cycle took the service list; lost ones
      aside, which are never written. */
  lemma DescriptorFirstIff(pool: State, before: seq<System.Step>, t: Sys, after: seq<System.Step>, s: Sys, d: nat)
    requires System.Run(Start(pool), before, t) && Can(t, TakeSvc)
    requires System.Run(System.Do(t, TakeSvc), after, s) && forall i :: 0 <= i < |after| ==> !after[i].TakeSvc?
    requires Can(s, WriteData) && d < s.descs
    ensures d in s.svcOut <==> d < t.descs && d !in s.lost
  {
    hide Tracked, Tails, Sorted, Can, System.Do, System.Run;
    StartDesc(pool);
    StartSorted(pool);
    DescRun(Start(pool), before, t);
    TailsRun(Start(pool), before, t);
    SortedRun(Start(pool), before, t);
    DescKeeps(t, TakeSvc);
    TailsKeep(t, TakeSvc);
    SortedKeeps(t, TakeSvc);
    DescRun(System.Do(t, TakeSvc), after, s);
    SortedRun(System.Do(t, TakeSvc), after, s);
    TakeSeen(t);
    SeenRun(System.Do(t, TakeSvc), after, s);
    FlushingNow(s);
    if d in s.lost {
      LostUnwritten(s, d);
    } else {
      WrittenIffSeen(s, d);
    }
  }

  lemma LostUnwritten(s: Sys, d: nat)
    requires Sorted(s) && d in s.lost
    ensures d !in s.svcOut
  {
    hide AllDescs;
  }

  lemma {:induction false} TailsRun(s: Sys, steps: seq<System.Step>, r: Sys)
    requires Tails(s) && System.Run(s, steps, r)
    ensures Tails(r)
    decreases |steps|
  {
    hide Tails, Can, System.Do;
    if steps != [] {
      TailsKeep(s, steps[0]);
      TailsRun(System.Do(s, steps[0]), steps[1..], r);
    }
  }

  /** So the data about to be written comes after the descriptor of a piece exactly
      if that descriptor was registered before this cycle's look and not lost. */
  lemma PieceAfterDescriptorIff(pool: State, before: seq<System.Step>, t: Sys, after: seq<System.Step>, s: Sys,
                                i: nat, p: Piece)
    requires System.Run(Start(pool), before, t) && Can(t, TakeSvc)
    requires System.Run(System.Do(t, TakeSvc), after, s) && forall k :: 0 <= k < |after| ==> !after[k].TakeSvc?
    requires Can(s, WriteData) && i < |s.batch| && p in s.batch[i].data
    ensures p.desc in s.svcOut <==> p.desc < t.descs && p.desc !in s.lost
  {
    hide DescInv, Tails, Can, System.Do, System.Run;
    StartDesc(pool);
    DescRun(Start(pool), before, t);
    TailsRun(Start(pool), before, t);
    DescKeeps(t, TakeSvc);
    TailsKeep(t, TakeSvc);
    DescRun(System.Do(t, TakeSvc), after, s);
    BatchRegistered(s, i, p);
    DescriptorFirstIff(pool, before, t, after, s, p.desc);
  }

  lemma BatchRegistered(s: Sys, i: nat, p: Piece)
    requires DescInv(s) && i < |s.batch| && p in s.batch[i].data
    ensures p.desc < s.descs
  {
    hide AllDescs;
    assert s.batch[i] in s.batch && Low(s.batch[i], s.descs);
  }

  // ------------------------------------------------------- in order, once

  /** The first n descriptors but for the lost ones. */
  function Found(n: nat, lost: set<nat>): seq<nat> {
    if n == 0 then [] else Found(n - 1, lost) + if n - 1 in lost then [] else [n - 1]
  }

  function OnTheWay(s: Sys): seq<nat> { if s.phase.HasSvc? then AllDescs(s.svcBatch) else [] }

  ghost predicate InOrder(s: Sys) {
    (forall d <- s.lost :: d < s.descs)
    && s.svcOut + OnTheWay(s) + AllDescs(s.svc) == Found(s.descs, s.lost)
  }

  lemma {:induction false} FoundSame(n: nat, lost: set<nat>, d: nat)
    requires n <= d
    ensures Found(n, lost + {d}) == Found(n, lost)
  {
    if n > 0 {
      FoundSame(n - 1, lost, d);
    }
  }

  lemma RegisterInOrder(s: Sys, own: bool, alloc: bool)
    requires InOrder(s) && Can(s, Register(own, alloc))
    ensures InOrder(Enrolled(s, own, alloc))
  {
    hide AllDescs, QueueInRange, Take;
    var d := s.descs;
    var front := s.svcOut + OnTheWay(s);
    assert front + (AllDescs(s.svc) + [d]) == (front + AllDescs(s.svc)) + [d];
    if !own {
      AllDescsGrow(s.svc, d);
    } else if CanTake(s.pool, alloc) {
      AllDescsSnoc(s.svc, SvcBuf(Take(s.pool, alloc).1, [d]));
    } else {
      FoundSame(d, s.lost, d);
    }
  }

  lemma InOrderKeeps(s: Sys, a: System.Step)
    requires InOrder(s) && Can(s, a)
    ensures InOrder(System.Do(s, a))
  {
    hide AllDescs, QueueInRange, Found;
    if a.Register? {
      RegisterInOrder(s, a.own, a.alloc);
    } else if a.TakeSvc? {
      NoDescs();
      assert s.svcOut + [] + AllDescs(s.svc) == s.svcOut + AllDescs(s.svc) + [];
    } else if a.WriteSvc? {
      assert s.svcOut + AllDescs(s.svcBatch) + [] == s.svcOut + AllDescs(s.svcBatch);
    } else {
      DescsSame(s, a);
    }
  }

  lemma {:induction false} InOrderRun(s: Sys, steps: seq<System.Step>, r: Sys)
    requires InOrder(s) && System.Run(s, steps, r)
    ensures InOrder(r)
    decreases |steps|
  {
    hide InOrder, Can, System.Do;
    if steps != [] {
      InOrderKeeps(s, steps[0]);
      InOrderRun(System.Do(s, steps[0]), steps[1..], r);
    }
  }

  /** Exactly once and in order of registration: in every run, the descriptors at
      the sink, then those the worker is about to write, then those still on the
      service list are all that were registered and not lost. */
  lemma DescriptorsInOrder(pool: State, steps: seq<System.Step>, s: Sys)
    requires System.Run(Start(pool), steps, s)
    ensures s.svcOut + (if s.phase.HasSvc? then AllDescs(s.svcBatch) else []) + AllDescs(s.svc)
            == Found(s.descs, s.lost)
  {
    NoDescs();
    InOrderRun(Start(pool), steps, s);
  }
}
