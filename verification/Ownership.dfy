/** Conservation over the whole pipeline: every buffer is in exactly one place. */
module Ownership {
  import opened Records
  import opened Pool
  import opened System

  // -------------------------------------------------------- who holds what

  /** A buffer a thread has been given but not yet taken as its tail. */
  function InHand(g: Stage): multiset<Ptr> {
    if (g.Exiting? || g.Landed?) && g.got != NULL then multiset{g.got} else multiset{}
  }

  function Own(x: Writer): multiset<Ptr> { multiset(Ptrs(x.Held())) + InHand(x.stage) }

  function OwnAll(ws: seq<Writer>): multiset<Ptr> {
    if ws == [] then multiset{} else OwnAll(ws[..|ws| - 1]) + Own(ws[|ws| - 1])
  }

  function SvcPtrs(bs: seq<SvcBuf>): multiset<Ptr> {
    if bs == [] then multiset{} else SvcPtrs(bs[..|bs| - 1]) + multiset{bs[|bs| - 1].ptr}
  }

  /** Service list, service batch, ready queue and worker batch. */
  function Shared(s: Sys): multiset<Ptr> {
    SvcPtrs(s.svc) + SvcPtrs(s.svcBatch) + multiset(Ptrs(s.ready)) + multiset(Ptrs(s.batch))
  }

  function Owned(s: Sys): multiset<Ptr> { OwnAll(s.writers) + Shared(s) }

  ghost predicate Inv(s: Sys) { Pool.Inv(s.pool) && s.pool.out == Owned(s) }

  // -------------------------------------------------------- sums

  lemma PtrsConcat(a: seq<Filled>, b: seq<Filled>)
    ensures multiset(Ptrs(a + b)) == multiset(Ptrs(a)) + multiset(Ptrs(b))
  {
    assert Ptrs(a + b) == Ptrs(a) + Ptrs(b);
  }

  lemma PtrsOne(b: Filled)
    ensures multiset(Ptrs([b])) == multiset{b.ptr}
  {
    assert Ptrs([b]) == [b.ptr];
  }

  lemma PtrsNone()
    ensures multiset(Ptrs([])) == multiset{}
  {
    assert Ptrs([]) == [];
  }

  lemma {:induction false} OwnUpdate(ws: seq<Writer>, w: nat, x: Writer)
    requires w < |ws|
    ensures OwnAll(ws[w := x]) + Own(ws[w]) == OwnAll(ws) + Own(x)
    decreases |ws|
  {
    hide Own;
    var n := |ws| - 1;
    if w == n {
      assert ws[w := x][..n] == ws[..n];
    } else {
      OwnUpdate(ws[..n], w, x);
      AddBoth(OwnAll(ws[..n][w := x]), OwnAll(ws[..n]), Own(ws[n]), Own(ws[w]), Own(x));
      assert ws[w := x][..n] == ws[..n][w := x];
    }
  }

  lemma OwnedSet(s: Sys, w: nat, x: Writer)
    requires Mine(s, w)
    ensures Owned(Set(s, w, x)) + Own(s.writers[w]) == Owned(s) + Own(x)
  {
    hide Own, OwnAll, Shared;
    OwnUpdate(s.writers, w, x);
    assert Shared(Set(s, w, x)) == Shared(s) by {
      SharedSet(s, w, x);
    }
    AddBoth(OwnAll(s.writers[w := x]), OwnAll(s.writers), Shared(s), Own(s.writers[w]), Own(x));
  }

  lemma SharedSet(s: Sys, w: nat, x: Writer)
    requires Mine(s, w)
    ensures Shared(Set(s, w, x)) == Shared(s)
  {
  }

  /** A step that leaves a writer's buffers as they are. */
  lemma KeepSet(s: Sys, w: nat, x: Writer)
    requires Mine(s, w) && Own(x) == Own(s.writers[w])
    ensures Owned(Set(s, w, x)) == Owned(s)
  {
    hide Own, Owned;
    OwnedSet(s, w, x);
    Cancel(Owned(Set(s, w, x)), Owned(s), Own(x));
  }

  /** A step in which writer w gains a buffer. */
  lemma GainSet(s: Sys, w: nat, x: Writer, b: Ptr)
    requires Mine(s, w) && Own(x) == Own(s.writers[w]) + multiset{b}
    ensures Owned(Set(s, w, x)) == Owned(s) + multiset{b}
  {
    hide Own, Owned;
    OwnedSet(s, w, x);
    var o := Own(s.writers[w]);
    assert Owned(s) + (o + multiset{b}) == (Owned(s) + multiset{b}) + o;
    Cancel(Owned(Set(s, w, x)), Owned(s) + multiset{b}, o);
  }

  /** A step in which writer w gives a buffer up. */
  lemma LoseSet(s: Sys, w: nat, x: Writer, b: Ptr)
    requires Mine(s, w) && Own(s.writers[w]) == Own(x) + multiset{b}
    ensures Owned(Set(s, w, x)) + multiset{b} == Owned(s)
  {
    hide Own, Owned;
    OwnedSet(s, w, x);
    assert Owned(Set(s, w, x)) + (Own(x) + multiset{b}) == (Owned(Set(s, w, x)) + multiset{b}) + Own(x);
    Cancel(Owned(Set(s, w, x)) + multiset{b}, Owned(s), Own(x));
  }

  lemma OutReal(p: State, b: Ptr)
    requires Pool.Inv(p) && b in p.out
    ensures b != NULL
  {
    assert b in multiset(p.all) && b in p.all;
  }

  // -------------------------------------------------------- writers

  lemma OwnClose(x: Writer)
    requires x.tail.Some?
    ensures Own(Close(x)) == Own(x) && Close(x).Held() == x.Held() && Close(x).stage == x.stage
  {
  }

  lemma OwnAppend(x: Writer, p: Piece)
    requires x.tail.Some?
    ensures Own(Append(x, p)) == Own(x) && Append(x, p).stage == x.stage
  {
    assert Ptrs(Append(x, p).Held()) == Ptrs(x.Held());
  }

  lemma OwnFlag(x: Writer)
    requires x.tail.Some?
    ensures Own(x.(tail := Some(x.tail.value.(frag := true)))) == Own(x)
  {
    assert Ptrs(x.(tail := Some(x.tail.value.(frag := true))).Held()) == Ptrs(x.Held());
  }

  lemma OwnStage(x: Writer, g: Stage)
    requires InHand(g) == InHand(x.stage)
    ensures Own(x.(stage := g)) == Own(x)
  {
  }

  lemma OwnTail(x: Writer, b: Filled)
    requires x.tail.None?
    ensures Own(x.(tail := Some(b))) == Own(x) + multiset{b.ptr}
  {
    PtrsConcat(x.frags, [b]);
    PtrsOne(b);
  }

  lemma OwnPop(x: Writer, log: seq<Piece>)
    requires x.tail.None? && x.frags != []
    ensures Own(x) == Own(x.(frags := x.frags[..|x.frags| - 1], log := log)) + multiset{x.frags[|x.frags| - 1].ptr}
  {
    var n := |x.frags| - 1;
    assert x.frags == x.frags[..n] + [x.frags[n]];
    PtrsConcat(x.frags[..n], [x.frags[n]]);
    PtrsOne(x.frags[n]);
  }

  /** A writer that is not undoing a record and has no tail cannot be inside one. */
  ghost predicate TailInv(x: Writer) {
    match x.stage
    case Asking => x.tail.None?
    case Parked(_) => x.tail.None?
    case Exiting(_, _) => x.tail.None?
    case Landed(_) => x.tail.None?
    case Writing(mark, _, _) => x.tail.Some? && mark <= |x.frags|
    case Undoing(mark, _) => x.tail.None? && mark <= |x.frags|
    case Dead => x.Held() == []
    case Idle => true
  }

  ghost predicate Tails(s: Sys) { forall w :: 0 <= w < |s.writers| ==> TailInv(s.writers[w]) }

  lemma TailsSet(s: Sys, w: nat, x: Writer, r: Sys)
    requires Tails(s) && Mine(s, w) && TailInv(x) && r.writers == s.writers[w := x]
    ensures Tails(r)
  {
    hide TailInv;
  }

  /** The writer that a step moves, if any. */
  function Actor(s: Sys, a: System.Step): nat {
    match a
    case Begin(w, _) => w
    case Ask(w, _) => w
    case Look(w) => w
    case Exit(w) => w
    case Relock(w) => w
    case Abandon(w) => w
    case Head(w, _) => w
    case Rotate(w, _) => w
    case Commit(w, _) => w
    case Undo(w) => w
    case Die(w) => w
    case PullNext => if s.todo == [] then 0 else s.todo[0]
    case _ => |s.writers|
  }

  /** Every other writer is left alone. */
  lemma OneActor(s: Sys, a: System.Step)
    requires Can(s, a)
    ensures var w, r := Actor(s, a), System.Do(s, a);
      if w < |s.writers| then |r.writers| == |s.writers| && r.writers == s.writers[w := r.writers[w]]
      else r.writers == if a.Join? then s.writers + [Writer(Idle, [], None, [], 0)] else s.writers
  {
    hide Take, Park, Recycle, RecycleAll, Pool.Do, Append, Close, Open;
  }

  lemma ActorTail(s: Sys, a: System.Step)
    requires Can(s, a) && Actor(s, a) < |s.writers| && TailInv(s.writers[Actor(s, a)])
    ensures Actor(s, a) < |System.Do(s, a).writers| && TailInv(System.Do(s, a).writers[Actor(s, a)])
  {
    hide Take, Park, Recycle, RecycleAll, Pool.Do, QueueInRange;
    if IsLocal(a) {
      LocalTail(s, a);
    }
  }

  lemma LocalTail(s: Sys, a: System.Step)
    requires Can(s, a) && IsLocal(a) && TailInv(s.writers[Actor(s, a)])
    ensures Actor(s, a) < |System.Do(s, a).writers| && TailInv(System.Do(s, a).writers[Actor(s, a)])
  {
    hide Take, Park, Recycle, Pool.Do, QueueInRange, Enabled;
    if a.Rotate? || a.Undo? || a.Relock? {
      MoveTail(s, a);
    }
  }

  lemma MoveTail(s: Sys, a: System.Step)
    requires Can(s, a) && (a.Rotate? || a.Undo? || a.Relock?) && TailInv(s.writers[Actor(s, a)])
    ensures Actor(s, a) < |System.Do(s, a).writers| && TailInv(System.Do(s, a).writers[Actor(s, a)])
  {
    hide Take, Recycle, QueueInRange;
  }

  lemma TailsKeep(s: Sys, a: System.Step)
    requires Tails(s) && Can(s, a)
    ensures Tails(System.Do(s, a))
  {
    hide TailInv, System.Do, Can;
    OneActor(s, a);
    var w := Actor(s, a);
    if w < |s.writers| {
      ActorTail(s, a);
      TailsSet(s, w, System.Do(s, a).writers[w], System.Do(s, a));
    } else if a.Join? {
      NewcomerTail();
    }
  }

  lemma NewcomerTail()
    ensures TailInv(Writer(Idle, [], None, [], 0))
  {
  }

  lemma AskKeeps(s: Sys, w: nat, alloc: bool)
    requires Inv(s) && Mine(s, w) && s.writers[w].stage.Asking? && QueueInRange(s.pool)
    ensures Inv(Asked(s, w, alloc))
  {
    hide Own, Owned, Pool.Inv;
    var x := s.writers[w];
    if CanTake(s.pool, alloc) {
      TakeKeeps(s.pool, alloc);
      var (q, b) := Take(s.pool, alloc);
      OwnLanded(x, b);
      GainSet(s, w, x.(stage := Landed(b)), b);
      TakeOut(s.pool, alloc);
      PoolOnly(Set(s, w, x.(stage := Landed(b))), q);
    } else if s.pool.stopping {
      OwnStage(x, Idle);
      OwnDrops(x.(stage := Idle), x.drops + 1);
      KeepSet(s, w, x.(stage := Idle, drops := x.drops + 1));
    } else {
      ParkKeeps(s.pool);
      OwnStage(x, Parked(|s.pool.waiters|));
      KeepSet(s, w, x.(stage := Parked(|s.pool.waiters|)));
      PoolOnly(Set(s, w, x.(stage := Parked(|s.pool.waiters|))), Park(s.pool));
    }
  }

  lemma TakeOut(p: State, alloc: bool)
    requires CanTake(p, alloc)
    ensures Take(p, alloc).0.out == p.out + multiset{Take(p, alloc).1}
  {
  }

  lemma PoolOnly(s: Sys, p: State)
    ensures Owned(s.(pool := p)) == Owned(s)
  {
  }

  lemma OwnLanded(x: Writer, b: Ptr)
    requires InHand(x.stage) == multiset{} && b != NULL
    ensures Own(x.(stage := Landed(b))) == Own(x) + multiset{b}
  {
  }

  lemma OwnDrops(x: Writer, n: nat)
    ensures Own(x.(drops := n)) == Own(x)
  {
  }

  lemma LookKeeps(s: Sys, w: nat)
    requires Inv(s) && Can(s, Look(w))
    ensures Inv(Looked(s, w))
  {
    hide Own, Owned, Pool.Inv;
    var x := s.writers[w];
    var t := x.stage.ticket;
    var n := s.pool.waiters[t];
    var q := Pool.Do(s.pool, Check(t));
    CheckKeeps(s.pool, t);
    if n.done {
      var y := x.(stage := Exiting(t, n.buf));
      OwnExiting(x, t, n.buf);
      if n.buf == NULL {
        KeepSet(s, w, y);
      } else {
        GainSet(s, w, y, n.buf);
      }
      PoolOnly(Set(s, w, y), q);
    } else {
      PoolOnly(s, q);
    }
  }

  lemma OwnExiting(x: Writer, t: nat, b: Ptr)
    requires InHand(x.stage) == multiset{}
    ensures Own(x.(stage := Exiting(t, b))) == if b == NULL then Own(x) else Own(x) + multiset{b}
  {
  }

  lemma ExitKeeps(s: Sys, w: nat)
    requires Inv(s) && Can(s, Exit(w))
    ensures Inv(Exited(s, w))
  {
    hide Own, Owned, Pool.Inv;
    var x := s.writers[w];
    LeaveKeeps(s.pool, x.stage.ticket);
    OwnStage(x, Landed(x.stage.got));
    KeepSet(s, w, x.(stage := Landed(x.stage.got)));
    PoolOnly(Set(s, w, x.(stage := Landed(x.stage.got))), Pool.Do(s.pool, Leave(x.stage.ticket)));
  }

  lemma OwnRelock(x: Writer, w: nat)
    requires x.stage.Landed? && x.tail.None?
    ensures var b := x.stage.got;
      if b == NULL then Own(x.(stage := Idle, drops := x.drops + 1)) == Own(x)
      else Own(Open(x.(tail := Some(Filled(b, w, false, false, []))))) == Own(x)
  {
    hide Own, InHand, Open;
    LandedHand(x);
    if x.stage.got == NULL {
      OwnStage(x, Idle);
      OwnDrops(x.(stage := Idle), x.drops + 1);
    } else {
      var y := x.(tail := Some(Filled(x.stage.got, w, false, false, [])));
      OwnTail(x, y.tail.value);
      OwnLose(y, Writing(|y.frags|, true, None));
      Cancel(Own(Open(y)), Own(x), multiset{x.stage.got});
    }
  }

  lemma LandedHand(x: Writer)
    requires x.stage.Landed?
    ensures InHand(x.stage) == if x.stage.got == NULL then multiset{} else multiset{x.stage.got}
    ensures InHand(Idle) == multiset{}
  {
  }

  lemma OwnLose(x: Writer, g: Stage)
    requires x.stage.Landed? && x.tail.Some? && !x.tail.value.cont && x.stage.got != NULL
    requires g == Writing(|x.frags|, true, None)
    ensures Open(x) == x.(stage := g) && Own(x.(stage := g)) + multiset{x.stage.got} == Own(x)
  {
  }

  lemma RelockKeeps(s: Sys, w: nat)
    requires Inv(s) && Tails(s) && Can(s, Relock(w))
    ensures Inv(Relocked(s, w))
  {
    hide Own, Owned, Pool.Inv, Open;
    var x := s.writers[w];
    OwnRelock(x, w);
    KeepSet(s, w, Relocked(s, w).writers[w]);
  }

  lemma RotateKeeps(s: Sys, w: nat, alloc: bool)
    requires Inv(s) && Can(s, Rotate(w, alloc))
    ensures Inv(Rotated(s, w, alloc))
  {
    hide Own, Owned, Pool.Inv, Close, Append;
    var x := s.writers[w];
    var f := x.(tail := Some(x.tail.value.(frag := true)));
    var y := Close(f);
    OwnFlag(x);
    OwnClose(f);
    ClosedShape(f);
    if CanTake(s.pool, alloc) {
      TakeKeeps(s.pool, alloc);
      TakeOut(s.pool, alloc);
      var (q, b) := Take(s.pool, alloc);
      var n := Filled(b, w, false, true, []);
      OwnTail(y, n);
      var z := Append(y.(tail := Some(n)), x.stage.piece.value);
      OwnAppend(y.(tail := Some(n)), x.stage.piece.value);
      GainSet(s, w, z, b);
      PoolOnly(Set(s, w, z), q);
    } else {
      OwnStage(y, Undoing(x.stage.mark, x.stage.clean));
      KeepSet(s, w, y.(stage := Undoing(x.stage.mark, x.stage.clean)));
    }
  }

  lemma ClosedShape(x: Writer)
    requires x.tail.Some?
    ensures Close(x) == x.(frags := x.frags + [x.tail.value], tail := None)
  {
  }

  lemma UndoKeeps(s: Sys, w: nat)
    requires Inv(s) && Tails(s) && Can(s, Undo(w))
    ensures Inv(Undone(s, w))
  {
    hide Own, Owned, Pool.Inv, Recycle, QueueInRange;
    var x := s.writers[w];
    if |x.frags| > x.stage.mark {
      PopKeeps(s, w);
    } else {
      OwnStage(x, Idle);
      OwnDrops(x.(stage := Idle), x.drops + 1);
      KeepSet(s, w, x.(stage := Idle, drops := x.drops + 1));
      TornOnly(Set(s, w, x.(stage := Idle, drops := x.drops + 1)), s.torn || !x.stage.clean);
    }
  }

  lemma PopKeeps(s: Sys, w: nat)
    requires Inv(s) && Tails(s) && Can(s, Undo(w)) && |s.writers[w].frags| > s.writers[w].stage.mark
    ensures Inv(Undone(s, w))
  {
    hide Own, Owned, Pool.Inv, Recycle, QueueInRange;
    var x, r := s.writers[w], Undone(s, w);
    var b := x.frags[|x.frags| - 1].ptr;
    OwnPop(x, r.writers[w].log);
    LoseSet(s, w, r.writers[w], b);
    ReleaseOne(s, Set(s, w, r.writers[w]), b);
  }

  lemma TornOnly(s: Sys, b: bool)
    ensures Owned(s.(torn := b)) == Owned(s)
  {
  }

  /** Whoever gives buffer b up may hand it to the pool. */
  lemma ReleaseOne(s: Sys, r: Sys, b: Ptr)
    requires Inv(s) && r.pool == s.pool && Owned(r) + multiset{b} == Owned(s) && QueueInRange(s.pool)
    ensures Inv(r.(pool := Recycle(s.pool, b)))
  {
    hide Owned, Pool.Inv, Recycle;
    assert b in s.pool.out;
    OutReal(s.pool, b);
    RecycleKeeps(s.pool, b);
    assert s.pool.out - multiset{b} == Owned(r);
    PoolOnly(r, Recycle(s.pool, b));
  }

  lemma {:induction false} SvcPtrsShift(bs: seq<SvcBuf>)
    requires bs != []
    ensures SvcPtrs(bs) == SvcPtrs(bs[1..]) + multiset{bs[0].ptr}
    decreases |bs|
  {
    var n := |bs| - 1;
    if n > 0 {
      SvcPtrsShift(bs[..n]);
      assert bs[..n][1..] == bs[1..][..n - 1];
    }
  }

  lemma FreeSvcKeeps(s: Sys)
    requires Inv(s) && QueueInRange(s.pool) && s.svcBatch != []
    ensures Inv(s.(pool := Recycle(s.pool, s.svcBatch[0].ptr), svcBatch := s.svcBatch[1..]))
  {
    hide OwnAll, Pool.Inv, Recycle, SvcPtrs;
    SvcPtrsShift(s.svcBatch);
    var r := s.(svcBatch := s.svcBatch[1..]);
    assert Owned(r) + multiset{s.svcBatch[0].ptr} == Owned(s);
    ReleaseOne(s, r, s.svcBatch[0].ptr);
  }

  /** Buffers that are all in out can be given back in one batch. */
  lemma {:induction false} BatchHeld(out: multiset<Ptr>, bs: seq<Ptr>)
    requires multiset(bs) <= out
    ensures Pool.Held(out, bs)
    decreases |bs|
  {
    if bs != [] {
      assert bs == bs[..|bs| - 1] + [bs[|bs| - 1]];
      BatchHeld(out, bs[..|bs| - 1]);
    }
  }

  lemma FreeDataKeeps(s: Sys)
    requires Inv(s) && QueueInRange(s.pool)
    ensures Inv(s.(pool := RecycleAll(s.pool, Ptrs(s.batch)), batch := [], phase := Rest))
  {
    hide OwnAll, Pool.Inv, RecycleAll, SvcPtrs;
    var bs := Ptrs(s.batch);
    var rest := OwnAll(s.writers) + (SvcPtrs(s.svc) + SvcPtrs(s.svcBatch) + multiset(Ptrs(s.ready)));
    assert s.pool.out == rest + multiset(bs);
    BatchHeld(s.pool.out, bs);
    RecycleAllKeeps(s.pool, bs);
    NoNulls(s.pool, bs);
    var gone: multiset<Ptr> := multiset(bs);
    assert gone[NULL := 0] == gone;
    PtrsNone();
    var r := s.(pool := RecycleAll(s.pool, bs), batch := [], phase := Rest);
    assert Owned(r) == rest;
    assert s.pool.out - multiset(bs) == rest;
  }

  lemma NoNulls(p: State, bs: seq<Ptr>)
    requires Pool.Inv(p) && multiset(bs) <= p.out
    ensures multiset(bs)[NULL] == 0
  {
    if multiset(bs)[NULL] > 0 {
      assert NULL in p.out;
      OutReal(p, NULL);
    }
  }

  lemma RegisterKeeps(s: Sys, own: bool, alloc: bool)
    requires Inv(s) && Can(s, Register(own, alloc))
    ensures Inv(Enrolled(s, own, alloc))
  {
    hide OwnAll, Pool.Inv, SvcPtrs, Take;
    var r := Enrolled(s, own, alloc);
    if !own {
      SvcGrow(s.svc, s.descs);
    } else if CanTake(s.pool, alloc) {
      TakeKeeps(s.pool, alloc);
      TakeOut(s.pool, alloc);
      var p: Ptr := Take(s.pool, alloc).1;
      SvcSnoc(s.svc, SvcBuf(p, [s.descs]));
      OwnedSvc(s, r, p);
    } else {
      OwnedLost(s, r);
    }
  }

  lemma OwnedLost(s: Sys, r: Sys)
    requires r == s.(descs := r.descs, lost := r.lost)
    ensures Owned(r) == Owned(s)
  {
  }

  lemma OwnedSvc(s: Sys, r: Sys, p: Ptr)
    requires r == s.(descs := r.descs, svc := r.svc, pool := r.pool) && SvcPtrs(r.svc) == SvcPtrs(s.svc) + multiset{p}
    ensures Owned(r) == Owned(s) + multiset{p}
  {
    hide OwnAll, SvcPtrs, Ptrs;
  }

  lemma SvcGrow(bs: seq<SvcBuf>, d: nat)
    requires bs != []
    ensures var n := |bs| - 1; SvcPtrs(bs[n := bs[n].(descs := bs[n].descs + [d])]) == SvcPtrs(bs)
  {
    var n := |bs| - 1;
    assert bs[n := bs[n].(descs := bs[n].descs + [d])][..n] == bs[..n];
  }

  lemma SvcSnoc(bs: seq<SvcBuf>, b: SvcBuf)
    ensures SvcPtrs(bs + [b]) == SvcPtrs(bs) + multiset{b.ptr}
  {
    assert (bs + [b])[..|bs|] == bs;
  }

  // -------------------------------------------------------- moving whole lists

  lemma OwnEmptied(x: Writer, g: Stage)
    requires InHand(g) == InHand(x.stage)
    ensures Own(x.(stage := g, frags := [], tail := None)) + multiset(Ptrs(x.Held())) == Own(x)
  {
    PtrsNone();
  }

  lemma HandOver(s: Sys, w: nat, g: Stage)
    requires Mine(s, w) && InHand(g) == InHand(s.writers[w].stage)
    ensures var x := s.writers[w];
      Owned(Set(s, w, x.(stage := g, frags := [], tail := None))) + multiset(Ptrs(x.Held())) == Owned(s)
  {
    hide Own, Owned;
    var x := s.writers[w];
    var y := x.(stage := g, frags := [], tail := None);
    var h := multiset(Ptrs(x.Held()));
    OwnEmptied(x, g);
    OwnedSet(s, w, y);
    assert Owned(Set(s, w, y)) + (Own(y) + h) == (Owned(Set(s, w, y)) + h) + Own(y);
    Cancel(Owned(Set(s, w, y)) + h, Owned(s), Own(y));
  }

  lemma DieKeeps(s: Sys, w: nat)
    requires Inv(s) && Can(s, Die(w))
    ensures Inv(System.Do(s, Die(w)))
  {
    hide Owned, Own, Pool.Inv, Pool.Do;
    var x := s.writers[w];
    HandOver(s, w, Dead);
    var m := Set(s, w, x.(stage := Dead, frags := [], tail := None));
    JoinsQueue(m, x.Held());
    assert System.Do(s, Die(w)) == m.(ready := m.ready + x.Held());
  }

  lemma JoinsQueue(s: Sys, bs: seq<Filled>)
    ensures Owned(s.(ready := s.ready + bs)) == Owned(s) + multiset(Ptrs(bs))
    ensures forall todo :: Owned(s.(batch := s.batch + bs, todo := todo)) == Owned(s) + multiset(Ptrs(bs))
  {
    hide OwnAll, SvcPtrs;
    PtrsConcat(s.ready, bs);
    PtrsConcat(s.batch, bs);
  }

  lemma PullKeeps(s: Sys)
    requires Inv(s) && Can(s, PullNext)
    ensures Inv(Pulled(s))
  {
    hide Owned, Own, Pool.Inv;
    var w := s.todo[0];
    var x := s.writers[w];
    HandOver(s, w, x.stage);
    var m := Set(s, w, x.(frags := [], tail := None));
    JoinsQueue(m, x.Held());
    assert Pulled(s) == m.(batch := m.batch + x.Held(), todo := s.todo[1..]);
  }

  lemma TakeReadyKeeps(s: Sys, todo: seq<nat>)
    requires Inv(s)
    ensures Inv(s.(batch := s.batch + s.ready, ready := [], todo := todo, phase := Pulling))
  {
    hide OwnAll, Pool.Inv, SvcPtrs;
    PtrsConcat(s.batch, s.ready);
    PtrsNone();
  }

  lemma TakeSvcKeeps(s: Sys)
    requires Inv(s) && s.svcBatch == []
    ensures Inv(s.(svcBatch := s.svc, svc := [], seen := s.descs, phase := HasSvc))
  {
    hide OwnAll, Pool.Inv;
  }

  lemma BeginKeeps(s: Sys, w: nat, keep: bool)
    requires Inv(s) && Mine(s, w) && s.writers[w].stage.Idle? && (keep ==> s.writers[w].tail.Some?)
    ensures var x := s.writers[w];
      Inv(Set(s, w, if keep then Open(x) else (if x.tail.Some? then Close(x) else x).(stage := Asking)))
  {
    hide Own, Owned, Pool.Inv, Open, Close;
    var x := s.writers[w];
    if keep {
      OwnOpen(x);
      KeepSet(s, w, Open(x));
    } else {
      if x.tail.Some? {
        OwnClose(x);
      }
      var y := if x.tail.Some? then Close(x) else x;
      OwnStage(y, Asking);
      KeepSet(s, w, y.(stage := Asking));
    }
  }

  lemma HeadKeeps(s: Sys, w: nat, p: Piece)
    requires Inv(s) && Mine(s, w) && s.writers[w].stage.Writing? && s.writers[w].tail.Some?
    ensures var x := Append(s.writers[w], p);
      x.stage.Writing? && Inv(Set(s, w, x.(stage := x.stage.(piece := Some(p)))))
  {
    hide Own, Owned, Pool.Inv, Append;
    var x := Append(s.writers[w], p);
    OwnAppend(s.writers[w], p);
    OwnStage(x, x.stage.(piece := Some(p)));
    KeepSet(s, w, x.(stage := x.stage.(piece := Some(p))));
  }

  /** The end of a record, or of one that never got a descriptor. */
  lemma EndKeeps(s: Sys, w: nat, full: bool)
    requires Inv(s) && Mine(s, w) && s.writers[w].stage.Writing? && (full ==> s.writers[w].tail.Some?)
    ensures Inv(Set(s, w, (if full then Close(s.writers[w]) else s.writers[w]).(stage := Idle)))
  {
    hide Own, Owned, Pool.Inv, Close;
    if full {
      OwnClose(s.writers[w]);
    }
    var y := if full then Close(s.writers[w]) else s.writers[w];
    OwnStage(y, Idle);
    KeepSet(s, w, y.(stage := Idle));
  }

  lemma OwnOpen(x: Writer)
    requires x.tail.Some? && InHand(x.stage) == multiset{}
    ensures Own(Open(x)) == Own(x)
  {
  }

  // -------------------------------------------------------- runs

  lemma StepKeeps(s: Sys, a: System.Step)
    requires Inv(s) && Tails(s) && (s.phase.Rest? ==> s.svcBatch == []) && Can(s, a)
    ensures Inv(System.Do(s, a))
  {
    hide Inv, Tails;
    if IsLocal(a) {
      LocalKeeps(s, a);
    } else {
      OtherKeeps(s, a);
    }
  }

  lemma LocalKeeps(s: Sys, a: System.Step)
    requires Inv(s) && Tails(s) && Can(s, a) && IsLocal(a)
    ensures Inv(System.Do(s, a))
  {
    hide Inv, Own, OwnAll, Shared, SvcPtrs, Pool.Inv, TailInv, Tails, Enabled, QueueInRange;
    hide Looked, Exited, Relocked, Rotated, Undone, Asked, Enrolled, Pulled;
    match a
    case Begin(w, keep) => BeginKeeps(s, w, keep);
    case Ask(w, alloc) => AskKeeps(s, w, alloc);
    case Look(w) => LookKeeps(s, w);
    case Exit(w) => ExitKeeps(s, w);
    case Relock(w) => RelockKeeps(s, w);
    case Abandon(w) => EndKeeps(s, w, false);
    case Head(w, p) => HeadKeeps(s, w, p);
    case Rotate(w, alloc) => RotateKeeps(s, w, alloc);
    case Commit(w, full) => EndKeeps(s, w, full);
    case Undo(w) => UndoKeeps(s, w);
  }

  lemma OtherKeeps(s: Sys, a: System.Step)
    requires Inv(s) && (s.phase.Rest? ==> s.svcBatch == []) && Can(s, a) && !IsLocal(a)
    ensures Inv(System.Do(s, a))
  {
    hide Own, OwnAll, Shared, SvcPtrs, Pool.Inv;
    hide Enrolled, Pulled;
    match a
    case Join => JoinKeeps(s);
    case Die(w) => DieKeeps(s, w);
    case Register(own, alloc) => RegisterKeeps(s, own, alloc);
    case Rouse(t) => PoolKeeps(s, Pool.Rouse(t));
    case Stop => PoolKeeps(s, StopAll);
    case OtherBudget(room) => PoolKeeps(s, Budget(room));
    case TakeSvc => TakeSvcKeeps(s);
    case WriteSvc => SameShared(s, System.Do(s, a));
    case FreeSvc =>
      if s.svcBatch != [] {
        FreeSvcKeeps(s);
      }
    case TakeReady(todo) => TakeReadyKeeps(s, todo);
    case PullNext => PullKeeps(s);
    case EndDrain => SameShared(s, System.Do(s, a));
    case WriteData => SameShared(s, System.Do(s, a));
    case FreeData => FreeDataKeeps(s);
  }

  lemma SameShared(s: Sys, r: Sys)
    requires Inv(s) && r.pool == s.pool && r.writers == s.writers && r.svc == s.svc && r.svcBatch == s.svcBatch
    requires r.ready == s.ready && r.batch == s.batch
    ensures Inv(r)
  {
    hide OwnAll, Pool.Inv, SvcPtrs;
  }

  lemma PoolKeeps(s: Sys, a: Pool.Step)
    requires Inv(s) && Enabled(s.pool, a) && (a.Rouse? || a.StopAll? || a.Budget?)
    ensures Inv(s.(pool := Pool.Do(s.pool, a)))
  {
    hide Owned, Pool.Inv;
    Pool.StepKeeps(s.pool, a);
    PoolOnly(s, Pool.Do(s.pool, a));
  }

  lemma JoinKeeps(s: Sys)
    requires Inv(s)
    ensures Inv(s.(writers := s.writers + [Writer(Idle, [], None, [], 0)]))
  {
    hide Pool.Inv, Shared;
    var x := Writer(Idle, [], None, [], 0);
    assert (s.writers + [x])[..|s.writers|] == s.writers;
    PtrsNone();
    assert Own(x) == multiset{};
    SharedJoin(s, s.writers + [x]);
  }

  lemma SharedJoin(s: Sys, ws: seq<Writer>)
    ensures Shared(s.(writers := ws)) == Shared(s)
  {
  }

  /** The worker's own bookkeeping between phases. */
  ghost predicate Phased(s: Sys) {
    (s.phase.Rest? ==> s.svcBatch == [] && s.batch == [])
    && ((s.phase.Pulling? || s.phase.Flushing? || s.phase.Freeing?) ==> s.svcBatch == [])
    && ((s.phase.HasSvc? || s.phase.FreeingSvc?) ==> s.batch == [])
  }

  lemma PhasedKeep(s: Sys, a: System.Step)
    requires Phased(s) && Can(s, a)
    ensures Phased(System.Do(s, a))
  {
    hide RecycleAll, Pool.Do, QueueInRange, Asked, Looked, Exited, Relocked, Rotated, Undone, Append, Close, Open;
    if IsLocal(a) {
      LocalFrame(s, a);
    }
  }

  lemma {:induction false} RunKeeps(s: Sys, steps: seq<System.Step>, r: Sys)
    requires Inv(s) && Tails(s) && Phased(s) && System.Run(s, steps, r)
    ensures Inv(r) && Tails(r) && Phased(r)
    decreases |steps|
  {
    hide Inv, Tails, Can, System.Do;
    if steps != [] {
      StepKeeps(s, steps[0]);
      TailsKeep(s, steps[0]);
      PhasedKeep(s, steps[0]);
      RunKeeps(System.Do(s, steps[0]), steps[1..], r);
    }
  }

  lemma StartInv(pool: State)
    requires Pool.Inv(pool) && pool.out == multiset{}
    ensures Inv(Start(pool)) && Tails(Start(pool)) && Phased(Start(pool))
  {
    hide Pool.Inv;
    PtrsNone();
  }

  /** Conservation: in every reachable state each allocated buffer is in exactly
      one of the free list, a served waiter's slot, a writer, the service list,
      the ready queue or one of the worker's batches. */
  lemma BuffersConserved(pool: State, steps: seq<System.Step>, s: Sys, b: Ptr)
    requires Pool.Inv(pool) && pool.out == multiset{} && System.Run(Start(pool), steps, s) && b in s.pool.all
    ensures multiset(s.pool.free)[b] + Slots(s.pool.waiters)[b] + OwnAll(s.writers)[b] + SvcPtrs(s.svc)[b]
            + SvcPtrs(s.svcBatch)[b] + multiset(Ptrs(s.ready))[b] + multiset(Ptrs(s.batch))[b] == 1
  {
    StartInv(pool);
    RunKeeps(Start(pool), steps, s);
    AllOnce(s, b);
  }

  lemma AllOnce(s: Sys, b: Ptr)
    requires Inv(s) && b in s.pool.all
    ensures multiset(s.pool.free)[b] + Slots(s.pool.waiters)[b] + Owned(s)[b] == 1
  {
    hide OwnAll, Shared, Slots;
    Once(s.pool.all, b);
  }
}
