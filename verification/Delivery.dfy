/** Every writer's buffers reach the sink exactly once and in fill order. */
module Delivery {
  import opened Records
  import opened Pool
  import opened System
  import opened Ownership

  // ------------------------------------------------------- order of delivery

  /** All item data of a list of buffers. */
  function Data(bs: seq<Filled>): seq<Piece> {
    if bs == [] then [] else Data(bs[..|bs| - 1]) + bs[|bs| - 1].data
  }

  /** The part of it that writer v produced. */
  function Of(v: nat, bs: seq<Filled>): seq<Piece> {
    if bs == [] then []
    else Of(v, bs[..|bs| - 1]) + if bs[|bs| - 1].owner == v then bs[|bs| - 1].data else []
  }

  /** What has reached the sink or is sure to, in order. */
  function Handed(s: Sys): seq<Filled> {
    s.sink + (if s.phase.Freeing? then [] else s.batch) + s.ready
  }

  ghost predicate OwnedBy(bs: seq<Filled>, v: nat) { forall b <- bs :: b.owner == v }

  /** Nothing this writer produced is lost, repeated or reordered: of is the
      part already handed over, the buffers it holds are the rest. */
  ghost predicate Straight(x: Writer, v: nat, of: seq<Piece>) {
    of + Data(x.Held()) == x.log && OwnedBy(x.Held(), v)
  }

  ghost predicate OrderInv(s: Sys) {
    (forall v :: 0 <= v < |s.writers| ==> Straight(s.writers[v], v, Of(v, Handed(s))))
    && (forall b <- Handed(s) :: b.owner < |s.writers|)
    && (forall b <- s.ready :: b.owner < |s.writers| && s.writers[b.owner].stage.Dead?)
  }

  lemma {:induction false} OfConcat(v: nat, a: seq<Filled>, b: seq<Filled>)
    ensures Of(v, a + b) == Of(v, a) + Of(v, b)
    decreases |b|
  {
    if b == [] {
      assert a + b == a;
    } else {
      OfConcat(v, a, b[..|b| - 1]);
      assert (a + b)[..|a + b| - 1] == a + b[..|b| - 1];
    }
  }

  lemma {:induction false} OfOwn(v: nat, bs: seq<Filled>)
    requires OwnedBy(bs, v)
    ensures Of(v, bs) == Data(bs)
    decreases |bs|
  {
    if bs != [] {
      assert bs[|bs| - 1] in bs;
      OfOwn(v, bs[..|bs| - 1]);
    }
  }

  lemma {:induction false} OfOther(v: nat, bs: seq<Filled>)
    requires forall b <- bs :: b.owner != v
    ensures Of(v, bs) == []
    decreases |bs|
  {
    if bs != [] {
      assert bs[|bs| - 1] in bs;
      OfOther(v, bs[..|bs| - 1]);
    }
  }

  lemma DataSnoc(bs: seq<Filled>, b: Filled)
    ensures Data(bs + [b]) == Data(bs) + b.data
  {
    assert (bs + [b])[..|bs|] == bs;
  }

  lemma OwnedSnoc(bs: seq<Filled>, b: Filled, v: nat)
    ensures OwnedBy(bs + [b], v) <==> OwnedBy(bs, v) && b.owner == v
  {
    assert (bs + [b])[|bs|] == b;
    assert forall i :: 0 <= i < |bs| ==> (bs + [b])[i] == bs[i];
  }

  lemma StraightClose(x: Writer, v: nat, of: seq<Piece>, g: Stage)
    requires Straight(x, v, of) && x.tail.Some?
    ensures Straight(Close(x).(stage := g), v, of)
  {
  }

  lemma StraightFlag(x: Writer, v: nat, of: seq<Piece>)
    requires Straight(x, v, of) && x.tail.Some?
    ensures Straight(x.(tail := Some(x.tail.value.(frag := true))), v, of)
  {
    hide Data;
    DataSnoc(x.frags, x.tail.value);
    DataSnoc(x.frags, x.tail.value.(frag := true));
    OwnedSnoc(x.frags, x.tail.value, v);
    OwnedSnoc(x.frags, x.tail.value.(frag := true), v);
  }

  lemma StraightAppend(x: Writer, v: nat, of: seq<Piece>, p: Piece)
    requires Straight(x, v, of) && x.tail.Some?
    ensures Straight(Append(x, p), v, of)
  {
    hide Data;
    var b := x.tail.value;
    var c := b.(data := b.data + [p]);
    DataSnoc(x.frags, b);
    DataSnoc(x.frags, c);
    OwnedSnoc(x.frags, b, v);
    OwnedSnoc(x.frags, c, v);
    assert of + (Data(x.frags) + (b.data + [p])) == (of + (Data(x.frags) + b.data)) + [p];
  }

  lemma StraightTail(x: Writer, v: nat, of: seq<Piece>, b: Filled)
    requires Straight(x, v, of) && x.tail.None? && b.data == [] && b.owner == v
    ensures Straight(x.(tail := Some(b)), v, of)
  {
    hide Data;
    DataSnoc(x.frags, b);
    OwnedSnoc(x.frags, b, v);
    assert Data(x.frags) + [] == Data(x.frags);
  }

  lemma StraightPop(x: Writer, v: nat, of: seq<Piece>)
    requires Straight(x, v, of) && x.tail.None? && x.frags != []
    ensures var n := |x.frags| - 1; var b := x.frags[n];
      |b.data| <= |x.log| && Straight(x.(frags := x.frags[..n], log := x.log[..|x.log| - |b.data|]), v, of)
  {
    hide Data;
    var n := |x.frags| - 1;
    var b := x.frags[n];
    assert x.frags == x.frags[..n] + [b];
    DataSnoc(x.frags[..n], b);
    OwnedSnoc(x.frags[..n], b, v);
    assert x.log == (of + Data(x.frags[..n])) + b.data;
  }

  lemma StraightSame(x: Writer, v: nat, of: seq<Piece>, y: Writer)
    requires Straight(x, v, of) && y.frags == x.frags && y.tail == x.tail && y.log == x.log
    ensures Straight(y, v, of)
  {
  }

  predicate HandsOver(a: System.Step) { a.PullNext? || a.Die? }

  /** A writer's own steps keep its books straight, whatever it handed over. */
  lemma ActorStraight(s: Sys, a: System.Step, of: seq<Piece>)
    requires Can(s, a) && !HandsOver(a) && Actor(s, a) < |s.writers|
    requires Straight(s.writers[Actor(s, a)], Actor(s, a), of) && TailInv(s.writers[Actor(s, a)])
    ensures |System.Do(s, a).writers| == |s.writers|
    ensures Straight(System.Do(s, a).writers[Actor(s, a)], Actor(s, a), of)
  {
    if Edits(a) {
      hide *;
      EditStraight(s, a, of);
    } else {
      PoolStraight(s, a, of);
    }
  }

  lemma EditStraight(s: Sys, a: System.Step, of: seq<Piece>)
    requires Can(s, a) && Edits(a) && Actor(s, a) < |s.writers|
    requires Straight(s.writers[Actor(s, a)], Actor(s, a), of)
    ensures |System.Do(s, a).writers| == |s.writers|
    ensures Straight(System.Do(s, a).writers[Actor(s, a)], Actor(s, a), of)
  {
    hide Straight, Append, Close, QueueInRange;
    var w := Actor(s, a);
    var x := s.writers[w];
    var r := System.Do(s, a);
    match a
    case Begin(_, keep) =>
      if keep || x.tail.None? {
        StraightSame(x, w, of, r.writers[w]);
      } else {
        StraightClose(x, w, of, Asking);
      }
    case Head(_, p) =>
      StraightAppend(x, w, of, p);
      StraightSame(Append(x, p), w, of, r.writers[w]);
    case Commit(_, full) =>
      if full {
        StraightClose(x, w, of, Idle);
      } else {
        StraightSame(x, w, of, r.writers[w]);
      }
    case Abandon(_) => StraightSame(x, w, of, r.writers[w]);
  }

  lemma PoolStraight(s: Sys, a: System.Step, of: seq<Piece>)
    requires Can(s, a) && !HandsOver(a) && !Edits(a) && Actor(s, a) < |s.writers|
    requires Straight(s.writers[Actor(s, a)], Actor(s, a), of) && TailInv(s.writers[Actor(s, a)])
    ensures |System.Do(s, a).writers| == |s.writers|
    ensures Straight(System.Do(s, a).writers[Actor(s, a)], Actor(s, a), of)
  {
    hide Straight, Append, Close, QueueInRange, Take, Park, Recycle, Pool.Do, Enabled;
    var w := Actor(s, a);
    var x := s.writers[w];
    var r := System.Do(s, a);
    match a
    case Rotate(_, alloc) => RotateStraight(s, w, alloc, of);
    case Undo(_) =>
      if |x.frags| > x.stage.mark {
        StraightPop(x, w, of);
      }
      StraightSame(if |x.frags| > x.stage.mark then x.(frags := r.writers[w].frags, log := r.writers[w].log) else x,
                   w, of, r.writers[w]);
    case Relock(_) =>
      if x.stage.got == NULL {
        StraightSame(x, w, of, r.writers[w]);
      } else {
        var y := x.(tail := Some(Filled(x.stage.got, w, false, false, [])));
        StraightTail(x, w, of, y.tail.value);
        StraightSame(y, w, of, r.writers[w]);
      }
    case Ask(_, _) => StraightSame(x, w, of, r.writers[w]);
    case Look(_) => StraightSame(x, w, of, r.writers[w]);
    case Exit(_) => StraightSame(x, w, of, r.writers[w]);
    case _ =>
  }

  lemma RotateStraight(s: Sys, w: nat, alloc: bool, of: seq<Piece>)
    requires Can(s, Rotate(w, alloc)) && Straight(s.writers[w], w, of)
    ensures Straight(Rotated(s, w, alloc).writers[w], w, of)
  {
    hide Straight, Append, QueueInRange, Take;
    var x := s.writers[w];
    var f := x.(tail := Some(x.tail.value.(frag := true)));
    StraightFlag(x, w, of);
    StraightClose(f, w, of, f.stage);
    var y := Close(f);
    if CanTake(s.pool, alloc) {
      var n := Filled(Take(s.pool, alloc).1, w, false, true, []);
      StraightTail(y, w, of, n);
      StraightAppend(y.(tail := Some(n)), w, of, x.stage.piece.value);
    } else {
      StraightSame(y, w, of, Rotated(s, w, alloc).writers[w]);
    }
  }

  predicate MovesLists(a: System.Step) { a.TakeReady? || a.WriteData? || a.FreeData? }

  lemma ListsSame(s: Sys, a: System.Step)
    requires Can(s, a) && !HandsOver(a) && !MovesLists(a)
    ensures var r := System.Do(s, a);
      r.sink == s.sink && r.batch == s.batch && r.ready == s.ready && r.phase.Freeing? == s.phase.Freeing?
  {
    hide RecycleAll, Pool.Do, QueueInRange, AllDescs, Append, Close, Open;
    hide Asked, Looked, Exited, Relocked, Rotated, Undone;
    if IsLocal(a) {
      LocalFrame(s, a);
    }
  }

  /** Only handing over changes what has been handed over. */
  lemma HandedSame(s: Sys, a: System.Step)
    requires Can(s, a) && !HandsOver(a) && Phased(s)
    ensures Handed(System.Do(s, a)) == Handed(s)
    ensures System.Do(s, a).ready == if a.TakeReady? then [] else s.ready
  {
    hide RecycleAll, QueueInRange;
    if !MovesLists(a) {
      hide Can, System.Do;
      ListsSame(s, a);
    } else if a.TakeReady? {
      assert s.batch == [] && s.sink + ([] + s.ready) + [] == s.sink + [] + s.ready;
    } else if a.WriteData? {
      assert (s.sink + s.batch) + [] + s.ready == s.sink + s.batch + s.ready;
    }
  }

  lemma OrderLocal(s: Sys, a: System.Step)
    requires OrderInv(s) && Tails(s) && Phased(s) && Can(s, a) && !HandsOver(a)
    ensures OrderInv(System.Do(s, a))
  {
    hide Straight, TailInv, Can, System.Do, Handed, Phased;
    HandedSame(s, a);
    OneActor(s, a);
    var w, r := Actor(s, a), System.Do(s, a);
    if w < |s.writers| {
      ActorStraight(s, a, Of(w, Handed(s)));
      StaysDead(s, a);
    } else if a.Join? {
      NewcomerStraight(s);
    }
  }

  lemma StaysDead(s: Sys, a: System.Step)
    requires Can(s, a) && Actor(s, a) < |s.writers| && !HandsOver(a)
    ensures !s.writers[Actor(s, a)].stage.Dead?
  {
  }

  lemma NewcomerStraight(s: Sys)
    requires OrderInv(s)
    ensures Straight(Writer(Idle, [], None, [], 0), |s.writers|, Of(|s.writers|, Handed(s)))
  {
    OfOther(|s.writers|, Handed(s));
  }

  lemma PullOrder(s: Sys)
    requires OrderInv(s) && Tails(s) && Can(s, PullNext)
    ensures OrderInv(Pulled(s))
  {
    hide Straight, QueueInRange, Of, TailInv;
    var w := s.todo[0];
    var x := s.writers[w];
    var h, r := x.Held(), Pulled(s);
    assert s.phase.Pulling?;
    assert Handed(r) == (s.sink + s.batch) + h + s.ready && Handed(s) == (s.sink + s.batch) + s.ready;
    HeldOwned(x, w, Of(w, Handed(s)));
    forall v | 0 <= v < |s.writers| ensures Straight(r.writers[v], v, Of(v, Handed(r))) {
      if v == w {
        StraightEmptied(s, w, x.stage, s.sink + s.batch, s.ready);
      } else {
        InsertOther(v, s.sink + s.batch, h, s.ready);
      }
    }
  }

  lemma HeldOwned(x: Writer, v: nat, of: seq<Piece>)
    requires Straight(x, v, of)
    ensures forall b <- x.Held() :: b.owner == v
  {
  }

  lemma InsertOther(v: nat, a: seq<Filled>, h: seq<Filled>, z: seq<Filled>)
    requires forall b <- h :: b.owner != v
    ensures Of(v, a + h + z) == Of(v, a + z)
  {
    hide Of;
    OfConcat(v, a + h, z);
    OfConcat(v, a, h);
    OfConcat(v, a, z);
    OfOther(v, h);
    assert Of(v, a) + [] == Of(v, a);
  }

  lemma Emptied(x: Writer, w: nat, g: Stage, p: seq<Piece>, q: seq<Piece>)
    requires Straight(x, w, p + q) && (q == [] || x.Held() == [])
    ensures Straight(x.(stage := g, frags := [], tail := None), w, p + Data(x.Held()) + q)
  {
    if q == [] {
      assert p + q == p && (p + Data(x.Held())) + q == p + Data(x.Held());
    } else {
      assert p + [] == p && (p + q) + [] == p + q;
    }
  }

  /** The holder's buffers go in front of the ready queue, which holds none of its own. */
  lemma StraightEmptied(s: Sys, w: nat, g: Stage, a: seq<Filled>, z: seq<Filled>)
    requires OrderInv(s) && Mine(s, w) && TailInv(s.writers[w])
    requires (z == [] || z == s.ready) && Straight(s.writers[w], w, Of(w, a + z))
    ensures var x := s.writers[w];
      Straight(x.(stage := g, frags := [], tail := None), w, Of(w, a + x.Held() + z))
  {
    hide OrderInv, Of, Straight;
    var x := s.writers[w];
    var h := x.Held();
    OfConcat(w, a + h, z);
    OfConcat(w, a, h);
    OfConcat(w, a, z);
    HeldOwned(x, w, Of(w, a + z));
    OfOwn(w, h);
    if z == [] {
      assert Of(w, z) == [] by { OfOther(w, z); }
    } else if !x.stage.Dead? {
      NotReady(s, w);
      OfOther(w, z);
    }
    Emptied(x, w, g, Of(w, a), Of(w, z));
  }

  lemma NotReady(s: Sys, w: nat)
    requires OrderInv(s) && Mine(s, w) && !s.writers[w].stage.Dead?
    ensures forall b <- s.ready :: b.owner != w
  {
  }

  lemma DieOrder(s: Sys, w: nat)
    requires OrderInv(s) && Tails(s) && Can(s, Die(w))
    ensures OrderInv(System.Do(s, Die(w)))
  {
    hide Straight, QueueInRange, Of, TailInv;
    var x := s.writers[w];
    var h, r := x.Held(), System.Do(s, Die(w));
    assert Handed(r) == Handed(s) + h + [] && Handed(s) == Handed(s) + [];
    HeldOwned(x, w, Of(w, Handed(s)));
    forall v | 0 <= v < |s.writers| ensures Straight(r.writers[v], v, Of(v, Handed(r))) {
      if v == w {
        StraightEmptied(s, w, Dead, Handed(s), []);
      } else {
        InsertOther(v, Handed(s), h, []);
      }
    }
  }

  lemma OrderKeeps(s: Sys, a: System.Step)
    requires OrderInv(s) && Tails(s) && Phased(s) && Can(s, a)
    ensures OrderInv(System.Do(s, a))
  {
    hide OrderInv, Tails, Phased;
    if a.PullNext? {
      PullOrder(s);
    } else if a.Die? {
      DieOrder(s, a.w);
    } else {
      OrderLocal(s, a);
    }
  }

  lemma {:induction false} OrderRun(s: Sys, steps: seq<System.Step>, r: Sys)
    requires OrderInv(s) && Tails(s) && Phased(s) && System.Run(s, steps, r)
    ensures OrderInv(r) && Tails(r) && Phased(r)
    decreases |steps|
  {
    hide OrderInv, Tails, Phased, Can, System.Do;
    if steps != [] {
      OrderKeeps(s, steps[0]);
      TailsKeep(s, steps[0]);
      PhasedKeep(s, steps[0]);
      OrderRun(System.Do(s, steps[0]), steps[1..], r);
    }
  }

  /** Exactly once and in fill order: for every interleaving and every writer,
      what the sink has of it, then the worker's batch, then the ready queue, then
      what it still holds is everything it produced and did not roll back. */
  lemma DeliveredInOrder(pool: State, steps: seq<System.Step>, s: Sys, v: nat)
    requires System.Run(Start(pool), steps, s) && v < |s.writers|
    ensures Of(v, s.sink) + (if s.phase.Freeing? then [] else Of(v, s.batch)) + Of(v, s.ready)
            + Data(s.writers[v].Held()) == s.writers[v].log
  {
    hide Of, Data, TailInv;
    OrderRun(Start(pool), steps, s);
    var b := if s.phase.Freeing? then [] else s.batch;
    OfConcat(v, s.sink + b, s.ready);
    OfConcat(v, s.sink, b);
    OfNone(v);
  }

  lemma OrderStart(pool: State)
    ensures OrderInv(Start(pool))
  {
  }

  lemma OfNone(v: nat)
    ensures Of(v, []) == []
  {
  }
}
