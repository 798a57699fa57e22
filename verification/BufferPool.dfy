/** The pool's own data structure: free and allocated lists, a linked queue of
    waiters that live on their threads' stacks, and the condition-variable
    shards. Every critical section is proved to be the step of module Pool. */
module BufferPool {
  import opened Pool

  /** s_waiter. */
  class Node {
    var next: Node?
    var buf: Ptr
    var done: bool
    const shard: nat

    constructor (shard: nat)
      ensures next == null && buf == NULL && !done && this.shard == shard
    {
      next, buf, done, this.shard := null, NULL, false, shard;
    }
  }

  /** ns are distinct and carry the contents of ws. */
  ghost predicate Carries(ns: seq<Node>, ws: seq<Waiter>)
    reads ns`buf, ns`done
  {
    |ns| == |ws|
    && (forall i, j :: 0 <= i < j < |ns| ==> ns[i] != ns[j])
    && (forall t :: 0 <= t < |ns| ==> ns[t].buf == ws[t].buf && ns[t].done == ws[t].done && ns[t].shard == ws[t].shard)
  }

  /** head, tail and the next links run through the last n of ns, oldest first. */
  ghost predicate Threads(ns: seq<Node>, n: nat, head: Node?, tail: Node?)
    requires n <= |ns|
    reads ns`next
  {
    if n == 0 then head == null && tail == null
    else
      head == ns[|ns| - n] && tail == ns[|ns| - 1] && tail.next == null
      && forall i :: |ns| - n <= i < |ns| - 1 ==> ns[i].next == ns[i + 1]
  }

  lemma TakenIsReal(p: State, alloc: bool)
    requires Inv(p)
    ensures CanTake(p, alloc) ==> Take(p, alloc).1 != NULL
  {
    if CanTake(p, alloc) {
      TakeKeeps(p, alloc);
    }
  }

  lemma ShardOf(ns: seq<Node>, ws: seq<Waiter>, t: nat)
    requires Carries(ns, ws) && t < |ns|
    ensures |ns| == |ws| && ns[t].shard == ws[t].shard
  {
  }

  lemma QueueIs(p: State)
    requires FifoInv(p)
    ensures |p.served| == |p.waiters| - |p.queue|
    ensures |p.queue| <= |p.waiters| && QueueInRange(p)
    ensures p.queue != [] ==> p.queue[0] == |p.waiters| - |p.queue|
  {
  }

  /** ns carry ws except that the waiters lo .. hi are done with nothing. */
  ghost predicate Refused(ns: seq<Node>, ws: seq<Waiter>, lo: nat, hi: nat)
    reads ns`buf, ns`done
  {
    |ns| == |ws|
    && (forall i, j :: 0 <= i < j < |ns| ==> ns[i] != ns[j])
    && (forall t :: 0 <= t < |ns| ==>
          ns[t].shard == ws[t].shard
          && if lo <= t < hi then ns[t].done && ns[t].buf == NULL
             else ns[t].done == ws[t].done && ns[t].buf == ws[t].buf)
  }

  lemma RefusedNone(ns: seq<Node>, ws: seq<Waiter>, lo: nat)
    requires Carries(ns, ws)
    ensures Refused(ns, ws, lo, lo)
  {
  }

  /** stop_waiters before anybody is notified. */
  function Emptied(p: State): State
    requires QueueInRange(p)
  {
    p.(stopping := true, queue := [], waiters := Refuse(p.waiters, p.queue), served := p.served + p.queue)
  }

  lemma RefusedAll(ns: seq<Node>, p: State)
    requires FifoInv(p) && Refused(ns, p.waiters, |p.served|, |p.waiters|)
    ensures QueueInRange(p) && FifoInv(Emptied(p)) && Carries(ns, Emptied(p).waiters)
    ensures Emptied(p) == p.(stopping := true, queue := [], waiters := Emptied(p).waiters, served := Emptied(p).served)
  {
    forall t | 0 <= t < |p.waiters| ensures t in p.queue <==> t >= |p.served| {
      if t >= |p.served| {
        assert p.queue[t - |p.served|] == t;
      }
    }
  }

  lemma FifoSame(p: State, q: State)
    requires FifoInv(p) && q.served == p.served && q.queue == p.queue && q.waiters == p.waiters
    ensures FifoInv(q)
  {
  }

  lemma ServeShape(p: State, b: Ptr)
    requires FifoInv(p) && p.queue != []
    ensures QueueInRange(p) && FifoInv(Serve(p, b))
    ensures var t := p.queue[0];
      Serve(p, b) == p.(queue := p.queue[1..], waiters := p.waiters[t := p.waiters[t].(buf := b, done := true)],
                        served := p.served + [t])
  {
  }

  lemma NotifiedShape(p: State, shard: nat)
    ensures var q := Notified(p, shard);
      q == p.(waiters := q.waiters) && |q.waiters| == |p.waiters| && (FifoInv(p) ==> FifoInv(q))
      && forall i :: 0 <= i < |p.waiters| ==>
           q.waiters[i].buf == p.waiters[i].buf && q.waiters[i].done == p.waiters[i].done
           && q.waiters[i].shard == p.waiters[i].shard
  {
  }

  lemma ParkShape(p: State)
    requires FifoInv(p)
    ensures var q := Pool.Park(p);
      FifoInv(q) && |q.queue| == |p.queue| + 1
      && q == p.(queue := q.queue, waiters := p.waiters + [Waiter(p.cvNext % SHARDS, false, NULL, Asleep)],
                 cvNext := (p.cvNext + 1) % CURSOR_WRAP, inflight := p.inflight + 1)
  {
  }

  lemma CarriesSize(ns: seq<Node>, ws: seq<Waiter>)
    requires Carries(ns, ws)
    ensures |ns| == |ws| && forall i, j :: 0 <= i < j < |ns| ==> ns[i] != ns[j]
  {
  }

  lemma CarriesSnoc(ns: seq<Node>, ws: seq<Waiter>, n: Node, w: Waiter)
    requires Carries(ns, ws) && n !in ns && n.buf == w.buf && n.done == w.done && n.shard == w.shard
    ensures Carries(ns + [n], ws + [w])
  {
  }

  lemma CarriesSame(ns: seq<Node>, ws: seq<Waiter>, us: seq<Waiter>)
    requires Carries(ns, ws) && |us| == |ws|
    requires forall t :: 0 <= t < |ws| ==>
               us[t].buf == ws[t].buf && us[t].done == ws[t].done && us[t].shard == ws[t].shard
    ensures Carries(ns, us)
  {
  }

  class BufferPool {
    var all: seq<Ptr>
    var free: seq<Ptr>
    var head: Node?
    var tail: Node?
    var waitCount: nat
    var stopping: bool
    var cvNext: nat
    var inflight: int
    var room: nat                // what the shared budget would still grant
    ghost var nodes: seq<Node>   // every waiter that ever parked, in order of arrival
    ghost var state: State       // the abstract pool

    ghost predicate Valid()
      reads this, nodes
    {
      all == state.all && free == state.free && stopping == state.stopping && cvNext == state.cvNext
      && inflight == state.inflight && room == state.room && waitCount == |state.queue|
      && FifoInv(state) && Carries(nodes, state.waiters) && Threads(nodes, |state.queue|, head, tail)
    }

    constructor (room: nat)
      ensures Valid() && state == Empty(room) && nodes == []
    {
      all, free, head, tail, waitCount, stopping := [], [], null, null, 0, false;
      cvNext, inflight, this.room, nodes, state := 0, 0, room, [], Empty(room);
    }

    /** Reserves and allocates one buffer. */
    method AddBuffer()
      requires Valid() && room > 0
      modifies this`all, this`free, this`room, this`state
      ensures Valid() && state == Grow(old(state))
    {
      hide Carries, Threads, FifoInv;
      var b := |all| + 1;
      FifoSame(state, Grow(state));
      all, free, room, state := all + [b], free + [b], room - 1, Grow(state);
    }

    /** init; alloc(i) says whether the allocation with i still to go succeeds. */
    method Init(n: nat, alloc: nat -> bool) returns (added: nat)
      requires Valid()
      modifies this`all, this`free, this`room, this`state
      ensures Valid() && state == Pool.Init(old(state), n, alloc)
      ensures added <= n && added <= old(room) && (added == n || added == old(room) || !alloc(n - added))
      ensures forall i :: n - added < i <= n ==> alloc(i)
      ensures |all| == |old(all)| + added && |free| == |old(free)| + added && room == old(room) - added
    {
      hide Carries, Threads, FifoInv;
      var i := n;
      while i > 0
        invariant 0 <= i <= n && Valid() && Pool.Init(old(state), n, alloc) == Pool.Init(state, i, alloc)
        invariant room == old(room) - (n - i) && forall k :: i < k <= n ==> alloc(k)
        invariant |all| == |old(all)| + (n - i) && |free| == |old(free)| + (n - i)
      {
        if room == 0 {
          break;
        }
        if !alloc(i) {
          break;
        }
        AddBuffer();
        i := i - 1;
      }
      added := n - i;
    }

    /** acquire_no_lock; alloc says whether operator new succeeds. */
    method AcquireNoLock(alloc: bool) returns (b: Ptr)
      requires Valid()
      modifies this`all, this`free, this`room, this`state
      ensures Valid()
      ensures (state, b) == if CanTake(old(state), alloc) then Take(old(state), alloc) else (old(state), NULL)
    {
      hide Carries, Threads, FifoInv;
      if |free| == 0 {
        if room == 0 {
          return NULL;
        }
        if !alloc {
          return NULL;
        }
        AddBuffer();
      }
      b := free[0];
      FifoSame(state, Take(state, alloc).0);
      free, state := free[1..], Take(state, alloc).0;
    }

    /** Links self behind the tail. */
    method Link(self: Node, ghost n: nat)
      requires n <= |nodes| && Threads(nodes, n, head, tail) && self !in nodes && self.next == null
      requires forall i, j :: 0 <= i < j < |nodes| ==> nodes[i] != nodes[j]
      modifies this`head, this`tail, nodes`next
      ensures Threads(nodes + [self], n + 1, head, tail)
    {
      if tail != null {
        tail.next := self;
      } else {
        head := self;
      }
      tail := self;
    }

    /** The thread links its own node at the tail and goes to sleep. */
    method Park() returns (self: Node)
      requires Valid() && free == [] && !stopping
      modifies this`head, this`tail, this`waitCount, this`inflight, this`cvNext, this`nodes, this`state, nodes`next
      ensures Valid() && state == Pool.Park(old(state)) && nodes == old(nodes) + [self] && fresh(self)
    {
      hide Threads, FifoInv, Carries, Pool.Park;
      CarriesSize(nodes, state.waiters);
      self := new Node(cvNext % SHARDS);
      QueueIs(state);
      ParkShape(state);
      Link(self, |state.queue|);
      CarriesSnoc(nodes, state.waiters, self, Waiter(cvNext % SHARDS, false, NULL, Asleep));
      cvNext, waitCount, inflight := (cvNext + 1) % CURSOR_WRAP, waitCount + 1, inflight + 1;
      nodes, state := nodes + [self], Pool.Park(state);
      assert Threads(nodes, |state.queue|, head, tail) && Carries(nodes, state.waiters) && FifoInv(state);
    }

    /** acquire_wait up to the point where the thread returns or goes to sleep. */
    method AcquireWait(alloc: bool) returns (b: Ptr, self: Node?)
      requires Valid() && Inv(state)
      modifies this, nodes`next
      ensures Valid() && state == Enter(old(state), alloc)
      ensures b == if CanTake(old(state), alloc) then Take(old(state), alloc).1 else NULL
      ensures self == null <==> CanTake(old(state), alloc) || old(stopping)
      ensures if self == null then nodes == old(nodes) else nodes == old(nodes) + [self] && fresh(self)
    {
      hide Carries, Threads, FifoInv, Waiters, Counts, Conserved;
      ghost var was := state;
      b := AcquireNoLock(alloc);
      self := null;
      TakenIsReal(was, alloc);
      if b != NULL || stopping {
        return;
      }
      self := Park();
    }

    /** A thread back from its park: what it was handed, once it is done. */
    method Look(self: Node, ghost t: nat) returns (done: bool, b: Ptr)
      requires Valid() && t < |nodes| && nodes[t] == self && state.waiters[t].place.Awake?
      modifies this`state
      ensures Valid() && Enabled(old(state), Check(t)) && state == Do(old(state), Check(t))
      ensures done == state.waiters[t].place.Leaving? && b == if done then state.waiters[t].buf else NULL
    {
      hide Threads;
      QueueIs(state);
      done := self.done;
      b := if done then self.buf else NULL;
      state := Do(state, Check(t));
    }

    /** The thread's last access to the pool. */
    method Exit(ghost t: nat)
      requires Valid() && t < |nodes| && state.waiters[t].place.Leaving?
      modifies this`state, this`inflight
      ensures Valid() && Enabled(old(state), Leave(t)) && state == Do(old(state), Leave(t))
    {
      hide Threads;
      QueueIs(state);
      inflight := inflight - 1;
      state := Do(state, Leave(t));
    }

    /** Takes the oldest waiter off the queue. */
    method Unlink(ghost n: nat) returns (w: Node)
      requires 0 < n <= |nodes| && Threads(nodes, n, head, tail)
      requires forall i, j :: 0 <= i < j < |nodes| ==> nodes[i] != nodes[j]
      modifies this`head, this`tail
      ensures w == nodes[|nodes| - n] && Threads(nodes, n - 1, head, tail)
    {
      w := head;
      head := w.next;
      if head == null {
        tail := null;
      }
    }

    /** Publishes b in the node of waiter t. */
    method Publish(w: Node, b: Ptr, ghost t: nat)
      requires Carries(nodes, state.waiters) && t < |nodes| && nodes[t] == w
      modifies w`buf, w`done
      ensures Carries(nodes, state.waiters[t := state.waiters[t].(buf := b, done := true)])
    {
      w.buf, w.done := b, true;
    }

    /** notify_all on shard i: its sleepers will run again. */
    method NotifyAll(shard: nat)
      requires Valid()
      modifies this`state
      ensures Valid() && state == Notified(old(state), shard)
    {
      hide Threads, Carries, FifoInv, Notified;
      CarriesSize(nodes, state.waiters);
      NotifiedShape(state, shard);
      CarriesSame(nodes, state.waiters, Notified(state, shard).waiters);
      state := Notified(state, shard);
    }

    /** try_handoff_no_lock: serves the oldest waiter, if any, and says on which
        shard it sleeps. */
    method TryHandoff(b: Ptr) returns (shard: int)
      requires Valid() && b != NULL
      modifies this`head, this`tail, this`waitCount, this`state, nodes`buf, nodes`done
      ensures Valid()
      ensures shard < 0 <==> old(state).queue == []
      ensures shard < 0 ==> state == old(state)
      ensures shard >= 0 ==> QueueInRange(old(state)) && state == Serve(old(state), b)
                             && shard == old(state).waiters[old(state).queue[0]].shard
    {
      hide Threads, Carries, FifoInv, Serve;
      CarriesSize(nodes, state.waiters);
      QueueIs(state);
      if waitCount == 0 {
        return -1;
      }
      ghost var t := state.queue[0];
      var w := Unlink(waitCount);
      waitCount := waitCount - 1;
      ShardOf(nodes, state.waiters, t);
      Publish(w, b, t);
      ServeShape(state, b);
      state := Serve(state, b);
      shard := w.shard;
    }

    /** recycle of one buffer. */
    method Recycle(b: Ptr)
      requires Valid()
      modifies this`head, this`tail, this`waitCount, this`state, this`free, nodes`buf, nodes`done
      ensures Valid() && QueueInRange(old(state)) && state == Pool.Recycle(old(state), b)
    {
      hide Carries, Threads, FifoInv, Serve, Notified;
      QueueIs(state);
      if b == NULL {
        return;
      }
      ghost var was := state;
      state := was.(out := was.out - multiset{b});
      FifoSame(was, state);
      var shard := TryHandoff(b);
      if shard >= 0 {
        NotifyAll(shard);
      } else {
        free := free + [b];
        state := state.(free := free);
        FifoSame(was, state);
      }
    }

    /** recycle of a batch: every buffer under one lock, in list order. */
    method RecycleBatch(bs: seq<Ptr>)
      requires Valid()
      modifies this`head, this`tail, this`waitCount, this`state, this`free, nodes`buf, nodes`done
      ensures Valid() && QueueInRange(old(state)) && state == RecycleAll(old(state), bs)
    {
      hide Carries, Threads, FifoInv, Pool.Recycle;
      QueueIs(state);
      var i := 0;
      assert bs[..0] == [];
      while i < |bs|
        invariant 0 <= i <= |bs| && Valid() && nodes == old(nodes)
        invariant state == RecycleAll(old(state), bs[..i])
        modifies this`head, this`tail, this`waitCount, this`state, this`free, nodes`buf, nodes`done
      {
        Recycle(bs[i]);
        assert bs[..i + 1][..i] == bs[..i];
        i := i + 1;
      }
      assert bs[..i] == bs;
    }

    /** Marks the oldest waiter done with nothing and drops it. */
    method RefuseOldest(ghost ns: seq<Node>, ghost ws: seq<Waiter>, ghost lo: nat, ghost hi: nat)
      requires ns == nodes && lo <= hi < |ns| && Threads(ns, |ns| - hi, head, tail) && Refused(ns, ws, lo, hi)
      modifies this`head, this`tail, nodes`buf, nodes`done
      ensures Threads(ns, |ns| - (hi + 1), head, tail) && Refused(ns, ws, lo, hi + 1)
    {
      hide Threads;
      var w := Unlink(|ns| - hi);
      w.buf, w.done := NULL, true;
    }

    /** Empties the queue, oldest first. */
    method RefuseAll(ghost ns: seq<Node>, ghost ws: seq<Waiter>, ghost lo: nat)
      requires ns == nodes && lo <= |ns| && Threads(ns, |ns| - lo, head, tail) && Carries(ns, ws)
      modifies this`head, this`tail, nodes`buf, nodes`done
      ensures head == null && tail == null && Refused(ns, ws, lo, |ns|)
    {
      hide Carries, Refused;
      RefusedNone(ns, ws, lo);
      ghost var hi := lo;
      while head != null
        invariant lo <= hi <= |ns| && Threads(ns, |ns| - hi, head, tail) && Refused(ns, ws, lo, hi)
        decreases |ns| - hi
      {
        RefuseOldest(ns, ws, lo, hi);
        hi := hi + 1;
      }
      tail := null;
    }

    /** Marks everyone queued done with nothing, before anybody is notified. */
    method EmptyQueue()
      requires Valid()
      modifies this`head, this`tail, this`waitCount, this`stopping, this`state, nodes`buf, nodes`done
      ensures Valid() && QueueInRange(old(state)) && state == Emptied(old(state))
    {
      hide FifoInv, Carries, Refused, Emptied, QueueInRange;
      QueueIs(state);
      CarriesSize(nodes, state.waiters);
      RefuseAll(nodes, state.waiters, |nodes| - |state.queue|);
      RefusedAll(nodes, state);
      stopping, waitCount, state := true, 0, Emptied(state);
    }

    /** stop_waiters: refuses everyone queued and everyone to come, and wakes all
        shards if anybody was queued. */
    method StopWaiters()
      requires Valid()
      modifies this`head, this`tail, this`waitCount, this`stopping, this`state, nodes`buf, nodes`done
      ensures Valid() && QueueInRange(old(state)) && state == Stop(old(state))
    {
      hide FifoInv, Carries, Threads, Emptied, Notified, WakeAll, Refuse, Stop;
      QueueIs(state);
      var woke := waitCount > 0;
      ghost var was := state;
      EmptyQueue();
      ghost var refused := state;
      StopShape(was);
      if woke {
        WakeNone(refused);
        var i := 0;
        while i < SHARDS
          invariant 0 <= i <= SHARDS && Valid() && state == refused.(waiters := WakeAll(refused.waiters, i))
          modifies this`state
        {
          WakeNext(refused, i);
          NotifyAll(i);
          i := i + 1;
        }
      }
    }
  }

  /** Notifying the shards one by one is waking all of them. */
  lemma WakeNext(p: State, i: nat)
    ensures Notified(p.(waiters := WakeAll(p.waiters, i)), i) == p.(waiters := WakeAll(p.waiters, i + 1))
  {
    assert Notify(WakeAll(p.waiters, i), i) == WakeAll(p.waiters, i + 1);
  }

  lemma WakeNone(p: State)
    ensures p.(waiters := WakeAll(p.waiters, 0)) == p
  {
    assert WakeAll(p.waiters, 0) == p.waiters;
  }

  lemma StopShape(p: State)
    requires FifoInv(p)
    ensures QueueInRange(p)
    ensures Stop(p) == if p.queue == [] then Emptied(p) else Emptied(p).(waiters := WakeAll(Emptied(p).waiters, SHARDS))
  {
    if p.queue == [] {
      assert Refuse(p.waiters, []) == p.waiters && p.served + [] == p.served;
    }
  }
}
