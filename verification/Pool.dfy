/** The buffer pool as a state machine: every mutex critical section and every
    move of a blocked thread is one step. */
module Pool {
  type Ptr = nat         // a buffer's identity; 0 is the null pointer
  const NULL: Ptr := 0
  const SHARDS := 64     // mz_wait_cv_count
  const CURSOR_WRAP := 0x1_0000_0000

  /** Where a blocked thread is: parked, running inside wait() with the mutex,
      past its unlock, or back with its caller. */
  datatype Place = Asleep | Awake | Leaving | Gone

  /** s_waiter together with the thread whose stack it lives on. */
  datatype Waiter = Waiter(shard: nat, done: bool, buf: Ptr, place: Place)

  /** room is how many buffers the shared budget would still grant, served the
      log of hand-offs, out the buffers that callers hold. Waiters are numbered
      in order of arrival. */
  datatype State = State(all: seq<Ptr>, free: seq<Ptr>, queue: seq<nat>, waiters: seq<Waiter>, stopping: bool,
                         cvNext: nat, inflight: int, room: nat, served: seq<nat>, out: multiset<Ptr>)

  function Empty(room: nat): State {
    State([], [], [], [], false, 0, 0, room, [], multiset{})
  }

  // ------------------------------------------------------- critical sections

  function Grow(p: State): State
    requires p.room > 0
  {
    var b := |p.all| + 1;
    p.(all := p.all + [b], free := p.free + [b], room := p.room - 1)
  }

  /** init: fills the pool with up to n buffers; alloc(i) says whether the i-th
      allocation succeeds. */
  function Init(p: State, n: nat, alloc: nat -> bool): State
    decreases n
  {
    if n == 0 || p.room == 0 || !alloc(n) then p else Init(Grow(p), n - 1, alloc)
  }

  predicate CanTake(p: State, alloc: bool) { p.free != [] || (p.room > 0 && alloc) }

  /** acquire_no_lock, when it returns a buffer: a free one, else a new one. */
  function Take(p: State, alloc: bool): (State, Ptr)
    requires CanTake(p, alloc)
  {
    var q := if p.free == [] then Grow(p) else p;
    (q.(free := q.free[1..], out := q.out + multiset{q.free[0]}), q.free[0])
  }

  /** The caller of acquire_wait joins the queue and goes to sleep. */
  function Park(p: State): State {
    p.(queue := p.queue + [|p.waiters|],
       waiters := p.waiters + [Waiter(p.cvNext % SHARDS, false, NULL, Asleep)],
       cvNext := (p.cvNext + 1) % CURSOR_WRAP,
       inflight := p.inflight + 1)
  }

  /** acquire_wait up to the point where it returns or sleeps. */
  function Enter(p: State, alloc: bool): State {
    if CanTake(p, alloc) then Take(p, alloc).0
    else if p.stopping then p
    else Park(p)
  }

  /** The sleepers of one shard wake up. */
  function Notify(ws: seq<Waiter>, shard: nat): (r: seq<Waiter>)
    ensures |r| == |ws|
    ensures forall t :: 0 <= t < |ws| ==>
              r[t] == if ws[t].shard == shard && ws[t].place.Asleep? then ws[t].(place := Awake) else ws[t]
  {
    seq(|ws|, t requires 0 <= t < |ws| =>
      if ws[t].shard == shard && ws[t].place.Asleep? then ws[t].(place := Awake) else ws[t])
  }

  ghost predicate QueueInRange(p: State) { forall i :: 0 <= i < |p.queue| ==> p.queue[i] < |p.waiters| }

  /** try_handoff_no_lock: the oldest waiter is served, though it may still sleep. */
  function Serve(p: State, b: Ptr): State
    requires QueueInRange(p) && p.queue != []
  {
    var t := p.queue[0];
    p.(queue := p.queue[1..],
       waiters := p.waiters[t := p.waiters[t].(buf := b, done := true)],
       served := p.served + [t])
  }

  /** notify_all on one shard. */
  function Notified(p: State, shard: nat): State {
    p.(waiters := Notify(p.waiters, shard))
  }

  /** A hand-off: serve, then notify the waiter's own shard. */
  function Handoff(p: State, b: Ptr): State
    requires QueueInRange(p) && p.queue != []
  {
    Notified(Serve(p, b), p.waiters[p.queue[0]].shard)
  }

  function Recycle(p: State, b: Ptr): (q: State)
    requires QueueInRange(p)
    ensures QueueInRange(q)
  {
    if b == NULL then p
    else
      var q := p.(out := p.out - multiset{b});
      if p.queue == [] then q.(free := q.free + [b])
      else
        Handoff(q, b)
  }

  /** The batch form: one lock, each buffer in list order. */
  function RecycleAll(p: State, bs: seq<Ptr>): (q: State)
    requires QueueInRange(p)
    ensures QueueInRange(q)
  {
    if bs == [] then p else Recycle(RecycleAll(p, bs[..|bs| - 1]), bs[|bs| - 1])
  }

  /** Marks the first n queued waiters done without a buffer. */
  function Refuse(ws: seq<Waiter>, queue: seq<nat>): (r: seq<Waiter>)
    requires forall i :: 0 <= i < |queue| ==> queue[i] < |ws|
    ensures |r| == |ws|
    ensures forall t :: 0 <= t < |ws| ==> r[t] == if t in queue then ws[t].(done := true, buf := NULL) else ws[t]
  {
    seq(|ws|, t requires 0 <= t < |ws| => if t in queue then ws[t].(done := true, buf := NULL) else ws[t])
  }

  /** The sleepers of the first k shards wake up. */
  function WakeAll(ws: seq<Waiter>, k: nat): (r: seq<Waiter>)
    ensures |r| == |ws|
    ensures forall t :: 0 <= t < |ws| ==>
              r[t] == if ws[t].shard < k && ws[t].place.Asleep? then ws[t].(place := Awake) else ws[t]
  {
    seq(|ws|, t requires 0 <= t < |ws| =>
      if ws[t].shard < k && ws[t].place.Asleep? then ws[t].(place := Awake) else ws[t])
  }

  /** stop_waiters. */
  function Stop(p: State): State
    requires QueueInRange(p)
  {
    if p.queue == [] then p.(stopping := true)
    else
      p.(stopping := true, queue := [], waiters := WakeAll(Refuse(p.waiters, p.queue), SHARDS),
         served := p.served + p.queue)
  }

  // ------------------------------------------------------------ the machine

  datatype Step =
    | AcquireNow(alloc: bool)      // acquire_buffer(false)
    | AcquireOrPark(alloc: bool)   // acquire_wait
    | GiveBack(b: Ptr)
    | GiveBackAll(bs: seq<Ptr>)
    | StopAll
    | Rouse(t: nat)                // a wake-up nobody asked for
    | Check(t: nat)                // a woken thread tests its own node
    | Leave(t: nat)                // the last access: mu_inflight.fetch_sub
    | Fill(alloc: bool)            // one round of init, while nobody waits
    | Budget(room: nat)            // other users of the shared budget

  ghost predicate Enabled(p: State, s: Step) {
    QueueInRange(p)
    && match s
       case GiveBack(b) => b == NULL || b in p.out
       case GiveBackAll(bs) => Held(p.out, bs)
       case Rouse(t) => t < |p.waiters| && p.waiters[t].place.Asleep?
       case Check(t) => t < |p.waiters| && p.waiters[t].place.Awake?
       case Leave(t) => t < |p.waiters| && p.waiters[t].place.Leaving?
       case Fill(alloc) => p.queue == []
       case _ => true
  }

  /** The non-null buffers of bs are distinct buffers that callers hold. */
  ghost predicate Held(out: multiset<Ptr>, bs: seq<Ptr>) {
    bs == [] || (Held(out, bs[..|bs| - 1]) && (bs[|bs| - 1] == NULL || bs[|bs| - 1] in out - multiset(bs[..|bs| - 1])))
  }

  ghost function Do(p: State, s: Step): State
    requires Enabled(p, s)
  {
    match s
    case AcquireNow(alloc) => if CanTake(p, alloc) then Take(p, alloc).0 else p
    case AcquireOrPark(alloc) => Enter(p, alloc)
    case GiveBack(b) => Recycle(p, b)
    case GiveBackAll(bs) => RecycleAll(p, bs)
    case StopAll => Stop(p)
    case Rouse(t) => p.(waiters := p.waiters[t := p.waiters[t].(place := Awake)])
    case Check(t) =>
      var w := p.waiters[t];
      if !w.done then p.(waiters := p.waiters[t := w.(place := Asleep)])
      else
        p.(waiters := p.waiters[t := w.(place := Leaving)],
           out := if w.buf == NULL then p.out else p.out + multiset{w.buf})
    case Leave(t) => p.(waiters := p.waiters[t := p.waiters[t].(place := Gone)], inflight := p.inflight - 1)
    case Fill(alloc) => if p.room > 0 && alloc then Grow(p) else p
    case Budget(room) => p.(room := room)
  }

  ghost predicate Run(p: State, steps: seq<Step>, q: State)
    decreases |steps|
  {
    if steps == [] then q == p
    else Enabled(p, steps[0]) && Run(Do(p, steps[0]), steps[1..], q)
  }

  // ------------------------------------------------------------- invariants

  /** Buffers sitting in the slots of served waiters that have yet to look. */
  ghost function Slots(ws: seq<Waiter>): multiset<Ptr> {
    if ws == [] then multiset{}
    else Slots(ws[..|ws| - 1]) + Slot(ws[|ws| - 1])
  }

  ghost function Slot(w: Waiter): multiset<Ptr> {
    if w.buf != NULL && (w.place.Asleep? || w.place.Awake?) then multiset{w.buf} else multiset{}
  }

  function Present(ws: seq<Waiter>): nat {
    if ws == [] then 0 else Present(ws[..|ws| - 1]) + if ws[|ws| - 1].place.Gone? then 0 else 1
  }

  /** The queue is the latest arrivals, in order, and exactly the unserved. */
  ghost predicate FifoInv(p: State) {
    |p.served| + |p.queue| == |p.waiters|
    && (forall i :: 0 <= i < |p.served| ==> p.served[i] == i)
    && (forall i :: 0 <= i < |p.queue| ==> p.queue[i] == |p.served| + i)
  }

  ghost predicate WaiterInv(w: Waiter, t: nat, served: nat) {
    w.shard == t % SHARDS
    && (w.done <==> t < served)
    && (!w.done ==> w.buf == NULL && (w.place.Asleep? || w.place.Awake?))
    && (w.done ==> !w.place.Asleep?)
  }

  ghost predicate Waiters(p: State) {
    forall t :: 0 <= t < |p.waiters| ==> WaiterInv(p.waiters[t], t, |p.served|)
  }

  /** Every buffer ever allocated is in exactly one place. */
  ghost predicate Conserved(p: State) {
    (forall i :: 0 <= i < |p.all| ==> p.all[i] == i + 1)
    && multiset(p.all) == multiset(p.free) + Slots(p.waiters) + p.out
  }

  ghost predicate Counts(p: State) {
    p.cvNext == |p.waiters| % CURSOR_WRAP
    && p.inflight == Present(p.waiters)
    && (p.queue != [] ==> p.free == [])
    && (p.stopping ==> p.queue == [])
  }

  ghost predicate Inv(p: State) {
    FifoInv(p) && Waiters(p) && Conserved(p) && Counts(p)
  }

  // ------------------------------------------------- every step keeps them

  lemma {:induction false} SlotsSame(ws: seq<Waiter>, us: seq<Waiter>)
    requires |ws| == |us|
    requires forall t :: 0 <= t < |ws| ==> Slot(us[t]) == Slot(ws[t]) && us[t].place.Gone? == ws[t].place.Gone?
    ensures Slots(us) == Slots(ws) && Present(us) == Present(ws)
    decreases |ws|
  {
    if ws != [] {
      SlotsSame(ws[..|ws| - 1], us[..|us| - 1]);
    }
  }

  lemma AddBoth(a: multiset<Ptr>, b: multiset<Ptr>, x: multiset<Ptr>, s: multiset<Ptr>, r: multiset<Ptr>)
    requires a + s == b + r
    ensures (a + x) + s == (b + x) + r
  {
    calc {
      (a + x) + s;
      (a + s) + x;
      (b + r) + x;
      (b + x) + r;
    }
  }

  lemma Cancel(a: multiset<Ptr>, b: multiset<Ptr>, x: multiset<Ptr>)
    requires a + x == b + x
    ensures a == b
  {
    assert a == (a + x) - x && b == (b + x) - x;
  }

  /** A waiter that only changes place keeps its slot. */
  lemma SlotsMove(ws: seq<Waiter>, t: nat, w: Waiter)
    requires t < |ws| && Slot(w) == Slot(ws[t])
    ensures Slots(ws[t := w]) == Slots(ws)
    ensures Present(ws[t := w]) == Present(ws) + (if w.place.Gone? then 0 else 1) - (if ws[t].place.Gone? then 0 else 1)
  {
    hide Slot, Slots, Present;
    SlotsUpdate(ws, t, w);
    PresentUpdate(ws, t, w);
    Cancel(Slots(ws[t := w]), Slots(ws), Slot(w));
  }

  lemma {:induction false} SlotsUpdate(ws: seq<Waiter>, t: nat, w: Waiter)
    requires t < |ws|
    ensures Slots(ws[t := w]) + Slot(ws[t]) == Slots(ws) + Slot(w)
    decreases |ws|
  {
    hide Slot, Present;
    var n := |ws| - 1;
    if t == n {
      assert ws[t := w][..n] == ws[..n];
    } else {
      SlotsUpdate(ws[..n], t, w);
      AddBoth(Slots(ws[..n][t := w]), Slots(ws[..n]), Slot(ws[n]), Slot(ws[t]), Slot(w));
      assert ws[t := w][..n] == ws[..n][t := w];
    }
  }

  lemma {:induction false} PresentUpdate(ws: seq<Waiter>, t: nat, w: Waiter)
    requires t < |ws|
    ensures Present(ws[t := w]) == Present(ws) + (if w.place.Gone? then 0 else 1) - (if ws[t].place.Gone? then 0 else 1)
    decreases |ws|
  {
    var n := |ws| - 1;
    if t == n {
      assert ws[t := w][..n] == ws[..n];
    } else {
      PresentUpdate(ws[..n], t, w);
      assert ws[t := w][..n] == ws[..n][t := w];
    }
  }

  lemma SlotsSnoc(ws: seq<Waiter>, w: Waiter)
    ensures Slots(ws + [w]) == Slots(ws) + Slot(w)
    ensures Present(ws + [w]) == Present(ws) + if w.place.Gone? then 0 else 1
  {
    assert (ws + [w])[..|ws|] == ws;
  }

  lemma EmptyInv(room: nat)
    ensures Inv(Empty(room))
  {
  }

  lemma QueueRange(p: State)
    requires FifoInv(p)
    ensures QueueInRange(p)
  {
  }

  lemma GrowKeeps(p: State)
    requires Conserved(p) && p.room > 0
    ensures Conserved(Grow(p))
  {
    hide Slots;
  }

  lemma {:induction false} InitKeeps(p: State, n: nat, alloc: nat -> bool)
    requires Inv(p) && p.queue == []
    ensures Inv(Init(p, n, alloc)) && Init(p, n, alloc).queue == []
    ensures |Init(p, n, alloc).free| <= |p.free| + n
    decreases n
  {
    hide Conserved, Slots, Present;
    if n > 0 && p.room > 0 && alloc(n) {
      GrowKeeps(p);
      InitKeeps(Grow(p), n - 1, alloc);
    }
  }

  /** Filling adds new buffers, in order, until there are n, the budget is used up
      or an allocation fails; the first that fails ends it. */
  lemma {:induction false} InitAdds(p: State, n: nat, alloc: nat -> bool) returns (k: nat)
    ensures k <= n && k <= p.room && (k == n || k == p.room || !alloc(n - k))
    ensures forall i :: n - k < i <= n ==> alloc(i)
    ensures var more := seq(k, i => |p.all| + 1 + i);
      Init(p, n, alloc) == p.(all := p.all + more, free := p.free + more, room := p.room - k)
    decreases n
  {
    if n == 0 || p.room == 0 || !alloc(n) {
      k := 0;
      assert p.all + [] == p.all && p.free + [] == p.free;
    } else {
      var j := InitAdds(Grow(p), n - 1, alloc);
      k := j + 1;
      var b := |p.all| + 1;
      assert seq(k, i => b + i) == [b] + seq(j, i => |Grow(p).all| + 1 + i);
    }
  }

  lemma TakeConserves(p: State, q: State)
    requires Conserved(p) && p.free != []
    requires q.all == p.all && q.waiters == p.waiters && q.free == p.free[1..] && q.out == p.out + multiset{p.free[0]}
    ensures Conserved(q) && p.free[0] != NULL
  {
    hide Slots;
    assert p.free == [p.free[0]] + q.free;
    assert p.free[0] in multiset(p.all) && p.free[0] in p.all;
  }

  lemma TakeKeeps(p: State, alloc: bool)
    requires Inv(p) && CanTake(p, alloc)
    ensures Inv(Take(p, alloc).0) && Take(p, alloc).1 != NULL
  {
    hide Conserved, Slots, Present;
    var q := if p.free == [] then Grow(p) else p;
    if p.free == [] {
      GrowKeeps(p);
    }
    TakeConserves(q, Take(p, alloc).0);
  }

  lemma SameSlots(p: State, q: State)
    requires Conserved(p) && q.all == p.all && q.free == p.free && q.out == p.out
    requires Slots(q.waiters) == Slots(p.waiters)
    ensures Conserved(q)
  {
    hide Slots;
  }

  lemma ParkKeeps(p: State)
    requires Inv(p) && p.free == [] && !p.stopping
    ensures Inv(Park(p))
  {
    hide Conserved, Slots, Present, Slot;
    var w := Waiter(p.cvNext % SHARDS, false, NULL, Asleep);
    SlotsSnoc(p.waiters, w);
    NoSlot(w);
    SameSlots(p, Park(p));
    WrapMod(|p.waiters|);
  }

  lemma WrapMod(n: nat)
    ensures n % CURSOR_WRAP % SHARDS == n % SHARDS && (n % CURSOR_WRAP + 1) % CURSOR_WRAP == (n + 1) % CURSOR_WRAP
  {
    WrapShard(n);
    WrapNext(n);
  }

  lemma WrapShard(n: nat)
    ensures n % CURSOR_WRAP % SHARDS == n % SHARDS
  {
    var q, r := n / CURSOR_WRAP, n % CURSOR_WRAP;
    ShardMod(r, r / SHARDS, r % SHARDS);
    ShardMod(n, 0x400_0000 * q + r / SHARDS, r % SHARDS);
  }

  lemma ShardMod(n: nat, q: nat, r: nat)
    requires r < SHARDS && n == 64 * q + r
    ensures n % SHARDS == r
  {
  }

  lemma WrapNext(n: nat)
    ensures (n % CURSOR_WRAP + 1) % CURSOR_WRAP == (n + 1) % CURSOR_WRAP
  {
  }

  lemma NoSlot(w: Waiter)
    requires w.buf == NULL
    ensures Slot(w) == multiset{} && forall m: multiset<Ptr> :: m + Slot(w) == m
  {
  }

  lemma NoSlotLeaving(w: Waiter)
    requires w.place.Leaving? || w.place.Gone?
    ensures Slot(w) == multiset{} && forall m: multiset<Ptr> :: m + Slot(w) == m
  {
  }

  lemma MoveBuffer(p: State, q: State, b: Ptr)
    requires Conserved(p) && b in p.out && q.all == p.all && q.out == p.out - multiset{b}
    requires multiset(q.free) + Slots(q.waiters) == multiset(p.free) + Slots(p.waiters) + multiset{b}
    ensures Conserved(q)
  {
    hide Slots;
    assert p.out == q.out + multiset{b};
  }

  lemma HandoffSlots(ws: seq<Waiter>, t: nat, b: Ptr)
    requires t < |ws| && ws[t].buf == NULL && b != NULL && (ws[t].place.Asleep? || ws[t].place.Awake?)
    ensures var us := ws[t := ws[t].(buf := b, done := true)];
      Slots(Notify(us, us[t].shard)) == Slots(ws) + multiset{b} && Present(Notify(us, us[t].shard)) == Present(ws)
  {
    hide Slots, Present;
    var w := ws[t].(buf := b, done := true);
    var us := ws[t := w];
    SlotsUpdate(ws, t, w);
    PresentUpdate(ws, t, w);
    NoSlot(ws[t]);
    assert Slot(w) == multiset{b};
    NotifySlots(us, w.shard);
  }

  lemma NotifySlots(ws: seq<Waiter>, shard: nat)
    ensures Slots(Notify(ws, shard)) == Slots(ws) && Present(Notify(ws, shard)) == Present(ws)
  {
    SlotsSame(ws, Notify(ws, shard));
  }

  lemma RefuseSlots(ws: seq<Waiter>, queue: seq<nat>)
    requires forall i :: 0 <= i < |queue| ==> queue[i] < |ws| && ws[queue[i]].buf == NULL
    ensures Slots(WakeAll(Refuse(ws, queue), SHARDS)) == Slots(ws)
    ensures Present(WakeAll(Refuse(ws, queue), SHARDS)) == Present(ws)
  {
    SlotsSame(ws, WakeAll(Refuse(ws, queue), SHARDS));
  }

  lemma HandoffKeeps(p: State, b: Ptr)
    requires Inv(p) && p.queue != [] && b != NULL && b in p.out && QueueInRange(p)
    ensures Inv(Handoff(p.(out := p.out - multiset{b}), b))
  {
    hide Conserved, Slots, Present, Slot;
    var t := p.queue[0];
    HandoffSlots(p.waiters, t, b);
    var q := Handoff(p.(out := p.out - multiset{b}), b);
    assert multiset(q.free) + (Slots(p.waiters) + multiset{b}) == multiset(p.free) + Slots(p.waiters) + multiset{b};
    MoveBuffer(p, q, b);
  }

  lemma FreedKeeps(p: State, b: Ptr)
    requires Inv(p) && QueueInRange(p) && p.queue == [] && b != NULL && b in p.out
    ensures Inv(Recycle(p, b))
  {
    hide Conserved, Slots, Present, Slot;
    assert multiset(p.free + [b]) + Slots(p.waiters) == multiset(p.free) + Slots(p.waiters) + multiset{b};
    MoveBuffer(p, Recycle(p, b), b);
  }

  lemma RecycleKeeps(p: State, b: Ptr)
    requires Inv(p) && (b == NULL || b in p.out)
    ensures QueueInRange(p) && Inv(Recycle(p, b))
    ensures Recycle(p, b).out == p.out - (if b == NULL then multiset{} else multiset{b})
  {
    QueueRange(p);
    if b != NULL {
      if p.queue == [] {
        FreedKeeps(p, b);
      } else {
        HandoffKeeps(p, b);
      }
    }
  }

  lemma {:induction false} RecycleAllKeeps(p: State, bs: seq<Ptr>)
    requires Inv(p) && Held(p.out, bs)
    ensures QueueInRange(p) && Inv(RecycleAll(p, bs))
    ensures RecycleAll(p, bs).out == p.out - multiset(bs)[NULL := 0]
    decreases |bs|
  {
    hide Inv, Recycle;
    if bs == [] {
      InvRange(p);
    } else {
      var front, b := bs[..|bs| - 1], bs[|bs| - 1];
      RecycleAllKeeps(p, front);
      assert bs == front + [b];
      RecycleKeeps(RecycleAll(p, front), b);
    }
  }

  lemma InvRange(p: State)
    requires Inv(p)
    ensures QueueInRange(p)
  {
  }

  lemma RefuseWaiter(p: State, t: nat)
    requires FifoInv(p) && t < |p.waiters| && WaiterInv(p.waiters[t], t, |p.served|) && QueueInRange(p) && p.queue != []
    ensures WaiterInv(Stop(p).waiters[t], t, |p.waiters|)
  {
    hide Slots, Present;
    if t >= |p.served| {
      assert p.queue[t - |p.served|] == t;
    } else {
      assert t !in p.queue;
    }
  }

  lemma StoppedInv(p: State, q: State)
    requires Inv(p) && q.all == p.all && q.free == p.free && q.out == p.out
    requires q.queue == [] && q.served == p.served + p.queue && |q.waiters| == |p.waiters|
    requires forall t :: 0 <= t < |p.waiters| ==> WaiterInv(q.waiters[t], t, |p.waiters|)
    requires Slots(q.waiters) == Slots(p.waiters) && Present(q.waiters) == Present(p.waiters)
    requires q.cvNext == p.cvNext && q.inflight == p.inflight
    ensures Inv(q)
  {
    hide Slots, Present, Slot, WaiterInv;
  }

  lemma StopKeeps(p: State)
    requires Inv(p)
    ensures QueueInRange(p) && Inv(Stop(p))
  {
    hide Inv, Waiters, FifoInv, Slots, Present, Slot, WaiterInv, Refuse, WakeAll;
    InvParts(p);
    QueueRange(p);
    if p.queue != [] {
      StillNull(p);
      RefuseSlots(p.waiters, p.queue);
      forall t | 0 <= t < |p.waiters| ensures WaiterInv(Stop(p).waiters[t], t, |p.waiters|) {
        WaiterAt(p, t);
        RefuseWaiter(p, t);
      }
      StoppedInv(p, Stop(p));
    } else {
      StopIdle(p);
    }
  }

  lemma InvParts(p: State)
    requires Inv(p)
    ensures FifoInv(p) && Waiters(p)
  {
  }

  lemma WaiterAt(p: State, t: nat)
    requires Waiters(p) && t < |p.waiters|
    ensures WaiterInv(p.waiters[t], t, |p.served|)
  {
  }

  lemma StopIdle(p: State)
    requires Inv(p) && p.queue == []
    ensures Inv(p.(stopping := true))
  {
    hide Slots, Present, WaiterInv;
  }

  lemma StillNull(p: State)
    requires FifoInv(p) && Waiters(p)
    ensures forall i :: 0 <= i < |p.queue| ==> p.queue[i] < |p.waiters| && p.waiters[p.queue[i]].buf == NULL
  {
  }

  /** One thread changes place: parked, woken, or on its way out. */
  lemma MoveKeeps(p: State, t: nat, w: Waiter)
    requires Inv(p) && t < |p.waiters| && WaiterInv(w, t, |p.served|) && Slot(w) == Slot(p.waiters[t])
    requires !w.place.Gone? && !p.waiters[t].place.Gone?
    ensures Inv(p.(waiters := p.waiters[t := w]))
  {
    hide Conserved, Slots, Present, Slot;
    SlotsMove(p.waiters, t, w);
    SameSlots(p, p.(waiters := p.waiters[t := w]));
  }

  lemma CollectConserves(p: State, q: State, s: multiset<Ptr>)
    requires Conserved(p) && q.all == p.all && q.free == p.free
    requires Slots(q.waiters) + s == Slots(p.waiters) && q.out == p.out + s
    ensures Conserved(q)
  {
    hide Slots;
  }

  lemma CheckKeeps(p: State, t: nat)
    requires Inv(p) && t < |p.waiters| && p.waiters[t].place.Awake? && QueueInRange(p)
    ensures Inv(Do(p, Check(t)))
  {
    hide Conserved, Slots, Present;
    var w := p.waiters[t];
    if !w.done {
      MoveKeeps(p, t, w.(place := Asleep));
    } else {
      SlotsUpdate(p.waiters, t, w.(place := Leaving));
      PresentUpdate(p.waiters, t, w.(place := Leaving));
      NoSlotLeaving(w.(place := Leaving));
      var q := Do(p, Check(t));
      if w.buf == NULL {
        NoSlot(w);
      }
      CollectConserves(p, q, Slot(w));
    }
  }

  lemma LeaveKeeps(p: State, t: nat)
    requires Inv(p) && t < |p.waiters| && p.waiters[t].place.Leaving? && QueueInRange(p)
    ensures Inv(Do(p, Leave(t)))
  {
    hide Conserved, Slots, Present, Slot;
    var w := p.waiters[t].(place := Gone);
    NoSlotLeaving(w);
    NoSlotLeaving(p.waiters[t]);
    SlotsMove(p.waiters, t, w);
    SameSlots(p, Do(p, Leave(t)));
  }

  lemma StepKeeps(p: State, s: Step)
    requires Inv(p) && Enabled(p, s)
    ensures Inv(Do(p, s))
  {
    hide Conserved, Slots, Present, Held;
    match s
    case AcquireNow(alloc) =>
      if CanTake(p, alloc) {
        TakeKeeps(p, alloc);
      }
    case AcquireOrPark(alloc) =>
      if CanTake(p, alloc) {
        TakeKeeps(p, alloc);
      } else if !p.stopping {
        ParkKeeps(p);
      }
    case GiveBack(b) => RecycleKeeps(p, b);
    case GiveBackAll(bs) => RecycleAllKeeps(p, bs);
    case StopAll => StopKeeps(p);
    case Rouse(t) => MoveKeeps(p, t, p.waiters[t].(place := Awake));
    case Check(t) => CheckKeeps(p, t);
    case Leave(t) => LeaveKeeps(p, t);
    case Fill(alloc) =>
      if p.room > 0 && alloc {
        GrowKeeps(p);
      }
    case Budget(room) => SameSlots(p, Do(p, s));
  }

  /** Whatever the threads do, in whatever order, the pool stays sound. */
  lemma {:induction false} RunKeeps(p: State, steps: seq<Step>, q: State)
    requires Inv(p) && Run(p, steps, q)
    ensures Inv(q)
    decreases |steps|
  {
    hide Inv, Do, Enabled;
    if steps != [] {
      StepKeeps(p, steps[0]);
      RunKeeps(Do(p, steps[0]), steps[1..], q);
    }
  }

  // ------------------------------------------------------- what it means

  ghost predicate Reachable(p: State) {
    exists room: nat, n: nat, alloc: nat -> bool, steps: seq<Step> ::
      Run(Init(Empty(room), n, alloc), steps, p)
  }

  lemma ReachableInv(p: State)
    requires Reachable(p)
    ensures Inv(p)
  {
    hide Inv, Run;
    var room: nat, n: nat, alloc: nat -> bool, steps :| Run(Init(Empty(room), n, alloc), steps, p);
    EmptyInv(room);
    InitKeeps(Empty(room), n, alloc);
    RunKeeps(Init(Empty(room), n, alloc), steps, p);
  }

  /** Strict FIFO: hand-offs happen in order of arrival, the queue is exactly the
      arrivals not yet served, and nobody waits while a buffer is free. */
  lemma StrictFifo(p: State)
    requires Reachable(p)
    ensures p.served + p.queue == seq(|p.waiters|, i => i)
    ensures p.queue != [] ==> p.free == []
    ensures forall t :: 0 <= t < |p.waiters| ==> (p.waiters[t].done <==> t in p.served)
  {
    hide Conserved;
    ReachableInv(p);
    forall t | 0 <= t < |p.waiters| ensures p.waiters[t].done <==> t in p.served {
      if t < |p.served| {
        assert p.served[t] == t;
      }
    }
  }

  /** No lost wake-up: a served waiter is never left asleep, and after shutdown
      nobody is left unserved. */
  lemma NoLostWakeup(p: State, t: nat)
    requires Reachable(p) && t < |p.waiters|
    ensures p.waiters[t].place.Asleep? ==> !p.waiters[t].done && t in p.queue
    ensures p.stopping ==> p.waiters[t].done
  {
    hide Conserved;
    ReachableInv(p);
    if !p.waiters[t].done {
      assert p.queue[t - |p.served|] == t;
    }
  }

  /** A hand-off or refusal is final, whatever happens next. */
  lemma ServedOnce(p: State, s: Step, t: nat)
    requires Inv(p) && Enabled(p, s) && t < |p.waiters| && p.waiters[t].done
    ensures t < |Do(p, s).waiters| && Do(p, s).waiters[t].done && Do(p, s).waiters[t].buf == p.waiters[t].buf
  {
    hide Conserved, Counts, Held;
    match s
    case GiveBack(b) => RecycleFinal(p, b, t);
    case GiveBackAll(bs) =>
      hide Inv, RecycleAll;
      RecycleAllFinal(p, bs, t);
    case StopAll =>
      assert forall i :: 0 <= i < |p.queue| ==> p.queue[i] != t;
    case _ =>
  }

  lemma RecycleFinal(p: State, b: Ptr, t: nat)
    requires Inv(p) && t < |p.waiters| && p.waiters[t].done && QueueInRange(p)
    ensures |Recycle(p, b).waiters| == |p.waiters|
    ensures Recycle(p, b).waiters[t].done && Recycle(p, b).waiters[t].buf == p.waiters[t].buf
  {
    hide Conserved, Counts;
    if p.queue != [] {
      assert p.queue[0] != t;
    }
  }

  lemma {:induction false} RecycleAllFinal(p: State, bs: seq<Ptr>, t: nat)
    requires Inv(p) && Held(p.out, bs) && t < |p.waiters| && p.waiters[t].done && QueueInRange(p)
    ensures |RecycleAll(p, bs).waiters| == |p.waiters|
    ensures RecycleAll(p, bs).waiters[t].done && RecycleAll(p, bs).waiters[t].buf == p.waiters[t].buf
    decreases |bs|
  {
    hide Inv, Recycle;
    if bs != [] {
      RecycleAllKeeps(p, bs[..|bs| - 1]);
      RecycleAllFinal(p, bs[..|bs| - 1], t);
      RecycleFinal(RecycleAll(p, bs[..|bs| - 1]), bs[|bs| - 1], t);
    }
  }

  /** A buffer is never in two places: free, in a slot, or with one caller. */
  lemma OnePlace(p: State, b: Ptr)
    requires Reachable(p) && b in p.all
    ensures multiset(p.free)[b] + Slots(p.waiters)[b] + p.out[b] == 1
  {
    ReachableInv(p);
    assert multiset(p.all)[b] == 1 by {
      Once(p.all, b);
    }
  }

  lemma {:induction false} Once(all: seq<Ptr>, b: Ptr)
    requires (forall i :: 0 <= i < |all| ==> all[i] == i + 1) && b in all
    ensures multiset(all)[b] == 1
  {
    var n := |all| - 1;
    assert all == all[..n] + [all[n]];
    if b == all[n] {
      assert b !in all[..n];
    } else {
      Once(all[..n], b);
    }
  }

  // ------------------------------------------------------------- overtaking

  /** A newcomer gets a buffer past the queue exactly when the budget has room
      and the allocation succeeds. */
  lemma OvertakesIff(p: State, alloc: bool)
    requires Reachable(p) && p.queue != []
    ensures QueueInRange(p)
    ensures Do(p, AcquireOrPark(alloc)).out == p.out <==> !(p.room > 0 && alloc)
    ensures Do(p, AcquireNow(alloc)).out == p.out <==> !(p.room > 0 && alloc)
  {
    hide Conserved, Counts, Waiters;
    ReachableInv(p);
    InvCounts(p);
    if p.room > 0 && alloc {
      var q := Take(p, alloc);
      assert |q.0.out| == |p.out| + 1;
    }
  }

  lemma InvCounts(p: State)
    requires Inv(p)
    ensures p.queue != [] ==> p.free == []
  {
  }

  /** Runs in which allocation never fails and nobody else gives budget back. */
  ghost predicate FairRun(p: State, steps: seq<Step>, q: State)
    decreases |steps|
  {
    if steps == [] then q == p
    else
      var s := steps[0];
      Enabled(p, s)
      && (s.AcquireNow? || s.AcquireOrPark? ==> s.alloc)
      && (s.Budget? ==> s.room <= p.room)
      && FairRun(Do(p, s), steps[1..], q)
  }

  /** In such runs nobody is ever overtaken. */
  lemma {:induction false} NoOvertaking(p: State, steps: seq<Step>, q: State)
    requires Inv(p) && (p.queue != [] ==> p.room == 0) && FairRun(p, steps, q)
    ensures q.queue != [] ==>
              !CanTake(q, true) && (forall alloc :: Enter(q, alloc) == if q.stopping then q else Park(q))
    decreases |steps|
  {
    hide Inv, Held, Recycle, RecycleAll, Park;
    InvCounts(p);
    if steps != [] {
      var s := steps[0];
      StepKeeps(p, s);
      RoomStaysTaken(p, s);
      NoOvertaking(Do(p, s), steps[1..], q);
    }
  }

  lemma RoomStaysTaken(p: State, s: Step)
    requires Inv(p) && (p.queue != [] ==> p.room == 0) && Enabled(p, s)
    requires (s.AcquireNow? || s.AcquireOrPark? ==> s.alloc) && (s.Budget? ==> s.room <= p.room)
    ensures Do(p, s).queue != [] ==> Do(p, s).room == 0
  {
    hide Conserved, Waiters, FifoInv, Held, RecycleAll;
    if s.GiveBackAll? {
      RecycleAllRoom(p, s.bs);
    }
  }

  lemma {:induction false} RecycleAllRoom(p: State, bs: seq<Ptr>)
    requires QueueInRange(p)
    ensures RecycleAll(p, bs).room == p.room && (p.queue == [] ==> RecycleAll(p, bs).queue == [])
    decreases |bs|
  {
    if bs != [] {
      RecycleAllRoom(p, bs[..|bs| - 1]);
    }
  }

  /** One failed allocation is enough to be overtaken: the first caller parks,
      the second gets the buffer the first was refused. */
  lemma OvertakenExample()
    ensures var p := Empty(1);
      var q := Do(p, AcquireOrPark(false));
      Run(p, [AcquireOrPark(false)], q) && q.queue == [0]
      && Do(q, AcquireOrPark(true)).queue == [0] && Do(q, AcquireOrPark(true)).out == multiset{1}
  {
    var p := Empty(1);
    var q := Do(p, AcquireOrPark(false));
    assert Run(q, [], q);
    assert [AcquireOrPark(false)][1..] == [];
  }

  // ------------------------------------------------------------- budget

  /** What the others who share the budget have given back, less what they took. */
  ghost function Given(p: State, steps: seq<Step>): int
    decreases |steps|
  {
    if steps == [] || !Enabled(p, steps[0]) then 0
    else (if steps[0].Budget? then steps[0].room - p.room else 0) + Given(Do(p, steps[0]), steps[1..])
  }

  /** Buffers allocated plus buffers still allowed change only by what the others
      who share the budget give and take: none of the pool's own moves, failed
      allocations included, costs or gains a buffer. */
  lemma {:induction false} BudgetKept(p: State, steps: seq<Step>, q: State)
    requires Inv(p) && Run(p, steps, q)
    ensures |q.all| + q.room == |p.all| + p.room + Given(p, steps)
    decreases |steps|
  {
    hide Inv, Do, Enabled;
    if steps != [] {
      StepKeeps(p, steps[0]);
      StepBudget(p, steps[0]);
      BudgetKept(Do(p, steps[0]), steps[1..], q);
    }
  }

  lemma StepBudget(p: State, s: Step)
    requires Enabled(p, s)
    ensures |Do(p, s).all| + Do(p, s).room == |p.all| + p.room + if s.Budget? then s.room - p.room else 0
  {
    hide Held, RecycleAll;
    if s.GiveBackAll? {
      RecycleAllBudget(p, s.bs);
    }
  }

  lemma {:induction false} RecycleAllBudget(p: State, bs: seq<Ptr>)
    requires QueueInRange(p)
    ensures RecycleAll(p, bs).all == p.all && RecycleAll(p, bs).room == p.room
    decreases |bs|
  {
    if bs != [] {
      RecycleAllBudget(p, bs[..|bs| - 1]);
    }
  }

  // ------------------------------------------------------------- batches

  function NonNull(bs: seq<Ptr>): seq<Ptr> {
    if bs == [] then []
    else if bs[|bs| - 1] == NULL then NonNull(bs[..|bs| - 1])
    else NonNull(bs[..|bs| - 1]) + [bs[|bs| - 1]]
  }

  lemma {:induction false} RecycleSkipsNull(p: State, bs: seq<Ptr>)
    requires QueueInRange(p)
    ensures RecycleAll(p, bs) == RecycleAll(p, NonNull(bs)) && NULL !in NonNull(bs)
    decreases |bs|
  {
    hide Recycle;
    if bs != [] {
      var front, b := bs[..|bs| - 1], bs[|bs| - 1];
      RecycleSkipsNull(p, front);
      if b == NULL {
        RecycleNull(RecycleAll(p, front));
      } else {
        assert NonNull(bs)[..|NonNull(bs)| - 1] == NonNull(front);
      }
    }
  }

  lemma RecycleNull(p: State)
    requires QueueInRange(p)
    ensures Recycle(p, NULL) == p
  {
  }

  /** q is p after a batch that served the k oldest waiters with the first k
      buffers, in order, and freed the rest. */
  ghost predicate Batched(p: State, q: State, bs: seq<Ptr>, k: nat)
    requires QueueInRange(p) && k <= |p.queue| && k <= |bs|
  {
    q.queue == p.queue[k..] && q.served == p.served + p.queue[..k] && q.free == p.free + bs[k..]
    && |q.waiters| == |p.waiters|
    && (forall i :: 0 <= i < k ==>
          q.waiters[p.queue[i]].done && q.waiters[p.queue[i]].buf == bs[i] && !q.waiters[p.queue[i]].place.Asleep?)
    && (forall t :: 0 <= t < |p.waiters| && t !in p.queue[..k] ==>
          q.waiters[t].done == p.waiters[t].done && q.waiters[t].buf == p.waiters[t].buf)
  }

  /** A batch serves the oldest waiters first, buffers in list order, one each,
      until either runs out; the rest of the list joins the free list in order. */
  lemma {:induction false} BatchServes(p: State, bs: seq<Ptr>)
    requires FifoInv(p) && QueueInRange(p) && NULL !in bs
    ensures Batched(p, RecycleAll(p, bs), bs, if |bs| < |p.queue| then |bs| else |p.queue|)
    decreases |bs|
  {
    hide Recycle, Batched;
    if bs == [] {
      BatchedNone(p);
    } else {
      var front, b := bs[..|bs| - 1], bs[|bs| - 1];
      assert bs == front + [b];
      BatchServes(p, front);
      if |front| < |p.queue| {
        BatchedOne(p, RecycleAll(p, front), front, b);
      } else {
        BatchedFree(p, RecycleAll(p, front), front, b);
      }
    }
  }

  lemma BatchedNone(p: State)
    requires QueueInRange(p)
    ensures Batched(p, p, [], 0)
  {
  }

  lemma BatchedOne(p: State, r: State, front: seq<Ptr>, b: Ptr)
    requires FifoInv(p) && QueueInRange(p) && |front| < |p.queue| && b != NULL && QueueInRange(r)
    requires Batched(p, r, front, |front|)
    ensures Batched(p, Recycle(r, b), front + [b], |front| + 1)
  {
    hide Recycle;
    var n := |front|;
    ServeNext(r, b);
    assert p.queue[n..][1..] == p.queue[n + 1..];
    assert p.queue[..n + 1] == p.queue[..n] + [p.queue[n]];
    assert front[n..] == [] == (front + [b])[n + 1..];
    assert forall i :: 0 <= i < n ==> p.queue[i] != p.queue[n];
  }

  lemma BatchedFree(p: State, r: State, front: seq<Ptr>, b: Ptr)
    requires QueueInRange(p) && |p.queue| <= |front| && b != NULL && QueueInRange(r)
    requires Batched(p, r, front, |p.queue|)
    ensures Batched(p, Recycle(r, b), front + [b], |p.queue|)
  {
    hide Recycle;
    KeepFree(r, b);
    assert (front + [b])[|p.queue|..] == front[|p.queue|..] + [b];
  }

  lemma ServeNext(p: State, b: Ptr)
    requires QueueInRange(p) && p.queue != [] && b != NULL
    ensures var q := Recycle(p, b);
      q.queue == p.queue[1..] && q.served == p.served + [p.queue[0]] && q.free == p.free && |q.waiters| == |p.waiters|
      && q.waiters[p.queue[0]].done && q.waiters[p.queue[0]].buf == b && !q.waiters[p.queue[0]].place.Asleep?
      && forall t :: 0 <= t < |p.waiters| && t != p.queue[0] ==>
           q.waiters[t].done == p.waiters[t].done && q.waiters[t].buf == p.waiters[t].buf
           && (p.waiters[t].place.Asleep? || q.waiters[t].place == p.waiters[t].place)
  {
  }

  lemma KeepFree(p: State, b: Ptr)
    requires QueueInRange(p) && p.queue == [] && b != NULL
    ensures Recycle(p, b) == p.(free := p.free + [b], out := p.out - multiset{b})
  {
  }

  // ------------------------------------------------------------- shards

  /** How many of the waiters lo .. lo + w park on this shard. */
  function OnShard(lo: nat, w: nat, shard: nat): nat {
    if w == 0 then 0 else OnShard(lo, w - 1, shard) + if (lo + w - 1) % SHARDS == shard then 1 else 0
  }

  lemma {:induction false} OnShardExact(lo: nat, w: nat, shard: nat)
    requires shard < SHARDS
    ensures OnShard(lo, w, shard) == (lo + w + 63 - shard) / 64 - (lo + 63 - shard) / 64
  {
    if w > 0 {
      OnShardExact(lo, w - 1, shard);
      ShardStep(lo + w - 1, shard);
    }
  }

  lemma ShardStep(n: nat, shard: nat)
    requires shard < SHARDS
    ensures (n + 64 - shard) / 64 == (n + 63 - shard) / 64 + if n % SHARDS == shard then 1 else 0
  {
    var q, r := n / 64, n % 64;
    assert n == 64 * q + r;
    if r < shard {
      assert (n + 64 - shard) / 64 == q && (n + 63 - shard) / 64 == q;
    } else if r == shard {
      assert (n + 64 - shard) / 64 == q + 1 && (n + 63 - shard) / 64 == q;
    } else {
      assert (n + 64 - shard) / 64 == q + 1 && (n + 63 - shard) / 64 == q + 1;
    }
  }

  function QueuedOn(p: State, shard: nat): nat
    requires QueueInRange(p)
  {
    CountOn(p.waiters, p.queue, shard)
  }

  function CountOn(ws: seq<Waiter>, queue: seq<nat>, shard: nat): nat
    requires forall i :: 0 <= i < |queue| ==> queue[i] < |ws|
  {
    if queue == [] then 0
    else CountOn(ws, queue[..|queue| - 1], shard) + if ws[queue[|queue| - 1]].shard == shard then 1 else 0
  }

  /** The queue is the run of numbers from lo on. */
  ghost predicate RunsFrom(queue: seq<nat>, lo: nat) {
    forall i :: 0 <= i < |queue| ==> queue[i] == lo + i
  }

  lemma FrontRuns(queue: seq<nat>, lo: nat)
    requires RunsFrom(queue, lo) && queue != []
    ensures RunsFrom(queue[..|queue| - 1], lo) && queue[|queue| - 1] == lo + |queue| - 1
  {
    var front := queue[..|queue| - 1];
    assert forall i :: 0 <= i < |front| ==> front[i] == queue[i];
  }

  lemma RunInRange(queue: seq<nat>, lo: nat, n: nat)
    requires RunsFrom(queue, lo) && lo + |queue| <= n
    ensures forall i :: 0 <= i < |queue| ==> queue[i] < n
  {
  }

  lemma {:induction false} CountIsOnShard(ws: seq<Waiter>, queue: seq<nat>, lo: nat, shard: nat)
    requires RunsFrom(queue, lo) && lo + |queue| <= |ws|
    requires forall t :: 0 <= t < |ws| ==> ws[t].shard == t % SHARDS
    ensures forall i :: 0 <= i < |queue| ==> queue[i] < |ws|
    ensures CountOn(ws, queue, shard) == OnShard(lo, |queue|, shard)
    decreases |queue|
  {
    RunInRange(queue, lo, |ws|);
    if queue != [] {
      FrontRuns(queue, lo);
      hide RunsFrom;
      CountIsOnShard(ws, queue[..|queue| - 1], lo, shard);
    }
  }

  /** A queue of w waiters is spread evenly: between w/64 rounded down and w/64
      rounded up on every shard, also across a wrap of the 32-bit cursor. */
  lemma ShardBalance(p: State, shard: nat)
    requires Reachable(p) && shard < SHARDS
    ensures QueueInRange(p) && |p.queue| / 64 <= QueuedOn(p, shard) <= (|p.queue| + 63) / 64
  {
    hide Conserved;
    ReachableInv(p);
    CountIsOnShard(p.waiters, p.queue, |p.served|, shard);
    OnShardExact(|p.served|, |p.queue|, shard);
    SpreadBound(|p.served| + 63 - shard, |p.queue|);
  }

  lemma SpreadBound(a: nat, w: nat)
    ensures w / 64 <= (a + w) / 64 - a / 64 <= (w + 63) / 64
  {
  }

  // ------------------------------------------------------------- teardown

  lemma {:induction false} NobodyPresent(ws: seq<Waiter>)
    requires Present(ws) == 0
    ensures forall t :: 0 <= t < |ws| ==> ws[t].place.Gone?
  {
    if ws != [] {
      NobodyPresent(ws[..|ws| - 1]);
      assert forall t :: 0 <= t < |ws| - 1 ==> ws[t] == ws[..|ws| - 1][t];
    }
  }

  /** Once stopped with mu_inflight at zero, every thread that ever waited has
      gone, and no later step brings one back: the pool may be destroyed. */
  lemma {:induction false} BarrierIsSafe(p: State, steps: seq<Step>, q: State)
    requires Inv(p) && p.stopping && p.inflight == 0 && Run(p, steps, q)
    ensures q.waiters == p.waiters && q.inflight == 0 && forall t :: 0 <= t < |q.waiters| ==> q.waiters[t].place.Gone?
    decreases |steps|
  {
    NobodyPresent(p.waiters);
    hide Conserved, Waiters, FifoInv, Present, Held, RecycleAll, Recycle;
    if steps != [] {
      StepKeeps(p, steps[0]);
      StaysQuiet(p, steps[0]);
      BarrierIsSafe(Do(p, steps[0]), steps[1..], q);
    }
  }

  lemma StaysQuiet(p: State, s: Step)
    requires Enabled(p, s) && p.stopping && p.queue == []
    requires forall t :: 0 <= t < |p.waiters| ==> p.waiters[t].place.Gone?
    ensures var q := Do(p, s); q.waiters == p.waiters && q.stopping && q.inflight == p.inflight
  {
    hide Held, RecycleAll;
    if s.GiveBackAll? {
      RecycleAllQuiet(p, s.bs);
    }
  }

  lemma {:induction false} RecycleAllQuiet(p: State, bs: seq<Ptr>)
    requires p.queue == []
    ensures var q := RecycleAll(p, bs);
      q.waiters == p.waiters && q.stopping == p.stopping && q.inflight == p.inflight && q.queue == []
    decreases |bs|
  {
    if bs != [] {
      RecycleAllQuiet(p, bs[..|bs| - 1]);
    }
  }

  // ------------------------------------------------------------- shutdown

  lemma StopStays(p: State, s: Step)
    requires Enabled(p, s) && p.stopping && p.queue == []
    ensures var q := Do(p, s); q.stopping && q.queue == [] && |q.waiters| == |p.waiters|
  {
    hide Held, RecycleAll;
    if s.GiveBackAll? {
      RecycleAllQuiet(p, s.bs);
    }
  }

  lemma {:induction false} StopLasts(p: State, steps: seq<Step>, q: State)
    requires Inv(p) && p.stopping && Run(p, steps, q)
    ensures Inv(q) && q.stopping && |q.waiters| == |p.waiters|
    decreases |steps|
  {
    hide Conserved, Waiters, FifoInv, Held, RecycleAll, Recycle, Enabled, Do;
    if steps != [] {
      StepKeeps(p, steps[0]);
      StopStays(p, steps[0]);
      StopLasts(Do(p, steps[0]), steps[1..], q);
    }
  }

  /** From stop_waiters on, whatever follows, nobody waits again: everyone who
      ever waited has been served or refused, and nobody joins the queue. */
  lemma ShutdownIsFinal(p: State, steps: seq<Step>, q: State)
    requires Reachable(p) && QueueInRange(p) && Run(Do(p, StopAll), steps, q)
    ensures q.stopping && q.queue == [] && |q.waiters| == |p.waiters|
    ensures forall t :: 0 <= t < |q.waiters| ==> q.waiters[t].done && !q.waiters[t].place.Asleep?
  {
    hide Run, Reachable, Conserved;
    ReachableInv(p);
    StepKeeps(p, StopAll);
    StopLasts(Do(p, StopAll), steps, q);
  }

  // ------------------------------------------------------------- the free list

  /** k buffers taken one after the other. */
  function Takes(p: State, k: nat): (State, seq<Ptr>)
    requires k <= |p.free|
    decreases k
  {
    if k == 0 then (p, [])
    else
      var (q, b) := Take(p, false);
      var (r, bs) := Takes(q, k - 1);
      (r, [b] + bs)
  }

  /** Free buffers are handed out oldest first. */
  lemma {:induction false} OldestFirst(p: State, k: nat)
    requires k <= |p.free|
    ensures Takes(p, k).1 == p.free[..k] && Takes(p, k).0.free == p.free[k..] && Takes(p, k).0.all == p.all
    decreases k
  {
    if k > 0 {
      OldestFirst(Take(p, false).0, k - 1);
      assert p.free[..k] == [p.free[0]] + p.free[1..][..k - 1];
    }
  }

  /** While nobody waits, buffers given back come out again behind those that were
      free already, in the order in which they were given back. */
  lemma GivenBackLast(p: State, bs: seq<Ptr>)
    requires p.queue == [] && NULL !in bs
    ensures |RecycleAll(p, bs).free| == |p.free| + |bs|
    ensures Takes(RecycleAll(p, bs), |p.free| + |bs|).1 == p.free + bs
  {
    hide RecycleAll, Takes;
    FreedInOrder(p, bs);
    OldestFirst(RecycleAll(p, bs), |p.free| + |bs|);
    assert (p.free + bs)[..|p.free| + |bs|] == p.free + bs;
  }

  lemma {:induction false} FreedInOrder(p: State, bs: seq<Ptr>)
    requires p.queue == [] && NULL !in bs
    ensures RecycleAll(p, bs).free == p.free + bs && RecycleAll(p, bs).queue == []
    decreases |bs|
  {
    hide Recycle;
    if bs == [] {
      assert p.free + bs == p.free;
    } else {
      var front, b := bs[..|bs| - 1], bs[|bs| - 1];
      FreedInOrder(p, front);
      FreedOne(RecycleAll(p, front), b);
      assert p.free + bs == (p.free + front) + [b];
    }
  }

  lemma FreedOne(p: State, b: Ptr)
    requires p.queue == [] && b != NULL
    ensures Recycle(p, b).free == p.free + [b] && Recycle(p, b).queue == []
  {
  }
}
