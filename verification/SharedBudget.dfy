/** Several pools that share one memory budget. A pool asks the budget only while
    its mutex is held, so it is one thread of the budget's machine. */
module SharedBudget {
  import Budget
  import Pool

  type Size = n: nat | n > 0 witness 1

  /** What the holder of a pool's mutex wants memory for: the rest of init's
      buffers, or one buffer for a caller that may wait. */
  datatype Purpose = Filling(left: nat) | Asking(wait: bool)

  /** Between two calls, before try_reserve, inside it, past it with the bytes in
      hand, and in the destructor. */
  datatype Stage =
    | Free
    | Ready(purpose: Purpose)
    | Trying(purpose: Purpose)
    | Granted(purpose: Purpose)
    | Clearing(bytes: nat)
    | Released

  /** pools[i].room is not used: what a pool may still get is Room. */
  datatype State = State(budget: Budget.State, sizes: seq<Size>, pools: seq<Pool.State>, stages: seq<Stage>)

  function Start(max: nat, sizes: seq<Size>): State {
    var n := |sizes|;
    State(Budget.Initial(max, n), sizes, seq(n, _ => Pool.Empty(0)), seq(n, _ => Free))
  }

  datatype Step =
    | Local(i: nat, move: Pool.Step)   // what needs no memory
    | Enter(i: nat, purpose: Purpose)
    | Load(i: nat)
    | Swap(i: nat, spurious: bool)
    | Refuse(i: nat)
    | Listed(i: nat)                   // the allocation succeeds
    | Failed(i: nat)                   // the allocation fails
    | Clear(i: nat)                    // the destructor frees all buffers
    | Return(i: nat)                   // ... and gives their bytes back

  /** A pool's move once it is known whether there is a new buffer. */
  function MoveFor(p: Purpose, got: bool): Pool.Step {
    match p
    case Filling(_) => Pool.Fill(got)
    case Asking(wait) => if wait then Pool.AcquireOrPark(got) else Pool.AcquireNow(got)
  }

  /** Moves under the mutex that do not touch the budget, and the two that hold no mutex. */
  ghost predicate NoGrowth(p: Pool.State, g: Stage, a: Pool.Step) {
    match a
    case AcquireNow(_) => g.Free? && p.free != []
    case AcquireOrPark(_) => g.Free? && p.free != []
    case GiveBack(_) => g.Free?
    case GiveBackAll(_) => g.Free?
    case StopAll => g.Free?
    case Check(_) => g.Free?
    case Rouse(_) => g != Released
    case Leave(_) => g != Released
    case Fill(_) => false
    case Budget(_) => false
  }

  /** The budget's move that a step makes, if any. */
  function BudgetMove(s: State, a: Step): (r: seq<Budget.Step>)
    requires a.i < |s.sizes| && a.i < |s.stages|
  {
    match a
    case Load(i) => [Budget.Load(i, s.sizes[i])]
    case Swap(i, spurious) => [Budget.Swap(i, spurious)]
    case Refuse(i) => [Budget.Refuse(i)]
    case Failed(i) => [Budget.Release(i, s.sizes[i])]
    case Return(i) =>
      if s.stages[i].Clearing? && s.stages[i].bytes > 0 then [Budget.Release(i, s.stages[i].bytes)] else []
    case _ => []
  }

  ghost predicate Can(s: State, a: Step) {
    var i := a.i;
    i < |s.sizes| == |s.pools| == |s.stages| && Pool.QueueInRange(s.pools[i])
    && (BudgetMove(s, a) != [] ==> BudgetReady(s.budget, BudgetMove(s, a)[0]))
    && var p, g := s.pools[i], s.stages[i];
       match a
       case Local(_, move) => Pool.Enabled(p, move) && NoGrowth(p, g, move)
       case Enter(_, purpose) =>
         g.Free? && (if purpose.Filling? then purpose.left > 0 && p.queue == [] else p.free == [])
       case Load(_) => g.Ready?
       case Swap(_, _) => g.Trying?
       case Refuse(_) => g.Trying? && Pool.Enabled(p, MoveFor(g.purpose, false))
       case Listed(_) => g.Granted? && Pool.Enabled(p.(room := 1), MoveFor(g.purpose, true))
       case Failed(_) => g.Granted? && Pool.Enabled(p, MoveFor(g.purpose, false))
       case Clear(_) => g.Free? && p.stopping && p.inflight == 0
       case Return(_) => g.Clearing?
  }

  ghost predicate BudgetReady(b: Budget.State, a: Budget.Step) {
    Budget.Enabled(b, a) && |b.history| > 0 && (a.Release? ==> a.bytes <= b.used)
  }

  ghost function Moved(s: State, a: Step): Budget.State
    requires Can(s, a)
  {
    if BudgetMove(s, a) == [] then s.budget else Budget.Do(s.budget, BudgetMove(s, a)[0])
  }

  /** After a round of init the mutex is kept for the next one. */
  function After(p: Purpose): Stage {
    if p.Filling? && p.left > 1 then Ready(Filling(p.left - 1)) else Free
  }

  ghost function PoolAfter(s: State, a: Step): Pool.State
    requires Can(s, a)
  {
    var p, g := s.pools[a.i], s.stages[a.i];
    match a
    case Local(_, move) => Pool.Do(p, move)
    case Refuse(_) => Pool.Do(p, MoveFor(g.purpose, false))
    case Listed(_) => Pool.Do(p.(room := 1), MoveFor(g.purpose, true))
    case Failed(_) => Pool.Do(p, MoveFor(g.purpose, false))
    case Clear(_) => p.(all := [], free := [])
    case _ => p
  }

  ghost function StageAfter(s: State, a: Step): Stage
    requires Can(s, a)
  {
    var g := s.stages[a.i];
    match a
    case Local(_, _) => g
    case Enter(_, purpose) => Ready(purpose)
    case Load(_) => Trying(g.purpose)
    case Swap(i, _) => if i < |Moved(s, a).threads| && Moved(s, a).threads[i].phase.Idle? then Granted(g.purpose) else g
    case Refuse(_) => Free
    case Listed(_) => After(g.purpose)
    case Failed(_) => Free
    case Clear(i) => Clearing(s.sizes[i] * |s.pools[i].all|)
    case Return(_) => Released
  }

  ghost function Do(s: State, a: Step): (r: State)
    requires Can(s, a)
    ensures |r.sizes| == |s.sizes| && |r.pools| == |s.pools| && |r.stages| == |s.stages|
  {
    State(Moved(s, a), s.sizes, s.pools[a.i := PoolAfter(s, a)], s.stages[a.i := StageAfter(s, a)])
  }

  ghost predicate Run(s: State, steps: seq<Step>, r: State)
    decreases |steps|
  {
    if steps == [] then r == s else Can(s, steps[0]) && Run(Do(s, steps[0]), steps[1..], r)
  }

  // ------------------------------------------------------------- invariant

  /** Bytes reserved for a pool that its list of buffers does not account for. */
  function Extra(g: Stage, size: nat): nat {
    match g
    case Granted(_) => size
    case Clearing(bytes) => bytes
    case _ => 0
  }

  predicate Alive(g: Stage) { !g.Clearing? && !g.Released? }

  ghost predicate Wants(p: Pool.State, g: Stage) {
    (g.Ready? || g.Trying? || g.Granted?) ==>
      match g.purpose
      case Filling(left) => left > 0 && p.queue == []
      case Asking(_) => p.free == []
  }

  ghost predicate Sound(size: nat, p: Pool.State, g: Stage, th: Budget.Thread) {
    p.room == 0 && Pool.QueueInRange(p) && Wants(p, g)
    && (if Alive(g) then Pool.Inv(p) else p.all == [])
    && th.live == size * |p.all| + Extra(g, size)
    && (if g.Trying? then th.phase.Loaded? && th.phase.want == size else th.phase.Idle?)
  }

  ghost predicate Inv(s: State) {
    Budget.Inv(s.budget) && |s.sizes| == |s.pools| == |s.stages| == |s.budget.threads|
    && forall i: nat :: i < |s.sizes| ==> Sound(s.sizes[i], s.pools[i], s.stages[i], s.budget.threads[i])
  }

  /** What needs no memory leaves the allocated buffers alone. */
  lemma {:induction false} LocalFrame(p: Pool.State, g: Stage, a: Pool.Step)
    requires Pool.Enabled(p, a) && NoGrowth(p, g, a)
    ensures var q := Pool.Do(p, a);
      q.all == p.all && q.room == p.room && (!g.Free? ==> q.free == p.free && q.queue == p.queue)
  {
    hide Pool.Held, Pool.RecycleAll;
    if a.GiveBackAll? {
      Pool.RecycleAllBudget(p, a.bs);
    }
  }

  lemma LocalSound(s: State, a: Step)
    requires Inv(s) && Can(s, a) && a.Local?
    ensures Sound(s.sizes[a.i], PoolAfter(s, a), s.stages[a.i], s.budget.threads[a.i])
  {
    hide Pool.Inv, Pool.Do, Pool.Enabled, Budget.Inv;
    var p := s.pools[a.i];
    LocalFrame(p, s.stages[a.i], a.move);
    if Alive(s.stages[a.i]) {
      Pool.StepKeeps(p, a.move);
      Pool.InvRange(Pool.Do(p, a.move));
    } else {
      RangeKept(p, a.move);
    }
  }

  lemma RangeKept(p: Pool.State, a: Pool.Step)
    requires Pool.Enabled(p, a) && (a.Rouse? || a.Leave?)
    ensures Pool.QueueInRange(Pool.Do(p, a))
  {
  }

  /** A caller that got no memory: the pool may queue it, but has no more buffers. */
  lemma WithoutMemory(p: Pool.State, w: Purpose)
    requires Pool.Enabled(p, MoveFor(w, false)) && (w.Asking? ==> p.free == [])
    ensures var q := Pool.Do(p, MoveFor(w, false)); q.all == p.all && q.room == p.room
  {
  }

  /** A new buffer: one more is listed, and the room for it is used up. */
  lemma WithMemory(p: Pool.State, w: Purpose)
    requires Pool.Enabled(p, MoveFor(w, true)) && (w.Asking? ==> p.free == []) && p.room > 0
    ensures var q := Pool.Do(p, MoveFor(w, true));
      |q.all| == |p.all| + 1 && q.room == p.room - 1 && (w.Filling? ==> q.queue == p.queue)
  {
  }

  lemma RoomOnly(p: Pool.State, k: nat)
    requires Pool.Inv(p)
    ensures Pool.Inv(p.(room := k))
  {
    hide Pool.Slots, Pool.Present, Pool.WaiterInv;
  }

  /** One move of the budget, as the mover and the others see it. */
  lemma BudgetFrame(b: Budget.State, a: Budget.Step)
    requires BudgetReady(b, a)
    ensures var r := Budget.Do(b, a);
      r.max == b.max && |r.threads| == |b.threads| && r.threads == b.threads[a.t := r.threads[a.t]]
      && var th, now := b.threads[a.t], r.threads[a.t];
         match a
         case Load(_, want) => now.live == th.live && now.phase.Loaded? && now.phase.want == want && r.used == b.used
         case Refuse(_) => now.live == th.live && now.phase.Idle? && r.used == b.used
         case Swap(_, _) =>
           if now.phase.Idle? then now.live == th.live + th.phase.want && r.used == b.used + th.phase.want
           else now.live == th.live && now.phase.want == th.phase.want && r.used == b.used
         case Release(_, bytes) => now.live == th.live - bytes && now.phase.Idle? && r.used == b.used - bytes
  {
  }

  lemma MovedFrame(s: State, a: Step)
    requires Inv(s) && Can(s, a)
    ensures var r := Moved(s, a);
      r.max == s.budget.max && |r.threads| == |s.budget.threads| && Budget.Inv(r)
      && r.threads == s.budget.threads[a.i := r.threads[a.i]]
  {
    hide Budget.Inv, Sound, Pool.Enabled, Pool.QueueInRange, Budget.Do;
    if BudgetMove(s, a) != [] {
      Budget.StepKeeps(s.budget, BudgetMove(s, a)[0]);
      BudgetFrame(s.budget, BudgetMove(s, a)[0]);
    }
  }

  lemma ReserveSound(s: State, a: Step)
    requires Inv(s) && Can(s, a) && (a.Enter? || a.Load? || a.Swap?)
    ensures a.i < |Moved(s, a).threads|
    ensures Sound(s.sizes[a.i], s.pools[a.i], StageAfter(s, a), Moved(s, a).threads[a.i])
  {
    hide Pool.Inv, Pool.QueueInRange, Budget.Inv, Budget.Do;
    if !a.Enter? {
      BudgetFrame(s.budget, BudgetMove(s, a)[0]);
    }
  }

  lemma NoneSound(s: State, a: Step)
    requires Inv(s) && Can(s, a) && (a.Refuse? || a.Failed?)
    ensures a.i < |Moved(s, a).threads|
    ensures Sound(s.sizes[a.i], PoolAfter(s, a), Free, Moved(s, a).threads[a.i])
  {
    hide Pool.Inv, Budget.Inv, Budget.Do, Pool.Do, Pool.Enabled;
    var p, w := s.pools[a.i], s.stages[a.i].purpose;
    Pool.StepKeeps(p, MoveFor(w, false));
    Pool.InvRange(PoolAfter(s, a));
    WithoutMemory(p, w);
    BudgetFrame(s.budget, BudgetMove(s, a)[0]);
  }

  lemma ListedSound(s: State, a: Step)
    requires Inv(s) && Can(s, a) && a.Listed?
    ensures Sound(s.sizes[a.i], PoolAfter(s, a), StageAfter(s, a), s.budget.threads[a.i])
  {
    hide Pool.Inv, Budget.Inv, Budget.Do, Pool.Do, Pool.Enabled;
    var p, w := s.pools[a.i], s.stages[a.i].purpose;
    RoomOnly(p, 1);
    Pool.StepKeeps(p.(room := 1), MoveFor(w, true));
    Pool.InvRange(PoolAfter(s, a));
    WithMemory(p.(room := 1), w);
    assert s.sizes[a.i] * (|p.all| + 1) == s.sizes[a.i] * |p.all| + s.sizes[a.i];
  }

  lemma GoneSound(s: State, a: Step)
    requires Inv(s) && Can(s, a) && (a.Clear? || a.Return?)
    ensures a.i < |Moved(s, a).threads|
    ensures Sound(s.sizes[a.i], PoolAfter(s, a), StageAfter(s, a), Moved(s, a).threads[a.i])
  {
    hide Pool.Inv, Budget.Inv, Budget.Do;
    if BudgetMove(s, a) != [] {
      BudgetFrame(s.budget, BudgetMove(s, a)[0]);
    }
  }

  lemma ActorSound(s: State, a: Step)
    requires Inv(s) && Can(s, a)
    ensures a.i < |Moved(s, a).threads|
    ensures Sound(s.sizes[a.i], PoolAfter(s, a), StageAfter(s, a), Moved(s, a).threads[a.i])
  {
    hide Inv, Sound, Pool.Enabled, Pool.Do, Pool.QueueInRange, Budget.Do, BudgetReady;
    Lengths(s);
    match a
    case Local(_, _) => LocalSound(s, a);
    case Listed(_) => ListedSound(s, a);
    case Refuse(_) => NoneSound(s, a);
    case Failed(_) => NoneSound(s, a);
    case Clear(_) => GoneSound(s, a);
    case Return(_) => GoneSound(s, a);
    case _ => ReserveSound(s, a);
  }

  lemma Lengths(s: State)
    requires Inv(s)
    ensures |s.sizes| == |s.pools| == |s.stages| == |s.budget.threads|
  {
  }

  lemma StepKeeps(s: State, a: Step)
    requires Inv(s) && Can(s, a)
    ensures Inv(Do(s, a))
  {
    hide Can, Sound, Moved, PoolAfter, StageAfter, Budget.Inv;
    InRange(s, a);
    MovedFrame(s, a);
    ActorSound(s, a);
  }

  lemma InRange(s: State, a: Step)
    requires Can(s, a)
    ensures a.i < |s.sizes| == |s.pools| == |s.stages|
  {
  }

  lemma {:induction false} RunKeeps(s: State, steps: seq<Step>, r: State)
    requires Inv(s) && Run(s, steps, r)
    ensures Inv(r) && r.sizes == s.sizes && r.budget.max == s.budget.max
    decreases |steps|
  {
    hide Inv, Can, Moved, PoolAfter, StageAfter;
    if steps != [] {
      StepKeeps(s, steps[0]);
      MovedFrame(s, steps[0]);
      RunKeeps(Do(s, steps[0]), steps[1..], r);
    }
  }

  lemma StartInv(max: nat, sizes: seq<Size>)
    ensures Inv(Start(max, sizes))
  {
    Pool.EmptyInv(0);
    Budget.NoneLive(|sizes|);
  }

  // ------------------------------------------------------------- conservation

  /** Bytes in the buffers of the first n pools, and on their way to a list or back. */
  function Committed(s: State, n: nat): nat
    requires n <= |s.sizes| && n <= |s.pools| && n <= |s.stages|
  {
    if n == 0 then 0
    else Committed(s, n - 1) + s.sizes[n - 1] * |s.pools[n - 1].all| + Extra(s.stages[n - 1], s.sizes[n - 1])
  }

  lemma {:induction false} LiveIsCommitted(s: State, n: nat)
    requires Inv(s) && n <= |s.sizes|
    ensures Budget.Live(s.budget.threads[..n]) == Committed(s, n)
  {
    hide Pool.Inv, Budget.Inv, Pool.QueueInRange;
    if n > 0 {
      LiveIsCommitted(s, n - 1);
      assert s.budget.threads[..n][..n - 1] == s.budget.threads[..n - 1];
    }
  }

  /** In every reachable state the budget's used bytes are exactly the allocated
      buffers of all pools times their sizes plus the bytes reserved and not yet
      listed, and never above the cap. */
  lemma BudgetConserved(max: nat, sizes: seq<Size>, steps: seq<Step>, s: State)
    requires Run(Start(max, sizes), steps, s)
    ensures s.sizes == sizes && |s.pools| == |s.stages| == |sizes|
    ensures s.budget.used == Committed(s, |sizes|) <= max
  {
    hide Inv, Run;
    StartInv(max, sizes);
    RunKeeps(Start(max, sizes), steps, s);
    Lengths(s);
    LiveIsCommitted(s, |sizes|);
    assert s.budget.threads[..|sizes|] == s.budget.threads;
    UsedIsLive(s);
  }

  lemma UsedIsLive(s: State)
    requires Inv(s)
    ensures s.budget.used == Budget.Live(s.budget.threads) <= s.budget.max
  {
  }

  lemma {:induction false} NothingCommitted(s: State, n: nat)
    requires n <= |s.sizes| == |s.pools| == |s.stages|
    requires forall i :: 0 <= i < n ==> s.pools[i].all == [] && s.stages[i].Released?
    ensures Committed(s, n) == 0
  {
    if n > 0 {
      NothingCommitted(s, n - 1);
    }
  }

  /** Once every pool is destroyed the whole budget is free again. */
  lemma AllReturned(max: nat, sizes: seq<Size>, steps: seq<Step>, s: State)
    requires Run(Start(max, sizes), steps, s) && forall g <- s.stages :: g.Released?
    ensures s.budget.used == 0
  {
    BudgetConserved(max, sizes, steps, s);
    StartInv(max, sizes);
    hide Run, Pool.Inv, Pool.QueueInRange, Budget.Inv;
    RunKeeps(Start(max, sizes), steps, s);
    forall i: nat | i < |sizes| ensures s.pools[i].all == [] && s.stages[i].Released? {
      assert s.stages[i] in s.stages;
    }
    NothingCommitted(s, |sizes|);
  }

  // ------------------------------------------------------------- one pool's view

  /** How many buffers pool i could still allocate if nobody else moved; bytes it
      holds for a buffer about to be listed count. */
  function Room(s: State, i: nat): nat
    requires i < |s.sizes| && i < |s.stages|
  {
    Fitting(s.budget.max, s.budget.used - Extra(s.stages[i], s.sizes[i]), s.sizes[i])
  }

  /** How many buffers still fit beside what is held. */
  function Fitting(max: nat, held: int, size: Size): nat {
    if held <= max then (max - held) / size else 0
  }

  lemma FittingNext(max: nat, held: int, size: Size)
    requires held + size <= max
    ensures Fitting(max, held, size) > 0 && Fitting(max, held + size, size) == Fitting(max, held, size) - 1
  {
    OneLess(max - held - size, size);
  }

  function View(s: State, i: nat): Pool.State
    requires i < |s.sizes| && i < |s.stages| && i < |s.pools|
  {
    s.pools[i].(room := Room(s, i))
  }

  /** What a step looks like to pool i. */
  ghost function Seen(s: State, a: Step, i: nat): seq<Pool.Step>
    requires Can(s, a) && i < |s.sizes|
  {
    if a.i != i then [Pool.Budget(Room(Do(s, a), i))]
    else
      match a
      case Local(_, move) => [move]
      case Refuse(_) => [MoveFor(s.stages[i].purpose, false)]
      case Listed(_) => [MoveFor(s.stages[i].purpose, true)]
      case Failed(_) => [MoveFor(s.stages[i].purpose, false)]
      case _ => []
  }

  /** How much room there is makes no difference to these moves. */
  lemma {:induction false} RoomFree(p: Pool.State, g: Stage, a: Pool.Step, k: nat)
    requires Pool.Enabled(p, a) && NoGrowth(p, g, a)
    ensures Pool.Enabled(p.(room := k), a) && Pool.Do(p.(room := k), a) == Pool.Do(p, a).(room := k)
  {
    hide Pool.Held, Pool.RecycleAll, Pool.Recycle;
    match a
    case GiveBack(b) => RecycleFree(p, b, k);
    case GiveBackAll(bs) => RecycleAllFree(p, bs, k);
    case _ =>
  }

  lemma RecycleFree(p: Pool.State, b: Pool.Ptr, k: nat)
    requires Pool.QueueInRange(p)
    ensures Pool.QueueInRange(p.(room := k)) && Pool.Recycle(p.(room := k), b) == Pool.Recycle(p, b).(room := k)
  {
  }

  lemma {:induction false} RecycleAllFree(p: Pool.State, bs: seq<Pool.Ptr>, k: nat)
    requires Pool.QueueInRange(p)
    ensures Pool.QueueInRange(p.(room := k))
    ensures Pool.RecycleAll(p.(room := k), bs) == Pool.RecycleAll(p, bs).(room := k)
    decreases |bs|
  {
    hide Pool.Recycle;
    if bs != [] {
      RecycleAllFree(p, bs[..|bs| - 1], k);
      RecycleFree(Pool.RecycleAll(p, bs[..|bs| - 1]), bs[|bs| - 1], k);
    }
  }

  lemma RangeAny(p: Pool.State, j: nat, k: nat)
    ensures Pool.QueueInRange(p.(room := j)) <==> Pool.QueueInRange(p.(room := k))
    ensures Pool.QueueInRange(p) <==> Pool.QueueInRange(p.(room := k))
  {
  }

  lemma RefusedFree(p: Pool.State, w: Purpose, k: nat)
    requires Pool.Enabled(p, MoveFor(w, false)) && (w.Asking? ==> p.free == [])
    ensures Pool.Enabled(p.(room := k), MoveFor(w, false))
    ensures Pool.Do(p.(room := k), MoveFor(w, false)) == Pool.Do(p, MoveFor(w, false)).(room := k)
  {
  }

  lemma ListedFree(p: Pool.State, w: Purpose, k: nat)
    requires Pool.Enabled(p.(room := 1), MoveFor(w, true)) && (w.Asking? ==> p.free == []) && k > 0
    ensures Pool.Enabled(p.(room := k), MoveFor(w, true))
    ensures Pool.Do(p.(room := k), MoveFor(w, true)) == Pool.Do(p.(room := 1), MoveFor(w, true)).(room := k - 1)
  {
    hide Pool.QueueInRange, Pool.Recycle, Pool.RecycleAll, Pool.Stop, Pool.Held, Pool.Park;
    RangeAny(p, 1, k);
    match w
    case Filling(_) =>
    case Asking(_) =>
  }

  /** Reserving and giving back shift bytes between used and in hand; only listing
      a new buffer takes room away, exactly one buffer. */
  lemma OwnRoom(s: State, a: Step)
    requires Inv(s) && Can(s, a) && Alive(StageAfter(s, a))
    ensures Room(Do(s, a), a.i) == Room(s, a.i) - if a.Listed? then 1 else 0
  {
    hide Inv, Can, Do, StageAfter, Moved, Fitting;
    HeldByOthers(s, a);
    if a.Listed? {
      UsedFits(s);
      FittingNext(s.budget.max, s.budget.used - s.sizes[a.i], s.sizes[a.i]);
    }
  }

  /** What is used beyond the bytes in hand changes only when a buffer is listed. */
  lemma HeldByOthers(s: State, a: Step)
    requires Inv(s) && Can(s, a) && Alive(StageAfter(s, a))
    ensures a.i < |s.sizes| == |s.stages| && Do(s, a).budget.max == s.budget.max && Do(s, a).sizes == s.sizes
    ensures Do(s, a).budget.used - Extra(Do(s, a).stages[a.i], s.sizes[a.i])
            == s.budget.used - Extra(s.stages[a.i], s.sizes[a.i]) + if a.Listed? then s.sizes[a.i] else 0
    ensures a.Listed? ==> s.stages[a.i].Granted?
  {
    hide Pool.Inv, Pool.QueueInRange, Pool.Enabled, Pool.Do, Budget.Do;
    if BudgetMove(s, a) != [] {
      BudgetFrame(s.budget, BudgetMove(s, a)[0]);
    }
  }

  lemma UsedFits(s: State)
    requires Inv(s)
    ensures s.budget.used <= s.budget.max
  {
  }

  lemma OneLess(n: nat, size: Size)
    ensures (n + size) / size == n / size + 1
  {
    var q, k := n / size, (n + size) / size;
    assert n == q * size + n % size && n + size == k * size + (n + size) % size;
    assert (k - q - 1) * size == k * size - q * size - size == n % size - (n + size) % size;
    NoMultipleBetween(k - q - 1, size);
  }

  lemma NoMultipleBetween(k: int, d: int)
    requires d > 0 && -d < k * d < d
    ensures k == 0
  {
    if k != 0 {
      AtLeast(if k > 0 then k else -k, d);
    }
  }

  lemma AtLeast(k: int, d: int)
    requires k > 0 && d > 0
    ensures k * d >= d
  {
    assert k * d == (k - 1) * d + d && (k - 1) * d >= 0;
  }

  lemma RunOne(p: Pool.State, a: Pool.Step, q: Pool.State)
    requires Pool.Enabled(p, a) && q == Pool.Do(p, a)
    ensures Pool.Run(p, [a], q)
  {
    hide Pool.Enabled, Pool.Do;
    assert [a][1..] == [];
  }

  lemma OthersMove(s: State, a: Step, i: nat)
    requires Inv(s) && Can(s, a) && i < |s.sizes| && i != a.i
    ensures Pool.Run(View(s, i), Seen(s, a, i), View(Do(s, a), i))
  {
    hide Room, Pool.Inv, Wants, Moved, PoolAfter, StageAfter, Budget.Inv, Pool.Run;
    RunOne(View(s, i), Pool.Budget(Room(Do(s, a), i)), View(Do(s, a), i));
  }

  lemma ViewAfter(s: State, a: Step)
    requires Inv(s) && Can(s, a) && Alive(StageAfter(s, a))
    ensures View(Do(s, a), a.i) == PoolAfter(s, a).(room := Room(Do(s, a), a.i))
    ensures Room(Do(s, a), a.i) == Room(s, a.i) - if a.Listed? then 1 else 0
  {
    hide Room, Inv, Moved, PoolAfter, StageAfter;
    OwnRoom(s, a);
  }

  lemma InHandRoom(s: State, i: nat)
    requires Inv(s) && i < |s.sizes| && s.stages[i].Granted?
    ensures Room(s, i) > 0
  {
    hide Sound;
    UsedFits(s);
    OneLess(s.budget.max - s.budget.used, s.sizes[i]);
  }

  lemma WantsOf(s: State, i: nat)
    requires Inv(s) && i < |s.sizes|
    ensures i < |s.stages| && i < |s.pools| && Wants(s.pools[i], s.stages[i])
  {
    hide Wants;
  }

  lemma StillAlive(s: State, a: Step)
    requires Can(s, a) && Alive(StageAfter(s, a))
    ensures !a.Clear? && !a.Return?
  {
    hide Pool.QueueInRange, Pool.Enabled, BudgetReady;
  }

  lemma OwnMove(s: State, a: Step)
    requires Inv(s) && Can(s, a) && Alive(StageAfter(s, a))
    ensures Pool.Run(View(s, a.i), Seen(s, a, a.i), View(Do(s, a), a.i))
  {
    hide Room, Inv, Moved, StageAfter, Do, Pool.Run, Pool.Enabled, Pool.Do, BudgetReady, Pool.QueueInRange;
    ViewAfter(s, a);
    WantsOf(s, a.i);
    StillAlive(s, a);
    var p, g, k := s.pools[a.i], s.stages[a.i], Room(s, a.i);
    var v, q := View(s, a.i), View(Do(s, a), a.i);
    match a
    case Local(_, move) =>
      RoomFree(p, g, move, k);
      RunOne(v, move, q);
    case Listed(_) =>
      InHandRoom(s, a.i);
      ListedFree(p, g.purpose, k);
      RunOne(v, MoveFor(g.purpose, true), q);
    case Refuse(_) =>
      RefusedFree(p, g.purpose, k);
      RunOne(v, MoveFor(g.purpose, false), q);
    case Failed(_) =>
      RefusedFree(p, g.purpose, k);
      RunOne(v, MoveFor(g.purpose, false), q);
    case Enter(_, _) => RunNone(v);
    case Load(_) => RunNone(v);
    case Swap(_, _) => RunNone(v);
    case _ =>
  }

  lemma RunNone(p: Pool.State)
    ensures Pool.Run(p, [], p)
  {
  }

  /** A pool among others moves exactly as the pool of `Pool` does: its own steps
      are that machine's, and what the other pools do to the budget is that
      machine's move of the others. */
  lemma MovesAsPool(s: State, a: Step, i: nat)
    requires Inv(s) && Can(s, a) && i < |s.sizes| && Alive(Do(s, a).stages[i])
    ensures Pool.Run(View(s, i), Seen(s, a, i), View(Do(s, a), i))
  {
    if a.i == i {
      hide Inv, Can, Moved, PoolAfter, StageAfter, Seen, View, Pool.Run;
      OwnMove(s, a);
    } else {
      OthersMove(s, a, i);
    }
  }

  lemma StaysGone(s: State, a: Step, i: nat)
    requires Can(s, a) && i < |s.stages| && !Alive(s.stages[i])
    ensures i < |Do(s, a).stages| && !Alive(Do(s, a).stages[i])
  {
    hide Moved, PoolAfter, Pool.Enabled;
  }

  lemma {:induction false} StaysGoneRun(s: State, steps: seq<Step>, r: State, i: nat)
    requires Run(s, steps, r) && i < |s.stages| && !Alive(s.stages[i])
    ensures i < |r.stages| && !Alive(r.stages[i])
    decreases |steps|
  {
    hide Can, Do;
    if steps != [] {
      StaysGone(s, steps[0], i);
      StaysGoneRun(Do(s, steps[0]), steps[1..], r, i);
    }
  }

  /** A whole run as pool i sees it. */
  ghost function AllSeen(s: State, steps: seq<Step>, i: nat): seq<Pool.Step>
    decreases |steps|
  {
    if steps == [] || !Can(s, steps[0]) || i >= |s.sizes| then []
    else Seen(s, steps[0], i) + AllSeen(Do(s, steps[0]), steps[1..], i)
  }

  lemma {:induction false} RunOn(p: Pool.State, a: seq<Pool.Step>, m: Pool.State, b: seq<Pool.Step>, q: Pool.State)
    requires Pool.Run(p, a, m) && Pool.Run(m, b, q)
    ensures Pool.Run(p, a + b, q)
    decreases |a|
  {
    hide Pool.Enabled, Pool.Do;
    if a == [] {
      assert a + b == b;
    } else {
      RunOn(Pool.Do(p, a[0]), a[1..], m, b, q);
      assert (a + b)[1..] == a[1..] + b;
    }
  }

  lemma SizesKept(s: State, a: Step)
    requires Can(s, a)
    ensures Do(s, a).sizes == s.sizes
  {
  }

  lemma {:induction false} ViewRun(s: State, steps: seq<Step>, r: State, i: nat)
    requires Inv(s) && Run(s, steps, r) && Inv(r) && i < |s.sizes| == |r.sizes| && Alive(r.stages[i])
    ensures Pool.Run(View(s, i), AllSeen(s, steps, i), View(r, i))
    decreases |steps|
  {
    hide Inv, Can, Do, Seen, View, Pool.Run, Alive;
    Lengths(s);
    Lengths(r);
    if steps == [] {
      RunNone(View(s, i));
    } else {
      var m := Do(s, steps[0]);
      StepKeeps(s, steps[0]);
      SizesKept(s, steps[0]);
      assert |m.pools| == |m.stages| == |s.sizes| by { Lengths(m); }
      if !Alive(m.stages[i]) {
        StaysGoneRun(m, steps[1..], r, i);
      }
      MovesAsPool(s, steps[0], i);
      ViewRun(m, steps[1..], r, i);
      RunOn(View(s, i), Seen(s, steps[0], i), View(m, i), AllSeen(m, steps[1..], i), View(r, i));
    }
  }

  /** Whatever the other pools do, each pool of a shared budget runs as the pool of
      `Pool` does, from an empty pool with the whole cap as its room; so all that
      is proved of that machine holds of it. */
  lemma PoolOfMany(max: nat, sizes: seq<Size>, steps: seq<Step>, s: State, i: nat)
    requires Run(Start(max, sizes), steps, s) && i < |sizes|
    ensures s.sizes == sizes && |s.stages| == |s.pools| == |sizes|
    ensures Alive(s.stages[i]) ==>
              Pool.Run(Pool.Empty(max / sizes[i]), AllSeen(Start(max, sizes), steps, i), View(s, i))
              && Pool.Reachable(View(s, i))
  {
    hide Inv, Run, AllSeen, Pool.Run;
    StartInv(max, sizes);
    RunKeeps(Start(max, sizes), steps, s);
    Lengths(s);
    if Alive(s.stages[i]) {
      ViewRun(Start(max, sizes), steps, s, i);
      assert View(Start(max, sizes), i) == Pool.Empty(max / sizes[i]);
      FromEmpty(max / sizes[i], AllSeen(Start(max, sizes), steps, i), View(s, i));
    }
  }

  lemma FromEmpty(room: nat, moves: seq<Pool.Step>, p: Pool.State)
    requires Pool.Run(Pool.Empty(room), moves, p)
    ensures Pool.Reachable(p)
  {
    hide Pool.Run;
    var none: nat -> bool := _ => false;
    assert Pool.Init(Pool.Empty(room), 0, none) == Pool.Empty(room);
  }

  // ------------------------------------------------------------- filling

  /** Pool i is on its way to goal buffers, or there. */
  ghost predicate Nearing(s: State, i: nat, goal: nat) {
    i < |s.pools| && i < |s.stages|
    && match s.stages[i]
       case Free => |s.pools[i].all| == goal
       case Ready(w) => w.Filling? && w.left > 0 && |s.pools[i].all| + w.left == goal
       case Trying(w) => w.Filling? && w.left > 0 && |s.pools[i].all| + w.left == goal
       case Granted(w) => w.Filling? && w.left > 0 && |s.pools[i].all| + w.left == goal
       case _ => false
  }

  /** Steps by which pool i stops filling early or starts something else. */
  predicate Breaks(a: Step, i: nat) {
    a.i == i && (a.Refuse? || a.Failed? || a.Enter? || a.Clear? || a.Return?)
  }

  lemma NearingStep(s: State, a: Step, i: nat, goal: nat)
    requires Nearing(s, i, goal) && Can(s, a) && !Breaks(a, i)
    ensures Nearing(Do(s, a), i, goal)
  {
    hide Pool.Enabled, Pool.Do, Pool.QueueInRange, NoGrowth, Budget.Do, BudgetReady;
    if a.i == i && a.Local? {
      LocalFrame(s.pools[i], s.stages[i], a.move);
    } else if a.i == i && a.Listed? {
      WithMemory(s.pools[i].(room := 1), s.stages[i].purpose);
    }
  }

  lemma {:induction false} NearingRun(s: State, steps: seq<Step>, r: State, i: nat, goal: nat)
    requires Nearing(s, i, goal) && Run(s, steps, r)
    requires forall k :: 0 <= k < |steps| ==> !Breaks(steps[k], i)
    ensures Nearing(r, i, goal)
    decreases |steps|
  {
    hide Nearing, Can, Do, Breaks;
    if steps != [] {
      NearingStep(s, steps[0], i, goal);
      NearingRun(Do(s, steps[0]), steps[1..], r, i, goal);
    }
  }

  /** Filling a pool with n buffers, whatever other pools do to the budget
      meanwhile: once it is over the pool has n buffers more, unless the budget
      refused one or an allocation failed. */
  lemma FillCompletes(s: State, i: nat, n: nat, steps: seq<Step>, r: State)
    requires Can(s, Enter(i, Filling(n))) && Run(Do(s, Enter(i, Filling(n))), steps, r)
    requires forall k :: 0 <= k < |steps| ==> !Breaks(steps[k], i)
    ensures i < |s.pools| && i < |r.pools| && i < |r.stages|
    ensures r.stages[i].Free? ==> |r.pools[i].all| == |s.pools[i].all| + n
    ensures |r.pools[i].all| <= |s.pools[i].all| + n
  {
    hide Run, Pool.QueueInRange, BudgetReady;
    NearingRun(Do(s, Enter(i, Filling(n))), steps, r, i, |s.pools[i].all| + n);
  }

  /** The holder of a mutex can always go on: in try_reserve exactly one of
      refusing and swapping is possible, and with the bytes in hand both outcomes
      of the allocation are. */
  lemma HolderGoesOn(s: State, i: nat, spurious: bool)
    requires Inv(s) && i < |s.sizes|
    ensures |s.sizes| == |s.stages|
    ensures s.stages[i].Ready? ==> Can(s, Load(i))
    ensures s.stages[i].Trying? ==> (Can(s, Refuse(i)) <==> !Can(s, Swap(i, spurious)))
    ensures s.stages[i].Granted? ==> Can(s, Listed(i)) && Can(s, Failed(i))
    ensures s.stages[i].Clearing? ==> Can(s, Return(i))
  {
    hide Pool.Inv, Pool.QueueInRange, Budget.Live;
    Budget.LiveCovers(s.budget.threads, i);
    RangeAny(s.pools[i], 0, 1);
  }
}
