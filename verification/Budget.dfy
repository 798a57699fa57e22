/** The shared memory budget: a compare-and-swap loop run by any number of
    threads, one atomic access per step. */
module Budget {
  /** A thread between calls, or inside try_reserve: how much it wants, the value
      it last loaded, and when (an index into the history). */
  datatype Phase = Idle | Loaded(want: nat, seen: nat, at: nat)

  /** live is what the thread has reserved and not yet released. */
  datatype Thread = Thread(live: nat, phase: Phase)

  datatype Refusal = Refusal(want: nat, at: nat)

  /** history lists every value used has had; refusals every call that failed. */
  datatype State = State(max: nat, used: nat, threads: seq<Thread>, history: seq<nat>, refusals: seq<Refusal>)

  function Initial(max: nat, threads: nat): State {
    State(max, 0, seq(threads, _ => Thread(0, Idle)), [0], [])
  }

  predicate TooTight(max: nat, seen: nat, want: nat) { seen > max || max - seen < want }

  datatype Step =
    | Load(t: nat, want: nat)
    | Refuse(t: nat)
    | Swap(t: nat, spurious: bool)
    | Release(t: nat, bytes: nat)

  predicate Enabled(s: State, a: Step) {
    a.t < |s.threads|
    && match a
       case Load(t, want) => s.threads[t].phase.Idle?
       case Refuse(t) => s.threads[t].phase.Loaded? && TooTight(s.max, s.threads[t].phase.seen, s.threads[t].phase.want)
       case Swap(t, spurious) =>
         s.threads[t].phase.Loaded? && !TooTight(s.max, s.threads[t].phase.seen, s.threads[t].phase.want)
       case Release(t, bytes) => s.threads[t].phase.Idle? && bytes <= s.threads[t].live
  }

  function SetUsed(s: State, used: nat): State { s.(used := used, history := s.history + [used]) }

  function Do(s: State, a: Step): State
    requires Enabled(s, a) && |s.history| > 0 && (a.Release? ==> a.bytes <= s.used)
  {
    var th := s.threads[a.t];
    match a
    case Load(t, want) => s.(threads := s.threads[t := th.(phase := Loaded(want, s.used, |s.history| - 1))])
    case Refuse(t) =>
      s.(threads := s.threads[t := th.(phase := Idle)], refusals := s.refusals + [Refusal(th.phase.want, th.phase.at)])
    case Swap(t, spurious) =>
      if s.used == th.phase.seen && !spurious then
        SetUsed(s, s.used + th.phase.want).(threads := s.threads[t := Thread(th.live + th.phase.want, Idle)])
      else
        s.(threads := s.threads[t := th.(phase := Loaded(th.phase.want, s.used, |s.history| - 1))])
    case Release(t, bytes) => SetUsed(s, s.used - bytes).(threads := s.threads[t := th.(live := th.live - bytes)])
  }

  function Live(ts: seq<Thread>): nat {
    if ts == [] then 0 else Live(ts[..|ts| - 1]) + ts[|ts| - 1].live
  }

  ghost predicate Inv(s: State) {
    s.used == Live(s.threads) && |s.history| > 0 && s.history[|s.history| - 1] == s.used
    && (forall i :: 0 <= i < |s.history| ==> s.history[i] <= s.max)
    && (forall t :: 0 <= t < |s.threads| && s.threads[t].phase.Loaded? ==>
          s.threads[t].phase.at < |s.history| && s.history[s.threads[t].phase.at] == s.threads[t].phase.seen)
    && (forall i :: 0 <= i < |s.refusals| ==>
          s.refusals[i].at < |s.history| && s.max - s.history[s.refusals[i].at] < s.refusals[i].want)
  }

  lemma {:induction false} LiveUpdate(ts: seq<Thread>, t: nat, th: Thread)
    requires t < |ts|
    ensures Live(ts[t := th]) == Live(ts) + th.live - ts[t].live
    decreases |ts|
  {
    var n := |ts| - 1;
    if t == n {
      assert ts[t := th][..n] == ts[..n];
    } else {
      LiveUpdate(ts[..n], t, th);
      assert ts[t := th][..n] == ts[..n][t := th];
    }
  }

  lemma {:induction false} LiveCovers(ts: seq<Thread>, t: nat)
    requires t < |ts|
    ensures ts[t].live <= Live(ts)
    decreases |ts|
  {
    if t < |ts| - 1 {
      LiveCovers(ts[..|ts| - 1], t);
    }
  }

  lemma {:induction false} NoneLive(n: nat)
    ensures Live(seq(n, _ => Thread(0, Idle))) == 0
  {
    if n > 0 {
      NoneLive(n - 1);
      assert seq(n, _ => Thread(0, Idle))[..n - 1] == seq(n - 1, _ => Thread(0, Idle));
    }
  }

  lemma StepKeeps(s: State, a: Step)
    requires Inv(s) && Enabled(s, a)
    ensures (a.Release? ==> a.bytes <= s.used) && Inv(Do(s, a))
  {
    hide Live;
    LiveCovers(s.threads, a.t);
    LiveUpdate(s.threads, a.t, Do(s, a).threads[a.t]);
    assert Do(s, a).threads == s.threads[a.t := Do(s, a).threads[a.t]];
  }

  ghost predicate Run(s: State, steps: seq<Step>, r: State)
    decreases |steps|
  {
    if steps == [] then r == s
    else
      Enabled(s, steps[0]) && |s.history| > 0 && (steps[0].Release? ==> steps[0].bytes <= s.used)
      && Run(Do(s, steps[0]), steps[1..], r)
  }

  lemma {:induction false} RunKeeps(s: State, steps: seq<Step>, r: State)
    requires Inv(s) && Run(s, steps, r)
    ensures Inv(r) && r.max == s.max && s.history <= r.history
    decreases |steps|
  {
    hide Inv;
    if steps != [] {
      StepKeeps(s, steps[0]);
      RunKeeps(Do(s, steps[0]), steps[1..], r);
    }
  }

  /** In any interleaving, spurious failures included: used is the sum of live
      reservations, never above the cap, and every refusal saw, during its own
      call, a state with too little room. */
  lemma NeverOverCommitted(max: nat, threads: nat, steps: seq<Step>, s: State)
    requires Run(Initial(max, threads), steps, s)
    ensures s.used == Live(s.threads) <= max
    ensures forall i :: 0 <= i < |s.history| ==> s.history[i] <= max
    ensures forall r <- s.refusals :: r.at < |s.history| && max - s.history[r.at] < r.want
  {
    NoneLive(threads);
    RunKeeps(Initial(max, threads), steps, s);
  }

  /** What a thread relies on was loaded after its call began. */
  lemma {:induction false} SeenDuringCall(s: State, t: nat, want: nat, steps: seq<Step>, r: State)
    requires Inv(s) && Enabled(s, Load(t, want)) && Run(Do(s, Load(t, want)), steps, r)
    requires forall a <- steps :: a.t == t ==> a.Swap?
    requires t < |r.threads| && r.threads[t].phase.Loaded?
    ensures |s.history| - 1 <= r.threads[t].phase.at < |r.history|
  {
    StepKeeps(s, Load(t, want));
    SeenSince(Do(s, Load(t, want)), t, |s.history| - 1, steps, r);
  }

  lemma {:induction false} SeenSince(s: State, t: nat, since: nat, steps: seq<Step>, r: State)
    requires Inv(s) && Run(s, steps, r) && t < |s.threads| && since < |s.history|
    requires s.threads[t].phase.Loaded? ==> since <= s.threads[t].phase.at
    requires forall a <- steps :: a.t == t ==> a.Swap?
    requires t < |r.threads| && r.threads[t].phase.Loaded?
    ensures since <= r.threads[t].phase.at < |r.history|
    decreases |steps|
  {
    if steps != [] {
      assert steps[0] in steps;
      StepKeeps(s, steps[0]);
      SeenSince(Do(s, steps[0]), t, since, steps[1..], r);
    }
  }

  /** The loop is lock-free: a swap that fails for a reason means some other
      thread changed the budget since the value was loaded. */
  lemma FailureMeansProgress(s: State, t: nat)
    requires Inv(s) && Enabled(s, Swap(t, false)) && Do(s, Swap(t, false)).threads[t].phase.Loaded?
    ensures s.threads[t].phase.at < |s.history| - 1
  {
  }

  /** The object itself, as one thread sees it. others are the values that other
      threads leave in used, one before each of this thread's accesses until the
      list is used up; spurious is how often the weak compare-exchange fails for
      no reason. */
  class MemoryBudget {
    const max: nat
    var used: nat

    constructor (max: nat)
      ensures this.max == max && used == 0
    {
      this.max, used := max, 0;
    }

    method CompareExchangeWeak(expected: nat, desired: nat, spurious: bool) returns (ok: bool, seen: nat)
      modifies this
      ensures ok <==> old(used) == expected && !spurious
      ensures used == (if ok then desired else old(used)) && seen == old(used)
    {
      seen := used;
      ok := used == expected && !spurious;
      if ok {
        used := desired;
      }
    }

    /** The others' moves before one access; trace lists the values used has had. */
    method Interfere(others: seq<nat>, ghost trace: seq<nat>) returns (left: seq<nat>, ghost now: seq<nat>)
      requires |trace| > 0 && trace[|trace| - 1] == used
      modifies this
      ensures now + left == trace + others && trace <= now && now[|now| - 1] == used
      ensures |left| == if others == [] then 0 else |others| - 1
      ensures others == [] ==> used == old(used)
    {
      left, now := others, trace;
      if others != [] {
        used := others[0];
        left, now := others[1..], trace + [used];
      }
    }

    /** trace lists what used was from the call on: the reservation is made on top
        of the last value, and is refused only if some value had too little room. */
    method TryReserve(bytes: nat, spurious: nat, others: seq<nat>) returns (ok: bool, ghost trace: seq<nat>)
      modifies this
      ensures |trace| > 0 && trace[0] == old(used) && trace <= [old(used)] + others
      ensures ok ==> used == trace[|trace| - 1] + bytes <= max
      ensures !ok ==> used == trace[|trace| - 1] && exists i :: 0 <= i < |trace| && TooTight(max, trace[i], bytes)
      ensures others == [] ==> (ok <==> old(used) + bytes <= max)
    {
      trace := [used];
      var left;
      left, trace := Interfere(others, trace);
      var current, fails := used, spurious;
      while true
        invariant |trace| > 0 && trace[0] == old(used) && trace[|trace| - 1] == used
        invariant trace + left == [old(used)] + others && current in trace
        decreases |left|, fails, if current == used then 0 else 1
      {
        if current > max || max - current < bytes {
          return false, trace;
        }
        left, trace := Interfere(left, trace);
        var swapped, seen := CompareExchangeWeak(current, current + bytes, fails > 0);
        if swapped {
          return true, trace;
        }
        if fails > 0 {
          fails := fails - 1;
        }
        current := seen;
      }
    }

    method Release(bytes: nat)
      requires bytes <= used
      modifies this
      ensures used == old(used) - bytes
    {
      used := used - bytes;
    }
  }
}
