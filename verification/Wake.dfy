/** The pressure wake-up: threads short of buffers wake the worker, but only one
    of them pays for it. Each shared access is one step. */
module Wake {
  /** Where a notifying thread is inside notify_pressure. */
  datatype Notifier = Outside | Loaded | Claimed

  /** The worker: blocked or about to block, woken (draining), past the clear of
      the flag. */
  datatype Worker = Waiting | Awake | Cleared

  /** pending is mb_wake_pending; event the worker's event, which remembers a set
      until a wait consumes it. flips, clears and sets count what happened. */
  datatype State = State(pending: bool, event: bool, threads: seq<Notifier>, worker: Worker,
                         flips: nat, clears: nat, sets: nat)

  function Initial(threads: nat): State {
    State(false, false, seq(threads, _ => Outside), Waiting, 0, 0, 0)
  }

  datatype Step =
    | Load(t: nat)        // the relaxed load; true means the wake is suppressed
    | Exchange(t: nat)    // exchange(true); finding true also suppresses it
    | Set(t: nat)         // the claimer sets the event
    | Submit              // a dying writer sets the event directly
    | Return(timeout: bool)
    | Clear
    | Flush

  predicate Enabled(s: State, a: Step) {
    match a
    case Load(t) => t < |s.threads| && s.threads[t].Outside?
    case Exchange(t) => t < |s.threads| && s.threads[t].Loaded?
    case Set(t) => t < |s.threads| && s.threads[t].Claimed?
    case Submit => true
    case Return(timeout) => s.worker.Waiting? && (timeout || s.event)
    case Clear => s.worker.Awake?
    case Flush => s.worker.Cleared?
  }

  function Do(s: State, a: Step): State
    requires Enabled(s, a)
  {
    match a
    case Load(t) => if s.pending then s else s.(threads := s.threads[t := Loaded])
    case Exchange(t) =>
      if s.pending then s.(threads := s.threads[t := Outside])
      else s.(pending := true, threads := s.threads[t := Claimed], flips := s.flips + 1)
    case Set(t) => s.(event := true, threads := s.threads[t := Outside], sets := s.sets + 1)
    case Submit => s.(event := true)
    case Return(timeout) => s.(worker := Awake, event := if timeout then s.event else false)
    case Clear => s.(worker := Cleared, pending := false, clears := s.clears + 1)
    case Flush => s.(worker := Waiting)
  }

  /** A call of notify_pressure that ends without waking anybody. */
  predicate Suppressed(s: State, a: Step) { (a.Load? || a.Exchange?) && s.pending }

  function Claims(ts: seq<Notifier>): nat {
    if ts == [] then 0 else Claims(ts[..|ts| - 1]) + if ts[|ts| - 1].Claimed? then 1 else 0
  }

  ghost predicate Inv(s: State) {
    (s.pending ==> s.event || Claims(s.threads) > 0 || s.worker.Awake?)
    && s.flips == s.sets + Claims(s.threads)
    && s.flips <= s.clears + if s.pending then 1 else 0
  }

  lemma {:induction false} ClaimsUpdate(ts: seq<Notifier>, t: nat, n: Notifier)
    requires t < |ts|
    ensures Claims(ts[t := n]) == Claims(ts) + (if n.Claimed? then 1 else 0) - (if ts[t].Claimed? then 1 else 0)
    decreases |ts|
  {
    var k := |ts| - 1;
    if t == k {
      assert ts[t := n][..k] == ts[..k];
    } else {
      ClaimsUpdate(ts[..k], t, n);
      assert ts[t := n][..k] == ts[..k][t := n];
    }
  }

  lemma StepKeeps(s: State, a: Step)
    requires Inv(s) && Enabled(s, a)
    ensures Inv(Do(s, a))
  {
    if a.Load? || a.Exchange? || a.Set? {
      ClaimsUpdate(s.threads, a.t, Do(s, a).threads[a.t]);
      assert Do(s, a).threads == s.threads[a.t := Do(s, a).threads[a.t]];
    }
    hide Claims;
  }

  ghost predicate Run(s: State, steps: seq<Step>, r: State)
    decreases |steps|
  {
    if steps == [] then r == s else Enabled(s, steps[0]) && Run(Do(s, steps[0]), steps[1..], r)
  }

  lemma {:induction false} RunKeeps(s: State, steps: seq<Step>, r: State)
    requires Inv(s) && Run(s, steps, r)
    ensures Inv(r)
    decreases |steps|
  {
    hide Inv;
    if steps != [] {
      StepKeeps(s, steps[0]);
      RunKeeps(Do(s, steps[0]), steps[1..], r);
    }
  }

  lemma {:induction false} NobodyClaims(n: nat)
    ensures Claims(seq(n, _ => Outside)) == 0
  {
    if n > 0 {
      NobodyClaims(n - 1);
      assert seq(n, _ => Outside)[..n - 1] == seq(n - 1, _ => Outside);
    }
  }

  /** The worker is blocked with nothing to wake it: no event, no claimer. */
  ghost predicate Quiet(s: State) { s.worker.Waiting? && !s.event && Claims(s.threads) == 0 }

  lemma {:induction false} FlushComes(s: State, steps: seq<Step>, r: State) returns (f: nat)
    requires Run(s, steps, r) && s.worker.Cleared? && !r.worker.Cleared?
    ensures f < |steps| && steps[f].Flush?
    decreases |steps|
  {
    if steps[0].Flush? {
      f := 0;
    } else {
      var k := FlushComes(Do(s, steps[0]), steps[1..], r);
      f := k + 1;
    }
  }

  lemma {:induction false} ClearComes(s: State, steps: seq<Step>, r: State) returns (c: nat, f: nat)
    requires Inv(s) && Run(s, steps, r) && s.pending && Quiet(r)
    ensures c < f < |steps| && steps[c].Clear? && steps[f].Flush?
    decreases |steps|
  {
    hide Claims;
    StepKeeps(s, steps[0]);
    if steps[0].Clear? {
      var k := FlushComes(Do(s, steps[0]), steps[1..], r);
      c, f := 0, k + 1;
    } else {
      var i, j := ClearComes(Do(s, steps[0]), steps[1..], r);
      c, f := i + 1, j + 1;
    }
  }

  /** No wake-up is lost: whenever a notification was suppressed, the worker
      cannot come to rest again without first clearing the flag and then
      flushing. */
  lemma SuppressedIsServed(threads: nat, before: seq<Step>, s: State, a: Step, after: seq<Step>, r: State)
    returns (c: nat, f: nat)
    requires Run(Initial(threads), before, s) && Enabled(s, a) && Suppressed(s, a)
    requires Run(Do(s, a), after, r) && Quiet(r)
    ensures c < f < |after| && after[c].Clear? && after[f].Flush?
  {
    NobodyClaims(threads);
    RunKeeps(Initial(threads), before, s);
    StepKeeps(s, a);
    c, f := ClearComes(Do(s, a), after, r);
  }

  lemma {:induction false} AwakeServes(s: State, steps: seq<Step>, r: State) returns (c: nat, f: nat)
    requires Run(s, steps, r) && s.worker.Awake? && r.worker.Waiting?
    ensures c < f < |steps| && steps[c].Clear? && steps[f].Flush?
    decreases |steps|
  {
    if steps[0].Clear? {
      var k := FlushComes(Do(s, steps[0]), steps[1..], r);
      c, f := 0, k + 1;
    } else {
      var i, j := AwakeServes(Do(s, steps[0]), steps[1..], r);
      c, f := i + 1, j + 1;
    }
  }

  lemma {:induction false} EventServes(s: State, steps: seq<Step>, r: State) returns (c: nat, f: nat)
    requires Run(s, steps, r) && s.event && Quiet(r)
    ensures c < f < |steps| && steps[c].Clear? && steps[f].Flush?
    decreases |steps|
  {
    hide Claims;
    var m := Do(s, steps[0]);
    var i, j;
    if m.event {
      i, j := EventServes(m, steps[1..], r);
    } else {
      i, j := AwakeServes(m, steps[1..], r);
    }
    c, f := i + 1, j + 1;
  }

  /** A dying writer's hand-over, or a claimer's wake, is not lost either, wherever
      the worker is: before it comes to rest it clears the flag and then flushes. */
  lemma SetIsServed(s: State, a: Step, after: seq<Step>, r: State) returns (c: nat, f: nat)
    requires Enabled(s, a) && (a.Submit? || a.Set?) && Run(Do(s, a), after, r) && Quiet(r)
    ensures c < f < |after| && after[c].Clear? && after[f].Flush?
  {
    c, f := EventServes(Do(s, a), after, r);
  }

  /** While a wake is pending somebody who must act can act: a claimer, or the
      worker without waiting for its timeout. */
  lemma NeverStuck(threads: nat, steps: seq<Step>, s: State) returns (a: Step)
    requires Run(Initial(threads), steps, s) && s.pending
    ensures Enabled(s, a) && (a.Set? || a == Return(false) || a.Clear? || a.Flush?)
  {
    NobodyClaims(threads);
    RunKeeps(Initial(threads), steps, s);
    if s.worker.Awake? {
      a := Clear;
    } else if s.worker.Cleared? {
      a := Flush;
    } else if s.event {
      a := Return(false);
    } else {
      var t := SomeClaimer(s.threads);
      a := Set(t);
    }
  }

  lemma {:induction false} SomeClaimer(ts: seq<Notifier>) returns (t: nat)
    requires Claims(ts) > 0
    ensures t < |ts| && ts[t].Claimed?
    decreases |ts|
  {
    if ts[|ts| - 1].Claimed? {
      t := |ts| - 1;
    } else {
      t := SomeClaimer(ts[..|ts| - 1]);
    }
  }

  /** No storm either: however many threads notify, the event is set at most once
      per clear, plus one. */
  lemma NoStorm(threads: nat, steps: seq<Step>, s: State)
    requires Run(Initial(threads), steps, s)
    ensures s.sets <= s.clears + 1
  {
    NobodyClaims(threads);
    RunKeeps(Initial(threads), steps, s);
  }
}
