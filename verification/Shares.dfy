/** One record from its header to its end: what it adds to its writer's log if it
    is committed, and what the log loses if it is discarded. */
module Shares {
  import opened Records
  import opened Pool
  import opened System
  import opened Ownership
  import opened Delivery
  import opened Chains

  /** How often writer w asks for a further buffer. */
  function Rotations(steps: seq<System.Step>, w: nat): nat {
    if steps == [] then 0
    else Rotations(steps[1..], w) + if steps[0].Rotate? && steps[0].w == w then 1 else 0
  }

  function Copies(p: Piece, n: nat): (r: seq<Piece>)
    ensures |r| == n && forall i :: 0 <= i < n ==> r[i] == p
  {
    seq(n, _ => p)
  }

  /** As long as writer w is inside the record, it has written its share k + 1
      times and closed k buffers on the way. */
  ghost predicate Under(s: Sys, w: nat, p: Piece, log: seq<Piece>, frags: nat, k: nat) {
    Mine(s, w)
    && (s.writers[w].stage.Writing? ==>
          s.writers[w].stage.piece == Some(p) && s.writers[w].log == log + Copies(p, k + 1)
          && |s.writers[w].frags| == frags + k)
  }

  lemma UnderActor(s: Sys, a: System.Step, w: nat, p: Piece, log: seq<Piece>, frags: nat, k: nat)
    requires Under(s, w, p, log, frags, k) && Can(s, a) && !Opens(a, w) && Actor(s, a) == w
    ensures Under(System.Do(s, a), w, p, log, frags, k + if a.Rotate? then 1 else 0)
  {
    hide QueueInRange, Take, Park, Recycle, Pool.Do, Enabled;
    if a.Rotate? {
      assert log + Copies(p, k + 1) + [p] == log + Copies(p, k + 2);
    }
  }

  lemma {:induction false} UnderRun(s: Sys, steps: seq<System.Step>, r: Sys, w: nat, p: Piece, log: seq<Piece>,
                                    frags: nat, k: nat)
    requires Under(s, w, p, log, frags, k) && System.Run(s, steps, r)
    requires forall i :: 0 <= i < |steps| ==> !Opens(steps[i], w)
    ensures Under(r, w, p, log, frags, k + Rotations(steps, w))
    decreases |steps|
  {
    hide Can, System.Do, Opens;
    if steps != [] {
      var a := steps[0];
      OneActor(s, a);
      if Actor(s, a) == w {
        UnderActor(s, a, w, p, log, frags, k);
      }
      UnderRun(System.Do(s, a), steps[1..], r, w, p, log, frags,
               k + if a.Rotate? && a.w == w then 1 else 0);
    }
  }

  lemma HeaderUnder(m: Sys, w: nat, p: Piece)
    requires Can(m, Head(w, p))
    ensures w < |m.writers| && Under(System.Do(m, Head(w, p)), w, p, m.writers[w].log, |m.writers[w].frags|, 0)
  {
    hide QueueInRange;
  }

  lemma CommitEnds(s: Sys, w: nat, full: bool)
    requires Can(s, Commit(w, full))
    ensures Mine(s, w) && s.writers[w].stage.Writing? && Mine(System.Do(s, Commit(w, full)), w)
    ensures System.Do(s, Commit(w, full)).writers[w].log == s.writers[w].log
  {
    hide QueueInRange;
  }

  /** A record that is committed, whatever other threads do meanwhile: from the
      header to the commit its writer's log gains the record's share once for
      every buffer the record touches, and nothing else. */
  lemma CommittedShares(m: Sys, w: nat, p: Piece, after: seq<System.Step>, s: Sys, full: bool)
    requires Can(m, Head(w, p)) && System.Run(System.Do(m, Head(w, p)), after, s)
    requires (forall i :: 0 <= i < |after| ==> !Opens(after[i], w)) && Can(s, Commit(w, full))
    ensures var r := System.Do(s, Commit(w, full));
      Mine(r, w) && r.writers[w].log == m.writers[w].log + Copies(p, 1 + Rotations(after, w))
      && |s.writers[w].frags| == |m.writers[w].frags| + Rotations(after, w)
  {
    hide Can, System.Do, Rotations, Opens;
    HeaderUnder(m, w, p);
    CommitEnds(s, w, full);
    UnderRun(System.Do(m, Head(w, p)), after, s, w, p, m.writers[w].log, |m.writers[w].frags|, 0);
  }

  /** As long as writer w is inside the record, the buffers from before it are in
      place and its books are straight. */
  ghost predicate Behind(s: Sys, w: nat, of: seq<Piece>, fs: seq<Filled>) {
    Mine(s, w) && TailInv(s.writers[w])
    && (s.writers[w].stage.Writing? || s.writers[w].stage.Undoing? ==>
          s.writers[w].stage.mark == |fs| <= |s.writers[w].frags| && s.writers[w].frags[..|fs|] == fs
          && Straight(s.writers[w], w, of))
  }

  /** Nobody gets inside a record but by opening one. */
  lemma StaysOut(s: Sys, a: System.Step, w: nat)
    requires Can(s, a) && !Opens(a, w) && Actor(s, a) == w && Mine(s, w) && s.writers[w].Unlocked()
    ensures Mine(System.Do(s, a), w) && System.Do(s, a).writers[w].Unlocked()
  {
    hide QueueInRange, Take, Park, Recycle, Pool.Do, Enabled, Append, Close, Pending;
  }

  lemma FrontStays(s: Sys, a: System.Step, w: nat, fs: seq<Filled>)
    requires Can(s, a) && !Opens(a, w) && Actor(s, a) == w && Mine(s, w)
    requires var x := s.writers[w]; !x.Unlocked() && x.stage.mark == |fs| <= |x.frags| && x.frags[..|fs|] == fs
    ensures Mine(System.Do(s, a), w) && !HandsOver(a)
    ensures var y := System.Do(s, a).writers[w];
      !y.Unlocked() ==> y.stage.mark == |fs| <= |y.frags| && y.frags[..|fs|] == fs
  {
    hide QueueInRange, Take, Park, Recycle, Pool.Do, Enabled;
  }

  lemma BehindActor(s: Sys, a: System.Step, w: nat, of: seq<Piece>, fs: seq<Filled>)
    requires Behind(s, w, of, fs) && Can(s, a) && !Opens(a, w) && Actor(s, a) == w
    ensures Behind(System.Do(s, a), w, of, fs)
  {
    hide Straight, TailInv, Can, System.Do, Opens, HandsOver;
    ActorTail(s, a);
    if s.writers[w].Unlocked() {
      StaysOut(s, a, w);
    } else {
      FrontStays(s, a, w, fs);
      ActorStraight(s, a, of);
    }
  }

  lemma {:induction false} BehindRun(s: Sys, steps: seq<System.Step>, r: Sys, w: nat, of: seq<Piece>, fs: seq<Filled>)
    requires Behind(s, w, of, fs) && System.Run(s, steps, r)
    requires forall i :: 0 <= i < |steps| ==> !Opens(steps[i], w)
    ensures Behind(r, w, of, fs)
    decreases |steps|
  {
    hide Can, System.Do, Opens, Straight, TailInv;
    if steps != [] {
      OneActor(s, steps[0]);
      if Actor(s, steps[0]) == w {
        BehindActor(s, steps[0], w, of, fs);
      }
      BehindRun(System.Do(s, steps[0]), steps[1..], r, w, of, fs);
    }
  }

  lemma OpenedBehind(m: Sys, a: System.Step, s: Sys, w: nat)
    requires Opened(m, a, w) && s == System.Do(m, a) && OrderInv(s) && Tails(s)
    ensures Mine(s, w) && s.writers[w].stage.Writing? && s.writers[w].tail.Some?
    ensures Behind(s, w, Of(w, Handed(s)), s.writers[w].frags) && Straight(s.writers[w], w, Of(w, Handed(s)))
  {
    OpenedAt(m, a, w);
    hide Straight, TailInv, Handed, Of, Opened, System.Do;
    var x := s.writers[w];
    assert x.frags[..|x.frags|] == x.frags;
  }

  /** The last step of a rollback lets go of nothing more. */
  lemma DiscardEnd(s: Sys, w: nat, of: seq<Piece>, fs: seq<Filled>)
    requires Behind(s, w, of, fs) && Can(s, Undo(w)) && |s.writers[w].frags| == s.writers[w].stage.mark
    ensures w < |s.writers|
    ensures var x, r := s.writers[w], System.Do(s, Undo(w));
      w < |r.writers| && x.frags == fs && x.tail.None? && Straight(x, w, of) && r.writers[w].Held() == fs
      && r.writers[w].log == x.log
  {
    hide Straight, QueueInRange, Recycle;
    assert s.writers[w].frags[..|fs|] == s.writers[w].frags;
  }

  lemma Left(x: Writer, y: Writer, w: nat, of: seq<Piece>)
    requires Straight(x, w, of) && x.tail.Some?
    requires Straight(y, w, of) && y.tail.None? && y.frags == x.frags
    ensures x.log == y.log + x.tail.value.data
  {
    hide Data;
    DataSnoc(x.frags, x.tail.value);
    assert of + (Data(x.frags) + x.tail.value.data) == (of + Data(x.frags)) + x.tail.value.data;
  }

  /** A record that is discarded, in any run: the writer is left with the closed
      buffers it had when the record was opened, and its log loses exactly the
      shares that were in the tail then, those of earlier records among them. */
  lemma DiscardLoses(pool: State, before: seq<System.Step>, m: Sys, a: System.Step, after: seq<System.Step>, s: Sys,
                     w: nat)
    requires System.Run(Start(pool), before, m) && Opened(m, a, w) && System.Run(System.Do(m, a), after, s)
    requires forall i :: 0 <= i < |after| ==> !Opens(after[i], w)
    requires Can(s, Undo(w)) && |s.writers[w].frags| == s.writers[w].stage.mark
    ensures System.Do(m, a).writers[w].tail.Some?
    ensures var x, r := System.Do(m, a).writers[w], System.Do(s, Undo(w));
      w < |r.writers| && r.writers[w].Held() == x.frags && x.log == r.writers[w].log + x.tail.value.data
  {
    hide *;
    OpenedAt(m, a, w);
    Chains.StartInv(pool);
    OrderStart(pool);
    OrderRun(Start(pool), before, m);
    OrderKeeps(m, a);
    TailsKeep(m, a);
    var o := System.Do(m, a);
    var x := o.writers[w];
    OpenedBehind(m, a, o, w);
    BehindRun(o, after, s, w, Of(w, Handed(o)), x.frags);
    DiscardEnd(s, w, Of(w, Handed(o)), x.frags);
    Left(x, s.writers[w], w, Of(w, Handed(o)));
  }

  // ------------------------------------------------------- nothing goes uncounted

  /** How many of the steps are of a kind. */
  function Times(steps: seq<System.Step>, kind: System.Step -> bool): nat {
    if steps == [] then 0 else Times(steps[1..], kind) + if kind(steps[0]) then 1 else 0
  }

  /** Records of writer w that were dropped or are under way. */
  function Pending(s: Sys, w: nat): nat {
    if !Mine(s, w) then 0
    else s.writers[w].drops + if s.writers[w].stage.Idle? || s.writers[w].stage.Dead? then 0 else 1
  }

  lemma PendingActor(s: Sys, a: System.Step, w: nat)
    requires Can(s, a) && Actor(s, a) == w && Mine(s, w)
    ensures Pending(System.Do(s, a), w) + (if a.Commit? || a.Abandon? then 1 else 0)
            == Pending(s, w) + if a.Begin? then 1 else 0
  {
    hide QueueInRange, Take, Park, Recycle, Pool.Do, Enabled;
  }

  lemma PendingStep(s: Sys, a: System.Step, w: nat)
    requires Can(s, a)
    ensures Pending(System.Do(s, a), w) + (if (a.Commit? || a.Abandon?) && a.w == w then 1 else 0)
            == Pending(s, w) + if a.Begin? && a.w == w then 1 else 0
  {
    ActorOf(s, a, w);
    hide Can, System.Do;
    OneActor(s, a);
    if Actor(s, a) == w && Mine(s, w) {
      PendingActor(s, a, w);
    }
  }

  lemma ActorOf(s: Sys, a: System.Step, w: nat)
    requires Can(s, a)
    ensures a.Begin? || a.Commit? || a.Abandon? ==> Actor(s, a) == a.w < |s.writers|
  {
  }

  lemma {:induction false} PendingRun(s: Sys, steps: seq<System.Step>, r: Sys, w: nat)
    requires System.Run(s, steps, r)
    ensures Times(steps, (a: System.Step) => a.Begin? && a.w == w) + Pending(s, w)
            == Times(steps, (a: System.Step) => (a.Commit? || a.Abandon?) && a.w == w) + Pending(r, w)
    decreases |steps|
  {
    hide Can, System.Do, Pending;
    if steps != [] {
      PendingStep(s, steps[0], w);
      PendingRun(System.Do(s, steps[0]), steps[1..], r, w);
    }
  }

  /** In every run, every record a writer began has been committed, given up for
      want of a descriptor, or counted as dropped, exactly once, unless it is the
      one under way. */
  lemma RecordsAccounted(pool: State, steps: seq<System.Step>, s: Sys, w: nat)
    requires System.Run(Start(pool), steps, s) && w < |s.writers|
    ensures Times(steps, (a: System.Step) => a.Begin? && a.w == w)
            == Times(steps, (a: System.Step) => a.Commit? && a.w == w)
               + Times(steps, (a: System.Step) => a.Abandon? && a.w == w)
               + s.writers[w].drops
               + if s.writers[w].stage.Idle? || s.writers[w].stage.Dead? then 0 else 1
  {
    PendingRun(Start(pool), steps, s, w);
    TwoKinds(steps, w);
  }

  lemma {:induction false} TwoKinds(steps: seq<System.Step>, w: nat)
    ensures Times(steps, (a: System.Step) => (a.Commit? || a.Abandon?) && a.w == w)
            == Times(steps, (a: System.Step) => a.Commit? && a.w == w)
               + Times(steps, (a: System.Step) => a.Abandon? && a.w == w)
  {
    if steps != [] {
      TwoKinds(steps[1..], w);
    }
  }
}
