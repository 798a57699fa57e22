/** The registry of live writers, an intrusive doubly linked list, and the drop
    counters that the worker and dying writers collect from it. */
module Writers {
  /** s_p8_drop_stats without the service counter. */
  datatype Stats = Stats(logs: nat, metrics: nat, traces: nat) {
    function Plus(o: Stats): Stats { Stats(logs + o.logs, metrics + o.metrics, traces + o.traces) }
  }

  const NONE := Stats(0, 0, 0)

  class Writer {
    var next: Writer?
    var prev: Writer?
    var drops: Stats

    constructor ()
      ensures next == null && prev == null && drops == NONE
    {
      next, prev, drops := null, null, NONE;
    }

    /** pull_dropped: takes the counters and resets them. */
    method PullDropped() returns (s: Stats)
      modifies this`drops
      ensures s == old(drops) && drops == NONE
    {
      s := drops;
      drops := NONE;
    }
  }

  /** ws are distinct and linked both ways, first to last. */
  ghost predicate Linked(ws: seq<Writer>)
    reads ws`next, ws`prev
  {
    (forall i, j :: 0 <= i < j < |ws| ==> ws[i] != ws[j])
    && (ws != [] ==> ws[0].prev == null && ws[|ws| - 1].next == null)
    && (forall i :: 0 <= i < |ws| - 1 ==> ws[i].next == ws[i + 1] && ws[i + 1].prev == ws[i])
  }

  /** What unlinking element k leaves behind is linked. */
  lemma Spliced(was: seq<Writer>, ws: seq<Writer>, k: nat)
    requires k < |was| && ws == was[..k] + was[k + 1..]
    requires forall i, j :: 0 <= i < j < |was| ==> was[i] != was[j]
    requires forall i :: 0 <= i < |was| - 1 && i != k && i + 1 != k ==>
               was[i].next == was[i + 1] && was[i + 1].prev == was[i]
    requires 0 < k < |was| - 1 ==> was[k - 1].next == was[k + 1] && was[k + 1].prev == was[k - 1]
    requires ws != [] ==> was[if k == 0 then 1 else 0].prev == null
    requires ws != [] ==> was[if k == |was| - 1 then k - 1 else |was| - 1].next == null
    ensures Linked(ws) && was[k] !in ws
  {
    assert forall i :: 0 <= i < |ws| ==> ws[i] == was[if i < k then i else i + 1];
    forall i | 0 <= i < |ws| - 1 ensures ws[i].next == ws[i + 1] && ws[i + 1].prev == ws[i] {
      var a := if i < k then i else i + 1;
      assert ws[i] == was[a] && ws[i + 1] == was[if i + 1 < k then i + 1 else i + 2];
      if i + 1 != k {
        assert was[a + 1].prev == was[a];
      }
    }
  }

  ghost function Counters(ws: seq<Writer>): (cs: seq<Stats>)
    reads ws`drops
    ensures |cs| == |ws| && forall i :: 0 <= i < |ws| ==> cs[i] == ws[i].drops
  {
    if ws == [] then [] else Counters(ws[..|ws| - 1]) + [ws[|ws| - 1].drops]
  }

  function Total(cs: seq<Stats>): Stats {
    if cs == [] then NONE else Total(cs[..|cs| - 1]).Plus(cs[|cs| - 1])
  }

  lemma TotalMore(cs: seq<Stats>, i: nat)
    requires i < |cs|
    ensures Total(cs[..i + 1]) == Total(cs[..i]).Plus(cs[i])
  {
    assert cs[..i + 1][..i] == cs[..i];
  }

  lemma TotalNone(cs: seq<Stats>)
    ensures Total(cs[..0]) == NONE
  {
  }

  function Sum(ns: seq<nat>): nat { if ns == [] then 0 else Sum(ns[..|ns| - 1]) + ns[|ns| - 1] }

  /** One counter of each. */
  function Column(cs: seq<Stats>, field: Stats -> nat): (r: seq<nat>)
    ensures |r| == |cs| && forall i :: 0 <= i < |cs| ==> r[i] == field(cs[i])
  {
    seq(|cs|, i requires 0 <= i < |cs| => field(cs[i]))
  }

  /** Adding up counters adds up each kind on its own. */
  lemma {:induction false} TotalSums(cs: seq<Stats>)
    ensures Total(cs).logs == Sum(Column(cs, (c: Stats) => c.logs))
    ensures Total(cs).metrics == Sum(Column(cs, (c: Stats) => c.metrics))
    ensures Total(cs).traces == Sum(Column(cs, (c: Stats) => c.traces))
  {
    if cs != [] {
      var n := |cs| - 1;
      TotalSums(cs[..n]);
      ColumnFront(cs, (c: Stats) => c.logs);
      ColumnFront(cs, (c: Stats) => c.metrics);
      ColumnFront(cs, (c: Stats) => c.traces);
    }
  }

  lemma ColumnFront(cs: seq<Stats>, field: Stats -> nat)
    requires cs != []
    ensures Sum(Column(cs, field)) == Sum(Column(cs[..|cs| - 1], field)) + field(cs[|cs| - 1])
  {
    assert Column(cs, field)[..|cs| - 1] == Column(cs[..|cs| - 1], field);
  }

  lemma NextLink(ws: seq<Writer>, i: nat)
    requires Linked(ws) && i < |ws|
    ensures ws[i].next == (if i + 1 < |ws| then ws[i + 1] else null)
    ensures forall j :: 0 <= j < |ws| && j != i ==> ws[j] != ws[i]
  {
  }

  class Core {
    var head: Writer?
    var count: nat
    var dropped: Stats            // mu_dropped_logs, _metrics, _traces
    ghost var ws: seq<Writer>     // the live writers, latest first

    ghost predicate Valid()
      reads this, ws`next, ws`prev
    {
      Linked(ws) && count == |ws| && head == if ws == [] then null else ws[0]
    }

    constructor ()
      ensures Valid() && ws == [] && dropped == NONE
    {
      head, count, dropped, ws := null, 0, NONE, [];
    }

    method Register(w: Writer)
      requires Valid() && w !in ws
      modifies this`head, this`count, this`ws, w`next, w`prev, ws`prev
      ensures Valid() && ws == [w] + old(ws)
    {
      w.prev := null;
      w.next := head;
      if head != null {
        head.prev := w;
      }
      head := w;
      count := count + 1;
      ghost var was := ws;
      ws := [w] + ws;
      assert forall i :: 1 <= i < |ws| ==> ws[i] == was[i - 1];
    }

    method Unregister(w: Writer, ghost k: nat)
      requires Valid() && k < |ws| && ws[k] == w
      modifies this`head, this`count, this`ws, ws`next, ws`prev
      ensures Valid() && ws == old(ws[..k] + ws[k + 1..]) && w !in ws && w.next == null && w.prev == null
    {
      ghost var was := ws;
      assert k > 0 ==> was[k - 1].next == was[k - 1 + 1] && w.prev == was[k - 1];
      assert k + 1 < |was| ==> w.next == was[k + 1] && was[k + 1].prev == w;
      if w.prev != null {
        w.prev.next := w.next;
      } else {
        head := w.next;
      }
      if w.next != null {
        w.next.prev := w.prev;
      }
      w.next := null;
      w.prev := null;
      count := count - 1;
      ws := ws[..k] + ws[k + 1..];
      Spliced(was, ws, k);
    }

    method Accumulate(s: Stats)
      modifies this`dropped
      ensures dropped.logs == old(dropped.logs) + s.logs && dropped.metrics == old(dropped.metrics) + s.metrics
      ensures dropped.traces == old(dropped.traces) + s.traces
    {
      dropped := Stats(dropped.logs + s.logs, dropped.metrics + s.metrics, dropped.traces + s.traces);
    }

    /** poll_dropped_stats: walks the list and moves every writer's counters into
        the core. */
    method PollDropped()
      requires Valid()
      modifies this`dropped, ws`drops
      ensures Valid()
      ensures dropped.logs == old(dropped.logs) + Sum(Column(old(Counters(ws)), (c: Stats) => c.logs))
      ensures dropped.metrics == old(dropped.metrics) + Sum(Column(old(Counters(ws)), (c: Stats) => c.metrics))
      ensures dropped.traces == old(dropped.traces) + Sum(Column(old(Counters(ws)), (c: Stats) => c.traces))
      ensures forall w <- ws :: w.drops == NONE
    {
      hide Total, Linked, Sum;
      ghost var cs := Counters(ws);
      var sum := NONE;
      var w := head;
      ghost var i := 0;
      TotalNone(cs);
      while w != null
        invariant 0 <= i <= |ws| && w == (if i < |ws| then ws[i] else null) && Linked(ws)
        invariant sum == Total(cs[..i])
        invariant forall j :: 0 <= j < |ws| ==> ws[j].drops == if j < i then NONE else cs[j]
        modifies ws`drops
        decreases |ws| - i
      {
        NextLink(ws, i);
        TotalMore(cs, i);
        var s := w.PullDropped();
        sum := sum.Plus(s);
        w := w.next;
        i := i + 1;
      }
      assert cs[..i] == cs;
      TotalSums(cs);
      Accumulate(sum);
    }

    /** ~cp8_tls_writer, as far as the core is concerned: the last counts are
        kept, then the writer leaves. */
    method Retire(w: Writer, ghost k: nat)
      requires Valid() && k < |ws| && ws[k] == w
      modifies this`head, this`count, this`ws, this`dropped, ws`next, ws`prev, w`drops
      ensures Valid() && ws == old(ws[..k] + ws[k + 1..])
      ensures dropped.logs == old(dropped.logs + w.drops.logs)
      ensures dropped.metrics == old(dropped.metrics + w.drops.metrics)
      ensures dropped.traces == old(dropped.traces + w.drops.traces)
      ensures w.drops == NONE
    {
      var s := w.PullDropped();
      Accumulate(s);
      Unregister(w, k);
    }
  }

  // ------------------------------------------------ drop counts, interleaved

  /** A writer: its counter (one kind stands for all three) and what its
      destructor has taken from it but not yet added to the core. */
  datatype Party = Party(counter: nat, inHand: nat, stage: Stage)

  datatype Stage = Alive | Taken | Added | Left

  /** partial is the worker's sum during a poll, which visits the parties of
      todo; recorded counts every drop ever recorded. */
  datatype Tally = Tally(parties: seq<Party>, todo: seq<nat>, polling: bool, partial: nat, core: nat, recorded: nat)

  datatype Step =
    | Join
    | Drop(w: nat)
    | PollBegin(order: seq<nat>)
    | PollNext
    | PollEnd
    | TakeLast(w: nat)
    | AddLast(w: nat)
    | Leave(w: nat)

  /** Polling and leaving both hold the writers' lock, so they exclude each other. */
  predicate Enabled(s: Tally, a: Step) {
    match a
    case Join => !s.polling
    case Drop(w) => w < |s.parties| && s.parties[w].stage.Alive?
    case PollBegin(order) => !s.polling && forall w <- order :: w < |s.parties|
    case PollNext => s.polling && s.todo != [] && s.todo[0] < |s.parties|
    case PollEnd => s.polling && s.todo == []
    case TakeLast(w) => w < |s.parties| && s.parties[w].stage.Alive?
    case AddLast(w) => w < |s.parties| && s.parties[w].stage.Taken?
    case Leave(w) => w < |s.parties| && s.parties[w].stage.Added? && !s.polling
  }

  function Do(s: Tally, a: Step): Tally
    requires Enabled(s, a)
  {
    match a
    case Join => s.(parties := s.parties + [Party(0, 0, Alive)])
    case Drop(w) =>
      s.(parties := s.parties[w := s.parties[w].(counter := s.parties[w].counter + 1)], recorded := s.recorded + 1)
    case PollBegin(order) => s.(polling := true, todo := order, partial := 0)
    case PollNext =>
      var w := s.todo[0];
      s.(parties := s.parties[w := s.parties[w].(counter := 0)],
         partial := s.partial + s.parties[w].counter,
         todo := s.todo[1..])
    case PollEnd => s.(polling := false, partial := 0, core := s.core + s.partial)
    case TakeLast(w) => s.(parties := s.parties[w := Party(0, s.parties[w].counter, Taken)])
    case AddLast(w) =>
      s.(parties := s.parties[w := s.parties[w].(inHand := 0, stage := Added)], core := s.core + s.parties[w].inHand)
    case Leave(w) => s.(parties := s.parties[w := s.parties[w].(stage := Left)])
  }

  function Held(ps: seq<Party>): nat {
    if ps == [] then 0 else Held(ps[..|ps| - 1]) + ps[|ps| - 1].counter + ps[|ps| - 1].inHand
  }

  ghost predicate Inv(s: Tally) {
    s.recorded == s.core + s.partial + Held(s.parties)
    && (!s.polling ==> s.partial == 0)
    && (forall w :: 0 <= w < |s.parties| && !s.parties[w].stage.Alive? ==> s.parties[w].counter == 0)
    && (forall w :: 0 <= w < |s.parties| && !s.parties[w].stage.Taken? ==> s.parties[w].inHand == 0)
  }

  lemma {:induction false} HeldUpdate(ps: seq<Party>, w: nat, p: Party)
    requires w < |ps|
    ensures Held(ps[w := p]) == Held(ps) + p.counter + p.inHand - ps[w].counter - ps[w].inHand
    decreases |ps|
  {
    var k := |ps| - 1;
    if w == k {
      assert ps[w := p][..k] == ps[..k];
    } else {
      HeldUpdate(ps[..k], w, p);
      assert ps[w := p][..k] == ps[..k][w := p];
    }
  }

  lemma PollKeeps(s: Tally)
    requires Inv(s) && Enabled(s, PollNext)
    ensures Inv(Do(s, PollNext))
  {
    hide Held;
    HeldUpdate(s.parties, s.todo[0], Do(s, PollNext).parties[s.todo[0]]);
  }

  lemma PartyKeeps(s: Tally, a: Step)
    requires Inv(s) && Enabled(s, a) && (a.Drop? || a.TakeLast? || a.AddLast? || a.Leave?)
    ensures Inv(Do(s, a))
  {
    hide Held;
    HeldUpdate(s.parties, a.w, Do(s, a).parties[a.w]);
  }

  lemma OthersKeep(s: Tally, a: Step)
    requires Inv(s) && Enabled(s, a) && (a.Join? || a.PollBegin? || a.PollEnd?)
    ensures Inv(Do(s, a))
  {
    hide Held;
    Newcomer(s.parties);
  }

  lemma Newcomer(ps: seq<Party>)
    ensures Held(ps + [Party(0, 0, Alive)]) == Held(ps)
  {
    assert (ps + [Party(0, 0, Alive)])[..|ps|] == ps;
  }

  lemma StepKeeps(s: Tally, a: Step)
    requires Inv(s) && Enabled(s, a)
    ensures Inv(Do(s, a))
  {
    hide Inv, Enabled, Do, Held;
    match a
    case Join => OthersKeep(s, a);
    case PollNext => PollKeeps(s);
    case PollBegin(_) => OthersKeep(s, a);
    case PollEnd => OthersKeep(s, a);
    case _ => PartyKeeps(s, a);
  }

  ghost predicate Run(s: Tally, steps: seq<Step>, r: Tally)
    decreases |steps|
  {
    if steps == [] then r == s else Enabled(s, steps[0]) && Run(Do(s, steps[0]), steps[1..], r)
  }

  lemma {:induction false} RunKeeps(s: Tally, steps: seq<Step>, r: Tally)
    requires Inv(s) && Run(s, steps, r)
    ensures Inv(r)
    decreases |steps|
  {
    hide Inv;
    if steps != [] {
      StepKeeps(s, steps[0]);
      RunKeeps(Do(s, steps[0]), steps[1..], r);
    }
  }

  lemma {:induction false} NothingHeld(ps: seq<Party>)
    requires forall p <- ps :: p.counter == 0 && p.inHand == 0
    ensures Held(ps) == 0
  {
    if ps != [] {
      assert ps[|ps| - 1] in ps;
      assert forall p <- ps[..|ps| - 1] :: p in ps;
      NothingHeld(ps[..|ps| - 1]);
    }
  }

  ghost predicate Gone(ps: seq<Party>) { forall p <- ps :: p.stage.Left? }

  lemma AllGone(s: Tally)
    requires Inv(s) && Gone(s.parties)
    ensures Held(s.parties) == 0
  {
    hide Held;
    forall p | p in s.parties ensures p.counter == 0 && p.inHand == 0 {
      var w :| 0 <= w < |s.parties| && s.parties[w] == p;
      assert s.parties[w].stage.Left?;
    }
    NothingHeld(s.parties);
  }

  lemma Books(s: Tally)
    requires Inv(s)
    ensures s.recorded == s.core + s.partial + Held(s.parties)
    ensures !s.polling && Gone(s.parties) ==> s.core == s.recorded
  {
    hide Held, Gone;
    if !s.polling && Gone(s.parties) {
      AllGone(s);
    }
  }

  lemma StartInv()
    ensures Inv(Tally([], [], false, 0, 0, 0))
  {
  }

  /** No drop is lost or counted twice, whatever the interleaving; once every
      writer has left and no poll is running, the core has counted them all. */
  lemma DropsConserved(steps: seq<Step>, s: Tally)
    requires Run(Tally([], [], false, 0, 0, 0), steps, s)
    ensures s.recorded == s.core + s.partial + Held(s.parties)
    ensures !s.polling && Gone(s.parties) ==> s.core == s.recorded
  {
    hide *;
    StartInv();
    RunKeeps(Tally([], [], false, 0, 0, 0), steps, s);
    Books(s);
  }
}
