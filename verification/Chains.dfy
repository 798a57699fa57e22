/** Fragment chains: a record split over several buffers reaches the sink with
    its buffers next to each other, except for those that a discarded record
    took the continuation away from. */
module Chains {
  import opened Records
  import opened Pool
  import opened System
  import opened Ownership
  import opened Delivery

  /** Buffer i is flagged, yet what comes next does not continue it; next says
      whether a continuation is to follow the whole list. */
  predicate Loose(bs: seq<Filled>, i: nat, next: bool)
    requires i < |bs|
  {
    bs[i].frag && !(if i + 1 < |bs| then bs[i + 1].cont && bs[i + 1].owner == bs[i].owner else next)
  }

  ghost predicate Unfollowed(bs: seq<Filled>, next: bool) {
    exists i: nat :: i < |bs| && Loose(bs, i, next)
  }

  /** b goes on where a, a flagged buffer of the same writer, leaves off: the
      record that has the last share of a has the first share of b. */
  predicate Joins(a: Filled, b: Filled) {
    a.frag && a.owner == b.owner && a.data != [] && b.data != [] && b.data[0] == a.data[|a.data| - 1]
  }

  /** Every continuation comes right after a buffer that it goes on from. */
  ghost predicate Tidy(bs: seq<Filled>) {
    forall i: nat :: i < |bs| && bs[i].cont ==> i > 0 && Joins(bs[i - 1], bs[i])
  }

  /** The buffers of finished records, and whether the record under way began in
      a continuation of theirs. */
  function Settled(x: Writer): seq<Filled> {
    if (x.stage.Writing? || x.stage.Undoing?) && x.stage.mark <= |x.frags| then x.frags[..x.stage.mark] else x.Held()
  }

  predicate Continues(x: Writer) { (x.stage.Writing? || x.stage.Undoing?) && !x.stage.clean }

  ghost predicate Broke(x: Writer) { Unfollowed(Settled(x), Continues(x)) }

  /** Somewhere a flagged buffer is not followed by its continuation. */
  ghost predicate Broken(s: Sys) {
    Unfollowed(s.sink, false) || (!s.phase.Freeing? && Unfollowed(s.batch, false)) || Unfollowed(s.ready, false)
    || exists v: nat :: v < |s.writers| && Broke(s.writers[v])
  }

  // ------------------------------------------------------------ lists

  lemma TidyConcat(a: seq<Filled>, b: seq<Filled>)
    requires Tidy(a) && Tidy(b)
    ensures Tidy(a + b)
  {
  }

  /** Cutting a list in two cuts no chain but the one that runs across the cut. */
  lemma UnfollowedConcat(a: seq<Filled>, b: seq<Filled>, next: bool)
    requires Tidy(a + b) && b != []
    ensures Unfollowed(a + b, next) <==> Unfollowed(a, b[0].cont) || Unfollowed(b, next)
  {
    var c := a + b;
    assert c[|a|] == b[0];
    forall i: nat | i < |a| ensures Loose(c, i, next) <==> Loose(a, i, b[0].cont) {
      assert c[i] == a[i];
      if i + 1 < |a| {
        assert c[i + 1] == a[i + 1];
      }
    }
    forall i: nat | i < |b| ensures Loose(c, |a| + i, next) <==> Loose(b, i, next) {
      assert c[|a| + i] == b[i];
    }
    if Unfollowed(c, next) {
      var i: nat :| i < |c| && Loose(c, i, next);
      if i >= |a| {
        assert Loose(b, i - |a|, next);
      }
    }
  }

  /** Lists that begin with no continuation can be joined freely. */
  lemma UnfollowedJoin(a: seq<Filled>, b: seq<Filled>)
    requires Tidy(a) && Tidy(b)
    ensures Tidy(a + b) && (Unfollowed(a + b, false) <==> Unfollowed(a, false) || Unfollowed(b, false))
  {
    TidyConcat(a, b);
    if b == [] {
      assert a + b == a;
    } else {
      UnfollowedConcat(a, b, false);
    }
  }

  lemma OneUnfollowed(b: Filled)
    ensures Unfollowed([b], false) <==> b.frag
  {
    assert b.frag ==> Loose([b], 0, false);
  }

  lemma TidySnoc(bs: seq<Filled>, b: Filled)
    requires Tidy(bs) && (b.cont ==> bs != [] && Joins(bs[|bs| - 1], b))
    ensures Tidy(bs + [b])
  {
  }

  /** The last buffer of a list may be flagged and may get more shares. */
  lemma TidyLast(bs: seq<Filled>, b: Filled, c: Filled)
    requires Tidy(bs + [b]) && c.cont == b.cont && c.owner == b.owner && b.data <= c.data
    ensures Tidy(bs + [c])
  {
    var was, now := bs + [b], bs + [c];
    forall i: nat | i < |now| && now[i].cont ensures i > 0 && Joins(now[i - 1], now[i]) {
      assert was[i].cont && Joins(was[i - 1], was[i]) && now[i - 1] == was[i - 1];
    }
  }

  /** A list that ends with a flagged buffer waits for its continuation. */
  lemma LastFlagged(bs: seq<Filled>)
    requires bs != [] && bs[|bs| - 1].frag
    ensures Unfollowed(bs, false)
  {
    assert Loose(bs, |bs| - 1, false);
  }

  // ------------------------------------------------------------ writers

  /** The last share of the tail is the record's that is under way. */
  predicate EndsIn(x: Writer, p: Piece) {
    x.tail.Some? && x.tail.value.data != [] && x.tail.value.data[|x.tail.value.data| - 1] == p
  }

  /** The record under way has its own buffers in one chain. */
  ghost predicate WriterInv(x: Writer, v: nat) {
    OwnedBy(x.Held(), v) && Tidy(x.Held()) && (x.tail.Some? ==> !x.tail.value.frag)
    && (x.stage.Writing? ==>
          x.tail.Some? && x.stage.mark <= |x.frags| && x.stage.clean == !x.Held()[x.stage.mark].cont
          && !Unfollowed(x.Held()[x.stage.mark..], false)
          && (x.stage.piece.Some? ==> EndsIn(x, x.stage.piece.value)))
    && (x.stage.Undoing? ==>
          x.tail.None? && x.stage.mark <= |x.frags|
          && (!x.stage.clean ==> x.stage.mark > 0 && x.frags[x.stage.mark - 1].frag))
  }

  lemma HeldTail(x: Writer)
    requires x.tail.Some?
    ensures x.Held() == x.frags + [x.tail.value] && x.Held()[|x.frags|..] == [x.tail.value]
    ensures x.Held()[..|x.frags|] == x.frags
  {
  }

  /** A record opens in the tail: what is settled is what is in front of it. */
  lemma OpenKeeps(x: Writer, v: nat)
    requires WriterInv(x, v) && x.tail.Some? && !x.stage.Writing? && !x.stage.Undoing?
    ensures WriterInv(Open(x), v) && (Broke(Open(x)) <==> Broke(x))
  {
    hide Tidy, Unfollowed, OwnedBy;
    var b := x.tail.value;
    HeldTail(x);
    OneUnfollowed(b);
    UnfollowedConcat(x.frags, [b], false);
    assert x.frags[..|x.frags|] == x.frags;
  }

  /** A record ends: its buffers join the settled ones. */
  lemma EndKeeps(x: Writer, y: Writer, v: nat)
    requires WriterInv(x, v) && x.stage.Writing? && y.Held() == x.Held() && y.stage.Idle?
    requires y.tail == x.tail || y.tail.None?
    ensures WriterInv(y, v) && (Broke(y) <==> Broke(x))
  {
    hide Tidy, Unfollowed, OwnedBy;
    var h, m := x.Held(), x.stage.mark;
    assert h == h[..m] + h[m..] && h[..m] == x.frags[..m];
    UnfollowedConcat(h[..m], h[m..], false);
  }

  lemma RelockKeeps(x: Writer, v: nat, b: Filled)
    requires WriterInv(x, v) && x.tail.None? && x.stage.Landed? && b.owner == v && !b.cont && !b.frag
    ensures var y := Open(x.(tail := Some(b))); WriterInv(y, v) && (Broke(y) <==> Broke(x))
  {
    hide Tidy, Unfollowed, OwnedBy;
    var y := Open(x.(tail := Some(b)));
    HeldTail(y);
    TidySnoc(x.frags, b);
    OwnedSnoc(x.frags, b, v);
    OneUnfollowed(b);
    assert x.frags[..|x.frags|] == x.frags;
  }

  lemma HeadKeeps(x: Writer, v: nat, p: Piece)
    requires WriterInv(x, v) && x.stage.Writing?
    ensures x.tail.Some?
    ensures var y := Append(x, p).(stage := x.stage.(piece := Some(p))); WriterInv(y, v) && (Broke(y) <==> Broke(x))
  {
    var y := Append(x, p).(stage := x.stage.(piece := Some(p)));
    SameFlags(x.Held(), y.Held());
    SameFlags(x.Held()[x.stage.mark..], y.Held()[x.stage.mark..]);
    TidyLast(x.frags, x.tail.value, y.tail.value);
    OwnedSnoc(x.frags, x.tail.value, v);
    OwnedSnoc(x.frags, y.tail.value, v);
    hide Tidy, Unfollowed, OwnedBy;
  }

  lemma SameFlags(a: seq<Filled>, b: seq<Filled>)
    requires |a| == |b|
    requires forall i :: 0 <= i < |a| ==> a[i].frag == b[i].frag && a[i].cont == b[i].cont && a[i].owner == b[i].owner
    ensures forall next :: Unfollowed(a, next) <==> Unfollowed(b, next)
  {
    forall i: nat, next | i < |a| ensures Loose(a, i, next) <==> Loose(b, i, next) {
    }
  }

  /** The tail is flagged; c, if there is one, continues it. */
  lemma FlaggedTail(x: Writer, v: nat)
    requires WriterInv(x, v) && x.stage.Writing?
    ensures x.tail.Some?
    ensures var bs := x.frags + [x.tail.value.(frag := true)];
      OwnedBy(bs, v) && Tidy(bs) && bs[x.stage.mark].cont == !x.stage.clean
      && !Unfollowed(bs[x.stage.mark..], true) && bs[..x.stage.mark] == x.frags[..x.stage.mark]
  {
    TidyLast(x.frags, x.tail.value, x.tail.value.(frag := true));
    var m := x.stage.mark;
    var bs := x.frags + [x.tail.value.(frag := true)];
    OwnedSnoc(x.frags, x.tail.value, v);
    OwnedSnoc(x.frags, bs[|x.frags|], v);
    var h := x.Held();
    assert forall i: nat :: i < |h| ==> bs[i].cont == h[i].cont && bs[i].owner == h[i].owner;
    assert forall i: nat :: i < |x.frags| ==> bs[i] == h[i];
    forall i: nat | i < |bs[m..]| ensures !Loose(bs[m..], i, true) {
      assert !Loose(h[m..], i, false);
    }
  }

  lemma RotatedOn(x: Writer, v: nat, c: Filled)
    requires WriterInv(x, v) && x.stage.Writing? && c.cont && !c.frag && c.owner == v
    requires x.stage.piece.Some? && c.data == [x.stage.piece.value]
    ensures x.tail.Some?
    ensures var y := x.(frags := x.frags + [x.tail.value.(frag := true)], tail := Some(c));
      WriterInv(y, v) && (Broke(y) <==> Broke(x))
  {
    hide Unfollowed, OwnedBy, Loose;
    FlaggedTail(x, v);
    var m := x.stage.mark;
    var bs := x.frags + [x.tail.value.(frag := true)];
    var y := x.(frags := bs, tail := Some(c));
    LastOwned(bs, v);
    TidySnoc(bs, c);
    OwnedSnoc(bs, c, v);
    hide Tidy;
    assert EndsIn(y, x.stage.piece.value);
    assert (bs + [c])[m..] == bs[m..] + [c] && y.Held() == bs + [c];
    OneUnfollowed(c);
    MoreRest(bs[m..], c);
  }

  lemma LastOwned(bs: seq<Filled>, v: nat)
    requires OwnedBy(bs, v) && bs != []
    ensures bs[|bs| - 1].owner == v
  {
  }

  lemma MoreRest(bs: seq<Filled>, c: Filled)
    requires !Unfollowed(bs, true) && bs != [] && c.cont && !c.frag && c.owner == bs[|bs| - 1].owner
    ensures !Unfollowed(bs + [c], false)
  {
    forall i: nat | i < |bs + [c]| ensures !Loose(bs + [c], i, false) {
      if i < |bs| {
        assert !Loose(bs, i, true);
      }
    }
  }

  lemma RotateKeeps(s: Sys, w: nat, alloc: bool)
    requires Can(s, Rotate(w, alloc)) && WriterInv(s.writers[w], w)
    ensures var y := Rotated(s, w, alloc).writers[w]; WriterInv(y, w) && (Broke(y) <==> Broke(s.writers[w]))
  {
    hide Unfollowed, OwnedBy, Tidy, QueueInRange, Take;
    var x, y := s.writers[w], Rotated(s, w, alloc).writers[w];
    var f := x.tail.value.(frag := true);
    if CanTake(s.pool, alloc) {
      RotatedOn(x, w, y.tail.value);
    } else {
      FlaggedTail(x, w);
      var bs := x.frags + [f];
      if !x.stage.clean {
        StartFollows(bs, x.stage.mark);
      }
      assert y == x.(frags := bs, tail := None, stage := Undoing(x.stage.mark, x.stage.clean));
    }
  }

  lemma StartFollows(bs: seq<Filled>, m: nat)
    requires Tidy(bs) && m < |bs| && bs[m].cont
    ensures m > 0 && bs[m - 1].frag
  {
  }

  /** Taking the newest buffer back touches no settled one. At the end the chain
      that ran into the record, if any, has lost its continuation. */
  lemma UndoKeeps(s: Sys, w: nat)
    requires Can(s, Undo(w)) && WriterInv(s.writers[w], w)
    ensures var x, y := s.writers[w], Undone(s, w).writers[w];
      WriterInv(y, w) && (Broke(y) <==> Broke(x) || (|x.frags| == x.stage.mark && !x.stage.clean))
  {
    hide Unfollowed, OwnedBy, Tidy, QueueInRange, Recycle;
    var x, y := s.writers[w], Undone(s, w).writers[w];
    var m := x.stage.mark;
    assert x.frags[..|x.frags|] == x.frags;
    if |x.frags| > m {
      PoppedKeeps(x.frags, w);
      assert y.frags[..m] == x.frags[..m];
    } else if !x.stage.clean {
      LastFlagged(x.frags);
    }
  }

  lemma PoppedKeeps(bs: seq<Filled>, v: nat)
    requires OwnedBy(bs, v) && Tidy(bs) && bs != []
    ensures OwnedBy(bs[..|bs| - 1], v) && Tidy(bs[..|bs| - 1])
  {
    assert bs == bs[..|bs| - 1] + [bs[|bs| - 1]];
    OwnedSnoc(bs[..|bs| - 1], bs[|bs| - 1], v);
  }

  lemma SameKeeps(x: Writer, y: Writer, v: nat)
    requires WriterInv(x, v) && x.Unlocked() && y.Unlocked()
    requires y.Held() == x.Held() && (y.tail == x.tail || y.tail.None?)
    ensures WriterInv(y, v) && (Broke(y) <==> Broke(x))
  {
    hide Unfollowed, OwnedBy, Tidy;
  }

  /** The step that ends the discarding of a record which began in a continuation. */
  ghost predicate Tears(s: Sys, a: System.Step)
    requires Can(s, a)
  {
    a.Undo? && |s.writers[a.w].frags| <= s.writers[a.w].stage.mark && !s.writers[a.w].stage.clean
  }

  /** What a step of writer w has to keep. */
  ghost predicate Kept(s: Sys, a: System.Step)
    requires Can(s, a) && Actor(s, a) < |s.writers|
  {
    var w, r := Actor(s, a), System.Do(s, a);
    |r.writers| == |s.writers| && WriterInv(r.writers[w], w)
    && (Broke(r.writers[w]) <==> Broke(s.writers[w]) || Tears(s, a))
  }

  lemma EditKeeps(s: Sys, a: System.Step)
    requires Can(s, a) && Edits(a) && Actor(s, a) < |s.writers|
    requires WriterInv(s.writers[Actor(s, a)], Actor(s, a))
    ensures Kept(s, a)
  {
    hide WriterInv, Broke, QueueInRange;
    var w := Actor(s, a);
    var x, y := s.writers[w], System.Do(s, a).writers[w];
    match a
    case Begin(_, keep) =>
      if keep {
        OpenKeeps(x, w);
      } else {
        SameKeeps(x, y, w);
      }
    case Head(_, p) => HeadKeeps(x, w, p);
    case _ => EndKeeps(x, y, w);
  }

  lemma ActorKeeps(s: Sys, a: System.Step)
    requires Can(s, a) && IsLocal(a) && Actor(s, a) < |s.writers|
    requires WriterInv(s.writers[Actor(s, a)], Actor(s, a)) && TailInv(s.writers[Actor(s, a)])
    ensures Kept(s, a)
  {
    if Edits(a) {
      hide *;
      EditKeeps(s, a);
    } else {
      PoolKeeps(s, a);
    }
  }

  lemma PoolKeeps(s: Sys, a: System.Step)
    requires Can(s, a) && IsLocal(a) && !Edits(a) && Actor(s, a) < |s.writers|
    requires WriterInv(s.writers[Actor(s, a)], Actor(s, a)) && TailInv(s.writers[Actor(s, a)])
    ensures Kept(s, a)
  {
    hide WriterInv, Broke, QueueInRange, Take, Park, Recycle, Pool.Do, Enabled;
    var w := Actor(s, a);
    var x := s.writers[w];
    match a
    case Rotate(_, alloc) => RotateKeeps(s, w, alloc);
    case Undo(_) =>
      UndoKeeps(s, w);
      UndoMark(x, w);
    case Relock(_) =>
      if x.stage.got == NULL {
        SameKeeps(x, System.Do(s, a).writers[w], w);
      } else {
        RelockKeeps(x, w, Filled(x.stage.got, w, false, false, []));
      }
    case _ => WaitKeeps(s, a);
  }

  lemma WaitKeeps(s: Sys, a: System.Step)
    requires Can(s, a) && (a.Ask? || a.Look? || a.Exit?) && Actor(s, a) < |s.writers|
    requires WriterInv(s.writers[Actor(s, a)], Actor(s, a)) && TailInv(s.writers[Actor(s, a)])
    ensures Kept(s, a)
  {
    hide WriterInv, Broke, QueueInRange, Take, Park, Pool.Do, Enabled;
    var w := Actor(s, a);
    SameKeeps(s.writers[w], System.Do(s, a).writers[w], w);
  }

  lemma TornStep(s: Sys, a: System.Step)
    requires Can(s, a) && IsLocal(a)
    ensures System.Do(s, a).torn <==> s.torn || Tears(s, a)
  {
    hide QueueInRange, Take, Park, Recycle, Pool.Do, Enabled, Append, Close, Open;
  }

  lemma UndoMark(x: Writer, v: nat)
    requires WriterInv(x, v) && x.stage.Undoing?
    ensures x.stage.mark <= |x.frags|
  {
  }

  // ------------------------------------------------------- the whole system

  ghost predicate ListInv(s: Sys) { Tidy(s.sink) && Tidy(s.batch) && Tidy(s.ready) }

  ghost predicate WritersInv(s: Sys) { forall v: nat :: v < |s.writers| ==> WriterInv(s.writers[v], v) }

  ghost predicate BrokeOne(ws: seq<Writer>) { exists v: nat :: v < |ws| && Broke(ws[v]) }

  ghost predicate BrokeList(s: Sys) {
    Unfollowed(s.sink, false) || (!s.phase.Freeing? && Unfollowed(s.batch, false)) || Unfollowed(s.ready, false)
  }

  /** torn says exactly that a chain is broken. */
  ghost predicate Inv(s: Sys) {
    ListInv(s) && WritersInv(s) && (s.torn <==> Broken(s))
  }

  lemma BrokenParts(s: Sys)
    ensures Broken(s) <==> BrokeList(s) || BrokeOne(s.writers)
  {
    hide Unfollowed, Broke;
  }

  lemma BrokeSet(ws: seq<Writer>, w: nat, y: Writer, tears: bool)
    requires w < |ws| && (Broke(y) <==> Broke(ws[w]) || tears)
    ensures BrokeOne(ws[w := y]) <==> BrokeOne(ws) || tears
  {
    hide Broke;
    var us := ws[w := y];
    assert us[w] == y;
    forall v: nat | v < |ws| && v != w ensures us[v] == ws[v] {
    }
  }

  lemma WritersSet(s: Sys, r: Sys, w: nat)
    requires WritersInv(s) && w < |r.writers| == |s.writers| && r.writers == s.writers[w := r.writers[w]]
    requires WriterInv(r.writers[w], w)
    ensures WritersInv(r)
  {
    hide WriterInv;
  }

  lemma LocalKeeps(s: Sys, a: System.Step)
    requires Inv(s) && Tails(s) && Can(s, a) && IsLocal(a)
    ensures Inv(System.Do(s, a))
  {
    hide Broken, BrokeOne, BrokeList, WriterInv, Broke, TailInv, Can, System.Do, Tidy, Unfollowed, Tears;
    var w, r := Actor(s, a), System.Do(s, a);
    ActorMine(s, a);
    OneActor(s, a);
    ActorKeeps(s, a);
    assert Kept(s, a);
    TornStep(s, a);
    LocalFrame(s, a);
    WritersSet(s, r, w);
    BrokeSet(s.writers, w, r.writers[w], Tears(s, a));
    BrokenParts(s);
    BrokenParts(r);
    SameLists(s, r);
  }

  lemma ActorMine(s: Sys, a: System.Step)
    requires Can(s, a) && IsLocal(a)
    ensures Actor(s, a) < |s.writers|
  {
  }

  lemma SameLists(s: Sys, r: Sys)
    requires r.sink == s.sink && r.batch == s.batch && r.ready == s.ready && r.phase.Freeing? == s.phase.Freeing?
    ensures ListInv(r) == ListInv(s) && BrokeList(r) == BrokeList(s)
  {
  }

  lemma NothingUnfollowed()
    ensures Tidy([]) && !Unfollowed([], false)
  {
  }

  /** A hand-over empties a writer whose record is finished. */
  lemma EmptyKeeps(x: Writer, y: Writer, v: nat)
    requires WriterInv(x, v) && x.Unlocked() && y.Unlocked() && y.Held() == []
    ensures WriterInv(y, v) && !Broke(y) && Tidy(x.Held()) && (Broke(x) <==> Unfollowed(x.Held(), false))
  {
  }

  lemma BrokeGone(ws: seq<Writer>, w: nat, y: Writer)
    requires w < |ws| && !Broke(y)
    ensures BrokeOne(ws) <==> BrokeOne(ws[w := y]) || Broke(ws[w])
  {
    hide Broke;
    var us := ws[w := y];
    forall v: nat | v < |ws| && v != w ensures us[v] == ws[v] {
    }
  }

  lemma HandsOverKeeps(s: Sys, a: System.Step)
    requires Inv(s) && Can(s, a) && HandsOver(a)
    ensures Inv(System.Do(s, a))
  {
    hide Broken, BrokeOne, WriterInv, Broke, Tidy, Unfollowed, QueueInRange;
    var w, r := Actor(s, a), System.Do(s, a);
    var x := s.writers[w];
    EmptyKeeps(x, r.writers[w], w);
    WritersSet(s, r, w);
    BrokeGone(s.writers, w, r.writers[w]);
    BrokenParts(s);
    BrokenParts(r);
    UnfollowedJoin(if a.Die? then s.ready else s.batch, x.Held());
  }

  lemma ListsKeep(s: Sys, a: System.Step)
    requires Inv(s) && Phased(s) && Can(s, a) && MovesLists(a)
    ensures Inv(System.Do(s, a))
  {
    hide Broken, BrokeOne, WriterInv, Broke, Tidy, Unfollowed, QueueInRange, RecycleAll;
    BrokenParts(s);
    BrokenParts(System.Do(s, a));
    NothingUnfollowed();
    UnfollowedJoin(s.batch, s.ready);
    UnfollowedJoin(s.sink, s.batch);
  }

  lemma JoinKeeps(s: Sys)
    requires Inv(s) && Can(s, Join)
    ensures Inv(System.Do(s, Join))
  {
    hide Broken, WriterInv, Broke, Tidy, Unfollowed, QueueInRange;
    var r := System.Do(s, Join);
    var y := Writer(Idle, [], None, [], 0);
    NewcomerInv(|s.writers|);
    BrokenParts(s);
    BrokenParts(r);
    assert forall v: nat :: v < |s.writers| ==> r.writers[v] == s.writers[v];
  }

  lemma NewcomerInv(v: nat)
    ensures WriterInv(Writer(Idle, [], None, [], 0), v) && !Broke(Writer(Idle, [], None, [], 0))
  {
  }

  lemma OthersKeep(s: Sys, a: System.Step)
    requires Inv(s) && Can(s, a) && !IsLocal(a) && !HandsOver(a) && !MovesLists(a) && !a.Join?
    ensures Inv(System.Do(s, a))
  {
    hide Broken, BrokeOne, BrokeList, WriterInv, Broke, Tidy, Unfollowed, Can, System.Do;
    var r := System.Do(s, a);
    ListsSame(s, a);
    OneActor(s, a);
    TornSame(s, a);
    SameLists(s, r);
    BrokenParts(s);
    BrokenParts(r);
  }

  lemma TornSame(s: Sys, a: System.Step)
    requires Can(s, a) && !IsLocal(a)
    ensures System.Do(s, a).torn == s.torn && (!HandsOver(a) ==> Actor(s, a) == |s.writers|)
  {
    hide RecycleAll, Pool.Do, QueueInRange, AllDescs;
  }

  lemma StepKeeps(s: Sys, a: System.Step)
    requires Inv(s) && Tails(s) && Phased(s) && Can(s, a)
    ensures Inv(System.Do(s, a))
  {
    hide Inv, Tails, Phased, Can, System.Do;
    if IsLocal(a) {
      LocalKeeps(s, a);
    } else if HandsOver(a) {
      HandsOverKeeps(s, a);
    } else if MovesLists(a) {
      ListsKeep(s, a);
    } else if a.Join? {
      JoinKeeps(s);
    } else {
      OthersKeep(s, a);
    }
  }

  lemma {:induction false} RunKeeps(s: Sys, steps: seq<System.Step>, r: Sys)
    requires Inv(s) && Tails(s) && Phased(s) && System.Run(s, steps, r)
    ensures Inv(r) && Tails(r) && Phased(r)
    decreases |steps|
  {
    hide Inv, Tails, Phased, Can, System.Do;
    if steps != [] {
      StepKeeps(s, steps[0]);
      TailsKeep(s, steps[0]);
      PhasedKeep(s, steps[0]);
      RunKeeps(System.Do(s, steps[0]), steps[1..], r);
    }
  }

  lemma StartInv(pool: State)
    ensures Inv(Start(pool)) && Tails(Start(pool)) && Phased(Start(pool))
  {
  }

  // ------------------------------------------------------- what it means

  /** In every run: some discarded record had begun in a continuation if and only
      if somewhere, at the sink, in the worker's batch, on the ready queue or
      among a writer's finished buffers, a FRAGMENT buffer is not followed by its
      continuation. */
  lemma TornIff(pool: State, steps: seq<System.Step>, s: Sys)
    requires System.Run(Start(pool), steps, s)
    ensures s.torn <==> Broken(s)
  {
    hide Broken, ListInv, WritersInv, Tails, Phased;
    StartInv(pool);
    RunKeeps(Start(pool), steps, s);
  }

  /** A continuation at the sink always follows a flagged buffer of its writer and
      begins with a share of the record that has the last share of that buffer; a
      flagged buffer is followed by its continuation in every run in which no
      discarded record began in a continuation. */
  lemma SinkChains(pool: State, steps: seq<System.Step>, s: Sys, i: nat)
    requires System.Run(Start(pool), steps, s) && i < |s.sink|
    ensures s.sink[i].cont ==> i > 0 && s.sink[i - 1].frag && s.sink[i - 1].owner == s.sink[i].owner
    ensures s.sink[i].cont ==>
              s.sink[i - 1].data != [] && s.sink[i].data != []
              && s.sink[i].data[0] == s.sink[i - 1].data[|s.sink[i - 1].data| - 1]
    ensures s.sink[i].frag && !s.torn ==>
              i + 1 < |s.sink| && s.sink[i + 1].cont && s.sink[i + 1].owner == s.sink[i].owner
  {
    hide WritersInv, Tails, Phased, Broke;
    StartInv(pool);
    RunKeeps(Start(pool), steps, s);
    assert s.sink[i].frag && !s.torn ==> !Loose(s.sink, i, false);
  }

  /** The same on the way to the sink: in the worker's batch, on the ready queue
      and in each writer's hands, every continuation goes on where the buffer in
      front of it leaves off. */
  lemma SharesMeet(pool: State, steps: seq<System.Step>, s: Sys, bs: seq<Filled>, i: nat)
    requires System.Run(Start(pool), steps, s) && i < |bs| && bs[i].cont
    requires bs == s.sink || bs == s.batch || bs == s.ready
             || exists v: nat :: v < |s.writers| && bs == s.writers[v].Held()
    ensures i > 0 && bs[i - 1].frag && bs[i - 1].owner == bs[i].owner && bs[i - 1].data != [] && bs[i].data != []
    ensures bs[i].data[0] == bs[i - 1].data[|bs[i - 1].data| - 1]
  {
    hide Tails, Phased, Broke, Broken, OwnedBy, Unfollowed;
    StartInv(pool);
    RunKeeps(Start(pool), steps, s);
    assert Tidy(bs);
  }

  // ------------------------------------------------------- one discarded record

  /** Steps that open a record of writer w. */
  predicate Opens(a: System.Step, w: nat) { (a.Begin? || a.Relock?) && a.w == w }

  /** While writer w is inside a record, it is the one opened at mark. */
  ghost predicate Same(s: Sys, w: nat, mark: nat, clean: bool) {
    Mine(s, w)
    && (s.writers[w].stage.Writing? || s.writers[w].stage.Undoing? ==>
          s.writers[w].stage.mark == mark && s.writers[w].stage.clean == clean)
  }

  lemma SameStep(s: Sys, a: System.Step, w: nat, mark: nat, clean: bool)
    requires Same(s, w, mark, clean) && Can(s, a) && !Opens(a, w)
    ensures Same(System.Do(s, a), w, mark, clean)
  {
    hide Can, System.Do;
    OneActor(s, a);
    if Actor(s, a) == w {
      SameActor(s, a, mark, clean);
    }
  }

  lemma SameActor(s: Sys, a: System.Step, mark: nat, clean: bool)
    requires Actor(s, a) < |s.writers| && Same(s, Actor(s, a), mark, clean) && Can(s, a) && !Opens(a, Actor(s, a))
    ensures Same(System.Do(s, a), Actor(s, a), mark, clean)
  {
    hide QueueInRange, Take, Park, Recycle, Pool.Do, Enabled;
  }

  lemma {:induction false} SameRun(s: Sys, steps: seq<System.Step>, r: Sys, w: nat, mark: nat, clean: bool)
    requires Same(s, w, mark, clean) && System.Run(s, steps, r)
    requires forall i :: 0 <= i < |steps| ==> !Opens(steps[i], w)
    ensures Same(r, w, mark, clean)
    decreases |steps|
  {
    hide Same, Can, System.Do;
    if steps != [] {
      SameStep(s, steps[0], w, mark, clean);
      SameRun(System.Do(s, steps[0]), steps[1..], r, w, mark, clean);
    }
  }

  /** Step a of writer w leaves it inside a record, opened in its tail. */
  ghost predicate Opened(s: Sys, a: System.Step, w: nat) {
    Can(s, a) && Opens(a, w) && Mine(System.Do(s, a), w) && System.Do(s, a).writers[w].stage.Writing?
  }

  lemma OpenedAt(s: Sys, a: System.Step, w: nat)
    requires Opened(s, a, w)
    ensures Can(s, a) && w < |System.Do(s, a).writers|
    ensures var x := System.Do(s, a).writers[w];
      x.tail.Some? && Same(System.Do(s, a), w, |x.frags|, !x.tail.value.cont)
  {
    hide QueueInRange;
  }

  lemma DiscardEnds(s: Sys, w: nat, mark: nat, clean: bool)
    requires Inv(s) && Can(s, Undo(w)) && |s.writers[w].frags| == s.writers[w].stage.mark
    requires Same(s, w, mark, clean)
    ensures var x, r := s.writers[w], System.Do(s, Undo(w));
      Mine(r, w) && (Broke(r.writers[w]) <==> Unfollowed(r.writers[w].Held(), false))
      && (Broke(r.writers[w]) <==> Broke(x) || !clean) && (r.torn <==> s.torn || !clean)
  {
    hide WriterInv, Unfollowed, QueueInRange, BrokeList;
    assert WriterInv(s.writers[w], w);
    UndoKeeps(s, w);
  }

  /** The record that step a opens is discarded later, in any run, whatever broke
      in it before: among the buffers its writer then keeps, a flagged one misses
      its continuation if and only if one did already or the buffer in which the
      record was opened was itself a continuation. */
  lemma DiscardBreaksIff(pool: State, before: seq<System.Step>, m: Sys, a: System.Step, after: seq<System.Step>,
                         s: Sys, w: nat)
    requires System.Run(Start(pool), before, m) && Opened(m, a, w) && System.Run(System.Do(m, a), after, s)
    requires forall i :: 0 <= i < |after| ==> !Opens(after[i], w)
    requires Can(s, Undo(w)) && |s.writers[w].frags| == s.writers[w].stage.mark
    ensures System.Do(m, a).writers[w].tail.Some?
    ensures Unfollowed(System.Do(s, Undo(w)).writers[w].Held(), false)
            <==> Broke(s.writers[w]) || System.Do(m, a).writers[w].tail.value.cont
    ensures System.Do(s, Undo(w)).torn <==> s.torn || System.Do(m, a).writers[w].tail.value.cont
  {
    hide *;
    OpenedAt(m, a, w);
    StartInv(pool);
    RunKeeps(Start(pool), before, m);
    StepKeeps(m, a);
    TailsKeep(m, a);
    PhasedKeep(m, a);
    var o := System.Do(m, a);
    RunKeeps(o, after, s);
    var x := o.writers[w];
    SameRun(o, after, s, w, |x.frags|, !x.tail.value.cont);
    DiscardEnds(s, w, |x.frags|, !x.tail.value.cont);
  }
}
