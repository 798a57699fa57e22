/** Runs that show why the conditions in Chains and Descriptors are needed. */
module Counterexamples {
  import opened Records
  import opened Pool
  import opened System

  lemma {:induction false} Extend(s0: Sys, steps: seq<System.Step>, s: Sys, a: System.Step, r: Sys)
    returns (more: seq<System.Step>)
    requires System.Run(s0, steps, s) && Can(s, a) && System.Do(s, a) == r
    ensures System.Run(s0, more, r)
    decreases |steps|
  {
    hide Can, System.Do;
    more := steps + [a];
    if steps == [] {
      assert more[0] == a && more[1..] == [];
    } else {
      var m := Extend(System.Do(s0, steps[0]), steps[1..], s, a, r);
      more := [steps[0]] + m;
      assert more[0] == steps[0] && more[1..] == m;
    }
  }

  lemma Nothing(s: Sys)
    ensures System.Run(s, [], s)
  {
  }

  /** A pool whose n buffers are all in use. */
  function Spent(n: nat, room: nat): State
    requires n <= 2
  {
    var all: seq<Ptr> := if n == 0 then [] else if n == 1 then [1] else [1, 2];
    State(all, [], [], [], false, 0, 0, room, [], multiset(all))
  }

  /** Two buffers, of which the second has come back. */
  function Returned(): State { Spent(2, 0).(free := [2], out := multiset{1}) }

  lemma TakeFirst()
    ensures CanTake(Empty(2), true) && Take(Empty(2), true) == (Spent(1, 1), 1)
  {
    assert [] + [1] == [1] && ([] + [1])[1..] == [] && multiset{} + multiset{1} == multiset([1]);
  }

  lemma TakeSecond()
    ensures CanTake(Spent(1, 1), true) && Take(Spent(1, 1), true) == (Spent(2, 0), 2)
  {
    assert [1] + [2] == [1, 2] && ([] + [2])[1..] == [] && multiset([1]) + multiset{2} == multiset([1, 2]);
  }

  const P := Piece(0, 0)
  const Q := Piece(1, 0)
  const A0 := Filled(1, 0, false, false, [])
  const A1 := A0.(data := [P])
  const A2 := A1.(frag := true)
  const B1 := Filled(2, 0, false, true, [P])
  const B2 := B1.(data := [P, Q])
  const B3 := B2.(frag := true)
  const C0 := Filled(2, 0, false, false, [])
  const C1 := C0.(data := [P])
  const NEWCOMER := Writer(Idle, [], None, [], 0)
  const LEFT := Writer(Idle, [A2], None, [P], 1)

  /** One writer whose descriptor was dropped. */
  function Solo(x: Writer, pool: State): Sys {
    Start(pool).(writers := [x], descs := 1, lost := {0})
  }

  /** The same after it has discarded its second record, while the worker drains. */
  function Torn(x: Writer, phase: Phase): Sys {
    Solo(x, Returned()).(torn := true, seen := 1, phase := phase)
  }

  /** One writer whose descriptor waits in buffer 1 while the worker drains. */
  function Late(x: Writer, pool: State, phase: Phase): Sys {
    Start(pool).(writers := [x], descs := 1, svc := [SvcBuf(1, [0])], phase := phase)
  }

  /** A writer joins and its descriptor finds no room. */
  lemma FirstBuffer() returns (more: seq<System.Step>, r: Sys)
    ensures r == Solo(NEWCOMER, Spent(0, 2))
    ensures System.Run(Start(Empty(2)), more, r)
  {
    hide System.Run, Take, Park, Recycle, RecycleAll, Pool.Do;
    var s0 := Start(Empty(2));
    Nothing(s0);
    more, r := [], s0;
    var s1 := Start(Empty(2)).(writers := [NEWCOMER]);
    more := Extend(s0, more, r, Join, s1);
    r := s1;
    var s2 := Solo(NEWCOMER, Spent(0, 2));
    more := Extend(s0, more, r, Register(true, false), s2);
    r := s2;
  }

  /** The writer gets buffer 1. */
  lemma GetBuffer(steps: seq<System.Step>) returns (more: seq<System.Step>, r: Sys)
    requires System.Run(Start(Empty(2)), steps, Solo(NEWCOMER, Spent(0, 2)))
    ensures r == Solo(NEWCOMER.(stage := Landed(1)), Spent(1, 1))
    ensures System.Run(Start(Empty(2)), more, r)
  {
    hide System.Run, Take, Park, Recycle, RecycleAll, Pool.Do;
    var s0 := Start(Empty(2));
    more, r := steps, Solo(NEWCOMER, Spent(0, 2));
    var s1 := Solo(NEWCOMER.(stage := Asking), Spent(0, 2));
    more := Extend(s0, more, r, Begin(0, false), s1);
    r := s1;
    var s2 := Solo(NEWCOMER.(stage := Landed(1)), Spent(1, 1));
    TakeFirst();
    more := Extend(s0, more, r, Ask(0, true), s2);
    r := s2;
  }

  /** It begins its first record. */
  lemma StartRecord(steps: seq<System.Step>) returns (more: seq<System.Step>, r: Sys)
    requires System.Run(Start(Empty(2)), steps, Solo(NEWCOMER.(stage := Landed(1)), Spent(1, 1)))
    ensures r == Solo(Writer(Writing(0, true, Some(P)), [], Some(A1), [P], 0), Spent(1, 1))
    ensures System.Run(Start(Empty(2)), more, r)
  {
    hide System.Run, Take, Park, Recycle, RecycleAll, Pool.Do;
    var s0 := Start(Empty(2));
    more, r := steps, Solo(NEWCOMER.(stage := Landed(1)), Spent(1, 1));
    var s1 := Solo(Writer(Writing(0, true, None), [], Some(A0), [], 0), Spent(1, 1));
    more := Extend(s0, more, r, Relock(0), s1);
    r := s1;
    var s2 := Solo(Writer(Writing(0, true, Some(P)), [], Some(A1), [P], 0), Spent(1, 1));
    assert A0.data + [P] == [P] && [] + [P] == [P];
    more := Extend(s0, more, r, Head(0, P), s2);
    r := s2;
  }

  /** The record goes on in buffer 2. */
  lemma SplitRecord(steps: seq<System.Step>) returns (more: seq<System.Step>, r: Sys)
    requires System.Run(Start(Empty(2)), steps,
                        Solo(Writer(Writing(0, true, Some(P)), [], Some(A1), [P], 0), Spent(1, 1)))
    ensures r == Solo(Writer(Writing(0, true, Some(P)), [A2], Some(B1), [P, P], 0), Spent(2, 0))
    ensures System.Run(Start(Empty(2)), more, r)
  {
    hide System.Run, Take, Park, Recycle, RecycleAll, Pool.Do;
    var s0 := Start(Empty(2));
    more, r := steps, Solo(Writer(Writing(0, true, Some(P)), [], Some(A1), [P], 0), Spent(1, 1));
    var s1 := Solo(Writer(Writing(0, true, Some(P)), [A2], Some(B1), [P, P], 0), Spent(2, 0));
    assert [] + [A2] == [A2] && [P] + [P] == [P, P] && B1.(data := []).data + [P] == [P];
    TakeSecond();
    more := Extend(s0, more, r, Rotate(0, true), s1);
    r := s1;
  }

  /** And ends there. */
  lemma CommitFirst(steps: seq<System.Step>) returns (more: seq<System.Step>, r: Sys)
    requires System.Run(Start(Empty(2)), steps,
                        Solo(Writer(Writing(0, true, Some(P)), [A2], Some(B1), [P, P], 0), Spent(2, 0)))
    ensures r == Solo(Writer(Idle, [A2], Some(B1), [P, P], 0), Spent(2, 0))
    ensures System.Run(Start(Empty(2)), more, r)
  {
    hide System.Run, Take, Park, Recycle, RecycleAll, Pool.Do;
    var s0 := Start(Empty(2));
    more, r := steps, Solo(Writer(Writing(0, true, Some(P)), [A2], Some(B1), [P, P], 0), Spent(2, 0));
    var s1 := Solo(Writer(Idle, [A2], Some(B1), [P, P], 0), Spent(2, 0));
    more := Extend(s0, more, r, Commit(0, false), s1);
    r := s1;
  }

  /** The next record begins in that continuation. */
  lemma NextRecord(steps: seq<System.Step>) returns (more: seq<System.Step>, r: Sys)
    requires System.Run(Start(Empty(2)), steps, Solo(Writer(Idle, [A2], Some(B1), [P, P], 0), Spent(2, 0)))
    ensures r == Solo(Writer(Writing(1, false, Some(Q)), [A2], Some(B2), [P, P, Q], 0), Spent(2, 0))
    ensures System.Run(Start(Empty(2)), more, r)
  {
    hide System.Run, Take, Park, Recycle, RecycleAll, Pool.Do;
    var s0 := Start(Empty(2));
    more, r := steps, Solo(Writer(Idle, [A2], Some(B1), [P, P], 0), Spent(2, 0));
    var s1 := Solo(Writer(Writing(1, false, None), [A2], Some(B1), [P, P], 0), Spent(2, 0));
    more := Extend(s0, more, r, Begin(0, true), s1);
    r := s1;
    var s2 := Solo(Writer(Writing(1, false, Some(Q)), [A2], Some(B2), [P, P, Q], 0), Spent(2, 0));
    assert [P] + [Q] == [P, Q] && [P, P] + [Q] == [P, P, Q];
    more := Extend(s0, more, r, Head(0, Q), s2);
    r := s2;
  }

  /** It finds no third buffer, and the continuation goes back to the pool. */
  lemma DoomedRecord(steps: seq<System.Step>) returns (more: seq<System.Step>, r: Sys)
    requires System.Run(Start(Empty(2)), steps,
                        Solo(Writer(Writing(1, false, Some(Q)), [A2], Some(B2), [P, P, Q], 0), Spent(2, 0)))
    ensures r == Solo(Writer(Undoing(1, false), [A2], None, [P], 0), Returned())
    ensures System.Run(Start(Empty(2)), more, r)
  {
    hide System.Run;
    var s0 := Start(Empty(2));
    more, r := steps, Solo(Writer(Writing(1, false, Some(Q)), [A2], Some(B2), [P, P, Q], 0), Spent(2, 0));
    var s1 := Solo(Writer(Undoing(1, false), [A2, B3], None, [P, P, Q], 0), Spent(2, 0));
    assert [A2] + [B3] == [A2, B3];
    more := Extend(s0, more, r, Rotate(0, false), s1);
    r := s1;
    var s2 := Solo(Writer(Undoing(1, false), [A2], None, [P], 0), Returned());
    assert [A2, B3][..1] == [A2] && [P, P, Q][..1] == [P];
    assert [] + [2] == [2] && multiset([1, 2]) - multiset{2} == multiset{1};
    more := Extend(s0, more, r, Undo(0), s2);
    r := s2;
  }

  /** The record is gone, and with it the end of the first one; the worker wakes. */
  lemma DiscardTail(steps: seq<System.Step>) returns (more: seq<System.Step>, r: Sys)
    requires System.Run(Start(Empty(2)), steps, Solo(Writer(Undoing(1, false), [A2], None, [P], 0), Returned()))
    ensures r == Torn(LEFT, HasSvc)
    ensures System.Run(Start(Empty(2)), more, r)
  {
    hide System.Run;
    var s0 := Start(Empty(2));
    more, r := steps, Solo(Writer(Undoing(1, false), [A2], None, [P], 0), Returned());
    var s1 := Solo(LEFT, Returned()).(torn := true);
    more := Extend(s0, more, r, Undo(0), s1);
    r := s1;
    var s2 := Torn(LEFT, HasSvc);
    more := Extend(s0, more, r, TakeSvc, s2);
    r := s2;
  }

  /** The worker begins to drain. */
  lemma TakeAll(steps: seq<System.Step>) returns (more: seq<System.Step>, r: Sys)
    requires System.Run(Start(Empty(2)), steps, Torn(LEFT, HasSvc))
    ensures r == Torn(LEFT, Pulling).(todo := [0])
    ensures System.Run(Start(Empty(2)), more, r)
  {
    hide System.Run, Take, Park, Recycle, RecycleAll, Pool.Do;
    var s0 := Start(Empty(2));
    more, r := steps, Torn(LEFT, HasSvc);
    var s1 := Torn(LEFT, FreeingSvc);
    more := Extend(s0, more, r, WriteSvc, s1);
    r := s1;
    var s2 := Torn(LEFT, Pulling).(todo := [0]);
    more := Extend(s0, more, r, TakeReady([0]), s2);
    r := s2;
  }

  /** What is left of the first record is delivered. */
  lemma DeliverRest(steps: seq<System.Step>) returns (more: seq<System.Step>, r: Sys)
    requires System.Run(Start(Empty(2)), steps, Torn(LEFT, Pulling).(todo := [0]))
    ensures r == Torn(LEFT.(frags := []), Freeing).(batch := [A2], sink := [A2])
    ensures System.Run(Start(Empty(2)), more, r)
  {
    hide System.Run, Take, Park, Recycle, RecycleAll, Pool.Do;
    var s0 := Start(Empty(2));
    more, r := steps, Torn(LEFT, Pulling).(todo := [0]);
    var s1 := Torn(LEFT.(frags := []), Pulling).(batch := [A2]);
    more := Extend(s0, more, r, PullNext, s1);
    r := s1;
    var s2 := Torn(LEFT.(frags := []), Flushing).(batch := [A2]);
    more := Extend(s0, more, r, EndDrain, s2);
    r := s2;
    var s3 := Torn(LEFT.(frags := []), Freeing).(batch := [A2], sink := [A2]);
    more := Extend(s0, more, r, WriteData, s3);
    r := s3;
  }

  /** The worker takes the empty service list. */
  lemma LookFirst() returns (more: seq<System.Step>, r: Sys)
    ensures r == Start(Empty(2)).(writers := [NEWCOMER], phase := FreeingSvc)
    ensures System.Run(Start(Empty(2)), more, r)
  {
    hide System.Run, Take, Park, Recycle, RecycleAll, Pool.Do;
    var s0 := Start(Empty(2));
    Nothing(s0);
    more, r := [], s0;
    var s1 := Start(Empty(2)).(writers := [NEWCOMER]);
    more := Extend(s0, more, r, Join, s1);
    r := s1;
    var s2 := Start(Empty(2)).(writers := [NEWCOMER], phase := HasSvc);
    more := Extend(s0, more, r, TakeSvc, s2);
    r := s2;
    var s3 := Start(Empty(2)).(writers := [NEWCOMER], phase := FreeingSvc);
    more := Extend(s0, more, r, WriteSvc, s3);
    r := s3;
  }

  /** Only now is a descriptor registered. */
  lemma RegisterLate(steps: seq<System.Step>) returns (more: seq<System.Step>, r: Sys)
    requires System.Run(Start(Empty(2)), steps, Start(Empty(2)).(writers := [NEWCOMER], phase := FreeingSvc))
    ensures r == Late(NEWCOMER, Spent(1, 1), FreeingSvc)
    ensures System.Run(Start(Empty(2)), more, r)
  {
    hide System.Run, Take, Park, Recycle, RecycleAll, Pool.Do;
    var s0 := Start(Empty(2));
    more, r := steps, Start(Empty(2)).(writers := [NEWCOMER], phase := FreeingSvc);
    var s1 := Late(NEWCOMER, Spent(1, 1), FreeingSvc);
    TakeFirst();
    assert [] + [SvcBuf(1, [0])] == [SvcBuf(1, [0])];
    more := Extend(s0, more, r, Register(true, true), s1);
    r := s1;
  }

  /** The writer asks for a buffer. */
  lemma AskLate(steps: seq<System.Step>) returns (more: seq<System.Step>, r: Sys)
    requires System.Run(Start(Empty(2)), steps, Late(NEWCOMER, Spent(1, 1), FreeingSvc))
    ensures r == Late(NEWCOMER.(stage := Asking), Spent(1, 1), FreeingSvc)
    ensures System.Run(Start(Empty(2)), more, r)
  {
    hide System.Run, Take, Park, Recycle, RecycleAll, Pool.Do;
    var s0 := Start(Empty(2));
    more, r := steps, Late(NEWCOMER, Spent(1, 1), FreeingSvc);
    var s1 := Late(NEWCOMER.(stage := Asking), Spent(1, 1), FreeingSvc);
    more := Extend(s0, more, r, Begin(0, false), s1);
    r := s1;
  }

  /** The writer gets a buffer. */
  lemma BufferLate(steps: seq<System.Step>) returns (more: seq<System.Step>, r: Sys)
    requires System.Run(Start(Empty(2)), steps, Late(NEWCOMER.(stage := Asking), Spent(1, 1), FreeingSvc))
    ensures r == Late(Writer(Writing(0, true, None), [], Some(C0), [], 0), Spent(2, 0), FreeingSvc)
    ensures System.Run(Start(Empty(2)), more, r)
  {
    hide System.Run, Take, Park, Recycle, RecycleAll, Pool.Do;
    var s0 := Start(Empty(2));
    more, r := steps, Late(NEWCOMER.(stage := Asking), Spent(1, 1), FreeingSvc);
    var s1 := Late(NEWCOMER.(stage := Landed(2)), Spent(2, 0), FreeingSvc);
    TakeSecond();
    more := Extend(s0, more, r, Ask(0, true), s1);
    r := s1;
    var s2 := Late(Writer(Writing(0, true, None), [], Some(C0), [], 0), Spent(2, 0), FreeingSvc);
    more := Extend(s0, more, r, Relock(0), s2);
    r := s2;
  }

  /** It logs a record that needs the descriptor. */
  lemma RecordLate(steps: seq<System.Step>) returns (more: seq<System.Step>, r: Sys)
    requires System.Run(Start(Empty(2)), steps,
                        Late(Writer(Writing(0, true, None), [], Some(C0), [], 0), Spent(2, 0), FreeingSvc))
    ensures r == Late(Writer(Idle, [], Some(C1), [P], 0), Spent(2, 0), FreeingSvc)
    ensures System.Run(Start(Empty(2)), more, r)
  {
    hide System.Run, Take, Park, Recycle, RecycleAll, Pool.Do;
    var s0 := Start(Empty(2));
    more, r := steps, Late(Writer(Writing(0, true, None), [], Some(C0), [], 0), Spent(2, 0), FreeingSvc);
    var s1 := Late(Writer(Writing(0, true, Some(P)), [], Some(C1), [P], 0), Spent(2, 0), FreeingSvc);
    assert C0.data + [P] == [P] && [] + [P] == [P];
    more := Extend(s0, more, r, Head(0, P), s1);
    r := s1;
    var s2 := Late(Writer(Idle, [], Some(C1), [P], 0), Spent(2, 0), FreeingSvc);
    more := Extend(s0, more, r, Commit(0, false), s2);
    r := s2;
  }

  /** The same cycle pulls and delivers it. */
  lemma PullLate(steps: seq<System.Step>) returns (more: seq<System.Step>, r: Sys)
    requires System.Run(Start(Empty(2)), steps, Late(Writer(Idle, [], Some(C1), [P], 0), Spent(2, 0), FreeingSvc))
    ensures r == Late(Writer(Idle, [], None, [P], 0), Spent(2, 0), Freeing).(batch := [C1], sink := [C1])
    ensures System.Run(Start(Empty(2)), more, r)
  {
    hide System.Run, Take, Park, Recycle, RecycleAll, Pool.Do;
    var s0 := Start(Empty(2));
    more, r := steps, Late(Writer(Idle, [], Some(C1), [P], 0), Spent(2, 0), FreeingSvc);
    var s1 := Late(Writer(Idle, [], Some(C1), [P], 0), Spent(2, 0), Pulling).(todo := [0]);
    more := Extend(s0, more, r, TakeReady([0]), s1);
    r := s1;
    var s2 := Late(Writer(Idle, [], None, [P], 0), Spent(2, 0), Pulling).(batch := [C1]);
    more := Extend(s0, more, r, PullNext, s2);
    r := s2;
    var s3 := Late(Writer(Idle, [], None, [P], 0), Spent(2, 0), Flushing).(batch := [C1]);
    more := Extend(s0, more, r, EndDrain, s3);
    r := s3;
    var s4 := Late(Writer(Idle, [], None, [P], 0), Spent(2, 0), Freeing).(batch := [C1], sink := [C1]);
    more := Extend(s0, more, r, WriteData, s4);
    r := s4;
  }

  /** Rolling back a record that began in a continuation also rolls back the end
      of the record before it: the sink is left with a FRAGMENT buffer and
      nothing after it. */
  lemma BrokenChain() returns (steps: seq<System.Step>, s: Sys)
    ensures System.Run(Start(Empty(2)), steps, s) && s.torn && |s.sink| == 1 && s.sink[0].frag
  {
    hide System.Run, Can, System.Do;
    steps, s := FirstBuffer();
    steps, s := GetBuffer(steps);
    steps, s := StartRecord(steps);
    steps, s := SplitRecord(steps);
    steps, s := CommitFirst(steps);
    steps, s := NextRecord(steps);
    steps, s := DoomedRecord(steps);
    steps, s := DiscardTail(steps);
    steps, s := TakeAll(steps);
    steps, s := DeliverRest(steps);
  }

  /** Data may be written before its descriptor, if the descriptor is registered
      after the worker has taken the service list. */
  lemma DataBeforeDescriptor() returns (steps: seq<System.Step>, s: Sys)
    ensures System.Run(Start(Empty(2)), steps, s) && |s.sink| == 1 && s.sink[0].data == [P]
    ensures P.desc !in s.svcOut && P.desc !in s.lost && P.desc in AllDescs(s.svc)
  {
    hide System.Run, Can, System.Do;
    steps, s := LookFirst();
    steps, s := RegisterLate(steps);
    steps, s := AskLate(steps);
    steps, s := BufferLate(steps);
    steps, s := RecordLate(steps);
    steps, s := PullLate(steps);
    assert s.svc[..0] == [] && AllDescs(s.svc) == AllDescs(s.svc[..0]) + [0];
  }
}
