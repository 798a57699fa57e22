/** The delivery pipeline as one concurrent system: writer threads, threads that
    register descriptors, the pool and the worker. Every lock-protected section
    is one step; steps of different threads interleave freely. */
module System {
  import opened Records
  import opened Pool

  /** One record's share of a buffer, and the descriptor a reader needs for it. */
  datatype Piece = Piece(record: nat, desc: nat)

  /** A data buffer: frag is its FRAGMENT flag, cont says that it opens with the
      rest of the record before it. */
  datatype Filled = Filled(ptr: Ptr, owner: nat, frag: bool, cont: bool, data: seq<Piece>)

  /** Where a writer's thread is. From Writing to the end of the record it holds
      the writer's lock; mark is lz_frag_commit, clean whether the buffer the
      record began in is no continuation of an earlier one. */
  datatype Stage =
    | Idle
    | Asking
    | Parked(ticket: nat)
    | Exiting(ticket: nat, got: Ptr)
    | Landed(got: Ptr)
    | Writing(mark: nat, clean: bool, piece: Option<Piece>)
    | Undoing(mark: nat, clean: bool)
    | Dead

  /** log is every piece this writer has produced and not rolled back. */
  datatype Writer = Writer(stage: Stage, frags: seq<Filled>, tail: Option<Filled>, log: seq<Piece>, drops: nat) {
    function Held(): seq<Filled> { if tail.None? then frags else frags + [tail.value] }

    predicate Unlocked() { !stage.Writing? && !stage.Undoing? }
  }

  datatype SvcBuf = SvcBuf(ptr: Ptr, descs: seq<nat>)

  datatype Phase = Rest | HasSvc | FreeingSvc | Pulling | Flushing | Freeing

  /** descs counts the descriptors registered so far, lost are those that found
      no room; seen is descs as of the worker's last look. torn records that a
      record was discarded after beginning in a continuation. */
  datatype Sys = Sys(pool: State, writers: seq<Writer>, svc: seq<SvcBuf>, ready: seq<Filled>,
                     phase: Phase, svcBatch: seq<SvcBuf>, todo: seq<nat>, batch: seq<Filled>,
                     sink: seq<Filled>, svcOut: seq<nat>, descs: nat, lost: set<nat>, seen: nat, torn: bool)

  function Start(pool: State): Sys {
    Sys(pool, [], [], [], Rest, [], [], [], [], [], 0, {}, 0, false)
  }

  datatype Step =
    | Join
    | Begin(w: nat, keep: bool)         // send is entered; keep: the tail has room
    | Ask(w: nat, alloc: bool)          // acquire_buffer(true)
    | Look(w: nat)                      // a parked thread tests its node
    | Exit(w: nat)                      // ... and leaves the pool
    | Relock(w: nat)
    | Abandon(w: nat)                   // no descriptor
    | Head(w: nat, piece: Piece)        // the item header goes in
    | Rotate(w: nat, alloc: bool)       // rotate_fragment_buffer
    | Commit(w: nat, full: bool)
    | Undo(w: nat)                      // one release of lbl_discard, or its end
    | Die(w: nat)                       // core_push
    | Register(own: bool, alloc: bool)  // a descriptor is serialized; own: it needs a new buffer
    | Rouse(t: nat)
    | Stop
    | OtherBudget(room: nat)
    | TakeSvc
    | WriteSvc
    | FreeSvc
    | TakeReady(todo: seq<nat>)
    | PullNext
    | EndDrain
    | WriteData
    | FreeData

  predicate Mine(s: Sys, w: nat) { w < |s.writers| }

  ghost predicate Can(s: Sys, a: Step) {
    QueueInRange(s.pool)
    && match a
       case Join => true
       case Begin(w, keep) => Mine(s, w) && s.writers[w].stage.Idle? && (keep ==> s.writers[w].tail.Some?)
       case Ask(w, alloc) => Mine(s, w) && s.writers[w].stage.Asking?
       case Look(w) =>
         Mine(s, w) && s.writers[w].stage.Parked? && Enabled(s.pool, Check(s.writers[w].stage.ticket))
       case Exit(w) =>
         Mine(s, w) && s.writers[w].stage.Exiting? && Enabled(s.pool, Leave(s.writers[w].stage.ticket))
       case Relock(w) => Mine(s, w) && s.writers[w].stage.Landed?
       case Abandon(w) => Mine(s, w) && s.writers[w].stage.Writing? && s.writers[w].stage.piece.None?
       case Head(w, piece) =>
         Mine(s, w) && s.writers[w].stage.Writing? && s.writers[w].stage.piece.None? && s.writers[w].tail.Some?
         && piece.desc < s.descs
       case Rotate(w, alloc) =>
         Mine(s, w) && s.writers[w].stage.Writing? && s.writers[w].stage.piece.Some? && s.writers[w].tail.Some?
       case Commit(w, full) =>
         Mine(s, w) && s.writers[w].stage.Writing? && s.writers[w].stage.piece.Some? && s.writers[w].tail.Some?
       case Undo(w) => Mine(s, w) && s.writers[w].stage.Undoing?
       case Die(w) => Mine(s, w) && s.writers[w].stage.Idle?
       case Register(own, alloc) => s.svc == [] ==> own
       case Rouse(t) => Enabled(s.pool, Pool.Rouse(t))
       case Stop => true
       case OtherBudget(room) => true
       case TakeSvc => s.phase.Rest?
       case WriteSvc => s.phase.HasSvc?
       case FreeSvc => s.phase.FreeingSvc?
       case TakeReady(todo) => s.phase.FreeingSvc? && s.svcBatch == [] && forall w <- todo :: Mine(s, w)
       case PullNext => s.phase.Pulling? && s.todo != [] && Mine(s, s.todo[0]) && s.writers[s.todo[0]].Unlocked()
       case EndDrain => s.phase.Pulling? && s.todo == []
       case WriteData => s.phase.Flushing?
       case FreeData => s.phase.Freeing?
  }

  function Set(s: Sys, w: nat, x: Writer): Sys
    requires Mine(s, w)
  {
    s.(writers := s.writers[w := x])
  }

  /** The record under way starts in the tail as it stands. */
  function Open(x: Writer): Writer
    requires x.tail.Some?
  {
    x.(stage := Writing(|x.frags|, !x.tail.value.cont, None))
  }

  function Close(x: Writer): Writer
    requires x.tail.Some?
  {
    x.(frags := x.frags + [x.tail.value], tail := None)
  }

  function Append(x: Writer, p: Piece): Writer
    requires x.tail.Some?
  {
    x.(tail := Some(x.tail.value.(data := x.tail.value.data + [p])), log := x.log + [p])
  }

  function Asked(s: Sys, w: nat, alloc: bool): Sys
    requires Mine(s, w) && QueueInRange(s.pool)
  {
    var x := s.writers[w];
    if CanTake(s.pool, alloc) then
      Set(s, w, x.(stage := Landed(Take(s.pool, alloc).1))).(pool := Take(s.pool, alloc).0)
    else if s.pool.stopping then Set(s, w, x.(stage := Idle, drops := x.drops + 1))
    else Set(s, w, x.(stage := Parked(|s.pool.waiters|))).(pool := Park(s.pool))
  }

  ghost function Looked(s: Sys, w: nat): Sys
    requires Mine(s, w) && s.writers[w].stage.Parked? && Enabled(s.pool, Check(s.writers[w].stage.ticket))
  {
    var x := s.writers[w];
    var n := s.pool.waiters[x.stage.ticket];
    (if n.done then Set(s, w, x.(stage := Exiting(x.stage.ticket, n.buf))) else s).(
      pool := Pool.Do(s.pool, Check(x.stage.ticket)))
  }

  ghost function Exited(s: Sys, w: nat): Sys
    requires Mine(s, w) && s.writers[w].stage.Exiting? && Enabled(s.pool, Leave(s.writers[w].stage.ticket))
  {
    var x := s.writers[w];
    Set(s, w, x.(stage := Landed(x.stage.got))).(pool := Pool.Do(s.pool, Leave(x.stage.ticket)))
  }

  function Relocked(s: Sys, w: nat): Sys
    requires Mine(s, w) && s.writers[w].stage.Landed?
  {
    var x := s.writers[w];
    if x.stage.got == NULL then Set(s, w, x.(stage := Idle, drops := x.drops + 1))
    else Set(s, w, Open(x.(tail := Some(Filled(x.stage.got, w, false, false, [])))))
  }

  /** The tail is flagged and closed; without a new buffer the record is undone. */
  function Rotated(s: Sys, w: nat, alloc: bool): Sys
    requires Mine(s, w) && QueueInRange(s.pool)
    requires s.writers[w].stage.Writing? && s.writers[w].stage.piece.Some? && s.writers[w].tail.Some?
  {
    var x := s.writers[w];
    var y := Close(x.(tail := Some(x.tail.value.(frag := true))));
    if CanTake(s.pool, alloc) then
      var b := Take(s.pool, alloc).1;
      var z := Append(y.(tail := Some(Filled(b, w, false, true, []))), x.stage.piece.value);
      Set(s, w, z).(pool := Take(s.pool, alloc).0)
    else
      Set(s, w, y.(stage := Undoing(x.stage.mark, x.stage.clean)))
  }

  /** Releases the newest buffer of the discarded record, or finishes. */
  function Undone(s: Sys, w: nat): Sys
    requires Mine(s, w) && QueueInRange(s.pool) && s.writers[w].stage.Undoing?
  {
    var x := s.writers[w];
    if |x.frags| > x.stage.mark then
      var n := |x.frags| - 1;
      var b := x.frags[n];
      var log := if |b.data| <= |x.log| then x.log[..|x.log| - |b.data|] else [];
      Set(s, w, x.(frags := x.frags[..n], log := log)).(pool := Recycle(s.pool, b.ptr))
    else
      Set(s, w, x.(stage := Idle, drops := x.drops + 1)).(torn := s.torn || !x.stage.clean)
  }

  /** A new descriptor joins the last service buffer or a buffer of its own. */
  function Enrolled(s: Sys, own: bool, alloc: bool): Sys
    requires QueueInRange(s.pool) && (s.svc == [] ==> own)
  {
    var d := s.descs;
    var t := s.(descs := d + 1);
    if !own then
      var n := |s.svc| - 1;
      t.(svc := s.svc[n := s.svc[n].(descs := s.svc[n].descs + [d])])
    else if CanTake(s.pool, alloc) then
      t.(svc := s.svc + [SvcBuf(Take(s.pool, alloc).1, [d])], pool := Take(s.pool, alloc).0)
    else t.(lost := s.lost + {d})
  }

  function Pulled(s: Sys): Sys
    requires s.todo != [] && Mine(s, s.todo[0])
  {
    var w := s.todo[0];
    var x := s.writers[w];
    Set(s, w, x.(frags := [], tail := None)).(batch := s.batch + x.Held(), todo := s.todo[1..])
  }

  function AllDescs(bs: seq<SvcBuf>): seq<nat> {
    if bs == [] then [] else AllDescs(bs[..|bs| - 1]) + bs[|bs| - 1].descs
  }

  function Ptrs(bs: seq<Filled>): (r: seq<Ptr>)
    ensures |r| == |bs| && forall i :: 0 <= i < |bs| ==> r[i] == bs[i].ptr
  {
    seq(|bs|, i requires 0 <= i < |bs| => bs[i].ptr)
  }

  ghost function Do(s: Sys, a: Step): Sys
    requires Can(s, a)
  {
    match a
    case Join => s.(writers := s.writers + [Writer(Idle, [], None, [], 0)])
    case Begin(w, keep) =>
      var x := s.writers[w];
      if keep then Set(s, w, Open(x))
      else Set(s, w, (if x.tail.Some? then Close(x) else x).(stage := Asking))
    case Ask(w, alloc) => Asked(s, w, alloc)
    case Look(w) => Looked(s, w)
    case Exit(w) => Exited(s, w)
    case Relock(w) => Relocked(s, w)
    case Abandon(w) => Set(s, w, s.writers[w].(stage := Idle))
    case Head(w, p) =>
      var x := Append(s.writers[w], p);
      Set(s, w, x.(stage := x.stage.(piece := Some(p))))
    case Rotate(w, alloc) => Rotated(s, w, alloc)
    case Commit(w, full) => Set(s, w, (if full then Close(s.writers[w]) else s.writers[w]).(stage := Idle))
    case Undo(w) => Undone(s, w)
    case Die(w) =>
      var x := s.writers[w];
      Set(s, w, x.(stage := Dead, frags := [], tail := None)).(ready := s.ready + x.Held())
    case Register(own, alloc) => Enrolled(s, own, alloc)
    case Rouse(t) => s.(pool := Pool.Do(s.pool, Pool.Rouse(t)))
    case Stop => s.(pool := Pool.Stop(s.pool))
    case OtherBudget(room) => s.(pool := s.pool.(room := room))
    case TakeSvc => s.(svcBatch := s.svc, svc := [], seen := s.descs, phase := HasSvc)
    case WriteSvc => s.(svcOut := s.svcOut + AllDescs(s.svcBatch), phase := FreeingSvc)
    case FreeSvc =>
      if s.svcBatch == [] then s
      else s.(pool := Recycle(s.pool, s.svcBatch[0].ptr), svcBatch := s.svcBatch[1..])
    case TakeReady(todo) => s.(batch := s.batch + s.ready, ready := [], todo := todo, phase := Pulling)
    case PullNext => Pulled(s)
    case EndDrain => s.(phase := Flushing)
    case WriteData => s.(sink := s.sink + s.batch, phase := Freeing)
    case FreeData => s.(pool := RecycleAll(s.pool, Ptrs(s.batch)), batch := [], phase := Rest)
  }

  ghost predicate Run(s: Sys, steps: seq<Step>, r: Sys)
    decreases |steps|
  {
    if steps == [] then r == s else Can(s, steps[0]) && Run(Do(s, steps[0]), steps[1..], r)
  }

  /** Steps of a writer's own thread that hand nothing over. */
  predicate IsLocal(a: Step) {
    a.Begin? || a.Ask? || a.Look? || a.Exit? || a.Relock? || a.Abandon? || a.Head? || a.Rotate? || a.Commit? || a.Undo?
  }

  /** Local steps that neither ask the pool nor give it a buffer. */
  predicate Edits(a: Step) { a.Begin? || a.Head? || a.Commit? || a.Abandon? }

  /** They touch nothing but the pool and the writer. */
  lemma LocalFrame(s: Sys, a: Step)
    requires Can(s, a) && IsLocal(a)
    ensures var r := Do(s, a); r == s.(pool := r.pool, writers := r.writers, torn := r.torn) && (s.torn ==> r.torn)
  {
    hide QueueInRange, Enabled, Take, Park, Recycle, Pool.Do, Append, Close, Open;
  }
}
