/** Committing, queueing and materializing outputs by any number of workers, and the output vector
    of a whole parallel run. */
module StmPipeline {
  import opened Common
  import opened StmTypes
  import opened StmCache
  import opened StmMachine
  import opened StmSerial
  import opened StmSequential

  /** Where a worker is in its loop. `last` marks the drain made after seeing that all is done. */
  datatype Worker =
    | Looping
    | Coordinating
    | Draining(last: bool)
    | Materializing(idx: nat, last: bool)
    | Working
    | Exited

  /** `pending` is a committed transaction whose deferred enqueue has not happened yet; `written`
      counts the writes to each slot of the final results. */
  datatype Pipe = Pipe(
    core: State,
    workers: seq<Worker>,
    pending: Option<nat>,
    queue: seq<nat>,
    charges: seq<Charge>,
    halted: bool,
    failed: bool,
    results: seq<Option<Receipt>>,
    written: seq<nat>)

  datatype Move =
    | Core(a: Action)
    | Coordinate(w: nat)
    | CommitNext(w: nat, a: Action)
    | Enqueue(w: nat)
    | EndCoordinate(w: nat)
    | Drain(w: nat)
    | Pop(w: nat)
    | Materialize(w: nat)
    | DrainEmpty(w: nat)
    | DoTask(w: nat)
    | SeeDone(w: nat)
    | Fail(w: nat)

  ghost function InitPipe(b: Block, workers: nat): Pipe {
    Pipe(Init(b), seq(workers, w => Looping), None, [], [], false, false, seq(|b.txns|, i => None),
      seq(|b.txns|, i => 0))
  }

  ghost predicate Fits(b: Block, p: Pipe) {
    Sized(b, p.core) && |p.results| == |p.written| == |b.txns|
  }

  ghost predicate IsAt(p: Pipe, w: nat, x: Worker) {
    w < |p.workers| && p.workers[w] == x
  }

  ghost predicate CanMove(b: Block, p: Pipe, m: Move)
    requires Fits(b, p)
  {
    match m
    case Core(a) => !a.Commit? && !a.Recheck? && Enabled(b, p.core, a)
    case Coordinate(w) => IsAt(p, w, Looping) && Coordinating !in p.workers
    case CommitNext(w, a) =>
      IsAt(p, w, Coordinating) && !p.halted && p.pending.None? && (a.Commit? || a.Recheck?) && Enabled(b, p.core, a)
    case Enqueue(w) => IsAt(p, w, Coordinating) && p.pending.Some?
    case EndCoordinate(w) => IsAt(p, w, Coordinating) && p.pending.None?
    case Drain(w) => IsAt(p, w, Looping)
    case Pop(w) => w < |p.workers| && p.workers[w].Draining? && p.queue != []
    case Materialize(w) => w < |p.workers| && p.workers[w].Materializing? && CanReceipt(b, p.core, p.workers[w].idx)
    case DrainEmpty(w) => w < |p.workers| && p.workers[w].Draining? && p.queue == []
    case DoTask(w) => IsAt(p, w, Working)
    case SeeDone(w) => IsAt(p, w, Working) && p.halted
    case Fail(w) => w < |p.workers| && p.workers[w] != Exited
  }

  ghost predicate CanReceipt(b: Block, s: State, i: nat)
    requires Sized(b, s)
  {
    i < |b.txns| && s.records[i].Some? && Kept(s.records[i].value.outcome)
  }

  /** Materialization reads each written key just above the transaction, which resolves deltas. */
  ghost function ReceiptFrom(b: Block, s: State, i: nat): Receipt
    requires Sized(b, s) && CanReceipt(b, s, i)
  {
    var o := s.records[i].value.outcome;
    Receipt(o.output.fee, map k | k in WritesOf(o) :: ValueAbove(b, s, i, k))
  }

  ghost function ValueAbove(b: Block, s: State, i: nat, k: Key): Value
    requires Sized(b, s) && i < |b.txns|
  {
    var f := ReadBelow(b.base, s.layers, i + 1, k);
    if f.Found? then f.val else Absent
  }

  ghost function At(p: Pipe, w: nat, x: Worker): Pipe
    requires w < |p.workers|
  {
    p.(workers := p.workers[w := x])
  }

  /** Commit one transaction: a fatal or failed outcome fails the run; otherwise it is charged, the
      run is halted if the block ends here, and only then is the transaction left to be enqueued. */
  ghost function CommitMove(b: Block, limits: Limits, p: Pipe, w: nat, a: Action): Pipe
    requires Fits(b, p) && CanMove(b, p, CommitNext(w, a))
  {
    var i := p.core.commits;
    var core := Apply(b, p.core, a);
    var rec := p.core.records[i].value;
    if !Kept(rec.outcome) then At(p, w, Exited).(core := core, failed := true, halted := true)
    else
      var charges := p.charges + [ChargeOf(TraceOf(rec))];
      var skip := rec.outcome.SkipRest? || (i + 1 < |b.txns| && limits.parallel(charges));
      p.(core := core, charges := charges, pending := Some(i), halted := i + 1 == |b.txns| || skip)
  }

  ghost function MaterializeMove(b: Block, p: Pipe, w: nat): Pipe
    requires Fits(b, p) && CanMove(b, p, Materialize(w))
  {
    var x := p.workers[w];
    At(p, w, Draining(x.last)).(results := p.results[x.idx := Some(ReceiptFrom(b, p.core, x.idx))],
                                written := p.written[x.idx := p.written[x.idx] + 1])
  }

  ghost function DoMove(b: Block, limits: Limits, p: Pipe, m: Move): (p': Pipe)
    requires Fits(b, p) && CanMove(b, p, m)
    ensures Fits(b, p')
  {
    match m
    case Core(a) => p.(core := Apply(b, p.core, a))
    case Coordinate(w) => At(p, w, Coordinating)
    case CommitNext(w, a) => CommitMove(b, limits, p, w, a)
    case Enqueue(w) => p.(queue := p.queue + [p.pending.value], pending := None)
    case EndCoordinate(w) => At(p, w, Looping)
    case Drain(w) => At(p, w, Draining(false))
    case Pop(w) => At(p, w, Materializing(p.queue[0], p.workers[w].last)).(queue := p.queue[1..])
    case Materialize(w) => MaterializeMove(b, p, w)
    case DrainEmpty(w) => At(p, w, if p.workers[w].last then Exited else Working)
    case DoTask(w) => At(p, w, Looping)
    case SeeDone(w) => At(p, w, Draining(true))
    case Fail(w) => At(p, w, Exited).(failed := true, halted := true)
  }

  ghost predicate Leads(b: Block, limits: Limits, p: Pipe, moves: seq<Move>, p': Pipe)
    decreases |moves|
  {
    Fits(b, p) &&
    if moves == [] then p' == p
    else CanMove(b, p, moves[0]) && Leads(b, limits, DoMove(b, limits, p, moves[0]), moves[1..], p')
  }

  /* ---- Where a committed index is ---- */

  ghost function HeldBy(x: Worker, i: nat): nat {
    if x.Materializing? && x.idx == i then 1 else 0
  }

  ghost function Held(ws: seq<Worker>, i: nat): nat {
    if ws == [] then 0 else HeldBy(ws[0], i) + Held(ws[1..], i)
  }

  lemma {:induction false} HeldUpdate(ws: seq<Worker>, w: nat, x: Worker, i: nat)
    requires w < |ws|
    ensures Held(ws[w := x], i) + HeldBy(ws[w], i) == Held(ws, i) + HeldBy(x, i)
  {
    var ws' := ws[w := x];
    if w == 0 {
      assert ws'[1..] == ws[1..];
    } else {
      assert ws'[1..] == ws[1..][w - 1 := x];
      HeldUpdate(ws[1..], w - 1, x, i);
    }
  }

  lemma {:induction false} HeldNone(ws: seq<Worker>, i: nat)
    requires forall w :: 0 <= w < |ws| ==> !ws[w].Materializing?
    ensures Held(ws, i) == 0
  {
    if ws != [] {
      HeldNone(ws[1..], i);
    }
  }

  ghost function Queued(queue: seq<nat>, i: nat): nat {
    if queue == [] then 0 else (if queue[0] == i then 1 else 0) + Queued(queue[1..], i)
  }

  lemma {:induction false} QueuedSnoc(queue: seq<nat>, x: nat, i: nat)
    ensures Queued(queue + [x], i) == Queued(queue, i) + if x == i then 1 else 0
  {
    if queue == [] {
      assert queue + [x] == [x];
    } else {
      assert (queue + [x])[1..] == queue[1..] + [x];
      QueuedSnoc(queue[1..], x, i);
    }
  }

  /** How often index `i` waits to be enqueued, is queued, is being materialized or was written. */
  ghost function Places(pending: Option<nat>, queue: seq<nat>, ws: seq<Worker>, written: seq<nat>, i: nat): nat {
    (if pending == Some(i) then 1 else 0) + Queued(queue, i) + Held(ws, i) + if i < |written| then written[i] else 0
  }

  /** Every committed index is in exactly one place, and no other index is anywhere. */
  ghost predicate Placed(pending: Option<nat>, queue: seq<nat>, ws: seq<Worker>, written: seq<nat>, commits: nat) {
    forall i: nat :: Places(pending, queue, ws, written, i) == if i < commits then 1 else 0
  }

  /** Somebody will still empty the queue. */
  ghost predicate Attended(pending: Option<nat>, queue: seq<nat>, workers: seq<Worker>, halted: bool) {
    && (pending.Some? ==> Coordinating in workers)
    && (queue != [] ==> exists w :: 0 <= w < |workers| && workers[w] != Exited)
    && (forall w :: 0 <= w < |workers| && Leaving(workers[w]) ==> halted)
  }

  ghost predicate Leaving(x: Worker) {
    x.Exited? || ((x.Draining? || x.Materializing?) && x.last)
  }

  /** The commits so far are a prefix of the sequential block. */
  ghost predicate Prefix(b: Block, limits: Limits, c: nat, charges: seq<Charge>, halted: bool) {
    && c <= |b.txns| && KeptBelow(b, c)
    && charges == Charges(b, c)
    && (forall j :: 0 <= j < c - 1 ==> Goes(b, limits.parallel, j))
    && (halted <==> c > 0 && (c == |b.txns| || !Goes(b, limits.parallel, c - 1)))
  }

  ghost predicate Delivered(b: Block, results: seq<Option<Receipt>>, written: seq<nat>, c: nat) {
    && c <= |b.txns| == |results| == |written| && KeptBelow(b, c)
    && forall i :: 0 <= i < |b.txns| ==>
         results[i] == if written[i] > 0 && i < c then Some(ReceiptOf(b, i)) else None
  }

  /** What holds of the queue, the workers and the results while no worker has failed. */
  ghost predicate Flow(b: Block, limits: Limits, p: Pipe) {
    && Placed(p.pending, p.queue, p.workers, p.written, p.core.commits)
    && Attended(p.pending, p.queue, p.workers, p.halted)
    && Prefix(b, limits, p.core.commits, p.charges, p.halted)
    && Delivered(b, p.results, p.written, p.core.commits)
  }

  ghost predicate PipeInv(b: Block, limits: Limits, p: Pipe) {
    Fits(b, p) && Inv(b, p.core) && (!p.failed ==> Flow(b, limits, p))
  }

  lemma CommittedReceipt(b: Block, s: State, i: nat)
    requires Inv(b, s) && i < s.commits && KeptBelow(b, s.commits)
    ensures CanReceipt(b, s, i) && ReceiptFrom(b, s, i) == ReceiptOf(b, i)
  {
    assert SerialAt(b, s, i);
    forall k ensures ValueAbove(b, s, i, k) == Look(b.base, SerialOver(b, i + 1), k) {
      CommittedAbove(b, s, i, k);
    }
  }

  lemma CommittedAbove(b: Block, s: State, i: nat, k: Key)
    requires Inv(b, s) && i < s.commits
    ensures ValueAbove(b, s, i, k) == Look(b.base, SerialOver(b, i + 1), k)
  {
    CommittedRead(b, s, i + 1, k);
  }

  /** Only the two commit steps move the commit index; they record the serial run. */
  lemma CommitFacts(b: Block, s: State, a: Action)
    requires Inv(b, s) && Enabled(b, s, a)
    ensures Inv(b, Apply(b, s, a))
    ensures Apply(b, s, a).commits == if a.Commit? || a.Recheck? then s.commits + 1 else s.commits
    ensures a.Commit? || a.Recheck? ==>
      && s.commits < |b.txns| && s.records[s.commits].Some?
      && TraceOf(s.records[s.commits].value) == SerialTrace(b, s.commits)
    ensures a.Commit? || a.Recheck? ==> Certain(b, s.commits)
  {
    Step(b, s, a);
    if a.Commit? || a.Recheck? {
      assert SerialAt(b, Apply(b, s, a), s.commits);
    }
  }

  lemma PrefixGrows(b: Block, limits: Limits, c: nat, charges: seq<Charge>)
    requires c < |b.txns| && Prefix(b, limits, c, charges, false) && Contributes(b, c)
    ensures var charges' := charges + [ChargeOf(SerialTrace(b, c))];
      Prefix(b, limits, c + 1, charges',
             || c + 1 == |b.txns| || SerialTrace(b, c).outcome.SkipRest?
             || (c + 1 < |b.txns| && limits.parallel(charges')))
  {
    assert KeptBelow(b, c + 1);
    assert c > 0 ==> Goes(b, limits.parallel, c - 1);
  }

  lemma CommitPlaced(queue: seq<nat>, ws: seq<Worker>, written: seq<nat>, c: nat)
    requires Placed(None, queue, ws, written, c)
    ensures Placed(Some(c), queue, ws, written, c + 1)
    ensures c < |written| ==> written[c] == 0
  {
    forall i: nat ensures Places(Some(c), queue, ws, written, i) == if i < c + 1 then 1 else 0 {
      assert Places(None, queue, ws, written, i) == if i < c then 1 else 0;
    }
    assert Places(None, queue, ws, written, c) == 0;
  }

  lemma CommitFlow(b: Block, limits: Limits, p: Pipe, w: nat, a: Action)
    requires Fits(b, p) && CanMove(b, p, CommitNext(w, a)) && !p.failed && Flow(b, limits, p)
    requires p.core.commits < |b.txns| && p.core.records[p.core.commits].Some?
    requires TraceOf(p.core.records[p.core.commits].value) == SerialTrace(b, p.core.commits)
    requires Certain(b, p.core.commits)
    requires Apply(b, p.core, a).commits == p.core.commits + 1
    ensures var p' := CommitMove(b, limits, p, w, a); !p'.failed ==> Flow(b, limits, p')
  {
    var c, p' := p.core.commits, CommitMove(b, limits, p, w, a);
    if !p'.failed {
      PrefixGrows(b, limits, c, p.charges);
      CommitPlaced(p.queue, p.workers, p.written, c);
      assert KeptBelow(b, c + 1);
    }
  }

  lemma PopPlaced(pending: Option<nat>, queue: seq<nat>, ws: seq<Worker>, written: seq<nat>, c: nat, w: nat, last: bool)
    requires Placed(pending, queue, ws, written, c) && w < |ws| && !ws[w].Materializing? && queue != []
    ensures Placed(pending, queue[1..], ws[w := Materializing(queue[0], last)], written, c)
  {
    var x := Materializing(queue[0], last);
    var rest, ws' := queue[1..], ws[w := x];
    forall i: nat ensures Places(pending, rest, ws', written, i) == if i < c then 1 else 0 {
      HeldUpdate(ws, w, x, i);
      assert Places(pending, queue, ws, written, i) == if i < c then 1 else 0;
    }
  }

  lemma MaterializePlaced(pending: Option<nat>, queue: seq<nat>, ws: seq<Worker>, written: seq<nat>, c: nat, w: nat,
      x: Worker)
    requires Placed(pending, queue, ws, written, c) && w < |ws| && ws[w].Materializing? && !x.Materializing?
    requires c <= |written|
    ensures ws[w].idx < c
    ensures Placed(pending, queue, ws[w := x], written[ws[w].idx := written[ws[w].idx] + 1], c)
  {
    var y := ws[w].idx;
    HeldUpdate(ws, w, x, y);
    assert Places(pending, queue, ws, written, y) == if y < c then 1 else 0;
    var written', ws' := written[y := written[y] + 1], ws[w := x];
    forall i: nat ensures Places(pending, queue, ws', written', i) == if i < c then 1 else 0 {
      HeldUpdate(ws, w, x, i);
      assert Places(pending, queue, ws, written, i) == if i < c then 1 else 0;
    }
  }

  lemma WalkPlaced(pending: Option<nat>, queue: seq<nat>, ws: seq<Worker>, written: seq<nat>, c: nat, w: nat, x: Worker)
    requires Placed(pending, queue, ws, written, c) && w < |ws| && !ws[w].Materializing? && !x.Materializing?
    ensures Placed(pending, queue, ws[w := x], written, c)
  {
    var ws' := ws[w := x];
    forall i: nat ensures Places(pending, queue, ws', written, i) == if i < c then 1 else 0 {
      HeldUpdate(ws, w, x, i);
      assert Places(pending, queue, ws, written, i) == if i < c then 1 else 0;
    }
  }

  lemma EnqueuePlaced(x: nat, queue: seq<nat>, ws: seq<Worker>, written: seq<nat>, c: nat)
    requires Placed(Some(x), queue, ws, written, c)
    ensures Placed(None, queue + [x], ws, written, c)
  {
    forall i: nat ensures Places(None, queue + [x], ws, written, i) == if i < c then 1 else 0 {
      QueuedSnoc(queue, x, i);
      assert Places(Some(x), queue, ws, written, i) == if i < c then 1 else 0;
    }
  }

  lemma WalkAttended(pending: Option<nat>, queue: seq<nat>, ws: seq<Worker>, halted: bool, w: nat, x: Worker)
    requires Attended(pending, queue, ws, halted) && w < |ws|
    requires ws[w] == Coordinating ==> pending.None?
    requires Leaving(x) ==> halted
    requires x == Exited ==> queue == []
    ensures Attended(pending, queue, ws[w := x], halted)
  {
    if pending.Some? {
      var c :| 0 <= c < |ws| && ws[c] == Coordinating;
      assert ws[w := x][c] == Coordinating;
    }
    if queue != [] {
      assert ws[w := x][w] != Exited;
    }
  }

  lemma PopFlow(b: Block, limits: Limits, p: Pipe, w: nat)
    requires Fits(b, p) && CanMove(b, p, Pop(w)) && Flow(b, limits, p)
    ensures Flow(b, limits, DoMove(b, limits, p, Pop(w)))
  {
    var x := Materializing(p.queue[0], p.workers[w].last);
    PopPlaced(p.pending, p.queue, p.workers, p.written, p.core.commits, w, x.last);
    WalkAttended(p.pending, p.queue, p.workers, p.halted, w, x);
  }

  lemma MaterializeDelivered(b: Block, results: seq<Option<Receipt>>, written: seq<nat>, c: nat, i: nat)
    requires Delivered(b, results, written, c) && i < c
    ensures Delivered(b, results[i := Some(ReceiptOf(b, i))], written[i := written[i] + 1], c)
  {
  }

  lemma MaterializeFlow(b: Block, limits: Limits, p: Pipe, w: nat)
    requires Fits(b, p) && CanMove(b, p, Materialize(w)) && Flow(b, limits, p)
    requires p.workers[w].idx < p.core.commits ==>
      KeptBelow(b, p.core.commits) && ReceiptFrom(b, p.core, p.workers[w].idx) == ReceiptOf(b, p.workers[w].idx)
    ensures Flow(b, limits, MaterializeMove(b, p, w))
  {
    var x := Draining(p.workers[w].last);
    MaterializePlaced(p.pending, p.queue, p.workers, p.written, p.core.commits, w, x);
    WalkAttended(p.pending, p.queue, p.workers, p.halted, w, x);
    MaterializeDelivered(b, p.results, p.written, p.core.commits, p.workers[w].idx);
  }

  /** A worker moves on without an index in its hands. */
  lemma WalkFlow(b: Block, limits: Limits, p: Pipe, w: nat, x: Worker)
    requires Flow(b, limits, p) && w < |p.workers| && !p.workers[w].Materializing? && !x.Materializing?
    requires p.workers[w] == Coordinating ==> p.pending.None?
    requires Leaving(x) ==> p.halted
    requires x == Exited ==> p.queue == []
    ensures Flow(b, limits, At(p, w, x))
  {
    WalkPlaced(p.pending, p.queue, p.workers, p.written, p.core.commits, w, x);
    WalkAttended(p.pending, p.queue, p.workers, p.halted, w, x);
  }

  lemma EnqueueFlow(b: Block, limits: Limits, p: Pipe, w: nat)
    requires Fits(b, p) && CanMove(b, p, Enqueue(w)) && Flow(b, limits, p)
    ensures Flow(b, limits, DoMove(b, limits, p, Enqueue(w)))
  {
    EnqueuePlaced(p.pending.value, p.queue, p.workers, p.written, p.core.commits);
    assert p.workers[w] != Exited;
  }

  lemma CommitKeeps(b: Block, limits: Limits, p: Pipe, w: nat, a: Action)
    requires PipeInv(b, limits, p) && CanMove(b, p, CommitNext(w, a))
    ensures PipeInv(b, limits, CommitMove(b, limits, p, w, a))
  {
    CommitFacts(b, p.core, a);
    if !p.failed { CommitFlow(b, limits, p, w, a); }
  }

  lemma MoveKeeps(b: Block, limits: Limits, p: Pipe, m: Move)
    requires PipeInv(b, limits, p) && CanMove(b, p, m)
    ensures PipeInv(b, limits, DoMove(b, limits, p, m))
  {
    if m.Core? {
      CoreKeeps(b, limits, p, m.a);
    } else if m.CommitNext? {
      CommitKeeps(b, limits, p, m.w, m.a);
    } else if m.Materialize? {
      MaterializeKeeps(b, limits, p, m.w);
    } else if !m.Fail? {
      QuietMoveKeeps(b, limits, p, m);
    }
  }

  lemma CoreKeeps(b: Block, limits: Limits, p: Pipe, a: Action)
    requires PipeInv(b, limits, p) && CanMove(b, p, Core(a))
    ensures PipeInv(b, limits, DoMove(b, limits, p, Core(a)))
  {
    CommitFacts(b, p.core, a);
  }

  lemma QuietMoveKeeps(b: Block, limits: Limits, p: Pipe, m: Move)
    requires PipeInv(b, limits, p) && CanMove(b, p, m) && !m.Core? && !m.CommitNext? && !m.Materialize? && !m.Fail?
    ensures PipeInv(b, limits, DoMove(b, limits, p, m))
  {
    if !p.failed { QuietFlow(b, limits, p, m); }
  }

  lemma MaterializeKeeps(b: Block, limits: Limits, p: Pipe, w: nat)
    requires PipeInv(b, limits, p) && CanMove(b, p, Materialize(w))
    ensures PipeInv(b, limits, DoMove(b, limits, p, Materialize(w)))
  {
    if !p.failed {
      if p.workers[w].idx < p.core.commits { CommittedReceipt(b, p.core, p.workers[w].idx); }
      MaterializeFlow(b, limits, p, w);
    }
  }

  lemma QuietFlow(b: Block, limits: Limits, p: Pipe, m: Move)
    requires Fits(b, p) && CanMove(b, p, m) && Flow(b, limits, p)
    requires !m.Core? && !m.CommitNext? && !m.Materialize? && !m.Fail?
    ensures Flow(b, limits, DoMove(b, limits, p, m))
  {
    match m
    case Coordinate(w) => WalkFlow(b, limits, p, w, Coordinating);
    case Enqueue(w) => EnqueueFlow(b, limits, p, w);
    case EndCoordinate(w) => WalkFlow(b, limits, p, w, Looping);
    case Drain(w) => WalkFlow(b, limits, p, w, Draining(false));
    case Pop(w) => PopFlow(b, limits, p, w);
    case DrainEmpty(w) => WalkFlow(b, limits, p, w, if p.workers[w].last then Exited else Working);
    case DoTask(w) => WalkFlow(b, limits, p, w, Looping);
    case SeeDone(w) => WalkFlow(b, limits, p, w, Draining(true));
  }

  lemma {:induction false} Moves(b: Block, limits: Limits, p: Pipe, moves: seq<Move>, p': Pipe)
    requires PipeInv(b, limits, p) && Leads(b, limits, p, moves, p')
    ensures PipeInv(b, limits, p')
    decreases |moves|
  {
    if moves != [] {
      MoveKeeps(b, limits, p, moves[0]);
      Moves(b, limits, DoMove(b, limits, p, moves[0]), moves[1..], p');
    }
  }

  lemma InitFlow(b: Block, limits: Limits, workers: nat)
    requires |b.txns| > 0
    ensures PipeInv(b, limits, InitPipe(b, workers))
  {
    var p := InitPipe(b, workers);
    InitInv(b);
    forall i: nat ensures Places(None, [], p.workers, p.written, i) == 0 {
      HeldNone(p.workers, i);
    }
  }

  /** All workers have left and none reported an error. */
  ghost predicate Finished(p: Pipe) {
    && |p.workers| > 0 && !p.failed
    && forall w :: 0 <= w < |p.workers| ==> p.workers[w] == Exited
  }

  /** Exactly-once materialization: when every worker has left without an error, the queue is empty
      and each committed index was written to the final results exactly once, although halting
      comes before the deferred enqueue and other workers may have left before it. */
  lemma ExactlyOnce(b: Block, limits: Limits, workers: nat, moves: seq<Move>, p: Pipe)
    requires |b.txns| > 0 && Leads(b, limits, InitPipe(b, workers), moves, p) && Finished(p)
    ensures p.queue == [] && p.pending.None?
    ensures p.core.commits <= |p.written| == |b.txns|
    ensures forall i :: 0 <= i < |p.written| ==> p.written[i] == if i < p.core.commits then 1 else 0
  {
    InitFlow(b, limits, workers);
    Moves(b, limits, InitPipe(b, workers), moves, p);
    forall i | 0 <= i < |p.written| ensures p.written[i] == if i < p.core.commits then 1 else 0 {
      HeldNone(p.workers, i);
      assert Places(None, [], p.workers, p.written, i) == if i < p.core.commits then 1 else 0;
    }
  }

  /** Whole-block refinement: the parallel run's output vector is the sequential one. */
  lemma ParallelIsSequential(b: Block, limits: Limits, workers: nat, moves: seq<Move>, p: Pipe)
    requires |b.txns| > 0 && Leads(b, limits, InitPipe(b, workers), moves, p) && Finished(p)
    requires forall cs :: limits.parallel(cs) == limits.sequential(cs)
    ensures var c := p.core.commits;
      && c <= |b.txns| && KeptBelow(b, c)
      && EndingFrom(b, limits.sequential, 0) == Ended(c)
      && p.results == Outputs(b, c)
  {
    ExactlyOnce(b, limits, workers, moves, p);
    InitFlow(b, limits, workers);
    Moves(b, limits, InitPipe(b, workers), moves, p);
    var c := p.core.commits;
    assert p.workers[0] == Exited;
    EndsAt(b, limits.parallel, 0, c);
    SameEnding(b, limits.parallel, limits.sequential, 0);
  }
}
