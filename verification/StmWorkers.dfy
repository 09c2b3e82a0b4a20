/** Workers and their tasks: every step of an execution, a validation or an abort is made by the worker
    that has taken it on, so a worker whose read meets an estimate waits. */
module StmWorkers {
  import opened StmTypes
  import opened StmCache
  import opened StmMachine
  import opened StmInvariant
  import opened StmSerial
  import opened StmSequential
  import opened StmPipeline

  /** What a worker has in hand: nothing, an execution, a validation, or the abort of a failed one. */
  datatype Job = Free | Exec(i: nat) | Check(i: nat) | Undo(i: nat)

  datatype Shop = Shop(p: Pipe, jobs: seq<Job>)

  /** A worker walks through its loop, works on its task, or drops it because the run was halted. */
  datatype Stride = Walk(m: Move) | Work(w: nat, a: Action) | GiveUp(w: nat)

  ghost function InitShop(b: Block, workers: nat): Shop {
    Shop(InitPipe(b, workers), seq(workers, w => Free))
  }

  ghost predicate ShopFits(b: Block, sh: Shop) {
    Fits(b, sh.p) && |sh.jobs| == |sh.p.workers|
  }

  ghost predicate Takes(j: Job, i: nat) {
    j == Exec(i) || j == Undo(i)
  }

  ghost predicate Busy(sh: Shop, w: nat, j: Job) {
    IsAt(sh.p, w, Working) && w < |sh.jobs| && sh.jobs[w] == j
  }

  /** The coordinator in the middle of the final re-execution. */
  ghost predicate AtHelm(b: Block, sh: Shop, w: nat, i: nat)
    requires ShopFits(b, sh)
  {
    IsAt(sh.p, w, Coordinating) && i == sh.p.core.commits < |b.txns| && AtCommit(sh.p.core.status[i])
  }

  ghost predicate Executes(b: Block, sh: Shop, w: nat, i: nat)
    requires ShopFits(b, sh)
  {
    Busy(sh, w, Exec(i)) || AtHelm(b, sh, w, i)
  }

  ghost predicate Untaken(sh: Shop, i: nat) {
    forall v :: 0 <= v < |sh.jobs| ==> !Takes(sh.jobs[v], i)
  }

  /** Which worker may make a step of the core. Commits are moves of the coordinator. */
  ghost predicate Mine(b: Block, sh: Shop, w: nat, a: Action)
    requires ShopFits(b, sh)
  {
    match a
    case Start(i) => Busy(sh, w, Exec(i)) || (Busy(sh, w, Free) && Untaken(sh, i))
    case ReadKey(i) => Executes(b, sh, w, i)
    case EndRun(i) => Executes(b, sh, w, i)
    case Write(i, _) => Executes(b, sh, w, i)
    case Remove(i, _) => Executes(b, sh, w, i)
    case EndExecution(i) => Executes(b, sh, w, i)
    case StartValidation(v, _) => v == w && Busy(sh, w, Free)
    case CheckRead(v) => v == w && IsAt(sh.p, w, Working) && sh.jobs[w].Check?
    case EndValidation(v) => v == w && IsAt(sh.p, w, Working) && sh.jobs[w].Check?
    case MarkEstimate(i, _) => Busy(sh, w, Undo(i)) || AtHelm(b, sh, w, i)
    case EndAbort(i) => Busy(sh, w, Undo(i))
    case Reexecute => IsAt(sh.p, w, Coordinating) && sh.p.pending.None? && !sh.p.halted
    case Restart => IsAt(sh.p, w, Coordinating)
    case Commit => false
    case Recheck => false
  }

  /** What it has in hand after a step. The worker that aborts an incarnation gets its re-execution. */
  ghost function NextJob(b: Block, sh: Shop, w: nat, a: Action): Job
    requires ShopFits(b, sh) && w < |sh.jobs| && Enabled(b, sh.p.core, a)
  {
    match a
    case Start(i) => Exec(i)
    case EndExecution(i) => if sh.jobs[w] == Exec(i) then Free else sh.jobs[w]
    case StartValidation(_, i) => Check(i)
    case EndValidation(v) =>
      var t := sh.p.core.tasks[v];
      if !t.ok && sh.p.core.status[t.idx] == Executed(t.inc) then Undo(t.idx) else Free
    case EndAbort(i) => Exec(i)
    case _ => sh.jobs[w]
  }

  /** A worker goes round its loop only without a task or with one it has not begun, coordinates until
      a final re-execution is over, and leaves without a task. */
  ghost predicate MayWalk(b: Block, sh: Shop, m: Move)
    requires ShopFits(b, sh)
  {
    match m
    case Core(_) => false
    case DoTask(w) =>
      w < |sh.jobs| && (sh.jobs[w] == Free || (sh.jobs[w].Exec? && Waiting(b, sh.p.core, sh.jobs[w].i)))
    case SeeDone(w) => w < |sh.jobs| && sh.jobs[w] == Free
    case EndCoordinate(_) => sh.p.halted || !Reexecuting(b, sh.p.core)
    case _ => true
  }

  ghost predicate Waiting(b: Block, s: State, i: nat)
    requires Sized(b, s)
  {
    i < |b.txns| && s.status[i].Ready?
  }

  ghost predicate Reexecuting(b: Block, s: State)
    requires Sized(b, s)
  {
    s.commits < |b.txns| && AtCommit(s.status[s.commits])
  }

  ghost predicate CanStride(b: Block, sh: Shop, x: Stride)
    requires ShopFits(b, sh)
  {
    match x
    case Walk(m) => CanMove(b, sh.p, m) && MayWalk(b, sh, m)
    case Work(w, a) => w < |sh.jobs| && Enabled(b, sh.p.core, a) && Mine(b, sh, w, a)
    case GiveUp(w) => IsAt(sh.p, w, Working) && sh.p.halted
  }

  ghost function Worked(b: Block, sh: Shop, w: nat, a: Action): Shop
    requires ShopFits(b, sh) && w < |sh.jobs| && Enabled(b, sh.p.core, a)
  {
    Shop(sh.p.(core := Apply(b, sh.p.core, a)), sh.jobs[w := NextJob(b, sh, w, a)])
  }

  ghost function DoStride(b: Block, limits: Limits, sh: Shop, x: Stride): (sh': Shop)
    requires ShopFits(b, sh) && CanStride(b, sh, x)
    ensures ShopFits(b, sh')
  {
    match x
    case Walk(m) => sh.(p := DoMove(b, limits, sh.p, m))
    case Work(w, a) => Worked(b, sh, w, a)
    case GiveUp(w) => sh.(jobs := sh.jobs[w := Free])
  }

  ghost predicate Gets(b: Block, limits: Limits, sh: Shop, xs: seq<Stride>, sh': Shop)
    decreases |xs|
  {
    ShopFits(b, sh) &&
    if xs == [] then sh' == sh
    else CanStride(b, sh, xs[0]) && Gets(b, limits, DoStride(b, limits, sh, xs[0]), xs[1..], sh')
  }

  /* ---- Every run of workers is a run of the pipeline ---- */

  ghost function MovesOf(xs: seq<Stride>): seq<Move> {
    if xs == [] then []
    else
      match xs[0]
      case Walk(m) => [m] + MovesOf(xs[1..])
      case Work(_, a) => [Core(a)] + MovesOf(xs[1..])
      case GiveUp(_) => MovesOf(xs[1..])
  }

  /** Hence what holds of every pipeline, exactly-once materialization and the sequential output
      vector among it, holds of workers that own their tasks. */
  lemma {:induction false} WorkersRefine(b: Block, limits: Limits, sh: Shop, xs: seq<Stride>, sh': Shop)
    requires Gets(b, limits, sh, xs, sh')
    ensures Leads(b, limits, sh.p, MovesOf(xs), sh'.p)
    decreases |xs|
  {
    if xs != [] {
      WorkersRefine(b, limits, DoStride(b, limits, sh, xs[0]), xs[1..], sh');
      var ms := MovesOf(xs);
      if !xs[0].GiveUp? {
        assert ms[1..] == MovesOf(xs[1..]);
      }
    }
  }

  /* ---- Who has what ---- */

  ghost predicate Steered(sh: Shop) {
    Coordinating in sh.p.workers && sh.p.pending.None?
  }

  /** A transaction in progress is some worker's task, from its abort through to its re-execution. */
  ghost predicate OwnedAt(b: Block, sh: Shop, i: nat)
    requires ShopFits(b, sh) && i < |b.txns|
  {
    var st := sh.p.core.status[i];
    if AtCommit(st) then Steered(sh)
    else if st.Ready? then st.inc > 0 ==> Exec(i) in sh.jobs
    else if st.Running? || st.Writing? then exists w :: Busy(sh, w, Exec(i))
    else if st.Aborting? then exists w :: Busy(sh, w, Undo(i))
    else true
  }

  ghost predicate JobOk(b: Block, sh: Shop, w: nat)
    requires ShopFits(b, sh) && w < |sh.jobs|
  {
    var s := sh.p.core;
    match sh.jobs[w]
    case Free => w !in s.tasks
    case Exec(i) =>
      && w !in s.tasks && i < |b.txns| && !AtCommit(s.status[i])
      && (s.status[i].Ready? || s.status[i].Running? || s.status[i].Writing?)
      && (s.status[i].Ready? || sh.p.workers[w] == Working)
    case Check(i) => w in s.tasks && s.tasks[w].idx == i && sh.p.workers[w] == Working
    case Undo(i) =>
      && w !in s.tasks && i < |b.txns| && s.status[i].Aborting? && !s.status[i].atCommit
      && sh.p.workers[w] == Working
  }

  ghost predicate Tended(b: Block, sh: Shop)
    requires ShopFits(b, sh)
  {
    && (forall i :: 0 <= i < |b.txns| ==> OwnedAt(b, sh, i))
    && (forall w :: 0 <= w < |sh.jobs| ==> JobOk(b, sh, w))
    && (forall w :: w in sh.p.core.tasks ==> w < |sh.jobs|)
    && (forall w, v, i: nat ::
          0 <= w < |sh.jobs| && 0 <= v < |sh.jobs| && Takes(sh.jobs[w], i) && Takes(sh.jobs[v], i) ==> w == v)
  }

  ghost predicate ShopInv(b: Block, limits: Limits, sh: Shop) {
    ShopFits(b, sh) && PipeInv(b, limits, sh.p) && (!sh.p.halted && !sh.p.failed ==> Tended(b, sh))
  }

  /** The core has changed at transaction `i` only, and worker `w` has a new task. */
  ghost predicate WorkedAt(b: Block, sh: Shop, sh': Shop, w: nat, i: nat)
    requires ShopFits(b, sh) && ShopFits(b, sh')
  {
    && sh'.p == sh.p.(core := sh'.p.core) && sh'.p.core.commits == sh.p.core.commits
    && w < |sh.jobs| && sh'.jobs == sh.jobs[w := sh'.jobs[w]]
    && (forall j :: 0 <= j < |b.txns| && j != i ==> sh'.p.core.status[j] == sh.p.core.status[j])
    && (forall v :: v != w ==> (v in sh'.p.core.tasks <==> v in sh.p.core.tasks))
    && (forall v :: v != w && v in sh.p.core.tasks ==> sh'.p.core.tasks[v].idx == sh.p.core.tasks[v].idx)
  }

  /** It is enough to look at that transaction and that worker, if nobody else has the one and the
      other gives up nothing else. */
  lemma TendedFrame(b: Block, sh: Shop, sh': Shop, w: nat, i: nat)
    requires ShopFits(b, sh) && ShopFits(b, sh') && Tended(b, sh) && WorkedAt(b, sh, sh', w, i)
    requires i < |b.txns| ==> OwnedAt(b, sh', i)
    requires JobOk(b, sh', w)
    requires sh'.jobs[w] == sh.jobs[w] || forall j: nat :: Takes(sh.jobs[w], j) || Takes(sh'.jobs[w], j) ==> j == i
    requires forall v :: 0 <= v < |sh.jobs| && v != w ==> !Takes(sh.jobs[v], i)
    ensures Tended(b, sh')
  {
    forall j | 0 <= j < |b.txns| && j != i ensures OwnedAt(b, sh', j) {
      assert OwnedAt(b, sh, j);
      OwnerStays(b, sh, sh', w, j);
    }
    forall v | 0 <= v < |sh.jobs| && v != w ensures JobOk(b, sh', v) {
      assert JobOk(b, sh, v);
    }
  }

  lemma OwnerStays(b: Block, sh: Shop, sh': Shop, w: nat, j: nat)
    requires ShopFits(b, sh) && ShopFits(b, sh') && j < |b.txns| && OwnedAt(b, sh, j)
    requires sh'.p.workers == sh.p.workers && sh'.p.pending == sh.p.pending
    requires sh'.p.core.status[j] == sh.p.core.status[j]
    requires w < |sh.jobs| && sh'.jobs == sh.jobs[w := sh'.jobs[w]]
    requires sh'.jobs[w] == sh.jobs[w] || !Takes(sh.jobs[w], j)
    ensures OwnedAt(b, sh', j)
  {
    var st := sh.p.core.status[j];
    if AtCommit(st) {
    } else if st.Ready? && st.inc > 0 {
      var v :| 0 <= v < |sh.jobs| && sh.jobs[v] == Exec(j);
      assert sh'.jobs[v] == Exec(j);
    } else if st.Running? || st.Writing? {
      var v :| Busy(sh, v, Exec(j));
      assert Busy(sh', v, Exec(j));
    } else if st.Aborting? {
      var v :| Busy(sh, v, Undo(j));
      assert Busy(sh', v, Undo(j));
    }
  }

  /** Only the worker at a transaction has it; one that nobody works on is nobody's task. */
  lemma NobodyElse(b: Block, sh: Shop, w: nat, i: nat)
    requires ShopFits(b, sh) && Tended(b, sh) && w < |sh.jobs| && i < |b.txns|
    requires
      || Takes(sh.jobs[w], i) || AtCommit(sh.p.core.status[i])
      || sh.p.core.status[i].Executed? || sh.p.core.status[i].Committed?
    ensures forall v :: 0 <= v < |sh.jobs| && v != w ==> !Takes(sh.jobs[v], i)
    ensures !Takes(sh.jobs[w], i) ==> Untaken(sh, i)
  {
    forall v | 0 <= v < |sh.jobs| && Takes(sh.jobs[v], i) ensures v == w {
      assert JobOk(b, sh, v);
    }
  }

  lemma ExecuteTended(b: Block, sh: Shop, w: nat, a: Action, i: nat)
    requires ShopFits(b, sh) && Tended(b, sh) && CanStride(b, sh, Work(w, a)) && i < |b.txns| && Executes(b, sh, w, i)
    requires
      || a == ReadKey(i) || a == EndRun(i) || a == EndExecution(i)
      || (a.Write? && a.i == i) || (a.Remove? && a.i == i)
    ensures Tended(b, Worked(b, sh, w, a))
  {
    var sh' := Worked(b, sh, w, a);
    assert OwnedAt(b, sh, i) && JobOk(b, sh, w);
    NobodyElse(b, sh, w, i);
    if !AtHelm(b, sh, w, i) && !a.EndExecution? { assert Busy(sh', w, Exec(i)); }
    TendedFrame(b, sh, sh', w, i);
  }

  lemma StartTended(b: Block, sh: Shop, w: nat, i: nat)
    requires ShopFits(b, sh) && Tended(b, sh) && CanStride(b, sh, Work(w, Start(i)))
    ensures Tended(b, Worked(b, sh, w, Start(i)))
  {
    var sh' := Worked(b, sh, w, Start(i));
    assert JobOk(b, sh, w);
    if sh.jobs[w] == Exec(i) { NobodyElse(b, sh, w, i); }
    assert Busy(sh', w, Exec(i));
    TendedFrame(b, sh, sh', w, i);
  }

  lemma NoneOutside(b: Block, sh: Shop)
    requires ShopFits(b, sh) && Tended(b, sh)
    ensures Untaken(sh, |b.txns|)
  {
    forall v | 0 <= v < |sh.jobs| ensures !Takes(sh.jobs[v], |b.txns|) {
      assert JobOk(b, sh, v);
    }
  }

  lemma ValidateTended(b: Block, sh: Shop, w: nat, a: Action)
    requires ShopFits(b, sh) && Tended(b, sh) && CanStride(b, sh, Work(w, a))
    requires a.StartValidation? || a.CheckRead? || a.EndValidation?
    ensures Tended(b, Worked(b, sh, w, a))
  {
    var sh' := Worked(b, sh, w, a);
    assert JobOk(b, sh, w);
    if sh'.jobs[w].Undo? {
      var i := sh'.jobs[w].i;
      NobodyElse(b, sh, w, i);
      assert Busy(sh', w, Undo(i));
      TendedFrame(b, sh, sh', w, i);
    } else {
      NoneOutside(b, sh);
      TendedFrame(b, sh, sh', w, |b.txns|);
    }
  }

  lemma AbortTended(b: Block, sh: Shop, w: nat, a: Action, i: nat)
    requires ShopFits(b, sh) && Tended(b, sh) && CanStride(b, sh, Work(w, a)) && i < |b.txns|
    requires (a.MarkEstimate? && a.i == i) || a == EndAbort(i)
    ensures Tended(b, Worked(b, sh, w, a))
  {
    var sh' := Worked(b, sh, w, a);
    assert OwnedAt(b, sh, i) && JobOk(b, sh, w);
    NobodyElse(b, sh, w, i);
    if a.EndAbort? { assert sh'.jobs[w] == Exec(i); } else if !AtHelm(b, sh, w, i) { assert Busy(sh', w, Undo(i)); }
    TendedFrame(b, sh, sh', w, i);
  }

  lemma ReexecuteTended(b: Block, sh: Shop, w: nat, a: Action)
    requires ShopFits(b, sh) && Tended(b, sh) && CanStride(b, sh, Work(w, a)) && (a.Reexecute? || a.Restart?)
    ensures Tended(b, Worked(b, sh, w, a))
  {
    var i, sh' := sh.p.core.commits, Worked(b, sh, w, a);
    assert OwnedAt(b, sh, i) && JobOk(b, sh, w);
    NobodyElse(b, sh, w, i);
    TendedFrame(b, sh, sh', w, i);
  }

  lemma WorkTended(b: Block, sh: Shop, w: nat, a: Action)
    requires ShopFits(b, sh) && Tended(b, sh) && CanStride(b, sh, Work(w, a))
    ensures Tended(b, Worked(b, sh, w, a))
  {
    match a
    case Start(i) => StartTended(b, sh, w, i);
    case ReadKey(i) => ExecuteTended(b, sh, w, a, i);
    case EndRun(i) => ExecuteTended(b, sh, w, a, i);
    case Write(i, _) => ExecuteTended(b, sh, w, a, i);
    case Remove(i, _) => ExecuteTended(b, sh, w, a, i);
    case EndExecution(i) => ExecuteTended(b, sh, w, a, i);
    case StartValidation(_, _) => ValidateTended(b, sh, w, a);
    case CheckRead(_) => ValidateTended(b, sh, w, a);
    case EndValidation(_) => ValidateTended(b, sh, w, a);
    case MarkEstimate(i, _) => AbortTended(b, sh, w, a, i);
    case EndAbort(i) => AbortTended(b, sh, w, a, i);
    case Reexecute => ReexecuteTended(b, sh, w, a);
    case Restart => ReexecuteTended(b, sh, w, a);
  }

  /** Worker `w` goes from one place of its loop to another. */
  ghost predicate Walked(b: Block, sh: Shop, sh': Shop, w: nat)
    requires ShopFits(b, sh) && ShopFits(b, sh')
  {
    && sh'.jobs == sh.jobs && sh'.p.core == sh.p.core && w < |sh.jobs|
    && sh'.p.workers == sh.p.workers[w := sh'.p.workers[w]]
    && (sh.p.pending.None? ==> sh'.p.pending.None?)
  }

  lemma WalkFrame(b: Block, sh: Shop, sh': Shop, w: nat)
    requires ShopFits(b, sh) && ShopFits(b, sh') && Tended(b, sh) && Walked(b, sh, sh', w)
    requires sh.p.workers[w] == Working ==>
      sh.jobs[w] == Free || (sh.jobs[w].Exec? && Waiting(b, sh.p.core, sh.jobs[w].i))
    requires sh.p.workers[w] == Coordinating && sh'.p.workers[w] != Coordinating ==> !Reexecuting(b, sh.p.core)
    requires Inv(b, sh.p.core)
    ensures Tended(b, sh')
  {
    forall j | 0 <= j < |b.txns| ensures OwnedAt(b, sh', j) {
      assert OwnedAt(b, sh, j);
      var st := sh.p.core.status[j];
      if AtCommit(st) {
        SteeredStays(b, sh, sh', w);
      } else if st.Running? || st.Writing? {
        var v :| Busy(sh, v, Exec(j));
        assert Busy(sh', v, Exec(j));
      } else if st.Aborting? {
        var v :| Busy(sh, v, Undo(j));
        assert Busy(sh', v, Undo(j));
      }
    }
    forall v | 0 <= v < |sh.jobs| ensures JobOk(b, sh', v) {
      assert JobOk(b, sh, v);
    }
  }

  lemma SteeredStays(b: Block, sh: Shop, sh': Shop, w: nat)
    requires ShopFits(b, sh) && ShopFits(b, sh') && Walked(b, sh, sh', w) && Steered(sh)
    requires sh.p.workers[w] == Coordinating ==> sh'.p.workers[w] == Coordinating
    ensures Steered(sh')
  {
    var v :| 0 <= v < |sh.p.workers| && sh.p.workers[v] == Coordinating;
    assert sh'.p.workers[v] == Coordinating;
  }

  lemma CommitTended(b: Block, limits: Limits, sh: Shop, w: nat, a: Action)
    requires ShopInv(b, limits, sh) && Tended(b, sh) && CanStride(b, sh, Walk(CommitNext(w, a)))
    ensures var sh' := DoStride(b, limits, sh, Walk(CommitNext(w, a))); !sh'.p.failed ==> Tended(b, sh')
  {
    var c, sh' := sh.p.core.commits, DoStride(b, limits, sh, Walk(CommitNext(w, a)));
    CommitFacts(b, sh.p.core, a);
    if !sh'.p.failed { CommittedTended(b, sh, sh', c); }
  }

  lemma CommittedTended(b: Block, sh: Shop, sh': Shop, c: nat)
    requires ShopFits(b, sh) && ShopFits(b, sh') && Tended(b, sh) && Ordered(b, sh.p.core)
    requires c == sh.p.core.commits < |b.txns| && (sh.p.core.status[c].Executed? || sh.p.core.status[c].Rechecking?)
    requires sh'.jobs == sh.jobs && sh'.p.workers == sh.p.workers && sh'.p.core == DoCommit(b, sh.p.core)
    ensures Tended(b, sh')
  {
    forall j | 0 <= j < |b.txns| ensures OwnedAt(b, sh', j) {
      assert OwnedAt(b, sh, j);
      SameOwner(b, sh, sh', j);
    }
    forall v | 0 <= v < |sh.jobs| ensures JobOk(b, sh', v) {
      assert JobOk(b, sh, v);
    }
  }

  lemma SameOwner(b: Block, sh: Shop, sh': Shop, j: nat)
    requires ShopFits(b, sh) && ShopFits(b, sh') && j < |b.txns| && OwnedAt(b, sh, j)
    requires sh'.jobs == sh.jobs && sh'.p.workers == sh.p.workers
    requires sh'.p.core.status[j].Committed?
      || (sh'.p.core.status[j] == sh.p.core.status[j] && !AtCommit(sh.p.core.status[j]))
    ensures OwnedAt(b, sh', j)
  {
    var st := sh'.p.core.status[j];
    if st.Running? || st.Writing? {
      var v :| Busy(sh, v, Exec(j));
      assert Busy(sh', v, Exec(j));
    } else if st.Aborting? {
      var v :| Busy(sh, v, Undo(j));
      assert Busy(sh', v, Undo(j));
    }
  }

  lemma WalkTended(b: Block, limits: Limits, sh: Shop, m: Move)
    requires ShopInv(b, limits, sh) && Tended(b, sh) && !sh.p.halted && !sh.p.failed && CanStride(b, sh, Walk(m))
    ensures var sh' := DoStride(b, limits, sh, Walk(m)); !sh'.p.failed ==> Tended(b, sh')
  {
    var w, sh' := m.w, DoStride(b, limits, sh, Walk(m));
    if m.CommitNext? {
      CommitTended(b, limits, sh, w, m.a);
    } else if !m.Fail? {
      assert sh'.p.workers == sh.p.workers[w := sh'.p.workers[w]];
      WalkFrame(b, sh, sh', w);
    }
  }

  lemma StrideKeeps(b: Block, limits: Limits, sh: Shop, x: Stride)
    requires ShopInv(b, limits, sh) && CanStride(b, sh, x)
    ensures ShopInv(b, limits, DoStride(b, limits, sh, x))
  {
    match x
    case Walk(m) =>
      MoveKeeps(b, limits, sh.p, m);
      if !sh.p.halted && !sh.p.failed { WalkTended(b, limits, sh, m); }
    case Work(w, a) =>
      CoreKeeps(b, limits, sh.p, a);
      if !sh.p.halted && !sh.p.failed { WorkTended(b, sh, w, a); }
    case GiveUp(w) =>
  }

  lemma {:induction false} StridesKeep(b: Block, limits: Limits, sh: Shop, xs: seq<Stride>, sh': Shop)
    requires ShopInv(b, limits, sh) && Gets(b, limits, sh, xs, sh')
    ensures ShopInv(b, limits, sh')
    decreases |xs|
  {
    if xs != [] {
      StrideKeeps(b, limits, sh, xs[0]);
      StridesKeep(b, limits, DoStride(b, limits, sh, xs[0]), xs[1..], sh');
    }
  }

  lemma InitTended(b: Block, limits: Limits, workers: nat)
    requires |b.txns| > 0
    ensures ShopInv(b, limits, InitShop(b, workers))
  {
    var sh := InitShop(b, workers);
    InitFlow(b, limits, workers);
    forall i | 0 <= i < |b.txns| ensures OwnedAt(b, sh, i) {
    }
  }

  /* ---- Waiting ---- */

  /** A read that meets an estimate meets it at a lower transaction that is not finished. */
  lemma {:induction false} BlockedBelow(b: Block, s: State, i: nat, k: Key) returns (j: nat)
    requires Inv(b, s) && i <= |b.txns| && ReadBelow(b.base, s.layers, i, k).Blocked?
    ensures s.commits <= j < i && k in s.layers[j] && s.layers[j][k].estimate
    ensures var st := s.status[j]; ((st.Ready? || st.Running?) && st.inc > 0) || st.Writing? || st.Aborting?
  {
    if k in s.layers[i - 1] && s.layers[i - 1][k].estimate {
      j := i - 1;
      assert LocalAt(b, s, j);
    } else {
      j := BlockedBelow(b, s, i - 1, k);
    }
  }

  /** The worker a transaction in progress belongs to. */
  ghost predicate WorksOn(b: Block, sh: Shop, w: nat, j: nat)
    requires ShopFits(b, sh)
  {
    w < |sh.jobs| && (Takes(sh.jobs[w], j) || AtHelm(b, sh, w, j))
  }

  lemma SomebodyWorksOn(b: Block, sh: Shop, j: nat) returns (w: nat)
    requires ShopFits(b, sh) && Tended(b, sh) && Inv(b, sh.p.core) && j < |b.txns|
    requires var st := sh.p.core.status[j]; (st.Ready? && st.inc > 0) || st.Running? || st.Writing? || st.Aborting?
    ensures WorksOn(b, sh, w, j)
  {
    assert OwnedAt(b, sh, j);
    var st := sh.p.core.status[j];
    if AtCommit(st) {
      w :| 0 <= w < |sh.p.workers| && sh.p.workers[w] == Coordinating;
    } else if st.Ready? {
      w :| 0 <= w < |sh.jobs| && sh.jobs[w] == Exec(j);
    } else if st.Aborting? {
      w :| Busy(sh, w, Undo(j));
    } else {
      w :| Busy(sh, w, Exec(j));
    }
  }

  /** Waits cannot cycle: in every state reached before the run is halted, a worker whose execution
      meets an estimate waits for a worker that has a lower transaction in hand. */
  lemma WaitsPointDown(b: Block, limits: Limits, workers: nat, xs: seq<Stride>, sh: Shop, i: nat, k: Key)
    returns (v: nat, j: nat)
    requires |b.txns| > 0 && Gets(b, limits, InitShop(b, workers), xs, sh) && !sh.p.halted && !sh.p.failed
    requires ShopFits(b, sh) && i <= |b.txns| && ReadBelow(b.base, sh.p.core.layers, i, k).Blocked?
    ensures sh.p.core.commits <= j < i && WorksOn(b, sh, v, j)
  {
    InitTended(b, limits, workers);
    StridesKeep(b, limits, InitShop(b, workers), xs, sh);
    j := BlockedBelow(b, sh.p.core, i, k);
    v := SomebodyWorksOn(b, sh, j);
  }
}
