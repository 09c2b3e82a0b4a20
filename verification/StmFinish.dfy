/** The workers can always be brought to their end: from every state they reach without a failure the
    block can be committed up to where it ends, its queue drained and all workers sent home, although
    workers own their tasks and wait for each other's estimates. */
module StmFinish {
  import opened StmTypes
  import opened StmCache
  import opened StmMachine
  import opened StmInvariant
  import opened StmSerial
  import opened StmProgress
  import opened StmSequential
  import opened StmPipeline
  import opened StmWorkers

  ghost predicate Up(b: Block, limits: Limits, p: Pipe) {
    PipeInv(b, limits, p) && !p.failed && |p.workers| > 0
  }

  ghost predicate Good(b: Block, limits: Limits, sh: Shop) {
    ShopInv(b, limits, sh) && Up(b, limits, sh.p)
  }

  /** Before the run is halted, when every transaction in progress has its worker. */
  ghost predicate Open(b: Block, limits: Limits, sh: Shop) {
    Good(b, limits, sh) && !sh.p.halted
  }

  ghost predicate Can(b: Block, limits: Limits, sh: Shop, sh': Shop) {
    exists xs :: Gets(b, limits, sh, xs, sh')
  }

  lemma {:induction false} Joined(
    b: Block, limits: Limits, sh: Shop, xs: seq<Stride>, m: Shop, ys: seq<Stride>, sh': Shop)
    requires Gets(b, limits, sh, xs, m) && Gets(b, limits, m, ys, sh')
    ensures Gets(b, limits, sh, xs + ys, sh')
    decreases |xs|
  {
    if xs == [] {
      assert xs + ys == ys;
    } else {
      var all := xs + ys;
      assert all[0] == xs[0] && all[1..] == xs[1..] + ys;
      Joined(b, limits, DoStride(b, limits, sh, xs[0]), xs[1..], m, ys, sh');
    }
  }

  lemma Then(b: Block, limits: Limits, sh: Shop, m: Shop, sh': Shop)
    requires Can(b, limits, sh, m) && Can(b, limits, m, sh')
    ensures Can(b, limits, sh, sh')
  {
    var xs :| Gets(b, limits, sh, xs, m);
    var ys :| Gets(b, limits, m, ys, sh');
    Joined(b, limits, sh, xs, m, ys, sh');
  }

  lemma Stay(b: Block, limits: Limits, sh: Shop)
    requires ShopFits(b, sh)
    ensures Can(b, limits, sh, sh)
  {
    assert Gets(b, limits, sh, [], sh);
  }

  lemma Once(b: Block, limits: Limits, sh: Shop, x: Stride)
    requires Good(b, limits, sh) && CanStride(b, sh, x)
    ensures Can(b, limits, sh, DoStride(b, limits, sh, x)) && ShopInv(b, limits, DoStride(b, limits, sh, x))
  {
    var xs := [x];
    assert xs[1..] == [];
    assert Gets(b, limits, sh, xs, DoStride(b, limits, sh, x));
    StrideKeeps(b, limits, sh, x);
  }

  lemma WorkOne(b: Block, limits: Limits, sh: Shop, w: nat, a: Action)
    requires Open(b, limits, sh) && CanStride(b, sh, Work(w, a))
    ensures Can(b, limits, sh, Worked(b, sh, w, a)) && Open(b, limits, Worked(b, sh, w, a))
  {
    Once(b, limits, sh, Work(w, a));
  }

  lemma WalkOne(b: Block, limits: Limits, sh: Shop, m: Move)
    requires Good(b, limits, sh) && CanStride(b, sh, Walk(m)) && !m.Fail? && !m.CommitNext?
    ensures var sh' := sh.(p := DoMove(b, limits, sh.p, m));
      && Can(b, limits, sh, sh') && Good(b, limits, sh')
      && sh'.p.core == sh.p.core && sh'.p.halted == sh.p.halted
  {
    Once(b, limits, sh, Walk(m));
  }

  /* ---- One worker's next move ---- */

  ghost function NextMove(p: Pipe, w: nat): Move
    requires w < |p.workers|
  {
    match p.workers[w]
    case Looping => Drain(w)
    case Coordinating => if p.pending.Some? then Enqueue(w) else EndCoordinate(w)
    case Draining(_) => if p.queue != [] then Pop(w) else DrainEmpty(w)
    case Materializing(_, _) => Materialize(w)
    case Working => if p.halted then SeeDone(w) else DoTask(w)
    case Exited => Fail(w)
  }

  /** How far a worker is from its exit, counting what it may have to materialize on the way. */
  ghost function ToExit(p: Pipe, w: nat): nat
    requires w < |p.workers|
  {
    2 * |p.queue| + (if p.pending.Some? then 3 else 0)
    + match p.workers[w]
      case Coordinating => 7
      case Looping => 6
      case Materializing(_, last) => if last then 2 else 5
      case Draining(last) => if last then 1 else 4
      case Working => 3
      case Exited => 0
  }

  /** How far a worker is from its task. */
  ghost function ToWork(p: Pipe, w: nat): nat
    requires w < |p.workers|
  {
    2 * |p.queue| + (if p.pending.Some? then 3 else 0)
    + match p.workers[w]
      case Coordinating => 4
      case Looping => 3
      case Materializing(_, _) => 2
      case Draining(_) => 1
      case _ => 0
  }

  lemma {:induction false} HeldOnce(ws: seq<Worker>, w: nat)
    requires w < |ws| && ws[w].Materializing?
    ensures Held(ws, ws[w].idx) >= 1
  {
    if w > 0 { HeldOnce(ws[1..], w - 1); }
  }

  /** What a worker has in its hands is committed, so it can be materialized. */
  lemma CanMaterialize(b: Block, limits: Limits, p: Pipe, w: nat)
    requires Up(b, limits, p) && w < |p.workers| && p.workers[w].Materializing?
    ensures CanMove(b, p, Materialize(w))
  {
    var i := p.workers[w].idx;
    HeldOnce(p.workers, w);
    assert Places(p.pending, p.queue, p.workers, p.written, i) == if i < p.core.commits then 1 else 0;
    CommittedReceipt(b, p.core, i);
  }

  /** Every worker that has not left can move; only its own place and the queue change. */
  lemma WorkerMoves(b: Block, limits: Limits, p: Pipe, w: nat)
    requires Up(b, limits, p) && w < |p.workers| && p.workers[w] != Exited
    ensures CanMove(b, p, NextMove(p, w))
    ensures var p' := DoMove(b, limits, p, NextMove(p, w));
      && Up(b, limits, p') && p'.core == p.core && p'.halted == p.halted
      && |p'.workers| == |p.workers| && p'.workers == p.workers[w := p'.workers[w]]
  {
    if p.workers[w].Materializing? { CanMaterialize(b, limits, p, w); }
    MoveKeeps(b, limits, p, NextMove(p, w));
  }

  /* ---- Executing ---- */

  ghost predicate Unblocked(b: Block, s: State, i: nat)
    requires Sized(b, s) && i <= |b.txns|
  {
    forall k :: ReadBelow(b.base, s.layers, i, k).Found?
  }

  ghost predicate InProgress(st: Status) {
    st.Running? || st.Writing?
  }

  /** One step of an execution by its worker: nothing else changes, and reads that matched still do. */
  ghost predicate Ahead(b: Block, sh: Shop, sh': Shop, i: nat)
    requires ShopFits(b, sh) && ShopFits(b, sh') && i < |b.txns| && InProgress(sh.p.core.status[i])
  {
    var s, s' := sh.p.core, sh'.p.core;
    && sh'.p == sh.p.(core := s') && s'.commits == s.commits && OnlyAt(b, s, s', i) && sh'.jobs == sh.jobs
    && InProgress(s'.status[i]) && s'.status[i].inc == s.status[i].inc && s'.status[i].atCommit == s.status[i].atCommit
    && (AllReadsMatch(b, s, i, s.status[i].captured) ==> AllReadsMatch(b, s', i, s'.status[i].captured))
  }

  /** A whole execution by its worker. */
  ghost predicate Ran(b: Block, sh: Shop, sh': Shop, w: nat, i: nat)
    requires ShopFits(b, sh) && ShopFits(b, sh') && i < |b.txns| && InProgress(sh.p.core.status[i]) && w < |sh.jobs|
  {
    var s, s', st := sh.p.core, sh'.p.core, sh.p.core.status[i];
    && sh'.p == sh.p.(core := s') && s'.commits == s.commits && OnlyAt(b, s, s', i)
    && s'.status[i] == (if st.atCommit then Rechecking(st.inc) else Executed(st.inc)) && s'.records[i].Some?
    && sh'.jobs == (if st.atCommit then sh.jobs else sh.jobs[w := Free])
    && (AllReadsMatch(b, s, i, st.captured) ==> AllReadsMatch(b, s', i, s'.records[i].value.captured))
  }

  lemma ReadOn(b: Block, limits: Limits, sh: Shop, w: nat, i: nat)
    requires Open(b, limits, sh) && i < |b.txns| && Executes(b, sh, w, i) && CanStride(b, sh, Work(w, ReadKey(i)))
    ensures Ahead(b, sh, Worked(b, sh, w, ReadKey(i)), i)
  {
    var s, s' := sh.p.core, Worked(b, sh, w, ReadKey(i)).p.core;
    var before, after := s.status[i].captured, s'.status[i].captured;
    assert after[..|before|] == before && s'.layers == s.layers;
  }

  lemma WriteOn(b: Block, limits: Limits, sh: Shop, w: nat, i: nat, a: Action)
    requires Open(b, limits, sh) && i < |b.txns| && Executes(b, sh, w, i) && CanStride(b, sh, Work(w, a))
    requires a == EndRun(i) || (a.Write? && a.i == i) || (a.Remove? && a.i == i)
    ensures Ahead(b, sh, Worked(b, sh, w, a), i)
  {
    var s, s' := sh.p.core, Worked(b, sh, w, a).p.core;
    if AllReadsMatch(b, s, i, s.status[i].captured) { SameReads(b, s, s', i, s.status[i].captured); }
  }

  lemma EndOn(b: Block, limits: Limits, sh: Shop, w: nat, i: nat)
    requires Open(b, limits, sh) && i < |b.txns| && Executes(b, sh, w, i) && CanStride(b, sh, Work(w, EndExecution(i)))
    ensures Ran(b, sh, Worked(b, sh, w, EndExecution(i)), w, i)
  {
    var s, s' := sh.p.core, Worked(b, sh, w, EndExecution(i)).p.core;
    assert JobOk(b, sh, w);
    if AllReadsMatch(b, s, i, s.status[i].captured) { SameReads(b, s, s', i, s.status[i].captured); }
  }

  lemma StillUnblocked(b: Block, s: State, s': State, i: nat)
    requires Sized(b, s) && Sized(b, s') && i < |b.txns| && Unblocked(b, s, i)
    requires forall j :: 0 <= j < i ==> s'.layers[j] == s.layers[j]
    ensures Unblocked(b, s', i)
  {
    forall k ensures ReadBelow(b.base, s'.layers, i, k).Found? {
      SameBelow(b.base, s.layers, s'.layers, i, k);
    }
  }

  /** The next step of an execution; the key to write or remove is any that is left. */
  ghost function NextAct(b: Block, s: State, i: nat): Action
    requires Sized(b, s) && i < |b.txns| && InProgress(s.status[i])
  {
    var st := s.status[i];
    if st.Running? then (if Next(b.txns[i], FactsOf(st.captured)).Fetch? then ReadKey(i) else EndRun(i))
    else if st.todo != {} then (var k :| k in st.todo; Write(i, k))
    else if st.stale != {} then (var k :| k in st.stale; Remove(i, k))
    else EndExecution(i)
  }

  lemma NextActOk(b: Block, limits: Limits, sh: Shop, w: nat, i: nat)
    requires Open(b, limits, sh) && NoCodeErrors(b) && i < |b.txns| && Executes(b, sh, w, i)
    requires InProgress(sh.p.core.status[i]) && Unblocked(b, sh.p.core, i)
    ensures CanStride(b, sh, Work(w, NextAct(b, sh.p.core, i)))
  {
    assert LocalAt(b, sh.p.core, i);
  }

  /** What is left of an execution. */
  ghost function Remaining(b: Block, s: State, i: nat): (nat, set<Key>, set<Key>)
    requires Sized(b, s) && i < |b.txns| && InProgress(s.status[i])
  {
    var st := s.status[i];
    var gas := b.txns[i].gas;
    if st.Running? then (gas + 1 - if |st.captured| <= gas then |st.captured| else gas, {}, {})
    else (0, st.todo, st.stale)
  }

  lemma NextActShrinks(b: Block, s: State, i: nat)
    requires Inv(b, s) && i < |b.txns| && InProgress(s.status[i])
    requires Enabled(b, s, NextAct(b, s, i)) && !NextAct(b, s, i).EndExecution?
    ensures var s' := Apply(b, s, NextAct(b, s, i));
      && InProgress(s'.status[i])
      && var r, r' := Remaining(b, s, i), Remaining(b, s', i);
         r'.0 < r.0 || (r'.0 == r.0 && (r'.1 < r.1 || (r'.1 == r.1 && r'.2 < r.2)))
  {
  }

  lemma AheadRan(b: Block, sh: Shop, m: Shop, sh': Shop, w: nat, i: nat)
    requires ShopFits(b, sh) && ShopFits(b, m) && ShopFits(b, sh') && i < |b.txns| && w < |sh.jobs|
    requires InProgress(sh.p.core.status[i]) && Ahead(b, sh, m, i) && Ran(b, m, sh', w, i)
    ensures Ran(b, sh, sh', w, i)
  {
  }

  lemma RunStep(b: Block, limits: Limits, sh: Shop, w: nat, i: nat) returns (m: Shop)
    requires Open(b, limits, sh) && NoCodeErrors(b) && i < |b.txns| && Executes(b, sh, w, i)
    requires InProgress(sh.p.core.status[i]) && Unblocked(b, sh.p.core, i) && !NextAct(b, sh.p.core, i).EndExecution?
    ensures Can(b, limits, sh, m) && Open(b, limits, m) && Ahead(b, sh, m, i)
    ensures Executes(b, m, w, i) && Unblocked(b, m.p.core, i)
    ensures var r, r' := Remaining(b, sh.p.core, i), Remaining(b, m.p.core, i);
      r'.0 < r.0 || (r'.0 == r.0 && (r'.1 < r.1 || (r'.1 == r.1 && r'.2 < r.2)))
  {
    var a := NextAct(b, sh.p.core, i);
    NextActOk(b, limits, sh, w, i);
    WorkOne(b, limits, sh, w, a);
    NextAhead(b, limits, sh, w, i);
    NextActShrinks(b, sh.p.core, i);
    m := Worked(b, sh, w, a);
  }

  lemma NextAhead(b: Block, limits: Limits, sh: Shop, w: nat, i: nat)
    requires Open(b, limits, sh) && i < |b.txns| && Executes(b, sh, w, i) && InProgress(sh.p.core.status[i])
    requires Unblocked(b, sh.p.core, i) && !NextAct(b, sh.p.core, i).EndExecution?
    requires CanStride(b, sh, Work(w, NextAct(b, sh.p.core, i)))
    ensures var m := Worked(b, sh, w, NextAct(b, sh.p.core, i));
      ShopFits(b, m) && Ahead(b, sh, m, i) && Executes(b, m, w, i) && Unblocked(b, m.p.core, i)
  {
    var a := NextAct(b, sh.p.core, i);
    if a.ReadKey? { ReadOn(b, limits, sh, w, i); } else { WriteOn(b, limits, sh, w, i, a); }
    StillUnblocked(b, sh.p.core, Worked(b, sh, w, a).p.core, i);
  }

  /** An execution that cannot be blocked is brought to its record by its worker. */
  lemma {:induction false} RunOn(b: Block, limits: Limits, sh: Shop, w: nat, i: nat) returns (sh': Shop)
    requires Open(b, limits, sh) && NoCodeErrors(b) && i < |b.txns| && Executes(b, sh, w, i)
    requires InProgress(sh.p.core.status[i]) && Unblocked(b, sh.p.core, i)
    ensures Can(b, limits, sh, sh') && Open(b, limits, sh') && Ran(b, sh, sh', w, i)
    decreases Remaining(b, sh.p.core, i).0, Remaining(b, sh.p.core, i).1, Remaining(b, sh.p.core, i).2
  {
    if NextAct(b, sh.p.core, i).EndExecution? {
      NextActOk(b, limits, sh, w, i);
      WorkOne(b, limits, sh, w, EndExecution(i));
      EndOn(b, limits, sh, w, i);
      sh' := Worked(b, sh, w, EndExecution(i));
    } else {
      var m := RunStep(b, limits, sh, w, i);
      sh' := RunOn(b, limits, m, w, i);
      Then(b, limits, sh, m, sh');
      AheadRan(b, sh, m, sh', w, i);
    }
  }

  /* ---- Aborting and validating ---- */

  /** The remaining marks of an abort; the transaction is still in the same hands. */
  lemma {:induction false} MarkOn(b: Block, limits: Limits, sh: Shop, w: nat, i: nat) returns (sh': Shop)
    requires Open(b, limits, sh) && i < |b.txns| && (Busy(sh, w, Undo(i)) || AtHelm(b, sh, w, i))
    requires sh.p.core.status[i].Aborting?
    ensures Can(b, limits, sh, sh') && Open(b, limits, sh') && Marked(b, sh, sh', i)
    decreases sh.p.core.status[i].todo
  {
    if sh.p.core.status[i].todo == {} {
      Stay(b, limits, sh);
      sh' := sh;
    } else {
      var m := MarkOnce(b, limits, sh, w, i);
      sh' := MarkOn(b, limits, m, w, i);
      Then(b, limits, sh, m, sh');
    }
  }

  ghost predicate Marked(b: Block, sh: Shop, sh': Shop, i: nat)
    requires ShopFits(b, sh) && ShopFits(b, sh') && i < |b.txns| && sh.p.core.status[i].Aborting?
  {
    var s, s', st := sh.p.core, sh'.p.core, sh.p.core.status[i];
    && sh'.p == sh.p.(core := s') && s'.commits == s.commits && OnlyAt(b, s, s', i) && sh'.jobs == sh.jobs
    && s'.status[i] == Aborting(st.inc, {}, st.atCommit)
  }

  lemma MarkOnce(b: Block, limits: Limits, sh: Shop, w: nat, i: nat) returns (m: Shop)
    requires Open(b, limits, sh) && i < |b.txns| && (Busy(sh, w, Undo(i)) || AtHelm(b, sh, w, i))
    requires sh.p.core.status[i].Aborting? && sh.p.core.status[i].todo != {}
    ensures Can(b, limits, sh, m) && Open(b, limits, m)
    ensures m.p == sh.p.(core := m.p.core) && m.jobs == sh.jobs && m.p.core.commits == sh.p.core.commits
    ensures OnlyAt(b, sh.p.core, m.p.core, i) && m.p.core.status[i].Aborting?
    ensures var st, st' := sh.p.core.status[i], m.p.core.status[i];
      st'.todo < st.todo && st'.inc == st.inc && st'.atCommit == st.atCommit
  {
    var k :| k in sh.p.core.status[i].todo;
    assert LocalAt(b, sh.p.core, i);
    WorkOne(b, limits, sh, w, MarkEstimate(i, k));
    m := Worked(b, sh, w, MarkEstimate(i, k));
  }

  /** The remaining checks of a validation. */
  lemma {:induction false} CheckOn(b: Block, limits: Limits, sh: Shop, w: nat) returns (sh': Shop)
    requires Open(b, limits, sh) && w < |sh.jobs| && sh.jobs[w].Check?
    ensures Can(b, limits, sh, sh') && Open(b, limits, sh') && Checked(b, sh, sh', w)
    decreases if w in sh.p.core.tasks then |sh.p.core.tasks[w].captured| - sh.p.core.tasks[w].pos else 0,
      if w in sh.p.core.tasks && sh.p.core.tasks[w].ok then 1 else 0
  {
    assert JobOk(b, sh, w);
    var s := sh.p.core;
    assert TaskOk(b, s, s.tasks[w]);
    if !s.tasks[w].ok || s.tasks[w].pos == |s.tasks[w].captured| {
      Stay(b, limits, sh);
      sh' := sh;
    } else {
      var m := CheckOnce(b, limits, sh, w);
      sh' := CheckOn(b, limits, m, w);
      Then(b, limits, sh, m, sh');
    }
  }

  lemma CheckOnce(b: Block, limits: Limits, sh: Shop, w: nat) returns (m: Shop)
    requires Open(b, limits, sh) && w < |sh.jobs| && sh.jobs[w].Check? && w in sh.p.core.tasks
    requires CanCheckRead(b, sh.p.core, w)
    ensures Can(b, limits, sh, m) && Open(b, limits, m) && m.p == sh.p.(core := m.p.core) && m.jobs == sh.jobs
    ensures m.p.core == DoCheckRead(b, sh.p.core, w)
  {
    assert JobOk(b, sh, w);
    WorkOne(b, limits, sh, w, CheckRead(w));
    m := Worked(b, sh, w, CheckRead(w));
  }

  ghost predicate Checked(b: Block, sh: Shop, sh': Shop, w: nat)
    requires ShopFits(b, sh) && ShopFits(b, sh')
  {
    var s, s' := sh.p.core, sh'.p.core;
    && sh'.p == sh.p.(core := s') && s' == s.(tasks := s'.tasks) && sh'.jobs == sh.jobs
    && w in s.tasks && w in s'.tasks && CanEndValidation(b, s', w)
    && s'.tasks[w] == s.tasks[w].(pos := s'.tasks[w].pos, ok := s'.tasks[w].ok)
    && (s.tasks[w].idx <= |s.layers| && s.tasks[w].ok && DataReadsMatch(b, s, s.tasks[w].idx, s.tasks[w].captured) ==>
      s'.tasks[w].ok)
  }

  /* ---- Walking ---- */

  /** A worker without a task in progress can be brought to where it takes up work. */
  lemma {:induction false} WalkToWork(b: Block, limits: Limits, sh: Shop, w: nat) returns (sh': Shop)
    requires Open(b, limits, sh) && w < |sh.jobs| && !Reexecuting(b, sh.p.core)
    requires sh.jobs[w] == Free || (sh.jobs[w].Exec? && Waiting(b, sh.p.core, sh.jobs[w].i))
    ensures Can(b, limits, sh, sh') && Open(b, limits, sh')
    ensures sh'.p.core == sh.p.core && sh'.jobs == sh.jobs && IsAt(sh'.p, w, Working)
    decreases ToWork(sh.p, w)
  {
    if sh.p.workers[w] == Working {
      Stay(b, limits, sh);
      sh' := sh;
    } else {
      assert !Leaving(sh.p.workers[w]);
      var m := NextMove(sh.p, w);
      WorkerMoves(b, limits, sh.p, w);
      NearsWork(b, limits, sh.p, w);
      WalkOne(b, limits, sh, m);
      var q := sh.(p := DoMove(b, limits, sh.p, m));
      sh' := WalkToWork(b, limits, q, w);
      Then(b, limits, sh, q, sh');
    }
  }

  lemma NearsWork(b: Block, limits: Limits, p: Pipe, w: nat)
    requires Fits(b, p) && w < |p.workers| && p.workers[w] != Working && !Leaving(p.workers[w])
    requires CanMove(b, p, NextMove(p, w))
    ensures var p' := DoMove(b, limits, p, NextMove(p, w)); |p'.workers| == |p.workers| && ToWork(p', w) < ToWork(p, w)
  {
  }

  /** Somebody coordinates, and no enqueue is due. */
  lemma GetHelm(b: Block, limits: Limits, sh: Shop, w: nat) returns (sh': Shop, v: nat)
    requires Open(b, limits, sh) && Busy(sh, w, Free)
    ensures Can(b, limits, sh, sh') && Open(b, limits, sh') && sh'.p.core == sh.p.core && sh'.jobs == sh.jobs
    ensures IsAt(sh'.p, v, Coordinating) && sh'.p.pending.None?
  {
    var m;
    m, v := GetCoordinator(b, limits, sh, w);
    sh' := m;
    if m.p.pending.Some? {
      WalkOne(b, limits, m, Enqueue(v));
      sh' := m.(p := DoMove(b, limits, m.p, Enqueue(v)));
      Then(b, limits, sh, m, sh');
    }
  }

  lemma GetCoordinator(b: Block, limits: Limits, sh: Shop, w: nat) returns (sh': Shop, v: nat)
    requires Open(b, limits, sh) && Busy(sh, w, Free)
    ensures Can(b, limits, sh, sh') && Open(b, limits, sh') && sh'.p.core == sh.p.core && sh'.jobs == sh.jobs
    ensures IsAt(sh'.p, v, Coordinating)
  {
    if Coordinating in sh.p.workers {
      v :| 0 <= v < |sh.p.workers| && sh.p.workers[v] == Coordinating;
      Stay(b, limits, sh);
      sh' := sh;
    } else {
      v := w;
      WalkOne(b, limits, sh, DoTask(w));
      var m := sh.(p := DoMove(b, limits, sh.p, DoTask(w)));
      WalkOne(b, limits, m, Coordinate(w));
      sh' := m.(p := DoMove(b, limits, m.p, Coordinate(w)));
      Then(b, limits, sh, m, sh');
    }
  }

  /* ---- Finishing a task ---- */

  /** What may change when worker `w` finishes a task: its own job, and no commit or re-execution. */
  ghost predicate Served(b: Block, limits: Limits, sh: Shop, sh': Shop, w: nat) {
    && Can(b, limits, sh, sh') && Open(b, limits, sh') && ShopFits(b, sh)
    && sh'.p.core.commits == sh.p.core.commits && !Reexecuting(b, sh'.p.core)
    && w < |sh.jobs| == |sh'.jobs| && sh'.jobs == sh.jobs[w := sh'.jobs[w]]
  }

  lemma Serves(b: Block, limits: Limits, sh: Shop, m: Shop, sh': Shop, w: nat)
    requires Served(b, limits, sh, m, w) && Served(b, limits, m, sh', w)
    ensures Served(b, limits, sh, sh', w)
  {
    Then(b, limits, sh, m, sh');
  }

  lemma FinishCheck(b: Block, limits: Limits, sh: Shop, w: nat) returns (sh': Shop)
    requires Open(b, limits, sh) && !Reexecuting(b, sh.p.core) && w < |sh.jobs| && sh.jobs[w].Check?
    ensures Served(b, limits, sh, sh', w)
    ensures Busy(sh', w, Free) || (sh'.jobs[w].Undo? && Busy(sh', w, sh'.jobs[w]))
    ensures Judged(b, sh, sh', w)
  {
    var m := CheckOn(b, limits, sh, w);
    sh' := EndCheck(b, limits, m, w);
    JudgedBy(b, limits, sh, m, w);
    Then(b, limits, sh, m, sh');
  }

  lemma JudgedBy(b: Block, limits: Limits, sh: Shop, m: Shop, w: nat)
    requires ShopFits(b, sh) && Open(b, limits, m) && w < |sh.jobs| && Checked(b, sh, m, w)
    requires CanStride(b, m, Work(w, EndValidation(w)))
    ensures Judged(b, sh, Worked(b, m, w, EndValidation(w)), w)
  {
  }

  lemma EndCheck(b: Block, limits: Limits, sh: Shop, w: nat) returns (sh': Shop)
    requires Open(b, limits, sh) && !Reexecuting(b, sh.p.core) && w < |sh.jobs| && sh.jobs[w].Check?
    requires w in sh.p.core.tasks && CanEndValidation(b, sh.p.core, w)
    ensures Served(b, limits, sh, sh', w)
    ensures CanStride(b, sh, Work(w, EndValidation(w))) && sh' == Worked(b, sh, w, EndValidation(w))
    ensures Busy(sh', w, Free) || (sh'.jobs[w].Undo? && Busy(sh', w, sh'.jobs[w]))
  {
    assert JobOk(b, sh, w);
    WorkOne(b, limits, sh, w, EndValidation(w));
    sh' := Worked(b, sh, w, EndValidation(w));
  }

  /** What the validation says: a pass that counts is noted, a failure of the present incarnation is
      undone by the same worker, and matching reads pass. */
  ghost predicate Judged(b: Block, sh: Shop, sh': Shop, w: nat)
    requires ShopFits(b, sh) && ShopFits(b, sh') && |sh'.jobs| == |sh.jobs|
  {
    w < |sh.jobs| && w in sh.p.core.tasks &&
    var t, s, s' := sh.p.core.tasks[w], sh.p.core, sh'.p.core;
    t.idx < |b.txns| && t.current && t.ok && s.status[t.idx] == Executed(t.inc) ==>
      && s'.records == s.records && s'.layers == s.layers
      && (sh'.jobs[w] == Free ==> s'.valid[t.idx] && s'.status[t.idx] == s.status[t.idx])
      && (sh'.jobs[w] != Free ==> sh'.jobs[w] == Undo(t.idx))
      && (DataReadsMatch(b, s, t.idx, t.captured) ==> sh'.jobs[w] == Free)
  }

  lemma FinishUndo(b: Block, limits: Limits, sh: Shop, w: nat, i: nat) returns (sh': Shop)
    requires Open(b, limits, sh) && !Reexecuting(b, sh.p.core) && Busy(sh, w, Undo(i))
    ensures Served(b, limits, sh, sh', w) && Busy(sh', w, Exec(i)) && Waiting(b, sh'.p.core, i)
  {
    assert JobOk(b, sh, w);
    var m := MarkOn(b, limits, sh, w, i);
    WorkOne(b, limits, m, w, EndAbort(i));
    sh' := Worked(b, m, w, EndAbort(i));
    Then(b, limits, sh, m, sh');
  }

  /** An execution whose reads cannot be blocked; one begun here matches what is below it. */
  lemma FinishExec(b: Block, limits: Limits, sh: Shop, w: nat, i: nat) returns (sh': Shop)
    requires Open(b, limits, sh) && NoCodeErrors(b) && !Reexecuting(b, sh.p.core) && w < |sh.jobs|
    requires sh.jobs[w] == Exec(i)
    requires i < |b.txns| && Unblocked(b, sh.p.core, i)
    ensures Served(b, limits, sh, sh', w) && Busy(sh', w, Free)
    ensures sh'.p.core.status[i].Executed? && sh'.p.core.records[i].Some?
    ensures sh.p.core.status[i].Ready? ==> AllReadsMatch(b, sh'.p.core, i, sh'.p.core.records[i].value.captured)
  {
    assert JobOk(b, sh, w);
    if sh.p.core.status[i].Ready? {
      var m := BeginExec(b, limits, sh, w, i);
      sh' := FinishRun(b, limits, m, w, i);
      Serves(b, limits, sh, m, sh', w);
    } else {
      sh' := FinishRun(b, limits, sh, w, i);
    }
  }

  lemma FinishRun(b: Block, limits: Limits, sh: Shop, w: nat, i: nat) returns (sh': Shop)
    requires Open(b, limits, sh) && NoCodeErrors(b) && !Reexecuting(b, sh.p.core) && Busy(sh, w, Exec(i))
    requires i < |b.txns| && InProgress(sh.p.core.status[i]) && Unblocked(b, sh.p.core, i)
    ensures Served(b, limits, sh, sh', w) && Busy(sh', w, Free)
    ensures sh'.p.core.status[i].Executed? && sh'.p.core.records[i].Some?
    ensures sh.p.core.status[i].captured == [] ==> AllReadsMatch(b, sh'.p.core, i, sh'.p.core.records[i].value.captured)
  {
    assert JobOk(b, sh, w);
    sh' := RunOn(b, limits, sh, w, i);
  }

  lemma BeginExec(b: Block, limits: Limits, sh: Shop, w: nat, i: nat) returns (sh': Shop)
    requires Open(b, limits, sh) && !Reexecuting(b, sh.p.core) && w < |sh.jobs|
    requires i < |b.txns| && sh.p.core.status[i].Ready?
    requires (sh.jobs[w] == Exec(i) || (sh.jobs[w] == Free && Untaken(sh, i)))
    ensures Served(b, limits, sh, sh', w) && Busy(sh', w, Exec(i))
    ensures sh'.p.core.status[i] == Running(sh.p.core.status[i].inc, [], false)
    ensures sh'.p.core.layers == sh.p.core.layers && sh'.p.core.records == sh.p.core.records
  {
    var m := WalkToWork(b, limits, sh, w);
    WorkOne(b, limits, m, w, Start(i));
    sh' := Worked(b, m, w, Start(i));
    Then(b, limits, sh, m, sh');
  }

  /* ---- A free worker ---- */

  /** How much is left before every job is an execution. */
  ghost function Weight(jobs: seq<Job>): nat {
    if jobs == [] then 0
    else Weight(jobs[..|jobs| - 1]) + match jobs[|jobs| - 1] case Check(_) => 2 case Undo(_) => 1 case _ => 0
  }

  lemma {:induction false} WeightSet(jobs: seq<Job>, w: nat, j: Job)
    requires w < |jobs| && (jobs[w].Check? || (jobs[w].Undo? && !j.Check?)) && !j.Check? && (jobs[w].Undo? ==> !j.Undo?)
    ensures Weight(jobs[w := j]) < Weight(jobs)
  {
    var last := |jobs| - 1;
    if w == last {
      assert jobs[w := j][..last] == jobs[..last];
    } else {
      WeightSet(jobs[..last], w, j);
      assert jobs[w := j][..last] == jobs[..last][w := j];
    }
  }

  lemma {:induction false} LowestJob(jobs: seq<Job>) returns (w: nat)
    requires |jobs| > 0 && forall v :: 0 <= v < |jobs| ==> jobs[v].Exec?
    ensures w < |jobs| && forall v :: 0 <= v < |jobs| ==> jobs[w].i <= jobs[v].i
  {
    var last := |jobs| - 1;
    w := last;
    if last > 0 {
      var u := LowestJob(jobs[..last]);
      w := if jobs[u].i <= jobs[last].i then u else last;
      forall v | 0 <= v < |jobs| ensures jobs[w].i <= jobs[v].i {
        if v < last { assert jobs[..last][v] == jobs[v]; }
      }
    }
  }

  /** The worker with the lowest execution waits for nobody. */
  lemma LowestUnblocked(b: Block, limits: Limits, sh: Shop, i: nat)
    requires Open(b, limits, sh) && !Reexecuting(b, sh.p.core) && i < |b.txns|
    requires forall v, j: nat :: 0 <= v < |sh.jobs| && Takes(sh.jobs[v], j) ==> i <= j
    ensures Unblocked(b, sh.p.core, i)
  {
    forall k ensures ReadBelow(b.base, sh.p.core.layers, i, k).Found? {
      if ReadBelow(b.base, sh.p.core.layers, i, k).Blocked? {
        var j := BlockedBelow(b, sh.p.core, i, k);
        var v := SomebodyWorksOn(b, sh, j);
      }
    }
  }

  lemma LowestExec(b: Block, limits: Limits, sh: Shop) returns (sh': Shop, w: nat)
    requires Open(b, limits, sh) && NoCodeErrors(b) && !Reexecuting(b, sh.p.core)
    requires forall v :: 0 <= v < |sh.jobs| ==> sh.jobs[v].Exec?
    ensures Served(b, limits, sh, sh', w) && Busy(sh', w, Free)
  {
    w := LowestJob(sh.jobs);
    assert JobOk(b, sh, w);
    LowestUnblocked(b, limits, sh, sh.jobs[w].i);
    sh' := FinishExec(b, limits, sh, w, sh.jobs[w].i);
  }

  /** Unless a re-execution is going on, some worker can be freed. */
  lemma {:induction false} FreeOne(b: Block, limits: Limits, sh: Shop) returns (sh': Shop, w: nat)
    requires Open(b, limits, sh) && NoCodeErrors(b) && !Reexecuting(b, sh.p.core)
    ensures Can(b, limits, sh, sh') && Open(b, limits, sh') && Busy(sh', w, Free)
    ensures sh'.p.core.commits == sh.p.core.commits && !Reexecuting(b, sh'.p.core)
    decreases Weight(sh.jobs)
  {
    if v :| 0 <= v < |sh.jobs| && sh.jobs[v] == Free {
      w := v;
      sh' := WalkToWork(b, limits, sh, w);
    } else if v :| 0 <= v < |sh.jobs| && (sh.jobs[v].Check? || sh.jobs[v].Undo?) {
      var m := Lighter(b, limits, sh, v);
      sh', w := FreeOne(b, limits, m);
      Then(b, limits, sh, m, sh');
    } else {
      forall v | 0 <= v < |sh.jobs| ensures sh.jobs[v].Exec? {
        assert sh.jobs[v] != Free && !sh.jobs[v].Check? && !sh.jobs[v].Undo?;
      }
      sh', w := LowestExec(b, limits, sh);
    }
  }

  lemma Lighter(b: Block, limits: Limits, sh: Shop, v: nat) returns (m: Shop)
    requires Open(b, limits, sh) && !Reexecuting(b, sh.p.core) && v < |sh.jobs|
    requires (sh.jobs[v].Check? || sh.jobs[v].Undo?)
    ensures Served(b, limits, sh, m, v) && Weight(m.jobs) < Weight(sh.jobs)
  {
    if sh.jobs[v].Check? {
      m := FinishCheck(b, limits, sh, v);
    } else {
      assert JobOk(b, sh, v);
      m := FinishUndo(b, limits, sh, v, sh.jobs[v].i);
    }
    WeightSet(sh.jobs, v, m.jobs[v]);
  }

  /* ---- The next transaction ---- */

  lemma CommittedUnblocked(b: Block, s: State)
    requires Inv(b, s) && s.commits < |b.txns|
    ensures Unblocked(b, s, s.commits)
  {
    forall k ensures ReadBelow(b.base, s.layers, s.commits, k).Found? {
      CommittedRead(b, s, s.commits, k);
    }
  }

  /** A free worker and the next transaction executed, though not offered yet. */
  ghost predicate Poised(b: Block, limits: Limits, sh: Shop, w: nat) {
    && Open(b, limits, sh) && !Reexecuting(b, sh.p.core) && Busy(sh, w, Free)
    && sh.p.core.commits < |b.txns| && sh.p.core.status[sh.p.core.commits].Executed?
    && sh.p.core.records[sh.p.core.commits].Some?
  }

  lemma ExecuteNext(b: Block, limits: Limits, sh: Shop, w: nat) returns (sh': Shop)
    requires Open(b, limits, sh) && NoCodeErrors(b) && !Reexecuting(b, sh.p.core) && sh.p.core.commits < |b.txns|
    requires w < |sh.jobs| && sh.jobs[w] == Exec(sh.p.core.commits)
    ensures Served(b, limits, sh, sh', w) && Poised(b, limits, sh', w)
    ensures var c := sh.p.core.commits;
      sh.p.core.status[c].Ready? ==> AllReadsMatch(b, sh'.p.core, c, sh'.p.core.records[c].value.captured)
  {
    CommittedUnblocked(b, sh.p.core);
    sh' := FinishExec(b, limits, sh, w, sh.p.core.commits);
  }

  lemma UndoNext(b: Block, limits: Limits, sh: Shop, w: nat) returns (sh': Shop)
    requires Open(b, limits, sh) && NoCodeErrors(b) && !Reexecuting(b, sh.p.core) && sh.p.core.commits < |b.txns|
    requires Busy(sh, w, Undo(sh.p.core.commits))
    ensures Served(b, limits, sh, sh', w) && Poised(b, limits, sh', w)
    ensures var c := sh.p.core.commits; AllReadsMatch(b, sh'.p.core, c, sh'.p.core.records[c].value.captured)
  {
    var m := FinishUndo(b, limits, sh, w, sh.p.core.commits);
    sh' := ExecuteNext(b, limits, m, w);
    Serves(b, limits, sh, m, sh', w);
  }

  lemma GetPoised(b: Block, limits: Limits, sh: Shop) returns (sh': Shop, w: nat)
    requires Open(b, limits, sh) && NoCodeErrors(b) && !Reexecuting(b, sh.p.core) && sh.p.core.commits < |b.txns|
    ensures Can(b, limits, sh, sh') && Poised(b, limits, sh', w) && sh'.p.core.commits == sh.p.core.commits
  {
    var m;
    m, w := FreeOne(b, limits, sh);
    sh', w := PoiseNext(b, limits, m, w);
    Then(b, limits, sh, m, sh');
  }

  lemma PoiseNext(b: Block, limits: Limits, sh: Shop, w0: nat) returns (sh': Shop, w: nat)
    requires Open(b, limits, sh) && NoCodeErrors(b) && !Reexecuting(b, sh.p.core) && sh.p.core.commits < |b.txns|
    requires Busy(sh, w0, Free)
    ensures Can(b, limits, sh, sh') && Poised(b, limits, sh', w) && sh'.p.core.commits == sh.p.core.commits
  {
    var c := sh.p.core.commits;
    var st := sh.p.core.status[c];
    assert LocalAt(b, sh.p.core, c);
    w := w0;
    if st.Executed? {
      Stay(b, limits, sh);
      sh' := sh;
    } else if st.Ready? && Untaken(sh, c) {
      var m := BeginExec(b, limits, sh, w, c);
      sh' := ExecuteNext(b, limits, m, w);
      Then(b, limits, sh, m, sh');
    } else {
      w := NextOwner(b, limits, sh);
      if st.Aborting? { sh' := UndoNext(b, limits, sh, w); } else { sh' := ExecuteNext(b, limits, sh, w); }
    }
  }

  lemma NextOwner(b: Block, limits: Limits, sh: Shop) returns (w: nat)
    requires Open(b, limits, sh) && !Reexecuting(b, sh.p.core) && sh.p.core.commits < |b.txns|
    requires var c := sh.p.core.commits;
      !sh.p.core.status[c].Executed? && (sh.p.core.status[c].Ready? ==> !Untaken(sh, c))
    ensures w < |sh.jobs|
    ensures var c := sh.p.core.commits;
      if sh.p.core.status[c].Aborting? then Busy(sh, w, Undo(c)) else sh.jobs[w] == Exec(c)
  {
    var c := sh.p.core.commits;
    if sh.p.core.status[c].Ready? {
      w :| 0 <= w < |sh.jobs| && Takes(sh.jobs[w], c);
    } else {
      w := SomebodyWorksOn(b, sh, c);
    }
    assert JobOk(b, sh, w);
  }

  /** A validation by the free worker: the transaction is offered, or undone by that worker. */
  lemma ValidateNext(b: Block, limits: Limits, sh: Shop, w: nat) returns (sh': Shop)
    requires Poised(b, limits, sh, w)
    ensures Served(b, limits, sh, sh', w)
    ensures (Busy(sh', w, Free) && Offered(b, sh'.p.core)) || Busy(sh', w, Undo(sh.p.core.commits))
    ensures var c := sh.p.core.commits;
      DataReadsMatch(b, sh.p.core, c, sh.p.core.records[c].value.captured) ==> Offered(b, sh'.p.core)
  {
    var m := BeginCheck(b, limits, sh, w);
    sh' := FinishCheck(b, limits, m, w);
    Serves(b, limits, sh, m, sh', w);
  }

  lemma BeginCheck(b: Block, limits: Limits, sh: Shop, w: nat) returns (m: Shop)
    requires Poised(b, limits, sh, w)
    ensures Served(b, limits, sh, m, w) && m.jobs[w].Check?
    ensures m.p.core == sh.p.core.(tasks := m.p.core.tasks) && w in m.p.core.tasks
    ensures var c := sh.p.core.commits;
      m.p.core.tasks[w] == Task(c, sh.p.core.status[c].inc, sh.p.core.records[c].value.captured, 0, true, true)
  {
    assert JobOk(b, sh, w);
    var c := sh.p.core.commits;
    WorkOne(b, limits, sh, w, StartValidation(w, c));
    m := Worked(b, sh, w, StartValidation(w, c));
  }

  /** The next transaction can be got offered by one worker; its second validation passes. */
  lemma OfferNext(b: Block, limits: Limits, sh: Shop, w: nat) returns (sh': Shop)
    requires Poised(b, limits, sh, w) && NoCodeErrors(b)
    ensures Served(b, limits, sh, sh', w) && Busy(sh', w, Free) && Offered(b, sh'.p.core)
  {
    sh' := ValidateNext(b, limits, sh, w);
    if !Busy(sh', w, Free) {
      var m := sh';
      var n := UndoNext(b, limits, m, w);
      sh' := ValidateNext(b, limits, n, w);
      Serves(b, limits, sh, m, n, w);
      Serves(b, limits, sh, n, sh', w);
      OfferedFree(b, limits, sh', w);
    }
  }

  lemma OfferedFree(b: Block, limits: Limits, sh: Shop, w: nat)
    requires Open(b, limits, sh) && Offered(b, sh.p.core) && w < |sh.jobs|
    ensures !Busy(sh, w, Undo(sh.p.core.commits))
  {
    assert JobOk(b, sh, w);
  }

  /* ---- Committing ---- */

  lemma CommitNow(b: Block, limits: Limits, sh: Shop, v: nat, a: Action) returns (sh': Shop)
    requires Open(b, limits, sh) && IsAt(sh.p, v, Coordinating) && sh.p.pending.None?
    requires (a.Commit? || a.Recheck?) && Enabled(b, sh.p.core, a)
    requires sh.p.core.commits < |b.txns| && Contributes(b, sh.p.core.commits)
    ensures Can(b, limits, sh, sh') && Good(b, limits, sh') && sh'.p.core.commits == sh.p.core.commits + 1
  {
    CommitFacts(b, sh.p.core, a);
    Once(b, limits, sh, Walk(CommitNext(v, a)));
    sh' := DoStride(b, limits, sh, Walk(CommitNext(v, a)));
  }

  /** A final re-execution is completed by the coordinator, and its result committed. */
  lemma Recommit(b: Block, limits: Limits, sh: Shop, v: nat) returns (sh': Shop)
    requires Open(b, limits, sh) && NoCodeErrors(b) && AtHelm(b, sh, v, sh.p.core.commits)
    requires Contributes(b, sh.p.core.commits)
    ensures Can(b, limits, sh, sh') && Good(b, limits, sh') && sh'.p.core.commits == sh.p.core.commits + 1
  {
    var m := ToRecheck(b, limits, sh, v);
    assert OwnedAt(b, m, m.p.core.commits);
    RecheckCertain(b, m.p.core);
    sh' := CommitNow(b, limits, m, v, Recheck);
    Then(b, limits, sh, m, sh');
  }

  lemma ToRecheck(b: Block, limits: Limits, sh: Shop, v: nat) returns (m: Shop)
    requires Open(b, limits, sh) && NoCodeErrors(b) && AtHelm(b, sh, v, sh.p.core.commits)
    ensures Can(b, limits, sh, m) && Open(b, limits, m) && IsAt(m.p, v, Coordinating)
    ensures m.p.core.commits == sh.p.core.commits && AtRecheck(b, m.p.core)
  {
    var c := sh.p.core.commits;
    assert LocalAt(b, sh.p.core, c);
    m := sh;
    Stay(b, limits, sh);
    if sh.p.core.status[c].Aborting? { m := Relaunch(b, limits, sh, v); }
    if !m.p.core.status[c].Rechecking? {
      CommittedUnblocked(b, m.p.core);
      var n := RunOn(b, limits, m, v, c);
      Then(b, limits, sh, m, n);
      m := n;
    }
  }

  lemma Relaunch(b: Block, limits: Limits, sh: Shop, v: nat) returns (m: Shop)
    requires Open(b, limits, sh) && AtHelm(b, sh, v, sh.p.core.commits) && sh.p.core.status[sh.p.core.commits].Aborting?
    ensures Can(b, limits, sh, m) && Open(b, limits, m) && AtHelm(b, m, v, m.p.core.commits)
    ensures m.p.core.commits == sh.p.core.commits && m.p.core.status[m.p.core.commits].Running?
  {
    var n := MarkOn(b, limits, sh, v, sh.p.core.commits);
    WorkOne(b, limits, n, v, Restart);
    m := Worked(b, n, v, Restart);
    Then(b, limits, sh, n, m);
  }

  lemma CommitOffered(b: Block, limits: Limits, sh: Shop, w: nat) returns (sh': Shop)
    requires Open(b, limits, sh) && NoCodeErrors(b) && Busy(sh, w, Free) && Offered(b, sh.p.core)
    requires Contributes(b, sh.p.core.commits)
    ensures Can(b, limits, sh, sh') && Good(b, limits, sh') && sh'.p.core.commits == sh.p.core.commits + 1
  {
    var m, v := GetHelm(b, limits, sh, w);
    if CanCommit(b, m.p.core) {
      sh' := CommitNow(b, limits, m, v, Commit);
    } else {
      WorkOne(b, limits, m, v, Reexecute);
      var n := Worked(b, m, v, Reexecute);
      sh' := Recommit(b, limits, n, v);
      Then(b, limits, m, n, sh');
    }
    Then(b, limits, sh, m, sh');
  }

  /** The next transaction of the block can be committed, whatever all workers are doing. */
  lemma CommitNextOne(b: Block, limits: Limits, sh: Shop) returns (sh': Shop)
    requires Open(b, limits, sh) && NoCodeErrors(b) && sh.p.core.commits < |b.txns| && Contributes(b, sh.p.core.commits)
    ensures Can(b, limits, sh, sh') && Good(b, limits, sh') && sh'.p.core.commits == sh.p.core.commits + 1
  {
    if Reexecuting(b, sh.p.core) {
      assert OwnedAt(b, sh, sh.p.core.commits);
      var v :| 0 <= v < |sh.p.workers| && sh.p.workers[v] == Coordinating;
      sh' := Recommit(b, limits, sh, v);
    } else {
      var m, w := GetPoised(b, limits, sh);
      var n := OfferNext(b, limits, m, w);
      Then(b, limits, sh, m, n);
      sh' := CommitOffered(b, limits, n, w);
      Then(b, limits, sh, n, sh');
    }
  }

  lemma {:induction false} EndingSkips(b: Block, limit: seq<Charge> -> bool, i: nat)
    requires i <= |b.txns| && KeptBelow(b, i) && forall j :: 0 <= j < i ==> Goes(b, limit, j)
    ensures EndingFrom(b, limit, 0) == EndingFrom(b, limit, i)
  {
    if i > 0 {
      EndingSkips(b, limit, i - 1);
      assert Goes(b, limit, i - 1);
    }
  }

  /** While not halted, the next transaction is one the block keeps. */
  lemma NextContributes(b: Block, limits: Limits, p: Pipe)
    requires Up(b, limits, p) && !p.halted && |b.txns| > 0 && EndingFrom(b, limits.parallel, 0).Ended?
    ensures p.core.commits < |b.txns| && Contributes(b, p.core.commits)
  {
    EndingSkips(b, limits.parallel, p.core.commits);
  }

  lemma {:induction false} CommitAll(b: Block, limits: Limits, sh: Shop) returns (sh': Shop)
    requires Good(b, limits, sh) && NoCodeErrors(b) && |b.txns| > 0 && EndingFrom(b, limits.parallel, 0).Ended?
    ensures Can(b, limits, sh, sh') && Good(b, limits, sh') && sh'.p.halted
    decreases |b.txns| - sh.p.core.commits
  {
    if sh.p.halted {
      Stay(b, limits, sh);
      sh' := sh;
    } else {
      NextContributes(b, limits, sh.p);
      var m := CommitNextOne(b, limits, sh);
      sh' := CommitAll(b, limits, m);
      Then(b, limits, sh, m, sh');
    }
  }

  /* ---- The way out ---- */

  /** After halting, a worker drops its task and leaves. */
  lemma {:induction false} LeaveOne(b: Block, limits: Limits, sh: Shop, w: nat) returns (sh': Shop)
    requires Good(b, limits, sh) && sh.p.halted && w < |sh.jobs|
    ensures Can(b, limits, sh, sh') && Good(b, limits, sh') && sh'.p.halted
    ensures sh'.p.workers == sh.p.workers[w := Exited]
    decreases ToExit(sh.p, w), if sh.jobs[w] == Free then 0 else 1
  {
    if sh.p.workers[w] == Exited {
      Stay(b, limits, sh);
      sh' := sh;
      assert sh.p.workers == sh.p.workers[w := Exited];
    } else if sh.p.workers[w] == Working && sh.jobs[w] != Free {
      Once(b, limits, sh, GiveUp(w));
      var q := DoStride(b, limits, sh, GiveUp(w));
      sh' := LeaveOne(b, limits, q, w);
      Then(b, limits, sh, q, sh');
    } else {
      var q := LeaveStep(b, limits, sh, w);
      sh' := LeaveOne(b, limits, q, w);
      Then(b, limits, sh, q, sh');
    }
  }

  lemma LeaveStep(b: Block, limits: Limits, sh: Shop, w: nat) returns (q: Shop)
    requires Good(b, limits, sh) && sh.p.halted && w < |sh.jobs| && sh.p.workers[w] != Exited
    requires sh.p.workers[w] == Working ==> sh.jobs[w] == Free
    ensures Can(b, limits, sh, q) && Good(b, limits, q) && q.p.halted && q.jobs == sh.jobs
    ensures |q.p.workers| == |sh.p.workers| && q.p.workers == sh.p.workers[w := q.p.workers[w]]
    ensures ToExit(q.p, w) < ToExit(sh.p, w)
  {
    var m := NextMove(sh.p, w);
    WorkerMoves(b, limits, sh.p, w);
    NearsExit(b, limits, sh.p, w);
    WalkOne(b, limits, sh, m);
    q := sh.(p := DoMove(b, limits, sh.p, m));
  }

  lemma NearsExit(b: Block, limits: Limits, p: Pipe, w: nat)
    requires Fits(b, p) && w < |p.workers| && p.workers[w] != Exited && p.halted && CanMove(b, p, NextMove(p, w))
    ensures var p' := DoMove(b, limits, p, NextMove(p, w)); |p'.workers| == |p.workers| && ToExit(p', w) < ToExit(p, w)
  {
  }

  lemma {:induction false} LeaveAll(b: Block, limits: Limits, sh: Shop, n: nat) returns (sh': Shop)
    requires Good(b, limits, sh) && sh.p.halted && n <= |sh.jobs| && forall w :: 0 <= w < n ==>
      sh.p.workers[w] == Exited
    ensures Can(b, limits, sh, sh') && Finished(sh'.p)
    decreases |sh.jobs| - n
  {
    if n == |sh.jobs| {
      Stay(b, limits, sh);
      sh' := sh;
    } else {
      var m := LeaveOne(b, limits, sh, n);
      sh' := LeaveAll(b, limits, m, n + 1);
      Then(b, limits, sh, m, sh');
    }
  }

  lemma {:induction false} WorkersStay(b: Block, limits: Limits, sh: Shop, xs: seq<Stride>, sh': Shop)
    requires Gets(b, limits, sh, xs, sh')
    ensures |sh'.p.workers| == |sh.p.workers|
    decreases |xs|
  {
    if xs != [] { WorkersStay(b, limits, DoStride(b, limits, sh, xs[0]), xs[1..], sh'); }
  }

  /** For every number of workers, from every state they reach without a failure, if the block has an
      end and no code error, some continuation finishes the whole run: all commits made, all outputs
      materialized, all workers gone. */
  lemma CanFinishBlock(b: Block, limits: Limits, workers: nat, before: seq<Stride>, sh: Shop)
      returns (xs: seq<Stride>, sh': Shop)
    requires |b.txns| > 0 && workers > 0 && Gets(b, limits, InitShop(b, workers), before, sh) && !sh.p.failed
    requires NoCodeErrors(b) && EndingFrom(b, limits.parallel, 0).Ended?
    ensures Gets(b, limits, InitShop(b, workers), before + xs, sh') && Finished(sh'.p)
  {
    InitTended(b, limits, workers);
    StridesKeep(b, limits, InitShop(b, workers), before, sh);
    WorkersStay(b, limits, InitShop(b, workers), before, sh);
    var m := CommitAll(b, limits, sh);
    sh' := LeaveAll(b, limits, m, 0);
    Then(b, limits, sh, m, sh');
    xs :| Gets(b, limits, sh, xs, sh');
    Joined(b, limits, InitShop(b, workers), before, sh, xs, sh');
  }
}
