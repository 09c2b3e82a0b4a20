/** The parallel executor as a state machine whose steps are single cache accesses, so that any
    number of workers may be interleaved at any point of an execution, validation or abort. */
module StmMachine {
  import opened Common
  import opened StmTypes
  import opened StmCache

  /** The progress of one transaction. `atCommit` marks the one final re-execution that the
      commit coordinator makes itself. */
  datatype Status =
    | Ready(inc: nat)
    | Running(inc: nat, captured: seq<Desc>, atCommit: bool)
    | Writing(inc: nat, captured: seq<Desc>, outcome: Outcome, todo: set<Key>, stale: set<Key>,
      outside: bool, broken: bool, atCommit: bool)
    | Executed(inc: nat)
    | Aborting(inc: nat, todo: set<Key>, atCommit: bool)
    | Rechecking(inc: nat)
    | Committed(inc: nat)

  /** A validation in progress by some worker. It is `current` while no later event has asked for
      transaction `idx` to be validated again. */
  datatype Task = Task(idx: nat, inc: nat, captured: seq<Desc>, pos: nat, ok: bool, current: bool)

  /** `log` remembers every value ever published, by version; no step looks at it. */
  datatype State = State(
    layers: seq<Layer>,
    status: seq<Status>,
    records: seq<Option<Record>>,
    valid: seq<bool>,
    tasks: map<nat, Task>,
    commits: nat,
    log: map<(nat, nat, Key), Value>)

  datatype Action =
    | Start(i: nat)
    | ReadKey(i: nat)
    | EndRun(i: nat)
    | Write(i: nat, k: Key)
    | Remove(i: nat, k: Key)
    | EndExecution(i: nat)
    | StartValidation(w: nat, i: nat)
    | CheckRead(w: nat)
    | EndValidation(w: nat)
    | MarkEstimate(i: nat, k: Key)
    | EndAbort(i: nat)
    | Commit
    | Reexecute
    | Restart
    | Recheck

  ghost function Init(b: Block): State {
    var n := |b.txns|;
    State(seq(n, i => map[]), seq(n, i => Ready(0)), seq(n, i => None), seq(n, i => false), map[], 0, map[])
  }

  ghost predicate Sized(b: Block, s: State) {
    |s.layers| == |s.status| == |s.records| == |s.valid| == |b.txns| && s.commits <= |b.txns|
  }

  /** Every recorded data read finds what it found before (the test made by `validate`). */
  ghost predicate DataReadsMatch(b: Block, s: State, i: nat, captured: seq<Desc>)
    requires i <= |s.layers|
  {
    forall p :: 0 <= p < |captured| && captured[p].fact.key.Data? ==>
      Matches(captured[p], ReadBelow(b.base, s.layers, i, captured[p].fact.key))
  }

  /** The test made by `validate_commit_ready`: no speculative failure was captured, by the run or in
      recording its changes, every delayed field read still gives the same observation, and every
      delayed field change can be committed on top of the value below. */
  ghost predicate CommitReady(b: Block, s: State, i: nat, rec: Record)
    requires i <= |s.layers|
  {
    && !rec.outcome.SpeculativeAbort? && !rec.failed
    && DelayedReadsMatch(b, s, i, rec.captured) && Committable(b, s, i, WritesOf(rec.outcome))
  }

  ghost predicate DelayedReadsMatch(b: Block, s: State, i: nat, captured: seq<Desc>)
    requires i <= |s.layers|
  {
    forall p :: 0 <= p < |captured| && captured[p].fact.key.Delayed? ==>
      Matches(captured[p], ReadBelow(b.base, s.layers, i, captured[p].fact.key))
  }

  ghost predicate Committable(b: Block, s: State, i: nat, writes: map<Key, WriteOp>)
    requires i <= |s.layers|
  {
    forall k :: k in writes ==>
      var f := ReadBelow(b.base, s.layers, i, k); f.Found? && Applies(writes[k], f.val)
  }

  /** Transactions `lo..hi` must be validated again: earlier results and validations still in
      progress no longer count. */
  ghost function Revalidate(s: State, lo: nat, hi: nat): State {
    s.(valid := seq(|s.valid|, i requires 0 <= i < |s.valid| => s.valid[i] && !(lo <= i < hi)),
       tasks := map w | w in s.tasks :: s.tasks[w].(current := s.tasks[w].current && !(lo <= s.tasks[w].idx < hi)))
  }

  ghost function SetStatus(s: State, i: nat, st: Status): State
    requires i < |s.status|
  {
    s.(status := s.status[i := st])
  }

  /** The scheduler offers the lowest uncommitted transaction once it is executed and a validation
      begun after the last request to validate it again has passed. */
  ghost predicate Offered(b: Block, s: State)
    requires Sized(b, s)
  {
    var i := s.commits;
    i < |b.txns| && s.status[i].Executed? && s.valid[i] && s.records[i].Some?
  }

  ghost predicate AtRecheck(b: Block, s: State)
    requires Sized(b, s)
  {
    s.commits < |b.txns| && s.status[s.commits].Rechecking? && s.records[s.commits].Some?
  }

  /** Both validations made after the final re-execution. */
  ghost predicate RecheckPasses(b: Block, s: State)
    requires Sized(b, s) && AtRecheck(b, s)
  {
    var rec := s.records[s.commits].value;
    DataReadsMatch(b, s, s.commits, rec.captured) && CommitReady(b, s, s.commits, rec)
  }

  /* ---- Execution (`execute`) ---- */

  ghost predicate CanStart(b: Block, s: State, i: nat)
    requires Sized(b, s)
  {
    i < |b.txns| && s.status[i].Ready?
  }

  ghost function DoStart(b: Block, s: State, i: nat): State
    requires Sized(b, s) && CanStart(b, s, i)
  {
    SetStatus(s, i, Running(s.status[i].inc, [], false))
  }

  /** A read that meets an estimate waits: it is enabled only when a value is found. */
  ghost predicate CanRead(b: Block, s: State, i: nat)
    requires Sized(b, s)
  {
    && i < |b.txns| && s.status[i].Running?
    && var instr := Next(b.txns[i], FactsOf(s.status[i].captured));
       instr.Fetch? && ReadBelow(b.base, s.layers, i, instr.key).Found?
  }

  ghost function DoRead(b: Block, s: State, i: nat): State
    requires Sized(b, s) && CanRead(b, s, i)
  {
    var st := s.status[i];
    var instr := Next(b.txns[i], FactsOf(st.captured));
    var d := Capture(instr.key, instr.kind, ReadBelow(b.base, s.layers, i, instr.key));
    SetStatus(s, i, Running(st.inc, st.captured + [d], st.atCommit))
  }

  /** A code invariant error ends the whole parallel run instead. */
  ghost predicate CanEndRun(b: Block, s: State, i: nat)
    requires Sized(b, s)
  {
    && i < |b.txns| && s.status[i].Running?
    && var instr := Next(b.txns[i], FactsOf(s.status[i].captured));
       instr.Halt? && !instr.outcome.CodeInvariantError?
  }

  ghost function DoEndRun(b: Block, s: State, i: nat): State
    requires Sized(b, s) && CanEndRun(b, s, i)
  {
    var st := s.status[i];
    var o := Next(b.txns[i], FactsOf(st.captured)).outcome;
    SetStatus(s, i,
      Writing(st.inc, st.captured, o, WritesOf(o).Keys, PrevWrites(s.records[i]).Keys, false, false, st.atCommit))
  }

  ghost predicate CanWrite(b: Block, s: State, i: nat, k: Key)
    requires Sized(b, s)
  {
    i < |b.txns| && s.status[i].Writing? && k in s.status[i].todo && k in WritesOf(s.status[i].outcome)
  }

  ghost function PublishLog(log: map<(nat, nat, Key), Value>, i: nat, inc: nat, k: Key, op: WriteOp): map<(nat, nat,
      Key), Value> {
    if op.Put? then log[(i, inc, k) := op.value] else log
  }

  ghost function DoWrite(b: Block, s: State, i: nat, k: Key): State
    requires Sized(b, s) && CanWrite(b, s, i, k)
  {
    var st := s.status[i];
    var op := WritesOf(st.outcome)[k];
    SetStatus(s, i, st.(todo := st.todo - {k}, stale := st.stale - {k},
                        outside := st.outside || (k.Data? && k !in st.stale),
                        broken := st.broken || Unrecordable(op, ReadBelow(b.base, s.layers, i, k))))
    .(layers := s.layers[i := s.layers[i][k := Cell(st.inc, false, op)]],
      log := PublishLog(s.log, i, st.inc, k, op))
  }

  ghost predicate CanRemove(b: Block, s: State, i: nat, k: Key)
    requires Sized(b, s)
  {
    i < |b.txns| && s.status[i].Writing? && s.status[i].todo == {} && k in s.status[i].stale
  }

  ghost function DoRemove(b: Block, s: State, i: nat, k: Key): State
    requires Sized(b, s) && CanRemove(b, s, i, k)
  {
    var st := s.status[i];
    SetStatus(s, i, st.(stale := st.stale - {k})).(layers := s.layers[i := s.layers[i] - {k}])
  }

  ghost predicate CanEndExecution(b: Block, s: State, i: nat)
    requires Sized(b, s)
  {
    i < |b.txns| && s.status[i].Writing? && s.status[i].todo == {} && s.status[i].stale == {}
  }

  /** Recording the incarnation and handing it to the scheduler. Higher transactions must be
      validated again if this one wrote outside its previous keys or was re-executed at commit. */
  ghost function DoEndExecution(b: Block, s: State, i: nat): State
    requires Sized(b, s) && CanEndExecution(b, s, i)
  {
    var st := s.status[i];
    var s1 := SetStatus(s, i, if st.atCommit then Rechecking(st.inc) else Executed(st.inc));
    Revalidate(s1.(records := s.records[i := Some(Record(st.captured, st.outcome, st.broken))]),
               i, if st.outside || st.atCommit then |b.txns| else i + 1)
  }

  /* ---- Validation and abort (`validate`, `update_on_validation`, `update_transaction_on_abort`) ---- */

  ghost predicate CanStartValidation(b: Block, s: State, w: nat, i: nat)
    requires Sized(b, s)
  {
    i < |b.txns| && s.status[i].Executed? && s.records[i].Some? && w !in s.tasks
  }

  ghost function DoStartValidation(b: Block, s: State, w: nat, i: nat): State
    requires Sized(b, s) && CanStartValidation(b, s, w, i)
  {
    s.(tasks := s.tasks[w := Task(i, s.status[i].inc, s.records[i].value.captured, 0, true, true)])
  }

  ghost predicate CanCheckRead(b: Block, s: State, w: nat)
    requires Sized(b, s)
  {
    w in s.tasks && s.tasks[w].ok && s.tasks[w].pos < |s.tasks[w].captured| && s.tasks[w].idx < |b.txns|
  }

  ghost function DoCheckRead(b: Block, s: State, w: nat): State
    requires Sized(b, s) && CanCheckRead(b, s, w)
  {
    var t := s.tasks[w];
    var d := t.captured[t.pos];
    var ok := d.fact.key.Data? ==> Matches(d, ReadBelow(b.base, s.layers, t.idx, d.fact.key));
    s.(tasks := s.tasks[w := t.(pos := t.pos + 1, ok := ok)])
  }

  ghost predicate CanEndValidation(b: Block, s: State, w: nat)
    requires Sized(b, s)
  {
    w in s.tasks && (s.tasks[w].ok ==> s.tasks[w].pos == |s.tasks[w].captured|) && s.tasks[w].idx < |b.txns|
  }

  /** A passed validation counts if it is still current. A failed one aborts the incarnation it
      looked at, unless that one was already aborted or committed. */
  ghost function DoEndValidation(b: Block, s: State, w: nat): State
    requires Sized(b, s) && CanEndValidation(b, s, w)
  {
    var t := s.tasks[w];
    var s1 := s.(tasks := s.tasks - {w});
    if t.ok then
      if t.current then s1.(valid := s.valid[t.idx := true]) else s1
    else if s.status[t.idx] == Executed(t.inc) then
      Revalidate(SetStatus(s1, t.idx, Aborting(t.inc, PrevWrites(s.records[t.idx]).Keys, false)), t.idx, t.idx + 1)
    else s1
  }

  ghost predicate CanMark(b: Block, s: State, i: nat, k: Key)
    requires Sized(b, s)
  {
    i < |b.txns| && s.status[i].Aborting? && k in s.status[i].todo && k in s.layers[i]
  }

  ghost function DoMark(b: Block, s: State, i: nat, k: Key): State
    requires Sized(b, s) && CanMark(b, s, i, k)
  {
    var st := s.status[i];
    SetStatus(s, i, Aborting(st.inc, st.todo - {k}, st.atCommit))
    .(layers := s.layers[i := s.layers[i][k := s.layers[i][k].(estimate := true)]])
  }

  ghost predicate CanEndAbort(b: Block, s: State, i: nat)
    requires Sized(b, s)
  {
    i < |b.txns| && s.status[i].Aborting? && s.status[i].todo == {} && !s.status[i].atCommit
  }

  ghost function DoEndAbort(b: Block, s: State, i: nat): State
    requires Sized(b, s) && CanEndAbort(b, s, i)
  {
    Revalidate(SetStatus(s, i, Ready(s.status[i].inc + 1)), i + 1, |b.txns|)
  }

  /* ---- Commit (`prepare_and_queue_commit_ready_txns`) ---- */

  ghost predicate CanCommit(b: Block, s: State)
    requires Sized(b, s)
  {
    Offered(b, s) && CommitReady(b, s, s.commits, s.records[s.commits].value)
  }

  ghost function DoCommit(b: Block, s: State): State
    requires Sized(b, s) && s.commits < |b.txns|
  {
    SetStatus(s, s.commits, Committed(s.status[s.commits].inc)).(commits := s.commits + 1)
  }

  ghost predicate CanReexecute(b: Block, s: State)
    requires Sized(b, s)
  {
    Offered(b, s) && !CommitReady(b, s, s.commits, s.records[s.commits].value)
  }

  ghost function DoReexecute(b: Block, s: State): State
    requires Sized(b, s) && CanReexecute(b, s)
  {
    var i := s.commits;
    Revalidate(SetStatus(s, i, Aborting(s.status[i].inc, PrevWrites(s.records[i]).Keys, true)), i, i + 1)
  }

  /** Without reducing the validation index in between. */
  ghost predicate CanRestart(b: Block, s: State)
    requires Sized(b, s)
  {
    var i := s.commits;
    i < |b.txns| && s.status[i].Aborting? && s.status[i].todo == {} && s.status[i].atCommit
  }

  ghost function DoRestart(b: Block, s: State): State
    requires Sized(b, s) && CanRestart(b, s)
  {
    SetStatus(s, s.commits, Running(s.status[s.commits].inc + 1, [], true))
  }

  ghost predicate CanRecheck(b: Block, s: State)
    requires Sized(b, s)
  {
    AtRecheck(b, s) && RecheckPasses(b, s)
  }

  ghost predicate Enabled(b: Block, s: State, a: Action)
    requires Sized(b, s)
  {
    match a
    case Start(i) => CanStart(b, s, i)
    case ReadKey(i) => CanRead(b, s, i)
    case EndRun(i) => CanEndRun(b, s, i)
    case Write(i, k) => CanWrite(b, s, i, k)
    case Remove(i, k) => CanRemove(b, s, i, k)
    case EndExecution(i) => CanEndExecution(b, s, i)
    case StartValidation(w, i) => CanStartValidation(b, s, w, i)
    case CheckRead(w) => CanCheckRead(b, s, w)
    case EndValidation(w) => CanEndValidation(b, s, w)
    case MarkEstimate(i, k) => CanMark(b, s, i, k)
    case EndAbort(i) => CanEndAbort(b, s, i)
    case Commit => CanCommit(b, s)
    case Reexecute => CanReexecute(b, s)
    case Restart => CanRestart(b, s)
    case Recheck => CanRecheck(b, s)
  }

  ghost function Apply(b: Block, s: State, a: Action): (s': State)
    requires Sized(b, s) && Enabled(b, s, a)
    ensures Sized(b, s')
  {
    match a
    case Start(i) => DoStart(b, s, i)
    case ReadKey(i) => DoRead(b, s, i)
    case EndRun(i) => DoEndRun(b, s, i)
    case Write(i, k) => DoWrite(b, s, i, k)
    case Remove(i, k) => DoRemove(b, s, i, k)
    case EndExecution(i) => DoEndExecution(b, s, i)
    case StartValidation(w, i) => DoStartValidation(b, s, w, i)
    case CheckRead(w) => DoCheckRead(b, s, w)
    case EndValidation(w) => DoEndValidation(b, s, w)
    case MarkEstimate(i, k) => DoMark(b, s, i, k)
    case EndAbort(i) => DoEndAbort(b, s, i)
    case Commit => DoCommit(b, s)
    case Reexecute => DoReexecute(b, s)
    case Restart => DoRestart(b, s)
    case Recheck => DoCommit(b, s)
  }

  /** `s'` is reached from `s` by the given actions, each enabled when taken. */
  ghost predicate Reaches(b: Block, s: State, acts: seq<Action>, s': State)
    decreases |acts|
  {
    Sized(b, s) &&
    if acts == [] then s' == s
    else Enabled(b, s, acts[0]) && Reaches(b, Apply(b, s, acts[0]), acts[1..], s')
  }
}
