/** Serial equivalence of the parallel executor, over every interleaving of its steps. */
module StmSerial {
  import opened StmTypes
  import opened StmCache
  import opened StmMachine
  import opened StmInvariant

  /* ---- Commit order and agreement with the serial run ---- */

  ghost predicate AtCommit(st: Status) {
    st.Rechecking? || ((st.Running? || st.Writing? || st.Aborting?) && st.atCommit)
  }

  ghost predicate Ordered(b: Block, s: State)
    requires Sized(b, s)
  {
    forall i :: 0 <= i < |b.txns| ==>
      && (s.status[i].Committed? <==> i < s.commits)
      && (AtCommit(s.status[i]) ==> i == s.commits)
  }

  ghost predicate AllReadsMatch(b: Block, s: State, i: nat, ds: seq<Desc>)
    requires i <= |s.layers|
  {
    forall p :: 0 <= p < |ds| ==> Matches(ds[p], ReadBelow(b.base, s.layers, i, ds[p].fact.key))
  }

  /** The final re-execution reads below itself only what can no longer change. */
  ghost predicate FinalOk(b: Block, s: State)
    requires Sized(b, s)
  {
    s.commits < |b.txns| ==>
      var st := s.status[s.commits];
      && ((st.Running? || st.Writing?) && st.atCommit ==> AllReadsMatch(b, s, s.commits, st.captured))
      && (st.Writing? && st.atCommit ==> BrokenExactly(b, s, s.commits, WritesOf(st.outcome), st.todo, st.broken))
      && (st.Rechecking? ==>
            && s.records[s.commits].Some? && AllReadsMatch(b, s, s.commits, s.records[s.commits].value.captured)
            && BrokenExactly(b, s, s.commits, WritesOf(s.records[s.commits].value.outcome),
              {}, s.records[s.commits].value.failed))
  }

  /** A failure was captured exactly if one of the writes done does not apply to the value below. */
  ghost predicate BrokenExactly(b: Block, s: State, i: nat, writes: map<Key, WriteOp>, todo: set<Key>, broken: bool)
    requires i <= |s.layers|
  {
    broken <==> exists k :: k in writes && k !in todo && Unrecordable(writes[k], ReadBelow(b.base, s.layers, i, k))
  }

  ghost function TraceOf(rec: Record): Trace {
    Trace(FactsOf(rec.captured), rec.outcome)
  }

  /** What is recorded is what the serial run does: same observations, same outcome. */
  ghost predicate SerialAt(b: Block, s: State, i: nat)
    requires Sized(b, s) && i < |b.txns|
  {
    s.records[i].Some? && TraceOf(s.records[i].value) == SerialTrace(b, i)
  }

  ghost predicate Serial(b: Block, s: State)
    requires Sized(b, s)
  {
    forall i :: 0 <= i < s.commits ==> SerialAt(b, s, i) && Certain(b, i)
  }

  ghost predicate Inv(b: Block, s: State) {
    Sized(b, s) && LocalOk(b, s) && Known(b, s) && Validated(b, s) && Ordered(b, s) && FinalOk(b, s) && Serial(b, s)
  }

  lemma PublishedRead(base: map<Key, Value>, layers: seq<Layer>, i: nat, inc: nat, writes: map<Key, WriteOp>, k: Key)
    requires i < |layers| && layers[i] == Published(inc, writes)
    requires ReadBelow(base, layers, i, k).Found?
    ensures var f, below := ReadBelow(base, layers, i + 1, k), ReadBelow(base, layers, i, k).val;
      f.Found? && f.val == if k in writes then ApplyOp(writes[k], below) else below
  {
  }

  lemma CommittedLayer(b: Block, s: State, i: nat)
    requires Sized(b, s) && LocalOk(b, s) && Ordered(b, s) && Serial(b, s) && i < s.commits
    ensures s.layers[i] == Published(s.status[i].inc, WritesOf(SerialTrace(b, i).outcome))
  {
    assert LocalAt(b, s, i) && SerialAt(b, s, i);
  }

  /** Below the commit index the cache holds exactly the serial state. */
  lemma {:induction false} CommittedRead(b: Block, s: State, i: nat, k: Key)
    requires Sized(b, s) && LocalOk(b, s) && Ordered(b, s) && Serial(b, s) && i <= s.commits
    ensures var f := ReadBelow(b.base, s.layers, i, k);
      f.Found? && f.val == Look(b.base, SerialOver(b, i), k)
  {
    if i > 0 {
      CommittedRead(b, s, i - 1, k);
      CommittedLayer(b, s, i - 1);
      PublishedRead(b.base, s.layers, i - 1, s.status[i - 1].inc, WritesOf(SerialTrace(b, i - 1).outcome), k);
    }
  }

  /** A recorded read that matches the committed state below is true of the serial state. */
  lemma MatchHolds(b: Block, s: State, i: nat, d: Desc)
    requires Sized(b, s) && LocalOk(b, s) && Known(b, s) && Ordered(b, s) && Serial(b, s) && i <= s.commits
    requires DescOk(b.base, s.log, d) && Matches(d, ReadBelow(b.base, s.layers, i, d.fact.key))
    ensures Holds(b.base, SerialOver(b, i), d.fact)
  {
    CommittedRead(b, s, i, d.fact.key);
    ReadLogged(b, s, i, d.fact.key);
  }

  /** A recorded incarnation whose reads all match at the commit index is the serial run. */
  lemma CommitIsSerial(b: Block, s: State)
    requires Inv(b, s) && s.commits < |b.txns| && s.records[s.commits].Some?
    requires AllReadsMatch(b, s, s.commits, s.records[s.commits].value.captured)
    ensures SerialAt(b, s, s.commits)
  {
    var i := s.commits;
    var rec := s.records[i].value;
    var facts := FactsOf(rec.captured);
    assert LocalAt(b, s, i) && KnownAt(b, s, i);
    forall f | f in facts ensures Holds(b.base, SerialOver(b, i), f) {
      var p :| 0 <= p < |facts| && facts[p] == f;
      MatchHolds(b, s, i, rec.captured[p]);
    }
    Replay(b.txns[i], b.base, SerialOver(b, i), facts, rec.outcome, 0);
    assert facts[..0] == [];
  }

  /* ---- Frames ---- */

  ghost predicate NoLater(b: Block, s: State, x: nat)
    requires Sized(b, s)
  {
    && (forall i :: x < i < |b.txns| ==> !s.valid[i])
    && (forall w :: w in s.tasks && s.tasks[w].current ==> s.tasks[w].idx <= x)
  }

  /** No validation of `x` counts. */
  ghost predicate NoResult(b: Block, s: State, x: nat)
    requires Sized(b, s) && x < |b.txns|
  {
    !s.valid[x] && forall w :: w in s.tasks && s.tasks[w].current ==> s.tasks[w].idx != x
  }

  /** Results that count after the step counted before it. */
  ghost predicate FewerResults(b: Block, s: State, s': State)
    requires Sized(b, s) && Sized(b, s')
  {
    && (forall i :: 0 <= i < |b.txns| && s'.valid[i] ==> s.valid[i])
    && (forall w :: w in s'.tasks ==> w in s.tasks && s'.tasks[w] == s.tasks[w].(current := s'.tasks[w].current)
                                      && (s'.tasks[w].current ==> s.tasks[w].current))
  }

  /** A step at transaction `x` keeps all validations that still count, if either it asks every
      later transaction to validate again or it changes nothing they could have found. */
  lemma OneQuiet(b: Block, s: State, s': State, x: nat)
    requires Sized(b, s) && Sized(b, s') && Validated(b, s) && x < |b.txns|
    requires OnlyAt(b, s, s', x) && FewerResults(b, s, s')
    requires s'.records[x] == s.records[x] || NoResult(b, s', x)
    requires Settled(s'.status[x]) || !Settled(s.status[x]) || NoResult(b, s', x)
    requires NoLater(b, s', x) || (!Dirty(s'.status[x]) ==> !Dirty(s.status[x]) && CalmLayer(s.layers[x], s'.layers[x]))
    ensures Validated(b, s')
  {
    forall i | 0 <= i < |b.txns|
      && (s'.valid[i] || exists w :: w in s'.tasks && s'.tasks[w].current && s'.tasks[w].idx == i)
      ensures QuietFor(b, s, s', i)
    {
    }
    forall w | w in s'.tasks && s'.tasks[w].current
      ensures s.tasks[w].current && s.tasks[w].idx < |b.txns| && QuietFor(b, s, s', s.tasks[w].idx)
    {
      assert TaskOk(b, s, s.tasks[w]);
    }
    QuietKeeps(b, s, s');
  }

  lemma SameReads(b: Block, s: State, s': State, i: nat, ds: seq<Desc>)
    requires Sized(b, s) && Sized(b, s') && i <= |b.txns| && AllReadsMatch(b, s, i, ds)
    requires forall j :: 0 <= j < i ==> s'.layers[j] == s.layers[j]
    ensures AllReadsMatch(b, s', i, ds)
  {
    forall p | 0 <= p < |ds| ensures Matches(ds[p], ReadBelow(b.base, s'.layers, i, ds[p].fact.key)) {
      CalmRead(b.base, s.layers, s'.layers, i, ds[p].fact.key);
    }
  }

  lemma {:induction false} SameBelow(base: map<Key, Value>, layers: seq<Layer>, layers': seq<Layer>, i: nat, k: Key)
    requires i <= |layers| == |layers'| && forall j :: 0 <= j < i ==> layers'[j] == layers[j]
    ensures ReadBelow(base, layers', i, k) == ReadBelow(base, layers, i, k)
  {
    if i > 0 { SameBelow(base, layers, layers', i - 1, k); }
  }

  lemma SameBroken(b: Block, s: State, s': State, i: nat, writes: map<Key, WriteOp>, todo: set<Key>, broken: bool)
    requires Sized(b, s) && Sized(b, s') && i <= |b.txns| && BrokenExactly(b, s, i, writes, todo, broken)
    requires forall j :: 0 <= j < i ==> s'.layers[j] == s.layers[j]
    ensures BrokenExactly(b, s', i, writes, todo, broken)
  {
    forall k: Key ensures ReadBelow(b.base, s'.layers, i, k) == ReadBelow(b.base, s.layers, i, k) {
      SameBelow(b.base, s.layers, s'.layers, i, k);
    }
  }

  /** One more write of the final re-execution: its failure is captured. */
  lemma WriteBroken(b: Block, s: State, i: nat, k: Key)
    requires Sized(b, s) && CanWrite(b, s, i, k)
    requires BrokenExactly(b, s, i, WritesOf(s.status[i].outcome), s.status[i].todo, s.status[i].broken)
    ensures var s' := DoWrite(b, s, i, k);
      BrokenExactly(b, s', i, WritesOf(s'.status[i].outcome), s'.status[i].todo, s'.status[i].broken)
  {
    var s' := DoWrite(b, s, i, k);
    var st, st' := s.status[i], s'.status[i];
    assert BrokenExactly(b, s, i, WritesOf(st'.outcome), st'.todo, st'.broken);
    SameBroken(b, s, s', i, WritesOf(st'.outcome), st'.todo, st'.broken);
  }

  /** A step at an uncommitted transaction `x` that commits nothing. */
  lemma OrderFrame(b: Block, s: State, s': State, x: nat)
    requires Sized(b, s) && Sized(b, s') && Ordered(b, s) && FinalOk(b, s) && Serial(b, s)
    requires s.commits <= x < |b.txns| && s'.commits == s.commits && OnlyAt(b, s, s', x)
    requires !s'.status[x].Committed? && (AtCommit(s'.status[x]) ==> x == s.commits)
    requires x == s.commits ==> FinalOk(b, s')
    ensures Ordered(b, s') && FinalOk(b, s') && Serial(b, s')
  {
    if x != s.commits {
      var st := s.status[s.commits];
      if (st.Running? || st.Writing?) && st.atCommit { SameReads(b, s, s', s.commits, st.captured); }
      if st.Writing? && st.atCommit { SameBroken(b, s, s', s.commits, WritesOf(st.outcome), st.todo, st.broken); }
      if st.Rechecking? {
        var rec := s.records[s.commits].value;
        SameReads(b, s, s', s.commits, rec.captured);
        SameBroken(b, s, s', s.commits, WritesOf(rec.outcome), {}, rec.failed);
      }
    }
    forall i | 0 <= i < s'.commits ensures SerialAt(b, s', i) {
      assert SerialAt(b, s, i);
    }
  }

  /* ---- Every step keeps the invariant ---- */

  lemma InitInv(b: Block)
    ensures Inv(b, Init(b))
  {
    var s := Init(b);
    forall i | 0 <= i < |b.txns| ensures LocalAt(b, s, i) && KnownAt(b, s, i) && ValidOk(b, s, i) {
    }
  }

  lemma StartStep(b: Block, s: State, i: nat)
    requires Inv(b, s) && CanStart(b, s, i)
    ensures Inv(b, DoStart(b, s, i))
  {
    var s' := DoStart(b, s, i);
    assert LocalAt(b, s, i) && KnownAt(b, s, i);
    LocalFrame(b, s, s', i);
    KnownFrame(b, s, s', i);
    OneQuiet(b, s, s', i);
    OrderFrame(b, s, s', i);
  }

  lemma ReadStep(b: Block, s: State, i: nat)
    requires Inv(b, s) && CanRead(b, s, i)
    ensures Inv(b, DoRead(b, s, i))
  {
    var s' := DoRead(b, s, i);
    assert LocalAt(b, s, i);
    ReadLocal(b, s, i);
    LocalFrame(b, s, s', i);
    ReadKnown(b, s, i);
    OneQuiet(b, s, s', i);
    OrderFrame(b, s, s', i);
  }

  lemma EndRunStep(b: Block, s: State, i: nat)
    requires Inv(b, s) && CanEndRun(b, s, i)
    ensures Inv(b, DoEndRun(b, s, i))
  {
    var s' := DoEndRun(b, s, i);
    assert LocalAt(b, s, i) && KnownAt(b, s, i);
    EndRunLocal(b, s, i);
    LocalFrame(b, s, s', i);
    KnownFrame(b, s, s', i);
    OneQuiet(b, s, s', i);
    OrderFrame(b, s, s', i);
  }

  lemma WriteStep(b: Block, s: State, i: nat, k: Key)
    requires Inv(b, s) && CanWrite(b, s, i, k)
    ensures Inv(b, DoWrite(b, s, i, k))
  {
    var s' := DoWrite(b, s, i, k);
    assert LocalAt(b, s, i);
    WriteLocal(b, s, i, k);
    LocalFrame(b, s, s', i);
    WriteKnown(b, s, i, k);
    OneQuiet(b, s, s', i);
    if i == s.commits && s.status[i].atCommit {
      SameReads(b, s, s', i, s.status[i].captured);
      WriteBroken(b, s, i, k);
    }
    OrderFrame(b, s, s', i);
  }

  lemma RemoveStep(b: Block, s: State, i: nat, k: Key)
    requires Inv(b, s) && CanRemove(b, s, i, k)
    ensures Inv(b, DoRemove(b, s, i, k))
  {
    var s' := DoRemove(b, s, i, k);
    assert LocalAt(b, s, i);
    RemoveLocal(b, s, i, k);
    LocalFrame(b, s, s', i);
    RemoveKnown(b, s, i, k);
    OneQuiet(b, s, s', i);
    if i == s.commits && s.status[i].atCommit {
      SameReads(b, s, s', i, s.status[i].captured);
      SameBroken(b, s, s', i, WritesOf(s.status[i].outcome), s.status[i].todo, s.status[i].broken);
    }
    OrderFrame(b, s, s', i);
  }

  lemma EndExecutionStep(b: Block, s: State, i: nat)
    requires Inv(b, s) && CanEndExecution(b, s, i)
    ensures Inv(b, DoEndExecution(b, s, i))
  {
    var s' := DoEndExecution(b, s, i);
    assert LocalAt(b, s, i);
    EndExecutionLocal(b, s, i);
    LocalFrame(b, s, s', i);
    EndExecutionKnown(b, s, i);
    OneQuiet(b, s, s', i);
    if i == s.commits && s.status[i].atCommit { SameReads(b, s, s', i, s.status[i].captured); }
    OrderFrame(b, s, s', i);
  }

  /** A step that changes only validation results. */
  lemma ResultsFrame(b: Block, s: State, s': State)
    requires Inv(b, s) && Sized(b, s')
    requires s' == s.(valid := s'.valid, tasks := s'.tasks)
    requires forall i :: 0 <= i < |b.txns| && s'.valid[i] && !s.valid[i] ==> ValidOk(b, s', i)
    requires forall w :: w in s'.tasks && (w !in s.tasks || s'.tasks[w] != s.tasks[w]) ==> TaskOk(b, s', s'.tasks[w])
    ensures Inv(b, s')
  {
    LocalFrame(b, s, s', |b.txns|);
    KnownFrame(b, s, s', |b.txns|);
    forall i | 0 <= i < |b.txns| ensures ValidOk(b, s', i) {
      assert ValidOk(b, s, i);
      assert Clean(s', i) ==> Clean(s, i);
    }
    forall w | w in s'.tasks ensures TaskOk(b, s', s'.tasks[w]) {
      if w in s.tasks && s'.tasks[w] == s.tasks[w] {
        assert TaskOk(b, s, s.tasks[w]);
        assert Clean(s', s.tasks[w].idx) ==> Clean(s, s.tasks[w].idx);
      }
    }
    forall i | 0 <= i < s'.commits ensures SerialAt(b, s', i) {
      assert SerialAt(b, s, i);
    }
  }

  lemma StartValidationStep(b: Block, s: State, w: nat, i: nat)
    requires Inv(b, s) && CanStartValidation(b, s, w, i)
    ensures Inv(b, DoStartValidation(b, s, w, i))
  {
    ResultsFrame(b, s, DoStartValidation(b, s, w, i));
  }

  lemma CheckReadStep(b: Block, s: State, w: nat)
    requires Inv(b, s) && CanCheckRead(b, s, w)
    ensures Inv(b, DoCheckRead(b, s, w))
  {
    var t, s' := s.tasks[w], DoCheckRead(b, s, w);
    assert TaskOk(b, s, t);
    assert Clean(s', t.idx) ==> Clean(s, t.idx);
    assert t.captured[..t.pos + 1] == t.captured[..t.pos] + [t.captured[t.pos]];
    assert TaskOk(b, s', s'.tasks[w]);
    ResultsFrame(b, s, s');
  }

  /** A failed validation of the present incarnation begins its abort. */
  lemma AbortStep(b: Block, s: State, w: nat)
    requires Inv(b, s) && CanEndValidation(b, s, w) && !s.tasks[w].ok
    requires s.status[s.tasks[w].idx] == Executed(s.tasks[w].inc)
    ensures Inv(b, DoEndValidation(b, s, w))
  {
    var i, s' := s.tasks[w].idx, DoEndValidation(b, s, w);
    assert LocalAt(b, s, i) && KnownAt(b, s, i);
    LocalFrame(b, s, s', i);
    KnownFrame(b, s, s', i);
    OneQuiet(b, s, s', i);
    OrderFrame(b, s, s', i);
  }

  lemma EndValidationStep(b: Block, s: State, w: nat)
    requires Inv(b, s) && CanEndValidation(b, s, w)
    ensures Inv(b, DoEndValidation(b, s, w))
  {
    var t, s' := s.tasks[w], DoEndValidation(b, s, w);
    assert TaskOk(b, s, t);
    if !t.ok && s.status[t.idx] == Executed(t.inc) {
      AbortStep(b, s, w);
    } else {
      if t.ok && t.current {
        assert t.captured[..t.pos] == t.captured;
        assert Clean(s', t.idx) ==> Clean(s, t.idx);
        assert ValidOk(b, s', t.idx);
      }
      ResultsFrame(b, s, s');
    }
  }

  lemma MarkStep(b: Block, s: State, i: nat, k: Key)
    requires Inv(b, s) && CanMark(b, s, i, k)
    ensures Inv(b, DoMark(b, s, i, k))
  {
    var s' := DoMark(b, s, i, k);
    assert LocalAt(b, s, i);
    MarkLocal(b, s, i, k);
    LocalFrame(b, s, s', i);
    MarkKnown(b, s, i, k);
    OneQuiet(b, s, s', i);
    OrderFrame(b, s, s', i);
  }

  lemma EndAbortStep(b: Block, s: State, i: nat)
    requires Inv(b, s) && CanEndAbort(b, s, i)
    ensures Inv(b, DoEndAbort(b, s, i))
  {
    var s' := DoEndAbort(b, s, i);
    assert LocalAt(b, s, i) && KnownAt(b, s, i);
    LocalFrame(b, s, s', i);
    KnownFrame(b, s, s', i);
    OneQuiet(b, s, s', i);
    OrderFrame(b, s, s', i);
  }

  lemma ReexecuteStep(b: Block, s: State)
    requires Inv(b, s) && CanReexecute(b, s)
    ensures Inv(b, DoReexecute(b, s))
  {
    var i, s' := s.commits, DoReexecute(b, s);
    assert LocalAt(b, s, i) && KnownAt(b, s, i);
    LocalFrame(b, s, s', i);
    KnownFrame(b, s, s', i);
    OneQuiet(b, s, s', i);
    OrderFrame(b, s, s', i);
  }

  lemma RestartStep(b: Block, s: State)
    requires Inv(b, s) && CanRestart(b, s)
    ensures Inv(b, DoRestart(b, s))
  {
    var i, s' := s.commits, DoRestart(b, s);
    assert LocalAt(b, s, i) && KnownAt(b, s, i);
    LocalFrame(b, s, s', i);
    KnownFrame(b, s, s', i);
    OneQuiet(b, s, s', i);
    OrderFrame(b, s, s', i);
  }

  /** At the commit index nothing below is dirty, so a counted validation is true of the cache. */
  lemma OfferedMatches(b: Block, s: State)
    requires Inv(b, s) && CanCommit(b, s)
    ensures AllReadsMatch(b, s, s.commits, s.records[s.commits].value.captured)
  {
    assert ValidOk(b, s, s.commits);
    assert Clean(s, s.commits);
  }

  /** At the commit index the cache below holds the serial state, so the recorded writes can be
      committed exactly if they apply serially. */
  lemma CertainExactly(b: Block, s: State)
    requires Inv(b, s) && s.commits < |b.txns| && SerialAt(b, s, s.commits)
    ensures var w := WritesOf(s.records[s.commits].value.outcome);
      && (Committable(b, s, s.commits, w) <==> AllApply(b.base, SerialOver(b, s.commits), w))
      && (BrokenExactly(b, s, s.commits, w, {}, true) <==> !AllApply(b.base, SerialOver(b, s.commits), w))
  {
    forall k: Key
      ensures ReadBelow(b.base, s.layers, s.commits, k).Found?
      ensures ReadBelow(b.base, s.layers, s.commits, k).val == Look(b.base, SerialOver(b, s.commits), k)
    {
      CommittedRead(b, s, s.commits, k);
    }
  }

  lemma CommitStep(b: Block, s: State)
    requires Inv(b, s) && (CanCommit(b, s) || CanRecheck(b, s))
    ensures Inv(b, DoCommit(b, s))
  {
    var i, s' := s.commits, DoCommit(b, s);
    if CanCommit(b, s) { OfferedMatches(b, s); }
    CommitIsSerial(b, s);
    CertainExactly(b, s);
    assert LocalAt(b, s, i) && KnownAt(b, s, i);
    LocalFrame(b, s, s', i);
    KnownFrame(b, s, s', i);
    OneQuiet(b, s, s', i);
    forall j | 0 <= j < s'.commits ensures SerialAt(b, s', j) {
      assert SerialAt(b, s, j);
    }
  }

  lemma Step(b: Block, s: State, a: Action)
    requires Inv(b, s) && Enabled(b, s, a)
    ensures Inv(b, Apply(b, s, a))
  {
    match a
    case Start(i) => StartStep(b, s, i);
    case ReadKey(i) => ReadStep(b, s, i);
    case EndRun(i) => EndRunStep(b, s, i);
    case Write(i, k) => WriteStep(b, s, i, k);
    case Remove(i, k) => RemoveStep(b, s, i, k);
    case EndExecution(i) => EndExecutionStep(b, s, i);
    case StartValidation(w, i) => StartValidationStep(b, s, w, i);
    case CheckRead(w) => CheckReadStep(b, s, w);
    case EndValidation(w) => EndValidationStep(b, s, w);
    case MarkEstimate(i, k) => MarkStep(b, s, i, k);
    case EndAbort(i) => EndAbortStep(b, s, i);
    case Commit => CommitStep(b, s);
    case Reexecute => ReexecuteStep(b, s);
    case Restart => RestartStep(b, s);
    case Recheck => CommitStep(b, s);
  }

  lemma {:induction false} Steps(b: Block, s: State, acts: seq<Action>, s': State)
    requires Inv(b, s) && Reaches(b, s, acts, s')
    ensures Inv(b, s')
    decreases |acts|
  {
    if acts != [] {
      Step(b, s, acts[0]);
      Steps(b, Apply(b, s, acts[0]), acts[1..], s');
    }
  }

  /* ---- Theorems about every run ---- */

  /** Serial equivalence: whatever the interleaving, a committed transaction observed and produced
      exactly what it does when transactions `0..i` run one after another. */
  lemma SerialEquivalence(b: Block, acts: seq<Action>, s: State, i: nat)
    requires Reaches(b, Init(b), acts, s) && Sized(b, s) && i < s.commits
    ensures s.status[i].Committed? && s.records[i].Some?
    ensures FactsOf(s.records[i].value.captured) == SerialTrace(b, i).facts
    ensures s.records[i].value.outcome == SerialTrace(b, i).outcome
    ensures Certain(b, i)
  {
    InitInv(b);
    Steps(b, Init(b), acts, s);
    assert SerialAt(b, s, i);
  }

  /** Multi-version ownership: between executions, a transaction's entries are exactly the keys of
      its last recorded write set, with that incarnation's operations; they are estimates exactly
      while it stands aborted. */
  lemma Ownership(b: Block, acts: seq<Action>, s: State, i: nat)
    requires Reaches(b, Init(b), acts, s) && Sized(b, s) && i < |b.txns|
    requires !s.status[i].Writing? && !s.status[i].Aborting?
    ensures s.layers[i].Keys == PrevWrites(s.records[i]).Keys
    ensures forall k :: k in s.layers[i] ==> (s.layers[i][k].estimate <==> s.status[i].Ready? || s.status[i].Running?)
    ensures s.status[i].Ready? || s.status[i].Running? ==>
      forall k :: k in s.layers[i] ==>
        s.status[i].inc > 0 && s.layers[i][k] == Cell(s.status[i].inc - 1, true, PrevWrites(s.records[i])[k])
    ensures Settled(s.status[i]) || s.status[i].Rechecking? ==>
      s.layers[i] == Published(s.status[i].inc, PrevWrites(s.records[i]))
  {
    InitInv(b);
    Steps(b, Init(b), acts, s);
    assert LocalAt(b, s, i);
  }

  /** Commit-time re-execution: both validations made after it pass exactly when the serial run of the
      transaction is certain: it is not itself a speculative abort, and each of its delayed field
      changes applies to the serial value. */
  lemma RecheckExactly(b: Block, acts: seq<Action>, s: State)
    requires Reaches(b, Init(b), acts, s) && Sized(b, s) && AtRecheck(b, s)
    ensures RecheckPasses(b, s) <==> Certain(b, s.commits)
  {
    InitInv(b);
    Steps(b, Init(b), acts, s);
    RecheckCertain(b, s);
  }

  lemma RecheckCertain(b: Block, s: State)
    requires Inv(b, s) && AtRecheck(b, s)
    ensures SerialAt(b, s, s.commits) && (RecheckPasses(b, s) <==> Certain(b, s.commits))
  {
    CommitIsSerial(b, s);
    CertainExactly(b, s);
  }

  lemma FinalReadsFound(b: Block, acts: seq<Action>, s: State, k: Key)
    requires Reaches(b, Init(b), acts, s) && Sized(b, s)
    ensures ReadBelow(b.base, s.layers, s.commits, k).Found?
  {
    InitInv(b);
    Steps(b, Init(b), acts, s);
    CommittedRead(b, s, s.commits, k);
  }
}
