/** What every step of the parallel executor keeps. */
module StmInvariant {
  import opened Common
  import opened StmTypes
  import opened StmCache
  import opened StmMachine

  /* ---- Ownership and code paths: one transaction at a time ---- */

  /** Ownership: the entries a transaction holds are exactly the keys its last finished
      incarnation modified, and they are estimates exactly while that incarnation stands aborted;
      an execution in progress replaces them key by key. */
  ghost predicate LayerOk(st: Status, rec: Option<Record>, layer: Layer) {
    var prev := PrevWrites(rec);
    match st
    case Ready(n) => (rec.None? <==> n == 0) && AllEstimates(layer, prev, n)
    case Running(n, _, _) => (rec.None? <==> n == 0) && AllEstimates(layer, prev, n)
    case Writing(n, _, o, todo, stale, outside, _, _) =>
      var w := WritesOf(o);
      && (rec.None? <==> n == 0)
      && todo <= w.Keys && stale <= prev.Keys && todo * prev.Keys <= stale
      && stale !! (w.Keys - todo)
      && layer.Keys == stale + (w.Keys - todo)
      && (forall k :: k in stale ==> n > 0 && layer[k] == Cell(n - 1, true, prev[k]))
      && (forall k :: k in w && k !in todo ==> layer[k] == Cell(n, false, w[k]))
      && (outside <==> exists k :: k in w && k !in todo && k.Data? && k !in prev)
    case Aborting(n, todo, _) =>
      && rec.Some? && todo <= prev.Keys && layer.Keys == prev.Keys
      && forall k :: k in prev ==> layer[k] == Cell(n, k !in todo, prev[k])
    case _ => rec.Some? && layer == Published(st.inc, prev)
  }

  /** Everything the incarnation before `n` wrote, as estimates, and nothing older. */
  ghost predicate AllEstimates(layer: Layer, prev: map<Key, WriteOp>, n: nat) {
    layer.Keys == prev.Keys && forall k :: k in layer ==> n > 0 && layer[k] == Cell(n - 1, true, prev[k])
  }

  /** The facts collected so far are ones the transaction's code asks for, and a finished run
      ended where the code says. */
  ghost predicate PathOk(t: Txn, st: Status, rec: Option<Record>) {
    && (st.Running? || st.Writing? ==> Follows(t, FactsOf(st.captured)))
    && (st.Writing? ==> Next(t, FactsOf(st.captured)) == Halt(st.outcome))
    && (rec.Some? ==>
      Follows(t, FactsOf(rec.value.captured)) && Next(t, FactsOf(rec.value.captured)) == Halt(rec.value.outcome))
  }

  ghost predicate LocalAt(b: Block, s: State, i: nat)
    requires Sized(b, s) && i < |b.txns|
  {
    LayerOk(s.status[i], s.records[i], s.layers[i]) && PathOk(b.txns[i], s.status[i], s.records[i])
  }

  ghost predicate LocalOk(b: Block, s: State)
    requires Sized(b, s)
  {
    forall i :: 0 <= i < |b.txns| ==> LocalAt(b, s, i)
  }

  /** Only transaction `i` is touched. */
  ghost predicate OnlyAt(b: Block, s: State, s': State, i: nat)
    requires Sized(b, s) && Sized(b, s')
  {
    forall j :: 0 <= j < |b.txns| && j != i ==>
      s'.status[j] == s.status[j] && s'.layers[j] == s.layers[j] && s'.records[j] == s.records[j]
  }

  lemma LocalFrame(b: Block, s: State, s': State, i: nat)
    requires Sized(b, s) && Sized(b, s') && LocalOk(b, s) && OnlyAt(b, s, s', i)
    requires i < |b.txns| ==> LocalAt(b, s', i)
    ensures LocalOk(b, s')
  {
    forall j | 0 <= j < |b.txns| && j != i ensures LocalAt(b, s', j) {
      assert LocalAt(b, s, j);
    }
  }

  lemma ReadLocal(b: Block, s: State, i: nat)
    requires Sized(b, s) && CanRead(b, s, i) && LocalAt(b, s, i)
    ensures LocalAt(b, DoRead(b, s, i), i)
  {
    var before, after := s.status[i].captured, DoRead(b, s, i).status[i].captured;
    FollowsSnoc(b.txns[i], FactsOf(before), after[|before|].fact);
    assert FactsOf(after) == FactsOf(before) + [after[|before|].fact];
  }

  lemma EndRunLocal(b: Block, s: State, i: nat)
    requires Sized(b, s) && CanEndRun(b, s, i) && LocalAt(b, s, i)
    ensures LocalAt(b, DoEndRun(b, s, i), i)
  {
  }

  lemma WriteLocal(b: Block, s: State, i: nat, k: Key)
    requires Sized(b, s) && CanWrite(b, s, i, k) && LocalAt(b, s, i)
    ensures LocalAt(b, DoWrite(b, s, i, k), i)
  {
  }

  lemma RemoveLocal(b: Block, s: State, i: nat, k: Key)
    requires Sized(b, s) && CanRemove(b, s, i, k) && LocalAt(b, s, i)
    ensures LocalAt(b, DoRemove(b, s, i, k), i)
  {
  }

  lemma EndExecutionLocal(b: Block, s: State, i: nat)
    requires Sized(b, s) && CanEndExecution(b, s, i) && LocalAt(b, s, i)
    ensures LocalAt(b, DoEndExecution(b, s, i), i)
  {
  }

  lemma MarkLocal(b: Block, s: State, i: nat, k: Key)
    requires Sized(b, s) && CanMark(b, s, i, k) && LocalAt(b, s, i)
    ensures LocalAt(b, DoMark(b, s, i, k), i)
  {
  }

  /* ---- Versions name values ---- */

  /** Version `(inc, k)` of a transaction may already have been published. */
  ghost predicate Used(st: Status, inc: nat, k: Key) {
    inc < st.inc ||
    (inc == st.inc && !st.Ready? && !st.Running? && (st.Writing? ==> k in WritesOf(st.outcome) && k !in st.todo))
  }

  ghost predicate Logged(log: map<(nat, nat, Key), Value>, i: nat, k: Key, c: Cell) {
    c.op.Put? ==> (i, c.inc, k) in log && log[(i, c.inc, k)] == c.op.value
  }

  ghost predicate LayerLogged(log: map<(nat, nat, Key), Value>, i: nat, layer: Layer) {
    forall k :: k in layer ==> Logged(log, i, k, layer[k])
  }

  /** A full data read saw the one value its version stands for. */
  ghost predicate DescOk(base: map<Key, Value>, log: map<(nat, nat, Key), Value>, d: Desc) {
    d.fact.key.Data? && d.fact.kind.Full? ==>
      && (d.ver.At? ==>
        (d.ver.idx, d.ver.inc, d.fact.key) in log && log[(d.ver.idx, d.ver.inc, d.fact.key)] == d.fact.seen)
      && (d.ver.Storage? ==> d.fact.seen == Get(base, d.fact.key))
  }

  ghost predicate DescsOk(base: map<Key, Value>, log: map<(nat, nat, Key), Value>, ds: seq<Desc>) {
    forall p :: 0 <= p < |ds| ==> DescOk(base, log, ds[p])
  }

  ghost predicate KnownAt(b: Block, s: State, i: nat)
    requires Sized(b, s) && i < |b.txns|
  {
    && LayerLogged(s.log, i, s.layers[i])
    && (s.status[i].Running? || s.status[i].Writing? ==> DescsOk(b.base, s.log, s.status[i].captured))
    && (s.records[i].Some? ==> DescsOk(b.base, s.log, s.records[i].value.captured))
  }

  ghost predicate LogUsed(b: Block, s: State)
    requires Sized(b, s)
  {
    forall v :: v in s.log ==> v.0 < |b.txns| && Used(s.status[v.0], v.1, v.2)
  }

  ghost predicate Known(b: Block, s: State)
    requires Sized(b, s)
  {
    LogUsed(b, s) && forall i :: 0 <= i < |b.txns| ==> KnownAt(b, s, i)
  }

  lemma KnownFrame(b: Block, s: State, s': State, i: nat)
    requires Sized(b, s) && Sized(b, s') && Known(b, s) && OnlyAt(b, s, s', i)
    requires forall v :: v in s.log ==> v in s'.log && s'.log[v] == s.log[v]
    requires i < |b.txns| ==> KnownAt(b, s', i)
    requires LogUsed(b, s')
    ensures Known(b, s')
  {
    forall j | 0 <= j < |b.txns| && j != i ensures KnownAt(b, s', j) {
      assert KnownAt(b, s, j);
    }
  }

  lemma {:induction false} ReadLogged(b: Block, s: State, i: nat, k: Key)
    requires Sized(b, s) && Known(b, s) && i <= |b.txns|
    ensures var f := ReadBelow(b.base, s.layers, i, k);
      f.Found? ==>
        && (f.ver.At? ==> (f.ver.idx, f.ver.inc, k) in s.log && s.log[(f.ver.idx, f.ver.inc, k)] == f.val)
        && (f.ver.Storage? ==> f.val == Get(b.base, k))
  {
    if i > 0 {
      ReadLogged(b, s, i - 1, k);
      assert KnownAt(b, s, i - 1);
    }
  }

  lemma ReadKnown(b: Block, s: State, i: nat)
    requires Sized(b, s) && CanRead(b, s, i) && Known(b, s)
    ensures Known(b, DoRead(b, s, i))
  {
    ReadLogged(b, s, i, Next(b.txns[i], FactsOf(s.status[i].captured)).key);
    assert KnownAt(b, s, i);
    KnownFrame(b, s, DoRead(b, s, i), i);
  }

  lemma WriteKnown(b: Block, s: State, i: nat, k: Key)
    requires Sized(b, s) && CanWrite(b, s, i, k) && Known(b, s) && LocalAt(b, s, i)
    ensures Known(b, DoWrite(b, s, i, k))
  {
    var s' := DoWrite(b, s, i, k);
    assert KnownAt(b, s, i);
    assert (i, s.status[i].inc, k) !in s.log;
    KnownFrame(b, s, s', i);
  }

  lemma RemoveKnown(b: Block, s: State, i: nat, k: Key)
    requires Sized(b, s) && CanRemove(b, s, i, k) && Known(b, s)
    ensures Known(b, DoRemove(b, s, i, k))
  {
    assert KnownAt(b, s, i);
    KnownFrame(b, s, DoRemove(b, s, i, k), i);
  }

  lemma EndExecutionKnown(b: Block, s: State, i: nat)
    requires Sized(b, s) && CanEndExecution(b, s, i) && Known(b, s)
    ensures Known(b, DoEndExecution(b, s, i))
  {
    assert KnownAt(b, s, i);
    KnownFrame(b, s, DoEndExecution(b, s, i), i);
  }

  lemma MarkKnown(b: Block, s: State, i: nat, k: Key)
    requires Sized(b, s) && CanMark(b, s, i, k) && Known(b, s)
    ensures Known(b, DoMark(b, s, i, k))
  {
    assert KnownAt(b, s, i);
    KnownFrame(b, s, DoMark(b, s, i, k), i);
  }

  /* ---- Validations count until the next request to validate again ---- */

  /** A transaction whose cache changes will be followed by such a request. */
  ghost predicate Dirty(st: Status) {
    st.Aborting? || (st.Running? && st.atCommit) || (st.Writing? && (st.outside || st.atCommit))
  }

  ghost predicate Clean(s: State, i: nat)
    requires i <= |s.status|
  {
    forall j :: 0 <= j < i ==> !Dirty(s.status[j])
  }

  ghost predicate Settled(st: Status) {
    st.Executed? || st.Committed?
  }

  /** A counted validation of `i` is still true of the cache unless a lower transaction is dirty. */
  ghost predicate ValidOk(b: Block, s: State, i: nat)
    requires Sized(b, s) && i < |b.txns|
  {
    s.valid[i] ==>
      && Settled(s.status[i]) && s.records[i].Some?
      && (Clean(s, i) ==> DataReadsMatch(b, s, i, s.records[i].value.captured))
  }

  /** The same for the part of a current validation that is already done. */
  ghost predicate TaskOk(b: Block, s: State, t: Task)
    requires Sized(b, s)
  {
    && t.idx < |b.txns| && t.pos <= |t.captured|
    && (t.current ==>
          && Settled(s.status[t.idx]) && s.records[t.idx].Some? && s.records[t.idx].value.captured == t.captured
          && (t.ok && Clean(s, t.idx) ==> DataReadsMatch(b, s, t.idx, t.captured[..t.pos])))
  }

  ghost predicate Validated(b: Block, s: State)
    requires Sized(b, s)
  {
    && (forall i :: 0 <= i < |b.txns| ==> ValidOk(b, s, i))
    && (forall w :: w in s.tasks ==> TaskOk(b, s, s.tasks[w]))
  }

  /** From `s` to `s'` nothing happened to `i` and below that a validation of `i` relies on. */
  ghost predicate QuietFor(b: Block, s: State, s': State, i: nat)
    requires Sized(b, s) && Sized(b, s') && i < |b.txns|
  {
    && s'.records[i] == s.records[i]
    && (Settled(s.status[i]) ==> Settled(s'.status[i]))
    && forall j :: 0 <= j < i && !Dirty(s'.status[j]) ==> !Dirty(s.status[j]) && CalmLayer(s.layers[j], s'.layers[j])
  }

  ghost predicate CalmLayer(before: Layer, after: Layer) {
    forall k: Key :: k.Data? ==> CalmAt(before, after, k)
  }

  lemma QuietReads(b: Block, s: State, s': State, i: nat, ds: seq<Desc>)
    requires Sized(b, s) && Sized(b, s') && i < |b.txns| && QuietFor(b, s, s', i)
    requires Clean(s, i) ==> DataReadsMatch(b, s, i, ds)
    ensures Clean(s', i) ==> DataReadsMatch(b, s', i, ds)
  {
    if Clean(s', i) {
      forall p | 0 <= p < |ds| && ds[p].fact.key.Data?
        ensures Matches(ds[p], ReadBelow(b.base, s'.layers, i, ds[p].fact.key))
      {
        CalmRead(b.base, s.layers, s'.layers, i, ds[p].fact.key);
      }
    }
  }

  /** Validations that still count keep their meaning over a step that is quiet for them. */
  lemma QuietKeeps(b: Block, s: State, s': State)
    requires Sized(b, s) && Sized(b, s') && Validated(b, s)
    requires forall i :: 0 <= i < |b.txns| && s'.valid[i] ==> s.valid[i] && QuietFor(b, s, s', i)
    requires forall w :: w in s'.tasks ==> w in s.tasks && s'.tasks[w] == s.tasks[w].(current := s'.tasks[w].current)
    requires forall w :: w in s'.tasks && s'.tasks[w].current ==>
      s.tasks[w].current && s.tasks[w].idx < |b.txns| && QuietFor(b, s, s', s.tasks[w].idx)
    ensures Validated(b, s')
  {
    forall i | 0 <= i < |b.txns| ensures ValidOk(b, s', i) {
      assert ValidOk(b, s, i);
      if s'.valid[i] {
        QuietReads(b, s, s', i, s.records[i].value.captured);
      }
    }
    forall w | w in s'.tasks ensures TaskOk(b, s', s'.tasks[w]) {
      var t := s.tasks[w];
      assert TaskOk(b, s, t);
      if s'.tasks[w].current && t.ok {
        QuietReads(b, s, s', t.idx, t.captured[..t.pos]);
      }
    }
  }
}
