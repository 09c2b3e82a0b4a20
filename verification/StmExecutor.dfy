/** The executor's own procedures, as imperative code over the shared cache and the last recorded
    inputs and outputs. */
module StmExecutor {
  import opened Common
  import opened StmTypes
  import opened StmCache
  import opened StmSerial
  import opened StmSequential
  import opened StmPipeline

  class MultiVersionMap {
    var layers: seq<Layer>

    constructor (n: nat)
      ensures |layers| == n && forall i :: 0 <= i < n ==> layers[i] == map[]
    {
      layers := seq(n, i => map[]);
    }

    method Write(k: Key, i: nat, inc: nat, op: WriteOp)
      requires i < |layers|
      modifies this
      ensures layers == old(layers)[i := old(layers)[i][k := Cell(inc, false, op)]]
    {
      layers := layers[i := layers[i][k := Cell(inc, false, op)]];
    }

    method Remove(k: Key, i: nat)
      requires i < |layers|
      modifies this
      ensures layers == old(layers)[i := old(layers)[i] - {k}]
    {
      layers := layers[i := layers[i] - {k}];
    }

    method MarkEstimate(k: Key, i: nat)
      requires i < |layers| && k in layers[i]
      modifies this
      ensures layers == old(layers)[i := old(layers)[i][k := old(layers)[i][k].(estimate := true)]]
    {
      layers := layers[i := layers[i][k := layers[i][k].(estimate := true)]];
    }
  }

  class LastInputOutput {
    var records: seq<Option<Record>>

    constructor (n: nat)
      ensures |records| == n && forall i :: 0 <= i < n ==> records[i] == None
    {
      records := seq(n, i => None);
    }

    method Record(i: nat, rec: Record)
      requires i < |records|
      modifies this
      ensures records == old(records)[i := Some(rec)]
    {
      records := records[i := Some(rec)];
    }
  }

  datatype ExecuteResult = Updated(outside: bool) | MustWait(key: Key) | CodeError

  /** `execute`: run the code, replace the previous incarnation's entries, record the run. The
      result says whether a data key outside the previous ones was written. */
  method Execute(b: Block, i: nat, inc: nat, last: LastInputOutput, cache: MultiVersionMap) returns (r: ExecuteResult)
    requires i < |b.txns| == |cache.layers| == |last.records|
    requires cache.layers[i].Keys == PrevWrites(last.records[i]).Keys
    modifies last, cache
    ensures match RunAgainst(b.txns[i], b.base, old(cache.layers), i, [])
      case Waits(k) => r == MustWait(k) && cache.layers == old(cache.layers) && last.records == old(last.records)
      case Stopped(captured, o) =>
        if o.CodeInvariantError?
        then r == CodeError && cache.layers == old(cache.layers) && last.records == old(last.records)
        else
          && r.Updated?
          && (r.outside <==> exists k :: k in WritesOf(o) && k.Data? && k !in PrevWrites(old(last.records)[i]))
          && cache.layers == old(cache.layers)[i := Published(inc, WritesOf(o))]
          && (forall k :: k in cache.layers[i] <==> (o.Success? || o.SkipRest?) && k in o.output.writes)
          && (forall k :: k in cache.layers[i] ==> cache.layers[i][k] == Cell(inc, false, o.output.writes[k]))
          && var failed := SomeUnrecordable(b.base, old(cache.layers), i, WritesOf(o), {});
             last.records == old(last.records)[i := Some(StmCache.Record.Record(captured, o, failed))]
  {
    var txn := b.txns[i];
    var captured: seq<Desc> := [];
    var instr := Next(txn, FactsOf(captured));
    while instr.Fetch?
      invariant instr == Next(txn, FactsOf(captured))
      invariant cache.layers == old(cache.layers) && last.records == old(last.records)
      invariant RunAgainst(txn, b.base, cache.layers, i, captured) == RunAgainst(txn, b.base, cache.layers, i, [])
      decreases txn.gas - |captured|
    {
      var f := ReadBelow(b.base, cache.layers, i, instr.key);
      if f.Blocked? {
        return MustWait(instr.key);
      }
      captured := captured + [Capture(instr.key, instr.kind, f)];
      instr := Next(txn, FactsOf(captured));
    }
    var o := instr.outcome;
    if o.CodeInvariantError? {
      return CodeError;
    }
    var outside, failed := ApplyUpdates(b.base, WritesOf(o), PrevWrites(last.records[i]).Keys, i, inc, cache);
    last.Record(i, StmCache.Record.Record(captured, o, failed));
    r := Updated(outside);
  }

  /** Some write not in `todo` cannot be recorded on top of what is below `i`. */
  ghost predicate SomeUnrecordable(base: map<Key, Value>, layers: seq<Layer>, i: nat, writes: map<Key, WriteOp>,
      todo: set<Key>)
    requires i <= |layers|
  {
    exists k :: k in writes && k !in todo && Unrecordable(writes[k], ReadBelow(base, layers, i, k))
  }

  /** The writes of an output, then the removal of previous entries that were not overwritten. */
  method ApplyUpdates(base: map<Key, Value>, writes: map<Key, WriteOp>, prev: set<Key>, i: nat, inc: nat,
      cache: MultiVersionMap)
    returns (outside: bool, failed: bool)
    requires i < |cache.layers| && cache.layers[i].Keys == prev
    modifies cache
    ensures cache.layers == old(cache.layers)[i := Published(inc, writes)]
    ensures outside <==> exists k :: k in writes && k.Data? && k !in prev
    ensures failed <==> SomeUnrecordable(base, old(cache.layers), i, writes, {})
  {
    var stale;
    outside, failed, stale := WriteAll(base, writes, prev, i, inc, cache);
    RemoveStale(writes, stale, i, inc, cache);
    PublishedLayer(cache.layers[i], inc, writes);
  }

  lemma PublishedLayer(layer: Layer, inc: nat, writes: map<Key, WriteOp>)
    requires Holding(layer, {}, inc, writes, {})
    ensures layer == Published(inc, writes)
  {
  }

  /** Only layer `i` may differ. */
  ghost predicate Frame(before: seq<Layer>, after: seq<Layer>, i: nat) {
    |after| == |before| && i < |before| && after == before[i := after[i]]
  }

  /** The layer holds the writes done so far, and beyond them only stale keys. */
  ghost predicate Holding(layer: Layer, stale: set<Key>, inc: nat, writes: map<Key, WriteOp>, todo: set<Key>) {
    && (forall k :: k in writes && k !in todo ==> k in layer && layer[k] == Cell(inc, false, writes[k]))
    && (forall k :: k in layer ==> k in stale || (k in writes && k !in todo))
  }

  method RemoveStale(writes: map<Key, WriteOp>, left: set<Key>, i: nat, inc: nat, cache: MultiVersionMap)
    requires i < |cache.layers| && (forall k :: k in left ==> k !in writes)
    requires Holding(cache.layers[i], left, inc, writes, {})
    modifies cache
    ensures Frame(old(cache.layers), cache.layers, i)
    ensures Holding(cache.layers[i], {}, inc, writes, {})
  {
    var stale := left;
    while stale != {}
      invariant forall k :: k in stale ==> k !in writes
      invariant Frame(old(cache.layers), cache.layers, i)
      invariant Holding(cache.layers[i], stale, inc, writes, {})
      decreases |stale|
    {
      var k :| k in stale;
      cache.Remove(k, i);
      stale := stale - {k};
    }
  }

  method WriteAll(base: map<Key, Value>, writes: map<Key, WriteOp>, prev: set<Key>, i: nat, inc: nat,
      cache: MultiVersionMap)
    returns (outside: bool, failed: bool, stale: set<Key>)
    requires i < |cache.layers| && cache.layers[i].Keys == prev
    modifies cache
    ensures stale == prev - writes.Keys
    ensures Frame(old(cache.layers), cache.layers, i)
    ensures Holding(cache.layers[i], stale, inc, writes, {})
    ensures outside <==> exists k :: k in writes && k.Data? && k !in prev
    ensures failed <==> SomeUnrecordable(base, old(cache.layers), i, writes, {})
  {
    outside, failed, stale := false, false, prev;
    var todo := writes.Keys;
    while todo != {}
      invariant forall k :: k in todo ==> k in writes
      invariant forall k :: k in stale <==> k in prev && (k in writes ==> k in todo)
      invariant outside <==> exists k :: k in writes && k !in todo && k.Data? && k !in prev
      invariant Frame(old(cache.layers), cache.layers, i)
      invariant failed <==> SomeUnrecordable(base, old(cache.layers), i, writes, todo)
      invariant Holding(cache.layers[i], stale, inc, writes, todo)
      decreases |todo|
    {
      var k :| k in todo;
      if k in stale {
        stale := stale - {k};
      } else if k.Data? {
        outside := true;
      }
      SameBelow(base, old(cache.layers), cache.layers, i, k);
      var unrecordable := Unrecordable(writes[k], ReadBelow(base, cache.layers, i, k));
      OneMoreRecorded(base, old(cache.layers), i, writes, todo, k);
      failed := failed || unrecordable;
      cache.Write(k, i, inc, writes[k]);
      todo := todo - {k};
    }
  }

  lemma OneMoreRecorded(base: map<Key, Value>, layers: seq<Layer>, i: nat, writes: map<Key, WriteOp>, todo: set<Key>,
      k: Key)
    requires i <= |layers| && k in todo && k in writes
    ensures SomeUnrecordable(base, layers, i, writes, todo - {k}) <==>
      SomeUnrecordable(base, layers, i, writes, todo) || Unrecordable(writes[k], ReadBelow(base, layers, i, k))
  {
  }

  /** `validate`: stop at the first recorded data read that no longer matches. */
  method Validate(base: map<Key, Value>, i: nat, rec: Record, cache: MultiVersionMap) returns (ok: bool)
    requires i < |cache.layers|
    ensures ok <==> forall p :: 0 <= p < |rec.captured| && rec.captured[p].fact.key.Data? ==>
      Matches(rec.captured[p], ReadBelow(base, cache.layers, i, rec.captured[p].fact.key))
  {
    for q := 0 to |rec.captured|
      invariant forall p :: 0 <= p < q && rec.captured[p].fact.key.Data? ==>
        Matches(rec.captured[p], ReadBelow(base, cache.layers, i, rec.captured[p].fact.key))
    {
      var d := rec.captured[q];
      if d.fact.key.Data? && !Matches(d, ReadBelow(base, cache.layers, i, d.fact.key)) {
        return false;
      }
    }
    return true;
  }

  /** `validate_commit_ready`: the delayed reads, then the attempt to commit the delayed changes. */
  method ValidateCommitReady(base: map<Key, Value>, i: nat, rec: Record, cache: MultiVersionMap) returns (ok: bool)
    requires i < |cache.layers|
    ensures ok <==>
      && !rec.outcome.SpeculativeAbort? && !rec.failed
      && (forall p :: 0 <= p < |rec.captured| && rec.captured[p].fact.key.Delayed? ==>
            Matches(rec.captured[p], ReadBelow(base, cache.layers, i, rec.captured[p].fact.key)))
      && (forall k :: k in WritesOf(rec.outcome) ==> CanCommitWrite(base, cache.layers, i, k, WritesOf(rec.outcome)[k]))
  {
    if rec.outcome.SpeculativeAbort? || rec.failed {
      return false;
    }
    for q := 0 to |rec.captured|
      invariant forall p :: 0 <= p < q && rec.captured[p].fact.key.Delayed? ==>
        Matches(rec.captured[p], ReadBelow(base, cache.layers, i, rec.captured[p].fact.key))
    {
      var d := rec.captured[q];
      if d.fact.key.Delayed? && !Matches(d, ReadBelow(base, cache.layers, i, d.fact.key)) {
        return false;
      }
    }
    var writes := WritesOf(rec.outcome);
    var todo := writes.Keys;
    while todo != {}
      invariant forall k :: k in todo ==> k in writes
      invariant forall k :: k in writes && k !in todo ==> CanCommitWrite(base, cache.layers, i, k, writes[k])
      decreases |todo|
    {
      var k :| k in todo;
      if !CanCommitWrite(base, cache.layers, i, k, writes[k]) {
        return false;
      }
      todo := todo - {k};
    }
    return true;
  }

  predicate CanCommitWrite(base: map<Key, Value>, layers: seq<Layer>, i: nat, k: Key, op: WriteOp)
    requires i <= |layers|
  {
    var f := ReadBelow(base, layers, i, k);
    f.Found? && Applies(op, f.val)
  }

  /** `update_transaction_on_abort`: every entry becomes an estimate and nothing else changes. */
  method UpdateOnAbort(i: nat, last: LastInputOutput, cache: MultiVersionMap)
    requires i < |cache.layers| == |last.records|
    requires cache.layers[i].Keys == PrevWrites(last.records[i]).Keys
    modifies cache
    ensures |cache.layers| == |old(cache.layers)|
    ensures cache.layers == old(cache.layers)[i := cache.layers[i]]
    ensures cache.layers[i].Keys == old(cache.layers)[i].Keys
    ensures forall k :: k in cache.layers[i] ==> cache.layers[i][k] == old(cache.layers)[i][k].(estimate := true)
  {
    var todo := PrevWrites(last.records[i]).Keys;
    while todo != {}
      invariant todo <= old(cache.layers)[i].Keys
      invariant |cache.layers| == |old(cache.layers)|
      invariant cache.layers == old(cache.layers)[i := cache.layers[i]]
      invariant cache.layers[i].Keys == old(cache.layers)[i].Keys
      invariant forall k :: k in cache.layers[i] ==>
        cache.layers[i][k] == if k in todo then old(cache.layers)[i][k] else old(cache.layers)[i][k].(estimate := true)
      decreases |todo|
    {
      var k :| k in todo;
      cache.MarkEstimate(k, i);
      todo := todo - {k};
    }
  }

  /* ---- Sequential execution ---- */

  /** An unrecoverable failure of the VM, or one of the executor itself. */
  datatype BlockError = VmError | ExecutorError

  datatype SequentialResult = Vector(outputs: seq<Option<Receipt>>) | FatalAt(error: BlockError) | PanicAt(idx: nat)

  function ErrorOf(o: Outcome): BlockError {
    if o.Abort? then VmError else ExecutorError
  }

  /** Running one transaction against the state so far. */
  method RunTransaction(t: Txn, base: map<Key, Value>, over: map<Key, Value>) returns (trace: Trace)
    ensures trace == Run(t, base, over, [])
  {
    var facts: seq<Fact> := [];
    var instr := Next(t, facts);
    while instr.Fetch?
      invariant instr == Next(t, facts)
      invariant Run(t, base, over, facts) == Run(t, base, over, [])
      decreases t.gas - |facts|
    {
      facts := facts + [Fact(instr.key, instr.kind, Observe(instr.kind, Look(base, over, instr.key)))];
      instr := Next(t, facts);
    }
    return Trace(facts, instr.outcome);
  }

  /** The part of a write set that is not in `todo`. */
  function Part(writes: map<Key, WriteOp>, todo: set<Key>): map<Key, WriteOp> {
    map k | k in writes && k !in todo :: writes[k]
  }

  lemma OverlayAt(base: map<Key, Value>, over: map<Key, Value>, writes: map<Key, WriteOp>, x: Key)
    ensures Get(Overlay(base, over, writes), x) ==
      if x in writes then ApplyOp(writes[x], Look(base, over, x)) else Get(over, x)
    ensures x in Overlay(base, over, writes) <==> x in writes || x in over
  {
  }

  lemma OverlayOne(base: map<Key, Value>, over: map<Key, Value>, writes: map<Key, WriteOp>, todo: set<Key>, k: Key)
    requires todo <= writes.Keys && k in todo
    ensures var over' := Overlay(base, over, Part(writes, todo));
      && Look(base, over', k) == Look(base, over, k)
      && Overlay(base, over, Part(writes, todo - {k})) == over'[k := ApplyOp(writes[k], Look(base, over', k))]
  {
    var before, after := Overlay(base, over, Part(writes, todo)), Overlay(base, over, Part(writes, todo - {k}));
    OverlayAt(base, over, Part(writes, todo), k);
    assert Look(base, before, k) == Look(base, over, k);
    var expected := before[k := ApplyOp(writes[k], Look(base, before, k))];
    forall x: Key ensures (x in after <==> x in expected) && Get(after, x) == Get(expected, x) {
      OverlayAt(base, over, Part(writes, todo), x);
      OverlayAt(base, over, Part(writes, todo - {k}), x);
    }
    SameValues(after, expected);
  }

  lemma SameValues(m: map<Key, Value>, m': map<Key, Value>)
    requires forall x: Key :: (x in m <==> x in m') && Get(m, x) == Get(m', x)
    ensures m == m'
  {
    forall x | x in m ensures m[x] == m'[x] {
      assert Get(m, x) == Get(m', x);
    }
  }

  /** Writing an output to the state, resolving deltas; `None` is a panic at a delayed field change that
      does not apply. */
  method ApplyOutput(base: map<Key, Value>, over: map<Key, Value>, writes: map<Key, WriteOp>)
      returns (r: Option<map<Key, Value>>)
    ensures r == if AllApply(base, over, writes) then Some(Overlay(base, over, writes)) else None
  {
    var over' := over;
    var todo := writes.Keys;
    while todo != {}
      invariant todo <= writes.Keys
      invariant over' == Overlay(base, over, Part(writes, todo))
      invariant forall k :: k in writes && k !in todo ==> Applies(writes[k], Look(base, over, k))
      decreases |todo|
    {
      var k :| k in todo;
      OverlayOne(base, over, writes, todo, k);
      if !Applies(writes[k], Look(base, over', k)) {
        return None;
      }
      over' := over'[k := ApplyOp(writes[k], Look(base, over', k))];
      todo := todo - {k};
    }
    assert Part(writes, {}) == writes;
    r := Some(over');
  }

  /** The loop's progress: the first `i` transactions are done, and the block ends here or goes on. */
  ghost predicate Sofar(b: Block, limit: seq<Charge> -> bool, i: nat, over: map<Key, Value>, charges: seq<Charge>,
      ret: seq<Option<Receipt>>, stop: bool) {
    && i <= |b.txns| && KeptBelow(b, i)
    && over == SerialOver(b, i) && charges == Charges(b, i)
    && |ret| == i && (forall j :: 0 <= j < i ==> ret[j] == Some(ReceiptOf(b, j)))
    && EndingFrom(b, limit, 0) == if stop then Ended(i) else EndingFrom(b, limit, i)
  }

  lemma OneMore(b: Block, limit: seq<Charge> -> bool, i: nat, over: map<Key, Value>, charges: seq<Charge>,
      ret: seq<Option<Receipt>>)
    requires Sofar(b, limit, i, over, charges, ret, false) && i < |b.txns| && Contributes(b, i)
    ensures var charges' := charges + [ChargeOf(SerialTrace(b, i))];
      Sofar(b, limit, i + 1, SerialOver(b, i + 1), charges', ret + [Some(ReceiptOf(b, i))],
            SerialTrace(b, i).outcome.SkipRest? || (i < |b.txns| - 1 && limit(charges')))
  {
    assert KeptBelow(b, i + 1);
  }

  /** `execute_transactions_sequential`. */
  method ExecuteSequential(b: Block, limit: seq<Charge> -> bool) returns (r: SequentialResult)
    ensures var e := EndingFrom(b, limit, 0);
      r == if e.Fatal? then FatalAt(ErrorOf(SerialTrace(b, e.idx).outcome))
           else if e.Panicked? then PanicAt(e.idx)
           else Vector(Outputs(b, e.kept))
  {
    var n := |b.txns|;
    var over: map<Key, Value> := map[];
    var charges: seq<Charge> := [];
    var ret: seq<Option<Receipt>> := [];
    var i := 0;
    var stop := false;
    while i < n && !stop
      invariant Sofar(b, limit, i, over, charges, ret, stop)
      decreases n - i
    {
      var trace := RunTransaction(b.txns[i], b.base, over);
      if !Kept(trace.outcome) {
        return FatalAt(ErrorOf(trace.outcome));
      }
      var writes := WritesOf(trace.outcome);
      var next := ApplyOutput(b.base, over, writes);
      if next.None? {
        return PanicAt(i);
      }
      OneMore(b, limit, i, over, charges, ret);
      charges := charges + [ChargeOf(trace)];
      over := next.value;
      ret := ret + [Some(Receipt(trace.outcome.output.fee, map k | k in writes :: Look(b.base, over, k)))];
      stop := trace.outcome.SkipRest? || (i < n - 1 && limit(charges));
      i := i + 1;
    }
    ret := ret + seq(n - i, j => None);
    assert ret == Outputs(b, i);
    r := Vector(ret);
  }

  /* ---- The block ---- */

  /** The code every output carries when a failed block is discarded. */
  datatype StatusCode = UnknownInvariantViolation | DelayedMaterializationInvariantError

  datatype BlockResult =
    | BlockOutput(outputs: seq<Option<Receipt>>)
    | AllDiscarded(code: StatusCode)
    | Failed(error: BlockError)
    | Panics

  datatype LocalConfig = LocalConfig(concurrency: nat, allowFallback: bool, discardFailedBlocks: bool)

  function CodeOf(error: BlockError): StatusCode {
    if error.VmError? then UnknownInvariantViolation else DelayedMaterializationInvariantError
  }

  ghost function SequentialAnswer(b: Block, limit: seq<Charge> -> bool, config: LocalConfig): BlockResult {
    match EndingFrom(b, limit, 0)
    case Fatal(i) =>
      var error := ErrorOf(SerialTrace(b, i).outcome);
      if config.discardFailedBlocks then AllDiscarded(CodeOf(error)) else Failed(error)
    case Panicked(_) => Panics
    case Ended(c) => BlockOutput(Outputs(b, c))
  }

  /** The vector a parallel run may return: that of some finished interleaving without an error. */
  ghost predicate ParallelOutput(b: Block, limits: Limits, outputs: seq<Option<Receipt>>) {
    if |b.txns| == 0 then outputs == []
    else
      exists workers, moves, p ::
        Leads(b, limits, InitPipe(b, workers), moves, p) && Finished(p) && p.results == outputs
  }

  lemma ParallelAnswer(b: Block, limits: Limits, outputs: seq<Option<Receipt>>, config: LocalConfig)
    requires ParallelOutput(b, limits, outputs)
    requires forall cs :: limits.parallel(cs) == limits.sequential(cs)
    ensures BlockOutput(outputs) == SequentialAnswer(b, limits.sequential, config)
  {
    if |b.txns| > 0 {
      var workers, moves, p :| Leads(b, limits, InitPipe(b, workers), moves, p) && Finished(p) && p.results == outputs;
      ParallelIsSequential(b, limits, workers, moves, p);
    } else {
      assert Outputs(b, 0) == [];
    }
  }

  /** `execute_block`: whatever the concurrency level, and whether or not the parallel run
      succeeded, the answer is the sequential one, unless a failed parallel run may not fall back. */
  method ExecuteBlock(b: Block, limits: Limits, config: LocalConfig, parallel: Option<seq<Option<Receipt>>>)
      returns (r: BlockResult)
    requires parallel.Some? ==> ParallelOutput(b, limits, parallel.value)
    requires forall cs :: limits.parallel(cs) == limits.sequential(cs)
    ensures r ==
      if config.concurrency > 1 && parallel.None? && !config.allowFallback then Panics
      else SequentialAnswer(b, limits.sequential, config)
    ensures var e := EndingFrom(b, limits.sequential, 0);
      e.Fatal? && !r.Panics? ==>
        var vm := SerialTrace(b, e.idx).outcome.Abort?;
        r == if config.discardFailedBlocks
             then AllDiscarded(if vm then UnknownInvariantViolation else DelayedMaterializationInvariantError)
             else Failed(if vm then VmError else ExecutorError)
  {
    if config.concurrency > 1 {
      if parallel.Some? {
        ParallelAnswer(b, limits, parallel.value, config);
        return BlockOutput(parallel.value);
      }
      if !config.allowFallback {
        return Panics;
      }
    }
    var sequential := ExecuteSequential(b, limits.sequential);
    match sequential
    case Vector(outputs) => return BlockOutput(outputs);
    case PanicAt(_) => return Panics;
    case FatalAt(error) => return if config.discardFailedBlocks then AllDiscarded(CodeOf(error)) else Failed(error);
  }
}
