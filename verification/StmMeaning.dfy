/** What the executors' shared definitions mean, stated on the transactions' own code and write sets:
    what a run observes, what a block leaves behind, what is charged and where the block ends. */
module StmMeaning {
  import opened StmTypes
  import opened StmCache
  import opened StmMachine
  import opened StmInvariant
  import opened StmSerial
  import opened StmSequential

  /* ---- Reads ---- */

  /** Two values look the same to a read of the given kind. */
  ghost predicate LooksSame(kind: Kind, v: Value, v': Value) {
    match kind
    case Full => v == v'
    case Exists => v == v' || (v.Present? && v'.Present?)
    case AtLeast(bound) =>
      v == v' || (v.Present? && v'.Present? && (v.n >= bound <==> v'.n >= bound))
      || (v.Absent? && v'.Present? && v'.n < bound) || (v'.Absent? && v.Present? && v.n < bound)
  }

  /** A read tells apart exactly what its kind allows; a full read returns the value, an existence or
      bound read a 1 exactly if the value is there (and not below the bound). */
  lemma ReadsExactly(kind: Kind, v: Value, v': Value)
    ensures Observe(kind, v) == Observe(kind, v') <==> LooksSame(kind, v, v')
    ensures Observe(Full, v) == v
    ensures kind.Exists? ==> (Observe(kind, v) == Present(1) <==> v.Present?)
    ensures kind.AtLeast? ==> (Observe(kind, v) == Present(1) <==> v.Present? && v.n >= kind.bound)
    ensures v.Broken? ==> Observe(kind, v).Broken?
  {
  }

  ghost function ValueIn(base: map<Key, Value>, over: map<Key, Value>, k: Key): Value {
    if k in over then over[k] else if k in base then base[k] else Absent
  }

  ghost function SeenBefore(facts: seq<Fact>, p: nat): seq<Value>
    requires p <= |facts|
  {
    seq(p, q requires 0 <= q < p => facts[q].seen)
  }

  /** Every fact is what the code asks for after seeing the ones before, read from the given state. */
  ghost predicate CodePath(t: Txn, base: map<Key, Value>, over: map<Key, Value>, facts: seq<Fact>) {
    |facts| <= t.gas && forall p :: 0 <= p < |facts| ==>
      && t.step(SeenBefore(facts, p)) == Fetch(facts[p].key, facts[p].kind)
      && facts[p].seen == Observe(facts[p].kind, ValueIn(base, over, facts[p].key))
  }

  /** The code halts there, or its gas is used up. */
  ghost predicate EndsIn(t: Txn, facts: seq<Fact>, o: Outcome) {
    if |facts| < t.gas then t.step(SeenBefore(facts, |facts|)) == Halt(o) else o == t.exhausted
  }

  lemma CodePathSnoc(t: Txn, base: map<Key, Value>, over: map<Key, Value>, facts: seq<Fact>, f: Fact)
    requires CodePath(t, base, over, facts) && |facts| < t.gas
    requires t.step(SeenBefore(facts, |facts|)) == Fetch(f.key, f.kind)
    requires f.seen == Observe(f.kind, ValueIn(base, over, f.key))
    ensures CodePath(t, base, over, facts + [f])
  {
    var more := facts + [f];
    forall p | 0 <= p < |more| ensures t.step(SeenBefore(more, p)) == Fetch(more[p].key, more[p].kind) {
      assert SeenBefore(more, p) == SeenBefore(facts, p);
    }
  }

  lemma {:induction false} RunPath(t: Txn, base: map<Key, Value>, over: map<Key, Value>, facts: seq<Fact>)
    requires CodePath(t, base, over, facts)
    ensures var r := Run(t, base, over, facts);
      CodePath(t, base, over, r.facts) && EndsIn(t, r.facts, r.outcome)
    decreases t.gas - |facts|
  {
    assert Seen(facts) == SeenBefore(facts, |facts|);
    var instr := Next(t, facts);
    if instr.Fetch? {
      var f := Fact(instr.key, instr.kind, Observe(instr.kind, Look(base, over, instr.key)));
      CodePathSnoc(t, base, over, facts, f);
      RunPath(t, base, over, facts + [f]);
    }
  }

  /** A serial run is the transaction's own code, step by step: each read is the one the code asks for
      after what it has seen, each observation is of the value the transactions before have left, and
      it ends where the code halts or its gas is used up. */
  lemma RunIsTheCode(b: Block, i: nat)
    requires i < |b.txns|
    ensures var t, r := b.txns[i], SerialTrace(b, i);
      CodePath(t, b.base, SerialOver(b, i), r.facts) && EndsIn(t, r.facts, r.outcome)
  {
    RunPath(b.txns[i], b.base, SerialOver(b, i), []);
  }

  /* ---- Writes ---- */

  /** The write set of an outcome, for a transaction that succeeds or asks to skip the rest. */
  ghost predicate Wrote(o: Outcome, k: Key) {
    (o.Success? || o.SkipRest?) && k in o.output.writes
  }

  /** What one operation makes of the value below it. */
  ghost predicate Leaves(op: WriteOp, v: Value, v': Value) {
    match op
    case Put(x) => v' == x
    case Delta(d) => if v.Present? then v'.Present? && v'.n == v.n + d else v' == v
    case Change(d, max) =>
      if v.Present? && 0 <= v.n + d <= max then v'.Present? && v'.n == v.n + d else v'.Broken?
  }

  lemma OverlayLeaves(base: map<Key, Value>, over: map<Key, Value>, o: Outcome, k: Key)
    ensures var v, v' := ValueIn(base, over, k), ValueIn(base, Overlay(base, over, WritesOf(o)), k);
      if Wrote(o, k) then Leaves(o.output.writes[k], v, v') else v' == v
  {
  }

  /** The serial state: transaction `i` changes exactly the keys it writes, and each as its operation
      says; the first one starts from the base view. */
  lemma SerialValue(b: Block, i: nat, k: Key)
    requires i < |b.txns|
    ensures var o := SerialTrace(b, i).outcome;
      var v, v' := ValueIn(b.base, SerialOver(b, i), k), ValueIn(b.base, SerialOver(b, i + 1), k);
      if Wrote(o, k) then Leaves(o.output.writes[k], v, v') else v' == v
    ensures ValueIn(b.base, SerialOver(b, 0), k) == if k in b.base then b.base[k] else Absent
  {
    OverlayLeaves(b.base, SerialOver(b, i), SerialTrace(b, i).outcome, k);
  }

  /** A serial run is certain exactly if it is not a speculative abort and every delayed field change
      it makes is on a present value and stays within its bounds. */
  lemma CertainMeans(b: Block, i: nat)
    requires i < |b.txns|
    ensures var o := SerialTrace(b, i).outcome;
      Certain(b, i) <==> !o.SpeculativeAbort? && forall k :: Wrote(o, k) && o.output.writes[k].Change? ==>
        var v := ValueIn(b.base, SerialOver(b, i), k);
        v.Present? && 0 <= v.n + o.output.writes[k].amount <= o.output.writes[k].max
  {
    var o := SerialTrace(b, i).outcome;
    assert forall k :: Wrote(o, k) <==> k in WritesOf(o);
  }

  /** A receipt holds the fee and exactly the keys the transaction writes, each with the value its
      operation leaves. */
  lemma ReceiptExactly(b: Block, i: nat, k: Key)
    requires i < |b.txns| && (SerialTrace(b, i).outcome.Success? || SerialTrace(b, i).outcome.SkipRest?)
    ensures var o, r := SerialTrace(b, i).outcome, ReceiptOf(b, i);
      && r.fee == o.output.fee && (k in r.writes <==> k in o.output.writes)
      && (k in r.writes ==> Leaves(o.output.writes[k], ValueIn(b.base, SerialOver(b, i), k), r.writes[k]))
  {
    SerialValue(b, i, k);
  }

  /** In every reachable state the entries of an executed or committed transaction are exactly its
      write set, under its incarnation; a failed one has none. */
  lemma EntriesExactly(b: Block, acts: seq<Action>, s: State, i: nat, k: Key)
    requires Reaches(b, Init(b), acts, s) && Sized(b, s) && i < |b.txns|
    requires Settled(s.status[i]) || s.status[i].Rechecking?
    ensures s.records[i].Some?
    ensures var o := s.records[i].value.outcome;
      && (k in s.layers[i] <==> Wrote(o, k))
      && (k in s.layers[i] ==> s.layers[i][k] == Cell(s.status[i].inc, false, o.output.writes[k]))
  {
    Ownership(b, acts, s, i);
    InitInv(b);
    Steps(b, Init(b), acts, s);
    assert LocalAt(b, s, i);
  }

  ghost function DeltaSum(layers: seq<Layer>, j: nat, i: nat, k: Key): int
    requires j <= i <= |layers|
  {
    if i == j then 0
    else
      var top := layers[i - 1];
      DeltaSum(layers, j, i - 1, k) + if k in top && top[k].op.Delta? then top[k].op.amount else 0
  }

  /** A read through aggregator deltas finds the value written below them plus their sum. */
  lemma {:induction false} DeltasAddUp(base: map<Key, Value>, layers: seq<Layer>, j: nat, i: nat, k: Key, n: int)
    requires j < i <= |layers| && k in layers[j] && !layers[j][k].estimate && layers[j][k].op == Put(Present(n))
    requires forall l :: j < l < i && k in layers[l] ==> !layers[l][k].estimate && layers[l][k].op.Delta?
    ensures var f := ReadBelow(base, layers, i, k);
      f.Found? && f.val.Present? && f.val.n == n + DeltaSum(layers, j + 1, i, k)
  {
    if j < i - 1 { DeltasAddUp(base, layers, j, i - 1, k, n); }
  }

  /* ---- The block ---- */

  /** The block limit processor is told of each kept transaction's fee, the keys it read, in order,
      and the keys it wrote. */
  lemma {:induction false} ChargesExactly(b: Block, i: nat, j: nat)
    requires j < i <= |b.txns| && KeptBelow(b, i)
    ensures var t, c := SerialTrace(b, j), Charges(b, i)[j];
      && (t.outcome.Success? || t.outcome.SkipRest?) && c.fee == t.outcome.output.fee
      && |c.readKeys| == |t.facts| && (forall p :: 0 <= p < |t.facts| ==> c.readKeys[p] == t.facts[p].key)
      && c.written == t.outcome.output.writes.Keys
  {
    if j < i - 1 { ChargesExactly(b, i - 1, j); }
  }

  /** Transaction `j` succeeds, its changes apply, and no limit is reached after it. */
  ghost predicate Passed(b: Block, limit: seq<Charge> -> bool, j: nat) {
    && j < |b.txns| && KeptBelow(b, j + 1) && SerialTrace(b, j).outcome.Success? && Certain(b, j)
    && (j + 1 < |b.txns| ==> !limit(Charges(b, j + 1)))
  }

  /** The transactions that were gone past. */
  ghost function Behind(e: Ending): int {
    if e.Ended? then e.kept - 1 else e.idx
  }

  lemma {:induction false} PassedBehind(b: Block, limit: seq<Charge> -> bool, i: nat)
    requires i <= |b.txns| && KeptBelow(b, i) && forall j :: 0 <= j < i ==> Passed(b, limit, j)
    ensures forall j :: 0 <= j < Behind(EndingFrom(b, limit, i)) ==> Passed(b, limit, j)
    decreases |b.txns| - i
  {
    if i < |b.txns| && Contributes(b, i) && !Stops(b, limit, i) {
      assert KeptBelow(b, i + 1);
      assert Passed(b, limit, i);
      PassedBehind(b, limit, i + 1);
    }
  }

  lemma {:induction false} StoppedEarly(b: Block, limit: seq<Charge> -> bool, i: nat)
    requires i <= |b.txns| && KeptBelow(b, i)
    ensures var e := EndingFrom(b, limit, i);
      e.Ended? && e.kept < |b.txns| ==>
        e.kept > i && (SerialTrace(b, e.kept - 1).outcome.SkipRest? || limit(Charges(b, e.kept)))
    decreases |b.txns| - i
  {
    if i < |b.txns| && Contributes(b, i) {
      assert KeptBelow(b, i + 1);
      if Stops(b, limit, i) {
        assert EndingFrom(b, limit, i) == Ended(i + 1);
      } else {
        StoppedEarly(b, limit, i + 1);
        assert EndingFrom(b, limit, i) == EndingFrom(b, limit, i + 1);
      }
    }
  }

  /** Where a block ends: all transactions before the last kept one succeed under the limits; the block
      stops early exactly because of a request to skip the rest or a limit; it fails at a transaction
      that does not succeed, and panics at one whose changes do not apply. */
  lemma EndingExactly(b: Block, limit: seq<Charge> -> bool)
    ensures var e := EndingFrom(b, limit, 0);
      && (e.Ended? ==>
            && e.kept <= |b.txns| && (forall j :: 0 <= j < e.kept - 1 ==> Passed(b, limit, j))
            && (e.kept < |b.txns| ==>
                  e.kept > 0 && (SerialTrace(b, e.kept - 1).outcome.SkipRest? || limit(Charges(b, e.kept)))))
      && (e.Fatal? ==>
            && (forall j :: 0 <= j < e.idx ==> Passed(b, limit, j)) && e.idx < |b.txns|
            && var o := SerialTrace(b, e.idx).outcome; o.Abort? || o.SpeculativeAbort? || o.CodeInvariantError?)
      && (e.Panicked? ==>
            && (forall j :: 0 <= j < e.idx ==> Passed(b, limit, j)) && e.idx < |b.txns| && !Certain(b, e.idx)
            && var o := SerialTrace(b, e.idx).outcome; o.Success? || o.SkipRest?)
  {
    PassedBehind(b, limit, 0);
    StoppedEarly(b, limit, 0);
  }

  /** The output vector in full: one entry per transaction, a receipt exactly for the kept ones. */
  lemma VectorExactly(b: Block, limit: seq<Charge> -> bool, i: nat, k: Key)
    requires EndingFrom(b, limit, 0).Ended? && i < |b.txns|
    ensures var c := EndingFrom(b, limit, 0).kept;
      var outputs, o := Outputs(b, c), SerialTrace(b, i).outcome;
      && |outputs| == |b.txns| && (outputs[i].Some? <==> i < c)
      && (i < c ==>
            && (o.Success? || o.SkipRest?) && outputs[i].value.fee == o.output.fee
            && (k in outputs[i].value.writes <==> k in o.output.writes)
            && (k in o.output.writes ==>
                  Leaves(o.output.writes[k], ValueIn(b.base, SerialOver(b, i), k), outputs[i].value.writes[k])))
  {
    if i < EndingFrom(b, limit, 0).kept { ReceiptExactly(b, i, k); }
  }
}
