/** Transactions, their observable behaviour, and the serial meaning of a block.

    A transaction is deterministic code: given the values it has observed so far it either reads
    one more key or halts with an outcome. Its gas bounds the number of reads it can make. */
module StmTypes {

  /** Delayed fields (aggregators v2) are validated only when a transaction commits; every other
      key is data and is validated speculatively. */
  datatype Key = Data(id: nat) | Delayed(id: nat)

  /** A read through a change that does not apply finds a broken value. */
  datatype Value = Absent | Present(n: int) | Broken

  /** A full write, an aggregator delta that is resolved against the value below it, or a change of a
      delayed field, which applies only to a present value and within its bounds. */
  datatype WriteOp = Put(value: Value) | Delta(amount: int) | Change(amount: int, max: nat)

  /** How much of a value a read observes. */
  datatype Kind = Full | Exists | AtLeast(bound: int)

  datatype Output = Output(writes: map<Key, WriteOp>, fee: nat)

  datatype Outcome =
    | Success(output: Output)
    | SkipRest(output: Output)
    | Abort(code: int)
    | SpeculativeAbort
    | CodeInvariantError

  datatype Instr = Fetch(key: Key, kind: Kind) | Halt(outcome: Outcome)

  datatype Txn = Txn(step: seq<Value> -> Instr, gas: nat, exhausted: Outcome)

  datatype Block = Block(txns: seq<Txn>, base: map<Key, Value>)

  /** One observation: the key, how it was read and what was seen. */
  datatype Fact = Fact(key: Key, kind: Kind, seen: Value)

  /** A complete run: everything it observed, in order, and how it ended. */
  datatype Trace = Trace(facts: seq<Fact>, outcome: Outcome)

  function Get(m: map<Key, Value>, k: Key): Value {
    if k in m then m[k] else Absent
  }

  function Look(base: map<Key, Value>, over: map<Key, Value>, k: Key): Value {
    if k in over then over[k] else Get(base, k)
  }

  function Observe(kind: Kind, v: Value): Value {
    match kind
    case Full => v
    case Exists => if v.Present? then Present(1) else v
    case AtLeast(bound) => if v.Present? then (if v.n >= bound then Present(1) else Absent) else v
  }

  /** Only a change of a delayed field can fail to apply. */
  predicate Applies(op: WriteOp, v: Value) {
    op.Change? ==> v.Present? && 0 <= v.n + op.amount <= op.max
  }

  /** The value left by an operation on top of `v`. A delta on a missing value leaves it missing. */
  function ApplyOp(op: WriteOp, v: Value): Value {
    match op
    case Put(x) => x
    case Delta(d) => if v.Present? then Present(v.n + d) else v
    case Change(d, _) => if Applies(op, v) then Present(v.n + d) else Broken
  }

  /** What a transaction publishes: nothing unless it succeeded (possibly asking to skip the rest). */
  function WritesOf(o: Outcome): map<Key, WriteOp> {
    match o
    case Success(output) => output.writes
    case SkipRest(output) => output.writes
    case _ => map[]
  }

  predicate Kept(o: Outcome) {
    o.Success? || o.SkipRest?
  }

  function Seen(facts: seq<Fact>): (vs: seq<Value>)
    ensures |vs| == |facts|
    ensures forall p :: 0 <= p < |facts| ==> vs[p] == facts[p].seen
  {
    seq(|facts|, p requires 0 <= p < |facts| => facts[p].seen)
  }

  function Next(t: Txn, facts: seq<Fact>): (instr: Instr)
    ensures instr.Fetch? ==> |facts| < t.gas
  {
    if |facts| < t.gas then t.step(Seen(facts)) else Halt(t.exhausted)
  }

  /** The facts are ones the transaction's own code asks for, one after another. */
  ghost predicate Follows(t: Txn, facts: seq<Fact>) {
    forall p :: 0 <= p < |facts| ==> Asks(t, facts, p)
  }

  ghost predicate Asks(t: Txn, facts: seq<Fact>, p: nat)
    requires p < |facts|
  {
    Next(t, facts[..p]) == Fetch(facts[p].key, facts[p].kind)
  }

  lemma FollowsSnoc(t: Txn, facts: seq<Fact>, f: Fact)
    requires Follows(t, facts)
    requires Next(t, facts) == Fetch(f.key, f.kind)
    ensures Follows(t, facts + [f])
  {
    var more := facts + [f];
    forall p | 0 <= p < |more| ensures Asks(t, more, p) {
      assert more[..p] == if p < |facts| then facts[..p] else facts;
      assert p < |facts| ==> Asks(t, facts, p);
    }
  }

  /** Running the code against one fixed state, continuing from the facts already observed. */
  function Run(t: Txn, base: map<Key, Value>, over: map<Key, Value>, facts: seq<Fact>): Trace
    decreases t.gas - |facts|
  {
    match Next(t, facts)
    case Halt(o) => Trace(facts, o)
    case Fetch(k, kind) => Run(t, base, over, facts + [Fact(k, kind, Observe(kind, Look(base, over, k)))])
  }

  /** A fact is true of a state when reading it there gives the same observation. */
  predicate Holds(base: map<Key, Value>, over: map<Key, Value>, f: Fact) {
    Observe(f.kind, Look(base, over, f.key)) == f.seen
  }

  /** Any way of collecting facts that are all true of one state is the run on that state. */
  lemma {:induction false} Replay(t: Txn, base: map<Key, Value>, over: map<Key, Value>, facts: seq<Fact>, o: Outcome,
      p: nat)
    requires p <= |facts|
    requires Follows(t, facts) && Next(t, facts) == Halt(o)
    requires forall f :: f in facts ==> Holds(base, over, f)
    ensures Run(t, base, over, facts[..p]) == Trace(facts, o)
    decreases |facts| - p
  {
    if p == |facts| {
      assert facts[..p] == facts;
    } else {
      assert Asks(t, facts, p);
      assert facts[p] in facts;
      assert facts[..p] + [facts[p]] == facts[..p + 1];
      Replay(t, base, over, facts, o, p + 1);
    }
  }

  /** The state a write set leaves on top of `over`. */
  function Overlay(base: map<Key, Value>, over: map<Key, Value>, writes: map<Key, WriteOp>): map<Key, Value> {
    over + map k | k in writes :: ApplyOp(writes[k], Look(base, over, k))
  }

  /** Everything written by transactions `0..i` run one after another. */
  function SerialOver(b: Block, i: nat): map<Key, Value>
    requires i <= |b.txns|
    decreases i, 0
  {
    if i == 0 then map[]
    else Overlay(b.base, SerialOver(b, i - 1), WritesOf(SerialTrace(b, i - 1).outcome))
  }

  /** The run of transaction `i` after transactions `0..i`. */
  function SerialTrace(b: Block, i: nat): Trace
    requires i < |b.txns|
    decreases i, 1
  {
    Run(b.txns[i], b.base, SerialOver(b, i), [])
  }

  /** Every write applies to the value below it. */
  predicate AllApply(base: map<Key, Value>, over: map<Key, Value>, writes: map<Key, WriteOp>) {
    forall k :: k in writes ==> Applies(writes[k], Look(base, over, k))
  }

  /** The serial run of transaction `i` leaves nothing in doubt: it is not a speculative abort, and
      all its delayed field changes apply. */
  predicate Certain(b: Block, i: nat)
    requires i < |b.txns|
  {
    var o := SerialTrace(b, i).outcome;
    !o.SpeculativeAbort? && AllApply(b.base, SerialOver(b, i), WritesOf(o))
  }
}
