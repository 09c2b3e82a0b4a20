/** The multi-version cache: one layer of entries per transaction index, and reads through the
    layers below an index. */
module StmCache {
  import opened Common
  import opened StmTypes

  /** An entry: the incarnation that wrote it, whether it is only an estimate, and the write. */
  datatype Cell = Cell(inc: nat, estimate: bool, op: WriteOp)

  type Layer = map<Key, Cell>

  /** Where a read found its value: storage, one incarnation of one transaction, or a sum of deltas. */
  datatype Version = Storage | At(idx: nat, inc: nat) | Resolved

  /** A read meets an estimate (and must wait) or finds a value. */
  datatype Found = Blocked | Found(ver: Version, val: Value)

  /** A recorded read: the fact and the version it was taken from. */
  datatype Desc = Desc(fact: Fact, ver: Version)

  /** What the last finished incarnation read, how it ended, and whether one of its delayed field
      changes could not be recorded. */
  datatype Record = Record(captured: seq<Desc>, outcome: Outcome, failed: bool)

  function FactsOf(captured: seq<Desc>): (facts: seq<Fact>)
    ensures |facts| == |captured|
    ensures forall p :: 0 <= p < |captured| ==> facts[p] == captured[p].fact
  {
    seq(|captured|, p requires 0 <= p < |captured| => captured[p].fact)
  }

  /** The read of `k` by transaction `i`: the highest entry below `i`, deltas summed on the way. */
  function ReadBelow(base: map<Key, Value>, layers: seq<Layer>, i: nat, k: Key): (f: Found)
    requires i <= |layers|
    ensures f.Found? && f.ver.At? ==> f.ver.idx < i
  {
    if i == 0 then Found(Storage, Get(base, k))
    else if k !in layers[i - 1] then ReadBelow(base, layers, i - 1, k)
    else
      var c := layers[i - 1][k];
      if c.estimate then Blocked
      else if c.op.Put? then Found(At(i - 1, c.inc), c.op.value)
      else
        match ReadBelow(base, layers, i - 1, k)
        case Blocked => Blocked
        case Found(_, v) => Found(Resolved, ApplyOp(c.op, v))
  }

  /** The comparison made by validation. A full read of data is compared by version, or by value
      when deltas were summed; weaker reads and delayed fields are compared by observation. */
  predicate Matches(d: Desc, f: Found) {
    f.Found? &&
    if d.fact.key.Data? && d.fact.kind.Full? then
      f.ver == d.ver && (d.ver.Resolved? ==> f.val == d.fact.seen)
    else
      Observe(d.fact.kind, f.val) == d.fact.seen
  }

  function Capture(k: Key, kind: Kind, f: Found): Desc
    requires f.Found?
  {
    Desc(Fact(k, kind, Observe(kind, f.val)), f.ver)
  }

  /** How a run against one fixed cache ends: it stops, or it meets an estimate. */
  datatype RunEnd = Stopped(captured: seq<Desc>, outcome: Outcome) | Waits(key: Key)

  function RunAgainst(t: Txn, base: map<Key, Value>, layers: seq<Layer>, i: nat, captured: seq<Desc>): RunEnd
    requires i <= |layers|
    decreases t.gas - |captured|
  {
    match Next(t, FactsOf(captured))
    case Halt(o) => Stopped(captured, o)
    case Fetch(k, kind) =>
      var f := ReadBelow(base, layers, i, k);
      if f.Blocked? then Waits(k) else RunAgainst(t, base, layers, i, captured + [Capture(k, kind, f)])
  }

  /** Recording a change fails if the value found below does not admit it; with an estimate below it
      is left to the commit. */
  predicate Unrecordable(op: WriteOp, f: Found) {
    f.Found? && !Applies(op, f.val)
  }

  /** What an incarnation's layer must be once all of its writes are in and nothing stale is left. */
  function Published(inc: nat, writes: map<Key, WriteOp>): Layer {
    map k | k in writes :: Cell(inc, false, writes[k])
  }

  function PrevWrites(rec: Option<Record>): map<Key, WriteOp> {
    if rec.Some? then WritesOf(rec.value.outcome) else map[]
  }

  /** At `k`, a layer is unchanged or only an estimate was replaced. */
  predicate CalmAt(old_: Layer, new_: Layer, k: Key) {
    || (k in old_ && old_[k].estimate)
    || (k in old_ && k in new_ && old_[k] == new_[k])
    || (k !in old_ && k !in new_)
  }

  /** Replacing estimates never changes the answer of a read that found one. */
  lemma {:induction false} CalmRead(base: map<Key, Value>, layers: seq<Layer>, layers': seq<Layer>, i: nat, k: Key)
    requires i <= |layers| == |layers'|
    requires forall j :: 0 <= j < i ==> CalmAt(layers[j], layers'[j], k)
    ensures ReadBelow(base, layers, i, k).Found? ==> ReadBelow(base, layers', i, k) == ReadBelow(base, layers, i, k)
  {
    if i > 0 {
      assert CalmAt(layers[i - 1], layers'[i - 1], k);
      CalmRead(base, layers, layers', i - 1, k);
    }
  }

  /** A layer of estimates is replaced by one that stays inside the keys it had. */
  predicate Inside(before: Layer, after: Layer) {
    && (forall k :: k in before ==> before[k].estimate)
    && (forall k :: k in after && k.Data? ==> k in before)
  }

  /** Soundness of `updates_outside == false`: if an aborted transaction, whose entries are all
      estimates, is re-executed and writes no data key outside its previous keys, then every
      higher transaction's data read that passed validation before passes it afterwards. */
  lemma InsideKeepsValidations(base: map<Key, Value>, layers: seq<Layer>, j: nat, after: Layer, i: nat, d: Desc)
    requires j < i <= |layers| && Inside(layers[j], after)
    requires d.fact.key.Data? && Matches(d, ReadBelow(base, layers, i, d.fact.key))
    ensures Matches(d, ReadBelow(base, layers[j := after], i, d.fact.key))
  {
    CalmRead(base, layers, layers[j := after], i, d.fact.key);
  }

  /** And the flag is needed: a full write to one new data key fails the validation of every earlier
      full read of that key by every higher transaction with nothing in between. */
  lemma {:induction false} OutsideBreaksValidations(base: map<Key, Value>, layers: seq<Layer>, j: nat, after: Layer,
      i: nat, d: Desc)
    requires j < i <= |layers| && d.fact.key.Data? && d.fact.kind.Full?
    requires forall l :: j <= l < i ==> d.fact.key !in layers[l]
    requires d.fact.key in after && !after[d.fact.key].estimate && after[d.fact.key].op.Put?
    requires Matches(d, ReadBelow(base, layers, i, d.fact.key))
    ensures !Matches(d, ReadBelow(base, layers[j := after], i, d.fact.key))
  {
    if j < i - 1 { OutsideBreaksValidations(base, layers, j, after, i - 1, d); }
  }
}
