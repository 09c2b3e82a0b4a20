/** The meaning of a whole block: which transactions are kept, what each of them writes, and where
    the block ends. */
module StmSequential {
  import opened Common
  import opened StmTypes

  /** What the block limit processor is told about a kept transaction. */
  datatype Charge = Charge(fee: nat, readKeys: seq<Key>, written: set<Key>)

  /** A final transaction output: aggregator deltas are replaced by the values they lead to. */
  datatype Receipt = Receipt(fee: nat, writes: map<Key, Value>)

  /** The two decisions to end the block early, as functions of the charges so far. */
  datatype Limits = Limits(parallel: seq<Charge> -> bool, sequential: seq<Charge> -> bool)

  /** A block ends after `kept` transactions, a transaction fails it, or applying a transaction's
      delayed field changes panics. */
  datatype Ending = Ended(kept: nat) | Fatal(idx: nat) | Panicked(idx: nat)

  function ChargeOf(t: Trace): Charge
    requires Kept(t.outcome)
  {
    Charge(t.outcome.output.fee, seq(|t.facts|, p requires 0 <= p < |t.facts| => t.facts[p].key),
      WritesOf(t.outcome).Keys)
  }

  /** Transaction `i` contributes to the block: it succeeds and its changes apply. */
  predicate Contributes(b: Block, i: nat)
    requires i < |b.txns|
  {
    Kept(SerialTrace(b, i).outcome) && Certain(b, i)
  }

  ghost predicate KeptBelow(b: Block, i: nat)
    requires i <= |b.txns|
  {
    forall j :: 0 <= j < i ==> Kept(SerialTrace(b, j).outcome) && Certain(b, j)
  }

  ghost function Charges(b: Block, i: nat): (cs: seq<Charge>)
    requires i <= |b.txns| && KeptBelow(b, i)
    ensures |cs| == i
  {
    if i == 0 then [] else Charges(b, i - 1) + [ChargeOf(SerialTrace(b, i - 1))]
  }

  /** The block ends after transaction `i`: it asks to skip the rest, or a limit is reached and it
      is not the last one anyway. */
  ghost predicate Stops(b: Block, limit: seq<Charge> -> bool, i: nat)
    requires i < |b.txns| && KeptBelow(b, i + 1)
  {
    SerialTrace(b, i).outcome.SkipRest? || (i + 1 < |b.txns| && limit(Charges(b, i + 1)))
  }

  ghost predicate Goes(b: Block, limit: seq<Charge> -> bool, i: nat) {
    i < |b.txns| && KeptBelow(b, i + 1) && !Stops(b, limit, i)
  }

  ghost function EndingFrom(b: Block, limit: seq<Charge> -> bool, i: nat): (e: Ending)
    requires i <= |b.txns| && KeptBelow(b, i)
    ensures e.Ended? ==> i <= e.kept <= |b.txns| && KeptBelow(b, e.kept)
    ensures e.Fatal? ==> i <= e.idx < |b.txns| && KeptBelow(b, e.idx) && !Kept(SerialTrace(b, e.idx).outcome)
    ensures e.Panicked? ==> i <= e.idx < |b.txns| && KeptBelow(b, e.idx) && !Certain(b, e.idx)
    ensures e.Panicked? ==> Kept(SerialTrace(b, e.idx).outcome)
    decreases |b.txns| - i
  {
    if i == |b.txns| then Ended(i)
    else if !Kept(SerialTrace(b, i).outcome) then Fatal(i)
    else if !Certain(b, i) then Panicked(i)
    else if Stops(b, limit, i) then Ended(i + 1)
    else EndingFrom(b, limit, i + 1)
  }

  function ReceiptOf(b: Block, i: nat): Receipt
    requires i < |b.txns| && Kept(SerialTrace(b, i).outcome)
  {
    var o := SerialTrace(b, i).outcome;
    Receipt(o.output.fee, map k | k in WritesOf(o) :: Look(b.base, SerialOver(b, i + 1), k))
  }

  /** The output vector: receipts of the kept transactions, skip outputs (`None`) after them. */
  ghost function Outputs(b: Block, kept: nat): (rs: seq<Option<Receipt>>)
    requires kept <= |b.txns| && KeptBelow(b, kept)
    ensures |rs| == |b.txns|
  {
    seq(|b.txns|, i requires 0 <= i < |b.txns| => if i < kept then Some(ReceiptOf(b, i)) else None)
  }

  /** Where the block ends: everything before is kept and does not stop, and the last kept
      transaction stops it or is the last one. */
  lemma {:induction false} EndsAt(b: Block, limit: seq<Charge> -> bool, i: nat, kept: nat)
    requires i < kept <= |b.txns| && KeptBelow(b, kept)
    requires forall j :: i <= j < kept - 1 ==> Goes(b, limit, j)
    requires kept == |b.txns| || !Goes(b, limit, kept - 1)
    ensures EndingFrom(b, limit, i) == Ended(kept)
    decreases kept - i
  {
    if i < kept - 1 {
      assert Goes(b, limit, i);
      EndsAt(b, limit, i + 1, kept);
    }
  }

  /** Limits that agree on every sequence of charges end a block at the same place. */
  lemma {:induction false} SameEnding(b: Block, limit: seq<Charge> -> bool, limit': seq<Charge> -> bool, i: nat)
    requires i <= |b.txns| && KeptBelow(b, i)
    requires forall cs :: limit(cs) == limit'(cs)
    ensures EndingFrom(b, limit, i) == EndingFrom(b, limit', i)
    decreases |b.txns| - i
  {
    if i < |b.txns| && Contributes(b, i) {
      assert KeptBelow(b, i + 1);
      SameEnding(b, limit, limit', i + 1);
    }
  }
}
