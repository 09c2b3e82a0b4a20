/** Processing the transactions of a block: concurrent decoding, the split into prioritized and other
    transactions, the two batches, and the scatter of their results to the block's slots. */
module SeiBlock {
  import opened Common

  datatype Msg = ExchangeRateVote | RegisterContract | UnregisterContract | UnsuspendContract | OtherMsg(id: int)

  /** A transaction that was not decoded (or, for an EVM message, not preprocessed) is `None`. */
  type Typed = Option<seq<Msg>>

  /** One transaction of a batch, with its position in the block and its estimated write set. */
  datatype Entry = Entry(tx: int, typed: Typed, absolute: nat, estimated: Option<int>)

  datatype Batched = Batched(results: seq<int>, ctx: int)

  type Decoder = int -> Typed
  type Estimator = (int, nat, Typed) -> Option<int>
  type Executor = (int, seq<Entry>) -> Batched

  ghost predicate LengthPreserving(exec: Executor) {
    forall ctx, entries :: |exec(ctx, entries).results| == |entries|
  }

  /* ---- Goroutines ---- */

  /** The order in which `n` goroutines finish: each of them once. */
  ghost predicate Finishing(order: seq<nat>, n: nat) {
    && (forall k :: 0 <= k < |order| ==> order[k] < n)
    && (forall i :: 0 <= i < n ==> i in order)
    && (forall k, l :: 0 <= k < l < |order| ==> order[k] != order[l])
  }

  function Decoded(decode: Decoder, txs: seq<int>): (typed: seq<Typed>)
    ensures |typed| == |txs|
  {
    seq(|txs|, i requires 0 <= i < |txs| => decode(txs[i]))
  }

  /** `DecodeTransactionsConcurrently`: slot `i` holds transaction `i` decoded, in whatever order the
      goroutines finish. */
  method DecodeConcurrently(decode: Decoder, txs: seq<int>, order: seq<nat>) returns (typed: array<Typed>)
    requires Finishing(order, |txs|)
    ensures typed.Length == |txs| && forall i :: 0 <= i < |txs| ==> typed[i] == decode(txs[i])
    ensures typed[..] == Decoded(decode, txs) && fresh(typed)
  {
    typed := new Typed[|txs|](_ => None);
    for k := 0 to |order|
      invariant forall l :: 0 <= l < k ==> typed[order[l]] == decode(txs[order[l]])
    {
      typed[order[k]] := decode(txs[order[k]]);
    }
    forall i | 0 <= i < |txs| ensures typed[i] == decode(txs[i]) {
      assert i in order;
    }
  }

  function Entries(ctx: int, estimate: Estimator, txs: seq<int>, typed: seq<Typed>, indices: seq<nat>): (es: seq<Entry>)
    requires |txs| == |typed| == |indices|
    ensures |es| == |txs|
  {
    seq(|txs|, i requires 0 <= i < |txs| => Entry(txs[i], typed[i], indices[i], estimate(ctx, i, typed[i])))
  }

  /** `ProcessTXsWithOCC`: the entries are filled by goroutines before the batch is executed. */
  method ProcessWithOcc(exec: Executor, estimate: Estimator, ctx: int, txs: seq<int>, typed: seq<Typed>,
      indices: seq<nat>, order: seq<nat>)
    returns (b: Batched)
    requires |txs| == |typed| == |indices| && Finishing(order, |txs|)
    ensures b == exec(ctx, Entries(ctx, estimate, txs, typed, indices))
  {
    var entries := new Entry[|txs|](_ => Entry(0, None, 0, None));
    for k := 0 to |order|
      invariant forall l :: 0 <= l < k ==> entries[order[l]] == Entries(ctx, estimate, txs, typed, indices)[order[l]]
    {
      var i := order[k];
      var entry := Entry(txs[i], typed[i], indices[i], None);
      var estimated := estimate(ctx, i, typed[i]);
      if estimated.Some? {
        entry := entry.(estimated := estimated);
      }
      entries[i] := entry;
    }
    forall i | 0 <= i < |txs| ensures entries[i] == Entries(ctx, estimate, txs, typed, indices)[i] {
      assert i in order;
    }
    assert entries[..] == Entries(ctx, estimate, txs, typed, indices);
    b := exec(ctx, entries[..]);
  }

  /* ---- The split ---- */

  /** Decoded, with messages, all of the four kinds. */
  predicate Prioritized(t: Typed) {
    t.Some? && |t.value| > 0 && forall k :: 0 <= k < |t.value| ==> !t.value[k].OtherMsg?
  }

  /** The same by kinds: an oracle vote or one of the three contract messages, at least one, no other. */
  ghost predicate OnlyFirstKinds(t: Typed) {
    t.Some? && t.value != [] && forall m :: m in t.value ==>
      m == ExchangeRateVote || m == RegisterContract || m == UnregisterContract || m == UnsuspendContract
  }

  lemma FirstKinds(t: Typed)
    ensures Prioritized(t) <==> OnlyFirstKinds(t)
  {
    if Prioritized(t) {
      forall m | m in t.value ensures !m.OtherMsg? {
        var k :| 0 <= k < |t.value| && t.value[k] == m;
      }
    }
    if OnlyFirstKinds(t) {
      forall k | 0 <= k < |t.value| ensures !t.value[k].OtherMsg? {
        assert t.value[k] in t.value;
      }
    }
  }

  /** The message loop. */
  method AllPrioritized(msgs: seq<Msg>) returns (prioritized: bool)
    ensures prioritized <==> OnlyFirstKinds(Some(msgs))
    ensures prioritized <==> Prioritized(Some(msgs))
  {
    FirstKinds(Some(msgs));
    prioritized := false;
    for k := 0 to |msgs|
      invariant prioritized <==> k > 0
      invariant forall l :: 0 <= l < k ==> !msgs[l].OtherMsg?
    {
      match msgs[k]
      case OtherMsg(_) =>
        return false;
      case _ =>
        prioritized := true;
    }
  }

  /** Among the first `n` positions, those of the wanted kind, in block order. */
  function Indices(typed: seq<Typed>, want: bool, n: nat): seq<nat>
    requires n <= |typed|
  {
    if n == 0 then []
    else Indices(typed, want, n - 1) + if Prioritized(typed[n - 1]) == want then [n - 1] else []
  }

  function Select<T>(s: seq<T>, indices: seq<nat>): (r: seq<T>)
    requires forall k :: 0 <= k < |indices| ==> indices[k] < |s|
    ensures |r| == |indices|
  {
    seq(|indices|, k requires 0 <= k < |indices| => s[indices[k]])
  }

  datatype Part = Part(txs: seq<int>, typed: seq<Typed>, indices: seq<nat>)

  ghost predicate IsPart(p: Part, txs: seq<int>, typed: seq<Typed>, want: bool, n: nat) {
    && n <= |txs| == |typed| && p.indices == Indices(typed, want, n)
    && (forall k :: 0 <= k < |p.indices| ==> p.indices[k] < n)
    && p.txs == Select(txs, p.indices) && p.typed == Select(typed, p.indices)
  }

  lemma PartGrows(p: Part, txs: seq<int>, typed: seq<Typed>, want: bool, n: nat)
    requires n < |txs| && IsPart(p, txs, typed, want, n)
    ensures Prioritized(typed[n]) != want ==> IsPart(p, txs, typed, want, n + 1)
    ensures Prioritized(typed[n]) == want ==>
      IsPart(Part(p.txs + [txs[n]], p.typed + [typed[n]], p.indices + [n]), txs, typed, want, n + 1)
  {
    var grown := p.indices + [n];
    assert Select(txs, grown) == Select(txs, p.indices) + [txs[n]];
    assert Select(typed, grown) == Select(typed, p.indices) + [typed[n]];
  }

  /** `PartitionPrioritizedTxs`. */
  method Partition(txs: seq<int>, typed: seq<Typed>) returns (prioritized: Part, other: Part)
    requires |txs| == |typed|
    ensures IsPart(prioritized, txs, typed, true, |txs|) && IsPart(other, txs, typed, false, |txs|)
  {
    prioritized, other := Part([], [], []), Part([], [], []);
    for n := 0 to |txs|
      invariant IsPart(prioritized, txs, typed, true, n) && IsPart(other, txs, typed, false, n)
    {
      PartGrows(prioritized, txs, typed, true, n);
      PartGrows(other, txs, typed, false, n);
      var first := false;
      if typed[n].Some? {
        first := AllPrioritized(typed[n].value);
      }
      if first {
        prioritized := Part(prioritized.txs + [txs[n]], prioritized.typed + [typed[n]], prioritized.indices + [n]);
      } else {
        other := Part(other.txs + [txs[n]], other.typed + [typed[n]], other.indices + [n]);
      }
    }
  }

  /** Where position `i` is found in its part: as many places down as its kind occurs before it. */
  lemma {:induction false} RankOf(typed: seq<Typed>, want: bool, n: nat, i: nat)
    requires i < n <= |typed| && Prioritized(typed[i]) == want
    ensures |Indices(typed, want, i)| < |Indices(typed, want, n)|
    ensures Indices(typed, want, n)[|Indices(typed, want, i)|] == i
  {
    if i < n - 1 { RankOf(typed, want, n - 1, i); }
  }

  /** The parts are increasing and of their kind. */
  lemma {:induction false} IndicesOrdered(typed: seq<Typed>, want: bool, n: nat)
    requires n <= |typed|
    ensures forall k :: 0 <= k < |Indices(typed, want, n)| ==>
      Indices(typed, want, n)[k] < n && Prioritized(typed[Indices(typed, want, n)[k]]) == want
    ensures forall k, l :: 0 <= k < l < |Indices(typed, want, n)| ==>
      Indices(typed, want, n)[k] < Indices(typed, want, n)[l]
  {
    if n > 0 { IndicesOrdered(typed, want, n - 1); }
  }

  /** The split is a stable partition: every position stands at exactly one place of exactly one part. */
  lemma StablePartition(typed: seq<Typed>, i: nat)
    requires i < |typed|
    ensures var kind := Prioritized(typed[i]);
      var own, rest := Indices(typed, kind, |typed|), Indices(typed, !kind, |typed|);
      i !in rest && exists k :: 0 <= k < |own| && own[k] == i && forall l :: 0 <= l < |own| && own[l] == i ==> l == k
  {
    var kind := Prioritized(typed[i]);
    RankOf(typed, kind, |typed|, i);
    IndicesOrdered(typed, kind, |typed|);
    IndicesOrdered(typed, !kind, |typed|);
    var own, k := Indices(typed, kind, |typed|), |Indices(typed, kind, i)|;
    assert own[k] == i;
  }

  /* ---- The block ---- */

  function BatchOf(ctx: int, estimate: Estimator, txs: seq<int>, typed: seq<Typed>, want: bool): seq<Entry>
    requires |txs| == |typed|
    requires forall k :: 0 <= k < |Indices(typed, want, |txs|)| ==> Indices(typed, want, |txs|)[k] < |txs|
  {
    var indices := Indices(typed, want, |txs|);
    Entries(ctx, estimate, Select(txs, indices), Select(typed, indices), indices)
  }

  /** A batch in full: it holds every transaction of its kind, in block order, and nothing else, each
      entry with its own position, decoded form and estimated write set. */
  ghost predicate IsBatch(
    batch: seq<Entry>, ctx: int, estimate: Estimator, txs: seq<int>, typed: seq<Typed>, want: bool)
    requires |txs| == |typed|
  {
    && (forall k :: 0 <= k < |batch| ==>
          var i := batch[k].absolute;
          && i < |txs| && (OnlyFirstKinds(typed[i]) <==> want) && batch[k].tx == txs[i] && batch[k].typed == typed[i]
          && batch[k].estimated == estimate(ctx, k, typed[i]))
    && (forall k, l :: 0 <= k < l < |batch| ==> batch[k].absolute < batch[l].absolute)
    && (forall i :: 0 <= i < |txs| && (OnlyFirstKinds(typed[i]) <==> want) ==> InBatch(batch, i))
  }

  ghost predicate InBatch(batch: seq<Entry>, i: nat) {
    exists k :: 0 <= k < |batch| && batch[k].absolute == i
  }

  lemma BatchExactly(ctx: int, estimate: Estimator, txs: seq<int>, typed: seq<Typed>, want: bool)
    requires |txs| == |typed|
    ensures forall k :: 0 <= k < |Indices(typed, want, |txs|)| ==> Indices(typed, want, |txs|)[k] < |txs|
    ensures IsBatch(BatchOf(ctx, estimate, txs, typed, want), ctx, estimate, txs, typed, want)
  {
    IndicesOrdered(typed, want, |txs|);
    var batch := BatchOf(ctx, estimate, txs, typed, want);
    forall i | 0 <= i < |txs| ensures Prioritized(typed[i]) <==> OnlyFirstKinds(typed[i]) {
      FirstKinds(typed[i]);
    }
    forall i | 0 <= i < |txs| && Prioritized(typed[i]) == want ensures InBatch(batch, i) {
      RankOf(typed, want, |txs|, i);
      assert batch[|Indices(typed, want, i)|].absolute == i;
    }
  }

  /** The results of the batch whose entry for position `i` is that transaction. */
  ghost predicate OwnResult(b: Batched, batch: seq<Entry>, txs: seq<int>, i: nat, result: int) {
    exists k :: 0 <= k < |batch| == |b.results| &&
      batch[k].absolute == i < |txs| && batch[k].tx == txs[i] && result == b.results[k]
  }

  /** Writing a batch's results to their slots leaves every other slot alone. */
  method Scatter(slots: array<Option<int>>, indices: seq<nat>, results: seq<int>)
    requires |results| == |indices| && forall k :: 0 <= k < |indices| ==> indices[k] < slots.Length
    requires forall k, l :: 0 <= k < l < |indices| ==> indices[k] < indices[l]
    modifies slots
    ensures forall k :: 0 <= k < |indices| ==> slots[indices[k]] == Some(results[k])
    ensures forall i :: 0 <= i < slots.Length && i !in indices ==> slots[i] == old(slots[i])
  {
    for k := 0 to |indices|
      invariant forall l :: 0 <= l < k ==> slots[indices[l]] == Some(results[l])
      invariant forall i :: 0 <= i < slots.Length && i !in indices ==> slots[i] == old(slots[i])
    {
      slots[indices[k]] := Some(results[k]);
    }
  }

  /** The transaction part of `ProcessBlock`: for every order in which the goroutines finish, slot `i`
      holds the result its batch gave for transaction `i`, and no slot is left empty. `mid` stands for
      the state changes between the two batches. */
  method ProcessBlock(decode: Decoder, estimate: Estimator, exec: Executor, mid: int -> int, ctx: int, txs: seq<int>,
                      decodeOrder: seq<nat>, firstOrder: seq<nat>, secondOrder: seq<nat>)
    returns (slots: array<Option<int>>, ctx': int)
    requires LengthPreserving(exec) && Finishing(decodeOrder, |txs|)
    requires Finishing(firstOrder, |Indices(Decoded(decode, txs), true, |txs|)|)
    requires Finishing(secondOrder, |Indices(Decoded(decode, txs), false, |txs|)|)
    ensures slots.Length == |txs|
    ensures forall k :: 0 <= k < |Indices(Decoded(decode, txs), true, |txs|)| ==>
      Indices(Decoded(decode, txs), true, |txs|)[k] < |txs|
    ensures forall k :: 0 <= k < |Indices(Decoded(decode, txs), false, |txs|)| ==>
      Indices(Decoded(decode, txs), false, |txs|)[k] < |txs|
    ensures
      var typed := Decoded(decode, txs);
      var first := exec(ctx, BatchOf(ctx, estimate, txs, typed, true));
      var second := exec(mid(first.ctx), BatchOf(mid(first.ctx), estimate, txs, typed, false));
      && ctx' == second.ctx
      && forall i :: 0 <= i < |txs| ==>
                         slots[i].Some? &&
                         var value := slots[i].value;
                         (if Prioritized(typed[i])
                          then OwnResult(first, BatchOf(ctx, estimate, txs, typed, true), txs, i, value)
                          else OwnResult(second, BatchOf(mid(first.ctx), estimate, txs, typed, false), txs, i, value))
  {
    slots := new Option<int>[|txs|](_ => None);
    var decoded := DecodeConcurrently(decode, txs, decodeOrder);
    var typed := decoded[..];
    var prioritized, other := Partition(txs, typed);
    IndicesOrdered(typed, true, |txs|);
    IndicesOrdered(typed, false, |txs|);
    var first :=
      ProcessWithOcc(exec, estimate, ctx, prioritized.txs, prioritized.typed, prioritized.indices, firstOrder);
    Scatter(slots, prioritized.indices, first.results);
    var between := mid(first.ctx);
    var second := ProcessWithOcc(exec, estimate, between, other.txs, other.typed, other.indices, secondOrder);
    Scatter(slots, other.indices, second.results);
    ctx' := second.ctx;
    forall i | 0 <= i < |txs|
      ensures slots[i].Some? &&
        if Prioritized(typed[i]) then OwnResult(first, BatchOf(ctx, estimate, txs, typed, true), txs, i, slots[i].value)
        else OwnResult(second, BatchOf(between, estimate, txs, typed, false), txs, i, slots[i].value)
    {
      RankOf(typed, Prioritized(typed[i]), |txs|, i);
    }
  }
}
