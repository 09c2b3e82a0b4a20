/** Allocation of genesis objects to accounts, and the choice of private objects for each generated
    transaction. */
module SuiAccounts {
  import opened Common
  import SuiStore

  /** A line of the account file: the account's index and the number of sends it is listed for. */
  datatype Listing = Listing(index: nat, count: nat)

  const ADMIN_ID: nat := 10000000000000000

  /* ---- Object ids ---- */

  function Bytes(x: nat, n: nat): (bs: seq<nat>)
    ensures |bs| == n
  {
    if n == 0 then [] else [x % 256] + Bytes(x / 256, n - 1)
  }

  function Pow256(n: nat): nat {
    if n == 0 then 1 else 256 * Pow256(n - 1)
  }

  /** `new_gas_object`: the id is 255, the counter in 8 little-endian bytes, then zeros. */
  function ObjectId(x: nat): (id: seq<nat>)
    ensures |id| == 32
  {
    [255] + Bytes(x, 8) + seq(23, _ => 0)
  }

  /** Reading bytes back, lowest first. */
  ghost function LittleEndian(bs: seq<nat>): nat {
    if bs == [] then 0 else bs[0] + 256 * LittleEndian(bs[1..])
  }

  lemma {:induction false} BytesRoundTrip(x: nat, n: nat)
    requires x < Pow256(n)
    ensures LittleEndian(Bytes(x, n)) == x && forall k :: 0 <= k < n ==> Bytes(x, n)[k] < 256
  {
    if n > 0 {
      BytesRoundTrip(x / 256, n - 1);
      assert Bytes(x, n)[1..] == Bytes(x / 256, n - 1);
    }
  }

  /** An object id in full: 255, eight bytes that read back as the counter, and zeros. */
  lemma ObjectIdExactly(x: nat)
    requires x < U64
    ensures var id := ObjectId(x);
      && id[0] == 255 && LittleEndian(id[1..9]) == x && (forall k :: 1 <= k < 9 ==> id[k] < 256)
      && (forall k :: 9 <= k < 32 ==> id[k] == 0)
  {
    assert Pow256(2) == 0x1_0000 && Pow256(4) == 0x1_0000_0000 && Pow256(6) == 0x1_0000_0000_0000 && Pow256(8) == U64;
    BytesRoundTrip(x, 8);
    assert ObjectId(x)[1..9] == Bytes(x, 8);
  }

  lemma {:induction false} BytesInjective(x: nat, y: nat, n: nat)
    requires x < Pow256(n) && y < Pow256(n) && Bytes(x, n) == Bytes(y, n)
    ensures x == y
  {
    if n > 0 {
      assert Bytes(x, n)[0] == Bytes(y, n)[0];
      assert Bytes(x, n)[1..] == Bytes(x / 256, n - 1) && Bytes(y, n)[1..] == Bytes(y / 256, n - 1);
      BytesInjective(x / 256, y / 256, n - 1);
      assert x == 256 * (x / 256) + x % 256 && y == 256 * (y / 256) + y % 256;
    }
  }

  lemma ObjectIdInjective(x: nat, y: nat)
    requires x < U64 && y < U64 && ObjectId(x) == ObjectId(y)
    ensures x == y
  {
    assert Bytes(x, 8) == ObjectId(x)[1..9] && Bytes(y, 8) == ObjectId(y)[1..9];
    assert Pow256(2) == 0x1_0000 && Pow256(4) == 0x1_0000_0000 && Pow256(6) == 0x1_0000_0000_0000 && Pow256(8) == U64;
    BytesInjective(x, y, 8);
  }

  /* ---- Allocation ---- */

  /** The first counter value given to account `r`. */
  function First(listings: seq<Listing>, r: nat): nat
    requires r <= |listings|
  {
    if r == 0 then 1 else First(listings, r - 1) + 2 * listings[r - 1].count
  }

  /** The counters behind account `r`'s gas objects: two per listed send. */
  function Objects(listings: seq<Listing>, r: nat): (xs: seq<nat>)
    requires r < |listings|
    ensures |xs| == 2 * listings[r].count
  {
    seq(2 * listings[r].count, i => First(listings, r) + i)
  }

  predicate InAllocation(listings: seq<Listing>, r: int, i: int) {
    0 <= r < |listings| && 0 <= i < 2 * listings[r].count
  }

  /** `batch_create_account_and_gas_by_index`. */
  method CreateAccounts(listings: seq<Listing>) returns (objects: seq<seq<nat>>, next: nat)
    ensures |objects| == |listings| && forall r :: 0 <= r < |listings| ==> objects[r] == Objects(listings, r)
    ensures next == First(listings, |listings|)
  {
    next, objects := 1, [];
    for r := 0 to |listings|
      invariant next == First(listings, r)
      invariant |objects| == r && forall q :: 0 <= q < r ==> objects[q] == Objects(listings, q)
    {
      var num := listings[r].count * 2;
      var mine := [];
      for i := 0 to num
        invariant mine == Objects(listings, r)[..i]
      {
        mine := mine + [next + i];
      }
      objects := objects + [mine];
      next := next + num;
    }
  }

  lemma {:induction false} FirstGrows(listings: seq<Listing>, r: nat, s: nat)
    requires r < s <= |listings|
    ensures First(listings, r) + 2 * listings[r].count <= First(listings, s)
  {
    if r < s - 1 { FirstGrows(listings, r, s - 1); }
  }

  /** Two positions in the allocation hold the same object only if they are the same position. */
  lemma ObjectsDistinct(listings: seq<Listing>, r: nat, i: nat, s: nat, j: nat)
    requires r < |listings| && i < |Objects(listings, r)| && s < |listings| && j < |Objects(listings, s)|
    requires Objects(listings, r)[i] == Objects(listings, s)[j]
    ensures r == s && i == j
  {
    if r < s { FirstGrows(listings, r, s); }
    if s < r { FirstGrows(listings, s, r); }
  }

  /** All genesis ids, the administrator's included, are distinct exactly when the counters end at or
      before the administrator's. */
  lemma GenesisDistinct(listings: seq<Listing>)
    requires First(listings, |listings|) < U64
    ensures First(listings, |listings|) <= ADMIN_ID <==>
      forall r, i :: InAllocation(listings, r, i) ==> ObjectId(Objects(listings, r)[i]) != ObjectId(ADMIN_ID)
    ensures forall r, i, s, j :: InAllocation(listings, r, i) && InAllocation(listings, s, j) ==>
      (ObjectId(Objects(listings, r)[i]) == ObjectId(Objects(listings, s)[j]) ==> r == s && i == j)
  {
    forall r, i | InAllocation(listings, r, i)
      ensures Objects(listings, r)[i] < First(listings, |listings|)
    {
      FirstGrows(listings, r, |listings|);
    }
    if First(listings, |listings|) <= ADMIN_ID {
      forall r, i | InAllocation(listings, r, i)
        ensures ObjectId(Objects(listings, r)[i]) != ObjectId(ADMIN_ID)
      {
        if ObjectId(Objects(listings, r)[i]) == ObjectId(ADMIN_ID) {
          ObjectIdInjective(Objects(listings, r)[i], ADMIN_ID);
        }
      }
    } else {
      var r, i := Locate(listings, |listings|, ADMIN_ID);
      assert ObjectId(Objects(listings, r)[i]) == ObjectId(ADMIN_ID);
    }
    forall r, i, s, j | InAllocation(listings, r, i) && InAllocation(listings, s, j)
      && ObjectId(Objects(listings, r)[i]) == ObjectId(Objects(listings, s)[j])
      ensures r == s && i == j
    {
      ObjectIdInjective(Objects(listings, r)[i], Objects(listings, s)[j]);
      ObjectsDistinct(listings, r, i, s, j);
    }
  }

  /** Every counter value up to the end belongs to some account. */
  lemma {:induction false} Locate(listings: seq<Listing>, n: nat, x: nat) returns (r: nat, i: nat)
    requires n <= |listings| && 1 <= x < First(listings, n)
    ensures r < n && i < 2 * listings[r].count && Objects(listings, r)[i] == x
  {
    if x >= First(listings, n - 1) {
      r, i := n - 1, x - First(listings, n - 1);
    } else {
      r, i := Locate(listings, n - 1, x);
    }
  }

  ghost function Counts(listings: seq<Listing>, r: nat): nat
    requires r <= |listings|
  {
    if r == 0 then 0 else Counts(listings, r - 1) + listings[r - 1].count
  }

  lemma {:induction false} FirstCounts(listings: seq<Listing>, r: nat)
    requires r <= |listings|
    ensures First(listings, r) == 1 + 2 * Counts(listings, r)
  {
    if r > 0 { FirstCounts(listings, r - 1); }
  }

  ghost predicate Handed(listings: seq<Listing>, x: nat) {
    exists r, i :: InAllocation(listings, r, i) && Objects(listings, r)[i] == x
  }

  /** The counters handed out are exactly 1 to twice the number of listed sends. */
  lemma HandedExactly(listings: seq<Listing>, x: nat)
    ensures Handed(listings, x) <==> 1 <= x <= 2 * Counts(listings, |listings|)
  {
    FirstCounts(listings, |listings|);
    if 1 <= x <= 2 * Counts(listings, |listings|) {
      var r, i := Locate(listings, |listings|, x);
      assert InAllocation(listings, r, i);
    } else if r, i :| InAllocation(listings, r, i) && Objects(listings, r)[i] == x {
      FirstCounts(listings, r);
      FirstGrows(listings, r, |listings|);
    }
  }

  /* ---- Generation ---- */

  /** How many of the first `n` sends come from account `f`. */
  function Sends(froms: seq<nat>, n: nat, f: nat): nat
    requires n <= |froms|
  {
    if n == 0 then 0 else Sends(froms, n - 1, f) + if froms[n - 1] == f then 1 else 0
  }

  /** The sends before `n` that come from account `f`. */
  ghost function Earlier(froms: seq<nat>, n: nat, f: nat): set<nat>
    requires n <= |froms|
  {
    set m: nat | m < n && froms[m] == f
  }

  lemma {:induction false} SendsEarlier(froms: seq<nat>, n: nat, f: nat)
    requires n <= |froms|
    ensures Sends(froms, n, f) == |Earlier(froms, n, f)|
  {
    if n > 0 {
      SendsEarlier(froms, n - 1, f);
      var before := Earlier(froms, n - 1, f);
      if froms[n - 1] == f {
        assert Earlier(froms, n, f) == before + {n - 1} && n - 1 !in before;
      } else {
        assert Earlier(froms, n, f) == before;
      }
    }
  }

  /** The positions, among the sender's objects, of the gas object and of the coin of send `n`. */
  datatype Choice = Choice(gas: nat, coin: nat)

  function ChoiceOf(listings: seq<Listing>, record: seq<nat>, froms: seq<nat>, n: nat): Choice
    requires n < |froms| == |record| && record[n] < |listings|
  {
    var k := Sends(froms, n, froms[n]);
    Choice(k, |Objects(listings, record[n])| / 2 + k)
  }

  /** `generate_erc20_tx_from_csv` and the object choice of `generate_tx`: one counter per sender.
      `record[n]` is the line the sender's index resolves to. */
  method Generate(listings: seq<Listing>, record: seq<nat>, froms: seq<nat>) returns (choices: seq<Choice>)
    requires |record| == |froms| && forall n :: 0 <= n < |froms| ==> record[n] < |listings|
    ensures |choices| == |froms| && forall n :: 0 <= n < |froms| ==> choices[n] == ChoiceOf(listings, record, froms, n)
    ensures forall n :: 0 <= n < |froms| ==> choices[n].coin == listings[record[n]].count + choices[n].gas
  {
    var objIndex: map<nat, nat> := map[];
    choices := [];
    for n := 0 to |froms|
      invariant |choices| == n && forall m :: 0 <= m < n ==> choices[m] == ChoiceOf(listings, record, froms, m)
      invariant forall f: nat :: Sends(froms, n, f) == if f in objIndex then objIndex[f] else 0
    {
      var k := if froms[n] in objIndex then objIndex[froms[n]] else 0;
      choices := choices + [Choice(k, 2 * listings[record[n]].count / 2 + k)];
      objIndex := objIndex[froms[n] := k + 1];
    }
  }

  /** Each send resolves to a line of its sender, always the same one. */
  ghost predicate Resolves(listings: seq<Listing>, record: seq<nat>, froms: seq<nat>) {
    && |record| == |froms|
    && (forall n :: 0 <= n < |froms| ==> record[n] < |listings| && listings[record[n]].index == froms[n])
    && (forall m, n :: 0 <= m < |froms| && 0 <= n < |froms| && froms[m] == froms[n] ==> record[m] == record[n])
  }

  /** Every sender's sends are covered by its listed count. */
  ghost predicate Listed(listings: seq<Listing>, record: seq<nat>, froms: seq<nat>)
    requires Resolves(listings, record, froms)
  {
    forall n :: 0 <= n < |froms| ==> Sends(froms, |froms|, froms[n]) <= listings[record[n]].count
  }

  lemma {:induction false} SendsGrow(froms: seq<nat>, m: nat, n: nat, f: nat)
    requires m <= n <= |froms|
    ensures Sends(froms, m, f) <= Sends(froms, n, f)
    ensures m < n && froms[m] == f ==> Sends(froms, m, f) < Sends(froms, n, f)
  {
    if m < n { SendsGrow(froms, m, n - 1, f); }
  }

  /** The last send of a sender has all its other sends before it. */
  lemma {:induction false} LastSend(froms: seq<nat>, n: nat, f: nat) returns (m: nat)
    requires n <= |froms| && Sends(froms, n, f) > 0
    ensures m < n && froms[m] == f && Sends(froms, m, f) == Sends(froms, n, f) - 1
  {
    if froms[n - 1] == f { m := n - 1; } else { m := LastSend(froms, n - 1, f); }
  }

  ghost predicate InBounds(listings: seq<Listing>, record: seq<nat>, froms: seq<nat>, n: nat)
    requires Resolves(listings, record, froms) && n < |froms|
  {
    var c := ChoiceOf(listings, record, froms, n);
    c.gas < |Objects(listings, record[n])| && c.coin < |Objects(listings, record[n])|
  }

  /** All indices are in bounds exactly when every sender is listed for its sends. */
  lemma BoundsExactly(listings: seq<Listing>, record: seq<nat>, froms: seq<nat>)
    requires Resolves(listings, record, froms)
    ensures Listed(listings, record, froms) <==> forall n :: 0 <= n < |froms| ==> InBounds(listings, record, froms, n)
  {
    if Listed(listings, record, froms) {
      forall n | 0 <= n < |froms| ensures InBounds(listings, record, froms, n) {
        SendsGrow(froms, n, |froms|, froms[n]);
      }
    } else {
      var n :| 0 <= n < |froms| && Sends(froms, |froms|, froms[n]) > listings[record[n]].count;
      var m := LastSend(froms, |froms|, froms[n]);
      assert record[m] == record[n];
      assert !InBounds(listings, record, froms, m);
    }
  }

  /** The counters behind the gas object and the coin of send `n`. */
  ghost function Gas(listings: seq<Listing>, record: seq<nat>, froms: seq<nat>, n: nat): nat
    requires Resolves(listings, record, froms) && n < |froms| && InBounds(listings, record, froms, n)
  {
    Objects(listings, record[n])[ChoiceOf(listings, record, froms, n).gas]
  }

  ghost function Coin(listings: seq<Listing>, record: seq<nat>, froms: seq<nat>, n: nat): nat
    requires Resolves(listings, record, froms) && n < |froms| && InBounds(listings, record, froms, n)
  {
    Objects(listings, record[n])[ChoiceOf(listings, record, froms, n).coin]
  }

  /** Which objects a send uses: the next of the first half of its sender's objects for gas, and the one
      as far into the second half as coin. */
  lemma ChoicesExactly(listings: seq<Listing>, record: seq<nat>, froms: seq<nat>, n: nat)
    requires Resolves(listings, record, froms) && n < |froms| && InBounds(listings, record, froms, n)
    ensures var r, k := record[n], |Earlier(froms, n, froms[n])|;
      && listings[r].index == froms[n] && k < listings[r].count
      && Gas(listings, record, froms, n) == 1 + 2 * Counts(listings, r) + k
      && Coin(listings, record, froms, n) == 1 + 2 * Counts(listings, r) + listings[r].count + k
  {
    SendsEarlier(froms, n, froms[n]);
    FirstCounts(listings, record[n]);
  }

  /** No owned object is used twice: the gas objects and coins of all generated transactions are
      pairwise different objects. */
  lemma NoObjectTwice(listings: seq<Listing>, record: seq<nat>, froms: seq<nat>, m: nat, n: nat)
    requires Resolves(listings, record, froms) && Listed(listings, record, froms) && m < |froms| && n < |froms|
    ensures InBounds(listings, record, froms, m) && InBounds(listings, record, froms, n)
    ensures Gas(listings, record, froms, m) != Coin(listings, record, froms, n)
    ensures m != n ==>
      && Gas(listings, record, froms, m) != Gas(listings, record, froms, n)
      && Coin(listings, record, froms, m) != Coin(listings, record, froms, n)
  {
    BoundsExactly(listings, record, froms);
    assert InBounds(listings, record, froms, m) && InBounds(listings, record, froms, n);
    var a, c := ChoiceOf(listings, record, froms, m), ChoiceOf(listings, record, froms, n);
    SendsGrow(froms, m, |froms|, froms[m]);
    SendsGrow(froms, n, |froms|, froms[n]);
    if m < n { SendsGrow(froms, m, n, froms[m]); } else if n < m { SendsGrow(froms, n, m, froms[n]); }
    if Gas(listings, record, froms, m) == Coin(listings, record, froms, n) {
      ObjectsDistinct(listings, record[m], a.gas, record[n], c.coin);
    }
    if Gas(listings, record, froms, m) == Gas(listings, record, froms, n) {
      ObjectsDistinct(listings, record[m], a.gas, record[n], c.gas);
    }
    if Coin(listings, record, froms, m) == Coin(listings, record, froms, n) {
      ObjectsDistinct(listings, record[m], a.coin, record[n], c.coin);
    }
  }

  /** Transaction `n` spends its own gas object and coin, and otherwise reads only packages. */
  ghost predicate Spends(t: SuiStore.Txn, gas: nat, coin: nat, packages: set<nat>) {
    t.mutables == {gas, coin} && forall p :: 0 <= p < |t.inputs| ==>
      t.inputs[p].id in t.mutables || t.inputs[p].id in packages
  }

  ghost predicate Creates(start: SuiStore.Objects, t: SuiStore.Txn, created: set<nat>) {
    SuiStore.Loadable(start, t.inputs) && SuiStore.Planned(start, t).ok
    && SuiStore.Planned(start, t).written.Keys <= t.mutables + created
  }

  /** None of the ids is one of the allocated objects. */
  ghost predicate Outside(listings: seq<Listing>, ids: set<nat>) {
    forall id :: id in ids ==> id >= First(listings, |listings|)
  }

  /** Created ids are new: outside the allocation, no packages, and not shared by two transactions. */
  ghost predicate NewIds(listings: seq<Listing>, packages: set<nat>, created: seq<set<nat>>) {
    && Outside(listings, packages)
    && (forall n :: 0 <= n < |created| ==> Outside(listings, created[n]) && created[n] !! packages)
    && (forall m, n :: 0 <= m < n < |created| ==> created[m] !! created[n])
  }

  ghost predicate Workload(listings: seq<Listing>, record: seq<nat>, froms: seq<nat>, start: SuiStore.Objects,
      txns: seq<SuiStore.Txn>, packages: set<nat>, created: seq<set<nat>>)
    requires Resolves(listings, record, froms)
  {
    && |txns| == |froms| == |created| && NewIds(listings, packages, created)
    && (forall n :: 0 <= n < |txns| ==> InBounds(listings, record, froms, n))
    && (forall n :: 0 <= n < |txns| ==>
      Spends(txns[n], Gas(listings, record, froms, n), Coin(listings, record, froms, n), packages))
    && (forall n :: 0 <= n < |txns| ==> Creates(start, txns[n], created[n]))
  }

  lemma Allocated(listings: seq<Listing>, r: nat, i: nat)
    requires r < |listings| && i < |Objects(listings, r)|
    ensures Objects(listings, r)[i] < First(listings, |listings|)
  {
    FirstGrows(listings, r, |listings|);
  }

  /** What two different transactions touch is disjoint. */
  lemma TouchedApart(listings: seq<Listing>, record: seq<nat>, froms: seq<nat>, start: SuiStore.Objects,
      txns: seq<SuiStore.Txn>, packages: set<nat>, created: seq<set<nat>>, m: nat, n: nat)
    requires Resolves(listings, record, froms) && Workload(listings, record, froms, start, txns, packages, created)
    requires Listed(listings, record, froms) && m < |txns| && n < |txns| && m != n
    ensures SuiStore.Touched(start, txns[m]) !! SuiStore.Touched(start, txns[n])
    ensures SuiStore.Touched(start, txns[m]) !! packages
  {
    var cm, cn := created[m], created[n];
    var bm, bn := ChoiceOf(listings, record, froms, m), ChoiceOf(listings, record, froms, n);
    NoObjectTwice(listings, record, froms, m, n);
    NoObjectTwice(listings, record, froms, n, m);
    Allocated(listings, record[m], bm.gas);
    Allocated(listings, record[m], bm.coin);
    Allocated(listings, record[n], bn.gas);
    Allocated(listings, record[n], bn.coin);
    assert cm !! cn;
    assert Outside(listings, cm) && Outside(listings, cn);
    DisjointUnions(txns[m].mutables, cm, txns[n].mutables, cn);
    assert SuiStore.Touched(start, txns[m]) <= txns[m].mutables + cm;
    assert SuiStore.Touched(start, txns[n]) <= txns[n].mutables + cn;
  }

  lemma DisjointUnions(a: set<nat>, b: set<nat>, c: set<nat>, d: set<nat>)
    requires a !! c && a !! d && b !! c && b !! d
    ensures a + b !! c + d
  {
  }

  /** Hence the generated workload meets what any-order execution asks for. */
  lemma WorkloadIndependent(listings: seq<Listing>, record: seq<nat>, froms: seq<nat>, start: SuiStore.Objects,
      txns: seq<SuiStore.Txn>, packages: set<nat>, created: seq<set<nat>>)
    requires Resolves(listings, record, froms) && Listed(listings, record, froms)
    requires Workload(listings, record, froms, start, txns, packages, created)
    ensures SuiStore.Independent(start, txns)
  {
    forall m, n | 0 <= m < |txns| && 0 <= n < |txns| && m != n
      ensures SuiStore.Touched(start, txns[m]) !! SuiStore.Touched(start, txns[n])
      ensures SuiStore.Apart(SuiStore.Touched(start, txns[m]), txns[n].inputs)
    {
      TouchedApart(listings, record, froms, start, txns, packages, created, m, n);
      assert txns[n].mutables <= SuiStore.Touched(start, txns[n]);
    }
  }
}
