/** The sharded ballot contract: its global and shard scopes, function by function. A reverted call
    leaves the scope as it was. */
module BallotContract {
  import opened Common

  const HALF: nat := 0x8000_0000

  datatype Proposal = Proposal(name: string, total: nat)

  datatype BallotResult = BallotResult(topVoted: string, caseId: nat)

  datatype Global = Global(proposals: seq<Proposal>, currentCase: nat, lastResult: BallotResult, ratio: nat)

  function Pow2(n: nat): (r: nat)
    ensures r > 0
  {
    if n == 0 then 1 else 2 * Pow2(n - 1)
  }

  /** Logical shift right. */
  function Shr(x: nat, n: nat): nat {
    if n == 0 then x else Shr(x / 2, n - 1)
  }

  /* ---- Gathering ---- */

  /** `shardGather_gather` adds one shard's share with 32-bit checked arithmetic. */
  function Gather(ratio: nat, order: nat): Option<nat> {
    var r := ratio + Shr(HALF, order);
    if r < U32 then Some(r) else None
  }

  lemma {:induction false} PowSplit(a: nat, c: nat)
    ensures Pow2(a) * Pow2(c) == Pow2(a + c)
  {
    if a > 0 {
      PowSplit(a - 1, c);
      DoubleFirst(Pow2(a - 1), Pow2(c));
    }
  }

  lemma DoubleFirst(x: nat, y: nat)
    ensures (2 * x) * y == 2 * (x * y)
  {
  }

  lemma {:induction false} ShrPow(m: nat, n: nat)
    requires n <= m
    ensures Shr(Pow2(m), n) == Pow2(m - n)
  {
    if n > 0 {
      assert Pow2(m) / 2 == Pow2(m - 1);
      ShrPow(m - 1, n - 1);
    }
  }

  lemma HalfIsPow()
    ensures HALF == Pow2(31)
  {
    assert Pow2(8) == 0x100;
    PowSplit(8, 8);
    assert Pow2(7) == 0x80;
    PowSplit(16, 8);
    PowSplit(24, 7);
  }

  /** One shard's share: 2^order of them make exactly the whole. */
  function Share(order: nat): nat {
    Shr(HALF, order)
  }

  lemma ShareWhole(order: nat)
    requires order <= 31
    ensures Share(order) > 0 && Pow2(order) * Share(order) == HALF
  {
    HalfIsPow();
    ShrPow(31, order);
    PowSplit(order, 31 - order);
  }

  /** The ratio after `calls` gathers that follow a reset; `None` once a gather has reverted. */
  function GatherCalls(order: nat, calls: nat): Option<nat> {
    if calls == 0 then Some(0)
    else match GatherCalls(order, calls - 1) case None => None case Some(r) => Gather(r, order)
  }

  lemma {:induction false} GatherValue(order: nat, calls: nat)
    requires order <= 31
    ensures GatherCalls(order, calls) == if calls < 2 * Pow2(order) then Some(calls * Share(order)) else None
  {
    ShareWhole(order);
    if calls > 0 {
      GatherValue(order, calls - 1);
      CallRoom(calls, Pow2(order), Share(order));
    }
  }

  lemma CallRoom(calls: nat, n: nat, u: nat)
    requires calls > 0 && u > 0 && n * u == HALF
    ensures (calls - 1) * u + u == calls * u
    ensures calls < 2 * n ==> calls * u < U32
    ensures calls == 2 * n ==> calls * u == U32
  {
    assert (2 * n) * u == 2 * (n * u);
    if calls < 2 * n { MulLess(calls, 2 * n, u); }
  }

  lemma MulLess(a: nat, c: nat, u: nat)
    requires a < c && u > 0
    ensures a * u < c * u
  {
    assert (c - a) * u > 0;
  }

  /** The barrier: for every shard order up to 31, after a reset the gather reports completion on
      call 2^order and on no other call; no call up to that one overflows, and later calls keep
      working until the 32-bit ratio would wrap at call 2^(order+1), from which on all revert. */
  lemma GatherBarrier(order: nat, call: nat)
    requires order <= 31 && call > 0
    ensures GatherCalls(order, call).Some? <==> call < 2 * Pow2(order)
    ensures GatherCalls(order, call) == Some(HALF) <==> call == Pow2(order)
  {
    GatherValue(order, call);
    ShareWhole(order);
    var n, u := Pow2(order), Share(order);
    if call < n { MulLess(call, n, u); } else if n < call { MulLess(n, call, u); }
  }

  /* ---- Global scope ---- */

  function Named(names: seq<string>): (ps: seq<Proposal>)
    ensures |ps| == |names|
  {
    seq(|names|, i requires 0 <= i < |names| => Proposal(names[i], 0))
  }

  /** `_init` on a fresh contract, and the start of a finalization. */
  function InitCase(g: Global, names: seq<string>): Option<Global> {
    if g.currentCase + 1 < U32
    then Some(g.(proposals := g.proposals + Named(names), currentCase := g.currentCase + 1,
      lastResult := BallotResult("", 0)))
    else None
  }

  function StartFinalize(g: Global): Global {
    g.(ratio := 0)
  }

  /** Adding one shard's votes: the message does not decode if a weight has more than 64 bits, an
      index past the proposals fails, and so does a 64-bit overflow. */
  predicate Addable(ps: seq<Proposal>, votes: seq<nat>) {
    |votes| <= |ps| && forall i :: 0 <= i < |votes| ==> votes[i] < U64 && ps[i].total + votes[i] < U64
  }

  function AddVotes(ps: seq<Proposal>, votes: seq<nat>): (ps': seq<Proposal>)
    requires |votes| <= |ps|
    ensures |ps'| == |ps|
  {
    seq(|ps|, i requires 0 <= i < |ps| => if i < |votes| then Proposal(ps[i].name, ps[i].total + votes[i]) else ps[i])
  }

  /** The scan for the winner: the name kept so far and the weight to beat. */
  function Scan(ps: seq<Proposal>, n: nat, name: string): (string, nat)
    requires n <= |ps|
  {
    if n == 0 then (name, 0)
    else
      var (top, w) := Scan(ps, n - 1, name);
      if ps[n - 1].total > w then (ps[n - 1].name, ps[n - 1].total) else (top, w)
  }

  function Finalize(g: Global, order: nat, votes: seq<nat>): Option<Global> {
    if !Addable(g.proposals, votes) then None
    else
      var ps := AddVotes(g.proposals, votes);
      match Gather(g.ratio, order)
      case None => None
      case Some(r) =>
        var g' := g.(proposals := ps, ratio := r);
        var top := Scan(ps, |ps|, g.lastResult.topVoted).0;
        Some(if r == HALF then g'.(lastResult := BallotResult(top, g.currentCase)) else g')
  }

  /** The winner: the first proposal of maximal positive weight, or nobody if there are no votes. */
  ghost predicate Winner(ps: seq<Proposal>, top: string) {
    if forall i :: 0 <= i < |ps| ==> ps[i].total == 0 then top == ""
    else exists p :: 0 <= p < |ps| && FirstMax(ps, |ps|, p) && top == ps[p].name
  }

  /** Among the first `n` proposals, `p` is the first of maximal positive weight. */
  ghost predicate FirstMax(ps: seq<Proposal>, n: nat, p: nat)
    requires p < n <= |ps|
  {
    && ps[p].total > 0
    && (forall q :: 0 <= q < n ==> ps[q].total <= ps[p].total)
    && (forall q :: 0 <= q < p ==> ps[q].total < ps[p].total)
  }

  lemma {:induction false} ScanFinds(ps: seq<Proposal>, n: nat, name: string)
    requires n <= |ps|
    ensures var (top, w) := Scan(ps, n, name);
      if w == 0 then top == name && forall i :: 0 <= i < n ==> ps[i].total == 0
      else exists p :: 0 <= p < n && FirstMax(ps, n, p) && top == ps[p].name && w == ps[p].total
  {
    if n > 0 {
      ScanFinds(ps, n - 1, name);
      var (top, w) := Scan(ps, n - 1, name);
      if ps[n - 1].total > w {
        assert FirstMax(ps, n, n - 1);
      } else if w > 0 {
        var p :| 0 <= p < n - 1 && FirstMax(ps, n - 1, p) && top == ps[p].name && w == ps[p].total;
        assert FirstMax(ps, n, p);
      }
    }
  }

  lemma ScanWinner(ps: seq<Proposal>)
    ensures Winner(ps, Scan(ps, |ps|, "").0)
  {
    ScanFinds(ps, |ps|, "");
  }

  class GlobalScope {
    var proposals: seq<Proposal>
    var currentCase: nat
    var lastResult: BallotResult
    var shardGatherRatio: nat

    ghost function State(): Global
      reads this
    {
      Global(proposals, currentCase, lastResult, shardGatherRatio)
    }

    constructor ()
      ensures State() == Global([], 0, BallotResult("", 0), 0)
    {
      proposals, currentCase, lastResult, shardGatherRatio := [], 0, BallotResult("", 0), 0;
    }

    /** `_init(string[])`; on success the shards are told to grow their arrays. */
    method Init(names: seq<string>) returns (ok: bool)
      modifies this
      ensures ok <==> old(currentCase) + 1 < U32
      ensures ok ==>
        && currentCase == old(currentCase) + 1 && lastResult == BallotResult("", 0)
        && |proposals| == |old(proposals)| + |names| && old(proposals) <= proposals
        && forall p :: 0 <= p < |names| ==> proposals[|old(proposals)| + p] == Proposal(names[p], 0)
      ensures ok <==> InitCase(old(State()), names).Some?
      ensures State() == if ok then InitCase(old(State()), names).value else old(State())
    {
      var ps := proposals;
      for i := 0 to |names|
        invariant ps == proposals + Named(names[..i])
        invariant State() == old(State())
      {
        ps := ps + [Proposal(names[i], 0)];
      }
      assert names[..|names|] == names;
      if currentCase + 1 >= U32 {
        return false;
      }
      proposals, currentCase, lastResult := ps, currentCase + 1, BallotResult("", 0);
      return true;
    }

    /** `_startFinalize()`. */
    method StartFinalization()
      modifies this
      ensures State() == StartFinalize(old(State()))
    {
      shardGatherRatio := 0;
    }

    /** `_finalize(uint64[])`. */
    method FinalizeVotes(order: nat, shardVotes: seq<nat>) returns (ok: bool)
      modifies this
      ensures ok <==> Finalize(old(State()), order, shardVotes).Some?
      ensures State() == if ok then Finalize(old(State()), order, shardVotes).value else old(State())
    {
      if |shardVotes| > |proposals| {
        return false;
      }
      var ps := proposals;
      for i := 0 to |shardVotes|
        invariant State() == old(State())
        invariant |ps| == |proposals| && ps == AddVotes(proposals, shardVotes[..i])
        invariant Addable(proposals, shardVotes[..i])
      {
        if shardVotes[i] >= U64 || ps[i].total + shardVotes[i] >= U64 {
          return false;
        }
        ps := ps[i := Proposal(ps[i].name, ps[i].total + shardVotes[i])];
      }
      assert shardVotes[..|shardVotes|] == shardVotes;
      var ratio := shardGatherRatio + Shr(HALF, order);
      if ratio >= U32 {
        return false;
      }
      proposals, shardGatherRatio := ps, ratio;
      if ratio == HALF {
        var top, w := lastResult.topVoted, 0;
        for i := 0 to |ps|
          invariant State() == old(State()).(proposals := ps, ratio := ratio)
          invariant (top, w) == Scan(ps, i, lastResult.topVoted)
        {
          if ps[i].total > w {
            top, w := ps[i].name, ps[i].total;
          }
        }
        lastResult := BallotResult(top, currentCase);
      }
      return true;
    }
  }

  /* ---- Shard scope ---- */

  /** `_initShardVotedWeights()`: new proposals start at zero, old weights stay. */
  function Grown(weights: seq<nat>, n: nat): (r: seq<nat>)
    ensures |r| == if |weights| < n then n else |weights|
    ensures forall i :: 0 <= i < |r| ==> r[i] == if i < |weights| then weights[i] else 0
  {
    if |weights| < n then weights + seq(n - |weights|, _ => 0) else weights
  }

  /** `vote` reverts past the array and at 256 bits. */
  predicate CanVote(weights: seq<nat>, p: nat) {
    p < |weights| && weights[p] + 1 < U256
  }

  class ShardScope {
    var votedWeights: seq<nat>

    constructor ()
      ensures votedWeights == []
    {
      votedWeights := [];
    }

    method InitVotedWeights(n: nat)
      modifies this
      ensures votedWeights == Grown(old(votedWeights), n)
    {
      while |votedWeights| < n
        invariant |old(votedWeights)| <= |votedWeights|
        invariant |votedWeights| <= n || votedWeights == old(votedWeights)
        invariant forall i :: 0 <= i < |votedWeights| ==>
          votedWeights[i] == if i < |old(votedWeights)| then old(votedWeights)[i] else 0
        decreases n - |votedWeights|
      {
        votedWeights := votedWeights + [0];
      }
    }

    method Vote(p: nat) returns (ok: bool)
      modifies this
      ensures ok <==> CanVote(old(votedWeights), p)
      ensures votedWeights == if ok then old(votedWeights)[p := old(votedWeights)[p] + 1] else old(votedWeights)
    {
      ok := p < |votedWeights| && votedWeights[p] + 1 < U256;
      if ok {
        votedWeights := votedWeights[p := votedWeights[p] + 1];
      }
    }
  }
}
