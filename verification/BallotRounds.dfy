/** The first case of a ballot, over every interleaving of votes, shard finalizations and global
    deliveries: one `init`, one `finalize`, messages delivered once and in any order. */
module BallotRounds {
  import opened Common
  import opened BallotContract

  datatype Stage = Idle | InitSent(names: seq<string>) | Open | FinalizeSent | Counting

  datatype Ballot = Ballot(shard: nat, proposal: nat)

  /** `grown` are the shards that `_initShardVotedWeights` has reached. While counting, `cut` holds
      what each shard sent when `_shardsFinalize` reached it, `done` the shards whose `_finalize` was
      consumed and `counted` those where it succeeded (`count` of them). `log` lists the votes
      executed before the cut of their shard; no step looks at it. */
  datatype World = World(
    order: nat,
    g: Global,
    shards: seq<seq<nat>>,
    stage: Stage,
    grown: set<nat>,
    cut: map<nat, seq<nat>>,
    done: set<nat>,
    counted: set<nat>,
    count: nat,
    log: seq<Ballot>)

  datatype Event =
    | Init(names: seq<string>)
    | DeliverInit
    | DeliverGrow(shard: nat)
    | Vote(shard: nat, proposal: nat)
    | CallFinalize
    | DeliverStart
    | DeliverCut(shard: nat)
    | DeliverVotes(shard: nat)

  ghost function Start(order: nat): World {
    World(order, Global([], 0, BallotResult("", 0), 0), seq(Pow2(order), _ => []), Idle, {}, map[], {}, {}, 0, [])
  }

  ghost predicate Enabled(w: World, e: Event) {
    match e
    case Init(names) => w.stage.Idle? && w.g.lastResult.caseId >= w.g.currentCase
    case DeliverInit => w.stage.InitSent? && InitCase(w.g, w.stage.names).Some?
    case DeliverGrow(h) => !w.stage.Idle? && !w.stage.InitSent? && h < |w.shards| && h !in w.grown
    case Vote(h, p) => h < |w.shards|
    case CallFinalize => w.stage.Open? && w.g.lastResult.caseId < w.g.currentCase
    case DeliverStart => w.stage.FinalizeSent?
    case DeliverCut(h) => w.stage.Counting? && h < |w.shards| && h !in w.cut
    case DeliverVotes(h) => w.stage.Counting? && h in w.cut && h !in w.done
  }

  ghost function DoVote(w: World, h: nat, p: nat): World
    requires h < |w.shards|
  {
    if !CanVote(w.shards[h], p) then w
    else
      var w' := w.(shards := w.shards[h := w.shards[h][p := w.shards[h][p] + 1]]);
      if h in w.cut then w' else w'.(log := w.log + [Ballot(h, p)])
  }

  ghost function DoVotes(w: World, h: nat): World
    requires h in w.cut
  {
    match Finalize(w.g, w.order, w.cut[h])
    case None => w.(done := w.done + {h})
    case Some(g) => w.(g := g, done := w.done + {h}, counted := w.counted + {h}, count := w.count + 1)
  }

  ghost function Apply(w: World, e: Event): World
    requires Enabled(w, e)
  {
    match e
    case Init(names) => w.(stage := InitSent(names))
    case DeliverInit => w.(g := InitCase(w.g, w.stage.names).value, stage := Open)
    case DeliverGrow(h) => w.(shards := w.shards[h := Grown(w.shards[h], |w.g.proposals|)], grown := w.grown + {h})
    case Vote(h, p) => DoVote(w, h, p)
    case CallFinalize => w.(stage := FinalizeSent)
    case DeliverStart => w.(g := StartFinalize(w.g), stage := Counting)
    case DeliverCut(h) => w.(cut := w.cut[h := w.shards[h]])
    case DeliverVotes(h) => DoVotes(w, h)
  }

  ghost predicate Reaches(w: World, es: seq<Event>, w': World)
    decreases |es|
  {
    if es == [] then w' == w else Enabled(w, es[0]) && Reaches(Apply(w, es[0]), es[1..], w')
  }

  /* ---- The reference: one array, one counter per proposal ---- */

  /** The single-array tally of a list of votes. */
  ghost function Tally(log: seq<Ballot>, p: nat): nat {
    if log == [] then 0 else Tally(log[..|log| - 1], p) + if log[|log| - 1].proposal == p then 1 else 0
  }

  ghost function Of(log: seq<Ballot>, h: nat, p: nat): nat {
    if log == [] then 0 else Of(log[..|log| - 1], h, p) + if log[|log| - 1] == Ballot(h, p) then 1 else 0
  }

  /** The votes for `p` on the shards below `n` that are not counted yet. */
  ghost function Missing(log: seq<Ballot>, counted: set<nat>, n: nat, p: nat): nat {
    if n == 0 then 0 else Missing(log, counted, n - 1, p) + if n - 1 in counted then 0 else Of(log, n - 1, p)
  }

  /** How many shards below `n` are not counted yet. */
  ghost function Waiting(counted: set<nat>, n: nat): nat {
    if n == 0 then 0 else Waiting(counted, n - 1) + if n - 1 in counted then 0 else 1
  }

  lemma Snoc(log: seq<Ballot>, v: Ballot, h: nat, p: nat)
    ensures Tally(log + [v], p) == Tally(log, p) + if v.proposal == p then 1 else 0
    ensures Of(log + [v], h, p) == Of(log, h, p) + if v == Ballot(h, p) then 1 else 0
  {
    assert (log + [v])[..|log|] == log;
  }

  lemma {:induction false} MissingVote(log: seq<Ballot>, v: Ballot, counted: set<nat>, n: nat, p: nat)
    ensures Missing(log + [v], counted, n, p) ==
      Missing(log, counted, n, p) + if v.proposal == p && v.shard < n && v.shard !in counted then 1 else 0
  {
    if n > 0 {
      MissingVote(log, v, counted, n - 1, p);
      Snoc(log, v, n - 1, p);
    }
  }

  lemma {:induction false} MissingCounted(log: seq<Ballot>, counted: set<nat>, h: nat, n: nat, p: nat)
    requires h !in counted
    ensures Missing(log, counted + {h}, n, p) + (if h < n then Of(log, h, p) else 0) == Missing(log, counted, n, p)
    ensures Waiting(counted + {h}, n) + (if h < n then 1 else 0) == Waiting(counted, n)
  {
    if n > 0 {
      MissingCounted(log, counted, h, n - 1, p);
    }
  }

  lemma {:induction false} MissingNone(log: seq<Ballot>, counted: set<nat>, n: nat, p: nat)
    ensures Waiting(counted, n) == 0 <==> forall h :: 0 <= h < n ==> h in counted
    ensures Waiting(counted, n) == 0 ==> Missing(log, counted, n, p) == 0
  {
    if n > 0 {
      MissingNone(log, counted, n - 1, p);
    }
  }

  /* ---- The invariant ---- */

  /** A shard's weights, up to its cut, are the votes it executed. */
  ghost predicate Faithful(weights: seq<nat>, log: seq<Ballot>, h: nat, proposals: nat) {
    |weights| <= proposals && forall p: nat :: Of(log, h, p) == if p < |weights| then weights[p] else 0
  }

  ghost function Sent(w: World, h: nat): seq<nat>
    requires h < |w.shards|
  {
    if h in w.cut then w.cut[h] else w.shards[h]
  }

  ghost predicate ShardsOk(w: World) {
    && |w.shards| == Pow2(w.order)
    && (forall h :: 0 <= h < |w.shards| ==> Faithful(Sent(w, h), w.log, h, |w.g.proposals|))
    && (forall h :: 0 <= h < |w.shards| ==> |w.shards[h]| <= |w.g.proposals|)
    && (forall h :: h in w.cut ==> h < |w.shards|)
    && w.counted <= w.done <= w.cut.Keys
  }

  /** Counted totals and votes still missing add up to the single-array tally. */
  ghost predicate TotalsOk(w: World) {
    forall p: nat ::
      Total(w.g.proposals, p) + Missing(w.log, w.counted, Pow2(w.order), p) == Tally(w.log, p)
  }

  ghost function Total(ps: seq<Proposal>, p: nat): nat {
    if p < |ps| then ps[p].total else 0
  }

  /** A message can only be lost if a tally has outgrown 64 bits. */
  ghost predicate LossOk(w: World) {
    && (forall i :: 0 <= i < |w.g.proposals| ==> w.g.proposals[i].total < U64)
    && (w.done != w.counted ==> exists p: nat :: Tally(w.log, p) >= U64)
  }

  ghost predicate StageOk(w: World) {
    && w.order <= 31
    && (w.stage.Idle? || w.stage.InitSent? ==> w.g == Global([], 0, BallotResult("", 0), 0))
    && (!w.stage.Counting? ==> w.cut == map[] && w.count == 0)
    && (w.stage.Open? || w.stage.FinalizeSent? || w.stage.Counting? ==> w.g.currentCase == 1)
    && w.count + Waiting(w.counted, Pow2(w.order)) == Pow2(w.order)
    && (w.stage.Counting? ==> w.g.ratio == w.count * Share(w.order))
    && (if w.count == Pow2(w.order) && w.stage.Counting?
      then w.g.lastResult.caseId == 1 && Winner(w.g.proposals, w.g.lastResult.topVoted)
        else w.g.lastResult == BallotResult("", 0))
  }

  ghost predicate Inv(w: World) {
    ShardsOk(w) && TotalsOk(w) && LossOk(w) && StageOk(w)
  }

  lemma {:induction false} NoneMissing(n: nat, p: nat)
    ensures Missing([], {}, n, p) == 0 && Waiting({}, n) == n
  {
    if n > 0 {
      NoneMissing(n - 1, p);
    }
  }

  lemma StartInv(order: nat)
    requires order <= 31
    ensures Inv(Start(order))
  {
    var w := Start(order);
    forall p: nat ensures Total(w.g.proposals, p) + Missing(w.log, w.counted, Pow2(w.order), p) == Tally(w.log, p) {
      NoneMissing(Pow2(order), p);
    }
    NoneMissing(Pow2(order), 0);
  }

  lemma InitStep(w: World)
    requires Inv(w) && Enabled(w, DeliverInit)
    ensures Inv(Apply(w, DeliverInit))
  {
    var w' := Apply(w, DeliverInit);
    forall h | 0 <= h < |w.shards| ensures Faithful(Sent(w', h), w'.log, h, |w'.g.proposals|) {
      assert Faithful(Sent(w, h), w.log, h, |w.g.proposals|);
    }
    assert forall p: nat :: Total(w'.g.proposals, p) == Total(w.g.proposals, p);
  }

  lemma GrowStep(w: World, h: nat)
    requires Inv(w) && Enabled(w, DeliverGrow(h))
    ensures Inv(Apply(w, DeliverGrow(h)))
  {
    var w' := Apply(w, DeliverGrow(h));
    forall j | 0 <= j < |w.shards| ensures Faithful(Sent(w', j), w'.log, j, |w'.g.proposals|) {
      assert Faithful(Sent(w, j), w.log, j, |w.g.proposals|);
    }
  }

  lemma FaithfulVote(weights: seq<nat>, log: seq<Ballot>, v: Ballot, h: nat, n: nat)
    requires Faithful(weights, log, h, n) && (v.shard == h ==> v.proposal < |weights|)
    ensures Faithful(if v.shard == h then weights[v.proposal := weights[v.proposal] + 1] else weights, log + [v], h, n)
  {
    var weights' := if v.shard == h then weights[v.proposal := weights[v.proposal] + 1] else weights;
    var log' := log + [v];
    forall q: nat ensures Of(log', h, q) == if q < |weights'| then weights'[q] else 0 {
      Snoc(log, v, h, q);
      assert Of(log, h, q) == if q < |weights| then weights[q] else 0;
    }
  }

  lemma VoteFaithful(w: World, h: nat, p: nat)
    requires ShardsOk(w) && h < |w.shards| && CanVote(w.shards[h], p)
    ensures ShardsOk(DoVote(w, h, p))
  {
    var w' := DoVote(w, h, p);
    forall j | 0 <= j < |w.shards| ensures Faithful(Sent(w', j), w'.log, j, |w'.g.proposals|) {
      assert Faithful(Sent(w, j), w.log, j, |w.g.proposals|);
      if h !in w.cut { FaithfulVote(Sent(w, j), w.log, Ballot(h, p), j, |w.g.proposals|); }
    }
  }

  lemma VoteTotals(w: World, h: nat, p: nat)
    requires Inv(w) && h < |w.shards| && CanVote(w.shards[h], p) && h !in w.cut
    ensures TotalsOk(DoVote(w, h, p)) && LossOk(DoVote(w, h, p))
  {
    var log' := w.log + [Ballot(h, p)];
    forall q: nat
      ensures Total(w.g.proposals, q) + Missing(log', w.counted, Pow2(w.order), q) == Tally(log', q)
      ensures Tally(log', q) >= Tally(w.log, q)
    {
      Snoc(w.log, Ballot(h, p), h, q);
      MissingVote(w.log, Ballot(h, p), w.counted, Pow2(w.order), q);
      assert Total(w.g.proposals, q) + Missing(w.log, w.counted, Pow2(w.order), q) == Tally(w.log, q);
    }
  }

  lemma VoteStep(w: World, h: nat, p: nat)
    requires Inv(w) && Enabled(w, Vote(h, p))
    ensures Inv(DoVote(w, h, p))
  {
    if CanVote(w.shards[h], p) {
      VoteFaithful(w, h, p);
      if h !in w.cut { VoteTotals(w, h, p); }
    }
  }

  lemma CutStep(w: World, h: nat)
    requires Inv(w) && Enabled(w, DeliverCut(h))
    ensures Inv(Apply(w, DeliverCut(h)))
  {
    var w' := Apply(w, DeliverCut(h));
    forall j | 0 <= j < |w.shards| ensures Faithful(Sent(w', j), w'.log, j, |w'.g.proposals|) {
      assert Faithful(Sent(w, j), w.log, j, |w.g.proposals|);
    }
  }

  /** What one shard sends is part of what is missing, so it fits unless the tally itself does not. */
  lemma AddableUnlessHuge(w: World, h: nat)
    requires Inv(w) && Enabled(w, DeliverVotes(h))
    ensures !Addable(w.g.proposals, w.cut[h]) ==> exists p: nat :: Tally(w.log, p) >= U64
  {
    var votes := w.cut[h];
    assert Faithful(Sent(w, h), w.log, h, |w.g.proposals|);
    if !Addable(w.g.proposals, votes) {
      var p :| 0 <= p < |votes| && (votes[p] >= U64 || w.g.proposals[p].total + votes[p] >= U64);
      MissingCounted(w.log, w.counted, h, Pow2(w.order), p);
      assert Total(w.g.proposals, p) + Missing(w.log, w.counted, Pow2(w.order), p) == Tally(w.log, p);
      assert Of(w.log, h, p) == votes[p];
      assert Tally(w.log, p) >= U64;
    }
  }

  lemma VotesStep(w: World, h: nat)
    requires Inv(w) && Enabled(w, DeliverVotes(h))
    ensures Inv(DoVotes(w, h))
  {
    AddableUnlessHuge(w, h);
    GatherRoom(w, h);
    if Addable(w.g.proposals, w.cut[h]) {
      CountedTotals(w, h);
      CountedStage(w, h);
    }
    var w' := DoVotes(w, h);
    forall j | 0 <= j < |w.shards| ensures Faithful(Sent(w', j), w'.log, j, |w'.g.proposals|) {
      assert Faithful(Sent(w, j), w.log, j, |w.g.proposals|);
    }
  }

  /** The ratio never overflows while a shard is still missing. */
  lemma GatherRoom(w: World, h: nat)
    requires Inv(w) && Enabled(w, DeliverVotes(h))
    ensures w.count < Pow2(w.order) && (w.count + 1) * Share(w.order) <= HALF
    ensures Gather(w.g.ratio, w.order) == Some((w.count + 1) * Share(w.order))
    ensures (w.count + 1) * Share(w.order) == HALF <==> w.count + 1 == Pow2(w.order)
  {
    MissingCounted(w.log, w.counted, h, Pow2(w.order), 0);
    ShareWhole(w.order);
    Room(w.count, Pow2(w.order), Share(w.order));
  }

  lemma Room(count: nat, n: nat, u: nat)
    requires count < n && u > 0 && n * u == HALF
    ensures (count + 1) * u == count * u + u && (count + 1) * u <= HALF
    ensures (count + 1) * u == HALF <==> count + 1 == n
  {
    if count + 1 < n { MulLess(count + 1, n, u); }
  }

  lemma CountedTotals(w: World, h: nat)
    requires Inv(w) && Enabled(w, DeliverVotes(h)) && Addable(w.g.proposals, w.cut[h])
    requires Gather(w.g.ratio, w.order).Some?
    ensures TotalsOk(DoVotes(w, h))
  {
    var w' := DoVotes(w, h);
    assert Faithful(Sent(w, h), w.log, h, |w.g.proposals|);
    forall p: nat
      ensures Total(w'.g.proposals, p) + Missing(w'.log, w'.counted, Pow2(w'.order), p) == Tally(w'.log, p)
    {
      MissingCounted(w.log, w.counted, h, Pow2(w.order), p);
      assert Total(w.g.proposals, p) + Missing(w.log, w.counted, Pow2(w.order), p) == Tally(w.log, p);
      assert Total(w'.g.proposals, p) == Total(w.g.proposals, p) + Of(w.log, h, p);
    }
  }

  lemma CountedStage(w: World, h: nat)
    requires Inv(w) && Enabled(w, DeliverVotes(h)) && Addable(w.g.proposals, w.cut[h])
    ensures StageOk(DoVotes(w, h))
  {
    GatherRoom(w, h);
    MissingCounted(w.log, w.counted, h, Pow2(w.order), 0);
    ScanWinner(AddVotes(w.g.proposals, w.cut[h]));
  }

  lemma Step(w: World, e: Event)
    requires Inv(w) && Enabled(w, e)
    ensures Inv(Apply(w, e))
  {
    match e
    case DeliverInit => InitStep(w);
    case DeliverGrow(h) => GrowStep(w, h);
    case Vote(h, p) => VoteStep(w, h, p);
    case DeliverCut(h) => CutStep(w, h);
    case DeliverVotes(h) => VotesStep(w, h);
    case _ =>
      var w' := Apply(w, e);
      assert forall h :: 0 <= h < |w.shards| ==> Sent(w', h) == Sent(w, h);
  }

  lemma {:induction false} Steps(w: World, es: seq<Event>, w': World)
    requires Inv(w) && Reaches(w, es, w')
    ensures Inv(w')
    decreases |es|
  {
    if es != [] {
      Step(w, es[0]);
      Steps(Apply(w, es[0]), es[1..], w');
    }
  }

  /* ---- The names given and the votes cast ---- */

  /** The names the run was opened with. */
  ghost function Given(es: seq<Event>): seq<string> {
    if es == [] then [] else if es[0].Init? then es[0].names else Given(es[1..])
  }

  ghost function NamesAt(w: World): (names: seq<string>)
    ensures !w.stage.InitSent? ==>
      |names| == |w.g.proposals| && forall p :: 0 <= p < |names| ==> names[p] == w.g.proposals[p].name
  {
    if w.stage.InitSent? then w.stage.names
    else seq(|w.g.proposals|, p requires 0 <= p < |w.g.proposals| => w.g.proposals[p].name)
  }

  lemma NamesStep(w: World, e: Event)
    requires Inv(w) && Enabled(w, e)
    ensures NamesAt(Apply(w, e)) == if e.Init? then e.names else NamesAt(w)
    ensures Apply(w, e).stage.Idle? <==> w.stage.Idle? && !e.Init?
  {
    var w' := Apply(w, e);
    match e
    case DeliverInit =>
      assert NamesAt(w') == NamesAt(w);
    case DeliverVotes(h) =>
      assert NamesAt(w') == NamesAt(w);
    case _ =>
  }

  lemma {:induction false} NamesSteps(w: World, es: seq<Event>, w': World)
    requires Inv(w) && Reaches(w, es, w')
    ensures NamesAt(w') == if w.stage.Idle? then Given(es) else NamesAt(w)
    decreases |es|
  {
    if es != [] {
      Step(w, es[0]);
      NamesStep(w, es[0]);
      NamesSteps(Apply(w, es[0]), es[1..], w');
    }
  }

  /** Once the case is open, the proposals have the names given, in their order, in every state. */
  lemma NamesKept(order: nat, es: seq<Event>, w: World, p: nat)
    requires order <= 31 && Reaches(Start(order), es, w) && !w.stage.InitSent?
    ensures |w.g.proposals| == |Given(es)|
    ensures p < |Given(es)| ==> w.g.proposals[p].name == Given(es)[p]
  {
    StartInv(order);
    NamesSteps(Start(order), es, w);
  }

  /** A shard has a weight for every proposal once it has been told of the case, and none before. */
  ghost predicate SizesOk(w: World) {
    && (w.stage.Idle? || w.stage.InitSent? ==> w.grown == {})
    && (forall h :: 0 <= h < |w.shards| ==> |w.shards[h]| == if h in w.grown then |w.g.proposals| else 0)
  }

  lemma SizesStep(w: World, e: Event)
    requires Inv(w) && SizesOk(w) && Enabled(w, e)
    ensures SizesOk(Apply(w, e))
  {
  }

  lemma {:induction false} SizesSteps(w: World, es: seq<Event>, w': World)
    requires Inv(w) && SizesOk(w) && Reaches(w, es, w')
    ensures SizesOk(w')
    decreases |es|
  {
    if es != [] {
      Step(w, es[0]);
      SizesStep(w, es[0]);
      SizesSteps(Apply(w, es[0]), es[1..], w');
    }
  }

  /** Which votes count: in every reachable state a vote enters the log exactly if its shard has been
      told of the case and is not cut yet, the proposal is one of those given, and its count there stays
      below 2^256. */
  lemma VotesExactly(order: nat, es: seq<Event>, w: World, h: nat, p: nat)
    requires order <= 31 && Reaches(Start(order), es, w) && h < |w.shards|
    ensures Apply(w, Vote(h, p)).log ==
      if h in w.grown && h !in w.cut && p < |Given(es)| && Of(w.log, h, p) + 1 < U256
      then w.log + [Ballot(h, p)]
      else w.log
  {
    StartInv(order);
    Steps(Start(order), es, w);
    NamesSteps(Start(order), es, w);
    SizesSteps(Start(order), es, w);
    assert Faithful(Sent(w, h), w.log, h, |w.g.proposals|);
  }

  /** Proposal `p` is the first with the most votes, and has some. */
  ghost predicate FirstMost(names: seq<string>, log: seq<Ballot>, p: nat) {
    && p < |names| && Tally(log, p) > 0
    && (forall q: nat :: q < |names| ==> Tally(log, q) <= Tally(log, p))
    && (forall q: nat :: q < p ==> Tally(log, q) < Tally(log, p))
  }

  ghost predicate TallyWinner(names: seq<string>, log: seq<Ballot>, top: string) {
    if forall p: nat :: p < |names| ==> Tally(log, p) == 0 then top == ""
    else exists p: nat :: FirstMost(names, log, p) && top == names[p]
  }

  lemma WinnerByTally(ps: seq<Proposal>, names: seq<string>, log: seq<Ballot>, top: string)
    requires |ps| == |names| && forall p :: 0 <= p < |ps| ==> ps[p].name == names[p] && ps[p].total == Tally(log, p)
    requires Winner(ps, top)
    ensures TallyWinner(names, log, top)
  {
    if p: nat :| p < |names| && Tally(log, p) != 0 {
      assert ps[p].total != 0;
      var q :| 0 <= q < |ps| && FirstMax(ps, |ps|, q) && top == ps[q].name;
      assert FirstMost(names, log, q);
    }
  }

  /* ---- Theorems ---- */

  /** Every shard's `_finalize` message has been consumed. */
  ghost predicate AllConsumed(w: World) {
    w.stage.Counting? && forall h :: 0 <= h < Pow2(w.order) ==> h in w.done
  }

  ghost predicate Published(w: World) {
    w.g.lastResult.caseId == w.g.currentCase
  }

  /** The sharded tally refines the single-array tally: whatever the interleaving, once all messages
      are consumed the result is published exactly when every tally fits in 64 bits, and then each
      total is the number of votes executed before the cut of their shard and the winner is the name
      given to the first proposal with the most votes, or nobody if there are none. */
  lemma ShardedTally(order: nat, es: seq<Event>, w: World)
    requires order <= 31 && Reaches(Start(order), es, w) && AllConsumed(w)
    ensures Published(w) <==> forall p: nat :: Tally(w.log, p) < U64
    ensures Published(w) ==>
      && (forall p :: 0 <= p < |w.g.proposals| ==> w.g.proposals[p].total == Tally(w.log, p))
      && |w.g.proposals| == |Given(es)| && TallyWinner(Given(es), w.log, w.g.lastResult.topVoted)
  {
    StartInv(order);
    Steps(Start(order), es, w);
    NamesSteps(Start(order), es, w);
    forall p: nat
      ensures Waiting(w.counted, Pow2(w.order)) == 0 ==> Total(w.g.proposals, p) == Tally(w.log, p)
      ensures Waiting(w.counted, Pow2(w.order)) == 0 <==> forall h :: 0 <= h < Pow2(w.order) ==> h in w.counted
    {
      MissingNone(w.log, w.counted, Pow2(w.order), p);
      assert Total(w.g.proposals, p) + Missing(w.log, w.counted, Pow2(w.order), p) == Tally(w.log, p);
    }
    if Published(w) {
      forall p: nat ensures Tally(w.log, p) < U64 && Total(w.g.proposals, p) == Tally(w.log, p) {
        assert Total(w.g.proposals, p) == Tally(w.log, p);
      }
      forall p | 0 <= p < |w.g.proposals| ensures w.g.proposals[p].total == Tally(w.log, p) {
        assert Total(w.g.proposals, p) == Tally(w.log, p);
      }
      WinnerByTally(w.g.proposals, Given(es), w.log, w.g.lastResult.topVoted);
    } else {
      MissingNone(w.log, w.counted, Pow2(w.order), 0);
      var h :| 0 <= h < Pow2(w.order) && h !in w.counted;
      assert h in w.done;
      assert w.done != w.counted;
      var p: nat :| Tally(w.log, p) >= U64;
      assert !(Tally(w.log, p) < U64);
    }
  }

  /** The result is never published while a shard is still out, and no delivered vote array is
      longer than the proposals. */
  lemma NotBefore(order: nat, es: seq<Event>, w: World, h: nat)
    requires order <= 31 && Reaches(Start(order), es, w) && w.stage.Counting? && h < Pow2(w.order)
    ensures h !in w.done ==> !Published(w)
    ensures h in w.cut ==> |w.cut[h]| <= |w.g.proposals|
  {
    StartInv(order);
    Steps(Start(order), es, w);
    MissingNone(w.log, w.counted, Pow2(w.order), 0);
    assert Faithful(Sent(w, h), w.log, h, |w.g.proposals|);
  }
}
