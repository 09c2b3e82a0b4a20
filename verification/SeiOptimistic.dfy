/** Optimistic block processing: a proposal starts processing its block in the background, and
    finalization uses that result only if it is for the finalized block. */
module SeiOptimistic {
  import opened Common

  /** What processing a block gives: the state to commit and the response. */
  datatype Outcome = Outcome(state: int, response: int)

  /** How far the background goroutine has got. Under a planned upgrade none is started. */
  datatype Goroutine = Absent | Processing | Stored | Signalled

  /** `base` is the committed state the processing started from. `tokens` is the content of the
      completion channel, which holds at most one. */
  datatype Info =
    Info(hash: int, body: int, base: int, aborted: bool, result: Option<Outcome>, goroutine: Goroutine, tokens: nat)

  datatype AppState = AppState(committed: int, info: Option<Info>)

  /** A proposal carries its block and the block's hash, whether its total gas wanted is acceptable
      and whether an upgrade is planned at this height. */
  datatype Proposal = Proposal(hash: int, body: int, gasOk: bool, upgrade: bool)

  datatype Verdict = Accept | Reject

  /** Processing a block is a function of the committed state and the block. */
  type Process = (int, int) -> Outcome

  function Propose(s: AppState, p: Proposal): (Verdict, AppState) {
    if !p.gasOk then (Reject, s)
    else if s.info.None? then
      var goroutine := if p.upgrade then Absent else Processing;
      var info := Info(p.hash, p.body, s.committed, p.upgrade, None, goroutine, if p.upgrade then 1 else 0);
      (Accept, s.(info := Some(info)))
    else if s.info.value.hash != p.hash then (Accept, s.(info := Some(s.info.value.(aborted := true))))
    else (Accept, s)
  }

  /** The background goroutine stores its result, then signals; a send on a full channel blocks. */
  predicate CanStore(s: AppState) {
    s.info.Some? && s.info.value.goroutine.Processing?
  }

  function Store(process: Process, s: AppState): AppState
    requires CanStore(s)
  {
    var i := s.info.value;
    s.(info := Some(i.(result := Some(process(i.base, i.body)), goroutine := Stored)))
  }

  predicate CanSignal(s: AppState) {
    s.info.Some? && s.info.value.goroutine.Stored? && s.info.value.tokens < 1
  }

  function Signal(s: AppState): AppState
    requires CanSignal(s)
  {
    var i := s.info.value;
    s.(info := Some(i.(goroutine := Signalled, tokens := i.tokens + 1)))
  }

  /** Finalization waits for the completion token, if there is an info at all. */
  predicate CanFinalize(s: AppState) {
    s.info.Some? ==> s.info.value.tokens > 0
  }

  /** The background result is used if nothing aborted it and its hash is the finalized one. */
  predicate Usable(s: AppState, hash: int) {
    s.info.Some? && !s.info.value.aborted && s.info.value.hash == hash && s.info.value.result.Some?
  }

  function FinalOutcome(process: Process, s: AppState, hash: int, body: int): Outcome
    requires CanFinalize(s)
  {
    if Usable(s, hash) then s.info.value.result.value else process(s.committed, body)
  }

  function Finalize(process: Process, s: AppState, hash: int, body: int): AppState
    requires CanFinalize(s)
  {
    AppState(FinalOutcome(process, s, hash, body).state, None)
  }

  /** The token count and the goroutine's progress agree, and a usable result is the right one. */
  ghost predicate Inv(process: Process, s: AppState) {
    s.info.Some? ==>
      var i := s.info.value;
      && i.base == s.committed
      && i.tokens == (if i.goroutine.Absent? || i.goroutine.Signalled? then 1 else 0)
      && (i.goroutine.Absent? ==> i.aborted)
      && (i.goroutine.Stored? || i.goroutine.Signalled? ==> i.result == Some(process(i.base, i.body)))
  }

  class App {
    const process: Process
    var committed: int
    var info: Option<Info>

    ghost function State(): AppState
      reads this
    {
      AppState(committed, info)
    }

    constructor (process: Process, genesis: int)
      ensures this.process == process && State() == AppState(genesis, None) && Inv(process, State())
    {
      this.process, committed, info := process, genesis, None;
    }

    /** `ProcessProposalHandler`. */
    method ProcessProposal(p: Proposal) returns (v: Verdict)
      requires Inv(process, State())
      modifies this
      ensures v.Accept? <==> p.gasOk
      ensures committed == old(committed) && (v.Reject? ==> info == old(info))
      ensures v.Accept? && old(info).None? ==>
        && info.Some? && info.value.hash == p.hash && info.value.body == p.body && info.value.base == committed
        && info.value.result.None? && (info.value.aborted <==> p.upgrade)
        && (info.value.goroutine == if p.upgrade then Absent else Processing)
        && info.value.tokens == (if p.upgrade then 1 else 0)
      ensures v.Accept? && old(info).Some? ==>
        info == Some(old(info).value.(aborted := old(info).value.aborted || old(info).value.hash != p.hash))
      ensures Inv(process, State()) && (v, State()) == Propose(old(State()), p)
    {
      if !p.gasOk {
        return Reject;
      }
      if info.None? {
        var stored := Info(p.hash, p.body, committed, false, None, Processing, 0);
        if p.upgrade {
          stored := stored.(aborted := true, goroutine := Absent, tokens := 1);
        }
        info := Some(stored);
      } else if info.value.hash != p.hash {
        info := Some(info.value.(aborted := true));
      }
      return Accept;
    }

    /** `FinalizeBlocker`, once it may proceed. Unless the stored info has the same hash for another
        block, the answer is the one processing the finalized block on the committed state gives;
        the info is always cleared. */
    method FinalizeBlock(hash: int, body: int) returns (response: int)
      requires Inv(process, State()) && CanFinalize(State())
      modifies this
      ensures info == None
      ensures Outcome(committed, response) ==
        if old(info).Some? && !old(info).value.aborted && old(info).value.hash == hash
        then process(old(committed), old(info).value.body)
        else process(old(committed), body)
      ensures Outcome(committed, response) == FinalOutcome(process, old(State()), hash, body)
      ensures (old(info).Some? && old(info).value.hash == hash ==> old(info).value.body == body) ==>
        Outcome(committed, response) == process(old(committed), body)
    {
      var outcome;
      if info.Some? && !info.value.aborted && info.value.hash == hash {
        outcome := info.value.result.value;
      } else {
        outcome := process(committed, body);
      }
      info := None;
      committed := outcome.state;
      response := outcome.response;
    }
  }

  /** Whatever processing does, the answer is the one for the finalized block. */
  ghost predicate AlwaysRight(s: AppState, hash: int, body: int)
    requires CanFinalize(s)
  {
    forall process: Process :: Inv(process, s) ==> FinalOutcome(process, s, hash, body) == process(s.committed, body)
  }

  /** Exactly: the answer is right for every way of processing blocks if and only if the background
      result is not used or was computed for the finalized block itself, not just its hash. */
  lemma AnswerExactly(process: Process, s: AppState, hash: int, body: int)
    requires Inv(process, s) && CanFinalize(s)
    ensures AlwaysRight(s, hash, body) <==> (Usable(s, hash) ==> s.info.value.body == body)
  {
    if Usable(s, hash) && s.info.value.body != body {
      var used := s.info.value.result.value;
      var other: Process := (state, x) =>
        if x == body then Outcome(used.state, used.response + 1) else process(state, x);
      assert Inv(other, s) && FinalOutcome(other, s, hash, body) != other(s.committed, body);
    }
  }

  /* ---- Runs ---- */

  datatype Event = OnProposal(p: Proposal) | OnStore | OnSignal | OnFinalize(hash: int, body: int)

  /** The application and the answers it has given to finalized blocks. */
  datatype Node = Node(app: AppState, answers: seq<int>)

  ghost predicate Enabled(n: Node, e: Event) {
    match e
    case OnProposal(_) => true
    case OnStore => CanStore(n.app)
    case OnSignal => CanSignal(n.app)
    case OnFinalize(_, _) => CanFinalize(n.app)
  }

  ghost function Apply(process: Process, n: Node, e: Event): Node
    requires Enabled(n, e)
  {
    match e
    case OnProposal(p) => n.(app := Propose(n.app, p).1)
    case OnStore => n.(app := Store(process, n.app))
    case OnSignal => n.(app := Signal(n.app))
    case OnFinalize(h, x) =>
      Node(Finalize(process, n.app, h, x), n.answers + [FinalOutcome(process, n.app, h, x).response])
  }

  ghost predicate Reaches(process: Process, n: Node, es: seq<Event>, n': Node)
    decreases |es|
  {
    if es == [] then n' == n else Enabled(n, es[0]) && Reaches(process, Apply(process, n, es[0]), es[1..], n')
  }

  /** The finalized blocks of a run. */
  ghost function Finalized(es: seq<Event>): seq<int> {
    if es == [] then []
    else (if es[0].OnFinalize? then [es[0].body] else []) + Finalized(es[1..])
  }

  /** The reference node processes each finalized block on the spot and knows no proposals. */
  ghost function PlainState(process: Process, state: int, bodies: seq<int>): int
    decreases |bodies|
  {
    if bodies == [] then state else PlainState(process, process(state, bodies[0]).state, bodies[1..])
  }

  ghost function PlainAnswers(process: Process, state: int, bodies: seq<int>): seq<int>
    decreases |bodies|
  {
    if bodies == [] then []
    else [process(state, bodies[0]).response] + PlainAnswers(process, process(state, bodies[0]).state, bodies[1..])
  }

  /** The hash determines the block: every request names the block that `named` gives its hash. */
  ghost predicate Binding(named: int -> int, es: seq<Event>) {
    forall n :: 0 <= n < |es| ==>
      && (es[n].OnProposal? ==> es[n].p.body == named(es[n].p.hash))
      && (es[n].OnFinalize? ==> es[n].body == named(es[n].hash))
  }

  ghost predicate Good(process: Process, named: int -> int, s: AppState) {
    Inv(process, s) && (s.info.Some? ==> s.info.value.body == named(s.info.value.hash))
  }

  lemma Step(process: Process, named: int -> int, n: Node, e: Event)
    requires Good(process, named, n.app) && Enabled(n, e) && Binding(named, [e])
    ensures Good(process, named, Apply(process, n, e).app)
    ensures e.OnFinalize? ==>
      && Apply(process, n, e).app == AppState(process(n.app.committed, e.body).state, None)
      && Apply(process, n, e).answers == n.answers + [process(n.app.committed, e.body).response]
    ensures !e.OnFinalize? ==>
      Apply(process, n, e).app.committed == n.app.committed && Apply(process, n, e).answers == n.answers
  {
    assert [e][0] == e;
  }

  /** Optimistic processing is invisible: over any number of heights and any mix of accepted,
      rejected, repeated and conflicting proposals and background progress, the committed state and
      all answers are those of the reference node on the finalized blocks. */
  lemma {:induction false} Invisible(process: Process, named: int -> int, n: Node, es: seq<Event>, n': Node)
    requires Good(process, named, n.app) && Reaches(process, n, es, n') && Binding(named, es)
    ensures Good(process, named, n'.app)
    ensures n'.app.committed == PlainState(process, n.app.committed, Finalized(es))
    ensures n'.answers == n.answers + PlainAnswers(process, n.app.committed, Finalized(es))
    decreases |es|
  {
    if es != [] {
      var m := Apply(process, n, es[0]);
      Step(process, named, n, es[0]);
      Invisible(process, named, m, es[1..], n');
      if es[0].OnFinalize? {
        var bodies := Finalized(es);
        assert bodies[0] == es[0].body && bodies[1..] == Finalized(es[1..]);
      } else {
        assert Finalized(es) == Finalized(es[1..]);
      }
    }
  }

  lemma {:induction false} KeepsInv(process: Process, n: Node, es: seq<Event>, n': Node)
    requires Inv(process, n.app) && Reaches(process, n, es, n')
    ensures Inv(process, n'.app)
    decreases |es|
  {
    if es != [] { KeepsInv(process, Apply(process, n, es[0]), es[1..], n'); }
  }

  /* ---- What is stored ---- */

  /** The accepted proposals since the last finalization, after `ps` and the events. */
  ghost function AcceptedSince(ps: seq<Proposal>, es: seq<Event>): seq<Proposal>
    decreases |es|
  {
    if es == [] then ps else AcceptedSince(Noted(ps, es[0]), es[1..])
  }

  ghost function Noted(ps: seq<Proposal>, e: Event): seq<Proposal> {
    if e.OnFinalize? then [] else if e.OnProposal? && e.p.gasOk then ps + [e.p] else ps
  }

  /** One of the proposals is for another hash than the first. */
  ghost predicate Conflicting(ps: seq<Proposal>) {
    exists n :: 0 < n < |ps| && ps[n].hash != ps[0].hash
  }

  /** Nothing is stored before the first accepted proposal; then it is that proposal, aborted exactly if
      it was at an upgrade or a later one conflicts. */
  ghost predicate Told(s: AppState, ps: seq<Proposal>) {
    && (s.info.None? <==> ps == [])
    && (ps != [] ==>
          && s.info.value.hash == ps[0].hash && s.info.value.body == ps[0].body && s.info.value.base == s.committed
          && (s.info.value.aborted <==> ps[0].upgrade || Conflicting(ps)))
  }

  lemma ToldStep(process: Process, n: Node, e: Event, ps: seq<Proposal>)
    requires Inv(process, n.app) && Enabled(n, e) && Told(n.app, ps)
    ensures Told(Apply(process, n, e).app, Noted(ps, e))
    ensures Inv(process, Apply(process, n, e).app)
  {
    var ps' := Noted(ps, e);
    if e.OnProposal? && e.p.gasOk && ps != [] {
      assert ps' == ps + [e.p];
      if Conflicting(ps) {
        var m :| 0 < m < |ps| && ps[m].hash != ps[0].hash;
        assert ps'[m].hash != ps'[0].hash;
      }
      if e.p.hash != ps[0].hash { assert ps'[|ps|].hash != ps'[0].hash; }
    }
  }

  lemma {:induction false} ToldSteps(process: Process, n: Node, es: seq<Event>, n': Node, ps: seq<Proposal>)
    requires Inv(process, n.app) && Reaches(process, n, es, n') && Told(n.app, ps)
    ensures Told(n'.app, AcceptedSince(ps, es)) && Inv(process, n'.app)
    decreases |es|
  {
    if es != [] {
      ToldStep(process, n, es[0], ps);
      ToldSteps(process, Apply(process, n, es[0]), es[1..], n', Noted(ps, es[0]));
    }
  }

  /** Over every run: what is stored is the first accepted proposal since the last finalization, aborted
      exactly if it was at an upgrade or a later accepted one had another hash; and, with no assumption
      on hashes, finalization answers for that proposal's block exactly if it is not aborted and its
      hash is the finalized one, and for the finalized block otherwise. */
  lemma StoredExactly(process: Process, genesis: int, es: seq<Event>, n: Node, hash: int, body: int)
    requires Reaches(process, Node(AppState(genesis, None), []), es, n)
    ensures Told(n.app, AcceptedSince([], es))
    ensures CanFinalize(n.app) ==>
      var ps := AcceptedSince([], es);
      FinalOutcome(process, n.app, hash, body) ==
        if ps != [] && !ps[0].upgrade && !Conflicting(ps) && ps[0].hash == hash
        then process(n.app.committed, ps[0].body)
        else process(n.app.committed, body)
  {
    ToldSteps(process, Node(AppState(genesis, None), []), es, n, []);
  }

  /** Each stored info yields exactly one completion token, its sender never blocks, and a waiting
      finalization is always served: either the token is there or the goroutine can go on. */
  lemma OneToken(process: Process, genesis: int, es: seq<Event>, n: Node)
    requires Reaches(process, Node(AppState(genesis, None), []), es, n) && n.app.info.Some?
    ensures n.app.info.value.goroutine.Stored? ==> CanSignal(n.app)
    ensures CanFinalize(n.app) <==> n.app.info.value.tokens == 1
    ensures CanFinalize(n.app) <==> !CanStore(n.app) && !n.app.info.value.goroutine.Stored?
    ensures CanFinalize(n.app) || CanStore(n.app) || CanSignal(n.app)
  {
    KeepsInv(process, Node(AppState(genesis, None), []), es, n);
  }
}
