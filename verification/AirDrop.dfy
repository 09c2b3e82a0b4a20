/** The batched transfer contract: one call pays many recipients through relayed deposits. */
module AirDrop {
  import opened Common
  import opened Ledger

  datatype Payment = Payment(to: nat, amount: nat)

  function TotalOf(ps: seq<Payment>): nat {
    if ps == [] then 0 else TotalOf(ps[..|ps| - 1]) + ps[|ps| - 1].amount
  }

  /** The deposits a call issues: one per positive payment, in order. */
  function DepositsOf(ps: seq<Payment>): seq<Deposit> {
    if ps == [] then []
    else
      var p := ps[|ps| - 1];
      DepositsOf(ps[..|ps| - 1]) + if p.amount > 0 then [Deposit(p.to, p.amount)] else []
  }

  function PaidTo(ps: seq<Payment>, a: nat): nat {
    if ps == [] then 0 else PaidTo(ps[..|ps| - 1], a) + if ps[|ps| - 1].to == a then ps[|ps| - 1].amount else 0
  }

  /** The deposits carry exactly the payments. */
  lemma {:induction false} DepositsCarry(ps: seq<Payment>, a: nat)
    ensures InFlight(DepositsOf(ps)) == TotalOf(ps)
    ensures InFlightTo(DepositsOf(ps), a) == PaidTo(ps, a)
  {
    if ps != [] {
      var rest, p := ps[..|ps| - 1], ps[|ps| - 1];
      DepositsCarry(rest, a);
      var last := if p.amount > 0 then [Deposit(p.to, p.amount)] else [];
      InFlightJoin(DepositsOf(rest), last, a);
      assert p.amount > 0 ==> last[1..] == [];
    }
  }

  /** Every positive payment is issued as it is, and nothing else. */
  lemma {:induction false} DepositsExactly(ps: seq<Payment>, d: Deposit)
    ensures d in DepositsOf(ps) <==> d.amount > 0 && Payment(d.to, d.amount) in ps
  {
    if ps != [] {
      var rest, p := ps[..|ps| - 1], ps[|ps| - 1];
      assert ps == rest + [p];
      DepositsExactly(rest, d);
    }
  }

  datatype CallResult = Reverted | Refused | Accepted

  /** A call reverts if its total overflows 256 bits, is refused if the sender cannot pay all of it,
      and otherwise pays all of it. */
  function Judge(balance: map<nat, nat>, scope: nat, ps: seq<Payment>): CallResult {
    if TotalOf(ps) >= U256 then Reverted else if TotalOf(ps) <= Bal(balance, scope) then Accepted else Refused
  }

  lemma {:induction false} TotalPrefix(ps: seq<Payment>, n: nat)
    requires n <= |ps|
    ensures TotalOf(ps[..n]) <= TotalOf(ps)
    decreases |ps|
  {
    if n == |ps| {
      assert ps[..n] == ps;
    } else {
      assert ps[..|ps| - 1][..n] == ps[..n];
      TotalPrefix(ps[..|ps| - 1], n);
    }
  }

  class Contract {
    var balance: map<nat, nat>

    constructor (initial: map<nat, nat>)
      ensures balance == initial
    {
      balance := initial;
    }

    /** `transfer_n`. All or nothing: unless it is accepted nothing changes and nothing is issued. */
    method TransferN(scope: nat, recipients: seq<Payment>) returns (r: CallResult, issued: seq<Deposit>)
      modifies this
      ensures r.Reverted? <==> TotalOf(recipients) >= U256
      ensures r.Accepted? <==> TotalOf(recipients) < U256 && TotalOf(recipients) <= Bal(old(balance), scope)
      ensures r == Judge(old(balance), scope, recipients)
      ensures r.Accepted? ==>
        && balance == old(balance)[scope := Bal(old(balance), scope) - TotalOf(recipients)]
        && issued == DepositsOf(recipients)
      ensures !r.Accepted? ==> balance == old(balance) && issued == []
    {
      var total := 0;
      for i := 0 to |recipients|
        invariant total == TotalOf(recipients[..i]) < U256
      {
        assert recipients[..i + 1][..i] == recipients[..i];
        total := total + recipients[i].amount;
        if total >= U256 {
          TotalPrefix(recipients, i + 1);
          return Reverted, [];
        }
      }
      assert recipients[..|recipients|] == recipients;
      if total > Bal(balance, scope) {
        return Refused, [];
      }
      balance := balance[scope := Bal(balance, scope) - total];
      issued := [];
      for i := 0 to |recipients|
        invariant balance == old(balance)[scope := Bal(old(balance), scope) - total]
        invariant issued == DepositsOf(recipients[..i])
      {
        assert recipients[..i + 1][..i] == recipients[..i];
        if recipients[i].amount > 0 {
          issued := issued + [Deposit(recipients[i].to, recipients[i].amount)];
        }
      }
      r := Accepted;
    }

    /** The relayed `_deposit`. */
    method ReceiveDeposit(d: Deposit) returns (ok: bool)
      modifies this
      ensures ok <==> Credit(old(balance), d).Some?
      ensures balance == if ok then Credit(old(balance), d).value else old(balance)
    {
      ok := Bal(balance, d.to) + d.amount < U256;
      if ok {
        balance := balance[d.to := Bal(balance, d.to) + d.amount];
      }
    }
  }

  /* ---- Runs ---- */

  datatype Call = Call(scope: nat, payments: seq<Payment>)

  /** `log` lists the accepted calls; `lost` counts deposits whose delivery reverted. */
  datatype World = World(balance: map<nat, nat>, pending: seq<Deposit>, log: seq<Call>, lost: nat)

  datatype Event = Issue(call: Call) | Deliver(i: nat)

  ghost predicate Enabled(w: World, e: Event) {
    e.Deliver? ==> e.i < |w.pending|
  }

  ghost function Apply(w: World, e: Event): World
    requires Enabled(w, e)
  {
    match e
    case Issue(c) =>
      if Judge(w.balance, c.scope, c.payments).Accepted? then
        w.(balance := w.balance[c.scope := Bal(w.balance, c.scope) - TotalOf(c.payments)],
           pending := w.pending + DepositsOf(c.payments), log := w.log + [c])
      else w
    case Deliver(i) =>
      match Credit(w.balance, w.pending[i])
      case Some(m) => w.(balance := m, pending := Without(w.pending, i))
      case None => w.(pending := Without(w.pending, i), lost := w.lost + 1)
  }

  ghost predicate Reaches(w: World, es: seq<Event>, w': World)
    decreases |es|
  {
    if es == [] then w' == w else Enabled(w, es[0]) && Reaches(Apply(w, es[0]), es[1..], w')
  }

  /** What one accepted call changes at an address, once delivered. */
  ghost function Gain(c: Call, a: nat): int {
    PaidTo(c.payments, a) - if c.scope == a then TotalOf(c.payments) else 0
  }

  ghost function Gains(log: seq<Call>, a: nat): int {
    if log == [] then 0 else Gains(log[..|log| - 1], a) + Gain(log[|log| - 1], a)
  }

  /** Money is conserved, and each address has what the accepted calls give it, less what is still on
      the way. */
  ghost predicate Inv(start: map<nat, nat>, w: World) {
    && Sum(w.balance) + InFlight(w.pending) == Sum(start)
    && w.lost == 0
    && forall a: nat :: Bal(w.balance, a) + InFlightTo(w.pending, a) == Bal(start, a) + Gains(w.log, a)
  }

  lemma IssueStep(start: map<nat, nat>, w: World, c: Call)
    requires Inv(start, w)
    ensures Inv(start, Apply(w, Issue(c)))
  {
    var w' := Apply(w, Issue(c));
    if Judge(w.balance, c.scope, c.payments).Accepted? {
      SumSet(w.balance, c.scope, Bal(w.balance, c.scope) - TotalOf(c.payments));
      InFlightJoin(w.pending, DepositsOf(c.payments), 0);
      DepositsCarry(c.payments, 0);
      forall a: nat ensures Bal(w'.balance, a) + InFlightTo(w'.pending, a) == Bal(start, a) + Gains(w'.log, a) {
        InFlightJoin(w.pending, DepositsOf(c.payments), a);
        DepositsCarry(c.payments, a);
        assert w'.log[..|w.log|] == w.log;
        assert Bal(w.balance, a) + InFlightTo(w.pending, a) == Bal(start, a) + Gains(w.log, a);
      }
    }
  }

  /** One delivered deposit moves from flight to the balance of its address. */
  lemma CreditAt(m: map<nat, nat>, pending: seq<Deposit>, i: nat, a: nat)
    requires i < |pending| && Credit(m, pending[i]).Some?
    ensures Bal(Credit(m, pending[i]).value, a) + InFlightTo(Without(pending, i), a) ==
      Bal(m, a) + InFlightTo(pending, a)
  {
    InFlightWithout(pending, i, a);
  }

  /** A delivery succeeds if all the money there is fits in 256 bits. */
  lemma CreditSum(m: map<nat, nat>, pending: seq<Deposit>, i: nat)
    requires i < |pending| && Sum(m) + InFlight(pending) < U256
    ensures Credit(m, pending[i]).Some?
    ensures Sum(Credit(m, pending[i]).value) + InFlight(Without(pending, i)) == Sum(m) + InFlight(pending)
  {
    var d := pending[i];
    InFlightWithout(pending, i, 0);
    BalBelowSum(m, d.to);
    SumSet(m, d.to, Bal(m, d.to) + d.amount);
  }

  lemma DeliverStep(start: map<nat, nat>, w: World, i: nat)
    requires Sum(start) < U256 && Inv(start, w) && i < |w.pending|
    ensures Inv(start, Apply(w, Deliver(i)))
  {
    CreditSum(w.balance, w.pending, i);
    var w' := Apply(w, Deliver(i));
    forall a: nat ensures Bal(w'.balance, a) + InFlightTo(w'.pending, a) == Bal(start, a) + Gains(w'.log, a) {
      CreditAt(w.balance, w.pending, i, a);
      assert Bal(w.balance, a) + InFlightTo(w.pending, a) == Bal(start, a) + Gains(w.log, a);
    }
  }

  lemma {:induction false} Steps(start: map<nat, nat>, w: World, es: seq<Event>, w': World)
    requires Sum(start) < U256 && Inv(start, w) && Reaches(w, es, w')
    ensures Inv(start, w')
    decreases |es|
  {
    if es != [] {
      match es[0]
      case Issue(c) => IssueStep(start, w, c); Steps(start, Apply(w, es[0]), es[1..], w');
      case Deliver(i) => DeliverStep(start, w, i); Steps(start, Apply(w, es[0]), es[1..], w');
    }
  }

  /** Conservation: over every run of calls and deliveries, balances and deposits in flight add up to
      the starting balances, and no deposit is lost. */
  lemma Conservation(start: map<nat, nat>, es: seq<Event>, w: World)
    requires Sum(start) < U256 && Reaches(World(start, [], [], 0), es, w)
    ensures Sum(w.balance) + InFlight(w.pending) == Sum(start) && w.lost == 0
  {
    Steps(start, World(start, [], [], 0), es, w);
  }

  /** Which calls are accepted: over every run, exactly those whose total, with what is still on its way
      to the sender, is within the sender's starting balance and later gains. */
  lemma AcceptedExactly(start: map<nat, nat>, es: seq<Event>, w: World, c: Call)
    requires Sum(start) < U256 && Reaches(World(start, [], [], 0), es, w)
    ensures Apply(w, Issue(c)).log ==
      if TotalOf(c.payments) + InFlightTo(w.pending, c.scope) <= Bal(start, c.scope) + Gains(w.log, c.scope)
      then w.log + [c]
      else w.log
  {
    Steps(start, World(start, [], [], 0), es, w);
    BalBelowSum(w.balance, c.scope);
    assert Bal(w.balance, c.scope) + InFlightTo(w.pending, c.scope) == Bal(start, c.scope) + Gains(w.log, c.scope);
  }

  lemma {:induction false} GainsSplit(log: seq<Call>, i: nat, a: nat)
    requires i < |log|
    ensures Gains(log, a) == Gain(log[i], a) + Gains(Without(log, i), a)
    decreases |log|
  {
    var n := |log| - 1;
    if i < n {
      GainsSplit(log[..n], i, a);
      assert Without(log, i)[..n - 1] == Without(log[..n], i);
    } else {
      assert Without(log, i) == log[..n];
    }
  }

  /** The effect of a set of calls does not depend on the order they were accepted in. */
  lemma {:induction false} GainsSame(log: seq<Call>, log': seq<Call>, a: nat)
    requires multiset(log) == multiset(log')
    ensures Gains(log, a) == Gains(log', a)
    decreases |log|
  {
    if log == [] {
      assert |multiset(log')| == 0;
    } else {
      var n := |log| - 1;
      var c := log[n];
      assert c in multiset(log);
      var i :| 0 <= i < |log'| && log'[i] == c;
      GainsSplit(log', i, a);
      SplitOut(log, n);
      SplitOut(log', i);
      assert Without(log, n) == log[..n];
      GainsSame(log[..n], Without(log', i), a);
    }
  }

  lemma SplitOut(log: seq<Call>, i: nat)
    requires i < |log|
    ensures multiset(Without(log, i)) == multiset(log) - multiset{log[i]}
  {
    assert log == log[..i] + [log[i]] + log[i + 1..];
  }

  /** Confluence: any two runs that accept the same calls and have delivered everything end with the
      same balances, whatever the order of calls and deliveries. */
  lemma Confluence(start: map<nat, nat>, es: seq<Event>, w: World, es': seq<Event>, w': World, a: nat)
    requires Sum(start) < U256
    requires Reaches(World(start, [], [], 0), es, w) && w.pending == []
    requires Reaches(World(start, [], [], 0), es', w') && w'.pending == []
    requires multiset(w.log) == multiset(w'.log)
    ensures Bal(w.balance, a) == Bal(w'.balance, a)
  {
    Steps(start, World(start, [], [], 0), es, w);
    Steps(start, World(start, [], [], 0), es', w');
    GainsSame(w.log, w'.log, a);
  }

  /* ---- When can a deposit be lost? ---- */

  lemma {:induction false} SumOne(m: map<nat, nat>, t: nat)
    requires forall a :: a in m && a != t ==> m[a] == 0
    ensures Sum(m) == Bal(m, t)
    decreases |m|
  {
    if a :| a in m && a != t {
      SumRemove(m, a);
      assert (m - {a}).Keys == m.Keys - {a};
      SumOne(m - {a}, t);
    } else if t in m {
      SumRemove(m, t);
      assert m - {t} == map[];
    } else {
      assert m == map[];
    }
  }

  ghost function Funded(m: map<nat, nat>, t: nat): set<nat> {
    set a | a in m && a != t && m[a] > 0
  }

  /** An address may send everything it has in one payment. */
  lemma SendAll(w: World, a: nat, t: nat, c: Call) returns (m: World)
    requires w.pending == [] && a in w.balance && 0 < w.balance[a] < U256 && c == Call(a, [Payment(t, w.balance[a])])
    ensures Enabled(w, Issue(c)) && m == Apply(w, Issue(c))
    ensures m.pending == [Deposit(t, w.balance[a])] && m.balance == w.balance[a := 0] && m.lost == w.lost
  {
    var amount := w.balance[a];
    assert c.payments[..0] == [];
    assert TotalOf(c.payments) == TotalOf(c.payments[..0]) + amount == amount;
    assert DepositsOf(c.payments) == DepositsOf(c.payments[..0]) + [Deposit(t, amount)] == [Deposit(t, amount)];
    m := Apply(w, Issue(c));
  }

  /** No deposit is in flight, and there is more money than one address can hold. */
  ghost predicate Rich(w: World) {
    w.pending == [] && Sum(w.balance) >= U256 && forall a :: a in w.balance ==> w.balance[a] < U256
  }

  lemma SomeFunded(w: World, t: nat) returns (a: nat)
    requires Rich(w)
    ensures a in Funded(w.balance, t)
  {
    if Funded(w.balance, t) == {} {
      forall a | a in w.balance && a != t ensures w.balance[a] == 0 {
        assert a !in Funded(w.balance, t);
      }
      SumOne(w.balance, t);
      assert false;
    }
    a :| a in Funded(w.balance, t);
  }

  /** Moving everything from one address to another loses the deposit, or leaves one address less to
      collect from. */
  lemma CollectOne(w: World, t: nat, a: nat) returns (e: Event, n: World)
    requires Rich(w) && a in Funded(w.balance, t)
    ensures Reaches(w, [e, Deliver(0)], n)
    ensures n.lost > w.lost || (n.lost == w.lost && Rich(n) && Funded(n.balance, t) < Funded(w.balance, t))
  {
    var amount := w.balance[a];
    var c := Call(a, [Payment(t, amount)]);
    e := Issue(c);
    var m := SendAll(w, a, t, c);
    SumSet(w.balance, a, 0);
    n := Apply(m, Deliver(0));
    assert [e, Deliver(0)][1..] == [Deliver(0)];
    if Credit(m.balance, m.pending[0]).Some? {
      SumSet(m.balance, t, Bal(m.balance, t) + amount);
      assert n.balance == w.balance[a := 0][t := Bal(w.balance, t) + amount];
      assert a in Funded(w.balance, t) && a !in Funded(n.balance, t);
    }
  }

  lemma {:induction false} Joined(w: World, es: seq<Event>, m: World, rest: seq<Event>, w': World)
    requires Reaches(w, es, m) && Reaches(m, rest, w')
    ensures Reaches(w, es + rest, w')
    decreases |es|
  {
    if es == [] {
      assert es + rest == rest;
    } else {
      Joined(Apply(w, es[0]), es[1..], m, rest, w');
      assert (es + rest)[1..] == es[1..] + rest;
    }
  }

  /** Collecting more than 256 bits of money at one address loses a deposit. */
  lemma {:induction false} Collect(w: World, t: nat) returns (es: seq<Event>, w': World)
    requires Rich(w)
    ensures Reaches(w, es, w') && w'.lost > w.lost
    decreases Funded(w.balance, t)
  {
    var a := SomeFunded(w, t);
    var e, n := CollectOne(w, t, a);
    es, w' := [e, Deliver(0)], n;
    if n.lost == w.lost {
      var rest;
      rest, w' := Collect(n, t);
      Joined(w, es, n, rest, w');
      es := es + rest;
    }
  }

  ghost predicate LosesNothing(start: map<nat, nat>) {
    forall es, w :: Reaches(World(start, [], [], 0), es, w) ==> w.lost == 0
  }

  /** Exactly: some run of calls and deliveries loses a deposit if and only if the starting balances
      together exceed 256 bits. */
  lemma LossExactly(start: map<nat, nat>)
    requires forall a :: a in start ==> start[a] < U256
    ensures LosesNothing(start) <==> Sum(start) < U256
  {
    if Sum(start) < U256 {
      forall es, w | Reaches(World(start, [], [], 0), es, w) ensures w.lost == 0 {
        Conservation(start, es, w);
      }
    } else {
      var es, w := Collect(World(start, [], [], 0), 0);
      assert Reaches(World(start, [], [], 0), es, w) && w.lost > 0;
      assert !LosesNothing(start);
    }
  }
}
