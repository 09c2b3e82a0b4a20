/** The sharded token: balances live at addresses, the total supply in the global scope, and they are
    kept in step by relayed messages. */
module Erc20 {
  import opened Common
  import opened Ledger

  datatype Token = Token(balance: map<nat, nat>, allowance: map<(nat, nat), nat>, totalSupply: nat)

  /** A relayed change of the total supply. */
  datatype Relay = Add(amount: nat) | Sub(amount: nat)

  /** The `Transfer` event; address 0 stands for minting and burning. */
  datatype TransferEvent = TransferEvent(from: nat, to: nat, value: nat)

  datatype Call =
    | Mint(sender: nat, scope: nat, amount: nat)
    | Burn(sender: nat, scope: nat, amount: nat)
    | Transfer(sender: nat, scope: nat, recipient: nat, amount: nat)
    | Approve(sender: nat, scope: nat, spender: nat, amount: nat)
    | TransferFrom(sender: nat, scope: nat, from: nat, recipient: nat, amount: nat)

  /** An accepted call: the new local state and what it sends. */
  datatype Effect = Effect(token: Token, deposits: seq<Deposit>, relays: seq<Relay>, events: seq<TransferEvent>)

  function Allowed(t: Token, owner: nat, spender: nat): nat {
    if (owner, spender) in t.allowance then t.allowance[(owner, spender)] else 0
  }

  /** `None` is a revert. */
  function Exec(t: Token, c: Call): Option<Effect> {
    match c
    case Mint(sender, scope, amount) =>
      if sender == scope && Bal(t.balance, scope) + amount < U256
      then Some(Effect(t.(balance := t.balance[scope := Bal(t.balance, scope) + amount]),
        [], [Add(amount)], [TransferEvent(0, sender, amount)]))
      else None
    case Burn(sender, scope, amount) =>
      if sender == scope && amount <= Bal(t.balance, scope)
      then Some(Effect(t.(balance := t.balance[scope := Bal(t.balance, scope) - amount]),
        [], [Sub(amount)], [TransferEvent(sender, 0, amount)]))
      else None
    case Transfer(sender, scope, recipient, amount) =>
      if sender == scope && amount <= Bal(t.balance, scope)
      then Some(Effect(t.(balance := t.balance[scope := Bal(t.balance, scope) - amount]),
        [Deposit(recipient, amount)], [], []))
      else None
    case Approve(sender, scope, spender, amount) =>
      if sender == scope
      then Some(Effect(t.(allowance := t.allowance[(scope, spender) := amount]), [], [], []))
      else None
    case TransferFrom(sender, scope, from, recipient, amount) =>
      if from == scope && amount <= Allowed(t, scope, sender) && amount <= Bal(t.balance, scope)
      then Some(Effect(t.(balance := t.balance[scope := Bal(t.balance, scope) - amount],
                          allowance := t.allowance[(scope, sender) := Allowed(t, scope, sender) - amount]),
                       [Deposit(recipient, amount)], [], [TransferEvent(scope, recipient, amount)]))
      else None
  }

  /** `_addtotalsupply` and `_subtotalsupply` with checked arithmetic. */
  function Resupply(supply: nat, r: Relay): Option<nat> {
    match r
    case Add(n) => if supply + n < U256 then Some(supply + n) else None
    case Sub(n) => if n <= supply then Some(supply - n) else None
  }

  class Contract {
    var totalSupply: nat
    var balance: map<nat, nat>
    var allowance: map<(nat, nat), nat>

    ghost function State(): Token
      reads this
    {
      Token(balance, allowance, totalSupply)
    }

    constructor ()
      ensures State() == Token(map[], map[], 0)
    {
      totalSupply, balance, allowance := 0, map[], map[];
    }

    /** The external functions. A revert (`None`) changes nothing and sends nothing. */
    method Receive(c: Call) returns (sent: Option<Effect>)
      modifies this
      ensures sent == Exec(old(State()), c)
      ensures State() == if sent.Some? then sent.value.token else old(State())
    {
      match c
      case Mint(sender, scope, amount) =>
        if sender != scope || Bal(balance, scope) + amount >= U256 { return None; }
        balance := balance[scope := Bal(balance, scope) + amount];
        return Some(Effect(Token(balance, allowance, totalSupply), [], [Add(amount)],
          [TransferEvent(0, sender, amount)]));
      case Burn(sender, scope, amount) =>
        if sender != scope || amount > Bal(balance, scope) { return None; }
        balance := balance[scope := Bal(balance, scope) - amount];
        return Some(Effect(Token(balance, allowance, totalSupply), [], [Sub(amount)],
          [TransferEvent(sender, 0, amount)]));
      case Transfer(sender, scope, recipient, amount) =>
        if sender != scope || amount > Bal(balance, scope) { return None; }
        balance := balance[scope := Bal(balance, scope) - amount];
        return Some(Effect(Token(balance, allowance, totalSupply), [Deposit(recipient, amount)], [], []));
      case Approve(sender, scope, spender, amount) =>
        if sender != scope { return None; }
        allowance := allowance[(scope, spender) := amount];
        return Some(Effect(Token(balance, allowance, totalSupply), [], [], []));
      case TransferFrom(sender, scope, from, recipient, amount) =>
        if from != scope { return None; }
        var allowed := if (scope, sender) in allowance then allowance[(scope, sender)] else 0;
        if amount > allowed || amount > Bal(balance, scope) { return None; }
        allowance := allowance[(scope, sender) := allowed - amount];
        balance := balance[scope := Bal(balance, scope) - amount];
        return Some(Effect(Token(balance, allowance, totalSupply), [Deposit(recipient, amount)],
          [], [TransferEvent(scope, recipient, amount)]));
    }

    method ReceiveDeposit(d: Deposit) returns (ok: bool)
      modifies this
      ensures ok <==> Credit(old(balance), d).Some?
      ensures State() == old(State()).(balance := if ok then Credit(old(balance), d).value else old(balance))
    {
      ok := Bal(balance, d.to) + d.amount < U256;
      if ok {
        balance := balance[d.to := Bal(balance, d.to) + d.amount];
      }
    }

    method ReceiveRelay(r: Relay) returns (ok: bool)
      modifies this
      ensures ok <==> if r.Add? then old(totalSupply) + r.amount < U256 else r.amount <= old(totalSupply)
      ensures ok ==> totalSupply == if r.Add? then old(totalSupply) + r.amount else old(totalSupply) - r.amount
      ensures ok <==> Resupply(old(totalSupply), r).Some?
      ensures State() ==
        old(State()).(totalSupply := if ok then Resupply(old(totalSupply), r).value else old(totalSupply))
    {
      var next := Resupply(totalSupply, r);
      ok := next.Some?;
      if ok {
        totalSupply := next.value;
      }
    }
  }

  /* ---- Runs ---- */

  /** Messages in flight, in issue order. `minted` adds up the accepted mints; `lostDeposits` and
      `lostSupply` add up the messages whose delivery reverted. */
  datatype World =
    World(token: Token, deposits: seq<Deposit>, relays: seq<Relay>, minted: nat, lostDeposits: nat, lostSupply: int)

  datatype Event = Issue(call: Call) | DeliverDeposit(i: nat) | DeliverRelay(i: nat)

  /** A contract just deployed: nobody has anything and nothing is in flight. */
  ghost predicate Deployed(w: World) {
    && |w.token.balance| == |w.token.allowance| == 0 && w.token.totalSupply == 0
    && |w.deposits| == |w.relays| == 0 && w.minted == w.lostDeposits == w.lostSupply == 0
  }

  ghost predicate Enabled(w: World, e: Event) {
    match e
    case Issue(_) => true
    case DeliverDeposit(i) => i < |w.deposits|
    case DeliverRelay(i) => i < |w.relays|
  }

  ghost function DoIssue(w: World, c: Call): World {
    match Exec(w.token, c)
    case None => w
    case Some(e) => w.(token := e.token, deposits := w.deposits + e.deposits, relays := w.relays + e.relays,
                       minted := w.minted + if c.Mint? then c.amount else 0)
  }

  ghost function DoDeposit(w: World, i: nat): World
    requires i < |w.deposits|
  {
    match Credit(w.token.balance, w.deposits[i])
    case Some(m) => w.(token := w.token.(balance := m), deposits := Without(w.deposits, i))
    case None => w.(deposits := Without(w.deposits, i), lostDeposits := w.lostDeposits + w.deposits[i].amount)
  }

  ghost function DoRelay(w: World, i: nat): World
    requires i < |w.relays|
  {
    match Resupply(w.token.totalSupply, w.relays[i])
    case Some(n) => w.(token := w.token.(totalSupply := n), relays := Without(w.relays, i))
    case None => w.(relays := Without(w.relays, i), lostSupply := w.lostSupply + Worth(w.relays[i]))
  }

  ghost function Apply(w: World, e: Event): World
    requires Enabled(w, e)
  {
    match e
    case Issue(c) => DoIssue(w, c)
    case DeliverDeposit(i) => DoDeposit(w, i)
    case DeliverRelay(i) => DoRelay(w, i)
  }

  ghost predicate Reaches(w: World, es: seq<Event>, w': World)
    decreases |es|
  {
    if es == [] then w' == w else Enabled(w, es[0]) && Reaches(Apply(w, es[0]), es[1..], w')
  }

  ghost function Worth(r: Relay): int {
    if r.Add? then r.amount else -(r.amount as int)
  }

  ghost function Net(rs: seq<Relay>): int {
    if rs == [] then 0 else Worth(rs[0]) + Net(rs[1..])
  }

  ghost function Adds(rs: seq<Relay>): nat {
    if rs == [] then 0 else (if rs[0].Add? then rs[0].amount else 0) + Adds(rs[1..])
  }

  lemma {:induction false} NetWithout(rs: seq<Relay>, i: nat)
    requires i < |rs|
    ensures Net(rs) == Worth(rs[i]) + Net(Without(rs, i))
    ensures Adds(rs) == (if rs[i].Add? then rs[i].amount else 0) + Adds(Without(rs, i))
  {
    if i == 0 {
      assert Without(rs, 0) == rs[1..];
    } else {
      NetWithout(rs[1..], i - 1);
      assert Without(rs, i)[1..] == Without(rs[1..], i - 1);
    }
  }

  lemma {:induction false} NetJoin(rs: seq<Relay>, ss: seq<Relay>)
    ensures Net(rs + ss) == Net(rs) + Net(ss) && Adds(rs + ss) == Adds(rs) + Adds(ss)
  {
    if rs == [] {
      assert rs + ss == ss;
    } else {
      assert (rs + ss)[1..] == rs[1..] + ss;
      NetJoin(rs[1..], ss);
    }
  }

  /* ---- Conservation ---- */

  /** Money at addresses and on its way (or lost on the way), less what the supply stands for once
      all its relays, including lost ones, are taken into account. */
  ghost function Excess(w: World): int {
    Sum(w.token.balance) + InFlight(w.deposits) + w.lostDeposits - (w.token.totalSupply + Net(w.relays) + w.lostSupply)
  }

  lemma EffectBalance(t: Token, c: Call)
    ensures Exec(t, c).Some? ==> var e := Exec(t, c).value;
      && Sum(e.token.balance) + InFlight(e.deposits) == Sum(t.balance) + Net(e.relays)
      && e.token.totalSupply == t.totalSupply
      && Adds(e.relays) == if c.Mint? then c.amount else 0
  {
    if Exec(t, c).Some? && !c.Approve? {
      var e := Exec(t, c).value;
      SumSet(t.balance, c.scope, Bal(e.token.balance, c.scope));
      assert |e.deposits| == 1 ==> e.deposits[1..] == [];
      assert |e.relays| == 1 ==> e.relays[1..] == [];
    }
  }

  /** Every step of every run, whatever reverts, leaves the excess as it is. */
  lemma ExcessConstant(w: World, e: Event)
    requires Enabled(w, e)
    ensures Excess(Apply(w, e)) == Excess(w)
  {
    match e
    case Issue(c) =>
      EffectBalance(w.token, c);
      if Exec(w.token, c).Some? {
        InFlightJoin(w.deposits, Exec(w.token, c).value.deposits, 0);
        NetJoin(w.relays, Exec(w.token, c).value.relays);
      }
    case DeliverDeposit(i) =>
      InFlightWithout(w.deposits, i, 0);
      SumSet(w.token.balance, w.deposits[i].to, Bal(w.token.balance, w.deposits[i].to) + w.deposits[i].amount);
    case DeliverRelay(i) => NetWithout(w.relays, i);
  }

  /** Money at addresses or on its way, and what the supply can still grow to. */
  ghost function Money(w: World): nat {
    Sum(w.token.balance) + InFlight(w.deposits)
  }

  ghost function Claims(w: World): nat {
    w.token.totalSupply + Adds(w.relays)
  }

  /** The start leaves room in 256 bits for everything minted since. */
  ghost predicate Room(start: World, minted: nat) {
    Money(start) + minted < U256 + start.minted && Claims(start) + minted < U256 + start.minted
  }

  /** What a run from `start` keeps while there is room: no deposit and no addition is lost. */
  ghost predicate Bounded(start: World, w: World) {
    && Excess(w) == Excess(start)
    && Money(w) + start.minted <= Money(start) + w.minted && w.lostDeposits == start.lostDeposits
    && Claims(w) + start.minted <= Claims(start) + w.minted && w.lostSupply <= start.lostSupply
  }

  lemma BoundedStep(start: World, w: World, e: Event)
    requires Enabled(w, e) && Bounded(start, w) && Room(start, w.minted)
    ensures Bounded(start, Apply(w, e))
  {
    match e
    case Issue(c) => IssueBounded(start, w, c);
    case DeliverDeposit(i) => DepositBounded(start, w, i);
    case DeliverRelay(i) =>
      ExcessConstant(w, e);
      NetWithout(w.relays, i);
  }

  lemma IssueBounded(start: World, w: World, c: Call)
    requires Bounded(start, w)
    ensures Bounded(start, DoIssue(w, c))
  {
    ExcessConstant(w, Issue(c));
    EffectBalance(w.token, c);
    if Exec(w.token, c).Some? {
      var f := Exec(w.token, c).value;
      InFlightJoin(w.deposits, f.deposits, 0);
      NetJoin(w.relays, f.relays);
      assert |f.relays| == 1 ==> f.relays[1..] == [];
    }
  }

  lemma DepositBounded(start: World, w: World, i: nat)
    requires i < |w.deposits| && Bounded(start, w) && Room(start, w.minted)
    ensures Bounded(start, DoDeposit(w, i))
  {
    ExcessConstant(w, DeliverDeposit(i));
    InFlightWithout(w.deposits, i, 0);
    BalBelowSum(w.token.balance, w.deposits[i].to);
    SumSet(w.token.balance, w.deposits[i].to, Bal(w.token.balance, w.deposits[i].to) + w.deposits[i].amount);
  }

  lemma {:induction false} MintedGrows(w: World, es: seq<Event>, w': World)
    requires Reaches(w, es, w')
    ensures w.minted <= w'.minted
    decreases |es|
  {
    if es != [] { MintedGrows(Apply(w, es[0]), es[1..], w'); }
  }

  lemma {:induction false} BoundedSteps(start: World, w: World, es: seq<Event>, w': World)
    requires Bounded(start, w) && Reaches(w, es, w') && Room(start, w'.minted)
    ensures Bounded(start, w')
    decreases |es|
  {
    if es != [] {
      MintedGrows(w, es, w');
      BoundedStep(start, w, es[0]);
      BoundedSteps(start, Apply(w, es[0]), es[1..], w');
    }
  }

  /** Supply conservation with relays in flight, from any start and for deliveries in any order:
      balances and pending deposits stay as far from the supply and its pending relays as they were,
      except for lost subtractions. From a contract just deployed both are equal. */
  lemma SupplyConserved(start: World, es: seq<Event>, w: World)
    requires Reaches(start, es, w) && Room(start, w.minted)
    ensures w.lostDeposits == start.lostDeposits && w.lostSupply <= start.lostSupply
    ensures Money(w) - (w.token.totalSupply + Net(w.relays) + w.lostSupply) ==
      Money(start) - (start.token.totalSupply + Net(start.relays) + start.lostSupply)
    ensures Deployed(start) ==> Money(w) == w.token.totalSupply + Net(w.relays) + w.lostSupply
  {
    BoundedSteps(start, start, es, w);
    if Deployed(start) { SumEmpty(start.token.balance); }
  }

  /* ---- When is a subtraction lost? ---- */

  /** Every subtraction that is delivered is at most the supply at that moment. */
  ghost predicate SubsCovered(w: World, es: seq<Event>)
    decreases |es|
  {
    es != [] ==>
      && Enabled(w, es[0])
      && (es[0].DeliverRelay? && w.relays[es[0].i].Sub? ==> w.relays[es[0].i].amount <= w.token.totalSupply)
      && SubsCovered(Apply(w, es[0]), es[1..])
  }

  lemma LossStep(start: World, w: World, e: Event)
    requires Enabled(w, e) && Bounded(start, w) && Room(start, w.minted)
    ensures Apply(w, e).lostSupply <= w.lostSupply
    ensures Apply(w, e).lostSupply == w.lostSupply <==>
      (e.DeliverRelay? && w.relays[e.i].Sub? ==> w.relays[e.i].amount <= w.token.totalSupply)
  {
    if e.DeliverRelay? { NetWithout(w.relays, e.i); }
  }

  lemma {:induction false} LossSteps(start: World, w: World, es: seq<Event>, w': World)
    requires Bounded(start, w) && Reaches(w, es, w') && Room(start, w'.minted)
    ensures w'.lostSupply <= w.lostSupply
    ensures w'.lostSupply == w.lostSupply <==> SubsCovered(w, es)
    decreases |es|
  {
    if es != [] {
      MintedGrows(w, es, w');
      LossStep(start, w, es[0]);
      BoundedStep(start, w, es[0]);
      LossSteps(start, Apply(w, es[0]), es[1..], w');
    }
  }

  /** Over every run, conservation is exact if and only if no subtraction is delivered while it is
      above the supply. */
  lemma ConservedExactly(start: World, es: seq<Event>, w: World)
    requires Reaches(start, es, w) && Room(start, w.minted)
    ensures SubsCovered(start, es) <==>
      Money(w) - (w.token.totalSupply + Net(w.relays)) == Money(start) - (start.token.totalSupply + Net(start.relays))
  {
    SupplyConserved(start, es, w);
    LossSteps(start, start, es, w);
  }

  ghost function Subs(rs: seq<Relay>): nat {
    if rs == [] then 0 else (if rs[0].Sub? then rs[0].amount else 0) + Subs(rs[1..])
  }

  lemma {:induction false} SubsWithout(rs: seq<Relay>, i: nat)
    requires i < |rs|
    ensures Subs(rs) == (if rs[i].Sub? then rs[i].amount else 0) + Subs(Without(rs, i))
  {
    if i == 0 {
      assert Without(rs, 0) == rs[1..];
    } else {
      SubsWithout(rs[1..], i - 1);
      assert Without(rs, i)[1..] == Without(rs[1..], i - 1);
    }
  }

  ghost predicate OnlyRelays(es: seq<Event>) {
    forall n :: 0 <= n < |es| ==> es[n].DeliverRelay?
  }

  lemma {:induction false} CoveredInAnyOrder(w: World, es: seq<Event>, w': World)
    requires OnlyRelays(es) && Reaches(w, es, w') && Claims(w) < U256 && Subs(w.relays) <= w.token.totalSupply
    ensures w'.lostSupply == w.lostSupply
    decreases |es|
  {
    if es != [] {
      NetWithout(w.relays, es[0].i);
      SubsWithout(w.relays, es[0].i);
      CoveredInAnyOrder(Apply(w, es[0]), es[1..], w');
    }
  }

  lemma {:induction false} SomeSub(rs: seq<Relay>) returns (i: nat)
    requires Subs(rs) > 0
    ensures i < |rs| && rs[i].Sub? && rs[i].amount > 0
  {
    if rs[0].Sub? && rs[0].amount > 0 {
      i := 0;
    } else {
      i := SomeSub(rs[1..]);
      i := i + 1;
    }
  }

  /** Delivering the subtractions first loses one of them. */
  lemma {:induction false} SubsFirst(w: World) returns (es: seq<Event>, w': World)
    requires Subs(w.relays) > w.token.totalSupply
    ensures OnlyRelays(es) && Reaches(w, es, w') && w'.lostSupply < w.lostSupply
    decreases |w.relays|
  {
    var i := SomeSub(w.relays);
    SubsWithout(w.relays, i);
    var m := DoRelay(w, i);
    var rest := [];
    w' := m;
    if w.relays[i].amount <= w.token.totalSupply {
      rest, w' := SubsFirst(m);
    }
    es := [DeliverRelay(i)] + rest;
    assert es[1..] == rest;
  }

  ghost predicate LosesNothing(w: World) {
    forall es, w' :: OnlyRelays(es) && Reaches(w, es, w') ==> w'.lostSupply == w.lostSupply
  }

  /** What can be checked beforehand: every order of delivering the pending relays loses nothing if
      and only if the pending subtractions together are at most the present supply. */
  lemma AnyOrderExactly(w: World)
    requires Claims(w) < U256
    ensures LosesNothing(w) <==> Subs(w.relays) <= w.token.totalSupply
  {
    if Subs(w.relays) <= w.token.totalSupply {
      forall es, w' | OnlyRelays(es) && Reaches(w, es, w') ensures w'.lostSupply == w.lostSupply {
        CoveredInAnyOrder(w, es, w');
      }
    } else {
      var es, w' := SubsFirst(w);
      assert OnlyRelays(es) && Reaches(w, es, w') && w'.lostSupply != w.lostSupply;
    }
  }

  /* ---- Supply relays in issue order ---- */

  /** Taking the relays one after another from `supply` never goes below zero. */
  ghost predicate Covered(supply: int, rs: seq<Relay>)
    decreases |rs|
  {
    supply >= 0 && (rs != [] ==> Covered(supply + Worth(rs[0]), rs[1..]))
  }

  lemma {:induction false} CoveredSnoc(supply: int, rs: seq<Relay>, r: Relay)
    requires Covered(supply, rs) && supply + Net(rs) + Worth(r) >= 0
    ensures Covered(supply, rs + [r])
    decreases |rs|
  {
    if rs == [] {
      assert (rs + [r])[1..] == [];
    } else {
      assert (rs + [r])[1..] == rs[1..] + [r];
      CoveredSnoc(supply + Worth(rs[0]), rs[1..], r);
    }
  }

  ghost predicate InOrder(es: seq<Event>) {
    forall n :: 0 <= n < |es| && es[n].DeliverRelay? ==> es[n].i == 0
  }

  /** The pending relays are covered in their order, and all money is backed by supply. */
  ghost predicate Backed(w: World) {
    Covered(w.token.totalSupply, w.relays) && Money(w) <= w.token.totalSupply + Net(w.relays)
  }

  lemma IssueBacked(w: World, c: Call)
    requires Backed(w)
    ensures Backed(DoIssue(w, c))
  {
    if Exec(w.token, c).Some? {
      var e := Exec(w.token, c).value;
      EffectBalance(w.token, c);
      InFlightJoin(w.deposits, e.deposits, 0);
      NetJoin(w.relays, e.relays);
      if e.relays == [] {
        assert w.relays + e.relays == w.relays;
      } else {
        assert e.relays[1..] == [] && e.relays == [e.relays[0]];
        CoveredSnoc(w.token.totalSupply, w.relays, e.relays[0]);
      }
    }
  }

  lemma OrderedStep(start: World, w: World, e: Event)
    requires Enabled(w, e) && Bounded(start, w) && Room(start, w.minted) && Backed(w) && (e.DeliverRelay? ==> e.i == 0)
    ensures Apply(w, e).lostSupply == w.lostSupply && Backed(Apply(w, e))
  {
    match e
    case Issue(c) => IssueBacked(w, c);
    case DeliverDeposit(i) =>
      ExcessConstant(w, e);
      DepositBounded(start, w, i);
    case DeliverRelay(i) =>
      assert Without(w.relays, 0) == w.relays[1..];
      assert Covered(w.token.totalSupply + Worth(w.relays[0]), w.relays[1..]);
      NetWithout(w.relays, 0);
  }

  lemma {:induction false} OrderedSteps(start: World, w: World, es: seq<Event>, w': World)
    requires Bounded(start, w) && Backed(w) && Reaches(w, es, w') && Room(start, w'.minted) && InOrder(es)
    ensures w'.lostSupply == w.lostSupply
    decreases |es|
  {
    if es != [] {
      MintedGrows(w, es, w');
      BoundedStep(start, w, es[0]);
      OrderedStep(start, w, es[0]);
      OrderedSteps(start, Apply(w, es[0]), es[1..], w');
    }
  }

  /** In issue order, from any backed start and so from a contract just deployed, no subtraction is
      above the supply, so conservation is exact. */
  lemma SupplyExact(start: World, es: seq<Event>, w: World)
    requires (Backed(start) || Deployed(start)) && Reaches(start, es, w) && Room(start, w.minted) && InOrder(es)
    ensures SubsCovered(start, es)
    ensures Deployed(start) ==> Money(w) == w.token.totalSupply + Net(w.relays)
    ensures Money(w) - (w.token.totalSupply + Net(w.relays)) ==
      Money(start) - (start.token.totalSupply + Net(start.relays))
  {
    if Deployed(start) { DeployedBacked(start); }
    OrderedSteps(start, start, es, w);
    LossSteps(start, start, es, w);
    ConservedExactly(start, es, w);
  }

  lemma DeployedBacked(w: World)
    requires Deployed(w)
    ensures Backed(w) && Money(w) == w.token.totalSupply + Net(w.relays)
  {
    SumEmpty(w.token.balance);
  }

  /** Out of order it can fail for good: a burn relay that overtakes its mint reverts, and the supply
      then stays above the money there is. */
  lemma OutOfOrderLoses(start: World, a: nat, n: nat) returns (es: seq<Event>, w: World)
    requires Deployed(start) && 0 < n < U256
    ensures es == [Issue(Mint(a, a, n)), Issue(Burn(a, a, n)), DeliverRelay(1), DeliverRelay(0)]
    ensures Reaches(start, es, w)
    ensures w.relays == [] && w.deposits == [] && Sum(w.token.balance) == 0 && w.token.totalSupply == n
  {
    es := [Issue(Mint(a, a, n)), Issue(Burn(a, a, n)), DeliverRelay(1), DeliverRelay(0)];
    var w1 := DoIssue(start, es[0].call);
    var w2 := DoIssue(w1, es[1].call);
    assert w2.relays == [Add(n), Sub(n)];
    var w3 := DoRelay(w2, 1);
    assert w3.relays == [Add(n)];
    w := DoRelay(w3, 0);
    assert es[1..] == [es[1], es[2], es[3]];
    assert [es[1], es[2], es[3]][1..] == [es[2], es[3]] && [es[2], es[3]][1..] == [es[3]];
    assert Reaches(w3, [es[3]], w);
    assert Reaches(w2, [es[2], es[3]], w);
    assert Reaches(w1, [es[1], es[2], es[3]], w);
    SumSet(start.token.balance, a, n);
    SumSet(w1.token.balance, a, 0);
  }

  /* ---- The EIP-20 methods ---- */

  /** `transfer` and `transferFrom` are accepted exactly when authorised and covered; together with
      the delivery of their deposit they move the amount and touch no other balance. */
  lemma TransferMoves(t: Token, c: Call, a: nat)
    requires c.Transfer? || c.TransferFrom?
    ensures Exec(t, c).Some? <==>
      && c.amount <= Bal(t.balance, c.scope)
      && (if c.Transfer? then c.sender == c.scope else c.from == c.scope && c.amount <= Allowed(t, c.from, c.sender))
    ensures Exec(t, c).Some? ==> var e := Exec(t, c).value;
      && |e.deposits| == 1 && e.relays == []
      && (Credit(e.token.balance, e.deposits[0]).Some? ==>
            Bal(Credit(e.token.balance, e.deposits[0]).value, a) ==
            Bal(t.balance, a) - (if a == c.scope then c.amount else 0) + (if a == c.recipient then c.amount else 0))
      && (forall o, s :: Allowed(e.token, o, s) ==
            Allowed(t, o, s) - if c.TransferFrom? && o == c.from && s == c.sender then c.amount else 0)
  {
  }

  /** `mint`, `burn` and `approve` are accepted exactly for the caller's own address, a mint if the balance
      stays below 2^256 and a burn if it is covered; they change only that balance, or only the one
      allowance, and relay exactly the supply change. */
  lemma OwnCallsExactly(t: Token, c: Call, a: nat, o: nat, s: nat)
    requires c.Mint? || c.Burn? || c.Approve?
    ensures Exec(t, c).Some? <==>
      && c.sender == c.scope
      && (c.Mint? ==> Bal(t.balance, c.scope) + c.amount < U256) && (c.Burn? ==> c.amount <= Bal(t.balance, c.scope))
    ensures Exec(t, c).Some? ==> var e := Exec(t, c).value;
      && Bal(e.token.balance, a) - Bal(t.balance, a) ==
           (if a != c.scope || c.Approve? then 0 else if c.Mint? then c.amount else -(c.amount as int))
      && Allowed(e.token, o, s) ==
           (if c.Approve? && o == c.scope && s == c.spender then c.amount else Allowed(t, o, s))
      && e.deposits == [] && e.relays == (if c.Mint? then [Add(c.amount)] else if c.Burn? then [Sub(c.amount)] else [])
  {
  }

  /** The allowance after one event: set by the owner's `approve`, lowered by what the spender moves. */
  ghost function AllowanceNow(w: World, e: Event, o: nat, s: nat, allowed: int): int {
    if e.Issue? && e.call.Approve? && e.call.sender == e.call.scope == o && e.call.spender == s then e.call.amount
    else if e.Issue? && e.call.TransferFrom? && e.call.from == e.call.scope == o && e.call.sender == s
         && e.call.amount <= allowed && e.call.amount <= Bal(w.token.balance, o)
    then allowed - e.call.amount
    else allowed
  }

  ghost function AllowanceAfter(w: World, es: seq<Event>, o: nat, s: nat, allowed: int): int
    decreases |es|
  {
    if es == [] || !Enabled(w, es[0]) then allowed
    else AllowanceAfter(Apply(w, es[0]), es[1..], o, s, AllowanceNow(w, es[0], o, s, allowed))
  }

  /** Over every run an allowance is what was last approved less what its spender has moved since. */
  lemma {:induction false} AllowanceExactly(w: World, es: seq<Event>, w': World, o: nat, s: nat)
    requires Reaches(w, es, w')
    ensures Allowed(w'.token, o, s) == AllowanceAfter(w, es, o, s, Allowed(w.token, o, s))
    decreases |es|
  {
    if es != [] {
      AllowanceStep(w, es[0], o, s);
      AllowanceExactly(Apply(w, es[0]), es[1..], w', o, s);
    }
  }

  lemma AllowanceStep(w: World, e: Event, o: nat, s: nat)
    requires Enabled(w, e)
    ensures Allowed(Apply(w, e).token, o, s) == AllowanceNow(w, e, o, s, Allowed(w.token, o, s))
  {
  }

  /** What the events of a call say about an address; address 0 stands for minting and burning. */
  ghost function Reported(events: seq<TransferEvent>, a: nat): int {
    if events == [] then 0
    else
      (if events[0].to == a then events[0].value else 0) - (if events[0].from == a then events[0].value else 0)
      + Reported(events[1..], a)
  }

  /** What a call changes at an address, once its deposits are delivered. */
  ghost function Moved(t: Token, e: Effect, a: nat): int {
    Bal(e.token.balance, a) + InFlightTo(e.deposits, a) - Bal(t.balance, a)
  }

  ghost predicate Explained(t: Token, e: Effect) {
    forall a: nat :: a != 0 ==> Moved(t, e, a) == Reported(e.events, a)
  }

  /** EIP-20 asks every transfer to fire a `Transfer` event. The contract does not: the events of an
      accepted call explain all balance changes exactly if it is not a plain `transfer` of a positive
      amount to somebody else. */
  lemma EventsExactly(t: Token, c: Call)
    requires Exec(t, c).Some?
    ensures Explained(t, Exec(t, c).value) <==> !(c.Transfer? && c.amount > 0 && c.recipient != c.scope)
  {
    var e := Exec(t, c).value;
    if c.Transfer? && c.amount > 0 && c.recipient != c.scope {
      var a := if c.scope != 0 then c.scope else c.recipient;
      AtMostOne(e.deposits, e.events, a);
      assert a != 0 && Moved(t, e, a) != Reported(e.events, a);
    } else {
      forall a: nat | a != 0 ensures Moved(t, e, a) == Reported(e.events, a) {
        AtMostOne(e.deposits, e.events, a);
      }
    }
  }

  lemma AtMostOne(ds: seq<Deposit>, events: seq<TransferEvent>, a: nat)
    requires |ds| <= 1 && |events| <= 1
    ensures InFlightTo(ds, a) == if |ds| == 1 && ds[0].to == a then ds[0].amount else 0
    ensures Reported(events, a) ==
      if |events| == 0 then 0
      else (if events[0].to == a then events[0].value else 0) - (if events[0].from == a then events[0].value else 0)
  {
    assert |ds| == 1 ==> ds[1..] == [];
    assert |events| == 1 ==> events[1..] == [];
  }
}
