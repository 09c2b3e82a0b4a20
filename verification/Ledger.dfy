/** Balances held at addresses and deposits on their way to them. */
module Ledger {
  import opened Common

  /** A relayed `_deposit` that has been issued and not delivered. */
  datatype Deposit = Deposit(to: nat, amount: nat)

  function Bal(m: map<nat, nat>, a: nat): nat {
    if a in m then m[a] else 0
  }

  ghost function Sum(m: map<nat, nat>): nat {
    if m == map[] then 0 else
      var a :| a in m;
      m[a] + Sum(m - {a})
  }

  lemma SumEmpty(m: map<nat, nat>)
    requires |m| == 0
    ensures Sum(m) == 0
  {
  }

  lemma {:induction false} SumRemove(m: map<nat, nat>, a: nat)
    requires a in m
    ensures Sum(m) == m[a] + Sum(m - {a})
    decreases |m|
  {
    var x :| x in m && Sum(m) == m[x] + Sum(m - {x});
    if x != a {
      assert |m - {x}| < |m| && |m - {a}| < |m| by {
        assert (m - {x}).Keys == m.Keys - {x} && (m - {a}).Keys == m.Keys - {a};
      }
      SumRemove(m - {x}, a);
      SumRemove(m - {a}, x);
      assert m - {x} - {a} == m - {a} - {x};
    }
  }

  lemma SumSet(m: map<nat, nat>, a: nat, v: nat)
    ensures Sum(m[a := v]) + Bal(m, a) == Sum(m) + v
  {
    SumRemove(m[a := v], a);
    if a in m {
      SumRemove(m, a);
      assert m[a := v] - {a} == m - {a};
    } else {
      assert m[a := v] - {a} == m;
    }
  }

  lemma BalBelowSum(m: map<nat, nat>, a: nat)
    ensures Bal(m, a) <= Sum(m)
  {
    if a in m { SumRemove(m, a); }
  }

  /** The amount in flight, in all and to one address. */
  function InFlight(ds: seq<Deposit>): nat {
    if ds == [] then 0 else ds[0].amount + InFlight(ds[1..])
  }

  function InFlightTo(ds: seq<Deposit>, a: nat): nat {
    if ds == [] then 0 else (if ds[0].to == a then ds[0].amount else 0) + InFlightTo(ds[1..], a)
  }

  function Without<T>(xs: seq<T>, i: nat): (ys: seq<T>)
    requires i < |xs|
    ensures |ys| == |xs| - 1
  {
    xs[..i] + xs[i + 1..]
  }

  lemma {:induction false} InFlightWithout(ds: seq<Deposit>, i: nat, a: nat)
    requires i < |ds|
    ensures InFlight(ds) == ds[i].amount + InFlight(Without(ds, i))
    ensures InFlightTo(ds, a) == (if ds[i].to == a then ds[i].amount else 0) + InFlightTo(Without(ds, i), a)
  {
    if i == 0 {
      assert Without(ds, 0) == ds[1..];
    } else {
      InFlightWithout(ds[1..], i - 1, a);
      assert Without(ds, i)[1..] == Without(ds[1..], i - 1);
    }
  }

  lemma {:induction false} InFlightJoin(ds: seq<Deposit>, es: seq<Deposit>, a: nat)
    ensures InFlight(ds + es) == InFlight(ds) + InFlight(es)
    ensures InFlightTo(ds + es, a) == InFlightTo(ds, a) + InFlightTo(es, a)
  {
    if ds == [] {
      assert ds + es == es;
    } else {
      assert (ds + es)[1..] == ds[1..] + es;
      InFlightJoin(ds[1..], es, a);
    }
  }

  /** `_deposit` with 256-bit checked arithmetic. */
  function Credit(m: map<nat, nat>, d: Deposit): Option<map<nat, nat>> {
    if Bal(m, d.to) + d.amount < U256 then Some(m[d.to := Bal(m, d.to) + d.amount]) else None
  }
}
