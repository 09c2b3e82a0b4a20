/** The account universe: picking accounts a limited number of times each, and the model of a
    peer-to-peer transfer between the two accounts of a picked pair. */
module AccountUniverse {
  import opened Common

  const GAS_PRICE: nat := 100

  /** Gas costs are in gas units. `tooLow` is the cost of a transfer that the balance does not cover. */
  datatype Account = Account(balance: nat, sequence: nat, sent: nat, received: nat, normal: nat, tooLow: nat)

  datatype Entry = Entry(account: nat, times: nat)

  datatype Picker = Unlimited(count: nat) | Limited(remaining: seq<Entry>)

  datatype Style = Free | AtMost(limit: nat)

  /* ---- The picker ---- */

  function NewPicker(style: Style, n: nat): (p: Picker)
    ensures Size(p) == n && forall i: nat :: i < n ==> AccountAt(p, i) == i
  {
    match style
    case Free => Unlimited(n)
    case AtMost(limit) => Limited(seq(n, (a: nat) => Entry(a, limit)))
  }

  function Size(p: Picker): nat {
    match p
    case Unlimited(n) => n
    case Limited(remaining) => |remaining|
  }

  function AccountAt(p: Picker, i: nat): nat
    requires i < Size(p)
  {
    match p
    case Unlimited(_) => i
    case Limited(remaining) => remaining[i].account
  }

  /** `pick_limited`: one time less, and gone when none is left. */
  function Taken(remaining: seq<Entry>, i: nat): seq<Entry>
    requires i < |remaining| && remaining[i].times > 0
  {
    if remaining[i].times == 1 then remaining[..i] + remaining[i + 1..]
    else remaining[i := Entry(remaining[i].account, remaining[i].times - 1)]
  }

  /** Decrementing a count of zero panics. */
  predicate CanTake(p: Picker, i: nat) {
    i < Size(p) && (p.Limited? ==> p.remaining[i].times > 0)
  }

  function AfterOne(p: Picker, i: nat): Picker
    requires CanTake(p, i)
  {
    if p.Unlimited? then p else Limited(Taken(p.remaining, i))
  }

  /** Accounts in increasing order, all existing, each with times left. */
  ghost predicate PickerOk(p: Picker, n: nat) {
    match p
    case Unlimited(count) => count <= n
    case Limited(remaining) =>
      && (forall i :: 0 <= i < |remaining| ==> remaining[i].account < n && remaining[i].times > 0)
      && (forall i, j :: 0 <= i < j < |remaining| ==> remaining[i].account < remaining[j].account)
  }

  /** How many more times `a` can be picked. */
  ghost function Left(remaining: seq<Entry>, a: nat): nat {
    if remaining == [] then 0
    else Left(remaining[..|remaining| - 1], a)
         + var e := remaining[|remaining| - 1]; if e.account == a then e.times else 0
  }

  lemma {:induction false} TakenLeft(remaining: seq<Entry>, i: nat, a: nat)
    requires i < |remaining| && remaining[i].times > 0
    ensures Left(Taken(remaining, i), a) == Left(remaining, a) - if remaining[i].account == a then 1 else 0
  {
    var last := |remaining| - 1;
    var front, e, after := remaining[..last], remaining[last], Taken(remaining, i);
    if i < last {
      TakenLeft(front, i, a);
      assert after == Taken(front, i) + [e];
      LeftSnoc(Taken(front, i), e, a);
    } else if e.times == 1 {
      assert after == front;
    } else {
      assert after == front + [Entry(e.account, e.times - 1)];
      LeftSnoc(front, Entry(e.account, e.times - 1), a);
    }
  }

  lemma LeftSnoc(remaining: seq<Entry>, e: Entry, a: nat)
    ensures Left(remaining + [e], a) == Left(remaining, a) + if e.account == a then e.times else 0
  {
    assert (remaining + [e])[..|remaining|] == remaining;
  }

  lemma TakenOk(p: Picker, n: nat, i: nat)
    requires PickerOk(p, n) && i < Size(p)
    ensures CanTake(p, i) && PickerOk(AfterOne(p, i), n) && AccountAt(p, i) < n
  {
  }

  lemma {:induction false} NewLeft(limit: nat, n: nat, a: nat)
    ensures Left(NewPicker(AtMost(limit), n).remaining, a) == if a < n then limit else 0
  {
    if n > 0 {
      var remaining := NewPicker(AtMost(limit), n).remaining;
      assert remaining[..n - 1] == NewPicker(AtMost(limit), n - 1).remaining;
      NewLeft(limit, n - 1, a);
    }
  }

  /** Using the later position first leaves the earlier one valid, and the pair is distinct. */
  lemma PairOk(p: Picker, n: nat, i: nat, j: nat)
    requires PickerOk(p, n) && i < j < Size(p)
    ensures CanTake(p, j) && CanTake(AfterOne(p, j), i) && AccountAt(AfterOne(p, j), i) == AccountAt(p, i)
    ensures AccountAt(p, i) < AccountAt(p, j) < n
    ensures PickerOk(AfterOne(AfterOne(p, j), i), n)
  {
    TakenOk(p, n, j);
    TakenOk(AfterOne(p, j), n, i);
  }

  /* ---- The transfer ---- */

  datatype Status = Success | MoveAbort | Discard

  datatype Outcome = Panic | Done(sender: Account, receiver: Account, status: Status, gas: nat)

  function Fee(s: Account): nat {
    s.normal * GAS_PRICE
  }

  /** The gas a transfer costs, in units: nothing if the balance does not cover the normal fee at the
      price of 100 a unit, the cost of a failed transfer if it does not cover the amount. */
  ghost function CostOf(s: Account, amount: nat): nat {
    if s.balance < s.normal * 100 then 0 else if s.balance < amount then s.tooLow else s.normal
  }

  /** `P2PTransferGen::apply` once the pair is picked; u64 arithmetic that overflows panics. It moves the
      amount or nothing, charges the sender exactly the reported gas, which is what it costs, and is
      accounted for by a sequence number exactly when it is kept; nothing else changes. */
  function Transfer(s: Account, r: Account, amount: nat): (o: Outcome)
    ensures o.Done? ==>
      && o.sender.balance + o.receiver.balance + o.gas * GAS_PRICE == s.balance + r.balance
      && o.receiver.balance == r.balance + (if o.status.Success? then amount else 0)
      && o.sender.sequence == s.sequence + (if o.status.Discard? then 0 else 1) && o.receiver.sequence == r.sequence
      && o.sender.sent - s.sent == o.receiver.received - r.received == (if o.status.Success? then 1 else 0)
      && (o.status.Success? <==> s.balance >= amount + s.normal * 100)
      && (o.status.Discard? <==> s.balance < s.normal * 100)
      && o.gas == CostOf(s, amount)
      && o.sender == s.(balance := o.sender.balance, sequence := o.sender.sequence, sent := o.sender.sent)
      && o.receiver == r.(balance := o.receiver.balance, received := o.receiver.received)
  {
    if amount + Fee(s) >= U64 then Panic
    else if s.balance < Fee(s) then Done(s, r, Discard, 0)
    else if s.sequence + 1 >= U64 then Panic
    else if s.balance >= amount && s.balance >= amount + Fee(s) then
      if s.sent + 1 >= U64 || r.balance + amount >= U64 || r.received + 1 >= U64 then Panic
      else
        Done(s.(sequence := s.sequence + 1, sent := s.sent + 1, balance := s.balance - amount - Fee(s)),
             r.(balance := r.balance + amount, received := r.received + 1), Success, s.normal)
    else if s.balance >= amount then
      Done(s.(sequence := s.sequence + 1, balance := s.balance - Fee(s)), r, MoveAbort, s.normal)
    else if s.tooLow * GAS_PRICE > s.balance then Panic
    else Done(s.(sequence := s.sequence + 1, balance := s.balance - s.tooLow * GAS_PRICE), r, MoveAbort, s.tooLow)
  }

  ghost predicate RoomToCount(s: Account, r: Account) {
    s.sequence + 1 < U64 && s.sent + 1 < U64 && r.received + 1 < U64
  }

  /** No transfer with room for its counts, its amount and its fee panics. */
  ghost predicate NeverOverdraws(normal: nat, tooLow: nat) {
    forall s: Account, r: Account, amount: nat ::
      && s.normal == normal && s.tooLow == tooLow && RoomToCount(s, r)
      && s.balance + r.balance < U64 && amount + Fee(s) < U64
      ==> Transfer(s, r, amount).Done?
  }

  /** The cost of a failed transfer can be charged for every balance exactly when it is not above the
      normal cost, or the normal fee is so high that no transfer gets as far as that. */
  lemma CostOrderExactly(normal: nat, tooLow: nat)
    ensures NeverOverdraws(normal, tooLow) <==> tooLow <= normal || 2 * normal * GAS_PRICE + 1 >= U64
  {
    if tooLow > normal && 2 * normal * GAS_PRICE + 1 < U64 {
      var s := Account(normal * GAS_PRICE, 0, 0, 0, normal, tooLow);
      var r := Account(0, 0, 0, 0, normal, tooLow);
      assert RoomToCount(s, r);
      assert Transfer(s, r, normal * GAS_PRICE + 1).Panic?;
    }
  }

  /* ---- Runs ---- */

  /** What has happened: picks since the last reset, accounts then present, gas units charged, funds
      added, kept transactions per sender, and each account's first sequence number. */
  datatype History =
    History(picks: multiset<nat>, since: nat, charged: nat, added: nat, kept: multiset<nat>, first: seq<nat>)

  datatype World = World(accounts: seq<Account>, picker: Picker, history: History)

  datatype Event = PickOne(i: nat) | Pay(i: nat, j: nat, reverse: bool, amount: nat) | Add(account: Account) | Reset

  ghost function Start(style: Style, accounts: seq<Account>): World {
    World(accounts, NewPicker(style, |accounts|),
          History(multiset{}, |accounts|, 0, 0, multiset{},
            seq(|accounts|, a requires 0 <= a < |accounts| => accounts[a].sequence)))
  }

  /** Sender and receiver of a picked pair. */
  function Sender(p: Picker, i: nat, j: nat, reverse: bool): nat
    requires i < Size(p) && j < Size(p)
  {
    if reverse then AccountAt(p, j) else AccountAt(p, i)
  }

  ghost predicate CanPay(w: World, i: nat, j: nat, reverse: bool, amount: nat) {
    && i < j < Size(w.picker) && CanTake(w.picker, j) && CanTake(AfterOne(w.picker, j), i)
    && AccountAt(w.picker, i) < AccountAt(w.picker, j) < |w.accounts|
    && Transfer(w.accounts[Sender(w.picker, i, j, reverse)], w.accounts[Sender(w.picker, i, j, !reverse)], amount).Done?
  }

  ghost predicate Enabled(w: World, e: Event) {
    match e
    case PickOne(i) => CanTake(w.picker, i)
    case Pay(i, j, reverse, amount) => CanPay(w, i, j, reverse, amount)
    case Add(_) => true
    case Reset => true
  }

  ghost function DoPay(w: World, i: nat, j: nat, reverse: bool, amount: nat): World
    requires CanPay(w, i, j, reverse, amount)
  {
    var s, r := Sender(w.picker, i, j, reverse), Sender(w.picker, i, j, !reverse);
    var o := Transfer(w.accounts[s], w.accounts[r], amount);
    World(w.accounts[s := o.sender][r := o.receiver], AfterOne(AfterOne(w.picker, j), i),
          w.history.(picks := w.history.picks + multiset{s, r}, charged := w.history.charged + o.gas,
                     kept := if o.status.Discard? then w.history.kept else w.history.kept + multiset{s}))
  }

  ghost function Apply(style: Style, w: World, e: Event): World
    requires Enabled(w, e)
  {
    match e
    case PickOne(i) =>
      w.(picker := AfterOne(w.picker, i),
        history := w.history.(picks := w.history.picks + multiset{AccountAt(w.picker, i)}))
    case Pay(i, j, reverse, amount) => DoPay(w, i, j, reverse, amount)
    case Add(account) =>
      w.(accounts := w.accounts + [account],
         history := w.history.(added := w.history.added + account.balance,
           first := w.history.first + [account.sequence]))
    case Reset =>
      w.(picker := NewPicker(style, |w.accounts|), history := w.history.(picks := multiset{}, since := |w.accounts|))
  }

  ghost predicate Reaches(style: Style, w: World, es: seq<Event>, w': World)
    decreases |es|
  {
    if es == [] then w' == w else Enabled(w, es[0]) && Reaches(style, Apply(style, w, es[0]), es[1..], w')
  }

  ghost function Total(accounts: seq<Account>): nat {
    if accounts == [] then 0 else Total(accounts[..|accounts| - 1]) + accounts[|accounts| - 1].balance
  }

  lemma {:induction false} TotalSet(accounts: seq<Account>, a: nat, x: Account)
    requires a < |accounts|
    ensures Total(accounts[a := x]) == Total(accounts) - accounts[a].balance + x.balance
  {
    var last := |accounts| - 1;
    if a == last {
      assert accounts[a := x][..last] == accounts[..last];
    } else {
      TotalSet(accounts[..last], a, x);
      assert accounts[a := x][..last] == accounts[..last][a := x];
    }
  }

  /** Every account is picked as often as its count went down since the last reset. */
  ghost predicate Counted(style: Style, w: World) {
    match style
    case Free => w.picker == Unlimited(w.history.since)
    case AtMost(limit) =>
      w.picker.Limited? &&
      forall a: nat :: w.history.picks[a] + Left(w.picker.remaining, a) == if a < w.history.since then limit else 0
  }

  ghost predicate Sequenced(w: World) {
    |w.history.first| == |w.accounts|
    && forall a :: 0 <= a < |w.accounts| ==> w.accounts[a].sequence == w.history.first[a] + w.history.kept[a]
  }

  ghost predicate Inv(style: Style, funds: nat, w: World) {
    && PickerOk(w.picker, |w.accounts|) && Counted(style, w) && Sequenced(w)
    && (forall a :: a in w.history.kept ==> a < |w.accounts|)
    && Total(w.accounts) + w.history.charged * GAS_PRICE == funds + w.history.added
  }

  lemma CountedOne(style: Style, w: World, w': World, i: nat)
    requires Counted(style, w) && CanTake(w.picker, i) && w'.picker == AfterOne(w.picker, i)
    requires w'.history.since == w.history.since
    requires w'.history.picks == w.history.picks + multiset{AccountAt(w.picker, i)}
    ensures Counted(style, w')
  {
    if style.AtMost? {
      forall a: nat
        ensures w'.history.picks[a] + Left(w'.picker.remaining, a) == if a < w.history.since then style.limit else 0
      {
        TakenLeft(w.picker.remaining, i, a);
        assert w.history.picks[a] + Left(w.picker.remaining, a) == if a < w.history.since then style.limit else 0;
      }
    }
  }

  lemma PayCounted(style: Style, w: World, i: nat, j: nat, reverse: bool, amount: nat)
    requires Counted(style, w) && PickerOk(w.picker, |w.accounts|) && CanPay(w, i, j, reverse, amount)
    ensures Counted(style, DoPay(w, i, j, reverse, amount))
  {
    var w' := DoPay(w, i, j, reverse, amount);
    var low, high := AccountAt(w.picker, i), AccountAt(w.picker, j);
    PairOk(w.picker, |w.accounts|, i, j);
    var mid := w.(picker := AfterOne(w.picker, j), history := w.history.(picks := w.history.picks + multiset{high}));
    CountedOne(style, w, mid, j);
    assert multiset{low, high} == multiset{high, low};
    assert w'.history.picks == mid.history.picks + multiset{low};
    CountedOne(style, mid, w', i);
  }

  lemma PayTotal(w: World, i: nat, j: nat, reverse: bool, amount: nat)
    requires CanPay(w, i, j, reverse, amount)
    ensures var w' := DoPay(w, i, j, reverse, amount);
      Total(w'.accounts) + (w'.history.charged - w.history.charged) * GAS_PRICE == Total(w.accounts)
  {
    var s, r := Sender(w.picker, i, j, reverse), Sender(w.picker, i, j, !reverse);
    var o := Transfer(w.accounts[s], w.accounts[r], amount);
    TotalSet(w.accounts, s, o.sender);
    TotalSet(w.accounts[s := o.sender], r, o.receiver);
  }

  lemma PaySequenced(w: World, i: nat, j: nat, reverse: bool, amount: nat)
    requires CanPay(w, i, j, reverse, amount) && Sequenced(w)
    ensures Sequenced(DoPay(w, i, j, reverse, amount))
  {
  }

  lemma PickStep(style: Style, funds: nat, w: World, i: nat)
    requires Inv(style, funds, w) && Enabled(w, PickOne(i))
    ensures Inv(style, funds, Apply(style, w, PickOne(i)))
  {
    TakenOk(w.picker, |w.accounts|, i);
    CountedOne(style, w, Apply(style, w, PickOne(i)), i);
  }

  lemma PayStep(style: Style, funds: nat, w: World, i: nat, j: nat, reverse: bool, amount: nat)
    requires Inv(style, funds, w) && CanPay(w, i, j, reverse, amount)
    ensures Inv(style, funds, DoPay(w, i, j, reverse, amount))
  {
    PairOk(w.picker, |w.accounts|, i, j);
    PayCounted(style, w, i, j, reverse, amount);
    PayTotal(w, i, j, reverse, amount);
    PaySequenced(w, i, j, reverse, amount);
  }

  lemma AddStep(style: Style, funds: nat, w: World, account: Account)
    requires Inv(style, funds, w)
    ensures Inv(style, funds, Apply(style, w, Add(account)))
  {
    var grown := w.accounts + [account];
    assert grown[..|grown| - 1] == w.accounts;
    assert Total(grown) == Total(w.accounts) + account.balance;
  }

  lemma Step(style: Style, funds: nat, w: World, e: Event)
    requires style != AtMost(0) && Inv(style, funds, w) && Enabled(w, e)
    ensures Inv(style, funds, Apply(style, w, e))
  {
    match e
    case PickOne(i) => PickStep(style, funds, w, i);
    case Pay(i, j, reverse, amount) => PayStep(style, funds, w, i, j, reverse, amount);
    case Add(account) => AddStep(style, funds, w, account);
    case Reset => ResetCounted(style, Apply(style, w, e));
  }

  lemma ResetCounted(style: Style, w: World)
    requires w.picker == NewPicker(style, |w.accounts|) && w.history.picks == multiset{}
    requires w.history.since == |w.accounts|
    ensures Counted(style, w)
  {
    if style.AtMost? {
      forall a: nat ensures Left(w.picker.remaining, a) == if a < w.history.since then style.limit else 0 {
        NewLeft(style.limit, |w.accounts|, a);
      }
    }
  }

  lemma {:induction false} Steps(style: Style, funds: nat, w: World, es: seq<Event>, w': World)
    requires style != AtMost(0) && Inv(style, funds, w) && Reaches(style, w, es, w')
    ensures Inv(style, funds, w')
    decreases |es|
  {
    if es != [] {
      Step(style, funds, w, es[0]);
      Steps(style, funds, Apply(style, w, es[0]), es[1..], w');
    }
  }

  lemma RunInv(style: Style, accounts: seq<Account>, es: seq<Event>, w: World)
    requires style != AtMost(0) && Reaches(style, Start(style, accounts), es, w)
    ensures Inv(style, Total(accounts), w)
  {
    ResetCounted(style, Start(style, accounts));
    Steps(style, Total(accounts), Start(style, accounts), es, w);
  }

  /** Over every run no account is picked more than `limit` times between resets, and an account is out
      of consideration exactly when it has been picked that often. */
  lemma PickedAtMost(limit: nat, accounts: seq<Account>, es: seq<Event>, w: World, a: nat)
    requires limit >= 1 && Reaches(AtMost(limit), Start(AtMost(limit), accounts), es, w)
    ensures w.history.picks[a] <= limit && w.picker.Limited?
    ensures a < w.history.since ==> (w.history.picks[a] == limit <==> Left(w.picker.remaining, a) == 0)
  {
    RunInv(AtMost(limit), accounts, es, w);
  }

  /** With a limit of zero no pick ever succeeds: the only events of any run add accounts or reset. */
  lemma {:induction false} ZeroLimit(w: World, es: seq<Event>, w': World)
    requires w.picker.Limited? && (forall i :: 0 <= i < |w.picker.remaining| ==> w.picker.remaining[i].times == 0)
    requires Reaches(AtMost(0), w, es, w')
    ensures w'.picker.Limited? && forall i: nat :: !CanTake(w'.picker, i)
    decreases |es|
  {
    if es != [] {
      assert es[0].Add? || es[0].Reset?;
      ZeroLimit(Apply(AtMost(0), w, es[0]), es[1..], w');
    }
  }

  /** Exactly: over all runs of a universe with accounts, every pick at a valid position succeeds if and
      only if the limit is not zero. */
  lemma PicksExactly(limit: nat, accounts: seq<Account>)
    requires |accounts| > 0
    ensures AllPicksSucceed(limit, accounts) <==> limit >= 1
  {
    var start := Start(AtMost(limit), accounts);
    if limit >= 1 {
      forall es, w, i: nat | Reaches(AtMost(limit), start, es, w) && i < Size(w.picker) ensures CanTake(w.picker, i) {
        RunInv(AtMost(limit), accounts, es, w);
        TakenOk(w.picker, |w.accounts|, i);
      }
    } else {
      ZeroLimit(start, [], start);
      assert Reaches(AtMost(limit), start, [], start) && 0 < Size(start.picker) && !CanTake(start.picker, 0);
    }
  }

  ghost predicate AllPicksSucceed(limit: nat, accounts: seq<Account>) {
    forall es, w, i: nat :: Reaches(AtMost(limit), Start(AtMost(limit), accounts), es, w) && i < Size(w.picker) ==>
      CanTake(w.picker, i)
  }

  /** In every reachable state every pair of positions gives two different existing accounts, neither
      pick panics, and the lower account sends unless the pair is reversed. */
  lemma PairsDistinct(style: Style, accounts: seq<Account>, es: seq<Event>, w: World, i: nat, j: nat)
    requires style != AtMost(0) && Reaches(style, Start(style, accounts), es, w) && i < j < Size(w.picker)
    ensures CanTake(w.picker, j) && CanTake(AfterOne(w.picker, j), i)
    ensures AccountAt(w.picker, i) < AccountAt(w.picker, j) < |w.accounts|
    ensures Sender(w.picker, i, j, false) < Sender(w.picker, i, j, true)
    ensures style.Free? ==>
      AccountAt(w.picker, i) == i && AccountAt(w.picker, j) == j && Size(w.picker) == w.history.since
  {
    RunInv(style, accounts, es, w);
    PairOk(w.picker, |w.accounts|, i, j);
  }

  /** Any run of transfers changes the total balance by exactly the gas charged, and a sequence number
      by exactly the sender's kept transactions. */
  lemma TransfersConserve(style: Style, accounts: seq<Account>, es: seq<Event>, w: World, a: nat)
    requires style != AtMost(0) && Reaches(style, Start(style, accounts), es, w) && a < |w.accounts|
    ensures Total(w.accounts) + w.history.charged * GAS_PRICE == Total(accounts) + w.history.added
    ensures |w.history.first| == |w.accounts| && w.accounts[a].sequence == w.history.first[a] + w.history.kept[a]
  {
    RunInv(style, accounts, es, w);
  }

  /** What the transfers of a run cost together. */
  ghost function Costs(style: Style, w: World, es: seq<Event>): nat
    decreases |es|
  {
    if es == [] || !Enabled(w, es[0]) then 0
    else
      Costs(style, Apply(style, w, es[0]), es[1..])
      + if es[0].Pay?
        then CostOf(w.accounts[Sender(w.picker, es[0].i, es[0].j, es[0].reverse)], es[0].amount)
        else 0
  }

  lemma {:induction false} ChargedSteps(style: Style, w: World, es: seq<Event>, w': World)
    requires Reaches(style, w, es, w')
    ensures w'.history.charged == w.history.charged + Costs(style, w, es)
    decreases |es|
  {
    if es != [] { ChargedSteps(style, Apply(style, w, es[0]), es[1..], w'); }
  }

  /** Over any run the total balance goes down by exactly what its transfers cost, at 100 a unit. */
  lemma CostsExactly(style: Style, accounts: seq<Account>, es: seq<Event>, w: World)
    requires style != AtMost(0) && Reaches(style, Start(style, accounts), es, w)
    ensures Total(w.accounts) + Costs(style, Start(style, accounts), es) * 100 == Total(accounts) + w.history.added
  {
    RunInv(style, accounts, es, w);
    ChargedSteps(style, Start(style, accounts), es, w);
  }

  lemma {:induction false} TotalPair(accounts: seq<Account>, a: nat, b: nat)
    requires a < |accounts| && b < |accounts| && a != b
    ensures accounts[a].balance + accounts[b].balance <= Total(accounts)
  {
    var last := |accounts| - 1;
    if a == last { TotalOne(accounts[..last], b); }
    else if b == last { TotalOne(accounts[..last], a); }
    else { TotalPair(accounts[..last], a, b); }
  }

  lemma {:induction false} TotalOne(accounts: seq<Account>, a: nat)
    requires a < |accounts|
    ensures accounts[a].balance <= Total(accounts)
  {
    if a < |accounts| - 1 { TotalOne(accounts[..|accounts| - 1], a); }
  }

  /** Everything a transfer needs but room in the receiver's balance: the sum of amount and fee, the
      cost of a failure and the counts that would grow all fit. */
  ghost predicate Payable(s: Account, r: Account, amount: nat) {
    && amount + Fee(s) < U64
    && (s.balance >= Fee(s) ==>
          && s.sequence + 1 < U64
          && (s.balance < amount ==> s.tooLow * GAS_PRICE <= s.balance)
          && (s.balance >= amount + Fee(s) ==> s.sent + 1 < U64 && r.received + 1 < U64))
  }

  /** When all funds ever brought in fit in a u64, a transfer in a reachable state never panics because
      of the receiver's balance: it goes through exactly if it is payable. */
  lemma PanicsExactly(
    style: Style, accounts: seq<Account>, es: seq<Event>, w: World, i: nat, j: nat, reverse: bool, amount: nat)
    requires style != AtMost(0) && Reaches(style, Start(style, accounts), es, w) && i < j < Size(w.picker)
    requires Total(accounts) + w.history.added < U64
    ensures var s, r := Sender(w.picker, i, j, reverse), Sender(w.picker, i, j, !reverse);
      && s < |w.accounts| && r < |w.accounts|
      && (Enabled(w, Pay(i, j, reverse, amount)) <==> Payable(w.accounts[s], w.accounts[r], amount))
  {
    RunInv(style, accounts, es, w);
    PairOk(w.picker, |w.accounts|, i, j);
    TotalPair(w.accounts, Sender(w.picker, i, j, reverse), Sender(w.picker, i, j, !reverse));
  }

  /* ---- The universe as an object ---- */

  class Universe {
    const style: Style
    const ignoreNewAccounts: bool
    var accounts: seq<Account>
    var picker: Picker

    constructor (accounts: seq<Account>, style: Style, ignoreNewAccounts: bool)
      ensures this.accounts == accounts && this.style == style && this.ignoreNewAccounts == ignoreNewAccounts
      ensures picker == NewPicker(style, |accounts|)
    {
      this.accounts, this.style, this.ignoreNewAccounts := accounts, style, ignoreNewAccounts;
      this.picker := NewPicker(style, |accounts|);
    }

    method AddAccount(account: Account)
      modifies this`accounts
      ensures accounts == if ignoreNewAccounts then old(accounts) else old(accounts) + [account]
    {
      if !ignoreNewAccounts {
        accounts := accounts + [account];
      }
    }

    method ResetPicker()
      modifies this`picker
      ensures picker == NewPicker(style, |accounts|)
    {
      picker := NewPicker(style, |accounts|);
    }

    /** One pick at a position below the picker's size; `None` is a panic. */
    method Pick(i: nat) returns (account: Option<nat>)
      requires i < Size(picker)
      modifies this`picker
      ensures account.Some? <==> CanTake(old(picker), i)
      ensures account.Some? ==> account.value == AccountAt(old(picker), i) && picker == AfterOne(old(picker), i)
    {
      match picker
      case Unlimited(_) => account := Some(i);
      case Limited(remaining) =>
        if remaining[i].times == 0 {
          return None;
        }
        account := Some(remaining[i].account);
        var times := remaining[i].times - 1;
        if times == 0 {
          picker := Limited(remaining[..i] + remaining[i + 1..]);
        } else {
          picker := Limited(remaining[i := Entry(remaining[i].account, times)]);
        }
    }

    /** `P2PTransferGen::apply` on two different accounts; `None` is a panic. */
    method TransferBetween(s: nat, r: nat, amount: nat) returns (status: Option<(Status, nat)>)
      requires s < |accounts| && r < |accounts| && s != r
      modifies this`accounts
      ensures status.Some? ==>
        var sender, receiver, gas := old(accounts[s]), old(accounts[r]), status.value.1;
        && gas == CostOf(sender, amount) && |accounts| == |old(accounts)|
        && (status.value.0.Success? <==> sender.balance >= amount + sender.normal * 100)
        && (status.value.0.Discard? <==> sender.balance < sender.normal * 100)
        && accounts[r].balance == receiver.balance + (if status.value.0.Success? then amount else 0)
        && accounts[s].balance == sender.balance - gas * 100 - (if status.value.0.Success? then amount else 0)
        && accounts[s].sequence == sender.sequence + (if status.value.0.Discard? then 0 else 1)
      ensures var o := Transfer(old(accounts[s]), old(accounts[r]), amount);
        match o
        case Panic => status.None? && accounts == old(accounts)
        case Done(sender, receiver, st, gas) =>
          status == Some((st, gas)) && accounts == old(accounts)[s := sender][r := receiver]
    {
      var sender, receiver := accounts[s], accounts[r];
      if amount + Fee(sender) >= U64 {
        return None;
      }
      var enoughToTransfer := sender.balance >= amount;
      var toDeduct := amount + Fee(sender);
      var enoughMaxGas := sender.balance >= Fee(sender);
      var enoughToSucceed := sender.balance >= toDeduct;
      if !enoughMaxGas {
        return Some((Discard, 0));
      }
      if sender.sequence + 1 >= U64 {
        return None;
      }
      if enoughToTransfer && enoughToSucceed {
        if sender.sent + 1 >= U64 || receiver.balance + amount >= U64 || receiver.received + 1 >= U64 {
          return None;
        }
        sender := sender.(sequence := sender.sequence + 1, sent := sender.sent + 1,
          balance := sender.balance - toDeduct);
        receiver := receiver.(balance := receiver.balance + amount, received := receiver.received + 1);
        status := Some((Success, sender.normal));
      } else {
        var gas := if enoughToTransfer then sender.normal else sender.tooLow;
        if gas * GAS_PRICE > sender.balance {
          return None;
        }
        sender := sender.(sequence := sender.sequence + 1, balance := sender.balance - gas * GAS_PRICE);
        status := Some((MoveAbort, gas));
      }
      accounts := accounts[s := sender][r := receiver];
    }

    /** `AccountPairGen::pick` then `P2PTransferGen::apply`: in a consistent universe the picks do not
        panic, and the state becomes the one the run semantics gives. */
    method PayPair(i: nat, j: nat, reverse: bool, amount: nat, ghost history: History)
        returns (status: Option<(Status, nat)>)
      requires PickerOk(picker, |accounts|) && i < j < Size(picker)
      modifies this
      ensures status.Some? <==> CanPay(World(old(accounts), old(picker), history), i, j, reverse, amount)
      ensures status.Some? ==>
        var w := DoPay(World(old(accounts), old(picker), history), i, j, reverse, amount);
        accounts == w.accounts && picker == w.picker && w.history.charged == history.charged + status.value.1
      ensures status.None? ==> accounts == old(accounts)
    {
      PairOk(picker, |accounts|, i, j);
      var high := Pick(j);
      var low := Pick(i);
      var s, r := if reverse then high.value else low.value, if reverse then low.value else high.value;
      status := TransferBetween(s, r, amount);
    }
  }
}
