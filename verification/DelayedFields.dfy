/** Applying a transaction's delayed field changes in sequential execution: changes on previous
    values first, changes on this transaction's own new values second, all writes at the end. */
module DelayedFields {
  import opened Common

  /** The value a change is applied to: the one before the transaction, or this transaction's own. */
  datatype Base = Previous(id: nat) | Current(id: nat)

  /** A new field, or an application to a base, which may fail (a bound is exceeded, say). */
  datatype Change = Create(value: int) | Apply(base: Base, onto: int -> Option<int>)

  function ApplyTo(c: Change, v: int): Option<int>
    requires c.Apply?
  {
    c.onto(v)
  }

  predicate Late(c: Change) {
    c.Apply? && c.base.Current?
  }

  /** The first phase on one change. `None` stands for a panic: a duplicate creation, a missing base
      or a failed application. */
  function First(before: map<nat, int>, changes: map<nat, Change>, id: nat): Option<int>
    requires id in changes && !Late(changes[id])
  {
    match changes[id]
    case Create(v) => if id in before then None else Some(v)
    case Apply(base, _) => if base.id in before then ApplyTo(changes[id], before[base.id]) else None
  }

  /** The second phase on one change, given the updates so far. */
  function Second(before: map<nat, int>, updates: map<nat, int>, changes: map<nat, Change>, id: nat): Option<int>
    requires id in changes && Late(changes[id])
  {
    var b := changes[id].base.id;
    if b in updates then ApplyTo(changes[id], updates[b])
    else if b in before then ApplyTo(changes[id], before[b])
    else None
  }

  function LateOf(changes: map<nat, Change>, order: seq<nat>): (ids: seq<nat>)
    requires forall id :: id in order ==> id in changes
    ensures forall id :: id in ids <==> id in order && Late(changes[id])
  {
    if order == [] then []
    else
      var rest := LateOf(changes, order[..|order| - 1]);
      if Late(changes[order[|order| - 1]]) then rest + [order[|order| - 1]] else rest
  }

  function PhaseOne(before: map<nat, int>, changes: map<nat, Change>, order: seq<nat>): Option<map<nat, int>>
    requires forall id :: id in order ==> id in changes
  {
    if order == [] then Some(map[])
    else
      var id := order[|order| - 1];
      match PhaseOne(before, changes, order[..|order| - 1])
      case None => None
      case Some(updates) =>
        if Late(changes[id]) then Some(updates)
        else match First(before, changes, id) case None => None case Some(v) => Some(updates[id := v])
  }

  function PhaseTwo(before: map<nat, int>, updates: map<nat, int>, changes: map<nat, Change>,
      ids: seq<nat>): Option<map<nat, int>>
    requires forall id :: id in ids ==> id in changes && Late(changes[id])
  {
    if ids == [] then Some(updates)
    else
      var id := ids[|ids| - 1];
      match PhaseTwo(before, updates, changes, ids[..|ids| - 1])
      case None => None
      case Some(updates') =>
        match Second(before, updates', changes, id) case None => None case Some(v) => Some(updates'[id := v])
  }

  /** The updates computed when the change set is iterated in the given order. */
  function TwoPhase(before: map<nat, int>, changes: map<nat, Change>, order: seq<nat>): Option<map<nat, int>>
    requires forall id :: id in order ==> id in changes
  {
    match PhaseOne(before, changes, order)
    case None => None
    case Some(updates) => PhaseTwo(before, updates, changes, LateOf(changes, order))
  }

  /** No change on a current value is based on another such change. */
  ghost predicate NoChain(changes: map<nat, Change>) {
    forall id :: id in changes && Late(changes[id]) && changes[id].base.id in changes ==>
      !Late(changes[changes[id].base.id])
  }

  /** The declared new value: `Previous` reads the value before the transaction; `Current` reads
      this transaction's new value if it is made in the first phase, else the value before. */
  ghost function Declared(before: map<nat, int>, changes: map<nat, Change>, id: nat): Option<int>
    requires id in changes
  {
    if !Late(changes[id]) then First(before, changes, id)
    else
      var b := changes[id].base.id;
      if b in changes && !Late(changes[b]) then
        match First(before, changes, b) case None => None case Some(v) => ApplyTo(changes[id], v)
      else if b in before then ApplyTo(changes[id], before[b])
      else None
  }

  ghost function Declarative(before: map<nat, int>, changes: map<nat, Change>): Option<map<nat, int>> {
    if forall id :: id in changes ==> Declared(before, changes, id).Some?
    then Some(map id | id in changes :: Declared(before, changes, id).value)
    else None
  }

  /** Change `z` is based on another change of the second phase. */
  ghost predicate Linked(changes: map<nat, Change>, z: nat) {
    && z in changes && Late(changes[z])
    && changes[z].base.id != z && changes[z].base.id in changes && Late(changes[changes[z].base.id])
  }

  /** No linked change makes a difference between the old and the new value of its base. */
  ghost predicate Indifferent(before: map<nat, int>, changes: map<nat, Change>) {
    forall z :: Linked(changes, z) && Declared(before, changes, changes[z].base.id).Some? ==>
      ApplyTo(changes[z], Declared(before, changes, changes[z].base.id).value) == Declared(before, changes, z)
  }

  lemma NoChainIndifferent(before: map<nat, int>, changes: map<nat, Change>)
    requires NoChain(changes)
    ensures Indifferent(before, changes)
  {
  }

  /** An iteration order of the change set: every change once. */
  ghost predicate Enumerates(order: seq<nat>, changes: map<nat, Change>) {
    (forall id :: id in order <==> id in changes) && Once(order)
  }

  ghost predicate Once(ids: seq<nat>) {
    forall i, j :: 0 <= i < j < |ids| ==> ids[i] != ids[j]
  }

  lemma {:induction false} PhaseOneDeclared(before: map<nat, int>, changes: map<nat, Change>, order: seq<nat>)
    requires forall id :: id in order ==> id in changes
    ensures var r := PhaseOne(before, changes, order);
      && (r.None? <==> exists id :: id in order && !Late(changes[id]) && First(before, changes, id).None?)
      && (r.Some? ==>
            && (forall id :: id in r.value <==> id in order && !Late(changes[id]))
            && (forall id :: id in r.value ==> Some(r.value[id]) == First(before, changes, id)))
  {
    if order != [] {
      var id, rest := order[|order| - 1], order[..|order| - 1];
      assert order == rest + [id];
      PhaseOneDeclared(before, changes, rest);
    }
  }

  /** `updates` holds exactly the changes of the first phase. */
  ghost predicate FirstDone(before: map<nat, int>, changes: map<nat, Change>, updates: map<nat, int>) {
    && (forall id :: id in updates <==> id in changes && !Late(changes[id]))
    && (forall id :: id in updates ==> Some(updates[id]) == First(before, changes, id))
  }

  /** The listed late changes, beside those of the first phase, have their declared values. */
  ghost predicate AsDeclared(before: map<nat, int>, changes: map<nat, Change>, ids: seq<nat>, r: Option<map<nat, int>>)
    requires forall id :: id in ids ==> id in changes
  {
    && (r.None? <==> exists id :: id in ids && Declared(before, changes, id).None?)
    && (r.Some? ==>
          && (forall id :: id in r.value <==> (id in changes && !Late(changes[id])) || id in ids)
          && (forall id :: id in r.value ==> Some(r.value[id]) == Declared(before, changes, id)))
  }

  /** Once phase one holds every early change, each late one gets its declared value. */
  lemma {:induction false} PhaseTwoDeclared(before: map<nat, int>, updates: map<nat, int>, changes: map<nat, Change>,
      ids: seq<nat>)
    requires Indifferent(before, changes) && FirstDone(before, changes, updates) && Once(ids)
    requires forall id :: id in ids ==> id in changes && Late(changes[id])
    ensures AsDeclared(before, changes, ids, PhaseTwo(before, updates, changes, ids))
  {
    if ids != [] {
      var id, rest := ids[|ids| - 1], ids[..|ids| - 1];
      assert ids == rest + [id];
      PhaseTwoDeclared(before, updates, changes, rest);
      var r := PhaseTwo(before, updates, changes, rest);
      if r.Some? { SecondDeclared(before, r.value, changes, rest, id); }
    }
  }

  lemma SecondDeclared(before: map<nat, int>, updates: map<nat, int>, changes: map<nat, Change>, rest: seq<nat>,
      id: nat)
    requires Indifferent(before, changes) && id in changes && Late(changes[id]) && id !in rest
    requires forall x :: x in rest ==> x in changes && Late(changes[x])
    requires AsDeclared(before, changes, rest, Some(updates))
    ensures Second(before, updates, changes, id) == Declared(before, changes, id)
  {
    var b := changes[id].base.id;
    if b in rest { assert Linked(changes, id); }
  }

  lemma {:induction false} LateOnce(changes: map<nat, Change>, order: seq<nat>)
    requires (forall id :: id in order ==> id in changes) && Once(order)
    ensures Once(LateOf(changes, order))
  {
    if order != [] {
      var id, rest := order[|order| - 1], order[..|order| - 1];
      LateOnce(changes, rest);
      assert id !in rest;
    }
  }

  /** Every iteration order computes the declared result if no link makes a difference. */
  lemma IndifferentOrder(before: map<nat, int>, changes: map<nat, Change>, order: seq<nat>)
    requires Indifferent(before, changes) && Enumerates(order, changes)
    ensures TwoPhase(before, changes, order) == Declarative(before, changes)
  {
    PhaseOneDeclared(before, changes, order);
    var r := PhaseOne(before, changes, order);
    if r.Some? {
      LateOnce(changes, order);
      BothPhases(before, changes, order, r.value);
    } else {
      var id :| id in order && !Late(changes[id]) && First(before, changes, id).None?;
      assert Declared(before, changes, id).None?;
    }
  }

  lemma BothPhases(before: map<nat, int>, changes: map<nat, Change>, order: seq<nat>, updates: map<nat, int>)
    requires Indifferent(before, changes) && Enumerates(order, changes) && FirstDone(before, changes, updates)
    requires Once(LateOf(changes, order))
    ensures PhaseTwo(before, updates, changes, LateOf(changes, order)) == Declarative(before, changes)
  {
    var ids := LateOf(changes, order);
    PhaseTwoDeclared(before, updates, changes, ids);
    WholeDeclared(before, changes, ids, updates, PhaseTwo(before, updates, changes, ids));
  }

  lemma WholeDeclared(before: map<nat, int>, changes: map<nat, Change>, ids: seq<nat>, updates: map<nat, int>,
      r: Option<map<nat, int>>)
    requires (forall id :: id in ids <==> id in changes && Late(changes[id])) && FirstDone(before, changes, updates)
    requires AsDeclared(before, changes, ids, r)
    ensures r == Declarative(before, changes)
  {
    if r.Some? {
      forall id | id in changes ensures id in r.value && Some(r.value[id]) == Declared(before, changes, id) {
        assert id in updates || id in ids;
      }
      assert r.value == map id | id in changes :: Declared(before, changes, id).value;
    }
  }

  /** Without chains, every iteration order of the change set computes the declared result. */
  lemma OrderIndependent(before: map<nat, int>, changes: map<nat, Change>, order: seq<nat>)
    requires NoChain(changes) && Enumerates(order, changes)
    ensures TwoPhase(before, changes, order) == Declarative(before, changes)
  {
    NoChainIndifferent(before, changes);
    IndifferentOrder(before, changes, order);
  }

  /* ---- Exactly when the order does not matter ---- */

  /** What the second phase has set stays, and a failure stays a failure. */
  lemma {:induction false} PhaseTwoKeeps(before: map<nat, int>, updates: map<nat, int>, changes: map<nat, Change>,
      ids: seq<nat>, n: nat, z: nat)
    requires n <= |ids| && (forall id :: id in ids ==> id in changes && Late(changes[id])) && z !in ids[n..]
    ensures var p, r := PhaseTwo(before, updates, changes, ids[..n]), PhaseTwo(before, updates, changes, ids);
      r.Some? ==> p.Some? && (z in p.value ==> z in r.value && r.value[z] == p.value[z])
    decreases |ids|
  {
    if n == |ids| {
      assert ids[..n] == ids;
    } else {
      var last := |ids| - 1;
      assert ids[..last][..n] == ids[..n] && ids[..last][n..] == ids[n..last];
      assert z != ids[last] by { assert ids[last] == ids[n..][last - n]; }
      assert z !in ids[n..last] by { assert ids[n..last] == ids[n..][..last - n]; }
      PhaseTwoKeeps(before, updates, changes, ids[..last], n, z);
    }
  }

  /** An order without `y` and `z`. */
  ghost function Rest(order: seq<nat>, y: nat, z: nat): (r: seq<nat>)
    ensures forall id :: id in r <==> id in order && id != y && id != z
    ensures Once(order) ==> Once(r)
  {
    if order == [] then []
    else
      var id := order[|order| - 1];
      assert order == order[..|order| - 1] + [id];
      assert Once(order) ==> id !in order[..|order| - 1];
      Rest(order[..|order| - 1], y, z) + if id == y || id == z then [] else [id]
  }

  lemma {:induction false} LateSplit(changes: map<nat, Change>, front: seq<nat>, back: seq<nat>)
    requires forall id :: id in front + back ==> id in changes
    ensures (forall id :: id in front ==> id in changes) && (forall id :: id in back ==> id in changes)
    ensures LateOf(changes, front + back) == LateOf(changes, front) + LateOf(changes, back)
    decreases |back|
  {
    assert forall id :: id in front || id in back ==> id in front + back;
    if back == [] {
      assert front + back == front;
    } else {
      var last := |back| - 1;
      assert (front + back)[..|front + back| - 1] == front + back[..last];
      LateSplit(changes, front, back[..last]);
    }
  }

  /** With its base iterated first and itself second, a linked change sees the base's new value. */
  lemma BaseFirst(before: map<nat, int>, changes: map<nat, Change>, updates: map<nat, int>, y: nat, z: nat)
    requires FirstDone(before, changes, updates) && Linked(changes, z) && y == changes[z].base.id
    requires Declared(before, changes, y).Some?
    ensures PhaseTwo(before, updates, changes, [y, z]) ==
      match ApplyTo(changes[z], Declared(before, changes, y).value)
      case None => None
      case Some(v) => Some(updates[y := Declared(before, changes, y).value][z := v])
  {
    var two, one := [y, z], [y];
    assert two[..1] == one && one[..0] == [];
    assert Second(before, updates, changes, y) == Declared(before, changes, y);
    assert PhaseTwo(before, updates, changes, []) == Some(updates);
    assert PhaseTwo(before, updates, changes, one) == Some(updates[y := Declared(before, changes, y).value]);
  }

  lemma PairFirst(changes: map<nat, Change>, top: seq<nat>, y: nat, z: nat)
    requires Enumerates(top, changes) && y in changes && z in changes && y != z
    ensures Enumerates([y, z] + Rest(top, y, z), changes)
  {
    var rest := Rest(top, y, z);
    var order := [y, z] + rest;
    forall id ensures id in order <==> id in changes {
      assert id in order <==> id == y || id == z || id in rest;
    }
    forall i, j | 0 <= i < j < |order| ensures order[i] != order[j] {
      assert j >= 2 ==> order[j] == rest[j - 2] && rest[j - 2] in rest;
      assert i >= 2 ==> order[i] == rest[i - 2];
    }
  }

  /** After both came first, the linked change keeps what it saw. */
  lemma PairStays(before: map<nat, int>, changes: map<nat, Change>, updates: map<nat, int>, ids: seq<nat>, y: nat,
      z: nat)
    requires FirstDone(before, changes, updates) && Linked(changes, z) && y == changes[z].base.id
    requires Declared(before, changes, y).Some? && |ids| >= 2 && ids[..2] == [y, z] && z !in ids[2..]
    requires forall id :: id in ids ==> id in changes && Late(changes[id])
    ensures var r := PhaseTwo(before, updates, changes, ids);
      r.Some? ==> z in r.value && Some(r.value[z]) == ApplyTo(changes[z], Declared(before, changes, y).value)
  {
    BaseFirst(before, changes, updates, y, z);
    PhaseTwoKeeps(before, updates, changes, ids, 2, z);
  }

  /** With base and linked change iterated first, in this order, the linked change ends with what it
      makes of the base's new value, if there is a result at all. */
  lemma NewShows(before: map<nat, int>, changes: map<nat, Change>, top: seq<nat>, z: nat) returns (order: seq<nat>)
    requires Enumerates(top, changes) && Linked(changes, z) && Declared(before, changes, changes[z].base.id).Some?
    ensures Enumerates(order, changes)
    ensures Ends(TwoPhase(before, changes, order), z,
                 ApplyTo(changes[z], Declared(before, changes, changes[z].base.id).value))
  {
    var y := changes[z].base.id;
    var rest := Rest(top, y, z);
    order := [y, z] + rest;
    PairFirst(changes, top, y, z);
    PhaseOneDeclared(before, changes, order);
    var r1 := PhaseOne(before, changes, order);
    if r1.Some? {
      LateSplit(changes, [y, z], rest);
      LatePair(changes, y, z);
      PairStays(before, changes, r1.value, LateOf(changes, order), y, z);
    }
  }

  /** If there is a result, it holds `v` at `z`. */
  ghost predicate Ends(r: Option<map<nat, int>>, z: nat, v: Option<int>) {
    r.Some? ==> z in r.value && Some(r.value[z]) == v
  }

  /** In the other order it ends with what it makes of the old value. */
  lemma OldShows(before: map<nat, int>, changes: map<nat, Change>, top: seq<nat>, z: nat) returns (order: seq<nat>)
    requires Enumerates(top, changes) && Linked(changes, z)
    ensures Enumerates(order, changes)
    ensures Ends(TwoPhase(before, changes, order), z, Declared(before, changes, z))
  {
    var y := changes[z].base.id;
    order := [z, y] + Rest(top, z, y);
    PairFirst(changes, top, z, y);
    PhaseOneDeclared(before, changes, order);
    var r1 := PhaseOne(before, changes, order);
    if r1.Some? {
      var tail := LateTail(changes, top, z, y);
      FirstStays(before, changes, r1.value, tail, z);
    }
  }

  lemma LateTail(changes: map<nat, Change>, top: seq<nat>, z: nat, y: nat) returns (tail: seq<nat>)
    requires Enumerates(top, changes) && z in changes && y in changes && z != y && Late(changes[z]) && Late(changes[y])
    ensures var order := [z, y] + Rest(top, z, y);
      (forall id :: id in order ==> id in changes) && LateOf(changes, order) == [z] + tail
    ensures z !in tail && forall id :: id in tail ==> id in changes && Late(changes[id])
  {
    PairFirst(changes, top, z, y);
    var order := [z, y] + Rest(top, z, y);
    var ids := LateOf(changes, order);
    LateOnce(changes, order);
    LateHead(changes, z, y, Rest(top, z, y));
    tail := ids[1..];
    assert ids == [z] + tail;
    forall id | id in tail ensures id in changes && Late(changes[id]) && id != z {
      assert id in ids;
    }
  }

  lemma LateHead(changes: map<nat, Change>, z: nat, y: nat, rest: seq<nat>)
    requires z in changes && y in changes && Late(changes[z]) && Late(changes[y])
    requires forall id :: id in [z, y] + rest ==> id in changes
    ensures var ids := LateOf(changes, [z, y] + rest); |ids| > 0 && ids[0] == z
  {
    LateSplit(changes, [z, y], rest);
    LatePair(changes, z, y);
  }

  lemma FirstStays(before: map<nat, int>, changes: map<nat, Change>, updates: map<nat, int>, tail: seq<nat>, z: nat)
    requires FirstDone(before, changes, updates) && Linked(changes, z) && z !in tail
    requires forall id :: id in tail ==> id in changes && Late(changes[id])
    ensures forall id :: id in [z] + tail ==> id in changes && Late(changes[id])
    ensures Ends(PhaseTwo(before, updates, changes, [z] + tail), z, Declared(before, changes, z))
  {
    var ids := [z] + tail;
    assert ids[..1] == [z] && ids[1..] == tail && [z][..0] == [];
    assert PhaseTwo(before, updates, changes, []) == Some(updates);
    assert Second(before, updates, changes, z) == Declared(before, changes, z);
    PhaseTwoKeeps(before, updates, changes, ids, 1, z);
  }

  lemma LatePair(changes: map<nat, Change>, y: nat, z: nat)
    requires y in changes && z in changes && Late(changes[y]) && Late(changes[z])
    ensures LateOf(changes, [y, z]) == [y, z]
  {
    assert [y, z][..1] == [y] && [y][..0] == [];
    assert LateOf(changes, [y]) == [y];
  }

  /** All iteration orders give the same. */
  ghost predicate OrdersAgree(before: map<nat, int>, changes: map<nat, Change>) {
    forall order, order' :: Enumerates(order, changes) && Enumerates(order', changes) ==>
      TwoPhase(before, changes, order) == TwoPhase(before, changes, order')
  }

  ghost predicate AllFail(before: map<nat, int>, changes: map<nat, Change>) {
    forall order :: Enumerates(order, changes) ==> TwoPhase(before, changes, order).None?
  }

  /** For any change set: the iteration order cannot show if and only if no linked change
      distinguishes the old and the new value of its base, or no order succeeds at all. */
  lemma OrderExactly(before: map<nat, int>, changes: map<nat, Change>, top: seq<nat>)
    requires Enumerates(top, changes)
    ensures OrdersAgree(before, changes) <==> Indifferent(before, changes) || AllFail(before, changes)
  {
    if Indifferent(before, changes) {
      forall order | Enumerates(order, changes)
        ensures TwoPhase(before, changes, order) == Declarative(before, changes)
      {
        IndifferentOrder(before, changes, order);
      }
    } else if OrdersAgree(before, changes) {
      LinkFails(before, changes, top);
    }
  }

  /** Where a linked change does distinguish them, agreement means failure. */
  lemma LinkFails(before: map<nat, int>, changes: map<nat, Change>, top: seq<nat>)
    requires Enumerates(top, changes) && OrdersAgree(before, changes) && !Indifferent(before, changes)
    ensures AllFail(before, changes)
  {
    var z :| Linked(changes, z) && Declared(before, changes, changes[z].base.id).Some?
      && ApplyTo(changes[z], Declared(before, changes, changes[z].base.id).value) != Declared(before, changes, z);
    var first := NewShows(before, changes, top, z);
    var second := OldShows(before, changes, top, z);
    assert TwoPhase(before, changes, first) == TwoPhase(before, changes, second);
    forall order | Enumerates(order, changes) ensures TwoPhase(before, changes, order).None? {
      assert TwoPhase(before, changes, order) == TwoPhase(before, changes, first);
    }
  }

  ghost predicate OrderBlind(before: map<nat, int>, changes: map<nat, Change>) {
    forall order :: Enumerates(order, changes) ==> TwoPhase(before, changes, order) == Declarative(before, changes)
  }

  /** If every change works on the old values: every order computes the declared result if and only if
      no linked change distinguishes the old and the new value of its base. */
  lemma DeclaredExactly(before: map<nat, int>, changes: map<nat, Change>, top: seq<nat>)
    requires Enumerates(top, changes) && Declarative(before, changes).Some?
    ensures OrderBlind(before, changes) <==> Indifferent(before, changes)
  {
    if Indifferent(before, changes) {
      forall order | Enumerates(order, changes)
        ensures TwoPhase(before, changes, order) == Declarative(before, changes)
      {
        IndifferentOrder(before, changes, order);
      }
    } else if OrdersAgree(before, changes) {
      LinkFails(before, changes, top);
    }
  }

  /** A chain makes the order visible: the dependent change sees the new value of its base if that
      one is iterated first, and the value before the transaction otherwise. The two orders agree
      exactly when the base fails anyway or the dependent change makes no difference between the two. */
  lemma ChainDependsOnOrder(before: map<nat, int>, changes: map<nat, Change>, y: nat, z: nat)
    requires y != z && changes.Keys == {y, z} && Late(changes[y]) && Late(changes[z])
    requires changes[z].base.id == y && changes[y].base.id != z
    ensures TwoPhase(before, changes, [y, z]) == TwoPhase(before, changes, [z, y]) <==>
      || Declared(before, changes, y).None?
      || ApplyTo(changes[z], Declared(before, changes, y).value) == Declared(before, changes, z)
  {
    var ny, nz := Declared(before, changes, y), Declared(before, changes, z);
    Pair(before, changes, y, z);
    Pair(before, changes, z, y);
    if ny.Some? {
      var seen := ApplyTo(changes[z], ny.value);
      assert Second(before, map[y := ny.value], changes, z) == seen;
      if seen.Some? && nz.Some? {
        var m1, m2 := map[y := ny.value][z := seen.value], map[z := nz.value][y := ny.value];
        assert m1[z] == seen.value && m2[z] == nz.value;
        assert seen == nz ==> m1 == m2;
      }
    } else if nz.Some? {
      assert Second(before, map[z := nz.value], changes, y).None?;
    }
  }

  /** The worst case: the base is a field that did not exist before. With the base first all is well;
      with the dependent change first its base is missing, and the run panics. */
  lemma NewBasePanics(before: map<nat, int>, changes: map<nat, Change>, y: nat, z: nat)
    requires y != z && changes.Keys == {y, z} && Late(changes[y]) && Late(changes[z])
    requires changes[z].base.id == y && changes[y].base.id != z && y !in before
    requires Declared(before, changes, y).Some?
    requires ApplyTo(changes[z], Declared(before, changes, y).value).Some?
    ensures TwoPhase(before, changes, [y, z]).Some? && TwoPhase(before, changes, [z, y]).None?
  {
    Pair(before, changes, y, z);
    Pair(before, changes, z, y);
  }

  lemma Pair(before: map<nat, int>, changes: map<nat, Change>, a: nat, c: nat)
    requires a in changes && c in changes && Late(changes[a]) && Late(changes[c])
    ensures TwoPhase(before, changes, [a, c]) ==
      match Second(before, map[], changes, a)
      case None => None
      case Some(v) =>
        match Second(before, map[a := v], changes, c) case None => None case Some(w) => Some(map[a := v][c := w])
  {
    var one, two := [a], [a, c];
    assert two[..1] == one && one[..0] == [];
    assert LateOf(changes, one) == one;
    assert LateOf(changes, two) == two;
    assert PhaseOne(before, changes, one) == Some(map[]);
    assert PhaseOne(before, changes, two) == Some(map[]);
    var e: map<nat, int> := map[];
    assert PhaseTwo(before, e, changes, []) == Some(e);
    var s := Second(before, e, changes, a);
    assert PhaseTwo(before, e, changes, one) == if s.None? then None else Some(e[a := s.value]);
    assert s.Some? ==> e[a := s.value] == map[a := s.value];
  }

  /* ---- What the two phases mean ---- */

  ghost predicate IsEarly(c: Change) {
    c.Create? || c.base.Previous?
  }

  /** `x` is iterated before `y`. */
  ghost predicate Before(order: seq<nat>, x: nat, y: nat) {
    exists i, j :: 0 <= i < j < |order| && order[i] == x && order[j] == y
  }

  /** The value a change on the current value of `b` sees: the new one if that is made in the first
      phase or iterated earlier, else the value before the transaction, if there is one. */
  ghost function Sees(
    before: map<nat, int>, changes: map<nat, Change>, order: seq<nat>, r: map<nat, int>, id: nat, b: nat): Option<int>
  {
    if b in changes && b in r && (IsEarly(changes[b]) || Before(order, b, id)) then Some(r[b])
    else if b in before then Some(before[b])
    else None
  }

  /** `r` holds what change `id` asks for: a creation is new and has its value, a change on a previous
      value is applied to the value before the transaction, one on a current value to what it sees. */
  ghost predicate Made(
    before: map<nat, int>, changes: map<nat, Change>, order: seq<nat>, r: map<nat, int>, id: nat)
    requires id in changes && id in r
  {
    match changes[id]
    case Create(v) => id !in before && r[id] == v
    case Apply(Previous(b), onto) => b in before && onto(before[b]) == Some(r[id])
    case Apply(Current(b), onto) =>
      var v := Sees(before, changes, order, r, id, b); v.Some? && onto(v.value) == Some(r[id])
  }

  ghost predicate Meaning(before: map<nat, int>, changes: map<nat, Change>, order: seq<nat>, r: map<nat, int>) {
    (forall id :: id in r <==> id in changes) && forall id :: id in changes ==> Made(before, changes, order, r, id)
  }

  /** The first phase cannot compute change `id`: it creates a field that exists, its base is missing,
      or it does not apply to the base. */
  ghost predicate FailsFirst(before: map<nat, int>, changes: map<nat, Change>, id: nat) {
    id in changes &&
    match changes[id]
    case Create(_) => id in before
    case Apply(Previous(b), onto) => b !in before || onto(before[b]).None?
    case Apply(Current(_), _) => false
  }

  lemma FirstMeans(before: map<nat, int>, changes: map<nat, Change>, order: seq<nat>, r: map<nat, int>, id: nat)
    requires id in changes && id in r && !Late(changes[id])
    ensures First(before, changes, id) == Some(r[id]) <==> Made(before, changes, order, r, id)
    ensures First(before, changes, id).None? <==> FailsFirst(before, changes, id)
  {
  }

  /** The first phase fails exactly if one of its changes does. */
  lemma FirstPhaseExactly(before: map<nat, int>, changes: map<nat, Change>, order: seq<nat>)
    requires forall id :: id in order ==> id in changes
    ensures PhaseOne(before, changes, order).None? <==> exists id :: id in order && FailsFirst(before, changes, id)
  {
    PhaseOneDeclared(before, changes, order);
    forall id | id in order && !Late(changes[id])
      ensures First(before, changes, id).None? <==> FailsFirst(before, changes, id)
    {
      FirstMeans(before, changes, order, map[id := 0], id);
    }
    if id :| id in order && FailsFirst(before, changes, id) { assert !Late(changes[id]); }
  }

  /** The updates of the second phase after some of the late changes are those of `r`. */
  ghost predicate PartOf(changes: map<nat, Change>, ids: seq<nat>, updates: map<nat, int>, r: map<nat, int>) {
    && (forall id :: id in updates <==> (id in changes && !Late(changes[id])) || id in ids)
    && (forall id :: id in updates ==> id in r && r[id] == updates[id])
  }

  /** The late changes in the given order, each after those before it in the list. */
  ghost predicate ListedBefore(order: seq<nat>, ids: seq<nat>, n: nat)
    requires n < |ids|
  {
    forall x :: x in ids[..n] <==> x in ids && Before(order, x, ids[n])
  }

  lemma {:induction false} LateListed(changes: map<nat, Change>, order: seq<nat>, n: nat)
    requires (forall id :: id in order ==> id in changes) && Once(order) && n < |LateOf(changes, order)|
    ensures ListedBefore(order, LateOf(changes, order), n)
  {
    var ids := LateOf(changes, order);
    var last, front := order[|order| - 1], order[..|order| - 1];
    var ids' := LateOf(changes, front);
    assert order == front + [last];
    forall x, y | x in front && y in front ensures Before(front, x, y) <==> Before(order, x, y) {
      BeforeFront(order, x, y);
    }
    if n < |ids'| {
      LateListed(changes, front, n);
      assert ids[..n] == ids'[..n] && ids[n] == ids'[n] && ids[n] in front;
      assert last !in front;
      if Before(order, last, ids[n]) { LastNotBefore(order, ids[n]); }
    } else {
      assert ids[n] == last && ids[..n] == ids';
      forall x | x in front ensures Before(order, x, last) {
        var i :| 0 <= i < |front| && front[i] == x;
        assert order[i] == x && order[|order| - 1] == last;
      }
      if Before(order, last, last) { LastNotBefore(order, last); }
    }
  }

  lemma BeforeFront(order: seq<nat>, x: nat, y: nat)
    requires Once(order) && order != [] && x in order[..|order| - 1] && y in order[..|order| - 1]
    ensures Before(order[..|order| - 1], x, y) <==> Before(order, x, y)
  {
    var front := order[..|order| - 1];
    if Before(order, x, y) {
      var i, j :| 0 <= i < j < |order| && order[i] == x && order[j] == y;
      var k :| 0 <= k < |front| && front[k] == y;
      assert k == j && front[i] == x;
    }
    if Before(front, x, y) {
      var i, j :| 0 <= i < j < |front| && front[i] == x && front[j] == y;
      assert order[i] == x && order[j] == y;
    }
  }

  lemma LastNotBefore(order: seq<nat>, y: nat)
    requires Once(order) && order != []
    ensures !Before(order, order[|order| - 1], y)
  {
  }

  /** One late change: what the loop computes from the updates so far is what it asks for. */
  lemma SecondMeans(before: map<nat, int>, updates: map<nat, int>, changes: map<nat, Change>, order: seq<nat>,
      ids: seq<nat>, n: nat, r: map<nat, int>)
    requires n < |ids| && ids[n] in changes && ids[n] in r && Late(changes[ids[n]])
    requires (forall id :: id in ids <==> id in changes && Late(changes[id])) && ListedBefore(order, ids, n)
    requires PartOf(changes, ids[..n], updates, r) && forall id :: id in r <==> id in changes
    ensures Second(before, updates, changes, ids[n]) == Some(r[ids[n]]) <==> Made(before, changes, order, r, ids[n])
  {
    var id := ids[n];
    var b := changes[id].base.id;
    assert b in changes && !IsEarly(changes[b]) ==> b in ids;
    assert b in updates <==> b in changes && (IsEarly(changes[b]) || Before(order, b, id));
  }

  /** `ids` are the late changes in the order they are iterated. */
  ghost predicate LateQueue(changes: map<nat, Change>, order: seq<nat>, ids: seq<nat>) {
    && (forall id :: id in ids <==> id in changes && Late(changes[id])) && Once(ids)
    && (forall n :: 0 <= n < |ids| ==> ListedBefore(order, ids, n))
  }

  lemma LateOfQueue(changes: map<nat, Change>, order: seq<nat>)
    requires Enumerates(order, changes)
    ensures LateQueue(changes, order, LateOf(changes, order))
  {
    LateOnce(changes, order);
    forall n | 0 <= n < |LateOf(changes, order)| ensures ListedBefore(order, LateOf(changes, order), n) {
      LateListed(changes, order, n);
    }
  }

  /** The second phase on one more change. */
  lemma PhaseTwoNext(before: map<nat, int>, first: map<nat, int>, changes: map<nat, Change>, ids: seq<nat>, n: nat)
    requires n < |ids| && forall id :: id in ids ==> id in changes && Late(changes[id])
    ensures PhaseTwo(before, first, changes, ids[..n + 1]) ==
      match PhaseTwo(before, first, changes, ids[..n])
      case None => None
      case Some(u) => match Second(before, u, changes, ids[n]) case None => None case Some(v) => Some(u[ids[n] := v])
  {
    assert ids[..n + 1][..n] == ids[..n];
  }

  lemma PartGrows(changes: map<nat, Change>, ids: seq<nat>, n: nat, u: map<nat, int>, v: int, r: map<nat, int>)
    requires n < |ids| && Once(ids) && ids[n] in changes && Late(changes[ids[n]]) && ids[n] in r
    requires forall id :: id in u <==> (id in changes && !Late(changes[id])) || id in ids[..n]
    ensures PartOf(changes, ids[..n + 1], u[ids[n] := v], r) <==> PartOf(changes, ids[..n], u, r) && r[ids[n]] == v
  {
    assert ids[..n + 1] == ids[..n] + [ids[n]];
    assert ids[n] !in ids[..n];
    var grown := u[ids[n] := v];
    if PartOf(changes, ids[..n + 1], grown, r) {
      assert ids[n] in grown;
      forall id | id in u ensures id in r && r[id] == u[id] { assert id in grown; }
    }
  }

  lemma {:induction false} PhaseTwoKeys(before: map<nat, int>, first: map<nat, int>, changes: map<nat, Change>,
      ids: seq<nat>, n: nat)
    requires n <= |ids| && forall id :: id in ids ==> id in changes && Late(changes[id])
    requires forall id :: id in first <==> id in changes && !Late(changes[id])
    ensures var u := PhaseTwo(before, first, changes, ids[..n]);
      u.Some? ==> forall id :: id in u.value <==> (id in changes && !Late(changes[id])) || id in ids[..n]
  {
    if n > 0 {
      PhaseTwoKeys(before, first, changes, ids, n - 1);
      PhaseTwoNext(before, first, changes, ids, n - 1);
      assert ids[..n] == ids[..n - 1] + [ids[n - 1]];
    }
  }

  /** The second phase has got through the first `n` late changes and agrees with `r` so far. */
  ghost predicate Upto(before: map<nat, int>, first: map<nat, int>, changes: map<nat, Change>, ids: seq<nat>,
      r: map<nat, int>, n: nat)
    requires n <= |ids| && forall id :: id in ids ==> id in changes && Late(changes[id])
  {
    var u := PhaseTwo(before, first, changes, ids[..n]); u.Some? && PartOf(changes, ids[..n], u.value, r)
  }

  ghost predicate QueueMade(
    before: map<nat, int>, changes: map<nat, Change>, order: seq<nat>, ids: seq<nat>, r: map<nat, int>, n: nat)
  {
    n <= |ids| && forall m :: 0 <= m < n ==> ids[m] in changes && ids[m] in r && Made(before, changes, order, r, ids[m])
  }

  ghost predicate LateMade(before: map<nat, int>, changes: map<nat, Change>, order: seq<nat>, r: map<nat, int>) {
    forall id :: id in changes && Late(changes[id]) ==> id in r && Made(before, changes, order, r, id)
  }

  lemma QueueIsLate(
    before: map<nat, int>, changes: map<nat, Change>, order: seq<nat>, ids: seq<nat>, r: map<nat, int>)
    requires LateQueue(changes, order, ids)
    ensures QueueMade(before, changes, order, ids, r, |ids|) <==> LateMade(before, changes, order, r)
  {
    if LateMade(before, changes, order, r) {
      forall m | 0 <= m < |ids| ensures ids[m] in changes && ids[m] in r && Made(before, changes, order, r, ids[m]) {
        assert ids[m] in ids;
      }
    }
  }

  /** After `n` late changes the second phase has computed exactly the part of `r` up to there if and
      only if each of them is made in `r`. */
  lemma {:induction false} SecondPhaseExactly(before: map<nat, int>, first: map<nat, int>,
      changes: map<nat, Change>, order: seq<nat>, ids: seq<nat>, r: map<nat, int>, n: nat)
    requires LateQueue(changes, order, ids) && (forall id :: id in r <==> id in changes) && n <= |ids|
    requires PartOf(changes, [], first, r)
    ensures Upto(before, first, changes, ids, r, n) <==> QueueMade(before, changes, order, ids, r, n)
  {
    if n == 0 {
      assert ids[..0] == [];
      assert Upto(before, first, changes, ids, r, 0);
    } else {
      SecondPhaseExactly(before, first, changes, order, ids, r, n - 1);
      OneMoreLate(before, first, changes, order, ids, r, n - 1);
      MadeNext(before, changes, order, ids, r, n - 1);
    }
  }

  lemma MadeNext(
    before: map<nat, int>, changes: map<nat, Change>, order: seq<nat>, ids: seq<nat>, r: map<nat, int>, n: nat)
    requires n < |ids| && ids[n] in changes && ids[n] in r
    ensures QueueMade(before, changes, order, ids, r, n + 1) <==>
      QueueMade(before, changes, order, ids, r, n) && Made(before, changes, order, r, ids[n])
  {
  }

  lemma OneMoreLate(before: map<nat, int>, first: map<nat, int>,
      changes: map<nat, Change>, order: seq<nat>, ids: seq<nat>, r: map<nat, int>, n: nat)
    requires LateQueue(changes, order, ids) && (forall id :: id in r <==> id in changes) && n < |ids|
    requires PartOf(changes, [], first, r)
    ensures Upto(before, first, changes, ids, r, n + 1) <==>
      Upto(before, first, changes, ids, r, n) && Made(before, changes, order, r, ids[n])
  {
    var u := PhaseTwo(before, first, changes, ids[..n]);
    PhaseTwoNext(before, first, changes, ids, n);
    if u.Some? {
      PhaseTwoKeys(before, first, changes, ids, n);
      if PartOf(changes, ids[..n], u.value, r) { SecondMeans(before, u.value, changes, order, ids, n, r); }
      var v := Second(before, u.value, changes, ids[n]);
      if v.Some? { PartGrows(changes, ids, n, u.value, v.value, r); }
    }
  }

  /** The first phase computes its part of `r` exactly if each of its changes is made in `r`. */
  lemma EarlyExactly(before: map<nat, int>, changes: map<nat, Change>, order: seq<nat>, r: map<nat, int>)
    requires Enumerates(order, changes) && forall id :: id in r <==> id in changes
    ensures var first := PhaseOne(before, changes, order);
      first.Some? && PartOf(changes, [], first.value, r) <==>
      forall id :: id in changes && !Late(changes[id]) ==> Made(before, changes, order, r, id)
  {
    PhaseOneDeclared(before, changes, order);
    forall id | id in changes && !Late(changes[id])
      ensures First(before, changes, id) == Some(r[id]) <==> Made(before, changes, order, r, id)
    {
      FirstMeans(before, changes, order, r, id);
    }
  }

  lemma KeepsFirst(
    before: map<nat, int>, first: map<nat, int>, changes: map<nat, Change>, ids: seq<nat>, r: map<nat, int>)
    requires forall id :: id in ids ==> id in changes && Late(changes[id])
    requires forall id :: id in first <==> id in changes && !Late(changes[id])
    requires PhaseTwo(before, first, changes, ids) == Some(r)
    ensures PartOf(changes, [], first, r)
  {
    assert ids[..0] == [];
    forall id | id in first ensures id in r && r[id] == first[id] {
      assert id !in ids[0..];
      PhaseTwoKeeps(before, first, changes, ids, 0, id);
    }
  }

  lemma LateExactly(before: map<nat, int>, first: map<nat, int>, changes: map<nat, Change>, order: seq<nat>,
      ids: seq<nat>, r: map<nat, int>)
    requires LateQueue(changes, order, ids) && PartOf(changes, [], first, r) && forall id :: id in r <==> id in changes
    ensures PhaseTwo(before, first, changes, ids) == Some(r) <==> LateMade(before, changes, order, r)
  {
    assert ids[..|ids|] == ids;
    SecondPhaseExactly(before, first, changes, order, ids, r, |ids|);
    QueueIsLate(before, changes, order, ids, r);
    var u := PhaseTwo(before, first, changes, ids);
    if u.Some? { WholePart(changes, ids, u.value, r); }
  }

  lemma WholePart(changes: map<nat, Change>, ids: seq<nat>, u: map<nat, int>, r: map<nat, int>)
    requires (forall id :: id in r <==> id in changes) && forall id :: id in ids <==> id in changes && Late(changes[id])
    ensures PartOf(changes, ids, u, r) <==> u == r
  {
  }

  /** Exactly: the two phases compute `r` if and only if `r` is what the change set means in this order.
      In particular they fail exactly if it means nothing. */
  lemma TwoPhaseExactly(before: map<nat, int>, changes: map<nat, Change>, order: seq<nat>, r: map<nat, int>)
    requires Enumerates(order, changes)
    ensures TwoPhase(before, changes, order) == Some(r) <==> Meaning(before, changes, order, r)
  {
    if TwoPhase(before, changes, order) == Some(r) { ResultMeans(before, changes, order, r); }
    if Meaning(before, changes, order, r) {
      EarlyExactly(before, changes, order, r);
      LateOfQueue(changes, order);
      LateExactly(before, PhaseOne(before, changes, order).value, changes, order, LateOf(changes, order), r);
    }
  }

  lemma ResultMeans(before: map<nat, int>, changes: map<nat, Change>, order: seq<nat>, r: map<nat, int>)
    requires Enumerates(order, changes) && TwoPhase(before, changes, order) == Some(r)
    ensures Meaning(before, changes, order, r)
  {
    var ids, first := LateOf(changes, order), PhaseOne(before, changes, order).value;
    LateOfQueue(changes, order);
    PhaseOneDeclared(before, changes, order);
    PhaseTwoKeys(before, first, changes, ids, |ids|);
    assert ids[..|ids|] == ids;
    KeepsFirst(before, first, changes, ids, r);
    EarlyExactly(before, changes, order, r);
    LateExactly(before, first, changes, order, ids, r);
  }

  lemma NoMeaning(before: map<nat, int>, changes: map<nat, Change>, order: seq<nat>)
    requires Enumerates(order, changes)
    ensures TwoPhase(before, changes, order).Some? <==> exists r :: Meaning(before, changes, order, r)
  {
    if TwoPhase(before, changes, order).Some? {
      TwoPhaseExactly(before, changes, order, TwoPhase(before, changes, order).value);
    }
    if r :| Meaning(before, changes, order, r) { TwoPhaseExactly(before, changes, order, r); }
  }

  /** Stored among the other fields, the updates still are what the changes ask for. */
  lemma StoredMeans(before: map<nat, int>, changes: map<nat, Change>, order: seq<nat>, r: map<nat, int>)
    requires Enumerates(order, changes) && TwoPhase(before, changes, order) == Some(r)
    ensures (forall id :: id in r <==> id in changes) &&
      forall id :: id in changes ==> Made(before, changes, order, before + r, id)
  {
    TwoPhaseExactly(before, changes, order, r);
    var stored := before + r;
    forall id | id in changes ensures Made(before, changes, order, stored, id) {
      assert Made(before, changes, order, r, id) && stored[id] == r[id];
      if Late(changes[id]) {
        var b := changes[id].base.id;
        assert Sees(before, changes, order, stored, id, b) == Sees(before, changes, order, r, id, b);
      }
    }
  }

  class UnsyncMap {
    var fields: map<nat, int>

    constructor (initial: map<nat, int>)
      ensures fields == initial
    {
      fields := initial;
    }

    /** The delayed field part of `apply_output_sequential`. Nothing is written unless everything
        could be computed; otherwise the run panics (`ok` is false). */
    method ApplyChanges(changes: map<nat, Change>, order: seq<nat>) returns (ok: bool)
      requires Enumerates(order, changes)
      modifies this
      ensures ok <==> exists r :: Meaning(old(fields), changes, order, r)
      ensures ok ==> forall id :: id in changes ==> id in fields && Made(old(fields), changes, order, fields, id)
      ensures forall id :: id !in changes ==>
        (id in fields <==> id in old(fields)) && (id in fields ==> fields[id] == old(fields)[id])
      ensures ok <==> TwoPhase(old(fields), changes, order).Some?
      ensures fields == if ok then old(fields) + TwoPhase(old(fields), changes, order).value else old(fields)
      ensures NoChain(changes) || Indifferent(old(fields), changes) ==>
        && (ok <==> Declarative(old(fields), changes).Some?)
        && (ok ==> fields == old(fields) + Declarative(old(fields), changes).value)
    {
      Agree(fields, changes, order);
      NoMeaning(fields, changes, order);
      var updates, second := FirstPhase(changes, order);
      if updates.None? {
        return false;
      }
      updates := SecondPhase(changes, second, updates.value);
      if updates.None? {
        return false;
      }
      StoredMeans(fields, changes, order, updates.value);
      fields := fields + updates.value;
      return true;
    }

    /** Creations and changes on previous values, and the list of the others. */
    method FirstPhase(changes: map<nat, Change>, order: seq<nat>) returns (r: Option<map<nat, int>>, second: seq<nat>)
      requires forall id :: id in order ==> id in changes
      ensures r == PhaseOne(fields, changes, order)
      ensures r.None? <==> exists id :: id in order && FailsFirst(fields, changes, id)
      ensures r.Some? ==> second == LateOf(changes, order)
    {
      FirstPhaseExactly(fields, changes, order);
      var updates: map<nat, int> := map[];
      second := [];
      for n := 0 to |order|
        invariant PhaseOne(fields, changes, order[..n]) == Some(updates)
        invariant second == LateOf(changes, order[..n])
      {
        var id := order[n];
        assert order[..n + 1][..n] == order[..n];
        if Late(changes[id]) {
          second := second + [id];
        } else {
          var v := First(fields, changes, id);
          if v.None? {
            PhaseOnePrefix(fields, changes, order, n + 1);
            return None, [];
          }
          updates := updates[id := v.value];
        }
      }
      assert order[..|order|] == order;
      r := Some(updates);
    }

    /** Changes on current values, each seeing the updates made so far. */
    method SecondPhase(changes: map<nat, Change>, second: seq<nat>, first: map<nat, int>)
        returns (r: Option<map<nat, int>>)
      requires forall id :: id in second ==> id in changes && Late(changes[id])
      ensures r == PhaseTwo(fields, first, changes, second)
    {
      var updates := first;
      for n := 0 to |second|
        invariant PhaseTwo(fields, first, changes, second[..n]) == Some(updates)
      {
        assert second[..n + 1][..n] == second[..n];
        var v := Second(fields, updates, changes, second[n]);
        if v.None? {
          PhaseTwoPrefix(fields, first, changes, second, n + 1);
          return None;
        }
        updates := updates[second[n] := v.value];
      }
      assert second[..|second|] == second;
      r := Some(updates);
    }
  }

  lemma Agree(before: map<nat, int>, changes: map<nat, Change>, order: seq<nat>)
    requires Enumerates(order, changes)
    ensures NoChain(changes) || Indifferent(before, changes) ==>
      TwoPhase(before, changes, order) == Declarative(before, changes)
  {
    if NoChain(changes) { OrderIndependent(before, changes, order); }
    if Indifferent(before, changes) { IndifferentOrder(before, changes, order); }
  }

  lemma {:induction false} PhaseOnePrefix(before: map<nat, int>, changes: map<nat, Change>, order: seq<nat>, n: nat)
    requires n <= |order| && (forall id :: id in order ==> id in changes) && PhaseOne(before, changes, order[..n]).None?
    ensures PhaseOne(before, changes, order).None?
    decreases |order|
  {
    if n == |order| {
      assert order[..n] == order;
    } else {
      assert order[..|order| - 1][..n] == order[..n];
      PhaseOnePrefix(before, changes, order[..|order| - 1], n);
    }
  }

  lemma {:induction false} PhaseTwoPrefix(before: map<nat, int>, updates: map<nat, int>, changes: map<nat, Change>,
      ids: seq<nat>, n: nat)
    requires n <= |ids| && (forall id :: id in ids ==> id in changes && Late(changes[id]))
    requires PhaseTwo(before, updates, changes, ids[..n]).None?
    ensures PhaseTwo(before, updates, changes, ids).None?
    decreases |ids|
  {
    if n == |ids| {
      assert ids[..n] == ids;
    } else {
      assert ids[..|ids| - 1][..n] == ids[..n];
      PhaseTwoPrefix(before, updates, changes, ids[..|ids| - 1], n);
    }
  }
}
