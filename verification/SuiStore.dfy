/** In-memory execution over a shared object store: each transaction loads its inputs one by one, is
    executed, and commits its writes; transactions without shared objects run in any order. */
module SuiStore {
  import opened Common

  datatype Object = Object(version: nat, data: int)

  /** A reference to an object at a version. */
  datatype Ref = Ref(id: nat, version: nat)

  /** What execution leaves to be committed, and its effects. */
  datatype Outcome = Outcome(ok: bool, written: map<nat, Object>, effects: int)

  /** Execution is a function of the loaded inputs. `mutables` are the inputs it may change or delete. */
  datatype Txn = Txn(inputs: seq<Ref>, mutables: set<nat>, run: seq<Object> -> Outcome)

  type Objects = map<nat, Object>

  function Get(m: Objects, id: nat): Option<Object> {
    if id in m then Some(m[id]) else None
  }

  /** `get_object_by_key`: the object, if it is there at exactly that version. */
  function ByKey(m: Objects, r: Ref): Option<Object> {
    if r.id in m && m[r.id].version == r.version then Some(m[r.id]) else None
  }

  /** `commit_objects`: mutable inputs that were not written are removed, the writes inserted. */
  function Committed(m: Objects, mutables: set<nat>, written: Objects): Objects {
    (m - (mutables - written.Keys)) + written
  }

  predicate Loadable(m: Objects, inputs: seq<Ref>) {
    forall p :: 0 <= p < |inputs| ==> ByKey(m, inputs[p]).Some?
  }

  function Loaded(m: Objects, inputs: seq<Ref>): (objs: seq<Object>)
    requires Loadable(m, inputs)
    ensures |objs| == |inputs|
  {
    seq(|inputs|, p requires 0 <= p < |inputs| => ByKey(m, inputs[p]).value)
  }

  class InMemoryObjectStore {
    var objects: Objects
    var numObjectReads: nat

    constructor (initial: Objects)
      ensures objects == initial && numObjectReads == 0
    {
      objects, numObjectReads := initial, 0;
    }

    /** `read_objects_for_execution`: all inputs at their versions, or an error at the first missing one. */
    method ReadObjects(inputs: seq<Ref>) returns (r: Option<seq<Object>>)
      modifies this`numObjectReads
      ensures r.Some? <==>
        forall p :: 0 <= p < |inputs| ==> inputs[p].id in objects && objects[inputs[p].id].version == inputs[p].version
      ensures r.Some? ==>
        |r.value| == |inputs| && forall p :: 0 <= p < |inputs| ==> r.value[p] == objects[inputs[p].id]
      ensures r.Some? <==> Loadable(objects, inputs)
      ensures r.Some? ==> r.value == Loaded(objects, inputs)
      ensures r.Some? ==> numObjectReads == old(numObjectReads) + |inputs|
    {
      var objs := [];
      for p := 0 to |inputs|
        invariant Loadable(objects, inputs[..p]) && objs == Loaded(objects, inputs[..p])
        invariant numObjectReads == old(numObjectReads) + p
      {
        numObjectReads := numObjectReads + 1;
        var o := ByKey(objects, inputs[p]);
        if o.None? {
          return None;
        }
        objs := objs + [o.value];
      }
      assert inputs[..|inputs|] == inputs;
      r := Some(objs);
    }

    method CommitObjects(mutables: set<nat>, written: Objects)
      modifies this
      ensures objects == Committed(old(objects), mutables, written) && numObjectReads == old(numObjectReads)
    {
      var todo := mutables;
      while todo != {}
        invariant numObjectReads == old(numObjectReads) && todo <= mutables
        invariant forall id :: id in objects <==>
          id in old(objects) && (id in mutables && id !in written ==> id in todo)
        invariant forall id :: id in objects ==> objects[id] == old(objects)[id]
        decreases |todo|
      {
        var id :| id in todo;
        if id !in written {
          objects := objects - {id};
        }
        todo := todo - {id};
      }
      assert objects == old(objects) - (mutables - written.Keys);
      objects := objects + written;
    }
  }

  /** Everything a transaction may change when its inputs are as in `start`. */
  ghost function Touched(start: Objects, t: Txn): set<nat>
    requires Loadable(start, t.inputs)
  {
    t.mutables + Planned(start, t).written.Keys
  }

  ghost function Planned(start: Objects, t: Txn): Outcome
    requires Loadable(start, t.inputs)
  {
    t.run(Loaded(start, t.inputs))
  }

  /** Every transaction can be executed from the start, and no transaction touches what another one
      touches or reads: mutable inputs are disjoint from all other inputs and created ids are new. */
  ghost predicate Independent(start: Objects, txns: seq<Txn>) {
    && (forall t :: 0 <= t < |txns| ==> Loadable(start, txns[t].inputs) && Planned(start, txns[t]).ok)
    && (forall t, u :: 0 <= t < |txns| && 0 <= u < |txns| && t != u ==>
          Touched(start, txns[t]) !! Touched(start, txns[u]) && Apart(Touched(start, txns[t]), txns[u].inputs))
  }

  ghost predicate Apart(touched: set<nat>, inputs: seq<Ref>) {
    forall p :: 0 <= p < |inputs| ==> inputs[p].id !in touched
  }

  /* ---- Interleavings ---- */

  datatype Progress = Loading(objs: seq<Object>) | Done(effects: int)

  datatype World = World(store: Objects, progress: seq<Progress>)

  datatype Event = LoadOne(t: nat) | Commit(t: nat)

  ghost function Init(start: Objects, txns: seq<Txn>): World {
    World(start, seq(|txns|, _ => Loading([])))
  }

  /** The next input of a transaction that is still loading. */
  ghost predicate IsLoading(txns: seq<Txn>, w: World, t: nat) {
    t < |txns| == |w.progress| && w.progress[t].Loading? && |w.progress[t].objs| < |txns[t].inputs|
  }

  ghost predicate IsLoaded(txns: seq<Txn>, w: World, t: nat) {
    t < |txns| == |w.progress| && w.progress[t].Loading? && |w.progress[t].objs| == |txns[t].inputs|
  }

  /** A missing input or a failed execution panics instead. */
  ghost predicate Enabled(txns: seq<Txn>, w: World, e: Event) {
    match e
    case LoadOne(t) => IsLoading(txns, w, t) && ByKey(w.store, txns[t].inputs[|w.progress[t].objs|]).Some?
    case Commit(t) => IsLoaded(txns, w, t) && txns[t].run(w.progress[t].objs).ok
  }

  ghost function Apply(txns: seq<Txn>, w: World, e: Event): World
    requires Enabled(txns, w, e)
  {
    match e
    case LoadOne(t) =>
      var objs := w.progress[t].objs;
      w.(progress := w.progress[t := Loading(objs + [ByKey(w.store, txns[t].inputs[|objs|]).value])])
    case Commit(t) =>
      var o := txns[t].run(w.progress[t].objs);
      World(Committed(w.store, txns[t].mutables, o.written), w.progress[t := Done(o.effects)])
  }

  ghost predicate Reaches(txns: seq<Txn>, w: World, es: seq<Event>, w': World)
    decreases |es|
  {
    if es == [] then w' == w else Enabled(txns, w, es[0]) && Reaches(txns, Apply(txns, w, es[0]), es[1..], w')
  }

  /** An input is loaded exactly if the store holds it at the version asked for, and then as it is there. */
  lemma LoadsExactly(txns: seq<Txn>, w: World, t: nat)
    requires IsLoading(txns, w, t)
    ensures var r := txns[t].inputs[|w.progress[t].objs|];
      && (Enabled(txns, w, LoadOne(t)) <==> r.id in w.store && w.store[r.id].version == r.version)
      && (Enabled(txns, w, LoadOne(t)) ==>
            Apply(txns, w, LoadOne(t)).progress[t] == Loading(w.progress[t].objs + [w.store[r.id]]))
  {
  }

  /** No input is spent twice: once a transaction has committed that deletes a mutable input or leaves it
      at another version, no transaction can load the old reference. */
  lemma SpentOnce(txns: seq<Txn>, w: World, t: nat, u: nat)
    requires Enabled(txns, w, Commit(t)) && u != t && IsLoading(txns, w, u)
    requires var r, o := txns[u].inputs[|w.progress[u].objs|], txns[t].run(w.progress[t].objs);
      r.id in txns[t].mutables && (r.id in o.written ==> o.written[r.id].version != r.version)
    ensures !Enabled(txns, Apply(txns, w, Commit(t)), LoadOne(u))
  {
  }

  /** What must be stored at `id`: what the finished transaction among the first `n` that touches it
      left there, else what was there at the start. */
  ghost function Expected(start: Objects, txns: seq<Txn>, progress: seq<Progress>, n: nat, id: nat): Option<Object>
    requires n <= |txns| == |progress| && forall t :: 0 <= t < |txns| ==> Loadable(start, txns[t].inputs)
  {
    if n == 0 then Get(start, id)
    else if progress[n - 1].Done? && id in Touched(start, txns[n - 1]) then Get(Planned(start, txns[n - 1]).written, id)
    else Expected(start, txns, progress, n - 1, id)
  }

  ghost predicate ProgressOk(start: Objects, t: Txn, p: Progress)
    requires Loadable(start, t.inputs)
  {
    match p
    case Loading(objs) => |objs| <= |t.inputs| && objs == Loaded(start, t.inputs)[..|objs|]
    case Done(effects) => effects == Planned(start, t).effects
  }

  ghost predicate Inv(start: Objects, txns: seq<Txn>, w: World)
    requires Independent(start, txns)
  {
    && |w.progress| == |txns|
    && (forall t :: 0 <= t < |txns| ==> ProgressOk(start, txns[t], w.progress[t]))
    && (forall id: nat :: Get(w.store, id) == Expected(start, txns, w.progress, |txns|, id))
  }

  lemma {:induction false} ExpectedStart(start: Objects, txns: seq<Txn>, progress: seq<Progress>, n: nat, id: nat)
    requires Independent(start, txns) && n <= |txns| == |progress|
    requires forall t :: 0 <= t < n && progress[t].Done? ==> id !in Touched(start, txns[t])
    ensures Expected(start, txns, progress, n, id) == Get(start, id)
  {
    if n > 0 { ExpectedStart(start, txns, progress, n - 1, id); }
  }

  /** Finishing `u` changes what is expected exactly at the ids it touches. */
  lemma {:induction false} ExpectedCommit(start: Objects, txns: seq<Txn>, before: seq<Progress>, u: nat, effects: int,
      n: nat, id: nat)
    requires Independent(start, txns) && n <= |txns| == |before| && u < |txns| && !before[u].Done?
    ensures Expected(start, txns, before[u := Done(effects)], n, id) ==
      if u < n && id in Touched(start, txns[u]) then Get(Planned(start, txns[u]).written, id)
      else Expected(start, txns, before, n, id)
  {
    if n > 0 {
      ExpectedCommit(start, txns, before, u, effects, n - 1, id);
      if n - 1 != u {
        assert Touched(start, txns[n - 1]) !! Touched(start, txns[u]);
      }
    }
  }

  /** The inputs of an unfinished transaction are still as at the start. */
  lemma InputsUntouched(start: Objects, txns: seq<Txn>, w: World, t: nat, p: nat)
    requires Independent(start, txns) && Inv(start, txns, w) && t < |txns| && w.progress[t].Loading?
    requires p < |txns[t].inputs|
    ensures ByKey(w.store, txns[t].inputs[p]) == ByKey(start, txns[t].inputs[p])
  {
    var id := txns[t].inputs[p].id;
    forall u | 0 <= u < |txns| && w.progress[u].Done? ensures id !in Touched(start, txns[u]) {
      assert Apart(Touched(start, txns[u]), txns[t].inputs);
    }
    ExpectedStart(start, txns, w.progress, |txns|, id);
    assert Get(w.store, id) == Get(start, id);
  }

  lemma LoadStep(start: Objects, txns: seq<Txn>, w: World, t: nat)
    requires Independent(start, txns) && Inv(start, txns, w) && Enabled(txns, w, LoadOne(t))
    ensures Inv(start, txns, Apply(txns, w, LoadOne(t)))
  {
    var w' := Apply(txns, w, LoadOne(t));
    InputsUntouched(start, txns, w, t, |w.progress[t].objs|);
    forall id: nat ensures Get(w'.store, id) == Expected(start, txns, w'.progress, |txns|, id) {
      SameDone(start, txns, w.progress, w'.progress, |txns|, id);
    }
  }

  lemma {:induction false} SameDone(start: Objects, txns: seq<Txn>, p: seq<Progress>, p': seq<Progress>, n: nat,
      id: nat)
    requires Independent(start, txns) && n <= |txns| == |p| == |p'|
    requires forall t :: 0 <= t < |txns| ==> (p[t].Done? <==> p'[t].Done?)
    ensures Expected(start, txns, p', n, id) == Expected(start, txns, p, n, id)
  {
    if n > 0 { SameDone(start, txns, p, p', n - 1, id); }
  }

  lemma CommitStep(start: Objects, txns: seq<Txn>, w: World, t: nat)
    requires Independent(start, txns) && Inv(start, txns, w) && Enabled(txns, w, Commit(t))
    ensures Inv(start, txns, Apply(txns, w, Commit(t)))
  {
    var w' := Apply(txns, w, Commit(t));
    var full := Loaded(start, txns[t].inputs);
    assert w.progress[t].objs == full[..|full|] == full;
    forall id: nat ensures Get(w'.store, id) == Expected(start, txns, w'.progress, |txns|, id) {
      ExpectedCommit(start, txns, w.progress, t, Planned(start, txns[t]).effects, |txns|, id);
      assert Get(w.store, id) == Expected(start, txns, w.progress, |txns|, id);
    }
  }

  lemma {:induction false} Steps(start: Objects, txns: seq<Txn>, w: World, es: seq<Event>, w': World)
    requires Independent(start, txns) && Inv(start, txns, w) && Reaches(txns, w, es, w')
    ensures Inv(start, txns, w')
    decreases |es|
  {
    if es != [] {
      match es[0]
      case LoadOne(t) => LoadStep(start, txns, w, t); Steps(start, txns, Apply(txns, w, es[0]), es[1..], w');
      case Commit(t) => CommitStep(start, txns, w, t); Steps(start, txns, Apply(txns, w, es[0]), es[1..], w');
    }
  }

  lemma InitInv(start: Objects, txns: seq<Txn>)
    requires Independent(start, txns)
    ensures Inv(start, txns, Init(start, txns))
  {
    var w := Init(start, txns);
    forall id: nat ensures Get(w.store, id) == Expected(start, txns, w.progress, |txns|, id) {
      ExpectedStart(start, txns, w.progress, |txns|, id);
    }
  }

  /** No transaction ever panics: in every reachable state each unfinished one can take its next step. */
  lemma NeverPanics(start: Objects, txns: seq<Txn>, es: seq<Event>, w: World, t: nat)
    requires Independent(start, txns) && Reaches(txns, Init(start, txns), es, w) && t < |txns|
    ensures |w.progress| == |txns|
    ensures w.progress[t].Loading? ==> Enabled(txns, w, LoadOne(t)) || Enabled(txns, w, Commit(t))
  {
    InitInv(start, txns);
    Steps(start, txns, Init(start, txns), es, w);
    if w.progress[t].Loading? {
      var objs, full := w.progress[t].objs, Loaded(start, txns[t].inputs);
      if |objs| < |full| {
        InputsUntouched(start, txns, w, t, |objs|);
      } else {
        assert objs == full[..|full|] == full;
      }
    }
  }

  ghost predicate AllDone(w: World) {
    forall t :: 0 <= t < |w.progress| ==> w.progress[t].Done?
  }

  /** Any-order execution: every interleaving of the separate load and commit steps ends with the
      same store and the same effects. */
  lemma AnyOrder(start: Objects, txns: seq<Txn>, es: seq<Event>, w: World, es': seq<Event>, w': World)
    requires Independent(start, txns)
    requires Reaches(txns, Init(start, txns), es, w) && AllDone(w)
    requires Reaches(txns, Init(start, txns), es', w') && AllDone(w')
    ensures w.progress == w'.progress && w.store == w'.store
  {
    InitInv(start, txns);
    Steps(start, txns, Init(start, txns), es, w);
    Steps(start, txns, Init(start, txns), es', w');
    assert |w.progress| == |w'.progress|;
    forall id: nat ensures Get(w.store, id) == Get(w'.store, id) {
      SameDone(start, txns, w.progress, w'.progress, |txns|, id);
    }
    SameObjects(w.store, w'.store);
  }

  lemma SameObjects(m: Objects, m': Objects)
    requires forall id: nat :: Get(m, id) == Get(m', id)
    ensures m == m'
  {
    assert forall id :: id in m ==> Get(m, id) == Get(m', id);
    assert forall id :: id in m' ==> Get(m, id) == Get(m', id);
  }

  /* ---- The in-order branch ---- */

  /** The first `n` transactions have been executed, the others not begun. */
  ghost function InOrder(start: Objects, txns: seq<Txn>, n: nat): seq<Progress>
    requires forall t :: 0 <= t < |txns| ==> Loadable(start, txns[t].inputs)
  {
    seq(|txns|, t requires 0 <= t < |txns| => if t < n then Done(Planned(start, txns[t]).effects) else Loading([]))
  }

  /** Executing the transactions one after another: it does not panic, and ends where every
      interleaving ends. */
  method ExecuteInOrder(txns: seq<Txn>, store: InMemoryObjectStore) returns (effects: seq<int>)
    requires Independent(store.objects, txns)
    modifies store
    ensures |effects| == |txns|
    ensures forall es, w :: Reaches(txns, Init(old(store.objects), txns), es, w) && AllDone(w) ==>
      store.objects == w.store && w.progress == seq(|txns|, t requires 0 <= t < |effects| => Done(effects[t]))
  {
    ghost var start := store.objects;
    effects := [];
    InitInv(start, txns);
    assert InOrder(start, txns, 0) == Init(start, txns).progress;
    for n := 0 to |txns|
      invariant |effects| == n && forall t :: 0 <= t < n ==> effects[t] == Planned(start, txns[t]).effects
      invariant Inv(start, txns, World(store.objects, InOrder(start, txns, n)))
    {
      ghost var w := World(store.objects, InOrder(start, txns, n));
      forall p | 0 <= p < |txns[n].inputs|
        ensures ByKey(store.objects, txns[n].inputs[p]) == ByKey(start, txns[n].inputs[p])
      {
        InputsUntouched(start, txns, w, n, p);
      }
      assert Loaded(store.objects, txns[n].inputs) == Loaded(start, txns[n].inputs);
      var objs := store.ReadObjects(txns[n].inputs);
      var o := txns[n].run(objs.value);
      InOrderStep(start, txns, store.objects, n);
      store.CommitObjects(txns[n].mutables, o.written);
      effects := effects + [o.effects];
    }
    forall es, w | Reaches(txns, Init(start, txns), es, w) && AllDone(w)
      ensures store.objects == w.store && w.progress == seq(|txns|, t requires 0 <= t < |effects| => Done(effects[t]))
    {
      Steps(start, txns, Init(start, txns), es, w);
      forall id: nat ensures Get(store.objects, id) == Get(w.store, id) {
        SameDone(start, txns, InOrder(start, txns, |txns|), w.progress, |txns|, id);
      }
      SameObjects(store.objects, w.store);
    }
  }

  lemma InOrderStep(start: Objects, txns: seq<Txn>, store: Objects, n: nat)
    requires Independent(start, txns) && n < |txns| && Inv(start, txns, World(store, InOrder(start, txns, n)))
    ensures Inv(start, txns,
      World(Committed(store, txns[n].mutables, Planned(start, txns[n]).written), InOrder(start, txns, n + 1)))
  {
    var before, after := InOrder(start, txns, n), InOrder(start, txns, n + 1);
    var effects := Planned(start, txns[n]).effects;
    assert after == before[n := Done(effects)];
    var store' := Committed(store, txns[n].mutables, Planned(start, txns[n]).written);
    forall id: nat ensures Get(store', id) == Expected(start, txns, after, |txns|, id) {
      ExpectedCommit(start, txns, before, n, effects, |txns|, id);
      assert Get(store, id) == Expected(start, txns, before, |txns|, id);
    }
  }
}
