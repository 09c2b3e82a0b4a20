/** The executor never gets stuck: from every reachable state the lowest uncommitted transaction
    can be driven to its commit, and so can the whole block. */
module StmProgress {
  import opened Common
  import opened StmTypes
  import opened StmCache
  import opened StmMachine
  import opened StmInvariant
  import opened StmSerial

  /** No path through any transaction ends in a code invariant error. */
  ghost predicate NoCodeErrors(b: Block) {
    forall i, facts :: 0 <= i < |b.txns| ==> Next(b.txns[i], facts) != Halt(CodeInvariantError)
  }

  lemma {:induction false} Join(b: Block, s: State, a1: seq<Action>, m: State, a2: seq<Action>, s': State)
    requires Reaches(b, s, a1, m) && Reaches(b, m, a2, s')
    ensures Reaches(b, s, a1 + a2, s')
    decreases |a1|
  {
    if a1 == [] {
      assert a1 + a2 == a2;
    } else {
      assert (a1 + a2)[1..] == a1[1..] + a2;
      Join(b, Apply(b, s, a1[0]), a1[1..], m, a2, s');
    }
  }

  /** One step, then more. */
  lemma Cons(b: Block, s: State, a: Action, acts: seq<Action>, s': State)
    requires Inv(b, s) && Enabled(b, s, a) && Reaches(b, Apply(b, s, a), acts, s')
    ensures Reaches(b, s, [a] + acts, s')
  {
    assert ([a] + acts)[1..] == acts;
  }

  /** Run the code to its end against the cache as it stands. */
  lemma {:induction false} DriveReads(b: Block, s: State, i: nat) returns (acts: seq<Action>, s': State)
    requires Inv(b, s) && i < |b.txns| && s.status[i].Running?
    requires var r := RunAgainst(b.txns[i], b.base, s.layers, i, s.status[i].captured);
      r.Stopped? && !r.outcome.CodeInvariantError?
    ensures Reaches(b, s, acts, s') && Inv(b, s')
    ensures var st, r := s.status[i], RunAgainst(b.txns[i], b.base, s.layers, i, s.status[i].captured);
      s' == SetStatus(s, i, Writing(st.inc, r.captured, r.outcome, WritesOf(r.outcome).Keys,
        PrevWrites(s.records[i]).Keys, false, false, st.atCommit))
    decreases b.txns[i].gas - |s.status[i].captured|
  {
    var instr := Next(b.txns[i], FactsOf(s.status[i].captured));
    if instr.Halt? {
      EndRunStep(b, s, i);
      s' := DoEndRun(b, s, i);
      acts := [EndRun(i)];
      Cons(b, s, EndRun(i), [], s');
    } else {
      ReadStep(b, s, i);
      var m := DoRead(b, s, i);
      var rest;
      rest, s' := DriveReads(b, m, i);
      acts := [ReadKey(i)] + rest;
      Cons(b, s, ReadKey(i), rest, s');
    }
  }

  /** At the commit index all layers below are committed, so no read waits; reads made there match
      what is below. */
  lemma {:induction false} FinalRun(b: Block, s: State, captured: seq<Desc>)
    requires Inv(b, s) && NoCodeErrors(b) && s.commits < |b.txns|
    ensures var r := RunAgainst(b.txns[s.commits], b.base, s.layers, s.commits, captured);
      && r.Stopped? && !r.outcome.CodeInvariantError?
      && (AllReadsMatch(b, s, s.commits, captured) ==> AllReadsMatch(b, s, s.commits, r.captured))
    decreases b.txns[s.commits].gas - |captured|
  {
    var instr := Next(b.txns[s.commits], FactsOf(captured));
    if instr.Fetch? {
      CommittedRead(b, s, s.commits, instr.key);
      var f := ReadBelow(b.base, s.layers, s.commits, instr.key);
      FinalRun(b, s, captured + [Capture(instr.key, instr.kind, f)]);
    }
  }

  ghost predicate SameRun(st: Status, st': Status)
    requires st.Writing? && st'.Writing?
  {
    st'.inc == st.inc && st'.captured == st.captured && st'.outcome == st.outcome && st'.atCommit == st.atCommit
  }

  /** The captured failures of an execution in progress are those of the cache as it stands. */
  ghost predicate BrokenAt(b: Block, s: State, i: nat)
    requires Sized(b, s) && i < |b.txns| && s.status[i].Writing?
  {
    BrokenExactly(b, s, i, WritesOf(s.status[i].outcome), s.status[i].todo, s.status[i].broken)
  }

  /** Publish the remaining writes. */
  lemma {:induction false} DriveWrites(b: Block, s: State, i: nat) returns (acts: seq<Action>, s': State)
    requires Inv(b, s) && i < |b.txns| && s.status[i].Writing?
    ensures Reaches(b, s, acts, s') && Inv(b, s') && s'.commits == s.commits && OnlyAt(b, s, s', i)
    ensures s'.status[i].Writing? && s'.status[i].todo == {}
    ensures SameRun(s.status[i], s'.status[i]) && (BrokenAt(b, s, i) ==> BrokenAt(b, s', i))
    decreases s.status[i].todo
  {
    if s.status[i].todo == {} {
      acts, s' := [], s;
    } else {
      var k :| k in s.status[i].todo;
      assert LocalAt(b, s, i);
      WriteStep(b, s, i, k);
      if BrokenAt(b, s, i) { WriteBroken(b, s, i, k); }
      var m := DoWrite(b, s, i, k);
      assert m.status[i].todo < s.status[i].todo;
      var rest;
      rest, s' := DriveWrites(b, m, i);
      acts := [Write(i, k)] + rest;
      Cons(b, s, Write(i, k), rest, s');
    }
  }

  /** Remove what is left of the previous incarnation. */
  lemma {:induction false} DriveRemoves(b: Block, s: State, i: nat) returns (acts: seq<Action>, s': State)
    requires Inv(b, s) && i < |b.txns| && s.status[i].Writing? && s.status[i].todo == {}
    ensures Reaches(b, s, acts, s') && Inv(b, s') && s'.commits == s.commits && OnlyAt(b, s, s', i)
    ensures s'.status[i].Writing? && s'.status[i].todo == {} && s'.status[i].stale == {}
    ensures SameRun(s.status[i], s'.status[i]) && s'.status[i].broken == s.status[i].broken
    decreases s.status[i].stale
  {
    if s.status[i].stale == {} {
      acts, s' := [], s;
    } else {
      var k :| k in s.status[i].stale;
      RemoveStep(b, s, i, k);
      var m := DoRemove(b, s, i, k);
      assert m.status[i].stale < s.status[i].stale;
      var rest;
      rest, s' := DriveRemoves(b, m, i);
      acts := [Remove(i, k)] + rest;
      Cons(b, s, Remove(i, k), rest, s');
    }
  }

  /** Mark the remaining entries of an aborted incarnation. */
  lemma {:induction false} DriveMarks(b: Block, s: State, i: nat) returns (acts: seq<Action>, s': State)
    requires Inv(b, s) && i < |b.txns| && s.status[i].Aborting?
    ensures Reaches(b, s, acts, s') && Inv(b, s') && s'.commits == s.commits
    ensures s'.status[i] == Aborting(s.status[i].inc, {}, s.status[i].atCommit)
    decreases s.status[i].todo
  {
    if s.status[i].todo == {} {
      acts, s' := [], s;
    } else {
      var k :| k in s.status[i].todo;
      assert LocalAt(b, s, i);
      MarkStep(b, s, i, k);
      var m := DoMark(b, s, i, k);
      assert m.status[i].todo < s.status[i].todo;
      var rest;
      rest, s' := DriveMarks(b, m, i);
      acts := [MarkEstimate(i, k)] + rest;
      Cons(b, s, MarkEstimate(i, k), rest, s');
    }
  }

  /** Removals, then the record. */
  lemma DriveRecord(b: Block, s: State, i: nat) returns (acts: seq<Action>, s': State)
    requires Inv(b, s) && i < |b.txns| && s.status[i].Writing? && s.status[i].todo == {}
    ensures Reaches(b, s, acts, s') && Inv(b, s') && s'.commits == s.commits && OnlyAt(b, s, s', i)
    ensures s'.records[i] == Some(Record(s.status[i].captured, s.status[i].outcome, s.status[i].broken))
    ensures s'.status[i] == if s.status[i].atCommit then Rechecking(s.status[i].inc) else Executed(s.status[i].inc)
  {
    var a1, m := DriveRemoves(b, s, i);
    EndExecutionStep(b, m, i);
    s' := DoEndExecution(b, m, i);
    Cons(b, m, EndExecution(i), [], s');
    Join(b, s, a1, m, [EndExecution(i)], s');
    acts := a1 + [EndExecution(i)];
  }

  /** Everything after the code has run. */
  lemma DrivePublication(b: Block, s: State, i: nat) returns (acts: seq<Action>, s': State)
    requires Inv(b, s) && i < |b.txns| && s.status[i].Writing?
    ensures Reaches(b, s, acts, s') && Inv(b, s') && s'.commits == s.commits
    ensures s'.records[i].Some? && OnlyAt(b, s, s', i)
    ensures s'.records[i].value == Record(s.status[i].captured, s.status[i].outcome, s'.records[i].value.failed)
    ensures BrokenAt(b, s, i) ==> BrokenExactly(b, s, i, WritesOf(s.status[i].outcome), {}, s'.records[i].value.failed)
    ensures s'.status[i] == if s.status[i].atCommit then Rechecking(s.status[i].inc) else Executed(s.status[i].inc)
  {
    var a1, m := DriveWrites(b, s, i);
    if BrokenAt(b, s, i) { SameBroken(b, m, s, i, WritesOf(s.status[i].outcome), {}, m.status[i].broken); }
    var a2;
    a2, s' := DriveRecord(b, m, i);
    Join(b, s, a1, m, a2, s');
    acts := a1 + a2;
  }

  /** An execution at the commit index can be completed; if its reads so far match what is below,
      all of its recorded reads do. */
  lemma DriveExecution(b: Block, s: State) returns (acts: seq<Action>, s': State)
    requires Inv(b, s) && NoCodeErrors(b) && s.commits < |b.txns|
    requires s.status[s.commits].Running? || s.status[s.commits].Writing?
    ensures Reaches(b, s, acts, s') && Inv(b, s') && s'.commits == s.commits
    ensures s'.records[s.commits].Some?
    ensures if s.status[s.commits].atCommit then s'.status[s.commits].Rechecking? else s'.status[s.commits].Executed?
    ensures AllReadsMatch(b, s, s.commits, s.status[s.commits].captured) ==>
      AllReadsMatch(b, s', s.commits, s'.records[s.commits].value.captured)
  {
    var i := s.commits;
    var a1, m1 := [], s;
    if s.status[i].Running? {
      FinalRun(b, s, s.status[i].captured);
      a1, m1 := DriveReads(b, s, i);
    }
    var a2;
    a2, s' := DrivePublication(b, m1, i);
    Join(b, s, a1, m1, a2, s');
    acts := a1 + a2;
    if AllReadsMatch(b, s, i, s.status[i].captured) {
      SameReads(b, s, s', i, m1.status[i].captured);
    }
  }

  /** Check the remaining reads. */
  lemma {:induction false} DriveChecks(b: Block, s: State, w: nat, i: nat) returns (acts: seq<Action>, s': State)
    requires Inv(b, s) && w in s.tasks && s.tasks[w].idx == i && s.tasks[w].current && s.tasks[w].ok
    requires s.status[i].Executed?
    requires s.tasks[w].inc == s.status[i].inc
    ensures Reaches(b, s, acts, s') && Inv(b, s') && s' == s.(tasks := s'.tasks)
    ensures w in s'.tasks && CanEndValidation(b, s', w)
    ensures s'.tasks[w] == s.tasks[w].(pos := s'.tasks[w].pos, ok := s'.tasks[w].ok)
    ensures DataReadsMatch(b, s, i, s.tasks[w].captured) ==> s'.tasks[w].ok
    decreases |s.tasks[w].captured| - s.tasks[w].pos
  {
    assert TaskOk(b, s, s.tasks[w]);
    if s.tasks[w].pos == |s.tasks[w].captured| {
      acts, s' := [], s;
    } else {
      CheckReadStep(b, s, w);
      var m := DoCheckRead(b, s, w);
      var rest := [];
      s' := m;
      if m.tasks[w].ok {
        rest, s' := DriveChecks(b, m, w, i);
      }
      acts := [CheckRead(w)] + rest;
      Cons(b, s, CheckRead(w), rest, s');
    }
  }

  lemma {:induction false} Above(ws: set<nat>) returns (w: nat)
    ensures forall x :: x in ws ==> x < w
  {
    if ws == {} {
      w := 0;
    } else {
      var x :| x in ws;
      var v := Above(ws - {x});
      w := if x < v then v else x + 1;
      forall y | y in ws ensures y < w {
        assert y == x || y in ws - {x};
      }
    }
  }

  /** A validation of an executed transaction either counts, or makes it ready to run again; the
      latter only if a data read no longer matches. */
  lemma DriveValidation(b: Block, s: State) returns (acts: seq<Action>, s': State)
    requires Inv(b, s) && s.commits < |b.txns| && s.status[s.commits].Executed?
    ensures Reaches(b, s, acts, s') && Inv(b, s') && s'.commits == s.commits
    ensures var c := s.commits;
      || Offered(b, s')
      || (s'.status[c].Ready? && s.records[c].Some? && !DataReadsMatch(b, s, c, s.records[c].value.captured))
  {
    var i := s.commits;
    assert LocalAt(b, s, i);
    var w := Above(s.tasks.Keys);
    StartValidationStep(b, s, w, i);
    var m := DoStartValidation(b, s, w, i);
    var checks, n := DriveChecks(b, m, w, i);
    var rest;
    rest, s' := DriveDecision(b, n, w);
    Join(b, m, checks, n, rest, s');
    Cons(b, s, StartValidation(w, i), checks + rest, s');
    acts := [StartValidation(w, i)] + (checks + rest);
  }

  /** The end of a validation: the transaction is offered, or aborted and made ready. */
  lemma DriveDecision(b: Block, s: State, w: nat) returns (acts: seq<Action>, s': State)
    requires Inv(b, s) && s.commits < |b.txns| && s.status[s.commits].Executed?
    requires w in s.tasks && CanEndValidation(b, s, w)
    requires s.tasks[w].idx == s.commits && s.tasks[w].current && s.tasks[w].inc == s.status[s.commits].inc
    ensures Reaches(b, s, acts, s') && Inv(b, s') && s'.commits == s.commits
    ensures if s.tasks[w].ok then Offered(b, s') else s'.status[s.commits].Ready?
  {
    EndValidationStep(b, s, w);
    var o := DoEndValidation(b, s, w);
    var rest := [];
    s' := o;
    if !s.tasks[w].ok {
      rest, s' := DriveAbort(b, o);
    }
    Cons(b, s, EndValidation(w), rest, s');
    acts := [EndValidation(w)] + rest;
  }

  lemma DriveAbort(b: Block, s: State) returns (acts: seq<Action>, s': State)
    requires Inv(b, s) && s.commits < |b.txns| && s.status[s.commits].Aborting? && !s.status[s.commits].atCommit
    ensures Reaches(b, s, acts, s') && Inv(b, s') && s'.commits == s.commits && s'.status[s.commits].Ready?
  {
    var i := s.commits;
    var a1, m := DriveMarks(b, s, i);
    EndAbortStep(b, m, i);
    s' := DoEndAbort(b, m, i);
    Cons(b, m, EndAbort(i), [], s');
    Join(b, s, a1, m, [EndAbort(i)], s');
    acts := a1 + [EndAbort(i)];
  }

  /** From the start of an execution at the commit index the transaction gets offered. */
  lemma DriveReady(b: Block, s: State) returns (acts: seq<Action>, s': State)
    requires Inv(b, s) && NoCodeErrors(b) && s.commits < |b.txns| && s.status[s.commits].Ready?
    ensures Reaches(b, s, acts, s') && Inv(b, s') && s'.commits == s.commits && Offered(b, s')
  {
    var i := s.commits;
    StartStep(b, s, i);
    var m := DoStart(b, s, i);
    var a1, n := DriveExecution(b, m);
    var a2;
    a2, s' := DriveValidation(b, n);
    Join(b, m, a1, n, a2, s');
    Cons(b, s, Start(i), a1 + a2, s');
    acts := [Start(i)] + (a1 + a2);
  }

  /** The final re-execution can be completed up to the two validations that follow it. */
  lemma DriveToRecheck(b: Block, s: State) returns (acts: seq<Action>, s': State)
    requires Inv(b, s) && NoCodeErrors(b) && s.commits < |b.txns| && AtCommit(s.status[s.commits])
    ensures Reaches(b, s, acts, s') && Inv(b, s') && s'.commits == s.commits && AtRecheck(b, s')
    decreases if s.status[s.commits].Aborting? then 1 else 0
  {
    var i := s.commits;
    if s.status[i].Rechecking? {
      acts, s' := [], s;
    } else if s.status[i].Aborting? {
      var a1, n := DriveMarks(b, s, i);
      RestartStep(b, n);
      var m := DoRestart(b, n);
      var rest;
      rest, s' := DriveToRecheck(b, m);
      Cons(b, n, Restart, rest, s');
      Join(b, s, a1, n, [Restart] + rest, s');
      acts := a1 + ([Restart] + rest);
    } else {
      acts, s' := DriveExecution(b, s);
    }
  }

  /** An offered transaction that cannot be committed as it is gets its final re-execution. */
  lemma DriveReexecution(b: Block, s: State) returns (acts: seq<Action>, s': State)
    requires Inv(b, s) && NoCodeErrors(b) && Offered(b, s) && !CanCommit(b, s)
    ensures Reaches(b, s, acts, s') && Inv(b, s') && s'.commits == s.commits && AtRecheck(b, s')
  {
    ReexecuteStep(b, s);
    var m := DoReexecute(b, s);
    var rest;
    rest, s' := DriveToRecheck(b, m);
    Cons(b, s, Reexecute, rest, s');
    acts := [Reexecute] + rest;
  }

  /** Get the transaction at the commit index offered, whatever it is doing. */
  lemma DriveToOffer(b: Block, s: State) returns (acts: seq<Action>, s': State)
    requires Inv(b, s) && NoCodeErrors(b) && s.commits < |b.txns| && !AtCommit(s.status[s.commits])
    ensures Reaches(b, s, acts, s') && Inv(b, s') && s'.commits == s.commits && Offered(b, s')
    decreases
      var st := s.status[s.commits]; if st.Ready? then 0 else if st.Aborting? then 1 else if st.Executed? then 2 else 3
  {
    var a1, m, a2;
    if s.status[s.commits].Ready? {
      acts, s' := DriveReady(b, s);
      return;
    } else if s.status[s.commits].Aborting? {
      a1, m := DriveAbort(b, s);
    } else if s.status[s.commits].Executed? {
      a1, m := DriveValidation(b, s);
      if Offered(b, m) {
        acts, s' := a1, m;
        return;
      }
    } else {
      a1, m := DriveExecution(b, s);
    }
    a2, s' := DriveToOffer(b, m);
    Join(b, s, a1, m, a2, s');
    acts := a1 + a2;
  }

  /** The next transaction can be driven to the decision about its commit: it is ready to commit, or
      has had its final re-execution. */
  lemma DriveToDecision(b: Block, s: State) returns (acts: seq<Action>, s': State)
    requires Inv(b, s) && NoCodeErrors(b) && s.commits < |b.txns|
    ensures Reaches(b, s, acts, s') && Inv(b, s') && s'.commits == s.commits
    ensures CanCommit(b, s') || AtRecheck(b, s')
  {
    if AtCommit(s.status[s.commits]) {
      acts, s' := DriveToRecheck(b, s);
    } else {
      var a1, m := DriveToOffer(b, s);
      acts, s' := a1, m;
      if !CanCommit(b, m) {
        var a2;
        a2, s' := DriveReexecution(b, m);
        Join(b, s, a1, m, a2, s');
        acts := a1 + a2;
      }
    }
  }

  /** If its serial run is certain, a commit step is then enabled. */
  lemma DriveToCommit(b: Block, s: State) returns (acts: seq<Action>, s': State, a: Action)
    requires Inv(b, s) && NoCodeErrors(b) && s.commits < |b.txns| && Certain(b, s.commits)
    ensures Reaches(b, s, acts, s') && Inv(b, s') && s'.commits == s.commits
    ensures (a.Commit? || a.Recheck?) && Enabled(b, s', a)
  {
    acts, s' := DriveToDecision(b, s);
    a := if CanCommit(b, s') then Commit else Recheck;
    if !CanCommit(b, s') { RecheckCertain(b, s'); }
  }

  /** No reachable state is stuck: some continuation commits one more transaction. */
  lemma NeverStuck(b: Block, before: seq<Action>, s: State) returns (acts: seq<Action>, s': State)
    requires Reaches(b, Init(b), before, s) && Sized(b, s) && s.commits < |b.txns|
    requires NoCodeErrors(b) && Certain(b, s.commits)
    ensures Reaches(b, Init(b), before + acts, s') && s'.commits == s.commits + 1
  {
    InitInv(b);
    Steps(b, Init(b), before, s);
    var a1, m, a := DriveToCommit(b, s);
    s' := DoCommit(b, m);
    Cons(b, m, a, [], s');
    Join(b, s, a1, m, [a], s');
    acts := a1 + [a];
    Join(b, Init(b), before, s, acts, s');
  }

  /** The condition is needed: if the serial run of the next transaction is not certain, every
      reachable state leads to a final re-execution whose validation fails. */
  lemma RecheckCanFail(b: Block, before: seq<Action>, s: State) returns (acts: seq<Action>, s': State)
    requires Reaches(b, Init(b), before, s) && Sized(b, s) && s.commits < |b.txns|
    requires NoCodeErrors(b) && !Certain(b, s.commits)
    ensures Reaches(b, Init(b), before + acts, s') && Sized(b, s') && AtRecheck(b, s') && !RecheckPasses(b, s')
  {
    InitInv(b);
    Steps(b, Init(b), before, s);
    acts, s' := DriveToDecision(b, s);
    Join(b, Init(b), before, s, acts, s');
    CommitsOnlyCertain(b, s');
    RecheckCertain(b, s');
  }

  /** Both causes occur: code that halts in a speculative abort, and a change above its bound. */
  lemma UncertainBlocks() returns (aborts: Block, exceeds: Block)
    ensures |aborts.txns| == |exceeds.txns| == 1 && NoCodeErrors(aborts) && NoCodeErrors(exceeds)
    ensures SerialTrace(aborts, 0).outcome.SpeculativeAbort? && !Certain(aborts, 0)
    ensures Kept(SerialTrace(exceeds, 0).outcome) && !Certain(exceeds, 0)
  {
    aborts := Block([Txn(_ => Halt(SpeculativeAbort), 0, SpeculativeAbort)], map[]);
    var field := Delayed(0);
    var writes := map[field := Change(1, 0)];
    exceeds := Block([Txn(_ => Halt(SpeculativeAbort), 0, Success(Output(writes, 0)))], map[field := Present(0)]);
    assert !Applies(writes[field], Look(exceeds.base, SerialOver(exceeds, 0), field));
  }

  lemma CommitsOnlyCertain(b: Block, s: State)
    requires Inv(b, s) && s.commits < |b.txns|
    ensures CanCommit(b, s) ==> Certain(b, s.commits)
  {
    if CanCommit(b, s) {
      OfferedMatches(b, s);
      CommitIsSerial(b, s);
      CertainExactly(b, s);
    }
  }

  /** Hence from every reachable state the whole block can still be committed. */
  lemma {:induction false} CanFinish(b: Block, before: seq<Action>, s: State) returns (acts: seq<Action>, s': State)
    requires Reaches(b, Init(b), before, s) && Sized(b, s) && NoCodeErrors(b)
    requires forall i :: 0 <= i < |b.txns| ==> Certain(b, i)
    ensures Reaches(b, Init(b), before + acts, s') && s'.commits == |b.txns|
    decreases |b.txns| - s.commits
  {
    if s.commits == |b.txns| {
      acts, s' := [], s;
      assert before + acts == before;
    } else {
      var a1, m := NeverStuck(b, before, s);
      StaysSized(b, Init(b), before + a1, m);
      var a2;
      a2, s' := CanFinish(b, before + a1, m);
      acts := a1 + a2;
      assert before + acts == before + a1 + a2;
    }
  }

  lemma {:induction false} StaysSized(b: Block, s: State, acts: seq<Action>, s': State)
    requires Reaches(b, s, acts, s')
    ensures Sized(b, s')
    decreases |acts|
  {
    if acts != [] {
      StaysSized(b, Apply(b, s, acts[0]), acts[1..], s');
    }
  }

  /** An uninterrupted execution of any ready transaction whose run does not wait is a run of the
      machine, and leaves exactly the layer and record of that run. */
  lemma WholeExecution(b: Block, s: State, i: nat) returns (acts: seq<Action>, s': State)
    requires Inv(b, s) && i < |b.txns| && s.status[i].Ready?
    requires var r := RunAgainst(b.txns[i], b.base, s.layers, i, []); r.Stopped? && !r.outcome.CodeInvariantError?
    ensures Reaches(b, s, acts, s') && Inv(b, s')
    ensures var r := RunAgainst(b.txns[i], b.base, s.layers, i, []);
      && s'.status == s.status[i := Executed(s.status[i].inc)]
      && s'.layers == s.layers[i := Published(s.status[i].inc, WritesOf(r.outcome))]
      && s'.records[i].Some?
      && s'.records == s.records[i := Some(Record(r.captured, r.outcome, s'.records[i].value.failed))]
      && BrokenExactly(b, s, i, WritesOf(r.outcome), {}, s'.records[i].value.failed)
  {
    StartStep(b, s, i);
    var m := DoStart(b, s, i);
    var rest;
    rest, s' := DriveRunning(b, m, i);
    assert LocalAt(b, s', i);
    Cons(b, s, Start(i), rest, s');
    acts := [Start(i)] + rest;
  }

  /** A running transaction, from where it is to its record. */
  lemma DriveRunning(b: Block, s: State, i: nat) returns (acts: seq<Action>, s': State)
    requires Inv(b, s) && i < |b.txns| && s.status[i].Running?
    requires var r := RunAgainst(b.txns[i], b.base, s.layers, i, s.status[i].captured);
      r.Stopped? && !r.outcome.CodeInvariantError?
    ensures Reaches(b, s, acts, s') && Inv(b, s') && s'.commits == s.commits && OnlyAt(b, s, s', i)
    ensures var r := RunAgainst(b.txns[i], b.base, s.layers, i, s.status[i].captured);
      && s'.records[i].Some? && s'.records[i].value == Record(r.captured, r.outcome, s'.records[i].value.failed)
      && BrokenExactly(b, s, i, WritesOf(r.outcome), {}, s'.records[i].value.failed)
    ensures s'.status[i] == if s.status[i].atCommit then Rechecking(s.status[i].inc) else Executed(s.status[i].inc)
  {
    var a1, m := DriveReads(b, s, i);
    assert BrokenAt(b, m, i);
    var a2;
    a2, s' := DrivePublication(b, m, i);
    Join(b, s, a1, m, a2, s');
    acts := a1 + a2;
  }
}
