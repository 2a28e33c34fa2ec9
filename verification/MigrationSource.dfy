// Every store the engine can leave is a session a migration can read.
module MigrationSource {
  import opened Identity
  import opened Replay
  import opened ReplaySafety
  import opened Migration
  import opened Rebuilding
  import opened MigrationChain

  // The code's calls carry the digests of their own arguments.
  ghost predicate CallsAreHashed(hash: Hash, program: Program) {
    forall self, history :: program(self, history).Call? ==> Hashed(hash, program(self, history).arguments)
  }

  ghost predicate RecordsAreHashed(hash: Hash, disk: Disk) {
    forall x :: x in disk.records ==> Hashed(hash, disk.records[x].arguments)
  }

  lemma {:induction false} StepKeepsHashed(hash: Hash, p: Process, m: Machine)
    requires WellFormed(p, m) && CallsAreHashed(hash, p.program) && RecordsAreHashed(hash, m.disk)
    ensures RecordsAreHashed(hash, Step(p, m).disk)
  {
    hide Hashed;
    var frame := m.stack.frame;
    assert NextAction(p.program, frame).Call? ==> Hashed(hash, NextAction(p.program, frame).arguments);
  }

  lemma {:induction false} RunKeepsHashed(hash: Hash, p: Process, m: Machine, steps: nat)
    requires WellFormed(p, m) && CallsAreHashed(hash, p.program) && RecordsAreHashed(hash, m.disk)
    ensures RecordsAreHashed(hash, Run(p, m, steps).disk)
  {
    hide Step, RecordsAreHashed, CallsAreHashed;
    if steps > 0 {
      RunKeepsHashed(hash, p, m, steps - 1);
      StepKeepsHashed(hash, p, Run(p, m, steps - 1));
    }
  }

  lemma {:induction false} HistoriesAreHashed(hash: Hash, attempts: seq<Attempt>)
    requires forall i :: 0 <= i < |attempts| ==> CallsAreHashed(hash, attempts[i].process.program)
    ensures RecordsAreHashed(hash, After(attempts, EMPTY))
  {
    hide CallsAreHashed;
    if attempts != [] {
      var init, last := attempts[..|attempts| - 1], attempts[|attempts| - 1];
      HistoriesAreHashed(hash, init);
      RunKeepsHashed(hash, last.process, Begin(After(init, EMPTY)), last.steps);
    }
  }

  lemma {:induction false} ChainIsCovered(disk: Disk, x: ExecutionId)
    requires ValidDisk(disk) && x in disk.records
    ensures DomainsIn(x) <= disk.versions.Keys
  {
    if x.parent.Some? { ChainIsCovered(disk, x.parent.value); }
  }

  // Whatever code worked on a session and wherever each attempt was interrupted, what the
  // store holds is a sound session with every ancestor stored.
  lemma {:induction false} ReachedStoresAreSources(hash: Hash, attempts: seq<Attempt>, executions: seq<Execution>)
    requires forall i :: 0 <= i < |attempts| ==> CallsAreHashed(hash, attempts[i].process.program)
    requires UniqueIds(executions) && Indexes(After(attempts, EMPTY).records, executions)
    ensures var session := StoredSession(After(attempts, EMPTY).versions, executions);
      SoundSession(hash, session) && ParentClosed(session)
  {
    hide CallsAreHashed, ValidExecution, Hashed;
    var disk := After(attempts, EMPTY);
    HistoriesLeaveValidStores(attempts);
    HistoriesAreHashed(hash, attempts);
    forall e | e in executions
      ensures DomainsIn(e.id) <= disk.versions.Keys && ValidExecution(e) && Hashed(hash, e.arguments)
      ensures e.id.parent.Some? ==> exists f :: f in executions && f.id == e.id.parent.value
    {
      assert e.id in disk.records && disk.records[e.id] == e;
      ChainIsCovered(disk, e.id);
      if e.id.parent.Some? {
        assert disk.records[e.id.parent.value] in executions;
      }
    }
  }
}
