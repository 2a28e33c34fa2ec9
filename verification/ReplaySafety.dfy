// What holds of every store a session can reach, whatever the code, the versions and the
// pruning of the processes that worked on it, and wherever each was interrupted.
module ReplaySafety {
  import opened Wrappers
  import opened Canonical
  import opened Identity
  import opened Replay

  // ---- Valid stores -----------------------------------------------------------------

  // What a migration needs of its source: aggregates are consistent, ancestors are
  // stored, and every domain in an identity chain has a version.
  ghost predicate ValidDisk(disk: Disk) {
    forall x :: x in disk.records ==>
      && disk.records[x].id == x
      && ValidExecution(disk.records[x])
      && (x.parent.Some? ==> x.parent.value in disk.records)
      && x.domain in disk.versions
  }

  // Every call of a stack is recorded as started.
  ghost predicate Alive(stack: Stack, disk: Disk) {
    stack.Inside? ==>
      && stack.frame.self.Some?
      && stack.frame.self.value in disk.records
      && disk.records[stack.frame.self.value].status == Started
      && Alive(stack.caller, disk)
  }

  ghost predicate Good(p: Process, m: Machine) {
    && WellFormed(p, m)
    && ValidDisk(m.disk)
    && (if m.phase.Completing? then
          Alive(m.stack.caller, m.disk) && IsCompleted(m.disk, m.stack.frame.self.value)
        else Alive(m.stack, m.disk))
    && (m.phase.Entering? ==>
        var domain := NextAction(p.program, m.stack.frame).domain;
        domain in m.disk.versions && m.disk.versions[domain] == p.version(domain))
  }

  // ---- What a call changes lies at its own record or below ----------------------------

  ghost predicate SameAt(before: Disk, after: Disk, x: ExecutionId) {
    && (x in before.records <==> x in after.records)
    && (x in before.records ==> after.records[x] == before.records[x])
  }

  // Only records at `id` or below it differ.
  ghost predicate Within(before: Disk, after: Disk, id: ExecutionId) {
    forall x :: x != id && !Under(x, id) ==> SameAt(before, after, x)
  }

  // The calls that led to `id` are none of them at or below it.
  lemma {:induction false} AliveOutside(p: Process, stack: Stack, before: Disk, after: Disk, id: ExecutionId)
    requires Stacked(p, stack) && Alive(stack, before) && Within(before, after, id)
    requires Below(id, stack.frame.self)
    ensures Alive(stack, after)
  {
    if stack.Inside? {
      var self := stack.frame.self.value;
      NotUnderItself(self);
      if Under(self, id) { UnderTransitive(self, id, self); }
      assert SameAt(before, after, self);
      if stack.caller.frame.self.Some? {
        UnderTransitive(id, self, stack.caller.frame.self.value);
      }
      AliveOutside(p, stack.caller, before, after, id);
    }
  }

  // ---- Each step keeps the store valid ------------------------------------------------

  lemma {:induction false} PruneKeepsValid(disk: Disk, id: ExecutionId)
    requires ValidDisk(disk)
    ensures ValidDisk(Prune(disk, id)) && Within(disk, Prune(disk, id), id)
    ensures SameAt(disk, Prune(disk, id), id)
  {
    NotUnderItself(id);
  }

  lemma {:induction false} CompleteKeepsValid(
    disk: Disk, id: ExecutionId, value: Payload, metadata: map<string, Payload>)
    requires ValidDisk(disk) && id in disk.records
    ensures ValidDisk(CompleteCall(disk, id, value, metadata))
    ensures Within(disk, CompleteCall(disk, id, value, metadata), id)
  {
  }

  lemma {:induction false} StartKeepsValid(disk: Disk, id: ExecutionId, arguments: CanonicalArguments)
    requires ValidDisk(disk) && id.digest == arguments.digest && id.domain in disk.versions
    requires id.parent.Some? ==> id.parent.value in disk.records
    ensures ValidDisk(StartCall(disk, id, arguments))
    ensures Within(disk, StartCall(disk, id, arguments), id)
  {
  }

  // A frame ends over a store where its callers are recorded as started.
  lemma {:induction false} EndIsGood(p: Process, m: Machine, outcome: Outcome)
    requires Stacked(p, m.stack) && ValidDisk(m.disk)
    requires m.stack.Inside? ==> Alive(m.stack.caller, m.disk)
    ensures Good(p, End(p, m, outcome))
  {
    hide ValidDisk;
    if m.stack.Inside? {
      var caller := m.stack.caller;
      AliveUnder(caller, Answered(caller.frame, NextAction(p.program, caller.frame), outcome), m.disk);
    } else {
      assert Alive(m.stack, m.disk);
    }
  }

  // Being alive is about whose frame is on top, not what it has observed.
  lemma {:induction false} AliveUnder(stack: Stack, frame: Frame, disk: Disk)
    requires Alive(stack, disk) && frame.self == stack.frame.self
    ensures Alive(stack.(frame := frame), disk)
  {
  }

  lemma {:induction false} CompleteIsGood(p: Process, m: Machine, value: Payload)
    requires Good(p, m) && m.phase.Running? && NextAction(p.program, m.stack.frame) == Return(value)
    ensures Good(p, Complete(p, m, value))
  {
    hide End, ValidDisk, Within, CompleteCall;
    var frame := m.stack.frame;
    EndIsGood(p, m, Returned(value));
    EndIsGood(p, m, Raised(ExecutionNotFound));
    EndIsGood(p, m, Raised(AlreadyCompleted));
    if m.stack.Inside? {
      var completed := CompleteCall(m.disk, frame.self.value, value, frame.metadata);
      CompleteKeepsValid(m.disk, frame.self.value, value, frame.metadata);
      AliveOutside(p, m.stack.caller, m.disk, completed, frame.self.value);
      EndIsGood(p, m.(disk := completed), Returned(value));
      CompletedIsCompleted(m.disk, frame.self.value, value, frame.metadata);
    }
  }

  lemma {:induction false} CompletedIsCompleted(
    disk: Disk, id: ExecutionId, value: Payload, metadata: map<string, Payload>)
    requires id in disk.records
    ensures IsCompleted(CompleteCall(disk, id, value, metadata), id)
  {
  }

  lemma {:induction false} StepKeepsGood(p: Process, m: Machine)
    requires Good(p, m)
    ensures Good(p, Step(p, m))
  {
    hide ValidDisk, End, Complete, Prune, Within;
    var frame := m.stack.frame;
    var action := NextAction(p.program, frame);
    match m.phase
    case Finished(_) =>
    case Completing =>
      PruneKeepsValid(m.disk, frame.self.value);
      AliveOutside(p, m.stack.caller, m.disk, Prune(m.disk, frame.self.value), frame.self.value);
      EndIsGood(p, m.(disk := Prune(m.disk, frame.self.value)), Returned(action.value));
    case Entering => EnterIsGood(p, m);
    case Running =>
      match action
      case Return(value) => CompleteIsGood(p, m, value);
      case Raise(error) => EndIsGood(p, m, Raised(error));
      case Call(domain, _, _) => ClaimIsGood(p, m);
      case _ => AliveUnder(m.stack, Noted(frame, action), m.disk);
  }

  lemma {:induction false} EnterIsGood(p: Process, m: Machine)
    requires Good(p, m) && m.phase.Entering?
    ensures Good(p, Enter(p, m))
  {
    hide Within;
    var frame := m.stack.frame;
    var action := NextAction(p.program, frame);
    var id := CallId(frame, action);
    StartKeepsValid(m.disk, id, action.arguments);
    hide ValidDisk;
    AliveOutside(p, m.stack, m.disk, StartCall(m.disk, id, action.arguments), id);
  }

  lemma {:induction false} ClaimIsGood(p: Process, m: Machine)
    requires Good(p, m) && m.phase.Running? && NextAction(p.program, m.stack.frame).Call?
    ensures Good(p, Advanced(p, m))
  {
    var action := NextAction(p.program, m.stack.frame);
    AliveClaimed(m.stack, m.disk, Claim(m.disk, action.domain, p.version(action.domain)));
  }

  lemma {:induction false} AliveClaimed(stack: Stack, before: Disk, after: Disk)
    requires Alive(stack, before) && after.records == before.records
    ensures Alive(stack, after)
  {
    if stack.Inside? { AliveClaimed(stack.caller, before, after); }
  }

  lemma {:induction false} BeginIsGood(p: Process, disk: Disk)
    requires ValidDisk(disk)
    ensures Good(p, Begin(disk)) && WellFormed(p, Begin(disk))
  {
  }

  lemma {:induction false} RunKeepsGood(p: Process, m: Machine, steps: nat)
    requires Good(p, m)
    ensures Good(p, Run(p, m, steps))
  {
    hide Step;
    if steps > 0 {
      RunKeepsGood(p, m, steps - 1);
      StepKeepsGood(p, Run(p, m, steps - 1));
    }
  }

  // Any history of attempts leaves a store every record of which has its ancestors stored
  // and a version for each domain of its chain.
  lemma {:induction false} HistoriesLeaveValidStores(attempts: seq<Attempt>)
    ensures ValidDisk(After(attempts, EMPTY))
  {
    if attempts != [] {
      var init := attempts[..|attempts| - 1];
      HistoriesLeaveValidStores(init);
      var last := attempts[|attempts| - 1];
      RunKeepsGood(last.process, Begin(After(init, EMPTY)), last.steps);
    }
  }

  // ---- Progress is final --------------------------------------------------------------

  // The call or one it was made from is completed, so its body is out of reach.
  ghost predicate Settled(disk: Disk, id: ExecutionId) {
    IsCompleted(disk, id) || (id.parent.Some? && Settled(disk, id.parent.value))
  }

  // A record stays as it is or is completed. It disappears only once a call above it is
  // completed, and what is settled stays settled and is never recorded anew.
  ghost predicate Moves(before: Disk, after: Disk, x: ExecutionId) {
    && (Settled(before, x) ==> Settled(after, x) && (x !in before.records ==> x !in after.records))
    && (x in before.records && x in after.records && after.records[x] != before.records[x] ==>
        && before.records[x].status == Started
        && after.records[x].status == Completed
        && after.records[x].arguments == before.records[x].arguments)
    && (x in before.records && x !in after.records ==>
        x.parent.Some? && Settled(after, x.parent.value))
  }

  ghost predicate Progress(before: Disk, after: Disk) {
    forall x :: Moves(before, after, x)
  }

  lemma {:induction false} ProgressTransitive(first: Disk, second: Disk, third: Disk)
    requires Progress(first, second) && Progress(second, third)
    ensures Progress(first, third)
  {
    forall x ensures Moves(first, third, x) {
      assert Moves(first, second, x) && Moves(second, third, x);
      if x.parent.Some? {
        assert Moves(second, third, x.parent.value);
      }
    }
  }

  lemma {:induction false} SettledGrows(before: Disk, after: Disk, x: ExecutionId)
    requires forall y :: IsCompleted(before, y) ==> IsCompleted(after, y)
    ensures Settled(before, x) ==> Settled(after, x)
  {
    if x.parent.Some? { SettledGrows(before, after, x.parent.value); }
  }

  // Nothing above a running call is completed.
  lemma {:induction false} AliveIsUnsettled(p: Process, stack: Stack, disk: Disk)
    requires Stacked(p, stack) && Alive(stack, disk) && stack.Inside?
    ensures !Settled(disk, stack.frame.self.value)
  {
    if stack.caller.Inside? { AliveIsUnsettled(p, stack.caller, disk); }
  }

  lemma {:induction false} UnderSettled(disk: Disk, id: ExecutionId, x: ExecutionId)
    requires IsCompleted(disk, id) && Under(x, id)
    ensures Settled(disk, x.parent.value)
  {
    if x.parent.value != id { UnderSettled(disk, id, x.parent.value); }
  }

  lemma {:induction false} PruneKeepsSettled(disk: Disk, id: ExecutionId, x: ExecutionId)
    requires IsCompleted(disk, id) && Settled(disk, x)
    ensures Settled(Prune(disk, id), x)
  {
    NotUnderItself(id);
    assert IsCompleted(Prune(disk, id), id);
    if Under(x, id) {
      UnderSettled(Prune(disk, id), id, x);
    } else if !IsCompleted(disk, x) {
      PruneKeepsSettled(disk, id, x.parent.value);
    }
  }

  lemma {:induction false} PruneProgress(disk: Disk, id: ExecutionId)
    requires IsCompleted(disk, id)
    ensures Progress(disk, Prune(disk, id))
  {
    var after := Prune(disk, id);
    NotUnderItself(id);
    assert IsCompleted(after, id);
    forall x ensures Moves(disk, after, x) {
      if Settled(disk, x) { PruneKeepsSettled(disk, id, x); }
      if Under(x, id) { UnderSettled(after, id, x); }
    }
  }

  lemma {:induction false} CompleteProgress(
    disk: Disk, id: ExecutionId, value: Payload, metadata: map<string, Payload>)
    requires id in disk.records && disk.records[id].status == Started
    ensures Progress(disk, CompleteCall(disk, id, value, metadata))
  {
    var after := CompleteCall(disk, id, value, metadata);
    forall x ensures Moves(disk, after, x) { SettledGrows(disk, after, x); }
  }

  lemma {:induction false} StartProgress(disk: Disk, id: ExecutionId, arguments: CanonicalArguments)
    requires !Settled(disk, id)
    ensures Progress(disk, StartCall(disk, id, arguments))
  {
    var after := StartCall(disk, id, arguments);
    forall x ensures Moves(disk, after, x) { SettledGrows(disk, after, x); }
  }

  lemma {:induction false} SameRecordsProgress(before: Disk, after: Disk)
    requires before.records == after.records
    ensures Progress(before, after)
  {
    forall x ensures Moves(before, after, x) { SettledGrows(before, after, x); }
  }

  // A call is entered only if it is not settled, or answered from its record.
  lemma {:induction false} EnteredIsUnsettled(p: Process, m: Machine)
    requires Good(p, m) && m.phase.Entering?
    ensures var id := CallId(m.stack.frame, NextAction(p.program, m.stack.frame));
      !IsCompleted(m.disk, id) ==> !Settled(m.disk, id)
  {
    if m.stack.Inside? { AliveIsUnsettled(p, m.stack, m.disk); }
  }

  lemma {:induction false} StepProgress(p: Process, m: Machine)
    requires Good(p, m)
    ensures Progress(m.disk, Step(p, m).disk)
    ensures forall x :: x in Step(p, m).disk.records && x !in m.disk.records ==>
      m.phase.Entering? && Step(p, m).disk.records[x] == StartRecord(x, NextAction(p.program, m.stack.frame).arguments)
  {
    forall x | x in Step(p, m).disk.records && x !in m.disk.records
      ensures m.phase.Entering?
      ensures Step(p, m).disk.records[x] == StartRecord(x, NextAction(p.program, m.stack.frame).arguments)
    {
      RecordsStart(p, m, x);
    }
    StepMoves(p, m);
  }

  lemma {:induction false} StepMoves(p: Process, m: Machine)
    requires Good(p, m)
    ensures Progress(m.disk, Step(p, m).disk)
  {
    var frame := m.stack.frame;
    var action := NextAction(p.program, frame);
    match m.phase
    case Finished(_) => SameRecordsProgress(m.disk, m.disk);
    case Completing => PruneProgress(m.disk, frame.self.value);
    case Entering =>
      var id := CallId(frame, action);
      EnteredIsUnsettled(p, m);
      if IsCompleted(m.disk, id) {
        SameRecordsProgress(m.disk, m.disk);
      } else {
        StartProgress(m.disk, id, action.arguments);
      }
    case Running =>
      if action.Return? && m.stack.Inside? {
        CompleteProgress(m.disk, frame.self.value, action.value, frame.metadata);
      } else {
        SameRecordsProgress(m.disk, Step(p, m).disk);
      }
  }

  // A record appears in one way: the START transaction saves it.
  lemma {:induction false} RecordsStart(p: Process, m: Machine, x: ExecutionId)
    requires Good(p, m) && x in Step(p, m).disk.records && x !in m.disk.records
    ensures m.phase.Entering? && x == CallId(m.stack.frame, NextAction(p.program, m.stack.frame))
    ensures Step(p, m).disk.records[x] == StartRecord(x, NextAction(p.program, m.stack.frame).arguments)
  {
    hide End, Under, ValidDisk, Alive, FreshFrame, Answered, Noted, Refused;
    var frame := m.stack.frame;
    var action := NextAction(p.program, frame);
    if m.phase.Completing? {
      EndKeepsDisk(p, m.(disk := Prune(m.disk, frame.self.value)), Returned(action.value));
    } else if m.phase.Running? {
      if action.Return? {
        EndKeepsDisk(p, m, Returned(action.value));
        EndKeepsDisk(p, m, Raised(ExecutionNotFound));
        EndKeepsDisk(p, m, Raised(AlreadyCompleted));
        if m.stack.Inside? && frame.self.value in m.disk.records {
          EndKeepsDisk(p,
            m.(disk := CompleteCall(m.disk, frame.self.value, action.value, frame.metadata)), Returned(action.value));
        }
      } else if action.Raise? {
        EndKeepsDisk(p, m, Raised(action.error));
      }
    }
  }

  // Over an attempt: a record that was not there before it appeared as started at some
  // step, whatever has become of it since.
  lemma {:induction false} RecordsAppearStarted(p: Process, disk: Disk, steps: nat, x: ExecutionId) returns (k: nat)
    requires ValidDisk(disk) && x in Run(p, Begin(disk), steps).disk.records && x !in disk.records
    ensures k < steps && x !in Run(p, Begin(disk), k).disk.records
    ensures x in Run(p, Begin(disk), k + 1).disk.records
    ensures exists arguments :: Run(p, Begin(disk), k + 1).disk.records[x] == StartRecord(x, arguments)
  {
    hide Step, Good, ValidDisk;
    BeginIsGood(p, disk);
    assert steps > 0;
    RunKeepsGood(p, Begin(disk), steps - 1);
    var m := Run(p, Begin(disk), steps - 1);
    if x in m.disk.records {
      k := RecordsAppearStarted(p, disk, steps - 1, x);
    } else {
      RecordsStart(p, m, x);
      k := steps - 1;
    }
  }

  // Over any history of attempts, too.
  lemma {:induction false} HistoriesAppearStarted(attempts: seq<Attempt>, disk: Disk, x: ExecutionId)
    returns (i: nat, k: nat)
    requires ValidDisk(disk) && x in After(attempts, disk).records && x !in disk.records
    ensures i < |attempts| && k < attempts[i].steps
    ensures var begun := Begin(After(attempts[..i], disk));
      && x !in Run(attempts[i].process, begun, k).disk.records
      && x in Run(attempts[i].process, begun, k + 1).disk.records
      && exists arguments :: Run(attempts[i].process, begun, k + 1).disk.records[x] == StartRecord(x, arguments)
  {
    hide Run, ValidDisk, Progress, StartRecord;
    var init, last := attempts[..|attempts| - 1], attempts[|attempts| - 1];
    HistoriesProgress(init, disk);
    if x in After(init, disk).records {
      i, k := HistoriesAppearStarted(init, disk, x);
      assert init[..i] == attempts[..i];
    } else {
      i := |attempts| - 1;
      k := RecordsAppearStarted(last.process, After(init, disk), last.steps, x);
    }
  }

  lemma {:induction false} RunProgress(p: Process, disk: Disk, steps: nat)
    requires ValidDisk(disk)
    ensures Progress(disk, Run(p, Begin(disk), steps).disk)
  {
    hide Step;
    if steps == 0 {
      SameRecordsProgress(disk, disk);
    } else {
      var m := Run(p, Begin(disk), steps - 1);
      RunProgress(p, disk, steps - 1);
      RunKeepsGood(p, Begin(disk), steps - 1);
      StepProgress(p, m);
      ProgressTransitive(disk, m.disk, Run(p, Begin(disk), steps).disk);
    }
  }

  // Over any further attempts, a completed record keeps its result or goes with a
  // completed call above it.
  lemma {:induction false} HistoriesProgress(attempts: seq<Attempt>, disk: Disk)
    requires ValidDisk(disk)
    ensures ValidDisk(After(attempts, disk)) && Progress(disk, After(attempts, disk))
  {
    if attempts == [] {
      SameRecordsProgress(disk, disk);
    } else {
      var init := attempts[..|attempts| - 1];
      var last := attempts[|attempts| - 1];
      HistoriesProgress(init, disk);
      RunKeepsGood(last.process, Begin(After(init, disk)), last.steps);
      RunProgress(last.process, After(init, disk), last.steps);
      ProgressTransitive(disk, After(init, disk), After(attempts, disk));
    }
  }

  // ---- Bodies of completed calls never run again --------------------------------------

  ghost predicate OnStack(stack: Stack, x: ExecutionId) {
    stack.frame.self == Some(x) || (stack.Inside? && OnStack(stack.caller, x))
  }

  // A step puts a call on the stack only by starting it.
  lemma {:induction false} StepStacks(p: Process, m: Machine, x: ExecutionId)
    requires Good(p, m)
    requires OnStack(Step(p, m).stack, x) && !OnStack(m.stack, x)
    ensures m.phase.Entering? && x == CallId(m.stack.frame, NextAction(p.program, m.stack.frame))
    ensures !Settled(m.disk, x)
  {
    if m.phase.Entering? { EnteredIsUnsettled(p, m); }
  }

  // Once a call, or one above it, is completed, no later attempt runs its body.
  lemma {:induction false} SettledNeverRuns(p: Process, disk: Disk, steps: nat, x: ExecutionId)
    requires ValidDisk(disk) && Settled(disk, x)
    ensures !OnStack(Run(p, Begin(disk), steps).stack, x)
  {
    hide Step;
    if steps > 0 {
      var m := Run(p, Begin(disk), steps - 1);
      SettledNeverRuns(p, disk, steps - 1, x);
      RunKeepsGood(p, Begin(disk), steps - 1);
      RunProgress(p, disk, steps - 1);
      assert Moves(disk, m.disk, x);
      if OnStack(Step(p, m).stack, x) { StepStacks(p, m, x); }
    }
  }

  lemma {:induction false} CompletedNeverRunsAgain(
    before: seq<Attempt>, after: seq<Attempt>, p: Process, steps: nat, x: ExecutionId)
    requires IsCompleted(After(before, EMPTY), x)
    ensures !OnStack(Run(p, Begin(After(after, After(before, EMPTY))), steps).stack, x)
  {
    HistoriesLeaveValidStores(before);
    HistoriesProgress(after, After(before, EMPTY));
    assert Moves(After(before, EMPTY), After(after, After(before, EMPTY)), x);
    SettledNeverRuns(p, After(after, After(before, EMPTY)), steps, x);
  }

  // ---- Versions -----------------------------------------------------------------------

  ghost predicate KeepsVersions(before: Disk, after: Disk) {
    forall d :: d in before.versions ==> d in after.versions && after.versions[d] == before.versions[d]
  }

  ghost predicate CarriesVersion(p: Process, disk: Disk, x: ExecutionId) {
    x.domain in disk.versions && disk.versions[x.domain] == p.version(x.domain)
  }

  // Recorded versions never change, and what the process records or runs carries its own.
  ghost predicate Agreeing(p: Process, disk: Disk, m: Machine) {
    && KeepsVersions(disk, m.disk)
    && (forall x :: x in m.disk.records && x !in disk.records ==> CarriesVersion(p, m.disk, x))
    && (forall x :: OnStack(m.stack, x) ==> CarriesVersion(p, m.disk, x))
  }

  lemma {:induction false} EndKeepsDisk(p: Process, m: Machine, outcome: Outcome)
    requires Stacked(p, m.stack)
    ensures End(p, m, outcome).disk == m.disk
  {
  }

  lemma {:induction false} StepVersions(p: Process, m: Machine)
    requires Good(p, m)
    ensures KeepsVersions(m.disk, Step(p, m).disk)
    ensures forall x :: x in Step(p, m).disk.records && x !in m.disk.records ==> CarriesVersion(p, Step(p, m).disk, x)
  {
    hide End, Under, ValidDisk, Alive, FreshFrame, Answered, Noted, Refused;
    var frame := m.stack.frame;
    var action := NextAction(p.program, frame);
    match m.phase
    case Finished(_) =>
    case Completing =>
      EndKeepsDisk(p, m.(disk := Prune(m.disk, frame.self.value)), Returned(action.value));
    case Entering =>
    case Running =>
      if action.Return? {
        EndKeepsDisk(p, m, Returned(action.value));
        EndKeepsDisk(p, m, Raised(ExecutionNotFound));
        EndKeepsDisk(p, m, Raised(AlreadyCompleted));
        if m.stack.Inside? && frame.self.value in m.disk.records {
          EndKeepsDisk(p,
            m.(disk := CompleteCall(m.disk, frame.self.value, action.value, frame.metadata)), Returned(action.value));
        }
      } else if action.Raise? {
        EndKeepsDisk(p, m, Raised(action.error));
      }
  }

  lemma {:induction false} StepKeepsAgreeing(p: Process, disk: Disk, m: Machine)
    requires Good(p, m) && Agreeing(p, disk, m)
    ensures Agreeing(p, disk, Step(p, m))
  {
    var after := Step(p, m);
    StepVersions(p, m);
    forall x | OnStack(after.stack, x) ensures CarriesVersion(p, after.disk, x) {
      if !OnStack(m.stack, x) { StepStacks(p, m, x); }
    }
  }

  // A process runs and records only calls of domains whose recorded version is the one it
  // carries. The chain of a running call is the stack below it, so this covers every
  // domain of the chain.
  lemma {:induction false} WritersAgree(p: Process, disk: Disk, steps: nat)
    requires ValidDisk(disk)
    ensures Agreeing(p, disk, Run(p, Begin(disk), steps))
  {
    hide Step;
    if steps > 0 {
      WritersAgree(p, disk, steps - 1);
      RunKeepsGood(p, Begin(disk), steps - 1);
      StepKeepsAgreeing(p, disk, Run(p, Begin(disk), steps - 1));
    }
  }

  // Over any history of attempts recorded versions never change.
  lemma {:induction false} HistoriesKeepVersions(attempts: seq<Attempt>, disk: Disk)
    requires ValidDisk(disk)
    ensures ValidDisk(After(attempts, disk)) && KeepsVersions(disk, After(attempts, disk))
  {
    hide Run;
    if attempts != [] {
      var init, last := attempts[..|attempts| - 1], attempts[|attempts| - 1];
      HistoriesKeepVersions(init, disk);
      HistoriesProgress(attempts, disk);
      WritersAgree(last.process, After(init, disk), last.steps);
    }
  }

  // Every process that ran a call of a domain, or recorded one, in any attempt of a
  // history, carried the one version the session still records for that domain.
  lemma {:induction false} ProcessesAgreed(attempts: seq<Attempt>, i: nat, k: nat, disk: Disk, x: ExecutionId)
    requires ValidDisk(disk) && i < |attempts| && k <= attempts[i].steps
    requires var before := After(attempts[..i], disk);
      var m := Run(attempts[i].process, Begin(before), k);
      OnStack(m.stack, x) || (x in m.disk.records && x !in before.records)
    ensures x.domain in After(attempts, disk).versions
    ensures After(attempts, disk).versions[x.domain] == attempts[i].process.version(x.domain)
  {
    hide Run;
    var p, before := attempts[i].process, After(attempts[..i], disk);
    HistoriesKeepVersions(attempts[..i], disk);
    WritersAgree(p, before, k);
    RunVersions(p, before, k, attempts[i].steps);
    VersionsFrom(attempts, i + 1, disk);
    assert attempts[..i + 1][..i] == attempts[..i];
  }

  lemma {:induction false} RunVersions(p: Process, disk: Disk, k: nat, steps: nat)
    requires ValidDisk(disk) && k <= steps
    ensures KeepsVersions(Run(p, Begin(disk), k).disk, Run(p, Begin(disk), steps).disk)
  {
    hide Step, Good, ValidDisk;
    BeginIsGood(p, disk);
    if k < steps {
      RunVersions(p, disk, k, steps - 1);
      RunKeepsGood(p, Begin(disk), steps - 1);
      StepVersions(p, Run(p, Begin(disk), steps - 1));
    }
  }

  lemma {:induction false} VersionsFrom(attempts: seq<Attempt>, i: nat, disk: Disk)
    requires ValidDisk(disk) && i <= |attempts|
    ensures KeepsVersions(After(attempts[..i], disk), After(attempts, disk))
  {
    HistoriesProgress(attempts[..i], disk);
    HistoriesKeepVersions(attempts[i..], After(attempts[..i], disk));
    AfterMore(attempts[..i], attempts[i..], disk);
    assert attempts[..i] + attempts[i..] == attempts;
  }

  lemma {:induction false} AfterMore(first: seq<Attempt>, second: seq<Attempt>, disk: Disk)
    ensures After(first + second, disk) == After(second, After(first, disk))
  {
    if second == [] {
      assert first + second == first;
    } else {
      var init := second[..|second| - 1];
      AfterMore(first, init, disk);
      assert (first + second)[..|first + second| - 1] == first + init;
    }
  }
}
