// The engine as the code runs it: a call stack, nested transactions, a sequencer and a
// claim cache, updated step by step. Its methods are proved to do to the store, and to
// return, exactly what the machine of Replay does in as many steps.
//
// `fuel` stands for the moment the process is interrupted: it is spent one unit at each
// step of the machine, and a method that finds none left unwinds like a cancelled task.
module Executor {
  import opened Wrappers
  import opened Canonical
  import opened Identity
  import opened Sequencing
  import opened Replay
  import opened ReplaySafety
  import opened Observations

  // What one transaction has staged: a saved aggregate, or a deletion.
  type Stage = map<ExecutionId, Option<Execution>>

  function Applied(records: map<ExecutionId, Execution>, stage: Stage): map<ExecutionId, Execution> {
    map x | x in records.Keys + stage.Keys && (x in stage ==> stage[x].Some?) ::
      if x in stage then stage[x].value else records[x]
  }

  // What a read inside the innermost open transaction sees at `id`.
  function Seen(records: map<ExecutionId, Execution>, stages: seq<Stage>, id: ExecutionId): Option<Execution> {
    if stages != [] && id in stages[|stages| - 1] then stages[|stages| - 1][id]
    else if id in records then Some(records[id])
    else None
  }

  // A read inside a transaction sees what committing it would leave.
  lemma {:induction false} SeenIsApplied(records: map<ExecutionId, Execution>, stages: seq<Stage>, id: ExecutionId)
    requires stages != []
    ensures var after := Applied(records, stages[|stages| - 1]);
      Seen(records, stages, id) == if id in after then Some(after[id]) else None
  {
    var stage := stages[|stages| - 1];
    if id in stage && stage[id].Some? { assert id in Applied(records, stage); }
  }

  // The process-wide counters agree with those of a frame on the frame's own scopes.
  ghost predicate Coupled(counters: Counters, frame: Frame) {
    forall s: Scope :: s.parent == frame.self ==> Count(counters, s) == Count(frame.counts, s)
  }

  // Counters of the frames above a call are not touched by it.
  ghost predicate KeepsOuter(before: Counters, after: Counters, id: ExecutionId) {
    forall s: Scope :: (s.parent.None? || (s.parent.value != id && !Under(s.parent.value, id))) ==>
      Count(after, s) == Count(before, s)
  }

  // ---- What the machine does around a body ----------------------------------------------

  function Ending(outcome: Outcome): Action {
    if outcome.Returned? then Return(outcome.value) else Raise(outcome.error)
  }

  lemma {:induction false} ClosingSteps(p: Process, caller: Stack, last: Frame, disk: Disk, ended: Outcome)
    requires last.self.Some? && Good(p, Machine(Running, Inside(caller, last), disk))
    requires NextAction(p.program, last) == Ending(ended)
    ensures var m := Machine(Running, Inside(caller, last), disk);
      var id := last.self.value;
      var answered := Answering(p, caller, ended);
      && id in disk.records
      && (ended.Raised? ==> Run(p, m, 1) == Machine(Running, answered, disk))
      && (ended.Returned? ==>
          var completed := CompleteCall(disk, id, ended.value, last.metadata);
          && Within(disk, completed, id) && Within(disk, Prune(completed, id), id)
          && Run(p, m, 1).disk == completed
          && (!p.prunes(id) ==> Run(p, m, 1) == Machine(Running, answered, completed))
          && (p.prunes(id) ==> Run(p, m, 2) == Machine(Running, answered, Prune(completed, id))))
  {
    var m := Machine(Running, Inside(caller, last), disk);
    FirstSteps(p, m);
    NotUnderItself(last.self.value);
    assert Run(p, m, 0) == m;
  }

  // A call that is completed is answered from its record. Reads of the caller's
  // transaction at the call's own identity see the committed record.
  lemma {:induction false} CacheSteps(p: Process, caller: Stack, disk: Disk)
    requires Good(p, Machine(Entering, caller, disk))
    ensures var m := Machine(Entering, caller, disk);
      var id := CallId(caller.frame, NextAction(p.program, caller.frame));
      && Some(id) != caller.frame.self
      && Run(p, m, 0) == m && Run(p, m, 1) == Step(p, m)
      && (IsCompleted(disk, id) ==>
          && disk.records[id].result.Some?
          && Step(p, m) == Machine(Running, Answering(p, caller, Returned(disk.records[id].result.value)), disk))
  {
    FirstSteps(p, Machine(Entering, caller, disk));
    var id := CallId(caller.frame, NextAction(p.program, caller.frame));
    NotUnderItself(id);
  }

  // A call that is not completed starts on top of its caller.
  lemma {:induction false} OpeningStep(p: Process, caller: Stack, disk: Disk)
    requires Good(p, Machine(Entering, caller, disk))
    requires !IsCompleted(disk, CallId(caller.frame, NextAction(p.program, caller.frame)))
    ensures var m := Machine(Entering, caller, disk);
      var call := NextAction(p.program, caller.frame);
      var id := CallId(caller.frame, call);
      var started := StartCall(disk, id, call.arguments);
      && id in started.records && started.records[id].id == id && (id in disk.records ==> disk.records[id].id == id)
      && Step(p, m) == Machine(Running, Inside(caller, FreshFrame(Some(id), started.records[id].metadata)), started)
      && Good(p, Step(p, m))
      && Within(disk, started, id)
  {
    var call := NextAction(p.program, caller.frame);
    StepKeepsGood(p, Machine(Entering, caller, disk));
    StartKeepsValid(disk, CallId(caller.frame, call), call.arguments);
  }

  lemma {:induction false} WithinSelf(disk: Disk, counters: Counters, id: ExecutionId)
    ensures Within(disk, disk, id) && KeepsOuter(counters, counters, id)
  {
  }

  lemma {:induction false} WithinOwn(before: Disk, after: Disk, id: ExecutionId)
    requires forall x :: !Below(x, Some(id)) ==> SameAt(before, after, x)
    ensures Within(before, after, id)
  {
    forall x | x != id && !Under(x, id) ensures SameAt(before, after, x) {
      assert !Below(x, Some(id));
    }
  }

  lemma {:induction false} WithinTransitive(first: Disk, second: Disk, third: Disk, id: ExecutionId)
    requires Within(first, second, id) && Within(second, third, id)
    ensures Within(first, third, id)
  {
    forall x | x != id && !Under(x, id) ensures SameAt(first, third, x) {
      assert SameAt(first, second, x) && SameAt(second, third, x);
    }
  }

  lemma {:induction false} KeepsOuterTransitive(first: Counters, second: Counters, third: Counters, id: ExecutionId)
    requires KeepsOuter(first, second, id) && KeepsOuter(second, third, id)
    ensures KeepsOuter(first, third, id)
  {
  }

  lemma {:induction false} BodyBegins(p: Process, stack: Stack, disk: Disk)
    requires Good(p, Machine(Running, stack, disk))
    ensures WellFormed(p, Machine(Running, stack, disk))
    ensures Run(p, Machine(Running, stack, disk), 0) == Machine(Running, stack, disk)
  {
  }

  // What the code of a frame leaves alone: every record that is not below it, and the
  // counters of the frames it was called from.
  ghost predicate Outer(before: Disk, after: Disk, counted: Counters, counts: Counters, self: Option<ExecutionId>) {
    && (forall x :: !Below(x, self) ==> SameAt(before, after, x))
    && (self.Some? ==> KeepsOuter(counted, counts, self.value))
  }

  lemma {:induction false} OuterRefl(disk: Disk, counters: Counters, self: Option<ExecutionId>)
    ensures Outer(disk, disk, counters, counters, self)
  {
  }

  lemma {:induction false} OuterSame(before: Disk, after: Disk, counters: Counters, self: Option<ExecutionId>)
    requires before.records == after.records
    ensures Outer(before, after, counters, counters, self)
  {
  }

  lemma {:induction false} OuterTransitive(
    first: Disk, second: Disk, third: Disk, counts1: Counters, counts2: Counters, counts3: Counters,
    self: Option<ExecutionId>)
    requires Outer(first, second, counts1, counts2, self) && Outer(second, third, counts2, counts3, self)
    ensures Outer(first, third, counts1, counts3, self)
  {
    forall x | !Below(x, self) ensures SameAt(first, third, x) {
      assert SameAt(first, second, x) && SameAt(second, third, x);
    }
    if self.Some? { KeepsOuterTransitive(counts1, counts2, counts3, self.value); }
  }

  // A claim either refuses the call to the body, or leads to its cache check.
  lemma {:induction false} ClaimSteps(p: Process, stack: Stack, disk: Disk, counters: Counters)
    requires Good(p, Machine(Running, stack, disk)) && NextAction(p.program, stack.frame).Call?
    ensures var m := Machine(Running, stack, disk);
      var domain := NextAction(p.program, stack.frame).domain;
      var claimed := Claim(disk, domain, p.version(domain));
      var refused := stack.(frame := Refused(stack.frame,
        VersionMismatch(domain, claimed.versions[domain], p.version(domain))));
      && WellFormed(p, m)
      && (forall x :: SameAt(disk, claimed, x))
      && (claimed.versions[domain] == p.version(domain) ==>
          && Run(p, m, 1) == Machine(Entering, stack, claimed)
          && Good(p, Machine(Entering, stack, claimed)))
      && (claimed.versions[domain] != p.version(domain) ==>
          && Run(p, m, 1) == Machine(Running, refused, claimed)
          && Good(p, Machine(Running, refused, claimed))
          && (Coupled(counters, stack.frame) ==> Coupled(counters, refused.frame)))
    ensures forall id :: KeepsOuter(counters, counters, id)
  {
    FirstSteps(p, Machine(Running, stack, disk));
    StepKeepsGood(p, Machine(Running, stack, disk));
  }

  // The process-wide sequencer gives a call the ordinal its frame would.
  lemma {:induction false} CallIsBelow(frame: Frame, call: Action, counters: Counters)
    requires call.Call? && Coupled(counters, frame)
    ensures CallId(frame, call) == InScope(CallScope(frame, call), Count(counters, CallScope(frame, call)))
    ensures Below(CallId(frame, call), frame.self)
  {
  }

  lemma {:induction false} OuterAfterCall(before: Counters, after: Counters, frame: Frame, call: Action)
    requires call.Call? && Coupled(before, frame)
    requires KeepsOuter(Advance(before, CallScope(frame, call)), after, CallId(frame, call))
    ensures forall outcome :: Coupled(after, Answered(frame, call, outcome))
    ensures frame.self.Some? ==> KeepsOuter(before, after, frame.self.value)
  {
    var id := CallId(frame, call);
    NotUnderItself(id);
    forall s: Scope | s.parent.None? || (s.parent.value != id && !Under(s.parent.value, id))
      ensures Count(after, s) == Count(Advance(before, CallScope(frame, call)), s)
    {
    }
    if frame.self.Some? {
      var self := frame.self.value;
      NotUnderItself(self);
      if Under(self, id) { UnderTransitive(self, id, self); }
      forall s: Scope | s.parent.None? || (s.parent.value != self && !Under(s.parent.value, self))
        ensures Count(after, s) == Count(before, s)
      {
        if s.parent.Some? && Under(s.parent.value, id) { UnderTransitive(s.parent.value, id, self); }
      }
    }
  }

  lemma {:induction false} BelowAfterCall(before: Disk, after: Disk, frame: Frame, call: Action)
    requires call.Call? && Within(before, after, CallId(frame, call))
    ensures forall x :: !Below(x, frame.self) ==> SameAt(before, after, x)
    ensures frame.self.Some? ==> SameAt(before, after, frame.self.value)
  {
    var id := CallId(frame, call);
    if frame.self.Some? {
      NotUnderItself(frame.self.value);
      forall x | !Below(x, frame.self) ensures SameAt(before, after, x) {
        if Under(x, id) { UnderTransitive(x, id, frame.self.value); }
      }
    }
  }

  lemma {:induction false} NoteSteps(p: Process, stack: Stack, disk: Disk, counters: Counters)
    requires Good(p, Machine(Running, stack, disk))
    requires var a := NextAction(p.program, stack.frame); a.SetMetadata? || a.GetMetadata?
    ensures var m := Machine(Running, stack, disk);
      var noted := stack.(frame := Noted(stack.frame, NextAction(p.program, stack.frame)));
      && WellFormed(p, m)
      && Run(p, m, 1) == Machine(Running, noted, disk)
      && Good(p, Machine(Running, noted, disk))
      && Noted(stack.frame, NextAction(p.program, stack.frame)).self == stack.frame.self
      && (Coupled(counters, stack.frame) ==> Coupled(counters, noted.frame))
  {
    FirstSteps(p, Machine(Running, stack, disk));
    StepKeepsGood(p, Machine(Running, stack, disk));
  }

  lemma {:induction false} RootBegins(p: Process, disk: Disk)
    requires ValidDisk(disk)
    ensures Good(p, Begin(disk)) && WellFormed(p, Begin(disk))
    ensures Coupled(map[], FreshFrame(None, map[]))
  {
  }

  lemma {:induction false} RootEnds(p: Process, last: Frame, disk: Disk, outcome: Outcome)
    requires last.self.None? && NextAction(p.program, last) == Ending(outcome)
    ensures WellFormed(p, Machine(Running, Outside(last), disk))
    ensures Run(p, Machine(Running, Outside(last), disk), 1)
      == Machine(Finished(outcome), Outside(last), disk)
  {
    FirstSteps(p, Machine(Running, Outside(last), disk));
  }

  class Engine {
    const process: Process
    const sequencer: Sequencer
    var disk: Disk
    var observed: map<string, string>
    var calls: seq<ExecutionId>
    var stages: seq<Stage>
    var fuel: nat

    constructor (process: Process, disk: Disk, fuel: nat)
      ensures this.process == process && this.disk == disk && this.fuel == fuel
      ensures calls == [] && stages == [] && sequencer.counters == map[] && fresh(sequencer)
      ensures Observed()
    {
      this.process := process;
      this.disk := disk;
      this.fuel := fuel;
      observed, calls, stages := map[], [], [];
      sequencer := new Sequencer();
    }

    // Only what the store said is cached.
    ghost predicate Observed()
      reads this`disk, this`observed
    {
      forall d :: d in observed ==> d in disk.versions && disk.versions[d] == observed[d]
    }

    // ---- Claims ---------------------------------------------------------------------

    method Ensure(domain: string) returns (recorded: string)
      requires Observed()
      modifies this`disk, this`observed
      ensures Observed()
      ensures disk == Claim(old(disk), domain, process.version(domain))
      ensures disk.records == old(disk).records
      ensures if domain in old(disk).versions then
          disk.versions == old(disk).versions && recorded == old(disk).versions[domain]
        else
          disk.versions == old(disk).versions[domain := process.version(domain)] && recorded == process.version(domain)
    {
      if domain in observed {
        recorded := observed[domain];
      } else {
        disk := Claim(disk, domain, process.version(domain));
        recorded := disk.versions[domain];
        observed := observed[domain := recorded];
      }
    }

    // ---- Transactions ---------------------------------------------------------------

    method BeginTransaction()
      modifies this`stages
      ensures stages == old(stages) + [map[]]
    {
      stages := stages + [map[]];
    }

    method Commit()
      requires stages != []
      modifies this`stages, this`disk
      ensures stages == old(stages)[..|old(stages)| - 1]
      ensures disk == old(disk).(records := Applied(old(disk).records, old(stages)[|old(stages)| - 1]))
    {
      var stage := stages[|stages| - 1];
      stages := stages[..|stages| - 1];
      disk := disk.(records := Applied(disk.records, stage));
    }

    method Rollback()
      requires stages != []
      modifies this`stages
      ensures stages == old(stages)[..|old(stages)| - 1]
    {
      stages := stages[..|stages| - 1];
    }

    method Save(execution: Execution)
      requires stages != []
      modifies this`stages
      ensures stages == old(stages)[..|old(stages)| - 1]
        + [old(stages)[|old(stages)| - 1][execution.id := Some(execution)]]
    {
      stages := stages[..|stages| - 1] + [stages[|stages| - 1][execution.id := Some(execution)]];
    }

    // The pruning handler: a transaction of its own, deleting what lies below `id`.
    method PruneBelow(id: ExecutionId)
      modifies this`stages, this`disk
      ensures stages == old(stages)
      ensures disk == Prune(old(disk), id)
      ensures disk.versions == old(disk).versions
      ensures forall x :: x in disk.records <==> x in old(disk).records && !Under(x, id)
      ensures forall x :: x in disk.records ==> disk.records[x] == old(disk).records[x]
    {
      BeginTransaction();
      var descendants := set x | x in disk.records && Under(x, id);
      stages := stages[..|stages| - 1] + [map x | x in descendants :: None];
      Commit();
      assert disk.records == Prune(old(disk), id).records;
    }

    // ---- One engraved call ----------------------------------------------------------

    // START, in a transaction of its own.
    method Start(id: ExecutionId, arguments: CanonicalArguments)
      requires id in disk.records ==> disk.records[id].id == id
      modifies this`stages, this`disk, this`calls, sequencer
      ensures disk == StartCall(old(disk), id, arguments)
      ensures stages == old(stages) && calls == old(calls) + [id]
      ensures sequencer.counters == Reset(old(sequencer.counters), id)
    {
      BeginTransaction();
      sequencer.ResetForCall(id);
      var recorded := Seen(disk.records, stages, id);
      if recorded.None? {
        Save(StartRecord(id, arguments));
      }
      Commit();
      calls := calls + [id];
      assert disk.records == StartCall(old(disk), id, arguments).records;
    }

    // What reads by the frame's own code see at its own record: the staged metadata over
    // the committed aggregate. Nothing else is staged there.
    ghost predicate Staged(frame: Frame)
      reads this`disk, this`stages, this`calls
    {
      match frame.self
      case None => stages == [] && calls == []
      case Some(id) =>
        && stages != [] && calls != [] && calls[|calls| - 1] == id
        && stages[|stages| - 1].Keys <= {id}
        && id in disk.records
        && disk.records[id].id == id
        && Seen(disk.records, stages, id) == Some(disk.records[id].(metadata := frame.metadata))
    }

    // The engine stands where the machine does with `stack` on it.
    ghost predicate Standing(stack: Stack)
      reads this`disk, this`observed, this`stages, this`calls, sequencer
    {
      && Observed()
      && Staged(stack.frame)
      && Coupled(sequencer.counters, stack.frame)
      && Good(process, Machine(Running, stack, disk))
    }

    // A metadata access by the running call.
    method Note(action: Action, ghost stack: Stack) returns (seen: Observation)
      requires Standing(stack) && (action.SetMetadata? || action.GetMetadata?)
      modifies this`stages
      ensures Staged(Noted(stack.frame, action))
      ensures Noted(stack.frame, action).history == stack.frame.history + [seen]
      ensures calls == [] ==> stages == old(stages) && seen == Answer(Raised(NoCurrentExecution))
      ensures calls != [] ==>
        var id := calls[|calls| - 1];
        var before, after := Seen(disk.records, old(stages), id), Seen(disk.records, stages, id);
        && before.Some? && after.Some?
        && match action
           case SetMetadata(key, value) =>
             seen == MetadataSet && after.value == before.value.(metadata := before.value.metadata[key := value])
           case GetMetadata(key) =>
             && stages == old(stages)
             && seen == MetadataRead(
                  if key in before.value.metadata then Some(before.value.metadata[key]) else None)
      ensures |stages| == |old(stages)| && (stages != [] ==> stages[..|stages| - 1] == old(stages)[..|stages| - 1])
    {
      if calls == [] {
        return Answer(Raised(NoCurrentExecution));
      }
      var execution := Seen(disk.records, stages, calls[|calls| - 1]).value;
      match action
      case SetMetadata(key, value) =>
        Save(execution.(metadata := execution.metadata[key := value]));
        seen := MetadataSet;
      case GetMetadata(key) =>
        seen := MetadataRead(if key in execution.metadata then Some(execution.metadata[key]) else None);
    }

    // `spent` steps took the machine from `from` to running with `stack`, over this disk.
    ghost predicate Reached(from: Machine, spent: nat, stack: Stack)
      reads this`disk
    {
      WellFormed(process, from) && Run(process, from, spent) == Machine(Running, stack, disk)
    }

    // Every step was spent, and the disk is what the machine left.
    ghost predicate Interrupted(from: Machine, spent: nat)
      reads this`disk, this`fuel
    {
      fuel == 0 && WellFormed(process, from) && Run(process, from, spent).disk == disk
    }

    // A call that is not completed starts, and its body's transaction opens.
    method Open(id: ExecutionId, arguments: CanonicalArguments, ghost caller: Stack) returns (ghost frame: Frame)
      requires Observed() && Staged(caller.frame) && Good(process, Machine(Entering, caller, disk))
      requires id == CallId(caller.frame, NextAction(process.program, caller.frame))
      requires arguments == NextAction(process.program, caller.frame).arguments
      requires !IsCompleted(disk, id)
      modifies this`disk, this`stages, this`calls, sequencer
      ensures Standing(Inside(caller, frame)) && frame == FreshFrame(Some(id), disk.records[id].metadata)
      ensures stages == old(stages) + [map[]] && calls == old(calls) + [id]
      ensures Within(old(disk), disk, id) && KeepsOuter(old(sequencer.counters), sequencer.counters, id)
      ensures Step(process, Machine(Entering, caller, old(disk))) == Machine(Running, Inside(caller, frame), disk)
    {
      hide Good, Step, Within;
      OpeningStep(process, caller, disk);
      Start(id, arguments);
      BeginTransaction();
      frame := FreshFrame(Some(id), disk.records[id].metadata);
    }

    // The COMPLETE transaction: the result joins what the body staged, and both commit.
    method Complete(id: ExecutionId, value: Payload, ghost last: Frame)
      requires Staged(last) && last.self == Some(id)
      modifies this`disk, this`stages
      ensures stages == old(stages)[..|old(stages)| - 1]
      ensures disk == CompleteCall(old(disk), id, value, last.metadata)
    {
      var execution := Seen(disk.records, stages, id);
      if execution.None? {
        assert false;
      }
      Save(execution.value.(status := Completed, result := Some(value)));
      Commit();
      assert disk.records == CompleteCall(old(disk), id, value, last.metadata).records;
    }

    // After the body: COMPLETE for a value, a rollback for an exception or an
    // interruption. Then the completion event is handled.
    method Close(id: ExecutionId, ended: Outcome, ghost caller: Stack, ghost last: Frame)
      returns (outcome: Option<Outcome>)
      requires Staged(last) && Good(process, Machine(Running, Inside(caller, last), disk))
      requires last.self == Some(id) && NextAction(process.program, last) == Ending(ended)
      modifies this`disk, this`stages, this`fuel
      ensures stages == old(stages)[..|old(stages)| - 1]
      ensures fuel <= old(fuel) && disk.versions == old(disk).versions && Within(old(disk), disk, id)
      ensures outcome.Some? ==> outcome == Some(ended)
      ensures outcome.None? ==> Interrupted(Machine(Running, Inside(caller, last), old(disk)), old(fuel))
      ensures outcome.Some? ==>
        Reached(Machine(Running, Inside(caller, last), old(disk)), old(fuel) - fuel,
                Answering(process, caller, outcome.value))
    {
      hide Step, Good;
      ghost var m := Machine(Running, Inside(caller, last), disk);
      ClosingSteps(process, caller, last, disk, ended);
      if fuel == 0 {
        Rollback();
        return None;
      }
      fuel := fuel - 1;
      if ended.Raised? {
        Rollback();
        return Some(ended);
      }
      Complete(id, ended.value, last);
      if process.prunes(id) {
        if fuel == 0 {
          return None;
        }
        fuel := fuel - 1;
        PruneBelow(id);
      }
      return Some(ended);
    }

    // The body and what follows it; the call leaves the stack however they end.
    method RunCall(id: ExecutionId, ghost caller: Stack, ghost frame: Frame)
      returns (outcome: Option<Outcome>, ghost last: Frame)
      requires Standing(Inside(caller, frame)) && frame == FreshFrame(Some(id), frame.metadata)
      modifies this, sequencer
      ensures Observed() && fuel <= old(fuel)
      ensures stages == old(stages)[..|old(stages)| - 1] && calls == old(calls)[..|old(calls)| - 1]
      ensures Within(old(disk), disk, id) && KeepsOuter(old(sequencer.counters), sequencer.counters, id)
      ensures outcome.None? ==> Interrupted(Machine(Running, Inside(caller, frame), old(disk)), old(fuel))
      ensures outcome.Some? ==>
        && Reached(Machine(Running, Inside(caller, frame), old(disk)), old(fuel) - fuel,
                   Answering(process, caller, outcome.value))
        && EndsAs(process.program, id, last, outcome.value)
      decreases fuel, 3
    {
      hide Run, Step, Good, WellFormed, Within, KeepsOuter, Coupled;
      ghost var m := Machine(Running, Inside(caller, frame), disk);
      outcome, last := RunBody(Some(id), Inside(caller, frame));
      WithinOwn(old(disk), disk, id);
      if outcome.None? {
        Rollback();
      } else {
        label Ended:
        RunKeepsGood(process, m, old(fuel) - fuel);
        outcome := Close(id, outcome.value, caller, last);
        WithinTransitive(old(disk), old@Ended(disk), disk, id);
        RunOn(process, m, old(fuel) - old@Ended(fuel), old@Ended(fuel) - fuel);
        if outcome.None? {
          RunOn(process, m, old(fuel) - old@Ended(fuel), old@Ended(fuel));
        }
      }
      calls := calls[..|calls| - 1];
    }

    // A call that is not completed: START, body and COMPLETE. The step that enters it has
    // been spent.
    method RunUncached(id: ExecutionId, arguments: CanonicalArguments, ghost caller: Stack)
      returns (outcome: Option<Outcome>, ghost last: Frame)
      requires Observed() && Staged(caller.frame) && Good(process, Machine(Entering, caller, disk))
      requires id == CallId(caller.frame, NextAction(process.program, caller.frame))
      requires arguments == NextAction(process.program, caller.frame).arguments
      requires !IsCompleted(disk, id)
      modifies this, sequencer
      ensures Observed() && stages == old(stages) && calls == old(calls) && fuel <= old(fuel)
      ensures Within(old(disk), disk, id) && KeepsOuter(old(sequencer.counters), sequencer.counters, id)
      ensures outcome.None? ==> Interrupted(Machine(Entering, caller, old(disk)), 1 + old(fuel))
      ensures outcome.Some? ==>
        && Reached(Machine(Entering, caller, old(disk)), 1 + old(fuel) - fuel, Answering(process, caller, outcome.value))
        && EndsAs(process.program, id, last, outcome.value)
      decreases fuel, 4
    {
      hide Run, Step, Good, WellFormed, Within, KeepsOuter, Coupled, Answering, CallId, EndsAs, IsCompleted;
      ghost var m := Machine(Entering, caller, disk);
      CacheSteps(process, caller, disk);
      ghost var frame := Open(id, arguments, caller);
      label Opened:
      outcome, last := RunCall(id, caller, frame);
      WithinTransitive(old(disk), old@Opened(disk), disk, id);
      KeepsOuterTransitive(old(sequencer.counters), old@Opened(sequencer.counters), sequencer.counters, id);
      RunOn(process, m, 1, old@Opened(fuel) - fuel);
      if outcome.None? {
        RunOn(process, m, 1, old@Opened(fuel));
      }
    }

    // One engraved call: the cache check, and for a call that is not completed the rest.
    method Execute(id: ExecutionId, arguments: CanonicalArguments, ghost caller: Stack)
      returns (outcome: Option<Outcome>, ghost last: Frame)
      requires Observed() && Staged(caller.frame) && Good(process, Machine(Entering, caller, disk))
      requires id == CallId(caller.frame, NextAction(process.program, caller.frame))
      requires arguments == NextAction(process.program, caller.frame).arguments
      modifies this, sequencer
      ensures Observed() && stages == old(stages) && calls == old(calls) && fuel <= old(fuel)
      ensures Within(old(disk), disk, id) && KeepsOuter(old(sequencer.counters), sequencer.counters, id)
      ensures outcome.None? ==> Interrupted(Machine(Entering, caller, old(disk)), old(fuel))
      ensures outcome.Some? ==>
        && Reached(Machine(Entering, caller, old(disk)), old(fuel) - fuel, Answering(process, caller, outcome.value))
        && ExecutedAs(process, old(disk), id, last, outcome.value)
      decreases fuel, 4
    {
      hide Run, Step, Good, WellFormed, Within, KeepsOuter, Coupled, Answering, CallId, EndsAs;
      CacheSteps(process, caller, disk);
      WithinSelf(disk, sequencer.counters, id);
      last := caller.frame;
      if fuel == 0 {
        return None, last;
      }
      var cached := Seen(disk.records, stages, id);
      fuel := fuel - 1;
      if cached.Some? && cached.value.status == Completed {
        return Some(Returned(cached.value.result.value)), last;
      }
      outcome, last := RunUncached(id, arguments, caller);
    }

    // The call is identified: under the running call, with the next ordinal of its scope.
    method Identify(call: Action, ghost stack: Stack) returns (id: ExecutionId)
      requires call == NextAction(process.program, stack.frame) && call.Call?
      requires Staged(stack.frame) && Coupled(sequencer.counters, stack.frame)
      modifies sequencer
      ensures id == CallId(stack.frame, call) && Below(id, stack.frame.self)
      ensures sequencer.counters == Advance(old(sequencer.counters), CallScope(stack.frame, call))
    {
      var parent := if calls == [] then None else Some(calls[|calls| - 1]);
      var sequence := sequencer.Next(parent, call.domain, call.name, call.arguments.digest);
      id := ExecutionId(parent, call.domain, call.name, sequence, call.arguments.digest);
      CallIsBelow(stack.frame, call, old(sequencer.counters));
    }

    // A call whose domain is claimed: identified, and executed.
    method Invoke(call: Action, ghost stack: Stack)
      returns (answer: Option<Outcome>, ghost next: Frame, ghost last: Frame)
      requires call == NextAction(process.program, stack.frame) && call.Call?
      requires Observed() && Staged(stack.frame) && Coupled(sequencer.counters, stack.frame)
      requires Good(process, Machine(Entering, stack, disk))
      modifies this, sequencer
      ensures Observed() && calls == old(calls) && stages == old(stages) && fuel <= old(fuel)
      ensures Outer(old(disk), disk, old(sequencer.counters), sequencer.counters, stack.frame.self)
      ensures answer.None? ==> Interrupted(Machine(Entering, stack, old(disk)), old(fuel))
      ensures answer.Some? ==>
        && next == Answered(stack.frame, call, answer.value)
        && Standing(stack.(frame := next))
        && Reached(Machine(Entering, stack, old(disk)), old(fuel) - fuel, stack.(frame := next))
        && ExecutedAs(process, old(disk), CallId(stack.frame, call), last, answer.value)
      decreases fuel, 5
    {
      hide Run, Step, Good, WellFormed, KeepsOuter, Coupled, Within;
      next := stack.frame;
      ghost var m := Machine(Entering, stack, disk);
      var id := Identify(call, stack);
      answer, last := Execute(id, call.arguments, stack);
      OuterAfterCall(old(sequencer.counters), sequencer.counters, stack.frame, call);
      BelowAfterCall(old(disk), disk, stack.frame, call);
      if answer.Some? {
        next := Answered(stack.frame, call, answer.value);
        RunKeepsGood(process, m, old(fuel) - fuel);
      }
    }

    // The wrapper of an engraved function: claim the domain, then invoke the call.
    method MakeCall(call: Action, ghost stack: Stack)
      returns (answer: Option<Outcome>, ghost next: Frame, ghost last: Frame)
      requires Standing(stack) && fuel > 0
      requires call == NextAction(process.program, stack.frame) && call.Call?
      modifies this, sequencer
      ensures calls == old(calls) && stages == old(stages) && fuel < old(fuel)
      ensures Outer(old(disk), disk, old(sequencer.counters), sequencer.counters, stack.frame.self)
      ensures answer.None? ==> Observed() && Interrupted(Machine(Running, stack, old(disk)), old(fuel))
      ensures answer.Some? ==>
        && next.self == stack.frame.self
        && next.history == stack.frame.history + [Answer(answer.value)]
        && Standing(stack.(frame := next))
        && Reached(Machine(Running, stack, old(disk)), old(fuel) - fuel, stack.(frame := next))
        && CalledAs(process, old(disk), call.domain, CallId(stack.frame, call), last, answer.value)
      decreases fuel, 0
    {
      hide Run, Step, Good, WellFormed, KeepsOuter, Coupled, Within, CallId;
      ghost var m := Machine(Running, stack, disk);
      next, last := stack.frame, stack.frame;
      ClaimSteps(process, stack, disk, sequencer.counters);
      fuel := fuel - 1;
      var recorded := Ensure(call.domain);
      if recorded != process.version(call.domain) {
        var error := VersionMismatch(call.domain, recorded, process.version(call.domain));
        return Some(Raised(error)), Refused(next, error), last;
      }
      label Claimed:
      OuterSame(old(disk), disk, sequencer.counters, stack.frame.self);
      answer, next, last := Invoke(call, stack);
      OuterTransitive(old(disk), old@Claimed(disk), disk,
                      old(sequencer.counters), old(sequencer.counters), sequencer.counters, stack.frame.self);
      RunOn(process, m, 1, old@Claimed(fuel) - fuel);
      if answer.None? {
        RunOn(process, m, 1, old@Claimed(fuel));
      }
    }

    // One turn of a body that goes on: a call, or a metadata access.
    method Perform(action: Action, ghost stack: Stack) returns (seen: Option<Observation>, ghost next: Frame)
      requires Standing(stack) && fuel > 0
      requires action == NextAction(process.program, stack.frame) && !action.Return? && !action.Raise?
      modifies this, sequencer
      ensures calls == old(calls) && fuel < old(fuel) && |stages| == |old(stages)|
      ensures stages != [] ==> stages[..|stages| - 1] == old(stages)[..|stages| - 1]
      ensures Outer(old(disk), disk, old(sequencer.counters), sequencer.counters, stack.frame.self)
      ensures seen.None? ==> Observed() && Interrupted(Machine(Running, stack, old(disk)), old(fuel))
      ensures seen.Some? ==>
        && next.self == stack.frame.self
        && next.history == stack.frame.history + [seen.value]
        && Standing(stack.(frame := next))
        && Reached(Machine(Running, stack, old(disk)), old(fuel) - fuel, stack.(frame := next))
      decreases fuel, 1
    {
      hide Run, Step, Good, WellFormed, KeepsOuter, Coupled, SameAt, Below;
      OuterRefl(disk, sequencer.counters, stack.frame.self);
      if action.Call? {
        var answer;
        ghost var last;
        answer, next, last := MakeCall(action, stack);
        seen := if answer.Some? then Some(Answer(answer.value)) else None;
      } else {
        NoteSteps(process, stack, disk, sequencer.counters);
        var noted := Note(action, stack);
        fuel := fuel - 1;
        seen, next := Some(noted), Noted(stack.frame, action);
      }
    }

    // The code of one frame, to its end or to the interruption.
    method RunBody(self: Option<ExecutionId>, ghost stack: Stack)
      returns (outcome: Option<Outcome>, ghost last: Frame)
      requires stack.frame == FreshFrame(self, stack.frame.metadata) && Standing(stack)
      modifies this, sequencer
      ensures Observed() && calls == old(calls) && fuel <= old(fuel) && |stages| == |old(stages)|
      ensures stages != [] ==> stages[..|stages| - 1] == old(stages)[..|stages| - 1]
      ensures Outer(old(disk), disk, old(sequencer.counters), sequencer.counters, self)
      ensures outcome.None? ==> Interrupted(Machine(Running, stack, old(disk)), old(fuel))
      ensures outcome.Some? ==>
        && last.self == self && Staged(last)
        && Reached(Machine(Running, stack, old(disk)), old(fuel) - fuel, stack.(frame := last))
        && NextAction(process.program, last) == Ending(outcome.value)
      decreases fuel, 2
    {
      hide Run, Step, Good, WellFormed, Outer, Coupled, Staged;
      last := stack.frame;
      var history: seq<Observation> := [];
      ghost var m := Machine(Running, stack, disk);
      BodyBegins(process, stack, disk);
      OuterRefl(disk, sequencer.counters, self);
      while true
        invariant fuel <= old(fuel) && calls == old(calls) && |stages| == |old(stages)|
        invariant stages != [] ==> stages[..|stages| - 1] == old(stages)[..|stages| - 1]
        invariant last.self == self && last.history == history && Standing(stack.(frame := last))
        invariant Outer(old(disk), disk, old(sequencer.counters), sequencer.counters, self)
        invariant Reached(m, old(fuel) - fuel, stack.(frame := last))
        decreases fuel
      {
        label Turn:
        if fuel == 0 {
          return None, last;
        }
        var action := process.program(self, history);
        if action.Return? {
          return Some(Returned(action.value)), last;
        } else if action.Raise? {
          return Some(Raised(action.error)), last;
        }
        var seen;
        seen, last := Perform(action, stack.(frame := last));
        OuterTransitive(old(disk), old@Turn(disk), disk,
                        old(sequencer.counters), old@Turn(sequencer.counters), sequencer.counters, self);
        if seen.None? {
          RunOn(process, m, old(fuel) - old@Turn(fuel), old@Turn(fuel));
          return None, last;
        }
        RunOn(process, m, old(fuel) - old@Turn(fuel), old@Turn(fuel) - fuel);
        history := history + [seen.value];
      }
    }

    // The whole attempt: the code outside every call, until it ends or is interrupted.
    method Resume() returns (outcome: Option<Outcome>)
      requires ValidDisk(disk) && Observed() && stages == [] && calls == [] && sequencer.counters == map[]
      modifies this, sequencer
      ensures outcome.None? ==> disk == Run(process, Begin(old(disk)), old(fuel)).disk
      ensures outcome.Some? ==>
        && fuel < old(fuel)
        && Run(process, Begin(old(disk)), old(fuel) - fuel).phase == Finished(outcome.value)
        && disk == Run(process, Begin(old(disk)), old(fuel) - fuel).disk
    {
      hide Run, Step, Good, WellFormed;
      ghost var root := Outside(FreshFrame(None, map[]));
      ghost var last;
      RootBegins(process, disk);
      outcome, last := RunBody(None, root);
      if outcome.None? {
        return;
      }
      RunOn(process, Begin(old(disk)), old(fuel) - fuel, 1);
      RootEnds(process, last, disk, outcome.value);
      if fuel == 0 {
        RunOn(process, Begin(old(disk)), old(fuel), 0);
        return None;
      }
      fuel := fuel - 1;
    }
  }
}
