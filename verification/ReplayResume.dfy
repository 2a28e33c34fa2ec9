// For deterministic code, a resumed session returns what an uninterrupted one returns.
module ReplayResume {
  import opened Wrappers
  import opened Identity
  import opened Replay
  import opened ReplaySafety

  // ---- The meaning of a program, without a store --------------------------------------

  datatype Done = Done(outcome: Outcome, metadata: map<string, Payload>)

  // What the code of a frame ends with when every call simply runs. `gas` bounds the depth
  // of the evaluation; more of it changes nothing once there is an answer (IdealMore).
  function Ideal(program: Program, frame: Frame, gas: nat): Option<Done>
    decreases gas, 0
  {
    if gas == 0 then None
    else
      var action := NextAction(program, frame);
      match action
      case Return(value) => Some(Done(Returned(value), frame.metadata))
      case Raise(error) => Some(Done(Raised(error), frame.metadata))
      case Call(_, _, _) =>
        var done := IdealCall(program, CallId(frame, action), gas - 1);
        if done.None? then None
        else Ideal(program, Answered(frame, action, done.value.outcome), gas - 1)
      case _ => Ideal(program, Noted(frame, action), gas - 1)
  }

  function IdealCall(program: Program, id: ExecutionId, gas: nat): Option<Done>
    decreases gas, 1
  {
    Ideal(program, FreshFrame(Some(id), map[]), gas)
  }

  lemma {:induction false} IdealMore(program: Program, frame: Frame, gas: nat, more: nat)
    requires gas <= more && Ideal(program, frame, gas).Some?
    ensures Ideal(program, frame, more) == Ideal(program, frame, gas)
    decreases gas
  {
    var action := NextAction(program, frame);
    match action
    case Return(_) =>
    case Raise(_) =>
    case Call(_, _, _) =>
      var id := CallId(frame, action);
      IdealMore(program, FreshFrame(Some(id), map[]), gas - 1, more - 1);
      IdealMore(program, Answered(frame, action, IdealCall(program, id, gas - 1).value.outcome), gas - 1, more - 1);
    case _ => IdealMore(program, Noted(frame, action), gas - 1, more - 1);
  }

  ghost predicate Means(program: Program, frame: Frame, done: Done) {
    exists gas: nat :: Ideal(program, frame, gas) == Some(done)
  }

  ghost predicate CallMeans(program: Program, id: ExecutionId, done: Done) {
    Means(program, FreshFrame(Some(id), map[]), done)
  }

  lemma {:induction false} MeansOneThing(program: Program, frame: Frame, a: Done, b: Done)
    requires Means(program, frame, a) && Means(program, frame, b)
    ensures a == b
  {
    var g: nat :| Ideal(program, frame, g) == Some(a);
    var h: nat :| Ideal(program, frame, h) == Some(b);
    IdealMore(program, frame, g, g + h);
    IdealMore(program, frame, h, g + h);
  }

  // ---- Evaluation backwards, one step of a body at a time -----------------------------

  // Whatever the later frame ends with, the earlier one does too.
  ghost predicate Leads(program: Program, earlier: Frame, later: Frame) {
    forall done :: Means(program, later, done) ==> Means(program, earlier, done)
  }

  lemma {:induction false} NoteLeads(program: Program, frame: Frame)
    requires var a := NextAction(program, frame); a.SetMetadata? || a.GetMetadata?
    ensures Leads(program, frame, Noted(frame, NextAction(program, frame)))
  {
    var next := Noted(frame, NextAction(program, frame));
    forall done | Means(program, next, done) ensures Means(program, frame, done) {
      var g: nat :| Ideal(program, next, g) == Some(done);
      assert Ideal(program, frame, g + 1) == Some(done);
    }
  }

  lemma {:induction false} CallLeads(program: Program, frame: Frame, called: Done)
    requires NextAction(program, frame).Call?
    requires CallMeans(program, CallId(frame, NextAction(program, frame)), called)
    ensures Leads(program, frame, Answered(frame, NextAction(program, frame), called.outcome))
  {
    var action := NextAction(program, frame);
    var next := Answered(frame, action, called.outcome);
    var start := FreshFrame(Some(CallId(frame, action)), map[]);
    var g: nat :| Ideal(program, start, g) == Some(called);
    forall done | Means(program, next, done) ensures Means(program, frame, done) {
      var h: nat :| Ideal(program, next, h) == Some(done);
      IdealMore(program, start, g, g + h);
      IdealMore(program, next, h, g + h);
      assert Ideal(program, frame, g + h + 1) == Some(done);
    }
  }

  lemma {:induction false} EndMeans(program: Program, frame: Frame)
    ensures NextAction(program, frame).Return? ==>
      Means(program, frame, Done(Returned(NextAction(program, frame).value), frame.metadata))
    ensures NextAction(program, frame).Raise? ==>
      Means(program, frame, Done(Raised(NextAction(program, frame).error), frame.metadata))
  {
    if NextAction(program, frame).Return? || NextAction(program, frame).Raise? {
      assert Ideal(program, frame, 1).Some?;
    }
  }

  // ---- True stores --------------------------------------------------------------------

  // A completed record holds what its call really returns and the metadata it really
  // sets; a started one holds nothing yet.
  ghost predicate TrueRecord(program: Program, e: Execution) {
    && (e.status == Started ==> e.metadata == map[])
    && (e.status == Completed ==> e.result.Some? && CallMeans(program, e.id, Done(Returned(e.result.value), e.metadata)))
  }

  ghost predicate TrueDisk(program: Program, disk: Disk) {
    forall x :: x in disk.records ==> disk.records[x].id == x && TrueRecord(program, disk.records[x])
  }

  // The process carries every version the session records.
  ghost predicate Agreed(p: Process, disk: Disk) {
    forall d :: d in disk.versions ==> disk.versions[d] == p.version(d)
  }

  // Every frame stands somewhere on the evaluation of its own call.
  ghost predicate OnTrack(program: Program, stack: Stack) {
    && Leads(program, FreshFrame(stack.frame.self, map[]), stack.frame)
    && (stack.Inside? ==> OnTrack(program, stack.caller))
  }

  ghost predicate Faithful(p: Process, m: Machine) {
    && Good(p, m)
    && TrueDisk(p.program, m.disk)
    && Agreed(p, m.disk)
    && OnTrack(p.program, m.stack)
    && (m.phase.Finished? ==>
        exists metadata :: Means(p.program, FreshFrame(None, map[]), Done(m.phase.outcome, metadata)))
  }

  // What the top frame ends with is what its call means.
  lemma {:induction false} TopMeans(p: Process, m: Machine, outcome: Outcome)
    requires Faithful(p, m) && Means(p.program, m.stack.frame, Done(outcome, m.stack.frame.metadata))
    ensures Means(p.program, FreshFrame(m.stack.frame.self, map[]), Done(outcome, m.stack.frame.metadata))
  {
  }

  lemma {:induction false} CallerOnTrack(p: Process, m: Machine, done: Done)
    requires Faithful(p, m) && m.stack.Inside?
    requires CallMeans(p.program, m.stack.frame.self.value, done)
    ensures var caller := m.stack.caller.frame;
      OnTrack(p.program, m.stack.caller.(frame := Answered(caller, NextAction(p.program, caller), done.outcome)))
  {
    assert Called(p, m.stack.caller.frame, m.stack.frame);
    assert OnTrack(p.program, m.stack.caller);
    CallLeads(p.program, m.stack.caller.frame, done);
  }

  lemma {:induction false} CompleteKeepsTrue(p: Process, m: Machine, value: Payload)
    requires Faithful(p, m) && m.phase.Running? && m.stack.Inside?
    requires NextAction(p.program, m.stack.frame) == Return(value)
    ensures var frame := m.stack.frame;
      && CallMeans(p.program, frame.self.value, Done(Returned(value), frame.metadata))
      && TrueDisk(p.program, CompleteCall(m.disk, frame.self.value, value, frame.metadata))
  {
    EndMeans(p.program, m.stack.frame);
    TopMeans(p, m, Returned(value));
  }

  // The code of the top frame ends.
  lemma {:induction false} EndKeepsFaithful(p: Process, m: Machine)
    requires Faithful(p, m) && m.phase.Running?
    requires var a := NextAction(p.program, m.stack.frame); a.Return? || a.Raise?
    ensures Faithful(p, Step(p, m))
  {
    StepKeepsGood(p, m);
    var frame := m.stack.frame;
    EndMeans(p.program, frame);
    match NextAction(p.program, frame)
    case Return(value) =>
      TopMeans(p, m, Returned(value));
      if m.stack.Inside? {
        CompleteKeepsTrue(p, m, value);
        CallerOnTrack(p, m, Done(Returned(value), frame.metadata));
      }
    case Raise(error) =>
      TopMeans(p, m, Raised(error));
      if m.stack.Inside? { CallerOnTrack(p, m, Done(Raised(error), frame.metadata)); }
  }

  // A call found completed comes back, and any other starts.
  lemma {:induction false} EnterKeepsFaithful(p: Process, m: Machine)
    requires Faithful(p, m) && m.phase.Entering?
    ensures Faithful(p, Step(p, m))
  {
    StepKeepsGood(p, m);
    var id := CallId(m.stack.frame, NextAction(p.program, m.stack.frame));
    if IsCompleted(m.disk, id) {
      var e := m.disk.records[id];
      CallLeads(p.program, m.stack.frame, Done(Returned(e.result.value), e.metadata));
    }
  }

  lemma {:induction false} StepKeepsFaithful(p: Process, m: Machine)
    requires Faithful(p, m)
    ensures Faithful(p, Step(p, m))
  {
    var frame := m.stack.frame;
    var action := NextAction(p.program, frame);
    match m.phase
    case Finished(_) =>
    case Completing =>
      StepKeepsGood(p, m);
      EndMeans(p.program, frame);
      TopMeans(p, m, Returned(action.value));
      CallerOnTrack(p, m, Done(Returned(action.value), frame.metadata));
    case Entering => EnterKeepsFaithful(p, m);
    case Running =>
      if action.Return? || action.Raise? {
        EndKeepsFaithful(p, m);
      } else {
        StepKeepsGood(p, m);
        if !action.Call? { NoteLeads(p.program, frame); }
      }
  }

  lemma {:induction false} RunKeepsFaithful(p: Process, m: Machine, steps: nat)
    requires Faithful(p, m)
    ensures Faithful(p, Run(p, m, steps))
  {
    hide Step;
    if steps > 0 {
      RunKeepsFaithful(p, m, steps - 1);
      StepKeepsFaithful(p, Run(p, m, steps - 1));
    }
  }

  // ---- Any number of interruptions ----------------------------------------------------

  // Attempts by processes that run the same code at the same versions; what each prunes,
  // and where each is interrupted, is its own.
  ghost predicate SameCode(attempts: seq<Attempt>, p: Process) {
    forall i :: 0 <= i < |attempts| ==>
      && attempts[i].process.program == p.program
      && attempts[i].process.version == p.version
  }

  lemma {:induction false} BeginIsFaithful(p: Process, disk: Disk)
    requires ValidDisk(disk) && TrueDisk(p.program, disk) && Agreed(p, disk)
    ensures Faithful(p, Begin(disk))
  {
  }

  // The store is valid, true to the code, and at its versions.
  ghost predicate Trusted(p: Process, disk: Disk) {
    ValidDisk(disk) && TrueDisk(p.program, disk) && Agreed(p, disk)
  }

  // Attempts of the code, interrupted anywhere, keep a store true to it.
  lemma {:induction false} AttemptsKeepTrust(attempts: seq<Attempt>, p: Process, disk: Disk)
    requires SameCode(attempts, p) && Trusted(p, disk)
    ensures Trusted(p, After(attempts, disk))
  {
    if attempts != [] {
      var init := attempts[..|attempts| - 1];
      var last := attempts[|attempts| - 1];
      AttemptsKeepTrust(init, last.process, disk);
      BeginIsFaithful(last.process, After(init, disk));
      RunKeepsFaithful(last.process, Begin(After(init, disk)), last.steps);
    }
  }

  // Every completed record of every store the session can reach holds what its call
  // really returns.
  lemma {:induction false} HistoriesAreTrue(attempts: seq<Attempt>, p: Process)
    requires SameCode(attempts, p)
    ensures Trusted(p, After(attempts, EMPTY))
  {
    hide Run;
    AttemptsKeepTrust(attempts, p, EMPTY);
  }

  // What a session over a trusted store ends with is what the code means.
  lemma {:induction false} FinishMeans(p: Process, disk: Disk, steps: nat) returns (done: Done)
    requires Trusted(p, disk) && Run(p, Begin(disk), steps).phase.Finished?
    ensures Means(p.program, FreshFrame(None, map[]), done)
    ensures Run(p, Begin(disk), steps).phase == Finished(done.outcome)
  {
    BeginIsFaithful(p, disk);
    RunKeepsFaithful(p, Begin(disk), steps);
    var outcome := Run(p, Begin(disk), steps).phase.outcome;
    var metadata :| Means(p.program, FreshFrame(None, map[]), Done(outcome, metadata));
    done := Done(outcome, metadata);
  }

  // Over any store true to the code, a session that finishes ends as one never interrupted
  // that found nothing in its store.
  lemma {:induction false} TrustedResume(p: Process, disk: Disk, steps: nat, q: Process, uninterrupted: nat)
    requires Trusted(p, disk) && q.program == p.program && q.version == p.version
    requires Run(p, Begin(disk), steps).phase.Finished?
    requires Run(q, Begin(EMPTY), uninterrupted).phase.Finished?
    ensures Run(p, Begin(disk), steps).phase == Run(q, Begin(EMPTY), uninterrupted).phase
  {
    hide Run, Trusted, Means;
    EmptyIsTrusted(q);
    var a := FinishMeans(p, disk, steps);
    var b := FinishMeans(q, EMPTY, uninterrupted);
    MeansOneThing(p.program, FreshFrame(None, map[]), a, b);
  }

  lemma {:induction false} EmptyIsTrusted(p: Process)
    ensures Trusted(p, EMPTY)
  {
  }

  // A session that finishes, however often it was interrupted before, ends exactly as a
  // session that was never interrupted and found nothing in its store.
  lemma {:induction false} ResumeEqualsUninterrupted(
    attempts: seq<Attempt>, p: Process, steps: nat, q: Process, uninterrupted: nat)
    requires SameCode(attempts, p) && q.program == p.program && q.version == p.version
    requires Run(p, Begin(After(attempts, EMPTY)), steps).phase.Finished?
    requires Run(q, Begin(EMPTY), uninterrupted).phase.Finished?
    ensures Run(p, Begin(After(attempts, EMPTY)), steps).phase == Run(q, Begin(EMPTY), uninterrupted).phase
  {
    hide Run, Trusted;
    HistoriesAreTrue(attempts, p);
    TrustedResume(p, After(attempts, EMPTY), steps, q, uninterrupted);
  }

  // ---- Resuming gets there ------------------------------------------------------------

  // The machine after the top frame of `stack` ended with `outcome`.
  ghost predicate EndedWith(p: Process, stack: Stack, outcome: Outcome, after: Machine) {
    if stack.Outside? then after.phase == Finished(outcome)
    else
      && after.phase.Running?
      && NextAction(p.program, stack.caller.frame).Call?
      && after.stack == stack.caller.(
           frame := Answered(stack.caller.frame, NextAction(p.program, stack.caller.frame), outcome))
  }

  lemma {:induction false} EnterCall(p: Process, m: Machine, done: Done)
    requires Faithful(p, m) && m.phase.Running? && NextAction(p.program, m.stack.frame).Call?
    requires CallMeans(p.program, CallId(m.stack.frame, NextAction(p.program, m.stack.frame)), done)
    ensures var action := NextAction(p.program, m.stack.frame);
      var id := CallId(m.stack.frame, action);
      var after := Step(p, Step(p, m));
      && Faithful(p, after)
      && after.phase.Running?
      && (|| after.stack == m.stack.(frame := Answered(m.stack.frame, action, done.outcome))
          || after.stack == Inside(m.stack, FreshFrame(Some(id), map[])))
  {
    StepKeepsFaithful(p, m);
    StepKeepsFaithful(p, Step(p, m));
    var id := CallId(m.stack.frame, NextAction(p.program, m.stack.frame));
    var claimed := Step(p, m);
    assert claimed.phase.Entering? && claimed.stack == m.stack && claimed.disk.records == m.disk.records;
    if IsCompleted(m.disk, id) {
      var e := m.disk.records[id];
      assert TrueRecord(p.program, e);
      MeansOneThing(p.program, FreshFrame(Some(id), map[]), done, Done(Returned(e.result.value), e.metadata));
    } else if id in m.disk.records {
      assert TrueRecord(p.program, m.disk.records[id]);
    }
  }

  lemma {:induction false} EndTakesSteps(p: Process, m: Machine, done: Done, gas: nat) returns (n: nat)
    requires Faithful(p, m) && m.phase.Running? && Ideal(p.program, m.stack.frame, gas) == Some(done)
    requires var a := NextAction(p.program, m.stack.frame); a.Return? || a.Raise?
    ensures EndedWith(p, m.stack, done.outcome, Run(p, m, n))
  {
    FirstSteps(p, m);
    n := if Step(p, m).phase.Completing? then 2 else 1;
  }

  // Evaluating a frame that goes on evaluates the frame it goes on as.
  lemma {:induction false} IdealGoesOn(program: Program, frame: Frame, done: Done, gas: nat)
    requires Ideal(program, frame, gas) == Some(done)
    requires var a := NextAction(program, frame); !a.Return? && !a.Raise?
    ensures gas > 0
    ensures var a := NextAction(program, frame);
      if a.Call? then
        var called := IdealCall(program, CallId(frame, a), gas - 1);
        called.Some? && Ideal(program, Answered(frame, a, called.value.outcome), gas - 1) == Some(done)
      else
        (a.SetMetadata? || a.GetMetadata?) && Ideal(program, Noted(frame, a), gas - 1) == Some(done)
  {
  }

  lemma {:induction false} EndedWithTop(p: Process, stack: Stack, frame: Frame, outcome: Outcome, after: Machine)
    ensures EndedWith(p, stack.(frame := frame), outcome, after) <==> EndedWith(p, stack, outcome, after)
  {
  }

  lemma {:induction false} Completes(p: Process, m: Machine, done: Done, gas: nat) returns (n: nat)
    requires Faithful(p, m) && m.phase.Running? && Ideal(p.program, m.stack.frame, gas) == Some(done)
    ensures EndedWith(p, m.stack, done.outcome, Run(p, m, n))
    decreases gas, 1
  {
    hide Step, OnTrack, TrueDisk, Agreed, ValidDisk, Alive, Ideal, IdealCall, EndedWith, Noted, Answered;
    var frame := m.stack.frame;
    var action := NextAction(p.program, frame);
    if action.Return? || action.Raise? {
      n := EndTakesSteps(p, m, done, gas);
    } else {
      IdealGoesOn(p.program, frame, done, gas);
      var before: nat := 1;
      if action.Call? {
        before := CompletesCall(p, m, IdealCall(p.program, CallId(frame, action), gas - 1).value, gas - 1);
      } else {
        NoteStep(p, m);
        StepKeepsFaithful(p, m);
        FirstSteps(p, m);
      }
      var after := Run(p, m, before);
      var rest := Completes(p, after, done, gas - 1);
      RunOn(p, m, before, rest);
      EndedWithTop(p, m.stack, after.stack.frame, done.outcome, Run(p, m, before + rest));
      n := before + rest;
    }
  }

  // From a frame about to call to the same frame, answered.
  lemma {:induction false} CompletesCall(p: Process, m: Machine, called: Done, gas: nat) returns (n: nat)
    requires Faithful(p, m) && m.phase.Running? && NextAction(p.program, m.stack.frame).Call?
    requires IdealCall(p.program, CallId(m.stack.frame, NextAction(p.program, m.stack.frame)), gas) == Some(called)
    ensures var action := NextAction(p.program, m.stack.frame);
      var after := Run(p, m, n);
      && Faithful(p, after)
      && after.phase.Running?
      && after.stack == m.stack.(frame := Answered(m.stack.frame, action, called.outcome))
    decreases gas, 2
  {
    hide Step, OnTrack, TrueDisk, Agreed, ValidDisk, Alive;
    var id := CallId(m.stack.frame, NextAction(p.program, m.stack.frame));
    assert Means(p.program, FreshFrame(Some(id), map[]), called);
    EnterCall(p, m, called);
    FirstSteps(p, m);
    n := 2;
    var entered := Run(p, m, 2);
    if entered.stack == Inside(m.stack, FreshFrame(Some(id), map[])) {
      var inside := Completes(p, entered, called, gas);
      RunOn(p, m, 2, inside);
      RunKeepsFaithful(p, entered, inside);
      n := 2 + inside;
    }
  }

  lemma {:induction false} NoteStep(p: Process, m: Machine)
    requires WellFormed(p, m) && m.phase.Running?
    requires var a := NextAction(p.program, m.stack.frame); a.SetMetadata? || a.GetMetadata?
    ensures Step(p, m) == m.(stack := m.stack.(frame := Noted(m.stack.frame, NextAction(p.program, m.stack.frame))))
  {
  }

  // Over any store true to the code, the session finishes if the uninterrupted one does.
  lemma {:induction false} TrustedFinishes(p: Process, disk: Disk, q: Process, uninterrupted: nat) returns (steps: nat)
    requires Trusted(p, disk) && q.program == p.program && q.version == p.version
    requires Run(q, Begin(EMPTY), uninterrupted).phase.Finished?
    ensures Run(p, Begin(disk), steps).phase == Run(q, Begin(EMPTY), uninterrupted).phase
  {
    EmptyIsTrusted(q);
    var done := FinishMeans(q, EMPTY, uninterrupted);
    var gas: nat :| Ideal(p.program, FreshFrame(None, map[]), gas) == Some(done);
    BeginIsFaithful(p, disk);
    steps := Completes(p, Begin(disk), done, gas);
  }

  // If the uninterrupted session finishes, then after any history of interrupted attempts
  // one more attempt, given enough steps, finishes too, with the same outcome.
  lemma {:induction false} ResumeFinishes(
    attempts: seq<Attempt>, p: Process, q: Process, uninterrupted: nat) returns (steps: nat)
    requires SameCode(attempts, p) && q.program == p.program && q.version == p.version
    requires Run(q, Begin(EMPTY), uninterrupted).phase.Finished?
    ensures Run(p, Begin(After(attempts, EMPTY)), steps).phase == Run(q, Begin(EMPTY), uninterrupted).phase
  {
    hide Run, Trusted;
    HistoriesAreTrue(attempts, p);
    steps := TrustedFinishes(p, After(attempts, EMPTY), q, uninterrupted);
  }
}
