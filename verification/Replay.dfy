// The durable replay engine as a machine over the store: what an attempt at a session
// does to the store, step by step, and what it returns.
//
// A program says what its code does next, given the call it runs in and everything it
// has observed so far in that call. Being a function is the determinism the engine asks
// for; being keyed by the identity lets repeated identical calls differ by ordinal. The
// code outside every engraved call is the program at None.
//
// An attempt is a machine that takes one step for each thing an interruption could
// separate from the next: a claim, a START, a COMPLETE, a pruning, or the code of a body
// moving on. Only the disk survives an interruption, so the disk after n steps, for every
// n, is what an interruption at any point leaves.
module Replay {
  import opened Wrappers
  import opened Canonical
  import opened Identity
  import opened Sequencing

  datatype Error =
    | Application(message: string)
    | VersionMismatch(domain: string, recorded: string, current: string)
    | NoCurrentExecution
    | ExecutionNotFound
    | AlreadyCompleted

  datatype Outcome = Returned(value: Payload) | Raised(error: Error)

  datatype Action =
    | Return(value: Payload)
    | Raise(error: Error)
    | Call(domain: string, name: string, arguments: CanonicalArguments)
    | SetMetadata(key: string, value: Payload)
    | GetMetadata(key: string)

  datatype Observation =
    | Answer(outcome: Outcome)
    | MetadataSet
    | MetadataRead(found: Option<Payload>)

  type Program = (Option<ExecutionId>, seq<Observation>) -> Action

  // One process resuming a session: its code, the version of each domain it carries, and
  // the completions after which its pruning handler runs successfully.
  datatype Process = Process(
    program: Program,
    version: string -> string,
    prunes: ExecutionId -> bool)

  // What a store keeps of one session.
  datatype Disk = Disk(records: map<ExecutionId, Execution>, versions: map<string, string>)

  const EMPTY := Disk(map[], map[])

  // ---- Store operations -----------------------------------------------------------

  // Takes an unclaimed domain's version, or leaves the recorded one.
  function Claim(disk: Disk, domain: string, version: string): Disk {
    if domain in disk.versions then disk else disk.(versions := disk.versions[domain := version])
  }

  function StartRecord(id: ExecutionId, arguments: CanonicalArguments): Execution {
    Execution(id, Started, arguments, None, map[])
  }

  predicate IsCompleted(disk: Disk, id: ExecutionId) {
    id in disk.records && disk.records[id].status == Completed
  }

  // The START transaction: saves a record unless one is there.
  function StartCall(disk: Disk, id: ExecutionId, arguments: CanonicalArguments): Disk {
    if id in disk.records then disk
    else disk.(records := disk.records[id := StartRecord(id, arguments)])
  }

  // The COMPLETE transaction: result and staged metadata together.
  function CompleteCall(disk: Disk, id: ExecutionId, value: Payload, metadata: map<string, Payload>): Disk
    requires id in disk.records
  {
    disk.(records := disk.records[
      id := disk.records[id].(status := Completed, result := Some(value), metadata := metadata)])
  }

  function Prune(disk: Disk, id: ExecutionId): Disk {
    disk.(records := map x | x in disk.records && !Under(x, id) :: disk.records[x])
  }

  // ---- The running frame ------------------------------------------------------------

  // Where the code of one call stands: what it observed, what its transaction has staged
  // for its own record, and the ordinals it issued.
  datatype Frame = Frame(
    self: Option<ExecutionId>,
    history: seq<Observation>,
    metadata: map<string, Payload>,
    counts: Counters)

  function FreshFrame(self: Option<ExecutionId>, metadata: map<string, Payload>): Frame {
    Frame(self, [], metadata, map[])
  }

  function CallScope(frame: Frame, call: Action): Scope
    requires call.Call?
  {
    Scope(frame.self, call.domain, call.name, call.arguments.digest)
  }

  function CallId(frame: Frame, call: Action): ExecutionId
    requires call.Call?
  {
    InScope(CallScope(frame, call), Count(frame.counts, CallScope(frame, call)))
  }

  // A call that was identified came back.
  function Answered(frame: Frame, call: Action, outcome: Outcome): Frame
    requires call.Call?
  {
    frame.(history := frame.history + [Answer(outcome)],
           counts := Advance(frame.counts, CallScope(frame, call)))
  }

  // A call was refused before it was identified, so it consumed no ordinal.
  function Refused(frame: Frame, error: Error): Frame {
    frame.(history := frame.history + [Answer(Raised(error))])
  }

  // A metadata access: it is staged, or raises outside every call.
  function Noted(frame: Frame, note: Action): Frame {
    if frame.self.None? then Refused(frame, NoCurrentExecution)
    else if note.SetMetadata? then
      frame.(history := frame.history + [MetadataSet], metadata := frame.metadata[note.key := note.value])
    else if note.GetMetadata? && note.key in frame.metadata then
      frame.(history := frame.history + [MetadataRead(Some(frame.metadata[note.key]))])
    else
      frame.(history := frame.history + [MetadataRead(None)])
  }

  // ---- One attempt ----------------------------------------------------------------

  // Entering is a call whose domain is claimed and which has not started; Completing is a
  // call whose completion is committed and whose event is still to be handled.
  datatype Phase = Running | Entering | Completing | Finished(outcome: Outcome)

  // The call stack: the code outside every call, or a frame called from the one below.
  datatype Stack = Outside(frame: Frame) | Inside(caller: Stack, frame: Frame)

  datatype Machine = Machine(phase: Phase, stack: Stack, disk: Disk)

  function NextAction(program: Program, frame: Frame): Action {
    program(frame.self, frame.history)
  }

  // Every frame but the top one waits for the call the next frame runs.
  ghost predicate Stacked(p: Process, stack: Stack) {
    match stack
    case Outside(frame) => frame.self.None?
    case Inside(caller, frame) => Stacked(p, caller) && Called(p, caller.frame, frame)
  }

  predicate Called(p: Process, caller: Frame, frame: Frame) {
    && NextAction(p.program, caller).Call?
    && frame.self == Some(CallId(caller, NextAction(p.program, caller)))
  }

  // The caller's stack once the call on top of it came back.
  function Answering(p: Process, caller: Stack, outcome: Outcome): Stack
    requires NextAction(p.program, caller.frame).Call?
  {
    caller.(frame := Answered(caller.frame, NextAction(p.program, caller.frame), outcome))
  }

  ghost predicate WellFormed(p: Process, m: Machine) {
    && Stacked(p, m.stack)
    && (m.phase.Entering? ==> NextAction(p.program, m.stack.frame).Call?)
    && (m.phase.Completing? ==> m.stack.Inside? && NextAction(p.program, m.stack.frame).Return?)
  }

  // The top frame ends, and its caller sees the outcome.
  function End(p: Process, m: Machine, outcome: Outcome): (after: Machine)
    requires Stacked(p, m.stack)
    ensures WellFormed(p, after)
  {
    match m.stack
    case Outside(_) => m.(phase := Finished(outcome))
    case Inside(caller, _) =>
      assert Stacked(p, caller);
      m.(phase := Running, stack := Answering(p, caller, outcome))
  }

  function Step(p: Process, m: Machine): (after: Machine)
    requires WellFormed(p, m)
    ensures WellFormed(p, after)
  {
    match m.phase
    case Finished(_) => m
    case Completing => HandleCompletion(p, m)
    case Entering => Enter(p, m)
    case Running => Advanced(p, m)
  }

  // The pruning handler's own transaction; then the caller gets the value.
  function HandleCompletion(p: Process, m: Machine): (after: Machine)
    requires WellFormed(p, m) && m.phase.Completing?
    ensures WellFormed(p, after)
  {
    var frame := m.stack.frame;
    End(p, m.(disk := Prune(m.disk, frame.self.value)), Returned(NextAction(p.program, frame).value))
  }

  // The cache check, and START for a call that is not completed.
  function Enter(p: Process, m: Machine): (after: Machine)
    requires WellFormed(p, m) && m.phase.Entering?
    ensures WellFormed(p, after)
  {
    var caller := m.stack.frame;
    var call := NextAction(p.program, caller);
    var id := CallId(caller, call);
    if IsCompleted(m.disk, id) && m.disk.records[id].result.Some? then
      var cached := Returned(m.disk.records[id].result.value);
      m.(phase := Running, stack := Answering(p, m.stack, cached))
    else
      var started := StartCall(m.disk, id, call.arguments);
      Machine(Running, Inside(m.stack, FreshFrame(Some(id), started.records[id].metadata)), started)
  }

  // The code of the top frame moves on.
  function Advanced(p: Process, m: Machine): (after: Machine)
    requires WellFormed(p, m) && m.phase.Running?
    ensures WellFormed(p, after)
  {
    var frame := m.stack.frame;
    var action := NextAction(p.program, frame);
    match action
    case Return(value) => Complete(p, m, value)
    case Raise(error) => End(p, m, Raised(error))
    case Call(domain, _, _) =>
      var claimed := Claim(m.disk, domain, p.version(domain));
      if claimed.versions[domain] == p.version(domain) then
        m.(phase := Entering, disk := claimed)
      else
        var mismatch := VersionMismatch(domain, claimed.versions[domain], p.version(domain));
        m.(stack := m.stack.(frame := Refused(frame, mismatch)), disk := claimed)
    case _ => m.(stack := m.stack.(frame := Noted(frame, action)))
  }

  function Complete(p: Process, m: Machine, value: Payload): (after: Machine)
    requires Stacked(p, m.stack) && NextAction(p.program, m.stack.frame) == Return(value)
    ensures WellFormed(p, after)
  {
    var frame := m.stack.frame;
    if m.stack.Outside? then End(p, m, Returned(value))
    else if frame.self.value !in m.disk.records then End(p, m, Raised(ExecutionNotFound))
    else if IsCompleted(m.disk, frame.self.value) then End(p, m, Raised(AlreadyCompleted))
    else
      var completed := m.(disk := CompleteCall(m.disk, frame.self.value, value, frame.metadata));
      if p.prunes(frame.self.value) then completed.(phase := Completing)
      else End(p, completed, Returned(value))
  }

  function Run(p: Process, m: Machine, steps: nat): (after: Machine)
    requires WellFormed(p, m)
    ensures WellFormed(p, after)
  {
    if steps == 0 then m else Step(p, Run(p, m, steps - 1))
  }

  lemma {:induction false} RunOn(p: Process, m: Machine, a: nat, b: nat)
    requires WellFormed(p, m)
    ensures Run(p, Run(p, m, a), b) == Run(p, m, a + b)
  {
    hide Step;
    if b > 0 { RunOn(p, m, a, b - 1); }
  }

  lemma {:induction false} FirstSteps(p: Process, m: Machine)
    requires WellFormed(p, m)
    ensures Run(p, m, 1) == Step(p, m) && Run(p, m, 2) == Step(p, Step(p, m))
  {
    hide Step;
    assert Run(p, m, 0) == m;
    assert Run(p, m, 1) == Step(p, m);
  }

  // A session resumed over a store, before its first step.
  function Begin(disk: Disk): Machine {
    Machine(Running, Outside(FreshFrame(None, map[])), disk)
  }

  // ---- Histories of attempts ------------------------------------------------------

  // One process working on the session until it is interrupted, or finishes.
  datatype Attempt = Attempt(process: Process, steps: nat)

  function Ended(attempt: Attempt, disk: Disk): Machine {
    Run(attempt.process, Begin(disk), attempt.steps)
  }

  // The store after any number of attempts.
  function After(attempts: seq<Attempt>, disk: Disk): Disk {
    if attempts == [] then disk
    else Ended(attempts[|attempts| - 1], After(attempts[..|attempts| - 1], disk)).disk
  }
}
