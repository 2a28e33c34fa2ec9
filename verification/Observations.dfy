// What the code of a call observes, in every run: what its calls answered, what its
// metadata held, and which ordinals its calls were given. Said on the code and its history
// alone: the meaning that the frames of Replay are held to.
module Observations {
  import opened Wrappers
  import opened Identity
  import opened Sequencing
  import opened Replay
  import opened ReplaySafety

  // ---- How a call ends for its caller -------------------------------------------------

  // One more observation, and the same code goes on with the same metadata.
  ghost predicate Sees(before: Frame, after: Frame, seen: Observation) {
    after.self == before.self && after.metadata == before.metadata && after.history == before.history + [seen]
  }

  // The code below the top of the stack goes on, having seen this outcome; the code outside
  // every call ends the session with it.
  ghost predicate HandedOn(stack: Stack, after: Machine, outcome: Outcome) {
    match stack
    case Outside(_) => after.phase == Finished(outcome)
    case Inside(caller, _) =>
      && after.phase == Running
      && Sees(caller.frame, after.stack.frame, Answer(outcome))
      && SameBelow(caller, after.stack)
  }

  ghost predicate SameBelow(before: Stack, after: Stack) {
    if before.Outside? then after.Outside? else after.Inside? && after.caller == before.caller
  }

  // How the code of a call ended.
  ghost predicate EndsAs(program: Program, id: ExecutionId, last: Frame, outcome: Outcome) {
    last.self == Some(id)
    && match NextAction(program, last)
       case Return(value) => outcome == Returned(value)
       case Raise(error) => outcome == Raised(error)
       case _ => false
  }

  // A call found completed answers its record; another one as its code ended.
  ghost predicate ExecutedAs(p: Process, disk: Disk, id: ExecutionId, last: Frame, outcome: Outcome) {
    if IsCompleted(disk, id) then
      disk.records[id].result.Some? && outcome == Returned(disk.records[id].result.value)
    else EndsAs(p.program, id, last, outcome)
  }

  // A call whose domain is recorded at another version is refused with both versions.
  ghost predicate CalledAs(
    p: Process, disk: Disk, domain: string, id: ExecutionId, last: Frame, outcome: Outcome)
  {
    if domain in disk.versions && disk.versions[domain] != p.version(domain) then
      outcome == Raised(VersionMismatch(domain, disk.versions[domain], p.version(domain)))
    else ExecutedAs(p, disk, id, last, outcome)
  }

  // An exception the code of a call raises is raised in its caller, and leaves the store.
  lemma {:induction false} RaiseReachesCaller(p: Process, m: Machine, error: Error)
    requires Good(p, m) && m.phase.Running? && NextAction(p.program, m.stack.frame) == Raise(error)
    ensures HandedOn(m.stack, Step(p, m), Raised(error)) && Step(p, m).disk == m.disk
  {
    var after := Step(p, m);
    assert m.stack.Inside? ==> after.stack == m.stack.caller.(frame := after.stack.frame);
  }

  // A value it returns is recorded and handed to its caller, at once or once the handler
  // has pruned what lies below the call.
  lemma {:induction false} ReturnReachesCaller(p: Process, m: Machine, value: Payload)
    requires Good(p, m) && m.phase.Running? && NextAction(p.program, m.stack.frame) == Return(value)
    ensures var after := Step(p, m);
      if m.stack.Inside? && p.prunes(m.stack.frame.self.value) then
        after.phase == Completing && after.stack == m.stack && HandedOn(m.stack, Step(p, after), Returned(value))
      else HandedOn(m.stack, after, Returned(value))
    ensures m.stack.Outside? ==> Step(p, m).disk == m.disk
    ensures m.stack.Inside? ==>
      var id := m.stack.frame.self.value;
      && id in m.disk.records && id in Step(p, m).disk.records
      && Step(p, m).disk.records[id] == m.disk.records[id].(
           status := Completed, result := Some(value), metadata := m.stack.frame.metadata)
      && (forall x :: x != id ==> SameAt(m.disk, Step(p, m).disk, x))
  {
    var after := Step(p, m);
    if m.stack.Inside? {
      var id := m.stack.frame.self.value;
      assert m.disk.records[id].status == Started;
      if p.prunes(id) {
        var handled := Step(p, after);
        assert handled.stack == m.stack.caller.(frame := handled.stack.frame);
      } else {
        assert after.stack == m.stack.caller.(frame := after.stack.frame);
      }
    }
  }

  // What the handler removes: the records below the completed call, and no other.
  lemma {:induction false} HandlingPrunes(p: Process, m: Machine, x: ExecutionId)
    requires Good(p, m) && m.phase.Completing?
    ensures x in Step(p, m).disk.records <==> x in m.disk.records && !Under(x, m.stack.frame.self.value)
    ensures x in Step(p, m).disk.records ==> Step(p, m).disk.records[x] == m.disk.records[x]
    ensures Step(p, m).disk.versions == m.disk.versions
  {
  }

  // A call found completed answers its record. Any other starts, with nothing seen yet, on
  // the record an earlier attempt left or on one that holds its arguments alone.
  lemma {:induction false} EnteringAnswersOrStarts(p: Process, m: Machine)
    requires Good(p, m) && m.phase.Entering?
    ensures var id := CallId(m.stack.frame, NextAction(p.program, m.stack.frame));
      var after := Step(p, m);
      if id in m.disk.records && m.disk.records[id].status == Completed then
        && m.disk.records[id].result.Some? && after.disk == m.disk
        && after.phase == Running && SameBelow(m.stack, after.stack)
        && Sees(m.stack.frame, after.stack.frame, Answer(Returned(m.disk.records[id].result.value)))
      else
        && after.phase == Running && after.stack.Inside? && after.stack.caller == m.stack
        && after.stack.frame.self == Some(id) && after.stack.frame.history == []
        && after.disk.versions == m.disk.versions
        && after.disk.records == (
             if id in m.disk.records then m.disk.records
             else m.disk.records[id := Execution(
               id, Started, NextAction(p.program, m.stack.frame).arguments, None, map[])])
        && after.stack.frame.metadata == after.disk.records[id].metadata
  {
    var after := Step(p, m);
    assert after.stack.Outside? || after.stack.caller == m.stack || after.stack == m.stack.(frame := after.stack.frame);
  }

  // A call whose domain is recorded at another version is refused, with both versions; at
  // any other it goes on, its domain recorded at the version the process carries.
  lemma {:induction false} ClaimRefusesOrEnters(p: Process, m: Machine)
    requires Good(p, m) && m.phase.Running? && NextAction(p.program, m.stack.frame).Call?
    ensures var domain := NextAction(p.program, m.stack.frame).domain;
      var after := Step(p, m);
      && after.disk.records == m.disk.records
      && if domain in m.disk.versions && m.disk.versions[domain] != p.version(domain) then
           && after.disk == m.disk && after.phase == Running && SameBelow(m.stack, after.stack)
           && Sees(m.stack.frame, after.stack.frame,
                   Answer(Raised(VersionMismatch(domain, m.disk.versions[domain], p.version(domain)))))
         else
           && after.disk.versions == m.disk.versions[domain := p.version(domain)]
           && after.phase == Entering && after.stack == m.stack
  {
    var domain := NextAction(p.program, m.stack.frame).domain;
    if domain in m.disk.versions {
      assert m.disk.versions[domain := m.disk.versions[domain]] == m.disk.versions;
    }
  }

  // ---- What a body sees of its metadata -----------------------------------------------

  // The entries as a body that has come this far left them: the latest value of every key
  // it set, over what its record held when it started.
  ghost function SetSoFar(
    program: Program, self: ExecutionId, history: seq<Observation>, start: map<string, Payload>)
    : map<string, Payload>
  {
    if history == [] then start
    else
      var before := history[..|history| - 1];
      match program(Some(self), before)
      case SetMetadata(key, value) => SetSoFar(program, self, before, start)[key := value]
      case _ => SetSoFar(program, self, before, start)
  }

  ghost predicate Sets(program: Program, self: ExecutionId, history: seq<Observation>, i: nat, key: string)
    requires i < |history|
  {
    program(Some(self), history[..i]).SetMetadata? && program(Some(self), history[..i]).key == key
  }

  // An entry is the last value set, if there is one, and else what the record held.
  lemma {:induction false} SetSoFarIsLast(
    program: Program, self: ExecutionId, history: seq<Observation>, start: map<string, Payload>, key: string)
    ensures var held := SetSoFar(program, self, history, start);
      || (exists i: nat ::
            && i < |history| && Sets(program, self, history, i, key)
            && (forall j: nat :: i < j < |history| ==> !Sets(program, self, history, j, key))
            && key in held && held[key] == program(Some(self), history[..i]).value)
      || (&& (forall i: nat :: i < |history| ==> !Sets(program, self, history, i, key))
          && (key in held <==> key in start) && (key in held ==> held[key] == start[key]))
  {
    if history != [] {
      var n := |history| - 1;
      var before := history[..n];
      SetSoFarIsLast(program, self, before, start, key);
      assert forall i: nat :: i < n ==> before[..i] == history[..i];
      assert forall i: nat :: i < n ==> (Sets(program, self, before, i, key) <==> Sets(program, self, history, i, key));
      assert Sets(program, self, history, n, key) || !Sets(program, self, history, n, key);
    }
  }

  // What the body saw next fits what it asked for: a read sees the entry as the body left
  // it, and nothing if there is none.
  ghost predicate Fits(
    program: Program, self: ExecutionId, history: seq<Observation>, start: map<string, Payload>, i: nat)
    requires i < |history|
  {
    match program(Some(self), history[..i])
    case SetMetadata(_, _) => history[i] == MetadataSet
    case GetMetadata(key) =>
      var held := SetSoFar(program, self, history[..i], start);
      history[i] == MetadataRead(if key in held then Some(held[key]) else None)
    case _ => history[i].Answer?
  }

  ghost predicate AllFit(
    program: Program, self: ExecutionId, history: seq<Observation>, start: map<string, Payload>)
  {
    forall i: nat :: i < |history| ==> Fits(program, self, history, start, i)
  }

  // A frame of a call whose record held `start` when it started.
  ghost predicate Told(program: Program, frame: Frame, start: map<string, Payload>) {
    && frame.self.Some?
    && frame.metadata == SetSoFar(program, frame.self.value, frame.history, start)
    && AllFit(program, frame.self.value, frame.history, start)
  }

  // Outside every call there is no metadata: each access raises.
  ghost predicate ToldOutside(program: Program, frame: Frame) {
    forall i: nat :: i < |frame.history| ==>
      var action := program(None, frame.history[..i]);
      action.SetMetadata? || action.GetMetadata? ==> frame.history[i] == Answer(Raised(NoCurrentExecution))
  }

  ghost predicate AllTold(program: Program, stack: Stack, disk: Disk) {
    match stack
    case Outside(frame) => ToldOutside(program, frame)
    case Inside(caller, frame) =>
      && frame.self.Some? && frame.self.value in disk.records
      && Told(program, frame, disk.records[frame.self.value].metadata)
      && AllTold(program, caller, disk)
  }

  lemma {:induction false} ToldMore(
    program: Program, before: Frame, after: Frame, start: map<string, Payload>, seen: Observation)
    requires Told(program, before, start) && after.self == before.self && after.history == before.history + [seen]
    requires Fits(program, before.self.value, after.history, start, |before.history|)
    requires after.metadata == SetSoFar(program, before.self.value, after.history, start)
    ensures Told(program, after, start)
  {
    hide SetSoFar;
    forall i: nat | i < |after.history| ensures Fits(program, after.self.value, after.history, start, i) {
      if i < |before.history| {
        assert after.history[..i] == before.history[..i];
        assert Fits(program, before.self.value, before.history, start, i);
      }
    }
  }

  // Whatever a call answers fits, and changes no metadata.
  lemma {:induction false} ToldAnswer(
    program: Program, before: Frame, after: Frame, start: map<string, Payload>, outcome: Outcome)
    requires Told(program, before, start) && NextAction(program, before).Call? && Sees(before, after, Answer(outcome))
    ensures Told(program, after, start)
  {
    assert after.history[..|before.history|] == before.history;
    ToldMore(program, before, after, start, Answer(outcome));
  }

  lemma {:induction false} ToldNote(program: Program, frame: Frame, start: map<string, Payload>)
    requires Told(program, frame, start)
    requires var a := NextAction(program, frame); a.SetMetadata? || a.GetMetadata?
    ensures Told(program, Noted(frame, NextAction(program, frame)), start)
  {
    var after := Noted(frame, NextAction(program, frame));
    assert after.history[..|frame.history|] == frame.history;
    ToldMore(program, frame, after, start, after.history[|frame.history|]);
  }

  lemma {:induction false} ToldOutsideMore(program: Program, before: Frame, after: Frame, seen: Observation)
    requires before.self.None? && ToldOutside(program, before) && after.history == before.history + [seen]
    requires var action := NextAction(program, before);
      action.Call? || seen == Answer(Raised(NoCurrentExecution))
    ensures ToldOutside(program, after)
  {
    forall i: nat | i < |after.history|
      ensures var action := program(None, after.history[..i]);
        action.SetMetadata? || action.GetMetadata? ==> after.history[i] == Answer(Raised(NoCurrentExecution))
    {
      if i < |before.history| {
        assert after.history[..i] == before.history[..i];
      } else {
        assert after.history[..i] == before.history;
      }
    }
  }

  // The frames on a stack are told the same over a store that agrees on their records.
  lemma {:induction false} ToldElsewhere(p: Process, stack: Stack, before: Disk, after: Disk, id: ExecutionId)
    requires Stacked(p, stack) && AllTold(p.program, stack, before) && Within(before, after, id)
    requires Below(id, stack.frame.self)
    ensures AllTold(p.program, stack, after)
  {
    hide Told, ToldOutside;
    if stack.Inside? {
      var self := stack.frame.self.value;
      NotUnderItself(self);
      if Under(self, id) { UnderTransitive(self, id, self); }
      assert SameAt(before, after, self);
      if stack.caller.frame.self.Some? { UnderTransitive(id, self, stack.caller.frame.self.value); }
      ToldElsewhere(p, stack.caller, before, after, id);
    }
  }

  lemma {:induction false} ToldOver(program: Program, stack: Stack, before: Disk, after: Disk)
    requires AllTold(program, stack, before) && after.records == before.records
    ensures AllTold(program, stack, after)
  {
    hide Told, ToldOutside;
    if stack.Inside? { ToldOver(program, stack.caller, before, after); }
  }

  lemma {:induction false} TopAnswered(p: Process, stack: Stack, after: Stack, disk: Disk, outcome: Outcome)
    requires Stacked(p, stack) && AllTold(p.program, stack, disk) && NextAction(p.program, stack.frame).Call?
    requires SameBelow(stack, after) && Sees(stack.frame, after.frame, Answer(outcome))
    ensures AllTold(p.program, after, disk)
  {
    if stack.Inside? {
      ToldAnswer(p.program, stack.frame, after.frame, disk.records[stack.frame.self.value].metadata, outcome);
    } else {
      ToldOutsideMore(p.program, stack.frame, after.frame, Answer(outcome));
    }
  }

  lemma {:induction false} StepTells(p: Process, m: Machine)
    requires Good(p, m) && !m.phase.Completing? && AllTold(p.program, m.stack, m.disk)
    ensures var after := Step(p, m);
      if after.phase.Completing? then AllTold(p.program, after.stack.caller, after.disk)
      else AllTold(p.program, after.stack, after.disk)
  {
    hide Told, ToldOutside, Noted;
    var frame := m.stack.frame;
    var action := NextAction(p.program, frame);
    var after := Step(p, m);
    match m.phase
    case Finished(_) =>
    case Entering =>
      EnteringAnswersOrStarts(p, m);
      var id := CallId(frame, action);
      if IsCompleted(m.disk, id) {
        TopAnswered(p, m.stack, after.stack, m.disk, Returned(m.disk.records[id].result.value));
      } else {
        ToldElsewhere(p, m.stack, m.disk, after.disk, id);
        FreshIsTold(p.program, after.stack.frame);
      }
    case Running =>
      match action
      case Return(value) =>
        if m.stack.Inside? {
          CompleteTells(p, m, value);
        }
      case Raise(error) =>
        RaiseReachesCaller(p, m, error);
        if m.stack.Inside? { TopAnswered(p, m.stack.caller, after.stack, m.disk, Raised(error)); }
      case Call(domain, _, _) =>
        ClaimRefusesOrEnters(p, m);
        if after.phase.Running? {
          TopAnswered(p, m.stack, after.stack, m.disk,
            Raised(VersionMismatch(domain, m.disk.versions[domain], p.version(domain))));
        }
        ToldOver(p.program, after.stack, m.disk, after.disk);
      case _ => NoteTells(p, m.stack, m.disk);
  }

  lemma {:induction false} FreshIsTold(program: Program, frame: Frame)
    requires frame.self.Some? && frame.history == []
    ensures Told(program, frame, frame.metadata)
  {
  }

  lemma {:induction false} NoteTells(p: Process, stack: Stack, disk: Disk)
    requires Stacked(p, stack) && AllTold(p.program, stack, disk)
    requires var a := NextAction(p.program, stack.frame); a.SetMetadata? || a.GetMetadata?
    ensures AllTold(p.program, stack.(frame := Noted(stack.frame, NextAction(p.program, stack.frame))), disk)
  {
    var noted := Noted(stack.frame, NextAction(p.program, stack.frame));
    if stack.Inside? {
      ToldNote(p.program, stack.frame, disk.records[stack.frame.self.value].metadata);
    } else {
      ToldOutsideMore(p.program, stack.frame, noted, noted.history[|stack.frame.history|]);
    }
  }

  lemma {:induction false} CompleteTells(p: Process, m: Machine, value: Payload)
    requires Good(p, m) && m.phase.Running? && m.stack.Inside? && AllTold(p.program, m.stack.caller, m.disk)
    requires NextAction(p.program, m.stack.frame) == Return(value)
    ensures var after := Step(p, m);
      if after.phase.Completing? then AllTold(p.program, after.stack.caller, after.disk)
      else AllTold(p.program, after.stack, after.disk)
  {
    hide AllTold;
    ReturnReachesCaller(p, m, value);
    var id, after := m.stack.frame.self.value, Step(p, m);
    ToldElsewhere(p, m.stack.caller, m.disk, after.disk, id);
    if !after.phase.Completing? {
      TopAnswered(p, m.stack.caller, after.stack, after.disk, Returned(value));
    }
  }

  lemma {:induction false} HandlingTells(p: Process, m: Machine)
    requires Good(p, m) && m.phase.Completing? && AllTold(p.program, m.stack.caller, m.disk)
    ensures !Step(p, m).phase.Completing? && AllTold(p.program, Step(p, m).stack, Step(p, m).disk)
  {
    hide AllTold;
    var id, after := m.stack.frame.self.value, Step(p, m);
    var value := NextAction(p.program, m.stack.frame).value;
    assert after.stack == m.stack.caller.(frame := after.stack.frame);
    PruneKeepsValid(m.disk, id);
    ToldElsewhere(p, m.stack.caller, m.disk, after.disk, id);
    TopAnswered(p, m.stack.caller, after.stack, after.disk, Returned(value));
  }

  lemma {:induction false} BeginTells(p: Process, disk: Disk)
    ensures AllTold(p.program, Begin(disk).stack, disk)
  {
  }

  // In every run over a valid store: every read of every call under way saw the last value
  // its body had set, and else what its record held when it started; and every access
  // outside the calls raised.
  lemma {:induction false} RunsTell(p: Process, disk: Disk, steps: nat)
    requires ValidDisk(disk)
    ensures var m := Run(p, Begin(disk), steps);
      if m.phase.Completing? then AllTold(p.program, m.stack.caller, m.disk)
      else AllTold(p.program, m.stack, m.disk)
  {
    hide Step, AllTold, Good, ValidDisk;
    if steps == 0 {
      BeginTells(p, disk);
    } else {
      var m := Run(p, Begin(disk), steps - 1);
      RunsTell(p, disk, steps - 1);
      BeginIsGood(p, disk);
      RunKeepsGood(p, Begin(disk), steps - 1);
      if m.phase.Completing? { HandlingTells(p, m); } else { StepTells(p, m); }
    }
  }

  // ---- What a completed record holds --------------------------------------------------

  // The record of a call whose body came this far and returned, having started over a
  // record that held `start`.
  ghost predicate Tells(
    program: Program, x: ExecutionId, history: seq<Observation>, start: map<string, Payload>, e: Execution)
  {
    && e.status == Completed && e.result.Some?
    && program(Some(x), history) == Return(e.result.value)
    && AllFit(program, x, history, start)
    && e.metadata == SetSoFar(program, x, history, start)
  }

  // What a record held before an attempt.
  function HeldAt(disk: Disk, x: ExecutionId): map<string, Payload> {
    if x in disk.records then disk.records[x].metadata else map[]
  }

  // A record as an attempt over `before` may leave it: as it was found, started, or
  // completed by its body.
  ghost predicate LeftAs(program: Program, before: Disk, x: ExecutionId, e: Execution) {
    || (x in before.records && e == before.records[x])
    || (e.status == Started && e.metadata == HeldAt(before, x))
    || (exists history :: Tells(program, x, history, HeldAt(before, x), e))
  }

  ghost predicate AllLeft(program: Program, before: Disk, after: Disk) {
    forall x :: x in after.records ==> LeftAs(program, before, x, after.records[x])
  }

  // A call that is entered anew was not recorded before the attempt.
  lemma {:induction false} EnteredIsNew(p: Process, disk: Disk, steps: nat)
    requires ValidDisk(disk) && Run(p, Begin(disk), steps).phase.Entering?
    ensures var m := Run(p, Begin(disk), steps);
      var id := CallId(m.stack.frame, NextAction(p.program, m.stack.frame));
      id !in m.disk.records ==> id !in disk.records
  {
    hide Step, Run, ValidDisk;
    var m := Run(p, Begin(disk), steps);
    var id := CallId(m.stack.frame, NextAction(p.program, m.stack.frame));
    BeginIsGood(p, disk);
    RunKeepsGood(p, Begin(disk), steps);
    RunProgress(p, disk, steps);
    assert Moves(disk, m.disk, id);
    if id !in m.disk.records && id in disk.records {
      EnteredIsUnsettled(p, m);
      assert false;
    }
  }

  lemma {:induction false} StepLeaves(p: Process, m: Machine, before: Disk)
    requires Good(p, m) && AllLeft(p.program, before, m.disk)
    requires !m.phase.Completing? ==> AllTold(p.program, m.stack, m.disk)
    requires m.phase.Entering? ==>
      var id := CallId(m.stack.frame, NextAction(p.program, m.stack.frame));
      id !in m.disk.records ==> id !in before.records
    ensures AllLeft(p.program, before, Step(p, m).disk)
  {
    hide Told, SetSoFar, AllFit, Tells;
    var frame := m.stack.frame;
    var action := NextAction(p.program, frame);
    match m.phase
    case Finished(_) =>
    case Completing => forall x { HandlingPrunes(p, m, x); }
    case Entering => EnteringAnswersOrStarts(p, m);
    case Running =>
      match action
      case Return(value) =>
        ReturnReachesCaller(p, m, value);
        if m.stack.Inside? { CompletedTells(p, m, value, before); }
      case Raise(error) => RaiseReachesCaller(p, m, error);
      case Call(_, _, _) => ClaimRefusesOrEnters(p, m);
      case _ =>
  }

  lemma {:induction false} CompletedTells(p: Process, m: Machine, value: Payload, before: Disk)
    requires Good(p, m) && m.phase.Running? && m.stack.Inside? && AllTold(p.program, m.stack, m.disk)
    requires NextAction(p.program, m.stack.frame) == Return(value) && AllLeft(p.program, before, m.disk)
    ensures var id := m.stack.frame.self.value;
      id in Step(p, m).disk.records && LeftAs(p.program, before, id, Step(p, m).disk.records[id])
  {
    hide SetSoFar, AllFit;
    ReturnReachesCaller(p, m, value);
    var id := m.stack.frame.self.value;
    var e := Step(p, m).disk.records[id];
    assert LeftAs(p.program, before, id, m.disk.records[id]);
    assert Tells(p.program, id, m.stack.frame.history, HeldAt(before, id), e);
  }

  // Every record an attempt completes holds what its body returned and the entries it set,
  // over what the record held before; and its reads on the way saw those entries.
  lemma {:induction false} RunsLeave(p: Process, disk: Disk, steps: nat)
    requires ValidDisk(disk)
    ensures AllLeft(p.program, disk, Run(p, Begin(disk), steps).disk)
  {
    hide Step, AllTold, Good, ValidDisk, Tells;
    if steps > 0 {
      var m := Run(p, Begin(disk), steps - 1);
      RunsLeave(p, disk, steps - 1);
      RunsTell(p, disk, steps - 1);
      BeginIsGood(p, disk);
      RunKeepsGood(p, Begin(disk), steps - 1);
      if m.phase.Entering? { EnteredIsNew(p, disk, steps - 1); }
      StepLeaves(p, m, disk);
    }
  }

  // ---- Ordinals -----------------------------------------------------------------------

  // How often the code called this scope before.
  ghost function Times(program: Program, self: Option<ExecutionId>, history: seq<Observation>, scope: Scope): nat {
    if history == [] then 0
    else
      var before := history[..|history| - 1];
      var action := program(self, before);
      Times(program, self, before, scope)
        + if action.Call? && scope == Scope(self, action.domain, action.name, action.arguments.digest) then 1 else 0
  }

  ghost predicate Carries(p: Process, versions: map<string, string>, domain: string) {
    domain in versions ==> versions[domain] == p.version(domain)
  }

  // Each frame counts its calls of a domain its process carries; the others are refused
  // before they are counted.
  ghost predicate AllCounted(p: Process, stack: Stack, versions: map<string, string>) {
    && (forall s: Scope :: s.parent == stack.frame.self ==>
          Count(stack.frame.counts, s) ==
            if Carries(p, versions, s.domain) then Times(p.program, stack.frame.self, stack.frame.history, s) else 0)
    && (stack.Inside? ==>
        && stack.frame.self.Some? && Carries(p, versions, stack.frame.self.value.domain)
        && AllCounted(p, stack.caller, versions))
  }

  lemma {:induction false} TimesMore(
    program: Program, self: Option<ExecutionId>, history: seq<Observation>, seen: Observation, scope: Scope)
    ensures Times(program, self, history + [seen], scope) == Times(program, self, history, scope)
      + if program(self, history).Call? && scope == Scope(self, program(self, history).domain,
          program(self, history).name, program(self, history).arguments.digest) then 1 else 0
  {
    assert (history + [seen])[..|history|] == history;
  }

  lemma {:induction false} CountedOver(
    p: Process, stack: Stack, before: map<string, string>, after: map<string, string>)
    requires AllCounted(p, stack, before)
    requires forall d :: Carries(p, before, d) <==> Carries(p, after, d)
    ensures AllCounted(p, stack, after)
  {
    hide Carries, Times;
    if stack.Inside? { CountedOver(p, stack.caller, before, after); }
  }

  lemma {:induction false} AnsweredCounts(p: Process, stack: Stack, versions: map<string, string>, outcome: Outcome)
    requires AllCounted(p, stack, versions) && NextAction(p.program, stack.frame).Call?
    requires Carries(p, versions, NextAction(p.program, stack.frame).domain)
    ensures AllCounted(p, stack.(frame := Answered(stack.frame, NextAction(p.program, stack.frame), outcome)), versions)
  {
    hide Carries;
    forall s { TimesMore(p.program, stack.frame.self, stack.frame.history, Answer(outcome), s); }
    hide Times;
  }

  lemma {:induction false} RefusedCounts(p: Process, stack: Stack, versions: map<string, string>, error: Error)
    requires AllCounted(p, stack, versions) && NextAction(p.program, stack.frame).Call?
    requires !Carries(p, versions, NextAction(p.program, stack.frame).domain)
    ensures AllCounted(p, stack.(frame := Refused(stack.frame, error)), versions)
  {
    forall s { TimesMore(p.program, stack.frame.self, stack.frame.history, Answer(Raised(error)), s); }
    hide Times;
  }

  lemma {:induction false} NotedCounts(p: Process, stack: Stack, versions: map<string, string>)
    requires AllCounted(p, stack, versions)
    requires var a := NextAction(p.program, stack.frame); a.SetMetadata? || a.GetMetadata?
    ensures AllCounted(p, stack.(frame := Noted(stack.frame, NextAction(p.program, stack.frame))), versions)
  {
    var noted := Noted(stack.frame, NextAction(p.program, stack.frame));
    var seen := noted.history[|stack.frame.history|];
    assert noted.history == stack.frame.history + [seen];
    forall s { TimesMore(p.program, stack.frame.self, stack.frame.history, seen, s); }
    hide Times, Carries;
  }

  lemma {:induction false} CallerCounts(p: Process, m: Machine, versions: map<string, string>, outcome: Outcome)
    requires WellFormed(p, m) && m.stack.Inside? && AllCounted(p, m.stack, versions)
    ensures AllCounted(p, Answering(p, m.stack.caller, outcome), versions)
  {
    hide Times, Carries;
    assert Called(p, m.stack.caller.frame, m.stack.frame);
    AnsweredCounts(p, m.stack.caller, versions, outcome);
  }

  lemma {:induction false} NoneYet(program: Program, self: Option<ExecutionId>)
    ensures forall s :: Times(program, self, [], s) == 0
  {
  }

  lemma {:induction false} StepCounts(p: Process, m: Machine)
    requires Good(p, m) && AllCounted(p, m.stack, m.disk.versions)
    ensures AllCounted(p, Step(p, m).stack, Step(p, m).disk.versions)
  {
    hide Times;
    var frame := m.stack.frame;
    var action := NextAction(p.program, frame);
    match m.phase
    case Finished(_) =>
    case Completing => CallerCounts(p, m, m.disk.versions, Returned(action.value));
    case Entering =>
      var id := CallId(frame, action);
      if IsCompleted(m.disk, id) {
        AnsweredCounts(p, m.stack, m.disk.versions, Returned(m.disk.records[id].result.value));
      } else {
        NoneYet(p.program, Some(id));
      }
    case Running =>
      match action
      case Return(value) =>
        if m.stack.Inside? { CallerCounts(p, m, m.disk.versions, Returned(value)); }
      case Raise(error) =>
        if m.stack.Inside? { CallerCounts(p, m, m.disk.versions, Raised(error)); }
      case Call(domain, _, _) => ClaimCounts(p, m);
      case _ => NotedCounts(p, m.stack, m.disk.versions);
  }

  lemma {:induction false} ClaimCounts(p: Process, m: Machine)
    requires Good(p, m) && m.phase.Running? && NextAction(p.program, m.stack.frame).Call?
    requires AllCounted(p, m.stack, m.disk.versions)
    ensures AllCounted(p, Step(p, m).stack, Step(p, m).disk.versions)
  {
    hide AllCounted;
    var domain := NextAction(p.program, m.stack.frame).domain;
    var claimed := Claim(m.disk, domain, p.version(domain)).versions;
    assert forall d :: Carries(p, m.disk.versions, d) <==> Carries(p, claimed, d);
    CountedOver(p, m.stack, m.disk.versions, claimed);
    if claimed[domain] != p.version(domain) {
      RefusedCounts(p, m.stack, claimed, VersionMismatch(domain, claimed[domain], p.version(domain)));
    }
  }

  lemma {:induction false} RunsCount(p: Process, disk: Disk, steps: nat)
    requires ValidDisk(disk)
    ensures AllCounted(p, Run(p, Begin(disk), steps).stack, Run(p, Begin(disk), steps).disk.versions)
  {
    hide Step, AllCounted, Good, ValidDisk;
    if steps == 0 {
      BeginCounts(p, disk);
    } else {
      RunsCount(p, disk, steps - 1);
      BeginIsGood(p, disk);
      RunKeepsGood(p, Begin(disk), steps - 1);
      StepCounts(p, Run(p, Begin(disk), steps - 1));
    }
  }

  lemma {:induction false} BeginCounts(p: Process, disk: Disk)
    ensures AllCounted(p, Begin(disk).stack, disk.versions)
  {
  }

  // In every run: the identity a call is given has the call it is made from as its parent,
  // and as its ordinal how often that call asked for the same before.
  lemma {:induction false} RunsIdentify(p: Process, disk: Disk, steps: nat)
    requires ValidDisk(disk) && Run(p, Begin(disk), steps).phase.Entering?
    ensures var m := Run(p, Begin(disk), steps);
      var frame := m.stack.frame;
      var call := NextAction(p.program, frame);
      var digest := call.arguments.digest;
      CallId(frame, call) == ExecutionId(
        frame.self, call.domain, call.name,
        Times(p.program, frame.self, frame.history, Scope(frame.self, call.domain, call.name, digest)), digest)
  {
    hide Step, Run, ValidDisk, Times;
    RunsCount(p, disk, steps);
    BeginIsGood(p, disk);
    RunKeepsGood(p, Begin(disk), steps);
  }
}
