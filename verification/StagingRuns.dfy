// Any interleaving of tasks over staged transactions: what a whole run leaves committed.
module StagingRuns {
  import opened Wrappers
  import opened Staging

  // One atomic step of some task. Committing closes the stage in one step and applies its
  // batch in a later one, behind the client's lock; a task cancelled in between never
  // applies it.
  datatype Event =
    | Copy(from: nat, to: nat)
    | Begin(context: nat)
    | Write(context: nat, key: Key, mutation: Mutation)
    | Commit(context: nat, stage: nat)
    | Rollback(context: nat, stage: nat)
    | Apply(stage: nat)

  datatype Store = Store(staged: Stages, pending: set<nat>, applied: seq<nat>, data: Data)

  const NEW := Store(NO_STAGES, {}, [], map[])

  // A transaction that closed its stage ignores further commits and rollbacks.
  predicate Closes(s: Stages, context: nat, stage: nat) {
    stage < |s.stages| && !IsClosed(s, stage) && CloseRefusal(s, context, stage).None?
  }

  function CloseOnce(s: Stages, context: nat, stage: nat): Stages {
    if stage >= |s.stages| || IsClosed(s, stage) then s else Closed(s, context, stage)
  }

  function Take(s: Store, event: Event): Store {
    match event
    case Copy(from, to) => s.(staged := Copied(s.staged, from, to))
    case Begin(context) => s.(staged := Begun(s.staged, context))
    case Write(context, key, mutation) => s.(staged := Written(s.staged, context, key, mutation))
    case Rollback(context, stage) => s.(staged := CloseOnce(s.staged, context, stage))
    case Commit(context, stage) =>
      s.(staged := CloseOnce(s.staged, context, stage),
         pending := s.pending + if Closes(s.staged, context, stage) then {stage} else {})
    case Apply(stage) =>
      if stage in s.pending && IsClosed(s.staged, stage) then
        s.(pending := s.pending - {stage},
           applied := s.applied + [stage],
           data := Applied(s.data, s.staged.stages[stage].batch.value))
      else s
  }

  function Play(events: seq<Event>): Store {
    if events == [] then NEW else Take(Play(events[..|events| - 1]), events[|events| - 1])
  }

  lemma {:induction false} PlayLast(events: seq<Event>, event: Event)
    ensures Play(events + [event]) == Take(Play(events), event)
  {
    assert (events + [event])[..|events|] == events;
  }

  // ---- Stages over a run --------------------------------------------------------------

  // What a run may do to a stage: write to it while it is open, and close it once.
  ghost predicate Evolves(before: Stages, after: Stages, stage: nat) {
    && stage < |before.stages| <= |after.stages|
    && (IsClosed(before, stage) ==> after.stages[stage] == before.stages[stage])
    && (stage in after.tokens ==> stage in before.tokens && after.tokens[stage] == before.tokens[stage])
    && (stage !in before.tokens ==> IsClosed(before, stage) == IsClosed(after, stage))
  }

  lemma {:induction false} StepEvolves(s: Store, event: Event, stage: nat)
    requires stage < |s.staged.stages|
    ensures Evolves(s.staged, Take(s, event).staged, stage)
  {
  }

  lemma {:induction false} RunEvolves(events: seq<Event>, more: seq<Event>, stage: nat)
    requires stage < |Play(events).staged.stages|
    ensures Evolves(Play(events).staged, Play(events + more).staged, stage)
  {
    hide Take;
    if more == [] {
      assert events + more == events;
    } else {
      var init := more[..|more| - 1];
      RunEvolves(events, init, stage);
      assert (events + more)[..|events + more| - 1] == events + init;
      StepEvolves(Play(events + init), more[|more| - 1], stage);
    }
  }

  // A closed stage's batch is final, whatever tasks still hold that stage.
  lemma {:induction false} BatchIsFinal(events: seq<Event>, more: seq<Event>, stage: nat)
    requires IsClosed(Play(events).staged, stage)
    ensures stage < |Play(events + more).staged.stages|
    ensures Play(events + more).staged.stages[stage] == Play(events).staged.stages[stage]
    ensures forall context :: Current(Play(events + more).staged, context) != Some(stage)
  {
    RunEvolves(events, more, stage);
  }

  // A close in the context that opened the stage gives back what the context held before,
  // whatever any task did in between; the enclosing stage is current again unless it has
  // been closed itself.
  lemma {:induction false} CloseRestores(events: seq<Event>, more: seq<Event>, context: nat)
    requires var stage := |Play(events).staged.stages|;
      Closes(Play(events + [Begin(context)] + more).staged, context, stage)
    ensures var outside := Play(events).staged;
      var stage := |outside.stages|;
      var after := CloseOnce(Play(events + [Begin(context)] + more).staged, context, stage);
      && Held(after, context) == Held(outside, context)
      && Current(after, context) == (match Current(outside, context)
                                     case Some(enclosing) => if IsClosed(after, enclosing) then None else Some(enclosing)
                                     case None => None)
  {
    var outside := Play(events).staged;
    var stage := |outside.stages|;
    var begun := events + [Begin(context)];
    PlayLast(events, Begin(context));
    RunEvolves(begun, more, stage);
    HeldExist(events);
    if Held(outside, context).Some? {
      RunEvolves(begun, more, Held(outside, context).value);
    }
  }

  // Contexts hold, and tokens remember, stages that were opened before.
  ghost predicate Exist(s: Stages) {
    && (forall c :: c in s.open ==> s.open[c] < |s.stages|)
    && (forall t :: t in s.tokens ==>
          t < |s.stages| && (s.tokens[t].previous.Some? ==> s.tokens[t].previous.value < t))
  }

  lemma {:induction false} ExistStep(s: Store, event: Event)
    requires Exist(s.staged)
    ensures Exist(Take(s, event).staged)
  {
  }

  lemma {:induction false} HeldExist(events: seq<Event>)
    ensures Exist(Play(events).staged)
  {
    hide Take, Exist;
    if events == [] {
      assert Exist(NO_STAGES) by { NoneExist(); }
    } else {
      HeldExist(events[..|events| - 1]);
      ExistStep(Play(events[..|events| - 1]), events[|events| - 1]);
    }
  }

  lemma {:induction false} NoneExist()
    ensures Exist(NO_STAGES)
  {
  }

  // ---- Closing from a copied context --------------------------------------------------

  // The stage is open, and no context can close it any more.
  ghost predicate Stuck(s: Stages, stage: nat) {
    stage < |s.stages| && !IsClosed(s, stage) && stage !in s.tokens
  }

  // A refused close changes nothing, except from a context that merely copied the stage.
  lemma {:induction false} RefusedCloseChangesNothing(s: Stages, context: nat, stage: nat)
    requires stage < |s.stages| && CloseRefusal(s, context, stage).Some?
    ensures Closed(s, context, stage) == s <==>
      !(Held(s, context) == Some(stage) && stage in s.tokens && s.tokens[stage].context != context)
    ensures Closed(s, context, stage).open == s.open && Closed(s, context, stage).stages == s.stages
  {
    if CloseRefusal(s, context, stage) == Some(OtherContext) {
      assert stage !in Closed(s, context, stage).tokens;
    }
  }

  // The step at which a close from another context costs the stage its token.
  ghost predicate LosesToken(events: seq<Event>, n: nat, stage: nat) {
    n < |events| && LosesTokenNow(Play(events[..n]).staged, events[n], stage)
  }

  ghost predicate LosesTokenNow(s: Stages, event: Event, stage: nat) {
    && (event.Commit? || event.Rollback?)
    && event.stage == stage
    && stage < |s.stages| && !IsClosed(s, stage) && CloseRefusal(s, event.context, stage) == Some(OtherContext)
  }

  lemma {:induction false} StuckStep(s: Store, event: Event, stage: nat)
    requires stage < |s.staged.stages| && !IsClosed(Take(s, event).staged, stage)
    ensures !IsClosed(s.staged, stage)
    ensures Stuck(Take(s, event).staged, stage) <==> Stuck(s.staged, stage) || LosesTokenNow(s.staged, event, stage)
  {
  }

  lemma {:induction false} LosesTokenLast(events: seq<Event>, stage: nat)
    requires events != []
    ensures var init := events[..|events| - 1];
      (exists n: nat :: LosesToken(events, n, stage)) <==>
        (exists n: nat :: LosesToken(init, n, stage)) || LosesTokenNow(Play(init).staged, events[|events| - 1], stage)
  {
    hide Play;
    var init := events[..|events| - 1];
    forall n: nat | n < |init| ensures LosesToken(init, n, stage) == LosesToken(events, n, stage) {
      assert init[..n] == events[..n];
    }
    assert LosesTokenNow(Play(init).staged, events[|init|], stage) == LosesToken(events, |init|, stage);
    if n: nat :| LosesToken(init, n, stage) {
      assert LosesToken(events, n, stage);
    }
    if n: nat :| LosesToken(events, n, stage) {
      assert n < |init| ==> LosesToken(init, n, stage);
    }
  }

  // An open stage is stuck exactly if it was once closed from a copied context.
  lemma {:induction false} StuckExactlyAfterForeignClose(events: seq<Event>, stage: nat)
    requires stage < |Play(events).staged.stages| && !IsClosed(Play(events).staged, stage)
    ensures Stuck(Play(events).staged, stage) <==> exists n: nat :: LosesToken(events, n, stage)
  {
    hide Take, LosesToken, LosesTokenNow, Stuck;
    if events != [] {
      var init := events[..|events| - 1];
      if stage < |Play(init).staged.stages| {
        StuckStep(Play(init), events[|events| - 1], stage);
        StuckExactlyAfterForeignClose(init, stage);
        LosesTokenLast(events, stage);
      } else {
        FreshStage(events, stage);
        assert !Stuck(Play(events).staged, stage) by { HasToken(Play(events).staged, stage); }
      }
    }
  }

  lemma {:induction false} HasToken(s: Stages, stage: nat)
    requires stage in s.tokens
    ensures !Stuck(s, stage)
  {
  }

  lemma {:induction false} FreshStage(events: seq<Event>, stage: nat)
    requires events != [] && |Play(events[..|events| - 1]).staged.stages| <= stage < |Play(events).staged.stages|
    ensures stage in Play(events).staged.tokens
    ensures forall n: nat :: !LosesToken(events, n, stage)
  {
    hide Take;
    var init := events[..|events| - 1];
    FewerStagesBefore(Play(init), events[|events| - 1]);
    forall n: nat ensures !LosesToken(events, n, stage) {
      if n < |events| {
        FewerStages(events, n, |init|);
      }
    }
  }

  lemma {:induction false} FewerStagesBefore(s: Store, event: Event)
    ensures |s.staged.stages| <= |Take(s, event).staged.stages| <= |s.staged.stages| + 1
    ensures |Take(s, event).staged.stages| > |s.staged.stages| ==>
      event.Begin? && |s.staged.stages| in Take(s, event).staged.tokens
  {
  }

  lemma {:induction false} FewerStages(events: seq<Event>, a: nat, b: nat)
    requires a <= b <= |events|
    ensures |Play(events[..a]).staged.stages| <= |Play(events[..b]).staged.stages|
  {
    hide Take;
    if a < b {
      FewerStages(events, a, b - 1);
      assert events[..b][..b - 1] == events[..b - 1];
      FewerStagesBefore(Play(events[..b - 1]), events[b - 1]);
    }
  }

  // Once stuck, a stage stays open in every continuation: its transaction can neither
  // commit nor roll back.
  lemma {:induction false} StuckForever(events: seq<Event>, more: seq<Event>, stage: nat)
    requires Stuck(Play(events).staged, stage)
    ensures Stuck(Play(events + more).staged, stage)
  {
    RunEvolves(events, more, stage);
  }

  // A task opens a stage, another copies its context and tries to close the stage there.
  lemma {:induction false} ForeignCloseSticks()
    ensures Stuck(Play([Begin(0), Copy(0, 1), Commit(1, 0)]).staged, 0)
  {
    var events := [Begin(0), Copy(0, 1), Commit(1, 0)];
    assert events[..2] == [Begin(0), Copy(0, 1)];
    assert events[..2][..1] == [Begin(0)];
    assert [Begin(0)][..0] == [];
  }

  // ---- What is committed --------------------------------------------------------------

  // The stage a step writes to.
  function Target(s: Store, event: Event): Option<nat> {
    if event.Write? then Current(s.staged, event.context) else None
  }

  // Everything the run staged in a stage, in order.
  function Writes(events: seq<Event>, stage: nat): seq<(Key, Mutation)> {
    if events == [] then []
    else
      var init, last := events[..|events| - 1], events[|events| - 1];
      Writes(init, stage) + if Target(Play(init), last) == Some(stage) then [(last.key, last.mutation)] else []
  }

  // Writes made straight to the committed data, one at a time.
  function Performed(data: Data, writes: seq<(Key, Mutation)>): Data {
    if writes == [] then data
    else
      var last := writes[|writes| - 1];
      Changed(Performed(data, writes[..|writes| - 1]), last.0, last.1)
  }

  function Batched(writes: seq<(Key, Mutation)>): Batch {
    if writes == [] then map[]
    else Batched(writes[..|writes| - 1])[writes[|writes| - 1].0 := writes[|writes| - 1].1]
  }

  // All of one transaction's writes after all of another's.
  function Serial(events: seq<Event>, order: seq<nat>): seq<(Key, Mutation)> {
    if order == [] then []
    else Serial(events, order[..|order| - 1]) + Writes(events, order[|order| - 1])
  }

  lemma {:induction false} AppliedIsPerformed(data: Data, writes: seq<(Key, Mutation)>)
    ensures Applied(data, Batched(writes)) == Performed(data, writes)
  {
    if writes == [] {
      assert Applied(data, map[]) == data;
    } else {
      var init, last := writes[..|writes| - 1], writes[|writes| - 1];
      AppliedIsPerformed(data, init);
      AppliedMore(data, Batched(init), last.0, last.1);
    }
  }

  lemma {:induction false} AppliedMore(data: Data, batch: Batch, key: Key, mutation: Mutation)
    ensures Applied(data, batch[key := mutation]) == Changed(Applied(data, batch), key, mutation)
  {
  }

  lemma {:induction false} PerformedOn(data: Data, first: seq<(Key, Mutation)>, second: seq<(Key, Mutation)>)
    ensures Performed(data, first + second) == Performed(Performed(data, first), second)
  {
    if second == [] {
      assert first + second == first;
    } else {
      PerformedOn(data, first, second[..|second| - 1]);
      assert (first + second)[..|first + second| - 1] == first + second[..|second| - 1];
    }
  }

  // What each stage holds is what the run staged in it.
  ghost predicate Collects(events: seq<Event>, s: Stages) {
    forall t: nat :: t < |s.stages| ==>
      && s.stages[t].mutations == Batched(Writes(events, t))
      && (s.stages[t].batch.Some? ==> s.stages[t].batch.value == s.stages[t].mutations)
  }

  lemma {:induction false} NoWrites(events: seq<Event>, stage: nat)
    requires |Play(events).staged.stages| <= stage
    ensures Writes(events, stage) == []
  {
    if events != [] {
      FewerStages(events, |events| - 1, |events|);
      assert events[..|events|] == events;
      NoWrites(events[..|events| - 1], stage);
    }
  }

  lemma {:induction false} StepCollects(s: Store, event: Event, t: nat)
    requires t < |Take(s, event).staged.stages|
    ensures var after := Take(s, event).staged.stages[t];
      if t >= |s.staged.stages| then after == Stage(map[], None)
      else
        var before := s.staged.stages[t];
        && after.mutations == (if Target(s, event) == Some(t) then before.mutations[event.key := event.mutation]
                               else before.mutations)
        && (after.batch == before.batch || after.batch == Some(after.mutations))
        && (before.batch.Some? ==> after == before)
  {
  }

  lemma {:induction false} StagesCollect(events: seq<Event>)
    ensures Collects(events, Play(events).staged)
  {
    hide Take, Target;
    if events != [] {
      var init, last := events[..|events| - 1], events[|events| - 1];
      StagesCollect(init);
      var before, after := Play(init).staged, Play(events).staged;
      forall t: nat | t < |after.stages|
        ensures after.stages[t].mutations == Batched(Writes(events, t))
        ensures after.stages[t].batch.Some? ==> after.stages[t].batch.value == after.stages[t].mutations
      {
        StepCollects(Play(init), last, t);
        if t >= |before.stages| {
          NoWrites(init, t);
          NoTarget(Play(init), last, t);
        }
        var writes := Writes(events, t);
        if Target(Play(init), last) == Some(t) {
          assert writes[..|writes| - 1] == Writes(init, t);
        } else {
          assert writes == Writes(init, t);
        }
      }
    }
  }

  lemma {:induction false} NoTarget(s: Store, event: Event, stage: nat)
    requires |s.staged.stages| <= stage
    ensures Target(s, event) != Some(stage)
  {
  }

  // Stages are applied once each, after being committed.
  ghost predicate Orderly(s: Store) {
    && (forall t :: t in s.pending ==> IsClosed(s.staged, t) && t !in s.applied)
    && (forall t :: t in s.applied ==> IsClosed(s.staged, t))
    && (forall i, j :: 0 <= i < j < |s.applied| ==> s.applied[i] != s.applied[j])
  }

  lemma {:induction false} OrderlyStep(s: Store, event: Event)
    requires Orderly(s)
    ensures Orderly(Take(s, event))
  {
    forall t: nat | IsClosed(s.staged, t) ensures IsClosed(Take(s, event).staged, t) {
      StepEvolves(s, event, t);
    }
  }

  lemma {:induction false} NewIsOrderly()
    ensures Orderly(NEW)
  {
  }

  lemma {:induction false} RunsAreOrderly(events: seq<Event>)
    ensures Orderly(Play(events))
  {
    hide Take, Orderly;
    if events == [] {
      NewIsOrderly();
    } else {
      RunsAreOrderly(events[..|events| - 1]);
      OrderlyStep(Play(events[..|events| - 1]), events[|events| - 1]);
    }
  }

  // A closed stage is not written to, so a longer run stages the same in it.
  lemma {:induction false} SameSerial(events: seq<Event>, order: seq<nat>)
    requires events != []
    requires forall t :: t in order ==> IsClosed(Play(events[..|events| - 1]).staged, t)
    ensures Serial(events, order) == Serial(events[..|events| - 1], order)
  {
    hide Take;
    if order != [] {
      assert order[|order| - 1] in order;
      var fewer, before := order[..|order| - 1], Play(events[..|events| - 1]).staged;
      forall t | t in fewer ensures IsClosed(before, t) {
        assert t in order;
      }
      SameSerial(events, fewer);
      ClosedIsNotWritten(events, order[|order| - 1]);
    }
  }

  lemma {:induction false} ClosedIsNotWritten(events: seq<Event>, stage: nat)
    requires events != [] && IsClosed(Play(events[..|events| - 1]).staged, stage)
    ensures Writes(events, stage) == Writes(events[..|events| - 1], stage)
  {
    hide Take, Play;
  }

  // The committed data is what the committed transactions would have left, each running
  // alone and writing straight to the store, in the order their batches were applied.
  lemma {:induction false} CommittedIsSerial(events: seq<Event>)
    ensures Play(events).data == Performed(map[], Serial(events, Play(events).applied))
  {
    hide Performed, Batched, Writes;
    if events == [] {
      assert Performed(map[], []) == map[] by { PerformedNothing(); }
    } else {
      var init, last := events[..|events| - 1], events[|events| - 1];
      var before, after := Play(init), Play(events);
      CommittedIsSerial(init);
      RunsAreOrderly(init);
      SameSerial(events, before.applied);
      if after.applied != before.applied {
        assert last.Apply? && IsClosed(before.staged, last.stage);
        assert after.applied[..|after.applied| - 1] == before.applied;
        StagesCollect(init);
        SameSerial(events, [last.stage]);
        OneSerial(events, last.stage);
        OneSerial(init, last.stage);
        AppliedIsPerformed(before.data, Writes(init, last.stage));
        PerformedOn(map[], Serial(init, before.applied), Writes(init, last.stage));
      }
    }
  }

  lemma {:induction false} PerformedNothing()
    ensures Performed(map[], []) == map[]
  {
  }

  lemma {:induction false} OneSerial(events: seq<Event>, stage: nat)
    ensures Serial(events, [stage]) == Writes(events, stage)
  {
    assert [stage][..0] == [];
    assert Serial(events, []) == [];
  }

  // ---- Rolled-back transactions leave no trace ----------------------------------------

  // The run without what it wrote to one stage.
  function Without(events: seq<Event>, stage: nat): seq<Event> {
    if events == [] then []
    else
      var init, last := events[..|events| - 1], events[|events| - 1];
      Without(init, stage) + if Target(Play(init), last) == Some(stage) then [] else [last]
  }

  // The same stages, except for what one of them holds.
  ghost predicate AlikeStages(s: Stages, t: Stages, stage: nat) {
    && t.open == s.open
    && t.tokens == s.tokens
    && |t.stages| == |s.stages|
    && (forall i: nat :: i < |s.stages| ==> t.stages[i].batch.Some? == s.stages[i].batch.Some?)
    && (forall i: nat :: i < |s.stages| && i != stage ==> t.stages[i] == s.stages[i])
  }

  ghost predicate AlikeBut(s: Store, t: Store, stage: nat) {
    && AlikeStages(s.staged, t.staged, stage)
    && t.pending == s.pending && t.applied == s.applied && t.data == s.data
  }

  lemma {:induction false} AlikeBegun(s: Stages, t: Stages, stage: nat, context: nat)
    requires AlikeStages(s, t, stage)
    ensures AlikeStages(Begun(s, context), Begun(t, context), stage)
  {
  }

  lemma {:induction false} AlikeWritten(
    s: Stages, t: Stages, stage: nat, context: nat, key: Key, mutation: Mutation)
    requires AlikeStages(s, t, stage)
    ensures Current(s, context) != Some(stage) ==>
      AlikeStages(Written(s, context, key, mutation), Written(t, context, key, mutation), stage)
    ensures Current(s, context) == Some(stage) ==> AlikeStages(Written(s, context, key, mutation), t, stage)
    ensures Current(t, context) == Current(s, context)
  {
  }

  lemma {:induction false} AlikeClosed(s: Stages, t: Stages, stage: nat, context: nat, closing: nat)
    requires AlikeStages(s, t, stage)
    ensures AlikeStages(CloseOnce(s, context, closing), CloseOnce(t, context, closing), stage)
    ensures Closes(t, context, closing) == Closes(s, context, closing)
  {
  }

  lemma {:induction false} AlikeStep(s: Store, t: Store, stage: nat, event: Event)
    requires AlikeBut(s, t, stage) && event != Apply(stage) && Target(s, event) != Some(stage)
    ensures AlikeBut(Take(s, event), Take(t, event), stage)
  {
    hide AlikeStages, Begun, Written, CloseOnce, Closes, Current;
    match event
    case Copy(_, _) => assert AlikeStages(Take(s, event).staged, Take(t, event).staged, stage) by {
      AlikeCopied(s.staged, t.staged, stage, event.from, event.to);
    }
    case Begin(context) => AlikeBegun(s.staged, t.staged, stage, context);
    case Write(context, key, mutation) => AlikeWritten(s.staged, t.staged, stage, context, key, mutation);
    case Commit(context, closing) => AlikeClosed(s.staged, t.staged, stage, context, closing);
    case Rollback(context, closing) => AlikeClosed(s.staged, t.staged, stage, context, closing);
    case Apply(applied) => AlikeApplied(s, t, stage, applied);
  }

  lemma {:induction false} AlikeCopied(s: Stages, t: Stages, stage: nat, from: nat, to: nat)
    requires AlikeStages(s, t, stage)
    ensures AlikeStages(Copied(s, from, to), Copied(t, from, to), stage)
  {
  }

  lemma {:induction false} AlikeApplied(s: Store, t: Store, stage: nat, applied: nat)
    requires AlikeBut(s, t, stage) && applied != stage
    ensures AlikeBut(Take(s, Apply(applied)), Take(t, Apply(applied)), stage)
  {
  }

  lemma {:induction false} AlikeWithout(events: seq<Event>, stage: nat)
    requires stage !in Play(events).applied
    ensures AlikeBut(Play(events), Play(Without(events, stage)), stage)
  {
    hide Take, AlikeBut;
    if events == [] {
      assert AlikeBut(NEW, NEW, stage) by { AlikeItself(NEW, stage); }
    } else {
      var init, last := events[..|events| - 1], events[|events| - 1];
      StillApplied(Play(init), last);
      AlikeWithout(init, stage);
      var s, t := Play(init), Play(Without(init, stage));
      if Target(s, last) == Some(stage) {
        HiddenWrite(s, t, stage, last);
        assert Without(events, stage) == Without(init, stage);
      } else {
        PlayLast(Without(init, stage), last);
        if last == Apply(stage) {
          SkippedApply(s, t, stage);
        } else {
          AlikeStep(s, t, stage, last);
        }
      }
    }
  }

  lemma {:induction false} AlikeItself(s: Store, stage: nat)
    ensures AlikeBut(s, s, stage)
  {
  }

  lemma {:induction false} StillApplied(s: Store, event: Event)
    ensures forall t :: t in s.applied ==> t in Take(s, event).applied
  {
  }

  lemma {:induction false} HiddenWrite(s: Store, t: Store, stage: nat, event: Event)
    requires AlikeBut(s, t, stage) && Target(s, event) == Some(stage)
    ensures AlikeBut(Take(s, event), t, stage)
  {
    AlikeWritten(s.staged, t.staged, stage, event.context, event.key, event.mutation);
  }

  lemma {:induction false} SkippedApply(s: Store, t: Store, stage: nat)
    requires AlikeBut(s, t, stage) && stage !in Take(s, Apply(stage)).applied
    ensures AlikeBut(Take(s, Apply(stage)), Take(t, Apply(stage)), stage)
  {
  }

  ghost predicate RolledBackAt(events: seq<Event>, n: nat, context: nat, stage: nat) {
    && n < |events|
    && events[n] == Rollback(context, stage)
    && Closes(Play(events[..n]).staged, context, stage)
  }

  lemma {:induction false} RolledBackNeverApplied(events: seq<Event>, n: nat, context: nat, stage: nat)
    requires RolledBackAt(events, n, context, stage)
    ensures Discarded(Play(events), stage)
  {
    hide Take, Closes, Orderly, Discarded;
    var init := events[..|events| - 1];
    if n < |init| {
      assert init[..n] == events[..n];
      RolledBackNeverApplied(init, n, context, stage);
      DiscardedStep(Play(init), events[|events| - 1], stage);
    } else {
      RunsAreOrderly(init);
      RollbackDiscards(Play(init), context, stage);
    }
  }

  // Closed, and never to be applied.
  ghost predicate Discarded(s: Store, stage: nat) {
    stage !in s.applied && stage !in s.pending && IsClosed(s.staged, stage)
  }

  lemma {:induction false} DiscardedStep(s: Store, event: Event, stage: nat)
    requires Discarded(s, stage)
    ensures Discarded(Take(s, event), stage)
  {
    StepEvolves(s, event, stage);
  }

  lemma {:induction false} RollbackDiscards(s: Store, context: nat, stage: nat)
    requires Orderly(s) && Closes(s.staged, context, stage)
    ensures Discarded(Take(s, Rollback(context, stage)), stage)
  {
  }

  // However tasks interleave, what was written in a transaction that rolled back makes no
  // difference to what is committed.
  lemma {:induction false} RolledBackLeavesNoTrace(events: seq<Event>, n: nat, context: nat, stage: nat)
    requires RolledBackAt(events, n, context, stage)
    ensures Play(Without(events, stage)).data == Play(events).data
    ensures Writes(Without(events, stage), stage) == []
  {
    RolledBackNeverApplied(events, n, context, stage);
    AlikeWithout(events, stage);
    NothingWritten(events, stage);
  }

  lemma {:induction false} NothingWritten(events: seq<Event>, stage: nat)
    requires stage !in Play(events).applied
    ensures Writes(Without(events, stage), stage) == []
  {
    hide Take, AlikeBut;
    if events != [] {
      var init, last := events[..|events| - 1], events[|events| - 1];
      StillApplied(Play(init), last);
      NothingWritten(init, stage);
      if Target(Play(init), last) != Some(stage) {
        AlikeWithout(init, stage);
        AlikeTarget(Play(init), Play(Without(init, stage)), stage, last);
        var without := Without(events, stage);
        assert without[..|without| - 1] == Without(init, stage);
      } else {
        assert Without(events, stage) == Without(init, stage);
      }
    }
  }

  lemma {:induction false} AlikeTarget(s: Store, t: Store, stage: nat, event: Event)
    requires AlikeBut(s, t, stage)
    ensures Target(t, event) == Target(s, event)
  {
  }

  // ---- Which stages are closed, and which applied -------------------------------------

  // The n-th event opened the stage, in its context.
  ghost predicate OpensAt(events: seq<Event>, n: nat, stage: nat) {
    n < |events| && events[n].Begin? && stage == |Play(events[..n]).staged.stages|
  }

  // A stage can be closed exactly in the context that opened it, while it is current there
  // and no copied context has tried to.
  lemma {:induction false} ClosesExactly(events: seq<Event>, n: nat, stage: nat, context: nat)
    requires OpensAt(events, n, stage)
    ensures Closes(Play(events).staged, context, stage) <==>
      && context == events[n].context
      && Current(Play(events).staged, context) == Some(stage)
      && forall k: nat :: !LosesToken(events, k, stage)
  {
    var begun, rest := events[..n + 1], events[n + 1..];
    assert begun + rest == events;
    assert begun == events[..n] + [events[n]];
    PlayLast(events[..n], events[n]);
    RunEvolves(begun, rest, stage);
    if !IsClosed(Play(events).staged, stage) { StuckExactlyAfterForeignClose(events, stage); }
    hide LosesToken;
  }

  // The n-th event committed the stage's transaction.
  ghost predicate CommitsAt(events: seq<Event>, n: nat, stage: nat) {
    && n < |events| && events[n].Commit? && events[n].stage == stage
    && Closes(Play(events[..n]).staged, events[n].context, stage)
  }

  ghost predicate Committed(events: seq<Event>, stage: nat) {
    exists n: nat :: CommitsAt(events, n, stage)
  }

  // The batch was handed on after its transaction had committed.
  ghost predicate HandedOn(events: seq<Event>, stage: nat) {
    exists m: nat :: HandsOnAt(events, m, stage)
  }

  ghost predicate HandsOnAt(events: seq<Event>, m: nat, stage: nat) {
    m < |events| && events[m] == Apply(stage) && Committed(events[..m], stage)
  }

  lemma {:induction false} CommittedMore(events: seq<Event>, stage: nat)
    requires events != []
    ensures var init, n := events[..|events| - 1], |events| - 1;
      Committed(events, stage) <==> Committed(init, stage) || CommitsAt(events, n, stage)
  {
    hide Play;
    var init := events[..|events| - 1];
    forall n: nat | n < |init| ensures CommitsAt(events, n, stage) <==> CommitsAt(init, n, stage) {
      assert init[..n] == events[..n];
    }
  }

  lemma {:induction false} HandedOnMore(events: seq<Event>, stage: nat)
    requires events != []
    ensures var init, last := events[..|events| - 1], events[|events| - 1];
      HandedOn(events, stage) <==> HandedOn(init, stage) || (last == Apply(stage) && Committed(init, stage))
  {
    hide Committed;
    var init := events[..|events| - 1];
    forall m: nat | m < |init| ensures HandsOnAt(events, m, stage) <==> HandsOnAt(init, m, stage) {
      assert init[..m] == events[..m];
    }
    assert HandsOnAt(events, |init|, stage) <==> events[|init|] == Apply(stage) && Committed(init, stage);
  }

  // A batch is applied exactly if its transaction committed and it was handed on after
  // that; a task cancelled in between leaves it out.
  lemma {:induction false} AppliedExactly(events: seq<Event>, stage: nat)
    ensures stage in Play(events).applied <==> HandedOn(events, stage)
    ensures stage in Play(events).pending || stage in Play(events).applied <==> Committed(events, stage)
  {
    hide Closes, CloseOnce, Begun, Copied, Written, Applied;
    if events != [] {
      var init := events[..|events| - 1];
      AppliedExactly(init, stage);
      CommittedMore(events, stage);
      HandedOnMore(events, stage);
      RunsAreOrderly(init);
      hide Committed, HandedOn;
    }
  }

  // ---- Reads --------------------------------------------------------------------------

  // A task reads its own writes, and no task reads what another stage holds: where the
  // writer's stage is current, the key reads as written and every other key as before.
  lemma {:induction false} ReadsAreIsolated(s: Stages, data: Data, context: nat, key: Key, mutation: Mutation, other: nat)
    requires Current(s, context).Some?
    ensures var after := Written(s, context, key, mutation);
      && Current(after, other) == Current(s, other)
      && Visible(after, data, other) ==
         if Current(s, other) != Current(s, context) then Visible(s, data, other)
         else if mutation.SaveExecution? then Visible(s, data, other)[key := mutation.snapshot]
         else Visible(s, data, other) - {key}
  {
    AppliedMore(data, s.stages[Current(s, context).value].mutations, key, mutation);
  }
}
