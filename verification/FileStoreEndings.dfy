// How each call of update_document ends for its caller, in every run, said on the events
// of the run alone.
module FileStoreEndings {
  import opened FileStore
  import opened FileStoreRuns

  // ---- What happens to a call ---------------------------------------------------------

  predicate Underway(w: World, j: nat) {
    j < |w.jobs| && !w.jobs[j].phase.Done?
  }

  // The k-th event cancels the call while it is under way. An opening does not suspend, so
  // it cannot be cancelled.
  ghost predicate CancelsAt(events: seq<Event>, k: nat, j: nat)
    requires k < |events|
  {
    var w := Play(events[..k]);
    events[k] == Cancel(j) && Underway(w, j) && !w.jobs[j].request.Opening?
  }

  // The k-th event takes the call's process away while the call is under way.
  ghost predicate CrashesAt(events: seq<Event>, k: nat, j: nat)
    requires k < |events|
  {
    var w := Play(events[..k]);
    Underway(w, j) && events[k] == Crash(w.jobs[j].client)
  }

  ghost predicate WasCancelled(events: seq<Event>, j: nat) {
    exists k: nat :: k < |events| && CancelsAt(events, k, j)
  }

  ghost predicate HasCrashed(events: seq<Event>, j: nat) {
    exists k: nat :: k < |events| && CrashesAt(events, k, j)
  }

  lemma {:induction false} OneMoreEvent(events: seq<Event>, j: nat)
    requires events != []
    ensures var init, n := events[..|events| - 1], |events| - 1;
      && (WasCancelled(events, j) <==> WasCancelled(init, j) || CancelsAt(events, n, j))
      && (HasCrashed(events, j) <==> HasCrashed(init, j) || CrashesAt(events, n, j))
  {
    hide Play;
    var init, n := events[..|events| - 1], |events| - 1;
    forall k: nat | k < n
      ensures CancelsAt(events, k, j) <==> CancelsAt(init, k, j)
      ensures CrashesAt(events, k, j) <==> CrashesAt(init, k, j)
    {
      assert init[..k] == events[..k];
    }
  }

  // ---- What a call's state tells of it ------------------------------------------------

  predicate CrashedNow(job: Job) {
    job.phase == Done(Crashed)
  }

  predicate CancelledNow(job: Job) {
    job.cancelled || job.phase == Done(Cancelled)
  }

  // Only a call with a worker is marked as cancelled, and it ends so unless it crashes.
  predicate Honest(job: Job) {
    job.cancelled ==>
      && !job.phase.Waiting? && !job.phase.Locked?
      && (job.phase.Done? ==> job.phase.outcome.Cancelled? || job.phase.outcome.Crashed?)
  }

  // A worker settles by returning or by raising.
  predicate SettledWell(phase: Phase) {
    (phase.Settled? || phase.Releasing?) ==> phase.outcome.Returned? || phase.outcome.Failed?
  }

  // Before its task lock is released, only a cancellation ends a call or marks it.
  lemma {:induction false} WorkingEvent(w: World, event: Event, j: nat)
    requires j < |w.jobs| && !event.Spawn? && !event.Open? && !event.Crash? && event.job == j
    requires !event.Cancel? && !event.ReleaseTask? && SettledWell(w.jobs[j].phase)
    ensures j < |Step(w, event).jobs|
    ensures var job, after := w.jobs[j], Step(w, event).jobs[j];
      && SettledWell(after.phase) && after == job.(phase := after.phase)
      && (job.phase.Done? || after.phase.Done? ==> after.phase == job.phase)
  {
  }

  lemma {:induction false} JobEvent(w: World, event: Event, j: nat)
    requires j < |w.jobs| && !event.Spawn? && !event.Open? && !event.Crash? && event.job == j
    requires Honest(w.jobs[j]) && SettledWell(w.jobs[j].phase)
    ensures j < |Step(w, event).jobs|
    ensures var job, after := w.jobs[j], Step(w, event).jobs[j];
      && Honest(after) && SettledWell(after.phase) && after.client == job.client && after.request == job.request
      && (CrashedNow(after) <==> CrashedNow(job))
      && (CancelledNow(after) <==>
          CancelledNow(job) || (event.Cancel? && !job.phase.Done? && !job.request.Opening?))
  {
    if !event.Cancel? && !event.ReleaseTask? {
      WorkingEvent(w, event, j);
      hide JobStep;
    }
  }

  lemma {:induction false} OtherJobs(w: World, event: Event, i: nat)
    requires i < |w.jobs| && !event.Crash?
    requires !event.Spawn? && !event.Open? ==> event.job != i
    ensures i < |Step(w, event).jobs| && Step(w, event).jobs[i] == w.jobs[i]
  {
  }

  ghost predicate Told(events: seq<Event>, j: nat) {
    var w := Play(events);
    if j < |w.jobs| then
      && Honest(w.jobs[j]) && SettledWell(w.jobs[j].phase)
      && (CrashedNow(w.jobs[j]) <==> HasCrashed(events, j))
      && (CancelledNow(w.jobs[j]) <==> WasCancelled(events, j))
    else !HasCrashed(events, j) && !WasCancelled(events, j)
  }

  lemma {:induction false} CrashTells(w: World, client: nat, j: nat)
    requires j < |w.jobs| && Honest(w.jobs[j]) && SettledWell(w.jobs[j].phase)
    ensures j < |Crashing(w, client).jobs|
    ensures var job, after := w.jobs[j], Crashing(w, client).jobs[j];
      && Honest(after) && SettledWell(after.phase)
      && (CrashedNow(after) <==> CrashedNow(job) || (!job.phase.Done? && job.client == client))
      && (CancelledNow(after) <==> CancelledNow(job))
  {
  }

  lemma {:induction false} NewJobs(w: World, event: Event, j: nat)
    requires |w.jobs| <= j < |Step(w, event).jobs|
    ensures event.Spawn? || event.Open?
    ensures Step(w, event).jobs[j].phase == Waiting && !Step(w, event).jobs[j].cancelled
  {
  }

  lemma {:induction false} EventTells(events: seq<Event>, j: nat)
    requires events != [] && Told(events[..|events| - 1], j)
    ensures Told(events, j)
  {
    hide JobStep, Crashing, Honest, CrashedNow, CancelledNow, WasCancelled, HasCrashed;
    OneMoreEvent(events, j);
    var w, event := Play(events[..|events| - 1]), events[|events| - 1];
    if j >= |w.jobs| {
      if j < |Step(w, event).jobs| {
        NewJobs(w, event, j);
        NotYet(Step(w, event).jobs[j]);
      }
    } else if event.Crash? {
      CrashTells(w, event.client, j);
    } else if event.Spawn? || event.Open? || event.job != j {
      OtherJobs(w, event, j);
    } else {
      JobEvent(w, event, j);
    }
  }

  lemma {:induction false} NotYet(job: Job)
    requires job.phase == Waiting && !job.cancelled
    ensures Honest(job) && !CrashedNow(job) && !CancelledNow(job)
  {
  }

  lemma {:induction false} RunsTell(events: seq<Event>, j: nat)
    ensures Told(events, j)
  {
    hide Step;
    if events != [] {
      RunsTell(events[..|events| - 1], j);
      EventTells(events, j);
    }
  }

  // ---- How calls end ------------------------------------------------------------------

  // A call whose process crashed under it ends with the process. One that was cancelled
  // meanwhile, even while its worker ran, raises the cancellation. Any other ends as its
  // worker did: it returned exactly if its operation took effect, with that answer, and
  // raised otherwise.
  lemma {:induction false} EndsByItsEvents(events: seq<Event>, j: nat)
    requires j < |Play(events).jobs| && Play(events).jobs[j].phase.Done?
    ensures var w := Play(events);
      var outcome := w.jobs[j].phase.outcome;
      if HasCrashed(events, j) then outcome == Crashed
      else if WasCancelled(events, j) then outcome == Cancelled
      else if Logged(w.log, j) then
        outcome.Returned? && exists n: nat :: TookEffect(w.log, n, j, outcome.result)
      else outcome == Failed
  {
    hide Play, TookEffect, HasCrashed, WasCancelled;
    RunsTell(events, j);
    ResultsAreLinear(events, j);
    var w := Play(events);
    if w.jobs[j].phase.outcome.Returned? {
      var n: nat :| TookEffect(w.log, n, j, w.jobs[j].phase.outcome.result);
      EffectIsLogged(w.log, n, j, w.jobs[j].phase.outcome.result);
    }
  }

  lemma {:induction false} EffectIsLogged(log: seq<Entry>, n: nat, j: nat, result: string)
    requires TookEffect(log, n, j, result)
    ensures Logged(log, j)
  {
  }

  // ---- Why calls fail -----------------------------------------------------------------

  predicate FailedNow(job: Job) {
    (job.phase.Settled? || job.phase.Releasing? || job.phase.Done?) && job.phase.outcome.Failed?
  }

  // The operation raises on the document as some operations of the order left it.
  ghost predicate RaisesIn(log: seq<Entry>, request: Request) {
    exists n: nat :: n <= |log| && Operate(request, Fold(log[..n])).None?
  }

  lemma {:induction false} FailStep(w: World, event: Event, j: nat)
    requires j < |w.jobs| && AllCurrent(w.jobs, w.disk)
    requires !event.Spawn? && !event.Open? && !event.Crash? && event.job == j
    ensures j < |Step(w, event).jobs| && Step(w, event).jobs[j].request == w.jobs[j].request
    ensures FailedNow(Step(w, event).jobs[j]) ==>
      FailedNow(w.jobs[j]) || event == Fail(j) || Operate(w.jobs[j].request, Content(w.disk)).None?
  {
    assert Current(w.jobs[j], w.disk);
  }

  lemma {:induction false} RaisesLater(log: seq<Entry>, longer: seq<Entry>, request: Request)
    requires log <= longer && RaisesIn(log, request)
    ensures RaisesIn(longer, request)
  {
    var n: nat :| n <= |log| && Operate(request, Fold(log[..n])).None?;
    assert longer[..n] == log[..n];
  }

  lemma {:induction false} CrashFails(w: World, client: nat, j: nat)
    requires j < |w.jobs|
    ensures j < |Crashing(w, client).jobs| && Crashing(w, client).jobs[j].request == w.jobs[j].request
    ensures FailedNow(Crashing(w, client).jobs[j]) ==> FailedNow(w.jobs[j])
  {
  }

  // A call that raised did so because its worker met a failure of the disk, or because its
  // operation refused the document.
  lemma {:induction false} FailuresHaveCauses(events: seq<Event>, j: nat)
    requires j < |Play(events).jobs| && FailedNow(Play(events).jobs[j])
    ensures Fail(j) in events || RaisesIn(Play(events).log, Play(events).jobs[j].request)
  {
    hide Step, Fold, FailedNow, JobStep, Crashing, RaisesIn;
    var init, event := events[..|events| - 1], events[|events| - 1];
    var w, after := Play(init), Play(events);
    RunsAreSound(init);
    StepExtends(w, event);
    if j >= |w.jobs| {
      NewJobs(w, event, j);
      NotFailedYet(after.jobs[j]);
      assert false;
    } else {
      FailsBefore(w, event, j);
      if FailedNow(w.jobs[j]) {
        FailuresHaveCauses(init, j);
        if Fail(j) in init {
          assert Fail(j) in events;
        } else {
          RaisesLater(w.log, after.log, w.jobs[j].request);
        }
      } else if event != Fail(j) {
        RaisesNow(w.log, w.jobs[j].request);
        RaisesLater(w.log, after.log, w.jobs[j].request);
      }
    }
  }

  lemma {:induction false} NotFailedYet(job: Job)
    requires job.phase == Waiting
    ensures !FailedNow(job)
  {
  }

  lemma {:induction false} RaisesNow(log: seq<Entry>, request: Request)
    requires Operate(request, Fold(log)).None?
    ensures RaisesIn(log, request)
  {
    assert log[..|log|] == log;
  }

  lemma {:induction false} FailsBefore(w: World, event: Event, j: nat)
    requires Sound(w) && j < |w.jobs|
    ensures j < |Step(w, event).jobs| && Step(w, event).jobs[j].request == w.jobs[j].request
    ensures FailedNow(Step(w, event).jobs[j]) ==>
      FailedNow(w.jobs[j]) || event == Fail(j) || Operate(w.jobs[j].request, Fold(w.log)).None?
  {
    hide JobStep, Crashing, FailedNow, Locks, Operate;
    if event.Crash? {
      CrashFails(w, event.client, j);
    } else if event.Spawn? || event.Open? || event.job != j {
      OtherJobs(w, event, j);
    } else {
      FailStep(w, event, j);
    }
  }
}
