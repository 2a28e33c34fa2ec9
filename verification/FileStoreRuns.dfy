// Whole runs of the file store: its writes take effect one after another, in an order
// every reader agrees with.
module FileStoreRuns {
  import opened Wrappers
  import opened FileDocument
  import opened FileStore

  // ---- The document as a fold ---------------------------------------------------------

  function AfterOperation(request: Request, document: Document): Document {
    match Operate(request, document)
    case Some(Update(_, Some(changed))) => changed
    case _ => document
  }

  // The operations run one after another, each on the whole document.
  function Fold(log: seq<Entry>): Document {
    if log == [] then NO_DOCUMENT
    else AfterOperation(log[|log| - 1].request, Fold(log[..|log| - 1]))
  }

  // The job's operation took effect as the n-th, and that is what it answered.
  ghost predicate TookEffect(log: seq<Entry>, n: nat, j: nat, result: string) {
    && n < |log| && log[n].job == j
    && var update := Operate(log[n].request, Fold(log[..n]));
       update.Some? && update.value.result == result
  }

  predicate Logged(log: seq<Entry>, j: nat) {
    exists n :: 0 <= n < |log| && log[n].job == j
  }

  // What a job's phase says of its effect.
  ghost predicate Answered(job: Job, j: nat, log: seq<Entry>) {
    match job.phase
    case Settled(outcome) => AnsweredWith(outcome, j, log) && (outcome.Returned? || outcome.Failed?)
    case Releasing(outcome) => AnsweredWith(outcome, j, log) && (outcome.Returned? || outcome.Failed?)
    case Done(outcome) => AnsweredWith(outcome, j, log)
    case _ => !Logged(log, j)
  }

  ghost predicate AnsweredWith(outcome: Outcome, j: nat, log: seq<Entry>) {
    match outcome
    case Returned(result) => exists n: nat :: TookEffect(log, n, j, result)
    case Failed => !Logged(log, j)
    case _ => true
  }

  ghost predicate WellLogged(jobs: seq<Job>, log: seq<Entry>) {
    && (forall n :: 0 <= n < |log| ==>
          log[n].job < |jobs| && log[n].request == jobs[log[n].job].request)
    && (forall m, n :: 0 <= m < n < |log| ==> log[m].job != log[n].job)
    && (forall n :: 0 <= n < |log| ==> Operate(log[n].request, Fold(log[..n])).Some?)
  }

  ghost predicate AllAnswered(jobs: seq<Job>, log: seq<Entry>) {
    forall j: nat :: j < |jobs| ==> Answered(jobs[j], j, log)
  }

  ghost predicate Linear(w: World) {
    && Content(w.disk) == Fold(w.log)
    && WellLogged(w.jobs, w.log)
    && AllAnswered(w.jobs, w.log)
  }

  // ---- Steps --------------------------------------------------------------------------

  lemma {:induction false} EffectAppends(log: seq<Entry>, entry: Entry, result: string)
    requires var update := Operate(entry.request, Fold(log)); update.Some? && update.value.result == result
    ensures Fold(log + [entry]) == AfterOperation(entry.request, Fold(log))
    ensures TookEffect(log + [entry], |log|, entry.job, result)
    ensures forall n: nat, j: nat, r :: TookEffect(log, n, j, r) ==> TookEffect(log + [entry], n, j, r)
    ensures forall j: nat :: Logged(log + [entry], j) <==> Logged(log, j) || j == entry.job
  {
    var after := log + [entry];
    assert after[..|log|] == log;
    forall n: nat, j: nat, r | TookEffect(log, n, j, r) ensures TookEffect(after, n, j, r) {
      assert after[..n] == log[..n];
    }
    forall j: nat ensures Logged(after, j) <==> Logged(log, j) || j == entry.job {
      if Logged(log, j) {
        var n :| 0 <= n < |log| && log[n].job == j;
        assert after[n].job == j;
      }
      assert after[|log|].job == entry.job;
    }
  }

  lemma {:induction false} WellLoggedAppends(jobs: seq<Job>, log: seq<Entry>, entry: Entry)
    requires WellLogged(jobs, log) && entry.job < |jobs| && entry.request == jobs[entry.job].request
    requires Operate(entry.request, Fold(log)).Some? && !Logged(log, entry.job)
    ensures WellLogged(jobs, log + [entry])
  {
    var after := log + [entry];
    forall n | 0 <= n < |after| ensures Operate(after[n].request, Fold(after[..n])).Some? {
      assert after[..n] == log[..n] || n == |log|;
      assert after[..|log|] == log;
      assert log[..|log|] == log;
    }
  }

  // The step at which a job's operation takes effect.
  predicate TakesEffect(w: World, event: Event) {
    && (event.Apply? || event.Replace?)
    && |Step(w, event).log| > |w.log|
  }

  lemma {:induction false} EffectStep(w: World, event: Event, j: nat)
    requires AllCurrent(w.jobs, w.disk) && TakesEffect(w, event) && j == event.job
    ensures j < |w.jobs|
    ensures var after := Step(w, event);
      var update := Operate(w.jobs[j].request, Content(w.disk));
      && update.Some?
      && after.log == w.log + [Entry(j, w.jobs[j].request)]
      && after.jobs == w.jobs[j := w.jobs[j].(phase := Settled(Returned(update.value.result)))]
      && Content(after.disk) == AfterOperation(w.jobs[j].request, Content(w.disk))
      && (w.jobs[j].phase.Loaded? || w.jobs[j].phase.Written?)
  {
    assert Current(w.jobs[j], w.disk);
  }

  lemma {:induction false} NoEffectStep(w: World, event: Event, j: nat)
    requires j < |w.jobs| && !event.Spawn? && !event.Open? && !event.Crash? && event.job == j
    requires !TakesEffect(w, event) && Answered(w.jobs[j], j, w.log)
    ensures var after := Step(w, event);
      && after.log == w.log && Content(after.disk) == Content(w.disk)
      && |after.jobs| == |w.jobs| && after.jobs == w.jobs[j := after.jobs[j]]
      && after.jobs[j].request == w.jobs[j].request
      && Answered(after.jobs[j], j, w.log)
  {
    hide TookEffect, Logged;
  }

  lemma {:induction false} SameLogLinear(w: World, after: World, j: nat)
    requires Linear(w) && j < |w.jobs|
    requires after.log == w.log && Content(after.disk) == Content(w.disk)
    requires |after.jobs| == |w.jobs| && after.jobs == w.jobs[j := after.jobs[j]]
    requires after.jobs[j].request == w.jobs[j].request && Answered(after.jobs[j], j, w.log)
    ensures Linear(after)
  {
    hide Answered, Fold;
  }

  lemma {:induction false} EffectLinear(w: World, event: Event, j: nat)
    requires Linear(w) && AllCurrent(w.jobs, w.disk) && TakesEffect(w, event) && j == event.job
    ensures Linear(Step(w, event))
  {
    hide Step, Fold, TookEffect, Logged, WellLogged, AllCurrent;
    EffectStep(w, event, j);
    var after := Step(w, event);
    var job := w.jobs[j];
    var result := Operate(job.request, Content(w.disk)).value.result;
    var entry := Entry(j, job.request);
    assert Answered(job, j, w.log);
    EffectAppends(w.log, entry, result);
    WellLoggedAppends(w.jobs, w.log, entry);
    SameOperations(w.jobs, after.jobs, after.log);
    forall i: nat | i < |after.jobs| ensures Answered(after.jobs[i], i, after.log) {
      if i != j {
        assert Answered(w.jobs[i], i, w.log);
      } else {
        assert TookEffect(after.log, |w.log|, j, result);
      }
    }
  }

  lemma {:induction false} SameOperations(jobs: seq<Job>, after: seq<Job>, log: seq<Entry>)
    requires WellLogged(jobs, log) && |jobs| <= |after|
    requires forall i: nat :: i < |jobs| ==> after[i].request == jobs[i].request
    ensures WellLogged(after, log)
  {
    hide Fold;
  }

  lemma {:induction false} NewJobLinear(w: World, job: Job)
    requires Linear(w) && job.phase.Waiting?
    ensures Linear(w.(jobs := w.jobs + [job]))
  {
    hide Fold, TookEffect;
    SameOperations(w.jobs, w.jobs + [job], w.log);
  }

  lemma {:induction false} CrashLinear(w: World, client: nat)
    requires Linear(w)
    ensures Linear(Crashing(w, client))
  {
    hide Fold, TookEffect, Logged, WellLogged;
    var after := Crashing(w, client);
    SameOperations(w.jobs, after.jobs, w.log);
    forall i: nat | i < |after.jobs| ensures Answered(after.jobs[i], i, after.log) {
      assert Answered(w.jobs[i], i, w.log);
    }
  }

  ghost predicate Sound(w: World) {
    Locks(w) && AllCurrent(w.jobs, w.disk) && Linear(w)
  }

  lemma {:induction false} StepKeepsSound(w: World, event: Event)
    requires Sound(w)
    ensures Sound(Step(w, event))
  {
    hide Locks, AllCurrent, Linear, JobStep, Crashing, Answered, TakesEffect;
    LocksKept(w, event);
    CurrentKept(w, event);
    match event
    case Spawn(client, request) => NewJobLinear(w, Job(client, request, Waiting, false));
    case Open(client, format) => NewJobLinear(w, Job(client, Opening(format), Waiting, false));
    case Crash(client) => CrashLinear(w, client);
    case _ =>
      if TakesEffect(w, event) {
        EffectLinear(w, event, event.job);
      } else if event.job < |w.jobs| {
        AnsweredBefore(w, event.job);
        NoEffectStep(w, event, event.job);
        SameLogLinear(w, Step(w, event), event.job);
      }
  }

  lemma {:induction false} AnsweredBefore(w: World, j: nat)
    requires Linear(w) && j < |w.jobs|
    ensures Answered(w.jobs[j], j, w.log)
  {
  }

  lemma {:induction false} StartIsSound()
    ensures Sound(START)
  {
  }

  lemma {:induction false} RunsAreSound(events: seq<Event>)
    ensures Sound(Play(events))
  {
    hide Sound, Step;
    if events == [] {
      StartIsSound();
    } else {
      RunsAreSound(events[..|events| - 1]);
      StepKeepsSound(Play(events[..|events| - 1]), events[|events| - 1]);
    }
  }

  // ---- What every run promises --------------------------------------------------------

  // The document is always the fold of the operations that took effect, each of them
  // once: no update is lost, by a crash, a cancellation or another writer.
  lemma {:induction false} DocumentIsFold(events: seq<Event>)
    ensures var w := Play(events);
      && Content(w.disk) == Fold(w.log)
      && forall m, n :: 0 <= m < n < |w.log| ==> w.log[m].job != w.log[n].job
  {
    hide Fold, Content;
    RunsAreSound(events);
  }

  // A call that returned took effect at some point of the order, and answered what its
  // operation answers there; a call that raised took no effect.
  lemma {:induction false} ResultsAreLinear(events: seq<Event>, j: nat)
    requires j < |Play(events).jobs| && Play(events).jobs[j].phase.Done?
    ensures var w := Play(events);
      match w.jobs[j].phase.outcome
      case Returned(result) => exists n: nat :: TookEffect(w.log, n, j, result)
      case Failed => !Logged(w.log, j)
      case _ => true
  {
    hide TookEffect, Logged;
    RunsAreSound(events);
    AnsweredBefore(Play(events), j);
  }

  lemma {:induction false} StepExtends(w: World, event: Event)
    ensures w.log <= Step(w, event).log && |w.jobs| <= |Step(w, event).jobs|
  {
  }

  lemma {:induction false} RunExtends(events: seq<Event>, more: seq<Event>)
    ensures Play(events).log <= Play(events + more).log && |Play(events).jobs| <= |Play(events + more).jobs|
  {
    hide Step;
    if more == [] {
      assert events + more == events;
    } else {
      var init := more[..|more| - 1];
      RunExtends(events, init);
      assert (events + more)[..|events + more| - 1] == events + init;
      StepExtends(Play(events + init), more[|more| - 1]);
    }
  }

  // The order respects time: what took effect before a call was made precedes it.
  lemma {:induction false} OrderRespectsTime(events: seq<Event>, more: seq<Event>, m: nat, n: nat)
    requires m < |Play(events).log| && n < |Play(events + more).log|
    requires Play(events + more).log[n].job >= |Play(events).jobs|
    ensures m < n && Play(events + more).log[m] == Play(events).log[m]
  {
    hide Fold;
    RunExtends(events, more);
    RunsAreSound(events);
  }

  // A reader, which takes no lock, sees a whole document: the fold of a prefix of the
  // order, holding every operation that took effect before it read.
  lemma {:induction false} ReadersSeePrefixes(events: seq<Event>, more: seq<Event>)
    ensures var log := Play(events + more).log;
      var n := |Play(events).log|;
      n <= |log| && Content(Play(events).disk) == Fold(log[..n])
  {
    hide Fold, Content;
    RunExtends(events, more);
    RunsAreSound(events);
    assert Play(events + more).log[..|Play(events).log|] == Play(events).log;
  }

  // While a worker runs, cancelled or not, its task holds both locks, and no other worker
  // runs.
  lemma {:induction false} WorkersAreAlone(events: seq<Event>, j: nat)
    requires j < |Play(events).jobs| && Works(Play(events).jobs[j].phase)
    ensures var w := Play(events);
      && w.file == Some(w.jobs[j].client)
      && w.jobs[j].client in w.tasks && w.tasks[w.jobs[j].client] == j
      && forall i: nat :: i < |w.jobs| && i != j ==> !Works(w.jobs[i].phase)
  {
    hide AllCurrent, Linear;
    RunsAreSound(events);
    var w := Play(events);
    forall i: nat | i < |w.jobs| && i != j ensures !Works(w.jobs[i].phase) {
      if Works(w.jobs[i].phase) { OneWorker(w, i, j); }
    }
  }

  // A store being opened deletes only what a crash left behind: no job is writing a
  // temporary then, and it reads the document only once none is left.
  lemma {:induction false} SweepsOnlyLeftovers(events: seq<Event>, j: nat)
    requires j < |Play(events).jobs| && Play(events).jobs[j].request.Opening? && Play(events).jobs[j].phase.Exclusive?
    ensures var w := Play(events);
      && (forall i: nat :: i < |w.jobs| ==> !w.jobs[i].phase.Creating? && !w.jobs[i].phase.Written?)
      && (Step(w, Load(j)).jobs[j].phase.Loaded? <==> w.disk.temps == map[])
  {
    WorkersAreAlone(events, j);
  }
}
