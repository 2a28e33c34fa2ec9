// Where runs of the file store can get: what a crash leaves, and that a call nothing
// stands in the way of gets to its end.
module FileStoreProgress {
  import opened Wrappers
  import opened FileStore
  import opened FileStoreRuns
  import opened FileStoreEndings

  // ---- What a crash leaves ------------------------------------------------------------

  predicate Writing(job: Job, temp: nat) {
    (job.phase.Creating? || job.phase.Written?) && job.phase.temp == temp
  }

  ghost predicate InUse(w: World, temp: nat) {
    exists j: nat :: j < |w.jobs| && Writing(w.jobs[j], temp)
  }

  // The k-th event takes the process away that was writing the temporary.
  ghost predicate StrandsAt(events: seq<Event>, k: nat, temp: nat)
    requires k < |events|
  {
    var w := Play(events[..k]);
    events[k].Crash? && exists j: nat :: j < |w.jobs| && Writing(w.jobs[j], temp) && w.jobs[j].client == events[k].client
  }

  ghost predicate Stranded(events: seq<Event>, temp: nat) {
    exists k: nat :: k < |events| && StrandsAt(events, k, temp)
  }

  lemma {:induction false} StrandedMore(events: seq<Event>, temp: nat)
    requires events != []
    ensures Stranded(events[..|events| - 1], temp) || StrandsAt(events, |events| - 1, temp) ==> Stranded(events, temp)
  {
    hide Play;
    var init := events[..|events| - 1];
    if Stranded(init, temp) {
      var k: nat :| k < |init| && StrandsAt(init, k, temp);
      assert init[..k] == events[..k];
      assert StrandsAt(events, k, temp);
    }
  }

  lemma {:induction false} StillWriting(w: World, event: Event, j: nat, temp: nat)
    requires j < |w.jobs| && Writing(w.jobs[j], temp) && temp in Step(w, event).disk.temps
    ensures j < |Step(w, event).jobs|
    ensures Writing(Step(w, event).jobs[j], temp) || event == Crash(w.jobs[j].client)
  {
  }

  lemma {:induction false} NewTemporary(w: World, event: Event, temp: nat)
    requires temp !in w.disk.temps && temp in Step(w, event).disk.temps
    ensures InUse(Step(w, event), temp)
  {
    assert event.CreateTemp? && event.job < |w.jobs|;
    assert Writing(Step(w, event).jobs[event.job], temp);
  }

  // In every run, a temporary is one that a worker is writing, or one whose writer's
  // process crashed: nothing else leaves any.
  lemma {:induction false} TemporariesHaveWriters(events: seq<Event>, temp: nat)
    requires temp in Play(events).disk.temps
    ensures InUse(Play(events), temp) || Stranded(events, temp)
  {
    hide Step, Stranded;
    var init, event := events[..|events| - 1], events[|events| - 1];
    var w := Play(init);
    StrandedMore(events, temp);
    if temp !in w.disk.temps {
      NewTemporary(w, event, temp);
    } else {
      TemporariesHaveWriters(init, temp);
      if InUse(w, temp) {
        var j: nat :| j < |w.jobs| && Writing(w.jobs[j], temp);
        StillWriting(w, event, j, temp);
      }
    }
  }

  // All its calls have ended, and it is not at work.
  ghost predicate Gone(w: World, client: nat, calls: nat) {
    && client !in w.ready
    && (exists j: nat :: j < |w.jobs| && w.jobs[j].client == client)
    && (forall j: nat :: j < |w.jobs| && w.jobs[j].client == client ==> j < calls && w.jobs[j].phase.Done?)
  }

  lemma {:induction false} JobOfAnother(w: World, event: Event, client: nat, calls: nat)
    requires Gone(w, client, calls) && !event.Spawn? && !event.Open? && !event.Crash?
    ensures Gone(Step(w, event), client, calls)
  {
    if event.job < |w.jobs| {
      StaysOwn(w, event, event.job);
      hide JobStep;
      var after := Step(w, event);
      var j: nat :| j < |w.jobs| && w.jobs[j].client == client;
      assert after.jobs[j].client == client;
    }
  }

  lemma {:induction false} StaysOwn(w: World, event: Event, j: nat)
    requires j < |w.jobs| && !event.Spawn? && !event.Open? && !event.Crash? && event.job == j
    ensures var after := Step(w, event);
      && |after.jobs| == |w.jobs| && after.jobs == w.jobs[j := after.jobs[j]]
      && after.jobs[j].client == w.jobs[j].client
      && (w.jobs[j].phase.Done? ==> after == w)
      && after.ready <= w.ready + {w.jobs[j].client}
      && (forall c :: c != w.jobs[j].client ==> (c in after.ready <==> c in w.ready))
  {
  }

  lemma {:induction false} StaysGone(w: World, event: Event, client: nat, calls: nat)
    requires Gone(w, client, calls)
    ensures Gone(Step(w, event), client, calls)
  {
    hide JobStep;
    var j: nat :| j < |w.jobs| && w.jobs[j].client == client;
    match event
    case Crash(c) => assert Crashing(w, c).jobs[j].client == client;
    case Spawn(_, _) => assert Step(w, event).jobs[j] == w.jobs[j];
    case Open(_, _) => assert Step(w, event).jobs[j] == w.jobs[j];
    case _ => JobOfAnother(w, event, client, calls);
  }

  // A client whose process crashed makes no further call: another one has to be opened.
  lemma {:induction false} CrashedClientsAreGone(events: seq<Event>, more: seq<Event>, client: nat)
    requires exists j: nat :: j < |Play(events).jobs| && Play(events).jobs[j].client == client
    ensures Gone(Play(events + [Crash(client)] + more), client, |Play(events).jobs|)
  {
    hide Step, Gone;
    var crashed := events + [Crash(client)];
    if more == [] {
      PlayOne(events, Crash(client));
      assert crashed + more == crashed;
      JustGone(Play(events), client);
    } else {
      var init := more[..|more| - 1];
      CrashedClientsAreGone(events, init, client);
      assert crashed + more == (crashed + init) + [more[|more| - 1]];
      PlayOne(crashed + init, more[|more| - 1]);
      StaysGone(Play(crashed + init), more[|more| - 1], client, |Play(events).jobs|);
    }
  }

  lemma {:induction false} JustGone(w: World, client: nat)
    requires exists j: nat :: j < |w.jobs| && w.jobs[j].client == client
    ensures Gone(Step(w, Crash(client)), client, |w.jobs|)
  {
    var j: nat :| j < |w.jobs| && w.jobs[j].client == client;
    assert Crashing(w, client).jobs[j].client == client;
  }

  // ---- A call gets there --------------------------------------------------------------

  lemma {:induction false} PlayOne(events: seq<Event>, event: Event)
    ensures Play(events + [event]) == Step(Play(events), event)
  {
    hide Step;
    assert (events + [event])[..|events|] == events;
  }

  lemma {:induction false} PlayTwo(events: seq<Event>, a: Event, b: Event)
    ensures Play(events + [a, b]) == Step(Step(Play(events), a), b)
  {
    hide Step;
    assert (events + [a, b])[..|events| + 1] == events + [a];
    assert (events + [a])[..|events|] == events;
  }

  lemma {:induction false} PlayThree(events: seq<Event>, a: Event, b: Event, c: Event)
    ensures Play(events + [a, b, c]) == Step(Step(Step(Play(events), a), b), c)
  {
    hide Step;
    PlayTwo(events, a, b);
    assert (events + [a, b, c])[..|events| + 2] == events + [a, b];
  }

  // Nothing is cancelled, crashes or fails.
  ghost predicate Undisturbed(events: seq<Event>) {
    forall e :: e in events ==> !e.Cancel? && !e.Crash? && !e.Fail?
  }

  // Both locks are taken.
  lemma {:induction false} Enters(w: World, j: nat)
    requires j < |w.jobs| && w.jobs[j].phase.Waiting? && w.jobs[j].client !in w.tasks && w.file.None?
    ensures var job := w.jobs[j];
      Step(Step(w, TakeTaskLock(j)), TakeFileLock(j)) == w.(
        jobs := w.jobs[j := job.(phase := Exclusive)],
        tasks := w.tasks[job.client := j],
        file := Some(job.client),
        holds := w.holds + 1)
  {
  }

  // What is left over is swept away by an opening, one after another.
  lemma {:induction false} SweepsAll(events: seq<Event>, j: nat) returns (more: seq<Event>)
    requires var w := Play(events); j < |w.jobs| && w.jobs[j].phase.Exclusive? && w.jobs[j].request.Opening?
    ensures Undisturbed(more)
    ensures Play(events + more) == Play(events).(disk := Play(events).disk.(temps := map[]))
    decreases |Play(events).disk.temps|
  {
    hide Step, Play;
    var w := Play(events);
    if w.disk.temps == map[] {
      more := [];
      assert events + more == events;
    } else {
      var leftover :| leftover in w.disk.temps;
      PlayOne(events, Sweep(j, leftover));
      SweepsOne(w, j, leftover);
      var swept := events + [Sweep(j, leftover)];
      assert Play(swept).disk.temps.Keys == w.disk.temps.Keys - {leftover};
      assert |Play(swept).disk.temps.Keys| < |w.disk.temps.Keys|;
      var rest := SweepsAll(swept, j);
      more := [Sweep(j, leftover)] + rest;
      assert events + more == swept + rest;
    }
  }

  lemma {:induction false} SweepsOne(w: World, j: nat, leftover: nat)
    requires j < |w.jobs| && w.jobs[j].phase.Exclusive? && w.jobs[j].request.Opening?
    ensures Step(w, Sweep(j, leftover)) == w.(disk := w.disk.(temps := w.disk.temps - {leftover}))
  {
  }

  // The document is read, by an opening only once nothing is left over.
  lemma {:induction false} Reads(w: World, j: nat)
    requires j < |w.jobs| && w.jobs[j].phase.Exclusive?
    requires w.jobs[j].request.Opening? ==> w.disk.temps == map[]
    ensures Step(w, Load(j)) == w.(jobs := w.jobs[j := w.jobs[j].(phase := Loaded(Content(w.disk)))])
  {
  }

  // From waiting to having read.
  lemma {:induction false} GetsToRead(events: seq<Event>, j: nat) returns (more: seq<Event>)
    requires var w := Play(events);
      j < |w.jobs| && w.jobs[j].phase.Waiting? && w.jobs[j].client !in w.tasks && w.file.None?
    ensures Undisturbed(more)
    ensures var w, after := Play(events), Play(events + more);
      && after.disk.main == w.disk.main && after.disk.temps.Keys <= w.disk.temps.Keys
      && after == w.(
           jobs := w.jobs[j := w.jobs[j].(phase := Loaded(Content(w.disk)))],
           tasks := w.tasks[w.jobs[j].client := j],
           file := Some(w.jobs[j].client),
           holds := w.holds + 1,
           disk := after.disk)
  {
    hide Step, Play;
    var w := Play(events);
    Enters(w, j);
    PlayTwo(events, TakeTaskLock(j), TakeFileLock(j));
    var entered := events + [TakeTaskLock(j), TakeFileLock(j)];
    var sweeps: seq<Event> := [];
    if w.jobs[j].request.Opening? {
      sweeps := SweepsAll(entered, j);
    } else {
      assert entered + sweeps == entered;
    }
    Reads(Play(entered + sweeps), j);
    PlayOne(entered + sweeps, Load(j));
    more := [TakeTaskLock(j), TakeFileLock(j)] + sweeps + [Load(j)];
    assert events + more == entered + sweeps + [Load(j)];
  }

  // The operation changed the document, and the new one is written beside it.
  lemma {:induction false} Writes(w: World, j: nat, update: Update, temp: nat)
    requires j < |w.jobs| && w.jobs[j].phase.Loaded? && temp !in w.disk.temps
    requires Operate(w.jobs[j].request, w.jobs[j].phase.document) == Some(update) && update.document.Some?
    ensures Step(Step(Step(w, Apply(j)), CreateTemp(j, temp)), WriteTemp(j)) == w.(
      jobs := w.jobs[j := w.jobs[j].(phase := Written(update, temp))],
      disk := w.disk.(temps := w.disk.temps[temp := update.document]))
  {
    hide Operate;
    var a := Step(w, Apply(j));
    assert a == w.(jobs := w.jobs[j := w.jobs[j].(phase := Changing(update))]);
    var b := Step(a, CreateTemp(j, temp));
    assert b.disk == w.disk.(temps := w.disk.temps[temp := None]);
    var c := Step(b, WriteTemp(j));
    assert c.jobs == w.jobs[j := w.jobs[j].(phase := Written(update, temp))];
    assert c.disk.temps == w.disk.temps[temp := update.document];
  }

  lemma {:induction false} Replaces(w: World, j: nat, update: Update, temp: nat)
    requires j < |w.jobs| && w.jobs[j].phase == Written(update, temp)
    requires temp in w.disk.temps && w.disk.temps[temp] == update.document
    ensures Step(w, Replace(j)) == w.(
      jobs := w.jobs[j := w.jobs[j].(phase := Settled(Returned(update.result)))],
      disk := Disk(update.document, w.disk.temps - {temp}),
      log := w.log + [Entry(j, w.jobs[j].request)])
  {
  }

  lemma {:induction false} Answers(w: World, j: nat, update: Update)
    requires j < |w.jobs| && w.jobs[j].phase.Loaded?
    requires Operate(w.jobs[j].request, w.jobs[j].phase.document) == Some(update) && update.document.None?
    ensures Step(w, Apply(j)) == w.(
      jobs := w.jobs[j := w.jobs[j].(phase := Settled(Returned(update.result)))],
      log := w.log + [Entry(j, w.jobs[j].request)])
  {
  }

  // Both locks are released, and the caller gets its answer.
  lemma {:induction false} Leaves(w: World, j: nat)
    requires j < |w.jobs| && w.jobs[j].phase.Settled? && w.jobs[j].phase.outcome.Returned? && !w.jobs[j].cancelled
    ensures var job := w.jobs[j];
      var after := Step(Step(w, ReleaseFile(j)), ReleaseTask(j));
      && after.jobs == w.jobs[j := job.(phase := Done(job.phase.outcome))]
      && after.disk == w.disk && after.log == w.log
      && after.tasks == w.tasks - {job.client}
      && (w.holds == 1 ==> after.file == None && after.holds == 0)
      && after.ready == w.ready + if job.request.Opening? then {job.client} else {}
  {
  }

  // The operation takes effect, and its worker settles.
  lemma {:induction false} TakesItsEffect(events: seq<Event>, j: nat, update: Update, temp: nat)
    returns (more: seq<Event>)
    requires var w := Play(events);
      && j < |w.jobs| && w.jobs[j].phase == Loaded(Content(w.disk)) && temp !in w.disk.temps
      && Operate(w.jobs[j].request, Content(w.disk)) == Some(update)
    ensures Undisturbed(more)
    ensures var w, after := Play(events), Play(events + more);
      && after.jobs == w.jobs[j := w.jobs[j].(phase := Settled(Returned(update.result)))]
      && Content(after.disk) == AfterOperation(w.jobs[j].request, Content(w.disk))
      && after == w.(jobs := after.jobs, disk := after.disk, log := w.log + [Entry(j, w.jobs[j].request)])
  {
    hide Step, Operate, Play;
    var w := Play(events);
    if update.document.None? {
      Answers(w, j, update);
      more := [Apply(j)];
      PlayOne(events, Apply(j));
    } else {
      Writes(w, j, update, temp);
      PlayThree(events, Apply(j), CreateTemp(j, temp), WriteTemp(j));
      var written := events + [Apply(j), CreateTemp(j, temp), WriteTemp(j)];
      Replaces(Play(written), j, update, temp);
      PlayOne(written, Replace(j));
      more := [Apply(j), CreateTemp(j, temp), WriteTemp(j), Replace(j)];
      assert events + more == written + [Replace(j)];
    }
  }

  // A call waiting while nobody holds a lock it needs, and undisturbed from there, can end
  // with the answer of its operation on the document, having taken effect on it.
  lemma {:induction false} CallCompletes(events: seq<Event>, j: nat, update: Update, temp: nat)
    returns (more: seq<Event>)
    requires var w := Play(events);
      && j < |w.jobs| && w.jobs[j].phase.Waiting? && w.jobs[j].client !in w.tasks && w.file.None?
      && temp !in w.disk.temps && Operate(w.jobs[j].request, Content(w.disk)) == Some(update)
    ensures Undisturbed(more)
    ensures var w, after := Play(events), Play(events + more);
      && |after.jobs| == |w.jobs| && after.jobs == w.jobs[j := after.jobs[j]]
      && after.jobs[j].phase == Done(Returned(update.result))
      && Content(after.disk) == AfterOperation(w.jobs[j].request, Content(w.disk))
      && after.log == w.log + [Entry(j, w.jobs[j].request)]
      && after.file.None? && after.tasks == w.tasks
      && after.ready == w.ready + if w.jobs[j].request.Opening? then {w.jobs[j].client} else {}
  {
    hide Step, Operate, Play, AfterOperation;
    var w := Play(events);
    RunsAreSound(events);
    RunsTell(events, j);
    var read := GetsToRead(events, j);
    assert Content(Play(events + read).disk) == Content(w.disk);
    var worked := TakesItsEffect(events + read, j, update, temp);
    var settled := Play(events + read + worked);
    Leaves(settled, j);
    PlayTwo(events + read + worked, ReleaseFile(j), ReleaseTask(j));
    more := read + worked + [ReleaseFile(j), ReleaseTask(j)];
    assert events + more == events + read + worked + [ReleaseFile(j), ReleaseTask(j)];
    assert w.tasks[w.jobs[j].client := j] - {w.jobs[j].client} == w.tasks;
  }
}
