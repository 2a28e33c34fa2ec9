// What the file store's document holds over whole runs: sessions survive openings, claims
// stand, and the executions are those of the committed batches.
module FileStoreContents {
  import opened Wrappers
  import opened Identity
  import opened PathCodec
  import opened Staging
  import StagingRuns
  import Replay
  import opened FileDocument
  import opened FileStore
  import opened FileStoreRuns

  // ---- Openings -----------------------------------------------------------------------

  predicate OpenedBy(job: Job) {
    && job.request.Opening?
    && (job.phase.Settled? || job.phase.Releasing? || job.phase.Done?)
    && job.phase.outcome.Returned?
  }

  // Until a document is stamped there is none, and no client has started to work.
  ghost predicate Stamped(w: World) {
    Content(w.disk).format.None? ==>
      && Content(w.disk) == NO_DOCUMENT
      && w.ready == {}
      && forall j: nat :: j < |w.jobs| ==> w.jobs[j].request.Opening? && !OpenedBy(w.jobs[j])
  }

  lemma {:induction false} OperationsKeepFormat(request: Request, document: Document)
    requires document.format.Some? || request.Opening?
    ensures Operate(request, document).Some? ==> AfterOperation(request, document).format.Some?
    ensures document.format.Some? ==> AfterOperation(request, document).format == document.format
  {
    if request.Committing? { MutationsKeepFormat(document, request.mutations); }
  }

  lemma {:induction false} MutationsKeepFormat(document: Document, mutations: seq<(Key, Mutation)>)
    ensures WithMutations(document, mutations).format == document.format
  {
    if mutations != [] { MutationsKeepFormat(document, mutations[..|mutations| - 1]); }
  }

  lemma {:induction false} QuietStepStamped(w: World, event: Event, j: nat)
    requires Stamped(w) && j < |w.jobs| && !event.Spawn? && !event.Open? && !event.Crash? && event.job == j
    requires !TakesEffect(w, event) && Answered(w.jobs[j], j, w.log)
    ensures Stamped(Step(w, event))
  {
    hide TookEffect, Logged;
    NoEffectStep(w, event, j);
    var after := Step(w, event);
    if Content(w.disk).format.None? {
      assert !OpenedBy(w.jobs[j]);
      OpenedLater(w, event, j);
    }
  }

  // Only a step that takes effect opens a store.
  lemma {:induction false} OpenedLater(w: World, event: Event, j: nat)
    requires j < |w.jobs| && !event.Spawn? && !event.Open? && !event.Crash? && event.job == j
    requires !TakesEffect(w, event) && w.jobs[j].request.Opening? && !OpenedBy(w.jobs[j])
    ensures !OpenedBy(Step(w, event).jobs[j]) && Step(w, event).ready == w.ready
  {
  }

  lemma {:induction false} EffectStamped(w: World, event: Event, j: nat)
    requires Stamped(w) && AllCurrent(w.jobs, w.disk) && TakesEffect(w, event) && j == event.job
    ensures Stamped(Step(w, event))
  {
    hide Step, AllCurrent;
    EffectStep(w, event, j);
    OperationsKeepFormat(w.jobs[j].request, Content(w.disk));
  }

  lemma {:induction false} NewJobStamped(w: World, client: nat, request: Request)
    requires Stamped(w) && (client in w.ready || request.Opening?)
    ensures Stamped(WithJob(w, client, request))
  {
  }

  lemma {:induction false} CrashStamped(w: World, client: nat)
    requires Stamped(w)
    ensures Stamped(Crashing(w, client))
  {
  }

  lemma {:induction false} StepStamped(w: World, event: Event)
    requires Sound(w) && Stamped(w)
    ensures Stamped(Step(w, event))
  {
    hide JobStep, Sound, Answered, TakesEffect, Stamped, Crashing;
    match event
    case Spawn(client, request) =>
      if client in w.ready { NewJobStamped(w, client, request); }
    case Open(client, format) => NewJobStamped(w, client, Opening(format));
    case Crash(client) => CrashStamped(w, client);
    case _ =>
      if TakesEffect(w, event) {
        SoundParts(w);
        EffectStamped(w, event, event.job);
      } else if event.job < |w.jobs| {
        SoundParts(w);
        AnsweredBefore(w, event.job);
        QuietStepStamped(w, event, event.job);
      }
  }

  lemma {:induction false} SoundParts(w: World)
    requires Sound(w)
    ensures AllCurrent(w.jobs, w.disk) && Linear(w)
  {
  }

  lemma {:induction false} StartIsStamped()
    ensures Stamped(START)
  {
  }

  lemma {:induction false} RunsAreStamped(events: seq<Event>)
    ensures Sound(Play(events)) && Stamped(Play(events))
  {
    hide Sound, Stamped, Step;
    if events == [] {
      StartIsSound();
      StartIsStamped();
    } else {
      RunsAreStamped(events[..|events| - 1]);
      StepKeepsSound(Play(events[..|events| - 1]), events[|events| - 1]);
      StepStamped(Play(events[..|events| - 1]), events[|events| - 1]);
    }
  }

  // A store opens on a new document, which it stamps, or on one of its own format.
  lemma {:induction false} OpeningChecks(format: nat, document: Document)
    ensures Operate(Opening(format), document).None? <==>
      document.format.Some? && document.format.value != format
    ensures Operate(Opening(format), document).Some? ==>
      AfterOperation(Opening(format), document).format == Some(format)
    ensures document.format.Some? ==> AfterOperation(Opening(format), document) == document
  {
  }

  lemma {:induction false} FormatStays(log: seq<Entry>, m: nat)
    requires m <= |log| && Fold(log[..m]).format.Some?
    ensures Fold(log).format == Fold(log[..m]).format
  {
    hide AfterOperation;
    if m < |log| {
      var init := log[..|log| - 1];
      assert init[..m] == log[..m];
      FormatStays(init, m);
      OperationsKeepFormat(log[|log| - 1].request, Fold(init));
    } else {
      assert log[..m] == log;
    }
  }

  // In every run, a store that was opened has, and keeps, the format it was opened at.
  lemma {:induction false} OpenedAtFormat(events: seq<Event>, j: nat)
    requires j < |Play(events).jobs| && OpenedBy(Play(events).jobs[j])
    ensures Content(Play(events).disk).format == Some(Play(events).jobs[j].request.format)
  {
    hide Fold, Content, AfterOperation, Operate, Locks, AllCurrent, Play;
    RunsAreSound(events);
    var w := Play(events);
    AnsweredBefore(w, j);
    var n: nat :| TookEffect(w.log, n, j, w.jobs[j].phase.outcome.result);
    assert w.log[n].request == w.jobs[j].request;
    OpeningChecks(w.jobs[j].request.format, Fold(w.log[..n]));
    FoldMore(w.log, n);
    FormatStays(w.log, n + 1);
  }

  lemma {:induction false} FoldMore(log: seq<Entry>, n: nat)
    requires n < |log|
    ensures Fold(log[..n + 1]) == AfterOperation(log[n].request, Fold(log[..n]))
  {
    assert log[..n + 1][..n] == log[..n];
  }

  // The n-th operation of the order leaves every session alone if it opens a store.
  ghost predicate LeavesSessions(log: seq<Entry>, n: nat)
    requires n < |log|
  {
    log[n].request.Opening? ==>
      AfterOperation(log[n].request, Fold(log[..n])).sessions == Fold(log[..n]).sessions
  }

  lemma {:induction false} OneMoreEntry(w: World, event: Event)
    requires Sound(w) && Stamped(w)
    ensures Step(w, event).log == w.log ||
      (|Step(w, event).log| == |w.log| + 1 && Step(w, event).log[..|w.log|] == w.log
       && LeavesSessions(Step(w, event).log, |w.log|))
  {
    hide Sound, JobStep;
    SoundParts(w);
    StepExtends(w, event);
    if TakesEffect(w, event) {
      EffectStep(w, event, event.job);
      assert Step(w, event).log[..|w.log|] == w.log;
    } else {
      NoEffectNoEntry(w, event);
    }
  }

  lemma {:induction false} NoEffectNoEntry(w: World, event: Event)
    requires !TakesEffect(w, event)
    ensures Step(w, event).log == w.log
  {
  }

  // Opening a store, at any point of any run, erases no session.
  lemma {:induction false} OpeningsLeaveSessions(events: seq<Event>, n: nat)
    requires n < |Play(events).log|
    ensures LeavesSessions(Play(events).log, n)
  {
    hide Step, LeavesSessions, Stamped, Sound;
    if events != [] {
      var init, last := events[..|events| - 1], events[|events| - 1];
      RunsAreStamped(init);
      OneMoreEntry(Play(init), last);
      if n < |Play(init).log| {
        OpeningsLeaveSessions(init, n);
        SamePrefix(Play(init).log, Play(events).log, n);
      }
    }
  }

  lemma {:induction false} SamePrefix(log: seq<Entry>, longer: seq<Entry>, n: nat)
    requires n < |log| && LeavesSessions(log, n)
    requires longer == log || (|longer| == |log| + 1 && longer[..|log|] == log)
    ensures LeavesSessions(longer, n)
  {
    assert longer[..n] == log[..n];
    assert longer[n] == longer[..|log|][n];
  }

  // ---- Claims -------------------------------------------------------------------------

  ghost predicate Records(document: Document, session: string, domain: string, version: string) {
    domain in SessionOf(document, session).versions && SessionOf(document, session).versions[domain] == version
  }

  // The operation replaces the session, and with it what it recorded.
  predicate Migrates(entry: Entry, session: string) {
    entry.request.Migrating? && entry.request.session == session
  }

  lemma {:induction false} MutationsKeepVersions(document: Document, mutations: seq<(Key, Mutation)>, session: string)
    ensures SessionOf(WithMutations(document, mutations), session).versions == SessionOf(document, session).versions
  {
    hide PathOf;
    if mutations != [] { MutationsKeepVersions(document, mutations[..|mutations| - 1], session); }
  }

  // Only a migration of the session takes a version back.
  lemma {:induction false} OperationsKeepVersions(
    log: seq<Entry>, n: nat, session: string, domain: string, version: string)
    requires n < |log| && LeavesSessions(log, n) && !Migrates(log[n], session)
    requires Records(Fold(log[..n]), session, domain, version)
    ensures Records(Fold(log[..n + 1]), session, domain, version)
  {
    assert log[..n + 1][..n] == log[..n];
    if log[n].request.Committing? {
      MutationsKeepVersions(Fold(log[..n]), log[n].request.mutations, session);
    }
  }

  lemma {:induction false} StillRecorded(
    log: seq<Entry>, m: nat, n: nat, session: string, domain: string, version: string)
    requires m <= n <= |log| && forall k: nat :: k < |log| ==> LeavesSessions(log, k)
    requires forall k :: m <= k < n ==> !Migrates(log[k], session)
    requires Records(Fold(log[..m]), session, domain, version)
    ensures Records(Fold(log[..n]), session, domain, version)
  {
    hide Records, LeavesSessions, Migrates, Fold;
    if m < n {
      StillRecorded(log, m, n - 1, session, domain, version);
      OperationsKeepVersions(log, n - 1, session, domain, version);
    }
  }

  lemma {:induction false} ClaimRecords(document: Document, session: string, domain: string, version: string)
    ensures var claim := Claiming(session, domain, version);
      && Operate(claim, document).Some?
      && Records(AfterOperation(claim, document), session, domain, Operate(claim, document).value.result)
      && forall recorded :: Records(document, session, domain, recorded) ==>
           Operate(claim, document).value.result == recorded
  {
  }

  // In every run, claims of one domain of a session are answered the same version,
  // whichever took effect first, unless the session was migrated in between.
  lemma {:induction false} ClaimsAgree(
    events: seq<Event>, m: nat, n: nat, session: string, domain: string, i: nat, k: nat,
    first: string, second: string, told: string, toldLater: string)
    requires m < n && TookEffect(Play(events).log, m, i, told) && TookEffect(Play(events).log, n, k, toldLater)
    requires Play(events).log[m].request == Claiming(session, domain, first)
    requires Play(events).log[n].request == Claiming(session, domain, second)
    requires forall l :: m < l < n ==> !Migrates(Play(events).log[l], session)
    ensures toldLater == told
  {
    hide Records, LeavesSessions, Migrates, Play;
    var log := Play(events).log;
    forall l: nat | l < |log| ensures LeavesSessions(log, l) { OpeningsLeaveSessions(events, l); }
    ClaimRecords(Fold(log[..m]), session, domain, first);
    assert log[..m + 1][..m] == log[..m];
    StillRecorded(log, m + 1, n, session, domain, told);
    ClaimRecords(Fold(log[..n]), session, domain, second);
  }

  predicate Claims(entry: Entry, session: string, domain: string) {
    entry.request.Claiming? && entry.request.session == session && entry.request.domain == domain
  }

  // The operations before the n-th neither claim the domain for the session nor migrate it.
  ghost predicate Untouched(log: seq<Entry>, n: nat, session: string, domain: string)
    requires n <= |log|
  {
    forall k: nat :: k < n ==> !Claims(log[k], session, domain) && !Migrates(log[k], session)
  }

  // An operation that is neither records no version for the domain.
  lemma {:induction false} OthersRecordNothing(entry: Entry, document: Document, session: string, domain: string)
    requires domain !in SessionOf(document, session).versions
    requires !Claims(entry, session, domain) && !Migrates(entry, session)
    requires entry.request.Opening? ==> AfterOperation(entry.request, document).sessions == document.sessions
    ensures domain !in SessionOf(AfterOperation(entry.request, document), session).versions
  {
    if entry.request.Committing? { MutationsKeepVersions(document, entry.request.mutations, session); }
  }

  lemma {:induction false} NothingRecorded(log: seq<Entry>, n: nat, session: string, domain: string)
    requires n <= |log| && Untouched(log, n, session, domain)
    requires forall k: nat :: k < |log| ==> LeavesSessions(log, k)
    ensures domain !in SessionOf(Fold(log[..n]), session).versions
  {
    hide Claims, Migrates, AfterOperation;
    if n > 0 {
      NothingRecorded(log, n - 1, session, domain);
      assert LeavesSessions(log, n - 1);
      assert log[..n][..n - 1] == log[..n - 1];
      OthersRecordNothing(log[n - 1], Fold(log[..n - 1]), session, domain);
    }
  }

  // In every run, the first claim of a domain of a session, with no migration of it before,
  // is answered the version it asks for.
  lemma {:induction false} FirstClaimAnswered(
    events: seq<Event>, n: nat, session: string, domain: string, i: nat, version: string, told: string)
    requires TookEffect(Play(events).log, n, i, told)
    requires Play(events).log[n].request == Claiming(session, domain, version)
    requires Untouched(Play(events).log, n, session, domain)
    ensures told == version
  {
    hide LeavesSessions, Play, Fold, Untouched;
    var log := Play(events).log;
    forall l: nat | l < |log| ensures LeavesSessions(log, l) { OpeningsLeaveSessions(events, l); }
    NothingRecorded(log, n, session, domain);
  }

  // And so is every later one, answered that first version, until the session is migrated.
  lemma {:induction false} FirstClaimStands(
    events: seq<Event>, m: nat, n: nat, session: string, domain: string, i: nat, k: nat,
    first: string, second: string, told: string, toldLater: string)
    requires m < n && TookEffect(Play(events).log, m, i, told) && TookEffect(Play(events).log, n, k, toldLater)
    requires Play(events).log[m].request == Claiming(session, domain, first)
    requires Play(events).log[n].request == Claiming(session, domain, second)
    requires Untouched(Play(events).log, m, session, domain)
    requires forall l :: m < l < n ==> !Migrates(Play(events).log[l], session)
    ensures toldLater == first
  {
    hide Play, Fold, Untouched, TookEffect, Migrates;
    FirstClaimAnswered(events, m, session, domain, i, first, told);
    ClaimsAgree(events, m, n, session, domain, i, k, first, second, told, toldLater);
  }

  // A claim is the claim of the replay machine, on the session's part: it records the same
  // version there, answers it, and leaves the other sessions.
  lemma {:induction false} ClaimIsReplayed(
    document: Document, session: string, domain: string, version: string, records: map<ExecutionId, Execution>)
    ensures var claim := Claiming(session, domain, version);
      var claimed := Replay.Claim(Replay.Disk(records, SessionOf(document, session).versions), domain, version);
      var after := AfterOperation(claim, document);
      && SessionOf(after, session).versions == claimed.versions
      && Operate(claim, document).value.result == claimed.versions[domain]
      && (forall s :: s != session ==> SessionOf(after, s) == SessionOf(document, s))
  {
  }

  // A migration puts what the migrator makes of its session in the session's place, and
  // leaves every other one; if the migrator refuses, so does the operation.
  lemma {:induction false} MigratingReplaces(
    document: Document, session: string, migrator: SessionPart -> Option<SessionPart>)
    ensures var request := Migrating(session, migrator);
      var migrated := migrator(SessionOf(document, session));
      && (Operate(request, document).None? <==> migrated.None?)
      && AfterOperation(request, document).format == document.format
      && (forall s :: SessionOf(AfterOperation(request, document), s) ==
            if s == session && migrated.Some? then migrated.value else SessionOf(document, s))
  {
  }

  // ---- Executions ---------------------------------------------------------------------

  predicate OwnSnapshot(key: Key, mutation: Mutation) {
    && ValidId(key.id)
    && (mutation.SaveExecution? ==> mutation.snapshot.id == key.id && ValidExecution(mutation.snapshot))
  }

  ghost predicate KeepsPaths(migrator: SessionPart -> Option<SessionPart>) {
    forall part: SessionPart :: StoredAtPaths(part.executions) && migrator(part).Some? ==>
      StoredAtPaths(migrator(part).value.executions)
  }

  // Requests are made of valid parts: identities are valid, a consistent snapshot is saved
  // under its own, and a migrator stores each record at its path.
  ghost predicate WellMade(request: Request) {
    match request
    case Committing(mutations) => forall i :: 0 <= i < |mutations| ==> OwnSnapshot(mutations[i].0, mutations[i].1)
    case Migrating(_, migrator) => KeepsPaths(migrator)
    case _ => true
  }

  // The executions the operations leave: each batch applied whole, in the order of the log;
  // a migration replaces those of its session.
  function Committed(log: seq<Entry>): Data {
    if log == [] then map[]
    else
      var before := log[..|log| - 1];
      match log[|log| - 1].request
      case Committing(mutations) => StagingRuns.Performed(Committed(before), mutations)
      case Migrating(session, migrator) =>
        (match migrator(SessionOf(Fold(before), session))
         case None => Committed(before)
         case Some(part) => Replaced(Committed(before), session, part.executions))
      case _ => Committed(before)
  }

  ghost predicate AllAtPaths(document: Document) {
    forall s :: StoredAtPaths(SessionOf(document, s).executions)
  }

  lemma {:induction false} MutationsAtPaths(document: Document, mutations: seq<(Key, Mutation)>)
    requires AllAtPaths(document) && WellMade(Committing(mutations))
    ensures AllAtPaths(WithMutations(document, mutations))
  {
    hide OwnSnapshot, AllAtPaths, WithMutation;
    if mutations != [] {
      var init, last := mutations[..|mutations| - 1], mutations[|mutations| - 1];
      assert WellMade(Committing(init));
      MutationsAtPaths(document, init);
      assert OwnSnapshot(last.0, last.1);
      MutationAtPath(WithMutations(document, init), last.0, last.1);
    }
  }

  lemma {:induction false} MutationAtPath(document: Document, key: Key, mutation: Mutation)
    requires AllAtPaths(document) && OwnSnapshot(key, mutation)
    ensures AllAtPaths(WithMutation(document, key, mutation))
  {
    hide PathOf, ValidId, ValidExecution;
    var after := WithMutation(document, key, mutation);
    forall s ensures StoredAtPaths(SessionOf(after, s).executions) {
      assert StoredAtPaths(SessionOf(document, s).executions);
    }
  }

  lemma {:induction false} MigrationAtPaths(
    document: Document, session: string, migrator: SessionPart -> Option<SessionPart>)
    requires AllAtPaths(document) && KeepsPaths(migrator)
    ensures AllAtPaths(AfterOperation(Migrating(session, migrator), document))
    ensures migrator(SessionOf(document, session)).Some? ==>
      StoredAtPaths(migrator(SessionOf(document, session)).value.executions)
  {
    hide StoredAtPaths;
    var after := AfterOperation(Migrating(session, migrator), document);
    assert StoredAtPaths(SessionOf(document, session).executions);
    forall s ensures StoredAtPaths(SessionOf(after, s).executions) {
      assert StoredAtPaths(SessionOf(document, s).executions);
    }
  }

  lemma {:induction false} SameSessionsAtPaths(a: Document, b: Document)
    requires AllAtPaths(a) && forall s :: SessionOf(b, s).executions == SessionOf(a, s).executions
    ensures AllAtPaths(b)
  {
    forall s ensures StoredAtPaths(SessionOf(b, s).executions) {
      assert StoredAtPaths(SessionOf(a, s).executions);
    }
  }

  lemma {:induction false} SameSessionsHold(a: Document, b: Document, data: Data)
    requires Holds(a, data) && forall s :: SessionOf(b, s).executions == SessionOf(a, s).executions
    ensures Holds(b, data)
  {
    hide ValidId;
    forall k: Key | ValidId(k.id) ensures HoldsAt(b, data, k) {
      assert HoldsAt(a, data, k);
    }
  }

  lemma {:induction false} ClaimKeepsExecutions(document: Document, session: string, domain: string, version: string)
    ensures forall s ::
      SessionOf(AfterOperation(Claiming(session, domain, version), document), s).executions ==
      SessionOf(document, s).executions
  {
  }

  lemma {:induction false} FoldHolds(log: seq<Entry>)
    requires forall n: nat :: n < |log| ==> LeavesSessions(log, n) && WellMade(log[n].request)
    ensures Holds(Fold(log), Committed(log)) && AllAtPaths(Fold(log))
  {
    hide PathOf, ValidId, StoredAtPaths, Holds, Replaced;
    if log == [] {
      assert Holds(NO_DOCUMENT, map[]) && AllAtPaths(NO_DOCUMENT) by { NothingHeld(); }
    } else {
      var n := |log| - 1;
      var before := log[..n];
      forall k: nat | k < |before| ensures LeavesSessions(before, k) && WellMade(before[k].request) {
        assert LeavesSessions(log, k) && before[..k] == log[..k];
      }
      FoldHolds(before);
      assert LeavesSessions(log, n);
      EntryHolds(log[n].request, Fold(before), Committed(before));
    }
  }

  lemma {:induction false} NothingHeld()
    ensures Holds(NO_DOCUMENT, map[]) && AllAtPaths(NO_DOCUMENT)
  {
  }

  lemma {:induction false} EntryHolds(request: Request, document: Document, data: Data)
    requires Holds(document, data) && AllAtPaths(document) && WellMade(request)
    requires request.Opening? ==> AfterOperation(request, document).sessions == document.sessions
    ensures AllAtPaths(AfterOperation(request, document))
    ensures Holds(AfterOperation(request, document),
      match request
      case Committing(mutations) => StagingRuns.Performed(data, mutations)
      case Migrating(session, migrator) =>
        (match migrator(SessionOf(document, session))
         case None => data
         case Some(part) => Replaced(data, session, part.executions))
      case _ => data)
  {
    hide PathOf, ValidId, StoredAtPaths, Holds, Replaced, WithClaim, AllAtPaths, KeepsPaths, OwnSnapshot;
    match request
    case Opening(_) =>
      SameSessionsHold(document, AfterOperation(request, document), data);
      SameSessionsAtPaths(document, AfterOperation(request, document));
    case Committing(mutations) =>
      assert forall i :: 0 <= i < |mutations| ==> ValidId(mutations[i].0.id) by { ValidKeys(mutations); }
      MutationsHold(document, data, mutations);
      MutationsAtPaths(document, mutations);
    case Claiming(session, domain, version) =>
      ClaimKeepsExecutions(document, session, domain, version);
      SameSessionsHold(document, AfterOperation(request, document), data);
      SameSessionsAtPaths(document, AfterOperation(request, document));
    case Migrating(session, migrator) =>
      MigrationAtPaths(document, session, migrator);
      var part := migrator(SessionOf(document, session));
      if part.Some? { ReplacementHolds(document, data, session, part.value); }
  }

  lemma {:induction false} ValidKeys(mutations: seq<(Key, Mutation)>)
    requires WellMade(Committing(mutations))
    ensures forall i :: 0 <= i < |mutations| ==> ValidId(mutations[i].0.id)
  {
    forall i | 0 <= i < |mutations| ensures ValidId(mutations[i].0.id) {
      assert OwnSnapshot(mutations[i].0, mutations[i].1);
    }
  }

  // In every run, with crashes and cancellations anywhere, the document holds exactly the
  // executions of the batches that took effect, applied whole one after another.
  lemma {:induction false} DocumentHoldsCommitted(events: seq<Event>)
    requires forall n :: 0 <= n < |Play(events).log| ==> WellMade(Play(events).log[n].request)
    ensures Holds(Content(Play(events).disk), Committed(Play(events).log))
  {
    hide Holds, Fold, WellMade, LeavesSessions, Play, Content, Committed;
    var log := Play(events).log;
    forall n: nat | n < |log| ensures LeavesSessions(log, n) { OpeningsLeaveSessions(events, n); }
    DocumentIsFold(events);
    FoldHolds(log);
  }
}
