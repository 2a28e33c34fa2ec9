// Old code, then a migration along a chain of transitions, then the code at its end: what
// resuming the migrated session comes to.
module ChainResume {
  import opened Wrappers
  import opened Identity
  import opened Replay
  import opened ReplaySafety
  import opened ReplayResume
  import opened Migration
  import opened Rebuilding
  import opened Journeys
  import opened MigrationChain
  import opened MigrateResume

  // ---- Stores and sessions ------------------------------------------------------------

  // A stored session as a store holds it.
  ghost function SessionDisk(session: StoredSession): Disk
    requires UniqueIds(session.executions)
  {
    Disk(ById(session.executions), session.versions)
  }

  ghost function DiskStop(domain: string, disk: Disk): Stop
    requires domain in disk.versions
  {
    Stop(disk.versions[domain], disk.records)
  }

  // The store after n transitions.
  ghost function DiskAfter(domain: string, plans: Plans, canonicalize: Canonicalizer, disk: Disk, n: nat): Disk
    requires domain in disk.versions && Journey(plans, canonicalize, DiskStop(domain, disk), n).Some?
  {
    var stop := Journey(plans, canonicalize, DiskStop(domain, disk), n).value;
    Disk(stop.records, disk.versions[domain := stop.version])
  }

  // What a migration returns is the store its transitions lead to.
  lemma {:induction false} MigratesToDisk(
    domain: string, plans: Plans, canonicalize: Canonicalizer, source: StoredSession, migrated: StoredSession, n: nat)
    requires Migrates(domain, plans, canonicalize, source, migrated, n)
    ensures Journey(plans, canonicalize, DiskStop(domain, SessionDisk(source)), n).Some?
    ensures SessionDisk(migrated) == DiskAfter(domain, plans, canonicalize, SessionDisk(source), n)
  {
    hide Journey, ById;
  }

  // ---- The code along the way ---------------------------------------------------------

  // One transition: the code it leads to, and how that code renames the calls of the code
  // before.
  datatype Leg = Leg(renaming: Renaming, code: Process)

  function CodeAfter(p: Process, legs: seq<Leg>): Process {
    if legs == [] then p else legs[|legs| - 1].code
  }

  ghost function RenamingOver(legs: seq<Leg>): Renaming {
    if legs == [] then UNCHANGED else Compose(RenamingOver(legs[..|legs| - 1]), legs[|legs| - 1].renaming)
  }

  // Each code along the way is the one before renamed, at the version its transition leads
  // to, and each plan does to the records what the renaming does to the calls.
  ghost predicate Travels(
    domain: string, plans: Plans, canonicalize: Canonicalizer, p: Process, from: Stop, legs: seq<Leg>)
    requires Journey(plans, canonicalize, from, |legs|).Some?
  {
    legs != [] ==>
      var init, last := legs[..|legs| - 1], legs[|legs| - 1];
      var c := ContextAt(plans, canonicalize, Journey(plans, canonicalize, from, |init|).value);
      && Travels(domain, plans, canonicalize, p, from, init)
      && c.plan.domain == domain && last.code.version(domain) == c.plan.targetVersion
      && RunsRenamed(last.renaming, domain, CodeAfter(p, init), last.code)
      && Agrees(last.renaming, c)
  }

  // No transition drops a record.
  ghost predicate KeepsAll(plans: Plans, canonicalize: Canonicalizer, from: Stop, n: nat)
    requires Journey(plans, canonicalize, from, n).Some?
  {
    n > 0 ==>
      && KeepsAll(plans, canonicalize, from, n - 1)
      && DropsNothing(ContextAt(plans, canonicalize, Journey(plans, canonicalize, from, n - 1).value))
  }

  // The last leg: the context it starts from, and the store it leads to.
  lemma {:induction false} LastLeg(
    domain: string, plans: Plans, canonicalize: Canonicalizer, p: Process, disk: Disk, legs: seq<Leg>)
    returns (c: Context)
    requires legs != [] && domain in disk.versions
    requires Journey(plans, canonicalize, DiskStop(domain, disk), |legs|).Some?
    requires Travels(domain, plans, canonicalize, p, DiskStop(domain, disk), legs)
    ensures var n := |legs| - 1;
      var last := legs[n];
      && Journey(plans, canonicalize, DiskStop(domain, disk), n).Some?
      && Travels(domain, plans, canonicalize, p, DiskStop(domain, disk), legs[..n])
      && c == ContextAt(plans, canonicalize, Journey(plans, canonicalize, DiskStop(domain, disk), n).value)
      && c.recorded == DiskAfter(domain, plans, canonicalize, disk, n).records
      && c.plan.domain == domain && last.code.version(domain) == c.plan.targetVersion
      && RunsRenamed(last.renaming, domain, CodeAfter(p, legs[..n]), last.code)
      && Agrees(last.renaming, c) && Accepts(c)
      && DiskAfter(domain, plans, canonicalize, disk, |legs|)
         == Migrated(c, DiskAfter(domain, plans, canonicalize, disk, n).versions)
  {
    hide Agrees, RunsRenamed, Accepts, Rebuilt, Journey;
    var n := |legs| - 1;
    var from := DiskStop(domain, disk);
    LastTransition(plans, canonicalize, from, |legs|);
    c := ContextAt(plans, canonicalize, Journey(plans, canonicalize, from, n).value);
    SetTwice(disk.versions, domain, Journey(plans, canonicalize, from, n).value.version, c.plan.targetVersion);
  }

  lemma {:induction false} NoLegs(
    domain: string, plans: Plans, canonicalize: Canonicalizer, disk: Disk)
    requires domain in disk.versions
    ensures Journey(plans, canonicalize, DiskStop(domain, disk), 0).Some?
    ensures DiskAfter(domain, plans, canonicalize, disk, 0) == disk
  {
    assert disk.versions[domain := disk.versions[domain]] == disk.versions;
  }

  // ---- With drops: what is recorded stays true ----------------------------------------

  // A chain of transitions keeps a store trusted, by the code at its end, whatever it
  // drops on the way.
  lemma {:induction false} ChainKeepsTrust(
    domain: string, plans: Plans, canonicalize: Canonicalizer, p: Process, disk: Disk, legs: seq<Leg>)
    requires domain in disk.versions && Trusted(p, disk)
    requires Journey(plans, canonicalize, DiskStop(domain, disk), |legs|).Some?
    requires Travels(domain, plans, canonicalize, p, DiskStop(domain, disk), legs)
    ensures Trusted(CodeAfter(p, legs), DiskAfter(domain, plans, canonicalize, disk, |legs|))
  {
    hide Agrees, RunsRenamed, Accepts, Rebuilt, Journey, Trusted, Travels, Migrated;
    if legs == [] {
      NoLegs(domain, plans, canonicalize, disk);
    } else {
      var init, last := legs[..|legs| - 1], legs[|legs| - 1];
      var c := LastLeg(domain, plans, canonicalize, p, disk, legs);
      ChainKeepsTrust(domain, plans, canonicalize, p, disk, init);
      var before := DiskAfter(domain, plans, canonicalize, disk, |init|);
      assert before == Disk(c.recorded, before.versions);
      MigrationKeepsTrust(last.renaming, CodeAfter(p, init), last.code, c, before.versions);
    }
  }

  // The session an old store holds, in any order.
  ghost predicate HeldBy(session: StoredSession, disk: Disk) {
    UniqueIds(session.executions) && ById(session.executions) == disk.records && session.versions == disk.versions
  }

  lemma {:induction false} MigratedIsTrusted(
    domain: string, plans: Plans, canonicalize: Canonicalizer, p: Process, earlier: seq<Attempt>,
    source: StoredSession, migrated: StoredSession, legs: seq<Leg>)
    requires SameCode(earlier, p) && HeldBy(source, After(earlier, EMPTY))
    requires Migrates(domain, plans, canonicalize, source, migrated, |legs|)
    requires Travels(domain, plans, canonicalize, p, StopOf(domain, source), legs)
    ensures Trusted(CodeAfter(p, legs), SessionDisk(migrated))
  {
    hide Journey, Trusted, Travels, ById;
    HistoriesAreTrue(earlier, p);
    MigratesToDisk(domain, plans, canonicalize, source, migrated, |legs|);
    ChainKeepsTrust(domain, plans, canonicalize, p, SessionDisk(source), legs);
  }

  // Old code works on a session through any number of interruptions, the session is
  // migrated, and the code at the end of the chain works on through any number more. If it
  // finishes, it ends as it would have ended never interrupted and on an empty store.
  lemma {:induction false} MigratedResumeEqualsUninterrupted(
    domain: string, plans: Plans, canonicalize: Canonicalizer, p: Process, earlier: seq<Attempt>,
    source: StoredSession, migrated: StoredSession, legs: seq<Leg>,
    later: seq<Attempt>, steps: nat, uninterrupted: nat)
    requires SameCode(earlier, p) && HeldBy(source, After(earlier, EMPTY))
    requires Migrates(domain, plans, canonicalize, source, migrated, |legs|)
    requires Travels(domain, plans, canonicalize, p, StopOf(domain, source), legs)
    requires SameCode(later, CodeAfter(p, legs))
    requires var q := CodeAfter(p, legs);
      && Run(q, Begin(After(later, SessionDisk(migrated))), steps).phase.Finished?
      && Run(q, Begin(EMPTY), uninterrupted).phase.Finished?
    ensures var q := CodeAfter(p, legs);
      Run(q, Begin(After(later, SessionDisk(migrated))), steps).phase == Run(q, Begin(EMPTY), uninterrupted).phase
  {
    hide Run, Trusted, Travels, Journey, ById;
    var q := CodeAfter(p, legs);
    MigratedIsTrusted(domain, plans, canonicalize, p, earlier, source, migrated, legs);
    AttemptsKeepTrust(later, q, SessionDisk(migrated));
    TrustedResume(q, After(later, SessionDisk(migrated)), steps, q, uninterrupted);
  }

  // And it does finish, given enough steps, if the uninterrupted session does.
  lemma {:induction false} MigratedResumeFinishes(
    domain: string, plans: Plans, canonicalize: Canonicalizer, p: Process, earlier: seq<Attempt>,
    source: StoredSession, migrated: StoredSession, legs: seq<Leg>,
    later: seq<Attempt>, uninterrupted: nat) returns (steps: nat)
    requires SameCode(earlier, p) && HeldBy(source, After(earlier, EMPTY))
    requires Migrates(domain, plans, canonicalize, source, migrated, |legs|)
    requires Travels(domain, plans, canonicalize, p, StopOf(domain, source), legs)
    requires SameCode(later, CodeAfter(p, legs))
    requires Run(CodeAfter(p, legs), Begin(EMPTY), uninterrupted).phase.Finished?
    ensures var q := CodeAfter(p, legs);
      Run(q, Begin(After(later, SessionDisk(migrated))), steps).phase == Run(q, Begin(EMPTY), uninterrupted).phase
  {
    hide Run, Trusted, Travels, Journey, ById;
    var q := CodeAfter(p, legs);
    MigratedIsTrusted(domain, plans, canonicalize, p, earlier, source, migrated, legs);
    AttemptsKeepTrust(later, q, SessionDisk(migrated));
    steps := TrustedFinishes(q, After(later, SessionDisk(migrated)), q, uninterrupted);
  }

  // ---- Without drops: the same calls are replayed -------------------------------------

  lemma {:induction false} ChainCorresponds(
    domain: string, plans: Plans, canonicalize: Canonicalizer, p: Process, disk: Disk, legs: seq<Leg>)
    requires domain in disk.versions && disk.versions[domain] == p.version(domain)
    requires Journey(plans, canonicalize, DiskStop(domain, disk), |legs|).Some?
    requires Travels(domain, plans, canonicalize, p, DiskStop(domain, disk), legs)
    requires KeepsAll(plans, canonicalize, DiskStop(domain, disk), |legs|)
    ensures RunsRenamed(RenamingOver(legs), domain, p, CodeAfter(p, legs))
    ensures var after := DiskAfter(domain, plans, canonicalize, disk, |legs|);
      && after.versions[domain] == CodeAfter(p, legs).version(domain)
      && SameDisks(RenamingOver(legs), domain, p, CodeAfter(p, legs), disk, after)
  {
    hide Agrees, RunsRenamed, Accepts, Rebuilt, Journey, Travels, SameDisks, Compose, DropsNothing;
    if legs == [] {
      NoLegs(domain, plans, canonicalize, disk);
      SameItself(domain, p, disk);
    } else {
      var init, last := legs[..|legs| - 1], legs[|legs| - 1];
      var c := LastLeg(domain, plans, canonicalize, p, disk, legs);
      ChainCorresponds(domain, plans, canonicalize, p, disk, init);
      var q, before := CodeAfter(p, init), DiskAfter(domain, plans, canonicalize, disk, |init|);
      var after := DiskAfter(domain, plans, canonicalize, disk, |legs|);
      assert before == Disk(c.recorded, before.versions);
      RenamingIsProper(last.renaming, domain, q, last.code);
      RenamingIsProper(RenamingOver(init), domain, p, q);
      MigratedStoreCorresponds(last.renaming, q, last.code, c, before.versions);
      ComposeRuns(RenamingOver(init), last.renaming, domain, p, q, last.code);
      ComposeDisks(RenamingOver(init), last.renaming, domain, p, q, last.code, disk, before, after);
    }
  }

  lemma {:induction false} RenamingIsProper(r: Renaming, domain: string, p: Process, q: Process)
    requires RunsRenamed(r, domain, p, q)
    ensures Proper(r)
  {
  }

  // If no transition drops a record, the code at the end of the chain takes, on the
  // migrated session, exactly the steps the old code would have taken on the old one: at
  // every step it asks for the image of the call the old code asks for, and replays it
  // exactly if the old code would.
  lemma {:induction false} MigratedCallsReplayed(
    domain: string, plans: Plans, canonicalize: Canonicalizer, p: Process, earlier: seq<Attempt>,
    source: StoredSession, migrated: StoredSession, legs: seq<Leg>, steps: nat)
    requires SameCode(earlier, p) && HeldBy(source, After(earlier, EMPTY))
    requires Migrates(domain, plans, canonicalize, source, migrated, |legs|)
    requires Travels(domain, plans, canonicalize, p, StopOf(domain, source), legs)
    requires KeepsAll(plans, canonicalize, StopOf(domain, source), |legs|)
    ensures var r, q := RenamingOver(legs), CodeAfter(p, legs);
      var former := BackProcess(r, p, q);
      var m, n := Run(former, Begin(After(earlier, EMPTY)), steps), Run(q, Begin(SessionDisk(migrated)), steps);
      && n.phase == m.phase
      && (m.phase.Entering? ==>
            var call := CallId(m.stack.frame, NextAction(p.program, m.stack.frame));
            var renamed := CallId(n.stack.frame, NextAction(q.program, n.stack.frame));
            renamed == Moved(r, call) && (IsCompleted(n.disk, renamed) <==> IsCompleted(m.disk, call)))
  {
    hide Journey, Travels, ById, KeepsAll, Run, SameRecords, Proper, Renames, Compose, Moved, Covers, TrueDisk, ValidDisk;
    var r, q, disk := RenamingOver(legs), CodeAfter(p, legs), After(earlier, EMPTY);
    HistoriesAreTrue(earlier, p);
    MigratesToDisk(domain, plans, canonicalize, source, migrated, |legs|);
    ChainCorresponds(domain, plans, canonicalize, p, disk, legs);
    var former := BackProcess(r, p, q);
    SameOtherPruning(domain, p, q, former, q, disk.versions, SessionDisk(migrated).versions);
    SameCallsReplayed(r, domain, former, q, disk, SessionDisk(migrated), steps);
  }

  // ---- A new version of unchanged code ------------------------------------------------

  // A transition without rules carries every store of the code to the same code at the new
  // version.
  lemma {:induction false} UnchangedCodeTravels(
    domain: string, plans: Plans, canonicalize: Canonicalizer, p: Process, q: Process, disk: Disk)
    requires ValidDisk(disk) && domain in disk.versions && disk.versions[domain] in plans
    requires var plan := plans[disk.versions[domain]];
      plan.domain == domain && plan.rules == map[] && q.version(domain) == plan.targetVersion
    requires q.program == p.program && forall d :: d != domain ==> q.version(d) == p.version(d)
    ensures var from, legs := DiskStop(domain, disk), [Leg(UNCHANGED, q)];
      && Journey(plans, canonicalize, from, 1).Some?
      && Travels(domain, plans, canonicalize, p, from, legs)
      && KeepsAll(plans, canonicalize, from, 1)
  {
    hide Agrees, Accepts, Rebuilt, DropsNothing, Renames, Proper;
    var from := DiskStop(domain, disk);
    var c := ContextAt(plans, canonicalize, from);
    assert ParentsKnown(c) && forall y :: y in c.recorded ==>
      c.recorded[y].id == y && c.recorded[y].arguments.digest == y.digest
    by {
      assert forall y :: y in disk.records ==> disk.records[y].id == y && ValidExecution(disk.records[y]);
    }
    NoRulesChangeNothing(c);
    assert Journey(plans, canonicalize, from, 0) == Some(from);
    assert Journey(plans, canonicalize, from, 1).Some?;
    SameCodeIsRenamed(domain, p, q);
    var legs := [Leg(UNCHANGED, q)];
    assert legs[..0] == [] && KeepsAll(plans, canonicalize, from, 0);
  }

  lemma {:induction false} SameCodeIsRenamed(domain: string, p: Process, q: Process)
    requires q.program == p.program && forall d :: d != domain ==> q.version(d) == p.version(d)
    ensures RunsRenamed(UNCHANGED, domain, p, q)
  {
    hide Proper, Renames;
    SameItself(domain, p, EMPTY);
  }
}
