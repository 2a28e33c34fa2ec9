// Migrate, then resume: renamed code on the migrated store takes the same steps as the old
// code would have taken on the old one, asks for the images of the same calls, replays
// exactly those that were completed, and returns the same value.
module MigrateResume {
  import opened Wrappers
  import opened Canonical
  import opened Identity
  import opened Sequencing
  import opened Replay
  import opened ReplaySafety
  import opened ReplayResume
  import opened Migration
  import opened Conversions
  import opened Journeys

  // ---- Renaming calls -----------------------------------------------------------------

  // What keys a call within its parent, up to the ordinal.
  datatype Key = Key(domain: string, name: string, digest: string)

  function KeyOf(id: ExecutionId): Key {
    Key(id.domain, id.name, id.digest)
  }

  function KeyScope(parent: Option<ExecutionId>, key: Key): Scope {
    Scope(parent, key.domain, key.name, key.digest)
  }

  // What each call is called in the new code; `covers` are the calls that matter.
  datatype Renaming = Renaming(rename: Key -> Key, covers: iset<Key>)

  // A domain keeps its calls, and the calls that matter are not confused.
  ghost predicate Proper(r: Renaming) {
    && (forall k :: k in r.covers ==> r.rename(k).domain == k.domain)
    && (forall k, l :: k in r.covers && l in r.covers && r.rename(k) == r.rename(l) ==> k == l)
  }

  // Every call of the chain is covered.
  ghost predicate Covers(r: Renaming, id: ExecutionId) {
    KeyOf(id) in r.covers && (id.parent.Some? ==> Covers(r, id.parent.value))
  }

  ghost predicate CoversParent(r: Renaming, parent: Option<ExecutionId>) {
    parent.Some? ==> Covers(r, parent.value)
  }

  // The chain renamed node by node; ordinals stay.
  function Moved(r: Renaming, id: ExecutionId): ExecutionId {
    var key := r.rename(KeyOf(id));
    ExecutionId(MovedParent(r, id.parent), key.domain, key.name, id.sequence, key.digest)
  }

  function MovedParent(r: Renaming, parent: Option<ExecutionId>): Option<ExecutionId> {
    if parent.None? then None else Some(Moved(r, parent.value))
  }

  lemma {:induction false} MovedIsInjective(r: Renaming, x: ExecutionId, y: ExecutionId)
    requires Proper(r) && Covers(r, x) && Covers(r, y) && Moved(r, x) == Moved(r, y)
    ensures x == y
  {
    assert r.rename(KeyOf(x)) == r.rename(KeyOf(y));
    if x.parent.Some? && y.parent.Some? {
      MovedIsInjective(r, x.parent.value, y.parent.value);
    }
  }

  lemma {:induction false} MovedUnder(r: Renaming, x: ExecutionId, top: ExecutionId)
    requires Proper(r) && Covers(r, x) && Covers(r, top)
    ensures Under(Moved(r, x), Moved(r, top)) <==> Under(x, top)
  {
    if x.parent.Some? {
      MovedUnder(r, x.parent.value, top);
      if Moved(r, x.parent.value) == Moved(r, top) {
        MovedIsInjective(r, x.parent.value, top);
      }
    }
  }

  // ---- Renamed code -------------------------------------------------------------------

  // The same action, with a call under its new name and arguments.
  ghost predicate SameAction(r: Renaming, a: Action, b: Action) {
    if a.Call? then
      && b.Call?
      && Key(a.domain, a.name, a.arguments.digest) in r.covers
      && Key(b.domain, b.name, b.arguments.digest) == r.rename(Key(a.domain, a.name, a.arguments.digest))
    else b == a
  }

  ghost predicate Renames(r: Renaming, program: Program, renamed: Program) {
    forall self, history :: CoversParent(r, self) ==>
      SameAction(r, program(self, history), renamed(MovedParent(r, self), history))
  }

  ghost predicate SamePruning(r: Renaming, p: Process, q: Process) {
    forall id :: Covers(r, id) ==> q.prunes(Moved(r, id)) == p.prunes(id)
  }

  // Process q runs p's code renamed, and differs from p in the version of one domain.
  ghost predicate RunsRenamed(r: Renaming, domain: string, p: Process, q: Process) {
    && Proper(r)
    && Renames(r, p.program, q.program)
    && forall d :: d != domain ==> q.version(d) == p.version(d)
  }

  ghost predicate Follows(r: Renaming, domain: string, p: Process, q: Process) {
    RunsRenamed(r, domain, p, q) && SamePruning(r, p, q)
  }

  // ---- Corresponding states -----------------------------------------------------------

  type Records = map<ExecutionId, Execution>
  type Versions = map<string, string>

  ghost predicate SameRecord(a: Records, x: ExecutionId, b: Records, y: ExecutionId) {
    && (x in a <==> y in b)
    && (x in a ==> b[y].status == a[x].status && b[y].result == a[x].result && b[y].metadata == a[x].metadata)
  }

  ghost predicate SameRecords(r: Renaming, a: Records, b: Records) {
    forall x :: Covers(r, x) ==> SameRecord(a, x, b, Moved(r, x))
  }

  ghost predicate SameVersion(domain: string, p: Process, q: Process, a: Versions, b: Versions, d: string) {
    && (d in a <==> d in b)
    && (d in a ==> if d == domain then a[d] == p.version(d) && b[d] == q.version(d) else a[d] == b[d])
  }

  ghost predicate SameVersions(domain: string, p: Process, q: Process, a: Versions, b: Versions) {
    forall d :: SameVersion(domain, p, q, a, b, d)
  }

  ghost predicate SameCounts(r: Renaming, f: Frame, g: Frame) {
    forall k :: k in r.covers ==>
      Count(g.counts, KeyScope(g.self, r.rename(k))) == Count(f.counts, KeyScope(f.self, k))
  }

  ghost predicate SameFrame(r: Renaming, f: Frame, g: Frame) {
    && CoversParent(r, f.self)
    && g.self == MovedParent(r, f.self)
    && g.history == f.history
    && g.metadata == f.metadata
    && SameCounts(r, f, g)
  }

  ghost predicate SameStack(r: Renaming, a: Stack, b: Stack) {
    && SameFrame(r, a.frame, b.frame)
    && a.Inside? == b.Inside?
    && (a.Inside? ==> SameStack(r, a.caller, b.caller))
  }

  ghost predicate Corresponds(r: Renaming, domain: string, p: Process, q: Process, m: Machine, n: Machine) {
    && n.phase == m.phase
    && SameStack(r, m.stack, n.stack)
    && SameRecords(r, m.disk.records, n.disk.records)
    && SameVersions(domain, p, q, m.disk.versions, n.disk.versions)
  }

  // ---- One step of both ---------------------------------------------------------------

  lemma {:induction false} SameNextAction(r: Renaming, p: Process, q: Process, f: Frame, g: Frame)
    requires Renames(r, p.program, q.program) && SameFrame(r, f, g)
    ensures SameAction(r, NextAction(p.program, f), NextAction(q.program, g))
  {
  }

  lemma {:induction false} SameCallId(r: Renaming, f: Frame, g: Frame, a: Action, b: Action)
    requires SameFrame(r, f, g) && SameAction(r, a, b) && a.Call?
    ensures Covers(r, CallId(f, a)) && CallId(g, b) == Moved(r, CallId(f, a))
  {
    var k := Key(a.domain, a.name, a.arguments.digest);
    assert CallScope(f, a) == KeyScope(f.self, k);
    assert CallScope(g, b) == KeyScope(g.self, r.rename(k));
  }

  lemma {:induction false} SameAnswer(r: Renaming, f: Frame, g: Frame, a: Action, b: Action, outcome: Outcome)
    requires Proper(r) && SameFrame(r, f, g) && SameAction(r, a, b) && a.Call?
    ensures SameFrame(r, Answered(f, a, outcome), Answered(g, b, outcome))
  {
    var key := Key(a.domain, a.name, a.arguments.digest);
    assert CallScope(f, a) == KeyScope(f.self, key);
    assert CallScope(g, b) == KeyScope(g.self, r.rename(key));
    var after, other := Answered(f, a, outcome), Answered(g, b, outcome);
    forall k | k in r.covers
      ensures Count(other.counts, KeyScope(g.self, r.rename(k))) == Count(after.counts, KeyScope(f.self, k))
    {
      assert r.rename(k) == r.rename(key) ==> k == key;
      assert Count(g.counts, KeyScope(g.self, r.rename(k))) == Count(f.counts, KeyScope(f.self, k));
    }
  }

  lemma {:induction false} SameNote(r: Renaming, f: Frame, g: Frame, note: Action)
    requires SameFrame(r, f, g)
    ensures SameFrame(r, Noted(f, note), Noted(g, note))
    ensures forall error :: SameFrame(r, Refused(f, error), Refused(g, error))
  {
  }

  lemma {:induction false} SameFresh(r: Renaming, id: ExecutionId, metadata: map<string, Payload>)
    requires Covers(r, id)
    ensures SameFrame(r, FreshFrame(Some(id), metadata), FreshFrame(Some(Moved(r, id)), metadata))
  {
  }

  lemma {:induction false} SameEnd(
    r: Renaming, domain: string, p: Process, q: Process, m: Machine, n: Machine, outcome: Outcome)
    requires Follows(r, domain, p, q) && Corresponds(r, domain, p, q, m, n)
    requires Replay.Stacked(p, m.stack) && Replay.Stacked(q, n.stack)
    ensures Corresponds(r, domain, p, q, End(p, m, outcome), End(q, n, outcome))
  {
    hide SameRecords, SameVersions, SameFrame, SameAction, Answered;
    if m.stack.Inside? {
      var f, g := m.stack.caller.frame, n.stack.caller.frame;
      assert SameStack(r, m.stack.caller, n.stack.caller);
      SameNextAction(r, p, q, f, g);
      assert Called(p, f, m.stack.frame);
      SameAnswer(r, f, g, NextAction(p.program, f), NextAction(q.program, g), outcome);
    }
  }

  lemma {:induction false} SameClaim(
    domain: string, p: Process, q: Process, a: Disk, b: Disk, d: string)
    requires SameVersions(domain, p, q, a.versions, b.versions) && (d != domain ==> q.version(d) == p.version(d))
    ensures var x, y := Claim(a, d, p.version(d)), Claim(b, d, q.version(d));
      && SameVersions(domain, p, q, x.versions, y.versions)
      && (x.versions[d] == p.version(d) <==> y.versions[d] == q.version(d))
      && (x.versions[d] != p.version(d) ==> x.versions[d] == y.versions[d] && p.version(d) == q.version(d))
  {
    assert SameVersion(domain, p, q, a.versions, b.versions, d);
    var x, y := Claim(a, d, p.version(d)), Claim(b, d, q.version(d));
    forall e ensures SameVersion(domain, p, q, x.versions, y.versions, e) {
      assert SameVersion(domain, p, q, a.versions, b.versions, e);
    }
  }

  lemma {:induction false} SameStart(
    r: Renaming, a: Disk, b: Disk, id: ExecutionId, arguments: CanonicalArguments, renamed: CanonicalArguments)
    requires Proper(r) && Covers(r, id) && SameRecords(r, a.records, b.records)
    ensures SameRecords(r, StartCall(a, id, arguments).records, StartCall(b, Moved(r, id), renamed).records)
  {
    assert SameRecord(a.records, id, b.records, Moved(r, id));
    var x, y := StartCall(a, id, arguments), StartCall(b, Moved(r, id), renamed);
    forall z | Covers(r, z) ensures SameRecord(x.records, z, y.records, Moved(r, z)) {
      assert SameRecord(a.records, z, b.records, Moved(r, z));
      if Moved(r, z) == Moved(r, id) { MovedIsInjective(r, z, id); }
    }
  }

  lemma {:induction false} SameCompletion(
    r: Renaming, a: Disk, b: Disk, id: ExecutionId, value: Payload, metadata: map<string, Payload>)
    requires Proper(r) && Covers(r, id) && SameRecords(r, a.records, b.records)
    requires id in a.records && Moved(r, id) in b.records
    ensures SameRecords(r,
      CompleteCall(a, id, value, metadata).records, CompleteCall(b, Moved(r, id), value, metadata).records)
  {
    var x, y := CompleteCall(a, id, value, metadata), CompleteCall(b, Moved(r, id), value, metadata);
    forall z | Covers(r, z) ensures SameRecord(x.records, z, y.records, Moved(r, z)) {
      assert SameRecord(a.records, z, b.records, Moved(r, z));
      if Moved(r, z) == Moved(r, id) { MovedIsInjective(r, z, id); }
    }
  }

  lemma {:induction false} SamePrune(r: Renaming, a: Disk, b: Disk, id: ExecutionId)
    requires Proper(r) && Covers(r, id) && SameRecords(r, a.records, b.records)
    ensures SameRecords(r, Prune(a, id).records, Prune(b, Moved(r, id)).records)
  {
    var x, y := Prune(a, id), Prune(b, Moved(r, id));
    forall z | Covers(r, z) ensures SameRecord(x.records, z, y.records, Moved(r, z)) {
      assert SameRecord(a.records, z, b.records, Moved(r, z));
      MovedUnder(r, z, id);
    }
  }

  lemma {:induction false} SameEntering(r: Renaming, domain: string, p: Process, q: Process, m: Machine, n: Machine)
    requires Follows(r, domain, p, q) && Corresponds(r, domain, p, q, m, n) && m.phase.Entering?
    requires WellFormed(p, m) && WellFormed(q, n)
    ensures Corresponds(r, domain, p, q, Enter(p, m), Enter(q, n))
  {
    hide SameFrame, SameVersions, Answered, FreshFrame, Covers, Moved, SameAction, Proper, Renames, SamePruning;
    var f, g := m.stack.frame, n.stack.frame;
    var a, b := NextAction(p.program, f), NextAction(q.program, g);
    SameNextAction(r, p, q, f, g);
    SameCallId(r, f, g, a, b);
    var id := CallId(f, a);
    assert SameRecord(m.disk.records, id, n.disk.records, Moved(r, id));
    if IsCompleted(m.disk, id) && m.disk.records[id].result.Some? {
      SameAnswer(r, f, g, a, b, Returned(m.disk.records[id].result.value));
    } else {
      SameStart(r, m.disk, n.disk, id, a.arguments, b.arguments);
      var x, y := StartCall(m.disk, id, a.arguments), StartCall(n.disk, Moved(r, id), b.arguments);
      assert SameRecord(x.records, id, y.records, Moved(r, id));
      SameFresh(r, id, x.records[id].metadata);
    }
  }

  lemma {:induction false} SameCompleting(
    r: Renaming, domain: string, p: Process, q: Process, m: Machine, n: Machine, value: Payload)
    requires Follows(r, domain, p, q) && Corresponds(r, domain, p, q, m, n)
    requires Replay.Stacked(p, m.stack) && Replay.Stacked(q, n.stack)
    requires NextAction(p.program, m.stack.frame) == Return(value)
    requires NextAction(q.program, n.stack.frame) == Return(value)
    ensures Corresponds(r, domain, p, q, Complete(p, m, value), Complete(q, n, value))
  {
    hide SameVersions, Answered, Covers, Moved, Proper, Renames, End;
    forall outcome { SameEnd(r, domain, p, q, m, n, outcome); }
    if m.stack.Inside? {
      var frame := m.stack.frame;
      assert Called(p, m.stack.caller.frame, frame);
      var id := frame.self.value;
      assert SameRecord(m.disk.records, id, n.disk.records, Moved(r, id));
      if id in m.disk.records && !IsCompleted(m.disk, id) {
        SameCompletion(r, m.disk, n.disk, id, value, frame.metadata);
        assert q.prunes(Moved(r, id)) == p.prunes(id);
        SameEnd(r, domain, p, q,
          m.(disk := CompleteCall(m.disk, id, value, frame.metadata)),
          n.(disk := CompleteCall(n.disk, Moved(r, id), value, frame.metadata)), Returned(value));
      }
    }
  }

  lemma {:induction false} SameAdvance(r: Renaming, domain: string, p: Process, q: Process, m: Machine, n: Machine)
    requires Follows(r, domain, p, q) && Corresponds(r, domain, p, q, m, n) && m.phase.Running?
    requires WellFormed(p, m) && WellFormed(q, n)
    ensures Corresponds(r, domain, p, q, Advanced(p, m), Advanced(q, n))
  {
    hide SameFrame, SameRecords, SameVersions, Answered, Noted, Refused, Complete, End, Covers, Moved;
    var f, g := m.stack.frame, n.stack.frame;
    var action := NextAction(p.program, f);
    SameNextAction(r, p, q, f, g);
    SameNote(r, f, g, action);
    match action
    case Return(value) => SameCompleting(r, domain, p, q, m, n, value);
    case Raise(error) => SameEnd(r, domain, p, q, m, n, Raised(error));
    case Call(d, _, _) =>
      assert NextAction(q.program, g).domain == d;
      SameClaim(domain, p, q, m.disk, n.disk, d);
    case _ =>
  }

  lemma {:induction false} SameHandled(r: Renaming, domain: string, p: Process, q: Process, m: Machine, n: Machine)
    requires Follows(r, domain, p, q) && Corresponds(r, domain, p, q, m, n) && m.phase.Completing?
    requires WellFormed(p, m) && WellFormed(q, n)
    ensures Corresponds(r, domain, p, q, HandleCompletion(p, m), HandleCompletion(q, n))
  {
    hide SameVersions, Answered, Covers, Moved, Proper, Renames, End, SameRecords;
    var f, g := m.stack.frame, n.stack.frame;
    SameNextAction(r, p, q, f, g);
    assert Called(p, m.stack.caller.frame, f);
    SamePrune(r, m.disk, n.disk, f.self.value);
    SameEnd(r, domain, p, q,
      m.(disk := Prune(m.disk, f.self.value)), n.(disk := Prune(n.disk, g.self.value)),
      Returned(NextAction(p.program, f).value));
  }

  // The renamed code takes each step as the old code does.
  lemma {:induction false} SameStep(r: Renaming, domain: string, p: Process, q: Process, m: Machine, n: Machine)
    requires Follows(r, domain, p, q) && Corresponds(r, domain, p, q, m, n)
    requires WellFormed(p, m) && WellFormed(q, n)
    ensures Corresponds(r, domain, p, q, Step(p, m), Step(q, n))
  {
    hide Follows, Enter, Advanced, HandleCompletion, SameStack, SameRecords, SameVersions;
    match m.phase
    case Finished(_) =>
    case Completing => SameHandled(r, domain, p, q, m, n);
    case Entering => SameEntering(r, domain, p, q, m, n);
    case Running => SameAdvance(r, domain, p, q, m, n);
  }

  lemma {:induction false} SameRun(
    r: Renaming, domain: string, p: Process, q: Process, m: Machine, n: Machine, steps: nat)
    requires Follows(r, domain, p, q) && Corresponds(r, domain, p, q, m, n)
    requires WellFormed(p, m) && WellFormed(q, n)
    ensures Corresponds(r, domain, p, q, Run(p, m, steps), Run(q, n, steps))
  {
    hide Step, Follows, Corresponds;
    if steps > 0 {
      SameRun(r, domain, p, q, m, n, steps - 1);
      SameStep(r, domain, p, q, Run(p, m, steps - 1), Run(q, n, steps - 1));
    }
  }

  // ---- Resuming a corresponding store -------------------------------------------------

  ghost predicate SameDisks(r: Renaming, domain: string, p: Process, q: Process, a: Disk, b: Disk) {
    SameRecords(r, a.records, b.records) && SameVersions(domain, p, q, a.versions, b.versions)
  }

  lemma {:induction false} SameBegin(r: Renaming, domain: string, p: Process, q: Process, a: Disk, b: Disk)
    requires SameDisks(r, domain, p, q, a, b)
    ensures Corresponds(r, domain, p, q, Begin(a), Begin(b))
  {
  }

  lemma {:induction false} SameEmpty(r: Renaming, domain: string, p: Process, q: Process)
    ensures SameDisks(r, domain, p, q, EMPTY, EMPTY)
  {
  }

  // At every step the new code is where the old code would be. A call it is about to make
  // is the image of the old one, and is replayed exactly if the old one would have been.
  lemma {:induction false} SameCallsReplayed(
    r: Renaming, domain: string, p: Process, q: Process, a: Disk, b: Disk, steps: nat)
    requires Follows(r, domain, p, q) && SameDisks(r, domain, p, q, a, b)
    ensures var m, n := Run(p, Begin(a), steps), Run(q, Begin(b), steps);
      && n.phase == m.phase
      && (m.phase.Entering? ==>
            var former := CallId(m.stack.frame, NextAction(p.program, m.stack.frame));
            var renamed := CallId(n.stack.frame, NextAction(q.program, n.stack.frame));
            renamed == Moved(r, former) && (IsCompleted(n.disk, renamed) <==> IsCompleted(m.disk, former)))
  {
    hide Proper, SameVersions, Covers, Moved, Renames;
    SameBegin(r, domain, p, q, a, b);
    SameRun(r, domain, p, q, Begin(a), Begin(b), steps);
    var m, n := Run(p, Begin(a), steps), Run(q, Begin(b), steps);
    if m.phase.Entering? {
      var f, g := m.stack.frame, n.stack.frame;
      SameNextAction(r, p, q, f, g);
      SameCallId(r, f, g, NextAction(p.program, f), NextAction(q.program, g));
      var id := CallId(f, NextAction(p.program, f));
      assert SameRecord(m.disk.records, id, n.disk.records, Moved(r, id));
    }
  }

  // The old code pruning what the new code prunes.
  function BackProcess(r: Renaming, p: Process, q: Process): Process {
    Process(p.program, p.version, id => q.prunes(Moved(r, id)))
  }

  lemma {:induction false} SameOtherPruning(
    domain: string, p: Process, q: Process, p': Process, q': Process, a: Versions, b: Versions)
    requires SameVersions(domain, p, q, a, b) && p'.version == p.version && q'.version == q.version
    ensures SameVersions(domain, p', q', a, b)
  {
    forall d ensures SameVersion(domain, p', q', a, b, d) {
      assert SameVersion(domain, p, q, a, b, d);
    }
  }

  // ---- What renamed code means --------------------------------------------------------

  // Renamed code ends every call as the old code ends the call it was.
  lemma {:induction false} RenamedMeansTheSame(
    r: Renaming, p: Program, q: Program, f: Frame, g: Frame, gas: nat)
    requires Proper(r) && Renames(r, p, q) && SameFrame(r, f, g)
    ensures Ideal(q, g, gas) == Ideal(p, f, gas)
    decreases gas
  {
    hide Proper, Renames, SameFrame, SameAction, Answered, Noted, FreshFrame, Covers, Moved;
    if gas > 0 {
      var a, b := NextAction(p, f), NextAction(q, g);
      RenamedAction(r, p, q, f, g);
      if a.Call? {
        var id := CallId(f, a);
        SameCallId(r, f, g, a, b);
        SameFresh(r, id, map[]);
        RenamedMeansTheSame(r, p, q, FreshFrame(Some(id), map[]), FreshFrame(Some(Moved(r, id)), map[]), gas - 1);
        var called := IdealCall(p, id, gas - 1);
        if called.Some? {
          SameAnswer(r, f, g, a, b, called.value.outcome);
          var outcome := called.value.outcome;
          RenamedMeansTheSame(r, p, q, Answered(f, a, outcome), Answered(g, b, outcome), gas - 1);
        }
      } else if a.SetMetadata? || a.GetMetadata? {
        SameNote(r, f, g, a);
        RenamedMeansTheSame(r, p, q, Noted(f, a), Noted(g, a), gas - 1);
      }
    }
  }

  lemma {:induction false} RenamedAction(r: Renaming, p: Program, q: Program, f: Frame, g: Frame)
    requires Renames(r, p, q) && SameFrame(r, f, g)
    ensures SameAction(r, NextAction(p, f), NextAction(q, g))
    ensures !NextAction(p, f).Call? ==> NextAction(q, g) == NextAction(p, f)
    ensures NextAction(p, f).Call? <==> NextAction(q, g).Call?
    ensures f.metadata == g.metadata
  {
  }

  lemma {:induction false} RenamedCallMeansTheSame(r: Renaming, p: Program, q: Program, id: ExecutionId, done: Done)
    requires Proper(r) && Renames(r, p, q) && Covers(r, id) && CallMeans(p, id, done)
    ensures CallMeans(q, Moved(r, id), done)
  {
    hide Proper, Renames, Covers, Moved, FreshFrame, Ideal;
    var gas: nat :| Ideal(p, FreshFrame(Some(id), map[]), gas) == Some(done);
    SameFresh(r, id, map[]);
    RenamedMeansTheSame(r, p, q, FreshFrame(Some(id), map[]), FreshFrame(Some(Moved(r, id)), map[]), gas);
  }

  // ---- What a migration leaves of a store ---------------------------------------------

  // The renaming does to each call what the plan does to its surviving record.
  ghost predicate Agrees(r: Renaming, c: Context) {
    forall x :: x in c.recorded && Survives(c, x) ==>
      KeyOf(x) in r.covers && r.rename(KeyOf(x)) == KeyOf(ImageId(c, x))
  }

  // Said on the rules: the renaming gives each call that is not dropped the name, and the
  // digest of the arguments, its record goes on under.
  lemma {:induction false} AgreesMeans(r: Renaming, c: Context)
    requires OwnIdentities(c) && Accepts(c)
    ensures Agrees(r, c) <==> forall x, f :: Becomes(c, x, f) ==>
      && KeyOf(x) in r.covers
      && r.rename(KeyOf(x)) == Key(x.domain, f.id.name, f.arguments.digest)
  {
    hide Accepts, Survives, ImageId, ImageArguments;
    forall x, f | Becomes(c, x, f)
      ensures x in c.recorded && Survives(c, x) && KeyOf(ImageId(c, x)) == Key(x.domain, f.id.name, f.arguments.digest)
    {
      BecomesIsImage(c, x, f);
      ImagesHaveIds(c, x);
      BecomesKey(c, x, f);
    }
    forall x | x in c.recorded && Survives(c, x)
      ensures Becomes(c, x, Image(c, c.recorded[x]))
    {
      ImageRecordBecomes(c, x);
    }
    hide Becomes, Image;
    if forall x, f :: Becomes(c, x, f) ==>
      KeyOf(x) in r.covers && r.rename(KeyOf(x)) == Key(x.domain, f.id.name, f.arguments.digest)
    {
      forall x | x in c.recorded && Survives(c, x)
        ensures KeyOf(x) in r.covers && r.rename(KeyOf(x)) == KeyOf(ImageId(c, x))
      {
        assert Becomes(c, x, Image(c, c.recorded[x]));
      }
    }
  }

  lemma {:induction false} BecomesKey(c: Context, x: ExecutionId, f: Execution)
    requires Becomes(c, x, f)
    ensures KeyOf(f.id) == Key(x.domain, f.id.name, f.arguments.digest)
  {
  }

  ghost predicate DropsNothing(c: Context) {
    forall x :: x in c.recorded ==> !DropsCall(c, x)
  }

  lemma {:induction false} ImageIsMoved(r: Renaming, c: Context, x: ExecutionId)
    requires Agrees(r, c) && ParentsKnown(c) && x in c.recorded && Survives(c, x)
    ensures Covers(r, x) && ImageId(c, x) == Moved(r, x)
  {
    if x.parent.Some? { ImageIsMoved(r, c, x.parent.value); }
  }

  lemma {:induction false} AllSurvive(c: Context, x: ExecutionId)
    requires DropsNothing(c) && ParentsKnown(c) && x in c.recorded
    ensures Survives(c, x)
  {
    if x.parent.Some? { AllSurvive(c, x.parent.value); }
  }

  ghost function Migrated(c: Context, versions: Versions): Disk
    requires Accepts(c)
  {
    Disk(Rebuilt(c), versions[c.plan.domain := c.plan.targetVersion])
  }

  // A record that is true to the old code is, carried over, true to the renamed code. What
  // was dropped is simply run again.
  lemma {:induction false} ImageIsTrue(r: Renaming, p: Process, q: Process, c: Context, x: ExecutionId)
    requires Proper(r) && Renames(r, p.program, q.program) && Agrees(r, c)
    requires Accepts(c) && x in c.recorded && Survives(c, x)
    requires c.recorded[x].id == x && TrueRecord(p.program, c.recorded[x])
    ensures TrueRecord(q.program, Image(c, c.recorded[x]))
  {
    hide Proper, Renames, CallMeans, ImageArguments, Agrees;
    var e := c.recorded[x];
    ImageIsMoved(r, c, x);
    if e.status == Completed {
      RenamedCallMeansTheSame(r, p.program, q.program, x, Done(Returned(e.result.value), e.metadata));
    }
  }

  lemma {:induction false} MigratedIsTrue(r: Renaming, p: Process, q: Process, c: Context)
    requires Proper(r) && Renames(r, p.program, q.program) && Agrees(r, c) && Accepts(c)
    requires WellKept(c.recorded) && forall x :: x in c.recorded ==> TrueRecord(p.program, c.recorded[x])
    ensures forall y :: y in Rebuilt(c) ==> Rebuilt(c)[y].id == y && TrueRecord(q.program, Rebuilt(c)[y])
  {
    hide Proper, Renames, TrueRecord, Agrees, Accepts, Rebuilt, Survives, ImageArguments, ImageId;
    RebuiltIsWellKept(c);
    forall y | y in Rebuilt(c) ensures Rebuilt(c)[y].id == y && TrueRecord(q.program, Rebuilt(c)[y]) {
      var x :| x in c.recorded && Survives(c, x) && y == ImageId(c, x);
      ImageIsTrue(r, p, q, c, x);
    }
  }

  lemma {:induction false} ImageKeepsPlace(c: Context, x: ExecutionId)
    ensures ImageId(c, x).domain == x.domain
    ensures ImageId(c, x).parent == (if x.parent.None? then None else Some(ImageId(c, x.parent.value)))
  {
  }

  lemma {:induction false} SurvivorsParent(c: Context, x: ExecutionId)
    requires Accepts(c) && x in c.recorded && Survives(c, x) && x.parent.Some?
    ensures x.parent.value in c.recorded && Survives(c, x.parent.value)
  {
  }

  lemma {:induction false} MigratedIsClosed(c: Context, y: ExecutionId) returns (x: ExecutionId)
    requires Accepts(c) && y in Rebuilt(c)
    ensures x in c.recorded && x.domain == y.domain
    ensures y.parent.Some? ==> y.parent.value in Rebuilt(c)
  {
    hide Rebuilt, Accepts, Survives, ImageId;
    x :| x in c.recorded && Survives(c, x) && y == ImageId(c, x);
    ImageKeepsPlace(c, x);
    if x.parent.Some? { SurvivorsParent(c, x); }
  }

  lemma {:induction false} MigratedIsValid(c: Context, versions: Versions)
    requires Accepts(c) && ValidDisk(Disk(c.recorded, versions))
    ensures ValidDisk(Migrated(c, versions))
  {
    hide Accepts, Rebuilt, ValidExecution;
    var disk := Disk(c.recorded, versions);
    assert WellKept(c.recorded) by {
      assert forall x :: x in c.recorded ==> disk.records[x].id == x && ValidExecution(disk.records[x]);
    }
    RebuiltIsWellKept(c);
    var after := Migrated(c, versions);
    forall y | y in after.records
      ensures y.domain in after.versions && (y.parent.Some? ==> y.parent.value in after.records)
    {
      var x := MigratedIsClosed(c, y);
      assert x in disk.records;
    }
  }

  // A migration keeps a store trusted, by the renamed code at its version, whatever it
  // drops.
  lemma {:induction false} MigrationKeepsTrust(r: Renaming, p: Process, q: Process, c: Context, versions: Versions)
    requires RunsRenamed(r, c.plan.domain, p, q) && q.version(c.plan.domain) == c.plan.targetVersion
    requires Agrees(r, c) && Accepts(c) && Trusted(p, Disk(c.recorded, versions))
    ensures Trusted(q, Migrated(c, versions))
  {
    hide Proper, Renames, TrueRecord, Agrees, Accepts, Rebuilt, ValidDisk;
    var disk := Disk(c.recorded, versions);
    assert WellKept(c.recorded) by { ValidIsWellKept(disk); }
    assert forall x :: x in c.recorded ==> TrueRecord(p.program, disk.records[x]);
    MigratedIsTrue(r, p, q, c);
    MigratedIsValid(c, versions);
  }

  lemma {:induction false} ValidIsWellKept(disk: Disk)
    requires ValidDisk(disk)
    ensures WellKept(disk.records)
  {
  }

  lemma {:induction false} MigratedRecordsCorrespond(r: Renaming, c: Context)
    requires Proper(r) && Agrees(r, c) && DropsNothing(c) && Accepts(c)
    ensures SameRecords(r, c.recorded, Rebuilt(c))
  {
    assert ParentsKnown(c);
    hide ImageId, ImageArguments, Survives, Agrees, DropsNothing, ParentsKnown, Proper, Covers, Moved, Accepts, Rebuilt;
    var migrated := Rebuilt(c);
    forall x | Covers(r, x) ensures SameRecord(c.recorded, x, migrated, Moved(r, x)) {
      if x in c.recorded {
        AllSurvive(c, x);
        ImageIsMoved(r, c, x);
      }
      if Moved(r, x) in migrated {
        var y :| y in c.recorded && Survives(c, y) && Moved(r, x) == ImageId(c, y);
        ImageIsMoved(r, c, y);
        MovedIsInjective(r, x, y);
      }
    }
  }

  lemma {:induction false} MigratedStoreCorresponds(r: Renaming, p: Process, q: Process, c: Context, versions: Versions)
    requires Proper(r) && Agrees(r, c) && DropsNothing(c) && Accepts(c)
    requires c.plan.domain in versions && versions[c.plan.domain] == p.version(c.plan.domain)
    requires q.version(c.plan.domain) == c.plan.targetVersion
    ensures SameDisks(r, c.plan.domain, p, q, Disk(c.recorded, versions), Migrated(c, versions))
  {
    hide Agrees, DropsNothing, SameRecords, Rebuilt, Accepts;
    MigratedRecordsCorrespond(r, c);
    var after := Migrated(c, versions).versions;
    forall d ensures SameVersion(c.plan.domain, p, q, versions, after, d) {
    }
  }

  // ---- One renaming after another -----------------------------------------------------

  ghost function Compose(first: Renaming, second: Renaming): Renaming {
    Renaming(
      k => second.rename(first.rename(k)),
      iset k | k in first.covers && first.rename(k) in second.covers)
  }

  ghost const UNCHANGED := Renaming(k => k, iset k: Key | true)

  lemma {:induction false} UnchangedMoves(x: ExecutionId)
    ensures Covers(UNCHANGED, x) && Moved(UNCHANGED, x) == x
  {
    if x.parent.Some? { UnchangedMoves(x.parent.value); }
  }

  lemma {:induction false} ComposeMoves(first: Renaming, second: Renaming, x: ExecutionId)
    requires Proper(first) && Covers(Compose(first, second), x)
    ensures Covers(first, x) && Covers(second, Moved(first, x))
    ensures Moved(Compose(first, second), x) == Moved(second, Moved(first, x))
  {
    assert KeyOf(Moved(first, x)) == first.rename(KeyOf(x));
    if x.parent.Some? { ComposeMoves(first, second, x.parent.value); }
  }

  lemma {:induction false} ComposeRuns(
    first: Renaming, second: Renaming, domain: string, p: Process, q: Process, s: Process)
    requires RunsRenamed(first, domain, p, q) && RunsRenamed(second, domain, q, s)
    ensures RunsRenamed(Compose(first, second), domain, p, s)
  {
    hide Covers, Moved;
    var both := Compose(first, second);
    assert Proper(both);
    forall self, history | CoversParent(both, self)
      ensures SameAction(both, p.program(self, history), s.program(MovedParent(both, self), history))
    {
      if self.Some? { ComposeMoves(first, second, self.value); }
      assert SameAction(first, p.program(self, history), q.program(MovedParent(first, self), history));
      assert SameAction(second, q.program(MovedParent(first, self), history),
          s.program(MovedParent(second, MovedParent(first, self)), history));
    }
  }

  lemma {:induction false} ComposeDisks(
    first: Renaming, second: Renaming, domain: string, p: Process, q: Process, s: Process, a: Disk, b: Disk, c: Disk)
    requires Proper(first)
    requires SameDisks(first, domain, p, q, a, b) && SameDisks(second, domain, q, s, b, c)
    ensures SameDisks(Compose(first, second), domain, p, s, a, c)
  {
    hide Covers, Moved, Proper;
    var both := Compose(first, second);
    forall x | Covers(both, x) ensures SameRecord(a.records, x, c.records, Moved(both, x)) {
      ComposeMoves(first, second, x);
      assert SameRecord(a.records, x, b.records, Moved(first, x));
      assert SameRecord(b.records, Moved(first, x), c.records, Moved(second, Moved(first, x)));
    }
    forall d ensures SameVersion(domain, p, s, a.versions, c.versions, d) {
      assert SameVersion(domain, p, q, a.versions, b.versions, d);
      assert SameVersion(domain, q, s, b.versions, c.versions, d);
    }
  }

  lemma {:induction false} SameItself(domain: string, p: Process, disk: Disk)
    requires domain in disk.versions ==> disk.versions[domain] == p.version(domain)
    ensures RunsRenamed(UNCHANGED, domain, p, p) && SameDisks(UNCHANGED, domain, p, p, disk, disk)
  {
    forall x ensures Covers(UNCHANGED, x) && Moved(UNCHANGED, x) == x { UnchangedMoves(x); }
    forall self, history
      ensures SameAction(UNCHANGED, p.program(self, history), p.program(MovedParent(UNCHANGED, self), history))
    {
      if self.Some? { UnchangedMoves(self.value); }
    }
  }

  // ---- A transition without rules -----------------------------------------------------

  lemma {:induction false} NoRulesKeepIdentities(c: Context, x: ExecutionId)
    requires c.plan.rules == map[] && x in c.recorded && ParentsKnown(c)
    requires forall y :: y in c.recorded ==> c.recorded[y].id == y && c.recorded[y].arguments.digest == y.digest
    ensures Survives(c, x) && ImageId(c, x) == x && NewArguments(c.plan, c.canonicalize, c.recorded[x]).Ok?
  {
    if x.parent.Some? { NoRulesKeepIdentities(c, x.parent.value); }
  }

  // A transition without rules is always accepted and keeps every record.
  lemma {:induction false} NoRulesChangeNothing(c: Context)
    requires c.plan.rules == map[] && ParentsKnown(c)
    requires forall y :: y in c.recorded ==> c.recorded[y].id == y && c.recorded[y].arguments.digest == y.digest
    ensures Accepts(c) && DropsNothing(c) && Agrees(UNCHANGED, c)
    ensures forall x :: x in c.recorded ==> Image(c, c.recorded[x]) == c.recorded[x]
  {
    hide ImageId, Survives, NewArguments;
    forall x | x in c.recorded
      ensures Survives(c, x) && ImageId(c, x) == x && NewArguments(c.plan, c.canonicalize, c.recorded[x]).Ok?
    {
      NoRulesKeepIdentities(c, x);
    }
    forall x | x in c.recorded ensures Image(c, c.recorded[x]) == c.recorded[x] {
      NoRulesKeepArguments(c, x);
    }
  }

  lemma {:induction false} NoRulesKeepArguments(c: Context, x: ExecutionId)
    requires c.plan.rules == map[] && x in c.recorded && c.recorded[x].id == x
    ensures ImageArguments(c, x) == Some(c.recorded[x].arguments)
  {
  }
}
