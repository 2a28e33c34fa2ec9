// Migrating one session of the file store: read out of the document, migrated, and put
// back in its place.
module FileMigration {
  import opened Wrappers
  import opened Identity
  import opened PathCodec
  import opened PathOrder
  import opened Enumeration
  import opened Migration
  import opened Journeys
  import opened Rebuilding
  import opened MigrationChain
  import opened FileDocument

  // Any migrator; like every construction, its results are consistent.
  type Migrator = StoredSession -> Result<StoredSession, MigrationError>

  ghost predicate Constructed(s: StoredSession) {
    && UniqueIds(s.executions) && Covered(s.versions, s.executions)
    && forall e :: e in s.executions ==> ValidId(e.id) && ValidExecution(e)
  }

  ghost predicate Constructs(migrator: Migrator) {
    forall s :: Constructed(s) && migrator(s).Ok? ==> Constructed(migrator(s).value)
  }

  // The part and the session hold the same versions and the same executions.
  ghost predicate Same(part: SessionPart, s: StoredSession) {
    && part.versions == s.versions
    && (forall e :: e in s.executions ==> PathOf(e.id) in part.executions && part.executions[PathOf(e.id)] == e)
    && (forall p :: p in part.executions ==> part.executions[p] in s.executions)
  }

  // A record in whose chain a domain has no version.
  ghost predicate Uncovered(part: SessionPart, p: string) {
    p in part.executions && !(DomainsIn(part.executions[p].id) <= part.versions.Keys)
  }

  // A session cannot be read for migration if it has claimed no domain, or if a domain of
  // some chain has no version.
  ghost function ReadRefusal(part: SessionPart): Option<MigrationError> {
    if part.versions == map[] then Some(NoVersion)
    else if exists p :: Uncovered(part, p) then Some(UncoveredDomain)
    else None
  }

  method Read(document: OpenDocument, session: string) returns (r: Result<StoredSession, MigrationError>)
    requires StoredAtPaths(SessionOf(document.Value(), session).executions)
    ensures r.Ok? ==>
      && Constructed(r.value) && Same(SessionOf(document.Value(), session), r.value)
      && ByAscendingPath(r.value.executions)
    ensures r == Err(NoVersion) <==> SessionOf(document.Value(), session).versions == map[]
    ensures r.Err? && r.error != NoVersion ==>
      r.error == UncoveredDomain && exists p :: Uncovered(SessionOf(document.Value(), session), p)
    ensures ReadRefusal(SessionOf(document.Value(), session)) ==
      match r
      case Ok(_) => None
      case Err(error) => Some(error)
  {
    hide PathOf, ValidId, Less, Ascending;
    var part := if session in document.sessions then document.sessions[session] else NO_SESSION;
    if part.versions == map[] {
      return Err(NoVersion);
    }
    var paths := Sort(part.executions.Keys);
    ListedValues(part.executions, paths);
    var executions := Values(part.executions, paths);
    r := NewSession(part.versions, executions);
    if r.Err? {
      ghost var e :| e in executions && !(DomainsIn(e.id) <= part.versions.Keys);
      assert Uncovered(part, PathOf(e.id));
    } else {
      forall p ensures !Uncovered(part, p) {
        assert p in part.executions ==> part.executions[p] in executions;
      }
    }
  }

  lemma {:induction false} ListedValues(executions: map<string, Execution>, paths: seq<string>)
    requires StoredAtPaths(executions) && IsSorting(paths, executions.Keys)
    ensures var values := Values(executions, paths);
      && UniqueIds(values) && ByAscendingPath(values)
      && (forall e :: e in values ==>
            && ValidId(e.id) && ValidExecution(e)
            && PathOf(e.id) in executions && executions[PathOf(e.id)] == e)
      && (forall p :: p in executions ==> executions[p] in values)
  {
    hide PathOf, ValidId, Less, Ascending;
    ValuesAscend(executions, paths);
    var values := Values(executions, paths);
    forall i, j | 0 <= i < j < |values| ensures values[i].id != values[j].id {
      LessIrreflexive(PathOf(values[i].id));
    }
    forall e | e in values
      ensures ValidId(e.id) && ValidExecution(e) && PathOf(e.id) in executions && executions[PathOf(e.id)] == e
    {
      var i :| 0 <= i < |values| && values[i] == e;
      assert paths[i] in paths;
    }
    forall p | p in executions ensures executions[p] in values {
      var i :| 0 <= i < |paths| && paths[i] == p;
      assert values[i] == executions[p];
    }
  }

  // Replaces the session in the document with what the migrator makes of it, whole and
  // alone. A refusal is that of the reading or of the migrator, and leaves the document as
  // it was.
  method Run(document: OpenDocument, session: string, migrator: Migrator)
    returns (refusal: Option<MigrationError>, ghost source: StoredSession)
    requires StoredAtPaths(SessionOf(document.Value(), session).executions) && Constructs(migrator)
    modifies document`sessions
    ensures refusal.Some? ==> document.Value() == old(document.Value())
    ensures ReadRefusal(SessionOf(old(document.Value()), session)).Some? ==>
      refusal == ReadRefusal(SessionOf(old(document.Value()), session))
    ensures ReadRefusal(SessionOf(old(document.Value()), session)).None? ==>
      && Constructed(source) && Same(SessionOf(old(document.Value()), session), source)
      && refusal == if migrator(source).Ok? then None else Some(migrator(source).error)
    ensures refusal.None? ==>
      && Constructed(migrator(source).value)
      && Same(SessionOf(document.Value(), session), migrator(source).value)
      && StoredAtPaths(SessionOf(document.Value(), session).executions)
    ensures forall s :: s != session ==> SessionOf(document.Value(), s) == SessionOf(old(document.Value()), s)
  {
    hide PathOf, ValidId, Same, StoredAtPaths, Constructed, ReadRefusal;
    var read := Read(document, session);
    source := StoredSession(map[], []);
    if read.Err? {
      return Some(read.error), source;
    }
    source := read.value;
    var replacement := migrator(read.value);
    if replacement.Err? {
      return Some(replacement.error), source;
    }
    assert Constructed(replacement.value) by { MigratorConstructs(migrator, source); }
    var executions := PutByPath(replacement.value);
    document.sessions := document.sessions[session := SessionPart(replacement.value.versions, executions)];
    return None, source;
  }

  lemma {:induction false} MigratorConstructs(migrator: Migrator, s: StoredSession)
    requires Constructs(migrator) && Constructed(s) && migrator(s).Ok?
    ensures Constructed(migrator(s).value)
  {
  }

  method PutByPath(s: StoredSession) returns (executions: map<string, Execution>)
    requires Constructed(s)
    ensures Same(SessionPart(s.versions, executions), s) && StoredAtPaths(executions)
  {
    hide PathOf, ValidId;
    executions := map[];
    for i := 0 to |s.executions|
      invariant StoredAtPaths(executions)
      invariant forall k :: 0 <= k < i ==>
        PathOf(s.executions[k].id) in executions && executions[PathOf(s.executions[k].id)] == s.executions[k]
      invariant forall p :: p in executions ==> executions[p] in s.executions[..i]
    {
      var path := ExecutionIdToPath(s.executions[i].id);
      forall k | 0 <= k < i ensures PathOf(s.executions[k].id) != path {
        assert s.executions[k] in s.executions && s.executions[i] in s.executions;
        if PathOf(s.executions[k].id) == path { PathsAreDistinct(s.executions[k].id, s.executions[i].id); }
      }
      assert s.executions[i] in s.executions;
      executions := executions[path := s.executions[i]];
    }
  }

  // ---- Migrating along a chain constructs -----------------------------------------------

  // Names and digests are not empty.
  ghost predicate Named(plans: Plans, canonicalize: Canonicalizer) {
    && (forall v, name :: v in plans && name in plans[v].rules && plans[v].rules[name].Remap? ==>
          plans[v].rules[name].target.name != "")
    && (forall arguments :: canonicalize(arguments).Some? ==> canonicalize(arguments).value.digest != "")
  }

  // Valid records, every domain of every chain among the given ones.
  ghost predicate AllValid(records: Records, domains: set<string>) {
    forall x :: x in records ==> ValidId(x) && DomainsIn(x) <= domains
  }

  lemma {:induction false} ImageIsValid(plans: Plans, canonicalize: Canonicalizer, stop: Stop, x: ExecutionId)
    requires Named(plans, canonicalize) && stop.version in plans
    requires Accepts(ContextAt(plans, canonicalize, stop))
    requires WellKept(stop.records) && x in stop.records && ValidId(x)
    requires Survives(ContextAt(plans, canonicalize, stop), x)
    ensures ValidId(ImageId(ContextAt(plans, canonicalize, stop), x))
  {
    hide Accepts, IsDomainId;
    var c := ContextAt(plans, canonicalize, stop);
    if x.parent.Some? {
      assert x.parent.value in c.recorded by { assert ParentsAreThere(c, x) by { AcceptedParents(c, x); } }
      ImageIsValid(plans, canonicalize, stop, x.parent.value);
    }
    SurvivorHasArguments(c, x);
    NameIsValid(plans, canonicalize, stop, x);
  }

  ghost predicate ParentsAreThere(c: Context, x: ExecutionId) {
    x.parent.Some? ==> x.parent.value in c.recorded
  }

  lemma {:induction false} AcceptedParents(c: Context, x: ExecutionId)
    requires Accepts(c) && x in c.recorded
    ensures ParentsAreThere(c, x)
  {
  }

  lemma {:induction false} NameIsValid(plans: Plans, canonicalize: Canonicalizer, stop: Stop, x: ExecutionId)
    requires Named(plans, canonicalize) && stop.version in plans
    requires x in stop.records && ValidFrame(x) && stop.records[x].id == x && ValidExecution(stop.records[x])
    requires ImageArguments(ContextAt(plans, canonicalize, stop), x).Some?
    ensures NewName(plans[stop.version], x) != ""
    ensures ImageArguments(ContextAt(plans, canonicalize, stop), x).value.digest != ""
  {
  }

  lemma {:induction false} JourneyIsValid(
    plans: Plans, canonicalize: Canonicalizer, from: Stop, n: nat, domains: set<string>)
    requires Named(plans, canonicalize) && WellKept(from.records) && AllValid(from.records, domains)
    requires Journey(plans, canonicalize, from, n).Some?
    ensures AllValid(Journey(plans, canonicalize, from, n).value.records, domains)
  {
    hide Accepts, Journey, ImageId, Survives, Rebuilt, WellKept, ValidId, Named;
    if n == 0 {
      NoTransitions(plans, canonicalize, from);
    } else {
      LastTransition(plans, canonicalize, from, n);
      JourneyIsValid(plans, canonicalize, from, n - 1, domains);
      JourneyKeeps(plans, canonicalize, from, n - 1);
      var stop := Journey(plans, canonicalize, from, n - 1).value;
      var c := ContextAt(plans, canonicalize, stop);
      forall y | y in Rebuilt(c) ensures ValidId(y) && DomainsIn(y) <= domains {
        var x :| x in c.recorded && Survives(c, x) && y == ImageId(c, x);
        ImageIsValid(plans, canonicalize, stop, x);
        ImageKeepsDomains(c, x);
      }
    }
  }

  // What a chain of transitions returns is constructed.
  lemma {:induction false} MigratesConstructs(
    domain: string, plans: Plans, canonicalize: Canonicalizer, source: StoredSession, migrated: StoredSession, n: nat)
    requires Named(plans, canonicalize) && Constructed(source)
    requires Migrates(domain, plans, canonicalize, source, migrated, n)
    ensures Constructed(migrated)
  {
    hide Journey, ValidId, ValidExecution, Named, ById;
    var from := StopOf(domain, source);
    assert WellKept(from.records) && AllValid(from.records, source.versions.Keys) by {
      forall x | x in from.records
        ensures ValidId(x) && DomainsIn(x) <= source.versions.Keys
        ensures from.records[x].id == x && ValidExecution(from.records[x])
      {
        assert from.records[x] in source.executions;
      }
    }
    JourneyIsValid(plans, canonicalize, from, n, source.versions.Keys);
    JourneyKeeps(plans, canonicalize, from, n);
    var records := ById(migrated.executions);
    forall e | e in migrated.executions
      ensures ValidId(e.id) && ValidExecution(e) && DomainsIn(e.id) <= migrated.versions.Keys
    {
      assert e.id in records && records[e.id] == e;
      assert source.versions.Keys <= migrated.versions.Keys;
    }
  }

  // So a migrator that follows a domain's transitions may be run on a document.
  lemma {:induction false} ChainConstructs(
    migrator: Migrator, domain: string, plans: Plans, canonicalize: Canonicalizer)
    requires Named(plans, canonicalize)
    requires forall s :: Constructed(s) && migrator(s).Ok? ==>
      exists n: nat :: Migrates(domain, plans, canonicalize, s, migrator(s).value, n)
    ensures Constructs(migrator)
  {
    hide Migrates, Named, Constructed;
    forall s | Constructed(s) && migrator(s).Ok? ensures Constructed(migrator(s).value) {
      var n: nat :| Migrates(domain, plans, canonicalize, s, migrator(s).value, n);
      MigratesConstructs(domain, plans, canonicalize, s, migrator(s).value, n);
    }
  }
}
