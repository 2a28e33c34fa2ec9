// Chains of domain-version transitions: registering them, and migrating a stored session
// along them.
module MigrationChain {
  import opened Wrappers
  import opened Canonical
  import opened Identity
  import opened Migration
  import opened Conversions
  import opened Rebuilding
  import opened Journeys

  // ---- Walking a version graph ----------------------------------------------------------

  // Each version has at most one direct successor.
  type Successors = map<string, string>

  function Walk(next: Successors, from: string, steps: nat): Option<string> {
    if steps == 0 then Some(from)
    else
      var before := Walk(next, from, steps - 1);
      if before.None? || before.value !in next then None else Some(next[before.value])
  }

  ghost predicate Reaches(next: Successors, from: string, steps: nat, to: string) {
    Walk(next, from, steps) == Some(to)
  }

  ghost predicate Acyclic(next: Successors) {
    forall v, n: nat :: n > 0 ==> !Reaches(next, v, n, v)
  }

  // None of the first `steps` versions of the walk is `avoided`.
  ghost predicate Misses(next: Successors, from: string, steps: nat, avoided: string) {
    steps > 0 ==> Walk(next, from, steps - 1) != Some(avoided) && Misses(next, from, steps - 1, avoided)
  }

  lemma {:induction false} WalkOn(next: Successors, from: string, a: nat, b: nat)
    requires Walk(next, from, a).Some?
    ensures Walk(next, from, a + b) == Walk(next, Walk(next, from, a).value, b)
  {
    if b > 0 { WalkOn(next, from, a, b - 1); }
  }

  lemma {:induction false} WalkEnds(next: Successors, from: string, a: nat, b: nat)
    requires Walk(next, from, a).None?
    ensures Walk(next, from, a + b).None?
  {
    if b > 0 { WalkEnds(next, from, a, b - 1); }
  }

  // A walk either misses a version or reaches it at some step.
  lemma {:induction false} MissesOrReaches(next: Successors, from: string, steps: nat, to: string) returns (i: nat)
    ensures Misses(next, from, steps, to) || (i < steps && Reaches(next, from, i, to) && Misses(next, from, i, to))
  {
    i := 0;
    if steps > 0 {
      i := MissesOrReaches(next, from, steps - 1, to);
      if Misses(next, from, steps - 1, to) { i := steps - 1; }
    }
  }

  // A new edge changes no walk that misses its source.
  lemma {:induction false} SameWalk(next: Successors, source: string, target: string, from: string, steps: nat)
    requires Misses(next, from, steps, source)
    ensures Walk(next[source := target], from, steps) == Walk(next, from, steps)
  {
    if steps > 0 { SameWalk(next, source, target, from, steps - 1); }
  }

  // Adding an edge keeps the graph acyclic, if the walk from its target misses its source.
  lemma {:induction false} EdgeKeepsAcyclic(next: Successors, source: string, target: string)
    requires Acyclic(next) && forall n: nat :: !Reaches(next, target, n, source)
    ensures Acyclic(next[source := target])
  {
    var after := next[source := target];
    forall v, n: nat | n > 0 ensures !Reaches(after, v, n, v) {
      NoNewCycle(next, source, target, v, n);
    }
  }

  lemma {:induction false} NoNewCycle(next: Successors, source: string, target: string, v: string, n: nat)
    requires Acyclic(next) && n > 0 && forall k: nat :: !Reaches(next, target, k, source)
    ensures !Reaches(next[source := target], v, n, v)
  {
    var after := next[source := target];
    if Reaches(after, v, n, v) {
      var i := MissesOrReaches(next, v, n, source);
      assert !Reaches(next, v, n, v);
      if Misses(next, v, n, source) {
        SameWalk(next, source, target, v, n);
      } else {
        // The cycle passes the source; seen from there, it goes on through the target.
        SameWalk(next, source, target, v, i);
        WalkOn(after, v, i, n);
        WalkOn(after, v, n, i);
        assert Walk(after, source, 0) == Some(source);
        assert Walk(after, source, 1) == Some(target);
        WalkOn(after, source, 1, n - 1);
        var j := MissesOrReaches(next, target, n - 1, source);
        assert !Reaches(next, target, j, source) && !Reaches(next, target, n - 1, source);
        SameWalk(next, source, target, target, n - 1);
      }
    }
  }

  // The walk made before an edge is registered: whether it would close a cycle.
  method ClosesCycle(next: Successors, source: string, target: string) returns (closes: bool)
    requires Acyclic(next)
    ensures closes <==> exists n: nat :: Reaches(next, target, n, source)
  {
    var version := target;
    ghost var n: nat := 0;
    ghost var left: set<string> := {};
    while true
      invariant Reaches(next, target, n, version)
      invariant Misses(next, target, n, source)
      invariant left <= next.Keys
      invariant forall v :: v in left ==> !Misses(next, target, n, v)
      decreases |next.Keys - left|
    {
      if version == source {
        return true;
      }
      if version !in next {
        forall k: nat ensures !Reaches(next, target, k, source) {
          NeverReached(next, target, n, k, source);
        }
        return false;
      }
      if version in left {
        var k := MissesOrReaches(next, target, n, version);
        WalkOn(next, target, k, n - k);
        assert Reaches(next, version, n - k, version);
      }
      assert next.Keys - (left + {version}) < next.Keys - left;
      FewerLeft(next.Keys, left, version);
      left := left + {version};
      n := n + 1;
      version := next[version];
    }
  }

  // A walk that missed the source and leaves the graph never reaches it.
  lemma {:induction false} NeverReached(next: Successors, from: string, n: nat, k: nat, source: string)
    requires Misses(next, from, n, source) && Walk(next, from, n).Some?
    requires Walk(next, from, n).value !in next && Walk(next, from, n).value != source
    ensures !Reaches(next, from, k, source)
  {
    if k < n {
      MissesAt(next, from, n, k, source);
    } else if k > n {
      WalkEnds(next, from, n + 1, k - n - 1);
    }
  }

  lemma {:induction false} MissesAt(next: Successors, from: string, n: nat, k: nat, avoided: string)
    requires Misses(next, from, n, avoided) && k < n
    ensures !Reaches(next, from, k, avoided)
  {
    if k < n - 1 { MissesAt(next, from, n - 1, k, avoided); }
  }

  lemma {:induction false} FewerLeft(all: set<string>, left: set<string>, v: string)
    requires v in all && v !in left
    ensures |all - (left + {v})| < |all - left|
  {
    assert all - left == (all - (left + {v})) + {v};
  }

  // ---- Stored sessions ------------------------------------------------------------------

  datatype StoredSession = StoredSession(versions: map<string, string>, executions: seq<Execution>)

  function DomainsIn(id: ExecutionId): set<string> {
    {id.domain} + if id.parent.None? then {} else DomainsIn(id.parent.value)
  }

  // The call's own domain, and those of the calls it was made from.
  lemma {:induction false} DomainsInExactly(id: ExecutionId, domain: string)
    ensures domain in DomainsIn(id) <==>
      domain == id.domain || exists top :: Under(id, top) && domain == top.domain
  {
    if id.parent.Some? {
      DomainsInExactly(id.parent.value, domain);
      assert Under(id, id.parent.value);
      assert forall top :: Under(id.parent.value, top) ==> Under(id, top);
    }
  }

  ghost predicate Covered(versions: map<string, string>, executions: seq<Execution>) {
    forall e :: e in executions ==> DomainsIn(e.id) <= versions.Keys
  }

  method ChainDomains(id: ExecutionId) returns (domains: set<string>)
    ensures domains == DomainsIn(id)
  {
    domains := {};
    var current := Some(id);
    while current.Some?
      invariant domains + (if current.None? then {} else DomainsIn(current.value)) == DomainsIn(id)
      decreases current
    {
      domains := domains + {current.value.domain};
      current := current.value.parent;
    }
  }

  // Construction checks that identities are unique, then that every domain of every chain
  // has a version.
  method NewSession(versions: map<string, string>, executions: seq<Execution>)
    returns (r: Result<StoredSession, MigrationError>)
    ensures r.Ok? <==> UniqueIds(executions) && Covered(versions, executions)
    ensures r.Ok? ==> r.value == StoredSession(versions, executions)
    ensures r == Err(Collision) <==> !UniqueIds(executions)
    ensures r.Err? ==> r.error == Collision || r.error == UncoveredDomain
  {
    var seen: set<ExecutionId> := {};
    for i := 0 to |executions|
      invariant seen == set k | 0 <= k < i :: executions[k].id
      invariant forall j, k :: 0 <= j < k < i ==> executions[j].id != executions[k].id
    {
      if executions[i].id in seen {
        return Err(Collision);
      }
      seen := seen + {executions[i].id};
    }
    var named: set<string> := {};
    for i := 0 to |executions|
      invariant named <= versions.Keys <==> forall k :: 0 <= k < i ==> DomainsIn(executions[k].id) <= versions.Keys
    {
      var domains := ChainDomains(executions[i].id);
      named := named + domains;
    }
    if named - versions.Keys != {} {
      return Err(UncoveredDomain);
    }
    return Ok(StoredSession(versions, executions));
  }

  // ---- What a migration keeps -----------------------------------------------------------

  // A digest is the hash of the recorded bytes. Distinct bytes are taken to have distinct
  // hashes.
  type Hash = Json -> string

  ghost predicate Injective(hash: Hash) {
    forall a, b :: hash(a) == hash(b) ==> a == b
  }

  ghost predicate Hashed(hash: Hash, arguments: CanonicalArguments) {
    arguments.digest == hash(arguments.data)
  }

  ghost predicate HashesAll(hash: Hash, canonicalize: Canonicalizer) {
    forall a :: canonicalize(a).Some? ==> Hashed(hash, canonicalize(a).value)
  }

  // A session whose aggregates are consistent.
  ghost predicate SoundSession(hash: Hash, s: StoredSession) {
    && UniqueIds(s.executions)
    && Covered(s.versions, s.executions)
    && forall e :: e in s.executions ==> ValidExecution(e) && Hashed(hash, e.arguments)
  }

  ghost predicate ParentClosed(s: StoredSession) {
    forall e :: e in s.executions && e.id.parent.Some? ==>
      exists f :: f in s.executions && f.id == e.id.parent.value
  }

  // Every later record is an earlier one carried over.
  ghost predicate AllCarried(domain: string, before: seq<Execution>, after: seq<Execution>) {
    forall e :: e in after ==> exists f :: f in before && Carried(domain, f, e)
  }

  lemma {:induction false} ImageKeepsDomains(c: Context, id: ExecutionId)
    ensures DomainsIn(ImageId(c, id)) == DomainsIn(id)
  {
    if id.parent.Some? { ImageKeepsDomains(c, id.parent.value); }
  }

  lemma {:induction false} HashesAreCollisionFree(hash: Hash, s: StoredSession)
    requires Injective(hash) && SoundSession(hash, s)
    ensures CollisionFree(ById(s.executions))
  {
    var recorded := ById(s.executions);
    forall x, y | x in recorded && y in recorded && x.digest == y.digest
      ensures recorded[x].arguments == recorded[y].arguments
    {
      assert recorded[x] in s.executions && recorded[y] in s.executions;
    }
  }

  lemma {:induction false} NewArgumentsAreHashed(hash: Hash, plan: Plan, canonicalize: Canonicalizer, e: Execution)
    requires HashesAll(hash, canonicalize) && Hashed(hash, e.arguments)
    requires NewArguments(plan, canonicalize, e).Ok?
    ensures Hashed(hash, NewArguments(plan, canonicalize, e).value)
  {
    var rule := RuleFor(plan, e.id);
    if rule.Some? && rule.value.Remap? && rule.value.convert.Some? {
      var converted := rule.value.convert.value(Recorded(e, rule.value.source).value);
      assert Hashed(hash, canonicalize(converted.value).value);
    }
  }

  // One record of a rebuild: carried over from a source record, consistent and covered.
  ghost predicate SoundImage(hash: Hash, domain: string, s: StoredSession, e: Execution) {
    && ValidExecution(e) && Hashed(hash, e.arguments) && DomainsIn(e.id) <= s.versions.Keys
    && exists f :: f in s.executions && Carried(domain, f, e)
  }

  lemma {:induction false} ImageIsSound(hash: Hash, c: Context, s: StoredSession, x: ExecutionId)
    requires SoundSession(hash, s) && c.recorded == ById(s.executions) && HashesAll(hash, c.canonicalize)
    requires Accepts(c) && x in c.recorded && Survives(c, x)
    ensures SoundImage(hash, c.plan.domain, s, Image(c, c.recorded[x]))
  {
    var f := c.recorded[x];
    assert f in s.executions && f.id == x;
    SurvivorHasArguments(c, x);
    NewArgumentsAreHashed(hash, c.plan, c.canonicalize, f);
    ImageIsCarried(c, x);
    ImageKeepsDomains(c, x);
  }

  lemma {:induction false} ImagesAreSound(hash: Hash, c: Context, s: StoredSession, rebuilt: seq<Execution>)
    requires SoundSession(hash, s) && c.recorded == ById(s.executions) && HashesAll(hash, c.canonicalize)
    requires Accepts(c) && IsRebuild(c, rebuilt)
    ensures forall e :: e in rebuilt ==> SoundImage(hash, c.plan.domain, s, e)
  {
    hide Accepts, Image, SoundSession, SoundImage, HashesAll;
    forall e | e in rebuilt ensures SoundImage(hash, c.plan.domain, s, e) {
      var x :| x in c.recorded && Survives(c, x) && e == Image(c, c.recorded[x]);
      ImageIsSound(hash, c, s, x);
    }
  }

  lemma {:induction false} RebuildIsClosed(c: Context, rebuilt: seq<Execution>, versions: map<string, string>)
    requires IsRebuild(c, rebuilt)
    ensures UniqueIds(rebuilt) && ParentClosed(StoredSession(versions, rebuilt))
  {
    hide Image, Survives;
    forall e | e in rebuilt && e.id.parent.Some? ensures exists f :: f in rebuilt && f.id == e.id.parent.value {
      var i :| 0 <= i < |rebuilt| && rebuilt[i] == e;
      var j :| 0 <= j < i && Some(rebuilt[j].id) == rebuilt[i].id.parent;
      assert rebuilt[j] in rebuilt;
    }
  }

  // A rebuild of a sound session is sound at its new versions, closed under parents, and
  // carried over record by record.
  lemma {:induction false} RebuildIsSound(hash: Hash, c: Context, s: StoredSession, rebuilt: seq<Execution>)
    requires SoundSession(hash, s) && c.recorded == ById(s.executions) && HashesAll(hash, c.canonicalize)
    requires Accepts(c) && IsRebuild(c, rebuilt)
    ensures var after := StoredSession(s.versions[c.plan.domain := c.plan.targetVersion], rebuilt);
      SoundSession(hash, after) && ParentClosed(after)
    ensures AllCarried(c.plan.domain, s.executions, rebuilt)
  {
    ImagesAreSound(hash, c, s, rebuilt);
    var versions := s.versions[c.plan.domain := c.plan.targetVersion];
    RebuildIsClosed(c, rebuilt, versions);
    hide Accepts, IsRebuild, ParentClosed, ById, Carried, ValidExecution, Hashed, HashesAll, DomainsIn;
    assert Covered(versions, rebuilt) by {
      assert s.versions.Keys <= versions.Keys;
    }
    assert AllCarried(c.plan.domain, s.executions, rebuilt);
    hide Covered, AllCarried, UniqueIds;
  }

  // ---- One step, and a chain of steps ------------------------------------------------------

  // What the records of a session can be refused for.
  predicate IsRefusal(error: MigrationError) {
    || error == MissingParent || error == Ambiguous
    || error == WrongShape || error == ConversionFailed || error == Unconvertible
  }

  lemma {:induction false} RebuildRefusals(c: Context, error: MigrationError)
    requires Cause(c, error)
    ensures IsRefusal(error)
  {
    if error != MissingParent && error != Ambiguous {
      var x :| Refuses(c, x, error);
    }
  }

  lemma {:induction false} SoundOwnIdentities(hash: Hash, plan: Plan, canonicalize: Canonicalizer, source: StoredSession)
    requires SoundSession(hash, source)
    ensures OwnIdentities(Context(plan, canonicalize, ById(source.executions)))
  {
    RecordsOwnIdentities(plan, canonicalize, source.executions);
  }

  method MigrateStep(plan: Plan, canonicalize: Canonicalizer, source: StoredSession, ghost hash: Hash)
    returns (r: Result<StoredSession, MigrationError>)
    requires Injective(hash) && HashesAll(hash, canonicalize) && SoundSession(hash, source)
    ensures r.Ok? <==>
      && plan.domain in source.versions && source.versions[plan.domain] == plan.sourceVersion
      && Accepts(Context(plan, canonicalize, ById(source.executions)))
    ensures Accepts(Context(plan, canonicalize, ById(source.executions))) <==>
      Acceptable(Context(plan, canonicalize, ById(source.executions)))
    ensures r.Ok? ==> GoesOnAs(Context(plan, canonicalize, ById(source.executions)), r.value.executions)
    ensures r.Ok? ==>
      && r.value.versions == source.versions[plan.domain := plan.targetVersion]
      && SoundSession(hash, r.value) && ParentClosed(r.value)
      && IsRebuild(Context(plan, canonicalize, ById(source.executions)), r.value.executions)
      && ById(r.value.executions) == Rebuilt(Context(plan, canonicalize, ById(source.executions)))
      && AllCarried(plan.domain, source.executions, r.value.executions)
    ensures r.Err? ==>
      match r.error
      case NoVersion => plan.domain !in source.versions
      case WrongVersion => plan.domain in source.versions && source.versions[plan.domain] != plan.sourceVersion
      case error =>
        && Cause(Context(plan, canonicalize, ById(source.executions)), error)
        && Obstacle(Context(plan, canonicalize, ById(source.executions)), error)
        && IsRefusal(error)
  {
    SoundOwnIdentities(hash, plan, canonicalize, source);
    AcceptableMeans(Context(plan, canonicalize, ById(source.executions)));
    hide Acceptable, GoesOnAs, Obstacle, OwnIdentities, Accepts, IsRebuild, Cause, Injective, HashesAll, Hashed;
    hide AllCarried, ParentClosed, Covered, ValidExecution, ById, Rebuilt;
    if plan.domain !in source.versions {
      return Err(NoVersion);
    }
    if source.versions[plan.domain] != plan.sourceVersion {
      return Err(WrongVersion);
    }
    HashesAreCollisionFree(hash, source);
    var rebuilt := Rebuild(plan, canonicalize, source.executions);
    if rebuilt.Err? {
      RebuildRefusals(Context(plan, canonicalize, ById(source.executions)), rebuilt.error);
      return Err(rebuilt.error);
    }
    RebuildIsSound(hash, Context(plan, canonicalize, ById(source.executions)), source, rebuilt.value);
    RebuildIsRebuilt(Context(plan, canonicalize, ById(source.executions)), rebuilt.value);
    r := NewSession(source.versions[plan.domain := plan.targetVersion], rebuilt.value);
  }

  // After n steps from `from` the walk is at `version`, having left what was visited.
  ghost predicate OnPath(next: Successors, from: string, n: nat, version: string, visited: set<string>) {
    Reaches(next, from, n, version) && forall v :: v in visited ==> !Misses(next, from, n, v)
  }

  lemma {:induction false} PathStarts(next: Successors, from: string)
    ensures OnPath(next, from, 0, from, {})
  {
  }

  lemma {:induction false} PathGoesOn(next: Successors, from: string, n: nat, version: string, visited: set<string>)
    requires OnPath(next, from, n, version, visited) && version in next
    ensures OnPath(next, from, n + 1, next[version], visited + {version})
  {
    forall v | v in visited + {version} ensures !Misses(next, from, n + 1, v) {
    }
  }

  lemma {:induction false} NotVisited(next: Successors, from: string, n: nat, version: string, visited: set<string>)
    requires Acyclic(next) && OnPath(next, from, n, version, visited)
    ensures version !in visited && Reaches(next, from, n, version)
  {
    var k := MissesOrReaches(next, from, n, version);
    if k < n && Reaches(next, from, k, version) {
      WalkOn(next, from, k, n - k);
      assert !Reaches(next, version, n - k, version);
    }
  }

  lemma {:induction false} SetTwice(versions: map<string, string>, domain: string, a: string, b: string)
    ensures versions[domain := a][domain := b] == versions[domain := b]
  {
    assert versions[domain := a][domain := b].Keys == versions[domain := b].Keys;
  }

  function SuccessorsOf(plans: Plans): Successors {
    map v | v in plans :: plans[v].targetVersion
  }

  // The plans registered for one domain, each under the version it starts from.
  ghost predicate Registered(domain: string, plans: Plans) {
    && Acyclic(SuccessorsOf(plans))
    && forall v :: v in plans ==> plans[v].domain == domain && plans[v].sourceVersion == v
  }

  // The records of a session, at the version of the domain.
  ghost function StopOf(domain: string, session: StoredSession): Stop
    requires domain in session.versions && UniqueIds(session.executions)
  {
    Stop(session.versions[domain], ById(session.executions))
  }

  // The session is what n transitions make of the source: exactly the records they lead
  // to, at the version they lead to, and the versions of all other domains as they were.
  ghost predicate Migrates(
    domain: string, plans: Plans, canonicalize: Canonicalizer, source: StoredSession, migrated: StoredSession, n: nat)
  {
    && domain in source.versions && UniqueIds(source.executions)
    && domain in migrated.versions && UniqueIds(migrated.executions)
    && migrated.versions == source.versions[domain := migrated.versions[domain]]
    && Journey(plans, canonicalize, StopOf(domain, source), n) == Some(StopOf(domain, migrated))
  }

  // Why a migration stops after n transitions: no transition goes on from there, or the
  // next one has a cause to refuse the records.
  ghost predicate Halts(
    domain: string, plans: Plans, canonicalize: Canonicalizer, target: string, source: StoredSession, n: nat,
    error: MigrationError)
    requires domain in source.versions && UniqueIds(source.executions)
  {
    var stop := Journey(plans, canonicalize, StopOf(domain, source), n);
    && stop.Some? && stop.value.version != target
    && (if error == NoPath then stop.value.version !in plans
        else
          && stop.value.version in plans && IsRefusal(error)
          && Cause(ContextAt(plans, canonicalize, stop.value), error))
  }

  // How far a migration has come: after n transitions, at `version`, having left `visited`.
  datatype Path = Path(version: string, visited: set<string>, n: nat)

  // A session on its way, which has not passed the target.
  ghost predicate Underway(
    hash: Hash, domain: string, plans: Plans, canonicalize: Canonicalizer, target: string, source: StoredSession,
    migrated: StoredSession, path: Path)
  {
    && Migrates(domain, plans, canonicalize, source, migrated, path.n)
    && migrated.versions[domain] == path.version
    && OnPath(SuccessorsOf(plans), source.versions[domain], path.n, path.version, path.visited)
    && Misses(SuccessorsOf(plans), source.versions[domain], path.n, target)
    && SoundSession(hash, migrated)
    && (if path.n == 0 then migrated == source else ParentClosed(migrated))
  }

  lemma {:induction false} SetsOut(
    hash: Hash, domain: string, plans: Plans, canonicalize: Canonicalizer, target: string, source: StoredSession)
    requires SoundSession(hash, source) && domain in source.versions
    ensures Underway(hash, domain, plans, canonicalize, target, source, source, Path(source.versions[domain], {}, 0))
  {
    hide OnPath, Covered, ValidExecution, Hashed, ById;
    PathStarts(SuccessorsOf(plans), source.versions[domain]);
  }

  lemma {:induction false} NotBackUnderway(
    hash: Hash, domain: string, plans: Plans, canonicalize: Canonicalizer, target: string, source: StoredSession,
    migrated: StoredSession, path: Path)
    requires Registered(domain, plans)
    requires Underway(hash, domain, plans, canonicalize, target, source, migrated, path)
    ensures path.version !in path.visited
  {
    NotVisited(SuccessorsOf(plans), source.versions[domain], path.n, path.version, path.visited);
  }

  // Journeys walk the graph of versions.
  lemma {:induction false} JourneyWalks(plans: Plans, canonicalize: Canonicalizer, from: Stop, n: nat)
    requires Journey(plans, canonicalize, from, n).Some?
    ensures Reaches(SuccessorsOf(plans), from.version, n, Journey(plans, canonicalize, from, n).value.version)
  {
    hide Accepts, Rebuilt;
    if n > 0 { JourneyWalks(plans, canonicalize, from, n - 1); }
  }

  // A migration that halts before the target never arrives.
  lemma {:induction false} HaltedNeverArrives(
    domain: string, plans: Plans, canonicalize: Canonicalizer, target: string, source: StoredSession, n: nat,
    error: MigrationError)
    requires domain in source.versions && UniqueIds(source.executions)
    requires Halts(domain, plans, canonicalize, target, source, n, error)
    requires Misses(SuccessorsOf(plans), source.versions[domain], n, target)
    ensures forall k: nat :: !Arrives(plans, canonicalize, StopOf(domain, source), k, target)
  {
    hide Accepts, Cause, Journey, ById, Walk;
    var from := StopOf(domain, source);
    var stop := Journey(plans, canonicalize, from, n).value;
    if error != NoPath { CauseIsNotAccepted(ContextAt(plans, canonicalize, stop), error); }
    forall k: nat ensures !Arrives(plans, canonicalize, from, k, target) {
      if k > n {
        JourneyEnds(plans, canonicalize, from, n, k);
      } else if k < n && Journey(plans, canonicalize, from, k).Some? {
        JourneyWalks(plans, canonicalize, from, k);
        MissesAt(SuccessorsOf(plans), from.version, n, k, target);
      }
    }
  }

  lemma {:induction false} GoesFurther(
    domain: string, plans: Plans, canonicalize: Canonicalizer, source: StoredSession, migrated: StoredSession,
    further: StoredSession, n: nat)
    requires Migrates(domain, plans, canonicalize, source, migrated, n)
    requires migrated.versions[domain] in plans
    requires Accepts(ContextAt(plans, canonicalize, StopOf(domain, migrated)))
    requires UniqueIds(further.executions)
    requires further.versions == migrated.versions[domain := plans[migrated.versions[domain]].targetVersion]
    requires ById(further.executions) == Rebuilt(ContextAt(plans, canonicalize, StopOf(domain, migrated)))
    ensures Migrates(domain, plans, canonicalize, source, further, n + 1)
  {
    hide Accepts, Rebuilt, ById, UniqueIds;
    SetTwice(source.versions, domain, migrated.versions[domain], further.versions[domain]);
  }

  // One transition further.
  method MigrateFurther(
    domain: string, plans: Plans, canonicalize: Canonicalizer, migrated: StoredSession, version: string,
    ghost hash: Hash, ghost target: string, ghost source: StoredSession, ghost path: Path
  ) returns (r: Result<StoredSession, MigrationError>)
    requires Injective(hash) && HashesAll(hash, canonicalize)
    requires Registered(domain, plans) && version in plans && path.version == version && version != target
    requires Underway(hash, domain, plans, canonicalize, target, source, migrated, path)
    ensures r.Ok? ==>
      Underway(hash, domain, plans, canonicalize, target, source, r.value,
        Path(plans[version].targetVersion, path.visited + {version}, path.n + 1))
    ensures r.Err? ==>
      domain in source.versions && UniqueIds(source.executions)
      && r.error != NoPath && Halts(domain, plans, canonicalize, target, source, path.n, r.error)
  {
    hide ParentClosed, Injective, HashesAll, Accepts, IsRebuild, AllCarried, Cause, ById, Covered, ValidExecution,
      Hashed, Rebuilt, Journey;
    assert plans[version].domain == domain && plans[version].sourceVersion == version;
    r := MigrateStep(plans[version], canonicalize, migrated, hash);
    if r.Ok? {
      GoesFurther(domain, plans, canonicalize, source, migrated, r.value, path.n);
      PathGoesOn(SuccessorsOf(plans), source.versions[domain], path.n, version, path.visited);
    }
  }

  // Follows transitions from the session's version to the target: it arrives exactly if
  // every transition on the way is there and accepts the records it is given. The code's
  // own refusal of a cycle is never reached.
  method MigrateAlong(
    domain: string, target: string, plans: Plans, canonicalize: Canonicalizer,
    source: StoredSession, ghost hash: Hash
  ) returns (r: Result<StoredSession, MigrationError>, ghost path: Path)
    requires Injective(hash) && HashesAll(hash, canonicalize) && SoundSession(hash, source)
    requires Registered(domain, plans)
    ensures r.Ok? ==>
      path.version == target && Underway(hash, domain, plans, canonicalize, target, source, r.value, path)
    ensures r == Err(NoVersion) <==> domain !in source.versions
    ensures r.Err? && domain in source.versions ==>
      && Halts(domain, plans, canonicalize, target, source, path.n, r.error)
      && forall k: nat :: !Arrives(plans, canonicalize, StopOf(domain, source), k, target)
  {
    hide Underway, Registered, Injective, HashesAll, Halts, Arrives, StopOf, Covered, ValidExecution, Hashed;
    path := Path(target, {}, 0);
    if domain !in source.versions {
      return Err(NoVersion), path;
    }
    var migrated := source;
    var version := source.versions[domain];
    var visited: set<string> := {};
    path := Path(version, {}, 0);
    SetsOut(hash, domain, plans, canonicalize, target, source);
    while version != target
      invariant path.version == version && path.visited == visited
      invariant Underway(hash, domain, plans, canonicalize, target, source, migrated, path)
      decreases |plans.Keys - visited|
    {
      if version in visited {
        NotBackUnderway(hash, domain, plans, canonicalize, target, source, migrated, path);
        assert false;
      }
      if version !in plans {
        NoWayOn(hash, domain, plans, canonicalize, target, source, migrated, path);
        HaltedUnderway(hash, domain, plans, canonicalize, target, source, migrated, path, NoPath);
        return Err(NoPath), path;
      }
      var step := MigrateFurther(domain, plans, canonicalize, migrated, version, hash, target, source, path);
      if step.Err? {
        HaltedUnderway(hash, domain, plans, canonicalize, target, source, migrated, path, step.error);
        return Err(step.error), path;
      }
      FewerLeft(plans.Keys, visited, version);
      migrated := step.value;
      visited := visited + {version};
      version := plans[version].targetVersion;
      path := Path(version, visited, path.n + 1);
    }
    return Ok(migrated), path;
  }

  lemma {:induction false} NoWayOn(
    hash: Hash, domain: string, plans: Plans, canonicalize: Canonicalizer, target: string, source: StoredSession,
    migrated: StoredSession, path: Path)
    requires Underway(hash, domain, plans, canonicalize, target, source, migrated, path)
    requires path.version !in plans && path.version != target
    ensures domain in source.versions && UniqueIds(source.executions)
    ensures Halts(domain, plans, canonicalize, target, source, path.n, NoPath)
  {
    hide Journey, ById;
  }

  lemma {:induction false} HaltedUnderway(
    hash: Hash, domain: string, plans: Plans, canonicalize: Canonicalizer, target: string, source: StoredSession,
    migrated: StoredSession, path: Path, error: MigrationError)
    requires Underway(hash, domain, plans, canonicalize, target, source, migrated, path)
    requires domain in source.versions && UniqueIds(source.executions)
    requires Halts(domain, plans, canonicalize, target, source, path.n, error)
    ensures forall k: nat :: !Arrives(plans, canonicalize, StopOf(domain, source), k, target)
    ensures error != NoVersion
  {
    hide Journey, ById, Cause;
    HaltedNeverArrives(domain, plans, canonicalize, target, source, path.n, error);
  }

  // What arriving at the target means for the session.
  lemma {:induction false} ArrivedAtTarget(
    hash: Hash, domain: string, plans: Plans, canonicalize: Canonicalizer, target: string, source: StoredSession,
    migrated: StoredSession, path: Path)
    requires Registered(domain, plans)
    requires Underway(hash, domain, plans, canonicalize, target, source, migrated, path)
    ensures migrated.versions == source.versions[domain := path.version]
    ensures Migrates(domain, plans, canonicalize, source, migrated, path.n)
    ensures Arrives(plans, canonicalize, StopOf(domain, source), path.n, path.version)
    ensures SoundSession(hash, migrated)
    ensures if source.versions[domain] == path.version then migrated == source else ParentClosed(migrated)
  {
    hide ParentClosed, ById, Journey, Covered, ValidExecution, Hashed;
    assert path.n > 0 ==> !Reaches(SuccessorsOf(plans), path.version, path.n, path.version);
    assert path.n == 0 ==> Walk(SuccessorsOf(plans), source.versions[domain], 0) == Some(path.version);
  }

  // ---- Nothing else is lost ------------------------------------------------------------------

  lemma {:induction false} SoundIsWellKept(hash: Hash, s: StoredSession)
    requires SoundSession(hash, s)
    ensures WellKept(ById(s.executions))
  {
    var records := ById(s.executions);
    forall x | x in records ensures records[x].id == x && ValidExecution(records[x]) {
      assert records[x] in s.executions;
    }
  }

  // Record by record, a migration neither loses nor invents anything: each source record
  // that no transition drops, itself or with a call above it, is there exactly once,
  // carried over; and there is nothing else. A record of another domain keeps everything
  // but its parent chain.
  lemma {:induction false} NothingElseIsLost(
    hash: Hash, domain: string, plans: Plans, canonicalize: Canonicalizer, source: StoredSession,
    migrated: StoredSession, n: nat)
    requires SoundSession(hash, source) && Registered(domain, plans)
    requires Migrates(domain, plans, canonicalize, source, migrated, n)
    ensures var from := StopOf(domain, source);
      var before, after := ById(source.executions), ById(migrated.executions);
      && Journey(plans, canonicalize, from, n).Some?
      && (forall x :: x in before && Trace(plans, canonicalize, from, x, n).Some? ==>
            var y := Trace(plans, canonicalize, from, x, n).value;
            y in after && Carried(domain, before[x], after[y]))
      && (forall y :: y in after ==> exists x :: x in before && Trace(plans, canonicalize, from, x, n) == Some(y))
      && (forall x, y :: x in before && y in before && Trace(plans, canonicalize, from, x, n).Some?
                         && Trace(plans, canonicalize, from, x, n) == Trace(plans, canonicalize, from, y, n) ==>
            x == y)
  {
    hide Journey, Trace, Carried, ById, WellKept, SoundSession, Acyclic;
    var from := StopOf(domain, source);
    var before, after := ById(source.executions), ById(migrated.executions);
    SoundIsWellKept(hash, source);
    forall x | x in before && Trace(plans, canonicalize, from, x, n).Some?
      ensures var y := Trace(plans, canonicalize, from, x, n).value;
        y in after && Carried(domain, before[x], after[y])
    {
      TracedIsCarried(domain, plans, canonicalize, from, x, n);
    }
    forall y | y in after ensures exists x :: x in before && Trace(plans, canonicalize, from, x, n) == Some(y) {
      var x := RecordsAreTraced(plans, canonicalize, from, y, n);
    }
    forall x, y | x in before && y in before && Trace(plans, canonicalize, from, x, n).Some?
                  && Trace(plans, canonicalize, from, x, n) == Trace(plans, canonicalize, from, y, n)
      ensures x == y
    {
      TracesAreDistinct(domain, plans, canonicalize, from, x, y, n);
    }
  }

  // ---- Registration ------------------------------------------------------------------------

  // One direct transition, and the rules of the calls it changes.
  class DomainVersionTransition {
    const domain: string
    const source: string
    const target: string
    var rules: map<string, Rule>

    constructor (domain: string, source: string, target: string)
      ensures this.domain == domain && this.source == source && this.target == target && rules == map[]
    {
      this.domain, this.source, this.target := domain, source, target;
      rules := map[];
    }

    function AsPlan(): Plan
      reads this
    {
      Plan(domain, source, target, rules)
    }

    // One boundary changes shape once, and keeps its arguments only under the same names.
    method AddRemap(from: Shape, to: Shape, convert: Option<Converter>) returns (refusal: Option<MigrationError>)
      modifies this`rules
      ensures refusal.None? <==>
        (convert.Some? || from.argumentNames == to.argumentNames) && from.name !in old(rules)
      ensures rules == if refusal.None? then old(rules)[from.name := Remap(from, to, convert)] else old(rules)
    {
      if convert.None? && from.argumentNames != to.argumentNames {
        return Some(WrongShape);
      }
      refusal := Register(from.name, Remap(from, to, convert));
    }

    method AddDrop(from: Shape) returns (refusal: Option<MigrationError>)
      modifies this`rules
      ensures refusal.None? <==> from.name !in old(rules)
      ensures rules == if refusal.None? then old(rules)[from.name := Drop(from)] else old(rules)
    {
      refusal := Register(from.name, Drop(from));
    }

    method Register(key: string, rule: Rule) returns (refusal: Option<MigrationError>)
      modifies this`rules
      ensures refusal.None? <==> key !in old(rules)
      ensures rules == if refusal.None? then old(rules)[key := rule] else old(rules)
    {
      if key in rules {
        return Some(AlreadyRegistered);
      }
      rules := rules[key := rule];
      return None;
    }
  }

  class DomainMigration {
    const domain: string
    const target: string
    const canonicalize: Canonicalizer
    var transitions: map<string, DomainVersionTransition>

    constructor (domain: string, target: string, canonicalize: Canonicalizer)
      ensures this.domain == domain && this.target == target && this.canonicalize == canonicalize
      ensures transitions == map[] && Valid()
    {
      this.domain, this.target, this.canonicalize := domain, target, canonicalize;
      transitions := map[];
      new;
      EmptyIsAcyclic();
    }

    ghost function Next(): Successors
      reads this
    {
      map v | v in transitions :: transitions[v].target
    }

    // The registered graph never has a cycle.
    ghost predicate Valid()
      reads this
    {
      && Acyclic(Next())
      && forall v :: v in transitions ==> transitions[v].domain == domain && transitions[v].source == v
    }

    // Registers a direct transition, unless it changes nothing, its source already has
    // one, or it would close a cycle.
    method Transition(source: string, target: string) returns (r: Result<DomainVersionTransition, MigrationError>)
      requires Valid()
      modifies this`transitions
      ensures Valid()
      ensures r.Ok? <==>
        && source != target
        && source !in old(transitions)
        && !exists n: nat :: Reaches(old(Next()), target, n, source)
      ensures r.Ok? ==>
        && fresh(r.value) && r.value.rules == map[]
        && transitions == old(transitions)[source := r.value]
        && Next() == old(Next())[source := target]
      ensures r.Err? ==> transitions == old(transitions)
    {
      if source == target {
        assert Reaches(Next(), target, 0, source);
        return Err(WrongVersion);
      }
      if source in transitions {
        return Err(AlreadyRegistered);
      }
      var next := map v | v in transitions :: transitions[v].target;
      assert next == Next();
      var closes := ClosesCycle(next, source, target);
      if closes {
        return Err(Cycle);
      }
      EdgeKeepsAcyclic(next, source, target);
      var transition := new DomainVersionTransition(domain, source, target);
      transitions := transitions[source := transition];
      assert Next() == next[source := target];
      return Ok(transition);
    }

    // The registered rules as they stand.
    ghost function CurrentPlans(): Plans
      reads this, transitions.Values
    {
      map v | v in transitions :: transitions[v].AsPlan()
    }

    // The plans are taken when the migration starts. A sound session is migrated exactly if
    // they lead from its version to the domain's and each accepts the records it is given;
    // then it becomes exactly what they lead to. Otherwise it is refused at a named stop.
    method Migrate(source: StoredSession, ghost hash: Hash)
      returns (r: Result<StoredSession, MigrationError>, ghost n: nat)
      requires Valid()
      requires Injective(hash) && HashesAll(hash, canonicalize) && SoundSession(hash, source)
      ensures r.Ok? ==>
        && Migrates(domain, CurrentPlans(), canonicalize, source, r.value, n)
        && r.value.versions[domain] == target
        && SoundSession(hash, r.value)
        && (if source.versions[domain] == target then r.value == source else ParentClosed(r.value))
      ensures r == Err(NoVersion) <==> domain !in source.versions
      ensures domain in source.versions ==>
        (r.Ok? <==> exists k: nat :: Arrives(CurrentPlans(), canonicalize, StopOf(domain, source), k, target))
      ensures r.Err? && domain in source.versions ==>
        Halts(domain, CurrentPlans(), canonicalize, target, source, n, r.error)
    {
      hide Journey, Halts, Migrates, Arrives, ParentClosed, StopOf, Covered, ValidExecution, Hashed;
      var plans := map v | v in transitions :: transitions[v].AsPlan();
      assert SuccessorsOf(plans) == Next();
      assert plans == CurrentPlans();
      ghost var path;
      r, path := MigrateAlong(domain, target, plans, canonicalize, source, hash);
      n := path.n;
      if r.Ok? {
        ArrivedAtTarget(hash, domain, plans, canonicalize, target, source, r.value, path);
      }
    }
  }

  lemma {:induction false} EmptyIsAcyclic()
    ensures forall next: Successors :: next == map[] ==> Acyclic(next)
  {
    var next: Successors := map[];
    forall v, n: nat | n > 0 ensures !Reaches(next, v, n, v) {
      assert Walk(next, v, 0) == Some(v);
      assert Walk(next, v, 1).None?;
      WalkEnds(next, v, 1, n - 1);
    }
  }
}
