// One step of a domain migration: rebuilding the executions of a session under a plan.
//
// Digests stand for arguments: within one session two records with the same digest hold
// the same arguments (CollisionFree).
module Migration {
  import opened Wrappers
  import opened Canonical
  import opened Identity

  // ---- Plans ------------------------------------------------------------------------

  datatype Shape = Shape(name: string, argumentNames: set<string>)

  // A conversion may raise, and so may a canonicalizer.
  type Converter = Arguments -> Option<Arguments>
  type Canonicalizer = Arguments -> Option<CanonicalArguments>

  datatype Rule =
    | Remap(source: Shape, target: Shape, convert: Option<Converter>)
    | Drop(source: Shape)

  datatype Plan = Plan(domain: string, sourceVersion: string, targetVersion: string, rules: map<string, Rule>)

  datatype MigrationError =
    | MissingParent
    | WrongShape
    | ConversionFailed
    | Unconvertible
    | Ambiguous
    | Collision
    | UncoveredDomain
    | NoVersion
    | WrongVersion
    | NoPath
    | Cycle
    | AlreadyRegistered

  function RuleFor(plan: Plan, id: ExecutionId): Option<Rule> {
    if id.domain != plan.domain || id.name !in plan.rules then None else Some(plan.rules[id.name])
  }

  // ---- What one record becomes ------------------------------------------------------

  function Recorded(e: Execution, source: Shape): Result<Arguments, MigrationError> {
    match Decode(e.arguments.data)
    case Err(_) => Err(WrongShape)
    case Ok(stored) => if stored.Keys != source.argumentNames then Err(WrongShape) else Ok(stored)
  }

  function NewArguments(plan: Plan, canonicalize: Canonicalizer, e: Execution)
    : Result<CanonicalArguments, MigrationError>
  {
    match RuleFor(plan, e.id)
    case None => Ok(e.arguments)
    case Some(Drop(source)) =>
      var _ :- Recorded(e, source);
      Ok(e.arguments)
    case Some(Remap(source, target, convert)) =>
      var recorded :- Recorded(e, source);
      if convert.None? then Ok(e.arguments)
      else
        match convert.value(recorded)
        case None => Err(ConversionFailed)
        case Some(converted) =>
          if converted.Keys != target.argumentNames then Err(ConversionFailed)
          else
            match canonicalize(converted)
            case None => Err(Unconvertible)
            case Some(arguments) => Ok(arguments)
  }

  function NewName(plan: Plan, id: ExecutionId): string {
    match RuleFor(plan, id)
    case Some(Remap(_, target, _)) => target.name
    case _ => id.name
  }

  // ---- The specification: every chain mapped node by node ----------------------------

  // The plan, the canonicalizer of the resuming session, and the session by identity.
  datatype Context = Context(plan: Plan, canonicalize: Canonicalizer, recorded: map<ExecutionId, Execution>)

  predicate DropsCall(c: Context, id: ExecutionId) {
    RuleFor(c.plan, id).Some? && RuleFor(c.plan, id).value.Drop?
  }

  // Neither the call nor any call above it is dropped.
  predicate Survives(c: Context, id: ExecutionId) {
    !DropsCall(c, id) && (id.parent.Some? ==> Survives(c, id.parent.value))
  }

  // The record is reached: no call above it is dropped.
  predicate ParentSurvives(c: Context, id: ExecutionId) {
    id.parent.Some? ==> Survives(c, id.parent.value)
  }

  function ImageArguments(c: Context, id: ExecutionId): Option<CanonicalArguments> {
    if id in c.recorded && NewArguments(c.plan, c.canonicalize, c.recorded[id]).Ok? then
      Some(NewArguments(c.plan, c.canonicalize, c.recorded[id]).value)
    else None
  }

  function ImageId(c: Context, id: ExecutionId): ExecutionId {
    var arguments := ImageArguments(c, id);
    ExecutionId(
      ImageParent(c, id.parent),
      id.domain,
      NewName(c.plan, id),
      id.sequence,
      if arguments.Some? then arguments.value.digest else id.digest)
  }

  function ImageParent(c: Context, parent: Option<ExecutionId>): Option<ExecutionId> {
    if parent.None? then None else Some(ImageId(c, parent.value))
  }

  function Image(c: Context, e: Execution): Execution {
    var arguments := ImageArguments(c, e.id);
    e.(id := ImageId(c, e.id), arguments := if arguments.Some? then arguments.value else e.arguments)
  }

  // ---- What a step accepts, and what it yields -----------------------------------------

  ghost predicate Indexes(recorded: map<ExecutionId, Execution>, executions: seq<Execution>) {
    && (forall e :: e in executions ==> e.id in recorded && recorded[e.id] == e)
    && (forall x :: x in recorded ==> recorded[x].id == x && recorded[x] in executions)
  }

  ghost predicate CollisionFree(recorded: map<ExecutionId, Execution>) {
    forall x, y :: x in recorded && y in recorded && x.digest == y.digest ==>
      recorded[x].arguments == recorded[y].arguments
  }

  ghost predicate ParentsKnown(c: Context) {
    forall x :: x in c.recorded && x.parent.Some? ==> x.parent.value in c.recorded
  }

  // Two surviving scopes land on one.
  ghost predicate Gathers(c: Context, x: ExecutionId, y: ExecutionId) {
    && x in c.recorded && y in c.recorded && Survives(c, x) && Survives(c, y)
    && ScopeOf(ImageId(c, x)) == ScopeOf(ImageId(c, y))
    && ScopeOf(x) != ScopeOf(y)
  }

  ghost predicate Refuses(c: Context, x: ExecutionId, error: MigrationError) {
    && x in c.recorded && ParentSurvives(c, x)
    && NewArguments(c.plan, c.canonicalize, c.recorded[x]) == Err(error)
  }

  ghost predicate Accepts(c: Context) {
    && ParentsKnown(c)
    && (forall x, error :: !Refuses(c, x, error))
    && (forall x, y :: !Gathers(c, x, y))
  }

  // Why a rebuild is refused.
  ghost predicate Cause(c: Context, error: MigrationError) {
    match error
    case MissingParent => !ParentsKnown(c)
    case Ambiguous => exists x, y :: Gathers(c, x, y)
    case _ => exists x :: Refuses(c, x, error)
  }

  // The images of exactly the survivors, each once, every parent before its children.
  ghost predicate IsRebuild(c: Context, rebuilt: seq<Execution>) {
    && (forall x :: x in c.recorded && Survives(c, x) ==> Image(c, c.recorded[x]) in rebuilt)
    && (forall e :: e in rebuilt ==> exists x :: x in c.recorded && Survives(c, x) && e == Image(c, c.recorded[x]))
    && (forall i, j :: 0 <= i < j < |rebuilt| ==> rebuilt[i].id != rebuilt[j].id)
    && (forall i :: 0 <= i < |rebuilt| && rebuilt[i].id.parent.Some? ==>
        exists j :: 0 <= j < i && Some(rebuilt[j].id) == rebuilt[i].id.parent)
  }

  // An accepted step is injective: two distinct source records never get one identity.
  lemma {:induction false} AcceptedIsInjective(c: Context, x: ExecutionId, y: ExecutionId)
    requires Accepts(c) && x in c.recorded && y in c.recorded && Survives(c, x) && Survives(c, y)
    requires ImageId(c, x) == ImageId(c, y)
    ensures x == y
  {
    assert !Gathers(c, x, y);
    assert ScopeOf(x) == ScopeOf(y);
  }

  // A refusal always has its cause, and no step with a cause for refusal is accepted.
  lemma {:induction false} CauseIsNotAccepted(c: Context, error: MigrationError)
    requires Cause(c, error)
    ensures !Accepts(c)
  {
    hide Gathers, Refuses;
    match error
    case MissingParent =>
    case Ambiguous =>
      var x, y :| Gathers(c, x, y);
      assert Gathers(c, x, y);
    case _ =>
      var x :| Refuses(c, x, error);
      assert Refuses(c, x, error);
  }

  // Of a record outside the domain only the parent chain changes.
  lemma {:induction false} ForeignRecordsKeepTheirOwn(c: Context, x: ExecutionId)
    requires x in c.recorded && c.recorded[x].id == x && x.domain != c.plan.domain
    requires c.recorded[x].arguments.digest == x.digest
    ensures Image(c, c.recorded[x]) == c.recorded[x].(id := x.(parent := ImageParent(c, x.parent)))
  {
  }
}
