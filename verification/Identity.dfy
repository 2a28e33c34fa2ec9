// Execution identities, the scopes ordinals count in, and the recorded aggregate.
module Identity {
  import opened Wrappers
  import opened Canonical

  // An identity contains its whole parent chain.
  datatype ExecutionId = ExecutionId(
    parent: Option<ExecutionId>,
    domain: string,
    name: string,
    sequence: nat,
    digest: string)

  // The class of repeated calls that are told apart by their ordinal alone.
  datatype Scope = Scope(parent: Option<ExecutionId>, domain: string, name: string, digest: string)

  datatype Status = Started | Completed

  // A serialized result or metadata entry.
  type Payload = string

  datatype Execution = Execution(
    id: ExecutionId,
    status: Status,
    arguments: CanonicalArguments,
    result: Option<Payload>,
    metadata: map<string, Payload>)

  // What constructing an Execution checks.
  predicate ValidExecution(e: Execution) {
    && e.id.digest == e.arguments.digest
    && (e.status == Completed <==> e.result.Some?)
  }

  function ScopeOf(id: ExecutionId): Scope {
    Scope(id.parent, id.domain, id.name, id.digest)
  }

  function InScope(scope: Scope, sequence: nat): ExecutionId {
    ExecutionId(scope.parent, scope.domain, scope.name, sequence, scope.digest)
  }

  // ---- Ancestry -------------------------------------------------------------------

  // `top` is a strict ancestor of `id`.
  predicate Under(id: ExecutionId, top: ExecutionId) {
    id.parent.Some? && (id.parent.value == top || Under(id.parent.value, top))
  }

  // `id` lies strictly below the frame `self`; everything lies below the session root.
  predicate Below(id: ExecutionId, self: Option<ExecutionId>) {
    self.None? || Under(id, self.value)
  }

  function Depth(id: ExecutionId): nat {
    if id.parent.None? then 0 else 1 + Depth(id.parent.value)
  }

  lemma {:induction false} UnderIsDeeper(id: ExecutionId, top: ExecutionId)
    requires Under(id, top)
    ensures Depth(id) > Depth(top)
  {
    if id.parent.value != top {
      UnderIsDeeper(id.parent.value, top);
    }
  }

  lemma {:induction false} UnderTransitive(low: ExecutionId, middle: ExecutionId, top: ExecutionId)
    requires Under(low, middle) && Under(middle, top)
    ensures Under(low, top)
  {
    if low.parent.value != middle {
      UnderTransitive(low.parent.value, middle, top);
    }
  }

  // An identity is never below itself.
  lemma {:induction false} NotUnderItself(id: ExecutionId)
    ensures !Under(id, id)
  {
    if Under(id, id) {
      UnderIsDeeper(id, id);
    }
  }
}
