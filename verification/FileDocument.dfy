// The file store's one JSON document, and the operations that change it in place.
module FileDocument {
  import opened Wrappers
  import opened Identity
  import opened Staging
  import opened StagingRuns
  import opened PathCodec
  import opened Enumeration

  // A missing mapping and an empty one read the same.
  datatype SessionPart = SessionPart(versions: map<string, string>, executions: map<string, Execution>)

  datatype Document = Document(format: Option<nat>, sessions: map<string, SessionPart>)

  // What reading gives when there is no file.
  const NO_DOCUMENT := Document(None, map[])

  const NO_SESSION := SessionPart(map[], map[])

  function SessionOf(document: Document, session: string): SessionPart {
    if session in document.sessions then document.sessions[session] else NO_SESSION
  }

  // ---- Operations as functions --------------------------------------------------------

  function WithMutation(document: Document, key: Key, mutation: Mutation): Document {
    var part := SessionOf(document, key.session);
    var path := PathOf(key.id);
    var executions :=
      match mutation
      case DeleteExecution => part.executions - {path}
      case SaveExecution(snapshot) => part.executions[path := snapshot];
    document.(sessions := document.sessions[key.session := part.(executions := executions)])
  }

  // A batch's mutations in the order they were staged.
  function WithMutations(document: Document, mutations: seq<(Key, Mutation)>): Document {
    if mutations == [] then document
    else
      var last := mutations[|mutations| - 1];
      WithMutation(WithMutations(document, mutations[..|mutations| - 1]), last.0, last.1)
  }

  // The version recorded, and the document if recording it changed anything.
  function WithClaim(document: Document, session: string, domain: string, version: string): (string, Option<Document>) {
    var part := SessionOf(document, session);
    if domain in part.versions then (part.versions[domain], None)
    else
      var claimed := part.(versions := part.versions[domain := version]);
      (version, Some(document.(sessions := document.sessions[session := claimed])))
  }

  // The document holds exactly these executions.
  ghost predicate Holds(document: Document, data: Data) {
    forall k: Key :: ValidId(k.id) ==> HoldsAt(document, data, k)
  }

  ghost predicate HoldsAt(document: Document, data: Data, k: Key) {
    var executions := SessionOf(document, k.session).executions;
    (k in data <==> PathOf(k.id) in executions) && (k in data ==> executions[PathOf(k.id)] == data[k])
  }

  lemma {:induction false} MutationHolds(document: Document, data: Data, key: Key, mutation: Mutation)
    requires Holds(document, data) && ValidId(key.id)
    ensures Holds(WithMutation(document, key, mutation), Changed(data, key, mutation))
  {
    hide PathOf, ValidId;
    var after := WithMutation(document, key, mutation);
    forall k: Key | ValidId(k.id) ensures HoldsAt(after, Changed(data, key, mutation), k) {
      assert HoldsAt(document, data, k);
      if PathOf(k.id) == PathOf(key.id) { PathsAreDistinct(k.id, key.id); }
    }
  }

  // What one session's part holds replaced by what another part holds.
  function Replaced(data: Data, session: string, executions: map<string, Execution>): Data {
    map k | k in data.Keys + (set e | e in executions.Values :: Key(session, e.id))
            && (k.session == session ==> PathOf(k.id) in executions) ::
      if k.session == session then executions[PathOf(k.id)] else data[k]
  }

  // Each record is consistent, and stored at its own path.
  ghost predicate StoredAtPaths(executions: map<string, Execution>) {
    forall p :: p in executions ==>
      ValidId(executions[p].id) && PathOf(executions[p].id) == p && ValidExecution(executions[p])
  }

  lemma {:induction false} ReplacementHolds(document: Document, data: Data, session: string, part: SessionPart)
    requires Holds(document, data) && StoredAtPaths(part.executions)
    ensures Holds(document.(sessions := document.sessions[session := part]), Replaced(data, session, part.executions))
  {
    hide PathOf, ValidId;
    var after := document.(sessions := document.sessions[session := part]);
    forall k: Key | ValidId(k.id) ensures HoldsAt(after, Replaced(data, session, part.executions), k) {
      assert HoldsAt(document, data, k);
      if k.session == session && PathOf(k.id) in part.executions {
        var e := part.executions[PathOf(k.id)];
        PathsAreDistinct(e.id, k.id);
        assert e in part.executions.Values && k == Key(session, e.id);
      }
    }
  }

  lemma {:induction false} MutationsHold(document: Document, data: Data, mutations: seq<(Key, Mutation)>)
    requires Holds(document, data) && forall i :: 0 <= i < |mutations| ==> ValidId(mutations[i].0.id)
    ensures Holds(WithMutations(document, mutations), Performed(data, mutations))
  {
    hide Holds, ValidId, WithMutation, Changed;
    if mutations != [] {
      var init, last := mutations[..|mutations| - 1], mutations[|mutations| - 1];
      MutationsHold(document, data, init);
      MutationHolds(WithMutations(document, init), Performed(data, init), last.0, last.1);
    }
  }

  // ---- In place -----------------------------------------------------------------------

  // The document an operation is handed.
  class OpenDocument {
    var format: Option<nat>
    var sessions: map<string, SessionPart>

    constructor (document: Document)
      ensures Value() == document
    {
      format, sessions := document.format, document.sessions;
    }

    function Value(): Document
      reads this
    {
      Document(format, sessions)
    }

    // Every mutation of a batch, in some order. What the store holds changes as a commit
    // changes data.
    method Commit(mutations: Batch, ghost data: Data) returns (ghost order: seq<(Key, Mutation)>)
      requires KeyedBatch(mutations) && Holds(Value(), data)
      modifies this`sessions
      ensures Value() == WithMutations(old(Value()), order) && Batched(order) == mutations
      ensures Holds(Value(), Applied(data, mutations))
      ensures forall s :: SessionOf(Value(), s).versions == SessionOf(old(Value()), s).versions
      ensures format == old(format)
    {
      hide PathOf, Applied, Holds, WithMutation;
      var remaining := mutations.Keys;
      order := [];
      assert mutations - remaining == map[];
      NothingApplied(data);
      while remaining != {}
        invariant remaining <= mutations.Keys
        invariant Value() == WithMutations(old(Value()), order) && Batched(order) == mutations - remaining
        invariant Holds(Value(), Applied(data, mutations - remaining))
        invariant forall s :: SessionOf(Value(), s).versions == SessionOf(old(Value()), s).versions
        decreases remaining
      {
        var key :| key in remaining;
        MutationHolds(Value(), Applied(data, mutations - remaining), key, mutations[key]);
        OneMore(data, mutations, remaining, key);
        assert mutations - (remaining - {key}) == (mutations - remaining)[key := mutations[key]];
        Mutate(key, mutations[key]);
        OrderMore(old(Value()), order, key, mutations[key]);
        order := order + [(key, mutations[key])];
        remaining := remaining - {key};
      }
      assert mutations - {} == mutations;
    }

    method Mutate(key: Key, mutation: Mutation)
      modifies this`sessions
      ensures Value() == WithMutation(old(Value()), key, mutation)
      ensures forall s :: SessionOf(Value(), s).versions == SessionOf(old(Value()), s).versions
    {
      hide PathOf;
      var session := if key.session in sessions then sessions[key.session] else NO_SESSION;
      var path := ExecutionIdToPath(key.id);
      match mutation {
        case DeleteExecution => session := session.(executions := session.executions - {path});
        case SaveExecution(snapshot) => session := session.(executions := session.executions[path := snapshot]);
      }
      sessions := sessions[key.session := session];
    }

    // Returns the version recorded, and whether the document needs writing back: a domain
    // without a version takes this one, and any other keeps its own.
    method Claim(session: string, domain: string, version: string) returns (recorded: string, changed: bool)
      modifies this`sessions
      ensures recorded == WithClaim(old(Value()), session, domain, version).0
      ensures changed == WithClaim(old(Value()), session, domain, version).1.Some?
      ensures changed ==> Some(Value()) == WithClaim(old(Value()), session, domain, version).1
      ensures var before, after := SessionOf(old(Value()), session).versions, SessionOf(Value(), session).versions;
        if domain in before then !changed && recorded == before[domain] && after == before
        else changed && recorded == version && after == before[domain := version]
      ensures forall s :: SessionOf(Value(), s).executions == SessionOf(old(Value()), s).executions
      ensures forall s :: s != session ==> SessionOf(Value(), s) == SessionOf(old(Value()), s)
      ensures format == old(format)
    {
      var part := if session in sessions then sessions[session] else NO_SESSION;
      sessions := sessions[session := part];
      if domain in part.versions {
        return part.versions[domain], false;
      }
      sessions := sessions[session := part.(versions := part.versions[domain := version])];
      assert sessions == old(sessions)[session := part.(versions := part.versions[domain := version])];
      return version, true;
    }
  }

  lemma {:induction false} OrderMore(document: Document, order: seq<(Key, Mutation)>, key: Key, mutation: Mutation)
    ensures WithMutations(document, order + [(key, mutation)]) ==
      WithMutation(WithMutations(document, order), key, mutation)
    ensures Batched(order + [(key, mutation)]) == Batched(order)[key := mutation]
  {
    var more := order + [(key, mutation)];
    assert more[..|order|] == order;
  }
}
