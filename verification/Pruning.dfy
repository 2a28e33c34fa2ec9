// The pruning handler: on completion, one transaction deletes the completed call's
// descendants. On the in-memory store this is the pruning step of the replay machine.
module Pruning {
  import opened Wrappers
  import opened Identity
  import opened Staging
  import opened PathCodec
  import opened Enumeration
  import Replay
  import Executor

  function SessionRecords(data: Data, session: string): (records: map<ExecutionId, Execution>)
    ensures forall x :: x in records <==> Key(session, x) in data
    ensures forall x :: x in records ==> records[x] == data[Key(session, x)]
  {
    assert forall x :: Key(session, x) in data ==> Key(session, x).id == x;
    map x | x in (set k | k in data :: k.id) && Key(session, x) in data :: data[Key(session, x)]
  }

  // The data without what lies strictly below the call.
  function WithoutDescendants(data: Data, session: string, id: ExecutionId): Data {
    map k | k in data && !(k.session == session && Under(k.id, id)) :: data[k]
  }

  // That is what pruning does to the session's records; other sessions are untouched.
  lemma {:induction false} PrunesOneSession(data: Data, session: string, id: ExecutionId, versions: map<string, string>)
    ensures var after := WithoutDescendants(data, session, id);
      && SessionRecords(after, session) == Replay.Prune(Replay.Disk(SessionRecords(data, session), versions), id).records
      && forall other :: other != session ==> SessionRecords(after, other) == SessionRecords(data, other)
  {
    hide SessionRecords;
    var after := WithoutDescendants(data, session, id);
    var before, pruned := SessionRecords(data, session), SessionRecords(after, session);
    var expected := Replay.Prune(Replay.Disk(before, versions), id).records;
    forall x ensures x in pruned <==> x in expected {
      assert Key(session, x) in after <==> Key(session, x) in data && !Under(x, id);
    }
    assert pruned.Keys == expected.Keys;
    forall other | other != session ensures SessionRecords(after, other) == SessionRecords(data, other) {
      forall x ensures x in SessionRecords(after, other) <==> x in SessionRecords(data, other) {
        assert Key(other, x) in after <==> Key(other, x) in data;
      }
      assert SessionRecords(after, other).Keys == SessionRecords(data, other).Keys;
    }
  }

  // ---- The engine's stages ------------------------------------------------------------

  // What the engine stages within its session, as a batch of the store.
  function BatchOf(stage: Executor.Stage, session: string): (batch: Batch)
    ensures forall x :: Key(session, x) in batch <==> x in stage
  {
    assert forall x :: Key(session, x).id == x;
    map k | k in (set x | x in stage :: Key(session, x)) ::
      if stage[k.id].Some? then SaveExecution(stage[k.id].value) else DeleteExecution
  }

  // Committing a stage of the engine is committing its batch: the session's records change
  // as the engine's do, and no other session is touched.
  lemma {:induction false} EngineStagesAreBatches(data: Data, session: string, stage: Executor.Stage)
    ensures SessionRecords(Applied(data, BatchOf(stage, session)), session) ==
      Executor.Applied(SessionRecords(data, session), stage)
    ensures forall other :: other != session ==>
      SessionRecords(Applied(data, BatchOf(stage, session)), other) == SessionRecords(data, other)
  {
    hide SessionRecords;
    var batch := BatchOf(stage, session);
    var after := Applied(data, batch);
    var found, expected := SessionRecords(after, session), Executor.Applied(SessionRecords(data, session), stage);
    forall x ensures x in found <==> x in expected {
      assert Key(session, x) in batch <==> x in stage;
    }
    forall x | x in found ensures found[x] == expected[x] {
      assert Key(session, x) in batch <==> x in stage;
    }
    assert found.Keys == expected.Keys;
    forall other | other != session ensures SessionRecords(after, other) == SessionRecords(data, other) {
      forall x ensures x in SessionRecords(after, other) <==> x in SessionRecords(data, other) {
        assert Key(other, x) !in batch;
      }
      assert SessionRecords(after, other).Keys == SessionRecords(data, other).Keys;
    }
  }

  // ---- Deleting what was enumerated ---------------------------------------------------

  function Deletions(session: string, ids: seq<ExecutionId>): Batch {
    if ids == [] then map[]
    else Deletions(session, ids[..|ids| - 1])[Key(session, ids[|ids| - 1]) := DeleteExecution]
  }

  lemma {:induction false} DeletionsExactly(session: string, ids: seq<ExecutionId>)
    ensures forall k :: k in Deletions(session, ids) <==> k.session == session && k.id in ids
    ensures forall k :: k in Deletions(session, ids) ==> Deletions(session, ids)[k] == DeleteExecution
  {
    if ids != [] {
      var init, last := ids[..|ids| - 1], ids[|ids| - 1];
      DeletionsExactly(session, init);
      assert ids == init + [last];
    }
  }

  lemma {:induction false} StagedDeletions(s: Stages, context: nat, session: string, ids: seq<ExecutionId>, stage: nat)
    requires Current(s, context) == Some(stage) && s.stages[stage] == Stage(map[], None)
    ensures DeletedAll(s, context, session, ids) ==
      s.(stages := s.stages[stage := Stage(Deletions(session, ids), None)])
  {
    if ids == [] {
      assert s.stages[stage := s.stages[stage]] == s.stages;
    } else {
      StagedDeletions(s, context, session, ids[..|ids| - 1], stage);
    }
  }

  // The listed identities are exactly the session's strict descendants.
  lemma {:induction false} DeletionsPrune(data: Data, session: string, id: ExecutionId, ids: seq<ExecutionId>)
    requires Keyed(data) && ValidId(id)
    requires var listed := Enumerated(data, Query(session, None, Some(id)));
      |ids| == |listed| && forall i :: 0 <= i < |ids| ==> ids[i] == listed[i].id
    ensures Applied(data, Deletions(session, ids)) == WithoutDescendants(data, session, id)
  {
    hide Enumerated, ValidId, Selected, Deletions, Under, ByAscendingPath;
    var q := Query(session, None, Some(id));
    var listed := Enumerated(data, q);
    EnumeratedExactly(data, q);
    DeletionsExactly(session, ids);
    var deletions := Deletions(session, ids);
    forall k | k in data ensures k in deletions <==> k.session == session && Under(k.id, id) {
      if k in deletions {
        var i :| 0 <= i < |ids| && ids[i] == k.id;
        assert listed[i] in listed;
        var l :| Selected(data, q, l, listed[i]);
        SelectedUnder(data, session, id, l, listed[i]);
        assert l == k;
      }
      if k.session == session && Under(k.id, id) {
        SelectedUnder(data, session, id, k, data[k]);
        assert data[k] in listed;
        var i :| 0 <= i < |listed| && listed[i] == data[k];
        assert ids[i] == k.id;
      }
    }
    assert Applied(data, deletions).Keys == WithoutDescendants(data, session, id).Keys;
  }

  lemma {:induction false} SelectedUnder(data: Data, session: string, id: ExecutionId, k: Key, e: Execution)
    ensures Selected(data, Query(session, None, Some(id)), k, e) <==>
      k in data && data[k] == e && k.session == session && Under(k.id, id)
  {
  }

  // ---- The handler --------------------------------------------------------------------

  method Handle(client: MemoryClient, staging: ExecutionStaging, context: nat, session: string, id: ExecutionId)
    requires Keyed(client.data) && ValidId(id)
    modifies client, staging
    ensures client.data == WithoutDescendants(old(client.data), session, id)
    ensures staging.open == old(staging.open) && staging.tokens == old(staging.tokens) - {|old(staging.stages)|}
  {
    hide WithoutDescendants, Enumerated, Applied, Keyed, ValidId, DeletedAll, Deletions;
    var scope := new TransactionScope(client, staging);
    var entered := scope.Enter(context);
    var stage := scope.transaction.stage.value;
    ghost var begun := staging.State();
    NothingApplied(client.data);
    var found := MemoryExecutions(client.data, Some(staging.stages[stage].mutations), Query(session, None, Some(id)));
    var descendants := seq(|found|, i requires 0 <= i < |found| => found[i].id);
    StagedDeletions(begun, context, session, descendants, stage);
    if descendants != [] {
      var refused := staging.DeleteMany(context, session, descendants);
    } else {
      assert DeletedAll(begun, context, session, descendants) == begun by { NoneDeleted(begun, context, session); }
    }
    assert staging.stages[stage].mutations == Deletions(session, descendants);
    DeletionsPrune(client.data, session, id, descendants);
    var refusal := scope.Exit(context, false);
    assert refusal.None?;
  }

  lemma {:induction false} NoneDeleted(s: Stages, context: nat, session: string)
    ensures DeletedAll(s, context, session, []) == s
  {
  }
}
