// Transactions staged per task context over the in-memory store.
//
// Contexts and stages are numbered. A context holds the stage set in it last; copying a
// context copies that value. Opening a stage leaves a token, which remembers the context
// it was made in and what it replaced.
module Staging {
  import opened Wrappers
  import opened Identity

  datatype Key = Key(session: string, id: ExecutionId)

  datatype Mutation = SaveExecution(snapshot: Execution) | DeleteExecution

  type Batch = map<Key, Mutation>
  type Data = map<Key, Execution>

  // A stage is closed once its batch is final.
  datatype Stage = Stage(mutations: Batch, batch: Option<Batch>)

  datatype Token = Token(context: nat, previous: Option<nat>)

  datatype Stages = Stages(open: map<nat, nat>, tokens: map<nat, Token>, stages: seq<Stage>)

  const NO_STAGES := Stages(map[], map[], [])

  datatype Refusal = OutOfOrder | OtherContext | OutsideTransaction | NotStarted | ScopeReused

  // ---- Operations on stages -----------------------------------------------------------

  // What the context variable holds, closed or not.
  function Held(s: Stages, context: nat): Option<nat> {
    if context in s.open then Some(s.open[context]) else None
  }

  // What each context holds after it is set to `stage`, or to nothing.
  function Holding(open: map<nat, nat>, context: nat, stage: Option<nat>): map<nat, nat> {
    if stage.None? then open - {context} else open[context := stage.value]
  }

  predicate IsClosed(s: Stages, stage: nat) {
    stage < |s.stages| && s.stages[stage].batch.Some?
  }

  // The open stage around a call made in the context.
  function Current(s: Stages, context: nat): Option<nat> {
    var held := Held(s, context);
    if held.None? || held.value >= |s.stages| || IsClosed(s, held.value) then None else held
  }

  function Begun(s: Stages, context: nat): Stages {
    var stage := |s.stages|;
    Stages(
      s.open[context := stage],
      s.tokens[stage := Token(context, Held(s, context))],
      s.stages + [Stage(map[], None)])
  }

  function Written(s: Stages, context: nat, key: Key, mutation: Mutation): Stages {
    var current := Current(s, context);
    if current.None? then s
    else
      var stage := s.stages[current.value];
      s.(stages := s.stages[current.value := stage.(mutations := stage.mutations[key := mutation])])
  }

  // Why a close is refused, if it is.
  function CloseRefusal(s: Stages, context: nat, stage: nat): Option<Refusal> {
    if Held(s, context) != Some(stage) || stage !in s.tokens then Some(OutOfOrder)
    else if s.tokens[stage].context != context then Some(OtherContext)
    else None
  }

  // The token is taken before resetting the variable can fail, so a close from another
  // context costs the stage its token.
  function Closed(s: Stages, context: nat, stage: nat): Stages
    requires stage < |s.stages|
  {
    match CloseRefusal(s, context, stage)
    case Some(OutOfOrder) => s
    case Some(_) => s.(tokens := s.tokens - {stage})
    case None =>
      Stages(
        Holding(s.open, context, s.tokens[stage].previous),
        s.tokens - {stage},
        s.stages[stage := s.stages[stage].(batch := Some(s.stages[stage].mutations))])
  }

  function Copied(s: Stages, from: nat, to: nat): Stages {
    if to in s.open || from !in s.open then s else s.(open := s.open[to := s.open[from]])
  }

  // ---- Committed data -----------------------------------------------------------------

  function Changed(data: Data, key: Key, mutation: Mutation): Data {
    match mutation
    case DeleteExecution => data - {key}
    case SaveExecution(snapshot) => data[key := snapshot]
  }

  function Applied(data: Data, batch: Batch): Data {
    map key | key in data.Keys + batch.Keys && !(key in batch && batch[key].DeleteExecution?) ::
      if key in batch then batch[key].snapshot else data[key]
  }

  // What a read inside a transaction sees.
  function Visible(s: Stages, data: Data, context: nat): Data {
    var current := Current(s, context);
    if current.None? then data else Applied(data, s.stages[current.value].mutations)
  }

  // ---- The objects --------------------------------------------------------------------

  // The registry of open stages, with the stages it numbers.
  class ExecutionStaging {
    var open: map<nat, nat>
    var tokens: map<nat, Token>
    var stages: seq<Stage>

    function State(): Stages
      reads this
    {
      Stages(open, tokens, stages)
    }

    constructor ()
      ensures State() == NO_STAGES
    {
      open, tokens, stages := map[], map[], [];
    }

    method GetCurrent(context: nat) returns (stage: Option<nat>)
      ensures stage == Current(State(), context)
    {
      if context !in open || open[context] >= |stages| || stages[open[context]].batch.Some? {
        return None;
      }
      return Some(open[context]);
    }

    method Begin(context: nat) returns (stage: nat)
      modifies this
      ensures stage == |old(stages)| && State() == Begun(old(State()), context)
    {
      stage := |stages|;
      stages := stages + [Stage(map[], None)];
      tokens := tokens[stage := Token(context, if context in open then Some(open[context]) else None)];
      open := open[context := stage];
    }

    method Save(context: nat, session: string, execution: Execution) returns (refusal: Option<Refusal>)
      modifies this`stages
      ensures State() == Written(old(State()), context, Key(session, execution.id), SaveExecution(execution))
      ensures refusal == if Current(old(State()), context).None? then Some(OutsideTransaction) else None
    {
      var stage := GetCurrent(context);
      if stage.None? {
        return Some(OutsideTransaction);
      }
      Put(stage.value, Key(session, execution.id), SaveExecution(execution));
      return None;
    }

    method DeleteMany(context: nat, session: string, ids: seq<ExecutionId>) returns (refusal: Option<Refusal>)
      modifies this`stages
      ensures State() == DeletedAll(old(State()), context, session, ids)
      ensures refusal == if Current(old(State()), context).None? then Some(OutsideTransaction) else None
    {
      var stage := GetCurrent(context);
      if stage.None? {
        NothingDeleted(State(), context, session, ids);
        return Some(OutsideTransaction);
      }
      for i := 0 to |ids|
        invariant Current(State(), context) == stage
        invariant State() == DeletedAll(old(State()), context, session, ids[..i])
      {
        Put(stage.value, Key(session, ids[i]), DeleteExecution);
        assert ids[..i + 1][..i] == ids[..i];
      }
      assert ids[..|ids|] == ids;
      return None;
    }

    method Put(stage: nat, key: Key, mutation: Mutation)
      requires stage < |stages|
      modifies this`stages
      ensures stages == old(stages)[stage := old(stages)[stage].(
        mutations := old(stages)[stage].mutations[key := mutation])]
    {
      stages := stages[stage := stages[stage].(mutations := stages[stage].mutations[key := mutation])];
    }

    method Close(context: nat, stage: nat) returns (refusal: Option<Refusal>)
      requires stage < |stages|
      modifies this
      ensures refusal == CloseRefusal(old(State()), context, stage)
      ensures State() == Closed(old(State()), context, stage)
      ensures refusal == Some(OutOfOrder) <==>
        context !in old(open) || old(open)[context] != stage || stage !in old(tokens)
      ensures refusal == Some(OtherContext) ==> stage in old(tokens) && old(tokens)[stage].context != context
      ensures refusal.None? ==>
        && stage in old(tokens) && old(tokens)[stage].context == context
        && stages == old(stages)[stage := old(stages)[stage].(batch := Some(old(stages)[stage].mutations))]
    {
      if context !in open || open[context] != stage || stage !in tokens {
        return Some(OutOfOrder);
      }
      var token := tokens[stage];
      tokens := tokens - {stage};
      if token.context != context {
        return Some(OtherContext);
      }
      open := if token.previous.None? then open - {context} else open[context := token.previous.value];
      stages := stages[stage := stages[stage].(batch := Some(stages[stage].mutations))];
      return None;
    }
  }

  function DeletedAll(s: Stages, context: nat, session: string, ids: seq<ExecutionId>): Stages {
    if ids == [] then s
    else
      Written(DeletedAll(s, context, session, ids[..|ids| - 1]), context, Key(session, ids[|ids| - 1]), DeleteExecution)
  }

  lemma {:induction false} NothingDeleted(s: Stages, context: nat, session: string, ids: seq<ExecutionId>)
    requires Current(s, context).None?
    ensures DeletedAll(s, context, session, ids) == s
  {
    if ids != [] { NothingDeleted(s, context, session, ids[..|ids| - 1]); }
  }

  class MemoryClient {
    var data: Data

    constructor ()
      ensures data == map[]
    {
      data := map[];
    }

    method CommitMutations(mutations: Batch)
      modifies this
      ensures data == Applied(old(data), mutations)
      ensures forall key :: key in data <==>
        if key in mutations then mutations[key].SaveExecution? else key in old(data)
      ensures forall key :: key in data ==>
        data[key] == if key in mutations then mutations[key].snapshot else old(data)[key]
    {
      var remaining := mutations.Keys;
      while remaining != {}
        invariant remaining <= mutations.Keys
        invariant data == Applied(old(data), mutations - remaining)
        decreases remaining
      {
        var key :| key in remaining;
        match mutations[key] {
          case DeleteExecution => data := data - {key};
          case SaveExecution(snapshot) => data := data[key := snapshot];
        }
        OneMore(old(data), mutations, remaining, key);
        remaining := remaining - {key};
      }
      assert mutations - {} == mutations;
    }
  }

  lemma {:induction false} OneMore(data: Data, mutations: Batch, remaining: set<Key>, key: Key)
    requires key in remaining && remaining <= mutations.Keys
    ensures Applied(data, mutations - (remaining - {key})) ==
      Changed(Applied(data, mutations - remaining), key, mutations[key])
  {
    assert (mutations - (remaining - {key})).Keys == (mutations - remaining).Keys + {key};
  }

  // One transaction of the in-memory store; its lock makes commit and rollback atomic with
  // respect to each other.
  class MemoryTransaction {
    const client: MemoryClient
    const staging: ExecutionStaging
    var stage: Option<nat>
    var closed: bool

    constructor (client: MemoryClient, staging: ExecutionStaging)
      ensures this.client == client && this.staging == staging && stage.None? && !closed
    {
      this.client, this.staging, stage, closed := client, staging, None, false;
    }

    ghost predicate Valid()
      reads this, staging
    {
      stage.Some? ==> stage.value < |staging.stages|
    }

    // What closing the transaction's stage from the context comes to.
    ghost predicate ClosesStage(before: Stages, context: nat, refusal: Option<Refusal>)
      requires stage.Some? ==> stage.value < |before.stages|
      reads this, staging
    {
      if stage.None? then refusal == Some(NotStarted) && staging.State() == before
      else
        && refusal == CloseRefusal(before, context, stage.value)
        && staging.State() == Closed(before, context, stage.value)
    }

    method Begin(context: nat)
      modifies this, staging
      ensures staging.State() == Begun(old(staging.State()), context)
      ensures stage == Some(|old(staging.stages)|) && Valid() && closed == old(closed)
    {
      var begun := staging.Begin(context);
      stage := Some(begun);
    }

    // Commits at most once. A refused close leaves the transaction uncommitted.
    method Commit(context: nat) returns (refusal: Option<Refusal>)
      requires Valid()
      modifies this`closed, staging, client
      ensures old(closed) ==>
        refusal.None? && closed && staging.State() == old(staging.State())
      ensures !old(closed) ==> ClosesStage(old(staging.State()), context, refusal) && closed == refusal.None?
      ensures client.data ==
        if !old(closed) && refusal.None? then Applied(old(client.data), old(staging.stages)[stage.value].mutations)
        else old(client.data)
    {
      if closed {
        return None;
      }
      if stage.None? {
        return Some(NotStarted);
      }
      refusal := staging.Close(context, stage.value);
      if refusal.Some? {
        return;
      }
      closed := true;
      client.CommitMutations(staging.stages[stage.value].batch.value);
    }

    method Rollback(context: nat) returns (refusal: Option<Refusal>)
      requires Valid()
      modifies this`closed, staging
      ensures old(closed) ==> refusal.None? && closed && staging.State() == old(staging.State())
      ensures !old(closed) ==> ClosesStage(old(staging.State()), context, refusal) && closed == refusal.None?
    {
      if closed {
        return None;
      }
      if stage.None? {
        return Some(NotStarted);
      }
      refusal := staging.Close(context, stage.value);
      closed := refusal.None?;
    }
  }

  // A scope around one transaction, used once.
  class TransactionScope {
    const client: MemoryClient
    const staging: ExecutionStaging
    var transaction: MemoryTransaction?
    var closed: bool

    constructor (client: MemoryClient, staging: ExecutionStaging)
      ensures this.client == client && this.staging == staging && transaction == null && !closed
    {
      this.client, this.staging, transaction, closed := client, staging, null, false;
    }

    // The scope's transaction is its own, and is open.
    ghost predicate Valid()
      reads this, transaction, staging
    {
      transaction != null ==>
        && transaction.client == client && transaction.staging == staging
        && transaction.stage.Some? && transaction.stage.value < |staging.stages|
        && !transaction.closed && !closed
    }

    // Entering the scope, which is refused once it was entered.
    method Enter(context: nat) returns (refusal: Option<Refusal>)
      requires Valid()
      modifies this, staging
      ensures Valid()
      ensures old(closed) || old(transaction) != null ==>
        refusal == Some(ScopeReused) && transaction == old(transaction) && staging.State() == old(staging.State())
      ensures !old(closed) && old(transaction) == null ==>
        && refusal.None? && transaction != null && fresh(transaction)
        && transaction.stage == Some(|old(staging.stages)|)
        && staging.State() == Begun(old(staging.State()), context)
      ensures closed == old(closed)
    {
      if closed || transaction != null {
        return Some(ScopeReused);
      }
      var begun := new MemoryTransaction(client, staging);
      begun.Begin(context);
      transaction := begun;
      return None;
    }

    // Commits, or rolls back. The scope gives its transaction up first, so it is closed even
    // if the transaction refuses.
    method Finish(context: nat, commit: bool) returns (refusal: Option<Refusal>)
      requires Valid()
      modifies this, transaction, staging, client
      ensures Valid()
      ensures old(transaction) == null ==>
        && refusal == Some(ScopeReused) && closed == old(closed)
        && staging.State() == old(staging.State()) && client.data == old(client.data)
      ensures old(transaction) != null ==>
        && closed && transaction == null
        && refusal == CloseRefusal(old(staging.State()), context, old(transaction.stage).value)
        && staging.State() == Closed(old(staging.State()), context, old(transaction.stage).value)
        && client.data ==
           if commit && refusal.None? then
             Applied(old(client.data), old(staging.stages)[old(transaction.stage).value].mutations)
           else old(client.data)
    {
      if transaction == null {
        return Some(ScopeReused);
      }
      var taken := transaction;
      transaction := null;
      closed := true;
      if commit {
        refusal := taken.Commit(context);
      } else {
        refusal := taken.Rollback(context);
      }
    }

    // Leaving the scope commits after a value and rolls back after an exception, unless the
    // transaction was ended inside.
    method Exit(context: nat, raised: bool) returns (refusal: Option<Refusal>)
      requires Valid()
      modifies this, transaction, staging, client
      ensures Valid()
      ensures old(transaction) == null ==>
        && refusal.None? && closed == old(closed)
        && staging.State() == old(staging.State()) && client.data == old(client.data)
      ensures old(transaction) != null ==>
        && closed && transaction == null
        && refusal == CloseRefusal(old(staging.State()), context, old(transaction.stage).value)
        && staging.State() == Closed(old(staging.State()), context, old(transaction.stage).value)
        && client.data ==
           if !raised && refusal.None? then
             Applied(old(client.data), old(staging.stages)[old(transaction.stage).value].mutations)
           else old(client.data)
    {
      if transaction == null {
        return None;
      }
      refusal := Finish(context, !raised);
    }
  }
}
