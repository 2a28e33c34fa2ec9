// Ordinals within a scope. Each of Next and ResetForCall is one atomic step: their
// critical sections do not suspend.
module Sequencing {
  import opened Wrappers
  import opened Identity

  type Counters = map<Scope, nat>

  function Count(counters: Counters, scope: Scope): nat {
    if scope in counters then counters[scope] else 0
  }

  function Advance(counters: Counters, scope: Scope): Counters {
    counters[scope := Count(counters, scope) + 1]
  }

  function Reset(counters: Counters, id: ExecutionId): Counters {
    map s | s in counters && s.parent != Some(id) :: counters[s]
  }

  class Sequencer {
    var counters: Counters

    constructor ()
      ensures counters == map[]
    {
      counters := map[];
    }

    method Next(parent: Option<ExecutionId>, domain: string, name: string, digest: string)
      returns (sequence: nat)
      modifies this
      ensures sequence == Count(old(counters), Scope(parent, domain, name, digest))
      ensures counters == Advance(old(counters), Scope(parent, domain, name, digest))
    {
      var key := Scope(parent, domain, name, digest);
      if key !in counters {
        counters := counters[key := 0];
      }
      sequence := counters[key];
      counters := counters[key := sequence + 1];
    }

    method ResetForCall(id: ExecutionId)
      modifies this
      ensures counters == Reset(old(counters), id)
    {
      var keysToReset := set s | s in counters && s.parent == Some(id);
      while keysToReset != {}
        invariant keysToReset == set s | s in counters && s.parent == Some(id)
        invariant counters.Keys <= old(counters.Keys)
        invariant forall s :: s in old(counters) && s.parent != Some(id) ==> s in counters
        invariant forall s :: s in counters ==> counters[s] == old(counters)[s]
        decreases |keysToReset|
      {
        var key :| key in keysToReset;
        counters := counters - {key};
        keysToReset := keysToReset - {key};
      }
      assert forall s :: s in counters && s.parent == Some(id) ==> s in keysToReset;
    }
  }

  // ---- One session's steps, by any interleaving of its tasks ------------------------

  // A task numbers a call under its current frame, or starts a call it numbered before:
  // starting resets the call's own scopes and only then makes it a frame.
  datatype Event = Number(scope: Scope) | Start(id: ExecutionId)

  datatype Session = Session(counters: Counters, issued: seq<ExecutionId>, started: set<ExecutionId>)

  const FRESH := Session(map[], [], {})

  ghost predicate Enabled(s: Session, event: Event) {
    match event
    case Number(scope) => scope.parent.Some? ==> scope.parent.value in s.started
    case Start(id) => id in s.issued && id !in s.started
  }

  function Take(s: Session, event: Event): Session {
    match event
    case Number(scope) =>
      s.(counters := Advance(s.counters, scope),
         issued := s.issued + [InScope(scope, Count(s.counters, scope))])
    case Start(id) =>
      s.(counters := Reset(s.counters, id), started := s.started + {id})
  }

  function Play(events: seq<Event>): Session {
    if events == [] then FRESH else Take(Play(events[..|events| - 1]), events[|events| - 1])
  }

  ghost predicate Legal(events: seq<Event>) {
    events != [] ==>
      && Legal(events[..|events| - 1])
      && Enabled(Play(events[..|events| - 1]), events[|events| - 1])
  }

  ghost predicate Invariant(s: Session) {
    && (forall id :: id in s.issued <==> id.sequence < Count(s.counters, ScopeOf(id)))
    && (forall i, j :: 0 <= i < j < |s.issued| ==> s.issued[i] != s.issued[j])
    && (forall scope :: Count(s.counters, scope) > 0 && scope.parent.Some? ==> scope.parent.value in s.started)
    && (forall id :: id in s.started ==> id in s.issued)
  }

  lemma {:induction false} EventKeepsInvariant(s: Session, event: Event)
    requires Invariant(s) && Enabled(s, event)
    ensures Invariant(Take(s, event))
    ensures event.Start? ==> forall scope :: Count(Take(s, event).counters, scope) == Count(s.counters, scope)
  {
    var after := Take(s, event);
    match event
    case Number(scope) =>
      var issued := InScope(scope, Count(s.counters, scope));
      assert ScopeOf(issued) == scope;
      assert issued !in s.issued;
      forall id ensures id in after.issued <==> id.sequence < Count(after.counters, ScopeOf(id)) {
        if ScopeOf(id) == scope && id.sequence == Count(s.counters, scope) {
          assert id == issued;
        }
      }
    case Start(id) =>
      forall scope ensures Count(after.counters, scope) == Count(s.counters, scope) {
        if scope.parent == Some(id) {
          assert id !in s.started;
        }
      }
  }

  lemma {:induction false} PlayKeepsInvariant(events: seq<Event>)
    requires Legal(events)
    ensures Invariant(Play(events))
  {
    if events != [] {
      PlayKeepsInvariant(events[..|events| - 1]);
      EventKeepsInvariant(Play(events[..|events| - 1]), events[|events| - 1]);
    }
  }

  // No two calls of a session share an identity, and the ordinals issued in a scope are
  // exactly the first ones.
  lemma {:induction false} IdentitiesAreUnique(events: seq<Event>)
    requires Legal(events)
    ensures var s := Play(events);
      && (forall i, j :: 0 <= i < j < |s.issued| ==> s.issued[i] != s.issued[j])
      && (forall scope, n: nat :: InScope(scope, n) in s.issued <==> n < Count(s.counters, scope))
  {
    PlayKeepsInvariant(events);
    var s := Play(events);
    forall scope, n: nat ensures InScope(scope, n) in s.issued <==> n < Count(s.counters, scope) {
      assert ScopeOf(InScope(scope, n)) == scope;
    }
  }

  // A call is reset before its first child is numbered: when it starts, no ordinal has
  // been issued in any scope below it, and the reset changes no count.
  lemma {:induction false} ResetPrecedesChildren(events: seq<Event>, id: ExecutionId)
    requires Legal(events) && Enabled(Play(events), Start(id))
    ensures forall child :: child in Play(events).issued ==> child.parent != Some(id)
    ensures forall scope ::
      Count(Reset(Play(events).counters, id), scope) == Count(Play(events).counters, scope)
  {
    PlayKeepsInvariant(events);
    EventKeepsInvariant(Play(events), Start(id));
    forall child | child in Play(events).issued ensures child.parent != Some(id) {
      assert Count(Play(events).counters, ScopeOf(child)) > 0;
    }
  }

  // ---- Content addressing ---------------------------------------------------------

  // The identities a frame's calls get, in order.
  function Numbered(calls: seq<Scope>): (ids: seq<ExecutionId>)
    ensures |ids| == |calls|
  {
    if calls == [] then []
    else
      var init := calls[..|calls| - 1];
      var last := calls[|calls| - 1];
      Numbered(init) + [InScope(last, Count(CountersAfter(init), last))]
  }

  function CountersAfter(calls: seq<Scope>): Counters {
    if calls == [] then map[]
    else Advance(CountersAfter(calls[..|calls| - 1]), calls[|calls| - 1])
  }

  lemma {:induction false} CountIsOccurrences(calls: seq<Scope>, scope: Scope)
    ensures Count(CountersAfter(calls), scope) == multiset(calls)[scope]
  {
    if calls != [] {
      var init := calls[..|calls| - 1];
      CountIsOccurrences(init, scope);
      assert calls == init + [calls[|calls| - 1]];
    }
  }

  lemma {:induction false} NumberedAt(calls: seq<Scope>, i: nat)
    requires i < |calls|
    ensures Numbered(calls)[i] == InScope(calls[i], multiset(calls[..i])[calls[i]])
  {
    var init := calls[..|calls| - 1];
    if i == |calls| - 1 {
      CountIsOccurrences(init, calls[i]);
    } else {
      NumberedAt(init, i);
      assert init[..i] == calls[..i];
    }
  }

  // A call's identity depends only on how many calls of its own scope came before it, so
  // inserting, deleting or reordering calls of other scopes leaves it alone.
  lemma {:induction false} IdentityIgnoresOtherScopes(a: seq<Scope>, i: nat, b: seq<Scope>, j: nat)
    requires i < |a| && j < |b| && a[i] == b[j]
    ensures Numbered(a)[i] == Numbered(b)[j] <==> multiset(a[..i])[a[i]] == multiset(b[..j])[a[i]]
  {
    NumberedAt(a, i);
    NumberedAt(b, j);
  }

  lemma {:induction false} NumberedSet(calls: seq<Scope>, id: ExecutionId)
    ensures id in Numbered(calls) <==> id.sequence < multiset(calls)[ScopeOf(id)]
  {
    if calls != [] {
      var init := calls[..|calls| - 1];
      var last := calls[|calls| - 1];
      NumberedSet(init, id);
      CountIsOccurrences(init, last);
      assert calls == init + [last];
      if ScopeOf(id) == last && id.sequence == multiset(init)[last] {
        assert id == InScope(last, multiset(init)[last]);
      }
    }
  }

  // The set of identities issued depends only on the multiset of calls, not their order.
  lemma {:induction false} IdentitiesIgnoreOrder(a: seq<Scope>, b: seq<Scope>)
    requires multiset(a) == multiset(b)
    ensures forall id :: id in Numbered(a) <==> id in Numbered(b)
  {
    forall id ensures id in Numbered(a) <==> id in Numbered(b) {
      NumberedSet(a, id);
      NumberedSet(b, id);
    }
  }
}
