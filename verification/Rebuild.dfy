// The rebuild as it runs: a worklist of parents, conversions remembered per source scope,
// and a check that no target scope gathers calls from two source scopes.
module Rebuilding {
  import opened Wrappers
  import opened Canonical
  import opened Identity
  import opened Migration
  import opened Conversions

  type Parent = Option<ExecutionId>

  // ---- Children -----------------------------------------------------------------------

  function ChildrenOf(executions: seq<Execution>, parent: Parent): seq<Execution> {
    if executions == [] then []
    else
      var init := ChildrenOf(executions[..|executions| - 1], parent);
      var last := executions[|executions| - 1];
      if last.id.parent == parent then init + [last] else init
  }

  lemma {:induction false} ChildrenExactly(executions: seq<Execution>, parent: Parent, e: Execution)
    ensures e in ChildrenOf(executions, parent) <==> e in executions && e.id.parent == parent
  {
    if executions != [] {
      var init := executions[..|executions| - 1];
      ChildrenExactly(init, parent, e);
      assert executions == init + [executions[|executions| - 1]];
    }
  }

  function Grouped(children: map<Parent, seq<Execution>>, parent: Parent): seq<Execution> {
    if parent in children then children[parent] else []
  }

  method ChildrenByParent(executions: seq<Execution>)
    returns (r: Result<map<Parent, seq<Execution>>, MigrationError>)
    ensures r.Ok? <==> forall e :: e in executions && e.id.parent.Some? ==>
      exists f :: f in executions && f.id == e.id.parent.value
    ensures r.Ok? ==> forall p :: Grouped(r.value, p) == ChildrenOf(executions, p)
    ensures r.Err? ==> r.error == MissingParent
  {
    var known := set e | e in executions :: e.id;
    var children: map<Parent, seq<Execution>> := map[];
    for i := 0 to |executions|
      invariant forall p :: Grouped(children, p) == ChildrenOf(executions[..i], p)
      invariant forall e :: e in executions[..i] && e.id.parent.Some? ==> e.id.parent.value in known
    {
      var parent := executions[i].id.parent;
      if parent.Some? && parent.value !in known {
        return Err(MissingParent);
      }
      children := children[parent := Grouped(children, parent) + [executions[i]]];
      assert executions[..i + 1][..i] == executions[..i];
    }
    assert executions[..|executions|] == executions;
    return Ok(children);
  }

  // ---- Siblings in ordinal order ------------------------------------------------------

  predicate InOrder(s: seq<Execution>) {
    |s| > 1 ==> s[0].id.sequence <= s[1].id.sequence && InOrder(s[1..])
  }

  // The records with one ordinal, in order.
  function WithOrdinal(s: seq<Execution>, n: nat): seq<Execution> {
    if s == [] then [] else (if s[0].id.sequence == n then [s[0]] else []) + WithOrdinal(s[1..], n)
  }

  // Insertion goes after equal ordinals.
  function Insert(s: seq<Execution>, e: Execution): (r: seq<Execution>)
    requires InOrder(s)
    ensures InOrder(r) && multiset(r) == multiset(s) + multiset{e}
    ensures r[0] == e || (s != [] && r[0] == s[0])
  {
    if s == [] || e.id.sequence < s[0].id.sequence then [e] + s
    else
      assert s == [s[0]] + s[1..];
      [s[0]] + Insert(s[1..], e)
  }

  // sorted(..., key=lambda e: e.id.sequence)
  function BySequence(s: seq<Execution>): (r: seq<Execution>)
    ensures InOrder(r) && multiset(r) == multiset(s)
  {
    if s == [] then []
    else
      assert s == s[..|s| - 1] + [s[|s| - 1]];
      Insert(BySequence(s[..|s| - 1]), s[|s| - 1])
  }

  lemma {:induction false} OrdinalFirst(e: Execution, s: seq<Execution>, n: nat)
    ensures WithOrdinal([e] + s, n) == WithOrdinal([e], n) + WithOrdinal(s, n)
    ensures e.id.sequence != n ==> WithOrdinal([e], n) == []
  {
    assert ([e] + s)[1..] == s;
  }

  lemma {:induction false} InsertIsStable(s: seq<Execution>, e: Execution, n: nat)
    requires InOrder(s)
    ensures WithOrdinal(Insert(s, e), n) == WithOrdinal(s, n) + WithOrdinal([e], n)
  {
    hide WithOrdinal;
    if s == [] || e.id.sequence < s[0].id.sequence {
      StableInFront(s, e, n);
    } else {
      InsertIsStable(s[1..], e, n);
      StableBehind(s, Insert(s[1..], e), e, n);
    }
  }

  lemma {:induction false} StableInFront(s: seq<Execution>, e: Execution, n: nat)
    requires InOrder(s) && (s != [] ==> e.id.sequence < s[0].id.sequence)
    ensures WithOrdinal([e] + s, n) == WithOrdinal(s, n) + WithOrdinal([e], n)
  {
    hide WithOrdinal;
    OrdinalFirst(e, s, n);
    if n == e.id.sequence {
      NoneSmaller(s, n);
    }
  }

  lemma {:induction false} StableBehind(s: seq<Execution>, inserted: seq<Execution>, e: Execution, n: nat)
    requires s != [] && WithOrdinal(inserted, n) == WithOrdinal(s[1..], n) + WithOrdinal([e], n)
    ensures WithOrdinal([s[0]] + inserted, n) == WithOrdinal(s, n) + WithOrdinal([e], n)
  {
    hide WithOrdinal;
    OrdinalFirst(s[0], inserted, n);
    OrdinalFirst(s[0], s[1..], n);
    assert [s[0]] + s[1..] == s;
  }

  lemma {:induction false} NoneSmaller(s: seq<Execution>, n: nat)
    requires InOrder(s) && (s != [] ==> n < s[0].id.sequence)
    ensures WithOrdinal(s, n) == []
  {
    if s != [] { NoneSmaller(s[1..], n); }
  }

  lemma {:induction false} OrdinalLast(s: seq<Execution>, e: Execution, n: nat)
    ensures WithOrdinal(s + [e], n) == WithOrdinal(s, n) + WithOrdinal([e], n)
  {
    if s == [] {
      assert s + [e] == [e];
    } else {
      OrdinalLast(s[1..], e, n);
      assert (s + [e])[1..] == s[1..] + [e];
    }
  }

  lemma {:induction false} LastOrdinal(s: seq<Execution>, n: nat)
    requires s != []
    ensures WithOrdinal(s, n) == WithOrdinal(s[..|s| - 1], n) + WithOrdinal([s[|s| - 1]], n)
  {
    OrdinalLast(s[..|s| - 1], s[|s| - 1], n);
    assert s[..|s| - 1] + [s[|s| - 1]] == s;
  }

  // The sort is stable: records with one ordinal keep their order.
  lemma {:induction false} BySequenceIsStable(s: seq<Execution>, n: nat)
    ensures WithOrdinal(BySequence(s), n) == WithOrdinal(s, n)
  {
    if s != [] {
      var init, last := s[..|s| - 1], s[|s| - 1];
      BySequenceIsStable(init, n);
      InsertIsStable(BySequence(init), last, n);
      hide WithOrdinal, Insert;
      LastOrdinal(s, n);
    }
  }

  // ---- The worklist ---------------------------------------------------------------------

  // The variables of the rebuild, with what they stand for: the source records done so
  // far, every record looked at, and the parents already popped.
  datatype Work = Work(
    migrated: seq<Execution>,
    arguments: map<Scope, CanonicalArguments>,
    targets: map<Scope, set<Scope>>,
    stack: seq<(Parent, Parent)>,
    done: set<ExecutionId>,
    seen: set<ExecutionId>,
    popped: set<Parent>)

  function Ids(executions: seq<Execution>): set<ExecutionId> {
    if executions == [] then {}
    else Ids(executions[..|executions| - 1]) + {executions[|executions| - 1].id}
  }

  function Waiting(stack: seq<(Parent, Parent)>): set<Parent> {
    if stack == [] then {}
    else Waiting(stack[..|stack| - 1]) + {stack[|stack| - 1].0}
  }

  function Parents(done: set<ExecutionId>): set<Parent> {
    {None} + set x | x in done :: Some(x)
  }

  // A waiting parent carries its own image, and waits once.
  ghost predicate Stacked(c: Context, stack: seq<(Parent, Parent)>) {
    stack != [] ==>
      var init, last := stack[..|stack| - 1], stack[|stack| - 1];
      Stacked(c, init) && last.0 !in Waiting(init) && last.1 == ImageParent(c, last.0)
  }

  // Identities are distinct, and a parent comes before its children.
  ghost predicate Ordered(migrated: seq<Execution>) {
    migrated != [] ==>
      var init, last := migrated[..|migrated| - 1], migrated[|migrated| - 1];
      && Ordered(init)
      && last.id !in Ids(init)
      && (last.id.parent.Some? ==> last.id.parent.value in Ids(init))
  }

  // Every parent is either popped or waiting, never both.
  ghost predicate Scheduled(c: Context, stack: seq<(Parent, Parent)>, popped: set<Parent>, done: set<ExecutionId>) {
    && Stacked(c, stack)
    && Waiting(stack) + popped == Parents(done)
    && Waiting(stack) !! popped
  }

  // Records are looked at under a popped parent and are acceptable; the survivors among
  // them are done. The parents in `current` may have children still to come.
  ghost predicate Visited(
    c: Context, seen: set<ExecutionId>, popped: set<Parent>, done: set<ExecutionId>, current: set<Parent>)
  {
    && done <= seen
    && (forall x :: x in seen ==>
        && x in c.recorded && x.parent in popped
        && NewArguments(c.plan, c.canonicalize, c.recorded[x]).Ok?
        && (x in done <==> !DropsCall(c, x)))
    && (forall x :: x in c.recorded && x.parent in popped && x.parent !in current ==> x in seen)
  }

  ghost predicate Emitted(c: Context, migrated: seq<Execution>, done: set<ExecutionId>) {
    && Ordered(migrated)
    && (forall x :: x in done ==> Survives(c, x) && x in c.recorded)
    && (forall x :: x in done ==> Image(c, c.recorded[x]) in migrated)
    && (forall e :: e in migrated ==> FromDone(c, done, e))
    && Ids(migrated) == set x | x in done :: ImageId(c, x)
  }

  ghost predicate FromDone(c: Context, done: set<ExecutionId>, e: Execution) {
    exists x :: x in done && x in c.recorded && e == Image(c, c.recorded[x])
  }

  // A remembered conversion is that of every record of its scope.
  ghost predicate Remembered(c: Context, arguments: map<Scope, CanonicalArguments>) {
    forall x :: x in c.recorded && ScopeOf(x) in arguments ==>
      ImageArguments(c, x) == Some(arguments[ScopeOf(x)])
  }

  // A target scope has seen the one source scope of the records that landed on it.
  ghost predicate Gathered(c: Context, targets: map<Scope, set<Scope>>, done: set<ExecutionId>) {
    && (forall x :: x in done ==>
        ScopeOf(ImageId(c, x)) in targets && targets[ScopeOf(ImageId(c, x))] == {ScopeOf(x)})
    && (forall t :: t in targets ==> Claimed(c, done, t))
  }

  ghost predicate Claimed(c: Context, done: set<ExecutionId>, target: Scope) {
    exists x :: x in done && ScopeOf(ImageId(c, x)) == target
  }

  ghost predicate Invariant(c: Context, w: Work, current: set<Parent>) {
    && Scheduled(c, w.stack, w.popped, w.done)
    && Visited(c, w.seen, w.popped, w.done, current)
    && Emitted(c, w.migrated, w.done)
    && Remembered(c, w.arguments)
    && Gathered(c, w.targets, w.done)
  }

  ghost predicate Consistent(c: Context) {
    && ParentsKnown(c) && CollisionFree(c.recorded)
    && (forall x :: x in c.recorded ==> c.recorded[x].id == x && c.recorded[x].arguments.digest == x.digest)
  }

  // A record whose parent was popped is reached.
  lemma {:induction false} PoppedIsReached(c: Context, w: Work, current: set<Parent>, x: ExecutionId)
    requires Invariant(c, w, current) && x.parent in w.popped
    ensures ParentSurvives(c, x)
    ensures x.parent.Some? ==> x.parent.value in w.done
  {
    assert x.parent in Parents(w.done);
  }

  lemma {:induction false} SameScopeSameArguments(c: Context, x: ExecutionId, y: ExecutionId)
    requires CollisionFree(c.recorded) && x in c.recorded && y in c.recorded && ScopeOf(x) == ScopeOf(y)
    requires c.recorded[x].id == x && c.recorded[y].id == y
    ensures ImageArguments(c, x) == ImageArguments(c, y)
    ensures ScopeOf(ImageId(c, x)) == ScopeOf(ImageId(c, y))
  {
    var e, f := c.recorded[x], c.recorded[y];
    assert e.arguments == f.arguments && RuleFor(c.plan, x) == RuleFor(c.plan, y);
    assert NewArguments(c.plan, c.canonicalize, e) == NewArguments(c.plan, c.canonicalize, f);
  }

  lemma {:induction false} PopSchedules(
    c: Context, stack: seq<(Parent, Parent)>, popped: set<Parent>, done: set<ExecutionId>)
    requires Scheduled(c, stack, popped, done) && stack != []
    ensures var last := stack[|stack| - 1];
      && last.0 !in popped && last.1 == ImageParent(c, last.0)
      && Scheduled(c, stack[..|stack| - 1], popped + {last.0}, done)
  {
    assert stack[|stack| - 1].0 in Waiting(stack);
  }

  lemma {:induction false} PopVisits(
    c: Context, seen: set<ExecutionId>, popped: set<Parent>, done: set<ExecutionId>, parent: Parent)
    requires Visited(c, seen, popped, done, {}) && parent !in popped
    ensures Visited(c, seen, popped + {parent}, done, {parent})
    ensures forall x :: x in seen ==> x.parent != parent
  {
  }

  lemma {:induction false} PopKeeps(c: Context, w: Work)
    requires Invariant(c, w, {}) && w.stack != []
    ensures var last := w.stack[|w.stack| - 1];
      && last.1 == ImageParent(c, last.0)
      && Invariant(c, w.(stack := w.stack[..|w.stack| - 1], popped := w.popped + {last.0}), {last.0})
      && (forall x :: x in w.seen ==> x.parent != last.0)
  {
    hide Scheduled, Visited, Emitted, Remembered, Gathered;
    PopSchedules(c, w.stack, w.popped, w.done);
    PopVisits(c, w.seen, w.popped, w.done, w.stack[|w.stack| - 1].0);
  }

  lemma {:induction false} DropKeeps(c: Context, w: Work, current: set<Parent>, x: ExecutionId)
    requires Invariant(c, w, current) && x in c.recorded && x.parent in w.popped && DropsCall(c, x)
    requires x !in w.seen && NewArguments(c.plan, c.canonicalize, c.recorded[x]).Ok?
    ensures Invariant(c, w.(seen := w.seen + {x}), current)
  {
    hide Emitted, Remembered, Gathered, Scheduled;
  }

  function Emit(c: Context, w: Work, x: ExecutionId): Work
    requires x in c.recorded && ImageArguments(c, x).Some?
  {
    w.(migrated := w.migrated + [Image(c, c.recorded[x])],
       arguments := w.arguments[ScopeOf(x) := ImageArguments(c, x).value],
       targets := w.targets[ScopeOf(ImageId(c, x)) := {ScopeOf(x)}],
       stack := w.stack + [(Some(x), Some(ImageId(c, x)))],
       done := w.done + {x},
       seen := w.seen + {x})
  }

  lemma {:induction false} EmitSchedules(
    c: Context, stack: seq<(Parent, Parent)>, popped: set<Parent>, done: set<ExecutionId>, x: ExecutionId)
    requires Scheduled(c, stack, popped, done) && x !in done
    ensures Scheduled(c, stack + [(Some(x), Some(ImageId(c, x)))], popped, done + {x})
  {
    var after := stack + [(Some(x), Some(ImageId(c, x)))];
    assert after[..|stack|] == stack;
    assert Some(x) !in Parents(done);
    assert Parents(done + {x}) == Parents(done) + {Some(x)};
  }

  lemma {:induction false} EmitVisits(
    c: Context, seen: set<ExecutionId>, popped: set<Parent>, done: set<ExecutionId>, current: set<Parent>,
    x: ExecutionId)
    requires Visited(c, seen, popped, done, current) && x in c.recorded && x.parent in popped
    requires !DropsCall(c, x) && ImageArguments(c, x).Some?
    ensures Visited(c, seen + {x}, popped, done + {x}, current)
  {
  }

  // A new record's identity is new: its target scope has seen no other source scope.
  lemma {:induction false} EmitIsNew(
    c: Context, targets: map<Scope, set<Scope>>, done: set<ExecutionId>, x: ExecutionId)
    requires Gathered(c, targets, done) && x !in done
    requires ScopeOf(ImageId(c, x)) in targets ==> targets[ScopeOf(ImageId(c, x))] == {ScopeOf(x)}
    ensures forall y :: y in done ==> ImageId(c, y) != ImageId(c, x)
  {
    forall y | y in done ensures ImageId(c, y) != ImageId(c, x) {
      var target := ScopeOf(ImageId(c, y));
      assert targets[target] == {ScopeOf(y)};
      assert target == ScopeOf(ImageId(c, x)) ==> ScopeOf(y) in {ScopeOf(x)};
    }
  }

  lemma {:induction false} EmitEmits(c: Context, migrated: seq<Execution>, done: set<ExecutionId>, x: ExecutionId)
    requires Emitted(c, migrated, done)
    requires forall y :: y in done ==> ImageId(c, y) != ImageId(c, x)
    requires x in c.recorded && c.recorded[x].id == x && Survives(c, x)
    requires x.parent.Some? ==> x.parent.value in done
    ensures Emitted(c, migrated + [Image(c, c.recorded[x])], done + {x})
  {
    var e := Image(c, c.recorded[x]);
    var after := migrated + [e];
    assert after[..|migrated|] == migrated;
    assert Ids(after) == Ids(migrated) + {ImageId(c, x)};
    forall f | f in after ensures FromDone(c, done + {x}, f) {
      if f in migrated { assert FromDone(c, done, f); }
    }
    forall y | y in done + {x} ensures Image(c, c.recorded[y]) in after {
      if y != x { assert Image(c, c.recorded[y]) in migrated; }
    }
  }

  lemma {:induction false} EmitRemembers(c: Context, arguments: map<Scope, CanonicalArguments>, x: ExecutionId)
    requires Consistent(c) && Remembered(c, arguments) && x in c.recorded && ImageArguments(c, x).Some?
    ensures Remembered(c, arguments[ScopeOf(x) := ImageArguments(c, x).value])
  {
    forall y | y in c.recorded && ScopeOf(y) == ScopeOf(x) ensures ImageArguments(c, y) == ImageArguments(c, x) {
      SameScopeSameArguments(c, x, y);
    }
  }

  lemma {:induction false} EmitGathers(
    c: Context, targets: map<Scope, set<Scope>>, done: set<ExecutionId>, x: ExecutionId)
    requires Gathered(c, targets, done)
    requires ScopeOf(ImageId(c, x)) in targets ==> targets[ScopeOf(ImageId(c, x))] == {ScopeOf(x)}
    ensures Gathered(c, targets[ScopeOf(ImageId(c, x)) := {ScopeOf(x)}], done + {x})
  {
    var target := ScopeOf(ImageId(c, x));
    assert Claimed(c, done + {x}, target);
    forall t | t in targets ensures Claimed(c, done + {x}, t) {
      assert Claimed(c, done, t);
    }
    forall y | y in done && ScopeOf(ImageId(c, y)) == target ensures {ScopeOf(y)} == {ScopeOf(x)} {
      assert targets[target] == {ScopeOf(y)};
    }
  }

  lemma {:induction false} EmitKeeps(c: Context, w: Work, current: set<Parent>, x: ExecutionId)
    requires Consistent(c) && Invariant(c, w, current)
    requires x in c.recorded && x !in w.seen && x.parent in w.popped && !DropsCall(c, x)
    requires ImageArguments(c, x).Some?
    requires ScopeOf(ImageId(c, x)) in w.targets ==> w.targets[ScopeOf(ImageId(c, x))] == {ScopeOf(x)}
    ensures Invariant(c, Emit(c, w, x), current)
  {
    hide Remembered, Gathered, Emitted, Scheduled;
    PoppedIsReached(c, w, current, x);
    EmitIsNew(c, w.targets, w.done, x);
    EmitSchedules(c, w.stack, w.popped, w.done, x);
    EmitVisits(c, w.seen, w.popped, w.done, current, x);
    EmitEmits(c, w.migrated, w.done, x);
    EmitRemembers(c, w.arguments, x);
    EmitGathers(c, w.targets, w.done, x);
  }

  // ---- The end of the worklist -----------------------------------------------------------

  lemma {:induction false} SurvivorsAreDone(c: Context, w: Work, x: ExecutionId)
    requires Consistent(c) && Invariant(c, w, {}) && w.stack == []
    requires x in c.recorded && ParentSurvives(c, x)
    ensures x in w.seen && (Survives(c, x) ==> x in w.done)
  {
    if x.parent.Some? {
      SurvivorsAreDone(c, w, x.parent.value);
    }
    assert x.parent in Parents(w.done);
  }

  lemma {:induction false} OrderedInFull(migrated: seq<Execution>)
    requires Ordered(migrated)
    ensures forall id :: id in Ids(migrated) <==> exists i :: 0 <= i < |migrated| && migrated[i].id == id
    ensures forall i, j :: 0 <= i < j < |migrated| ==> migrated[i].id != migrated[j].id
    ensures forall i :: 0 <= i < |migrated| && migrated[i].id.parent.Some? ==>
      exists j :: 0 <= j < i && Some(migrated[j].id) == migrated[i].id.parent
  {
    if migrated != [] {
      var n := |migrated| - 1;
      var init := migrated[..n];
      OrderedInFull(init);
      assert forall i :: 0 <= i < n ==> init[i] == migrated[i];
      forall id ensures id in Ids(migrated) <==> exists i :: 0 <= i < |migrated| && migrated[i].id == id {
        if id in Ids(init) {
          var i :| 0 <= i < n && init[i].id == id;
          assert migrated[i].id == id;
        }
        if i :| 0 <= i < |migrated| && migrated[i].id == id {
          assert i < n ==> init[i].id == id;
        }
      }
      forall i | 0 <= i < |migrated| && migrated[i].id.parent.Some?
        ensures exists j :: 0 <= j < i && Some(migrated[j].id) == migrated[i].id.parent
      {
        if i < n {
          var j :| 0 <= j < i && Some(init[j].id) == init[i].id.parent;
          assert Some(migrated[j].id) == migrated[i].id.parent;
        } else {
          var j :| 0 <= j < n && init[j].id == migrated[n].id.parent.value;
          assert Some(migrated[j].id) == migrated[n].id.parent;
        }
      }
    }
  }

  lemma {:induction false} FinishedIsRebuild(c: Context, w: Work)
    requires Consistent(c) && Invariant(c, w, {}) && w.stack == []
    ensures IsRebuild(c, w.migrated)
  {
    OrderedInFull(w.migrated);
    forall x | x in c.recorded && Survives(c, x) ensures Image(c, c.recorded[x]) in w.migrated {
      SurvivorsAreDone(c, w, x);
    }
    forall e | e in w.migrated
      ensures exists x :: x in c.recorded && Survives(c, x) && e == Image(c, c.recorded[x])
    {
      assert FromDone(c, w.done, e);
    }
  }

  lemma {:induction false} FinishedAccepts(c: Context, w: Work)
    requires Consistent(c) && Invariant(c, w, {}) && w.stack == []
    ensures Accepts(c)
  {
    forall x, error ensures !Refuses(c, x, error) {
      if x in c.recorded && ParentSurvives(c, x) { SurvivorsAreDone(c, w, x); }
    }
    forall x, y ensures !Gathers(c, x, y) {
      if x in c.recorded && y in c.recorded && Survives(c, x) && Survives(c, y) {
        SurvivorsAreDone(c, w, x);
        SurvivorsAreDone(c, w, y);
        if ScopeOf(ImageId(c, x)) == ScopeOf(ImageId(c, y)) {
          assert w.targets[ScopeOf(ImageId(c, x))] == {ScopeOf(x)};
          assert ScopeOf(y) in {ScopeOf(x)};
        }
      }
    }
  }

  // ---- Unique records stay unique when grouped and sorted ---------------------------------

  ghost predicate UniqueIds(executions: seq<Execution>) {
    forall i, j :: 0 <= i < j < |executions| ==> executions[i].id != executions[j].id
  }

  function ById(executions: seq<Execution>): (r: map<ExecutionId, Execution>)
    requires UniqueIds(executions)
    ensures Indexes(r, executions)
  {
    if executions == [] then map[]
    else
      var last := executions[|executions| - 1];
      var init := ById(executions[..|executions| - 1]);
      assert executions == executions[..|executions| - 1] + [last];
      assert last.id !in init;
      init[last.id := last]
  }

  lemma {:induction false} GroupIsUnique(executions: seq<Execution>, parent: Parent, e: Execution)
    requires UniqueIds(executions)
    ensures multiset(ChildrenOf(executions, parent))[e] <= multiset(executions)[e] <= 1
  {
    if executions != [] {
      var last := executions[|executions| - 1];
      var init := executions[..|executions| - 1];
      GroupIsUnique(init, parent, e);
      assert executions == init + [last];
      assert e == last ==> e !in init;
    }
  }

  lemma {:induction false} SortedIsUnique(group: seq<Execution>, children: seq<Execution>)
    requires multiset(group) == multiset(children) && forall e :: multiset(children)[e] <= 1
    ensures forall i, j :: 0 <= i < j < |group| ==> group[i] != group[j]
  {
    forall i, j | 0 <= i < j < |group| ensures group[i] != group[j] {
      assert group == group[..j] + [group[j]] + group[j + 1..];
      assert group[..j][i] == group[i];
      assert multiset(group)[group[j]] == multiset(group[..j])[group[j]] + 1 + multiset(group[j + 1..])[group[j]];
      assert group[i] in multiset(group[..j]);
    }
  }

  // The siblings in the order they are visited: each child once.
  lemma {:induction false} SiblingsAreTheChildren(executions: seq<Execution>, parent: Parent)
    requires UniqueIds(executions)
    ensures var group := BySequence(ChildrenOf(executions, parent));
      && (forall e :: e in group <==> e in executions && e.id.parent == parent)
      && (forall i, j :: 0 <= i < j < |group| ==> group[i].id != group[j].id)
  {
    var children := ChildrenOf(executions, parent);
    var group := BySequence(children);
    forall e ensures multiset(children)[e] <= 1 { GroupIsUnique(executions, parent, e); }
    SortedIsUnique(group, children);
    forall e ensures e in group <==> e in executions && e.id.parent == parent {
      SiblingExactly(executions, parent, e);
    }
    forall i, j | 0 <= i < j < |group| ensures group[i].id != group[j].id {
      assert group[i] in executions && group[j] in executions && group[i] != group[j];
    }
  }

  lemma {:induction false} SiblingExactly(executions: seq<Execution>, parent: Parent, e: Execution)
    ensures e in BySequence(ChildrenOf(executions, parent)) <==> e in executions && e.id.parent == parent
  {
    var children := ChildrenOf(executions, parent);
    ChildrenExactly(executions, parent, e);
    assert e in BySequence(children) <==> e in multiset(BySequence(children));
    assert e in children <==> e in multiset(children);
  }

  // ---- The method ------------------------------------------------------------------------

  lemma {:induction false} RefusedCause(c: Context, w: Work, current: set<Parent>, x: ExecutionId, error: MigrationError)
    requires Invariant(c, w, current) && x in c.recorded && x.parent in w.popped
    requires NewArguments(c.plan, c.canonicalize, c.recorded[x]) == Err(error)
    ensures Cause(c, error)
  {
    PoppedIsReached(c, w, current, x);
    assert Refuses(c, x, error);
  }

  lemma {:induction false} AmbiguousCause(c: Context, w: Work, current: set<Parent>, x: ExecutionId)
    requires Invariant(c, w, current) && x in c.recorded && x.parent in w.popped && !DropsCall(c, x)
    requires ScopeOf(ImageId(c, x)) in w.targets && w.targets[ScopeOf(ImageId(c, x))] != {ScopeOf(x)}
    ensures Cause(c, Ambiguous)
  {
    PoppedIsReached(c, w, current, x);
    assert Claimed(c, w.done, ScopeOf(ImageId(c, x)));
    var y :| y in w.done && ScopeOf(ImageId(c, y)) == ScopeOf(ImageId(c, x));
    assert Gathers(c, y, x);
  }

  // What the loop computes for a record that is not dropped, from what it remembers.
  lemma {:induction false} Computed(c: Context, w: Work, current: set<Parent>, e: Execution)
    requires Consistent(c) && Invariant(c, w, current)
    requires e.id in c.recorded && c.recorded[e.id] == e && e.id.parent in w.popped && !DropsCall(c, e.id)
    ensures ScopeOf(e.id) in w.arguments ==> ImageArguments(c, e.id) == Some(w.arguments[ScopeOf(e.id)])
    ensures ImageArguments(c, e.id).Some? ==>
      var arguments := ImageArguments(c, e.id).value;
      var scope := Scope(ImageParent(c, e.id.parent), e.id.domain, NewName(c.plan, e.id), arguments.digest);
      && scope == ScopeOf(ImageId(c, e.id)) && InScope(scope, e.id.sequence) == ImageId(c, e.id)
      && Image(c, e) == e.(id := ImageId(c, e.id), arguments := arguments)
    ensures var target := ScopeOf(ImageId(c, e.id));
      target in w.targets ==>
        (|w.targets[target] + {ScopeOf(e.id)}| > 1 <==> w.targets[target] != {ScopeOf(e.id)})
  {
    hide Scheduled, Visited, Emitted;
    var target := ScopeOf(ImageId(c, e.id));
    if target in w.targets {
      assert Claimed(c, w.done, target);
      var y :| y in w.done && ScopeOf(ImageId(c, y)) == target;
      assert w.targets[target] == {ScopeOf(y)};
      if ScopeOf(y) != ScopeOf(e.id) {
        assert |{ScopeOf(y), ScopeOf(e.id)}| == 2;
        assert w.targets[target] + {ScopeOf(e.id)} == {ScopeOf(y), ScopeOf(e.id)};
      }
    }
  }

  lemma {:induction false} Fewer(all: set<ExecutionId>, before: set<ExecutionId>, after: set<ExecutionId>, x: ExecutionId)
    requires before <= after && x in all && x in after && x !in before
    ensures |all - after| < |all - before|
  {
    SubsetSize(all - after, all - before - {x});
    assert x in all - before;
  }

  lemma {:induction false} SubsetSize(a: set<ExecutionId>, b: set<ExecutionId>)
    requires a <= b
    ensures |a| <= |b|
  {
    if a != {} {
      var x :| x in a;
      SubsetSize(a - {x}, b - {x});
    }
  }

  lemma {:induction false} StartsInvariant(c: Context)
    ensures Invariant(c, Work([], map[], map[], [(None, None)], {}, {}, {}), {})
  {
    var stack: seq<(Parent, Parent)> := [(None, None)];
    assert stack[..0] == [];
    assert Waiting(stack) == {None};
    assert Parents({}) == {None};
  }

  lemma {:induction false} ClosesParent(c: Context, w: Work, parent: Parent)
    requires Invariant(c, w, {parent})
    requires forall x :: x in c.recorded && x.parent == parent ==> x in w.seen
    ensures Invariant(c, w, {})
  {
    hide Scheduled, Emitted, Remembered, Gathered;
  }

  lemma {:induction false} ByIdIsConsistent(plan: Plan, canonicalize: Canonicalizer, executions: seq<Execution>)
    requires UniqueIds(executions) && CollisionFree(ById(executions))
    requires forall e :: e in executions ==> ValidExecution(e)
    requires forall e :: e in executions && e.id.parent.Some? ==>
      exists f :: f in executions && f.id == e.id.parent.value
    ensures Consistent(Context(plan, canonicalize, ById(executions)))
  {
  }

  lemma {:induction false} MissingCause(plan: Plan, canonicalize: Canonicalizer, executions: seq<Execution>)
    requires UniqueIds(executions)
    requires !forall e :: e in executions && e.id.parent.Some? ==>
      exists f :: f in executions && f.id == e.id.parent.value
    ensures Cause(Context(plan, canonicalize, ById(executions)), MissingParent)
  {
    var recorded := ById(executions);
    var e :| e in executions && e.id.parent.Some? && !exists f :: f in executions && f.id == e.id.parent.value;
    assert e.id in recorded;
    assert forall x :: x in recorded ==> recorded[x] in executions && recorded[x].id == x;
    assert !ParentsKnown(Context(plan, canonicalize, recorded));
  }

  // The runner and the variables of its rebuild.
  class Runner {
    const plan: Plan
    const canonicalize: Canonicalizer
    var migrated: seq<Execution>
    var argumentsBySource: map<Scope, CanonicalArguments>
    var sourcesByTarget: map<Scope, set<Scope>>
    var stack: seq<(Parent, Parent)>
    ghost var done: set<ExecutionId>
    ghost var seen: set<ExecutionId>
    ghost var popped: set<Parent>

    constructor (plan: Plan, canonicalize: Canonicalizer)
      ensures this.plan == plan && this.canonicalize == canonicalize
      ensures State() == Work([], map[], map[], [(None, None)], {}, {}, {})
    {
      this.plan, this.canonicalize := plan, canonicalize;
      migrated, argumentsBySource, sourcesByTarget := [], map[], map[];
      stack := [(None, None)];
      done, seen, popped := {}, {}, {};
    }

    ghost function State(): Work
      reads this
    {
      Work(migrated, argumentsBySource, sourcesByTarget, stack, done, seen, popped)
    }

    // One conversion answers for all records of a source scope.
    method Convert(execution: Execution, ghost c: Context) returns (r: Result<CanonicalArguments, MigrationError>)
      requires c.plan == plan && c.canonicalize == canonicalize
      requires execution.id in c.recorded && c.recorded[execution.id] == execution
      requires ScopeOf(execution.id) in argumentsBySource ==>
        ImageArguments(c, execution.id) == Some(argumentsBySource[ScopeOf(execution.id)])
      modifies this`argumentsBySource
      ensures r.Err? ==>
        NewArguments(plan, canonicalize, execution) == Err(r.error) && Unfit(plan, canonicalize, execution, r.error)
      ensures r.Ok? && !(HasRule(plan, execution.id) && plan.rules[execution.id.name].Drop?) ==>
        exists name :: Converted(plan, canonicalize, execution, name, r.value)
      ensures r.Ok? ==>
        && ImageArguments(c, execution.id) == Some(r.value)
        && argumentsBySource == old(argumentsBySource)[ScopeOf(execution.id) := r.value]
    {
      ConvertedOrUnfit(plan, canonicalize, execution);
      hide Unfit, Converted;
      var source := ScopeOf(execution.id);
      if source !in argumentsBySource {
        var converted := NewArguments(plan, canonicalize, execution);
        if converted.Err? {
          return Err(converted.error);
        }
        argumentsBySource := argumentsBySource[source := converted.value];
      }
      return Ok(argumentsBySource[source]);
    }

    // The new identity, unless its scope already holds calls from another source scope.
    method Place(execution: Execution, arguments: CanonicalArguments, newParent: Parent) returns (ambiguous: bool)
      modifies this
      ensures
        var scope := Scope(newParent, execution.id.domain, NewName(plan, execution.id), arguments.digest);
        var source := ScopeOf(execution.id);
        var sources := if scope in old(sourcesByTarget) then old(sourcesByTarget)[scope] else {};
        var newId := InScope(scope, execution.id.sequence);
        && ambiguous == (|sources + {source}| > 1)
        && State() == if ambiguous then old(State()) else old(State()).(
             migrated := old(migrated) + [execution.(id := newId, arguments := arguments)],
             targets := old(sourcesByTarget)[scope := sources + {source}],
             stack := old(stack) + [(Some(execution.id), Some(newId))],
             done := old(done) + {execution.id},
             seen := old(seen) + {execution.id})
    {
      var scope := Scope(newParent, execution.id.domain, NewName(plan, execution.id), arguments.digest);
      var sources := (if scope in sourcesByTarget then sourcesByTarget[scope] else {}) + {ScopeOf(execution.id)};
      if |sources| > 1 {
        return true;
      }
      sourcesByTarget := sourcesByTarget[scope := sources];
      var newId := InScope(scope, execution.id.sequence);
      migrated := migrated + [execution.(id := newId, arguments := arguments)];
      stack := stack + [(Some(execution.id), Some(newId))];
      done, seen := done + {execution.id}, seen + {execution.id};
      return false;
    }

    // One record: checked and dropped with everything below it, or given its new identity.
    method Visit(execution: Execution, newParent: Parent, ghost c: Context, ghost current: set<Parent>)
      returns (refusal: Option<MigrationError>)
      requires Consistent(c) && c.plan == plan && c.canonicalize == canonicalize
      requires Invariant(c, State(), current)
      requires execution.id in c.recorded && c.recorded[execution.id] == execution
      requires execution.id.parent in popped && newParent == ImageParent(c, execution.id.parent)
      requires execution.id !in seen
      modifies this
      ensures refusal.Some? ==> Cause(c, refusal.value)
      ensures refusal.None? ==>
        && Invariant(c, State(), current)
        && popped == old(popped) && seen == old(seen) + {execution.id}
    {
      hide Invariant, Survives, ImageId, Image, ImageParent, Cause, Consistent;
      ghost var w := State();
      var rule := RuleFor(plan, execution.id);
      if rule.Some? && rule.value.Drop? {
        var recorded := Recorded(execution, rule.value.source);
        if recorded.Err? {
          RefusedCause(c, w, current, execution.id, recorded.error);
          return Some(recorded.error);
        }
        DropKeeps(c, w, current, execution.id);
        seen := seen + {execution.id};
        return None;
      }
      hide NewArguments, NewName, ImageArguments;
      Computed(c, w, current, execution);
      var arguments := Convert(execution, c);
      if arguments.Err? {
        RefusedCause(c, w, current, execution.id, arguments.error);
        return Some(arguments.error);
      }
      var ambiguous := Place(execution, arguments.value, newParent);
      if ambiguous {
        AmbiguousCause(c, w, current, execution.id);
        return Some(Ambiguous);
      }
      EmitKeeps(c, w, current, execution.id);
      assert State() == Emit(c, w, execution.id) by {
        ghost var scope := ScopeOf(ImageId(c, execution.id));
        assert (if scope in w.targets then w.targets[scope] else {}) + {ScopeOf(execution.id)} == {ScopeOf(execution.id)};
      }
      return None;
    }

    // The siblings under one popped parent, in ordinal order.
    method VisitSiblings(siblings: seq<Execution>, newParent: Parent, ghost c: Context, ghost oldParent: Parent)
      returns (refusal: Option<MigrationError>)
      requires Consistent(c) && c.plan == plan && c.canonicalize == canonicalize
      requires Invariant(c, State(), {oldParent})
      requires oldParent in popped && newParent == ImageParent(c, oldParent)
      requires forall e :: e in siblings ==>
        e.id in c.recorded && c.recorded[e.id] == e && e.id.parent == oldParent && e.id !in seen
      requires forall i, j :: 0 <= i < j < |siblings| ==> siblings[i].id != siblings[j].id
      modifies this
      ensures refusal.Some? ==> Cause(c, refusal.value)
      ensures refusal.None? ==>
        && Invariant(c, State(), {oldParent})
        && popped == old(popped) && seen == old(seen) + set e | e in siblings :: e.id
      ensures refusal.None? && siblings == [] ==> State() == old(State())
    {
      hide Invariant, ImageParent, Cause, Consistent;
      for i := 0 to |siblings|
        invariant Invariant(c, State(), {oldParent}) && popped == old(popped)
        invariant seen == old(seen) + set e | e in siblings[..i] :: e.id
        invariant i == 0 ==> State() == old(State())
      {
        assert siblings[i] in siblings;
        refusal := Visit(siblings[i], newParent, c, {oldParent});
        if refusal.Some? {
          return;
        }
        assert siblings[..i + 1] == siblings[..i] + [siblings[i]];
      }
      assert siblings[..|siblings|] == siblings;
      return None;
    }

    method Drain(children: map<Parent, seq<Execution>>, ghost c: Context) returns (refusal: Option<MigrationError>)
      requires Consistent(c) && c.plan == plan && c.canonicalize == canonicalize
      requires Invariant(c, State(), {})
      requires forall p :: Lists(c, BySequence(Grouped(children, p)), p)
      modifies this
      ensures refusal.Some? ==> Cause(c, refusal.value)
      ensures refusal.None? ==> stack == [] && Invariant(c, State(), {})
    {
      hide Invariant, ImageParent, Cause, Consistent, BySequence, Grouped;
      while stack != []
        invariant Invariant(c, State(), {})
        decreases |c.recorded.Keys - seen|, |stack|
      {
        PopKeeps(c, State());
        ghost var before := seen;
        var (oldParent, newParent) := stack[|stack| - 1];
        stack := stack[..|stack| - 1];
        popped := popped + {oldParent};
        var siblings := BySequence(Grouped(children, oldParent));
        assert Lists(c, siblings, oldParent);
        refusal := VisitSiblings(siblings, newParent, c, oldParent);
        if refusal.Some? {
          return;
        }
        AllListed(c, siblings, oldParent, seen);
        ClosesParent(c, State(), oldParent);
        if siblings != [] {
          assert siblings[0] in siblings;
          Fewer(c.recorded.Keys, before, seen, siblings[0].id);
        }
      }
      return None;
    }
  }

  ghost predicate Lists(c: Context, siblings: seq<Execution>, parent: Parent) {
    && (forall e :: e in siblings <==> e.id in c.recorded && c.recorded[e.id] == e && e.id.parent == parent)
    && (forall i, j :: 0 <= i < j < |siblings| ==> siblings[i].id != siblings[j].id)
  }

  lemma {:induction false} AllListed(c: Context, siblings: seq<Execution>, parent: Parent, seen: set<ExecutionId>)
    requires Consistent(c) && Lists(c, siblings, parent) && forall e :: e in siblings ==> e.id in seen
    ensures forall x :: x in c.recorded && x.parent == parent ==> x in seen
  {
    forall x | x in c.recorded && x.parent == parent ensures x in seen {
      assert c.recorded[x] in siblings;
    }
  }

  lemma {:induction false} ChildrenAreListed(c: Context, executions: seq<Execution>, parent: Parent)
    requires UniqueIds(executions) && c.recorded == ById(executions)
    ensures Lists(c, BySequence(ChildrenOf(executions, parent)), parent)
  {
    SiblingsAreTheChildren(executions, parent);
  }

  lemma {:induction false} RecordsOwnIdentities(plan: Plan, canonicalize: Canonicalizer, executions: seq<Execution>)
    requires UniqueIds(executions) && forall e :: e in executions ==> ValidExecution(e)
    ensures OwnIdentities(Context(plan, canonicalize, ById(executions)))
  {
    hide ById;
  }

  method Rebuild(plan: Plan, canonicalize: Canonicalizer, executions: seq<Execution>)
    returns (r: Result<seq<Execution>, MigrationError>)
    requires UniqueIds(executions) && CollisionFree(ById(executions))
    requires forall e :: e in executions ==> ValidExecution(e)
    ensures r.Ok? <==> Accepts(Context(plan, canonicalize, ById(executions)))
    ensures r.Ok? <==> Acceptable(Context(plan, canonicalize, ById(executions)))
    ensures r.Ok? ==>
      && IsRebuild(Context(plan, canonicalize, ById(executions)), r.value)
      && GoesOnAs(Context(plan, canonicalize, ById(executions)), r.value)
    ensures r.Err? ==>
      && Cause(Context(plan, canonicalize, ById(executions)), r.error)
      && Obstacle(Context(plan, canonicalize, ById(executions)), r.error)
  {
    hide Acceptable, GoesOnAs, Obstacle, OwnIdentities, Invariant, IsRebuild, Accepts, Cause;
    hide ValidExecution, CollisionFree, Consistent, ById, BySequence, Lists;
    ghost var c := Context(plan, canonicalize, ById(executions));
    RecordsOwnIdentities(plan, canonicalize, executions);
    AcceptableMeans(c);
    var grouped := ChildrenByParent(executions);
    if grouped.Err? {
      MissingCause(plan, canonicalize, executions);
      CauseIsNotAccepted(c, grouped.error);
      CauseIsObstacle(c, grouped.error);
      return Err(grouped.error);
    }
    ByIdIsConsistent(plan, canonicalize, executions);
    var runner := new Runner(plan, canonicalize);
    StartsInvariant(c);
    forall p ensures Lists(c, BySequence(Grouped(grouped.value, p)), p) {
      ChildrenAreListed(c, executions, p);
    }
    var refusal := runner.Drain(grouped.value, c);
    if refusal.Some? {
      CauseIsNotAccepted(c, refusal.value);
      CauseIsObstacle(c, refusal.value);
      return Err(refusal.value);
    }
    FinishedAccepts(c, runner.State());
    FinishedIsRebuild(c, runner.State());
    RebuildGoesOn(c, runner.migrated);
    return Ok(runner.migrated);
  }
}
