// What a chain of transitions makes of a session's records, transition by transition.
module Journeys {
  import opened Wrappers
  import opened Identity
  import opened Migration
  import opened Conversions
  import opened Rebuilding

  type Records = map<ExecutionId, Execution>

  // Consistent aggregates under their own identities.
  ghost predicate WellKept(records: Records) {
    forall x :: x in records ==> records[x].id == x && ValidExecution(records[x])
  }

  // ---- One transition -----------------------------------------------------------------

  lemma {:induction false} ImagesAreDistinct(c: Context)
    requires Accepts(c)
    ensures forall x, y | x in c.recorded && y in c.recorded && Survives(c, x) && Survives(c, y) ::
      ImageId(c, x) == ImageId(c, y) ==> x == y
  {
    hide Accepts, ImageId, Survives;
    forall x, y | x in c.recorded && y in c.recorded && Survives(c, x) && Survives(c, y) && ImageId(c, x) == ImageId(c, y)
      ensures x == y
    {
      AcceptedIsInjective(c, x, y);
    }
  }

  // The images of the survivors by identity: what every rebuild of the records holds.
  ghost function Rebuilt(c: Context): (r: Records)
    requires Accepts(c)
    ensures forall x :: x in c.recorded && Survives(c, x) ==>
      ImageId(c, x) in r && r[ImageId(c, x)] == Image(c, c.recorded[x])
    ensures forall y :: y in r ==> exists x :: x in c.recorded && Survives(c, x) && y == ImageId(c, x)
  {
    ImagesAreDistinct(c);
    map x | x in c.recorded && Survives(c, x) :: ImageId(c, x) := Image(c, c.recorded[x])
  }

  lemma {:induction false} RebuildIsRebuilt(c: Context, rebuilt: seq<Execution>)
    requires Accepts(c) && IsRebuild(c, rebuilt) && UniqueIds(rebuilt)
    requires forall x :: x in c.recorded ==> c.recorded[x].id == x
    ensures ById(rebuilt) == Rebuilt(c)
  {
    hide Accepts, ImageId, ImageArguments, Survives, ById, Rebuilt;
    var found, expected := ById(rebuilt), Rebuilt(c);
    forall y | y in found ensures y in expected && expected[y] == found[y] {
      var x :| x in c.recorded && Survives(c, x) && found[y] == Image(c, c.recorded[x]);
    }
    forall y | y in expected ensures y in found {
      var x :| x in c.recorded && Survives(c, x) && y == ImageId(c, x);
      assert Image(c, c.recorded[x]) in rebuilt;
    }
    assert found.Keys == expected.Keys;
  }

  // The later record is the earlier one carried over: same call of the same domain, with
  // its ordinal, status, result and metadata; outside the migrated domain only its parent
  // chain may differ.
  ghost predicate Carried(domain: string, before: Execution, after: Execution) {
    && after.id.domain == before.id.domain
    && after.id.sequence == before.id.sequence
    && (after.id.parent.None? <==> before.id.parent.None?)
    && after.status == before.status && after.result == before.result && after.metadata == before.metadata
    && (before.id.domain != domain ==>
        after.arguments == before.arguments && after.id == before.id.(parent := after.id.parent))
  }

  lemma {:induction false} ImageIsCarried(c: Context, x: ExecutionId)
    requires x in c.recorded && c.recorded[x].id == x && ValidExecution(c.recorded[x])
    requires ImageArguments(c, x).Some?
    ensures Carried(c.plan.domain, c.recorded[x], Image(c, c.recorded[x])) && ValidExecution(Image(c, c.recorded[x]))
  {
    assert ImageParent(c, x.parent).None? <==> x.parent.None?;
  }

  lemma {:induction false} SurvivorHasArguments(c: Context, x: ExecutionId)
    requires Accepts(c) && x in c.recorded && Survives(c, x)
    ensures ImageArguments(c, x).Some?
  {
    var arguments := NewArguments(c.plan, c.canonicalize, c.recorded[x]);
    assert !Refuses(c, x, if arguments.Err? then arguments.error else WrongShape);
  }

  lemma {:induction false} RebuiltIsWellKept(c: Context)
    requires Accepts(c) && WellKept(c.recorded)
    ensures WellKept(Rebuilt(c))
  {
    hide Accepts, ImageId, ImageArguments, Survives, Rebuilt, Carried;
    forall y | y in Rebuilt(c) ensures Rebuilt(c)[y].id == y && ValidExecution(Rebuilt(c)[y]) {
      var x :| x in c.recorded && Survives(c, x) && y == ImageId(c, x);
      SurvivorHasArguments(c, x);
      ImageIsCarried(c, x);
    }
  }

  // ---- A chain of transitions ---------------------------------------------------------

  // The records, and the version of their domain.
  datatype Stop = Stop(version: string, records: Records)

  // The plans of one domain, each under the version it starts from.
  type Plans = map<string, Plan>

  ghost function ContextAt(plans: Plans, canonicalize: Canonicalizer, stop: Stop): Context
    requires stop.version in plans
  {
    Context(plans[stop.version], canonicalize, stop.records)
  }

  // A transition leaves the version, and the records are acceptable to it.
  ghost predicate GoesOn(plans: Plans, canonicalize: Canonicalizer, stop: Stop) {
    stop.version in plans && Accepts(ContextAt(plans, canonicalize, stop))
  }

  // Where n transitions lead, if each of them is there and accepts what it is given.
  ghost function Journey(plans: Plans, canonicalize: Canonicalizer, from: Stop, n: nat): Option<Stop> {
    if n == 0 then Some(from)
    else
      var before := Journey(plans, canonicalize, from, n - 1);
      if before.None? || !GoesOn(plans, canonicalize, before.value) then None
      else
        Some(Stop(
          plans[before.value.version].targetVersion,
          Rebuilt(ContextAt(plans, canonicalize, before.value))))
  }

  lemma {:induction false} LastTransition(plans: Plans, canonicalize: Canonicalizer, from: Stop, n: nat)
    requires n > 0 && Journey(plans, canonicalize, from, n).Some?
    ensures var before := Journey(plans, canonicalize, from, n - 1);
      && before.Some? && before.value.version in plans
      && Accepts(ContextAt(plans, canonicalize, before.value))
      && Journey(plans, canonicalize, from, n).value.records == Rebuilt(ContextAt(plans, canonicalize, before.value))
      && Journey(plans, canonicalize, from, n).value.version == plans[before.value.version].targetVersion
  {
    hide Accepts, Rebuilt;
  }

  // The transitions lead to the target.
  ghost predicate Arrives(plans: Plans, canonicalize: Canonicalizer, from: Stop, n: nat, target: string) {
    var stop := Journey(plans, canonicalize, from, n);
    stop.Some? && stop.value.version == target
  }

  lemma {:induction false} JourneyEnds(plans: Plans, canonicalize: Canonicalizer, from: Stop, n: nat, m: nat)
    requires n < m
    requires var stop := Journey(plans, canonicalize, from, n);
      stop.None? || !GoesOn(plans, canonicalize, stop.value)
    ensures Journey(plans, canonicalize, from, m).None?
  {
    hide GoesOn, Rebuilt, ContextAt;
    if n < m - 1 { JourneyEnds(plans, canonicalize, from, n, m - 1); }
  }

  // ---- Following one record -----------------------------------------------------------

  // The identity a record has after n transitions, unless it was dropped on the way, with
  // a call it was made from or for itself.
  ghost function Trace(plans: Plans, canonicalize: Canonicalizer, from: Stop, x: ExecutionId, n: nat): Option<ExecutionId>
    requires Journey(plans, canonicalize, from, n).Some?
  {
    if n == 0 then Some(x)
    else
      var before := Trace(plans, canonicalize, from, x, n - 1);
      var c := ContextAt(plans, canonicalize, Journey(plans, canonicalize, from, n - 1).value);
      if before.None? || !Survives(c, before.value) then None else Some(ImageId(c, before.value))
  }

  ghost predicate Continues(c: Context, before: Option<ExecutionId>, after: Option<ExecutionId>) {
    before.Some? && Survives(c, before.value) && after == Some(ImageId(c, before.value))
  }

  lemma {:induction false} LastOfTrace(
    plans: Plans, canonicalize: Canonicalizer, from: Stop, x: ExecutionId, n: nat, c: Context)
    requires n > 0 && Journey(plans, canonicalize, from, n).Some? && Journey(plans, canonicalize, from, n - 1).Some?
    requires var before := Journey(plans, canonicalize, from, n - 1).value;
      before.version in plans && c == ContextAt(plans, canonicalize, before)
    requires Trace(plans, canonicalize, from, x, n).Some?
    ensures Continues(c, Trace(plans, canonicalize, from, x, n - 1), Trace(plans, canonicalize, from, x, n))
  {
    hide Accepts, Rebuilt, ImageId, Survives;
  }

  lemma {:induction false} JourneyKeeps(plans: Plans, canonicalize: Canonicalizer, from: Stop, n: nat)
    requires WellKept(from.records) && Journey(plans, canonicalize, from, n).Some?
    ensures WellKept(Journey(plans, canonicalize, from, n).value.records)
  {
    hide WellKept, Accepts, Rebuilt, Journey;
    if n == 0 {
      NoTransitions(plans, canonicalize, from);
    } else {
      LastTransition(plans, canonicalize, from, n);
      JourneyKeeps(plans, canonicalize, from, n - 1);
      RebuiltIsWellKept(ContextAt(plans, canonicalize, Journey(plans, canonicalize, from, n - 1).value));
    }
  }

  lemma {:induction false} NoTransitions(plans: Plans, canonicalize: Canonicalizer, from: Stop)
    ensures Journey(plans, canonicalize, from, 0) == Some(from)
    ensures forall x :: Trace(plans, canonicalize, from, x, 0) == Some(x)
  {
  }

  // Every record that is not dropped is still there after the chain, carried over.
  lemma {:induction false} TracedIsCarried(
    domain: string, plans: Plans, canonicalize: Canonicalizer, from: Stop, x: ExecutionId, n: nat)
    requires WellKept(from.records) && x in from.records
    requires forall v :: v in plans ==> plans[v].domain == domain
    requires Journey(plans, canonicalize, from, n).Some? && Trace(plans, canonicalize, from, x, n).Some?
    ensures var records := Journey(plans, canonicalize, from, n).value.records;
      var y := Trace(plans, canonicalize, from, x, n).value;
      y in records && Carried(domain, from.records[x], records[y])
  {
    hide Accepts, Survives, ImageId, ImageArguments, Rebuilt, ValidExecution, Image, Journey, Trace;
    if n == 0 {
      NoTransitions(plans, canonicalize, from);
    } else {
      LastTransition(plans, canonicalize, from, n);
      var c := ContextAt(plans, canonicalize, Journey(plans, canonicalize, from, n - 1).value);
      LastOfTrace(plans, canonicalize, from, x, n, c);
      TracedIsCarried(domain, plans, canonicalize, from, x, n - 1);
      JourneyKeeps(plans, canonicalize, from, n - 1);
      var y := Trace(plans, canonicalize, from, x, n - 1).value;
      SurvivorHasArguments(c, y);
      ImageIsCarried(c, y);
    }
  }

  // Every record there after the chain is one of the source's.
  lemma {:induction false} RecordsAreTraced(
    plans: Plans, canonicalize: Canonicalizer, from: Stop, y: ExecutionId, n: nat) returns (x: ExecutionId)
    requires Journey(plans, canonicalize, from, n).Some? && y in Journey(plans, canonicalize, from, n).value.records
    ensures x in from.records && Trace(plans, canonicalize, from, x, n) == Some(y)
    decreases n
  {
    hide Accepts, Survives, ImageId, Rebuilt, Image;
    x := y;
    if n > 0 {
      var c := ContextAt(plans, canonicalize, Journey(plans, canonicalize, from, n - 1).value);
      var z :| z in c.recorded && Survives(c, z) && y == ImageId(c, z);
      x := RecordsAreTraced(plans, canonicalize, from, z, n - 1);
    }
  }

  // No two records become one.
  lemma {:induction false} TracesAreDistinct(
    domain: string, plans: Plans, canonicalize: Canonicalizer, from: Stop, x: ExecutionId, y: ExecutionId, n: nat)
    requires WellKept(from.records) && x in from.records && y in from.records
    requires forall v :: v in plans ==> plans[v].domain == domain
    requires Journey(plans, canonicalize, from, n).Some? && Trace(plans, canonicalize, from, x, n).Some?
    requires Trace(plans, canonicalize, from, x, n) == Trace(plans, canonicalize, from, y, n)
    ensures x == y
  {
    hide Accepts, Survives, ImageId, Rebuilt, Carried, WellKept, Journey, Trace;
    if n == 0 {
      NoTransitions(plans, canonicalize, from);
    } else {
      LastTransition(plans, canonicalize, from, n);
      var c := ContextAt(plans, canonicalize, Journey(plans, canonicalize, from, n - 1).value);
      LastOfTrace(plans, canonicalize, from, x, n, c);
      LastOfTrace(plans, canonicalize, from, y, n, c);
      TracedIsCarried(domain, plans, canonicalize, from, x, n - 1);
      TracedIsCarried(domain, plans, canonicalize, from, y, n - 1);
      AcceptedIsInjective(c, Trace(plans, canonicalize, from, x, n - 1).value,
        Trace(plans, canonicalize, from, y, n - 1).value);
      TracesAreDistinct(domain, plans, canonicalize, from, x, y, n - 1);
    }
  }

  // What one transition makes of a record followed so far: unless it is dropped it goes on,
  // under its converted name and arguments, and a dropped one is followed no further.
  ghost predicate Follows(c: Context, before: Option<ExecutionId>, after: Option<ExecutionId>, records: Records) {
    && (before.Some? ==> before.value in c.recorded)
    && (after.Some? <==> before.Some? && !Dropped(c.plan, before.value))
    && (after.Some? ==> after.value in records && Becomes(c, before.value, records[after.value]))
  }

  // Transition by transition, said on the rules.
  lemma {:induction false} TraceGoesOn(
    domain: string, plans: Plans, canonicalize: Canonicalizer, from: Stop, x: ExecutionId, n: nat, c: Context)
    requires WellKept(from.records) && x in from.records && n > 0
    requires forall v :: v in plans ==> plans[v].domain == domain
    requires Journey(plans, canonicalize, from, n).Some? && Journey(plans, canonicalize, from, n - 1).Some?
    requires var before := Journey(plans, canonicalize, from, n - 1).value;
      before.version in plans && c == ContextAt(plans, canonicalize, before)
    ensures Follows(
      c,
      Trace(plans, canonicalize, from, x, n - 1),
      Trace(plans, canonicalize, from, x, n),
      Journey(plans, canonicalize, from, n).value.records)
  {
    hide Accepts, Survives, ImageId, ImageArguments, Rebuilt, Image, Becomes, Dropped, ValidExecution;
    LastTransition(plans, canonicalize, from, n);
    JourneyKeeps(plans, canonicalize, from, n - 1);
    assert OwnIdentities(c) by { WellKeptOwns(c); }
    var before := Trace(plans, canonicalize, from, x, n - 1);
    if before.Some? {
      TracedIsCarried(domain, plans, canonicalize, from, x, n - 1);
      DroppedMeans(c, before.value);
      if Survives(c, before.value) { ImageRecordBecomes(c, before.value); }
    }
  }

  lemma {:induction false} WellKeptOwns(c: Context)
    requires WellKept(c.recorded)
    ensures OwnIdentities(c)
  {
  }
}
