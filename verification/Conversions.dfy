// What a migration step makes of a session, said on the rules and the records alone: the
// meaning that the specification of Migration is held to.
module Conversions {
  import opened Wrappers
  import opened Canonical
  import opened Identity
  import opened Migration

  // ---- One record under its rule ------------------------------------------------------

  ghost predicate HasRule(plan: Plan, id: ExecutionId) {
    id.domain == plan.domain && id.name in plan.rules
  }

  // The record holds the arguments its rule describes.
  ghost predicate HasShape(e: Execution, source: Shape) {
    Decode(e.arguments.data).Ok? && Decode(e.arguments.data).value.Keys == source.argumentNames
  }

  // The record goes on under this name with these arguments. A remap gives it the target's
  // name; a conversion of its decoded arguments, canonicalized, replaces them; without a
  // rule, or without a conversion, they stay.
  ghost predicate Converted(
    plan: Plan, canonicalize: Canonicalizer, e: Execution, name: string, arguments: CanonicalArguments)
  {
    if !HasRule(plan, e.id) then name == e.id.name && arguments == e.arguments
    else
      match plan.rules[e.id.name]
      case Drop(_) => false
      case Remap(source, target, None) => HasShape(e, source) && name == target.name && arguments == e.arguments
      case Remap(source, target, Some(f)) =>
        && HasShape(e, source) && name == target.name
        && var converted := f(Decode(e.arguments.data).value);
           converted.Some? && converted.value.Keys == target.argumentNames
           && canonicalize(converted.value) == Some(arguments)
  }

  // Why a record cannot go on, or cannot be dropped.
  ghost predicate Unfit(plan: Plan, canonicalize: Canonicalizer, e: Execution, error: MigrationError) {
    && HasRule(plan, e.id)
    && var rule := plan.rules[e.id.name];
       if !HasShape(e, rule.source) then error == WrongShape
       else
         && rule.Remap? && rule.convert.Some?
         && var converted := rule.convert.value(Decode(e.arguments.data).value);
            if converted.None? || converted.value.Keys != rule.target.argumentNames then error == ConversionFailed
            else canonicalize(converted.value).None? && error == Unconvertible
  }

  lemma {:induction false} ConvertedMeans(
    plan: Plan, canonicalize: Canonicalizer, e: Execution, name: string, arguments: CanonicalArguments)
    ensures Converted(plan, canonicalize, e, name, arguments) <==>
      && NewArguments(plan, canonicalize, e) == Ok(arguments)
      && name == NewName(plan, e.id)
      && !(HasRule(plan, e.id) && plan.rules[e.id.name].Drop?)
  {
    if HasRule(plan, e.id) && plan.rules[e.id.name].Remap? {
      var rule := plan.rules[e.id.name];
      match rule.convert
      case None =>
      case Some(f) =>
    }
  }

  lemma {:induction false} UnfitMeans(plan: Plan, canonicalize: Canonicalizer, e: Execution, error: MigrationError)
    ensures NewArguments(plan, canonicalize, e) == Err(error) <==> Unfit(plan, canonicalize, e, error)
  {
  }

  lemma {:induction false} ConvertedOrUnfit(plan: Plan, canonicalize: Canonicalizer, e: Execution)
    ensures var r := NewArguments(plan, canonicalize, e);
      if r.Err? then Unfit(plan, canonicalize, e, r.error)
      else
        || (HasRule(plan, e.id) && plan.rules[e.id.name].Drop?)
        || exists name :: Converted(plan, canonicalize, e, name, r.value)
  {
    hide Converted, Unfit, NewArguments;
    var r := NewArguments(plan, canonicalize, e);
    if r.Err? {
      UnfitMeans(plan, canonicalize, e, r.error);
    } else {
      ConvertedMeans(plan, canonicalize, e, NewName(plan, e.id), r.value);
    }
  }

  // ---- Whole chains -------------------------------------------------------------------

  // The call, or one it was made from, has a rule that drops it.
  ghost predicate Dropped(plan: Plan, x: ExecutionId) {
    (HasRule(plan, x) && plan.rules[x.name].Drop?) || (x.parent.Some? && Dropped(plan, x.parent.value))
  }

  // The record of x goes on as f: under its converted name and arguments, with their
  // digest, below what its parent's record becomes; the rest is kept.
  ghost predicate BecomesId(c: Context, x: ExecutionId, y: ExecutionId) {
    && x in c.recorded
    && (exists arguments ::
          Converted(c.plan, c.canonicalize, c.recorded[x], y.name, arguments) && y.digest == arguments.digest)
    && y.domain == x.domain && y.sequence == x.sequence
    && (if x.parent.None? then y.parent.None?
        else y.parent.Some? && BecomesId(c, x.parent.value, y.parent.value))
  }

  ghost predicate Becomes(c: Context, x: ExecutionId, f: Execution) {
    && BecomesId(c, x, f.id)
    && Converted(c.plan, c.canonicalize, c.recorded[x], f.id.name, f.arguments)
    && f.id.digest == f.arguments.digest
    && f.status == c.recorded[x].status && f.result == c.recorded[x].result && f.metadata == c.recorded[x].metadata
  }

  // The records go on as the rebuilt ones: each that is not dropped as exactly one of them,
  // and each of them from exactly one.
  ghost predicate GoesOnAs(c: Context, rebuilt: seq<Execution>) {
    EachGoesOn(c, rebuilt) && EachComesFromOne(c, rebuilt) && OneForOne(c) && NoneTwice(rebuilt)
  }

  ghost predicate EachGoesOn(c: Context, rebuilt: seq<Execution>) {
    forall x :: x in c.recorded && !Dropped(c.plan, x) ==> exists f :: f in rebuilt && Becomes(c, x, f)
  }

  ghost predicate EachComesFromOne(c: Context, rebuilt: seq<Execution>) {
    forall f :: f in rebuilt ==> exists x :: !Dropped(c.plan, x) && Becomes(c, x, f)
  }

  ghost predicate OneForOne(c: Context) {
    forall x, y, f, g :: Becomes(c, x, f) && Becomes(c, y, g) ==> (x == y <==> f == g)
  }

  ghost predicate NoneTwice(rebuilt: seq<Execution>) {
    forall i, j :: 0 <= i < j < |rebuilt| ==> rebuilt[i] != rebuilt[j]
  }

  // Nothing stands in the way: parents are recorded, every record reached can go on or be
  // dropped, and no two scopes go on as one.
  ghost predicate Acceptable(c: Context) {
    && (forall x :: x in c.recorded && x.parent.Some? ==> x.parent.value in c.recorded)
    && (forall x, error :: x in c.recorded && (x.parent.Some? ==> !Dropped(c.plan, x.parent.value)) ==>
          !Unfit(c.plan, c.canonicalize, c.recorded[x], error))
    && (forall x, y, u, v :: BecomesId(c, x, u) && BecomesId(c, y, v) && ScopeOf(u) == ScopeOf(v) ==>
          ScopeOf(x) == ScopeOf(y))
  }

  lemma {:induction false} DroppedMeans(c: Context, x: ExecutionId)
    ensures Survives(c, x) <==> !Dropped(c.plan, x)
  {
    if x.parent.Some? { DroppedMeans(c, x.parent.value); }
  }

  // What surviving records become is their image.
  lemma {:induction false} BecomesImage(c: Context, x: ExecutionId, y: ExecutionId)
    requires forall z :: z in c.recorded ==> c.recorded[z].id == z
    requires BecomesId(c, x, y)
    ensures Survives(c, x) && y == ImageId(c, x)
  {
    var arguments :| Converted(c.plan, c.canonicalize, c.recorded[x], y.name, arguments) && y.digest == arguments.digest;
    ConvertedMeans(c.plan, c.canonicalize, c.recorded[x], y.name, arguments);
    hide Converted, NewArguments, NewName;
    if x.parent.Some? { BecomesImage(c, x.parent.value, y.parent.value); }
  }

  lemma {:induction false} ImageBecomes(c: Context, x: ExecutionId)
    requires forall z :: z in c.recorded ==> c.recorded[z].id == z
    requires ParentsKnown(c) && x in c.recorded && Survives(c, x)
    requires forall z, error :: !Refuses(c, z, error)
    ensures BecomesId(c, x, ImageId(c, x))
    ensures ImageArguments(c, x).Some?
    ensures Converted(c.plan, c.canonicalize, c.recorded[x], ImageId(c, x).name, ImageArguments(c, x).value)
  {
    var r := NewArguments(c.plan, c.canonicalize, c.recorded[x]);
    assert !Refuses(c, x, if r.Err? then r.error else WrongShape);
    ConvertedMeans(c.plan, c.canonicalize, c.recorded[x], NewName(c.plan, x), r.value);
    assert ImageId(c, x).name == NewName(c.plan, x) && ImageId(c, x).digest == r.value.digest;
    hide Converted, NewArguments, NewName, Refuses;
    if x.parent.Some? { ImageBecomes(c, x.parent.value); }
  }

  ghost predicate OwnIdentities(c: Context) {
    forall x :: x in c.recorded ==> c.recorded[x].id == x && c.recorded[x].arguments.digest == x.digest
  }

  // A record that is reached and cannot go on or be dropped.
  ghost predicate Stops(c: Context, x: ExecutionId, error: MigrationError) {
    && x in c.recorded && (x.parent.Some? ==> !Dropped(c.plan, x.parent.value))
    && Unfit(c.plan, c.canonicalize, c.recorded[x], error)
  }

  lemma {:induction false} StopsMeans(c: Context, x: ExecutionId, error: MigrationError)
    ensures Refuses(c, x, error) <==> Stops(c, x, error)
  {
    hide Unfit, NewArguments;
    if x.parent.Some? { DroppedMeans(c, x.parent.value); }
    if x in c.recorded { UnfitMeans(c.plan, c.canonicalize, c.recorded[x], error); }
  }

  // A refusal has its obstacle.
  ghost predicate Obstacle(c: Context, error: MigrationError) {
    match error
    case MissingParent => exists x :: x in c.recorded && x.parent.Some? && x.parent.value !in c.recorded
    case Ambiguous => exists x, y :: Gathers(c, x, y)
    case _ => exists x :: Stops(c, x, error)
  }

  lemma {:induction false} CauseIsObstacle(c: Context, error: MigrationError)
    requires Cause(c, error)
    ensures Obstacle(c, error)
  {
    hide Refuses, Stops, Gathers;
    if error != MissingParent && error != Ambiguous {
      var x :| Refuses(c, x, error);
      StopsMeans(c, x, error);
    }
  }

  // Acceptance, said on the rules, is the acceptance the rebuild decides.
  lemma {:induction false} AcceptableMeans(c: Context)
    requires OwnIdentities(c)
    ensures Accepts(c) <==> Acceptable(c)
  {
    hide Converted, NewArguments, NewName, ImageId, BecomesId, Unfit, HasRule;
    forall x { DroppedMeans(c, x); }
    forall x, error ensures Refuses(c, x, error) <==>
      x in c.recorded && (x.parent.Some? ==> !Dropped(c.plan, x.parent.value))
      && Unfit(c.plan, c.canonicalize, c.recorded[x], error)
    {
      if x in c.recorded { UnfitMeans(c.plan, c.canonicalize, c.recorded[x], error); }
    }
    hide Refuses, Survives, Dropped;
    if Accepts(c) {
      forall x, y, u, v | BecomesId(c, x, u) && BecomesId(c, y, v) && ScopeOf(u) == ScopeOf(v)
        ensures ScopeOf(x) == ScopeOf(y)
      {
        BecomesRecorded(c, x, u);
        BecomesRecorded(c, y, v);
        BecomesImage(c, x, u);
        BecomesImage(c, y, v);
        assert !Gathers(c, x, y);
      }
    }
    if Acceptable(c) {
      assert forall x, error :: !Refuses(c, x, error);
      forall x, y ensures !Gathers(c, x, y) {
        if x in c.recorded && y in c.recorded && Survives(c, x) && Survives(c, y) {
          ImageBecomes(c, x);
          ImageBecomes(c, y);
        }
      }
    }
  }

  lemma {:induction false} BecomesRecorded(c: Context, x: ExecutionId, y: ExecutionId)
    requires BecomesId(c, x, y)
    ensures x in c.recorded
  {
  }

  lemma {:induction false} ImageRecordBecomes(c: Context, x: ExecutionId)
    requires OwnIdentities(c) && Accepts(c) && x in c.recorded && Survives(c, x)
    ensures Becomes(c, x, Image(c, c.recorded[x]))
  {
    hide Converted, NewArguments, NewName, Refuses, Gathers, Survives, BecomesId;
    ImageBecomes(c, x);
    assert ImageId(c, x).digest == ImageArguments(c, x).value.digest;
  }

  lemma {:induction false} BecomesIsImage(c: Context, x: ExecutionId, f: Execution)
    requires OwnIdentities(c) && Becomes(c, x, f)
    ensures x in c.recorded && Survives(c, x) && f == Image(c, c.recorded[x])
  {
    hide NewName, Survives;
    BecomesRecorded(c, x, f.id);
    BecomesImage(c, x, f.id);
    ConvertedMeans(c.plan, c.canonicalize, c.recorded[x], f.id.name, f.arguments);
    hide BecomesId, Converted, NewArguments;
    assert ImageArguments(c, x) == Some(f.arguments);
  }

  // What a rebuild returns is what the records go on as.
  lemma {:induction false} RebuildGoesOn(c: Context, rebuilt: seq<Execution>)
    requires OwnIdentities(c) && Accepts(c) && IsRebuild(c, rebuilt)
    ensures GoesOnAs(c, rebuilt)
  {
    hide Becomes, Image, ImageId, Survives, Dropped;
    forall x { DroppedMeans(c, x); }
    forall x, f | Becomes(c, x, f)
      ensures x in c.recorded && Survives(c, x) && f == Image(c, c.recorded[x]) && f.id == ImageId(c, x)
    {
      BecomesIsImage(c, x, f);
      ImagesHaveIds(c, x);
    }
    forall x | x in c.recorded && Survives(c, x) ensures Becomes(c, x, Image(c, c.recorded[x])) {
      ImageRecordBecomes(c, x);
    }
    forall x, y, f, g | Becomes(c, x, f) && Becomes(c, y, g) ensures x == y <==> f == g {
      if f == g { AcceptedIsInjective(c, x, y); }
    }
  }

  lemma {:induction false} ImagesHaveIds(c: Context, x: ExecutionId)
    requires x in c.recorded && c.recorded[x].id == x
    ensures Image(c, c.recorded[x]).id == ImageId(c, x)
  {
  }
}
