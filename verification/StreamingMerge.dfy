// The relational store's enumeration: a range scan over committed rows, merged as it
// streams with what the open transaction has staged.
module StreamingMerge {
  import opened Wrappers
  import opened Canonical
  import opened Identity
  import opened Staging
  import opened PathCodec
  import opened PathOrder
  import opened Enumeration

  // ---- Rows ---------------------------------------------------------------------------

  // A row holds everything but the identity, which its path spells.
  datatype Record = Record(
    status: Status, arguments: CanonicalArguments, result: Option<Payload>, metadata: map<string, Payload>)

  type Table = map<string, Record>

  function RecordOf(e: Execution): Record {
    Record(e.status, e.arguments, e.result, e.metadata)
  }

  function ToExecution(record: Record, id: ExecutionId): Execution {
    Execution(id, record.status, record.arguments, record.result, record.metadata)
  }

  // One session's rows, for the data committed.
  function RowsOf(committed: Data, session: string): Table
    requires Keyed(committed)
  {
    var base := ByPath(committed, session);
    map p | p in base :: RecordOf(base[p])
  }

  // A row restores the execution it was written from.
  lemma {:induction false} RowsRestore(committed: Data, session: string, p: string)
    requires Keyed(committed) && p in RowsOf(committed, session)
    ensures ParsePath(p).Some?
    ensures ToExecution(RowsOf(committed, session)[p], ParsePath(p).value) == ByPath(committed, session)[p]
  {
    hide PathOf, ParsePath, ValidId;
    var k :| k in committed && k.session == session && p == PathOf(k.id);
    PathsAreIdentities(p, k.id);
  }

  // SELECT ... WHERE path >= prefix AND path < bound ORDER BY path
  method SelectRange(table: Table, prefix: string) returns (paths: seq<string>)
    requires prefix == "" || Bounded(prefix)
    ensures Ascending(paths) && forall p :: p in paths <==> p in table && prefix <= p
  {
    if prefix == "" {
      paths := Sort(table.Keys);
    } else {
      paths := Sort(set p | p in table && InRange(p, prefix));
      forall p ensures p in paths <==> p in table && prefix <= p {
        RangeIsPrefix(p, prefix);
      }
    }
  }

  // ---- Staged mutations of one session under a prefix ---------------------------------

  function StagedUnder(batch: Batch, session: string, prefix: string): map<string, Mutation>
    requires KeyedBatch(batch)
  {
    var staged := ByPath(batch, session);
    map p | p in staged && prefix <= p :: staged[p]
  }

  method StagedFor(batch: Batch, session: string, prefix: string) returns (staged: map<string, Mutation>)
    requires KeyedBatch(batch)
    ensures staged == StagedUnder(batch, session, prefix)
  {
    hide ByPath, PathOf, ValidId;
    staged := map[];
    var remaining := batch.Keys;
    while remaining != {}
      invariant remaining <= batch.Keys
      invariant forall p :: p in staged ==>
        exists k :: k in batch && k !in remaining && StagedAt(batch, session, prefix, k, p) && staged[p] == batch[k]
      invariant forall k :: k in batch && k !in remaining && StagedAt(batch, session, prefix, k, PathOf(k.id)) ==>
        PathOf(k.id) in staged
      decreases remaining
    {
      var key :| key in remaining;
      remaining := remaining - {key};
      if key.session == session {
        var path := ExecutionIdToPath(key.id);
        if prefix <= path {
          assert StagedAt(batch, session, prefix, key, path);
          staged := staged[path := batch[key]];
        }
      }
    }
    var expected := StagedUnder(batch, session, prefix);
    forall p | p in staged ensures p in expected && expected[p] == staged[p] {
      var k :| k in batch && StagedAt(batch, session, prefix, k, p) && staged[p] == batch[k];
    }
    forall p | p in expected ensures p in staged {
      var k :| k in batch && k.session == session && p == PathOf(k.id);
      assert StagedAt(batch, session, prefix, k, PathOf(k.id));
    }
    assert staged.Keys == expected.Keys;
  }

  ghost predicate StagedAt(batch: Batch, session: string, prefix: string, k: Key, p: string) {
    k in batch && k.session == session && p == PathOf(k.id) && prefix <= p
  }

  // ---- What the merge must show -------------------------------------------------------

  // The visible paths are the committed ones with the staged ones laid over them.
  ghost predicate Overlays(
    visible: map<string, Execution>, base: map<string, Execution>, staged: map<string, Mutation>, p: string)
  {
    if p in staged then
      (p in visible <==> staged[p].SaveExecution?) && (p in visible ==> visible[p] == staged[p].snapshot)
    else
      (p in visible <==> p in base) && (p in visible ==> visible[p] == base[p])
  }

  lemma {:induction false} VisibleOverlays(committed: Data, batch: Batch, session: string, prefix: string, p: string)
    requires Keyed(committed) && KeyedBatch(batch) && Keyed(Applied(committed, batch)) && prefix <= p
    ensures Overlays(
      ByPath(Applied(committed, batch), session), ByPath(committed, session), StagedUnder(batch, session, prefix), p)
  {
    hide ByPath, PathOf, ValidId;
    var data := Applied(committed, batch);
    var visible, base, staged := ByPath(data, session), ByPath(committed, session), ByPath(batch, session);
    if p in visible || p in base || p in staged {
      var k := SomeKey(data, committed, batch, session, p);
      OwnPath(data, k);
      OwnPath(committed, k);
      OwnPath(batch, k);
    }
  }

  lemma {:induction false} SomeKey(data: Data, committed: Data, batch: Batch, session: string, p: string)
    returns (k: Key)
    requires Keyed(data) && Keyed(committed) && KeyedBatch(batch)
    requires p in ByPath(data, session) || p in ByPath(committed, session) || p in ByPath(batch, session)
    ensures k.session == session && p == PathOf(k.id) && ValidId(k.id)
  {
    hide PathOf, ValidId, ByPath;
    if p in ByPath(data, session) {
      k :| k in data && k.session == session && p == PathOf(k.id);
    } else if p in ByPath(committed, session) {
      k :| k in committed && k.session == session && p == PathOf(k.id);
    } else {
      k :| k in batch && k.session == session && p == PathOf(k.id);
    }
  }

  // ---- Merging two ascending lists ----------------------------------------------------

  // What was taken so far: ascending, the first i rows and the first j staged paths, and
  // everything still to come is greater.
  ghost predicate Merged(merged: seq<string>, rows: seq<string>, i: nat, staged: seq<string>, j: nat) {
    && i <= |rows| && j <= |staged|
    && Ascending(merged)
    && (forall p :: p in merged <==> p in rows[..i] || p in staged[..j])
    && (forall p, n :: p in merged && i <= n < |rows| ==> Less(p, rows[n]))
    && (forall p, n :: p in merged && j <= n < |staged| ==> Less(p, staged[n]))
  }

  lemma {:induction false} AscendingAt(paths: seq<string>, a: nat, b: nat)
    requires Ascending(paths) && a < b < |paths|
    ensures Less(paths[a], paths[b])
  {
    if b < |paths| - 1 {
      AscendingAt(paths[..|paths| - 1], a, b);
    } else {
      assert paths[a] == paths[..b][a];
      assert paths[a] in paths[..b];
    }
  }

  // Taking the least of what is left, from the rows, from the staged paths, or from both.
  lemma {:induction false} TakeLeast(
    merged: seq<string>, rows: seq<string>, i: nat, i': nat, staged: seq<string>, j: nat, j': nat, p: string)
    requires Ascending(rows) && Ascending(staged) && Merged(merged, rows, i, staged, j)
    requires (i' == i && (i < |rows| ==> Less(p, rows[i]))) || (i' == i + 1 && i < |rows| && rows[i] == p)
    requires (j' == j && (j < |staged| ==> Less(p, staged[j]))) || (j' == j + 1 && j < |staged| && staged[j] == p)
    requires i' > i || j' > j
    ensures Merged(merged + [p], rows, i', staged, j')
  {
    hide Less;
    var after := merged + [p];
    assert after[..|merged|] == merged;
    assert Less(p, p) ==> false by { LessIrreflexive(p); }
    forall n | i' <= n < |rows| ensures Less(p, rows[n]) { LessThanRest(rows, i, i', n, p); }
    forall n | j' <= n < |staged| ensures Less(p, staged[n]) { LessThanRest(staged, j, j', n, p); }
    if i' > i { assert rows[..i'] == rows[..i] + [p]; }
    if j' > j { assert staged[..j'] == staged[..j] + [p]; }
  }

  lemma {:induction false} LessThanRest(paths: seq<string>, i: nat, i': nat, n: nat, p: string)
    requires Ascending(paths) && i' <= n < |paths|
    requires (i' == i && Less(p, paths[i])) || (i' == i + 1 && paths[i] == p)
    ensures Less(p, paths[n])
  {
    if i < n {
      AscendingAt(paths, i, n);
      if paths[i] != p { LessTrans(p, paths[i], paths[n]); }
    }
  }

  // ---- The merge ----------------------------------------------------------------------

  function StagedExecution(mutation: Mutation): Option<Execution> {
    match mutation
    case SaveExecution(snapshot) => Some(snapshot)
    case DeleteExecution => None
  }

  predicate Passes(status: Option<Status>, e: Execution) {
    status.None? || e.status == status.value
  }

  function Emitted(e: Option<Execution>, status: Option<Status>): seq<Execution> {
    if e.Some? && Passes(status, e.value) then [e.value] else []
  }

  // The two sides of a merge, and what it has to show.
  ghost predicate Sides(
    visible: map<string, Execution>, base: map<string, Execution>, table: Table, rows: seq<string>,
    staged: map<string, Mutation>, stagedPaths: seq<string>, prefix: string)
  {
    && Ascending(rows) && IsSorting(stagedPaths, staged.Keys)
    && (forall p :: p in rows <==> p in base && prefix <= p)
    && (forall p :: p in staged ==> prefix <= p)
    && (forall p :: prefix <= p ==> Overlays(visible, base, staged, p))
    && (forall p :: p in rows ==>
          p in table && ParsePath(p).Some? && ToExecution(table[p], ParsePath(p).value) == base[p])
  }

  ghost predicate Merging(
    visible: map<string, Execution>, prefix: string, status: Option<Status>, merged: seq<string>,
    rows: seq<string>, i: nat, stagedPaths: seq<string>, j: nat, r: seq<Execution>)
  {
    Merged(merged, rows, i, stagedPaths, j) && r == Shown(visible, prefix, status, merged)
  }

  lemma {:induction false} ShowOneMore(
    visible: map<string, Execution>, prefix: string, status: Option<Status>, merged: seq<string>, p: string)
    requires prefix <= p
    ensures Shown(visible, prefix, status, merged + [p]) ==
      Shown(visible, prefix, status, merged) + Emitted(if p in visible then Some(visible[p]) else None, status)
  {
    assert (merged + [p])[..|merged|] == merged;
  }

  lemma {:induction false} StagedTaken(
    visible: map<string, Execution>, base: map<string, Execution>, table: Table, rows: seq<string>,
    staged: map<string, Mutation>, stagedPaths: seq<string>, prefix: string, status: Option<Status>,
    merged: seq<string>, i: nat, j: nat, r: seq<Execution>)
    requires Sides(visible, base, table, rows, staged, stagedPaths, prefix)
    requires Merging(visible, prefix, status, merged, rows, i, stagedPaths, j, r)
    requires j < |stagedPaths| && (i < |rows| ==> Less(stagedPaths[j], rows[i]))
    ensures stagedPaths[j] in staged
    ensures Merging(visible, prefix, status, merged + [stagedPaths[j]], rows, i, stagedPaths, j + 1,
      r + Emitted(StagedExecution(staged[stagedPaths[j]]), status))
  {
    hide Less, Ascending, Merged, Emitted, Shown;
    var p := stagedPaths[j];
    assert p in stagedPaths;
    assert Overlays(visible, base, staged, p);
    TakeLeast(merged, rows, i, i, stagedPaths, j, j + 1, p);
    ShowOneMore(visible, prefix, status, merged, p);
  }

  lemma {:induction false} BothTaken(
    visible: map<string, Execution>, base: map<string, Execution>, table: Table, rows: seq<string>,
    staged: map<string, Mutation>, stagedPaths: seq<string>, prefix: string, status: Option<Status>,
    merged: seq<string>, i: nat, j: nat, r: seq<Execution>)
    requires Sides(visible, base, table, rows, staged, stagedPaths, prefix)
    requires Merging(visible, prefix, status, merged, rows, i, stagedPaths, j, r)
    requires i < |rows| && j < |stagedPaths| && stagedPaths[j] == rows[i]
    ensures rows[i] in staged
    ensures Merging(visible, prefix, status, merged + [rows[i]], rows, i + 1, stagedPaths, j + 1,
      r + Emitted(StagedExecution(staged[rows[i]]), status))
  {
    hide Less, Ascending, Merged, Emitted, Shown;
    var p := stagedPaths[j];
    assert p in stagedPaths;
    assert Overlays(visible, base, staged, p);
    TakeLeast(merged, rows, i, i + 1, stagedPaths, j, j + 1, p);
    ShowOneMore(visible, prefix, status, merged, p);
  }

  lemma {:induction false} RowTaken(
    visible: map<string, Execution>, base: map<string, Execution>, table: Table, rows: seq<string>,
    staged: map<string, Mutation>, stagedPaths: seq<string>, prefix: string, status: Option<Status>,
    merged: seq<string>, i: nat, j: nat, r: seq<Execution>)
    requires Sides(visible, base, table, rows, staged, stagedPaths, prefix)
    requires Merging(visible, prefix, status, merged, rows, i, stagedPaths, j, r)
    requires i < |rows| && (j < |stagedPaths| ==> Less(rows[i], stagedPaths[j]))
    ensures rows[i] in base
    ensures Merging(visible, prefix, status, merged + [rows[i]], rows, i + 1, stagedPaths, j,
      r + Emitted(Some(base[rows[i]]), status))
  {
    hide Less, Ascending, Emitted, Shown;
    var p := rows[i];
    assert p in rows;
    assert Overlays(visible, base, staged, p);
    NotStaged(merged, rows, i, stagedPaths, j);
    hide Merged;
    TakeLeast(merged, rows, i, i + 1, stagedPaths, j, j, p);
    ShowOneMore(visible, prefix, status, merged, p);
  }

  lemma {:induction false} NotStaged(merged: seq<string>, rows: seq<string>, i: nat, staged: seq<string>, j: nat)
    requires Merged(merged, rows, i, staged, j) && Ascending(staged)
    requires i < |rows| && (j < |staged| ==> Less(rows[i], staged[j]))
    ensures rows[i] !in staged
  {
    hide Less;
    LessIrreflexive(rows[i]);
    forall n | 0 <= n < |staged| ensures Less(staged[n], rows[i]) || Less(rows[i], staged[n]) {
      if n < j {
        assert staged[..j][n] in merged;
      } else {
        LessThanRest(staged, j, j, n, rows[i]);
      }
    }
  }

  lemma {:induction false} MergedAll(
    visible: map<string, Execution>, base: map<string, Execution>, table: Table, rows: seq<string>,
    staged: map<string, Mutation>, stagedPaths: seq<string>, prefix: string, status: Option<Status>,
    merged: seq<string>, r: seq<Execution>, sorted: seq<string>)
    requires Sides(visible, base, table, rows, staged, stagedPaths, prefix)
    requires Merging(visible, prefix, status, merged, rows, |rows|, stagedPaths, |stagedPaths|, r)
    requires IsSorting(sorted, visible.Keys)
    ensures r == Shown(visible, prefix, status, sorted)
  {
    hide Less, Ascending, Shown;
    assert rows[..|rows|] == rows && stagedPaths[..|stagedPaths|] == stagedPaths;
    forall p | Matches(visible, prefix, status, p) ensures p in merged && p in sorted {
      assert Overlays(visible, base, staged, p);
    }
    ShownDependsOnMatches(visible, prefix, status, merged, sorted);
  }

  method Merge(
    table: Table, rows: seq<string>, staged: map<string, Mutation>, stagedPaths: seq<string>, status: Option<Status>,
    ghost visible: map<string, Execution>, ghost base: map<string, Execution>, ghost prefix: string
  ) returns (r: seq<Execution>)
    requires Sides(visible, base, table, rows, staged, stagedPaths, prefix)
    ensures r == Shown(visible, prefix, status, SortedOf(visible.Keys))
  {
    hide Merging, Less, Ascending, Overlays, ParsePath, Shown;
    r := [];
    ghost var merged: seq<string> := [];
    NothingMerged(visible, prefix, status, rows, stagedPaths);
    var nextStaged := 0;
    for i := 0 to |rows|
      invariant nextStaged <= |stagedPaths|
      invariant Merging(visible, prefix, status, merged, rows, i, stagedPaths, nextStaged, r)
    {
      var path := rows[i];
      while nextStaged < |stagedPaths| && Less(stagedPaths[nextStaged], path)
        invariant nextStaged <= |stagedPaths|
        invariant Merging(visible, prefix, status, merged, rows, i, stagedPaths, nextStaged, r)
      {
        StagedTaken(visible, base, table, rows, staged, stagedPaths, prefix, status, merged, i, nextStaged, r);
        var pending := stagedPaths[nextStaged];
        nextStaged := nextStaged + 1;
        merged := merged + [pending];
        r := r + Emitted(StagedExecution(staged[pending]), status);
      }
      if nextStaged < |stagedPaths| && stagedPaths[nextStaged] == path {
        BothTaken(visible, base, table, rows, staged, stagedPaths, prefix, status, merged, i, nextStaged, r);
        nextStaged := nextStaged + 1;
        r := r + Emitted(StagedExecution(staged[path]), status);
      } else {
        if nextStaged < |stagedPaths| { LessTotal(path, stagedPaths[nextStaged]); }
        RowTaken(visible, base, table, rows, staged, stagedPaths, prefix, status, merged, i, nextStaged, r);
        var id := PathToExecutionId(path);
        r := r + Emitted(Some(ToExecution(table[path], id.value)), status);
      }
      merged := merged + [path];
    }
    while nextStaged < |stagedPaths|
      invariant nextStaged <= |stagedPaths|
      invariant Merging(visible, prefix, status, merged, rows, |rows|, stagedPaths, nextStaged, r)
    {
      StagedTaken(visible, base, table, rows, staged, stagedPaths, prefix, status, merged, |rows|, nextStaged, r);
      r := r + Emitted(StagedExecution(staged[stagedPaths[nextStaged]]), status);
      merged := merged + [stagedPaths[nextStaged]];
      nextStaged := nextStaged + 1;
    }
    MergedAll(visible, base, table, rows, staged, stagedPaths, prefix, status, merged, r, SortedOf(visible.Keys));
  }

  lemma {:induction false} NothingMerged(
    visible: map<string, Execution>, prefix: string, status: Option<Status>, rows: seq<string>, staged: seq<string>)
    ensures Merging(visible, prefix, status, [], rows, 0, staged, 0, [])
  {
  }

  lemma {:induction false} SidesHold(
    committed: Data, batch: Batch, session: string, prefix: string, rows: seq<string>, stagedPaths: seq<string>)
    requires Keyed(committed) && KeyedBatch(batch) && Keyed(Applied(committed, batch))
    requires Ascending(rows) && forall p :: p in rows <==> p in RowsOf(committed, session) && prefix <= p
    requires IsSorting(stagedPaths, StagedUnder(batch, session, prefix).Keys)
    ensures Sides(
      ByPath(Applied(committed, batch), session), ByPath(committed, session), RowsOf(committed, session), rows,
      StagedUnder(batch, session, prefix), stagedPaths, prefix)
  {
    hide ByPath, Overlays, Ascending, ParsePath, ToExecution, Applied, ValidId;
    var table, base, staged := RowsOf(committed, session), ByPath(committed, session), StagedUnder(batch, session, prefix);
    assert forall p :: p in table <==> p in base;
    assert forall p :: p in staged ==> prefix <= p;
    AllOverlay(committed, batch, session, prefix);
    AllRestore(committed, session, rows, prefix);
  }

  lemma {:induction false} AllOverlay(committed: Data, batch: Batch, session: string, prefix: string)
    requires Keyed(committed) && KeyedBatch(batch) && Keyed(Applied(committed, batch))
    ensures forall p :: prefix <= p ==>
      Overlays(
        ByPath(Applied(committed, batch), session), ByPath(committed, session), StagedUnder(batch, session, prefix), p)
  {
    hide ByPath, Overlays, Applied, StagedUnder, ValidId;
    forall p | prefix <= p
      ensures Overlays(
        ByPath(Applied(committed, batch), session), ByPath(committed, session), StagedUnder(batch, session, prefix), p)
    {
      VisibleOverlays(committed, batch, session, prefix, p);
    }
  }

  lemma {:induction false} AllRestore(committed: Data, session: string, rows: seq<string>, prefix: string)
    requires Keyed(committed)
    requires forall p :: p in rows <==> p in RowsOf(committed, session) && prefix <= p
    ensures forall p :: p in rows ==>
      && p in RowsOf(committed, session) && p in ByPath(committed, session)
      && ParsePath(p).Some?
      && ToExecution(RowsOf(committed, session)[p], ParsePath(p).value) == ByPath(committed, session)[p]
  {
    hide ByPath, ParsePath, ToExecution, ValidId;
    forall p | p in rows
      ensures p in RowsOf(committed, session) && p in ByPath(committed, session)
      ensures ParsePath(p).Some?
      ensures ToExecution(RowsOf(committed, session)[p], ParsePath(p).value) == ByPath(committed, session)[p]
    {
      RowsRestore(committed, session, p);
    }
  }

  // The streaming merge enumerates exactly what overlaying the staged mutations on the
  // committed data, sorting by path and then filtering does.
  method Executions(table: Table, stage: Option<Batch>, q: Query, ghost committed: Data) returns (r: seq<Execution>)
    requires Keyed(committed) && table == RowsOf(committed, q.session)
    requires stage.Some? ==> KeyedBatch(stage.value)
    ensures Keyed(if stage.None? then committed else Applied(committed, stage.value))
    ensures r == Enumerated(if stage.None? then committed else Applied(committed, stage.value), q)
  {
    hide ByPath, Sides, Merging, Applied, Shown, PathOf, ValidId, RowsOf, StagedUnder, IsSorting;
    var batch: Batch := if stage.None? then map[] else stage.value;
    EmptyIsKeyed();
    AppliedIsKeyed(committed, batch);
    NothingApplied(committed);
    var prefix := PrefixOf(q.under);
    var staged := StagedFor(batch, q.session, prefix);
    var stagedPaths := Sort(staged.Keys);
    var rows := SelectRange(table, prefix);
    ghost var visible := ByPath(Applied(committed, batch), q.session);
    SidesHold(committed, batch, q.session, prefix, rows, stagedPaths);
    r := Merge(table, rows, staged, stagedPaths, q.status, visible, ByPath(committed, q.session), prefix);
  }

  lemma {:induction false} EmptyIsKeyed()
    ensures KeyedBatch(map[])
  {
  }
}
