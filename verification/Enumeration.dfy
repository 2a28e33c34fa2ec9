// Enumerating a session's executions: the in-memory overlay, and the streaming merge of
// the relational store, which yields the same executions in the same order.
module Enumeration {
  import opened Wrappers
  import opened Identity
  import opened Staging
  import opened PathCodec
  import opened PathOrder

  // ---- What is enumerated -------------------------------------------------------------

  datatype Query = Query(session: string, status: Option<Status>, under: Option<ExecutionId>)

  function PrefixOf(under: Option<ExecutionId>): string {
    if under.None? then "" else PathOf(under.value) + "/"
  }

  // Records are keyed by their own, valid identities.
  ghost predicate Keyed(data: Data) {
    forall k :: k in data ==> ValidId(k.id) && data[k].id == k.id
  }

  ghost predicate KeyedBatch(batch: Batch) {
    forall k :: k in batch ==> ValidId(k.id) && (batch[k].SaveExecution? ==> batch[k].snapshot.id == k.id)
  }

  // Within a session, distinct keys have distinct paths.
  lemma {:induction false} KeysHaveOwnPaths(keys: set<Key>, session: string)
    requires forall k :: k in keys ==> ValidId(k.id)
    ensures forall k, l | k in keys && l in keys && k.session == session && l.session == session ::
      PathOf(k.id) == PathOf(l.id) ==> k == l
  {
    hide PathOf, ValidId;
    forall k, l | k in keys && l in keys && k.session == session && l.session == session && PathOf(k.id) == PathOf(l.id)
      ensures k == l
    {
      PathsAreDistinct(k.id, l.id);
    }
  }

  // One session's entries by path.
  function ByPath<V>(entries: map<Key, V>, session: string): (r: map<string, V>)
    requires forall k :: k in entries ==> ValidId(k.id)
    ensures forall k :: k in entries && k.session == session ==> PathOf(k.id) in r && r[PathOf(k.id)] == entries[k]
    ensures forall p :: p in r ==> exists k :: k in entries && k.session == session && p == PathOf(k.id)
  {
    KeysHaveOwnPaths(entries.Keys, session);
    map k | k in entries.Keys && k.session == session :: PathOf(k.id) := entries[k]
  }

  predicate Matches(visible: map<string, Execution>, prefix: string, status: Option<Status>, p: string) {
    p in visible && prefix <= p && (status.None? || visible[p].status == status.value)
  }

  // The matching executions of a list of paths, in its order.
  function Shown(visible: map<string, Execution>, prefix: string, status: Option<Status>, paths: seq<string>)
    : seq<Execution>
  {
    if paths == [] then []
    else
      var last := paths[|paths| - 1];
      Shown(visible, prefix, status, paths[..|paths| - 1])
      + if Matches(visible, prefix, status, last) then [visible[last]] else []
  }

  ghost function SortedOf(paths: set<string>): (sorted: seq<string>)
    ensures IsSorting(sorted, paths)
  {
    SortingExists(paths);
    var sorted :| IsSorting(sorted, paths);
    sorted
  }

  // All of a session's data in path order, then filtered.
  ghost function Enumerated(data: Data, q: Query): seq<Execution>
    requires Keyed(data)
  {
    var visible := ByPath(data, q.session);
    Shown(visible, PrefixOf(q.under), q.status, SortedOf(visible.Keys))
  }

  // ---- Only the matching paths matter -------------------------------------------------

  function Kept(visible: map<string, Execution>, prefix: string, status: Option<Status>, paths: seq<string>)
    : seq<string>
  {
    if paths == [] then []
    else
      var last := paths[|paths| - 1];
      Kept(visible, prefix, status, paths[..|paths| - 1])
      + if Matches(visible, prefix, status, last) then [last] else []
  }

  function Values(visible: map<string, Execution>, paths: seq<string>): seq<Execution> {
    if paths == [] then []
    else
      var last := paths[|paths| - 1];
      Values(visible, paths[..|paths| - 1]) + if last in visible then [visible[last]] else []
  }

  lemma {:induction false} KeptExactly(
    visible: map<string, Execution>, prefix: string, status: Option<Status>, paths: seq<string>)
    requires Ascending(paths)
    ensures var kept := Kept(visible, prefix, status, paths);
      && Ascending(kept)
      && (forall p :: p in kept <==> p in paths && Matches(visible, prefix, status, p))
      && Shown(visible, prefix, status, paths) == Values(visible, kept)
  {
    hide Less, PathOrder.Insert;
    if paths != [] {
      var init, last := paths[..|paths| - 1], paths[|paths| - 1];
      KeptExactly(visible, prefix, status, init);
      assert paths == init + [last];
      var kept := Kept(visible, prefix, status, paths);
      if Matches(visible, prefix, status, last) {
        assert kept[..|kept| - 1] == Kept(visible, prefix, status, init);
      } else {
        assert kept == Kept(visible, prefix, status, init);
      }
    }
  }

  // Ascending lists with the same matching paths show the same executions.
  lemma {:induction false} ShownDependsOnMatches(
    visible: map<string, Execution>, prefix: string, status: Option<Status>, a: seq<string>, b: seq<string>)
    requires Ascending(a) && Ascending(b)
    requires forall p :: Matches(visible, prefix, status, p) ==> p in a && p in b
    ensures Shown(visible, prefix, status, a) == Shown(visible, prefix, status, b)
  {
    hide Ascending, Shown, Kept, Values;
    KeptExactly(visible, prefix, status, a);
    KeptExactly(visible, prefix, status, b);
    SortingIsUnique(Kept(visible, prefix, status, a), Kept(visible, prefix, status, b));
  }

  // ---- The in-memory store ------------------------------------------------------------

  lemma {:induction false} AppliedIsKeyed(data: Data, batch: Batch)
    requires Keyed(data) && KeyedBatch(batch)
    ensures Keyed(Applied(data, batch))
  {
  }

  // One staged mutation laid over the visible paths.
  function Overlaid(visible: map<string, Execution>, path: string, mutation: Mutation): map<string, Execution> {
    match mutation
    case SaveExecution(snapshot) => visible[path := snapshot]
    case DeleteExecution => visible - {path}
  }

  lemma {:induction false} OwnPath<V>(entries: map<Key, V>, key: Key)
    requires ValidId(key.id) && forall k :: k in entries ==> ValidId(k.id)
    ensures PathOf(key.id) in ByPath(entries, key.session) <==> key in entries
  {
    hide PathOf, ByPath, ValidId;
    var r := ByPath(entries, key.session);
    if PathOf(key.id) in r {
      var k :| k in entries && k.session == key.session && PathOf(key.id) == PathOf(k.id);
      PathsAreDistinct(k.id, key.id);
    }
  }

  // Entries that differ at one key differ at its path only.
  lemma {:induction false} OtherPaths<V>(a: map<Key, V>, b: map<Key, V>, key: Key, session: string, p: string)
    requires (forall k :: k in a ==> ValidId(k.id)) && forall k :: k in b ==> ValidId(k.id)
    requires forall k :: k in a && k != key ==> k in b && b[k] == a[k]
    requires key.session == session ==> p != PathOf(key.id)
    ensures p in ByPath(a, session) ==> p in ByPath(b, session) && ByPath(b, session)[p] == ByPath(a, session)[p]
  {
    hide PathOf, ByPath, ValidId;
    if p in ByPath(a, session) {
      var k :| k in a && k.session == session && p == PathOf(k.id);
    }
  }

  lemma {:induction false} OverlayOne(data: Data, key: Key, mutation: Mutation, session: string)
    requires Keyed(data) && Keyed(Changed(data, key, mutation)) && ValidId(key.id)
    ensures ByPath(Changed(data, key, mutation), session) ==
      if key.session != session then ByPath(data, session)
      else Overlaid(ByPath(data, session), PathOf(key.id), mutation)
  {
    hide PathOf, ByPath, ValidId;
    var changed := Changed(data, key, mutation);
    assert Keyed(data) && Keyed(changed);
    var after, before := ByPath(changed, session), ByPath(data, session);
    OwnPath(changed, key);
    forall p | key.session == session ==> p != PathOf(key.id)
      ensures (p in after <==> p in before) && (p in after ==> after[p] == before[p])
    {
      OtherPaths(changed, data, key, session, p);
      OtherPaths(data, changed, key, session, p);
    }
    var expected := if key.session != session then before else Overlaid(before, PathOf(key.id), mutation);
    assert forall p :: p in after <==> p in expected;
    assert after.Keys == expected.Keys;
  }

  method MemoryExecutions(committed: Data, stage: Option<Batch>, q: Query) returns (r: seq<Execution>)
    requires Keyed(committed) && (stage.Some? ==> KeyedBatch(stage.value))
    ensures Keyed(if stage.None? then committed else Applied(committed, stage.value))
    ensures r == Enumerated(if stage.None? then committed else Applied(committed, stage.value), q)
  {
    hide Applied, Shown, Matches, Overlaid, Enumerated;
    var prefix := PrefixOf(q.under);
    var visible := ByPath(committed, q.session);
    if stage.Some? {
      visible := OverlayBatch(committed, stage.value, q.session, visible);
    }
    ghost var data := if stage.None? then committed else Applied(committed, stage.value);
    var sorted := Sort(visible.Keys);
    r := [];
    assert Shown(visible, prefix, q.status, []) == [] by { NothingShown(visible, prefix, q.status); }
    for i := 0 to |sorted|
      invariant r == Shown(visible, prefix, q.status, sorted[..i])
    {
      var path := sorted[i];
      ShownMore(visible, prefix, q.status, sorted, i);
      if prefix <= path {
        var execution := visible[path];
        if q.status.None? || q.status.value == execution.status {
          r := r + [execution];
        }
      }
    }
    assert sorted[..|sorted|] == sorted;
    SameSorting(data, q, sorted);
  }

  lemma {:induction false} NothingShown(visible: map<string, Execution>, prefix: string, status: Option<Status>)
    ensures Shown(visible, prefix, status, []) == []
  {
  }

  lemma {:induction false} ShownMore(
    visible: map<string, Execution>, prefix: string, status: Option<Status>, paths: seq<string>, i: nat)
    requires i < |paths|
    ensures Shown(visible, prefix, status, paths[..i + 1]) ==
      Shown(visible, prefix, status, paths[..i])
      + if paths[i] in visible && prefix <= paths[i] && (status.None? || visible[paths[i]].status == status.value)
        then [visible[paths[i]]] else []
  {
    assert paths[..i + 1][..i] == paths[..i];
  }

  lemma {:induction false} SameSorting(data: Data, q: Query, sorted: seq<string>)
    requires Keyed(data) && IsSorting(sorted, ByPath(data, q.session).Keys)
    ensures Shown(ByPath(data, q.session), PrefixOf(q.under), q.status, sorted) == Enumerated(data, q)
  {
    SortingIsUnique(sorted, SortedOf(ByPath(data, q.session).Keys));
  }

  method OverlayBatch(ghost committed: Data, batch: Batch, session: string, base: map<string, Execution>)
    returns (visible: map<string, Execution>)
    requires Keyed(committed) && KeyedBatch(batch) && base == ByPath(committed, session)
    ensures Keyed(Applied(committed, batch)) && visible == ByPath(Applied(committed, batch), session)
  {
    hide Applied, Changed, ByPath, PathOf;
    visible := base;
    var remaining := batch.Keys;
    assert Keyed(Applied(committed, batch - remaining))
      && visible == ByPath(Applied(committed, batch - remaining), session)
    by {
      NothingApplied(committed);
      assert batch - remaining == map[];
    }
    while remaining != {}
      invariant remaining <= batch.Keys
      invariant Keyed(Applied(committed, batch - remaining))
      invariant visible == ByPath(Applied(committed, batch - remaining), session)
      decreases remaining
    {
      var key :| key in remaining;
      AppliedIsKeyed(committed, batch - (remaining - {key}));
      OneMore(committed, batch, remaining, key);
      OverlayOne(Applied(committed, batch - remaining), key, batch[key], session);
      if key.session == session {
        var path := ExecutionIdToPath(key.id);
        match batch[key] {
          case SaveExecution(snapshot) => visible := visible[path := snapshot];
          case DeleteExecution => visible := visible - {path};
        }
      }
      remaining := remaining - {key};
    }
    assert batch - {} == batch;
  }

  lemma {:induction false} NothingApplied(data: Data)
    ensures Applied(data, map[]) == data
  {
  }

  // ---- What an enumeration contains ---------------------------------------------------

  // The execution is the session's, has the status, and lies under the identity.
  ghost predicate Selected(data: Data, q: Query, k: Key, e: Execution) {
    && k in data && data[k] == e && k.session == q.session
    && (q.status.None? || e.status == q.status.value)
    && (q.under.None? || Under(k.id, q.under.value))
  }

  // Ascending by path, so nothing is listed twice.
  ghost predicate ByAscendingPath(executions: seq<Execution>) {
    forall i, j :: 0 <= i < j < |executions| ==> Less(PathOf(executions[i].id), PathOf(executions[j].id))
  }

  lemma {:induction false} ValuesAscend(visible: map<string, Execution>, paths: seq<string>)
    requires Ascending(paths) && forall p :: p in paths ==> p in visible && PathOf(visible[p].id) == p
    ensures var r := Values(visible, paths);
      && |r| == |paths|
      && (forall i :: 0 <= i < |r| ==> r[i] == visible[paths[i]])
      && ByAscendingPath(r)
  {
    hide PathOf, Less;
    if paths != [] {
      var init, last := paths[..|paths| - 1], paths[|paths| - 1];
      assert paths == init + [last];
      ValuesAscend(visible, init);
      var r := Values(visible, paths);
      forall i, j | 0 <= i < j < |r| ensures Less(PathOf(r[i].id), PathOf(r[j].id)) {
        assert paths[i] in init;
      }
    }
  }

  lemma {:induction false} PathsOfKeyed(data: Data, session: string, p: string)
    requires Keyed(data) && p in ByPath(data, session)
    ensures var e := ByPath(data, session)[p];
      PathOf(e.id) == p && Key(session, e.id) in data && data[Key(session, e.id)] == e && ValidId(e.id)
  {
    hide PathOf, ValidId, ByPath;
    var k :| k in data && k.session == session && p == PathOf(k.id);
    assert k == Key(session, k.id);
  }

  lemma {:induction false} MatchesSelected(data: Data, q: Query, k: Key)
    requires Keyed(data) && k in data && k.session == q.session && (q.under.Some? ==> ValidId(q.under.value))
    ensures var visible := ByPath(data, q.session);
      && PathOf(k.id) in visible && visible[PathOf(k.id)] == data[k]
      && (Matches(visible, PrefixOf(q.under), q.status, PathOf(k.id)) <==> Selected(data, q, k, data[k]))
  {
    if q.under.Some? { DescendantsArePrefixed(k.id, q.under.value); }
  }

  // The matching paths in order, and their executions.
  lemma {:induction false} EnumeratedPaths(data: Data, q: Query) returns (kept: seq<string>)
    requires Keyed(data)
    ensures var visible := ByPath(data, q.session);
      var r := Enumerated(data, q);
      && (forall p :: p in kept <==> Matches(visible, PrefixOf(q.under), q.status, p))
      && |r| == |kept|
      && (forall i :: 0 <= i < |r| ==> kept[i] in visible && r[i] == visible[kept[i]])
      && ByAscendingPath(r)
  {
    hide PathOf, ValidId, ByPath, Ascending, PrefixOf, Less;
    var visible := ByPath(data, q.session);
    var sorted := SortedOf(visible.Keys);
    kept := Kept(visible, PrefixOf(q.under), q.status, sorted);
    KeptExactly(visible, PrefixOf(q.under), q.status, sorted);
    forall p | p in kept ensures p in visible && PathOf(visible[p].id) == p {
      PathsOfKeyed(data, q.session, p);
    }
    ValuesAscend(visible, kept);
    forall i | 0 <= i < |kept| ensures kept[i] in visible {
      assert kept[i] in kept;
    }
  }

  // An enumeration lists exactly the session's executions with the status that lie under
  // the identity, each once, in path order.
  lemma {:induction false} EnumeratedExactly(data: Data, q: Query)
    requires Keyed(data) && (q.under.Some? ==> ValidId(q.under.value))
    ensures ByAscendingPath(Enumerated(data, q))
    ensures forall e :: e in Enumerated(data, q) <==> exists k :: Selected(data, q, k, e)
  {
    hide PathOf, ValidId, ByPath, PrefixOf, Less, Matches, Enumerated, ByAscendingPath;
    var kept := EnumeratedPaths(data, q);
    var r := Enumerated(data, q);
    forall e | e in r ensures exists k :: Selected(data, q, k, e) {
      var i :| 0 <= i < |r| && r[i] == e;
      assert kept[i] in kept;
      PathsOfKeyed(data, q.session, kept[i]);
      MatchesSelected(data, q, Key(q.session, e.id));
    }
    forall k, e | Selected(data, q, k, e) ensures e in r {
      MatchesSelected(data, q, k);
      var i :| 0 <= i < |kept| && kept[i] == PathOf(k.id);
    }
  }

  // Every ancestor is listed before its descendants.
  lemma {:induction false} ParentsAreListedFirst(data: Data, q: Query, i: nat, j: nat)
    requires Keyed(data) && (q.under.Some? ==> ValidId(q.under.value))
    requires i < |Enumerated(data, q)| && j < |Enumerated(data, q)|
    requires Under(Enumerated(data, q)[j].id, Enumerated(data, q)[i].id)
    ensures i < j
  {
    hide PathOf, Less, Enumerated;
    var r := Enumerated(data, q);
    EnumeratedExactly(data, q);
    assert r[i] in r && r[j] in r;
    var k :| Selected(data, q, k, r[i]);
    var l :| Selected(data, q, l, r[j]);
    AncestorsComeFirst(r[j].id, r[i].id);
    LessIrreflexive(PathOf(r[i].id));
    if j < i { LessTrans(PathOf(r[i].id), PathOf(r[j].id), PathOf(r[i].id)); }
  }
}
