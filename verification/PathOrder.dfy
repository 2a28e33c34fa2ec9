// The order paths are enumerated in, and the range scan that stands for a prefix.
module PathOrder {
  import opened Identity
  import opened PathCodec
  import Percent = PercentCodec

  // ---- Strings by code point ----------------------------------------------------------

  predicate Less(a: string, b: string) {
    b != "" && (a == "" || a[0] < b[0] || (a[0] == b[0] && Less(a[1..], b[1..])))
  }

  lemma {:induction false} LessTrans(a: string, b: string, c: string)
    requires Less(a, b) && Less(b, c)
    ensures Less(a, c)
  {
    if a != "" && a[0] == b[0] == c[0] { LessTrans(a[1..], b[1..], c[1..]); }
  }

  lemma {:induction false} LessIrreflexive(a: string)
    ensures !Less(a, a)
  {
    if a != "" { LessIrreflexive(a[1..]); }
  }

  lemma {:induction false} LessTotal(a: string, b: string)
    ensures Less(a, b) || Less(b, a) || a == b
  {
    if a != "" && b != "" && a[0] == b[0] {
      LessTotal(a[1..], b[1..]);
      assert a == [a[0]] + a[1..] && b == [b[0]] + b[1..];
    }
  }

  lemma {:induction false} PrefixIsLess(a: string, b: string)
    requires a < b
    ensures Less(a, b)
  {
    if a != "" { PrefixIsLess(a[1..], b[1..]); }
  }

  // ---- The same order on UTF-8 bytes --------------------------------------------------

  predicate BytesLess(a: seq<int>, b: seq<int>) {
    b != [] && (a == [] || a[0] < b[0] || (a[0] == b[0] && BytesLess(a[1..], b[1..])))
  }

  function Utf8Text(s: string): seq<int> {
    if s == "" then [] else Percent.Utf8(s[0]) + Utf8Text(s[1..])
  }

  // The four digits of a code point that its bytes carry.
  function Digits(c: char): (int, int, int, int) {
    var n := c as int;
    (n / 262144, n / 4096 % 64, n / 64 % 64, n % 64)
  }

  lemma {:induction false} DigitsSpell(c: char)
    ensures var (d3, d2, d1, d0) := Digits(c);
      && c as int == ((d3 * 64 + d2) * 64 + d1) * 64 + d0
      && d3 >= 0 && 0 <= d2 < 64 && 0 <= d1 < 64 && 0 <= d0 < 64
  {
    Percent.SixBits(c as int);
  }

  lemma {:induction false} Utf8Digits(c: char)
    ensures var (d3, d2, d1, d0) := Digits(c);
      Percent.Utf8(c) ==
        if c as int < 0x80 then [d1 * 64 + d0]
        else if c as int < 0x800 then [0xC0 + d2 * 64 + d1, 0x80 + d0]
        else if c as int < 0x10000 then [0xE0 + d3 * 64 + d2, 0x80 + d1, 0x80 + d0]
        else [0xF0 + d3, 0x80 + d2, 0x80 + d1, 0x80 + d0]
  {
    Percent.SixBits(c as int);
    DigitsSpell(c);
  }

  // Two characters' bytes first differ where the smaller character's byte is smaller.
  lemma {:induction false} Utf8Differs(c: char, d: char) returns (i: nat)
    requires c < d
    ensures var a, b := Percent.Utf8(c), Percent.Utf8(d);
      i < |a| && i < |b| && a[..i] == b[..i] && a[i] < b[i]
  {
    hide Digits, Percent.Utf8;
    var a, b := Percent.Utf8(c), Percent.Utf8(d);
    Utf8Digits(c);
    Utf8Digits(d);
    DigitsSpell(c);
    DigitsSpell(d);
    i := if a[0] != b[0] then 0 else if a[1] != b[1] then 1 else if a[2] != b[2] then 2 else 3;
  }

  lemma {:induction false} BytesDecide(a: seq<int>, b: seq<int>, i: nat)
    requires i < |a| && i < |b| && a[..i] == b[..i] && a[i] < b[i]
    ensures BytesLess(a, b) && !BytesLess(b, a)
  {
    if i > 0 {
      assert a[0] == a[..i][0] == b[..i][0] == b[0];
      assert a[1..][..i - 1] == a[..i][1..] && b[1..][..i - 1] == b[..i][1..];
      BytesDecide(a[1..], b[1..], i - 1);
    }
  }

  lemma {:induction false} BytesSkip(common: seq<int>, a: seq<int>, b: seq<int>)
    ensures BytesLess(common + a, common + b) <==> BytesLess(a, b)
  {
    if common == [] {
      assert common + a == a && common + b == b;
    } else {
      BytesSkip(common[1..], a, b);
      assert (common + a)[1..] == common[1..] + a && (common + b)[1..] == common[1..] + b;
    }
  }

  lemma {:induction false} FirstCharsDecide(a: string, b: string)
    requires a != "" && b != "" && a[0] < b[0]
    ensures BytesLess(Utf8Text(a), Utf8Text(b)) && !BytesLess(Utf8Text(b), Utf8Text(a))
  {
    var i := Utf8Differs(a[0], b[0]);
    var x, y := Utf8Text(a), Utf8Text(b);
    assert x[..i] == Percent.Utf8(a[0])[..i] && y[..i] == Percent.Utf8(b[0])[..i];
    BytesDecide(x, y, i);
  }

  // Comparing UTF-8 bytes, as the database does, and comparing code points, as the staged
  // side does, are one order.
  lemma {:induction false} OrdersAgree(a: string, b: string)
    ensures BytesLess(Utf8Text(a), Utf8Text(b)) <==> Less(a, b)
  {
    if a == "" || b == "" {
    } else if a[0] < b[0] {
      FirstCharsDecide(a, b);
    } else if b[0] < a[0] {
      FirstCharsDecide(b, a);
    } else {
      BytesSkip(Percent.Utf8(a[0]), Utf8Text(a[1..]), Utf8Text(b[1..]));
      OrdersAgree(a[1..], b[1..]);
    }
  }

  // ---- The range that stands for a prefix ---------------------------------------------

  // A character that has a next one.
  predicate Bounded(prefix: string) {
    prefix != "" && Percent.IsScalar(prefix[|prefix| - 1] as int + 1)
  }

  function UpperBound(prefix: string): string
    requires Bounded(prefix)
  {
    prefix[..|prefix| - 1] + [(prefix[|prefix| - 1] as int + 1) as char]
  }

  predicate InRange(path: string, prefix: string)
    requires Bounded(prefix)
  {
    !Less(path, prefix) && Less(path, UpperBound(prefix))
  }

  // prefix <= path < bound selects exactly the paths that start with the prefix.
  lemma {:induction false} RangeIsPrefix(path: string, prefix: string)
    requires Bounded(prefix)
    ensures InRange(path, prefix) <==> prefix <= path
  {
    var bound := UpperBound(prefix);
    if |prefix| == 1 {
      if path != "" {
        assert bound[0] as int == prefix[0] as int + 1;
        assert path[0] < bound[0] <==> path[0] as int < bound[0] as int;
        assert path[0] < prefix[0] <==> path[0] as int < prefix[0] as int;
        assert !Less(path[1..], prefix[1..]) && !Less(path[1..], bound[1..]);
        assert InRange(path, prefix) <==> path[0] == prefix[0];
        assert prefix == [prefix[0]] && path == [path[0]] + path[1..];
      }
    } else if path != "" && path[0] == prefix[0] {
      RangeIsPrefix(path[1..], prefix[1..]);
      assert UpperBound(prefix[1..]) == bound[1..];
      assert prefix <= path <==> prefix[1..] <= path[1..];
    }
  }

  // ---- Sorted paths -------------------------------------------------------------------

  ghost predicate Ascending(paths: seq<string>) {
    paths != [] ==>
      var init, last := paths[..|paths| - 1], paths[|paths| - 1];
      Ascending(init) && forall p :: p in init ==> Less(p, last)
  }

  ghost predicate IsSorting(paths: seq<string>, all: set<string>) {
    Ascending(paths) && forall p :: p in paths <==> p in all
  }

  lemma {:induction false} LastIsGreatest(paths: seq<string>, p: string)
    requires Ascending(paths) && p in paths
    ensures p == paths[|paths| - 1] || (p in paths[..|paths| - 1] && Less(p, paths[|paths| - 1]))
  {
    assert paths == paths[..|paths| - 1] + [paths[|paths| - 1]];
  }

  // A set of paths has one sorting.
  lemma {:induction false} SortingIsUnique(a: seq<string>, b: seq<string>)
    requires Ascending(a) && Ascending(b) && forall p :: p in a <==> p in b
    ensures a == b
  {
    assert a != [] ==> a[0] in b;
    assert b != [] ==> b[0] in a;
    if a != [] {
      var x, y := a[|a| - 1], b[|b| - 1];
      assert x in a && y in b;
      LastIsGreatest(a, y);
      LastIsGreatest(b, x);
      if x != y { LessTrans(x, y, x); LessIrreflexive(x); }
      var c, d := a[..|a| - 1], b[..|b| - 1];
      InitWithoutLast(a);
      InitWithoutLast(b);
      forall p ensures p in c <==> p in d {
        assert p in a <==> p in b;
      }
      SortingIsUnique(c, d);
      assert a == c + [x] && b == d + [y];
    }
  }

  lemma {:induction false} InitWithoutLast(paths: seq<string>)
    requires Ascending(paths) && paths != []
    ensures var last := paths[|paths| - 1];
      forall p :: p in paths[..|paths| - 1] <==> p in paths && p != last
  {
    var init, last := paths[..|paths| - 1], paths[|paths| - 1];
    assert paths == init + [last];
    LessIrreflexive(last);
  }

  function Insert(paths: seq<string>, p: string): (r: seq<string>) {
    if paths == [] || Less(paths[|paths| - 1], p) then paths + [p]
    else Insert(paths[..|paths| - 1], p) + [paths[|paths| - 1]]
  }

  lemma {:induction false} InsertSorts(paths: seq<string>, p: string)
    requires Ascending(paths) && p !in paths
    ensures Ascending(Insert(paths, p)) && forall q :: q in Insert(paths, p) <==> q in paths || q == p
  {
    if paths == [] {
    } else {
      var init, last := paths[..|paths| - 1], paths[|paths| - 1];
      assert paths == init + [last];
      if Less(last, p) {
        forall q | q in paths ensures Less(q, p) {
          if q != last { LessTrans(q, last, p); }
        }
        assert (paths + [p])[..|paths|] == paths;
      } else {
        InsertSorts(init, p);
        LessTotal(last, p);
        var r := Insert(paths, p);
        assert r[..|r| - 1] == Insert(init, p);
      }
    }
  }

  // sorted(paths)
  method Sort(paths: set<string>) returns (sorted: seq<string>)
    ensures IsSorting(sorted, paths)
  {
    sorted := [];
    var remaining := paths;
    while remaining != {}
      invariant remaining <= paths && IsSorting(sorted, paths - remaining)
      decreases remaining
    {
      var p :| p in remaining;
      InsertSorts(sorted, p);
      sorted := Insert(sorted, p);
      remaining := remaining - {p};
    }
  }

  lemma {:induction false} SortingExists(paths: set<string>)
    ensures exists sorted :: IsSorting(sorted, paths)
  {
    if paths == {} {
      assert IsSorting([], paths);
    } else {
      var p :| p in paths;
      SortingExists(paths - {p});
      var rest :| IsSorting(rest, paths - {p});
      InsertSorts(rest, p);
      assert IsSorting(Insert(rest, p), paths);
    }
  }

  // Sorting by path puts every ancestor before its descendants.
  lemma {:induction false} AncestorsComeFirst(id: ExecutionId, top: ExecutionId)
    requires ValidId(id) && ValidId(top) && Under(id, top)
    ensures Less(PathOf(top), PathOf(id))
  {
    DescendantsArePrefixed(id, top);
    PrefixIsLess(PathOf(top), PathOf(id));
  }

  // The range scan under an identity selects exactly its strict descendants.
  lemma {:induction false} RangeIsDescendants(id: ExecutionId, top: ExecutionId)
    requires ValidId(id) && ValidId(top)
    ensures Bounded(PathOf(top) + "/") && (InRange(PathOf(id), PathOf(top) + "/") <==> Under(id, top))
  {
    RangeIsPrefix(PathOf(id), PathOf(top) + "/");
    DescendantsArePrefixed(id, top);
  }
}
