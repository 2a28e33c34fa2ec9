// Paths of execution identities: one frame per call of the chain, joined by slashes.
module PathCodec {
  import opened Wrappers
  import opened Identity
  import Percent = PercentCodec

  // ---- Ordinals -----------------------------------------------------------------------

  function Digit(n: nat): char
    requires n < 10
  {
    ('0' as int + n) as char
  }

  // str(sequence)
  function Decimal(n: nat): string {
    if n < 10 then [Digit(n)] else Decimal(n / 10) + [Digit(n % 10)]
  }

  predicate IsSpace(c: char) {
    c == ' ' || 9 <= c as int <= 13 || 28 <= c as int <= 31
  }

  function TrimLeft(s: string): string {
    if s != "" && IsSpace(s[0]) then TrimLeft(s[1..]) else s
  }

  function TrimRight(s: string): string {
    if s != "" && IsSpace(s[|s| - 1]) then TrimRight(s[..|s| - 1]) else s
  }

  // Digits, with single underscores between them.
  function Digits(s: string): Option<nat> {
    if s == "" then None
    else
      var last := s[|s| - 1];
      var init := s[..|s| - 1];
      if !Percent.IsDigit(last) then None
      else if init == "" then Some(last as nat - '0' as nat)
      else
        var before := if init[|init| - 1] == '_' then Digits(init[..|init| - 1]) else Digits(init);
        if before.None? then None else Some(before.value * 10 + (last as nat - '0' as nat))
  }

  // int(spelling): surrounding whitespace, a sign, leading zeroes and underscores are taken.
  function ReadInt(spelling: string): Option<int> {
    var s := TrimRight(TrimLeft(spelling));
    if s != "" && (s[0] == '+' || s[0] == '-') then
      var n := Digits(s[1..]);
      if n.None? then None
      else
        var k: int := n.value;
        Some(if s[0] == '-' then -k else k)
    else
      var n := Digits(s);
      if n.None? then None else Some(n.value)
  }

  function DecodeSequence(spelling: string): Option<nat> {
    var n := ReadInt(spelling);
    if n.None? || n.value < 0 || Decimal(n.value) != spelling then None else Some(n.value)
  }

  lemma {:induction false} DecimalDigits(n: nat)
    ensures Decimal(n) != "" && Digits(Decimal(n)) == Some(n)
    ensures forall c :: c in Decimal(n) ==> Percent.IsDigit(c)
  {
    if n >= 10 {
      DecimalDigits(n / 10);
      var s := Decimal(n);
      assert s[..|s| - 1] == Decimal(n / 10);
      assert s[|s| - 1] == Digit(n % 10);
      assert Decimal(n / 10)[|Decimal(n / 10)| - 1] in Decimal(n / 10);
    }
  }

  // Exactly one spelling of each ordinal is read.
  lemma {:induction false} SequenceIsInverse(spelling: string, n: nat)
    ensures DecodeSequence(spelling) == Some(n) <==> spelling == Decimal(n)
  {
    DecimalDigits(n);
    var s := Decimal(n);
    assert s[0] in s && s[|s| - 1] in s;
    assert TrimLeft(s) == s && TrimRight(s) == s;
  }

  // The digit standing for 10 to the i.
  function DigitOf(n: nat, i: nat): nat {
    if i == 0 then n % 10 else DigitOf(n / 10, i - 1)
  }

  // An ordinal is written in decimal, the last digit counting ones, without leading zeroes.
  lemma {:induction false} DecimalSpells(n: nat, i: nat)
    requires i < |Decimal(n)|
    ensures DigitOf(n, i) < 10 && Decimal(n)[|Decimal(n)| - 1 - i] == "0123456789"[DigitOf(n, i)]
    ensures |Decimal(n)| > 1 ==> Decimal(n)[0] != '0'
  {
    if n >= 10 { DecimalSpells(n / 10, if i > 0 then i - 1 else 0); }
  }

  // ---- Domain identifiers -------------------------------------------------------------

  predicate StartsSegment(c: char) { 'a' <= c <= 'z' || '0' <= c <= '9' }

  // The grammar of domain names, read from left to right: `starting` says that the next
  // character opens a segment, so it may be neither a dot nor punctuation.
  predicate Segments(s: string, starting: bool) {
    if s == "" then !starting
    else if starting then StartsSegment(s[0]) && Segments(s[1..], false)
    else if s[0] == '.' then Segments(s[1..], true)
    else (StartsSegment(s[0]) || s[0] == '_' || s[0] == '-') && Segments(s[1..], false)
  }

  predicate IsDomainId(s: string) { Segments(s, true) }

  // What constructing the parts of an identity checks.
  predicate ValidFrame(id: ExecutionId) {
    IsDomainId(id.domain) && id.name != "" && id.digest != ""
  }

  predicate ValidId(id: ExecutionId) {
    ValidFrame(id) && (id.parent.Some? ==> ValidId(id.parent.value))
  }

  // ---- Partitions ---------------------------------------------------------------------

  // str.partition: what stands before the first separator, whether there is one, and what
  // stands after it.
  function Partition(s: string, separator: char): (string, bool, string) {
    if s == "" then ("", false, "")
    else if s[0] == separator then ("", true, s[1..])
    else
      var rest := Partition(s[1..], separator);
      ([s[0]] + rest.0, rest.1, rest.2)
  }

  lemma {:induction false} PartitionFinds(before: string, separator: char, after: string)
    requires separator !in before
    ensures Partition(before + [separator] + after, separator) == (before, true, after)
  {
    var s := before + [separator] + after;
    if before == "" {
      assert s[1..] == after;
    } else {
      PartitionFinds(before[1..], separator, after);
      assert s[1..] == before[1..] + [separator] + after;
      assert s[0] == before[0] && before[0] in before;
      assert before == [s[0]] + before[1..];
    }
  }

  lemma {:induction false} PartitionJoins(s: string, separator: char)
    ensures var (before, found, after) := Partition(s, separator);
      separator !in before && if found then s == before + [separator] + after else s == before && after == ""
  {
    if s != "" && s[0] != separator { PartitionJoins(s[1..], separator); }
  }

  // ---- Frames -------------------------------------------------------------------------

  function FormatFrame(id: ExecutionId): string {
    Percent.Encode(id.domain) + ":" + Percent.Encode(id.name)
    + "#" + (Decimal(id.sequence) + ":" + Percent.Encode(id.digest))
  }

  // A frame's own parts, under the parent read before it.
  function ParseFrame(frame: string, parent: Option<ExecutionId>): Option<ExecutionId> {
    var (identity, _, ordinal) := Partition(frame, '#');
    if ordinal == "" then None
    else
      var (domain, named, name) := Partition(identity, ':');
      var (sequence, separated, digest) := Partition(ordinal, ':');
      if !named || !separated then None
      else
        match (Percent.Decode(domain), Percent.Decode(name), DecodeSequence(sequence), Percent.Decode(digest))
        case (Some(d), Some(n), Some(k), Some(g)) =>
          var id := ExecutionId(parent, d, n, k, g);
          if ValidFrame(id) then Some(id) else None
        case _ => None
  }

  // None of the characters that delimit a path.
  predicate Plain(s: string) { ':' !in s && '#' !in s && '/' !in s }

  lemma {:induction false} EncodedIsPlain(value: string)
    ensures Plain(Percent.Encode(value))
  {
    Percent.EncodeAlphabet(value);
  }

  lemma {:induction false} DecimalIsPlain(n: nat)
    ensures Plain(Decimal(n))
  {
    DecimalDigits(n);
  }

  lemma {:induction false} PartsArePlain(id: ExecutionId)
    ensures Plain(Percent.Encode(id.domain)) && Plain(Percent.Encode(id.name))
    ensures Plain(Decimal(id.sequence)) && Plain(Percent.Encode(id.digest))
  {
    hide Plain;
    EncodedIsPlain(id.domain);
    EncodedIsPlain(id.name);
    DecimalIsPlain(id.sequence);
    EncodedIsPlain(id.digest);
  }

  lemma {:induction false} FrameHasNoSlash(id: ExecutionId)
    ensures '/' !in FormatFrame(id) && FormatFrame(id) != ""
  {
    PartsArePlain(id);
  }

  lemma {:induction false} ParseFormatted(id: ExecutionId)
    requires ValidFrame(id)
    ensures ParseFrame(FormatFrame(id), id.parent) == Some(id)
  {
    PartsArePlain(id);
    var domain, name, digest := Percent.Encode(id.domain), Percent.Encode(id.name), Percent.Encode(id.digest);
    var sequence := Decimal(id.sequence);
    var identity, ordinal := domain + ":" + name, sequence + ":" + digest;
    PartitionFinds(identity, '#', ordinal);
    PartitionFinds(domain, ':', name);
    PartitionFinds(sequence, ':', digest);
    Percent.DecodeIsInverse(domain, id.domain);
    Percent.DecodeIsInverse(name, id.name);
    Percent.DecodeIsInverse(digest, id.digest);
    SequenceIsInverse(sequence, id.sequence);
  }

  lemma {:induction false} FormatParsed(frame: string, parent: Option<ExecutionId>)
    requires ParseFrame(frame, parent).Some?
    ensures var id := ParseFrame(frame, parent).value;
      ValidFrame(id) && id.parent == parent && FormatFrame(id) == frame
  {
    var id := ParseFrame(frame, parent).value;
    var (identity, _, ordinal) := Partition(frame, '#');
    var (domain, named, name) := Partition(identity, ':');
    var (sequence, separated, digest) := Partition(ordinal, ':');
    PartitionJoins(frame, '#');
    PartitionJoins(identity, ':');
    PartitionJoins(ordinal, ':');
    Percent.DecodeIsInverse(domain, id.domain);
    Percent.DecodeIsInverse(name, id.name);
    Percent.DecodeIsInverse(digest, id.digest);
    SequenceIsInverse(sequence, id.sequence);
  }

  // A frame of readable parts reads as they do.
  lemma {:induction false} ReadableFrame(id: ExecutionId)
    requires forall c :: c in id.domain + id.name + id.digest ==> Percent.IsUnreserved(c)
    ensures FormatFrame(id) == id.domain + ":" + id.name + "#" + Decimal(id.sequence) + ":" + id.digest
  {
    Percent.ReadableStays(id.domain);
    Percent.ReadableStays(id.name);
    Percent.ReadableStays(id.digest);
  }

  // ---- Paths --------------------------------------------------------------------------

  // "/".join(frames)
  function Join(frames: seq<string>): string {
    if frames == [] then ""
    else if |frames| == 1 then frames[0]
    else Join(frames[..|frames| - 1]) + "/" + frames[|frames| - 1]
  }

  // path.split("/")
  function Split(path: string): (frames: seq<string>)
    ensures frames != []
  {
    if path == "" then [""]
    else
      var init := Split(path[..|path| - 1]);
      var last := path[|path| - 1];
      if last == '/' then init + [""] else Extended(init, last)
  }

  // The frames with one more character in the last of them.
  function Extended(frames: seq<string>, c: char): (r: seq<string>)
    requires frames != []
    ensures r != []
  {
    frames[..|frames| - 1] + [frames[|frames| - 1] + [c]]
  }

  lemma {:induction false} ExtendedOn(first: seq<string>, second: seq<string>, c: char)
    requires second != []
    ensures Extended(first + second, c) == first + Extended(second, c)
  {
    var both := first + second;
    assert both[..|both| - 1] == first + second[..|second| - 1];
  }

  // Every frame of the chain, root first.
  function Frames(id: ExecutionId): (frames: seq<string>)
    ensures frames != []
  {
    (if id.parent.None? then [] else Frames(id.parent.value)) + [FormatFrame(id)]
  }

  function PathOf(id: ExecutionId): string {
    Join(Frames(id))
  }

  function ParseFrames(frames: seq<string>): Option<Option<ExecutionId>> {
    if frames == [] then Some(None)
    else
      match ParseFrames(frames[..|frames| - 1])
      case None => None
      case Some(parent) =>
        var id := ParseFrame(frames[|frames| - 1], parent);
        if id.None? then None else Some(id)
  }

  function ParsePath(path: string): Option<ExecutionId> {
    if path == "" then None
    else
      match ParseFrames(Split(path))
      case Some(Some(id)) => Some(id)
      case _ => None
  }

  method ExecutionIdToPath(eid: ExecutionId) returns (path: string)
    ensures path == PathOf(eid)
  {
    hide FormatFrame, Frames, Reversed, Join;
    var frames: seq<string> := [];
    var current := Some(eid);
    assert Reversed([]) == [] by { NoneReversed(); }
    while current.Some?
      invariant ChainFrames(current) + Reversed(frames) == Frames(eid)
      decreases current
    {
      OneFrameMore(current.value, frames);
      frames := frames + [FormatFrame(current.value)];
      current := current.value.parent;
    }
    assert Reversed(frames) == Frames(eid);
    path := Join(Reversed(frames));
  }

  ghost function ChainFrames(current: Option<ExecutionId>): seq<string> {
    if current.None? then [] else Frames(current.value)
  }

  function Reversed(frames: seq<string>): seq<string> {
    if frames == [] then [] else [frames[|frames| - 1]] + Reversed(frames[..|frames| - 1])
  }

  lemma {:induction false} NoneReversed()
    ensures Reversed([]) == []
  {
  }

  lemma {:induction false} OneFrameMore(id: ExecutionId, frames: seq<string>)
    ensures ChainFrames(id.parent) + Reversed(frames + [FormatFrame(id)]) == ChainFrames(Some(id)) + Reversed(frames)
  {
    hide FormatFrame;
    var more := frames + [FormatFrame(id)];
    assert more[..|more| - 1] == frames;
  }

  method PathToExecutionId(path: string) returns (eid: Option<ExecutionId>)
    ensures eid == ParsePath(path)
  {
    hide ParseFrame, Split;
    if path == "" {
      return None;
    }
    var frames := Split(path);
    var parent: Option<ExecutionId> := None;
    eid := None;
    for i := 0 to |frames|
      invariant ParseFrames(frames[..i]) == Some(parent)
      invariant eid == parent
    {
      assert frames[..i + 1][..i] == frames[..i];
      eid := ParseFrame(frames[i], parent);
      if eid.None? {
        Unparsed(frames, i + 1);
        return None;
      }
      parent := eid;
    }
    assert frames[..|frames|] == frames;
  }

  lemma {:induction false} Unparsed(frames: seq<string>, n: nat)
    requires n <= |frames| && ParseFrames(frames[..n]).None?
    ensures ParseFrames(frames).None?
    decreases |frames| - n
  {
    if n == |frames| {
      assert frames[..n] == frames;
    } else {
      assert frames[..n + 1][..n] == frames[..n];
      Unparsed(frames, n + 1);
    }
  }

  // ---- Splitting and joining ----------------------------------------------------------

  ghost predicate NoSlashes(frames: seq<string>) {
    forall i :: 0 <= i < |frames| ==> '/' !in frames[i]
  }

  lemma {:induction false} JoinSplit(path: string)
    ensures Join(Split(path)) == path && NoSlashes(Split(path))
  {
    if path != "" {
      JoinSplit(path[..|path| - 1]);
      var init := Split(path[..|path| - 1]);
      assert Split(path)[..|Split(path)| - 1] == if path[|path| - 1] == '/' then init else init[..|init| - 1];
    }
  }

  lemma {:induction false} SplitFrame(frame: string)
    requires '/' !in frame
    ensures Split(frame) == [frame]
  {
    if frame != "" {
      var init, last := frame[..|frame| - 1], frame[|frame| - 1];
      SplitFrame(init);
      assert last in frame && frame == init + [last];
    }
  }

  lemma {:induction false} SplitJoined(path: string, rest: string)
    ensures Split(path + "/" + rest) == Split(path) + Split(rest)
  {
    hide Extended;
    var s := path + "/" + rest;
    if rest == "" {
      assert s[..|s| - 1] == path;
    } else {
      var init, last := rest[..|rest| - 1], rest[|rest| - 1];
      SplitJoined(path, init);
      assert s[..|s| - 1] == path + "/" + init;
      ExtendedOn(Split(path), Split(init), last);
    }
  }

  lemma {:induction false} SplitJoin(frames: seq<string>)
    requires frames != [] && NoSlashes(frames)
    ensures Split(Join(frames)) == frames
  {
    var init, last := frames[..|frames| - 1], frames[|frames| - 1];
    SplitFrame(last);
    if |frames| > 1 {
      SplitJoin(init);
      SplitJoined(Join(init), last);
    }
  }

  lemma {:induction false} FramesHaveNoSlashes(id: ExecutionId)
    ensures NoSlashes(Frames(id))
  {
    FrameHasNoSlash(id);
    if id.parent.Some? { FramesHaveNoSlashes(id.parent.value); }
  }

  lemma {:induction false} SplitPath(id: ExecutionId)
    ensures PathOf(id) != "" && Split(PathOf(id)) == Frames(id)
  {
    FramesHaveNoSlashes(id);
    SplitJoin(Frames(id));
    FrameHasNoSlash(id);
    assert |Join(Frames(id))| >= |FormatFrame(id)|;
  }

  // ---- The bijection ------------------------------------------------------------------

  lemma {:induction false} ParsePrintedFrames(id: ExecutionId)
    requires ValidId(id)
    ensures ParseFrames(Frames(id)) == Some(Some(id))
  {
    var frames := Frames(id);
    if id.parent.Some? {
      ParsePrintedFrames(id.parent.value);
      assert frames[..|frames| - 1] == Frames(id.parent.value);
    } else {
      assert frames[..|frames| - 1] == [];
    }
    ParseFormatted(id);
  }

  lemma {:induction false} PrintParsedFrames(frames: seq<string>)
    requires ParseFrames(frames).Some? && frames != []
    ensures var id := ParseFrames(frames).value;
      id.Some? && ValidId(id.value) && Frames(id.value) == frames
  {
    hide ParseFrame, FormatFrame, ValidFrame;
    var init := frames[..|frames| - 1];
    FormatParsed(frames[|frames| - 1], ParseFrames(init).value);
    if init != [] { PrintParsedFrames(init); }
  }

  // A path decodes to an identity exactly if it is that identity's path.
  lemma {:induction false} PathsAreIdentities(path: string, id: ExecutionId)
    ensures ParsePath(path) == Some(id) <==> ValidId(id) && path == PathOf(id)
  {
    if ParsePath(path) == Some(id) {
      PrintParsedFrames(Split(path));
      JoinSplit(path);
    }
    if ValidId(id) && path == PathOf(id) {
      SplitPath(id);
      ParsePrintedFrames(id);
    }
  }

  lemma {:induction false} PathsAreDistinct(a: ExecutionId, b: ExecutionId)
    requires ValidId(a) && ValidId(b) && PathOf(a) == PathOf(b)
    ensures a == b
  {
    PathsAreIdentities(PathOf(a), a);
    PathsAreIdentities(PathOf(a), b);
  }

  // ---- Descendants --------------------------------------------------------------------

  lemma {:induction false} FramesAreDistinct(a: ExecutionId, b: ExecutionId)
    requires ValidId(a) && ValidId(b) && Frames(a) == Frames(b)
    ensures a == b
  {
    PathsAreDistinct(a, b);
  }

  // A call's path is its caller's, a slash, and its own frame.
  lemma {:induction false} PathGrows(id: ExecutionId)
    ensures PathOf(id) == (if id.parent.None? then "" else PathOf(id.parent.value) + "/") + FormatFrame(id)
  {
    hide FormatFrame;
    var frames := Frames(id);
    if id.parent.Some? { assert frames[..|frames| - 1] == Frames(id.parent.value); }
  }

  lemma {:induction false} UnderHasPrefix(id: ExecutionId, top: ExecutionId)
    requires Under(id, top)
    ensures PathOf(top) + "/" <= PathOf(id)
  {
    PathGrows(id);
    if id.parent.value != top { UnderHasPrefix(id.parent.value, top); }
  }

  lemma {:induction false} PrefixedFramesAreUnder(id: ExecutionId, top: ExecutionId)
    requires ValidId(id) && ValidId(top) && Frames(top) < Frames(id)
    ensures Under(id, top)
  {
    var frames := Frames(id);
    if id.parent.Some? {
      var parent := Frames(id.parent.value);
      assert parent == frames[..|frames| - 1];
      if |Frames(top)| == |parent| {
        assert Frames(top) == parent;
        FramesAreDistinct(id.parent.value, top);
      } else {
        assert Frames(top) < parent;
        PrefixedFramesAreUnder(id.parent.value, top);
      }
    }
  }

  // A path continues another past a slash exactly for the strict descendants.
  lemma {:induction false} DescendantsArePrefixed(id: ExecutionId, top: ExecutionId)
    requires ValidId(id) && ValidId(top)
    ensures Under(id, top) <==> PathOf(top) + "/" <= PathOf(id)
  {
    if Under(id, top) {
      UnderHasPrefix(id, top);
    } else if PathOf(top) + "/" <= PathOf(id) {
      var rest := PathOf(id)[|PathOf(top)| + 1..];
      assert PathOf(id) == PathOf(top) + "/" + rest;
      SplitJoined(PathOf(top), rest);
      SplitPath(top);
      SplitPath(id);
      PrefixedFramesAreUnder(id, top);
    }
  }
}
