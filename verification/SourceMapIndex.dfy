/** From a generated Lua line back to the source range that produced it. */
module SourceMapIndex {
  import opened Wrappers

  newtype byte = x: int | 0 <= x < 256
  type Text = seq<byte>

  const NEWLINE: byte := 10

  datatype SourceRange = SourceRange(start: nat, len: nat, line: nat, file: nat)

  datatype Mapping = Mapping(start: nat, end: nat, source: SourceRange)

  // ---- the reference lookup: the smallest mapping that covers the line ----

  /** Line breaks among the first n bytes. */
  function NewlinesUpTo(t: Text, n: nat): nat
    requires n <= |t|
  {
    if n == 0 then 0 else NewlinesUpTo(t, n - 1) + if t[n - 1] == NEWLINE then 1 else 0
  }

  function Clamp(offset: nat, n: nat): nat {
    if offset < n then offset else n
  }

  /** The 1-based line of a byte offset; offsets past the end count as the end. */
  function ReferenceLineAt(t: Text, offset: nat): nat {
    1 + NewlinesUpTo(t, Clamp(offset, |t|))
  }

  predicate Covers(t: Text, m: Mapping, line: nat) {
    m.start < m.end && line > 0 && ReferenceLineAt(t, m.start) <= line <= ReferenceLineAt(t, m.end - 1)
  }

  /** Shorter ranges first, then earlier ones. */
  predicate Before(a: Mapping, b: Mapping)
    requires a.start <= a.end && b.start <= b.end
  {
    a.end - a.start < b.end - b.start || (a.end - a.start == b.end - b.start && a.start < b.start)
  }

  /** The first of the smallest covering mappings. */
  function ReferenceMapping(t: Text, maps: seq<Mapping>, line: nat): (r: Option<Mapping>)
    ensures r.Some? ==> r.value in maps && Covers(t, r.value, line)
  {
    if maps == [] then None
    else
      var rest := ReferenceMapping(t, maps[1..], line);
      if Covers(t, maps[0], line) && (rest.None? || !Before(rest.value, maps[0])) then Some(maps[0]) else rest
  }

  function ReferenceMappingForLine(t: Text, maps: seq<Mapping>, line: nat): Option<SourceRange> {
    match ReferenceMapping(t, maps, line) case None => None case Some(m) => Some(m.source)
  }

  // ---- the line table ----

  /** Offsets at which lines start, for the first n bytes of the text. */
  function LineStartsUpTo(t: Text, n: nat): seq<nat>
    requires n <= |t|
  {
    if n == 0 then [0] else LineStartsUpTo(t, n - 1) + if t[n - 1] == NEWLINE then [n] else []
  }

  function GeneratedLineStarts(t: Text): seq<nat> {
    LineStartsUpTo(t, |t|)
  }

  /** How many leading elements are at most the bound. */
  function PartitionPoint(starts: seq<nat>, bound: nat): nat {
    if starts == [] || starts[0] > bound then 0 else 1 + PartitionPoint(starts[1..], bound)
  }

  function GeneratedLineAt(starts: seq<nat>, length: nat, offset: nat): nat {
    PartitionPoint(starts, Clamp(offset, length))
  }

  lemma {:induction false} PartitionAppend(a: seq<nat>, b: seq<nat>, bound: nat)
    requires forall i :: 0 <= i < |a| ==> a[i] <= bound
    ensures PartitionPoint(a + b, bound) == |a| + PartitionPoint(b, bound)
  {
    if a == [] {
      assert a + b == b;
    } else {
      assert (a + b)[1..] == a[1..] + b;
      PartitionAppend(a[1..], b, bound);
    }
  }

  lemma {:induction false} StartsBounded(t: Text, n: nat)
    requires n <= |t|
    ensures forall i :: 0 <= i < |LineStartsUpTo(t, n)| ==> LineStartsUpTo(t, n)[i] <= n
    ensures |LineStartsUpTo(t, n)| == 1 + NewlinesUpTo(t, n)
  {
    if n > 0 {
      StartsBounded(t, n - 1);
    }
  }

  /** The starts up to n split at any earlier offset. */
  lemma {:induction false} StartsSplit(t: Text, k: nat, n: nat) returns (later: seq<nat>)
    requires k <= n <= |t|
    ensures LineStartsUpTo(t, n) == LineStartsUpTo(t, k) + later
    ensures forall i :: 0 <= i < |later| ==> later[i] > k
    decreases n
  {
    if n == k {
      later := [];
    } else {
      var before := StartsSplit(t, k, n - 1);
      later := before + if t[n - 1] == NEWLINE then [n] else [];
    }
  }

  /** The line table finds the same line as counting newlines, at every offset. */
  lemma LineTableAgrees(t: Text, offset: nat)
    ensures GeneratedLineAt(GeneratedLineStarts(t), |t|, offset) == ReferenceLineAt(t, offset)
    ensures 1 <= ReferenceLineAt(t, offset) <= |GeneratedLineStarts(t)|
  {
    var k := Clamp(offset, |t|);
    var later := StartsSplit(t, k, |t|);
    StartsBounded(t, k);
    StartsBounded(t, |t|);
    PartitionAppend(LineStartsUpTo(t, k), later, k);
  }

  lemma {:induction false} NewlinesMonotone(t: Text, j: nat, k: nat)
    requires j <= k <= |t|
    ensures NewlinesUpTo(t, j) <= NewlinesUpTo(t, k)
    decreases k
  {
    if j < k {
      NewlinesMonotone(t, j, k - 1);
    }
  }

  lemma LinesMonotone(t: Text, a: nat, b: nat)
    requires a <= b
    ensures ReferenceLineAt(t, a) <= ReferenceLineAt(t, b)
  {
    NewlinesMonotone(t, Clamp(a, |t|), Clamp(b, |t|));
  }

  // ---- the index ----

  datatype LuaSourceMapIndex = LuaSourceMapIndex(byLine: seq<Option<SourceRange>>) {
    /** The source range of a 1-based generated line. */
    function MapLine(line: nat): Option<SourceRange> {
      if line == 0 || line - 1 >= |byLine| then None else byLine[line - 1]
    }
  }

  /** Seeing one more mapping replaces the current best only when it is strictly better. */
  lemma {:induction false} ReferenceAppend(t: Text, maps: seq<Mapping>, m: Mapping, line: nat)
    ensures var best := ReferenceMapping(t, maps, line);
            ReferenceMapping(t, maps + [m], line) ==
            if Covers(t, m, line) && (best.None? || Before(m, best.value)) then Some(m) else best
  {
    if maps == [] {
      assert (maps + [m])[1..] == [];
    } else {
      assert (maps + [m])[1..] == maps[1..] + [m];
      ReferenceAppend(t, maps[1..], m, line);
    }
  }

  lemma {:induction false} EmptyMappingsCoverNothing(t: Text, line: nat)
    ensures ReferenceMapping(t, [], line) == None
  {
  }

  lemma LinesInRange(t: Text, maps: seq<Mapping>, line: nat)
    requires line == 0 || line > |GeneratedLineStarts(t)|
    ensures ReferenceMapping(t, maps, line) == None
  {
    var r := ReferenceMapping(t, maps, line);
    if r.Some? {
      LineTableAgrees(t, r.value.end - 1);
    }
  }

  /** How one more mapping changes the answer for a line. */
  lemma ReferenceStep(t: Text, maps: seq<Mapping>, i: nat, line: nat)
    requires i < |maps|
    ensures var best := ReferenceMapping(t, maps[..i], line);
            ReferenceMapping(t, maps[..i + 1], line) ==
            if Covers(t, maps[i], line) && (best.None? || Before(maps[i], best.value)) then Some(maps[i]) else best
  {
    assert maps[..i + 1] == maps[..i] + [maps[i]];
    ReferenceAppend(t, maps[..i], maps[i], line);
  }

  /** Offer one mapping to every line slot it covers. */
  method Offer(candidates: array<Option<Mapping>>, generated: Text, lineStarts: seq<nat>, ghost maps: seq<Mapping>, ghost i: nat, mapping: Mapping)
    requires lineStarts == GeneratedLineStarts(generated) && candidates.Length == |lineStarts|
    requires i < |maps| && maps[i] == mapping
    requires forall l :: 0 <= l < candidates.Length ==> candidates[l] == ReferenceMapping(generated, maps[..i], l + 1)
    modifies candidates
    ensures forall l :: 0 <= l < candidates.Length ==> candidates[l] == ReferenceMapping(generated, maps[..i + 1], l + 1)
  {
    hide ReferenceMapping, GeneratedLineAt, GeneratedLineStarts, ReferenceLineAt;
    ghost var before := candidates[..];
    if mapping.start < mapping.end {
      var startLine := GeneratedLineAt(lineStarts, |generated|, mapping.start);
      var endLine := GeneratedLineAt(lineStarts, |generated|, mapping.end - 1);
      LineTableAgrees(generated, mapping.start);
      LineTableAgrees(generated, mapping.end - 1);
      LinesMonotone(generated, mapping.start, mapping.end - 1);
      for slot := startLine - 1 to endLine
        invariant forall l :: 0 <= l < candidates.Length && !(startLine - 1 <= l < slot) ==> candidates[l] == before[l]
        invariant forall l :: startLine - 1 <= l < slot ==> candidates[l] == ReferenceMapping(generated, maps[..i + 1], l + 1)
      {
        ReferenceStep(generated, maps, i, slot + 1);
        if candidates[slot].None? || Before(mapping, candidates[slot].value) {
          candidates[slot] := Some(mapping);
        }
      }
    }
    forall l | 0 <= l < candidates.Length
      ensures candidates[l] == ReferenceMapping(generated, maps[..i + 1], l + 1)
    {
      ReferenceStep(generated, maps, i, l + 1);
    }
  }

  /** The index answers every line as the reference lookup does. */
  method New(generated: Text, sourceMap: seq<Mapping>) returns (index: LuaSourceMapIndex)
    ensures forall line: nat :: index.MapLine(line) == ReferenceMappingForLine(generated, sourceMap, line)
  {
    hide ReferenceMapping, GeneratedLineStarts;
    if |sourceMap| == 0 {
      index := LuaSourceMapIndex([]);
      forall line: nat
        ensures ReferenceMapping(generated, sourceMap, line) == None
      {
        EmptyMappingsCoverNothing(generated, line);
      }
      return;
    }
    var lineStarts := GeneratedLineStarts(generated);
    var candidates := new Option<Mapping>[|lineStarts|](_ => None);
    forall l | 0 <= l < |lineStarts|
      ensures candidates[l] == ReferenceMapping(generated, sourceMap[..0], l + 1)
    {
      EmptyMappingsCoverNothing(generated, l + 1);
    }
    for i := 0 to |sourceMap|
      invariant forall l :: 0 <= l < |lineStarts| ==> candidates[l] == ReferenceMapping(generated, sourceMap[..i], l + 1)
    {
      Offer(candidates, generated, lineStarts, sourceMap, i, sourceMap[i]);
    }
    assert sourceMap[..|sourceMap|] == sourceMap;
    var byLine: seq<Option<SourceRange>> := [];
    for l := 0 to candidates.Length
      invariant |byLine| == l
      invariant forall k :: 0 <= k < l ==> byLine[k] == ReferenceMappingForLine(generated, sourceMap, k + 1)
    {
      byLine := byLine + [match candidates[l] case None => None case Some(m) => Some(m.source)];
    }
    index := LuaSourceMapIndex(byLine);
    forall line: nat
      ensures index.MapLine(line) == ReferenceMappingForLine(generated, sourceMap, line)
    {
      if line == 0 || line > |lineStarts| {
        LinesInRange(generated, sourceMap, line);
      }
    }
  }
}
