/** Where each statement of a printed tree stands in the text, at every depth. */
module SourceMapPlaces {
  import opened Wrappers
  import opened SourceMapIndex
  import opened SourceMapPrinter

  /** A way into a block: the entry meant, or an entry, one of its sections, and the way on in there. */
  datatype Route = At(i: nat) | Into(i: nat, j: nat, rest: Route)

  predicate Leads(b: Block, r: Route)
    decreases r
  {
    && r.i < |b| && b[r.i].Anchored?
    && (r.Into? ==> var s := b[r.i].statement; s.Nested? && r.j < |s.sections| && Leads(s.sections[r.j].body, r.rest))
  }

  /** The entry at the end of the way. */
  function Target(b: Block, r: Route): (e: Entry)
    requires Leads(b, r)
    ensures e.Anchored?
    decreases r
  {
    if r.At? then b[r.i] else Target(b[r.i].statement.sections[r.j].body, r.rest)
  }

  /** How many sections stand around it. */
  function Depth(r: Route): nat
    decreases r
  {
    if r.At? then 0 else 1 + Depth(r.rest)
  }

  /** From k on the text reads like this. */
  predicate ReadsAt(text: Text, k: nat, part: Text) {
    k + |part| <= |text| && text[k..k + |part|] == part
  }

  lemma ReadsInside(a: Text, text: Text, c: Text, k: nat, part: Text)
    requires ReadsAt(text, k, part)
    ensures ReadsAt(a + text + c, |a| + k, part)
  {
  }

  lemma {:induction false} TextBefore(b: Block, i: nat, indent: nat)
    requires i < |b|
    ensures BlockText(b, indent) == BlockText(b[..i], indent) + EntryText(b[i], indent) + BlockText(b[i + 1..], indent)
    decreases i
  {
    hide EntryText;
    if i > 0 {
      TextBefore(b[1..], i - 1, indent);
      assert b[1..][..i - 1] == b[..i][1..] && b[1..][i..] == b[i + 1..];
    }
  }

  lemma {:induction false} MapsOf(b: Block, i: nat, indent: nat, at: nat, m: Mapping)
    requires i < |b| && m in EntryMaps(b[i], indent, at + |BlockText(b[..i], indent)|)
    ensures m in BlockMaps(b, indent, at)
    decreases i
  {
    hide EntryText, EntryMaps;
    if i > 0 {
      assert b[1..][..i - 1] == b[..i][1..];
      MapsOf(b[1..], i - 1, indent, at + |EntryText(b[0], indent)|, m);
    }
  }

  lemma {:induction false} SectionBefore(ss: seq<Section>, j: nat, indent: nat)
    requires j < |ss|
    ensures SectionsText(ss, indent) == SectionsText(ss[..j], indent) + SectionText(ss[j], indent) + SectionsText(ss[j + 1..], indent)
    decreases j
  {
    hide SectionText;
    if j > 0 {
      SectionBefore(ss[1..], j - 1, indent);
      assert ss[1..][..j - 1] == ss[..j][1..] && ss[1..][j..] == ss[j + 1..];
    }
  }

  lemma {:induction false} SectionMapsOf(ss: seq<Section>, j: nat, indent: nat, at: nat, m: Mapping)
    requires j < |ss| && m in SectionMaps(ss[j], indent, at + |SectionsText(ss[..j], indent)|)
    ensures m in SectionsMaps(ss, indent, at)
    decreases j
  {
    hide SectionText, SectionMaps;
    if j > 0 {
      assert ss[1..][..j - 1] == ss[..j][1..];
      SectionMapsOf(ss[1..], j - 1, indent, at + |SectionText(ss[0], indent)|, m);
    }
  }

  /**
   * The statement at the end of every way stands in the text with four spaces for each section around it, and if it
   * is anchored, the range recorded for it is exactly its text.
   */
  lemma {:induction false} EveryStatementHasItsPlace(b: Block, r: Route, indent: nat, at: nat) returns (k: nat)
    requires Leads(b, r)
    ensures var e, part := Target(b, r), StatementText(Target(b, r).statement, indent + Depth(r));
            && ReadsAt(BlockText(b, indent), k, part)
            && (e.anchor.Some? ==> Mapping(at + k, at + k + |part|, e.anchor.value) in BlockMaps(b, indent, at))
    decreases r, 0
  {
    hide StatementText, BlockText, StatementMaps, SectionsText, SectionsMaps, BlockMaps;
    var e := b[r.i];
    var before := BlockText(b[..r.i], indent);
    TextBefore(b, r.i, indent);
    if r.At? {
      k := |before|;
      ReadsInside(before, EntryText(e, indent), BlockText(b[r.i + 1..], indent), 0, EntryText(e, indent));
      if e.anchor.Some? {
        MapsOf(b, r.i, indent, at, Mapping(at + k, at + k + |StatementText(e.statement, indent)|, e.anchor.value));
      }
    } else {
      var j := InSection(e.statement, r.j, r.rest, indent, at + |before|);
      k := |before| + j;
      var t := Target(b, r);
      var part := StatementText(t.statement, indent + Depth(r));
      ReadsInside(before, EntryText(e, indent), BlockText(b[r.i + 1..], indent), j, part);
      if t.anchor.Some? {
        MapsOf(b, r.i, indent, at, Mapping(at + k, at + k + |part|, t.anchor.value));
      }
    }
  }

  lemma {:induction false} InSection(s: Statement, i: nat, rest: Route, indent: nat, at: nat) returns (k: nat)
    requires s.Nested? && i < |s.sections| && Leads(s.sections[i].body, rest)
    ensures var e := Target(s.sections[i].body, rest);
            var part := StatementText(e.statement, indent + 1 + Depth(rest));
            && ReadsAt(StatementText(s, indent), k, part)
            && (e.anchor.Some? ==> Mapping(at + k, at + k + |part|, e.anchor.value) in StatementMaps(s, indent, at))
    decreases rest, 1
  {
    hide BlockText, BlockMaps, LineText, SectionsText, SectionsMaps;
    var section := s.sections[i];
    var before, header := SectionsText(s.sections[..i], indent), LineText(indent, section.header);
    var from := at + |before|;
    var j := EveryStatementHasItsPlace(section.body, rest, indent + 1, from + |header|);
    k := |before| + (|header| + j);
    var e := Target(section.body, rest);
    var part := StatementText(e.statement, indent + 1 + Depth(rest));
    var body := BlockText(section.body, indent + 1);
    ReadsInside(header, body, [], j, part);
    assert header + body + [] == SectionText(section, indent);
    SectionBefore(s.sections, i, indent);
    var after := SectionsText(s.sections[i + 1..], indent);
    ReadsInside(before, SectionText(section, indent), after, |header| + j, part);
    ReadsInside([], SectionsText(s.sections, indent), LineText(indent, s.footer), k, part);
    assert [] + SectionsText(s.sections, indent) + LineText(indent, s.footer) == StatementText(s, indent);
    if e.anchor.Some? {
      SectionMapsOf(s.sections, i, indent, at, Mapping(at + k, at + k + |part|, e.anchor.value));
    }
  }

  /** A statement of lines prints each of them behind its indentation, and every line ends with a newline. */
  lemma {:induction false} LineOf(lines: seq<Text>, i: nat, indent: nat) returns (k: nat)
    requires i < |lines|
    ensures ReadsAt(LinesText(lines, indent), k, Spaces(4 * indent) + lines[i] + [NEWLINE])
    decreases i
  {
    var line := LineText(indent, lines[0]);
    if i == 0 {
      k := 0;
    } else {
      var j := LineOf(lines[1..], i - 1, indent);
      ReadsInside(line, LinesText(lines[1..], indent), [], j, Spaces(4 * indent) + lines[i] + [NEWLINE]);
      assert line + LinesText(lines[1..], indent) + [] == LinesText(lines, indent);
      k := |line| + j;
    }
  }
}
