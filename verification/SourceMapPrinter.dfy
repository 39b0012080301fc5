/** Printing anchored statement blocks, and which source range each printed line belongs to. */
module SourceMapPrinter {
  import opened Wrappers
  import opened SourceMapIndex

  /**
   * A statement is printed as lines, or as headers each followed by an indented block, and a footer:
   * `do`, `while`, `for`, `function` and `if`/`elseif`/`else` all have that shape.
   */
  datatype Statement =
    | Lines(lines: seq<Text>)
    | Nested(sections: seq<Section>, footer: Text)

  datatype Section = Section(header: Text, body: seq<Entry>)

  datatype Entry = Blank | Anchored(anchor: Option<SourceRange>, statement: Statement)

  type Block = seq<Entry>

  const SPACE: byte := 32

  function Spaces(n: nat): Text {
    if n == 0 then [] else Spaces(n - 1) + [SPACE]
  }

  function LineText(indent: nat, line: Text): Text {
    Spaces(4 * indent) + line + [NEWLINE]
  }

  // ---- the text and the mappings, as functions of the tree ----

  function LinesText(lines: seq<Text>, indent: nat): Text {
    if lines == [] then [] else LineText(indent, lines[0]) + LinesText(lines[1..], indent)
  }

  function BlockText(b: Block, indent: nat): Text
    decreases b
  {
    if b == [] then [] else EntryText(b[0], indent) + BlockText(b[1..], indent)
  }

  function EntryText(e: Entry, indent: nat): Text {
    match e case Blank => [NEWLINE] case Anchored(_, s) => StatementText(s, indent)
  }

  function StatementText(s: Statement, indent: nat): Text {
    match s
    case Lines(lines) => LinesText(lines, indent)
    case Nested(sections, footer) => SectionsText(sections, indent) + LineText(indent, footer)
  }

  function SectionText(s: Section, indent: nat): Text {
    LineText(indent, s.header) + BlockText(s.body, indent + 1)
  }

  function SectionsText(ss: seq<Section>, indent: nat): Text {
    if ss == [] then [] else SectionText(ss[0], indent) + SectionsText(ss[1..], indent)
  }

  /** The mappings recorded while printing b from output offset `at`, children before parents. */
  function BlockMaps(b: Block, indent: nat, at: nat): seq<Mapping> {
    if b == [] then []
    else EntryMaps(b[0], indent, at) + BlockMaps(b[1..], indent, at + |EntryText(b[0], indent)|)
  }

  function EntryMaps(e: Entry, indent: nat, at: nat): seq<Mapping> {
    match e
    case Blank => []
    case Anchored(anchor, s) =>
      StatementMaps(s, indent, at) +
      match anchor
      case None => []
      case Some(source) => [Mapping(at, at + |StatementText(s, indent)|, source)]
  }

  function StatementMaps(s: Statement, indent: nat, at: nat): seq<Mapping> {
    match s
    case Lines(_) => []
    case Nested(sections, _) => SectionsMaps(sections, indent, at)
  }

  function SectionMaps(s: Section, indent: nat, at: nat): seq<Mapping> {
    BlockMaps(s.body, indent + 1, at + |LineText(indent, s.header)|)
  }

  function SectionsMaps(ss: seq<Section>, indent: nat, at: nat): seq<Mapping> {
    if ss == [] then []
    else SectionMaps(ss[0], indent, at) + SectionsMaps(ss[1..], indent, at + |SectionText(ss[0], indent)|)
  }

  // ---- the printer ----

  class Printer {
    var output: Text
    var mappings: seq<Mapping>

    constructor ()
      ensures output == [] && mappings == []
    {
      output, mappings := [], [];
    }

    method Line(indent: nat, source: Text)
      modifies this
      ensures output == old(output) + LineText(indent, source) && mappings == old(mappings)
    {
      for i := 0 to 4 * indent
        invariant output == old(output) + Spaces(i) && mappings == old(mappings)
      {
        output := output + [SPACE];
      }
      output := output + source;
      output := output + [NEWLINE];
    }

    method PrintBlock(block: Block, indent: nat)
      modifies this
      ensures output == old(output) + BlockText(block, indent)
      ensures mappings == old(mappings) + BlockMaps(block, indent, |old(output)|)
      decreases block
    {
      hide EntryText, EntryMaps;
      for i := 0 to |block|
        invariant output + BlockText(block[i..], indent) == old(output) + BlockText(block, indent)
        invariant mappings + BlockMaps(block[i..], indent, |output|) == old(mappings) + BlockMaps(block, indent, |old(output)|)
      {
        assert block[i..][0] == block[i] && block[i..][1..] == block[i + 1..];
        PrintEntry(block[i], indent);
      }
    }

    method PrintEntry(entry: Entry, indent: nat)
      modifies this
      ensures output == old(output) + EntryText(entry, indent)
      ensures mappings == old(mappings) + EntryMaps(entry, indent, |old(output)|)
      decreases entry
    {
      match entry {
        case Blank =>
          output := output + [NEWLINE];
        case Anchored(anchor, statement) =>
          var generatedStart := |output|;
          PrintStatement(statement, indent);
          if anchor.Some? {
            mappings := mappings + [Mapping(generatedStart, |output|, anchor.value)];
          }
      }
    }

    method PrintStatement(statement: Statement, indent: nat)
      modifies this
      ensures output == old(output) + StatementText(statement, indent)
      ensures mappings == old(mappings) + StatementMaps(statement, indent, |old(output)|)
      decreases statement
    {
      match statement {
        case Lines(lines) =>
          PrintLines(lines, indent);
        case Nested(sections, footer) =>
          PrintSections(sections, indent);
          Line(indent, footer);
      }
    }

    method PrintLines(lines: seq<Text>, indent: nat)
      modifies this
      ensures output == old(output) + LinesText(lines, indent) && mappings == old(mappings)
    {
      for i := 0 to |lines|
        invariant output + LinesText(lines[i..], indent) == old(output) + LinesText(lines, indent)
        invariant mappings == old(mappings)
      {
        assert lines[i..][0] == lines[i] && lines[i..][1..] == lines[i + 1..];
        Line(indent, lines[i]);
      }
    }

    method PrintSections(sections: seq<Section>, indent: nat)
      modifies this
      ensures output == old(output) + SectionsText(sections, indent)
      ensures mappings == old(mappings) + SectionsMaps(sections, indent, |old(output)|)
      decreases sections
    {
      hide SectionText, SectionMaps;
      for i := 0 to |sections|
        invariant output + SectionsText(sections[i..], indent) == old(output) + SectionsText(sections, indent)
        invariant mappings + SectionsMaps(sections[i..], indent, |output|) == old(mappings) + SectionsMaps(sections, indent, |old(output)|)
      {
        assert sections[i..][0] == sections[i] && sections[i..][1..] == sections[i + 1..];
        PrintSection(sections[i], indent);
      }
    }

    method PrintSection(section: Section, indent: nat)
      modifies this
      ensures output == old(output) + SectionText(section, indent)
      ensures mappings == old(mappings) + SectionMaps(section, indent, |old(output)|)
      decreases section
    {
      Line(indent, section.header);
      PrintBlock(section.body, indent + 1);
    }
  }
}
