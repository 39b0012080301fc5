/** The line index of a printed chunk names, for every line, the innermost anchored statement around it. */
module SourceMapTheorem {
  import opened Wrappers
  import opened SourceMapIndex
  import opened SourceMapPrinter

  // ---- which statement a line belongs to, read off the tree ----

  type Owner = Option<SourceRange>

  function Repeat(o: Owner, n: nat): seq<Owner> {
    seq(n, _ => o)
  }

  function Newlines(t: Text): nat {
    NewlinesUpTo(t, |t|)
  }

  /** A printed line of text occupies one generated line more than it has line breaks. */
  function LineOwners(line: Text, o: Owner): seq<Owner> {
    Repeat(o, Newlines(line) + 1)
  }

  function LinesOwners(lines: seq<Text>, o: Owner): seq<Owner> {
    if lines == [] then [] else LineOwners(lines[0], o) + LinesOwners(lines[1..], o)
  }

  /** One owner per printed line; o owns what no statement inside is anchored for. */
  function BlockOwners(b: Block, o: Owner): seq<Owner> {
    if b == [] then [] else EntryOwners(b[0], o) + BlockOwners(b[1..], o)
  }

  function EntryOwners(e: Entry, o: Owner): seq<Owner> {
    match e case Blank => [o] case Anchored(anchor, s) => StatementOwners(s, if anchor.Some? then anchor else o)
  }

  function StatementOwners(s: Statement, o: Owner): seq<Owner> {
    match s
    case Lines(lines) => LinesOwners(lines, o)
    case Nested(sections, footer) => SectionsOwners(sections, o) + LineOwners(footer, o)
  }

  function SectionOwners(s: Section, o: Owner): seq<Owner> {
    LineOwners(s.header, o) + BlockOwners(s.body, o)
  }

  function SectionsOwners(ss: seq<Section>, o: Owner): seq<Owner> {
    if ss == [] then [] else SectionOwners(ss[0], o) + SectionsOwners(ss[1..], o)
  }

  // ---- counting lines ----

  /** t stands in the whole text at offset `at`. */
  ghost predicate StandsAt(whole: Text, at: nat, t: Text) {
    at + |t| <= |whole| && forall i :: 0 <= i < |t| ==> whole[at + i] == t[i]
  }

  lemma {:induction false} CountThrough(whole: Text, at: nat, t: Text, n: nat)
    requires StandsAt(whole, at, t) && n <= |t|
    ensures NewlinesUpTo(whole, at + n) == NewlinesUpTo(whole, at) + NewlinesUpTo(t, n)
    decreases n
  {
    if n > 0 {
      CountThrough(whole, at, t, n - 1);
      assert whole[at + (n - 1)] == t[n - 1];
    }
  }

  lemma NewlinesAppend(a: Text, b: Text)
    ensures Newlines(a + b) == Newlines(a) + Newlines(b)
  {
    CountThrough(a + b, 0, a, |a|);
    CountThrough(a + b, |a|, b, |b|);
  }

  lemma OneByte(c: byte)
    ensures Newlines([c]) == if c == NEWLINE then 1 else 0
  {
    assert NewlinesUpTo([c], 0) == 0;
  }

  lemma {:induction false} SpacesHaveNoNewlines(n: nat)
    ensures Newlines(Spaces(n)) == 0
  {
    if n > 0 {
      SpacesHaveNoNewlines(n - 1);
      NewlinesAppend(Spaces(n - 1), [SPACE]);
      OneByte(SPACE);
    }
  }

  ghost predicate EndsLine(t: Text) {
    t == [] || t[|t| - 1] == NEWLINE
  }

  /** A piece of text whose lines are counted by its owners. */
  ghost predicate Measured(t: Text, owners: seq<Owner>) {
    EndsLine(t) && Newlines(t) == |owners|
  }

  lemma MeasuredAppend(a: Text, x: seq<Owner>, b: Text, y: seq<Owner>)
    requires Measured(a, x) && Measured(b, y)
    ensures Measured(a + b, x + y)
  {
    NewlinesAppend(a, b);
  }

  lemma MeasuredLine(indent: nat, line: Text, o: Owner)
    ensures Measured(LineText(indent, line), LineOwners(line, o)) && LineText(indent, line) != []
  {
    NewlinesAppend(Spaces(4 * indent) + line, [NEWLINE]);
    NewlinesAppend(Spaces(4 * indent), line);
    SpacesHaveNoNewlines(4 * indent);
    OneByte(NEWLINE);
  }

  lemma {:induction false} MeasuredLines(lines: seq<Text>, indent: nat, o: Owner)
    ensures Measured(LinesText(lines, indent), LinesOwners(lines, o))
  {
    if lines != [] {
      MeasuredLine(indent, lines[0], o);
      MeasuredLines(lines[1..], indent, o);
      MeasuredAppend(LineText(indent, lines[0]), LineOwners(lines[0], o), LinesText(lines[1..], indent), LinesOwners(lines[1..], o));
    }
  }

  lemma {:induction false} MeasuredBlock(b: Block, indent: nat, o: Owner)
    ensures Measured(BlockText(b, indent), BlockOwners(b, o))
  {
    hide Measured, EntryText, EntryOwners;
    if b == [] {
      MeasuredNothing();
    } else {
      MeasuredEntry(b[0], indent, o);
      MeasuredBlock(b[1..], indent, o);
      MeasuredAppend(EntryText(b[0], indent), EntryOwners(b[0], o), BlockText(b[1..], indent), BlockOwners(b[1..], o));
    }
  }

  lemma MeasuredNothing()
    ensures Measured([], [])
  {
  }

  lemma {:induction false} MeasuredEntry(e: Entry, indent: nat, o: Owner)
    ensures Measured(EntryText(e, indent), EntryOwners(e, o))
  {
    match e {
      case Blank =>
            OneByte(NEWLINE);
      case Anchored(anchor, s) => MeasuredStatement(s, indent, if anchor.Some? then anchor else o);
    }
  }

  lemma {:induction false} MeasuredStatement(s: Statement, indent: nat, o: Owner)
    ensures Measured(StatementText(s, indent), StatementOwners(s, o))
  {
    hide Measured;
    match s {
      case Lines(lines) => MeasuredLines(lines, indent, o);
      case Nested(sections, footer) =>
        MeasuredSections(sections, indent, o);
        MeasuredLine(indent, footer, o);
        MeasuredAppend(SectionsText(sections, indent), SectionsOwners(sections, o), LineText(indent, footer), LineOwners(footer, o));
    }
  }

  lemma {:induction false} MeasuredSection(s: Section, indent: nat, o: Owner)
    ensures Measured(SectionText(s, indent), SectionOwners(s, o))
  {
    hide Measured;
    MeasuredLine(indent, s.header, o);
    MeasuredBlock(s.body, indent + 1, o);
    MeasuredAppend(LineText(indent, s.header), LineOwners(s.header, o), BlockText(s.body, indent + 1), BlockOwners(s.body, o));
  }

  lemma {:induction false} MeasuredSections(ss: seq<Section>, indent: nat, o: Owner)
    ensures Measured(SectionsText(ss, indent), SectionsOwners(ss, o))
  {
    hide Measured, SectionText, SectionOwners;
    if ss == [] {
      MeasuredNothing();
    } else {
      MeasuredSection(ss[0], indent, o);
      MeasuredSections(ss[1..], indent, o);
      MeasuredAppend(SectionText(ss[0], indent), SectionOwners(ss[0], o), SectionsText(ss[1..], indent), SectionsOwners(ss[1..], o));
    }
  }

  // ---- mappings of a piece of text that stands at an offset of the whole ----

  ghost predicate Within(maps: seq<Mapping>, at: nat, end: nat) {
    forall m :: m in maps ==> at <= m.start <= m.end <= end
  }

  /** The last byte of the text ends its last line. */
  lemma LastLine(whole: Text, at: nat, t: Text)
    requires StandsAt(whole, at, t) && EndsLine(t) && t != []
    ensures NewlinesUpTo(whole, at + |t| - 1) == NewlinesUpTo(whole, at) + Newlines(t) - 1
  {
    CountThrough(whole, at, t, |t| - 1);
  }

  /** A mapping inside the text covers only lines of that text. */
  lemma CoversWithin(whole: Text, at: nat, t: Text, m: Mapping, line: nat)
    requires StandsAt(whole, at, t) && EndsLine(t)
    requires at <= m.start <= m.end <= at + |t|
    ensures Covers(whole, m, line) ==> NewlinesUpTo(whole, at) < line <= NewlinesUpTo(whole, at) + Newlines(t)
  {
    hide NewlinesUpTo, EndsLine, Newlines;
    if m.start < m.end {
      LastLine(whole, at, t);
      NewlinesMonotone(whole, at, m.start);
      NewlinesMonotone(whole, m.end - 1, at + |t| - 1);
    }
  }

  /** A mapping spanning the text covers all of its lines. */
  lemma CoversAll(whole: Text, at: nat, t: Text, source: SourceRange, line: nat)
    requires StandsAt(whole, at, t) && EndsLine(t) && t != []
    requires NewlinesUpTo(whole, at) < line <= NewlinesUpTo(whole, at) + Newlines(t)
    ensures Covers(whole, Mapping(at, at + |t|, source), line)
  {
    hide NewlinesUpTo, EndsLine, Newlines;
    LastLine(whole, at, t);
  }

  // ---- the answer for a line ----

  ghost predicate Least(whole: Text, maps: seq<Mapping>, line: nat, best: Mapping) {
    && best in maps && Covers(whole, best, line)
    && forall m :: m in maps && Covers(whole, m, line) ==> m == best || Before(best, m)
  }

  ghost predicate Uncovered(whole: Text, maps: seq<Mapping>, line: nat) {
    forall m :: m in maps ==> !Covers(whole, m, line)
  }

  /** Among the mappings, the strictly smallest covering one has the wanted source; if none covers, o is wanted. */
  ghost predicate Answers(whole: Text, maps: seq<Mapping>, line: nat, o: Owner, wanted: Owner) {
    || (Uncovered(whole, maps, line) && wanted == o)
    || exists best :: Least(whole, maps, line, best) && wanted == Some(best.source)
  }

  lemma AnswersJoin(whole: Text, a: seq<Mapping>, b: seq<Mapping>, line: nat, o: Owner, wanted: Owner)
    requires (Answers(whole, a, line, o, wanted) && Uncovered(whole, b, line))
          || (Uncovered(whole, a, line) && Answers(whole, b, line, o, wanted))
    ensures Answers(whole, a + b, line, o, wanted)
  {
    hide Covers, Before;
    if Uncovered(whole, b, line) && !Uncovered(whole, a, line) {
      var best :| Least(whole, a, line, best) && wanted == Some(best.source);
      assert Least(whole, a + b, line, best);
    } else if Uncovered(whole, a, line) && !Uncovered(whole, b, line) {
      var best :| Least(whole, b, line, best) && wanted == Some(best.source);
      assert Least(whole, a + b, line, best);
    }
  }

  lemma UncoveredOutside(whole: Text, at: nat, t: Text, maps: seq<Mapping>, line: nat)
    requires at + |t| <= |whole| && StandsAt(whole, at, t) && EndsLine(t) && Within(maps, at, at + |t|)
    requires !(NewlinesUpTo(whole, at) < line <= NewlinesUpTo(whole, at) + Newlines(t))
    ensures Uncovered(whole, maps, line)
  {
    forall m | m in maps
      ensures !Covers(whole, m, line)
    {
      CoversWithin(whole, at, t, m, line);
    }
  }

  // ---- every line of a printed piece is answered by its owner ----

  /** Two consecutive pieces of text. */
  lemma StandsApart(whole: Text, at: nat, a: Text, b: Text)
    requires StandsAt(whole, at, a + b)
    ensures StandsAt(whole, at, a) && StandsAt(whole, at + |a|, b)
  {
    forall i | 0 <= i < |a| ensures whole[at + i] == a[i] { assert (a + b)[i] == a[i]; }
    forall i | 0 <= i < |b| ensures whole[at + |a| + i] == b[i] { assert (a + b)[|a| + i] == b[i] && whole[at + (|a| + i)] == b[i]; }
  }

  /** The mappings of a piece of text answer each of its lines with its owner. */
  ghost predicate Answered(whole: Text, at: nat, t: Text, maps: seq<Mapping>, o: Owner, owners: seq<Owner>) {
    && StandsAt(whole, at, t) && Measured(t, owners) && Within(maps, at, at + |t|)
    && forall k :: 0 <= k < |owners| ==> Answers(whole, maps, NewlinesUpTo(whole, at) + 1 + k, o, owners[k])
  }

  lemma AnsweredPlain(whole: Text, at: nat, t: Text, o: Owner, owners: seq<Owner>)
    requires StandsAt(whole, at, t) && Measured(t, owners) && forall k :: 0 <= k < |owners| ==> owners[k] == o
    ensures Answered(whole, at, t, [], o, owners)
  {
  }

  lemma AnsweredJoin(whole: Text, at: nat, a: Text, x: seq<Mapping>, p: seq<Owner>, b: Text, y: seq<Mapping>, q: seq<Owner>, o: Owner)
    requires Answered(whole, at, a, x, o, p) && Answered(whole, at + |a|, b, y, o, q) && StandsAt(whole, at, a + b)
    ensures Answered(whole, at, a + b, x + y, o, p + q)
  {
    hide Answers, Uncovered, StandsAt, NewlinesUpTo, Newlines, EndsLine;
    MeasuredAppend(a, p, b, q);
    StandsFits(whole, at, a);
    StandsFits(whole, at + |a|, b);
    CountThrough(whole, at, a, |a|);
    Counted(a, p);
    Counted(b, q);
    WholeCount(a);
    forall k | 0 <= k < |p + q|
      ensures Answers(whole, x + y, NewlinesUpTo(whole, at) + 1 + k, o, (p + q)[k])
    {
      if k < |p| {
        UncoveredOutside(whole, at + |a|, b, y, NewlinesUpTo(whole, at) + 1 + k);
        AnswersJoin(whole, x, y, NewlinesUpTo(whole, at) + 1 + k, o, p[k]);
      } else {
        UncoveredOutside(whole, at, a, x, NewlinesUpTo(whole, at) + 1 + k);
        assert NewlinesUpTo(whole, at) + 1 + k == NewlinesUpTo(whole, at + |a|) + 1 + (k - |p|);
        AnswersJoin(whole, x, y, NewlinesUpTo(whole, at) + 1 + k, o, q[k - |p|]);
      }
    }
  }

  lemma StandsFits(whole: Text, at: nat, t: Text)
    requires StandsAt(whole, at, t)
    ensures at + |t| <= |whole|
  {
  }

  lemma Counted(t: Text, owners: seq<Owner>)
    requires Measured(t, owners)
    ensures Newlines(t) == |owners| && EndsLine(t)
  {
  }

  lemma WholeCount(t: Text)
    ensures Newlines(t) == NewlinesUpTo(t, |t|)
  {
  }

  /** An anchored statement's own mapping answers the lines its parts leave open. */
  lemma AnsweredAnchor(whole: Text, at: nat, t: Text, maps: seq<Mapping>, source: SourceRange, owners: seq<Owner>, o: Owner)
    requires Answered(whole, at, t, maps, Some(source), owners)
    requires forall m :: m in maps ==> m.end - m.start < |t|
    ensures Answered(whole, at, t, maps + [Mapping(at, at + |t|, source)], o, owners)
  {
    hide NewlinesUpTo, Newlines, Covers, StandsAt, EndsLine;
    var own := Mapping(at, at + |t|, source);
    StandsFits(whole, at, t);
    Counted(t, owners);
    forall k | 0 <= k < |owners|
      ensures Answers(whole, maps + [own], NewlinesUpTo(whole, at) + 1 + k, o, owners[k])
    {
      var line := NewlinesUpTo(whole, at) + 1 + k;
      NonEmptyText(t);
      CoversAll(whole, at, t, source, line);
      assert Answers(whole, maps, line, Some(source), owners[k]);
      if Uncovered(whole, maps, line) {
        assert Least(whole, maps + [own], line, own);
      } else {
        var best :| Least(whole, maps, line, best) && owners[k] == Some(best.source);
        assert Least(whole, maps + [own], line, best);
      }
    }
  }

  lemma NonEmptyText(t: Text)
    requires Newlines(t) > 0
    ensures t != []
  {
  }

  lemma RepeatedOwners(line: Text, o: Owner)
    ensures forall k :: 0 <= k < |LineOwners(line, o)| ==> LineOwners(line, o)[k] == o
  {
  }

  lemma AnsweredLine(whole: Text, at: nat, indent: nat, line: Text, o: Owner)
    requires StandsAt(whole, at, LineText(indent, line))
    ensures Answered(whole, at, LineText(indent, line), [], o, LineOwners(line, o))
  {
    hide Answered, Measured, StandsAt, LineText, LineOwners;
    MeasuredLine(indent, line, o);
    RepeatedOwners(line, o);
    AnsweredPlain(whole, at, LineText(indent, line), o, LineOwners(line, o));
  }

  lemma {:induction false} AnsweredLines(whole: Text, at: nat, lines: seq<Text>, indent: nat, o: Owner)
    requires StandsAt(whole, at, LinesText(lines, indent))
    ensures Answered(whole, at, LinesText(lines, indent), [], o, LinesOwners(lines, o))
    decreases lines
  {
    hide Answered, Measured, StandsAt, LineText, LineOwners;
    if lines == [] {
      MeasuredNothing();
      AnsweredPlain(whole, at, [], o, []);
    } else {
      var a, b := LineText(indent, lines[0]), LinesText(lines[1..], indent);
      StandsApart(whole, at, a, b);
      AnsweredLine(whole, at, indent, lines[0], o);
      AnsweredLines(whole, at + |a|, lines[1..], indent, o);
      var none: seq<Mapping> := [];
      AnsweredJoin(whole, at, a, none, LineOwners(lines[0], o), b, none, LinesOwners(lines[1..], o), o);
      assert none + none == none;
    }
  }

  lemma {:induction false} AnsweredBlock(whole: Text, at: nat, b: Block, indent: nat, o: Owner)
    requires StandsAt(whole, at, BlockText(b, indent))
    ensures Answered(whole, at, BlockText(b, indent), BlockMaps(b, indent, at), o, BlockOwners(b, o))
    decreases b
  {
    hide Answered, Measured, StandsAt, EntryText, EntryMaps, EntryOwners;
    if b == [] {
      MeasuredNothing();
      AnsweredPlain(whole, at, [], o, []);
    } else {
      var t, u := EntryText(b[0], indent), BlockText(b[1..], indent);
      StandsApart(whole, at, t, u);
      AnsweredEntry(whole, at, b[0], indent, o);
      AnsweredBlock(whole, at + |t|, b[1..], indent, o);
      AnsweredJoin(whole, at, t, EntryMaps(b[0], indent, at), EntryOwners(b[0], o), u, BlockMaps(b[1..], indent, at + |t|), BlockOwners(b[1..], o), o);
    }
  }

  lemma {:induction false} AnsweredEntry(whole: Text, at: nat, e: Entry, indent: nat, o: Owner)
    requires StandsAt(whole, at, EntryText(e, indent))
    ensures Answered(whole, at, EntryText(e, indent), EntryMaps(e, indent, at), o, EntryOwners(e, o))
    decreases e
  {
    hide Answered, Measured, StandsAt, StatementText, StatementMaps, StatementOwners;
    match e {
      case Blank =>
        MeasuredEntry(e, indent, o);
        AnsweredPlain(whole, at, [NEWLINE], o, [o]);
      case Anchored(anchor, s) =>
        AnsweredStatement(whole, at, s, indent, if anchor.Some? then anchor else o);
        if anchor.Some? {
          NestedIsShorter(whole, at, s, indent);
          AnsweredAnchor(whole, at, StatementText(s, indent), StatementMaps(s, indent, at), anchor.value, StatementOwners(s, anchor), o);
        } else {
          assert StatementMaps(s, indent, at) + [] == StatementMaps(s, indent, at);
        }
    }
  }

  lemma {:induction false} AnsweredStatement(whole: Text, at: nat, s: Statement, indent: nat, o: Owner)
    requires StandsAt(whole, at, StatementText(s, indent))
    ensures Answered(whole, at, StatementText(s, indent), StatementMaps(s, indent, at), o, StatementOwners(s, o))
    decreases s
  {
    hide Answered, StandsAt, LinesText, SectionsText, SectionsMaps, SectionsOwners, LinesOwners, LineText, LineOwners;
    match s {
      case Lines(lines) => AnsweredLines(whole, at, lines, indent, o);
      case Nested(sections, footer) =>
        var t, u := SectionsText(sections, indent), LineText(indent, footer);
        StandsApart(whole, at, t, u);
        AnsweredSections(whole, at, sections, indent, o);
        AnsweredLine(whole, at + |t|, indent, footer, o);
        AnsweredJoin(whole, at, t, SectionsMaps(sections, indent, at), SectionsOwners(sections, o), u, [], LineOwners(footer, o), o);
        assert SectionsMaps(sections, indent, at) + [] == SectionsMaps(sections, indent, at);
    }
  }

  lemma {:induction false} AnsweredSection(whole: Text, at: nat, s: Section, indent: nat, o: Owner)
    requires StandsAt(whole, at, SectionText(s, indent))
    ensures Answered(whole, at, SectionText(s, indent), SectionMaps(s, indent, at), o, SectionOwners(s, o))
    decreases s
  {
    hide Answered, StandsAt, LineText, LineOwners, BlockText, BlockMaps, BlockOwners;
    var t, u := LineText(indent, s.header), BlockText(s.body, indent + 1);
    StandsApart(whole, at, t, u);
    AnsweredLine(whole, at, indent, s.header, o);
    AnsweredBlock(whole, at + |t|, s.body, indent + 1, o);
    AnsweredJoin(whole, at, t, [], LineOwners(s.header, o), u, BlockMaps(s.body, indent + 1, at + |t|), BlockOwners(s.body, o), o);
    assert [] + BlockMaps(s.body, indent + 1, at + |t|) == BlockMaps(s.body, indent + 1, at + |t|);
  }

  lemma {:induction false} AnsweredSections(whole: Text, at: nat, ss: seq<Section>, indent: nat, o: Owner)
    requires StandsAt(whole, at, SectionsText(ss, indent))
    ensures Answered(whole, at, SectionsText(ss, indent), SectionsMaps(ss, indent, at), o, SectionsOwners(ss, o))
    decreases ss
  {
    hide Answered, Measured, StandsAt, SectionText, SectionMaps, SectionOwners;
    if ss == [] {
      MeasuredNothing();
      AnsweredPlain(whole, at, [], o, []);
    } else {
      var t, u := SectionText(ss[0], indent), SectionsText(ss[1..], indent);
      StandsApart(whole, at, t, u);
      AnsweredSection(whole, at, ss[0], indent, o);
      AnsweredSections(whole, at + |t|, ss[1..], indent, o);
      AnsweredJoin(whole, at, t, SectionMaps(ss[0], indent, at), SectionOwners(ss[0], o), u, SectionsMaps(ss[1..], indent, at + |t|), SectionsOwners(ss[1..], o), o);
    }
  }

  /** The footer keeps every nested mapping shorter than the statement around it. */
  lemma NestedIsShorter(whole: Text, at: nat, s: Statement, indent: nat)
    requires StandsAt(whole, at, StatementText(s, indent))
    ensures forall m :: m in StatementMaps(s, indent, at) ==> m.end - m.start < |StatementText(s, indent)|
    decreases s
  {
    hide SectionsText, SectionsMaps, StandsAt, LineText;
    if s.Nested? {
      StandsApart(whole, at, SectionsText(s.sections, indent), LineText(indent, s.footer));
      AnsweredSections(whole, at, s.sections, indent, None);
      AnsweredWithin(whole, at, SectionsText(s.sections, indent), SectionsMaps(s.sections, indent, at), None, SectionsOwners(s.sections, None));
      MeasuredLine(indent, s.footer, None);
    }
  }

  lemma AnsweredWithin(whole: Text, at: nat, t: Text, maps: seq<Mapping>, o: Owner, owners: seq<Owner>)
    requires Answered(whole, at, t, maps, o, owners)
    ensures Within(maps, at, at + |t|)
  {
  }

  // ---- moving and sorting the mappings ----

  function ShiftBy(m: Mapping, offset: nat): Mapping {
    Mapping(offset + m.start, offset + m.end, m.source)
  }

  function ShiftAll(maps: seq<Mapping>, offset: nat): seq<Mapping> {
    seq(|maps|, i requires 0 <= i < |maps| => ShiftBy(maps[i], offset))
  }

  lemma ShiftAppend(a: seq<Mapping>, b: seq<Mapping>, offset: nat)
    ensures ShiftAll(a + b, offset) == ShiftAll(a, offset) + ShiftAll(b, offset)
  {
  }

  /** Printing further along records the same mappings, moved. */
  lemma {:induction false} ShiftBlock(b: Block, indent: nat, at: nat, offset: nat)
    ensures BlockMaps(b, indent, offset + at) == ShiftAll(BlockMaps(b, indent, at), offset)
    decreases b
  {
    hide ShiftAll, EntryText, EntryMaps;
    if b == [] {
      ShiftNothing(offset);
    } else {
      ShiftEntry(b[0], indent, at, offset);
      ShiftBlock(b[1..], indent, at + |EntryText(b[0], indent)|, offset);
      ShiftAppend(EntryMaps(b[0], indent, at), BlockMaps(b[1..], indent, at + |EntryText(b[0], indent)|), offset);
    }
  }

  lemma ShiftNothing(offset: nat)
    ensures ShiftAll([], offset) == []
  {
  }

  lemma ShiftOne(m: Mapping, offset: nat)
    ensures ShiftAll([m], offset) == [ShiftBy(m, offset)]
  {
  }

  lemma {:induction false} ShiftEntry(e: Entry, indent: nat, at: nat, offset: nat)
    ensures EntryMaps(e, indent, offset + at) == ShiftAll(EntryMaps(e, indent, at), offset)
    decreases e
  {
    hide ShiftAll, StatementText;
    match e {
      case Blank => ShiftNothing(offset);
      case Anchored(anchor, s) =>
        ShiftNothing(offset);
        match s {
          case Lines(_) =>
          case Nested(sections, _) => ShiftSections(sections, indent, at, offset);
        }
        if anchor.Some? {
          var own := Mapping(at, at + |StatementText(s, indent)|, anchor.value);
          ShiftOne(own, offset);
          ShiftAppend(StatementMaps(s, indent, at), [own], offset);
        } else {
          ShiftAppend(StatementMaps(s, indent, at), [], offset);
        }
    }
  }

  lemma {:induction false} ShiftSections(ss: seq<Section>, indent: nat, at: nat, offset: nat)
    ensures SectionsMaps(ss, indent, offset + at) == ShiftAll(SectionsMaps(ss, indent, at), offset)
    decreases ss
  {
    hide ShiftAll, SectionText, BlockMaps, LineText;
    if ss == [] {
      ShiftNothing(offset);
    } else {
      ShiftBlock(ss[0].body, indent + 1, at + |LineText(indent, ss[0].header)|, offset);
      ShiftSections(ss[1..], indent, at + |SectionText(ss[0], indent)|, offset);
      ShiftAppend(SectionMaps(ss[0], indent, at), SectionsMaps(ss[1..], indent, at + |SectionText(ss[0], indent)|), offset);
    }
  }

  predicate RangeLess(a: Mapping, b: Mapping) {
    a.start < b.start || (a.start == b.start && a.end < b.end)
  }

  function InsertByRange(m: Mapping, sorted: seq<Mapping>): (r: seq<Mapping>)
    ensures forall x :: x in r <==> x == m || x in sorted
  {
    if sorted == [] || RangeLess(m, sorted[0]) then [m] + sorted
    else
      var rest := InsertByRange(m, sorted[1..]);
      assert forall x :: x in sorted <==> x == sorted[0] || x in sorted[1..];
      [sorted[0]] + rest
  }

  /** A stable sort by range. */
  function SortByRange(maps: seq<Mapping>): (r: seq<Mapping>)
    ensures forall x :: x in r <==> x in maps
  {
    if maps == [] then []
    else
      assert forall x :: x in maps <==> x in maps[..|maps| - 1] || x == maps[|maps| - 1];
      InsertByRange(maps[|maps| - 1], SortByRange(maps[..|maps| - 1]))
  }

  // ---- the whole pipeline ----

  const EMPTY_LINE: Text := [NEWLINE]

  /** The chunk header gains a blank line unless one is already there. */
  function SpacedPrefix(prefix: Text, body: Text): Text {
    if body != [] && !(|prefix| >= 2 && prefix[|prefix| - 1] == NEWLINE && prefix[|prefix| - 2] == NEWLINE) && body[0] != NEWLINE
    then prefix + EMPTY_LINE else prefix
  }

  /** The owner of each generated line: none for the header, then one per printed line. */
  function OwnerOfLine(prefix: Text, block: Block, line: nat): Owner {
    var owners := BlockOwners(block, None);
    var first := Newlines(SpacedPrefix(prefix, BlockText(block, 0))) + 1;
    if first <= line < first + |owners| then owners[line - first] else None
  }

  lemma {:induction false} ReferenceIsLeast(t: Text, maps: seq<Mapping>, line: nat)
    ensures var r := ReferenceMapping(t, maps, line);
            if r.None? then Uncovered(t, maps, line)
            else forall m :: m in maps && Covers(t, m, line) ==> !Before(m, r.value)
  {
    hide Covers;
    if maps != [] {
      ReferenceIsLeast(t, maps[1..], line);
      assert forall m :: m in maps <==> m == maps[0] || m in maps[1..];
    }
  }

  /** Whatever order the mappings come in, the reference lookup finds the answer. */
  lemma AnswerFound(whole: Text, maps: seq<Mapping>, line: nat, wanted: Owner, sorted: seq<Mapping>)
    requires Answers(whole, maps, line, None, wanted) && forall m :: m in sorted <==> m in maps
    ensures ReferenceMappingForLine(whole, sorted, line) == wanted
  {
    hide ReferenceMapping;
    ReferenceIsLeast(whole, sorted, line);
    if Uncovered(whole, maps, line) {
      assert ReferenceMapping(whole, sorted, line).None? by {
        NoReference(whole, sorted, line);
      }
    } else {
      var best :| Least(whole, maps, line, best) && wanted == Some(best.source);
      assert best in sorted;
      var r := ReferenceMapping(whole, sorted, line);
      assert r.Some?;
      ReferenceIsCovering(whole, sorted, line);
    }
  }

  lemma NoReference(t: Text, maps: seq<Mapping>, line: nat)
    requires Uncovered(t, maps, line)
    ensures ReferenceMapping(t, maps, line).None?
  {
  }

  lemma ReferenceIsCovering(t: Text, maps: seq<Mapping>, line: nat)
    ensures var r := ReferenceMapping(t, maps, line); r.Some? ==> r.value in maps && Covers(t, r.value, line)
  {
  }

  /** The generated chunk: header text, printed block, and the block's mappings moved behind the header. */
  method Generate(header: Text, block: Block) returns (source: Text, sourceMap: seq<Mapping>)
    ensures source == SpacedPrefix(header, BlockText(block, 0)) + BlockText(block, 0)
    ensures forall m :: m in sourceMap <==> m in BlockMaps(block, 0, |SpacedPrefix(header, BlockText(block, 0))|)
  {
    var printer := new Printer();
    printer.PrintBlock(block, 0);
    var mappings := SortByRange(printer.mappings);
    var prefix := SpacedPrefix(header, printer.output);
    var generatedOffset := |prefix|;
    sourceMap := ShiftAll(mappings, generatedOffset);
    source := prefix + printer.output;
    ShiftBlock(block, 0, 0, generatedOffset);
    SameElementsShifted(BlockMaps(block, 0, 0), mappings, generatedOffset);
  }

  lemma SameElementsShifted(a: seq<Mapping>, b: seq<Mapping>, offset: nat)
    requires forall m :: m in a <==> m in b
    ensures forall m :: m in ShiftAll(a, offset) <==> m in ShiftAll(b, offset)
  {
    forall m | m in ShiftAll(a, offset) ensures m in ShiftAll(b, offset) {
      var i :| 0 <= i < |a| && ShiftAll(a, offset)[i] == m;
      assert a[i] in b;
      var j :| 0 <= j < |b| && b[j] == a[i];
      assert ShiftAll(b, offset)[j] == m;
    }
    forall m | m in ShiftAll(b, offset) ensures m in ShiftAll(a, offset) {
      var i :| 0 <= i < |b| && ShiftAll(b, offset)[i] == m;
      assert b[i] in a;
      var j :| 0 <= j < |a| && a[j] == b[i];
      assert ShiftAll(a, offset)[j] == m;
    }
  }

  lemma BlockAnswersEveryLine(prefix: Text, block: Block, line: nat)
    ensures var p := SpacedPrefix(prefix, BlockText(block, 0));
            Answers(p + BlockText(block, 0), BlockMaps(block, 0, |p|), line, None, OwnerOfLine(prefix, block, line))
  {
    hide Answers, BlockText, BlockMaps, BlockOwners, SpacedPrefix, Uncovered;
    var text := BlockText(block, 0);
    var p := SpacedPrefix(prefix, text);
    var whole := p + text;
    AnsweredBlock(whole, |p|, block, 0, None);
    CountThrough(whole, 0, p, |p|);
    MeasuredBlock(block, 0, None);
    var owners := BlockOwners(block, None);
    if Newlines(p) < line <= Newlines(p) + |owners| {
      assert line == NewlinesUpTo(whole, |p|) + 1 + (line - Newlines(p) - 1);
    } else {
      UncoveredOutside(whole, |p|, text, BlockMaps(block, 0, |p|), line);
      UncoveredAnswersNone(whole, BlockMaps(block, 0, |p|), line);
    }
  }

  lemma UncoveredAnswersNone(whole: Text, maps: seq<Mapping>, line: nat)
    requires Uncovered(whole, maps, line)
    ensures Answers(whole, maps, line, None, None)
  {
  }

  /**
   * From tree to traceback: the index built for a generated chunk maps every line to the anchor of the
   * innermost anchored statement printed there, and every other line to nothing.
   */
  method IndexGeneratedChunk(header: Text, block: Block) returns (source: Text, index: LuaSourceMapIndex)
    ensures source == SpacedPrefix(header, BlockText(block, 0)) + BlockText(block, 0)
    ensures forall line: nat :: index.MapLine(line) == OwnerOfLine(header, block, line)
  {
    hide SpacedPrefix, BlockText, BlockMaps, OwnerOfLine, ReferenceMappingForLine;
    var sourceMap;
    source, sourceMap := Generate(header, block);
    index := New(source, sourceMap);
    forall line: nat
      ensures index.MapLine(line) == OwnerOfLine(header, block, line)
    {
      BlockAnswersEveryLine(header, block, line);
      AnswerFound(source, BlockMaps(block, 0, |SpacedPrefix(header, BlockText(block, 0))|), line, OwnerOfLine(header, block, line), sourceMap);
    }
  }
}
