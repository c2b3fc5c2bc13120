/** Configuration files of the collector: flow lines as its manual documents them, cut into pieces by the line
    buffer, and the flows they load. */
module FlowFile {
  import opened CText
  import opened Flows

  // ----- the documented form of a flow line -----

  datatype Entry = Entry(id: nat, mgen: bool, lo: nat, hi: nat)

  /** Numbers in the range of what they stand for: a traffic id, port numbers, MGEN flow ids. */
  predicate InRange(e: Entry) {
    && 1 <= e.id < 0x1_0000
    && 1 <= e.lo < (if e.mgen then 0x1_0000_0000 else 0x1_0000)
    && 1 <= e.hi < (if e.mgen then 0x1_0000_0000 else 0x1_0000)
  }

  function Denoted(e: Entry): Flow {
    if e.mgen then Flow(e.id, 0, 0, e.lo, e.hi) else Flow(e.id, e.lo, e.hi, 0, 0)
  }

  function FormatRange(lo: nat, hi: nat): string {
    if lo == hi then Dec(lo) else Dec(lo) + "-" + Dec(hi)
  }

  /** The line without its newline. */
  function Body(e: Entry): string {
    Dec(e.id) + ['='] + ((if e.mgen then "M" else "") + FormatRange(e.lo, e.hi))
  }

  lemma NotInDec(n: nat, c: char)
    requires !IsDigit(c)
    ensures c !in Dec(n) && Find(Dec(n), c) == |Dec(n)|
  {
    DecDigits(n);
    FindIsFirst(Dec(n), c);
  }

  lemma FormattedNumber(n: nat, rest: string)
    requires n < 0x1_0000_0000 && StopsNumber(rest)
    ensures UInt32(Atol(Dec(n) + rest)) == n && (n < 0x1_0000 ==> UInt16(Atoi(Dec(n) + rest)) == n)
  {
    AtolDec(n, rest);
    AtoiDec(n, rest);
  }

  /** Blanks, which end a number. */
  predicate OnlyBlanks(s: string) { forall k :: 0 <= k < |s| ==> s[k] == ' ' || s[k] == '\t' }

  lemma FormattedRange(lo: nat, hi: nat, blanks: string)
    requires lo < 0x1_0000_0000 && hi < 0x1_0000_0000 && OnlyBlanks(blanks)
    ensures RangeOf(FormatRange(lo, hi) + blanks) == (lo, hi)
  {
    var idx := FormatRange(lo, hi) + blanks;
    NotInDec(lo, '-');
    if lo == hi {
      FormattedNumber(lo, blanks);
      FindIsFirst(idx, '-');
    } else {
      var end := Dec(hi) + blanks;
      FormattedNumber(lo, "-" + end);
      assert idx == Dec(lo) + ("-" + end);
      FindConcat(Dec(lo), '-', end);
      assert idx == Dec(lo) + ['-'] + end;
      assert idx[|Dec(lo)| + 1..] == end;
      FormattedNumber(hi, blanks);
    }
  }

  lemma FormatRangeHasNo(lo: nat, hi: nat, c: char)
    requires !IsDigit(c) && c != '-'
    ensures c !in FormatRange(lo, hi)
  {
    DecDigits(lo);
    DecDigits(hi);
  }

  /** What may follow on a flow line: blanks and a comment up to the end of the line. */
  predicate Comment(c: string) { OneLine(c) && OnlyBlanks(CutAt(c, '#')) }

  lemma {:induction false} FindInPrefix(s: string, c: char, n: nat)
    requires n <= |s|
    ensures Find(s[..n], c) == if Find(s, c) < n then Find(s, c) else n
  {
    if n > 0 && s[0] != c {
      assert s[..n][1..] == s[1..][..n - 1];
      FindInPrefix(s[1..], c, n - 1);
    }
  }

  lemma PrefixOfComment(c: string, n: nat)
    requires Comment(c) && n <= |c|
    ensures Comment(c[..n])
  {
    FindInPrefix(c, '#', n);
    var cut := CutAt(c[..n], '#');
    assert forall k :: 0 <= k < |cut| ==> cut[k] == CutAt(c, '#')[k];
  }

  lemma {:induction false} FindSkips(s: string, c: char, rest: string)
    requires c !in s
    ensures Find(s + rest, c) == |s| + Find(rest, c)
  {
    if s == "" {
      assert s + rest == rest;
    } else {
      assert (s + rest)[1..] == s[1..] + rest;
      FindSkips(s[1..], c, rest);
    }
  }

  /** The newline makes no difference. */
  lemma MeaningOfLine(line: string)
    requires OneLine(line)
    ensures Meaning(line) == CutAt(line, '#') == Meaning(line + "\n")
    ensures FlowOf(line) == FlowOf(line + "\n")
  {
    FindSkips(line, '\n', "");
    FindSkips(line, '\n', "\n");
    assert line + "" == line;
  }

  lemma MeaningOfFormat(body: string, comment: string)
    requires OneLine(body) && '#' !in body && Comment(comment)
    ensures OneLine(body + comment) && Meaning(body + comment) == body + CutAt(comment, '#')
  {
    MeaningOfLine(body + comment);
    FindSkips(body, '#', comment);
  }

  lemma BodyHasNo(e: Entry, c: char)
    requires !IsDigit(c) && c != '-' && c != '=' && c != 'M'
    ensures c !in Body(e)
  {
    NotInDec(e.id, c);
    FormatRangeHasNo(e.lo, e.hi, c);
  }

  lemma FlowOfParts(line: string, id: string, mgen: bool, idx: string)
    requires Meaning(line) == id + ['='] + ((if mgen then "M" else "") + idx)
    requires '=' !in id && idx != "" && idx[0] != 'M'
    ensures FlowOf(line) == FlowFrom(IdOf(id), mgen, RangeOf(idx).0, RangeOf(idx).1)
  {
    var value := (if mgen then "M" else "") + idx;
    var s := Meaning(line);
    FindConcat(id, '=', value);
    assert s[..|id|] == id && s[|id| + 1..] == value;
    assert (if mgen then value[1..] else value) == idx;
  }

  lemma ValueStarts(e: Entry, blanks: string)
    ensures FormatRange(e.lo, e.hi) + blanks != "" && (FormatRange(e.lo, e.hi) + blanks)[0] != 'M'
  {
    DecDigits(e.lo);
  }

  lemma EntryIdIsRead(id: nat)
    requires id < 0x1_0000_0000
    ensures IdOf(Dec(id)) == id % 0x1_0000
  {
    LowHalf(id);
    AtoiDec(id, "");
    assert Dec(id) + "" == Dec(id);
  }

  lemma BodyAndBlanks(e: Entry, blanks: string)
    ensures Body(e) + blanks
              == Dec(e.id) + ['='] + ((if e.mgen then "M" else "") + (FormatRange(e.lo, e.hi) + blanks))
  {
  }

  /** What addconn makes of a flow line with any 32-bit numbers: ids and ports are cut to 16 bits, and a line
      whose id, start or end is zero is lost. */
  lemma AnyLineIsRead(e: Entry, comment: string)
    requires e.id < 0x1_0000_0000 && e.lo < 0x1_0000_0000 && e.hi < 0x1_0000_0000 && Comment(comment)
    ensures OneLine(Body(e) + comment)
    ensures FlowOf(Body(e) + comment) ==
              if e.id % 0x1_0000 == 0 || e.lo == 0 || e.hi == 0 then None
              else if e.mgen then Some(Flow(e.id % 0x1_0000, 0, 0, e.lo, e.hi))
              else Some(Flow(e.id % 0x1_0000, e.lo % 0x1_0000, e.hi % 0x1_0000, 0, 0))
  {
    var blanks := CutAt(comment, '#');
    BodyHasNo(e, '\n');
    BodyHasNo(e, '#');
    MeaningOfFormat(Body(e), comment);
    BodyAndBlanks(e, blanks);
    NotInDec(e.id, '=');
    ValueStarts(e, blanks);
    FlowOfParts(Body(e) + comment, Dec(e.id), e.mgen, FormatRange(e.lo, e.hi) + blanks);
    EntryIdIsRead(e.id);
    FormattedRange(e.lo, e.hi, blanks);
  }

  /** addconn reads every documented flow line as what it says. */
  lemma FormattedLineIsRead(e: Entry, comment: string)
    requires InRange(e) && Comment(comment)
    ensures OneLine(Body(e) + comment) && FlowOf(Body(e) + comment) == Some(Denoted(e))
  {
    AnyLineIsRead(e, comment);
    LowHalf(e.id);
    LowHalf(e.lo);
    LowHalf(e.hi);
  }

  /** On flows in normal form, a hit is what the configuration says: the port is in the flow's port range,
      or the MGEN id in its MGEN range; port 0 and id 0 are never hit. */
  lemma HitMeansConfiguredRange(e: Entry, p: nat, m: nat)
    requires InRange(e) && p < 0x1_0000 && m < 0x1_0000_0000
    ensures Hits(Denoted(e), p, m) <==> EntryHas(e, p, m)
    ensures !Hits(Denoted(e), 0, 0)
  {
  }

  predicate EntryHas(e: Entry, p: nat, m: nat) {
    e.lo <= (if e.mgen then m else p) <= e.hi
  }

  // ----- lines of a file -----

  /** A line of a configuration file without its newline: a documented flow line, with or without a comment, or
      a host line, a comment or anything else whose first piece defines no flow. */
  datatype FileLine = FlowLine(entry: Entry, comment: string) | OtherLine(text: string)

  predicate Documented(line: FileLine) {
    if line.FlowLine? then InRange(line.entry) && Comment(line.comment)
    else OneLine(line.text) && FlowOf(Start(line.text)) == None
  }

  function Content(line: FileLine): string {
    if line.FlowLine? then Body(line.entry) + line.comment else line.text
  }

  /** A line without an equals sign outside its comment, such as a host line or a comment, defines no flow,
      however many of its characters are read. */
  lemma WithoutEqualsNoFlow(line: string, n: nat)
    requires OneLine(line) && '=' !in CutAt(line, '#') && n <= |line|
    ensures FlowOf(line[..n]) == None
  {
    MeaningOfLine(line[..n]);
    FindInPrefix(line, '#', n);
    FindIsFirst(Meaning(line[..n]), '=');
  }

  /** A flow line without a comment is well within the line buffer. */
  lemma BodyIsShort(e: Entry)
    requires InRange(e)
    ensures |Body(e)| <= 28
  {
    assert Power10(5) == 100000 && Power10(10) == 100000 * Power10(5);
    DecIsShort(e.id, 5);
    DecIsShort(e.lo, 10);
    DecIsShort(e.hi, 10);
  }

  lemma FirstOfOther(text: string)
    requires OneLine(text)
    ensures FlowOf(CutLine(text)[0]) == FlowOf(Start(text))
  {
    MeaningOfLine(text);
  }

  lemma StartOfFlowLine(e: Entry, comment: string)
    requires InRange(e) && Comment(comment)
    ensures OneLine(Body(e) + comment) && FlowOf(Start(Body(e) + comment)) == Some(Denoted(e))
  {
    var line := Body(e) + comment;
    FormattedLineIsRead(e, comment);
    BodyIsShort(e);
    if |line| >= LINELEN {
      var n := LINELEN - 1 - |Body(e)|;
      PrefixOfComment(comment, n);
      FormattedLineIsRead(e, comment[..n]);
      assert Start(line) == Body(e) + comment[..n];
    }
  }

  /** The first piece of a documented line is read as what the line says. */
  lemma FirstPieceIsRead(line: FileLine)
    requires Documented(line)
    ensures OneLine(Content(line))
    ensures FlowOf(CutLine(Content(line))[0]) == if line.FlowLine? then Some(Denoted(line.entry)) else None
  {
    if line.FlowLine? {
      StartOfFlowLine(line.entry, line.comment);
    }
    FirstOfOther(Content(line));
  }

  // ----- files -----

  predicate DefinesNothing(lines: seq<string>) { forall k :: 0 <= k < |lines| ==> FlowOf(lines[k]) == None }

  lemma {:induction false} DefinesNothingIff(lines: seq<string>)
    ensures DefinesNothing(lines) <==> Defined(lines) == []
  {
    if lines != [] {
      DefinesNothingIff(lines[1..]);
      assert forall k :: 1 <= k < |lines| ==> lines[k] == lines[1..][k - 1];
    }
  }

  function TextOf(file: seq<FileLine>): string {
    if file == [] then "" else Content(file[0]) + "\n" + TextOf(file[1..])
  }

  function PiecesOf(file: seq<FileLine>): seq<string> {
    if file == [] then [] else CutLine(Content(file[0])) + PiecesOf(file[1..])
  }

  /** The flow lines of a file, in order. */
  function EntriesOf(file: seq<FileLine>): seq<Entry> {
    if file == [] then []
    else (if file[0].FlowLine? then [file[0].entry] else []) + EntriesOf(file[1..])
  }

  function DenotedAll(entries: seq<Entry>): (flows: seq<Flow>)
    ensures |flows| == |entries| && forall k :: 0 <= k < |entries| ==> flows[k] == Denoted(entries[k])
  {
    seq(|entries|, k requires 0 <= k < |entries| => Denoted(entries[k]))
  }

  predicate AllDocumented(file: seq<FileLine>) { forall k :: 0 <= k < |file| ==> Documented(file[k]) }

  /** No line goes on after the first piece with something that is taken for a flow line. */
  predicate OverflowsAreHarmless(file: seq<FileLine>) {
    forall k :: 0 <= k < |file| ==> DefinesNothing(Overflow(Content(file[k])))
  }

  lemma {:induction false} FileIsCut(file: seq<FileLine>)
    requires AllDocumented(file)
    ensures Pieces(TextOf(file)) == PiecesOf(file)
  {
    if file != [] {
      FirstPieceIsRead(file[0]);
      LineIsCut(Content(file[0]), TextOf(file[1..]));
      FileIsCut(file[1..]);
    }
  }

  lemma LineDefines(line: FileLine)
    requires Documented(line)
    ensures Defined(CutLine(Content(line)))
              == (if line.FlowLine? then [Denoted(line.entry)] else []) + Defined(Overflow(Content(line)))
  {
    FirstPieceIsRead(line);
    assert CutLine(Content(line))[1..] == Overflow(Content(line));
  }

  lemma DenotedPrepend(line: FileLine, entries: seq<Entry>)
    ensures DenotedAll((if line.FlowLine? then [line.entry] else []) + entries)
              == (if line.FlowLine? then [Denoted(line.entry)] else []) + DenotedAll(entries)
  {
    if !line.FlowLine? {
      assert [] + entries == entries;
    }
  }

  /** Everything a file defines: its flow lines, and whatever its overflows add. */
  lemma {:induction false} FileDefines(file: seq<FileLine>)
    requires AllDocumented(file)
    ensures |Defined(PiecesOf(file))| >= |EntriesOf(file)|
    ensures OverflowsAreHarmless(file) ==> Defined(PiecesOf(file)) == DenotedAll(EntriesOf(file))
    ensures !OverflowsAreHarmless(file) ==> |Defined(PiecesOf(file))| > |EntriesOf(file)|
  {
    if file != [] {
      FileDefines(file[1..]);
      DefinedConcat(CutLine(Content(file[0])), PiecesOf(file[1..]));
      LineDefines(file[0]);
      DefinesNothingIff(Overflow(Content(file[0])));
      DenotedPrepend(file[0], EntriesOf(file[1..]));
      HarmlessIff(file);
    }
  }

  lemma HarmlessIff(file: seq<FileLine>)
    requires file != []
    ensures OverflowsAreHarmless(file) <==>
              DefinesNothing(Overflow(Content(file[0]))) && OverflowsAreHarmless(file[1..])
  {
    var rest := file[1..];
    assert forall k :: 1 <= k < |file| ==> file[k] == rest[k - 1];
    assert forall k :: 0 <= k < |rest| ==> rest[k] == file[k + 1];
  }

  /** A file of flow lines, host lines and comments in any order loads exactly the flows its flow lines denote,
      if and only if no line is so long that a later piece of it is taken for a flow line. */
  lemma FileIsReadIff(file: seq<FileLine>)
    requires AllDocumented(file) && |EntriesOf(file)| < 64
    ensures FlowsOf(Pieces(TextOf(file))) == DenotedAll(EntriesOf(file)) <==> OverflowsAreHarmless(file)
  {
    FileIsCut(file);
    FileDefines(file);
  }

  /** Such a file loads exactly the flows its flow lines denote, in order, and of more than 64 the first 64. */
  lemma FileIsRead(file: seq<FileLine>)
    requires AllDocumented(file) && OverflowsAreHarmless(file)
    ensures var flows := DenotedAll(EntriesOf(file));
            FlowsOf(Pieces(TextOf(file))) == if |flows| <= 64 then flows else flows[..64]
  {
    FileIsCut(file);
    FileDefines(file);
  }

  lemma NewlineAlone()
    ensures FlowOf("\n") == None && FlowOf("") == None
  {
    MeaningOfLine("");
    assert "" + "\n" == "\n";
  }

  lemma ShortOverflow(line: string)
    requires |line| < LINELEN
    ensures Overflow(line) == [] || Overflow(line) == ["\n"]
  {
    if |line| == LINELEN - 1 {
      assert line[LINELEN - 1..] == "";
      assert "" + "\n" == "\n";
    }
  }

  lemma {:induction false} PiecesWithoutEquals(line: string)
    requires OneLine(line) && '=' !in line
    ensures DefinesNothing(CutLine(line))
    decreases |line|
  {
    assert line[..|line|] == line;
    WithoutEqualsNoFlow(line, |Start(line)|);
    FirstOfOther(line);
    if |line| >= LINELEN - 1 {
      var more := line[LINELEN - 1..];
      PiecesWithoutEquals(more);
      assert forall k :: 1 <= k < |CutLine(line)| ==> CutLine(line)[k] == CutLine(more)[k - 1];
    }
  }

  /** Lines that fit into the buffer are harmless, and so are longer ones with no equals sign past its end. */
  lemma HarmlessLines(file: seq<FileLine>)
    requires AllDocumented(file)
    requires forall k :: 0 <= k < |file| ==>
      |Content(file[k])| < LINELEN || '=' !in Content(file[k])[LINELEN - 1..]
    ensures OverflowsAreHarmless(file)
  {
    NewlineAlone();
    forall k | 0 <= k < |file| ensures DefinesNothing(Overflow(Content(file[k]))) {
      var line := Content(file[k]);
      if |line| < LINELEN {
        ShortOverflow(line);
      } else {
        FirstPieceIsRead(file[k]);
        PiecesWithoutEquals(line[LINELEN - 1..]);
      }
    }
  }

  /** It need not be otherwise: a comment of 31 characters and more can go on with a flow. */
  lemma TailOfCommentIsAFlow(c: string, e: Entry)
    requires OneLine(c) && |c| == LINELEN - 1 && c[0] == '#' && InRange(e)
    ensures var file := [OtherLine(c + Body(e))];
            && AllDocumented(file) && EntriesOf(file) == []
            && FlowsOf(Pieces(TextOf(file))) == [Denoted(e)]
  {
    var line := c + Body(e);
    BodyHasNo(e, '\n');
    CommentIsNoFlow(line);
    OneLineFile(OtherLine(line));
    LineDefines(OtherLine(line));
    assert line[LINELEN - 1..] == Body(e);
    BodyAlone(e);
  }

  lemma OneLineFile(line: FileLine)
    requires Documented(line)
    ensures FlowsOf(Pieces(TextOf([line]))) == Kept(Defined(CutLine(Content(line))))
  {
    FileIsCut([line]);
    assert PiecesOf([line]) == CutLine(Content(line)) + PiecesOf([line][1..]) == CutLine(Content(line));
  }

  lemma BodyAlone(e: Entry)
    requires InRange(e)
    ensures Defined(CutLine(Body(e))) == [Denoted(e)]
  {
    BodyIsShort(e);
    assert Body(e) + "" == Body(e);
    LineDefines(FlowLine(e, ""));
  }

  lemma CommentIsNoFlow(line: string)
    requires OneLine(line) && line != "" && line[0] == '#'
    ensures FlowOf(Start(line)) == None
  {
    assert line[..|line|] == line;
    WithoutEqualsNoFlow(line, |Start(line)|);
  }

  /** There is such a comment; what it holds by chance is booked under id 5. */
  lemma CommentLoadsPort80()
    ensures exists file :: AllDocumented(file) && EntriesOf(file) == []
              && FlowsOf(Pieces(TextOf(file))) == [Flow(5, 80, 80, 0, 0)]
  {
    TailOfCommentIsAFlow(seq(LINELEN - 1, _ => '#'), Entry(5, false, 80, 80));
  }

  // ----- the end of the file -----

  lemma LastPiece(text: string)
    requires text != "" && OneLine(text) && |text| < LINELEN
    ensures Pieces(text) == [text]
  {
    FindSkips(text, '\n', "");
    assert text + "" == text && text[..|text|] == text;
    assert Pieces(text[|text|..]) == [];
  }

  /** The first piece of a text that is more than one short line without a newline. */
  lemma SplitOff(text: string) returns (piece: string, rest: string)
    requires text != "" && (OneLine(text) ==> |text| >= LINELEN)
    ensures piece != "" && text == piece + rest && text + "\n" == piece + (rest + "\n")
    ensures PieceLength(text) == PieceLength(text + "\n") == |piece|
  {
    assert (text + "\n")[..|text|] == text;
    FindInPrefix(text + "\n", '\n', |text|);
    FindIsFirst(text, '\n');
    piece, rest := text[..PieceLength(text)], text[PieceLength(text)..];
  }

  lemma DefinedPieces(piece: string, rest: string)
    requires piece != "" && PieceLength(piece + rest) == |piece|
    ensures Defined(Pieces(piece + rest)) == AsSeq(FlowOf(piece)) + Defined(Pieces(rest))
  {
    NextPiece(piece, rest);
    assert ([piece] + Pieces(rest))[1..] == Pieces(rest);
  }

  lemma LastLine(text: string)
    requires text != "" && OneLine(text) && |text| < LINELEN
    ensures Defined(Pieces(text + "\n")) == Defined(Pieces(text)) == AsSeq(FlowOf(text))
  {
    LastPiece(text);
    LineIsCut(text, "");
    assert text + "\n" + "" == text + "\n";
    MeaningOfLine(text);
    NewlineAlone();
    ShortOverflow(text);
  }

  lemma SameAfterPiece(piece: string, rest: string)
    requires piece != "" && PieceLength(piece + rest) == PieceLength(piece + (rest + "\n")) == |piece|
    requires Defined(Pieces(rest + "\n")) == Defined(Pieces(rest))
    ensures Defined(Pieces(piece + (rest + "\n"))) == Defined(Pieces(piece + rest))
  {
    DefinedPieces(piece, rest);
    DefinedPieces(piece, rest + "\n");
  }

  /** The last line of a file need not end in a newline. */
  lemma {:induction false} FinalNewline(text: string)
    ensures Defined(Pieces(text + "\n")) == Defined(Pieces(text))
    decreases |text|
  {
    if text == "" {
      NewlineAlone();
      LineIsCut("", "");
      assert "" + "\n" + "" == "\n" && text + "\n" == "\n";
    } else if OneLine(text) && |text| < LINELEN {
      LastLine(text);
    } else {
      var piece, rest := SplitOff(text);
      FinalNewline(rest);
      SameAfterPiece(piece, rest);
    }
  }

  lemma FinalNewlineIsOptional(text: string)
    ensures FlowsOf(Pieces(text + "\n")) == FlowsOf(Pieces(text))
  {
    FinalNewline(text);
  }

  // ----- from the file to the records -----

  lemma {:induction false} EntriesAreInRange(file: seq<FileLine>)
    requires AllDocumented(file)
    ensures forall k :: 0 <= k < |EntriesOf(file)| ==> InRange(EntriesOf(file)[k])
  {
    if file != [] { EntriesAreInRange(file[1..]); }
  }

  /** From configuration file to classification: with at most 32 documented flow lines, whatever lines stand
      between them, consume prints a packet under exactly those whose configured range has the packet's port
      or MGEN id. */
  lemma ConfiguredFlowsArePrinted(file: seq<FileLine>, p: nat, m: nat, k: nat)
    requires AllDocumented(file) && OverflowsAreHarmless(file) && |EntriesOf(file)| <= 32
    requires p < 0x1_0000 && m < 0x1_0000_0000
    ensures var flows, entries := FlowsOf(Pieces(TextOf(file))), EntriesOf(file);
            k in Printed(flows, |flows|, p, m) <==> k < |entries| && EntryHas(entries[k], p, m)
  {
    var flows, entries := FlowsOf(Pieces(TextOf(file))), EntriesOf(file);
    FileIsRead(file);
    EntriesAreInRange(file);
    ClassifierExact(flows, p, m);
    ListedAre(flows, |flows|, p, m, k);
    if k < |entries| {
      HitMeansConfiguredRange(entries[k], p, m);
    }
  }
}
