/** The text interface between the collector and the grapher: the line a record is printed as, and how
    `readin` takes a line apart. */
module Lines {
  import opened CText
  import opened Records

  const W_MEM: int := 0
  const W_CPU: int := 1
  const W_TIME: int := 2
  const W_OTHER: int := 4
  const W_USER: int := 5

  function TagText(t: Tag): string {
    match t
    case Unknown => "X"
    case Cpu => "C"
    case Mem => "M"
    case Traffic(id) => Dec(id)
  }

  function FlagText(primary: bool): string { (if primary then "0" else "1") + ['\n'] + "" }

  function ValueText(value: nat, primary: bool): string { Dec(value) + [':'] + FlagText(primary) }

  function FlowText(t: Tag, value: nat, primary: bool): string { TagText(t) + [':'] + ValueText(value, primary) }

  function StampText(sec: nat, usec: nat): string { Dec(sec) + "." + SixDigits(Int32(usec)) }

  /** The four printf formats of consume. */
  function Print(r: Record): string {
    StampText(r.sec, r.usec) + [':'] + (r.host + [':'] + FlowText(r.tag, r.value, r.primary))
  }

  /** One line's contribution to the graphs: level 0 is primary, level 1 secondary. */
  datatype Sample = Sample(window: int, level: nat, second: int, who: int, value: nat)

  datatype Fields = Fields(stamp: string, host: string, flow: string, value: string, flag: string)

  /** readin's five calls of strtok; readin returns if any of them finds nothing. */
  function Split(line: string): Option<Fields> {
    match StrTok(line, ':')
    case None => None
    case Some((stamp, rest)) => SplitHost(stamp, rest)
  }

  function SplitHost(stamp: string, s: string): Option<Fields> {
    match StrTok(s, ':')
    case None => None
    case Some((host, rest)) => SplitFlow(stamp, host, rest)
  }

  function SplitFlow(stamp: string, host: string, s: string): Option<Fields> {
    match StrTok(s, ':')
    case None => None
    case Some((flow, rest)) => SplitValue(stamp, host, flow, rest)
  }

  function SplitValue(stamp: string, host: string, flow: string, s: string): Option<Fields> {
    match StrTok(s, ':')
    case None => None
    case Some((value, rest)) =>
      match StrTok(rest, '\n')
      case None => None
      case Some((flag, _)) => Some(Fields(stamp, host, flow, value, flag))
  }

  predicate StartsWith(s: string, c: char) { s != "" && s[0] == c }

  function WindowOf(field: string): int {
    if StartsWith(field, 'X') then W_OTHER
    else if StartsWith(field, 'C') then W_CPU
    else if StartsWith(field, 'M') then W_MEM
    else Atoi(field) + W_USER - 1
  }

  /** What the fields mean; None for a time before the start or a host number below 1. */
  function Interpret(f: Fields, start: int): Option<Sample> {
    if Atoi(f.stamp) < start || Atoi(f.host) <= 0 then None
    else
      Some(Sample(WindowOf(f.flow), if StartsWith(f.flag, '0') then 0 else 1,
                  Atoi(f.stamp) - start, Atoi(f.host) - 1, StrToUL(f.value)))
  }

  /** readin up to the sample it adds to; None where it returns without touching one. */
  function Parse(line: string, start: int): Option<Sample> {
    match Split(line)
    case None => None
    case Some(f) => Interpret(f, start)
  }

  /** Whatever the line, what readin takes from it is not before the start and for a host. */
  lemma ParsedIsInRange(line: string, start: int)
    requires Parse(line, start).Some?
    ensures var s := Parse(line, start).value; s.level < 2 && s.second >= 0 && s.who >= 0
  {
    match Split(line)
    case Some(f) => assert Parse(line, start) == Interpret(f, start);
  }

  predicate WellFormed(r: Record) {
    && r.sec < 0x1_0000_0000 && r.usec < 0x1_0000_0000
    && r.host != "" && ':' !in r.host
    && r.value < 0x1_0000_0000
    && (r.tag.Traffic? ==> r.tag.id < 0x1_0000)
  }

  function WindowFor(t: Tag): int {
    match t
    case Unknown => W_OTHER
    case Cpu => W_CPU
    case Mem => W_MEM
    case Traffic(id) => W_USER + id - 1
  }

  lemma SixDigitsHasNoColon(x: int)
    ensures ':' !in SixDigits(x)
  {
    if x >= 0 { DecDigits(x); } else { DecDigits(-x); }
  }

  lemma StampIsRead(sec: nat, usec: nat)
    requires sec < 0x1_0000_0000
    ensures Atoi(StampText(sec, usec)) == (if sec < 0x8000_0000 then sec else sec - 0x1_0000_0000)
    ensures StampText(sec, usec) != "" && ':' !in StampText(sec, usec)
  {
    var fraction := "." + SixDigits(Int32(usec));
    assert StampText(sec, usec) == Dec(sec) + fraction;
    AtoiDec(sec, fraction);
    DecDigits(sec);
    SixDigitsHasNoColon(Int32(usec));
  }

  lemma TagIsRead(t: Tag)
    requires t.Traffic? ==> t.id < 0x1_0000
    ensures TagText(t) != "" && ':' !in TagText(t) && WindowOf(TagText(t)) == WindowFor(t)
  {
    if t.Traffic? {
      DecDigits(t.id);
      AtoiDec(t.id, "");
      assert Dec(t.id) + "" == Dec(t.id);
    }
  }

  predicate Field(s: string) { s != "" && ':' !in s }

  function FieldsOf(r: Record): Fields {
    Fields(StampText(r.sec, r.usec), r.host, TagText(r.tag), Dec(r.value), if r.primary then "0" else "1")
  }

  lemma ValueIsSplit(stamp: string, host: string, flow: string, value: nat, primary: bool)
    ensures SplitValue(stamp, host, flow, ValueText(value, primary))
              == Some(Fields(stamp, host, flow, Dec(value), if primary then "0" else "1"))
  {
    DecDigits(value);
    StrTokToken(Dec(value), ':', FlagText(primary));
    StrTokToken(if primary then "0" else "1", '\n', "");
  }

  lemma FlowIsSplit(stamp: string, host: string, flow: string, rest: string)
    requires Field(flow)
    ensures SplitFlow(stamp, host, flow + [':'] + rest) == SplitValue(stamp, host, flow, rest)
  {
    StrTokToken(flow, ':', rest);
  }

  lemma HostIsSplit(stamp: string, host: string, rest: string)
    requires Field(host)
    ensures SplitHost(stamp, host + [':'] + rest) == SplitFlow(stamp, host, rest)
  {
    StrTokToken(host, ':', rest);
  }

  lemma StampIsSplit(stamp: string, rest: string)
    requires Field(stamp)
    ensures Split(stamp + [':'] + rest) == SplitHost(stamp, rest)
  {
    StrTokToken(stamp, ':', rest);
  }

  lemma PrintIsSplit(r: Record)
    requires WellFormed(r)
    ensures Split(Print(r)) == Some(FieldsOf(r))
  {
    var stamp := StampText(r.sec, r.usec);
    StampIsRead(r.sec, r.usec);
    TagIsRead(r.tag);
    StampIsSplit(stamp, r.host + [':'] + FlowText(r.tag, r.value, r.primary));
    HostIsSplit(stamp, r.host, FlowText(r.tag, r.value, r.primary));
    FlowIsSplit(stamp, r.host, TagText(r.tag), ValueText(r.value, r.primary));
    ValueIsSplit(stamp, r.host, TagText(r.tag), r.value, r.primary);
  }

  /** What PrintParse recovers. */
  function SampleOf(r: Record, start: nat): Sample {
    Sample(WindowFor(r.tag), if r.primary then 0 else 1, r.sec - start, Atoi(r.host) - 1, r.value)
  }

  predicate Accepted(r: Record, start: nat) {
    start <= r.sec < 0x8000_0000 && Atoi(r.host) > 0
  }

  lemma InterpretFields(f: Fields, start: int, sec: int, host: int, window: int, value: nat, level: nat)
    requires Atoi(f.stamp) == sec && Atoi(f.host) == host && WindowOf(f.flow) == window
    requires StrToUL(f.value) == value && level == (if StartsWith(f.flag, '0') then 0 else 1)
    ensures Interpret(f, start)
              == if start <= sec && host > 0 then Some(Sample(window, level, sec - start, host - 1, value)) else None
  {
  }

  lemma ValueIsRead(value: nat)
    requires value < 0x1_0000_0000
    ensures StrToUL(Dec(value)) == value
  {
    StrToULDec(value, "");
    assert Dec(value) + "" == Dec(value);
  }

  lemma FieldsAreUnderstood(r: Record, start: nat)
    requires WellFormed(r)
    ensures Interpret(FieldsOf(r), start) == if Accepted(r, start) then Some(SampleOf(r, start)) else None
  {
    StampIsRead(r.sec, r.usec);
    TagIsRead(r.tag);
    ValueIsRead(r.value);
    InterpretFields(FieldsOf(r), start, if r.sec < 0x8000_0000 then r.sec else r.sec - 0x1_0000_0000,
                    Atoi(r.host), WindowFor(r.tag), r.value, if r.primary then 0 else 1);
  }

  /** Round trip: whatever record is printed, readin recovers its second, host, window, value and level, as
      long as the time stamp is not before the grapher's start; but from 2^31 seconds on (in 2038) atoi
      turns the time stamp negative and every record is ignored. */
  lemma PrintParse(r: Record, start: nat)
    requires WellFormed(r)
    ensures Parse(Print(r), start) == if Accepted(r, start) then Some(SampleOf(r, start)) else None
  {
    PrintIsSplit(r);
    FieldsAreUnderstood(r, start);
  }

  /** A printed line, character for character. */
  lemma PrintedForm(r: Record, sec: string, usec: string, tag: string, value: string)
    requires Dec(r.sec) == sec && r.usec < 0x8000_0000 && SixDigits(r.usec) == usec && Dec(r.value) == value
    requires match r.tag
             case Unknown => tag == "X"
             case Cpu => tag == "C"
             case Mem => tag == "M"
             case Traffic(id) => tag == Dec(id)
    ensures var flag := if r.primary then "0\n" else "1\n";
            Print(r) == (sec + "." + usec) + ":" + (r.host + ":" + (tag + ":" + (value + ":" + flag)))
  {
    Int32Of(r.usec);
    assert FlagText(r.primary) == if r.primary then "0\n" else "1\n";
    assert StampText(r.sec, r.usec) == sec + "." + usec;
  }

  // ----- any line with five fields -----

  lemma ValueAndFlag(stamp: string, host: string, flow: string, value: string, flag: string)
    requires Field(value) && flag != "" && '\n' !in flag
    ensures SplitValue(stamp, host, flow, value + [':'] + flag) == Some(Fields(stamp, host, flow, value, flag))
    ensures SplitValue(stamp, host, flow, value + [':'] + (flag + "\n")) == Some(Fields(stamp, host, flow, value, flag))
  {
    StrTokToken(value, ':', flag);
    StrTokToken(value, ':', flag + "\n");
    StrTokFinds("", flag, '\n', "");
    assert "" + flag == flag && "" + (flag + ['\n'] + "") == flag + "\n";
  }

  function LineWith(f: Fields, end: string): string {
    f.stamp + [':'] + (f.host + [':'] + (f.flow + [':'] + (f.value + [':'] + (f.flag + end))))
  }

  predicate AreFields(f: Fields) {
    Field(f.stamp) && Field(f.host) && Field(f.flow) && Field(f.value) && f.flag != "" && '\n' !in f.flag
  }

  lemma FieldsAreSplit(f: Fields, end: string)
    requires AreFields(f) && (end == "" || end == "\n")
    ensures Split(LineWith(f, end)) == Some(f)
  {
    StampIsSplit(f.stamp, f.host + [':'] + (f.flow + [':'] + (f.value + [':'] + (f.flag + end))));
    HostIsSplit(f.stamp, f.host, f.flow + [':'] + (f.value + [':'] + (f.flag + end)));
    FlowIsSplit(f.stamp, f.host, f.flow, f.value + [':'] + (f.flag + end));
    ValueAndFlag(f.stamp, f.host, f.flow, f.value, f.flag);
    assert f.flag + "" == f.flag;
  }

  lemma SplitIsParsed(line: string, f: Fields, start: int)
    requires Split(line) == Some(f)
    ensures Parse(line, start) == Interpret(f, start)
  {
  }

  lemma FieldsMean(f: Fields, start: int)
    requires f.flow != "" && f.flag != ""
    ensures Interpret(f, start) ==
              if Atoi(f.stamp) < start || Atoi(f.host) < 1 then None
              else
                var window := if f.flow[0] == 'X' then 4 else if f.flow[0] == 'C' then 1
                              else if f.flow[0] == 'M' then 0 else Atoi(f.flow) + 4;
                var level := if f.flag[0] == '0' then 0 else 1;
                Some(Sample(window, level, Atoi(f.stamp) - start, Atoi(f.host) - 1, StrToUL(f.value)))
  {
  }

  /** What readin makes of any five fields, with or without a newline at the end. */
  lemma FiveFieldsAreRead(f: Fields, start: int, end: string)
    requires AreFields(f) && (end == "" || end == "\n")
    ensures Parse(LineWith(f, end), start) ==
              if Atoi(f.stamp) < start || Atoi(f.host) < 1 then None
              else
                var window := if f.flow[0] == 'X' then 4 else if f.flow[0] == 'C' then 1
                              else if f.flow[0] == 'M' then 0 else Atoi(f.flow) + 4;
                var level := if f.flag[0] == '0' then 0 else 1;
                Some(Sample(window, level, Atoi(f.stamp) - start, Atoi(f.host) - 1, StrToUL(f.value)))
  {
    FieldsAreSplit(f, end);
    SplitIsParsed(LineWith(f, end), f, start);
    FieldsMean(f, start);
  }

  // ----- malformed lines -----

  function Colons(s: string): nat { if s == "" then 0 else Colons(s[1..]) + if s[0] == ':' then 1 else 0 }

  lemma {:induction false} ColonsAfter(s: string, n: nat)
    requires n <= |s|
    ensures Colons(s[n..]) <= Colons(s)
    ensures n < |s| && s[n] == ':' ==> Colons(s[n + 1..]) < Colons(s)
  {
    if n > 0 {
      assert s[1..][n - 1..] == s[n..];
      if n < |s| { assert s[1..][n..] == s[n + 1..]; }
      ColonsAfter(s[1..], n - 1);
    }
  }

  lemma {:induction false} SkippedColons(s: string)
    ensures Colons(SkipChar(s, ':')) <= Colons(s)
  {
    if s != "" && s[0] == ':' { SkippedColons(s[1..]); }
  }

  /** A token uses up a colon, unless it is the last. */
  lemma TokenUsesColon(s: string)
    requires StrTok(s, ':').Some?
    ensures var rest := StrTok(s, ':').value.1; rest == "" || Colons(rest) < Colons(s)
  {
    var t := SkipChar(s, ':');
    SkippedColons(s);
    FindIsFirst(t, ':');
    ColonsAfter(t, Find(t, ':'));
  }

  /** A line with fewer than four colons is ignored. */
  lemma ShortLinesAreIgnored(line: string, start: int)
    requires Colons(line) <= 3
    ensures Parse(line, start) == None
  {
    TooFew(line);
  }

  lemma TooFew(line: string)
    requires Colons(line) <= 3
    ensures Split(line) == None
  {
    match StrTok(line, ':')
    case None =>
    case Some((stamp, s)) =>
      TokenUsesColon(line);
      match StrTok(s, ':')
      case None =>
      case Some((host, t)) =>
        TokenUsesColon(s);
        match StrTok(t, ':')
        case None =>
        case Some((flow, u)) =>
          TokenUsesColon(t);
          match StrTok(u, ':')
          case None =>
          case Some((value, v)) =>
            TokenUsesColon(u);
            assert Colons(v) == 0 || v == "";
  }

  // ----- host names -----

  /** addconn keeps three characters of a host's id (strncpy of NAMELEN, then a zero at NAMELEN - 1). */
  function HostName(id: string): string { if |id| <= 3 then id else id[..3] }

  /** A host number survives the trip through its name exactly when it has at most three digits. */
  lemma HostNumberSurvivesIff(n: nat)
    requires 1 <= n < 0x8000_0000
    ensures Atoi(HostName(Dec(n))) == n <==> n < 1000
  {
    DecLength(n);
    if n < 1000 {
      AtoiDec(n, "");
      assert Dec(n) + "" == Dec(n);
    } else {
      LeadingThree(n);
    }
  }

  lemma {:induction false} LeadingThree(n: nat)
    requires n >= 1000
    ensures |Dec(n)| > 3 && Atoi(Dec(n)[..3]) < 1000
  {
    DecLength(n);
    DecLength(n / 10);
    if n < 10000 {
      assert Dec(n)[..3] == Dec(n / 10);
      AtoiDec(n / 10, "");
      assert Dec(n / 10) + "" == Dec(n / 10);
    } else {
      LeadingThree(n / 10);
      assert Dec(n)[..3] == Dec(n / 10)[..3];
    }
  }

  lemma HostNameIsClean(n: nat)
    ensures HostName(Dec(n)) != "" && ':' !in HostName(Dec(n))
  {
    DecDigits(n);
  }
}
