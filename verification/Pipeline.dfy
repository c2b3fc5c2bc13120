/** From packets to graphs: what the collector prints for a stream of packets, read back and booked by
    the grapher, adds up. */
module Pipeline {
  import opened CText
  import opened Flows
  import opened Records
  import opened Lines
  import opened Samples

  /** A packet and the host name of the connection it came in on. */
  datatype Arrival = Arrival(host: string, packet: Packet)

  /** The lines consume prints for a stream of packets. */
  function Output(flows: seq<Flow>, arrivals: seq<Arrival>): seq<string> {
    if arrivals == [] then []
    else
      var a := arrivals[|arrivals| - 1];
      Output(flows, arrivals[..|arrivals| - 1]) + Printout(RecordsOf(flows, a.host, a.packet))
  }

  function Printout(rs: seq<Record>): seq<string> {
    if rs == [] then [] else Printout(rs[..|rs| - 1]) + [Print(rs[|rs| - 1])]
  }

  // ----- totals -----

  function Sum(s: seq<nat>): nat {
    if s == [] then 0 else Sum(s[..|s| - 1]) + s[|s| - 1]
  }

  /** The level-0 halves of the windows from W_OTHER up to n. */
  ghost function PrimaryTotal(l: Ledger, n: nat, nsys: nat): nat
    requires Shaped(l, nsys) && n <= |l|
  {
    if n <= W_OTHER then 0 else PrimaryTotal(l, n - 1, nsys) + Sum(l[n - 1][..Half(nsys)])
  }

  lemma {:induction false} SumOfBump(row: seq<nat>, half: nat, c: nat, value: nat)
    requires c < |row| && half <= |row|
    ensures Sum(Bump(row, c, value)[..half]) == Sum(row[..half]) + if c < half then value else 0
  {
    var row' := Bump(row, c, value);
    if half > 0 {
      SumOfBump(row, half - 1, c, value);
      assert row[..half][..half - 1] == row[..half - 1];
      assert row'[..half][..half - 1] == row'[..half - 1];
    }
  }

  function PrimaryValue(s: Sample): nat {
    if s.level == 0 && s.window >= W_OTHER then s.value else 0
  }

  lemma {:induction false} BookAddsToTotal(l: Ledger, s: Sample, n: nat, nsys: nat)
    requires Shaped(l, nsys) && Fits(s, |l|, nsys) && n <= |l|
    ensures PrimaryTotal(Book(l, s, nsys), n, nsys)
              == PrimaryTotal(l, n, nsys) + if s.window < n then PrimaryValue(s) else 0
  {
    if n > W_OTHER {
      BookAddsToTotal(l, s, n - 1, nsys);
      CellFits(s, |l|, nsys);
      if s.window == n - 1 {
        SumOfBump(l[n - 1], Half(nsys), CellOf(s, nsys), s.value);
      }
    }
  }

  function PrimaryValues(ss: seq<Sample>): nat {
    if ss == [] then 0 else PrimaryValues(ss[..|ss| - 1]) + PrimaryValue(ss[|ss| - 1])
  }

  lemma {:induction false} BookAllAddsToTotal(l: Ledger, ss: seq<Sample>, nsys: nat)
    requires Shaped(l, nsys) && AllFit(ss, |l|, nsys)
    ensures PrimaryTotal(BookAll(l, ss, nsys), |l|, nsys) == PrimaryTotal(l, |l|, nsys) + PrimaryValues(ss)
  {
    if ss != [] {
      BookAllAddsToTotal(l, ss[..|ss| - 1], nsys);
      BookAddsToTotal(BookAll(l, ss[..|ss| - 1], nsys), ss[|ss| - 1], |l|, nsys);
    }
  }

  lemma {:induction false} PrimaryValuesConcat(ss: seq<Sample>, tt: seq<Sample>)
    ensures PrimaryValues(ss + tt) == PrimaryValues(ss) + PrimaryValues(tt)
  {
    if tt == [] {
      assert ss + tt == ss;
    } else {
      assert (ss + tt)[..|ss + tt| - 1] == ss + tt[..|tt| - 1];
      PrimaryValuesConcat(ss, tt[..|tt| - 1]);
    }
  }

  lemma {:induction false} SamplesOfConcat(xs: seq<string>, ys: seq<string>, start: nat)
    ensures SamplesOf(xs + ys, start) == SamplesOf(xs, start) + SamplesOf(ys, start)
  {
    if ys == [] {
      assert xs + ys == xs;
    } else {
      var n := |ys| - 1;
      assert (xs + ys)[..|xs + ys| - 1] == xs + ys[..n];
      SamplesOfConcat(xs, ys[..n], start);
    }
  }

  // ----- one packet -----

  /** The documented conditions: the time stamp is on the time axis and the host is one of the nsys hosts. */
  ghost predicate GoodArrival(a: Arrival, nsys: nat, start: nat) {
    && OnWire(a.packet)
    && start <= a.packet.sec < start + DEFTLEN && a.packet.sec < 0x8000_0000
    && a.host != "" && ':' !in a.host && 1 <= Atoi(a.host) <= nsys
  }

  /** The conditions on the host hold for the names addconn keeps of numbers up to 999. */
  lemma StoredHostsAreGood(a: Arrival, host: nat, nsys: nat, start: nat)
    requires OnWire(a.packet) && start <= a.packet.sec < start + DEFTLEN && a.packet.sec < 0x8000_0000
    requires 1 <= host <= nsys && host < 1000 && a.host == HostName(Dec(host))
    ensures GoodArrival(a, nsys, start) && Atoi(a.host) == host
  {
    HostNameIsClean(host);
    HostNumberSurvivesIff(host);
  }

  /** The flow table is as loaded, and every traffic id has a window. */
  ghost predicate GoodFlows(flows: seq<Flow>, nwins: nat) {
    && nwins >= W_USER && |flows| <= MAX_FLOWS
    && (forall k :: 0 <= k < |flows| ==> NormalForm(flows[k]) && W_USER + flows[k].id - 1 < nwins)
  }

  ghost predicate GoodRecord(r: Record, nwins: nat, nsys: nat, start: nat) {
    WellFormed(r) && Accepted(r, start) && Fits(SampleOf(r, start), nwins, nsys)
  }

  ghost predicate GoodRecords(rs: seq<Record>, nwins: nat, nsys: nat, start: nat) {
    forall i :: 0 <= i < |rs| ==> GoodRecord(rs[i], nwins, nsys, start)
  }

  lemma RecordsAreGood(flows: seq<Flow>, a: Arrival, nwins: nat, nsys: nat, start: nat)
    requires GoodFlows(flows, nwins) && GoodArrival(a, nsys, start)
    ensures GoodRecords(RecordsOf(flows, a.host, a.packet), nwins, nsys, start)
  {
    var p := a.packet;
    if !IsStatistics(p) && Mask(flows, |flows|, p.dport, p.flowid) != {} {
      PrintedAreFlows(flows, p.dport, p.flowid);
    }
  }

  lemma PrintedAreFlows(flows: seq<Flow>, p: nat, m: nat)
    ensures var ks := Printed(flows, |flows|, p, m); forall i :: 0 <= i < |ks| ==> ks[i] < |flows|
  {
    var ks := Printed(flows, |flows|, p, m);
    forall i | 0 <= i < |ks| ensures ks[i] < |flows| {
      ListedAre(flows, |flows|, p, m, ks[i]);
    }
  }

  /** What a record adds to the primary halves of the traffic windows. */
  function Worth(r: Record): nat {
    if r.primary && WindowFor(r.tag) >= W_OTHER then r.value else 0
  }

  function Worths(rs: seq<Record>): nat {
    if rs == [] then 0 else Worths(rs[..|rs| - 1]) + Worth(rs[|rs| - 1])
  }

  /** What readin makes of printed records: one sample for every record it accepts, in order. */
  function ReadBack(rs: seq<Record>, start: nat): seq<Sample> {
    if rs == [] then []
    else
      var last := rs[|rs| - 1];
      ReadBack(rs[..|rs| - 1], start) + if Accepted(last, start) then [SampleOf(last, start)] else []
  }

  lemma LineIsRead(lines: seq<string>, r: Record, start: nat)
    requires WellFormed(r)
    ensures SamplesOf(lines + [Print(r)], start)
              == SamplesOf(lines, start) + if Accepted(r, start) then [SampleOf(r, start)] else []
  {
    PrintParse(r, start);
    LineIsAdded(lines, Print(r), Parse(Print(r), start), start);
  }

  lemma LineIsAdded(lines: seq<string>, line: string, sample: Option<Sample>, start: nat)
    requires Parse(line, start) == sample
    ensures SamplesOf(lines + [line], start) == SamplesOf(lines, start) + if sample.Some? then [sample.value] else []
  {
    assert (lines + [line])[..|lines|] == lines;
  }

  ghost predicate AllWellFormed(rs: seq<Record>) { forall i :: 0 <= i < |rs| ==> WellFormed(rs[i]) }

  lemma NextIsRead(rs: seq<Record>, start: nat)
    requires rs != [] && WellFormed(rs[|rs| - 1])
    requires SamplesOf(Printout(rs[..|rs| - 1]), start) == ReadBack(rs[..|rs| - 1], start)
    ensures SamplesOf(Printout(rs), start) == ReadBack(rs, start)
  {
    LineIsRead(Printout(rs[..|rs| - 1]), rs[|rs| - 1], start);
  }

  /** All lines printed for well-formed records are read back in order. */
  lemma {:induction false} PrintoutIsRead(rs: seq<Record>, start: nat)
    requires AllWellFormed(rs)
    ensures SamplesOf(Printout(rs), start) == ReadBack(rs, start)
  {
    if rs != [] {
      PrintoutIsRead(rs[..|rs| - 1], start);
      NextIsRead(rs, start);
    }
  }

  lemma {:induction false} GoodRecordsFit(rs: seq<Record>, nwins: nat, nsys: nat, start: nat)
    requires GoodRecords(rs, nwins, nsys, start)
    ensures AllFit(ReadBack(rs, start), nwins, nsys)
    ensures PrimaryValues(ReadBack(rs, start)) == Worths(rs)
  {
    if rs != [] {
      var n := |rs| - 1;
      assert GoodRecords(rs[..n], nwins, nsys, start);
      GoodRecordsFit(rs[..n], nwins, nsys, start);
      var before := ReadBack(rs[..n], start);
      assert (before + [SampleOf(rs[n], start)])[..|before|] == before;
    }
  }

  /** What a packet is due: its length in bits, if it carries no statistics and its counter is 0 or wraps to 0
      before its last record. */
  function Due(flows: seq<Flow>, a: Arrival): nat {
    if IsStatistics(a.packet) then 0
    else if a.packet.encapped == 0 || a.packet.encapped + |RecordsOf(flows, a.host, a.packet)| > 256 then
      8 * a.packet.len
    else 0
  }

  /** No counter wraps unless packets were relayed nearly 256 times: then exactly the packets that carry no
      statistics and were not relayed are due their length. */
  lemma DueWithoutWrap(flows: seq<Flow>, a: Arrival)
    requires OnWire(a.packet) && a.packet.encapped + |flows| <= 256
    ensures Due(flows, a) == if IsStatistics(a.packet) || a.packet.encapped != 0 then 0 else 8 * a.packet.len
  {
    PrintedIsShort(flows, |flows|, a.packet.dport, a.packet.flowid);
  }

  lemma {:induction false} FlowRecordsAddUp(flows: seq<Flow>, ks: seq<nat>, host: string, p: Packet)
    requires forall i :: 0 <= i < |ks| ==> IdAt(flows, ks[i]) >= 1
    requires p.encapped < 256 && |ks| <= MAX_FLOWS
    ensures Worths(FlowRecords(flows, ks, host, p, p.encapped))
              == if ks != [] && (p.encapped == 0 || p.encapped + |ks| > 256) then 8 * p.len else 0
  {
    if ks != [] {
      var n := |ks| - 1;
      FlowRecordsAddUp(flows, ks[..n], host, p);
      var rs := FlowRecords(flows, ks, host, p, p.encapped);
      assert rs[..n] == FlowRecords(flows, ks[..n], host, p, p.encapped);
    }
  }

  lemma PacketAddsUp(flows: seq<Flow>, a: Arrival, nwins: nat)
    requires GoodFlows(flows, nwins) && OnWire(a.packet)
    ensures Worths(RecordsOf(flows, a.host, a.packet)) == Due(flows, a)
  {
    var p := a.packet;
    var rs := RecordsOf(flows, a.host, p);
    if IsStatistics(p) || Mask(flows, |flows|, p.dport, p.flowid) == {} {
      assert rs[..0] == [];
      assert Worths(rs) == Worth(rs[0]);
    } else {
      var ks := Printed(flows, |flows|, p.dport, p.flowid);
      PrintedAreFlows(flows, p.dport, p.flowid);
      PrintedIsShort(flows, |flows|, p.dport, p.flowid);
      SomethingIsPrinted(flows, p.dport, p.flowid);
      FlowRecordsAddUp(flows, ks, a.host, p);
    }
  }

  // ----- the stream -----

  function TotalDue(flows: seq<Flow>, arrivals: seq<Arrival>): nat {
    if arrivals == [] then 0 else TotalDue(flows, arrivals[..|arrivals| - 1]) + Due(flows, arrivals[|arrivals| - 1])
  }

  lemma ArrivalIsRead(flows: seq<Flow>, a: Arrival, nwins: nat, nsys: nat, start: nat)
    requires GoodFlows(flows, nwins) && GoodArrival(a, nsys, start)
    ensures AllFit(SamplesOf(Printout(RecordsOf(flows, a.host, a.packet)), start), nwins, nsys)
    ensures PrimaryValues(SamplesOf(Printout(RecordsOf(flows, a.host, a.packet)), start)) == Due(flows, a)
  {
    RecordsAreGood(flows, a, nwins, nsys, start);
    PrintoutIsRead(RecordsOf(flows, a.host, a.packet), start);
    GoodRecordsFit(RecordsOf(flows, a.host, a.packet), nwins, nsys, start);
    PacketAddsUp(flows, a, nwins);
  }

  lemma LinesAreAdded(xs: seq<string>, ys: seq<string>, nwins: nat, nsys: nat, start: nat)
    requires AllFit(SamplesOf(xs, start), nwins, nsys) && AllFit(SamplesOf(ys, start), nwins, nsys)
    ensures AllFit(SamplesOf(xs + ys, start), nwins, nsys)
    ensures PrimaryValues(SamplesOf(xs + ys, start))
              == PrimaryValues(SamplesOf(xs, start)) + PrimaryValues(SamplesOf(ys, start))
  {
    SamplesOfConcat(xs, ys, start);
    PrimaryValuesConcat(SamplesOf(xs, start), SamplesOf(ys, start));
  }

  ghost predicate AllGood(arrivals: seq<Arrival>, nsys: nat, start: nat) {
    forall i :: 0 <= i < |arrivals| ==> GoodArrival(arrivals[i], nsys, start)
  }

  lemma StreamStep(flows: seq<Flow>, lines: seq<string>, a: Arrival, nwins: nat, nsys: nat, start: nat)
    requires GoodFlows(flows, nwins) && GoodArrival(a, nsys, start)
    requires AllFit(SamplesOf(lines, start), nwins, nsys)
    ensures var more := lines + Printout(RecordsOf(flows, a.host, a.packet));
            && AllFit(SamplesOf(more, start), nwins, nsys)
            && PrimaryValues(SamplesOf(more, start)) == PrimaryValues(SamplesOf(lines, start)) + Due(flows, a)
  {
    ArrivalIsRead(flows, a, nwins, nsys, start);
    LinesAreAdded(lines, Printout(RecordsOf(flows, a.host, a.packet)), nwins, nsys, start);
  }

  lemma {:induction false} StreamAddsUp(flows: seq<Flow>, arrivals: seq<Arrival>, nwins: nat, nsys: nat, start: nat)
    requires GoodFlows(flows, nwins) && AllGood(arrivals, nsys, start)
    ensures AllFit(SamplesOf(Output(flows, arrivals), start), nwins, nsys)
    ensures PrimaryValues(SamplesOf(Output(flows, arrivals), start)) == TotalDue(flows, arrivals)
  {
    if arrivals != [] {
      var before := arrivals[..|arrivals| - 1];
      StreamAddsUp(flows, before, nwins, nsys, start);
      StreamStep(flows, Output(flows, before), arrivals[|arrivals| - 1], nwins, nsys, start);
    }
  }

  /** Conservation, end to end: whatever packets arrive, printing, parsing and booking them adds exactly
      what they are due to the primary halves of the traffic windows, however many flows each packet
      matches. */
  lemma Conservation(flows: seq<Flow>, arrivals: seq<Arrival>, l: Ledger, nsys: nat, start: nat)
    requires Shaped(l, nsys) && GoodFlows(flows, |l|)
    requires AllGood(arrivals, nsys, start)
    ensures var ss := SamplesOf(Output(flows, arrivals), start);
            && AllFit(ss, |l|, nsys)
            && PrimaryTotal(BookAll(l, ss, nsys), |l|, nsys) == PrimaryTotal(l, |l|, nsys) + TotalDue(flows, arrivals)
  {
    StreamAddsUp(flows, arrivals, |l|, nsys, start);
    BookAllAddsToTotal(l, SamplesOf(Output(flows, arrivals), start), nsys);
  }

  // ----- the stream, cell by cell -----

  /** The values of the records with one window and level. */
  function LevelTotal(rs: seq<Record>, window: nat, level: nat): nat {
    if rs == [] then 0
    else
      var r := rs[|rs| - 1];
      LevelTotal(rs[..|rs| - 1], window, level)
      + if WindowFor(r.tag) == window && r.primary == (level == 0) then r.value else 0
  }

  /** A packet of that host and second, which readin does not ignore. */
  predicate From(a: Arrival, start: nat, second: nat, who: nat) {
    start + second == a.packet.sec < 0x8000_0000 && Atoi(a.host) == who + 1
  }

  /** What the packets of one host and second print for one window and level. */
  function CellDue(flows: seq<Flow>, arrivals: seq<Arrival>, start: nat,
                   window: nat, level: nat, second: nat, who: nat): nat
  {
    if arrivals == [] then 0
    else
      CellDue(flows, arrivals[..|arrivals| - 1], start, window, level, second, who)
      + ArrivalDue(flows, arrivals[|arrivals| - 1], start, window, level, second, who)
  }

  function ArrivalDue(flows: seq<Flow>, a: Arrival, start: nat, window: nat, level: nat, second: nat, who: nat): nat {
    if From(a, start, second, who) then LevelTotal(RecordsOf(flows, a.host, a.packet), window, level) else 0
  }

  /** All records are of one second and one host. */
  predicate SameSource(rs: seq<Record>, a: Arrival) {
    forall i :: 0 <= i < |rs| ==> rs[i].sec == a.packet.sec && rs[i].host == a.host
  }

  lemma {:induction false} ReadBackTotal(rs: seq<Record>, a: Arrival, start: nat,
                                         window: nat, level: nat, second: nat, who: nat)
    requires SameSource(rs, a) && level < 2
    ensures TotalFor(ReadBack(rs, start), window, level, second, who)
              == if From(a, start, second, who) then LevelTotal(rs, window, level) else 0
  {
    if rs != [] {
      var n := |rs| - 1;
      ReadBackTotal(rs[..n], a, start, window, level, second, who);
      var before := ReadBack(rs[..n], start);
      if Accepted(rs[n], start) {
        assert (before + [SampleOf(rs[n], start)])[..|before|] == before;
      } else {
        assert ReadBack(rs, start) == before;
      }
    }
  }

  lemma {:induction false} TotalForConcat(ss: seq<Sample>, tt: seq<Sample>,
                                          window: nat, level: nat, second: nat, who: nat)
    ensures TotalFor(ss + tt, window, level, second, who)
              == TotalFor(ss, window, level, second, who) + TotalFor(tt, window, level, second, who)
  {
    if tt == [] {
      assert ss + tt == ss;
    } else {
      assert (ss + tt)[..|ss + tt| - 1] == ss + tt[..|tt| - 1];
      TotalForConcat(ss, tt[..|tt| - 1], window, level, second, who);
    }
  }

  lemma RecordsHaveOneSource(flows: seq<Flow>, a: Arrival)
    requires OnWire(a.packet) && a.host != "" && ':' !in a.host
    requires forall k :: 0 <= k < |flows| ==> NormalForm(flows[k])
    ensures SameSource(RecordsOf(flows, a.host, a.packet), a)
    ensures AllWellFormed(RecordsOf(flows, a.host, a.packet))
  {
  }

  ghost predicate Named(a: Arrival) { OnWire(a.packet) && a.host != "" && ':' !in a.host }

  ghost predicate AllNamed(arrivals: seq<Arrival>) { forall i :: 0 <= i < |arrivals| ==> Named(arrivals[i]) }

  lemma ArrivalAddsUp(flows: seq<Flow>, a: Arrival, start: nat, window: nat, level: nat, second: nat, who: nat)
    requires (forall k :: 0 <= k < |flows| ==> NormalForm(flows[k])) && Named(a) && level < 2
    ensures TotalFor(SamplesOf(Printout(RecordsOf(flows, a.host, a.packet)), start), window, level, second, who)
              == ArrivalDue(flows, a, start, window, level, second, who)
  {
    var rs := RecordsOf(flows, a.host, a.packet);
    RecordsHaveOneSource(flows, a);
    PrintoutIsRead(rs, start);
    ReadBackTotal(rs, a, start, window, level, second, who);
  }

  lemma LinesAddUp(xs: seq<string>, ys: seq<string>, start: nat, window: nat, level: nat, second: nat, who: nat)
    ensures TotalFor(SamplesOf(xs + ys, start), window, level, second, who)
              == TotalFor(SamplesOf(xs, start), window, level, second, who)
                 + TotalFor(SamplesOf(ys, start), window, level, second, who)
  {
    SamplesOfConcat(xs, ys, start);
    TotalForConcat(SamplesOf(xs, start), SamplesOf(ys, start), window, level, second, who);
  }

  /** Printing and parsing any packets of well-named hosts, cell by cell: the samples with a key total what the
      packets of that host and second print under that flow and level. */
  lemma {:induction false} SamplesAddUp(flows: seq<Flow>, arrivals: seq<Arrival>, start: nat,
                                        window: nat, level: nat, second: nat, who: nat)
    requires forall k :: 0 <= k < |flows| ==> NormalForm(flows[k])
    requires AllNamed(arrivals) && level < 2
    ensures TotalFor(SamplesOf(Output(flows, arrivals), start), window, level, second, who)
              == CellDue(flows, arrivals, start, window, level, second, who)
  {
    if arrivals != [] {
      var front, a := arrivals[..|arrivals| - 1], arrivals[|arrivals| - 1];
      SamplesAddUp(flows, front, start, window, level, second, who);
      ArrivalAddsUp(flows, a, start, window, level, second, who);
      LinesAddUp(Output(flows, front), Printout(RecordsOf(flows, a.host, a.packet)), start, window, level, second, who);
    }
  }

  /** From packets to cells: whatever packets arrive, the cell of a window, level, second and host holds exactly
      what the packets of that host and second were printed as under that flow and level. */
  lemma CellsAddUp(flows: seq<Flow>, arrivals: seq<Arrival>, nwins: nat, nsys: nat, start: nat,
                   window: nat, level: nat, second: nat, who: nat)
    requires GoodFlows(flows, nwins)
    requires AllGood(arrivals, nsys, start)
    requires window < nwins && level < 2 && second < DEFTLEN && who < nsys
    ensures var ss := SamplesOf(Output(flows, arrivals), start);
            && AllFit(ss, nwins, nsys) && Cell(level, second, who, nsys) < 2 * Half(nsys)
            && BookAll(Blank(nwins, nsys), ss, nsys)[window][Cell(level, second, who, nsys)]
                 == CellDue(flows, arrivals, start, window, level, second, who)
  {
    StreamAddsUp(flows, arrivals, nwins, nsys, start);
    SamplesAddUp(flows, arrivals, start, window, level, second, who);
    CellIsTotal(SamplesOf(Output(flows, arrivals), start), nwins, nsys, window, level, second, who);
  }

  lemma {:induction false} CellAtMostSum(s: seq<nat>, c: nat)
    requires c < |s|
    ensures s[c] <= Sum(s)
  {
    if c < |s| - 1 { CellAtMostSum(s[..|s| - 1], c); }
  }

  /** As long as the total stays below 2^64 bits, no primary cell of a traffic window wraps around, so what
      the arrays hold is what was booked. */
  lemma {:induction false} NoCellWraps(l: Ledger, n: nat, nsys: nat, window: nat, c: nat)
    requires Shaped(l, nsys) && W_OTHER <= window < n <= |l| && c < Half(nsys)
    requires PrimaryTotal(l, n, nsys) < 0x1_0000_0000_0000_0000
    ensures l[window][c] % ULONG == l[window][c]
  {
    if window == n - 1 {
      CellAtMostSum(l[window][..Half(nsys)], c);
    } else {
      NoCellWraps(l, n - 1, nsys, window, c);
    }
  }
}
