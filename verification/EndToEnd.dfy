/** From a configuration file and packets to cells, without any of the functions in between: which samples each
    packet becomes, and what every cell of the grapher holds. */
module EndToEnd {
  import opened CText
  import opened Flows
  import opened FlowFile
  import opened Records
  import opened Lines
  import opened Samples
  import opened Pipeline

  /** The configured flow lines that have a packet's port or MGEN id, in order. */
  function Matching(entries: seq<Entry>, port: nat, mgen: nat): seq<Entry> {
    if entries == [] then []
    else
      var last := entries[|entries| - 1];
      Matching(entries[..|entries| - 1], port, mgen)
      + if last.lo <= (if last.mgen then mgen else port) <= last.hi then [last] else []
  }

  predicate CpuReport(p: Packet) { p.sport == p.dport == p.saddr == p.daddr == 1 && p.flowid == 0xFFFF_FFFF }

  predicate MemoryReport(p: Packet) { p.sport == p.dport == p.saddr == p.daddr == 2 && p.flowid == 0xFFFF_FFFE }

  /** The samples of one packet, in the numbers of the grapher: memory is window 0, processors 1, unknown traffic 4,
      the traffic of id n window 4 + n, and level 0 is primary.  A packet that was not relayed is primary under its
      first flow; the relay counter has 8 bits. */
  function SamplesFor(entries: seq<Entry>, p: Packet, second: nat, who: nat): seq<Sample> {
    if CpuReport(p) then [Sample(1, 0, second, who, p.len)]
    else if MemoryReport(p) then
      [Sample(0, 0, second, who, (p.len * 0x4_0000) % 0x1_0000_0000)]
    else
      var m := Matching(entries, p.dport, p.flowid);
      if m == [] then [Sample(4, if p.encapped == 0 then 0 else 1, second, who, 8 * p.len)]
      else seq(|m|, i requires 0 <= i < |m| =>
             Sample(4 + m[i].id, if p.encapped + i == 0 || p.encapped + i == 256 then 0 else 1, second, who, 8 * p.len))
  }

  predicate Configured(entries: seq<Entry>) {
    |entries| <= 32 && forall k :: 0 <= k < |entries| ==> InRange(entries[k])
  }

  // ----- one packet -----

  /** The flows hit are those of the matching lines. */
  lemma {:induction false} HitsMatch(entries: seq<Entry>, n: nat, p: nat, m: nat)
    requires n <= |entries| && p < 0x1_0000 && m < 0x1_0000_0000
    requires forall k :: 0 <= k < |entries| ==> InRange(entries[k])
    ensures var hits, ms := HitList(DenotedAll(entries), n, p, m), Matching(entries[..n], p, m);
            |hits| == |ms| && forall i :: 0 <= i < |hits| ==> hits[i] < n && entries[hits[i]] == ms[i]
  {
    if n > 0 {
      HitsMatch(entries, n - 1, p, m);
      HitMeansConfiguredRange(entries[n - 1], p, m);
      assert entries[..n][..n - 1] == entries[..n - 1];
    }
  }

  lemma {:induction false} AllAreRead(rs: seq<Record>, start: nat)
    requires forall i :: 0 <= i < |rs| ==> Accepted(rs[i], start)
    ensures |ReadBack(rs, start)| == |rs|
    ensures forall i :: 0 <= i < |rs| ==> ReadBack(rs, start)[i] == SampleOf(rs[i], start)
  {
    if rs != [] { AllAreRead(rs[..|rs| - 1], start); }
  }

  lemma DenotedAreNormal(entries: seq<Entry>)
    requires Configured(entries)
    ensures forall k :: 0 <= k < |entries| ==> NormalForm(DenotedAll(entries)[k])
  {
  }

  /** The records of a packet that carries no statistics. */
  lemma TrafficIsRecorded(entries: seq<Entry>, host: string, p: Packet)
    requires Configured(entries) && OnWire(p) && !IsStatistics(p)
    ensures var rs, m := RecordsOf(DenotedAll(entries), host, p), Matching(entries, p.dport, p.flowid);
            && (m == [] ==> |rs| == 1 && rs[0].tag == Unknown)
            && (m != [] ==> |rs| == |m| && forall i :: 0 <= i < |m| ==> rs[i].tag == Traffic(m[i].id))
  {
    HitsMatch(entries, |entries|, p.dport, p.flowid);
    assert entries[..|entries|] == entries;
    RecordsFollowHits(DenotedAll(entries), host, p);
  }

  /** The time stamp and the host of an arrival are accepted. */
  predicate Heeded(a: Arrival, start: nat, second: nat, who: nat) {
    a.packet.sec == start + second < 0x8000_0000 && a.host != "" && ':' !in a.host && Atoi(a.host) == who + 1
  }

  lemma OneRecordIsRead(rs: seq<Record>, r: Record, start: nat, s: Sample)
    requires rs == [r] && WellFormed(r) && Accepted(r, start) && s == SampleOf(r, start)
    ensures SamplesOf(Printout(rs), start) == [s]
  {
    assert rs[..0] == [];
    PrintoutIsRead(rs, start);
  }

  /** A CPU report becomes one primary sample of window 1, whatever flows there are ... */
  lemma CpuReportBecomesSample(flows: seq<Flow>, a: Arrival, start: nat, second: nat, who: nat)
    requires OnWire(a.packet) && Heeded(a, start, second, who) && CpuReport(a.packet)
    ensures SamplesOf(Printout(RecordsOf(flows, a.host, a.packet)), start) == [Sample(1, 0, second, who, a.packet.len)]
  {
    var p := a.packet;
    CpuReportIff(flows, a.host, p);
    OneRecordIsRead(RecordsOf(flows, a.host, p), Record(p.sec, p.usec, a.host, Cpu, p.len, true), start,
                    Sample(1, 0, second, who, p.len));
  }

  /** ... and a memory report one of window 0. */
  lemma MemoryReportBecomesSample(flows: seq<Flow>, a: Arrival, start: nat, second: nat, who: nat)
    requires OnWire(a.packet) && Heeded(a, start, second, who) && MemoryReport(a.packet)
    ensures SamplesOf(Printout(RecordsOf(flows, a.host, a.packet)), start)
              == [Sample(0, 0, second, who, (a.packet.len * 0x4_0000) % 0x1_0000_0000)]
  {
    var p, value := a.packet, (a.packet.len * 0x4_0000) % 0x1_0000_0000;
    MemoryReportIff(flows, a.host, p);
    OneRecordIsRead(RecordsOf(flows, a.host, p), Record(p.sec, p.usec, a.host, Mem, value, true), start,
                    Sample(0, 0, second, who, value));
  }

  lemma RecordsBecomeSamples(entries: seq<Entry>, a: Arrival, start: nat, second: nat, who: nat)
    requires Configured(entries) && OnWire(a.packet) && Heeded(a, start, second, who) && !CpuReport(a.packet)
    requires !MemoryReport(a.packet)
    ensures var rs, ss := RecordsOf(DenotedAll(entries), a.host, a.packet), SamplesFor(entries, a.packet, second, who);
            |rs| == |ss| && forall i :: 0 <= i < |rs| ==> Accepted(rs[i], start) && SampleOf(rs[i], start) == ss[i]
  {
    TrafficIsRecorded(entries, a.host, a.packet);
    OnePrimaryRecord(DenotedAll(entries), a.host, a.packet);
  }

  /** Classified, printed and parsed, a packet becomes exactly these samples. */
  lemma PacketBecomesSamples(entries: seq<Entry>, a: Arrival, start: nat, second: nat, who: nat)
    requires Configured(entries) && OnWire(a.packet) && Heeded(a, start, second, who)
    ensures SamplesOf(Printout(RecordsOf(DenotedAll(entries), a.host, a.packet)), start)
              == SamplesFor(entries, a.packet, second, who)
  {
    var rs := RecordsOf(DenotedAll(entries), a.host, a.packet);
    DenotedAreNormal(entries);
    if CpuReport(a.packet) {
      CpuReportBecomesSample(DenotedAll(entries), a, start, second, who);
    } else if MemoryReport(a.packet) {
      MemoryReportBecomesSample(DenotedAll(entries), a, start, second, who);
    } else {
      RecordsHaveOneSource(DenotedAll(entries), a);
      PrintoutIsRead(rs, start);
      RecordsBecomeSamples(entries, a, start, second, who);
      AllAreRead(rs, start);
    }
  }

  // ----- a stream of packets -----

  /** A packet of host `who`, counted from 0, sent `second` seconds after the start of the grapher. */
  datatype Booking = Booking(arrival: Arrival, second: nat, who: nat)

  function ArrivalsOf(bs: seq<Booking>): (arrivals: seq<Arrival>)
    ensures |arrivals| == |bs|
  {
    if bs == [] then [] else ArrivalsOf(bs[..|bs| - 1]) + [bs[|bs| - 1].arrival]
  }

  /** The samples of all packets, one after the other. */
  function AllSamples(entries: seq<Entry>, bs: seq<Booking>): seq<Sample> {
    if bs == [] then []
    else
      var last := bs[|bs| - 1];
      AllSamples(entries, bs[..|bs| - 1]) + SamplesFor(entries, last.arrival.packet, last.second, last.who)
  }

  ghost predicate AllHeeded(bs: seq<Booking>, start: nat) {
    forall k :: 0 <= k < |bs| ==>
      OnWire(bs[k].arrival.packet) && Heeded(bs[k].arrival, start, bs[k].second, bs[k].who)
  }

  lemma {:induction false} StreamBecomesSamples(entries: seq<Entry>, bs: seq<Booking>, start: nat)
    requires Configured(entries) && AllHeeded(bs, start)
    ensures SamplesOf(Output(DenotedAll(entries), ArrivalsOf(bs)), start) == AllSamples(entries, bs)
  {
    if bs != [] {
      var flows, before, last := DenotedAll(entries), bs[..|bs| - 1], bs[|bs| - 1];
      StreamBecomesSamples(entries, before, start);
      PacketBecomesSamples(entries, last.arrival, start, last.second, last.who);
      SamplesOfConcat(Output(flows, ArrivalsOf(before)),
                      Printout(RecordsOf(flows, last.arrival.host, last.arrival.packet)), start);
      assert ArrivalsOf(bs)[..|bs| - 1] == ArrivalsOf(before);
    }
  }

  /** Every packet is from a host of the grapher and on the time axis, and every id has a window. */
  ghost predicate AllInWindow(entries: seq<Entry>, bs: seq<Booking>, nwins: nat, nsys: nat) {
    && nwins >= 5 && (forall k :: 0 <= k < |entries| ==> 4 + entries[k].id < nwins)
    && (forall k :: 0 <= k < |bs| ==> bs[k].second < 1860 && bs[k].who < nsys)
  }

  lemma {:induction false} MatchingAreEntries(entries: seq<Entry>, p: nat, m: nat)
    ensures forall i :: 0 <= i < |Matching(entries, p, m)| ==> Matching(entries, p, m)[i] in entries
  {
    if entries != [] { MatchingAreEntries(entries[..|entries| - 1], p, m); }
  }

  lemma SamplesForFit(entries: seq<Entry>, p: Packet, second: nat, who: nat, nwins: nat, nsys: nat)
    requires nwins >= 5 && (forall k :: 0 <= k < |entries| ==> 4 + entries[k].id < nwins)
    requires second < 1860 && who < nsys
    ensures AllFit(SamplesFor(entries, p, second, who), nwins, nsys)
  {
    MatchingAreEntries(entries, p.dport, p.flowid);
    var ss := SamplesFor(entries, p, second, who);
    forall i | 0 <= i < |ss| ensures Fits(ss[i], nwins, nsys) {
      FitsIfInRange(ss[i], nwins, nsys);
    }
  }

  lemma {:induction false} AllSamplesFit(entries: seq<Entry>, bs: seq<Booking>, nwins: nat, nsys: nat)
    requires AllInWindow(entries, bs, nwins, nsys)
    ensures AllFit(AllSamples(entries, bs), nwins, nsys)
  {
    if bs != [] {
      var last := bs[|bs| - 1];
      AllSamplesFit(entries, bs[..|bs| - 1], nwins, nsys);
      SamplesForFit(entries, last.arrival.packet, last.second, last.who, nwins, nsys);
    }
  }

  /** From the text of a configuration file and any packets to the cells: with at most 32 documented flow lines, the
      cell of a window, level, second and host holds the total of the samples with that key. */
  lemma CellsHoldConfiguredTraffic(file: seq<FileLine>, bs: seq<Booking>, start: nat, nwins: nat, nsys: nat,
                                   window: nat, level: nat, second: nat, who: nat)
    requires AllDocumented(file) && OverflowsAreHarmless(file) && |EntriesOf(file)| <= 32
    requires AllHeeded(bs, start) && AllInWindow(EntriesOf(file), bs, nwins, nsys)
    requires window < nwins && level < 2 && second < 1860 && who < nsys
    ensures var entries, flows := EntriesOf(file), FlowsOf(Pieces(TextOf(file)));
            var lines := Output(flows, ArrivalsOf(bs));
            && AllFit(SamplesOf(lines, start), nwins, nsys) && Cell(level, second, who, nsys) < 2 * Half(nsys)
            && BookAll(Blank(nwins, nsys), SamplesOf(lines, start), nsys)[window][Cell(level, second, who, nsys)]
                 == TotalFor(AllSamples(entries, bs), window, level, second, who)
  {
    var entries := EntriesOf(file);
    EntriesAreInRange(file);
    FileIsRead(file);
    StreamBecomesSamples(entries, bs, start);
    AllSamplesFit(entries, bs, nwins, nsys);
    CellIsTotal(AllSamples(entries, bs), nwins, nsys, window, level, second, who);
  }
}
