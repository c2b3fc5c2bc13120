/** What `consume` prints for a packet: one statistics record, one record for unknown traffic, or one
    record per matched flow, of which only the first may be primary. */
module Records {
  import opened CText
  import opened Flows

  const FLOWID_CPU: nat := 0xFFFF_FFFF
  const FLOWID_MEM: nat := 0xFFFF_FFFE

  /** A record from the wire, in host byte order. */
  datatype Packet = Packet(sec: nat, usec: nat, saddr: nat, daddr: nat, sport: nat, dport: nat,
                           len: nat, flowid: nat, encapped: nat)

  ghost predicate OnWire(p: Packet) {
    && p.sec < 0x1_0000_0000 && p.usec < 0x1_0000_0000 && p.saddr < 0x1_0000_0000 && p.daddr < 0x1_0000_0000
    && p.sport < 0x1_0000 && p.dport < 0x1_0000 && p.len < 0x1_0000 && p.flowid < 0x1_0000_0000
    && p.encapped < 0x100
  }

  datatype Tag = Unknown | Cpu | Mem | Traffic(id: nat)

  datatype Record = Record(sec: nat, usec: nat, host: string, tag: Tag, value: nat, primary: bool)

  predicate IsCpu(p: Packet) {
    p.dport == 1 && p.sport == 1 && p.saddr == 1 && p.daddr == 1 && p.flowid == FLOWID_CPU
  }

  predicate IsMem(p: Packet) {
    p.dport == 2 && p.sport == 2 && p.saddr == 2 && p.daddr == 2 && p.flowid == FLOWID_MEM
  }

  predicate IsStatistics(p: Packet) { IsCpu(p) || IsMem(p) }

  /** The number of bytes printed for a memory report, computed in 32 bits. */
  function MemValue(len: nat): nat { (len * 256 * 1024) % 0x1_0000_0000 }

  function IdAt(flows: seq<Flow>, k: nat): nat { if k < |flows| then flows[k].id else 0 }

  /** The records for the flows ks, the first of which sees the counter at e; the counter is 8 bits wide. */
  function FlowRecords(flows: seq<Flow>, ks: seq<nat>, host: string, p: Packet, e: nat): seq<Record> {
    seq(|ks|, i requires 0 <= i < |ks| =>
      Record(p.sec, p.usec, host, Traffic(IdAt(flows, ks[i])), p.len * 8, (e + i) % 256 == 0))
  }

  function RecordsOf(flows: seq<Flow>, host: string, p: Packet): seq<Record> {
    if IsCpu(p) then [Record(p.sec, p.usec, host, Cpu, p.len, true)]
    else if IsMem(p) then [Record(p.sec, p.usec, host, Mem, MemValue(p.len), true)]
    else if Mask(flows, |flows|, p.dport, p.flowid) == {} then
      [Record(p.sec, p.usec, host, Unknown, p.len * 8, p.encapped == 0)]
    else
      FlowRecords(flows, Printed(flows, |flows|, p.dport, p.flowid), host, p, p.encapped)
  }

  lemma FlowRecordsGrow(flows: seq<Flow>, ks: seq<nat>, k: nat, host: string, p: Packet, e: nat)
    ensures FlowRecords(flows, ks + [k], host, p, e) == FlowRecords(flows, ks, host, p, e)
              + [Record(p.sec, p.usec, host, Traffic(IdAt(flows, k)), p.len * 8, (e + |ks|) % 256 == 0)]
  {
  }

  lemma CounterSteps(e: nat)
    ensures (e % 256 + 1) % 256 == (e + 1) % 256
  {
  }

  /** consume's loop over the mask; encapped is a uint8_t. */
  method PrintMatches(flows: seq<Flow>, ffr: Word64, host: string, p: Packet) returns (out: seq<Record>)
    requires ffr == Mask(flows, |flows|, p.dport, p.flowid) && p.encapped < 256
    ensures out == FlowRecords(flows, Printed(flows, |flows|, p.dport, p.flowid), host, p, p.encapped)
  {
    var encapped := p.encapped;
    out := [];
    for k := 0 to |flows|
      invariant out == FlowRecords(flows, Printed(flows, k, p.dport, p.flowid), host, p, p.encapped)
      invariant encapped == (p.encapped + |Printed(flows, k, p.dport, p.flowid)|) % 256
    {
      if Selected(ffr, k) {
        ghost var ks := Printed(flows, k, p.dport, p.flowid);
        FlowRecordsGrow(flows, ks, k, host, p, p.encapped);
        CounterSteps(p.encapped + |ks|);
        out := out + [Record(p.sec, p.usec, host, Traffic(flows[k].id), p.len * 8, encapped == 0)];
        encapped := (encapped + 1) % 256;
      }
    }
  }

  /** The size of a record on the wire. */
  const WIRELEN: nat := 28

  /** A signed result compared with a size_t is converted to one. */
  function AsSize(n: int): nat { n % 0x1_0000_0000_0000_0000 }

  /** What recv returned passes consume's test. */
  predicate TakenAsWhole(n: int) { AsSize(n) >= WIRELEN }

  /** The test finds every short record and the end of the stream, but takes a failed recv for a whole record:
      what is printed then is whatever the buffer held before. */
  lemma TakenAsWholeIff(n: int)
    requires -1 <= n <= 28
    ensures TakenAsWhole(n) <==> n == 28 || n == -1
  {
  }

  /** consume with the result n of recv and the contents p of its buffer: the records it prints, or None for
      a connection to be replaced. */
  method Consume(table: FlowTable, host: string, n: int, p: Packet) returns (printed: Option<seq<Record>>)
    requires OnWire(p) && -1 <= n <= WIRELEN
    ensures printed == if TakenAsWhole(n) then Some(RecordsOf(table.flows, host, p)) else None
  {
    if AsSize(n) < WIRELEN {
      return None;
    }
    var out: seq<Record>;
    if IsCpu(p) {
      out := [Record(p.sec, p.usec, host, Cpu, p.len, true)];
    } else if IsMem(p) {
      out := [Record(p.sec, p.usec, host, Mem, MemValue(p.len), true)];
    } else {
      var ffr := table.FindFlow(p.dport, p.flowid);
      if ffr == {} {
        out := [Record(p.sec, p.usec, host, Unknown, p.len * 8, p.encapped == 0)];
      } else {
        out := PrintMatches(table.flows, ffr, host, p);
      }
    }
    printed := Some(out);
  }

  /** A packet is printed as a CPU report exactly if it is one: ports and addresses 1 and the flow id reserved for
      it. */
  lemma CpuReportIff(flows: seq<Flow>, host: string, p: Packet)
    requires OnWire(p)
    ensures RecordsOf(flows, host, p) == [Record(p.sec, p.usec, host, Cpu, p.len, true)] <==>
              p.dport == 1 && p.sport == 1 && p.saddr == 1 && p.daddr == 1 && p.flowid == 0xFFFF_FFFF
  {
    if !IsStatistics(p) { TrafficTags(flows, host, p); }
  }

  /** And as a memory report exactly if it has ports and addresses 2 and the other reserved flow id; its value is
      in units of 256 kB, as far as 32 bits go. */
  lemma MemoryReportIff(flows: seq<Flow>, host: string, p: Packet)
    requires OnWire(p)
    ensures RecordsOf(flows, host, p)
              == [Record(p.sec, p.usec, host, Mem, (p.len * 0x4_0000) % 0x1_0000_0000, true)] <==>
              p.dport == 2 && p.sport == 2 && p.saddr == 2 && p.daddr == 2 && p.flowid == 0xFFFF_FFFE
  {
    assert MemValue(p.len) == (p.len * 0x4_0000) % 0x1_0000_0000;
    if !IsStatistics(p) { TrafficTags(flows, host, p); }
  }

  lemma TrafficTags(flows: seq<Flow>, host: string, p: Packet)
    requires !IsStatistics(p)
    ensures var rs := RecordsOf(flows, host, p); rs != [] ==> rs[0].tag != Cpu && rs[0].tag != Mem
  {
  }

  function CountPrimary(rs: seq<Record>): nat {
    if rs == [] then 0
    else CountPrimary(rs[..|rs| - 1]) + if rs[|rs| - 1].primary then 1 else 0
  }

  lemma OneMorePrimary(flows: seq<Flow>, ks: seq<nat>, k: nat, host: string, p: Packet, e: nat)
    ensures CountPrimary(FlowRecords(flows, ks + [k], host, p, e))
              == CountPrimary(FlowRecords(flows, ks, host, p, e)) + if (e + |ks|) % 256 == 0 then 1 else 0
  {
    FlowRecordsGrow(flows, ks, k, host, p, e);
    var rs := FlowRecords(flows, ks + [k], host, p, e);
    assert rs[..|rs| - 1] == FlowRecords(flows, ks, host, p, e);
  }

  lemma {:induction false} FlowRecordsPrimaries(flows: seq<Flow>, ks: seq<nat>, host: string, p: Packet, e: nat)
    requires e < 256 && |ks| <= MAX_FLOWS
    ensures CountPrimary(FlowRecords(flows, ks, host, p, e))
              == if ks != [] && (e == 0 || 256 - e < |ks|) then 1 else 0
  {
    if ks != [] {
      var n := |ks| - 1;
      FlowRecordsPrimaries(flows, ks[..n], host, p, e);
      OneMorePrimary(flows, ks[..n], ks[n], host, p, e);
      assert ks[..n] + [ks[n]] == ks;
    }
  }

  /** Each packet that carries no statistics and has counter 0 yields exactly one primary record, its first;
      with a counter e > 0 it yields none, unless the counter wraps within the packet. */
  lemma OnePrimaryRecord(flows: seq<Flow>, host: string, p: Packet)
    requires OnWire(p) && !IsStatistics(p) && |flows| <= MAX_FLOWS
    ensures var rs := RecordsOf(flows, host, p);
            && rs != []
            && (forall i :: 0 <= i < |rs| ==>
                  && rs[i].sec == p.sec && rs[i].usec == p.usec && rs[i].host == host && rs[i].value == 8 * p.len
                  && (rs[i].primary <==> p.encapped + i == 0 || p.encapped + i == 256))
            && (p.encapped == 0 ==> rs[0].primary && CountPrimary(rs) == 1)
            && (p.encapped > 0 ==>
                  CountPrimary(rs) == if p.encapped + |rs| > 256 then 1 else 0)
  {
    var rs := RecordsOf(flows, host, p);
    if Mask(flows, |flows|, p.dport, p.flowid) == {} {
      assert rs[..0] == [];
    } else {
      var ks := Printed(flows, |flows|, p.dport, p.flowid);
      PrintedIsShort(flows, |flows|, p.dport, p.flowid);
      SomethingIsPrinted(flows, p.dport, p.flowid);
      FlowRecordsPrimaries(flows, ks, host, p, p.encapped);
    }
  }

  /** A packet relayed 255 times that matches two flows: the counter wraps between its records, so the second
      one is printed as primary. */
  lemma WrappedCounterCounts(host: string)
    ensures var flows, p := [Flow(1, 7, 7, 0, 0), Flow(2, 7, 7, 0, 0)], Packet(0, 0, 0, 0, 0, 7, 100, 0, 255);
            var rs := RecordsOf(flows, host, p);
            |rs| == 2 && CountPrimary(rs) == 1
  {
    var flows, p := [Flow(1, 7, 7, 0, 0), Flow(2, 7, 7, 0, 0)], Packet(0, 0, 0, 0, 0, 7, 100, 0, 255);
    assert HitList(flows, 0, 7, 0) == [] && HitList(flows, 1, 7, 0) == [0] && HitList(flows, 2, 7, 0) == [0, 1];
    RecordsFollowHits(flows, host, p);
    OnePrimaryRecord(flows, host, p);
  }

  lemma {:induction false} PrintedIsShort(flows: seq<Flow>, n: nat, p: nat, m: nat)
    requires n <= |flows|
    ensures |Printed(flows, n, p, m)| <= n
  {
    if n > 0 { PrintedIsShort(flows, n - 1, p, m); }
  }

  /** Unless the mask is empty, consume's loop prints something. */
  lemma SomethingIsPrinted(flows: seq<Flow>, p: nat, m: nat)
    requires Mask(flows, |flows|, p, m) != {}
    ensures Printed(flows, |flows|, p, m) != []
  {
    SelectedIffCongruentHit(flows, |flows|, p, m, 0);
    var j :| 0 <= j < |flows| && Hits(flows[j], p, m);
    assert Congruent(j, j);
    ListedAre(flows, |flows|, p, m, j);
  }

  /** With at most 32 flows: an unmatched packet gets one unknown record, a matched one gets a record for
      each flow it hits, lowest index first. */
  lemma RecordsFollowHits(flows: seq<Flow>, host: string, p: Packet)
    requires |flows| <= 32 && !IsStatistics(p)
    ensures var hits, rs := HitList(flows, |flows|, p.dport, p.flowid), RecordsOf(flows, host, p);
            && (hits == [] ==> |rs| == 1 && rs[0].tag == Unknown)
            && (hits != [] ==>
                  && |rs| == |hits|
                  && forall i :: 0 <= i < |hits| ==>
                       hits[i] < |flows| && rs[i].tag == Traffic(flows[hits[i]].id))
  {
    ClassifierExact(flows, p.dport, p.flowid);
    SelectedIffCongruentHit(flows, |flows|, p.dport, p.flowid, 0);
    var hits := HitList(flows, |flows|, p.dport, p.flowid);
    if Mask(flows, |flows|, p.dport, p.flowid) == {} {
      if hits != [] {
        assert hits[0] in hits;
        ListedAre(flows, |flows|, p.dport, p.flowid, hits[0]);
      }
    } else {
      SomethingIsPrinted(flows, p.dport, p.flowid);
      assert forall i :: 0 <= i < |hits| ==> hits[i] in hits;
      forall k <- hits ensures k < |flows| {
        ListedAre(flows, |flows|, p.dport, p.flowid, k);
      }
    }
  }

  /** The agent sends memory in units of 256 kB; the printed number of bytes is right exactly below 4 GB. */
  lemma MemoryReportExactIff(len: nat)
    requires len < 0x1_0000
    ensures MemValue(len) == len * 256 * 1024 <==> len < 0x4000
  {
  }
}
