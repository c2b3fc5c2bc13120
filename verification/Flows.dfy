/** The collector's flow table: `addconn` reads configuration lines, `findflow` classifies a packet into
    a bit mask, and `consume` reads the mask back, flow by flow. */
module Flows {
  import opened CText

  const MAX_FLOWS: nat := 64

  datatype Flow = Flow(id: nat, portLo: nat, portHi: nat, mgenLo: nat, mgenHi: nat)

  // ----- addconn: configuration lines -----

  /** A line up to its newline and its comment. */
  function Meaning(line: string): string { CutAt(CutAt(line, '\n'), '#') }

  /** The start and the end of a range; an end that is left out is the start. */
  function RangeOf(idx: string): (nat, nat) {
    var hyp := Find(idx, '-');
    var lo := UInt32(Atol(idx));
    (lo, if hyp == |idx| then lo else UInt32(Atol(idx[hyp + 1..])))
  }

  function FlowFrom(id: nat, mgen: bool, lo: nat, hi: nat): Option<Flow> {
    if id == 0 || lo == 0 || hi == 0 then None
    else if mgen then Some(Flow(id, 0, 0, lo, hi))
    else Some(Flow(id, lo % 0x1_0000, hi % 0x1_0000, 0, 0))
  }

  function IdOf(s: string): nat { UInt16(Atoi(s)) }

  /** The flow a line defines, unless its id, start or end parses to zero. */
  function FlowOf(line: string): Option<Flow> {
    var s := Meaning(line);
    var k := Find(s, '=');
    if k == |s| then None
    else
      var value := s[k + 1..];
      var mgen := value != "" && value[0] == 'M';
      var (lo, hi) := RangeOf(if mgen then value[1..] else value);
      FlowFrom(IdOf(s[..k]), mgen, lo, hi)
  }

  function AsSeq(f: Option<Flow>): seq<Flow> { if f.Some? then [f.value] else [] }

  /** The flows some lines define, whether or not there is room for them. */
  function Defined(lines: seq<string>): seq<Flow> {
    if lines == [] then [] else AsSeq(FlowOf(lines[0])) + Defined(lines[1..])
  }

  /** Only MAX_FLOWS flows are kept. */
  function Kept(flows: seq<Flow>): seq<Flow> { if |flows| <= MAX_FLOWS then flows else flows[..MAX_FLOWS] }

  /** The flow table after some lines: the first flows they define. */
  function FlowsOf(lines: seq<string>): seq<Flow> { Kept(Defined(lines)) }

  lemma {:induction false} DefinedConcat(xs: seq<string>, ys: seq<string>)
    ensures Defined(xs + ys) == Defined(xs) + Defined(ys)
  {
    if xs == [] {
      assert xs + ys == ys;
    } else {
      assert (xs + ys)[1..] == xs[1..] + ys;
      DefinedConcat(xs[1..], ys);
    }
  }

  lemma KeptMore(flows: seq<Flow>, f: Option<Flow>)
    ensures Kept(flows + AsSeq(f)) == AddedTo(Kept(flows), f)
  {
  }

  /** What addconn does to the table with the flow a line defines. */
  function AddedTo(flows: seq<Flow>, f: Option<Flow>): seq<Flow> {
    if f.Some? && |flows| < MAX_FLOWS then flows + [f.value] else flows
  }

  lemma LineAdded(lines: seq<string>, line: string)
    ensures FlowsOf(lines + [line]) == AddedTo(FlowsOf(lines), FlowOf(line))
  {
    DefinedConcat(lines, [line]);
    KeptMore(Defined(lines), FlowOf(line));
  }

  /** The start and the end after the equals sign and the M. */
  method ReadRange(idx: string) returns (lo: nat, hi: nat)
    ensures (lo, hi) == RangeOf(idx)
  {
    lo := UInt32(Atol(idx));
    hi := lo;
    var hyp := Find(idx, '-');
    if hyp < |idx| {
      hi := UInt32(Atol(idx[hyp + 1..]));
    }
  }

  /** The table the collector keeps, updated line by line. */
  class FlowTable {
    var flows: seq<Flow>

    constructor ()
      ensures flows == []
    {
      flows := [];
    }

    method AddConn(line: string)
      modifies this
      ensures flows == AddedTo(old(flows), FlowOf(line))
    {
      var s := Meaning(line);
      var k := Find(s, '=');
      if k < |s| && |flows| < MAX_FLOWS {
        var idx := s[k + 1..];
        var mgen := false;
        if idx != "" && idx[0] == 'M' {
          mgen := true;
          idx := idx[1..];
        }
        var id := IdOf(s[..k]);
        var lo, hi := ReadRange(idx);
        if id != 0 && lo != 0 && hi != 0 {
          if mgen {
            flows := flows + [Flow(id, 0, 0, lo, hi)];
          } else {
            flows := flows + [Flow(id, lo % 0x1_0000, hi % 0x1_0000, 0, 0)];
          }
        }
      }
    }

    /** Reading a whole configuration file, piece by piece. */
    method LoadFile(text: string)
      requires flows == []
      modifies this
      ensures flows == FlowsOf(Pieces(text))
    {
      var rest := text;
      ghost var done: seq<string> := [];
      while rest != ""
        invariant flows == FlowsOf(done) && ReadSoFar(text, done, rest)
        decreases |rest|
      {
        var piece := rest[..PieceLength(rest)];
        AddConn(piece);
        LineAdded(done, piece);
        PieceIsRead(text, done, rest);
        done := done + [piece];
        rest := rest[PieceLength(rest)..];
      }
      AllIsRead(text, done);
    }

    method FindFlow(p: nat, m: nat) returns (rv: Word64)
      ensures rv == Mask(flows, |flows|, p, m)
    {
      rv := {};
      for i := 0 to |flows|
        invariant rv == Mask(flows, i, p, m)
      {
        if Hits(flows[i], p, m) {
          rv := rv + ShiftedOne(i);
        }
      }
    }
  }

  /** At most one of the two ranges is set.  An MGEN range always is; ports are cut to 16 bits, so a line with
      a multiple of 2^16 loads a range that starts or ends at 0. */
  predicate NormalForm(f: Flow) {
    && 1 <= f.id < 0x1_0000
    && (|| (f.mgenLo == f.mgenHi == 0 && f.portLo < 0x1_0000 && f.portHi < 0x1_0000)
        || (f.portLo == f.portHi == 0 && 0 < f.mgenLo < 0x1_0000_0000 && 0 < f.mgenHi < 0x1_0000_0000))
  }

  /** Whatever the configuration file says, every flow that gets into the table is in normal form. */
  lemma {:induction false} LoadedFlowsAreNormal(lines: seq<string>)
    ensures |FlowsOf(lines)| <= MAX_FLOWS
    ensures forall f <- Defined(lines) :: NormalForm(f)
    ensures forall f <- FlowsOf(lines) :: NormalForm(f)
  {
    if lines != [] {
      LoadedFlowsAreNormal(lines[1..]);
    }
  }

  // ----- findflow and the loop of consume: classification -----

  /** The test of findflow's loop. */
  predicate Hits(f: Flow, p: nat, m: nat) {
    (p != 0 && f.portLo <= p <= f.portHi) || (m != 0 && f.mgenLo <= m <= f.mgenHi)
  }

  /** A uint64_t, as the set of the positions of its one bits. */
  type Word64 = s: set<nat> | forall b <- s :: b < 64

  /** The int 1 shifted left by k, widened to 64 bits: the shift count is taken modulo 32, and bit 31 is the
      sign, which the widening copies into the upper half. */
  function ShiftedOne(k: nat): Word64 {
    if k % 32 == 31 then BitsFrom(31) else {k % 32}
  }

  function BitsFrom(lo: nat): (w: Word64)
    requires lo <= 64
    ensures forall b: nat :: b in w <==> lo <= b < 64
    decreases 64 - lo
  {
    if lo == 64 then {} else {lo} + BitsFrom(lo + 1)
  }

  /** findflow's mask after the first n flows. */
  function Mask(flows: seq<Flow>, n: nat, p: nat, m: nat): Word64
    requires n <= |flows|
  {
    if n == 0 then {}
    else if Hits(flows[n - 1], p, m) then Mask(flows, n - 1, p, m) + ShiftedOne(n - 1)
    else Mask(flows, n - 1, p, m)
  }

  /** The test of consume's loop. */
  predicate Selected(mask: Word64, k: nat) { mask * ShiftedOne(k) != {} }

  lemma SelectedAfterOr(mask: Word64, j: nat, k: nat)
    ensures Selected(mask + ShiftedOne(j), k) <==> Selected(mask, k) || j % 32 == k % 32
  {
    var one, other := ShiftedOne(j), ShiftedOne(k);
    assert (mask + one) * other == mask * other + one * other;
    assert j % 32 == k % 32 ==> one * other == one && (j % 32 in one);
    assert j % 32 != k % 32 ==> one * other == {};
  }

  predicate Congruent(j: nat, k: nat) { j % 32 == k % 32 }

  /** Some flow among the first n is hit and shares flow k's bit. */
  predicate CongruentHit(flows: seq<Flow>, n: nat, p: nat, m: nat, k: nat)
    requires n <= |flows|
  {
    exists j :: 0 <= j < n && Congruent(j, k) && Hits(flows[j], p, m)
  }

  predicate AnyHit(flows: seq<Flow>, n: nat, p: nat, m: nat)
    requires n <= |flows|
  {
    exists j :: 0 <= j < n && Hits(flows[j], p, m)
  }

  /** Exactly what the mask says, however many flows there are: flow k is selected when some flow whose
      index is congruent to k modulo 32 is hit. */
  lemma {:induction false} SelectedIffCongruentHit(flows: seq<Flow>, n: nat, p: nat, m: nat, k: nat)
    requires n <= |flows|
    ensures Selected(Mask(flows, n, p, m), k) <==> CongruentHit(flows, n, p, m, k)
    ensures Mask(flows, n, p, m) != {} <==> AnyHit(flows, n, p, m)
  {
    if n > 0 {
      SelectedIffCongruentHit(flows, n - 1, p, m, k);
      SelectedAfterOr(Mask(flows, n - 1, p, m), n - 1, k);
      assert (n - 1) % 32 in ShiftedOne(n - 1);
    }
  }

  /** consume's loop over the mask: the flows it prints a record for, in order. */
  function Printed(flows: seq<Flow>, n: nat, p: nat, m: nat): seq<nat>
    requires n <= |flows|
  {
    if n == 0 then []
    else if Selected(Mask(flows, |flows|, p, m), n - 1) then Printed(flows, n - 1, p, m) + [n - 1]
    else Printed(flows, n - 1, p, m)
  }

  /** The simple classifier: the indices of the flows the packet hits, in order. */
  function HitList(flows: seq<Flow>, n: nat, p: nat, m: nat): seq<nat>
    requires n <= |flows|
  {
    if n == 0 then []
    else if Hits(flows[n - 1], p, m) then HitList(flows, n - 1, p, m) + [n - 1]
    else HitList(flows, n - 1, p, m)
  }

  /** No two flows that share a bit disagree about the packet. */
  predicate NoAlias(flows: seq<Flow>, p: nat, m: nat) {
    forall j, k :: 0 <= j < |flows| && 0 <= k < |flows| && Congruent(j, k) ==>
      Hits(flows[j], p, m) == Hits(flows[k], p, m)
  }

  lemma {:induction false} PrintedIsHitList(flows: seq<Flow>, n: nat, p: nat, m: nat)
    requires n <= |flows| && NoAlias(flows, p, m)
    ensures Printed(flows, n, p, m) == HitList(flows, n, p, m)
  {
    if n > 0 {
      PrintedIsHitList(flows, n - 1, p, m);
      SelectedIffCongruentHit(flows, |flows|, p, m, n - 1);
      assert Congruent(n - 1, n - 1);
    }
  }

  lemma {:induction false} ListedAre(flows: seq<Flow>, n: nat, p: nat, m: nat, k: nat)
    requires n <= |flows|
    ensures k in Printed(flows, n, p, m) <==> k < n && CongruentHit(flows, |flows|, p, m, k)
    ensures k in HitList(flows, n, p, m) <==> k < n && Hits(flows[k], p, m)
  {
    if n > 0 {
      ListedAre(flows, n - 1, p, m, k);
      SelectedIffCongruentHit(flows, |flows|, p, m, n - 1);
    }
  }

  /** consume prints records for exactly the flows a packet hits, if and only if no two flows that share a
      bit of the mask disagree about the packet. */
  lemma ClassifierExactIffNoAlias(flows: seq<Flow>, p: nat, m: nat)
    ensures Printed(flows, |flows|, p, m) == HitList(flows, |flows|, p, m) <==> NoAlias(flows, p, m)
  {
    if NoAlias(flows, p, m) {
      PrintedIsHitList(flows, |flows|, p, m);
    } else {
      var j, k :| 0 <= j < |flows| && 0 <= k < |flows| && Congruent(j, k)
                  && Hits(flows[j], p, m) && !Hits(flows[k], p, m);
      ListedAre(flows, |flows|, p, m, k);
    }
  }

  /** With at most 32 flows the classifier is exact for every packet. */
  lemma ClassifierExact(flows: seq<Flow>, p: nat, m: nat)
    requires |flows| <= 32
    ensures Printed(flows, |flows|, p, m) == HitList(flows, |flows|, p, m)
  {
    PrintedIsHitList(flows, |flows|, p, m);
  }

  /** With 33 flows it need not be: a packet for the last one is also booked on the first. */
  lemma ClassifierNotExactWith33Flows()
    ensures exists flows: seq<Flow> ::
              |flows| == 33 && HitList(flows, 33, 2033, 0) != Printed(flows, 33, 2033, 0)
              && 0 in Printed(flows, 33, 2033, 0) && 0 !in HitList(flows, 33, 2033, 0)
  {
    var flows := seq(33, k requires 0 <= k < 33 => Flow(1, 2001 + k, 2001 + k, 0, 0));
    ListedAre(flows, 33, 2033, 0, 0);
    assert Congruent(32, 0) && Hits(flows[32], 2033, 0);
  }
}
