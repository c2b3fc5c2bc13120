/** svcreqollect's tables: every round counts the accepted and rejected requests of the senders in one
    answer of the REST service, by priority row and host.  The JSON text is taken as already split into
    values. */
module ServiceRequests {
  import opened CText
  import opened HostIndex

  // ----- priorities -----

  /** The port of a configuration line, if it has one. */
  function PortOf(line: string): nat {
    var text := CutAt(CutAt(line, '\n'), '#');
    var equals := Find(text, '=');
    if equals < |text| then UInt16(Atoi(text[equals + 1..])) else 0
  }

  /** The row a line adds. */
  function RowsOf(line: string): seq<nat> { if PortOf(line) != 0 then [PortOf(line)] else [] }

  function RowsOfAll(lines: seq<string>): seq<nat> {
    if lines == [] then [] else RowsOf(lines[0]) + RowsOfAll(lines[1..])
  }

  /** The rows after a list of lines; row 0 is for ports that are not configured. */
  function PortsOf(lines: seq<string>): (ports: seq<nat>)
    ensures |ports| >= 1 && ports[0] == 0
  {
    [0] + RowsOfAll(lines)
  }

  lemma {:induction false} RowsConcat(xs: seq<string>, ys: seq<string>)
    ensures RowsOfAll(xs + ys) == RowsOfAll(xs) + RowsOfAll(ys)
  {
    if xs == [] {
      assert xs + ys == ys;
    } else {
      assert (xs + ys)[1..] == xs[1..] + ys;
      RowsConcat(xs[1..], ys);
    }
  }

  lemma RowAdded(lines: seq<string>, line: string)
    ensures PortsOf(lines + [line]) == PortsOf(lines) + RowsOf(line)
  {
    RowsConcat(lines, [line]);
  }

  /** The first row with that port; None is UINT_MAX. */
  function RowOf(ports: seq<nat>, port: nat, from: nat): (r: Option<nat>)
    requires from <= |ports|
    ensures r.Some? ==> from <= r.value < |ports| && ports[r.value] == port
    ensures forall k :: from <= k < (if r.Some? then r.value else |ports|) ==> ports[k] != port
    decreases |ports| - from
  {
    if from == |ports| then None else if ports[from] == port then Some(from) else RowOf(ports, port, from + 1)
  }

  // ----- one request -----

  datatype Path = NoPath | NotAnArray | Hops(count: nat)

  /** The first element of an item; a value that is absent is None. */
  datatype Zero = Zero(src: Option<string>, dst: Option<string>, port: Option<int>, roles: Option<string>)

  datatype Item = Null | NoZero | Item(zero: Zero, path: Path)

  /** json_get_uint16: a port outside 16 bits counts as absent. */
  function PortNumber(port: Option<int>): nat {
    if port.None? || port.value < 0 || port.value > 65535 then 0 else port.value
  }

  function Lower(c: char): char { if 'A' <= c <= 'Z' then c + ('a' - 'A') else c }

  /** Equal but for the case of letters. */
  predicate SameWord(s: string, t: string) {
    |s| == |t| && forall i :: 0 <= i < |s| ==> Lower(s[i]) == Lower(t[i])
  }

  /** What happens to an item: the program ends with an error, or the item is not a sender, or one cell of
      one table is counted up. */
  datatype Verdict = Abort(rv: nat) | Ignored | Counted(row: nat, host: nat, accepted: bool)

  function HostFor(hosts: seq<Host>, src: string, dst: string): Option<nat> {
    var h := FindIn(hosts, src, 0);
    if h.Some? then h else FindIn(hosts, dst, 0)
  }

  function RowFor(ports: seq<nat>, port: nat): nat {
    var r := RowOf(ports, port, 0);
    if r.Some? then r.value else 0
  }

  function Judge(hosts: seq<Host>, ports: seq<nat>, item: Item): Verdict {
    match item
    case Null => Abort(7)
    case NoZero => Abort(9)
    case Item(zero, path) =>
      if zero.src.None? then Abort(15)
      else if zero.dst.None? then Abort(20)
      else
        var host := HostFor(hosts, zero.src.value, zero.dst.value);
        var port := PortNumber(zero.port);
        if host.None? then Abort(12)
        else if port == 0 then Abort(14)
        else if zero.roles.None? then Abort(10)
        else if !SameWord(zero.roles.value, "SENDER") then Ignored
        else Counted(RowFor(ports, port), host.value, path.Hops? && path.count > 0)
  }

  // ----- one round -----

  function Verdicts(hosts: seq<Host>, ports: seq<nat>, items: seq<Item>): (v: seq<Verdict>)
    ensures |v| == |items|
  {
    seq(|items|, i requires 0 <= i < |items| => Judge(hosts, ports, items[i]))
  }

  predicate Complete(v: seq<Verdict>) { forall i :: 0 <= i < |v| ==> !v[i].Abort? }

  /** How often a verdict was passed. */
  function Times(v: seq<Verdict>, which: Verdict): nat {
    if v == [] then 0 else Times(v[..|v| - 1], which) + if v[|v| - 1] == which then 1 else 0
  }

  /** All verdicts of accepted, or of rejected requests. */
  function Number(v: seq<Verdict>, accepted: bool): nat {
    if v == [] then 0
    else
      Number(v[..|v| - 1], accepted)
      + if v[|v| - 1].Counted? && v[|v| - 1].accepted == accepted then 1 else 0
  }

  function Senders(v: seq<Verdict>): nat {
    if v == [] then 0 else Senders(v[..|v| - 1]) + if v[|v| - 1].Counted? then 1 else 0
  }

  /** Every cell of a table holds the number of its verdicts. */
  ghost predicate Tallies(t: array2<nat>, v: seq<Verdict>, accepted: bool)
    reads t
  {
    forall r, h :: 0 <= r < t.Length0 && 0 <= h < t.Length1 ==> t[r, h] == Times(v, Counted(r, h, accepted))
  }

  lemma TimesStep(v: seq<Verdict>, last: Verdict, which: Verdict)
    ensures Times(v + [last], which) == Times(v, which) + if last == which then 1 else 0
  {
    assert (v + [last])[..|v|] == v;
  }

  lemma NumbersStep(v: seq<Verdict>, last: Verdict)
    ensures Senders(v + [last]) == Senders(v) + if last.Counted? then 1 else 0
    ensures forall a :: Number(v + [last], a) == Number(v, a) + if last.Counted? && last.accepted == a then 1 else 0
  {
    assert (v + [last])[..|v|] == v;
  }

  lemma JudgedInRange(hosts: seq<Host>, ports: seq<nat>, item: Item)
    requires |ports| > 0
    ensures var v := Judge(hosts, ports, item); v.Counted? ==> v.row < |ports| && v.host < |hosts|
  {
  }

  class Collector {
    const hosts: HostMap
    var ports: seq<nat>
    var accepted: array2<nat>
    var rejected: array2<nat>

    constructor (hosts: HostMap)
      ensures this.hosts == hosts && ports == PortsOf([])
      ensures fresh(accepted) && fresh(rejected)
    {
      this.hosts := hosts;
      ports := [0];
      accepted, rejected := new nat[0, 0], new nat[0, 0];
    }

    /** Both tables have a row for every priority and a column for every host. */
    predicate Valid()
      reads this, hosts
    {
      && |ports| > 0 && accepted != rejected
      && accepted.Length0 == rejected.Length0 == |ports|
      && accepted.Length1 == rejected.Length1 == |hosts.hosts|
    }

    /** addprio. */
    method AddPrio(line: string)
      modifies `ports
      ensures ports == old(ports) + RowsOf(line)
    {
      var text := line;
      var idx := Find(text, '\n');
      if idx < |text| {
        text := text[..idx];
      }
      assert text == CutAt(line, '\n');
      idx := Find(text, '#');
      if idx < |text| {
        text := text[..idx];
      }
      assert text == CutAt(CutAt(line, '\n'), '#');
      idx := Find(text, '=');
      if idx < |text| {
        var dport := UInt16(Atoi(text[idx + 1..]));
        if dport != 0 {
          ports := ports + [dport];
        }
      }
    }

    /** Reading a whole configuration file, piece by piece. */
    method Configure(text: string)
      requires ports == PortsOf([])
      modifies `ports
      ensures ports == PortsOf(Pieces(text))
    {
      var rest := text;
      ghost var done: seq<string> := [];
      while rest != ""
        invariant ports == PortsOf(done) && ReadSoFar(text, done, rest)
        decreases |rest|
      {
        var piece := rest[..PieceLength(rest)];
        AddPrio(piece);
        RowAdded(done, piece);
        PieceIsRead(text, done, rest);
        done := done + [piece];
        rest := rest[PieceLength(rest)..];
      }
      AllIsRead(text, done);
    }

    /** find_port. */
    method FindPort(port: nat) returns (r: Option<nat>)
      ensures r == RowOf(ports, port, 0)
    {
      for i := 0 to |ports|
        invariant RowOf(ports, port, 0) == RowOf(ports, port, i)
      {
        if ports[i] == port {
          return Some(i);
        }
      }
      return None;
    }

    method Allocate()
      requires |ports| > 0
      modifies `accepted, `rejected
      ensures Valid() && fresh(accepted) && fresh(rejected)
    {
      accepted, rejected := new nat[|ports|, |hosts.hosts|], new nat[|ports|, |hosts.hosts|];
    }

    /** The chain of checks on one item. */
    method Check(item: Item) returns (v: Verdict)
      requires Valid()
      ensures v == Judge(hosts.hosts, ports, item)
    {
      if item.Null? {
        return Abort(7);
      } else if item.NoZero? {
        return Abort(9);
      } else if item.zero.src.None? {
        return Abort(15);
      } else if item.zero.dst.None? {
        return Abort(20);
      }
      var host := hosts.FindHost(item.zero.src.value);
      if host.None? {
        host := hosts.FindHost(item.zero.dst.value);
      }
      var port := PortNumber(item.zero.port);
      if host.None? {
        return Abort(12);
      } else if port == 0 {
        return Abort(14);
      } else if item.zero.roles.None? {
        return Abort(10);
      } else if !SameWord(item.zero.roles.value, "SENDER") {
        return Ignored;
      }
      var row := FindPort(port);
      v := Counted(if row.Some? then row.value else 0, host.value, item.path.Hops? && item.path.count > 0);
    }

    method Clear()
      requires Valid()
      modifies accepted, rejected
      ensures Tallies(accepted, [], true) && Tallies(rejected, [], false)
    {
      forall r, h | 0 <= r < accepted.Length0 && 0 <= h < accepted.Length1 {
        accepted[r, h] := 0;
      }
      forall r, h | 0 <= r < rejected.Length0 && 0 <= h < rejected.Length1 {
        rejected[r, h] := 0;
      }
    }

    /** One cell is counted up. */
    method CountUp(row: nat, host: nat, ok: bool, ghost v: seq<Verdict>)
      requires Valid() && row < |ports| && host < |hosts.hosts|
      requires Tallies(accepted, v, true) && Tallies(rejected, v, false)
      modifies accepted, rejected
      ensures var v' := v + [Counted(row, host, ok)]; Tallies(accepted, v', true) && Tallies(rejected, v', false)
    {
      if ok {
        accepted[row, host] := accepted[row, host] + 1;
      } else {
        rejected[row, host] := rejected[row, host] + 1;
      }
      forall r, h | 0 <= r < |ports| && 0 <= h < |hosts.hosts|
        ensures accepted[r, h] == Times(v + [Counted(row, host, ok)], Counted(r, h, true))
        ensures rejected[r, h] == Times(v + [Counted(row, host, ok)], Counted(r, h, false))
      {
        TimesStep(v, Counted(row, host, ok), Counted(r, h, true));
        TimesStep(v, Counted(row, host, ok), Counted(r, h, false));
      }
    }

    lemma NothingCounted(v: seq<Verdict>)
      requires Valid() && Tallies(accepted, v, true) && Tallies(rejected, v, false)
      ensures Tallies(accepted, v + [Ignored], true) && Tallies(rejected, v + [Ignored], false)
    {
      forall r, h | 0 <= r < |ports| && 0 <= h < |hosts.hosts|
        ensures accepted[r, h] == Times(v + [Ignored], Counted(r, h, true))
        ensures rejected[r, h] == Times(v + [Ignored], Counted(r, h, false))
      {
        TimesStep(v, Ignored, Counted(r, h, true));
        TimesStep(v, Ignored, Counted(r, h, false));
      }
    }

    /** One round over the items of an answer: the first bad item ends the program with its error code. */
    method Round(items: seq<Item>) returns (rv: nat, aa: nat, rr: nat, senders: nat)
      requires Valid()
      modifies accepted, rejected
      ensures var v := Verdicts(hosts.hosts, ports, items);
              && (Complete(v) ==>
                   && rv == 0 && Tallies(accepted, v, true) && Tallies(rejected, v, false)
                   && aa == Number(v, true) && rr == Number(v, false) && senders == Senders(v))
              && (!Complete(v) ==>
                   exists i :: 0 <= i < |v| && v[i].Abort? && rv == v[i].rv && Complete(v[..i]))
    {
      ghost var v := Verdicts(hosts.hosts, ports, items);
      Clear();
      rv, aa, rr, senders := 0, 0, 0, 0;
      for i := 0 to |items|
        invariant Complete(v[..i])
        invariant Tallies(accepted, v[..i], true) && Tallies(rejected, v[..i], false)
        invariant aa == Number(v[..i], true) && rr == Number(v[..i], false) && senders == Senders(v[..i])
      {
        var verdict := Check(items[i]);
        assert v[..i + 1] == v[..i] + [verdict];
        NumbersStep(v[..i], verdict);
        if verdict.Abort? {
          assert v[i].Abort?;
          return verdict.rv, aa, rr, senders;
        } else if verdict.Counted? {
          JudgedInRange(hosts.hosts, ports, items[i]);
          senders := senders + 1;
          CountUp(verdict.row, verdict.host, verdict.accepted, v[..i]);
          if verdict.accepted {
            aa := aa + 1;
          } else {
            rr := rr + 1;
          }
        } else {
          NothingCounted(v[..i]);
        }
      }
      assert v[..|items|] == v;
    }
  }

  // ----- what the tables mean -----

  /** Every sender is counted once. */
  lemma {:induction false} AcceptedPlusRejected(v: seq<Verdict>)
    ensures Number(v, true) + Number(v, false) == Senders(v)
  {
    if v != [] { AcceptedPlusRejected(v[..|v| - 1]); }
  }

  function RowSum(v: seq<Verdict>, accepted: bool, r: nat, n: nat): nat {
    if n == 0 then 0 else RowSum(v, accepted, r, n - 1) + Times(v, Counted(r, n - 1, accepted))
  }

  /** The first m rows of n hosts. */
  function TableSum(v: seq<Verdict>, accepted: bool, m: nat, n: nat): nat {
    if m == 0 then 0 else TableSum(v, accepted, m - 1, n) + RowSum(v, accepted, m - 1, n)
  }

  predicate InRow(x: Verdict, accepted: bool, r: nat, n: nat) {
    x.Counted? && x.accepted == accepted && x.row == r && x.host < n
  }

  predicate InTable(x: Verdict, accepted: bool, m: nat, n: nat) {
    x.Counted? && x.accepted == accepted && x.row < m && x.host < n
  }

  lemma {:induction false} RowSumStep(v: seq<Verdict>, x: Verdict, accepted: bool, r: nat, n: nat)
    ensures RowSum([], accepted, r, n) == 0
    ensures RowSum(v + [x], accepted, r, n) == RowSum(v, accepted, r, n) + if InRow(x, accepted, r, n) then 1 else 0
  {
    if n > 0 {
      RowSumStep(v, x, accepted, r, n - 1);
      TimesStep(v, x, Counted(r, n - 1, accepted));
    }
  }

  lemma {:induction false} TableSumStep(v: seq<Verdict>, x: Verdict, accepted: bool, m: nat, n: nat)
    ensures TableSum([], accepted, m, n) == 0
    ensures TableSum(v + [x], accepted, m, n)
              == TableSum(v, accepted, m, n) + if InTable(x, accepted, m, n) then 1 else 0
  {
    if m > 0 {
      TableSumStep(v, x, accepted, m - 1, n);
      RowSumStep(v, x, accepted, m - 1, n);
    }
  }

  predicate InRange(v: seq<Verdict>, m: nat, n: nat) {
    forall i :: 0 <= i < |v| && v[i].Counted? ==> v[i].row < m && v[i].host < n
  }

  /** A table over all rows and hosts sums to the number of its verdicts. */
  lemma {:induction false} TableSumIsNumber(v: seq<Verdict>, accepted: bool, m: nat, n: nat)
    requires InRange(v, m, n)
    ensures TableSum(v, accepted, m, n) == Number(v, accepted)
  {
    if v == [] {
      TableSumStep([], Ignored, accepted, m, n);
    } else {
      var before, last := v[..|v| - 1], v[|v| - 1];
      TableSumIsNumber(before, accepted, m, n);
      TableSumStep(before, last, accepted, m, n);
      assert v == before + [last];
    }
  }

  /** The sum of the cells of a table. */
  function RowTotal(t: array2<nat>, r: nat, n: nat): nat
    requires r < t.Length0 && n <= t.Length1
    reads t
  {
    if n == 0 then 0 else RowTotal(t, r, n - 1) + t[r, n - 1]
  }

  function Total(t: array2<nat>, m: nat): nat
    requires m <= t.Length0
    reads t
  {
    if m == 0 then 0 else Total(t, m - 1) + RowTotal(t, m - 1, t.Length1)
  }

  lemma {:induction false} RowTotalIsSum(t: array2<nat>, v: seq<Verdict>, accepted: bool, r: nat, n: nat)
    requires Tallies(t, v, accepted) && r < t.Length0 && n <= t.Length1
    ensures RowTotal(t, r, n) == RowSum(v, accepted, r, n)
  {
    if n > 0 { RowTotalIsSum(t, v, accepted, r, n - 1); }
  }

  lemma {:induction false} TotalIsSum(t: array2<nat>, v: seq<Verdict>, accepted: bool, m: nat)
    requires Tallies(t, v, accepted) && m <= t.Length0
    ensures Total(t, m) == TableSum(v, accepted, m, t.Length1)
  {
    if m > 0 {
      TotalIsSum(t, v, accepted, m - 1);
      RowTotalIsSum(t, v, accepted, m - 1, t.Length1);
    }
  }

  /** After a complete round the accepted table sums to aa, the rejected table to rr, and both together to
      the number of senders. */
  lemma RequestsAreConserved(c: Collector, items: seq<Item>)
    requires c.Valid()
    requires var v := Verdicts(c.hosts.hosts, c.ports, items);
             Tallies(c.accepted, v, true) && Tallies(c.rejected, v, false)
    ensures var v := Verdicts(c.hosts.hosts, c.ports, items);
            && Total(c.accepted, |c.ports|) == Number(v, true) && Total(c.rejected, |c.ports|) == Number(v, false)
            && Number(v, true) + Number(v, false) == Senders(v)
  {
    var v := Verdicts(c.hosts.hosts, c.ports, items);
    forall i | 0 <= i < |v| && v[i].Counted? ensures v[i].row < |c.ports| && v[i].host < |c.hosts.hosts| {
      JudgedInRange(c.hosts.hosts, c.ports, items[i]);
    }
    AcceptedPlusRejected(v);
    TotalIsSum(c.accepted, v, true, |c.ports|);
    TableSumIsNumber(v, true, |c.ports|, |c.hosts.hosts|);
    TotalIsSum(c.rejected, v, false, |c.ports|);
    TableSumIsNumber(v, false, |c.ports|, |c.hosts.hosts|);
  }

  // ----- which cell a request is counted in -----

  /** h is the first host with that address. */
  predicate FirstWith(hosts: seq<Host>, ip: string, h: nat) {
    h < |hosts| && ip in hosts[h].ips && forall k :: 0 <= k < h ==> ip !in hosts[k].ips
  }

  predicate Nowhere(hosts: seq<Host>, ip: string) { forall k :: 0 <= k < |hosts| ==> ip !in hosts[k].ips }

  /** The first row with that port, or row 0 if no row has it. */
  predicate IsRowOf(ports: seq<nat>, port: nat, row: nat) {
    if port in ports then row < |ports| && ports[row] == port && forall k :: 0 <= k < row ==> ports[k] != port
    else row == 0
  }

  /** Exactly the items of senders whose source, or else whose destination, is a known host are counted: in
      the first row of their port, for the first host with that address, as accepted if they have a path. */
  lemma CountedIff(hosts: seq<Host>, ports: seq<nat>, item: Item, row: nat, host: nat, accepted: bool)
    ensures Judge(hosts, ports, item) == Counted(row, host, accepted) <==>
              && item.Item? && item.zero.src.Some? && item.zero.dst.Some?
              && (FirstWith(hosts, item.zero.src.value, host)
                  || (Nowhere(hosts, item.zero.src.value) && FirstWith(hosts, item.zero.dst.value, host)))
              && item.zero.port.Some? && 1 <= item.zero.port.value <= 65535
              && IsRowOf(ports, item.zero.port.value, row)
              && item.zero.roles.Some? && IsSender(item.zero.roles.value)
              && accepted == (item.path.Hops? && item.path.count > 0)
  {
    if item.Item? && item.zero.src.Some? && item.zero.dst.Some? {
      HostIsFirst(hosts, item.zero.src.value, host);
      HostIsFirst(hosts, item.zero.dst.value, host);
      if item.zero.port.Some? && 1 <= item.zero.port.value {
        RowIsFirst(ports, item.zero.port.value, row);
      }
      if item.zero.roles.Some? { SenderIff(item.zero.roles.value); }
    }
  }

  /** The word "sender" in letters of either case. */
  predicate IsSender(s: string) {
    && |s| == 6
    && (s[0] == 'S' || s[0] == 's') && (s[1] == 'E' || s[1] == 'e') && (s[2] == 'N' || s[2] == 'n')
    && (s[3] == 'D' || s[3] == 'd') && (s[4] == 'E' || s[4] == 'e') && (s[5] == 'R' || s[5] == 'r')
  }

  lemma LetterIff(c: char, upper: char, lower: char)
    requires 'A' <= upper <= 'Z' && lower as int == upper as int + 32
    ensures Lower(c) == Lower(upper) <==> c == upper || c == lower
  {
  }

  lemma SenderIff(s: string)
    ensures SameWord(s, "SENDER") <==> IsSender(s)
  {
    if |s| == 6 {
      LetterIff(s[0], 'S', 's');
      LetterIff(s[1], 'E', 'e');
      LetterIff(s[2], 'N', 'n');
      LetterIff(s[3], 'D', 'd');
      LetterIff(s[4], 'E', 'e');
      LetterIff(s[5], 'R', 'r');
    }
  }

  /** The source or the destination is a known host. */
  predicate Known(hosts: seq<Host>, src: string, dst: string) {
    !(Nowhere(hosts, src) && Nowhere(hosts, dst))
  }

  /** Which error ends the program, or whether the item is ignored: the first thing that is wrong decides. */
  lemma FirstErrorDecides(hosts: seq<Host>, ports: seq<nat>, item: Item)
    ensures Judge(hosts, ports, item) == Abort(7) <==> item.Null?
    ensures Judge(hosts, ports, item) == Abort(9) <==> item.NoZero?
    ensures Judge(hosts, ports, item) == Abort(15) <==> item.Item? && item.zero.src.None?
    ensures Judge(hosts, ports, item) == Abort(20) <==> item.Item? && item.zero.src.Some? && item.zero.dst.None?
    ensures var addressed := item.Item? && item.zero.src.Some? && item.zero.dst.Some?;
            var known := addressed && Known(hosts, item.zero.src.value, item.zero.dst.value);
            var ported := known && item.zero.port.Some? && 1 <= item.zero.port.value <= 65535;
            && (Judge(hosts, ports, item) == Abort(12) <==> addressed && !known)
            && (Judge(hosts, ports, item) == Abort(14) <==> known && !ported)
            && (Judge(hosts, ports, item) == Abort(10) <==> ported && item.zero.roles.None?)
            && (Judge(hosts, ports, item) == Ignored <==>
                  ported && item.zero.roles.Some? && !IsSender(item.zero.roles.value))
  {
    if item.Item? && item.zero.src.Some? && item.zero.dst.Some? {
      HostIsFirst(hosts, item.zero.src.value, 0);
      HostIsFirst(hosts, item.zero.dst.value, 0);
      if item.zero.roles.Some? { SenderIff(item.zero.roles.value); }
    }
  }

  lemma HostIsFirst(hosts: seq<Host>, ip: string, h: nat)
    ensures FindIn(hosts, ip, 0) == Some(h) <==> FirstWith(hosts, ip, h)
    ensures FindIn(hosts, ip, 0) == None <==> Nowhere(hosts, ip)
  {
    var r := FindIn(hosts, ip, 0);
    if FirstWith(hosts, ip, h) && r.Some? {
      assert !(r.value < h) && !(h < r.value);
    }
  }

  lemma RowIsFirst(ports: seq<nat>, port: nat, row: nat)
    ensures RowFor(ports, port) == row <==> IsRowOf(ports, port, row)
  {
    var r := RowOf(ports, port, 0);
    if r.Some? {
      assert port in ports;
      if IsRowOf(ports, port, row) { assert !(r.value < row) && !(row < r.value); }
    }
  }

  // ----- configured rows -----

  /** A configuration line as the manual gives it. */
  datatype Entry = Entry(id: nat, port: nat)

  function LineOf(e: Entry): string { Dec(e.id) + "=" + Dec(e.port) }

  /** A port, and an identifier that leaves the line within the line buffer. */
  predicate Configurable(e: Entry) { 1 <= e.port < 0x1_0000 && |LineOf(e)| < LINELEN }

  predicate AllConfigurable(entries: seq<Entry>) { forall k :: 0 <= k < |entries| ==> Configurable(entries[k]) }

  function TextOf(entries: seq<Entry>): string {
    if entries == [] then "" else LineOf(entries[0]) + "\n" + TextOf(entries[1..])
  }

  lemma LineHasNo(e: Entry, c: char)
    requires !IsDigit(c) && c != '='
    ensures c !in LineOf(e)
  {
    DecDigits(e.id);
    DecDigits(e.port);
  }

  /** The port of a line with any 32-bit number. */
  lemma PortOfLine(e: Entry)
    requires e.port < 0x1_0000_0000
    ensures PortOf(LineOf(e)) == PortOf(LineOf(e) + "\n") == e.port % 0x1_0000
  {
    LowHalf(e.port);
    var id, port, text := Dec(e.id), Dec(e.port), LineOf(e);
    LineHasNo(e, '\n');
    LineHasNo(e, '#');
    NotFound(text, '\n');
    NotFound(text, '#');
    FindConcat(text, '\n', "");
    assert text + ['\n'] + "" == text + "\n";
    assert (text + "\n")[..|text|] == text && text[..|text|] == text;
    DecDigits(e.id);
    FindConcat(id, '=', port);
    assert id + ['='] + port == text;
    assert text[|id| + 1..] == port;
    AtoiDec(e.port, "");
    assert Dec(e.port) + "" == port;
  }

  /** A comment makes no difference to what stands before it, and a line without an equals sign adds no row. */
  lemma CommentsAddNothing(text: string, comment: string)
    requires '\n' !in text && '#' !in text
    ensures PortOf(text + "#" + comment) == PortOf(text)
    ensures '=' !in text ==> PortOf(text) == 0
  {
    var line := text + "#" + comment;
    FindIsFirst(line, '\n');
    var cut := CutAt(line, '\n');
    assert cut == text + ['#'] + cut[|text| + 1..];
    FindConcat(text, '#', cut[|text| + 1..]);
    NotFound(text, '\n');
    NotFound(text, '#');
    assert text[..|text|] == text && cut[..|text|] == text;
    assert CutAt(cut, '#') == text && CutAt(CutAt(text, '\n'), '#') == text;
    if '=' !in text { NotFound(text, '='); }
  }

  lemma {:induction false} NotFound(s: string, c: char)
    requires c !in s
    ensures Find(s, c) == |s|
  {
    if s != "" { NotFound(s[1..], c); }
  }

  lemma LineAddsRow(e: Entry)
    requires Configurable(e)
    ensures RowsOfAll(CutLine(LineOf(e))) == [e.port]
  {
    PortOfLine(e);
    LowHalf(e.port);
    if |LineOf(e)| == LINELEN - 1 {
      assert LineOf(e)[LINELEN - 1..] == "" && LineOf(e)[..LINELEN - 1] == LineOf(e);
      assert "" + "\n" == "\n";
      assert PortOf("\n") == 0;
      RowsConcat([LineOf(e)], ["\n"]);
      assert CutLine(LineOf(e)) == [LineOf(e)] + ["\n"];
    }
  }

  function PortsIn(entries: seq<Entry>): (ports: seq<nat>)
    ensures |ports| == |entries| && forall k :: 0 <= k < |entries| ==> ports[k] == entries[k].port
  {
    seq(|entries|, k requires 0 <= k < |entries| => entries[k].port)
  }

  lemma {:induction false} RowsAreRead(entries: seq<Entry>)
    requires AllConfigurable(entries)
    ensures RowsOfAll(Pieces(TextOf(entries))) == PortsIn(entries)
  {
    if entries != [] {
      var first, rest := entries[0], entries[1..];
      RowsAreRead(rest);
      LineHasNo(first, '\n');
      LineIsCut(LineOf(first), TextOf(rest));
      RowsConcat(CutLine(LineOf(first)), Pieces(TextOf(rest)));
      LineAddsRow(first);
    }
  }

  /** The number before the equals sign is ignored: every line gets a row of its own. */
  lemma RowsFollowLines(entries: seq<Entry>)
    requires AllConfigurable(entries)
    ensures PortsOf(Pieces(TextOf(entries))) == [0] + PortsIn(entries)
  {
    RowsAreRead(entries);
  }

  /** So requests for a line's port are counted under the line's identifier exactly if the identifiers count
      the lines. */
  lemma RowIsIdentifierIff(entries: seq<Entry>, n: nat)
    requires AllConfigurable(entries)
    requires n < |entries| && forall k :: 0 <= k < n ==> entries[k].port != entries[n].port
    ensures RowFor(PortsOf(Pieces(TextOf(entries))), entries[n].port) == n + 1
    ensures RowFor(PortsOf(Pieces(TextOf(entries))), entries[n].port) == entries[n].id <==> entries[n].id == n + 1
  {
    RowsFollowLines(entries);
    RowOfLine(entries, [0] + PortsIn(entries), n);
  }

  lemma RowOfLine(entries: seq<Entry>, ports: seq<nat>, n: nat)
    requires ports == [0] + PortsIn(entries) && n < |entries| && entries[n].port != 0
    requires forall k :: 0 <= k < n ==> entries[k].port != entries[n].port
    ensures RowFor(ports, entries[n].port) == n + 1
  {
    assert ports[n + 1] == entries[n].port;
    assert forall k :: 0 < k < n + 1 ==> ports[k] == entries[k - 1].port;
    RowIsFirst(ports, entries[n].port, n + 1);
  }

  /** The manual's own example: its fourth line repeats identifier 3, but its port is counted in row 4. */
  lemma RepeatedIdentifierIsIgnored()
    ensures var manual := [Entry(1, 2000), Entry(2, 1000), Entry(3, 2020), Entry(3, 2021)];
            RowFor(PortsOf(Pieces(TextOf(manual))), 2021) == 4
  {
    var manual := [Entry(1, 2000), Entry(2, 1000), Entry(3, 2020), Entry(3, 2021)];
    forall k | 0 <= k < 4 ensures Configurable(manual[k]) {
      DecIsShort(manual[k].id, 1);
      DecIsShort(manual[k].port, 4);
    }
    RowIsIdentifierIff(manual, 3);
  }
}
