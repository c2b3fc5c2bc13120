/** The grapher's sample store: `readin` adds each line's value to one cell of a flattened array per
    window, and `update` advances the clock the graphs are drawn by. */
module Samples {
  import opened Arithmetic
  import opened CText
  import opened Lines
  import opened Records

  const DEFTLEN: nat := 31 * 60

  const ULONG: nat := 0x1_0000_0000_0000_0000

  function Half(nsys: nat): nat { DEFTLEN * nsys }

  function Cell(level: nat, second: nat, who: nat, nsys: nat): nat {
    second * nsys + who + level * Half(nsys)
  }

  lemma RowFits(second: nat, who: nat, nsys: nat)
    requires second < DEFTLEN && who < nsys
    ensures second * nsys + who < Half(nsys)
  {
    MulStep(second, DEFTLEN, nsys);
  }

  /** The addition for a sample stays within the array of an existing window: nothing else is defined in C. */
  predicate Lands(s: Sample, nwins: nat, nsys: nat) {
    && 0 <= s.window < nwins && s.level < 2 && 0 <= s.second && 0 <= s.who
    && Cell(s.level, s.second, s.who, nsys) < 2 * Half(nsys)
  }

  /** The samples a grapher of nwins windows and nsys hosts is meant for: its manual requires enough windows
      and hosts, and the time axis has DEFTLEN seconds. */
  predicate Fits(s: Sample, nwins: nat, nsys: nat): (fits: bool)
    ensures fits ==> Lands(s, nwins, nsys)
  {
    0 <= s.window < nwins && s.level < 2 && 0 <= s.second < DEFTLEN && 0 <= s.who < nsys
    && (RowFits(s.second, s.who, nsys);
        true)
  }

  lemma RowIsUnique(second: nat, who: nat, second': nat, who': nat, nsys: nat)
    requires who < nsys && who' < nsys && second * nsys + who == second' * nsys + who'
    ensures second == second' && who == who'
  {
    MulStep(second, second', nsys);
    MulStep(second', second, nsys);
  }

  /** The index map is one-to-one ... */
  lemma CellsAreDistinct(level: nat, second: nat, who: nat, level': nat, second': nat, who': nat, nsys: nat)
    requires level < 2 && second < DEFTLEN && who < nsys
    requires level' < 2 && second' < DEFTLEN && who' < nsys
    ensures Cell(level, second, who, nsys) < 2 * Half(nsys)
    ensures Cell(level, second, who, nsys) == Cell(level', second', who', nsys) ==>
              level == level' && second == second' && who == who'
  {
    RowFits(second, who, nsys);
    RowFits(second', who', nsys);
    if Cell(level, second, who, nsys) == Cell(level', second', who', nsys) {
      RowIsUnique(second, who, second', who', nsys);
    }
  }

  /** ... and onto the cells of the array. */
  lemma EveryCellHasAKey(c: nat, nsys: nat)
    requires c < 2 * Half(nsys)
    ensures exists level: nat, second: nat, who: nat ::
              level < 2 && second < DEFTLEN && who < nsys && Cell(level, second, who, nsys) == c
  {
    var level := if c < Half(nsys) then 0 else 1;
    var row := c - level * Half(nsys);
    assert nsys > 0;
    var second, who := row / nsys, row % nsys;
    assert row == second * nsys + who;
    MulStep(DEFTLEN, second + 1, nsys);
    assert Cell(level, second, who, nsys) == c;
  }

  // ----- the ledger: the store without wrap-around, as sequences -----

  type Ledger = seq<seq<nat>>

  ghost predicate Shaped(l: Ledger, nsys: nat) {
    forall k :: 0 <= k < |l| ==> |l[k]| == 2 * Half(nsys)
  }

  function CellOf(s: Sample, nsys: nat): nat
    requires s.second >= 0 && s.who >= 0
  {
    Cell(s.level, s.second, s.who, nsys)
  }

  lemma CellFits(s: Sample, nwins: nat, nsys: nat)
    requires Fits(s, nwins, nsys)
    ensures CellOf(s, nsys) < 2 * Half(nsys)
    ensures CellOf(s, nsys) < Half(nsys) <==> s.level == 0
  {
    RowFits(s.second, s.who, nsys);
  }

  function Bump(row: seq<nat>, c: nat, value: nat): seq<nat>
    requires c < |row|
  {
    var sum: nat := row[c] + value;
    row[c := sum]
  }

  ghost function Book(l: Ledger, s: Sample, nsys: nat): (l': Ledger)
    requires Shaped(l, nsys) && Lands(s, |l|, nsys)
    ensures Shaped(l', nsys) && |l'| == |l|
  {
    l[s.window := Bump(l[s.window], CellOf(s, nsys), s.value)]
  }

  lemma BookedCell(l: Ledger, s: Sample, nsys: nat, k: nat, c: nat)
    requires Shaped(l, nsys) && Lands(s, |l|, nsys) && k < |l| && c < 2 * Half(nsys)
    ensures Book(l, s, nsys)[k][c] == l[k][c] + if k == s.window && c == CellOf(s, nsys) then s.value else 0
  {
  }

  lemma AddWraps(x: nat, v: nat)
    ensures (x % ULONG + v) % ULONG == (x + v) % ULONG
  {
  }

  ghost predicate AllLand(ss: seq<Sample>, nwins: nat, nsys: nat) {
    forall i :: 0 <= i < |ss| ==> Lands(ss[i], nwins, nsys)
  }

  ghost predicate AllFit(ss: seq<Sample>, nwins: nat, nsys: nat): (fit: bool)
    ensures fit ==> AllLand(ss, nwins, nsys)
  {
    forall i :: 0 <= i < |ss| ==> Fits(ss[i], nwins, nsys)
  }

  ghost function BookAll(l: Ledger, ss: seq<Sample>, nsys: nat): (l': Ledger)
    requires Shaped(l, nsys) && AllLand(ss, |l|, nsys)
    ensures Shaped(l', nsys) && |l'| == |l|
  {
    if ss == [] then l else Book(BookAll(l, ss[..|ss| - 1], nsys), ss[|ss| - 1], nsys)
  }

  function Blank(nwins: nat, nsys: nat): Ledger { seq(nwins, _ => seq(2 * Half(nsys), _ => 0)) }

  predicate HasKey(s: Sample, window: nat, level: nat, second: nat, who: nat) {
    s.window == window && s.level == level && s.second == second && s.who == who
  }

  /** The simple map the array stands for: the sum of the values with one flow, level, second and host. */
  function TotalFor(ss: seq<Sample>, window: nat, level: nat, second: nat, who: nat): nat {
    if ss == [] then 0
    else
      var s := ss[|ss| - 1];
      TotalFor(ss[..|ss| - 1], window, level, second, who)
      + if HasKey(s, window, level, second, who) then s.value else 0
  }

  /** The flattened array refines the map: a cell holds the total of exactly the samples with its key. */
  lemma {:induction false} CellIsTotal(ss: seq<Sample>, nwins: nat, nsys: nat,
                                       window: nat, level: nat, second: nat, who: nat)
    requires AllFit(ss, nwins, nsys)
    requires window < nwins && level < 2 && second < DEFTLEN && who < nsys
    ensures Cell(level, second, who, nsys) < 2 * Half(nsys)
    ensures BookAll(Blank(nwins, nsys), ss, nsys)[window][Cell(level, second, who, nsys)]
              == TotalFor(ss, window, level, second, who)
  {
    CellsAreDistinct(level, second, who, level, second, who, nsys);
    if ss != [] {
      var s := ss[|ss| - 1];
      CellIsTotal(ss[..|ss| - 1], nwins, nsys, window, level, second, who);
      CellsAreDistinct(level, second, who, s.level, s.second, s.who, nsys);
    }
  }

  /** Everything booked in one cell, whatever its key. */
  function TotalAt(ss: seq<Sample>, window: nat, c: nat, nsys: nat): nat {
    if ss == [] then 0
    else
      var s := ss[|ss| - 1];
      TotalAt(ss[..|ss| - 1], window, c, nsys)
      + if s.window == window && 0 <= s.second && 0 <= s.who && CellOf(s, nsys) == c then s.value else 0
  }

  /** Any samples that land are added to the cells they land in. */
  lemma {:induction false} CellHoldsWhatLands(ss: seq<Sample>, nwins: nat, nsys: nat, window: nat, c: nat)
    requires AllLand(ss, nwins, nsys) && window < nwins && c < 2 * Half(nsys)
    ensures BookAll(Blank(nwins, nsys), ss, nsys)[window][c] == TotalAt(ss, window, c, nsys)
  {
    if ss != [] {
      var n := |ss| - 1;
      CellHoldsWhatLands(ss[..n], nwins, nsys, window, c);
      BookedCell(BookAll(Blank(nwins, nsys), ss[..n], nsys), ss[n], nsys, window, c);
    }
  }

  /** A sample that lands is booked under one key of the time axis and the hosts, which is its own exactly if
      it fits; a host number above nsys is booked for another host and second. */
  lemma BookedUnderOwnKeyIff(s: Sample, nwins: nat, nsys: nat) returns (level: nat, second: nat, who: nat)
    requires Lands(s, nwins, nsys)
    ensures level < 2 && second < DEFTLEN && who < nsys && Cell(level, second, who, nsys) == CellOf(s, nsys)
    ensures level == s.level && second == s.second && who == s.who <==> Fits(s, nwins, nsys)
  {
    EveryCellHasAKey(CellOf(s, nsys), nsys);
    level, second, who :|
      level < 2 && second < DEFTLEN && who < nsys && Cell(level, second, who, nsys) == CellOf(s, nsys);
    if Fits(s, nwins, nsys) {
      CellsAreDistinct(level, second, who, s.level, s.second, s.who, nsys);
    }
  }

  // ----- readin and update -----

  /** The samples of the lines that readin does not ignore. */
  function SamplesOf(lines: seq<string>, start: nat): seq<Sample> {
    if lines == [] then []
    else
      match Parse(lines[|lines| - 1], start)
      case None => SamplesOf(lines[..|lines| - 1], start)
      case Some(s) => SamplesOf(lines[..|lines| - 1], start) + [s]
  }

  predicate LineLands(line: string, start: nat, nwins: nat, nsys: nat) {
    Parse(line, start).Some? ==> Lands(Parse(line, start).value, nwins, nsys)
  }

  /** What one line does to the ledger. */
  ghost function BookLine(l: Ledger, line: string, start: nat, nsys: nat): Ledger
    requires Shaped(l, nsys) && LineLands(line, start, |l|, nsys)
  {
    if Parse(line, start).Some? then Book(l, Parse(line, start).value, nsys) else l
  }

  /** l is what lines make of the ledger before. */
  ghost predicate Booked(before: Ledger, lines: seq<string>, l: Ledger, start: nat, nsys: nat) {
    && Shaped(before, nsys) && AllLand(SamplesOf(lines, start), |before|, nsys)
    && l == BookAll(before, SamplesOf(lines, start), nsys)
  }

  /** Line by line, the ledger is BookAll over the samples of the stream. */
  lemma NextLine(before: Ledger, lines: seq<string>, line: string, l: Ledger, start: nat, nsys: nat)
    requires Booked(before, lines, l, start, nsys) && LineLands(line, start, |before|, nsys)
    ensures |l| == |before| && Shaped(l, nsys)
    ensures Booked(before, lines + [line], BookLine(l, line, start, nsys), start, nsys)
  {
    assert (lines + [line])[..|lines|] == lines;
    var ss := SamplesOf(lines, start);
    match Parse(line, start)
    case None =>
    case Some(s) => assert (ss + [s])[..|ss|] == ss;
  }

  // ----- the clock -----

  /** What happens to a grapher: the timer fires, or a line arrives. */
  datatype Event = Tick | Line(text: string)

  /** The timer stops at the end of the time axis. */
  function NextClock(c: nat, event: Event): nat { if event.Tick? && c < DEFTLEN then c + 1 else c }

  /** A line is only taken in while the clock runs. */
  function NextHeard(lines: seq<string>, c: nat, event: Event): seq<string> {
    if event.Line? && c < DEFTLEN then lines + [event.text] else lines
  }

  function Clock(events: seq<Event>): (c: nat)
    ensures c <= DEFTLEN
  {
    if events == [] then 0 else NextClock(Clock(events[..|events| - 1]), events[|events| - 1])
  }

  function Heard(events: seq<Event>): seq<string> {
    if events == [] then []
    else
      var before := events[..|events| - 1];
      NextHeard(Heard(before), Clock(before), events[|events| - 1])
  }

  lemma NextEvent(past: seq<Event>, event: Event)
    ensures Clock(past + [event]) == NextClock(Clock(past), event)
    ensures Heard(past + [event]) == NextHeard(Heard(past), Clock(past), event)
  {
    assert (past + [event])[..|past|] == past;
  }

  /** Event i is a line that arrives while the clock runs and that readin does not ignore. */
  predicate Booking(events: seq<Event>, i: nat, start: nat) {
    i < |events| && events[i].Line? && Clock(events[..i]) < DEFTLEN && Parse(events[i].text, start).Some?
  }

  function SampleAt(events: seq<Event>, i: nat, start: nat): Sample
    requires Booking(events, i, start)
  {
    Parse(events[i].text, start).value
  }

  function TickCount(events: seq<Event>): nat {
    if events == [] then 0 else TickCount(events[..|events| - 1]) + if events[|events| - 1].Tick? then 1 else 0
  }

  /** The clock counts the ticks up to 31 minutes. */
  lemma {:induction false} ClockCountsTicks(events: seq<Event>)
    ensures Clock(events) == if TickCount(events) < 1860 then TickCount(events) else 1860
  {
    if events != [] { ClockCountsTicks(events[..|events| - 1]); }
  }

  /** A line is booked exactly if fewer than 1860 ticks came before it and readin does not ignore it. */
  lemma BookingIff(events: seq<Event>, i: nat, start: nat)
    ensures Booking(events, i, start) <==>
              i < |events| && events[i].Line? && TickCount(events[..i]) < 1860 && Parse(events[i].text, start) != None
  {
    if i < |events| { ClockCountsTicks(events[..i]); }
  }

  /** The samples of the events i with Booking(events, i, start), in order. */
  function Bookings(events: seq<Event>, start: nat): seq<Sample> {
    if events == [] then []
    else
      var n := |events| - 1;
      Bookings(events[..n], start) + if Booking(events, n, start) then [SampleAt(events, n, start)] else []
  }

  /** What is heard and not ignored is exactly what those events say. */
  lemma {:induction false} HeardAreBookings(events: seq<Event>, start: nat)
    ensures SamplesOf(Heard(events), start) == Bookings(events, start)
  {
    if events != [] {
      var n := |events| - 1;
      HeardAreBookings(events[..n], start);
      if events[n].Line? && Clock(events[..n]) < DEFTLEN {
        LineIsSampled(Heard(events[..n]), events[n].text, start);
      }
    }
  }

  lemma LineIsSampled(lines: seq<string>, line: string, start: nat)
    ensures SamplesOf(lines + [line], start)
              == SamplesOf(lines, start) + if Parse(line, start).Some? then [Parse(line, start).value] else []
  {
    assert (lines + [line])[..|lines|] == lines;
  }

  /** The values of the booking events with one key. */
  function RunTotal(events: seq<Event>, start: nat, window: nat, level: nat, second: nat, who: nat): nat {
    if events == [] then 0
    else
      var n := |events| - 1;
      RunTotal(events[..n], start, window, level, second, who)
      + if Booking(events, n, start) && HasKey(SampleAt(events, n, start), window, level, second, who)
        then SampleAt(events, n, start).value else 0
  }

  lemma {:induction false} BookingsTotal(events: seq<Event>, start: nat, window: nat, level: nat, second: nat, who: nat)
    ensures TotalFor(Bookings(events, start), window, level, second, who)
              == RunTotal(events, start, window, level, second, who)
  {
    if events != [] {
      var n := |events| - 1;
      BookingsTotal(events[..n], start, window, level, second, who);
      if Booking(events, n, start) {
        TotalStep(Bookings(events[..n], start), SampleAt(events, n, start), window, level, second, who);
      } else {
        assert Bookings(events, start) == Bookings(events[..n], start);
      }
    }
  }

  lemma TotalStep(ss: seq<Sample>, s: Sample, window: nat, level: nat, second: nat, who: nat)
    ensures TotalFor(ss + [s], window, level, second, who)
              == TotalFor(ss, window, level, second, who) + if HasKey(s, window, level, second, who) then s.value else 0
  {
    assert (ss + [s])[..|ss|] == ss;
  }

  /** Event i is a line whose addition leaves the arrays. */
  predicate LeavesArrays(events: seq<Event>, i: nat, start: nat, nwins: nat, nsys: nat) {
    Booking(events, i, start) && !Lands(SampleAt(events, i, start), nwins, nsys)
  }

  /** The time stamp of that line agrees with the grapher's clock, which ticks every interval seconds. */
  predicate Punctual(events: seq<Event>, i: nat, start: nat, interval: nat)
    requires Booking(events, i, start)
  {
    var c := Clock(events[..i]);
    interval * c <= SampleAt(events, i, start).second < interval * (c + 1)
  }

  ghost predicate PunctualLinesAreOnAxis(start: nat, interval: nat) {
    forall events: seq<Event>, i: nat ::
      Booking(events, i, start) && Punctual(events, i, start, interval) ==> SampleAt(events, i, start).second < DEFTLEN
  }

  function Ticks(n: nat): seq<Event> { seq(n, _ => Tick) }

  lemma {:induction false} ClockOfTicks(n: nat)
    requires n <= DEFTLEN
    ensures Clock(Ticks(n)) == n
  {
    if n > 0 {
      ClockOfTicks(n - 1);
      assert Ticks(n)[..n - 1] == Ticks(n - 1);
    }
  }

  /** There is a record of host 1 for every second up to 2038. */
  lemma RecordOfHostOne(sec: nat) returns (r: Record)
    requires sec < 0x8000_0000
    ensures WellFormed(r) && r.sec == sec && Atoi(r.host) == 1
  {
    HostNameIsClean(1);
    HostNumberSurvivesIff(1);
    r := Record(sec, 0, HostName(Dec(1)), Unknown, 8, true);
  }

  lemma OneTickASecond(c: nat, second: int)
    requires second < 1 * (c + 1) && c < DEFTLEN
    ensures second < DEFTLEN
  {
  }

  lemma SlowClock(interval: nat)
    requires interval > 1
    ensures var c := DEFTLEN / interval; c < DEFTLEN && interval * c <= DEFTLEN < interval * (c + 1)
  {
    var c: nat := DEFTLEN / interval;
    DividesBelow(c, DEFTLEN, interval);
    DividesBelow(c + 1, DEFTLEN, interval);
    QuotientIsBelow(DEFTLEN, interval);
  }

  /** Over all runs of ticks and lines: while the clock runs, every line whose stamp agrees with it is on the
      time axis if and only if the interval is 1.  For a longer interval, a line of second DEFTLEN is punctual
      long before the clock stops. */
  lemma PunctualLinesAreOnAxisIff(start: nat, interval: nat)
    requires interval >= 1 && start + DEFTLEN < 0x8000_0000
    ensures PunctualLinesAreOnAxis(start, interval) <==> interval == 1
  {
    if interval == 1 {
      forall events: seq<Event>, i: nat | Booking(events, i, start) && Punctual(events, i, start, interval)
        ensures SampleAt(events, i, start).second < DEFTLEN
      {
        OneTickASecond(Clock(events[..i]), SampleAt(events, i, start).second);
      }
    } else {
      var c: nat := DEFTLEN / interval;
      SlowClock(interval);
      ClockOfTicks(c);
      var r := RecordOfHostOne(start + DEFTLEN);
      PrintParse(r, start);
      var events := Ticks(c) + [Line(Print(r))];
      assert events[..c] == Ticks(c);
      assert Booking(events, c, start) && Punctual(events, c, start, interval);
      assert SampleAt(events, c, start).second == DEFTLEN;
    }
  }

  /** With interval 1, then, a run of punctual lines for existing windows and hosts never leaves the arrays. */
  lemma PunctualLinesFit(events: seq<Event>, i: nat, start: nat, nwins: nat, nsys: nat)
    requires Booking(events, i, start) && Punctual(events, i, start, 1)
    requires var s := SampleAt(events, i, start); 0 <= s.window < nwins && s.who < nsys
    ensures Fits(SampleAt(events, i, start), nwins, nsys) && !LeavesArrays(events, i, start, nwins, nsys)
  {
    OneTickASecond(Clock(events[..i]), SampleAt(events, i, start).second);
    ParsedIsInRange(events[i].text, start);
    FitsIfInRange(SampleAt(events, i, start), nwins, nsys);
  }

  lemma FitsIfInRange(s: Sample, nwins: nat, nsys: nat)
    requires 0 <= s.window < nwins && s.level < 2 && 0 <= s.second < DEFTLEN && 0 <= s.who < nsys
    ensures Fits(s, nwins, nsys) && Lands(s, nwins, nsys)
  {
    RowFits(s.second, s.who, nsys);
  }

  /** Without that agreement even interval 1 does not help: a primary sample from up to DEFTLEN seconds past
      the axis is booked, within the array, as secondary traffic of a second long gone. */
  lemma FutureLineIsMisbooked(r: Record, start: nat, nwins: nat, nsys: nat)
    requires WellFormed(r) && Accepted(r, start) && r.primary
    requires DEFTLEN <= r.sec - start < 2 * DEFTLEN && Atoi(r.host) <= nsys && WindowFor(r.tag) < nwins
    ensures Parse(Print(r), start).Some? && Misbooked(Parse(Print(r), start).value, nwins, nsys)
  {
    PrintParse(r, start);
    SampleIsMisbooked(SampleOf(r, start), nwins, nsys);
  }

  lemma SampleIsMisbooked(s: Sample, nwins: nat, nsys: nat)
    requires s.level == 0 && 0 <= s.window < nwins && 0 <= s.who < nsys && DEFTLEN <= s.second < 2 * DEFTLEN
    ensures Misbooked(s, nwins, nsys)
  {
    MulStep(s.second - DEFTLEN, DEFTLEN, nsys);
    SumTimes(s.second - DEFTLEN, DEFTLEN, nsys);
  }

  /** Booked within the arrays, under another second and the other level. */
  predicate Misbooked(s: Sample, nwins: nat, nsys: nat) {
    && Lands(s, nwins, nsys) && !Fits(s, nwins, nsys)
    && s.level == 0 && s.second - DEFTLEN >= 0
    && CellOf(s, nsys) == Cell(1, s.second - DEFTLEN, s.who, nsys)
  }

  /** n different arrays of zeroes. */
  method Zeroed(n: nat, size: nat) returns (arrays: seq<array<nat>>)
    ensures |arrays| == n
    ensures forall j :: 0 <= j < n ==> fresh(arrays[j]) && arrays[j].Length == size
    ensures forall j, k :: 0 <= j < k < n ==> arrays[j] != arrays[k]
    ensures forall k, c :: 0 <= k < n && 0 <= c < size ==> arrays[k][c] == 0
  {
    arrays := [];
    for i := 0 to n
      invariant |arrays| == i
      invariant forall j :: 0 <= j < i ==> fresh(arrays[j]) && arrays[j].Length == size
      invariant forall j, k :: 0 <= j < k < i ==> arrays[j] != arrays[k]
      invariant forall k, c :: 0 <= k < i && 0 <= c < size ==> arrays[k][c] == 0
    {
      var a := new nat[size](_ => 0);
      arrays := arrays + [a];
    }
  }

  class Grapher {
    const nsys: nat
    const start: nat
    var samps: seq<array<nat>>
    var curtime: nat
    var armed: bool          // whether the timer will call update again
    ghost var ledger: Ledger

    ghost predicate Valid()
      reads this, samps
    {
      && Shaped(ledger, nsys) && |samps| == |ledger|
      && (forall j, k :: 0 <= j < k < |samps| ==> samps[j] != samps[k])
      && (forall k :: 0 <= k < |samps| ==> samps[k].Length == 2 * Half(nsys))
      && (forall k, c :: 0 <= k < |samps| && 0 <= c < 2 * Half(nsys) ==> samps[k][c] == ledger[k][c] % ULONG)
      && curtime <= DEFTLEN && (armed ==> curtime < DEFTLEN)
    }

    constructor (nwins: nat, nsys: nat, start: nat)
      ensures Valid() && ledger == Blank(nwins, nsys) && curtime == 0 && armed
      ensures this.nsys == nsys && this.start == start && |samps| == nwins
      ensures forall k :: 0 <= k < |samps| ==> fresh(samps[k])
    {
      this.nsys, this.start := nsys, start;
      this.curtime, this.armed := 0, true;
      this.ledger := Blank(nwins, nsys);
      var arrays := Zeroed(nwins, 2 * Half(nsys));
      this.samps := arrays;
    }

    /** The addition to one cell, in 64 bits. */
    method Add(s: Sample)
      requires Valid() && Lands(s, |samps|, nsys)
      modifies this`ledger, samps
      ensures Valid() && |ledger| == old(|ledger|)
      ensures old(Shaped(ledger, nsys)) && ledger == Book(old(ledger), s, nsys)
    {
      var c := s.second * nsys + s.who + s.level * Half(nsys);
      var a := samps[s.window];
      AddWraps(ledger[s.window][c], s.value);
      a[c] := (a[c] + s.value) % ULONG;
      ghost var was := ledger;
      ledger := Book(ledger, s, nsys);
      forall k, c' | 0 <= k < |samps| && 0 <= c' < 2 * Half(nsys)
        ensures samps[k][c'] == ledger[k][c'] % ULONG
      {
        BookedCell(was, s, nsys, k, c');
      }
    }

    /** One line of input; false if its addition would leave the arrays, after which nothing is defined. */
    method ReadIn(line: string) returns (defined: bool)
      requires Valid()
      modifies this`ledger, samps
      ensures Valid() && |ledger| == old(|ledger|) && old(Shaped(ledger, nsys))
      ensures defined <==> curtime >= DEFTLEN || LineLands(line, start, |samps|, nsys)
      ensures ledger == if curtime < DEFTLEN && LineLands(line, start, |samps|, nsys)
                        then BookLine(old(ledger), line, start, nsys) else old(ledger)
    {
      defined := true;
      if curtime >= DEFTLEN {
        return;
      }
      match Parse(line, start)
      case None =>
      case Some(s) =>
        if Lands(s, |samps|, nsys) {
          Add(s);
        } else {
          defined := false;
        }
    }

    /** The next line of a stream while the clock is running. */
    method ReadNext(line: string, ghost before: Ledger, ghost lines: seq<string>) returns (defined: bool)
      requires Valid() && curtime < DEFTLEN
      requires |ledger| == |before| && Booked(before, lines, ledger, start, nsys)
      modifies this`ledger, samps
      ensures Valid() && |ledger| == |before|
      ensures defined <==> LineLands(line, start, |samps|, nsys)
      ensures Booked(before, if defined then lines + [line] else lines, ledger, start, nsys)
    {
      ghost var l := ledger;
      defined := ReadIn(line);
      if defined {
        NextLine(before, lines, line, l, start, nsys);
      }
    }

    /** A stream of lines: n is the first line that leaves the arrays, if any. */
    method ReadAll(lines: seq<string>) returns (n: nat)
      requires Valid() && curtime < DEFTLEN
      modifies this`ledger, samps
      ensures Valid() && |ledger| == old(|ledger|) && n <= |lines|
      ensures Booked(old(ledger), lines[..n], ledger, start, nsys)
      ensures n < |lines| ==> !LineLands(lines[n], start, |samps|, nsys)
    {
      ghost var before := ledger;
      n := 0;
      while n < |lines|
        invariant n <= |lines| && Valid() && |ledger| == |before|
        invariant Booked(before, lines[..n], ledger, start, nsys)
      {
        var defined := ReadNext(lines[n], before, lines[..n]);
        if !defined {
          return;
        }
        assert lines[..n + 1] == lines[..n] + [lines[n]];
        n := n + 1;
      }
    }

    /** The timer: it calls update only as long as the last call returned true. */
    method Update() returns (again: bool)
      requires Valid() && armed
      modifies this`curtime, this`armed
      ensures Valid() && curtime == old(curtime) + 1 && armed == again
      ensures again <==> curtime < DEFTLEN
    {
      curtime := curtime + 1;
      armed := curtime < DEFTLEN;
      again := armed;
    }

    /** One event of a run; false if it is a line that leaves the arrays. */
    method Handle(event: Event, ghost before: Ledger, ghost lines: seq<string>) returns (defined: bool)
      requires Valid() && (armed <==> curtime < DEFTLEN)
      requires |ledger| == |before| && Booked(before, lines, ledger, start, nsys)
      modifies this`ledger, this`curtime, this`armed, samps
      ensures Valid() && |ledger| == |before| && (armed <==> curtime < DEFTLEN)
      ensures curtime == NextClock(old(curtime), event)
      ensures Booked(before, if defined then NextHeard(lines, old(curtime), event) else lines, ledger, start, nsys)
      ensures !defined ==> event.Line? && curtime < DEFTLEN && !LineLands(event.text, start, |samps|, nsys)
    {
      defined := true;
      if event.Line? && curtime < DEFTLEN {
        defined := ReadNext(event.text, before, lines);
      } else if event.Tick? && armed {
        var _ := Update();
      }
    }

    /** What the events of a run so far have made of the grapher, from the ledger before. */
    ghost predicate Reached(before: Ledger, past: seq<Event>)
      reads this, samps
    {
      && Valid() && |ledger| == |before| && curtime == Clock(past) && (armed <==> curtime < DEFTLEN)
      && Booked(before, Heard(past), ledger, start, nsys)
    }

    method PlayNext(events: seq<Event>, n: nat, ghost before: Ledger) returns (defined: bool)
      requires n < |events| && Reached(before, events[..n])
      modifies this`ledger, this`curtime, this`armed, samps
      ensures Reached(before, events[..if defined then n + 1 else n])
      ensures !defined ==> LeavesArrays(events, n, start, |samps|, nsys)
    {
      assert events[..n + 1] == events[..n] + [events[n]];
      NextEvent(events[..n], events[n]);
      defined := Handle(events[n], before, Heard(events[..n]));
    }

    /** A run of ticks and lines from the start; n is the first event that leaves the arrays, if any. */
    method Play(events: seq<Event>) returns (n: nat)
      requires Valid() && curtime == 0 && armed
      modifies this`ledger, this`curtime, this`armed, samps
      ensures n <= |events| && Reached(old(ledger), events[..n])
      ensures n < |events| ==> LeavesArrays(events, n, start, |samps|, nsys)
    {
      ghost var before := ledger;
      n := 0;
      while n < |events|
        invariant n <= |events| && Reached(before, events[..n])
      {
        var defined := PlayNext(events, n, before);
        if !defined {
          return;
        }
        n := n + 1;
      }
    }
  }

  /** After any run of ticks and lines in range, a cell holds the total, in 64 bits, of exactly the lines with its key
      that arrived while the clock ran. */
  lemma CellsHoldRun(g: Grapher, events: seq<Event>, window: nat, level: nat, second: nat, who: nat)
    requires g.Reached(Blank(|g.samps|, g.nsys), events) && AllFit(Bookings(events, g.start), |g.samps|, g.nsys)
    requires window < |g.samps| && level < 2 && second < 1860 && who < g.nsys
    ensures Cell(level, second, who, g.nsys) < g.samps[window].Length
    ensures g.samps[window][Cell(level, second, who, g.nsys)]
              == RunTotal(events, g.start, window, level, second, who) % 0x1_0000_0000_0000_0000
  {
    HeardAreBookings(events, g.start);
    CellIsTotal(Bookings(events, g.start), |g.samps|, g.nsys, window, level, second, who);
    BookingsTotal(events, g.start, window, level, second, who);
  }
}
