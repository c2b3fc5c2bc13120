/** What the two threads of the collector do over whole runs: which systems conner tries and what it leaves waiting,
    when main's signal wakes it, and which systems main reads and replaces in a round. */
module Rounds {
  import opened Reconnect

  // ----- trying -----

  ghost predicate InScan(s: State) { s.conner.Scan? || s.conner.Publishing? }

  /** The first index conner has not tested yet. */
  ghost function Position(s: State): nat { if s.conner.Publishing? then s.ci + 1 else s.ci }

  /** The systems conner tries to connect in a run, in order. */
  ghost function Tries(s: State, acts: seq<Action>): seq<nat>
    requires Legal(s, acts)
    decreases |acts|
  {
    if acts == [] then []
    else (if acts[0].Connect? then [s.ci] else []) + Tries(Apply(s, acts[0]), acts[1..])
  }

  /** tries are the members of fs from lo up to hi, each once and in ascending order. */
  ghost predicate Visits(tries: seq<nat>, fs: set<nat>, lo: nat, hi: nat) {
    && (forall i, j :: 0 <= i < j < |tries| ==> tries[i] < tries[j])
    && (forall k :: k in tries <==> k in fs && lo <= k < hi)
  }

  lemma VisitNext(tries: seq<nat>, fs: set<nat>, lo: nat, hi: nat)
    requires Visits(tries, fs, lo + 1, hi) && lo < hi
    ensures lo in fs ==> Visits([lo] + tries, fs, lo, hi)
    ensures lo !in fs ==> Visits(tries, fs, lo, hi)
  {
    assert forall i :: 0 <= i < |tries| ==> tries[i] in tries;
    assert forall k :: k in [lo] + tries <==> k == lo || k in tries;
  }

  lemma ScanStep(s: State, a: Action)
    requires InScan(s) && Enabled(s, a) && !a.Sleep?
    ensures InScan(Apply(s, a)) && Apply(s, a).fs == s.fs && |Apply(s, a).sock| == |s.sock|
    ensures Position(Apply(s, a)) == Position(s) + Count(a.SkipIndex? || a.Connect?)
    ensures a.SkipIndex? ==> Position(s) !in s.fs
    ensures a.Connect? ==> Position(s) == s.ci && s.ci in s.fs
  {
  }

  /** Whatever main does meanwhile, a scan tries the members of conner's copy one by one. */
  lemma {:induction false} ScanTriesCopy(s: State, acts: seq<Action>)
    requires InScan(s) && Legal(s, acts) && forall i :: 0 <= i < |acts| ==> !acts[i].Sleep?
    ensures var t := Exec(s, acts);
            && InScan(t) && t.fs == s.fs && |t.sock| == |s.sock| && Position(s) <= Position(t)
            && Visits(Tries(s, acts), s.fs, Position(s), Position(t))
    decreases |acts|
  {
    if acts != [] {
      var a, rest := acts[0], acts[1..];
      ScanStep(s, a);
      ScanTriesCopy(Apply(s, a), rest);
      if a.SkipIndex? || a.Connect? {
        VisitNext(Tries(Apply(s, a), rest), s.fs, Position(s), Position(Exec(s, acts)));
      }
    }
  }

  /** conner is about to sleep, or about to look whether it should. */
  ghost predicate ScanIsOver(s: State) { s.conner.Scan? && s.ci == |s.sock| }

  /** From each copy to the next sleep conner tries exactly the systems that waited at the copy, each once. */
  lemma EveryCopyIsTried(s: State, acts: seq<Action>)
    requires Reachable(s) && Enabled(s, CopyNeed)
    requires var c := Apply(s, CopyNeed);
             Legal(c, acts) && (forall i :: 0 <= i < |acts| ==> !acts[i].Sleep?) && ScanIsOver(Exec(c, acts))
    ensures Visits(Tries(Apply(s, CopyNeed), acts), s.needconn, 0, |s.sock|)
    ensures forall k :: Waiting(s, k) <==> k in Tries(Apply(s, CopyNeed), acts)
  {
    ReachableInv(s);
    ScanTriesCopy(Apply(s, CopyNeed), acts);
  }

  ghost predicate BeforeCopy(s: State) { s.conner.Asleep? || s.conner.Copying? }

  lemma StepKeepsWaiting(s: State, a: Action)
    requires Enabled(s, a) && BeforeCopy(s) && !a.CopyNeed?
    ensures BeforeCopy(Apply(s, a)) && s.needconn <= Apply(s, a).needconn
  {
  }

  lemma {:induction false} NothingLeavesBeforeCopy(s: State, acts: seq<Action>)
    requires Legal(s, acts) && BeforeCopy(s) && forall i :: 0 <= i < |acts| ==> !acts[i].CopyNeed?
    ensures s.needconn <= Exec(s, acts).needconn
    decreases |acts|
  {
    if acts != [] {
      StepKeepsWaiting(s, acts[0]);
      NothingLeavesBeforeCopy(Apply(s, acts[0]), acts[1..]);
    }
  }

  /** So a system that waits while conner sleeps is retried in the scan after that sleep, whatever happens
      before and during the scan. */
  lemma WaitingIsRetried(s: State, asleep: seq<Action>, scan: seq<Action>, k: nat)
    requires Reachable(s) && s.conner.Asleep? && Waiting(s, k)
    requires Legal(s, asleep) && (forall i :: 0 <= i < |asleep| ==> !asleep[i].CopyNeed?)
    requires Enabled(Exec(s, asleep), CopyNeed)
    requires var c := Apply(Exec(s, asleep), CopyNeed);
             Legal(c, scan) && (forall i :: 0 <= i < |scan| ==> !scan[i].Sleep?) && ScanIsOver(Exec(c, scan))
    ensures k in Tries(Apply(Exec(s, asleep), CopyNeed), scan)
  {
    NothingLeavesBeforeCopy(s, asleep);
    ReachableRun(s, asleep);
    EveryCopyIsTried(Exec(s, asleep), scan);
  }

  function ConnerMoves(acts: seq<Action>): nat {
    if acts == [] then 0 else Count(ByConner(acts[0])) + ConnerMoves(acts[1..])
  }

  ghost predicate ScanInRange(s: State) {
    InScan(s) && s.ci <= |s.sock| && (s.conner.Publishing? ==> s.ci < |s.sock|)
  }

  /** How many moves conner has left in its scan at most. */
  ghost function MovesLeft(s: State): int { 2 * (|s.sock| - s.ci) - Count(s.conner.Publishing?) }

  lemma StepUsesMoves(s: State, a: Action)
    requires ScanInRange(s) && Enabled(s, a) && !a.Sleep?
    ensures ScanInRange(Apply(s, a)) && Count(ByConner(a)) + MovesLeft(Apply(s, a)) <= MovesLeft(s)
  {
    var t := Apply(s, a);
    assert |t.sock| == |s.sock|;
    if !ByConner(a) { assert t.conner == s.conner && t.ci == s.ci; }
  }

  /** Every scan is over after at most two moves of conner for each system, whatever main does meanwhile. */
  lemma {:induction false} ScanIsBounded(s: State, acts: seq<Action>)
    requires ScanInRange(s) && Legal(s, acts) && forall i :: 0 <= i < |acts| ==> !acts[i].Sleep?
    ensures ScanInRange(Exec(s, acts)) && ConnerMoves(acts) + MovesLeft(Exec(s, acts)) <= MovesLeft(s)
    ensures 0 <= MovesLeft(Exec(s, acts)) <= 2 * |Exec(s, acts).sock|
    ensures MovesLeft(Exec(s, acts)) == 0 <==> ScanIsOver(Exec(s, acts))
    decreases |acts|
  {
    if acts != [] {
      StepUsesMoves(s, acts[0]);
      ScanIsBounded(Apply(s, acts[0]), acts[1..]);
    }
  }

  // ----- waking -----

  ghost predicate BetweenRounds(s: State) { s.main.Top? || s.main.Selecting? }

  /** Between rounds main owes no signal. */
  ghost predicate NothingDue(s: State) { BetweenRounds(s) ==> s.shouldsig == 0 }

  lemma StepKeepsNothingDue(s: State, a: Action)
    requires NothingDue(s) && Enabled(s, a)
    ensures NothingDue(Apply(s, a))
  {
  }

  lemma {:induction false} RunKeepsNothingDue(s: State, acts: seq<Action>)
    requires NothingDue(s) && Legal(s, acts)
    ensures NothingDue(Exec(s, acts))
    decreases |acts|
  {
    if acts != [] {
      StepKeepsNothingDue(s, acts[0]);
      RunKeepsNothingDue(Apply(s, acts[0]), acts[1..]);
    }
  }

  lemma {:induction false} LoadOwesNothing(s: State, fds: seq<Fd>)
    requires s.shouldsig == 0
    ensures LoadFrom(s, fds).shouldsig == 0
    decreases |fds|
  {
    if fds != [] { LoadOwesNothing(AddSystem(s, fds[0]), fds[1..]); }
  }

  lemma ReachableOwesNothing(s: State)
    requires Reachable(s)
    ensures NothingDue(s)
  {
    var fds: seq<Fd>, acts: seq<Action> :|
      FreshSockets(fds) && Legal(Load(fds), acts) && s == Exec(Load(fds), acts);
    LoadOwesNothing(EMPTY, fds);
    RunKeepsNothingDue(Load(fds), acts);
  }

  /** A run of main alone. */
  predicate MainOnly(acts: seq<Action>) { forall i :: 0 <= i < |acts| ==> !ByConner(acts[i]) }

  lemma MainStepWakes(s: State, a: Action)
    requires Enabled(s, a) && !ByConner(a) && BeforeCopy(s)
    ensures BeforeCopy(Apply(s, a))
    ensures s.conner.Copying? ==> Apply(s, a).conner.Copying?
    ensures s.shouldsig > 0 || a.QueueSystem? ==> Apply(s, a).conner.Copying? || Apply(s, a).shouldsig > 0
    ensures s.shouldsig == 0 && !a.QueueSystem? ==> Apply(s, a).conner == s.conner && Apply(s, a).shouldsig == 0
  {
  }

  lemma {:induction false} MainRunWakes(s: State, acts: seq<Action>)
    requires Legal(s, acts) && MainOnly(acts) && BeforeCopy(s)
    ensures var t := Exec(s, acts);
            && BeforeCopy(t) && (s.conner.Copying? ==> t.conner.Copying?)
            && (s.shouldsig > 0 || QueueSystem in acts ==> t.conner.Copying? || t.shouldsig > 0)
            && (s.shouldsig == 0 && QueueSystem !in acts ==> t.conner == s.conner && t.shouldsig == 0)
    decreases |acts|
  {
    if acts != [] {
      var a, rest := acts[0], acts[1..];
      MainStepWakes(s, a);
      MainRunWakes(Apply(s, a), rest);
      assert acts == [a] + rest;
    }
  }

  /** While conner sleeps, main's rounds wake it exactly if they replace a socket. */
  lemma SignalWakesIff(s: State, acts: seq<Action>)
    requires Reachable(s) && BetweenRounds(s) && s.conner.Asleep?
    requires Legal(s, acts) && MainOnly(acts) && BetweenRounds(Exec(s, acts))
    ensures Exec(s, acts).conner.Copying? <==> QueueSystem in acts
    ensures QueueSystem !in acts ==> Exec(s, acts).conner == s.conner
  {
    ReachableOwesNothing(s);
    ReachableRun(s, acts);
    ReachableOwesNothing(Exec(s, acts));
    MainRunWakes(s, acts);
  }

  /** The systems whose sockets a run replaces. */
  ghost function Queues(s: State, acts: seq<Action>): set<nat>
    requires Legal(s, acts)
    decreases |acts|
  {
    if acts == [] then {}
    else (if acts[0].QueueSystem? then {s.mi} else {}) + Queues(Apply(s, acts[0]), acts[1..])
  }

  lemma {:induction false} QueuedWait(s: State, acts: seq<Action>)
    requires Legal(s, acts) && MainOnly(acts) && BeforeCopy(s)
    ensures Queues(s, acts) <= Exec(s, acts).needconn
    decreases |acts|
  {
    if acts != [] {
      var a, rest := acts[0], acts[1..];
      MainStepWakes(s, a);
      QueuedWait(Apply(s, a), rest);
      NothingLeavesBeforeCopy(Apply(s, a), rest);
    }
  }

  /** A system whose socket is replaced while conner sleeps is tried in the scan that the signal starts. */
  lemma ReplacedIsTried(s: State, rounds: seq<Action>, scan: seq<Action>, k: nat)
    requires Reachable(s) && BetweenRounds(s) && s.conner.Asleep?
    requires Legal(s, rounds) && MainOnly(rounds) && BetweenRounds(Exec(s, rounds)) && k in Queues(s, rounds)
    ensures Enabled(Exec(s, rounds), CopyNeed)
    ensures var c := Apply(Exec(s, rounds), CopyNeed);
            Legal(c, scan) && (forall i :: 0 <= i < |scan| ==> !scan[i].Sleep?) && ScanIsOver(Exec(c, scan)) ==>
              k in Tries(c, scan)
  {
    QueuesAreQueued(s, rounds, k);
    SignalWakesIff(s, rounds);
    QueuedWait(s, rounds);
    ReachableRun(s, rounds);
    var t := Exec(s, rounds);
    var c := Apply(t, CopyNeed);
    if Legal(c, scan) && (forall i :: 0 <= i < |scan| ==> !scan[i].Sleep?) && ScanIsOver(Exec(c, scan)) {
      EveryCopyIsTried(t, scan);
      assert Waiting(t, k);
    }
  }

  lemma {:induction false} QueuesAreQueued(s: State, acts: seq<Action>, k: nat)
    requires Legal(s, acts) && k in Queues(s, acts)
    ensures QueueSystem in acts
    decreases |acts|
  {
    if !acts[0].QueueSystem? {
      QueuesAreQueued(Apply(s, acts[0]), acts[1..], k);
      assert acts == [acts[0]] + acts[1..];
    }
  }

  // ----- what a scan leaves behind -----

  /** The systems whose connect fails in a run. */
  ghost function Failures(s: State, acts: seq<Action>): set<nat>
    requires Legal(s, acts)
    decreases |acts|
  {
    if acts == [] then {}
    else (if acts[0] == Connect(false) then {s.ci} else {}) + Failures(Apply(s, acts[0]), acts[1..])
  }

  predicate NoCopy(acts: seq<Action>) { forall i :: 0 <= i < |acts| ==> !acts[i].CopyNeed? }

  lemma StepHistory(s: State, a: Action)
    requires Enabled(s, a) && !a.CopyNeed?
    ensures Apply(s, a).queued == s.queued + (if a.QueueSystem? then {s.mi} else {})
    ensures Apply(s, a).failed == s.failed + (if a == Connect(false) then {s.ci} else {})
  {
  }

  lemma {:induction false} HistoryOfRun(s: State, acts: seq<Action>)
    requires Legal(s, acts) && NoCopy(acts)
    ensures Exec(s, acts).queued == s.queued + Queues(s, acts)
    ensures Exec(s, acts).failed == s.failed + Failures(s, acts)
    decreases |acts|
  {
    if acts != [] {
      StepHistory(s, acts[0]);
      HistoryOfRun(Apply(s, acts[0]), acts[1..]);
    }
  }

  /** From a copy of needconn to the next, once the scan is over, exactly those systems wait whose connect failed or
      whose socket was replaced since the copy: every other system of the copy was connected. */
  lemma WaitingAfterScan(s: State, acts: seq<Action>)
    requires Reachable(s) && Enabled(s, CopyNeed) && Legal(Apply(s, CopyNeed), acts) && NoCopy(acts)
    requires var t := Exec(Apply(s, CopyNeed), acts); t.conner.Asleep? || ScanIsOver(t)
    ensures var c := Apply(s, CopyNeed); Exec(c, acts).needconn == Failures(c, acts) + Queues(c, acts)
  {
    var c := Apply(s, CopyNeed);
    ReachableInv(s);
    StepKeepsInv(s, CopyNeed);
    RunKeepsInv(c, acts);
    HistoryOfRun(c, acts);
    NoneBeyond(Exec(c, acts));
  }

  lemma NoneBeyond(t: State)
    requires Inv(t) && (t.conner.Asleep? || ScanIsOver(t))
    ensures t.needconn == t.queued + t.failed
  {
  }

  lemma {:induction false} SomeFailureIff(s: State, acts: seq<Action>)
    requires Legal(s, acts)
    ensures Failures(s, acts) != {} <==> Connect(false) in acts
    ensures Queues(s, acts) != {} <==> QueueSystem in acts
    decreases |acts|
  {
    if acts != [] {
      SomeFailureIff(Apply(s, acts[0]), acts[1..]);
      assert acts == [acts[0]] + acts[1..];
    }
  }

  /** In terms of runs: conner has settled into an untimed wait while a system waits, exactly if since its last copy a
      connect has failed or a socket was replaced. */
  lemma NeglectedRunIff(s: State, acts: seq<Action>)
    requires Reachable(s) && Enabled(s, CopyNeed) && Legal(Apply(s, CopyNeed), acts) && NoCopy(acts)
    requires SoundAsleep(Exec(Apply(s, CopyNeed), acts))
    ensures Exec(Apply(s, CopyNeed), acts).needconn != {} <==> Connect(false) in acts || QueueSystem in acts
  {
    WaitingAfterScan(s, acts);
    SomeFailureIff(Apply(s, CopyNeed), acts);
  }

  lemma StepCountsFailures(s: State, a: Action)
    requires Enabled(s, a)
    ensures Apply(s, a).waiting == s.waiting + Count(a == Connect(false))
    ensures a != Sleep(false) ==> Apply(s, a).alreadyfailed == s.alreadyfailed
  {
  }

  lemma {:induction false} WaitingCountsFailures(s: State, acts: seq<Action>)
    requires Legal(s, acts) && Sleep(false) !in acts
    ensures Exec(s, acts).alreadyfailed == s.alreadyfailed
    ensures Exec(s, acts).waiting >= s.waiting
    ensures Exec(s, acts).waiting > s.waiting <==> Connect(false) in acts
    decreases |acts|
  {
    if acts != [] {
      assert acts == [acts[0]] + acts[1..];
      StepCountsFailures(s, acts[0]);
      WaitingCountsFailures(Apply(s, acts[0]), acts[1..]);
    }
  }

  lemma {:induction false} LoadHasNotFailed(s: State, fds: seq<Fd>)
    requires s.waiting == 0 && !s.alreadyfailed
    ensures LoadFrom(s, fds).waiting == 0 && !LoadFrom(s, fds).alreadyfailed
    decreases |fds|
  {
    if fds != [] { LoadHasNotFailed(AddSystem(s, fds[0]), fds[1..]); }
  }

  /** While the clock works, conner waits with a timeout exactly if some connect has ever failed. */
  lemma TimedIff(fds: seq<Fd>, acts: seq<Action>)
    requires FreshSockets(fds) && Legal(Load(fds), acts) && Sleep(false) !in acts
    requires Exec(Load(fds), acts).conner.Asleep?
    ensures Exec(Load(fds), acts).conner.timed <==> Connect(false) in acts
  {
    LoadEstablishesInv(fds);
    LoadHasNotFailed(EMPTY, fds);
    RunKeepsInv(Load(fds), acts);
    WaitingCountsFailures(Load(fds), acts);
  }

  // ----- what a round of main serves -----

  /** Every connected system is asked about. */
  lemma EveryConnectedIsPolled(s: State, k: nat)
    requires Enabled(s, CopySets) && k < |s.sock| && Connected(s, k)
    ensures s.sock[k] in Apply(s, CopySets).rfs && s.sock[k] in Apply(s, CopySets).xfs
  {
  }

  ghost predicate InRound(s: State) { !BetweenRounds(s) }

  /** The systems main calls recv for in a run, in order. */
  ghost function Reads(s: State, acts: seq<Action>): seq<nat>
    requires Legal(s, acts)
    decreases |acts|
  {
    if acts == [] then []
    else (if acts[0].Receive? then [s.mi] else []) + Reads(Apply(s, acts[0]), acts[1..])
  }

  /** Those for which it reports an error or the end of the stream. */
  ghost function BadReads(s: State, acts: seq<Action>): set<nat>
    requires Legal(s, acts)
    decreases |acts|
  {
    if acts == [] then {}
    else (if acts[0] == Receive(false) then {s.mi} else {}) + BadReads(Apply(s, acts[0]), acts[1..])
  }

  /** The systems whose sockets main closes in a run, in order. */
  ghost function Closes(s: State, acts: seq<Action>): seq<nat>
    requires Legal(s, acts)
    decreases |acts|
  {
    if acts == [] then []
    else (if acts[0].CloseSocket? then [s.mi] else []) + Closes(Apply(s, acts[0]), acts[1..])
  }

  /** A socket that is reported readable and not exceptional. */
  predicate OnlyReadable(f: Fd, rfs: set<Fd>, xfs: set<Fd>) { f in rfs && f !in xfs }

  /** The systems with such sockets, and those with exceptional ones, by their sockets at the copy. */
  function ReadableAmong(sock: seq<Fd>, rfs: set<Fd>, xfs: set<Fd>): set<nat> {
    set k: nat | k < |sock| && OnlyReadable(sock[k], rfs, xfs)
  }

  function ExceptionalAmong(sock: seq<Fd>, xfs: set<Fd>): set<nat> { set k: nat | k < |sock| && sock[k] in xfs }

  ghost function Readable(s: State): set<nat> { ReadableAmong(s.sockAtCopy, s.rfs, s.xfs) }

  ghost function Exceptional(s: State): set<nat> { ExceptionalAmong(s.sockAtCopy, s.xfs) }

  ghost function ReadPosition(s: State): nat { if s.main.Scanning? || s.main.Receiving? then s.mi else s.mi + 1 }

  /** A round in which a pending recv is for a readable system. */
  ghost predicate Round(s: State) {
    && InRound(s)
    && (s.main.Receiving? ==>
          s.mi < |s.sockAtCopy| && OnlyReadable(s.sockAtCopy[s.mi], s.rfs, s.xfs))
  }

  ghost predicate SameCopies(s: State, t: State) {
    t.sockAtCopy == s.sockAtCopy && t.rfs == s.rfs && t.xfs == s.xfs
  }

  lemma RoundKeepsCopies(s: State, a: Action)
    requires InRound(s) && Enabled(s, a) && !a.Signal?
    ensures InRound(Apply(s, a)) && SameCopies(s, Apply(s, a)) && |Apply(s, a).sock| == |s.sock|
  {
  }

  lemma TestDecides(s: State)
    requires Inv(s) && Enabled(s, TestSystem)
    ensures s.mi < |s.sockAtCopy| && s.sock[s.mi] == s.sockAtCopy[s.mi]
  {
  }

  lemma RoundTest(s: State)
    requires Inv(s) && Round(s) && Enabled(s, TestSystem)
    ensures var t, k := AfterTest(s), s.mi;
            && ReadPosition(s) == k < |s.sockAtCopy| && Round(t)
            && ReadPosition(t) == if OnlyReadable(s.sockAtCopy[k], s.rfs, s.xfs) then k else k + 1
  {
    TestDecides(s);
  }

  /** Nothing but a test or a recv moves the position, and only a test leads to a recv. */
  lemma RoundRest(s: State, a: Action)
    requires InRound(s) && Enabled(s, a) && !a.Signal? && !a.TestSystem? && !a.Receive?
    ensures ReadPosition(Apply(s, a)) == ReadPosition(s)
    ensures Apply(s, a).main.Receiving? ==> s.main.Receiving? && Apply(s, a).mi == s.mi
  {
  }

  lemma RoundStep(s: State, a: Action)
    requires Inv(s) && Round(s) && Enabled(s, a) && !a.Signal?
    ensures Round(Apply(s, a)) && (a.Receive? ==> ReadPosition(s) == s.mi)
    ensures var p, p' := ReadPosition(s), ReadPosition(Apply(s, a));
            || (p' == p && !a.Receive?)
            || (p' == p + 1 && p < |s.sockAtCopy| && (a.Receive? <==> OnlyReadable(s.sockAtCopy[p], s.rfs, s.xfs)))
  {
    RoundKeepsCopies(s, a);
    if a.TestSystem? {
      RoundTest(s);
    } else if !a.Receive? {
      RoundRest(s, a);
    }
  }

  lemma {:induction false} RoundReads(s: State, acts: seq<Action>)
    requires Inv(s) && Round(s) && Legal(s, acts) && forall i :: 0 <= i < |acts| ==> !acts[i].Signal?
    ensures var t := Exec(s, acts);
            && Round(t) && SameCopies(s, t) && |t.sock| == |s.sock| && ReadPosition(s) <= ReadPosition(t)
            && Visits(Reads(s, acts), Readable(s), ReadPosition(s), ReadPosition(t))
    decreases |acts|
  {
    if acts != [] {
      var a, rest := acts[0], acts[1..];
      StepKeepsInv(s, a);
      RoundKeepsCopies(s, a);
      RoundStep(s, a);
      RoundReads(Apply(s, a), rest);
      if ReadPosition(Apply(s, a)) != ReadPosition(s) {
        VisitNext(Reads(Apply(s, a), rest), Readable(s), ReadPosition(s), ReadPosition(Exec(s, acts)));
      }
    }
  }

  ghost function ClosePosition(s: State): nat {
    if s.main.Scanning? || s.main.Receiving? || s.main.Closing? then s.mi else s.mi + 1
  }

  /** The systems that a run has to close: the exceptional ones, those that fail to be read, and one already begun. */
  ghost function ToClose(s: State, acts: seq<Action>): set<nat>
    requires Legal(s, acts)
  {
    Exceptional(s) + BadReads(s, acts) + if s.main.Closing? then {s.mi} else {}
  }

  lemma VisitsAgree(tries: seq<nat>, fs: set<nat>, fs': set<nat>, lo: nat, hi: nat)
    requires Visits(tries, fs', lo, hi) && forall k :: lo <= k < hi ==> (k in fs <==> k in fs')
    ensures Visits(tries, fs, lo, hi)
  {
  }

  lemma {:induction false} BadReadsAreReads(s: State, acts: seq<Action>, k: nat)
    requires Legal(s, acts) && k in BadReads(s, acts)
    ensures k in Reads(s, acts)
    decreases |acts|
  {
    if !(acts[0] == Receive(false) && k == s.mi) {
      BadReadsAreReads(Apply(s, acts[0]), acts[1..], k);
    }
  }

  /** What one step from s to t does to the work of closing. */
  ghost predicate CloseMoves(s: State, a: Action, t: State) {
    var p := ClosePosition(s);
    && (a.CloseSocket? ==> s.main.Closing? && !t.main.Closing? && p == s.mi && ClosePosition(t) == p + 1)
    && (!a.CloseSocket? && s.main.Closing? ==> t.main == s.main && t.mi == s.mi)
    && (a == Receive(false) ==> t.main.Closing? && t.mi == s.mi == p && ClosePosition(t) == p)
    && (!s.main.Closing? && t.main.Closing? && !a.Receive? ==>
          t.mi < |s.sockAtCopy| && s.sockAtCopy[t.mi] in s.xfs && ClosePosition(t) == p)
    && (ClosePosition(t) == p
        || (ClosePosition(t) == p + 1 && !t.main.Closing? && (a.CloseSocket? || PassesOver(s, a, t))))
  }

  ghost predicate PassesOver(s: State, a: Action, t: State) {
    var p := ClosePosition(s);
    && p == s.mi < |s.sockAtCopy| && s.sockAtCopy[p] !in s.xfs
    && ReadPosition(t) == p + 1 && a != Receive(false) && !s.main.Closing?
  }

  lemma CloseTest(s: State)
    requires Inv(s) && Round(s) && Enabled(s, TestSystem)
    ensures CloseMoves(s, TestSystem, AfterTest(s))
  {
    TestDecides(s);
  }

  lemma CloseReceive(s: State, ok: bool)
    requires Round(s) && Enabled(s, Receive(ok))
    ensures CloseMoves(s, Receive(ok), AfterReceive(s, ok))
  {
  }

  lemma CloseByConner(s: State, a: Action)
    requires Enabled(s, a) && ByConner(a)
    ensures Apply(s, a).main == s.main && Apply(s, a).mi == s.mi
  {
  }

  lemma CloseRest(s: State, a: Action)
    requires InRound(s) && Enabled(s, a) && !a.Signal? && !ByConner(a) && !a.TestSystem? && !a.Receive?
    ensures CloseMoves(s, a, Apply(s, a))
  {
  }

  lemma CloseStep(s: State, a: Action)
    requires Inv(s) && Round(s) && Enabled(s, a) && !a.Signal?
    ensures CloseMoves(s, a, Apply(s, a))
  {
    if a.TestSystem? {
      CloseTest(s);
    } else if a.Receive? {
      CloseReceive(s, a.ok);
    } else if ByConner(a) {
      CloseByConner(s, a);
    } else {
      CloseRest(s, a);
    }
  }

  lemma ToCloseStep(s: State, acts: seq<Action>, k: nat, hi: nat)
    requires Inv(s) && Round(s) && acts != [] && Legal(s, acts) && !acts[0].Signal?
    requires ClosePosition(Apply(s, acts[0])) <= k < hi
    ensures k in ToClose(s, acts) <==> k in ToClose(Apply(s, acts[0]), acts[1..])
  {
    CloseStep(s, acts[0]);
    RoundKeepsCopies(s, acts[0]);
  }

  /** Whether the next system is closed or passed over. */
  lemma NextToClose(s: State, acts: seq<Action>)
    requires Inv(s) && Round(s) && acts != [] && Legal(s, acts) && forall i :: 0 <= i < |acts| ==> !acts[i].Signal?
    requires ClosePosition(Apply(s, acts[0])) != ClosePosition(s)
    ensures ClosePosition(s) in ToClose(s, acts) <==> acts[0].CloseSocket?
  {
    var a, t, rest, p := acts[0], Apply(s, acts[0]), acts[1..], ClosePosition(s);
    CloseStep(s, a);
    if !a.CloseSocket? && p in BadReads(s, acts) {
      assert p in BadReads(t, rest);
      BadReadsAreReads(t, rest, p);
      StepKeepsInv(s, a);
      RoundStep(s, a);
      RoundReads(t, rest);
      assert false;
    }
  }

  lemma {:induction false} RoundCloses(s: State, acts: seq<Action>)
    requires Inv(s) && Round(s) && Legal(s, acts) && forall i :: 0 <= i < |acts| ==> !acts[i].Signal?
    ensures var t := Exec(s, acts);
            && ClosePosition(s) <= ClosePosition(t)
            && Visits(Closes(s, acts), ToClose(s, acts), ClosePosition(s), ClosePosition(t))
    decreases |acts|
  {
    if acts != [] {
      var a, u, rest := acts[0], Apply(s, acts[0]), acts[1..];
      StepKeepsInv(s, a);
      RoundStep(s, a);
      CloseStep(s, a);
      RoundCloses(u, rest);
      var hi := ClosePosition(Exec(s, acts));
      forall k | ClosePosition(u) <= k < hi ensures k in ToClose(s, acts) <==> k in ToClose(u, rest) {
        ToCloseStep(s, acts, k, hi);
      }
      VisitsAgree(Closes(u, rest), ToClose(s, acts), ToClose(u, rest), ClosePosition(u), hi);
      if ClosePosition(u) != ClosePosition(s) {
        NextToClose(s, acts);
        VisitNext(Closes(u, rest), ToClose(s, acts), ClosePosition(s), hi);
      }
    }
  }

  /** select has left exactly what it reports in the copies. */
  lemma SelectReports(s: State, r: set<Fd>, x: set<Fd>)
    requires Inv(s) && Enabled(s, SelectReady(r, x))
    ensures var c := AfterSelectReady(s, r, x); c.rfs == r && c.xfs == x && c.sockAtCopy == s.sock && c.mi == 0
  {
    forall f <- s.bigfs ensures f <= s.lastsock { assert f in s.open && s.sock[s.open[f]] == f; }
  }

  /** In the round after select has reported r as readable and x as exceptional, main calls recv for exactly the systems
      in r that are not in x, and replaces exactly those in x and those recv fails for, each once and in order. */
  lemma EveryReadyIsServed(s: State, r: set<Fd>, x: set<Fd>, acts: seq<Action>)
    requires Reachable(s) && Enabled(s, SelectReady(r, x)) && Legal(Apply(s, SelectReady(r, x)), acts)
    requires forall i :: 0 <= i < |acts| ==> !acts[i].Signal?
    requires var t := Exec(Apply(s, SelectReady(r, x)), acts); t.main.Scanning? && t.mi == |t.sock|
    ensures var c := Apply(s, SelectReady(r, x));
            && (forall k: nat :: k in Reads(c, acts) <==> k < |s.sock| && s.sock[k] in r && s.sock[k] !in x)
            && (forall k: nat :: k in Closes(c, acts) <==>
                  k < |s.sock| && (s.sock[k] in x || k in BadReads(c, acts)))
            && (forall i, j :: 0 <= i < j < |Reads(c, acts)| ==> Reads(c, acts)[i] < Reads(c, acts)[j])
            && (forall i, j :: 0 <= i < j < |Closes(c, acts)| ==> Closes(c, acts)[i] < Closes(c, acts)[j])
  {
    var c := Apply(s, SelectReady(r, x));
    ReachableInv(s);
    SelectReports(s, r, x);
    StepKeepsInv(s, SelectReady(r, x));
    RoundReads(c, acts);
    RoundCloses(c, acts);
    forall k | k in BadReads(c, acts) ensures k < |s.sock| {
      BadReadsAreReads(c, acts, k);
    }
  }

  /** Whatever the system calls may return, the model lets them return it. */
  lemma EveryOutcomeIsPossible(s: State, fd: Fd, r: set<Fd>, x: set<Fd>)
    requires Reachable(s)
    ensures s.main.Selecting? && r <= s.rfs && x <= s.xfs ==> Enabled(s, SelectReady(r, x)) && Enabled(s, SelectIdle)
    ensures s.main.Receiving? ==> Enabled(s, Receive(true)) && Enabled(s, Receive(false))
    ensures s.main.Opening? && (fd == -1 || (fd >= 0 && fd !in s.open)) ==> Enabled(s, OpenSocket(fd))
    ensures s.conner.Scan? && s.ci < |s.sock| && s.ci in s.fs ==>
              Enabled(s, Connect(true)) && Enabled(s, Connect(false))
    ensures s.conner.Scan? && s.ci == |s.sock| ==> Enabled(s, Sleep(true)) && Enabled(s, Sleep(false))
    ensures s.conner.Asleep? ==> Enabled(s, Wake)
  {
    ReachableInv(s);
    if s.main.Selecting? {
      forall f <- s.bigfs ensures f <= s.lastsock { assert f in s.open && s.sock[s.open[f]] == f; }
    }
  }
}
