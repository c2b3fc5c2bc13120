/** The collector's reconnect protocol: two threads, `main` (with `clobber`) and `conner`, share
    `needconn`, `bigfs`, the unlocked `sys[i].sock` and `lastsock`.

    Every lock-delimited region is one step, and so is every `select`, `recv`, `close`, `socket` and
    `connect`.  The outcomes of system calls are parameters of the steps, so a run of the model is a
    sequence of actions and "every run" ranges over every interleaving and every outcome. */
module Reconnect {

  type Fd = int

  const NO_SOCKET: Fd := -1

  datatype MainPc =
    | Top          // about to copy bigfs under the lock
    | Selecting    // inside select
    | Scanning     // at the test of system mi (or at the end of the loop, mi == nsys)
    | Receiving    // inside consume(mi), recv pending
    | Closing      // clobber(mi) entered, close pending
    | Clearing     // closed, FD_CLR pending
    | Opening      // cleared, socket() pending
    | Bumping      // new socket stored, lastsock not yet raised
    | Queueing     // FD_SET(mi, &needconn) pending

  datatype ConnerPc =
    | Copying              // about to copy needconn under the lock (at the start, or woken)
    | Scan                 // at the test of index ci (or at the end of the loop, ci == nsys)
    | Publishing           // connect(ci) succeeded, its locked update pending
    | Asleep(timed: bool)  // in the condition wait

  datatype State = State(
    // shared
    sock: seq<Fd>, needconn: set<nat>, bigfs: set<Fd>, lastsock: Fd,
    // main's locals
    main: MainPc, mi: nat, rfs: set<Fd>, xfs: set<Fd>, shouldsig: nat,
    // conner's locals
    conner: ConnerPc, ci: nat, fs: set<nat>, waiting: nat, alreadyfailed: bool,
    // the process's open sockets, each with the system that holds it
    open: map<Fd, nat>,
    // history: sys[].sock at main's last copy; indices queued since conner's last copy;
    // whether a signal for one of those indices was sent while conner was not asleep;
    // indices whose connect has failed since conner's last copy
    sockAtCopy: seq<Fd>, queued: set<nat>, missed: bool, failed: set<nat>)

  datatype Action =
    | CopySets
    | SelectReady(readable: set<Fd>, exceptional: set<Fd>)
    | SelectIdle
    | TestSystem
    | Receive(ok: bool)
    | CloseSocket
    | ClearSocket
    | OpenSocket(fd: Fd)
    | BumpLastSock
    | QueueSystem
    | Signal
    | CopyNeed
    | SkipIndex
    | Connect(ok: bool)
    | Publish
    | Sleep(clockWorks: bool)
    | Wake

  // ----- loading the configuration file (host branch of addconn) -----

  const EMPTY: State :=
    State([], {}, {}, 0, Top, 0, {}, {}, 0, Copying, 0, {}, 0, false, map[], [], {}, false, {})

  /** One host line: socket() gave fd, which is stored, remembered in lastsock and queued. */
  function AddSystem(s: State, fd: Fd): State {
    s.(sock := s.sock + [fd],
       lastsock := if fd > s.lastsock then fd else s.lastsock,
       needconn := s.needconn + {|s.sock|},
       open := s.open[fd := |s.sock|])
  }

  function LoadFrom(s: State, fds: seq<Fd>): State
    decreases |fds|
  {
    if fds == [] then s else LoadFrom(AddSystem(s, fds[0]), fds[1..])
  }

  function Load(fds: seq<Fd>): State { LoadFrom(EMPTY, fds) }

  /** socket() never returns a negative or already open descriptor on success. */
  ghost predicate FreshFor(s: State, fds: seq<Fd>)
    decreases |fds|
  {
    fds == [] || (fds[0] >= 0 && fds[0] !in s.open && FreshFor(AddSystem(s, fds[0]), fds[1..]))
  }

  ghost predicate FreshSockets(fds: seq<Fd>) { FreshFor(EMPTY, fds) }

  // ----- the steps -----

  ghost predicate Enabled(s: State, a: Action) {
    match a
    case CopySets => s.main.Top?
    case SelectReady(r, x) =>
      && s.main.Selecting?
      && (forall f <- r :: f in s.rfs && f <= s.lastsock)
      && (forall f <- x :: f in s.xfs && f <= s.lastsock)
    case SelectIdle => s.main.Selecting?
    case TestSystem => s.main.Scanning? && s.mi < |s.sock|
    case Receive(_) => s.main.Receiving? && s.mi < |s.sock|
    case CloseSocket => s.main.Closing? && s.mi < |s.sock|
    case ClearSocket => s.main.Clearing? && s.mi < |s.sock|
    case OpenSocket(fd) =>
      s.main.Opening? && s.mi < |s.sock| && (fd == NO_SOCKET || (fd >= 0 && fd !in s.open))
    case BumpLastSock => s.main.Bumping? && s.mi < |s.sock|
    case QueueSystem => s.main.Queueing? && s.mi < |s.sock|
    case Signal => s.main.Scanning? && s.mi == |s.sock|
    case CopyNeed => s.conner.Copying?
    case SkipIndex => s.conner.Scan? && s.ci < |s.sock| && s.ci !in s.fs
    case Connect(_) => s.conner.Scan? && s.ci < |s.sock| && s.ci in s.fs
    case Publish => s.conner.Publishing? && s.ci < |s.sock|
    case Sleep(_) => s.conner.Scan? && s.ci == |s.sock|
    case Wake => s.conner.Asleep?
  }

  /** select() looks only at descriptors up to lastsock; larger bits of the copy stay as they were. */
  function AfterSelect(copy: set<Fd>, lastsock: Fd, ready: set<Fd>): set<Fd> {
    (set f <- copy | f > lastsock) + ready
  }

  function Clobbering(p: MainPc): bool {
    p.Closing? || p.Clearing? || p.Opening? || p.Bumping? || p.Queueing?
  }

  function AfterCopySets(s: State): State {
    s.(main := Selecting, rfs := s.bigfs, xfs := s.bigfs, sockAtCopy := s.sock)
  }

  function AfterSelectReady(s: State, r: set<Fd>, x: set<Fd>): State {
    s.(main := Scanning, mi := 0,
       rfs := AfterSelect(s.rfs, s.lastsock, r), xfs := AfterSelect(s.xfs, s.lastsock, x))
  }

  function AfterTest(s: State): State
    requires s.mi < |s.sock|
  {
    if s.sock[s.mi] in s.xfs then s.(main := Closing)
    else if s.sock[s.mi] in s.rfs then s.(main := Receiving)
    else s.(mi := s.mi + 1)
  }

  function AfterReceive(s: State, ok: bool): State {
    if ok then s.(main := Scanning, mi := s.mi + 1) else s.(main := Closing)
  }

  function AfterClose(s: State): State
    requires s.mi < |s.sock|
  {
    s.(main := Clearing, open := s.open - {s.sock[s.mi]})
  }

  function AfterClear(s: State): State
    requires s.mi < |s.sock|
  {
    s.(main := Opening, bigfs := s.bigfs - {s.sock[s.mi]})
  }

  function AfterOpen(s: State, fd: Fd): State
    requires s.mi < |s.sock|
  {
    if fd == NO_SOCKET then s.(main := Scanning, sock := s.sock[s.mi := fd], mi := s.mi + 1)
    else s.(main := Bumping, sock := s.sock[s.mi := fd], open := s.open[fd := s.mi])
  }

  function AfterBump(s: State): State
    requires s.mi < |s.sock|
  {
    s.(main := Queueing, lastsock := if s.sock[s.mi] > s.lastsock then s.sock[s.mi] else s.lastsock)
  }

  function AfterQueue(s: State): State {
    s.(main := Scanning, mi := s.mi + 1, needconn := s.needconn + {s.mi},
       shouldsig := s.shouldsig + 1, queued := s.queued + {s.mi})
  }

  function AfterSignal(s: State): State {
    if s.shouldsig == 0 then s.(main := Top)
    else if s.conner.Asleep? then s.(main := Top, shouldsig := 0, conner := Copying)
    else s.(main := Top, shouldsig := 0, missed := s.missed || s.queued != {})
  }

  function AfterCopyNeed(s: State): State {
    s.(conner := Scan, ci := 0, fs := s.needconn, queued := {}, missed := false, failed := {})
  }

  function AfterConnect(s: State, ok: bool): State {
    if ok then s.(conner := Publishing)
    else s.(ci := s.ci + 1, waiting := s.waiting + 1, failed := s.failed + {s.ci})
  }

  function AfterPublish(s: State): State
    requires s.ci < |s.sock|
  {
    s.(conner := Scan, ci := s.ci + 1, bigfs := s.bigfs + {s.sock[s.ci]}, needconn := s.needconn - {s.ci})
  }

  function AfterSleep(s: State, clockWorks: bool): State {
    if s.waiting > 0 && !s.alreadyfailed then
      if clockWorks then s.(conner := Asleep(true))
      else s.(conner := Asleep(false), alreadyfailed := true)
    else s.(conner := Asleep(false))
  }

  ghost function Apply(s: State, a: Action): State
    requires Enabled(s, a)
  {
    match a
    case CopySets => AfterCopySets(s)
    case SelectReady(r, x) => AfterSelectReady(s, r, x)
    case SelectIdle => s.(main := Top)
    case TestSystem => AfterTest(s)
    case Receive(ok) => AfterReceive(s, ok)
    case CloseSocket => AfterClose(s)
    case ClearSocket => AfterClear(s)
    case OpenSocket(fd) => AfterOpen(s, fd)
    case BumpLastSock => AfterBump(s)
    case QueueSystem => AfterQueue(s)
    case Signal => AfterSignal(s)
    case CopyNeed => AfterCopyNeed(s)
    case SkipIndex => s.(ci := s.ci + 1)
    case Connect(ok) => AfterConnect(s, ok)
    case Publish => AfterPublish(s)
    case Sleep(clockWorks) => AfterSleep(s, clockWorks)
    case Wake => s.(conner := Copying)
  }

  // ----- where a system stands -----

  ghost predicate Waiting(s: State, k: nat) { k in s.needconn }

  /** clobber(k) has closed the old socket and not yet queued the new one (or dropped the system). */
  ghost predicate Handover(s: State, k: nat) {
    k == s.mi && (s.main.Clearing? || s.main.Opening? || s.main.Bumping? || s.main.Queueing?)
  }

  ghost predicate Dropped(s: State, k: nat)
    requires k < |s.sock|
  {
    s.sock[k] == NO_SOCKET
  }

  ghost predicate Connected(s: State, k: nat)
    requires k < |s.sock|
  {
    s.sock[k] in s.bigfs && s.sock[k] in s.open
  }

  // ----- the inductive invariant -----

  // The parts of the invariant take the fields they speak of, so that a step which leaves those fields
  // alone keeps the part without further proof.

  /** The system whose stored socket is closed, was just replaced, or is out of bigfs; or nsys. */
  function ClosedIndex(s: State): nat {
    if s.main.Clearing? || s.main.Opening? then s.mi else |s.sock|
  }

  function UnbumpedIndex(s: State): nat {
    if s.main.Bumping? then s.mi else |s.sock|
  }

  function ClearedIndex(s: State): nat {
    if s.main.Opening? || s.main.Bumping? || s.main.Queueing? then s.mi else |s.sock|
  }

  ghost predicate Sockets(sock: seq<Fd>, open: map<Fd, nat>, lastsock: Fd, closed: nat, unbumped: nat) {
    && (forall k :: 0 <= k < |sock| && sock[k] != NO_SOCKET && k != closed ==>
          sock[k] in open && open[sock[k]] == k)
    && (closed < |sock| ==> sock[closed] !in open)
    && (forall f <- open :: f >= 0 && open[f] < |sock| && sock[open[f]] == f && open[f] != closed)
    && (forall k :: 0 <= k < |sock| ==> sock[k] >= NO_SOCKET && (k != unbumped ==> sock[k] <= lastsock))
  }

  ghost predicate Memberships(sock: seq<Fd>, needconn: set<nat>, bigfs: set<Fd>, cleared: nat) {
    && (forall k <- needconn :: k < |sock| && k != cleared && sock[k] != NO_SOCKET)
    && (forall k :: 0 <= k < |sock| ==>
          (sock[k] in bigfs <==> k !in needconn && k != cleared && sock[k] != NO_SOCKET))
  }

  /** Nothing in bigfs but open sockets and the one clobber has closed and not yet cleared. */
  ghost predicate Owned(bigfs: set<Fd>, open: map<Fd, nat>, closing: set<Fd>) {
    forall f <- bigfs :: f in open || f in closing
  }

  function ClosingFds(s: State): set<Fd> {
    if s.main.Clearing? && s.mi < |s.sock| then {s.sock[s.mi]} else {}
  }

  /** Between a copy of bigfs and the test of system k, sys[k].sock keeps its value, and if the
      (reduced) copy has it, bigfs has it too. */
  ghost predicate FreshFrom(k0: nat, sock: seq<Fd>, sockAtCopy: seq<Fd>, rfs: set<Fd>, xfs: set<Fd>, bigfs: set<Fd>) {
    && |sockAtCopy| == |sock|
    && (forall k :: k0 <= k < |sock| ==> sock[k] == sockAtCopy[k])
    && (forall k :: k0 <= k < |sock| && (sock[k] in rfs || sock[k] in xfs) ==> sock[k] in bigfs)
  }

  ghost predicate MainLocals(p: MainPc, mi: nat, rfs: set<Fd>, xfs: set<Fd>,
                             sock: seq<Fd>, sockAtCopy: seq<Fd>, bigfs: set<Fd>)
  {
    && (p.Selecting? ==> rfs == xfs && rfs <= bigfs && FreshFrom(0, sock, sockAtCopy, rfs, xfs, bigfs))
    && (p.Scanning? ==> mi <= |sock| && FreshFrom(mi, sock, sockAtCopy, rfs, xfs, bigfs))
    && (p.Receiving? || Clobbering(p) ==>
          && mi < |sock| && sock[mi] != NO_SOCKET
          && FreshFrom(mi + 1, sock, sockAtCopy, rfs, xfs, bigfs))
    && (p.Receiving? || p.Closing? || p.Clearing? ==> sock[mi] in bigfs && sock[mi] == sockAtCopy[mi])
  }

  /** What is left of conner's copy still waits, and nothing else does except what clobber has queued and
      what has failed to connect since the copy. */
  ghost predicate ConnerScan(fs: set<nat>, ci: nat, needconn: set<nat>, queued: set<nat>, failed: set<nat>) {
    && (forall k <- fs :: k >= ci ==> k in needconn && k !in queued)
    && (forall k <- failed :: k < ci)
    && (forall k <- needconn :: k in queued || k in failed || (k in fs && k >= ci))
  }

  ghost predicate ConnerSleep(timed: bool, needconn: set<nat>, queued: set<nat>, failed: set<nat>, waiting: nat,
                              clockFailed: bool)
  {
    && (forall k <- needconn :: k in queued || k in failed)
    && (timed <==> waiting > 0 && !clockFailed)
  }

  ghost predicate ConnerLocals(p: ConnerPc, ci: nat, fs: set<nat>, waiting: nat, clockFailed: bool,
                               needconn: set<nat>, queued: set<nat>, failed: set<nat>, n: nat)
  {
    && queued <= needconn && failed <= needconn && (waiting == 0 ==> failed == {})
    && (p.Scan? ==> ci <= n && ConnerScan(fs, ci, needconn, queued, failed))
    && (p.Publishing? ==> ci < n && ci in fs && ConnerScan(fs, ci, needconn, queued, failed))
    && (p.Asleep? ==> ConnerSleep(p.timed, needconn, queued, failed, waiting, clockFailed))
  }

  /** A queued system is announced, will be announced, or its announcement was missed. */
  ghost predicate Signals(p: ConnerPc, queued: set<nat>, missed: bool, shouldsig: nat) {
    && (missed ==> queued != {})
    && (!p.Copying? && queued != {} ==> missed || shouldsig > 0)
  }

  ghost predicate Inv(s: State) {
    && Sockets(s.sock, s.open, s.lastsock, ClosedIndex(s), UnbumpedIndex(s))
    && Memberships(s.sock, s.needconn, s.bigfs, ClearedIndex(s))
    && Owned(s.bigfs, s.open, ClosingFds(s))
    && MainLocals(s.main, s.mi, s.rfs, s.xfs, s.sock, s.sockAtCopy, s.bigfs)
    && ConnerLocals(s.conner, s.ci, s.fs, s.waiting, s.alreadyfailed, s.needconn, s.queued, s.failed, |s.sock|)
    && Signals(s.conner, s.queued, s.missed, s.shouldsig)
  }

  lemma AddSystemKeepsInv(s: State, fd: Fd)
    requires Inv(s) && s.main.Top? && s.conner.Copying? && s.queued == s.failed == {}
    requires fd >= 0 && fd !in s.open
    ensures Inv(AddSystem(s, fd))
  {
    assert forall k :: 0 <= k < |s.sock| && s.sock[k] != NO_SOCKET ==> s.sock[k] in s.open;
    assert fd !in s.bigfs;
  }

  lemma {:induction false} LoadKeepsInv(s: State, fds: seq<Fd>)
    requires Inv(s) && s.main.Top? && s.conner.Copying? && s.queued == s.failed == {}
    requires FreshFor(s, fds)
    ensures Inv(LoadFrom(s, fds))
    decreases |fds|
  {
    if fds != [] {
      AddSystemKeepsInv(s, fds[0]);
      LoadKeepsInv(AddSystem(s, fds[0]), fds[1..]);
    }
  }

  lemma {:induction false} LoadStoresSockets(s: State, fds: seq<Fd>)
    ensures LoadFrom(s, fds).sock == s.sock + fds
    decreases |fds|
  {
    if fds != [] {
      LoadStoresSockets(AddSystem(s, fds[0]), fds[1..]);
      assert (s.sock + [fds[0]]) + fds[1..] == s.sock + fds;
    }
  }

  /** The state in which the two threads start satisfies the invariant. */
  lemma LoadEstablishesInv(fds: seq<Fd>)
    requires FreshSockets(fds)
    ensures Inv(Load(fds)) && Load(fds).sock == fds
  {
    LoadKeepsInv(EMPTY, fds);
    LoadStoresSockets(EMPTY, fds);
  }

  lemma CopySetsKeepsInv(s: State)
    requires Inv(s) && Enabled(s, CopySets)
    ensures Inv(AfterCopySets(s))
  {
  }

  lemma SelectReadyKeepsInv(s: State, r: set<Fd>, x: set<Fd>)
    requires Inv(s) && Enabled(s, SelectReady(r, x))
    ensures Inv(AfterSelectReady(s, r, x))
  {
  }

  lemma SelectIdleKeepsInv(s: State)
    requires Inv(s) && Enabled(s, SelectIdle)
    ensures Inv(s.(main := Top))
  {
  }

  lemma ExceptionKeepsInv(s: State)
    requires Inv(s) && Enabled(s, TestSystem) && s.sock[s.mi] in s.xfs
    ensures Inv(s.(main := Closing))
  {
    assert s.sock[s.mi] in s.bigfs;
  }

  lemma ReadableKeepsInv(s: State)
    requires Inv(s) && Enabled(s, TestSystem) && s.sock[s.mi] in s.rfs
    ensures Inv(s.(main := Receiving))
  {
    assert s.sock[s.mi] in s.bigfs;
  }

  lemma SilentKeepsInv(s: State)
    requires Inv(s) && Enabled(s, TestSystem)
    ensures Inv(s.(mi := s.mi + 1))
  {
  }

  lemma TestSystemKeepsInv(s: State)
    requires Inv(s) && Enabled(s, TestSystem)
    ensures Inv(AfterTest(s))
  {
    if s.sock[s.mi] in s.xfs {
      ExceptionKeepsInv(s);
    } else if s.sock[s.mi] in s.rfs {
      ReadableKeepsInv(s);
    } else {
      SilentKeepsInv(s);
    }
  }

  lemma ReceiveKeepsInv(s: State, ok: bool)
    requires Inv(s) && Enabled(s, Receive(ok))
    ensures Inv(AfterReceive(s, ok))
  {
  }

  lemma CloseSocketKeepsInv(s: State)
    requires Inv(s) && Enabled(s, CloseSocket)
    ensures Inv(AfterClose(s))
  {
  }

  lemma ClearSocketKeepsInv(s: State)
    requires Inv(s) && Enabled(s, ClearSocket)
    ensures Inv(AfterClear(s))
  {
  }

  lemma FailedOpenKeepsInv(s: State)
    requires Inv(s) && Enabled(s, OpenSocket(NO_SOCKET))
    ensures Inv(AfterOpen(s, NO_SOCKET))
  {
    var t := AfterOpen(s, NO_SOCKET);
    assert Memberships(t.sock, t.needconn, t.bigfs, ClearedIndex(t));
  }

  lemma OpenKeepsInv(s: State, fd: Fd)
    requires Inv(s) && Enabled(s, OpenSocket(fd)) && fd != NO_SOCKET
    ensures Inv(AfterOpen(s, fd))
  {
    var t := AfterOpen(s, fd);
    assert fd !in s.bigfs;
    assert Sockets(t.sock, t.open, t.lastsock, ClosedIndex(t), UnbumpedIndex(t));
    assert Memberships(t.sock, t.needconn, t.bigfs, ClearedIndex(t));
  }

  lemma BumpLastSockKeepsInv(s: State)
    requires Inv(s) && Enabled(s, BumpLastSock)
    ensures Inv(AfterBump(s))
  {
  }

  lemma QueueSystemKeepsInv(s: State)
    requires Inv(s) && Enabled(s, QueueSystem)
    ensures Inv(AfterQueue(s))
  {
  }

  lemma SignalKeepsInv(s: State)
    requires Inv(s) && Enabled(s, Signal)
    ensures Inv(AfterSignal(s))
  {
  }

  lemma CopyNeedKeepsInv(s: State)
    requires Inv(s) && Enabled(s, CopyNeed)
    ensures Inv(AfterCopyNeed(s))
  {
  }

  lemma SkipIndexKeepsInv(s: State)
    requires Inv(s) && Enabled(s, SkipIndex)
    ensures Inv(s.(ci := s.ci + 1))
  {
    assert ConnerScan(s.fs, s.ci + 1, s.needconn, s.queued, s.failed);
  }

  lemma FailedConnectKeepsScan(fs: set<nat>, ci: nat, needconn: set<nat>, queued: set<nat>, failed: set<nat>)
    requires ConnerScan(fs, ci, needconn, queued, failed)
    ensures ConnerScan(fs, ci + 1, needconn, queued, failed + {ci})
  {
  }

  lemma ConnectKeepsInv(s: State, ok: bool)
    requires Inv(s) && Enabled(s, Connect(ok))
    ensures Inv(AfterConnect(s, ok))
  {
    FailedConnectKeepsScan(s.fs, s.ci, s.needconn, s.queued, s.failed);
  }

  lemma PublishKeepsInv(s: State)
    requires Inv(s) && Enabled(s, Publish)
    ensures Inv(AfterPublish(s))
  {
  }

  lemma SleepKeepsInv(s: State, clockWorks: bool)
    requires Inv(s) && Enabled(s, Sleep(clockWorks))
    ensures Inv(AfterSleep(s, clockWorks))
  {
  }

  lemma WakeKeepsInv(s: State)
    requires Inv(s) && Enabled(s, Wake)
    ensures Inv(s.(conner := Copying))
  {
  }

  predicate ByConner(a: Action) {
    a.CopyNeed? || a.SkipIndex? || a.Connect? || a.Publish? || a.Sleep? || a.Wake?
  }

  lemma MainKeepsInv(s: State, a: Action)
    requires Inv(s) && Enabled(s, a) && !ByConner(a)
    ensures Inv(Apply(s, a))
  {
    match a
    case CopySets => CopySetsKeepsInv(s);
    case SelectReady(r, x) => SelectReadyKeepsInv(s, r, x);
    case SelectIdle => SelectIdleKeepsInv(s);
    case TestSystem => TestSystemKeepsInv(s);
    case Receive(ok) => ReceiveKeepsInv(s, ok);
    case CloseSocket => CloseSocketKeepsInv(s);
    case ClearSocket => ClearSocketKeepsInv(s);
    case OpenSocket(fd) => if fd == NO_SOCKET { FailedOpenKeepsInv(s); } else { OpenKeepsInv(s, fd); }
    case BumpLastSock => BumpLastSockKeepsInv(s);
    case QueueSystem => QueueSystemKeepsInv(s);
    case Signal => SignalKeepsInv(s);
  }

  lemma ConnerKeepsInv(s: State, a: Action)
    requires Inv(s) && Enabled(s, a) && ByConner(a)
    ensures Inv(Apply(s, a))
  {
    match a
    case CopyNeed => CopyNeedKeepsInv(s);
    case SkipIndex => SkipIndexKeepsInv(s);
    case Connect(ok) => ConnectKeepsInv(s, ok);
    case Publish => PublishKeepsInv(s);
    case Sleep(clockWorks) => SleepKeepsInv(s, clockWorks);
    case Wake => WakeKeepsInv(s);
  }

  lemma StepKeepsInv(s: State, a: Action)
    requires Inv(s) && Enabled(s, a)
    ensures Inv(Apply(s, a))
  {
    if ByConner(a) { ConnerKeepsInv(s, a); } else { MainKeepsInv(s, a); }
  }

  // ----- runs -----

  ghost predicate Legal(s: State, acts: seq<Action>)
    decreases |acts|
  {
    acts == [] || (Enabled(s, acts[0]) && Legal(Apply(s, acts[0]), acts[1..]))
  }

  ghost function Exec(s: State, acts: seq<Action>): State
    requires Legal(s, acts)
    decreases |acts|
  {
    if acts == [] then s else Exec(Apply(s, acts[0]), acts[1..])
  }

  /** The states some interleaving reaches after loading some configuration. */
  ghost predicate Reachable(s: State) {
    exists fds: seq<Fd>, acts: seq<Action> ::
      FreshSockets(fds) && Legal(Load(fds), acts) && s == Exec(Load(fds), acts)
  }

  lemma {:induction false} RunKeepsInv(s: State, acts: seq<Action>)
    requires Inv(s) && Legal(s, acts)
    ensures Inv(Exec(s, acts))
    decreases |acts|
  {
    if acts != [] {
      StepKeepsInv(s, acts[0]);
      RunKeepsInv(Apply(s, acts[0]), acts[1..]);
    }
  }

  lemma ReachableInv(s: State)
    requires Reachable(s)
    ensures Inv(s)
  {
    var fds: seq<Fd>, acts: seq<Action> :|
      FreshSockets(fds) && Legal(Load(fds), acts) && s == Exec(Load(fds), acts);
    LoadEstablishesInv(fds);
    RunKeepsInv(Load(fds), acts);
  }

  // ----- main results -----

  function Count(b: bool): nat { if b then 1 else 0 }

  /** Each system is waiting, connected, mid-handover or dropped, and never two of these. */
  lemma ExactlyOneStatus(s: State, k: nat)
    requires Reachable(s) && k < |s.sock|
    ensures Count(Waiting(s, k)) + Count(Connected(s, k)) + Count(Handover(s, k)) + Count(Dropped(s, k)) == 1
  {
    ReachableInv(s);
  }

  /** No two systems ever hold the same descriptor, not even a closed one awaiting replacement. */
  lemma SocketsDistinct(s: State, j: nat, k: nat)
    requires Reachable(s) && j < |s.sock| && k < |s.sock| && j != k
    requires s.sock[j] == s.sock[k]
    ensures s.sock[j] == NO_SOCKET
  {
    ReachableInv(s);
  }

  /** bigfs is the set of sockets of connected systems, plus the one clobber has just closed. */
  lemma BigfsExact(s: State, f: Fd)
    requires Reachable(s)
    ensures f in s.bigfs <==>
              || (exists k :: 0 <= k < |s.sock| && s.sock[k] == f && Connected(s, k))
              || (s.main.Clearing? && s.mi < |s.sock| && f == s.sock[s.mi])
  {
    ReachableInv(s);
    if f in s.bigfs && f in s.open {
      assert s.sock[s.open[f]] == f;
    }
  }

  /** lastsock is at least every socket, except for the moment between storing a new one and raising it. */
  lemma LastsockCovers(s: State, k: nat)
    requires Reachable(s) && k < |s.sock|
    ensures s.sock[k] <= s.lastsock || (s.main.Bumping? && k == s.mi)
  {
    ReachableInv(s);
  }

  /** select is only given open descriptors, and all of them are within the range it looks at. */
  lemma SelectSetIsOpenAndInRange(s: State, f: Fd)
    requires Reachable(s) && s.main.Selecting? && f in s.rfs + s.xfs
    ensures 0 <= f <= s.lastsock && f in s.open
  {
    ReachableInv(s);
    assert s.sock[s.open[f]] == f;
  }

  /** conner's copy stays good for the indices it has still to visit. */
  lemma ConnerCopyStaysFresh(s: State, k: nat)
    requires Reachable(s) && (s.conner.Scan? || s.conner.Publishing?)
    requires k in s.fs && k >= s.ci
    ensures k < |s.sock| && Waiting(s, k) && s.sock[k] in s.open && s.sock[k] !in s.bigfs
  {
    ReachableInv(s);
  }

  /** main's copies stay good for the systems it has still to visit, although descriptors are closed and
      their numbers come back in between. */
  lemma MainCopyStaysFresh(s: State, k: nat)
    requires Reachable(s) && s.main.Scanning? && s.mi <= k < |s.sock|
    requires s.sock[k] in s.rfs || s.sock[k] in s.xfs
    ensures |s.sockAtCopy| == |s.sock| && s.sock[k] == s.sockAtCopy[k] && Connected(s, k)
  {
    ReachableInv(s);
  }

  /** recv, shutdown and close are only ever applied to the open socket of a connected system. */
  lemma OnlyConnectedAreReadOrClosed(s: State)
    requires Reachable(s) && (s.main.Receiving? || s.main.Closing?)
    ensures s.mi < |s.sock| == |s.sockAtCopy| && Connected(s, s.mi) && s.sock[s.mi] == s.sockAtCopy[s.mi]
  {
    ReachableInv(s);
  }

  ghost predicate ConnerUses(s: State, k: nat) {
    k == s.ci && k < |s.sock| && (s.conner.Publishing? || (s.conner.Scan? && k in s.fs))
  }

  ghost predicate MainUses(s: State, k: nat) {
    k == s.mi && k < |s.sock| && (s.main.Receiving? || Clobbering(s.main))
  }

  /** sys[i].sock needs no lock: conner never connects or publishes the socket of a system that main is
      reading, closing or replacing, nor the same descriptor under another system. */
  lemma ThreadsNeverShareASystem(s: State, j: nat, k: nat)
    requires Reachable(s) && ConnerUses(s, j) && MainUses(s, k)
    ensures j != k && s.sock[j] != s.sock[k] && s.sock[j] in s.open && s.sock[j] !in s.bigfs
  {
    ReachableInv(s);
  }

  ghost function MainMove(s: State): Action {
    match s.main
    case Top => CopySets
    case Selecting => SelectIdle
    case Scanning => if s.mi < |s.sock| then TestSystem else Signal
    case Receiving => Receive(true)
    case Closing => CloseSocket
    case Clearing => ClearSocket
    case Opening => OpenSocket(NO_SOCKET)
    case Bumping => BumpLastSock
    case Queueing => QueueSystem
  }

  ghost function ConnerMove(s: State): Action {
    match s.conner
    case Copying => CopyNeed
    case Scan => if s.ci == |s.sock| then Sleep(true) else if s.ci in s.fs then Connect(true) else SkipIndex
    case Publishing => Publish
    case Asleep(_) => Wake
  }

  /** The index guards of Enabled never hold a thread back: each thread can always make its next move. */
  lemma NoThreadIsStuck(s: State)
    requires Reachable(s)
    ensures Enabled(s, MainMove(s)) && Enabled(s, ConnerMove(s))
  {
    ReachableInv(s);
  }

  // FD_ISSET of a dropped system's socket -1 is undefined in C; as a step, TestSystem reads it as "not set".
  // The next two theorems rest on that reading; NoDropWithoutFailure shows the runs that do not need it.

  lemma StepDrops(s: State, a: Action, k: nat)
    requires s.main.Opening? ==> s.mi < |s.sock| && !Dropped(s, s.mi)
    requires Enabled(s, a) && k < |s.sock|
    ensures |Apply(s, a).sock| == |s.sock|
    ensures Dropped(Apply(s, a), k) <==> Dropped(s, k) || (a == OpenSocket(NO_SOCKET) && k == s.mi)
  {
    if !a.OpenSocket? {
      assert Apply(s, a).sock == s.sock;
    }
  }

  /** A dropped system stays dropped, and only a failed socket() drops one. */
  lemma {:induction false} DroppedForGood(s: State, acts: seq<Action>, k: nat)
    requires Inv(s) && Legal(s, acts) && k < |s.sock|
    ensures |Exec(s, acts).sock| == |s.sock|
    ensures Dropped(s, k) ==> Dropped(Exec(s, acts), k)
    ensures Dropped(Exec(s, acts), k) ==> Dropped(s, k) || OpenSocket(NO_SOCKET) in acts
    decreases |acts|
  {
    if acts != [] {
      StepKeepsInv(s, acts[0]);
      StepDrops(s, acts[0], k);
      DroppedForGood(Apply(s, acts[0]), acts[1..], k);
    }
  }

  lemma {:induction false} FreshAreNotNegative(s: State, fds: seq<Fd>)
    requires FreshFor(s, fds)
    ensures forall k :: 0 <= k < |fds| ==> fds[k] >= 0
    decreases |fds|
  {
    if fds != [] {
      FreshAreNotNegative(AddSystem(s, fds[0]), fds[1..]);
      assert forall k :: 0 < k < |fds| ==> fds[k] == fds[1..][k - 1];
    }
  }

  /** Unless a socket() has failed in clobber, no system is dropped, so the sets are never asked about -1
      and every step is defined in C. */
  lemma NoDropWithoutFailure(fds: seq<Fd>, acts: seq<Action>, k: nat)
    requires FreshSockets(fds) && Legal(Load(fds), acts) && OpenSocket(NO_SOCKET) !in acts
    requires k < |fds|
    ensures k < |Exec(Load(fds), acts).sock| && Exec(Load(fds), acts).sock[k] >= 0
  {
    LoadEstablishesInv(fds);
    FreshAreNotNegative(EMPTY, fds);
    DroppedForGood(Load(fds), acts, k);
    RunKeepsInv(Load(fds), acts);
  }

  /** main is about to ask for membership of -1. */
  ghost predicate AsksAboutDropped(s: State) { s.main.Scanning? && s.mi < |s.sock| && Dropped(s, s.mi) }

  ghost predicate CanAskAboutDropped(s: State) {
    exists acts: seq<Action> ::
      Legal(s, acts) && OpenSocket(NO_SOCKET) !in acts && AsksAboutDropped(Exec(s, acts))
  }

  function Tests(n: nat): seq<Action> { if n == 0 then [] else [TestSystem] + Tests(n - 1) }

  lemma {:induction false} SilentTests(s: State, n: nat)
    requires s.main.Scanning? && s.rfs == s.xfs == {} && s.mi + n <= |s.sock|
    ensures Legal(s, Tests(n)) && Exec(s, Tests(n)) == s.(mi := s.mi + n)
    decreases n
  {
    if n > 0 {
      assert Tests(n)[1..] == Tests(n - 1);
      SilentTests(s.(mi := s.mi + 1), n - 1);
    }
  }

  lemma {:induction false} TestsOnly(n: nat, a: Action)
    ensures a in Tests(n) ==> a == TestSystem
  {
    if n > 0 { TestsOnly(n - 1, a); }
  }

  lemma DroppedIsAsked(s: State, k: nat)
    requires Inv(s) && s.main.Top? && k < |s.sock| && Dropped(s, k)
    ensures CanAskAboutDropped(s)
  {
    var t := AfterCopySets(s);
    CopySetsKeepsInv(s);
    forall f <- s.bigfs ensures f <= s.lastsock { assert s.sock[s.open[f]] == f; }
    var u := AfterSelectReady(t, {}, {});
    assert AfterSelect(s.bigfs, s.lastsock, {}) == {};
    SilentTests(u, k);
    TestsOnly(k, OpenSocket(NO_SOCKET));
    var rest := [SelectReady({}, {})] + Tests(k);
    var acts := [CopySets] + rest;
    assert acts[1..] == rest && rest[1..] == Tests(k);
    assert Legal(t, rest) && Exec(t, rest) == u.(mi := k);
    assert Legal(s, acts) && Exec(s, acts) == u.(mi := k);
  }

  /** Between two rounds of main, a run without a further failing socket() can meet that undefined test
      exactly if a system has been dropped. */
  lemma UndefinedTestIff(s: State)
    requires Reachable(s) && s.main.Top?
    ensures CanAskAboutDropped(s) <==> exists k: nat :: k < |s.sock| && Dropped(s, k)
  {
    ReachableInv(s);
    if CanAskAboutDropped(s) {
      var acts: seq<Action> :|
        Legal(s, acts) && OpenSocket(NO_SOCKET) !in acts && AsksAboutDropped(Exec(s, acts));
      var t := Exec(s, acts);
      SameSystems(s, acts);
      DroppedForGood(s, acts, t.mi);
      assert Dropped(s, t.mi);
    }
    if k: nat :| k < |s.sock| && Dropped(s, k) {
      DroppedIsAsked(s, k);
    }
  }

  lemma {:induction false} SameSystems(s: State, acts: seq<Action>)
    requires Legal(s, acts)
    ensures |Exec(s, acts).sock| == |s.sock|
    decreases |acts|
  {
    if acts != [] {
      StepKeepsSystems(s, acts[0]);
      SameSystems(Apply(s, acts[0]), acts[1..]);
    }
  }

  lemma StepKeepsSystems(s: State, a: Action)
    requires Enabled(s, a)
    ensures |Apply(s, a).sock| == |s.sock|
  {
  }

  // ----- sleeping -----

  /** Whenever conner sleeps, what waits is exactly what clobber queued and what failed to connect since its
      last copy; while no connect has ever failed it sleeps without a timeout on late arrivals only. */
  lemma SleepsOnlyOnLateArrivals(s: State)
    requires Reachable(s) && s.conner.Asleep?
    ensures s.needconn == s.queued + s.failed
    ensures s.waiting == 0 ==> !s.conner.timed && s.needconn == s.queued
  {
    ReachableInv(s);
  }

  ghost predicate TimedSleeper(s: State) {
    s.waiting > 0 && !s.alreadyfailed && (s.conner.Asleep? ==> s.conner.timed)
  }

  lemma StepKeepsTimedSleeper(s: State, a: Action)
    requires TimedSleeper(s) && Enabled(s, a) && a != Sleep(false)
    ensures TimedSleeper(Apply(s, a))
  {
  }

  /** Once a connect has failed, and as long as the clock works, every later wait has a timeout. */
  lemma {:induction false} LaterWaitsAreTimed(s: State, acts: seq<Action>)
    requires TimedSleeper(s) && Legal(s, acts) && Sleep(false) !in acts
    ensures TimedSleeper(Exec(s, acts))
    decreases |acts|
  {
    if acts != [] {
      StepKeepsTimedSleeper(s, acts[0]);
      LaterWaitsAreTimed(Apply(s, acts[0]), acts[1..]);
    }
  }

  /** The premise of LaterWaitsAreTimed holds as soon as a connect fails. */
  lemma FailedConnectMakesTimedSleeper(s: State)
    requires Reachable(s) && s.waiting > 0 && !s.alreadyfailed
    ensures TimedSleeper(s)
  {
    ReachableInv(s);
  }

  /** Once the clock has failed, every wait is untimed. */
  lemma ClockFailureIsFinal(s: State)
    requires Reachable(s) && s.alreadyfailed && s.conner.Asleep?
    ensures !s.conner.timed
  {
    ReachableInv(s);
  }

  /** conner sleeps without a timeout, and main has no signal left to send. */
  ghost predicate SoundAsleep(s: State) {
    s.conner == Asleep(false) && s.shouldsig == 0
  }

  /** "Every waiting system is eventually retried" fails exactly when conner has settled into an untimed wait
      although a connect of its last scan failed, or a signal for a system queued since its last copy was
      sent before it had gone to sleep. */
  lemma NeglectedIff(s: State)
    requires Reachable(s) && SoundAsleep(s)
    ensures s.needconn == s.queued + s.failed
    ensures s.needconn != {} <==> s.missed || s.failed != {}
  {
    ReachableInv(s);
  }

  /** The second of these only happens once the clock has failed. */
  lemma FailedAreNeglectedOnlyWithoutClock(s: State)
    requires Reachable(s) && SoundAsleep(s) && s.failed != {}
    ensures s.alreadyfailed
  {
    ReachableInv(s);
  }

  /** Short of a spurious wake-up, a neglected system waits until clobber queues another one. */
  lemma {:induction false} NeglectedUntilNextClobber(s: State, acts: seq<Action>)
    requires SoundAsleep(s) && Legal(s, acts)
    requires forall i :: 0 <= i < |acts| ==> !acts[i].Wake? && !acts[i].QueueSystem?
    ensures SoundAsleep(Exec(s, acts)) && Exec(s, acts).needconn == s.needconn
    decreases |acts|
  {
    if acts != [] {
      StepKeepsNeglect(s, acts[0]);
      NeglectedUntilNextClobber(Apply(s, acts[0]), acts[1..]);
    }
  }

  lemma StepKeepsNeglect(s: State, a: Action)
    requires SoundAsleep(s) && Enabled(s, a) && !a.Wake? && !a.QueueSystem?
    ensures SoundAsleep(Apply(s, a)) && Apply(s, a).needconn == s.needconn
  {
  }

  lemma {:induction false} RunAppend(s: State, acts: seq<Action>, a: Action)
    requires Legal(s, acts) && Enabled(Exec(s, acts), a)
    ensures Legal(s, acts + [a]) && Exec(s, acts + [a]) == Apply(Exec(s, acts), a)
    decreases |acts|
  {
    if acts == [] {
      assert [a][1..] == [];
    } else {
      RunAppend(Apply(s, acts[0]), acts[1..], a);
      assert (acts + [a])[1..] == acts[1..] + [a];
    }
  }

  lemma {:induction false} ReachableRun(s: State, acts: seq<Action>)
    requires Reachable(s) && Legal(s, acts)
    ensures Reachable(Exec(s, acts))
    decreases |acts|
  {
    if acts != [] {
      ReachableStep(s, acts[0]);
      ReachableRun(Apply(s, acts[0]), acts[1..]);
    }
  }

  lemma ReachableStep(s: State, a: Action)
    requires Reachable(s) && Enabled(s, a)
    ensures Reachable(Apply(s, a))
  {
    var fds: seq<Fd>, acts: seq<Action> :|
      FreshSockets(fds) && Legal(Load(fds), acts) && s == Exec(Load(fds), acts);
    RunAppend(Load(fds), acts, a);
  }

  // A run that neglects a system: its connection fails after conner's scan and before conner's wait.

  const LOADED := State([3], {0}, {}, 3, Top, 0, {}, {}, 0, Copying, 0, {}, 0, false, map[3 := 0], [], {}, false, {})

  const CONNECTED := LOADED.(needconn := {}, bigfs := {3}, conner := Scan, ci := 1, fs := {0})

  const RECEIVING := CONNECTED.(main := Receiving, rfs := {3}, sockAtCopy := [3])

  const REPLACED := RECEIVING.(main := Queueing, bigfs := {})

  const NEGLECTED :=
    REPLACED.(main := Top, mi := 1, needconn := {0}, conner := Asleep(false), queued := {0}, missed := true)

  lemma HostConnects()
    ensures Reachable(CONNECTED)
  {
    assert [3][1..] == [];
    assert FreshSockets([3]);
    assert Load([3]) == LOADED;
    assert Exec(LOADED, []) == LOADED;
    ReachableStep(LOADED, CopyNeed);
    var s := LOADED.(conner := Scan, fs := {0});
    ReachableStep(s, Connect(true));
    ReachableStep(s.(conner := Publishing), Publish);
    assert Apply(s.(conner := Publishing), Publish) == CONNECTED;
  }

  lemma HostIsSelected()
    ensures Reachable(RECEIVING.(main := Scanning))
  {
    HostConnects();
    ReachableStep(CONNECTED, CopySets);
    var s := CONNECTED.(main := Selecting, rfs := {3}, xfs := {3}, sockAtCopy := [3]);
    ReachableStep(s, SelectReady({3}, {}));
    assert AfterSelect({3}, 3, {3}) == {3} && AfterSelect({3}, 3, {}) == {};
  }

  lemma HostIsPolled()
    ensures Reachable(RECEIVING)
  {
    HostIsSelected();
    ReachableStep(RECEIVING.(main := Scanning), TestSystem);
  }

  lemma HostFails()
    ensures Reachable(REPLACED)
  {
    HostIsPolled();
    ReachableStep(RECEIVING, Receive(false));
    ReachableStep(RECEIVING.(main := Closing), CloseSocket);
    var s := RECEIVING.(main := Clearing, open := map[]);
    assert Apply(RECEIVING.(main := Closing), CloseSocket) == s;
    ReachableStep(s, ClearSocket);
    ReachableStep(s.(main := Opening, bigfs := {}), OpenSocket(3));
    assert Apply(s.(main := Opening, bigfs := {}), OpenSocket(3)) == REPLACED.(main := Bumping);
    ReachableStep(REPLACED.(main := Bumping), BumpLastSock);
  }

  /** "Every waiting system is eventually retried" is false: here one host waits, conner sleeps without a
      timeout, and no signal is due. */
  lemma LostWakeup()
    ensures exists s: State :: Reachable(s) && SoundAsleep(s) && s.waiting == 0 && s.main.Top? && s.needconn == {0}
  {
    HostFails();
    ReachableStep(REPLACED, QueueSystem);
    var s := REPLACED.(main := Scanning, mi := 1, needconn := {0}, shouldsig := 1, queued := {0});
    assert Apply(REPLACED, QueueSystem) == s;
    ReachableStep(s, Signal);
    ReachableStep(s.(main := Top, shouldsig := 0, missed := true), Sleep(true));
    assert Reachable(NEGLECTED);
  }

  // A second run, without any signal missed: a connect fails, and then the clock.

  const UNTIMED :=
    LOADED.(conner := Asleep(false), ci := 1, fs := {0}, waiting := 1, alreadyfailed := true, failed := {0})

  lemma LostClock()
    ensures exists s: State :: Reachable(s) && SoundAsleep(s) && !s.missed && s.main.Top? && s.needconn == {0}
  {
    assert [3][1..] == [];
    assert FreshSockets([3]);
    assert Load([3]) == LOADED;
    assert Exec(LOADED, []) == LOADED;
    ReachableStep(LOADED, CopyNeed);
    var s := LOADED.(conner := Scan, fs := {0});
    ReachableStep(s, Connect(false));
    var t := s.(ci := 1, waiting := 1, failed := {0});
    assert Apply(s, Connect(false)) == t;
    ReachableStep(t, Sleep(false));
    assert Reachable(UNTIMED);
  }
}
