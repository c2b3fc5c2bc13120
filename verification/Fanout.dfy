/** The agent's fan-out: `acceptor` inserts accepted connections into `bigfs`, and two broadcasters
    (`blastpacket` and `watchstat`) send every record to every descriptor in `bigfs`, dropping the dead
    ones in the middle of the iteration.  All of them use `biglock`, except that `accept` runs outside
    it, so the number of a descriptor closed during a broadcast may come back at once. */
module Fanout {

  type Fd = nat

  /** A connection, told apart from every other connection whatever its descriptor number. */
  type Client = nat

  const FD_SETSIZE: nat := 1024

  datatype Broadcaster = Capture | Statistics

  /** A record is known by who sent it and how many records that thread had sent before. */
  datatype Record = Record(from: Broadcaster, serial: nat)

  datatype Lock =
    | Free
    | Sending(who: Broadcaster, i: nat)   // who holds the lock and is about to look at descriptor i
    | Closing(who: Broadcaster, i: nat)   // send(i) failed, FD_CLR done, close(i) pending

  datatype Acceptor = Idle | Accepted(fd: Fd)

  datatype State = State(
    clientAt: map<Fd, Client>,     // the process's open connections
    otherFds: set<Fd>,             // its other open descriptors (listening socket, log file, ...)
    bigfs: set<Fd>,
    lock: Lock,
    acceptor: Acceptor,
    // history
    clients: nat,                        // connections accepted so far
    fdOf: map<Client, Fd>,               // the number each was accepted under
    log: seq<Record>,                    // all records, in the order in which their broadcasts began
    captured: nat, sampled: nat,         // records begun by each broadcaster
    received: map<Client, seq<Record>>,  // what each connection was sent successfully
    joined: map<Client, nat>,            // |log| when the connection was inserted
    left: map<Client, nat>)              // position in log of its first failed send

  datatype Action =
    | Accept(fd: Fd)
    | Insert
    | Begin(who: Broadcaster)
    | SkipFd
    | SendOk
    | SendFail
    | CloseFd
    | End
    | OpenOther(fd: Fd)
    | CloseOther(fd: Fd)

  const INITIAL := State(map[], {}, {}, Free, Idle, 0, map[], [], 0, 0, map[], map[], map[])

  ghost predicate Enabled(s: State, a: Action) {
    match a
    case Accept(fd) => s.acceptor.Idle? && fd < FD_SETSIZE && fd !in s.clientAt && fd !in s.otherFds
    case Insert => s.lock.Free? && s.acceptor.Accepted? && s.acceptor.fd in s.clientAt
    case Begin(_) => s.lock.Free?
    case SkipFd => s.lock.Sending? && s.lock.i < FD_SETSIZE && s.lock.i !in s.bigfs
    case SendOk =>
      && s.lock.Sending? && s.lock.i in s.bigfs && s.log != []
      && s.lock.i in s.clientAt && s.clientAt[s.lock.i] in s.received
    case SendFail => s.lock.Sending? && s.lock.i in s.bigfs && s.log != [] && s.lock.i in s.clientAt
    case CloseFd => s.lock.Closing?
    case End => s.lock.Sending? && s.lock.i == FD_SETSIZE
    case OpenOther(fd) => fd !in s.clientAt && fd !in s.otherFds
    case CloseOther(fd) => fd in s.otherFds
  }

  function NextRecord(s: State, who: Broadcaster): Record {
    Record(who, if who.Capture? then s.captured else s.sampled)
  }

  function AfterAccept(s: State, fd: Fd): State {
    s.(acceptor := Accepted(fd), clientAt := s.clientAt[fd := s.clients], clients := s.clients + 1,
       fdOf := s.fdOf[s.clients := fd], received := s.received[s.clients := []])
  }

  ghost function AfterInsert(s: State): State
    requires Enabled(s, Insert)
  {
    s.(acceptor := Idle, bigfs := s.bigfs + {s.acceptor.fd},
       joined := s.joined[s.clientAt[s.acceptor.fd] := |s.log|])
  }

  function AfterBegin(s: State, who: Broadcaster): State {
    s.(lock := Sending(who, 0), log := s.log + [NextRecord(s, who)],
       captured := s.captured + if who.Capture? then 1 else 0,
       sampled := s.sampled + if who.Statistics? then 1 else 0)
  }

  function AfterSkip(s: State): State
    requires s.lock.Sending?
  {
    s.(lock := Sending(s.lock.who, s.lock.i + 1))
  }

  ghost function AfterSend(s: State): State
    requires Enabled(s, SendOk)
  {
    var c := s.clientAt[s.lock.i];
    s.(lock := Sending(s.lock.who, s.lock.i + 1),
       received := s.received[c := s.received[c] + [s.log[|s.log| - 1]]])
  }

  ghost function AfterFail(s: State): State
    requires Enabled(s, SendFail)
  {
    s.(lock := Closing(s.lock.who, s.lock.i), bigfs := s.bigfs - {s.lock.i},
       left := s.left[s.clientAt[s.lock.i] := |s.log| - 1])
  }

  function AfterClose(s: State): State
    requires s.lock.Closing?
  {
    s.(lock := Sending(s.lock.who, s.lock.i + 1), clientAt := s.clientAt - {s.lock.i})
  }

  ghost function Apply(s: State, a: Action): State
    requires Enabled(s, a)
  {
    match a
    case Accept(fd) => AfterAccept(s, fd)
    case Insert => AfterInsert(s)
    case Begin(who) => AfterBegin(s, who)
    case SkipFd => AfterSkip(s)
    case SendOk => AfterSend(s)
    case SendFail => AfterFail(s)
    case CloseFd => AfterClose(s)
    case End => s.(lock := Free)
    case OpenOther(fd) => s.(otherFds := s.otherFds + {fd})
    case CloseOther(fd) => s.(otherFds := s.otherFds - {fd})
  }

  // ----- the inductive invariant -----

  /** How much of the log the client under descriptor fd has been offered: all of it, or all but the
      record whose broadcast has not reached fd yet. */
  function Offered(lock: Lock, logLen: nat, fd: Fd): int {
    match lock
    case Free => logLen
    case Sending(_, i) => if fd < i then logLen else logLen - 1
    case Closing(_, i) => if fd < i then logLen else logLen - 1
  }

  ghost predicate Table(clientAt: map<Fd, Client>, otherFds: set<Fd>, fdOf: map<Client, Fd>, clients: nat) {
    && (forall f <- clientAt ::
          f < FD_SETSIZE && f !in otherFds && clientAt[f] < clients
          && clientAt[f] in fdOf && fdOf[clientAt[f]] == f)
    && (forall c <- fdOf :: c < clients)
    && (forall c :: 0 <= c < clients ==> c in fdOf)
  }

  function PendingFds(acceptor: Acceptor): set<Fd> {
    if acceptor.Accepted? then {acceptor.fd} else {}
  }

  function ClosingFds(lock: Lock): set<Fd> {
    if lock.Closing? then {lock.i} else {}
  }

  /** Every open connection is in bigfs, on its way in, or on its way out. */
  ghost predicate Members(clientAt: map<Fd, Client>, bigfs: set<Fd>, pending: set<Fd>, closing: set<Fd>,
                          joined: map<Client, nat>, left: map<Client, nat>)
  {
    && (forall f <- bigfs ::
          f in clientAt && clientAt[f] in joined && clientAt[f] !in left && f !in pending && f !in closing)
    && (forall f <- pending :: f in clientAt && clientAt[f] !in joined && clientAt[f] !in left)
    && (forall f <- closing :: f in clientAt && clientAt[f] in left)
    && (forall f <- clientAt :: f in bigfs || f in pending || f in closing)
  }

  ghost predicate LockOk(lock: Lock, log: seq<Record>) {
    && (lock.Sending? ==> lock.i <= FD_SETSIZE && log != [])
    && (lock.Closing? ==> lock.i < FD_SETSIZE && log != [])
  }

  ghost predicate Segment(r: seq<Record>, log: seq<Record>, p: int, q: int) {
    0 <= p <= q <= |log| && r == log[p..q]
  }

  ghost predicate Gone(received: map<Client, seq<Record>>, log: seq<Record>,
                       joined: map<Client, nat>, left: map<Client, nat>)
  {
    forall c <- left ::
      && c in received && c in joined && left[c] < |log|
      && Segment(received[c], log, joined[c], left[c])
  }

  ghost predicate Live(clientAt: map<Fd, Client>, bigfs: set<Fd>, fdOf: map<Client, Fd>, c: Client) {
    c in fdOf && fdOf[c] in bigfs && fdOf[c] in clientAt && clientAt[fdOf[c]] == c
  }

  ghost predicate Present(s: State) {
    forall c <- s.joined :: c !in s.left ==>
      && c in s.received && Live(s.clientAt, s.bigfs, s.fdOf, c)
      && Segment(s.received[c], s.log, s.joined[c], Offered(s.lock, |s.log|, s.fdOf[c]))
  }

  ghost predicate Outside(received: map<Client, seq<Record>>, fdOf: map<Client, Fd>,
                          joined: map<Client, nat>, left: map<Client, nat>)
  {
    && received.Keys == fdOf.Keys
    && left.Keys <= joined.Keys <= fdOf.Keys
    && (forall c <- received :: c !in joined ==> received[c] == [])
  }

  ghost predicate Numbered(log: seq<Record>, captured: nat, sampled: nat) {
    && (forall r <- log :: r.serial < if r.from.Capture? then captured else sampled)
    && (forall n :: 0 <= n < captured ==> Record(Capture, n) in log)
    && (forall n :: 0 <= n < sampled ==> Record(Statistics, n) in log)
    && (forall i, j :: 0 <= i < j < |log| && log[i].from == log[j].from ==> log[i].serial < log[j].serial)
  }

  ghost predicate Inv(s: State) {
    && Table(s.clientAt, s.otherFds, s.fdOf, s.clients)
    && Members(s.clientAt, s.bigfs, PendingFds(s.acceptor), ClosingFds(s.lock), s.joined, s.left)
    && LockOk(s.lock, s.log)
    && Outside(s.received, s.fdOf, s.joined, s.left)
    && Gone(s.received, s.log, s.joined, s.left)
    && Present(s)
    && Numbered(s.log, s.captured, s.sampled)
  }

  lemma SegmentKept(r: seq<Record>, log: seq<Record>, m: Record, p: int, q: int)
    requires Segment(r, log, p, q)
    ensures Segment(r, log + [m], p, q)
  {
  }

  lemma SegmentGrows(r: seq<Record>, log: seq<Record>, p: int)
    requires log != [] && Segment(r, log, p, |log| - 1)
    ensures Segment(r + [log[|log| - 1]], log, p, |log|)
  {
  }

  /** The record that follows n others of the same broadcaster. */
  predicate IsNext(log: seq<Record>, r: Record) { forall x <- log :: x.from == r.from ==> x.serial < r.serial }

  lemma OrderGrows(log: seq<Record>, r: Record)
    requires forall i, j :: 0 <= i < j < |log| && log[i].from == log[j].from ==> log[i].serial < log[j].serial
    requires IsNext(log, r)
    ensures var l := log + [r]; forall i, j :: 0 <= i < j < |l| && l[i].from == l[j].from ==> l[i].serial < l[j].serial
  {
    assert forall i :: 0 <= i < |log| ==> log[i] in log;
  }

  lemma NumberedGrows(log: seq<Record>, captured: nat, sampled: nat, who: Broadcaster)
    requires Numbered(log, captured, sampled)
    ensures who.Capture? ==> Numbered(log + [Record(Capture, captured)], captured + 1, sampled)
    ensures who.Statistics? ==> Numbered(log + [Record(Statistics, sampled)], captured, sampled + 1)
  {
    var r := Record(who, if who.Capture? then captured else sampled);
    OrderGrows(log, r);
    assert forall x <- log :: x in log + [r];
    assert r in log + [r];
  }

  lemma TableGrows(clientAt: map<Fd, Client>, otherFds: set<Fd>, fdOf: map<Client, Fd>, clients: nat, fd: Fd)
    requires Table(clientAt, otherFds, fdOf, clients) && fd < FD_SETSIZE && fd !in clientAt && fd !in otherFds
    ensures Table(clientAt[fd := clients], otherFds, fdOf[clients := fd], clients + 1)
  {
  }

  lemma AcceptKeepsMembers(s: State, fd: Fd)
    requires Inv(s) && Enabled(s, Accept(fd))
    ensures Members(AfterAccept(s, fd).clientAt, s.bigfs, {fd}, ClosingFds(s.lock), s.joined, s.left)
  {
    assert s.clients !in s.fdOf;
  }

  lemma AcceptKeepsPresent(s: State, fd: Fd)
    requires Inv(s) && Enabled(s, Accept(fd))
    ensures Present(AfterAccept(s, fd))
  {
    var t := AfterAccept(s, fd);
    forall c <- s.joined | c !in s.left
      ensures t.received[c] == s.received[c] && t.fdOf[c] == s.fdOf[c] && Live(t.clientAt, t.bigfs, t.fdOf, c)
    {
      assert c in s.fdOf && c != s.clients && s.fdOf[c] != fd;
    }
  }

  lemma AcceptKeepsGone(s: State, fd: Fd)
    requires Inv(s) && Enabled(s, Accept(fd))
    ensures Gone(AfterAccept(s, fd).received, s.log, s.joined, s.left)
  {
    assert forall c <- s.left :: c in s.fdOf && c != s.clients;
  }

  lemma AcceptKeepsInv(s: State, fd: Fd)
    requires Inv(s) && Enabled(s, Accept(fd))
    ensures Inv(AfterAccept(s, fd))
  {
    TableGrows(s.clientAt, s.otherFds, s.fdOf, s.clients, fd);
    AcceptKeepsMembers(s, fd);
    AcceptKeepsPresent(s, fd);
    AcceptKeepsGone(s, fd);
    assert s.clients !in s.fdOf;
  }

  lemma InsertKeepsInv(s: State)
    requires Inv(s) && Enabled(s, Insert)
    ensures Inv(AfterInsert(s))
  {
  }

  lemma BeginKeepsInv(s: State, who: Broadcaster)
    requires Inv(s) && Enabled(s, Begin(who))
    ensures Inv(AfterBegin(s, who))
  {
    var t := AfterBegin(s, who);
    var r := NextRecord(s, who);
    assert t.log == s.log + [r];
    NumberedGrows(s.log, s.captured, s.sampled, who);
    forall c <- t.left
      ensures Segment(t.received[c], t.log, t.joined[c], t.left[c])
    {
      SegmentKept(s.received[c], s.log, r, s.joined[c], s.left[c]);
    }
    forall c <- t.joined | c !in t.left
      ensures Segment(t.received[c], t.log, t.joined[c], Offered(t.lock, |t.log|, t.fdOf[c]))
    {
      SegmentKept(s.received[c], s.log, r, s.joined[c], |s.log|);
    }
  }

  lemma SkipFdKeepsInv(s: State)
    requires Inv(s) && Enabled(s, SkipFd)
    ensures Inv(AfterSkip(s))
  {
  }

  lemma SendOkKeepsPresent(s: State)
    requires Inv(s) && Enabled(s, SendOk)
    ensures Present(AfterSend(s))
  {
    var t := AfterSend(s);
    var d := s.clientAt[s.lock.i];
    SegmentGrows(s.received[d], s.log, s.joined[d]);
    forall c <- t.joined | c !in t.left
      ensures Segment(t.received[c], t.log, t.joined[c], Offered(t.lock, |t.log|, t.fdOf[c]))
    {
      assert c != d ==> s.fdOf[c] != s.lock.i;
    }
  }

  lemma SendOkKeepsInv(s: State)
    requires Inv(s) && Enabled(s, SendOk)
    ensures Inv(AfterSend(s))
  {
    SendOkKeepsPresent(s);
    assert s.clientAt[s.lock.i] !in s.left;
  }

  lemma SendFailKeepsInv(s: State)
    requires Inv(s) && Enabled(s, SendFail)
    ensures Inv(AfterFail(s))
  {
  }

  lemma CloseKeepsMembers(s: State)
    requires Inv(s) && Enabled(s, CloseFd)
    ensures Members(AfterClose(s).clientAt, s.bigfs, PendingFds(s.acceptor), {}, s.joined, s.left)
  {
    assert s.lock.i in ClosingFds(s.lock);
    assert forall f <- AfterClose(s).clientAt :: f != s.lock.i && f !in ClosingFds(s.lock);
  }

  lemma CloseKeepsPresent(s: State)
    requires Inv(s) && Enabled(s, CloseFd)
    ensures Present(AfterClose(s))
  {
    assert s.lock.i in ClosingFds(s.lock) && s.lock.i !in s.bigfs;
    assert forall c <- s.joined :: c !in s.left ==> s.fdOf[c] != s.lock.i;
  }

  lemma CloseFdKeepsInv(s: State)
    requires Inv(s) && Enabled(s, CloseFd)
    ensures Inv(AfterClose(s))
  {
    CloseKeepsMembers(s);
    CloseKeepsPresent(s);
  }

  lemma EndKeepsInv(s: State)
    requires Inv(s) && Enabled(s, End)
    ensures Inv(s.(lock := Free))
  {
  }

  lemma OpenOtherKeepsInv(s: State, fd: Fd)
    requires Inv(s) && Enabled(s, OpenOther(fd))
    ensures Inv(s.(otherFds := s.otherFds + {fd}))
  {
  }

  lemma CloseOtherKeepsInv(s: State, fd: Fd)
    requires Inv(s) && Enabled(s, CloseOther(fd))
    ensures Inv(s.(otherFds := s.otherFds - {fd}))
  {
  }

  lemma StepKeepsInv(s: State, a: Action)
    requires Inv(s) && Enabled(s, a)
    ensures Inv(Apply(s, a))
  {
    match a
    case Accept(fd) => AcceptKeepsInv(s, fd);
    case Insert => InsertKeepsInv(s);
    case Begin(who) => BeginKeepsInv(s, who);
    case SkipFd => SkipFdKeepsInv(s);
    case SendOk => SendOkKeepsInv(s);
    case SendFail => SendFailKeepsInv(s);
    case CloseFd => CloseFdKeepsInv(s);
    case End => EndKeepsInv(s);
    case OpenOther(fd) => OpenOtherKeepsInv(s, fd);
    case CloseOther(fd) => CloseOtherKeepsInv(s, fd);
  }

  // ----- runs -----

  ghost predicate Legal(s: State, acts: seq<Action>)
    decreases |acts|
  {
    acts == [] || (Enabled(s, acts[0]) && Legal(Apply(s, acts[0]), acts[1..]))
  }

  ghost function Exec(s: State, acts: seq<Action>): State
    requires Legal(s, acts)
    decreases |acts|
  {
    if acts == [] then s else Exec(Apply(s, acts[0]), acts[1..])
  }

  ghost predicate Reachable(s: State) {
    exists acts: seq<Action> :: Legal(INITIAL, acts) && s == Exec(INITIAL, acts)
  }

  lemma {:induction false} RunKeepsInv(s: State, acts: seq<Action>)
    requires Inv(s) && Legal(s, acts)
    ensures Inv(Exec(s, acts))
    decreases |acts|
  {
    if acts != [] {
      StepKeepsInv(s, acts[0]);
      RunKeepsInv(Apply(s, acts[0]), acts[1..]);
    }
  }

  lemma ReachableInv(s: State)
    requires Reachable(s)
    ensures Inv(s)
  {
    var acts: seq<Action> :| Legal(INITIAL, acts) && s == Exec(INITIAL, acts);
    RunKeepsInv(INITIAL, acts);
  }

  // ----- main results -----

  /** At every moment every member of bigfs is open, is a connection and not some other file of the
      process, and is a connection that was inserted and has not failed. */
  lemma BigfsIsOpen(s: State, f: Fd)
    requires Reachable(s) && f in s.bigfs
    ensures f in s.clientAt && f !in s.otherFds && f < FD_SETSIZE
    ensures s.clientAt[f] in s.joined && s.clientAt[f] !in s.left
  {
    ReachableInv(s);
  }

  /** No connection leaks and none is listed twice: with the lock free and the acceptor idle, the open
      connections are exactly bigfs, under pairwise different identities. */
  lemma OpenConnectionsAreListed(s: State)
    requires Reachable(s) && s.lock.Free? && s.acceptor.Idle?
    ensures s.clientAt.Keys == s.bigfs
    ensures forall f, g :: f in s.bigfs && g in s.bigfs && s.clientAt[f] == s.clientAt[g] ==> f == g
  {
    ReachableInv(s);
  }

  /** What a connection has received is one contiguous segment of the global sequence of records: from its
      insertion to its first failed send, or up to the record being broadcast. */
  lemma ClientSeesOneSegment(s: State, c: Client)
    requires Reachable(s) && c < s.clients
    ensures c in s.received
    ensures c !in s.joined ==> s.received[c] == []
    ensures c in s.left ==> c in s.joined && Segment(s.received[c], s.log, s.joined[c], s.left[c])
    ensures c in s.joined && c !in s.left ==>
              || Segment(s.received[c], s.log, s.joined[c], |s.log|)
              || (!s.lock.Free? && c in s.fdOf && s.fdOf[c] >= s.lock.i
                  && Segment(s.received[c], s.log, s.joined[c], |s.log| - 1))
  {
    ReachableInv(s);
  }

  /** Between broadcasts every listed connection is up to date. */
  lemma ListedClientsAreUpToDate(s: State, f: Fd)
    requires Reachable(s) && s.lock.Free? && f in s.bigfs
    ensures f in s.clientAt && s.clientAt[f] in s.received && s.clientAt[f] in s.joined
    ensures Segment(s.received[s.clientAt[f]], s.log, s.joined[s.clientAt[f]], |s.log|)
  {
    ReachableInv(s);
  }

  /** Between broadcasts, of two listed connections the one inserted later has received a suffix of what
      the other has. */
  lemma LaterClientSeesSuffix(s: State, f: Fd, g: Fd)
    requires Reachable(s) && s.lock.Free? && f in s.bigfs && g in s.bigfs
    requires f in s.clientAt && g in s.clientAt && s.clientAt[f] in s.joined && s.clientAt[g] in s.joined
    requires s.joined[s.clientAt[f]] <= s.joined[s.clientAt[g]]
    ensures s.clientAt[f] in s.received && s.clientAt[g] in s.received
    ensures exists n :: 0 <= n <= |s.received[s.clientAt[f]]|
                        && s.received[s.clientAt[g]] == s.received[s.clientAt[f]][n..]
  {
    ListedClientsAreUpToDate(s, f);
    ListedClientsAreUpToDate(s, g);
    var p, q := s.joined[s.clientAt[f]], s.joined[s.clientAt[g]];
    assert s.log[q..] == s.log[p..][q - p..];
    assert s.log[q..] == s.log[q..|s.log|] && s.log[p..] == s.log[p..|s.log|];
  }

  lemma SegmentHasNoGaps(r: seq<Record>, log: seq<Record>, p: nat, q: nat, captured: nat, sampled: nat,
                         i: nat, j: nat, n: nat)
    requires Segment(r, log, p, q) && Numbered(log, captured, sampled)
    requires i < j < |r| && r[i].from == r[j].from
    ensures r[i].serial < r[j].serial
    ensures r[i].serial < n < r[j].serial ==> exists k :: i < k < j && r[k] == Record(r[i].from, n)
  {
    assert r[i] == log[p + i] && r[j] == log[p + j];
    if r[i].serial < n < r[j].serial {
      var m := Record(r[i].from, n);
      assert log[p + j] in log;
      assert m in log;
      var k :| 0 <= k < |log| && log[k] == m;
      assert p + i < k < p + j;
      assert r[k - p] == m;
    }
  }

  /** A connection gets each broadcaster's records in order and misses none between two it got. */
  lemma NoGaps(s: State, c: Client, i: nat, j: nat, n: nat)
    requires Reachable(s) && c < s.clients && c in s.received
    requires i < j < |s.received[c]| && s.received[c][i].from == s.received[c][j].from
    ensures s.received[c][i].serial < s.received[c][j].serial
    ensures s.received[c][i].serial < n < s.received[c][j].serial ==>
              exists k :: i < k < j && s.received[c][k] == Record(s.received[c][i].from, n)
  {
    ReachableInv(s);
    ClientSeesOneSegment(s, c);
    var p := s.joined[c];
    SegmentHasNoGaps(s.received[c], s.log, p, p + |s.received[c]|, s.captured, s.sampled, i, j, n);
  }

  /** Receipts are never taken back, and a connection that has failed receives nothing more, whatever
      becomes of its descriptor number. */
  ghost predicate Extends(s: State, t: State, c: Client) {
    && s.log <= t.log
    && (c in s.received ==> c in t.received && s.received[c] <= t.received[c])
    && (c in s.joined ==> c in t.joined && t.joined[c] == s.joined[c])
    && (c in s.left ==> c in t.left && t.left[c] == s.left[c]
                        && (c in s.received ==> t.received[c] == s.received[c]))
  }

  lemma StepExtends(s: State, a: Action, c: Client)
    requires Inv(s) && Enabled(s, a)
    ensures Extends(s, Apply(s, a), c)
  {
    match a {
      case Accept(_) => assert s.clients !in s.received;
      case Insert =>
      case SendOk =>
        assert s.clientAt[s.lock.i] !in s.left;
      case SendFail =>
        assert s.clientAt[s.lock.i] !in s.left;
      case _ =>
    }
  }

  lemma {:induction false} RunExtends(s: State, acts: seq<Action>, c: Client)
    requires Inv(s) && Legal(s, acts)
    ensures Extends(s, Exec(s, acts), c)
    decreases |acts|
  {
    if acts != [] {
      StepKeepsInv(s, acts[0]);
      StepExtends(s, acts[0], c);
      RunExtends(Apply(s, acts[0]), acts[1..], c);
    }
  }

  // ----- who leaves, and who is served -----

  /** A connection is given up by a step exactly if a send to it fails in that step. */
  lemma LeavesIff(s: State, a: Action, c: Client)
    requires Inv(s) && Enabled(s, a)
    ensures c in Apply(s, a).left <==>
              c in s.left || (a.SendFail? && s.clientAt[s.lock.i] == c)
  {
    StepExtends(s, a, c);
  }

  lemma {:induction false} NobodyLeaves(s: State, acts: seq<Action>, c: Client)
    requires Inv(s) && Legal(s, acts) && forall i :: 0 <= i < |acts| ==> !acts[i].SendFail?
    ensures c in Exec(s, acts).left <==> c in s.left
    decreases |acts|
  {
    if acts != [] {
      StepKeepsInv(s, acts[0]);
      LeavesIff(s, acts[0], c);
      NobodyLeaves(Apply(s, acts[0]), acts[1..], c);
    }
  }

  /** The records whose broadcasts a run begins, when the broadcasters have sent so many before. */
  function Begun(acts: seq<Action>, captured: nat, sampled: nat): seq<Record> {
    if acts == [] then []
    else if acts[0] == Begin(Capture) then [Record(Capture, captured)] + Begun(acts[1..], captured + 1, sampled)
    else if acts[0] == Begin(Statistics) then [Record(Statistics, sampled)] + Begun(acts[1..], captured, sampled + 1)
    else Begun(acts[1..], captured, sampled)
  }

  lemma StepLogs(s: State, a: Action)
    requires Enabled(s, a)
    ensures Apply(s, a).log == s.log + (if a == Begin(Capture) then [Record(Capture, s.captured)]
                                        else if a == Begin(Statistics) then [Record(Statistics, s.sampled)] else [])
    ensures Apply(s, a).captured == s.captured + (if a == Begin(Capture) then 1 else 0)
    ensures Apply(s, a).sampled == s.sampled + (if a == Begin(Statistics) then 1 else 0)
  {
    if a.Begin? { assert a.who == Capture || a.who == Statistics; }
  }

  /** The global sequence is that of the broadcasts begun. */
  lemma {:induction false} LogIsBegun(s: State, acts: seq<Action>)
    requires Legal(s, acts)
    ensures Exec(s, acts).log == s.log + Begun(acts, s.captured, s.sampled)
    decreases |acts|
  {
    if acts != [] {
      StepLogs(s, acts[0]);
      LogIsBegun(Apply(s, acts[0]), acts[1..]);
    }
  }

  lemma FreeMeansServed(t: State, c: Client, from: nat)
    requires Inv(t) && t.lock.Free? && c in t.joined && c !in t.left && t.joined[c] == from
    ensures c in t.received && c in t.fdOf && t.fdOf[c] in t.bigfs
    ensures from <= |t.log| && t.received[c] == t.log[from..]
  {
    assert Segment(t.received[c], t.log, from, |t.log|);
    assert t.log[from..|t.log|] == t.log[from..];
  }

  /** Over any run without a failed send that ends with the lock free, a connection that was in is still in and has
      everything since its insertion. */
  lemma ClientIsServed(s: State, acts: seq<Action>, c: Client)
    requires Inv(s) && Legal(s, acts) && c in s.joined && c !in s.left
    requires (forall i :: 0 <= i < |acts| ==> !acts[i].SendFail?) && Exec(s, acts).lock.Free?
    ensures var t := Exec(s, acts);
            && c in t.received && c in t.fdOf && t.fdOf[c] in t.bigfs
            && s.joined[c] <= |t.log| && t.received[c] == t.log[s.joined[c]..]
  {
    RunKeepsInv(s, acts);
    NobodyLeaves(s, acts, c);
    RunExtends(s, acts, c);
    FreeMeansServed(Exec(s, acts), c, s.joined[c]);
  }

  lemma InsertionIsRecorded(s: State, c: Client)
    requires Inv(s) && Enabled(s, Insert) && c == s.clientAt[s.acceptor.fd]
    ensures var u := AfterInsert(s);
            c in u.joined && c !in u.left && u.joined[c] == |s.log| == |u.log| && u.log == s.log
            && u.captured == s.captured && u.sampled == s.sampled
  {
    assert s.acceptor.fd in PendingFds(s.acceptor);
  }

  /** From its insertion on, over any such run, a connection is sent every record begun, in order. */
  lemma InsertedClientIsServed(s: State, acts: seq<Action>)
    requires Reachable(s) && Enabled(s, Insert) && Legal(Apply(s, Insert), acts)
    requires (forall i :: 0 <= i < |acts| ==> !acts[i].SendFail?) && Exec(Apply(s, Insert), acts).lock.Free?
    ensures var c, t := s.clientAt[s.acceptor.fd], Exec(Apply(s, Insert), acts);
            && c in t.received && t.received[c] == Begun(acts, s.captured, s.sampled)
            && c in t.fdOf && t.fdOf[c] in t.bigfs
  {
    var c := s.clientAt[s.acceptor.fd];
    ReachableInv(s);
    InsertKeepsInv(s);
    InsertionIsRecorded(s, c);
    ClientIsServed(AfterInsert(s), acts, c);
    LogIsBegun(AfterInsert(s), acts);
  }

  /** The guards of Enabled never hold a thread back: a free lock can be taken by either broadcaster, an
      accepted connection can then be inserted, and whoever holds the lock can go on. */
  lemma NoThreadIsStuck(s: State)
    requires Reachable(s)
    ensures s.lock.Free? ==> Enabled(s, Begin(Capture)) && Enabled(s, Begin(Statistics))
    ensures s.lock.Free? && s.acceptor.Accepted? ==> Enabled(s, Insert)
    ensures forall fd: Fd ::
              s.acceptor.Idle? && fd < 1024 && fd !in s.clientAt && fd !in s.otherFds ==> Enabled(s, Accept(fd))
    ensures s.lock.Sending? && s.lock.i == 1024 ==> Enabled(s, End)
    ensures s.lock.Sending? && s.lock.i < 1024 ==>
              Enabled(s, SkipFd) || (Enabled(s, SendOk) && Enabled(s, SendFail))
    ensures s.lock.Closing? ==> Enabled(s, CloseFd)
  {
    ReachableInv(s);
  }
}
