/** The calls rdma_write_offset and rdma_read_offset as page.c makes them: each is a
    piece of a run of the protocol, in which the NIC, the peer and the poller do
    whatever they do, and which ends when the call has returned. */
module RemoteMemory {
  import opened RdmaChannel
  import opened ChannelRuns

  datatype Op = WriteOp(buf: seq<nat>, off: nat) | ReadOp(off: nat)

  predicate IsCall(s: Step) {
    s.CallWrite? || s.CallRead? || s.CallDone?
  }

  /** The calls that the client begins in a run. */
  function CallsIn(steps: seq<Step>): seq<Step> {
    if steps == [] then [] else (if IsCall(steps[0]) then [steps[0]] else []) + CallsIn(steps[1..])
  }

  lemma CallsTail(steps: seq<Step>)
    requires steps != []
    ensures if IsCall(steps[0])
            then CallsIn(steps) != [] && CallsIn(steps)[0] == steps[0] && CallsIn(steps)[1..] == CallsIn(steps[1..])
            else CallsIn(steps) == CallsIn(steps[1..])
  {
  }

  function CallOf(op: Op): Step {
    match op
    case WriteOp(buf, off) => CallWrite(buf, off)
    case ReadOp(off) => CallRead(off)
  }

  /** The channel after a run that it can take. */
  function After(w: Channel, steps: seq<Step>): (w1: Channel)
    ensures Possible(w, steps) ==> Runs(w, steps, w1)
    decreases |steps|
  {
    if steps == [] || !Enabled(w, steps[0]) then w else After(Next(w, steps[0]), steps[1..])
  }

  predicate Possible(w: Channel, steps: seq<Step>)
    decreases |steps|
  {
    steps == [] || (Enabled(w, steps[0]) && Possible(Next(w, steps[0]), steps[1..]))
  }

  /** In this run the call is made, and it returns. */
  predicate Serves(w: Channel, op: Op, run: seq<Step>) {
    Possible(w, run) && CallsIn(run) == [CallOf(op)] && After(w, run).client.Ready?
  }

  /** The runs in which one call after the other is made and returns. */
  predicate Schedule(w: Channel, ops: seq<Op>, runs: seq<seq<Step>>)
    decreases |ops|
  {
    && |ops| == |runs|
    && (ops == [] || (Serves(w, ops[0], runs[0]) && Schedule(After(w, runs[0]), ops[1..], runs[1..])))
  }

  function AfterCall(p: seq<nat>, s: Step): seq<nat> {
    if s.CallWrite? && s.off + |s.buf| <= |p| then Overwrite(p, s.off, s.buf) else p
  }

  lemma AfterFirst(p: seq<nat>, steps: seq<Step>)
    requires steps != []
    ensures AfterCalls(p, steps) == AfterCalls(AfterCall(p, steps[0]), steps[1..])
  {
    hide Overwrite;
  }

  /** The plain array depends on the calls alone. */
  lemma {:induction false} OnlyCalls(p: seq<nat>, steps: seq<Step>)
    ensures AfterCalls(p, steps) == AfterCalls(p, CallsIn(steps))
    decreases |steps|
  {
    hide AfterCalls, CallsIn, Overwrite;
    if steps != [] {
      AfterFirst(p, steps);
      CallsTail(steps);
      OnlyCalls(AfterCall(p, steps[0]), steps[1..]);
      if IsCall(steps[0]) {
        AfterFirst(p, CallsIn(steps));
      }
    } else {
      NoCalls();
    }
  }

  lemma NoCalls()
    ensures CallsIn([]) == []
  {
  }

  lemma {:induction false} SizeKept(w: Channel, steps: seq<Step>, w1: Channel)
    requires Inv(w) && Runs(w, steps, w1)
    ensures Size(w1) == Size(w)
    decreases |steps|
  {
    hide Inv, Enabled, Next;
    if steps != [] {
      InvStep(w, steps[0]);
      SizeStep(w, steps[0]);
      SizeKept(Next(w, steps[0]), steps[1..], w1);
    }
  }

  lemma SizeStep(w: Channel, s: Step)
    requires Inv(w) && Enabled(w, s)
    ensures Size(Next(w, s)) == Size(w)
  {
    hide DataOk, PeerOk, EndOk, Semaphores, QueueOk, Count;
  }

  /** A write that has returned is in the plain array, wherever its bytes are. */
  lemma WriteServed(w: Channel, buf: seq<nat>, off: nat, run: seq<Step>)
    requires Inv(w) && w.client.Ready? && Serves(w, WriteOp(buf, off), run) && off + |buf| <= |w.plain|
    ensures var w1 := After(w, run);
            Inv(w1) && w1.client.Ready? && Size(w1) == Size(w) && w1.plain == Overwrite(w.plain, off, buf)
  {
    hide Inv, Enabled, Next, Possible, After, CallsIn, Runs, Overwrite;
    RunKeeps(w, run, After(w, run));
    SizeKept(w, run, After(w, run));
    OnlyCalls(w.plain, run);
    OneCall(w.plain, CallWrite(buf, off));
  }

  // ----- reads -----

  /** A client that is not in a call does nothing until it makes the next one. */
  lemma {:induction false} NoCall(w: Channel, run: seq<Step>, w1: Channel)
    requires w.client.Ready? && Runs(w, run, w1) && CallsIn(run) == []
    ensures w1.client.Ready? && w1.result == w.result && w1.plain == w.plain
    decreases |run|
  {
    hide Next, Enabled, CallsIn;
    if run != [] {
      CallsTail(run);
      NoCallStep(w, run[0]);
      NoCall(Next(w, run[0]), run[1..], w1);
    }
  }

  lemma NoCallStep(w: Channel, s: Step)
    requires w.client.Ready? && Enabled(w, s) && !IsCall(s)
    ensures var n := Next(w, s); n.client.Ready? && n.result == w.result && n.plain == w.plain
  {
  }

  /** While a read waits it stays that read; and when it returns it has the bytes. */
  lemma WaitStep(w: Channel, s: Step)
    requires Inv(w) && w.client.ReadWait? && Enabled(w, s)
    ensures var n := Next(w, s); var from := w.client.from;
            && n.plain == w.plain && from + Size(w) <= |w.plain| && Size(n) == Size(w)
            && (if s.AcquireRead? then n.client.Ready? && n.result == w.plain[from..from + Size(w)]
                else n.client == w.client)
  {
    hide DataOk, PeerOk, EndOk, Semaphores, QueueOk, Count;
  }

  lemma {:induction false} ReadWaits(w: Channel, run: seq<Step>, w1: Channel)
    requires Inv(w) && w.client.ReadWait? && Runs(w, run, w1) && CallsIn(run) == [] && w1.client.Ready?
    ensures var from := w.client.from;
            from + Size(w) <= |w.plain| && w1.result == w.plain[from..from + Size(w)] && w1.plain == w.plain
    decreases |run|
  {
    hide Inv, Next, Enabled, CallsIn;
    if run != [] {
      CallsTail(run);
      WaitStep(w, run[0]);
      InvStep(w, run[0]);
      if run[0].AcquireRead? {
        NoCall(Next(w, run[0]), run[1..], w1);
      } else {
        ReadWaits(Next(w, run[0]), run[1..], w1);
      }
    }
  }

  lemma {:induction false} ReadRun(w: Channel, off: nat, run: seq<Step>, w1: Channel)
    requires Inv(w) && w.client.Ready? && Runs(w, run, w1) && CallsIn(run) == [CallRead(off)] && w1.client.Ready?
    ensures off + Size(w) <= |w.plain| && w1.result == w.plain[off..off + Size(w)] && w1.plain == w.plain
    decreases |run|
  {
    hide Inv, Next, Enabled, CallsIn;
    NoCalls();
    if run != [] {
      CallsTail(run);
      InvStep(w, run[0]);
      if IsCall(run[0]) {
        ReadCalled(w, run[0]);
        ReadWaits(Next(w, run[0]), run[1..], w1);
      } else {
        NoCallStep(w, run[0]);
        SizeStep(w, run[0]);
        ReadRun(Next(w, run[0]), off, run[1..], w1);
      }
    }
  }

  lemma ReadCalled(w: Channel, s: Step)
    requires s.CallRead? && Enabled(w, s)
    ensures var n := Next(w, s); n.client == ReadWait(s.off) && n.plain == w.plain && Size(n) == Size(w)
  {
  }

  /** A read that has returned has the bytes of the plain array. */
  lemma ReadServed(w: Channel, off: nat, run: seq<Step>)
    requires Inv(w) && w.client.Ready? && Serves(w, ReadOp(off), run)
    ensures var w1 := After(w, run);
            && Inv(w1) && w1.client.Ready? && Size(w1) == Size(w) && w1.plain == w.plain
            && off + Size(w) <= |w.plain| && w1.result == w.plain[off..off + Size(w)]
  {
    hide Inv, Enabled, Next, Possible, After, CallsIn, Runs;
    RunKeeps(w, run, After(w, run));
    SizeKept(w, run, After(w, run));
    ReadRun(w, off, run, After(w, run));
  }

  /** A connection in the hands of its client. */
  class Connection {
    var chan: Channel

    ghost predicate Valid()
      reads this
    {
      Inv(chan) && chan.client.Ready?
    }

    constructor (w: Channel)
      requires Inv(w) && w.client.Ready?
      ensures chan == w && Valid()
    {
      chan := w;
    }

    /** rdma_write_offset, in whatever run it is served. */
    method WriteOffset(buf: seq<nat>, off: nat, run: seq<Step>)
      requires Valid() && off + |buf| <= |chan.plain| && Serves(chan, WriteOp(buf, off), run)
      modifies this
      ensures Valid() && chan == After(old(chan), run) && Size(chan) == old(Size(chan))
      ensures chan.plain == Overwrite(old(chan.plain), off, buf)
    {
      hide Inv;
      WriteServed(chan, buf, off, run);
      chan := After(chan, run);
    }

    /** rdma_read_offset. */
    method ReadOffset(off: nat, run: seq<Step>) returns (buf: seq<nat>)
      requires Valid() && Serves(chan, ReadOp(off), run)
      modifies this
      ensures Valid() && chan == After(old(chan), run) && Size(chan) == old(Size(chan)) && chan.plain == old(chan.plain)
      ensures off + Size(chan) <= |chan.plain| && buf == chan.plain[off..off + Size(chan)]
    {
      hide Inv;
      ReadServed(chan, off, run);
      chan := After(chan, run);
      buf := chan.result;
    }
  }

  // ----- the calls can be served -----

  lemma {:induction false} RunsAre(w: Channel, steps: seq<Step>, w1: Channel)
    requires Runs(w, steps, w1)
    ensures Possible(w, steps) && After(w, steps) == w1
    decreases |steps|
  {
    hide Enabled, Next;
    if steps != [] {
      RunsAre(Next(w, steps[0]), steps[1..], w1);
    }
  }

  lemma {:induction false} CallsThen(a: seq<Step>, b: seq<Step>)
    ensures CallsIn(a + b) == CallsIn(a) + CallsIn(b)
  {
    hide CallsIn;
    if a == [] {
      assert a + b == b;
      NoCalls();
    } else {
      CallsThen(a[1..], b);
      assert (a + b)[1..] == a[1..] + b;
      CallsHead(a);
      CallsHead(a + b);
    }
  }

  lemma CallsHead(steps: seq<Step>)
    requires steps != []
    ensures CallsIn(steps) == (if IsCall(steps[0]) then [steps[0]] else []) + CallsIn(steps[1..])
  {
  }

  lemma {:induction false} MovesNoCalls(k: nat, n: nat)
    ensures CallsIn(Moves(k, n)) == []
    decreases n - k
  {
    if k < n {
      MovesNoCalls(k + 1, n);
      CallsThen([Move(k)], Moves(k + 1, n));
    }
  }

  /** No call is in progress, nothing is under way, and the peer has not said DONE. */
  predicate Quiet(w: Channel) {
    && Inv(w) && w.client.Ready? && w.sendq == [] && w.moved == {} && w.cq == [] && w.poller.Polling?
    && w.recvState.RsMrRecv? && w.sendState.SsInit? && w.writeOps == 1 && w.readOps == 0
  }

  predicate InBounds(w: Channel, op: Op) {
    op.off + Size(w) <= |w.plain| && (op.WriteOp? ==> |op.buf| == Size(w))
  }

  /** What is posted alone completes, and whoever waits for it is woken. */
  lemma Completes(w: Channel)
    requires |w.sendq| == 1 && !w.sendq[0].Send? && w.moved == {} && w.cq == [] && w.poller.Polling?
    requires w.sendq[0].off + Size(w) <= |w.remote| && |w.local| == Size(w)
    requires w.recvState.RsMrRecv? && w.sendState.SsInit?
    ensures exists w1 ::
              && Runs(w, Moves(0, Size(w)) + [Complete, Poll], w1)
              && w1 == (if w.sendq[0].Read?
                        then w.(readOps := w.readOps + 1, local := w1.local, remote := w1.remote, sendq := [])
                        else w.(writeOps := w.writeOps + 1, local := w1.local, remote := w1.remote, sendq := []))
  {
    hide Moves, Runs, Moved;
    var a := Moved(w, 0);
    MovesRun(w, 0);
    assert a.sendq[1..] == [] && (a.cq + [CompletionOf(a.sendq[0])])[1..] == [];
    TwoSteps(a, Complete, Poll);
    RunsThen(w, Moves(0, Size(w)), a, [Complete, Poll], Next(Next(a, Complete), Poll));
  }

  lemma DataSizes(w: Channel)
    requires Inv(w)
    ensures |w.remote| == |w.plain| && |w.local| == Size(w)
  {
  }

  ghost predicate ServedBy(w: Channel, op: Op, run: seq<Step>) {
    && Serves(w, op, run) && Quiet(After(w, run))
    && Size(After(w, run)) == Size(w) && |After(w, run).plain| == |w.plain|
  }

  /** A run that begins with the call and goes on without another. */
  lemma ServedAs(w: Channel, op: Op, first: seq<Step>, b: Channel, rest: seq<Step>, w1: Channel)
    requires Inv(w) && Runs(w, first, b) && Runs(b, rest, w1) && CallsIn(first) == [CallOf(op)] && CallsIn(rest) == []
    requires Inv(w1) ==> Quiet(w1)
    requires |w1.plain| == |w.plain|
    ensures ServedBy(w, op, first + rest)
  {
    hide Inv, CallsIn, Runs, Possible, After, Quiet;
    RunsThen(w, first, b, rest, w1);
    RunKeeps(w, first + rest, w1);
    RunsAre(w, first + rest, w1);
    CallsThen(first, rest);
    SizeKept(w, first + rest, w1);
    QuietReady(w1);
  }

  lemma QuietReady(w: Channel)
    requires Quiet(w)
    ensures Inv(w) && w.client.Ready?
  {
  }

  lemma FinishCalls(n: nat, last: seq<Step>)
    requires last == [] || last == [AcquireRead]
    ensures CallsIn(Moves(0, n) + [Complete, Poll] + last) == []
  {
    CallsThen(Moves(0, n) + [Complete, Poll], last);
    CallsThen(Moves(0, n), [Complete, Poll]);
    MovesNoCalls(0, n);
    assert CallsIn([Complete, Poll]) == [Complete, Poll][2..] == [];
  }

  /** The write up to its posting. */
  function WritePosting(buf: seq<nat>, off: nat): seq<Step> {
    [CallWrite(buf, off), AcquireWrite] + [PostWrite]
  }

  function WriteBegun(w: Channel, buf: seq<nat>, off: nat): Channel
    requires InBounds(w, WriteOp(buf, off))
  {
    w.(stage := buf, writeOps := 0, sendq := [Write(off)], plain := Overwrite(w.plain, off, buf))
  }

  lemma WriteFirst(w: Channel, buf: seq<nat>, off: nat)
    requires Quiet(w) && InBounds(w, WriteOp(buf, off))
    ensures Runs(w, WritePosting(buf, off), WriteBegun(w, buf, off))
            && CallsIn(WritePosting(buf, off)) == [CallWrite(buf, off)]
  {
    hide Inv, Overwrite;
    var a := Next(Next(w, CallWrite(buf, off)), AcquireWrite);
    TwoSteps(w, CallWrite(buf, off), AcquireWrite);
    OneStep(a, PostWrite);
    assert w.sendq + [Write(off)] == [Write(off)];
    RunsThen(w, [CallWrite(buf, off), AcquireWrite], a, [PostWrite], WriteBegun(w, buf, off));
    CallsThen([CallWrite(buf, off), AcquireWrite], [PostWrite]);
  }

  lemma WriteServable(w: Channel, buf: seq<nat>, off: nat)
    requires Quiet(w) && InBounds(w, WriteOp(buf, off))
    ensures exists run :: ServedBy(w, WriteOp(buf, off), run)
  {
    hide Inv, Runs, CallsIn, Moves, ServedBy, Overwrite;
    WriteFirst(w, buf, off);
    var first, b := WritePosting(buf, off), WriteBegun(w, buf, off);
    RunKeeps(w, first, b);
    OverwriteLength(w.plain, off, buf);
    DataSizes(b);
    Completes(b);
    var rest := Moves(0, Size(b)) + [Complete, Poll];
    var w1 :| Runs(b, rest, w1)
      && w1 == b.(writeOps := b.writeOps + 1, local := w1.local, remote := w1.remote, sendq := []);
    FinishCalls(Size(b), []);
    assert rest + [] == rest;
    ServedAs(w, WriteOp(buf, off), first, b, rest, w1);
  }

  lemma OverwriteLength(p: seq<nat>, off: nat, buf: seq<nat>)
    requires off + |buf| <= |p|
    ensures |Overwrite(p, off, buf)| == |p|
  {
  }

  lemma ReadServable(w: Channel, off: nat)
    requires Quiet(w) && InBounds(w, ReadOp(off))
    ensures exists run :: ServedBy(w, ReadOp(off), run)
  {
    hide Inv, Runs, CallsIn, Moves, ServedBy;
    var b := w.(sendq := [Read(off)], client := ReadWait(off));
    ReadFirst(w, off);
    RunKeeps(w, [CallRead(off)], b);
    DataSizes(b);
    Completes(b);
    var rest := Moves(0, Size(b)) + [Complete, Poll];
    var c :| Runs(b, rest, c) && c == b.(readOps := b.readOps + 1, local := c.local, remote := c.remote, sendq := []);
    OneStep(c, AcquireRead);
    var w1 := Next(c, AcquireRead);
    RunsThen(b, rest, c, [AcquireRead], w1);
    FinishCalls(Size(b), [AcquireRead]);
    ServedAs(w, ReadOp(off), [CallRead(off)], b, rest + [AcquireRead], w1);
  }

  lemma ReadFirst(w: Channel, off: nat)
    requires Quiet(w) && InBounds(w, ReadOp(off))
    ensures Runs(w, [CallRead(off)], w.(sendq := [Read(off)], client := ReadWait(off)))
    ensures CallsIn([CallRead(off)]) == [CallRead(off)]
  {
    hide Inv;
    OneStep(w, CallRead(off));
    assert w.sendq + [Read(off)] == [Read(off)];
  }

  /** As long as the peer does not say DONE, any calls can be served, one after the
      other: there is a schedule for every list of them. */
  lemma {:induction false} Schedulable(w: Channel, ops: seq<Op>)
    requires Quiet(w) && forall k :: 0 <= k < |ops| ==> InBounds(w, ops[k])
    ensures exists runs :: Schedule(w, ops, runs)
    decreases |ops|
  {
    hide Inv, Serves, After, Quiet;
    if ops == [] {
      assert Schedule(w, ops, []);
    } else {
      match ops[0] {
        case WriteOp(buf, off) => WriteServable(w, buf, off);
        case ReadOp(off) => ReadServable(w, off);
      }
      var run :| ServedBy(w, ops[0], run);
      Schedulable(After(w, run), ops[1..]);
      var runs :| Schedule(After(w, run), ops[1..], runs);
      assert ([run] + runs)[1..] == runs;
      assert Schedule(w, ops, [run] + runs);
    }
  }

  /** A connection is in that state when the client starts. */
  lemma OpenedQuiet(w: Channel)
    requires Init(w)
    ensures Quiet(Opened(w)) && Runs(w, OPENING, Opened(w)) && Opened(w).plain == w.plain && Size(Opened(w)) == Size(w)
  {
    hide Inv;
    OpeningRun(w);
    InitInv(w);
    RunKeeps(w, OPENING, Opened(w));
  }
}
