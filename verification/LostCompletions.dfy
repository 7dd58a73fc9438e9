/** on_completion after the peer's DONE: completions of our own requests no longer
    wake anybody, so a call that still waits for one waits for ever. */
module LostCompletions {
  import opened RdmaChannel
  import opened ChannelRuns

  /** The semaphore that a completion of one of our requests posts. */
  function Semaphore(w: Channel, c: Completion): nat {
    match c
    case ReadC => w.readOps
    case WriteC => w.writeOps
    case SendC => w.doneOps
    case RecvC => 0
  }

  /** The completion of a request wakes whoever waits for it exactly if the peer's
      DONE has not been polled before it. */
  lemma CompletionPosted(w: Channel)
    requires Inv(w) && Enabled(w, Poll) && !w.cq[0].RecvC?
    ensures Semaphore(Next(w, Poll), w.cq[0]) == Semaphore(w, w.cq[0]) + Int(w.recvState.RsMrRecv?)
  {
    hide DataOk, ClientOk, QueueOk, Count;
    CountFirst(w.cq, RecvC);
  }

  /** A read, write or DONE that waits for the completion of a request. */
  predicate Waiting(w: Channel) {
    w.client.ReadWait? || w.client.WriteWait? || w.client.DoneWait?
  }

  function WaitedFor(w: Channel): Completion
    requires Waiting(w)
  {
    if w.client.ReadWait? then ReadC else if w.client.WriteWait? then WriteC else SendC
  }

  predicate Posted(w: Channel, c: Completion) {
    match c
    case ReadC => ReadPosted(w)
    case WriteC => WritePosted(w)
    case SendC => SendPosted(w)
    case RecvC => false
  }

  /** A completion `c` is in the queue, and no message of the peer before it. */
  predicate Ahead(cq: seq<Completion>, c: Completion) {
    cq != [] && (cq[0] == c || (!cq[0].RecvC? && Ahead(cq[1..], c)))
  }

  /** The call's semaphore is not up, and its completion, if it is still to come, comes
      behind the peer's DONE. */
  predicate Doomed(w: Channel)
    requires Waiting(w)
  {
    var c := WaitedFor(w);
    && Semaphore(w, c) == 0
    && (w.recvState.RsMrRecv? ==> !Ahead(w.cq, c) && (Posted(w, c) ==> RecvC in w.cq))
  }

  lemma {:induction false} AheadAdd(cq: seq<Completion>, x: Completion, c: Completion)
    ensures Ahead(cq + [x], c) <==> Ahead(cq, c) || (RecvC !in cq && x == c)
  {
    if cq != [] {
      assert (cq + [x])[1..] == cq[1..] + [x];
      AheadAdd(cq[1..], x, c);
    }
  }

  /** While a call waits, the peer's region is known, its DONE is the only message
      that can be queued, and our own has not been polled. */
  lemma WaitingOpen(w: Channel)
    requires Inv(w) && Waiting(w) && Semaphore(w, WaitedFor(w)) == 0
    ensures w.poller.Polling? && !w.recvState.RsInit? && w.sendState.SsInit? && w.disconnects == 0
  {
    hide DataOk, ClientOk, QueueOk, Count;
  }

  /** A request is posted until it completes. */
  lemma CompletePosted(w: Channel)
    requires Inv(w) && Waiting(w) && Enabled(w, Complete)
    ensures var (c, x) := (WaitedFor(w), CompletionOf(w.sendq[0]));
            (Posted(Next(w, Complete), c) <==> Posted(w, c) && x != c) && (x == c ==> Posted(w, c))
  {
    hide DataOk, ClientOk, PeerOk, EndOk, Semaphores, Count;
  }

  lemma DoomedStep(w: Channel, s: Step)
    requires Inv(w) && Waiting(w) && Doomed(w) && Enabled(w, s)
    ensures Next(w, s).client == w.client && Doomed(Next(w, s))
  {
    hide Inv, Overwrite;
    var c := WaitedFor(w);
    WaitingOpen(w);
    if s.Complete? {
      var x := CompletionOf(w.sendq[0]);
      AheadAdd(w.cq, x, c);
      CompletePosted(w);
      assert forall d :: d in w.cq + [x] <==> d in w.cq || d == x;
    } else if s.Arrive? {
      AheadAdd(w.cq, RecvC, c);
    }
  }

  /** A doomed call never returns, and the connection is never cut. */
  lemma {:induction false} DoomedForever(w: Channel, steps: seq<Step>, w1: Channel)
    requires Inv(w) && Waiting(w) && Doomed(w) && Runs(w, steps, w1)
    ensures w1.client == w.client && Doomed(w1) && w1.disconnects == 0
    decreases |steps|
  {
    hide Inv, Next, Enabled;
    WaitingOpen(w);
    if steps != [] {
      DoomedStep(w, steps[0]);
      InvStep(w, steps[0]);
      DoomedForever(Next(w, steps[0]), steps[1..], w1);
    }
  }

  /** In some continuation the call's semaphore comes up and the call returns. */
  ghost predicate CanReturn(w: Channel) {
    exists steps, w1 :: Runs(w, steps, w1) && w1.client != w.client
  }

  function Unmoved(w: Channel): set<nat> {
    set i: nat | i < Size(w) && i !in w.moved
  }

  function Acquire(client: Client): Step {
    if client.ReadWait? then AcquireRead else if client.WriteWait? then AcquireWrite else AcquireDone
  }

  /** Less is to be done than before, until the call's completion is polled. */
  predicate Nearer(w1: Channel, w: Channel) {
    || |w1.sendq| < |w.sendq|
    || (|w1.sendq| == |w.sendq| && |Unmoved(w1)| < |Unmoved(w)|)
    || (|w1.sendq| == |w.sendq| && |Unmoved(w1)| == |Unmoved(w)| && |w1.cq| < |w.cq|)
  }

  lemma TowardPoll(w: Channel)
    requires Inv(w) && Waiting(w) && !Doomed(w) && Semaphore(w, WaitedFor(w)) == 0 && w.sendq == []
    ensures Enabled(w, Poll) && Next(w, Poll).client == w.client && !Doomed(Next(w, Poll)) && Nearer(Next(w, Poll), w)
  {
    hide Inv;
    WaitingOpen(w);
    assert Unmoved(Next(w, Poll)) == Unmoved(w);
  }

  lemma TowardComplete(w: Channel)
    requires Inv(w) && Waiting(w) && !Doomed(w) && Semaphore(w, WaitedFor(w)) == 0 && Enabled(w, Complete)
    ensures var w1 := Next(w, Complete); w1.client == w.client && !Doomed(w1) && Nearer(w1, w)
  {
    hide Inv;
    WaitingOpen(w);
    CompletePosted(w);
    var x := CompletionOf(w.sendq[0]);
    AheadAdd(w.cq, x, WaitedFor(w));
    assert RecvC in w.cq + [x] <==> RecvC in w.cq;
  }

  lemma TowardMove(w: Channel, i: nat)
    requires Inv(w) && Waiting(w) && !Doomed(w) && w.sendq != [] && !w.sendq[0].Send? && i in Unmoved(w)
    ensures Enabled(w, Move(i))
    ensures var w1 := Next(w, Move(i)); w1.client == w.client && !Doomed(w1) && Nearer(w1, w)
  {
    hide Inv, Ahead;
    RequestFits(w);
    assert Unmoved(Next(w, Move(i))) == Unmoved(w) - {i};
  }

  /** For a call that is not doomed, the requests are carried out in their order, and
      then completions are polled. */
  lemma Toward(w: Channel) returns (s: Step)
    requires Inv(w) && Waiting(w) && !Doomed(w) && Semaphore(w, WaitedFor(w)) == 0
    ensures Enabled(w, s) && Next(w, s).client == w.client && !Doomed(Next(w, s)) && Nearer(Next(w, s), w)
  {
    hide Inv, Doomed, Nearer, Next;
    if w.sendq == [] {
      s := Poll;
      TowardPoll(w);
    } else if w.sendq[0].Send? || Unmoved(w) == {} {
      s := Complete;
      assert forall i: nat :: i in Unmoved(w) <==> i < Size(w) && i !in w.moved;
      TowardComplete(w);
    } else {
      var i :| i in Unmoved(w);
      s := Move(i);
      TowardMove(w, i);
    }
  }

  lemma RequestFits(w: Channel)
    requires Inv(w) && w.sendq != [] && !w.sendq[0].Send?
    ensures w.sendq[0].off + Size(w) <= |w.remote| && |w.local| == Size(w)
  {
    hide ClientOk, PeerOk, EndOk, Semaphores;
  }

  lemma {:induction false} LiveReturns(w: Channel)
    requires Inv(w) && Waiting(w) && !Doomed(w)
    ensures CanReturn(w)
    decreases |w.sendq|, |Unmoved(w)|, |w.cq|
  {
    hide Inv, Doomed, Unmoved;
    if Semaphore(w, WaitedFor(w)) > 0 {
      OneStep(w, Acquire(w.client));
      assert Runs(w, [Acquire(w.client)], Next(w, Acquire(w.client)));
    } else {
      var s := Toward(w);
      InvStep(w, s);
      LiveReturns(Next(w, s));
      OneStep(w, s);
      var steps, w1 :| Runs(Next(w, s), steps, w1) && w1.client != w.client;
      RunsThen(w, [s], Next(w, s), steps, w1);
    }
  }

  /** A read, write or DONE in progress can still return if and only if it is not
      doomed. */
  lemma ReturnsIff(w: Channel)
    requires Inv(w) && Waiting(w)
    ensures CanReturn(w) <==> !Doomed(w)
  {
    hide Inv, Doomed;
    if Doomed(w) {
      forall steps, w1 | Runs(w, steps, w1)
        ensures w1.client == w.client
      {
        DoomedForever(w, steps, w1);
      }
    } else {
      LiveReturns(w);
    }
  }

  /** The completion that the call in progress waits for has come and gone. */
  predicate Lost(w: Channel) {
    Waiting(w) && Semaphore(w, WaitedFor(w)) == 0 && !Posted(w, WaitedFor(w)) && WaitedFor(w) !in w.cq
  }

  lemma {:induction false} AheadIn(cq: seq<Completion>, c: Completion)
    requires Ahead(cq, c)
    ensures c in cq
  {
    if cq[0] != c {
      AheadIn(cq[1..], c);
    }
  }

  /** Then it is doomed. */
  lemma LostDoomed(w: Channel)
    requires Lost(w)
    ensures Waiting(w) && Doomed(w)
  {
    if Ahead(w.cq, WaitedFor(w)) {
      AheadIn(w.cq, WaitedFor(w));
    }
  }

  // ----- it happens -----

  /** The peer's DONE is polled. */
  function Closed(w: Channel): Channel {
    w.(recvs := 0, peerSent := 2, msg := DoneMsg, recvState := RsDoneRecv)
  }

  lemma ClosingRun(w: Channel)
    requires w.recvs == 1 && w.peerSent == 1 && w.cq == [] && w.poller.Polling? && w.recvState.RsMrRecv?
             && w.sendState.SsInit?
    ensures Runs(w, [Arrive, Poll], Closed(w))
  {
    assert (w.cq + [RecvC])[1..] == [];
    TwoSteps(w, Arrive, Poll);
  }

  /** The request at the head of the queue completes when the peer's DONE has been
      polled. */
  lemma LateRun(w: Channel)
    requires |w.sendq| == 1 && (!w.sendq[0].Send? ==> w.sendq[0].off + Size(w) <= |w.remote| && |w.local| == Size(w))
    requires w.moved == {} && w.cq == [] && w.poller.Polling? && w.recvState.RsDoneRecv? && w.sendState.SsInit?
    ensures exists steps, w1 :: Runs(w, steps, w1)
              && w1 == w.(local := w1.local, remote := w1.remote, sendq := [])
  {
    var a, moves := w, [];
    assert Runs(w, [], w);
    if !w.sendq[0].Send? {
      a, moves := Moved(w, 0), Moves(0, Size(w));
      MovesRun(w, 0);
    }
    assert a.sendq[1..] == [] && (a.cq + [CompletionOf(a.sendq[0])])[1..] == [];
    TwoSteps(a, Complete, Poll);
    RunsThen(w, moves, a, [Complete, Poll], Next(Next(a, Complete), Poll));
  }

  /** In some run the call in progress has lost its completion, and can never return. */
  ghost predicate Hangs(w: Channel, client: Client) {
    exists steps, w1 :: Runs(w, steps, w1) && Lost(w1) && !CanReturn(w1) && w1.client == client
  }

  lemma LostHangs(w: Channel, steps: seq<Step>, w1: Channel)
    requires Inv(w) && Runs(w, steps, w1) && Lost(w1)
    ensures Hangs(w, w1.client)
  {
    hide Inv, Lost, CanReturn, Doomed, Runs;
    RunKeeps(w, steps, w1);
    LostDoomed(w1);
    ReturnsIff(w1);
  }

  lemma HangsAfter(w: Channel, a: seq<Step>, w1: Channel, client: Client)
    requires Runs(w, a, w1) && Hangs(w1, client)
    ensures Hangs(w, client)
  {
    hide Lost, CanReturn;
    var b, w2 :| Runs(w1, b, w2) && Lost(w2) && !CanReturn(w2) && w2.client == client;
    RunsThen(w, a, w1, b, w2);
  }

  /** A request is made, the peer's DONE is polled, and the completion comes late. */
  lemma LateHangs(w: Channel)
    requires Inv(w) && |w.sendq| == 1 && w.moved == {} && w.cq == [] && w.poller.Polling?
    requires w.recvs == 1 && w.peerSent == 1 && w.recvState.RsMrRecv? && w.sendState.SsInit?
    requires (w.client.ReadWait? && w.readOps == 0) || (w.client.DoneWait? && w.doneOps == 0)
    ensures Hangs(w, w.client)
  {
    ClosingRun(w);
    var c := Closed(w);
    LateRun(c);
    var steps, w1 :| Runs(c, steps, w1) && w1 == c.(local := w1.local, remote := w1.remote, sendq := []);
    assert Lost(w1);
    RunsThen(w, [Arrive, Poll], c, steps, w1);
    LostHangs(w, [Arrive, Poll] + steps, w1);
  }

  /** On every connection _rdma_done may wait for ever. */
  lemma DoneHangs(w: Channel)
    requires Init(w)
    ensures Hangs(w, DoneWait)
  {
    var o := Opened(w);
    OpeningRun(w);
    OneStep(o, CallDone);
    LateHangs(Next(o, CallDone));
    HangsAfter(o, [CallDone], Next(o, CallDone), DoneWait);
    HangsAfter(w, OPENING, o, DoneWait);
  }

  /** ... and so may a read at any offset. */
  lemma ReadHangs(w: Channel, off: nat)
    requires Init(w) && off + Size(w) <= |w.remote|
    ensures Hangs(w, ReadWait(off))
  {
    var o := Opened(w);
    OpeningRun(w);
    OneStep(o, CallRead(off));
    LateHangs(Next(o, CallRead(off)));
    HangsAfter(o, [CallRead(off)], Next(o, CallRead(off)), ReadWait(off));
    HangsAfter(w, OPENING, o, ReadWait(off));
  }

  /** Once a write has lost its completion, the next one finds the semaphore down. */
  lemma NextWriteHangs(w: Channel, buf: seq<nat>, to: nat)
    requires Inv(w) && w.client.Ready? && |buf| == Size(w) && to + Size(w) <= |w.plain|
    requires w.writeOps == 0 && w.sendq == [] && w.cq == []
    ensures Hangs(w, WriteWait(buf, to))
  {
    hide Inv, CanReturn, Hangs;
    OneStep(w, CallWrite(buf, to));
    LostHangs(w, [CallWrite(buf, to)], Next(w, CallWrite(buf, to)));
  }

  /** A write returns before it completes; it is the next one that waits for ever. */
  lemma WriteHangs(w: Channel, buf: seq<nat>, off: nat, next_: seq<nat>, to: nat)
    requires Init(w) && |buf| == Size(w) && off + Size(w) <= |w.remote| && |next_| == Size(w)
             && to + Size(w) <= |w.remote|
    ensures Hangs(w, WriteWait(next_, to))
  {
    hide Hangs, Inv;
    var o := Opened(w);
    OpeningRun(w);
    InitInv(w);
    var q := Next(Next(Next(o, CallWrite(buf, off)), AcquireWrite), PostWrite);
    TwoSteps(o, CallWrite(buf, off), AcquireWrite);
    OneStep(Next(Next(o, CallWrite(buf, off)), AcquireWrite), PostWrite);
    ClosingRun(q);
    LateRun(Closed(q));
    var steps, w1 :| Runs(Closed(q), steps, w1)
      && w1 == Closed(q).(local := w1.local, remote := w1.remote, sendq := []);
    RunsThen(w, OPENING, o, [CallWrite(buf, off), AcquireWrite], Next(Next(o, CallWrite(buf, off)), AcquireWrite));
    RunsThen(w, OPENING + [CallWrite(buf, off), AcquireWrite],
             Next(Next(o, CallWrite(buf, off)), AcquireWrite), [PostWrite], q);
    RunsThen(w, OPENING + [CallWrite(buf, off), AcquireWrite] + [PostWrite], q, [Arrive, Poll], Closed(q));
    var before := OPENING + [CallWrite(buf, off), AcquireWrite] + [PostWrite] + [Arrive, Poll];
    RunsThen(w, before, Closed(q), steps, w1);
    RunKeeps(w, before + steps, w1);
    NextWriteHangs(w1, next_, to);
    HangsAfter(w, before + steps, w1, WriteWait(next_, to));
  }

  /** Every connection can also be closed as it should be: our DONE completes first, the
      call returns, and when the peer's DONE has come the connection is cut. */
  const CLOSING := [CallDone, Complete] + ([Poll, AcquireDone] + [Arrive, Poll])

  lemma ClosesWell(w: Channel)
    requires Init(w)
    ensures exists w1 :: Runs(w, OPENING + CLOSING, w1) && w1.client.Finished? && w1.disconnects == 1
  {
    hide Init, Runs, Next, Enabled, Opened;
    OpeningRun(w);
    var o := Opened(w);
    var a := SaysDone(w);
    var b := DoneReturns(a);
    var w1 := PeerDone(b);
    RunsThen(a, [Poll, AcquireDone], b, [Arrive, Poll], w1);
    RunsThen(o, [CallDone, Complete], a, [Poll, AcquireDone] + [Arrive, Poll], w1);
    RunsThen(w, OPENING, o, CLOSING, w1);
  }

  lemma SaysDone(w: Channel) returns (a: Channel)
    requires Init(w)
    ensures Runs(Opened(w), [CallDone, Complete], a) && a.client.DoneWait? && a.cq == [SendC] && a.doneOps == 0
    ensures a.poller.Polling? && a.sendState.SsInit? && a.recvState.RsMrRecv? && a.recvs == 1 && a.peerSent == 1
    ensures a.disconnects == 0
  {
    var o := Opened(w);
    a := Next(Next(o, CallDone), Complete);
    TwoSteps(o, CallDone, Complete);
  }

  lemma DoneReturns(a: Channel) returns (b: Channel)
    requires a.client.DoneWait? && a.cq == [SendC] && a.doneOps == 0
    requires a.poller.Polling? && a.sendState.SsInit? && a.recvState.RsMrRecv? && a.recvs == 1 && a.peerSent == 1
    requires a.disconnects == 0
    ensures Runs(a, [Poll, AcquireDone], b) && b.client.Finished? && b.cq == [] && b.sendState.SsDoneSent?
    ensures b.poller.Polling? && b.recvState.RsMrRecv? && b.recvs == 1 && b.peerSent == 1 && b.disconnects == 0
  {
    b := Next(Next(a, Poll), AcquireDone);
    TwoSteps(a, Poll, AcquireDone);
  }

  lemma PeerDone(b: Channel) returns (w1: Channel)
    requires b.client.Finished? && b.cq == [] && b.sendState.SsDoneSent?
    requires b.poller.Polling? && b.recvState.RsMrRecv? && b.recvs == 1 && b.peerSent == 1 && b.disconnects == 0
    ensures Runs(b, [Arrive, Poll], w1) && w1.client.Finished? && w1.disconnects == 1
  {
    assert (b.cq + [RecvC])[1..] == [];
    w1 := Next(Next(b, Arrive), Poll);
    TwoSteps(b, Arrive, Poll);
  }
}
