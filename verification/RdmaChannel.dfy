/** The RDMA transfer protocol of rdma-common.c: the calls of one client, which are
    serialised, a NIC that serves its send queue in order and moves the bytes of a
    request one by one, in any order, the peer's two messages, and the thread that
    polls the completion queue. Each step is one action of one of them. */
module RdmaChannel {

  /** A posted send request; offsets are into the peer's memory region. */
  datatype Request = Read(off: nat) | Write(off: nat) | Send

  datatype Completion = ReadC | WriteC | SendC | RecvC

  datatype Msg = MrMsg | DoneMsg

  /** Where the client is. `Starting` waits for init_wait. */
  datatype Client =
    | Starting
    | Ready
    | WriteWait(buf: seq<nat>, to: nat)
    | WritePost(to: nat)
    | ReadWait(from: nat)
    | DoneWait
    | Finished

  /** Where the polling thread is inside on_completion, for the peer's MSG_MR. */
  datatype Poller = Polling | Copied | Rearmed

  datatype SendState = SsInit | SsDoneSent
  datatype RecvState = RsInit | RsMrRecv | RsDoneRecv

  /** `local` and `stage` are rdma_local_region and rdma_remote_region, the staging
      buffers of reads and writes. `moved` says which bytes of the request at the
      head of the send queue have been transferred. `plain` is the plain byte array
      that the peer's memory stands for: what the writes posted so far make of it. */
  datatype Channel = Channel(
    remote: seq<nat>, local: seq<nat>, stage: seq<nat>,
    sendq: seq<Request>, moved: set<nat>, cq: seq<Completion>,
    readOps: nat, writeOps: nat, doneOps: nat, initWait: nat,
    sendState: SendState, recvState: RecvState, peerMrs: nat,
    recvs: nat, peerSent: nat, msg: Msg, poller: Poller, disconnects: nat,
    client: Client, plain: seq<nat>, result: seq<nat>)

  datatype Step =
    | Start
    | CallWrite(buf: seq<nat>, off: nat)
    | AcquireWrite
    | PostWrite
    | CallRead(off: nat)
    | AcquireRead
    | CallDone
    | AcquireDone
    | Move(i: nat)
    | Complete
    | Arrive
    | Poll
    | Rearm
    | FinishMr

  function Overwrite(s: seq<nat>, off: nat, buf: seq<nat>): seq<nat>
    requires off + |buf| <= |s|
  {
    s[..off] + buf + s[off + |buf|..]
  }

  /** RDMA_BUFFER_SIZE. */
  function Size(w: Channel): nat {
    |w.stage|
  }

  function CompletionOf(r: Request): Completion {
    match r
    case Read(_) => ReadC
    case Write(_) => WriteC
    case Send => SendC
  }

  predicate Enabled(w: Channel, s: Step) {
    match s
    case Start => w.client.Starting? && w.initWait > 0
    case CallWrite(buf, off) => w.client.Ready? && |buf| == Size(w) && off + Size(w) <= |w.plain|
    case AcquireWrite => w.client.WriteWait? && w.writeOps > 0
    case PostWrite => w.client.WritePost? && w.client.to + Size(w) <= |w.plain|
    case CallRead(off) => w.client.Ready? && off + Size(w) <= |w.plain|
    case AcquireRead => w.client.ReadWait? && w.readOps > 0
    case CallDone => w.client.Ready?
    case AcquireDone => w.client.DoneWait? && w.doneOps > 0
    case Move(i) =>
      && w.sendq != [] && i < Size(w) && i !in w.moved && |w.local| == Size(w)
      && (match w.sendq[0]
          case Read(off) => off + i < |w.remote|
          case Write(off) => off + i < |w.remote|
          case Send => false)
    case Complete => w.sendq != [] && (w.sendq[0].Send? || forall i :: 0 <= i < Size(w) ==> i in w.moved)
    case Arrive => w.recvs > 0 && w.peerSent < 2
    case Poll => w.cq != [] && w.poller.Polling?
    case Rearm => w.poller.Copied?
    case FinishMr => w.poller.Rearmed?
  }

  /** The last test of on_completion. */
  function Disconnect(w: Channel): Channel {
    if w.sendState.SsDoneSent? && w.recvState.RsDoneRecv? then w.(disconnects := w.disconnects + 1) else w
  }

  /** on_completion; the peer's MSG_MR takes two more steps. */
  function OnCompletion(w: Channel, c: Completion): Channel {
    if c.RecvC? then
      if w.recvState.RsInit? && w.msg.MrMsg? then w.(peerMrs := w.peerMrs + 1, poller := Copied)
      else if w.recvState.RsMrRecv? then Disconnect(w.(recvState := RsDoneRecv))
      else Disconnect(w)
    else if w.sendState.SsInit? && w.recvState.RsMrRecv? then
      (match c
       case ReadC => Disconnect(w.(readOps := w.readOps + 1))
       case SendC => Disconnect(w.(sendState := SsDoneSent, doneOps := w.doneOps + 1))
       case _ => Disconnect(w.(writeOps := w.writeOps + 1)))
    else Disconnect(w)
  }

  function Next(w: Channel, s: Step): Channel
    requires Enabled(w, s)
  {
    match s
    case Start => w.(initWait := w.initWait - 1, client := Ready)
    case CallWrite(buf, off) => w.(client := WriteWait(buf, off))
    case AcquireWrite => w.(writeOps := w.writeOps - 1, stage := w.client.buf, client := WritePost(w.client.to))
    case PostWrite =>
      w.(sendq := w.sendq + [Write(w.client.to)], plain := Overwrite(w.plain, w.client.to, w.stage), client := Ready)
    case CallRead(off) => w.(sendq := w.sendq + [Read(off)], client := ReadWait(off))
    case AcquireRead => w.(readOps := w.readOps - 1, result := w.local, client := Ready)
    case CallDone => w.(sendq := w.sendq + [Send], client := DoneWait)
    case AcquireDone => w.(doneOps := w.doneOps - 1, client := Finished)
    case Move(i) =>
      (match w.sendq[0]
       case Read(off) => w.(local := w.local[i := w.remote[off + i]], moved := w.moved + {i})
       case Write(off) => w.(remote := w.remote[off + i := w.stage[i]], moved := w.moved + {i})
       case Send => w)
    case Complete => w.(sendq := w.sendq[1..], moved := {}, cq := w.cq + [CompletionOf(w.sendq[0])])
    case Arrive =>
      w.(recvs := w.recvs - 1, peerSent := w.peerSent + 1, msg := if w.peerSent == 0 then MrMsg else DoneMsg,
         cq := w.cq + [RecvC])
    case Poll => OnCompletion(w.(cq := w.cq[1..]), w.cq[0])
    case Rearm => w.(recvs := w.recvs + 1, poller := Rearmed)
    case FinishMr =>
      var w1 := w.(poller := Polling, recvState := RsMrRecv);
      Disconnect(if w.sendState.SsInit? then w1.(initWait := w1.initWait + 1) else w1)
  }

  // ----- the invariant -----

  function Int(b: bool): nat {
    if b then 1 else 0
  }

  function Count(cq: seq<Completion>, c: Completion): nat {
    if cq == [] then 0 else Int(cq[0] == c) + Count(cq[1..], c)
  }

  predicate WritePosted(w: Channel) {
    w.sendq != [] && w.sendq[0].Write?
  }

  predicate ReadPosted(w: Channel) {
    w.sendq != [] && w.sendq[|w.sendq| - 1].Read?
  }

  predicate SendPosted(w: Channel) {
    w.sendq != [] && w.sendq[|w.sendq| - 1].Send?
  }

  /** At most two requests are in the send queue: one write, and behind it one
      read or the final message. */
  predicate QueueOk(w: Channel) {
    |w.sendq| <= 2 && (|w.sendq| == 2 ==> w.sendq[0].Write? && !w.sendq[1].Write?)
  }

  /** Each semaphore stands for the completion it waits for. */
  predicate Semaphores(w: Channel) {
    && w.writeOps + Int(WritePosted(w)) + Count(w.cq, WriteC) + Int(w.client.WritePost?) <= 1
    && w.readOps + Int(ReadPosted(w)) + Count(w.cq, ReadC) <= Int(w.client.ReadWait?)
    && w.doneOps + Int(SendPosted(w)) + Count(w.cq, SendC) <= Int(w.client.DoneWait?)
    && w.recvs + Count(w.cq, RecvC) <= Int(!w.poller.Copied?)
  }

  /** What the data say: the peer's memory with the posted write applied is the
      plain array; a write's bytes are the staging buffer's; and what a read has
      moved is the plain array's. */
  predicate DataOk(w: Channel) {
    && |w.remote| == |w.plain| && |w.local| == |w.stage|
    && (forall k :: 0 <= k < |w.sendq| ==> !w.sendq[k].Send? ==> w.sendq[k].off + Size(w) <= |w.plain|)
    && (forall j :: 0 <= j < |w.plain| ==>
          w.plain[j] == if WritePosted(w) && w.sendq[0].off <= j < w.sendq[0].off + Size(w)
                        then w.stage[j - w.sendq[0].off] else w.remote[j])
    && (WritePosted(w) ==> forall i :: i in w.moved && 0 <= i < Size(w) ==> w.remote[w.sendq[0].off + i] == w.stage[i])
    && (w.sendq != [] && w.sendq[0].Read? ==>
          forall i :: i in w.moved && 0 <= i < Size(w) ==> w.local[i] == w.plain[w.sendq[0].off + i])
    && (w.sendq == [] || w.sendq[0].Send? ==> w.moved == {})
  }

  predicate ClientOk(w: Channel) {
    && (w.client.WriteWait? ==> |w.client.buf| == Size(w) && w.client.to + Size(w) <= |w.plain|)
    && (w.client.WritePost? ==> w.client.to + Size(w) <= |w.plain|)
    && (w.client.ReadWait? ==>
          && w.client.from + Size(w) <= |w.plain|
          && (ReadPosted(w) ==> w.sendq[|w.sendq| - 1] == Read(w.client.from))
          && (w.readOps > 0 || Count(w.cq, ReadC) > 0 ==>
                w.local == w.plain[w.client.from..w.client.from + Size(w)]))
  }

  /** The peer's messages: its memory region is known once, before the client may
      start, and its DONE is its last. */
  predicate PeerOk(w: Channel) {
    && w.peerSent <= 2 && w.peerMrs == Int(!(w.recvState.RsInit? && w.poller.Polling?))
    && (w.poller != Polling ==> w.recvState.RsInit?)
    && w.initWait + Int(!w.client.Starting?) <= Int(!w.recvState.RsInit?)
    && (w.client.Starting? ==> w.sendq == [] && w.sendState.SsInit?)
    && w.peerSent == Count(w.cq, RecvC) + Int(!(w.recvState.RsInit? && w.poller.Polling?))
       + Int(w.recvState.RsDoneRecv?)
    && (w.peerSent == 1 ==> w.msg.MrMsg?)
    && (w.peerSent == 2 ==> w.recvs == 0)
  }

  predicate SendLast(cq: seq<Completion>) {
    forall i, j :: 0 <= i < j < |cq| && cq[i].SendC? ==> cq[j].RecvC?
  }

  /** The end: the client's DONE is its last request; the connection is cut once
      both have been seen, and then nothing more can complete. */
  predicate EndOk(w: Channel) {
    && SendLast(w.cq)
    && (Count(w.cq, SendC) > 0 || w.sendState.SsDoneSent? ==> w.sendq == [])
    && (w.sendState.SsDoneSent? ==>
          (w.client.DoneWait? || w.client.Finished?) && forall i :: 0 <= i < |w.cq| ==> w.cq[i].RecvC?)
    && (w.client.Finished? || w.doneOps > 0 ==> w.sendState.SsDoneSent?)
    && (w.client.DoneWait? && w.sendState.SsDoneSent? ==> w.doneOps > 0)
    && w.disconnects == Int(w.sendState.SsDoneSent? && w.recvState.RsDoneRecv?)
  }

  predicate Inv(w: Channel) {
    QueueOk(w) && Semaphores(w) && DataOk(w) && ClientOk(w) && PeerOk(w) && EndOk(w)
  }

  lemma {:induction false} CountAdd(cq: seq<Completion>, x: Completion, c: Completion)
    ensures Count(cq + [x], c) == Count(cq, c) + Int(x == c)
  {
    if cq != [] {
      assert (cq + [x])[1..] == cq[1..] + [x];
      CountAdd(cq[1..], x, c);
    }
  }

  // ----- every step keeps it -----

  lemma StartInv(w: Channel, s: Step)
    requires Inv(w) && Enabled(w, s)
    requires s.Start? || s.CallWrite? || s.AcquireWrite? || s.AcquireDone? || s.AcquireRead? || s.Rearm?
    ensures Inv(Next(w, s))
  {
    hide Count;
  }

  lemma CallInv(w: Channel, s: Step)
    requires Inv(w) && Enabled(w, s) && (s.CallRead? || s.CallDone?)
    ensures Inv(Next(w, s))
  {
    hide Count;
  }

  lemma PostWriteInv(w: Channel)
    requires Inv(w) && Enabled(w, PostWrite)
    ensures Inv(Next(w, PostWrite))
  {
    hide Count;
  }

  lemma MoveInv(w: Channel, i: nat)
    requires Inv(w) && Enabled(w, Move(i))
    ensures Inv(Next(w, Move(i)))
  {
    hide Count;
  }

  lemma {:induction false} CountIn(cq: seq<Completion>, i: nat)
    requires i < |cq|
    ensures Count(cq, cq[i]) > 0
  {
    if i > 0 {
      CountIn(cq[1..], i - 1);
    }
  }

  lemma CompleteInv(w: Channel)
    requires Inv(w) && Enabled(w, Complete)
    ensures Inv(Next(w, Complete))
  {
    hide Count;
    forall i | 0 <= i < |w.cq|
      ensures Count(w.cq, w.cq[i]) > 0
    {
      CountIn(w.cq, i);
    }
    var x := CompletionOf(w.sendq[0]);
    CountAdd(w.cq, x, ReadC);
    CountAdd(w.cq, x, WriteC);
    CountAdd(w.cq, x, SendC);
    CountAdd(w.cq, x, RecvC);
  }

  lemma ArriveInv(w: Channel)
    requires Inv(w) && Enabled(w, Arrive)
    ensures Inv(Next(w, Arrive))
  {
    hide Count;
    CountAdd(w.cq, RecvC, ReadC);
    CountAdd(w.cq, RecvC, WriteC);
    CountAdd(w.cq, RecvC, SendC);
    CountAdd(w.cq, RecvC, RecvC);
  }

  lemma CountFirst(cq: seq<Completion>, c: Completion)
    requires cq != []
    ensures Count(cq, c) == Int(cq[0] == c) + Count(cq[1..], c)
  {
  }

  lemma PollInv(w: Channel)
    requires Inv(w) && Enabled(w, Poll)
    ensures Inv(Next(w, Poll))
  {
    hide Count, DataOk, ClientOk, EndOk, PeerOk, Semaphores, Next;
    PollCounts(w);
    PollSemaphores(w);
    PollPeer(w);
    PollEnd(w);
    PollClient(w);
    DataSame(w, Next(w, Poll));
  }

  lemma PollCounts(w: Channel)
    requires w.cq != [] && w.poller.Polling?
    ensures var n := Next(w, Poll);
            && n.cq == w.cq[1..] && n.remote == w.remote && n.local == w.local && n.stage == w.stage
            && n.sendq == w.sendq && n.moved == w.moved && n.client == w.client && n.plain == w.plain
  {
    hide Count;
  }

  lemma DataSame(w: Channel, n: Channel)
    requires n.remote == w.remote && n.local == w.local && n.stage == w.stage && n.sendq == w.sendq
    requires n.moved == w.moved && n.plain == w.plain && DataOk(w)
    ensures DataOk(n)
  {
  }

  lemma PollSemaphores(w: Channel)
    requires Inv(w) && Enabled(w, Poll)
    ensures Semaphores(Next(w, Poll))
  {
    hide Count, DataOk, ClientOk, EndOk;
    CountFirst(w.cq, ReadC);
    CountFirst(w.cq, WriteC);
    CountFirst(w.cq, SendC);
    CountFirst(w.cq, RecvC);
  }

  lemma PollPeer(w: Channel)
    requires Inv(w) && Enabled(w, Poll)
    ensures PeerOk(Next(w, Poll))
  {
    hide Count, DataOk, ClientOk, EndOk, QueueOk;
    CountFirst(w.cq, RecvC);
    CountFirst(w.cq, SendC);
  }

  lemma PollClient(w: Channel)
    requires Inv(w) && Enabled(w, Poll)
    ensures ClientOk(Next(w, Poll))
  {
    hide Count, DataOk, EndOk, QueueOk, PeerOk, Semaphores;
    CountFirst(w.cq, ReadC);
  }

  lemma PollEnd(w: Channel)
    requires Inv(w) && Enabled(w, Poll)
    ensures EndOk(Next(w, Poll))
  {
    hide Count, DataOk, ClientOk, QueueOk;
    CountFirst(w.cq, SendC);
    CountFirst(w.cq, RecvC);
  }

  lemma FinishMrInv(w: Channel)
    requires Inv(w) && Enabled(w, FinishMr)
    ensures Inv(Next(w, FinishMr))
  {
    hide Count;
  }

  lemma InvStep(w: Channel, s: Step)
    requires Inv(w) && Enabled(w, s)
    ensures Inv(Next(w, s))
  {
    hide Inv, Next, Enabled;
    match s
    case CallRead(_) => CallInv(w, s);
    case CallDone => CallInv(w, s);
    case PostWrite => PostWriteInv(w);
    case Move(i) => MoveInv(w, i);
    case Complete => CompleteInv(w);
    case Arrive => ArriveInv(w);
    case Poll => PollInv(w);
    case FinishMr => FinishMrInv(w);
    case _ => StartInv(w, s);
  }

  // ----- every run -----

  /** build_connection: the write semaphore is at 1, one receive is posted. */
  predicate Init(w: Channel) {
    && w.sendq == [] && w.moved == {} && w.cq == []
    && w.readOps == 0 && w.writeOps == 1 && w.doneOps == 0 && w.initWait == 0
    && w.sendState.SsInit? && w.recvState.RsInit? && w.peerMrs == 0 && w.recvs == 1 && w.peerSent == 0
    && w.poller.Polling? && w.disconnects == 0 && w.client.Starting?
    && w.plain == w.remote && |w.local| == |w.stage|
  }

  ghost predicate Runs(w: Channel, steps: seq<Step>, w1: Channel)
    decreases |steps|
  {
    if steps == [] then w1 == w else Enabled(w, steps[0]) && Runs(Next(w, steps[0]), steps[1..], w1)
  }

  /** What the offset writes among the calls so far make of a plain byte array. */
  function AfterCalls(p: seq<nat>, steps: seq<Step>): seq<nat>
    decreases |steps|
  {
    if steps == [] then p
    else match steps[0]
      case CallWrite(buf, off) => AfterCalls(if off + |buf| <= |p| then Overwrite(p, off, buf) else p, steps[1..])
      case _ => AfterCalls(p, steps[1..])
  }

  /** The plain array once the call in progress has had its effect. */
  function Promised(w: Channel): seq<nat> {
    match w.client
    case WriteWait(buf, to) => if to + |buf| <= |w.plain| then Overwrite(w.plain, to, buf) else w.plain
    case WritePost(to) => if to + |w.stage| <= |w.plain| then Overwrite(w.plain, to, w.stage) else w.plain
    case _ => w.plain
  }

  lemma PromisedStep(w: Channel, s: Step)
    requires Inv(w) && Enabled(w, s)
    ensures Promised(Next(w, s)) == AfterCalls(Promised(w), [s])
  {
    hide Count, DataOk, PeerOk, EndOk, Semaphores, QueueOk, AfterCalls, Overwrite;
    OneCall(Promised(w), s);
  }

  lemma OneCall(p: seq<nat>, s: Step)
    ensures AfterCalls(p, [s])
              == if s.CallWrite? && s.off + |s.buf| <= |p| then Overwrite(p, s.off, s.buf) else p
  {
  }

  lemma {:induction false} RunKeeps(w: Channel, steps: seq<Step>, w1: Channel)
    requires Inv(w) && Runs(w, steps, w1)
    ensures Inv(w1) && Promised(w1) == AfterCalls(Promised(w), steps)
    decreases |steps|
  {
    hide Inv, Next, Enabled, Promised;
    if steps != [] {
      InvStep(w, steps[0]);
      PromisedStep(w, steps[0]);
      RunKeeps(Next(w, steps[0]), steps[1..], w1);
    }
  }

  lemma InitInv(w: Channel)
    requires Init(w)
    ensures Inv(w)
  {
  }

  /** Linearizability: in every run, whatever the NIC, the peer and the poller do in
      between, an offset read returns what a plain byte array gives after all the
      offset writes called before it. */
  lemma ReadsArePlain(w: Channel, steps: seq<Step>, w1: Channel)
    requires Init(w) && Runs(w, steps, w1) && Enabled(w1, AcquireRead)
    ensures var plain := AfterCalls(w.remote, steps); var from := w1.client.from;
            from + Size(w1) <= |plain| && Next(w1, AcquireRead).result == plain[from..from + Size(w1)]
  {
    hide Runs, AfterCalls, QueueOk, PeerOk, EndOk;
    InitInv(w);
    RunKeeps(w, steps, w1);
  }

  /** The reason: no step touches the staging buffer of writes while a write is
      posted. */
  lemma StageStill(w: Channel, s: Step)
    requires Inv(w) && Enabled(w, s) && WritePosted(w)
    ensures Next(w, s).stage == w.stage
  {
    hide Count, DataOk, PeerOk, EndOk, ClientOk;
  }

  /** The queues, set up for ten entries each, never overflow: at most two send
      requests and one receive are posted and not yet polled. */
  lemma QueuesFit(w: Channel)
    requires Inv(w)
    ensures |w.sendq| + Count(w.cq, ReadC) + Count(w.cq, WriteC) + Count(w.cq, SendC) <= 2
    ensures w.recvs + Count(w.cq, RecvC) <= 1
    ensures |w.cq| <= 3
  {
    hide Count, DataOk, PeerOk, EndOk;
    CountSum(w.cq);
  }

  lemma {:induction false} CountSum(cq: seq<Completion>)
    ensures |cq| == Count(cq, ReadC) + Count(cq, WriteC) + Count(cq, SendC) + Count(cq, RecvC)
  {
    if cq != [] {
      CountSum(cq[1..]);
    }
  }

  /** The peer's memory region is known exactly once before the client starts, and
      the connection is cut at most once, and only after both DONEs. */
  lemma ConnectionOrder(w: Channel, steps: seq<Step>, w1: Channel)
    requires Init(w) && Runs(w, steps, w1)
    ensures w1.initWait > 0 || !w1.client.Starting? ==> w1.peerMrs == 1
    ensures w1.peerMrs <= 1 && w1.disconnects <= 1
    ensures w1.disconnects == 1 <==> w1.sendState.SsDoneSent? && w1.recvState.RsDoneRecv?
  {
    hide Runs, AfterCalls, DataOk, ClientOk, QueueOk, Semaphores, Count;
    InitInv(w);
    RunKeeps(w, steps, w1);
  }
}
