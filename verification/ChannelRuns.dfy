/** Pieces of which runs of the protocol are made. */
module ChannelRuns {
  import opened RdmaChannel

  lemma {:induction false} RunsThen(w: Channel, a: seq<Step>, w1: Channel, b: seq<Step>, w2: Channel)
    requires Runs(w, a, w1) && Runs(w1, b, w2)
    ensures Runs(w, a + b, w2)
    decreases |a|
  {
    hide Next, Enabled;
    if a == [] {
      assert a + b == b;
    } else {
      RunsThen(Next(w, a[0]), a[1..], w1, b, w2);
      assert (a + b)[1..] == a[1..] + b;
    }
  }

  lemma OneStep(w: Channel, s: Step)
    requires Enabled(w, s)
    ensures Runs(w, [s], Next(w, s))
  {
    assert Runs(Next(w, s), [], Next(w, s));
  }

  lemma TwoSteps(w: Channel, s: Step, t: Step)
    requires Enabled(w, s) && Enabled(Next(w, s), t)
    ensures Runs(w, [s, t], Next(Next(w, s), t))
  {
    hide Next, Enabled;
    OneStep(w, s);
    OneStep(Next(w, s), t);
    RunsThen(w, [s], Next(w, s), [t], Next(Next(w, s), t));
    assert [s] + [t] == [s, t];
  }

  /** The start of a connection: the peer's region arrives, and the client goes on. */
  const OPENING := [Arrive, Poll, Rearm, FinishMr, Start]

  function Opened(w: Channel): Channel {
    w.(recvs := 1, peerSent := 1, msg := MrMsg, peerMrs := 1, recvState := RsMrRecv, client := Ready)
  }

  lemma OpeningRun(w: Channel)
    requires Init(w)
    ensures Runs(w, OPENING, Opened(w))
  {
    var a := Next(w, Arrive);
    var c := Next(Next(a, Poll), Rearm);
    TwoSteps(w, Arrive, Poll);
    TwoSteps(Next(a, Poll), Rearm, FinishMr);
    OneStep(Next(c, FinishMr), Start);
    RunsThen(w, [Arrive, Poll], Next(a, Poll), [Rearm, FinishMr], Next(c, FinishMr));
    RunsThen(w, [Arrive, Poll] + [Rearm, FinishMr], Next(c, FinishMr), [Start], Opened(w));
    assert [Arrive, Poll] + [Rearm, FinishMr] + [Start] == OPENING;
  }

  /** The NIC moves the bytes from the `k`th on, one after the other. */
  function Moves(k: nat, n: nat): seq<Step>
    decreases n - k
  {
    if k < n then [Move(k)] + Moves(k + 1, n) else []
  }

  /** The NIC finishes the read or write at the head of the queue. */
  function Moved(w: Channel, k: nat): Channel
    requires w.sendq != [] && !w.sendq[0].Send? && w.sendq[0].off + Size(w) <= |w.remote| && |w.local| == Size(w)
    requires forall i: nat :: i in w.moved <==> i < k
    decreases Size(w) - k
  {
    if k < Size(w) then
      Moved(Next(w, Move(k)), k + 1)
    else w
  }

  lemma {:induction false} MovesRun(w: Channel, k: nat)
    requires w.sendq != [] && !w.sendq[0].Send? && w.sendq[0].off + Size(w) <= |w.remote| && |w.local| == Size(w)
    requires k <= Size(w) && forall i: nat :: i in w.moved <==> i < k
    ensures var w1 := Moved(w, k);
            && Runs(w, Moves(k, Size(w)), w1) && (forall i :: 0 <= i < Size(w1) ==> i in w1.moved)
            && w1 == w.(local := w1.local, remote := w1.remote, moved := w1.moved)
    decreases Size(w) - k
  {
    if k < Size(w) {
      var w1 := Next(w, Move(k));
      MovesRun(w1, k + 1);
      assert Moves(k, Size(w))[1..] == Moves(k + 1, Size(w));
    }
  }
}
