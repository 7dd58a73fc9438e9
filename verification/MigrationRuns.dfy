/** What the steps of a run say about EPT entries and cached translations, and that
    translations do get stale. */
module MigrationRuns {
  import Radix
  import opened Migration
  import VcpuAbort

  /** What the EPT of vCPU `v` has for `gpa` after these steps: what the last of them to
      map it, unmap it or create the vCPU says. */
  function Entry(steps: seq<Step>, v: nat, gpa: nat): Radix.Option<nat> {
    if steps == [] then Radix.None
    else
      var before := steps[..|steps| - 1];
      match steps[|steps| - 1]
      case Map(x, g, frame) => if x == v && g == gpa then Radix.Some(frame) else Entry(before, v, gpa)
      case Unmap(x, g) => if x == v && g == gpa then Radix.None else Entry(before, v, gpa)
      case UnmapRange(x, gs) => if x == v && gpa in gs then Radix.None else Entry(before, v, gpa)
      case Create(x) => if x == v then Radix.None else Entry(before, v, gpa)
      case _ => Entry(before, v, gpa)
  }

  function Lookup(ept: map<nat, nat>, gpa: nat): Radix.Option<nat> {
    if gpa in ept then Radix.Some(ept[gpa]) else Radix.None
  }

  lemma {:induction false} RunsLast(w: World, steps: seq<Step>, w1: World) returns (w0: World)
    requires Runs(w, steps, w1) && steps != []
    ensures Runs(w, steps[..|steps| - 1], w0) && Enabled(w0, steps[|steps| - 1]) && w1 == Next(w0, steps[|steps| - 1])
    decreases |steps|
  {
    hide Next, Enabled;
    if |steps| == 1 {
      w0 := w;
    } else {
      w0 := RunsLast(Next(w, steps[0]), steps[1..], w1);
      assert steps[..|steps| - 1][1..] == steps[1..][..|steps| - 2];
    }
  }

  /** One step changes an EPT only as it says. */
  lemma EntryStep(w: World, s: Step, v: nat, gpa: nat)
    requires Enabled(w, s) && v in Next(w, s).vcpus
    ensures Lookup(Next(w, s).vcpus[v].ept, gpa)
            == match s
               case Map(x, g, frame) =>
                 if x == v && g == gpa then Radix.Some(frame) else Lookup(Known(w, v), gpa)
               case Unmap(x, g) => if x == v && g == gpa then Radix.None else Lookup(Known(w, v), gpa)
               case UnmapRange(x, gs) => if x == v && gpa in gs then Radix.None else Lookup(Known(w, v), gpa)
               case Create(x) => if x == v then Radix.None else Lookup(Known(w, v), gpa)
               case _ => Lookup(Known(w, v), gpa)
    ensures v in w.vcpus || s == Create(v)
  {
    hide Next, LocalAfter, ActiveAfter, CurrentAfter, InLaunchAfter, TlbAfter, SyncsAfter, FirstZero, Unheld,
      Interruptible, EntryFits, HasLocal;
    NextIs(w, s);
  }

  function Known(w: World, v: nat): map<nat, nat> {
    if v in w.vcpus then w.vcpus[v].ept else map[]
  }

  /** In every run the EPT of a vCPU has exactly what the steps say. */
  lemma {:induction false} RunEntries(w: World, steps: seq<Step>, w1: World, v: nat, gpa: nat)
    requires Init(w) && Runs(w, steps, w1) && v in w1.vcpus
    ensures Lookup(w1.vcpus[v].ept, gpa) == Entry(steps, v, gpa)
    decreases |steps|
  {
    hide Next, Enabled, Lookup;
    if steps != [] {
      var w0 := RunsLast(w, steps, w1);
      EntryStep(w0, steps[|steps| - 1], v, gpa);
      if v in w0.vcpus {
        RunEntries(w, steps[..|steps| - 1], w0, v, gpa);
      }
    }
  }

  /** In every run, what is cached on a vCPU's CPU is what the steps so far have mapped,
      unless a flush of it is pending; so after an unmapping and its flush nothing is
      cached, until the address is mapped again. */
  lemma RunFresh(w: World, steps: seq<Step>, w1: World, t: Cached)
    requires Init(w) && Runs(w, steps, w1) && t in w1.tlb && t.v in w1.vcpus && w1.vcpus[t.v].cpu == Radix.Some(t.cpu)
    ensures Entry(steps, t.v, t.gpa) == Radix.Some(t.frame) || Pending(w1, t.v, t.gpa, t.cpu)
  {
    hide Inv, Pending, Entry, Runs;
    InitInv(w);
    RunKeeps(w, steps, w1);
    FreshKnown(w1, t);
    RunEntries(w, steps, w1, t.v, t.gpa);
  }

  /** A guest touches an address only while it is mapped by the steps so far, and what its
      CPU caches is that mapping. */
  lemma RunTouches(w: World, steps: seq<Step>, w1: World, v: nat, gpa: nat)
    requires Init(w) && Runs(w, steps, w1) && Enabled(w1, Touch(v, gpa))
    ensures Entry(steps, v, gpa).Some?
    ensures Cached(w1.vcpus[v].phase.on, v, gpa, Entry(steps, v, gpa).value) in Next(w1, Touch(v, gpa)).tlb
  {
    hide Entry, Runs;
    RunEntries(w, steps, w1, v, gpa);
  }

  /** Clearing an entry makes a flush of it pending. */
  lemma UnmapPends(w: World, s: Step, gpa: nat, c: nat)
    requires Enabled(w, s) && (s == Unmap(s.v, gpa) || s.UnmapRange?)
    ensures Pending(Next(w, s), s.v, gpa, c)
  {
    hide Next, Enabled, Pending;
    PendingNext(w, s, s.v, gpa, c);
  }

  lemma RunUnmapped(w: World, steps: seq<Step>, w1: World, v: nat, gpa: nat)
    requires Init(w) && Runs(w, steps, w1) && v in w1.vcpus && Entry(steps, v, gpa).None?
    ensures !Enabled(w1, Touch(v, gpa))
    ensures forall t :: t in w1.tlb && t.v == v && t.gpa == gpa && w1.vcpus[v].cpu == Radix.Some(t.cpu) ==>
              Pending(w1, v, gpa, t.cpu)
  {
    hide Entry, Runs, Pending;
    RunEntries(w, steps, w1, v, gpa);
    forall t | t in w1.tlb && t.v == v && t.gpa == gpa && w1.vcpus[v].cpu == Radix.Some(t.cpu)
      ensures Pending(w1, v, gpa, t.cpu)
    {
      RunFresh(w, steps, w1, t);
    }
  }

  /** After the last unmapping of an address, the guest does not get to touch it before
      it is mapped again. */
  lemma {:induction false} UntouchedSince(w: World, steps: seq<Step>, more: seq<Step>, w2: World, v: nat, gpa: nat)
    requires Init(w) && Runs(w, steps + more, w2) && Entry(steps, v, gpa).None?
    requires forall k :: 0 <= k < |more| && more[k].Map? && more[k].v == v ==> more[k].gpa != gpa
    ensures Entry(steps + more, v, gpa).None? && Touch(v, gpa) !in more
    decreases |more|
  {
    hide Next, Enabled, Runs, Init;
    if more == [] {
      assert steps + more == steps;
    } else {
      var n := |more| - 1;
      var w1 := RunsLast(w, steps + more, w2);
      assert (steps + more)[..|steps + more| - 1] == steps + more[..n];
      UntouchedSince(w, steps, more[..n], w1, v, gpa);
      if more[n] == Touch(v, gpa) {
        TouchMapped(w, steps + more[..n], w1, v, gpa);
      }
      assert more == more[..n] + [more[n]];
    }
  }

  lemma TouchMapped(w: World, steps: seq<Step>, w1: World, v: nat, gpa: nat)
    requires Init(w) && Runs(w, steps, w1) && Enabled(w1, Touch(v, gpa))
    ensures Entry(steps, v, gpa).Some?
  {
    hide Runs, Entry;
    RunTouches(w, steps, w1, v, gpa);
  }

  /** In every run the vpids in use are the host's, 0, and those of the living vCPUs. */
  lemma {:induction false} RunVpids(w: World, steps: seq<Step>, w1: World)
    requires Init(w) && Runs(w, steps, w1)
    ensures forall n :: n in w1.vpids <==> n == 0 || exists v :: v in w1.vcpus && w1.vcpus[v].vpid == n
    decreases |steps|
  {
    hide Next, Enabled, Inv, FirstZero;
    InitInv(w);
    if steps != [] {
      var w0 := RunsLast(w, steps, w1);
      RunKeeps(w, steps[..|steps| - 1], w0);
      RunVpids(w, steps[..|steps| - 1], w0);
      VpidsUsed(w0, steps[|steps| - 1]);
    }
  }

  lemma VpidsUsed(w: World, s: Step)
    requires Inv(w) && Enabled(w, s)
    requires forall n :: n in w.vpids <==> n == 0 || exists v :: v in w.vcpus && w.vcpus[v].vpid == n
    ensures var w1 := Next(w, s);
            forall n :: n in w1.vpids <==> n == 0 || exists v :: v in w1.vcpus && w1.vcpus[v].vpid == n
  {
    hide Next, Inv, FirstZero, EntryFits, Interruptible, Unheld;
    var w1 := Next(w, s);
    VpidSet(w, s);
    VpidsKnown(w);
    VpidsStep(w, s);
    forall n | n in w1.vpids && n != 0
      ensures exists v :: v in w1.vcpus && w1.vcpus[v].vpid == n
    {
      if n in w.vpids {
        var v :| v in w.vcpus && w.vcpus[v].vpid == n;
        VpidStays(w, s, v);
        assert v in w1.vcpus;
      } else {
        VpidStays(w, s, s.v);
        assert s.v in w1.vcpus;
      }
    }
  }

  lemma VpidStays(w: World, s: Step, v: nat)
    requires Enabled(w, s) && (v in w.vcpus || s == Create(v))
    ensures s != Destroy(v) ==> v in Next(w, s).vcpus
    ensures v in Next(w, s).vcpus ==>
              Next(w, s).vcpus[v].vpid == if s == Create(v) then FirstZero(w.vpids, 0, NR_VPIDS) else w.vcpus[v].vpid
  {
    hide Next, LocalAfter, ActiveAfter, CurrentAfter, InLaunchAfter, TlbAfter, SyncsAfter, FirstZero, Unheld,
      Interruptible, EntryFits, HasLocal;
    NextIs(w, s);
  }

  // ----- it happens -----

  /** The first vCPU is created, brought to a CPU, entered, and touches an address, which
      is then unmapped. */
  function StaleRun(v: nat, c: nat, gpa: nat, frame: nat): seq<Step> {
    [Create(v), Claim(v, c), ClearHere(v), Flush(v), Load(v), SetCpu(v)]
    + [Map(v, gpa, frame), Enter(v, true), Touch(v, gpa), Unmap(v, gpa)]
  }

  lemma {:induction false} RunsThen(w: World, a: seq<Step>, w1: World, b: seq<Step>, w2: World)
    requires Runs(w, a, w1) && Runs(w1, b, w2)
    ensures Runs(w, a + b, w2)
    decreases |a|
  {
    hide Next, Enabled;
    if a == [] {
      assert a + b == b;
    } else {
      RunsThen(Next(w, a[0]), a[1..], w1, b, w2);
      assert (a + b)[1..] == a[1..] + b;
    }
  }

  lemma TwoSteps(w: World, r: Step, s: Step)
    requires Enabled(w, r) && Enabled(Next(w, r), s)
    ensures Runs(w, [r, s], Next(Next(w, r), s))
  {
    hide Next, Enabled;
    var w2 := Next(Next(w, r), s);
    assert Runs(w2, [], w2);
    assert Runs(Next(w, r), [s], w2);
  }

  /** The first vCPU takes a CPU, */
  lemma ArriveSteps(w: World, v: nat, c: nat)
    requires Init(w)
    ensures var a := Next(w, Create(v));
            && Enabled(w, Create(v)) && Enabled(a, Claim(v, c)) && Enabled(Next(a, Claim(v, c)), ClearHere(v))
            && var b := Next(Next(a, Claim(v, c)), ClearHere(v));
               v in b.vcpus && b.vcpus[v].phase == Cleared(c) && v !in b.inLaunch && b.vcpus[v].ept == map[]
               && !b.vcpus[v].failed
  {
    hide FirstZero;
    VcpuAbort.FirstCreate(w, v, c);
  }

  /** is loaded there, */
  lemma LoadSteps(w: World, v: nat, c: nat)
    requires v in w.vcpus && w.vcpus[v].phase == Cleared(c) && v !in w.inLaunch && !w.vcpus[v].failed
    ensures var d := Next(Next(w, Flush(v)), Load(v));
            && Enabled(w, Flush(v)) && Enabled(Next(w, Flush(v)), Load(v)) && Enabled(d, SetCpu(v))
            && var e := Next(d, SetCpu(v));
               v in e.vcpus && e.vcpus[v].phase == Owned(c) && e.vcpus[v].cpu == Radix.Some(c) && !e.vcpus[v].failed
               && EntryFits(e, v) && e.vcpus[v].ept == w.vcpus[v].ept
  {
  }

  /** enters the guest, */
  lemma EnterSteps(w: World, v: nat, c: nat, gpa: nat, frame: nat)
    requires v in w.vcpus && w.vcpus[v].phase == Owned(c) && !w.vcpus[v].failed && EntryFits(w, v)
    requires w.vcpus[v].ept == map[] && w.vcpus[v].cpu == Radix.Some(c)
    ensures var d := Next(w, Map(v, gpa, frame));
            && Enabled(w, Map(v, gpa, frame)) && Enabled(d, Enter(v, true))
            && var e := Next(d, Enter(v, true));
               v in e.vcpus && e.vcpus[v].phase == Running(c) && e.vcpus[v].ept == map[gpa := frame]
               && e.vcpus[v].cpu == Radix.Some(c)
  {
  }

  /** and touches what is unmapped then. */
  lemma TouchSteps(w: World, v: nat, c: nat, gpa: nat, frame: nat)
    requires v in w.vcpus && w.vcpus[v].phase == Running(c) && w.vcpus[v].ept == map[gpa := frame]
    requires w.vcpus[v].cpu == Radix.Some(c)
    ensures var d := Next(w, Touch(v, gpa));
            && Enabled(w, Touch(v, gpa)) && Enabled(d, Unmap(v, gpa))
            && var e := Next(d, Unmap(v, gpa));
               v in e.vcpus && e.vcpus[v].cpu == Radix.Some(c) && gpa !in e.vcpus[v].ept
               && Cached(c, v, gpa, frame) in e.tlb && Pending(e, v, gpa, c)
  {
  }

  /** Translations do get stale: on every CPU, for every address and frame, there is a run
      after which one is cached for an entry that is gone, and its flush is pending. */
  lemma StaleHappens(w: World, v: nat, c: nat, gpa: nat, frame: nat)
    requires Init(w)
    ensures exists w1 ::
              && Runs(w, StaleRun(v, c, gpa, frame), w1) && v in w1.vcpus && w1.vcpus[v].cpu == Radix.Some(c)
              && gpa !in w1.vcpus[v].ept && Cached(c, v, gpa, frame) in w1.tlb && Pending(w1, v, gpa, c)
  {
    hide Init, Enabled, Next, Pending;
    ArriveSteps(w, v, c);
    var a := Next(Next(w, Create(v)), Claim(v, c));
    var b := Next(a, ClearHere(v));
    LoadSteps(b, v, c);
    var d := Next(b, Flush(v));
    var e := Next(Next(d, Load(v)), SetCpu(v));
    EnterSteps(e, v, c, gpa, frame);
    var f := Next(Next(e, Map(v, gpa, frame)), Enter(v, true));
    TouchSteps(f, v, c, gpa, frame);
    var w1 := Next(Next(f, Touch(v, gpa)), Unmap(v, gpa));
    TwoSteps(w, Create(v), Claim(v, c));
    TwoSteps(a, ClearHere(v), Flush(v));
    TwoSteps(d, Load(v), SetCpu(v));
    TwoSteps(e, Map(v, gpa, frame), Enter(v, true));
    TwoSteps(f, Touch(v, gpa), Unmap(v, gpa));
    RunsThen(e, [Map(v, gpa, frame), Enter(v, true)], f, [Touch(v, gpa), Unmap(v, gpa)], w1);
    RunsThen(a, [ClearHere(v), Flush(v)], d, [Load(v), SetCpu(v)], e);
    RunsThen(w, [Create(v), Claim(v, c)], a, [ClearHere(v), Flush(v)] + [Load(v), SetCpu(v)], e);
    var first := [Create(v), Claim(v, c)] + ([ClearHere(v), Flush(v)] + [Load(v), SetCpu(v)]);
    RunsThen(w, first, e, [Map(v, gpa, frame), Enter(v, true)] + [Touch(v, gpa), Unmap(v, gpa)], w1);
    assert StaleRun(v, c, gpa, frame)
           == first + ([Map(v, gpa, frame), Enter(v, true)] + [Touch(v, gpa), Unmap(v, gpa)]);
  }

  /** A flush that is due for a guest that is running can be carried out: it is sent to the
      guest's CPU, which takes it when the guest has left. Then the request is gone, and
      what it covers is no longer cached there. */
  lemma FlushDone(w: World, v: nat, c: nat, what: Radix.Option<nat>, whole: bool)
    requires Inv(w) && v in w.vcpus && w.vcpus[v].phase == Running(c) && Need(v, what) in w.syncs
    requires what.None? ==> whole
    ensures exists w1 ::
              && Runs(w, [SendSync(v, what), Exit(v)] + [RunSync(v, what, c, whole)], w1)
              && w1.syncs == w.syncs - multiset{Need(v, what)}
              && forall t :: t in w1.tlb && t.v == v && t.cpu == c ==> !whole && what != Radix.Some(t.gpa)
  {
    hide Inv, Runs, Enabled, Next;
    RunningHome(w, v, c);
    SentSteps(w, v, c, what);
    var b := Next(Next(w, SendSync(v, what)), Exit(v));
    TwoSteps(w, SendSync(v, what), Exit(v));
    Left(w, b, v, c);
    RunStep(b, v, c, what, whole);
    var w1 := Next(b, RunSync(v, what, c, whole));
    OneStep(b, RunSync(v, what, c, whole));
    RunsThen(w, [SendSync(v, what), Exit(v)], b, [RunSync(v, what, c, whole)], w1);
  }

  lemma RunningHome(w: World, v: nat, c: nat)
    requires Inv(w) && v in w.vcpus && w.vcpus[v].phase == Running(c)
    ensures w.vcpus[v].cpu == Radix.Some(c)
  {
    hide Inv;
    Actor(w, v);
  }

  lemma RunStep(b: World, v: nat, c: nat, what: Radix.Option<nat>, whole: bool)
    requires Interruptible(b, c) && Sending(v, what, c) in b.syncs && (what.None? ==> whole)
    ensures Enabled(b, RunSync(v, what, c, whole))
    ensures var w1 := Next(b, RunSync(v, what, c, whole));
            && w1.syncs == b.syncs - multiset{Sending(v, what, c)}
            && forall t :: t in w1.tlb && t.v == v && t.cpu == c ==> !whole && what != Radix.Some(t.gpa)
  {
    hide Interruptible;
  }

  lemma OneStep(w: World, s: Step)
    requires Enabled(w, s)
    ensures Runs(w, [s], Next(w, s))
  {
    hide Enabled, Next;
    assert Runs(Next(w, s), [], Next(w, s));
  }

  lemma SentSteps(w: World, v: nat, c: nat, what: Radix.Option<nat>)
    requires v in w.vcpus && w.vcpus[v].phase == Running(c) && w.vcpus[v].cpu == Radix.Some(c)
    requires Need(v, what) in w.syncs
    ensures Enabled(w, SendSync(v, what)) && Enabled(Next(w, SendSync(v, what)), Exit(v))
    ensures var b := Next(Next(w, SendSync(v, what)), Exit(v));
            && b.syncs == w.syncs - multiset{Need(v, what)} + multiset{Sending(v, what, c)}
            && b.vcpus == w.vcpus[v := b.vcpus[v]] && b.vcpus[v].phase == Owned(c)
  {
  }

  /** No other guest is on the CPU. */
  lemma Left(w: World, b: World, v: nat, c: nat)
    requires Inv(w) && v in w.vcpus && w.vcpus[v].phase == Running(c)
    requires v in b.vcpus && b.vcpus == w.vcpus[v := b.vcpus[v]] && b.vcpus[v].phase == Owned(c)
    ensures Interruptible(b, c)
  {
    hide Inv;
    Actor(w, v);
    forall u | u in b.vcpus
      ensures b.vcpus[u].phase != Running(c)
    {
      assert u != v ==> Apart(w, v, u);
    }
  }

  /** A vCPU that no thread holds can be brought to any CPU that is free, as soon as the
      one it is on takes interrupts: its VMCS is cleared there by the helper, and then it
      is active and current on the new CPU only, where nothing is cached for it. */
  lemma MoveDone(w: World, v: nat, c: nat, d: nat)
    requires Inv(w) && v in w.vcpus && w.vcpus[v].phase == Idle && w.vcpus[v].cpu == Radix.Some(c) && c != d
    requires Unheld(w, d) && Interruptible(w, c)
    ensures exists w1 ::
              && Runs(w, [Claim(v, d), SendClear(v)] + ([Helper(v), Flush(v)] + [Load(v), SetCpu(v)]), w1)
              && v in w1.vcpus && w1.vcpus[v].phase == Owned(d) && w1.vcpus[v].cpu == Radix.Some(d)
              && (c, v) !in w1.active && (d, v) in w1.active && HasCurrent(w1, d, v)
              && forall t :: t in w1.tlb && t.v == v ==> t.cpu != d
  {
    hide Inv, Enabled, Next, Runs, Unheld, Interruptible, HasCurrent;
    NotLocal(w, v, c, d);
    var a := ClaimSteps(w, v, c, d);
    var b := HelpSteps(a, v, c, d);
    var e := ArrivedSteps(b, v, c, d);
    TwoSteps(w, Claim(v, d), SendClear(v));
    TwoSteps(a, Helper(v), Flush(v));
    TwoSteps(b, Load(v), SetCpu(v));
    RunsThen(a, [Helper(v), Flush(v)], b, [Load(v), SetCpu(v)], e);
    RunsThen(w, [Claim(v, d), SendClear(v)], a, [Helper(v), Flush(v)] + [Load(v), SetCpu(v)], e);
    var steps := [Claim(v, d), SendClear(v)] + ([Helper(v), Flush(v)] + [Load(v), SetCpu(v)]);
    RunKeeps(w, steps, e);
    OnlyHere(e, v, c, d);
  }

  lemma NotLocal(w: World, v: nat, c: nat, d: nat)
    requires Inv(w) && v in w.vcpus && w.vcpus[v].phase == Idle && w.vcpus[v].cpu == Radix.Some(c) && c != d
    ensures !HasLocal(w, d, v)
  {
    hide Inv;
    Actor(w, v);
  }

  lemma OnlyHere(w: World, v: nat, c: nat, d: nat)
    requires Inv(w) && v in w.vcpus && w.vcpus[v].phase == Owned(d) && c != d
    ensures (c, v) !in w.active && (d, v) in w.active && HasCurrent(w, d, v)
  {
    hide Inv;
    Actor(w, v);
    assert HasLocal(w, d, v);
  }

  lemma ClaimSteps(w: World, v: nat, c: nat, d: nat) returns (a: World)
    requires v in w.vcpus && w.vcpus[v].phase == Idle && w.vcpus[v].cpu == Radix.Some(c) && c != d
    requires Unheld(w, d) && Interruptible(w, c) && !HasLocal(w, d, v)
    ensures Enabled(w, Claim(v, d)) && Enabled(Next(w, Claim(v, d)), SendClear(v))
    ensures a == Next(Next(w, Claim(v, d)), SendClear(v)) && v in a.vcpus && a.vcpus[v].phase == Waiting(d, c)
    ensures Interruptible(a, c)
  {
    hide HasLocal;
    a := Next(Next(w, Claim(v, d)), SendClear(v));
  }

  lemma HelpSteps(w: World, v: nat, c: nat, d: nat) returns (a: World)
    requires v in w.vcpus && w.vcpus[v].phase == Waiting(d, c) && Interruptible(w, c)
    ensures Enabled(w, Helper(v)) && Enabled(Next(w, Helper(v)), Flush(v))
    ensures a == Next(Next(w, Helper(v)), Flush(v)) && v in a.vcpus && a.vcpus[v].phase == Flushed(d)
    ensures forall t :: t in a.tlb && t.v == v ==> t.cpu != d
  {
    hide HasLocal, Interruptible;
    a := Next(Next(w, Helper(v)), Flush(v));
  }

  lemma ArrivedSteps(w: World, v: nat, c: nat, d: nat) returns (a: World)
    requires v in w.vcpus && w.vcpus[v].phase == Flushed(d) && forall t :: t in w.tlb && t.v == v ==> t.cpu != d
    ensures Enabled(w, Load(v)) && Enabled(Next(w, Load(v)), SetCpu(v))
    ensures a == Next(Next(w, Load(v)), SetCpu(v)) && v in a.vcpus
    ensures a.vcpus[v].phase == Owned(d) && a.vcpus[v].cpu == Radix.Some(d)
    ensures forall t :: t in a.tlb && t.v == v ==> t.cpu != d
  {
    hide HasLocal;
    a := Next(Next(w, Load(v)), SetCpu(v));
  }

  /** A vCPU in hand for whose EPT no flush is under way can be destroyed: then nothing is
      left of it, on its CPU or in local_vcpu, and its vpid is free. */
  lemma DestroyDone(w: World, v: nat, c: nat)
    requires Inv(w) && v in w.vcpus && w.vcpus[v].phase == Owned(c) && forall y :: y in w.syncs ==> y.v != v
    ensures Enabled(w, Destroy(v))
    ensures var w1 := Next(w, Destroy(v));
            && Inv(w1) && w1.vcpus.Keys == w.vcpus.Keys - {v} && w1.vpids == w.vpids - {w.vcpus[v].vpid}
            && (forall d: nat :: (d, v) !in w1.active && !HasLocal(w1, d, v))
            && forall t :: t in w1.tlb && t.v == v ==> t.cpu != c
  {
    hide Inv;
    Actor(w, v);
    InvStep(w, Destroy(v));
    var w1 := Next(w, Destroy(v));
    forall d: nat
      ensures (d, v) !in w1.active && !HasLocal(w1, d, v)
    {
      ActiveKnown(w1, d, v);
    }
  }
}
