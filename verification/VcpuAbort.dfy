/** The error path of vmx_create_vcpu (kern/vmx.c), which frees a vCPU that has been on
    a CPU already. */
module VcpuAbort {
  import Radix
  import opened Migration

  /** The end of the error path, after which the vCPU's memory is free. */
  function AbortCreate(w: World, v: nat): World
    requires v in w.vcpus
  {
    w.(vcpus := w.vcpus - {v}, vpids := w.vpids - {w.vcpus[v].vpid})
  }

  /** Giving up on a vCPU keeps the invariant exactly if it has never been on a CPU.
      But vmx_create_ept, the last thing that can fail, comes after the first
      vmx_get_cpu: then local_vcpu is left dangling and a freed VMCS active. */
  lemma AbortExact(w: World, v: nat)
    requires Inv(w) && v in w.vcpus && w.vcpus[v].phase == Idle
    ensures Inv(AbortCreate(w, v)) <==> w.vcpus[v].cpu.None?
  {
    hide LaunchOk;
    assert Home(w, v);
    var n := AbortCreate(w, v);
    if w.vcpus[v].cpu.Some? {
      assert !ActiveOk(n, w.vcpus[v].cpu.value, v);
    } else {
      AbortOthers(w, v);
    }
  }

  lemma AbortOthers(w: World, v: nat)
    requires Inv(w) && v in w.vcpus && w.vcpus[v].phase == Idle && w.vcpus[v].cpu.None?
    ensures Inv(AbortCreate(w, v))
  {
    var n := AbortCreate(w, v);
    forall c, x | (c, x) in n.active
      ensures ActiveOk(n, c, x) && (x in n.vcpus ==> LaunchOk(n, x))
    {
      assert ActiveOk(w, c, x);
    }
    forall c | c in n.local
      ensures LocalOk(n, c, n.local[c])
    {
      assert LocalOk(w, c, w.local[c]);
      assert HasLocal(w, c, w.local[c]);
      ActiveKnown(w, c, w.local[c]);
    }
    forall x | x in n.vcpus
      ensures Home(n, x) && InHand(n, x)
    {
      assert Home(w, x) && InHand(w, x);
    }
    forall x, y {:trigger Apart(n, x, y)} | x in n.vcpus && y in n.vcpus
      ensures Apart(n, x, y)
    {
      assert Apart(w, x, y);
    }
    forall t | t in n.tlb
      ensures FreshOk(n, t)
    {
      assert FreshOk(w, t);
    }
  }

  /** If the next vCPU is given the freed memory, its first vmx_get_cpu on that CPU
      takes it for loaded, and goes on without a VMCS of its own. */
  lemma DanglingLocal(w: World, v: nat, c: nat)
    requires Inv(w) && v in w.vcpus && w.vcpus[v].phase == Idle && HasLocal(w, c, v) && Unheld(w, c)
    requires Enabled(AbortCreate(w, v), Create(v))
    ensures var w1 := Next(AbortCreate(w, v), Create(v));
            Enabled(w1, GetFast(v, c))
            && Next(w1, GetFast(v, c)).vcpus[v].phase == Owned(c) && Next(w1, GetFast(v, c)).vcpus[v].cpu.None?
  {
    hide Inv, FirstZero;
  }

  /** What vmx_create_vcpu does before it creates the EPT: the vCPU, the first
      vmx_get_cpu, on CPU `c`, and vmx_put_cpu. */
  function FirstLoad(v: nat, c: nat): seq<Step> {
    [Create(v), Claim(v, c), ClearHere(v), Flush(v), Load(v), SetCpu(v), Put(v)]
  }

  /** The vCPU in each of those states. */
  lemma LoadSteps(w: World, v: nat, c: nat)
    requires v in w.vcpus && w.vcpus[v].phase == Idle && w.vcpus[v].cpu.None? && Unheld(w, c) && !HasLocal(w, c, v)
    ensures Enabled(w, Claim(v, c))
    ensures var a := Next(w, Claim(v, c)); Enabled(a, ClearHere(v))
    ensures var b := Next(Next(w, Claim(v, c)), ClearHere(v)); Enabled(b, Flush(v)) && b.vcpus[v].phase == Cleared(c)
    ensures var b := Next(Next(w, Claim(v, c)), ClearHere(v));
            && b.local == w.local[c := v] && b.vpids == w.vpids && b.vcpus.Keys == w.vcpus.Keys
            && b.vcpus[v].vpid == w.vcpus[v].vpid
  {
  }

  lemma PutSteps(w: World, v: nat, c: nat)
    requires v in w.vcpus && w.vcpus[v].phase == Cleared(c) && HasLocal(w, c, v)
    ensures var a := Next(w, Flush(v));
            Enabled(w, Flush(v)) && Enabled(a, Load(v)) && Enabled(Next(a, Load(v)), SetCpu(v))
    ensures var d := Next(Next(Next(w, Flush(v)), Load(v)), SetCpu(v)); Enabled(d, Put(v))
    ensures var e := Next(Next(Next(Next(w, Flush(v)), Load(v)), SetCpu(v)), Put(v));
            && e.vcpus == w.vcpus[v := e.vcpus[v]] && e.vcpus[v].phase == Idle && e.vcpus[v].cpu == Radix.Some(c)
            && e.vcpus[v].vpid == w.vcpus[v].vpid && e.local == w.local && e.vpids == w.vpids
  {
    hide Next;
    LoadNext(w, v, c);
    SetNext(Next(Next(w, Flush(v)), Load(v)), v, c);
  }

  lemma LoadNext(w: World, v: nat, c: nat)
    requires v in w.vcpus && w.vcpus[v].phase == Cleared(c)
    ensures Enabled(w, Flush(v)) && Enabled(Next(w, Flush(v)), Load(v))
    ensures var e := Next(Next(w, Flush(v)), Load(v));
            && e.vcpus == w.vcpus[v := e.vcpus[v]] && e.vcpus[v].phase == Loaded(c)
            && e.vcpus[v].vpid == w.vcpus[v].vpid && e.local == w.local && e.vpids == w.vpids
  {
  }

  lemma SetNext(w: World, v: nat, c: nat)
    requires v in w.vcpus && w.vcpus[v].phase == Loaded(c)
    ensures Enabled(w, SetCpu(v)) && Enabled(Next(w, SetCpu(v)), Put(v))
    ensures var e := Next(Next(w, SetCpu(v)), Put(v));
            && e.vcpus == w.vcpus[v := e.vcpus[v]] && e.vcpus[v].phase == Idle && e.vcpus[v].cpu == Radix.Some(c)
            && e.vcpus[v].vpid == w.vcpus[v].vpid && e.local == w.local && e.vpids == w.vpids
  {
  }

  /** It happens with the first vCPU: after a late failure its local_vcpu dangles, and
      the next vCPU at that address is taken for loaded. */
  lemma DanglingHappens(w: World, v: nat, c: nat)
    requires Init(w)
    ensures exists w1 ::
              && Runs(w, FirstLoad(v, c), w1) && v in w1.vcpus && w1.vcpus[v].phase == Idle
              && !Inv(AbortCreate(w1, v)) && Enabled(AbortCreate(w1, v), Create(v))
              && var w2 := Next(AbortCreate(w1, v), Create(v));
                 && Enabled(w2, GetFast(v, c)) && Next(w2, GetFast(v, c)).vcpus[v].phase == Owned(c)
                 && Next(w2, GetFast(v, c)).vcpus[v].cpu.None?
  {
    hide Inv, Next, Enabled, Unheld;
    FirstCreate(w, v, c);
    var a := Next(w, Create(v));
    LoadSteps(a, v, c);
    var b := Next(Next(a, Claim(v, c)), ClearHere(v));
    PutSteps(b, v, c);
    var w1 := Next(Next(Next(Next(b, Flush(v)), Load(v)), SetCpu(v)), Put(v));
    SevenSteps(w, v, c);
    InitInv(w);
    RunKeeps(w, FirstLoad(v, c), w1);
    AbortExact(w1, v);
    CreateAgain(w1, v, c);
    DanglingLocal(w1, v, c);
  }

  lemma FirstCreate(w: World, v: nat, c: nat)
    requires Init(w)
    ensures Enabled(w, Create(v)) && FirstZero(w.vpids, 0, NR_VPIDS) < NR_VPIDS
    ensures var a := Next(w, Create(v));
            && a.vcpus == map[v := Vcpu(Radix.None, false, FirstZero(w.vpids, 0, NR_VPIDS), Idle, false, map[])]
            && Unheld(a, c)
            && a.local == map[] && a.vpids == w.vpids + {FirstZero(w.vpids, 0, NR_VPIDS)}
  {
  }

  lemma SevenSteps(w: World, v: nat, c: nat)
    requires Enabled(w, Create(v))
    requires var a := Next(w, Create(v)); Enabled(a, Claim(v, c)) && Enabled(Next(a, Claim(v, c)), ClearHere(v))
    requires var b := Next(Next(Next(w, Create(v)), Claim(v, c)), ClearHere(v));
             && Enabled(b, Flush(v)) && Enabled(Next(b, Flush(v)), Load(v))
             && Enabled(Next(Next(b, Flush(v)), Load(v)), SetCpu(v))
             && Enabled(Next(Next(Next(b, Flush(v)), Load(v)), SetCpu(v)), Put(v))
    ensures var b := Next(Next(Next(w, Create(v)), Claim(v, c)), ClearHere(v));
            Runs(w, FirstLoad(v, c), Next(Next(Next(Next(b, Flush(v)), Load(v)), SetCpu(v)), Put(v)))
  {
    hide Enabled, Next;
    var a := Next(w, Create(v));
    var b := Next(Next(a, Claim(v, c)), ClearHere(v));
    var d := Next(Next(Next(b, Flush(v)), Load(v)), SetCpu(v));
    assert Runs(Next(d, Put(v)), [], Next(d, Put(v)));
    assert Runs(d, [Put(v)], Next(d, Put(v)));
    assert Runs(Next(Next(b, Flush(v)), Load(v)), [SetCpu(v), Put(v)], Next(d, Put(v)));
    assert Runs(Next(b, Flush(v)), [Load(v), SetCpu(v), Put(v)], Next(d, Put(v)));
    assert Runs(b, [Flush(v), Load(v), SetCpu(v), Put(v)], Next(d, Put(v)));
    assert Runs(Next(a, Claim(v, c)), [ClearHere(v), Flush(v), Load(v), SetCpu(v), Put(v)], Next(d, Put(v)));
    assert Runs(a, [Claim(v, c), ClearHere(v), Flush(v), Load(v), SetCpu(v), Put(v)], Next(d, Put(v)));
  }

  /** The number that the abandoned vCPU gave back is there for the next one. */
  lemma CreateAgain(w: World, v: nat, c: nat)
    requires v in w.vcpus && w.vcpus[v].phase == Idle && w.vcpus.Keys == {v} && w.vcpus[v].vpid < NR_VPIDS
    ensures Unheld(w, c) && Enabled(AbortCreate(w, v), Create(v))
  {
    var n := FirstZero(AbortCreate(w, v).vpids, 0, NR_VPIDS);
    assert w.vcpus[v].vpid !in AbortCreate(w, v).vpids;
  }
}
