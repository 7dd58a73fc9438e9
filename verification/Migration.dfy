/** Virtual CPUs moving between CPUs (kern/vmx.c): a protocol between the thread
    that owns a vCPU, interrupts on the CPU it comes from, and the threads that
    change its EPT. Each step is one action of one of them; interrupts run on a
    CPU whenever it has them enabled, that is, when no guest is running there. */
module Migration {
  import opened Radix

  const NR_VPIDS := 0x1_0000

  /** Where a vCPU's thread is in vmx_get_cpu, vmx_run_vcpu and vmx_put_cpu. From
      `Claimed` to `Running` its CPU is not preempted. `Waiting` is the wait for
      the helper on CPU `target`. */
  datatype Phase =
    | Idle
    | Claimed(on: nat)
    | Waiting(on: nat, target: nat)
    | Cleared(on: nat)
    | Flushed(on: nat)
    | Loaded(on: nat)
    | Owned(on: nat)
    | Running(on: nat)

  /** `cpu` is none where the source has -1. `failed` is set when a VM entry has
      failed; the thread then goes on to destroy the vCPU. */
  datatype Vcpu = Vcpu(cpu: Option<nat>, launched: bool, vpid: nat, phase: Phase, failed: bool, ept: map<nat, nat>)

  /** Entries have been cleared and a flush is due, of one address or of all; or it is on
      its way to a CPU. */
  datatype Sync = Need(v: nat, what: Option<nat>) | Sending(v: nat, what: Option<nat>, cpu: nat)

  /** A translation that a CPU has cached for a vCPU's EPT. */
  datatype Cached = Cached(cpu: nat, v: nat, gpa: nat, frame: nat)

  /** `local` is the per-CPU variable local_vcpu (absent for NULL). `active`,
      `current` and `inLaunch` are the processors' view of the VMCSs: on which CPUs
      one is active, which is current on a CPU, and which have launch state
      "launched". */
  datatype World = World(
    vcpus: map<nat, Vcpu>, local: map<nat, nat>, vpids: set<nat>,
    active: set<(nat, nat)>, current: map<nat, nat>, inLaunch: set<nat>,
    tlb: set<Cached>, syncs: multiset<Sync>)

  datatype Step =
    | Create(v: nat)
    | GetFast(v: nat, c: nat)
    | Claim(v: nat, c: nat)
    | LoadHere(v: nat)
    | SendClear(v: nat)
    | ClearHere(v: nat)
    | Helper(v: nat)
    | Flush(v: nat)
    | Load(v: nat)
    | SetCpu(v: nat)
    | Put(v: nat)
    | Enter(v: nat, ok: bool)
    | Touch(v: nat, gpa: nat)
    | Exit(v: nat)
    | Map(v: nat, gpa: nat, frame: nat)
    | Unmap(v: nat, gpa: nat)
    | UnmapRange(v: nat, gpas: set<nat>)
    | SendSync(v: nat, what: Option<nat>)
    | RunSync(v: nat, what: Option<nat>, c: nat, whole: bool)
    | Destroy(v: nat)

  /** find_first_zero_bit: the least number from `n` on that is not in the set. */
  function FirstZero(used: set<nat>, n: nat, limit: nat): (r: nat)
    requires n <= limit
    ensures n <= r <= limit && (r < limit ==> r !in used) && forall k :: n <= k < r ==> k in used
    decreases limit - n
  {
    if n < limit && n in used then FirstZero(used, n + 1, limit) else n
  }

  predicate AtCpu(p: Phase, c: nat) {
    !p.Idle? && p.on == c
  }

  /** No thread holds CPU `c` without preemption. */
  predicate Unheld(w: World, c: nat) {
    forall v :: v in w.vcpus ==> !AtCpu(w.vcpus[v].phase, c)
  }

  /** CPU `c` takes interrupts: no guest runs on it. */
  predicate Interruptible(w: World, c: nat) {
    forall v :: v in w.vcpus ==> w.vcpus[v].phase != Running(c)
  }

  predicate HasLocal(w: World, c: nat, v: nat) {
    c in w.local && w.local[c] == v
  }

  predicate HasCurrent(w: World, c: nat, v: nat) {
    c in w.current && w.current[c] == v
  }

  /** The instruction that the run loop uses: VMRESUME if `launched`, which needs
      launch state "launched", or VMLAUNCH, which needs "clear". */
  predicate EntryFits(w: World, v: nat)
    requires v in w.vcpus
  {
    w.vcpus[v].launched == (v in w.inLaunch)
  }

  predicate Enabled(w: World, s: Step) {
    match s
    case Create(v) => v !in w.vcpus && FirstZero(w.vpids, 0, NR_VPIDS) < NR_VPIDS
    case GetFast(v, c) => v in w.vcpus && w.vcpus[v].phase == Idle && Unheld(w, c) && HasLocal(w, c, v)
    case Claim(v, c) => v in w.vcpus && w.vcpus[v].phase == Idle && Unheld(w, c) && !HasLocal(w, c, v)
    case LoadHere(v) => v in w.vcpus && w.vcpus[v].phase.Claimed? && w.vcpus[v].cpu == Some(w.vcpus[v].phase.on)
    case SendClear(v) =>
      v in w.vcpus && w.vcpus[v].phase.Claimed? && w.vcpus[v].cpu.Some? && w.vcpus[v].cpu != Some(w.vcpus[v].phase.on)
    case ClearHere(v) => v in w.vcpus && w.vcpus[v].phase.Claimed? && w.vcpus[v].cpu.None?
    case Helper(v) => v in w.vcpus && w.vcpus[v].phase.Waiting? && Interruptible(w, w.vcpus[v].phase.target)
    case Flush(v) => v in w.vcpus && w.vcpus[v].phase.Cleared?
    case Load(v) => v in w.vcpus && w.vcpus[v].phase.Flushed?
    case SetCpu(v) => v in w.vcpus && w.vcpus[v].phase.Loaded?
    case Put(v) => v in w.vcpus && w.vcpus[v].phase.Owned?
    case Enter(v, ok) =>
      v in w.vcpus && w.vcpus[v].phase.Owned? && !w.vcpus[v].failed && (ok ==> EntryFits(w, v))
    case Touch(v, gpa) => v in w.vcpus && w.vcpus[v].phase.Running? && gpa in w.vcpus[v].ept
    case Exit(v) => v in w.vcpus && w.vcpus[v].phase.Running?
    case Map(v, gpa, frame) => v in w.vcpus && (gpa in w.vcpus[v].ept ==> w.vcpus[v].ept[gpa] == frame)
    case Unmap(v, gpa) => v in w.vcpus
    case UnmapRange(v, gpas) => v in w.vcpus
    case SendSync(v, what) => v in w.vcpus && w.vcpus[v].cpu.Some? && Need(v, what) in w.syncs
    case RunSync(v, what, c, whole) =>
      Sending(v, what, c) in w.syncs && Interruptible(w, c) && (what.None? ==> whole)
    case Destroy(v) =>
      v in w.vcpus && w.vcpus[v].phase.Owned? && forall y :: y in w.syncs ==> y.v != v
  }

  /** The vCPU that takes the step, afterwards. */
  function VcpuAfter(w: World, s: Step): (r: Vcpu)
    requires Enabled(w, s) && !s.Destroy? && !s.RunSync?
    ensures r.vpid == if s.Create? then FirstZero(w.vpids, 0, NR_VPIDS) else w.vcpus[s.v].vpid
  {
    if s.Create? then Vcpu(None, false, FirstZero(w.vpids, 0, NR_VPIDS), Idle, false, map[])
    else
      var x := w.vcpus[s.v];
      match s
      case GetFast(_, c) => x.(phase := Owned(c))
      case Claim(_, c) => x.(phase := Claimed(c))
      case LoadHere(_) => x.(phase := Owned(x.phase.on))
      case SendClear(_) => x.(phase := Waiting(x.phase.on, x.cpu.value))
      case ClearHere(_) => x.(phase := Cleared(x.phase.on))
      case Helper(_) => x.(phase := Cleared(x.phase.on))
      case Flush(_) => x.(phase := Flushed(x.phase.on))
      case Load(_) => x.(phase := Loaded(x.phase.on), launched := false)
      case SetCpu(_) => x.(phase := Owned(x.phase.on), cpu := Some(x.phase.on))
      case Put(_) => x.(phase := Idle)
      case Enter(_, ok) => if ok then x.(phase := Running(x.phase.on)) else x.(launched := true, failed := true)
      case Exit(_) => x.(phase := Owned(x.phase.on), launched := true)
      case Map(_, gpa, frame) => x.(ept := x.ept[gpa := frame])
      case Unmap(_, gpa) => x.(ept := x.ept - {gpa})
      case UnmapRange(_, gpas) => x.(ept := x.ept - gpas)
      case _ => x
  }

  /** On which CPU the step loads its vCPU's VMCS (VMPTRLD), if it does. */
  function LoadedAt(w: World, s: Step): Option<nat>
    requires Enabled(w, s)
  {
    if s.LoadHere? || s.Load? then Some(w.vcpus[s.v].phase.on) else None
  }

  /** On which CPU the step clears its vCPU's VMCS (VMCLEAR), if it does. */
  function ClearedAt(w: World, s: Step): Option<nat>
    requires Enabled(w, s)
  {
    match s
    case ClearHere(v) => Some(w.vcpus[v].phase.on)
    case Helper(v) => Some(w.vcpus[v].phase.target)
    case Destroy(v) => Some(w.vcpus[v].phase.on)
    case _ => None
  }

  function ActiveAfter(w: World, s: Step): set<(nat, nat)>
    requires Enabled(w, s)
  {
    match (ClearedAt(w, s), LoadedAt(w, s))
    case (Some(c), _) => w.active - {(c, s.v)}
    case (_, Some(c)) => w.active + {(c, s.v)}
    case _ => w.active
  }

  function CurrentAfter(w: World, s: Step): map<nat, nat>
    requires Enabled(w, s)
  {
    match (ClearedAt(w, s), LoadedAt(w, s))
    case (Some(c), _) => if HasCurrent(w, c, s.v) then w.current - {c} else w.current
    case (_, Some(c)) => w.current[c := s.v]
    case _ => w.current
  }

  /** VMCLEAR makes the launch state "clear", a VM entry "launched". */
  function InLaunchAfter(w: World, s: Step): set<nat>
    requires Enabled(w, s)
  {
    if ClearedAt(w, s).Some? then w.inLaunch - {s.v}
    else if s.Enter? && s.ok then w.inLaunch + {s.v} else w.inLaunch
  }

  function LocalAfter(w: World, s: Step): map<nat, nat>
    requires Enabled(w, s)
  {
    match s
    case Claim(v, c) => w.local[c := v]
    case Helper(v) => var t := w.vcpus[v].phase.target; if HasLocal(w, t, v) then w.local - {t} else w.local
    case Destroy(v) => w.local - {w.vcpus[v].phase.on}
    case _ => w.local
  }

  /** INVVPID and INVEPT on arrival and at the end, INVEPT on request, and what a
      running guest makes its CPU cache. */
  function TlbAfter(w: World, s: Step): set<Cached>
    requires Enabled(w, s)
  {
    if s.Flush? || s.Destroy? then set t | t in w.tlb && !(t.v == s.v && t.cpu == w.vcpus[s.v].phase.on)
    else if s.RunSync? then set t | t in w.tlb && !(t.v == s.v && t.cpu == s.c && (s.whole || s.what == Some(t.gpa)))
    else if s.Touch? then w.tlb + {Cached(w.vcpus[s.v].phase.on, s.v, s.gpa, w.vcpus[s.v].ept[s.gpa])}
    else w.tlb
  }

  function SyncsAfter(w: World, s: Step): multiset<Sync>
    requires Enabled(w, s)
  {
    match s
    case Unmap(v, gpa) => w.syncs + multiset{Need(v, Some(gpa))}
    case UnmapRange(v, _) => w.syncs + multiset{Need(v, None)}
    case SendSync(v, what) => w.syncs - multiset{Need(v, what)} + multiset{Sending(v, what, w.vcpus[v].cpu.value)}
    case RunSync(v, what, c, _) => w.syncs - multiset{Sending(v, what, c)}
    case _ => w.syncs
  }

  function Next(w: World, s: Step): World
    requires Enabled(w, s)
  {
    World(
      if s.Destroy? then w.vcpus - {s.v} else if s.RunSync? then w.vcpus else w.vcpus[s.v := VcpuAfter(w, s)],
      LocalAfter(w, s),
      if s.Create? then w.vpids + {FirstZero(w.vpids, 0, NR_VPIDS)}
      else if s.Destroy? then w.vpids - {w.vcpus[s.v].vpid} else w.vpids,
      ActiveAfter(w, s), CurrentAfter(w, s), InLaunchAfter(w, s), TlbAfter(w, s), SyncsAfter(w, s))
  }

  // ----- the invariant -----

  /** While one thread holds a CPU, no other does. */
  predicate Apart(w: World, u: nat, v: nat)
    requires u in w.vcpus && v in w.vcpus
  {
    u != v && !w.vcpus[u].phase.Idle? ==> !AtCpu(w.vcpus[v].phase, w.vcpus[u].phase.on)
  }

  /** The helper is sent to where the vCPU is (its BUG_ON), a vCPU in hand is where
      its thread is, and a VMCS stays active where its vCPU is until it has been
      cleared, and then until it is loaded elsewhere it is in launch state "clear". */
  predicate Home(w: World, v: nat)
    requires v in w.vcpus
  {
    var x := w.vcpus[v];
    && (x.phase.Waiting? ==> x.cpu == Some(x.phase.target) && x.phase.target != x.phase.on)
    && (x.phase.Owned? || x.phase.Running? ==> x.cpu == Some(x.phase.on))
    && (if x.phase.Cleared? || x.phase.Flushed? then v !in w.inLaunch
        else x.cpu.Some? && !x.phase.Loaded? ==> (x.cpu.value, v) in w.active)
    && (x.phase.Loaded? ==> (x.phase.on, v) in w.active)
  }

  /** A VMCS is active only where its vCPU is, or is just arriving; and while it is
      in hand it is current there. */
  predicate ActiveOk(w: World, c: nat, v: nat) {
    v in w.vcpus &&
    match w.vcpus[v].phase
    case Cleared(_) => false
    case Flushed(_) => false
    case Loaded(on) => c == on
    case _ => w.vcpus[v].cpu == Some(c)
  }

  predicate Arriving(p: Phase, c: nat) {
    (p.Claimed? || p.Waiting? || p.Cleared? || p.Flushed?) && p.on == c
  }

  /** local_vcpu tells the truth: its vCPU is at home there with its VMCS active
      and current, unless its thread is still on the way in. */
  predicate LocalOk(w: World, c: nat, v: nat) {
    && v in w.vcpus
    && (Arriving(w.vcpus[v].phase, c)
        || (HasCurrent(w, c, v) && (c, v) in w.active && (w.vcpus[v].cpu == Some(c) || w.vcpus[v].phase == Loaded(c))))
  }

  /** A vCPU whose thread holds a CPU is that CPU's local_vcpu. */
  predicate InHand(w: World, v: nat)
    requires v in w.vcpus
  {
    !w.vcpus[v].phase.Idle? ==> HasLocal(w, w.vcpus[v].phase.on, v)
  }

  /** `launched` is the launch state of a VMCS that is active somewhere. */
  predicate LaunchOk(w: World, v: nat)
    requires v in w.vcpus
  {
    if w.vcpus[v].phase.Running? then v in w.inLaunch else !w.vcpus[v].failed ==> EntryFits(w, v)
  }

  /** A flush that covers the address is due, or on its way to CPU `c`. */
  predicate Pending(w: World, v: nat, gpa: nat, c: nat) {
    || Need(v, Some(gpa)) in w.syncs || Sending(v, Some(gpa), c) in w.syncs
    || Need(v, None) in w.syncs || Sending(v, None, c) in w.syncs
  }

  /** A cached translation on the CPU of its vCPU is up to date, or a flush of it
      is due or on its way there; and none is cached on a CPU just flushed. */
  predicate FreshOk(w: World, t: Cached) {
    t.v in w.vcpus ==>
      var x := w.vcpus[t.v];
      && (x.cpu == Some(t.cpu) ==>
            (t.gpa in x.ept && x.ept[t.gpa] == t.frame) || Pending(w, t.v, t.gpa, t.cpu))
      && (x.phase.Flushed? || x.phase.Loaded? ==> x.phase.on != t.cpu)
  }

  /** Living vCPUs have vpids of their own, none of them 0. */
  ghost predicate Vpids(w: World) {
    && 0 in w.vpids
    && (forall v :: v in w.vcpus ==> w.vcpus[v].vpid in w.vpids && w.vcpus[v].vpid != 0)
    && (forall u, v :: u in w.vcpus && v in w.vcpus && u != v ==> w.vcpus[u].vpid != w.vcpus[v].vpid)
  }

  ghost predicate Inv(w: World) {
    && (forall u, v {:trigger Apart(w, u, v)} :: u in w.vcpus && v in w.vcpus ==> Apart(w, u, v))
    && (forall v {:trigger Home(w, v)} :: v in w.vcpus ==> Home(w, v))
    && (forall c, v {:trigger ActiveOk(w, c, v)} :: (c, v) in w.active ==> ActiveOk(w, c, v))
    && (forall c {:trigger w.local[c]} :: c in w.local ==> LocalOk(w, c, w.local[c]))
    && (forall v {:trigger InHand(w, v)} :: v in w.vcpus ==> InHand(w, v))
    && (forall c, v {:trigger (c, v) in w.active} :: (c, v) in w.active && v in w.vcpus ==> LaunchOk(w, v))
    && (forall t {:trigger FreshOk(w, t)} :: t in w.tlb ==> FreshOk(w, t))
    && Vpids(w)
  }

  // ----- a step, field by field -----

  lemma NextIs(w: World, s: Step)
    requires Enabled(w, s)
    ensures var n := Next(w, s);
            && n.vcpus == (if s.Destroy? then w.vcpus - {s.v}
                           else if s.RunSync? then w.vcpus else w.vcpus[s.v := VcpuAfter(w, s)])
            && n.local == LocalAfter(w, s) && n.active == ActiveAfter(w, s) && n.current == CurrentAfter(w, s)
            && n.inLaunch == InLaunchAfter(w, s) && n.tlb == TlbAfter(w, s) && n.syncs == SyncsAfter(w, s)
  {
    hide VcpuAfter, LocalAfter, ActiveAfter, CurrentAfter, InLaunchAfter, TlbAfter, SyncsAfter, Enabled;
  }

  lemma ActiveNext(w: World, s: Step, c: nat, x: nat)
    requires Enabled(w, s)
    ensures (c, x) in Next(w, s).active
            <==> ((c, x) in w.active && !(x == s.v && ClearedAt(w, s) == Some(c)))
                 || (x == s.v && LoadedAt(w, s) == Some(c))
  {
    hide Next, VcpuAfter, LocalAfter, CurrentAfter, InLaunchAfter, TlbAfter, SyncsAfter, FirstZero, Unheld,
      Interruptible, EntryFits, HasLocal;
    NextIs(w, s);
  }

  lemma CurrentNext(w: World, s: Step, c: nat, x: nat)
    requires Enabled(w, s)
    ensures HasCurrent(Next(w, s), c, x)
            <==> if LoadedAt(w, s) == Some(c) then x == s.v
                 else HasCurrent(w, c, x) && !(x == s.v && ClearedAt(w, s) == Some(c))
  {
    hide Next, VcpuAfter, LocalAfter, ActiveAfter, InLaunchAfter, TlbAfter, SyncsAfter, FirstZero, Unheld,
      Interruptible, EntryFits, HasLocal;
    NextIs(w, s);
  }

  lemma InLaunchNext(w: World, s: Step, x: nat)
    requires Enabled(w, s)
    ensures x in Next(w, s).inLaunch
            <==> if x == s.v then (s.Enter? && s.ok) || (x in w.inLaunch && ClearedAt(w, s).None?) else x in w.inLaunch
  {
    hide Next, VcpuAfter, LocalAfter, ActiveAfter, CurrentAfter, TlbAfter, SyncsAfter, FirstZero, Unheld,
      Interruptible, EntryFits, HasLocal;
    NextIs(w, s);
  }

  lemma LocalNext(w: World, s: Step, c: nat, x: nat)
    requires Enabled(w, s)
    ensures HasLocal(Next(w, s), c, x)
            <==> if s.Claim? && s.c == c then x == s.v
                 else HasLocal(w, c, x) && !(s.Helper? && x == s.v && w.vcpus[s.v].phase.target == c)
                      && !(s.Destroy? && w.vcpus[s.v].phase.on == c)
  {
    hide Next, VcpuAfter, ActiveAfter, CurrentAfter, InLaunchAfter, TlbAfter, SyncsAfter, FirstZero, Unheld,
      Interruptible, EntryFits;
    NextIs(w, s);
  }

  lemma TlbNext(w: World, s: Step, t: Cached)
    requires Enabled(w, s)
    ensures t in Next(w, s).tlb
            <==> || (s.Touch? && t == Cached(w.vcpus[s.v].phase.on, s.v, s.gpa, w.vcpus[s.v].ept[s.gpa]))
                 || (t in w.tlb && !(t.v == s.v && ((s.Flush? || s.Destroy?) && t.cpu == w.vcpus[s.v].phase.on))
                     && !(t.v == s.v && s.RunSync? && t.cpu == s.c && (s.whole || s.what == Some(t.gpa))))
  {
    hide Next, VcpuAfter, LocalAfter, ActiveAfter, CurrentAfter, InLaunchAfter, SyncsAfter, FirstZero, Unheld,
      Interruptible, EntryFits;
    NextIs(w, s);
  }

  /** Requests that are pending stay pending until they are sent, and then run. */
  lemma SyncsNext(w: World, s: Step, v: nat, what: Option<nat>, c: nat)
    requires Enabled(w, s)
    ensures var n := Next(w, s);
            && (Need(v, what) in w.syncs && s != SendSync(v, what) ==> Need(v, what) in n.syncs)
            && (Sending(v, what, c) in w.syncs && !(s.RunSync? && s.v == v && s.what == what && s.c == c)
                ==> Sending(v, what, c) in n.syncs)
            && (what.Some? && s == Unmap(v, what.value) ==> Need(v, what) in n.syncs)
            && (what.None? && s.UnmapRange? && s.v == v ==> Need(v, what) in n.syncs)
            && (s == SendSync(v, what) && v in w.vcpus && w.vcpus[v].cpu == Some(c) ==> Sending(v, what, c) in n.syncs)
  {
    hide Next, VcpuAfter, LocalAfter, ActiveAfter, CurrentAfter, InLaunchAfter, TlbAfter, Enabled;
    NextIs(w, s);
  }

  lemma WholeSync(w: World, s: Step)
    requires Enabled(w, s)
    ensures s.RunSync? && s.what.None? ==> s.whole
  {
  }

  /** A flush stays pending until it has run on the vCPU's CPU. */
  lemma PendingNext(w: World, s: Step, v: nat, gpa: nat, c: nat)
    requires Enabled(w, s)
    ensures Pending(w, v, gpa, c) && (s.SendSync? && s.v == v ==> v in w.vcpus && w.vcpus[v].cpu == Some(c))
            && !(s.RunSync? && s.v == v && s.c == c && (s.whole || s.what == Some(gpa)))
            ==> Pending(Next(w, s), v, gpa, c)
    ensures s == Unmap(v, gpa) || (s.UnmapRange? && s.v == v) ==> Pending(Next(w, s), v, gpa, c)
  {
    hide Next, Enabled;
    SyncsNext(w, s, v, Some(gpa), c);
    SyncsNext(w, s, v, None, c);
    WholeSync(w, s);
  }

  lemma VpidSet(w: World, s: Step)
    requires Enabled(w, s)
    ensures Next(w, s).vpids == if s.Create? then w.vpids + {FirstZero(w.vpids, 0, NR_VPIDS)}
                                else if s.Destroy? then w.vpids - {w.vcpus[s.v].vpid} else w.vpids
  {
    hide FirstZero, VcpuAfter, LocalAfter, ActiveAfter, CurrentAfter, InLaunchAfter, TlbAfter, SyncsAfter;
  }

  /** What the invariant says about the vCPU that takes the step. */
  lemma Actor(w: World, v: nat)
    requires Inv(w) && v in w.vcpus
    ensures Home(w, v) && InHand(w, v)
    ensures forall x :: x in w.vcpus ==> Apart(w, v, x) && Apart(w, x, v)
    ensures forall c :: (c, v) in w.active ==> ActiveOk(w, c, v) && LaunchOk(w, v)
    ensures forall c :: HasLocal(w, c, v) ==> LocalOk(w, c, v)
  {
    hide Home, InHand, Apart, ActiveOk, LaunchOk, LocalOk, FreshOk;
  }

  /** What a step does to the vCPUs that do not take it: nothing, but for taking a
      CPU's current VMCS and local_vcpu from them. */
  lemma Elsewhere(w: World, s: Step, c: nat, x: nat)
    requires Enabled(w, s) && x != s.v
    ensures var n := Next(w, s);
            && (x in n.vcpus <==> x in w.vcpus) && (x in w.vcpus ==> n.vcpus[x] == w.vcpus[x])
            && ((c, x) in n.active <==> (c, x) in w.active) && (x in n.inLaunch <==> x in w.inLaunch)
            && (HasCurrent(n, c, x) <==> HasCurrent(w, c, x) && LoadedAt(w, s) != Some(c))
            && (HasLocal(n, c, x) ==> HasLocal(w, c, x))
            && (HasLocal(w, c, x) && !HasLocal(n, c, x) ==> Takes(w, s, c))
  {
    hide Next, VcpuAfter, LocalAfter, ActiveAfter, CurrentAfter, InLaunchAfter, TlbAfter, SyncsAfter, FirstZero,
      Unheld, Interruptible, EntryFits, HasCurrent, HasLocal;
    NextIs(w, s);
    ActiveNext(w, s, c, x);
    CurrentNext(w, s, c, x);
    InLaunchNext(w, s, x);
    LocalNext(w, s, c, x);
  }

  /** The step takes CPU `c` for its vCPU, or gives it up for good. */
  predicate Takes(w: World, s: Step, c: nat)
    requires Enabled(w, s)
  {
    (s.Claim? && s.c == c) || (s.Destroy? && w.vcpus[s.v].phase.on == c)
  }

  /** A step that takes a CPU takes it from no one who holds it. */
  lemma TakesFree(w: World, s: Step, c: nat, x: nat)
    requires Inv(w) && Enabled(w, s) && Takes(w, s, c) && x in w.vcpus && x != s.v
    ensures !AtCpu(w.vcpus[x].phase, c)
  {
    hide Inv, EntryFits, Interruptible, FirstZero;
    Actor(w, x);
  }

  lemma LoaderHolds(w: World, s: Step, c: nat, x: nat)
    requires Inv(w) && Enabled(w, s) && LoadedAt(w, s) == Some(c) && x != s.v
    ensures !HasLocal(w, c, x) && (x in w.vcpus ==> !AtCpu(w.vcpus[x].phase, c))
  {
    hide Inv, EntryFits, Interruptible, FirstZero, Unheld;
    Actor(w, s.v);
  }

  lemma ApartStep(w: World, s: Step, u: nat, v: nat)
    requires Inv(w) && Enabled(w, s) && u in Next(w, s).vcpus && v in Next(w, s).vcpus
    ensures Apart(Next(w, s), u, v)
  {
    hide Inv, Next, Enabled, VcpuAfter, LoadedAt, HasCurrent, HasLocal, Takes;
    if u != s.v {
      Elsewhere(w, s, 0, u);
    }
    if v != s.v {
      Elsewhere(w, s, 0, v);
    }
    if u != v {
      if u == s.v {
        if !w.vcpus[v].phase.Idle? {
          ApartActor(w, s, v);
        }
      } else if v == s.v {
        if !w.vcpus[u].phase.Idle? {
          ApartActor(w, s, u);
        }
      } else {
        Actor(w, u);
      }
    }
  }

  /** The CPU a thread has after its step is no other thread's. */
  lemma ApartActor(w: World, s: Step, x: nat)
    requires Inv(w) && Enabled(w, s) && x in w.vcpus && x != s.v && s.v in Next(w, s).vcpus
    requires !w.vcpus[x].phase.Idle?
    ensures !AtCpu(Next(w, s).vcpus[s.v].phase, w.vcpus[x].phase.on)
  {
    hide Inv, Next, FirstZero, Interruptible, EntryFits, HasCurrent, HasLocal, LocalAfter, ActiveAfter, CurrentAfter,
      InLaunchAfter, TlbAfter, SyncsAfter;
    NextIs(w, s);
    Actor(w, x);
  }

  lemma HomeStep(w: World, s: Step, v: nat)
    requires Inv(w) && Enabled(w, s) && v in Next(w, s).vcpus
    ensures Home(Next(w, s), v)
  {
    hide Inv, Next, Enabled, VcpuAfter, LoadedAt, HasCurrent, HasLocal, Takes;
    if v == s.v {
      HomeActor(w, s);
    } else {
      Elsewhere(w, s, 0, v);
      Actor(w, v);
      if w.vcpus[v].cpu.Some? {
        Elsewhere(w, s, w.vcpus[v].cpu.value, v);
      }
      if !w.vcpus[v].phase.Idle? {
        Elsewhere(w, s, w.vcpus[v].phase.on, v);
      }
    }
  }

  lemma HomeActor(w: World, s: Step)
    requires Inv(w) && Enabled(w, s) && s.v in Next(w, s).vcpus
    ensures Home(Next(w, s), s.v)
  {
    hide FirstZero, Inv, Next, HasCurrent, HasLocal, EntryFits, LocalAfter, ActiveAfter, CurrentAfter, InLaunchAfter,
      TlbAfter, SyncsAfter, Unheld, Interruptible, LaunchOk, FreshOk, Apart, InHand;
    NextIs(w, s);
    InLaunchNext(w, s, s.v);
    if s.v in w.vcpus {
      Actor(w, s.v);
      var x := w.vcpus[s.v];
      if x.cpu.Some? {
        ActiveNext(w, s, x.cpu.value, s.v);
      }
      if !x.phase.Idle? {
        ActiveNext(w, s, x.phase.on, s.v);
      }
      if s.GetFast? {
        assert LocalOk(w, s.c, s.v);
      }
    }
  }

  lemma ActiveStep(w: World, s: Step, c: nat, v: nat)
    requires Inv(w) && Enabled(w, s) && (c, v) in Next(w, s).active
    ensures ActiveOk(Next(w, s), c, v)
  {
    hide Inv, Next, Enabled, VcpuAfter, LoadedAt, HasCurrent, HasLocal, Takes;
    ActiveKnown(w, c, v);
    if v == s.v {
      ActiveActor(w, s, c);
    } else {
      Elsewhere(w, s, c, v);
    }
  }

  lemma ActiveActor(w: World, s: Step, c: nat)
    requires Inv(w) && Enabled(w, s) && (c, s.v) in Next(w, s).active
    ensures ActiveOk(Next(w, s), c, s.v)
  {
    hide FirstZero, Inv, Next, HasCurrent, HasLocal, EntryFits, LocalAfter, ActiveAfter, CurrentAfter, InLaunchAfter,
      TlbAfter, SyncsAfter, Unheld, Interruptible, LaunchOk, FreshOk, Apart, InHand, LocalOk;
    NextIs(w, s);
    ActiveNext(w, s, c, s.v);
    ActiveKnown(w, c, s.v);
    if s.v in w.vcpus {
      Actor(w, s.v);
    }
  }

  lemma ActiveKnown(w: World, c: nat, v: nat)
    requires Inv(w)
    ensures (c, v) in w.active ==> v in w.vcpus && ActiveOk(w, c, v)
    ensures HasLocal(w, c, v) ==> v in w.vcpus && LocalOk(w, c, v)
  {
    hide LaunchOk, FreshOk, Apart, Home, InHand;
    if (c, v) in w.active {
      assert ActiveOk(w, c, v);
    }
    if HasLocal(w, c, v) {
      assert LocalOk(w, c, w.local[c]);
    }
  }

  lemma LocalStep(w: World, s: Step, c: nat, v: nat)
    requires Inv(w) && Enabled(w, s) && HasLocal(Next(w, s), c, v)
    ensures LocalOk(Next(w, s), c, v)
  {
    hide Inv, Next, Enabled, VcpuAfter, LoadedAt, HasCurrent, HasLocal, Takes;
    if v == s.v {
      LocalActor(w, s, c);
    } else {
      Elsewhere(w, s, c, v);
      ActiveKnown(w, c, v);
      if LoadedAt(w, s) == Some(c) {
        LoaderHolds(w, s, c, v);
      }
    }
  }

  lemma LocalActor(w: World, s: Step, c: nat)
    requires Inv(w) && Enabled(w, s) && HasLocal(Next(w, s), c, s.v)
    ensures LocalOk(Next(w, s), c, s.v)
  {
    hide FirstZero, Inv, Next, HasCurrent, HasLocal, EntryFits, LocalAfter, ActiveAfter, CurrentAfter, InLaunchAfter,
      TlbAfter, SyncsAfter, Unheld, Interruptible, LaunchOk, FreshOk, Apart, InHand;
    NextIs(w, s);
    ActiveNext(w, s, c, s.v);
    CurrentNext(w, s, c, s.v);
    LocalNext(w, s, c, s.v);
    ActiveKnown(w, c, s.v);
    if s.v in w.vcpus {
      Actor(w, s.v);
    }
  }

  lemma InHandStep(w: World, s: Step, v: nat)
    requires Inv(w) && Enabled(w, s) && v in Next(w, s).vcpus
    ensures InHand(Next(w, s), v)
  {
    hide Inv, Next, Enabled, VcpuAfter, LoadedAt, HasCurrent, HasLocal, Takes;
    if v == s.v {
      InHandActor(w, s);
    } else {
      Elsewhere(w, s, 0, v);
      Actor(w, v);
      if !w.vcpus[v].phase.Idle? {
        Elsewhere(w, s, w.vcpus[v].phase.on, v);
        if Takes(w, s, w.vcpus[v].phase.on) {
          TakesFree(w, s, w.vcpus[v].phase.on, v);
        }
      }
    }
  }

  lemma InHandActor(w: World, s: Step)
    requires Inv(w) && Enabled(w, s) && s.v in Next(w, s).vcpus
    ensures InHand(Next(w, s), s.v)
  {
    hide FirstZero, Inv, Next, HasCurrent, HasLocal, EntryFits, LocalAfter, ActiveAfter, CurrentAfter, InLaunchAfter,
      TlbAfter, SyncsAfter, Unheld, Interruptible, LaunchOk, FreshOk, Apart, LocalOk;
    NextIs(w, s);
    if s.v in w.vcpus {
      Actor(w, s.v);
      if !w.vcpus[s.v].phase.Idle? {
        LocalNext(w, s, w.vcpus[s.v].phase.on, s.v);
      }
    }
    if s.GetFast? || s.Claim? {
      LocalNext(w, s, s.c, s.v);
    }
  }

  lemma LaunchStep(w: World, s: Step, c: nat, v: nat)
    requires Inv(w) && Enabled(w, s) && (c, v) in Next(w, s).active && v in Next(w, s).vcpus
    ensures LaunchOk(Next(w, s), v)
  {
    hide Inv, Next, Enabled, VcpuAfter, LoadedAt, HasCurrent, HasLocal, Takes;
    if v == s.v {
      LaunchActor(w, s, c);
    } else {
      Elsewhere(w, s, c, v);
      Actor(w, v);
    }
  }

  lemma LaunchActor(w: World, s: Step, c: nat)
    requires Inv(w) && Enabled(w, s) && (c, s.v) in Next(w, s).active && s.v in Next(w, s).vcpus
    ensures LaunchOk(Next(w, s), s.v)
  {
    hide FirstZero, Inv, Next, HasCurrent, HasLocal, LocalAfter, ActiveAfter, CurrentAfter, InLaunchAfter, TlbAfter,
      SyncsAfter, Unheld, Interruptible, FreshOk, Apart, InHand, LocalOk;
    NextIs(w, s);
    ActiveNext(w, s, c, s.v);
    InLaunchNext(w, s, s.v);
    ActiveKnown(w, c, s.v);
    if s.v in w.vcpus {
      Actor(w, s.v);
    }
  }

  lemma FreshStep(w: World, s: Step, t: Cached)
    requires Inv(w) && Enabled(w, s) && t in Next(w, s).tlb
    ensures FreshOk(Next(w, s), t)
  {
    hide FirstZero, Inv, Next, HasCurrent, HasLocal, EntryFits, LocalAfter, ActiveAfter, CurrentAfter, InLaunchAfter,
      TlbAfter, SyncsAfter, Unheld, Interruptible, LaunchOk, Apart, InHand, LocalOk, ActiveOk, Pending;
    NextIs(w, s);
    TlbNext(w, s, t);
    PendingNext(w, s, t.v, t.gpa, t.cpu);
    FreshKnown(w, t);
    if t.v in w.vcpus {
      Actor(w, t.v);
    }
  }

  lemma FreshKnown(w: World, t: Cached)
    requires Inv(w)
    ensures t in w.tlb ==> FreshOk(w, t)
  {
  }

  lemma VpidOf(w: World, s: Step, v: nat)
    requires Enabled(w, s) && v in Next(w, s).vcpus
    ensures s == Create(v) || v in w.vcpus
    ensures Next(w, s).vcpus[v].vpid == if s == Create(v) then FirstZero(w.vpids, 0, NR_VPIDS) else w.vcpus[v].vpid
    ensures s.Destroy? ==> v != s.v
  {
    hide Next, VcpuAfter, FirstZero, Unheld, Interruptible, LocalAfter, ActiveAfter, CurrentAfter, InLaunchAfter,
      TlbAfter, SyncsAfter, EntryFits;
    NextIs(w, s);
  }

  lemma VpidsStep(w: World, s: Step)
    requires Inv(w) && Enabled(w, s)
    ensures Vpids(Next(w, s))
  {
    hide Inv, Next, Enabled;
    VpidSet(w, s);
    VpidsKnown(w);
    var n := Next(w, s);
    ActorLives(w, s);
    forall v | v in n.vcpus
      ensures n.vcpus[v].vpid in n.vpids && n.vcpus[v].vpid != 0
    {
      VpidOf(w, s, v);
    }
    forall u, v | u in n.vcpus && v in n.vcpus && u != v
      ensures n.vcpus[u].vpid != n.vcpus[v].vpid
    {
      VpidOf(w, s, u);
      VpidOf(w, s, v);
    }
  }

  lemma VpidsKnown(w: World)
    requires Inv(w)
    ensures Vpids(w)
  {
  }

  lemma ActorLives(w: World, s: Step)
    requires Enabled(w, s)
    ensures s.Destroy? ==> s.v in w.vcpus
    ensures s.Create? ==> s.v !in w.vcpus && FirstZero(w.vpids, 0, NR_VPIDS) < NR_VPIDS
  {
  }

  lemma InvStep(w: World, s: Step)
    requires Inv(w) && Enabled(w, s)
    ensures Inv(Next(w, s))
  {
    hide LaunchOk, Apart, InHand, LocalOk, ActiveOk, FreshOk, Home, Next, Vpids, Enabled;
    var n := Next(w, s);
    forall u, v {:trigger Apart(n, u, v)} | u in n.vcpus && v in n.vcpus
      ensures Apart(n, u, v)
    {
      ApartStep(w, s, u, v);
    }
    forall v | v in n.vcpus
      ensures Home(n, v) && InHand(n, v)
    {
      HomeStep(w, s, v);
      InHandStep(w, s, v);
    }
    forall c, v | (c, v) in n.active
      ensures ActiveOk(n, c, v) && (v in n.vcpus ==> LaunchOk(n, v))
    {
      ActiveStep(w, s, c, v);
      if v in n.vcpus {
        LaunchStep(w, s, c, v);
      }
    }
    forall c | c in n.local
      ensures LocalOk(n, c, n.local[c])
    {
      LocalStep(w, s, c, n.local[c]);
    }
    forall t | t in n.tlb
      ensures FreshOk(n, t)
    {
      FreshStep(w, s, t);
    }
    VpidsStep(w, s);
  }

  // ----- every run -----

  /** No vCPU yet; vpid 0 is the host's. */
  predicate Init(w: World) {
    w.vcpus == map[] && w.local == map[] && w.active == {} && w.vpids == {0} && w.tlb == {}
  }

  ghost predicate Runs(w: World, steps: seq<Step>, w1: World)
    decreases |steps|
  {
    if steps == [] then w1 == w else Enabled(w, steps[0]) && Runs(Next(w, steps[0]), steps[1..], w1)
  }

  lemma {:induction false} RunKeeps(w: World, steps: seq<Step>, w1: World)
    requires Inv(w) && Runs(w, steps, w1)
    ensures Inv(w1)
    decreases |steps|
  {
    hide Inv, Next, Enabled;
    if steps != [] {
      InvStep(w, steps[0]);
      RunKeeps(Next(w, steps[0]), steps[1..], w1);
    }
  }

  /** A VMCS is active on at most one CPU. */
  lemma ActiveOnce(w: World, c: nat, d: nat, v: nat)
    requires Inv(w) && (c, v) in w.active && (d, v) in w.active
    ensures c == d
  {
    hide LaunchOk, Apart, InHand, LocalOk, FreshOk, Home, Vpids;
    assert ActiveOk(w, c, v) && ActiveOk(w, d, v);
  }

  /** local_vcpu names a vCPU that is on that CPU with its VMCS current,
      unless its thread is just coming in; a thread that may use its VMCS finds it
      current; the helper's BUG_ON never strikes; and VM entries use the right
      instruction. */
  lemma LocalTruth(w: World, c: nat, v: nat)
    requires Inv(w) && v in w.vcpus
    ensures HasLocal(w, c, v) && (w.vcpus[v].phase.Idle? || w.vcpus[v].phase.Owned?) ==>
              w.vcpus[v].cpu == Some(c) && HasCurrent(w, c, v) && (c, v) in w.active
    ensures w.vcpus[v].phase == Owned(c) ==> HasCurrent(w, c, v) && (!w.vcpus[v].failed ==> EntryFits(w, v))
    ensures w.vcpus[v].phase.Waiting? ==> w.vcpus[v].cpu == Some(w.vcpus[v].phase.target)
  {
    hide Inv;
    Actor(w, v);
    if HasLocal(w, c, v) {
      assert LocalOk(w, c, v);
    }
  }

  /** A stale translation is cached on a vCPU's CPU only between the
      clearing of the entry and the flush that follows it. */
  lemma StaleOnlyPending(w: World, t: Cached)
    requires Inv(w) && t in w.tlb && t.v in w.vcpus && w.vcpus[t.v].cpu == Some(t.cpu)
    requires !(t.gpa in w.vcpus[t.v].ept && w.vcpus[t.v].ept[t.gpa] == t.frame)
    ensures Pending(w, t.v, t.gpa, t.cpu)
  {
    hide Inv;
    FreshKnown(w, t);
  }

  /** In every run, with any number of vCPUs and CPUs and any interleaving: a VMCS
      is active on at most one CPU, local_vcpu tells the truth, VM entries use the
      right instruction, stale translations await a flush, and vpids differ. */
  lemma RunSafe(w: World, steps: seq<Step>, w1: World)
    requires Init(w) && Runs(w, steps, w1)
    ensures forall c, d, v :: (c, v) in w1.active && (d, v) in w1.active ==> c == d
    ensures forall c :: c in w1.local ==>
              && w1.local[c] in w1.vcpus
              && var x := w1.vcpus[w1.local[c]];
                 (x.phase.Idle? || x.phase.Owned? ==> x.cpu == Some(c) && HasCurrent(w1, c, w1.local[c]))
    ensures forall v :: v in w1.vcpus && w1.vcpus[v].phase.Owned? && !w1.vcpus[v].failed ==> EntryFits(w1, v)
    ensures forall t :: t in w1.tlb && t.v in w1.vcpus && w1.vcpus[t.v].cpu == Some(t.cpu)
              && !(t.gpa in w1.vcpus[t.v].ept && w1.vcpus[t.v].ept[t.gpa] == t.frame)
              ==> Pending(w1, t.v, t.gpa, t.cpu)
    ensures forall u, v :: u in w1.vcpus && v in w1.vcpus && u != v ==> w1.vcpus[u].vpid != w1.vcpus[v].vpid
  {
    hide Runs, Inv, LocalOk, HasLocal, HasCurrent;
    InitInv(w);
    RunKeeps(w, steps, w1);
    forall c, d, v | (c, v) in w1.active && (d, v) in w1.active
      ensures c == d
    {
      ActiveOnce(w1, c, d, v);
    }
    forall c | c in w1.local
      ensures w1.local[c] in w1.vcpus
      ensures var x := w1.vcpus[w1.local[c]];
              (x.phase.Idle? || x.phase.Owned? ==> x.cpu == Some(c) && HasCurrent(w1, c, w1.local[c]))
    {
      assert HasLocal(w1, c, w1.local[c]) by {
        LocalIs(w1, c);
      }
      ActiveKnown(w1, c, w1.local[c]);
      LocalTruth(w1, c, w1.local[c]);
    }
    forall v | v in w1.vcpus && w1.vcpus[v].phase.Owned? && !w1.vcpus[v].failed
      ensures EntryFits(w1, v)
    {
      LocalTruth(w1, w1.vcpus[v].phase.on, v);
    }
    forall t | t in w1.tlb && t.v in w1.vcpus && w1.vcpus[t.v].cpu == Some(t.cpu)
               && !(t.gpa in w1.vcpus[t.v].ept && w1.vcpus[t.v].ept[t.gpa] == t.frame)
      ensures Pending(w1, t.v, t.gpa, t.cpu)
    {
      StaleOnlyPending(w1, t);
    }
    VpidsKnown(w1);
  }

  lemma LocalIs(w: World, c: nat)
    requires c in w.local
    ensures HasLocal(w, c, w.local[c])
  {
  }

  lemma InitInv(w: World)
    requires Init(w)
    ensures Inv(w)
  {
  }
}
