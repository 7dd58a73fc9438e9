/** The mappings that libdune sets up for a whole process (entry.c), and how they
    compose with the EPT's view of guest-physical memory. */
module TwoStage {
  import opened Radix
  import opened PagePool
  import opened Callbacks
  import opened GuestVm
  import opened VmInvariants
  import opened WalkTheorems
  import opened WalkRoom
  import opened Addresses
  import opened GuestWalker
  import opened GuestCalls
  import opened Windows
  import opened Conservation
  import opened PoolRuns
  import EptTables
  import EptRuns

  const PAGEBASE := 0x2_0000_0000
  const POOL_SPAN := 0x1_0000_0000
  const LOW_SPAN := 0x1_0000_0000

  /** The permissions of the pool's direct map, and of the other windows. */
  const POOL_PERM := {PERM_R, PERM_W, PERM_BIG}
  const FULL_PERM := {PERM_R, PERM_W, PERM_X, PERM_U}

  /** An address range that map_phys sends, page by page, to `pa`. */
  datatype Window = Window(va: nat, len: nat, pa: nat, perm: set<nat>)

  /** The four calls of __setup_mappings_full, in their order. */
  function Plan(l: Layout): (plan: seq<Window>)
    requires Valid(l)
    ensures |plan| == 4
  {
    [Window(PAGEBASE, POOL_SPAN, DuneVaToPa(l, PAGEBASE), POOL_PERM),
     Window(0, LOW_SPAN, 0, FULL_PERM),
     Window(l.mapStart, GPA_MAP_SIZE, LowEnd(l), FULL_PERM),
     Window(l.stackStart, GPA_STACK_SIZE, l.physEnd - GPA_STACK_SIZE, FULL_PERM)]
  }

  /** The high windows are above the pool's, which is below what the guest sees as
      its own physical memory; everything is within 47 bits of address. */
  predicate Roomy(l: Layout) {
    && Valid(l) && l.physEnd <= TWO48
    && PAGEBASE + POOL_SPAN <= LowEnd(l)
    && PAGEBASE + POOL_SPAN <= l.mapStart && PAGEBASE + POOL_SPAN <= l.stackStart
    && l.mapStart + GPA_MAP_SIZE <= TWO48 && l.stackStart + GPA_STACK_SIZE <= TWO48
  }

  /** The kernel's layout is roomy on a machine with 34 to 48 physical address bits
      whose mmap area and stack lie above the pool and within 48 bits. */
  lemma KernelRoomy(physBits: nat, mmapBase: nat, startStack: nat)
    requires 34 <= physBits <= 48
    requires PAGEBASE + POOL_SPAN + GPA_MAP_SIZE <= mmapBase <= TWO48
    requires PAGEBASE + POOL_SPAN + GPA_STACK_SIZE <= startStack <= TWO48
    ensures Roomy(LayoutOf(physBits, mmapBase, startStack))
  {
    hide Power, LgAlign;
    PowerMonotone(34, physBits);
    PowerMonotone(physBits, 48);
    Powers();
    AlignBound(mmapBase);
    AlignBound(startStack);
  }

  lemma Powers()
    ensures Power(34) == 0x4_0000_0000 && Power(48) == TWO48
  {
    hide Power;
    PowerZero();
    PowerStep(0);
    PowerStep(1);
    Power16(2);
    Power16(6);
    Power16(10);
    Power16(14);
    Power16(18);
    Power16(22);
    Power16(26);
    Power16(30);
    Power16(34);
    Power16(38);
    Power16(42);
    PowerStep(46);
    PowerStep(47);
  }

  lemma AlignBound(addr: nat)
    requires addr <= TWO48
    ensures addr <= LgAlign(addr) <= TWO48
  {
  }

  predicate InWindow(w: Window, x: nat) {
    w.va <= x < w.va + w.len
  }

  /** The guest walk for `x`, followed by gpa_to_hva, comes back to `x`. */
  ghost predicate Identity(s: Vm, l: Layout, root: nat, x: nat)
    requires Valid(l)
  {
    var (level, w) := Leaf(Guest, s.mem, root, PageOfVa(x));
    Present(Guest, w) && GpaToHva(l, PhysicalAddress(level, w, x)) == Some(x)
  }

  /** The entry for address `x` has the bits of these permissions. */
  ghost predicate Permitted(s: Vm, root: nat, x: nat, perm: set<nat>) {
    Leaf(Guest, s.mem, root, PageOfVa(x)).1.bits == GetPtePerm(perm)
  }

  /** Every guest-physical image in the plan leads back to where it came from. */
  lemma PlanInverts(l: Layout, k: nat, x: nat)
    requires Roomy(l) && k < 4 && InWindow(Plan(l)[k], x)
    ensures GpaToHva(l, Plan(l)[k].pa + (x - Plan(l)[k].va)) == Some(x)
  {
  }

  lemma PlanAligned(l: Layout, k: nat)
    requires Roomy(l) && k < 4
    ensures var w := Plan(l)[k]; var g := Gran(CreateFor(w.perm));
            && w.len > 0 && w.va + w.len <= TWO48 && g == (if k == 0 then 1 else 0)
            && Aligned(w.va, w.len, w.pa, g) && PTE_P in GetPtePerm(w.perm) && w.va % 0x1000 == 0 && w.len % 0x1000 == 0
            && High(w.va) == 0
  {
    LgPage(l.mapStart, 0);
    LgPage(l.stackStart, 0);
    LgPage(l.physEnd, 0);
    assert GPA_STACK_SIZE == 128 * LG && GPA_MAP_SIZE == 896 * LG;
    assert l.physEnd - GPA_STACK_SIZE == (l.physEnd / LG - 128) * LG;
    assert LowEnd(l) == (l.physEnd / LG - 1024) * LG;
    LgPage(l.physEnd - GPA_STACK_SIZE, 0);
    LgPage(LowEnd(l), 0);
  }

  /** Pages and addresses of a window. */
  lemma WindowPage(va: nat, len: nat, x: nat)
    requires va % 0x1000 == 0 && len % 0x1000 == 0 && len > 0 && va + len <= TWO48 && x < TWO48
    ensures PageOfVa(va) == va / 0x1000 && PageOfVa(va + len - 1) == (va + len) / 0x1000 - 1
            && PageOfVa(x) == x / 0x1000
    ensures va <= x < va + len <==> PageOfVa(va) <= PageOfVa(x) <= PageOfVa(va + len - 1)
  {
  }

  /** Call `k` of the plan has mapped its window, and changed nothing else. */
  ghost predicate PlanMapped(s: Vm, s1: Vm, l: Layout, root: nat, k: nat)
    requires Roomy(l) && k < 4
  {
    var w, job := Plan(l)[k], PlanJob(l, k);
    var g := Gran(job.create);
    Mapped(s, s1, root, job, Up(PageOfVa(w.va), g), Up(PageOfVa(w.va + w.len - 1), g))
  }

  /** How far the set-up has got: the first `k` windows of the plan are mapped and
      nothing else, the pool's with 2 MB entries and the others with 4 KB entries. */
  ghost predicate Mapped4(s: Vm, l: Layout, root: nat, k: nat)
    requires Roomy(l) && k <= 4
  {
    && Sound(s) && IsRoot(s.own, root)
    && (forall j, x {:trigger InWindow(Plan(l)[j], x)} :: 0 <= j < k && InWindow(Plan(l)[j], x) ==>
          Identity(s, l, root, x) && Permitted(s, root, x, Plan(l)[j].perm))
    && (forall v :: IsPage(v) && !PoolPage(v) ==> Leaf(Guest, s.mem, root, v).0 == 0)
    && (forall v :: IsPage(v) && !InPlan(l, k, v) ==> Leaf(Guest, s.mem, root, v) == (0, ZERO))
    && (k > 0 ==> forall v :: PoolPage(v) ==> Leaf(Guest, s.mem, root, v).0 == 1)
  }

  predicate WindowHas(w: Window, v: nat)
    requires w.len > 0
  {
    PageOfVa(w.va) <= v <= PageOfVa(w.va + w.len - 1)
  }

  /** Page `v` lies in one of the first `k` windows. */
  predicate InPlan(l: Layout, k: nat, v: nat)
    requires Roomy(l) && k <= 4
  {
    exists j :: 0 <= j < k && WindowHas(Plan(l)[j], v)
  }

  predicate PoolPage(v: nat) {
    PAGEBASE / 0x1000 <= v < (PAGEBASE + POOL_SPAN) / 0x1000
  }

  function PlanJob(l: Layout, k: nat): Job
    requires Valid(l) && k < 4
  {
    MapPhysJob(Plan(l)[k].va, Plan(l)[k].pa, Plan(l)[k].perm)
  }

  /** The pages of window `k` are not the pool's, unless it is the pool's own. */
  lemma PlanPages(l: Layout, k: nat, v: nat)
    requires Roomy(l) && k < 4
    ensures var w := Plan(l)[k];
            && PageOfVa(w.va) == w.va / 0x1000 && PageOfVa(w.va + w.len - 1) == (w.va + w.len) / 0x1000 - 1
            && (PageOfVa(w.va) <= v <= PageOfVa(w.va + w.len - 1) ==> (PoolPage(v) <==> k == 0))
  {
    PlanAligned(l, k);
    WindowPage(Plan(l)[k].va, Plan(l)[k].len, 0);
  }

  lemma PoolUnits(v: nat)
    ensures Up(PageOfVa(PAGEBASE), 1) <= Up(v, 1) <= Up(PageOfVa(PAGEBASE + POOL_SPAN - 1), 1) <==> PoolPage(v)
  {
    assert Up(v, 1) == Up(v, 0) / 512 && Up(v, 0) == v;
    assert Up(0x20_0000, 0) == 0x20_0000 && Up(0x20_0000, 1) == 0x1000;
    assert Up(0x2F_FFFF, 0) == 0x2F_FFFF && Up(0x2F_FFFF, 1) == 0x17FF;
  }

  /** The next call of the plan finds what map_phys needs. */
  lemma PlanReady(s: Vm, l: Layout, root: nat, k: nat)
    requires Roomy(l) && k < 4 && Mapped4(s, l, root, k)
    ensures var w := Plan(l)[k]; var job := PlanJob(l, k); var g := Gran(job.create);
            && PageOfVa(w.va) <= PageOfVa(w.va + w.len - 1)
            && MapFits(s, root, job, Up(PageOfVa(w.va), g), Up(PageOfVa(w.va + w.len - 1), g))
  {
    hide Leaf, PageOfVa, Up, GetPtePerm, Identity, High, LowEnd, PoolPage;
    var w, job := Plan(l)[k], PlanJob(l, k);
    var g := Gran(job.create);
    PlanAligned(l, k);
    PlanPages(l, k, 0);
    BigBit(w.perm);
    forall v | PageOfVa(w.va) <= v <= PageOfVa(w.va + w.len - 1)
      ensures k > 0 ==> Leaf(Guest, s.mem, root, v).0 == 0
    {
      PlanPages(l, k, v);
      PageRange(v);
    }
    HighZero(w.va);
    CallFits(s, root, w.va, w.len, job);
    forall v | IsPage(v) && Up(PageOfVa(w.va), g) <= Up(v, g) <= Up(PageOfVa(w.va + w.len - 1), g)
      ensures Leaf(Guest, s.mem, root, v).0 <= g
    {
      if k > 0 {
        UpZero(v);
        UpZero(PageOfVa(w.va));
        UpZero(PageOfVa(w.va + w.len - 1));
      }
    }
  }

  /** ... and takes the set-up one window further. */
  lemma PlanStep(s: Vm, s1: Vm, l: Layout, root: nat, k: nat)
    requires Roomy(l) && k < 4 && Mapped4(s, l, root, k) && Sound(s1) && IsRoot(s1.own, root)
    requires PlanMapped(s, s1, l, root, k)
    requires var w := Plan(l)[k]; Sent(s1, root, w.va, w.len, w.pa, w.perm)
    ensures Mapped4(s1, l, root, k + 1)
  {
    hide Leaf, PageOfVa, Up, GetPtePerm, High, MapWord, PhysicalAddress, Identity, Sound, LowEnd, PoolPage, Sent,
      Permitted;
    PlanAligned(l, k);
    forall j, x {:trigger InWindow(Plan(l)[j], x)} | 0 <= j < k + 1 && InWindow(Plan(l)[j], x)
      ensures Identity(s1, l, root, x) && Permitted(s1, root, x, Plan(l)[j].perm)
    {
      if InWindow(Plan(l)[k], x) {
        SentIdentity(s1, l, root, k, x);
        SamePerm(l, j, k, x);
      } else {
        assert Identity(s, l, root, x) && Permitted(s, root, x, Plan(l)[j].perm);
        OldIdentity(s, s1, l, root, j, k, x);
      }
    }
    forall v | IsPage(v) && !PoolPage(v)
      ensures Leaf(Guest, s1.mem, root, v).0 == 0
    {
      StaysSmall(s, s1, l, root, k, v);
    }
    forall v | IsPage(v) && !InPlan(l, k + 1, v)
      ensures Leaf(Guest, s1.mem, root, v) == (0, ZERO)
    {
      assert !WindowHas(Plan(l)[k], v);
      assert !InPlan(l, k, v);
      OutsideUnits(l, k, v);
    }
    forall v | PoolPage(v)
      ensures Leaf(Guest, s1.mem, root, v).0 == 1
    {
      PoolBig(s, s1, l, root, k, v);
    }
  }

  /** Windows that overlap are mapped with the same permissions. */
  lemma SamePerm(l: Layout, j: nat, k: nat, x: nat)
    requires Roomy(l) && j <= k < 4 && InWindow(Plan(l)[j], x) && InWindow(Plan(l)[k], x)
    ensures Plan(l)[j].perm == Plan(l)[k].perm
  {
  }

  lemma PoolBig(s: Vm, s1: Vm, l: Layout, root: nat, k: nat, v: nat)
    requires Roomy(l) && k < 4 && IsRoot(s.own, root) && PoolPage(v) && (k > 0 ==> Leaf(Guest, s.mem, root, v).0 == 1)
    requires PlanMapped(s, s1, l, root, k)
    ensures Leaf(Guest, s1.mem, root, v).0 == 1
  {
    hide Leaf, GetPtePerm, Up, PageOfVa, PoolPage, LowEnd, SlotVa;
    PlanAligned(l, k);
    OutsideUnits(l, k, v);
    PlanPages(l, k, v);
    PoolIsPage(v);
    PoolPages(l, v);
    BigBit(Plan(l)[k].perm);
    assert k == 0 ==> Big(MapWord(PlanJob(l, k), Up(v, 1)));
  }

  lemma PoolIsPage(v: nat)
    requires PoolPage(v)
    ensures IsPage(v)
  {
    PageRange(v);
  }

  /** The units of a window are those of its pages. */
  lemma OutsideUnits(l: Layout, k: nat, v: nat)
    requires Roomy(l) && k < 4
    ensures var w := Plan(l)[k]; var g := Gran(CreateFor(w.perm));
            WindowHas(w, v) <==> Up(PageOfVa(w.va), g) <= Up(v, g) <= Up(PageOfVa(w.va + w.len - 1), g)
  {
    hide Up, PageOfVa, PoolPage, LowEnd, GetPtePerm;
    var w := Plan(l)[k];
    PlanAligned(l, k);
    PlanPages(l, k, v);
    if k == 0 {
      PoolUnits(v);
      PoolPages(l, v);
    } else {
      UpZero(v);
      UpZero(PageOfVa(w.va));
      UpZero(PageOfVa(w.va + w.len - 1));
    }
  }

  lemma PoolPages(l: Layout, v: nat)
    requires Roomy(l)
    ensures WindowHas(Plan(l)[0], v) <==> PoolPage(v)
  {
  }

  lemma SentIdentity(s1: Vm, l: Layout, root: nat, k: nat, x: nat)
    requires Roomy(l) && k < 4 && InWindow(Plan(l)[k], x)
    requires var w := Plan(l)[k]; Sent(s1, root, w.va, w.len, w.pa, w.perm)
    ensures Identity(s1, l, root, x) && Permitted(s1, root, x, Plan(l)[k].perm)
  {
    hide Leaf, PageOfVa, GetPtePerm, PhysicalAddress, GpaToHva;
    PlanAligned(l, k);
    PlanInverts(l, k, x);
  }

  lemma OldIdentity(s: Vm, s1: Vm, l: Layout, root: nat, j: nat, k: nat, x: nat)
    requires Roomy(l) && j < k < 4 && IsRoot(s.own, root) && Identity(s, l, root, x)
    requires InWindow(Plan(l)[j], x) && !InWindow(Plan(l)[k], x)
    requires PlanMapped(s, s1, l, root, k)
    ensures Identity(s1, l, root, x)
    ensures forall perm :: Permitted(s, root, x, perm) ==> Permitted(s1, root, x, perm)
  {
    hide Leaf, GetPtePerm, PhysicalAddress, GpaToHva, MapWord, Up, LowEnd;
    PlanAligned(l, j);
    PlanAligned(l, k);
    WindowPage(Plan(l)[k].va, Plan(l)[k].len, x);
    UpZero(PageOfVa(x));
    UpZero(PageOfVa(Plan(l)[k].va));
    UpZero(PageOfVa(Plan(l)[k].va + Plan(l)[k].len - 1));
    AddressPage(x);
  }

  lemma StaysSmall(s: Vm, s1: Vm, l: Layout, root: nat, k: nat, v: nat)
    requires Roomy(l) && k < 4 && IsRoot(s.own, root) && IsPage(v) && !PoolPage(v) && Leaf(Guest, s.mem, root, v).0 == 0
    requires PlanMapped(s, s1, l, root, k)
    ensures Leaf(Guest, s1.mem, root, v).0 == 0
  {
    hide Leaf, GetPtePerm, MapWord, Up, PageOfVa, PoolPage;
    PlanAligned(l, k);
    if k == 0 {
      PoolUnits(v);
    }
  }

  // ----- reference counts -----

  /** MAX_PAGES. */
  const POOL_PAGES := 0x10_0000

  /** The counts are right, nothing but the pool's window names pages of the pool, and
      before its window is mapped no table lies there. */
  ghost predicate Tracked(s: Vm, root: nat, k: nat) {
    && Conserved(s) && s.pool.cap <= POOL_PAGES
    && (k == 0 ==> NoTables(s.own, root, 1, 0x1000, 0x17FF))
    && forall v :: IsPage(v) && !PoolPage(v) ==> !PoolFrame(s.pool, Leaf(Guest, s.mem, root, v).1.frame)
  }

  /** What the other windows map is no page of the pool. */
  lemma PlanFrames(s: Vm, l: Layout, k: nat, v: nat)
    requires Roomy(l) && 0 < k < 4 && s.pool.cap <= POOL_PAGES && WindowHas(Plan(l)[k], v)
    ensures var w := Plan(l)[k]; !PoolFrame(s.pool, FrameOfPa(SlotVa(PlanJob(l, k), 0, v) - w.va + w.pa))
  {
    hide PageOfVa, High, Lo, GetPtePerm;
    PlanAligned(l, k);
    PlanPages(l, k, v);
    LoZero(v);
    LgPage(LowEnd(l), 0);
  }

  /** What the counts need of call `k`. */
  ghost predicate PlanConserves(s: Vm, l: Layout, root: nat, k: nat)
    requires Roomy(l) && k < 4
  {
    var w, job := Plan(l)[k], PlanJob(l, k);
    var g := Gran(job.create);
    RangeConserves(s, root, job, Up(PageOfVa(w.va), g), Up(PageOfVa(w.va + w.len - 1), g))
  }

  /** A call of the plan meets it. */
  lemma TrackedReady(s: Vm, l: Layout, root: nat, k: nat)
    requires Roomy(l) && k < 4 && Mapped4(s, l, root, k) && Tracked(s, root, k)
    ensures PlanConserves(s, l, root, k)
  {
    hide Conserved, Leaf, PageOfVa, Up, GetPtePerm, PoolPage, SlotVa, FrameOfPa, LowEnd, Identity;
    var w, job := Plan(l)[k], PlanJob(l, k);
    PlanAligned(l, k);
    BigBit(w.perm);
    if k == 0 {
      PoolSpread();
      PlanPages(l, 0, 0);
    } else {
      UpZero(PageOfVa(w.va));
      UpZero(PageOfVa(w.va + w.len - 1));
      forall v | WindowHas(w, v)
        ensures IsPage(v) && !PoolPage(v)
        ensures !PoolFrame(s.pool, FrameOfPa(SlotVa(job, 0, v) - w.va + w.pa))
      {
        PlanPages(l, k, v);
        PageRange(v);
        PlanFrames(s, l, k, v);
      }
    }
  }

  lemma TrackedConserved(s: Vm, root: nat, k: nat)
    requires Tracked(s, root, k)
    ensures Conserved(s)
  {
  }

  lemma TrackedStep(s: Vm, s1: Vm, l: Layout, root: nat, k: nat)
    requires Roomy(l) && k < 4 && Mapped4(s, l, root, k) && Tracked(s, root, k) && Conserved(s1)
             && s1.pool.cap == s.pool.cap
    requires PlanMapped(s, s1, l, root, k)
    ensures Tracked(s1, root, k + 1)
  {
    hide Conserved, Leaf, PageOfVa, Up, GetPtePerm, PoolPage, SlotVa, FrameOfPa, LowEnd, Identity;
    var w := Plan(l)[k];
    PlanAligned(l, k);
    forall v | IsPage(v) && !PoolPage(v)
      ensures !PoolFrame(s1.pool, Leaf(Guest, s1.mem, root, v).1.frame)
    {
      OutsideUnits(l, k, v);
      PlanPages(l, k, v);
      UpZero(v);
      if WindowHas(w, v) {
        PlanFrames(s, l, k, v);
      }
    }
  }

  // ----- how many tables it takes -----

  /** The tables that each window of the plan needs, at most: 4 KB entries for all but
      the pool's 2 MB ones. */
  function WindowTables(k: nat): nat {
    match k
    case 0 => 5
    case 1 => 2053
    case 2 => 901
    case _ => 132
  }

  /** A run of `n` whole 2 MB units. */
  lemma SmallSpread(v: nat, last: nat, n: nat)
    requires v % 512 == 0 && 0 < n <= 1024 && last + 1 == v + 512 * n
    ensures v <= last && Spread(0, v, last) <= n + (n - 1) / 512 + 4
  {
    hide Up;
    var a := v / 512;
    UnitQuotients(v, last, n);
    UpThrice(v);
    UpThrice(last);
    SpreadQuotient(a, a + n - 1, n);
    SpreadQuotient(a / 512, (a + n - 1) / 512, 3);
  }

  lemma UnitQuotients(v: nat, last: nat, n: nat)
    requires v % 512 == 0 && n > 0 && last + 1 == v + 512 * n
    ensures last / 512 == v / 512 + n - 1
  {
    assert v == 512 * (v / 512) && last == 512 * (v / 512 + n - 1) + 511;
  }

  lemma UpThrice(u: nat)
    ensures Up(u, 1) == u / 512 && Up(u, 2) == u / 512 / 512 && Up(u, 3) == u / 512 / 512 / 512
  {
    assert Up(u, 0) == u;
  }

  lemma SpreadQuotient(a: nat, b: nat, n: nat)
    requires 0 < n && a <= b < a + n
    ensures 0 <= b / 512 - a / 512 <= (n - 1) / 512 + 1
  {
  }

  lemma WindowSpread(l: Layout, k: nat)
    requires Roomy(l) && k < 4
    ensures var w := Plan(l)[k]; var g := Gran(CreateFor(w.perm));
            var u, last := Up(PageOfVa(w.va), g), Up(PageOfVa(w.va + w.len - 1), g);
            u <= last && Spread(g, u, last) <= WindowTables(k)
  {
    hide PageOfVa, Up, GetPtePerm, Spread, LowEnd;
    var w := Plan(l)[k];
    PlanAligned(l, k);
    WindowPage(w.va, w.len, 0);
    UpZero(PageOfVa(w.va));
    UpZero(PageOfVa(w.va + w.len - 1));
    if k == 0 {
      PoolSpread();
    } else if k == 1 {
      LowSpread();
    } else {
      HighPages(w.va, w.len);
      SmallSpread(w.va / 0x1000, (w.va + w.len) / 0x1000 - 1, w.len / LG);
    }
  }

  /** A window of whole 2 MB units. */
  lemma HighPages(va: nat, len: nat)
    requires va % LG == 0 && len % LG == 0 && len > 0
    ensures va / 0x1000 % 512 == 0 && (va + len) / 0x1000 == va / 0x1000 + 512 * (len / LG)
  {
    assert va == 512 * 0x1000 * (va / LG) && len == 512 * 0x1000 * (len / LG);
  }

  lemma LowSpread()
    ensures Spread(0, 0, 0xF_FFFF) == 2053
  {
    hide Up;
    UpThrice(0);
    UpThrice(0xF_FFFF);
  }

  lemma PoolSpread()
    ensures Up(0x20_0000, 1) == 0x1000 && Up(0x2F_FFFF, 1) == 0x17FF && Spread(1, 0x1000, 0x17FF) == 5
  {
    hide Up;
    UpThrice(0x20_0000);
    UpThrice(0x2F_FFFF);
    UpThrice(0x1000);
    UpThrice(0x17FF);
  }

  /** One of its calls. */
  method MapWindow(a: AddressSpace, root: nat, l: Layout, w: Window, ghost k: nat) returns (r: Ret)
    requires Roomy(l) && k < 4 && Mapped4(a.State(), l, root, k) && w == Plan(l)[k]
    modifies a, a.pool
    ensures r == OK || r == Code(ENOMEM)
    ensures r == OK ==> Mapped4(a.State(), l, root, k + 1)
    ensures Room(old(a.pool.State())) >= WindowTables(k) ==>
              r == OK && Room(a.pool.State()) >= Room(old(a.pool.State())) - WindowTables(k)
    ensures Tracked(old(a.State()), root, k) ==> Conserved(a.State()) && (r == OK ==> Tracked(a.State(), root, k + 1))
  {
    hide Leaf, PageOfVa, Identity, Plan, Mapped, Sent, Up, MapFits, Sound, GetPtePerm, Missing, Room, Spread, Tracked,
      Conserved, RangeConserves;
    ghost var s := a.State();
    PlanReady(s, l, root, k);
    PlanAligned(l, k);
    WindowSpread(l, k);
    ghost var g := Gran(CreateFor(w.perm));
    MissingBound(s.mem, root, g, Up(PageOfVa(w.va), g), Up(PageOfVa(w.va + w.len - 1), g));
    if Tracked(s, root, k) {
      TrackedReady(s, l, root, k);
      TrackedConserved(s, root, k);
    }
    r := VmMapPhys(a, root, w.va, w.len, w.pa, w.perm);
    if r == OK {
      PlanStep(s, a.State(), l, root, k);
      if Tracked(s, root, k) {
        TrackedStep(s, a.State(), l, root, k);
      }
    }
  }

  lemma SmallFrames(s: Vm, root: nat)
    requires forall v :: IsPage(v) ==> Leaf(Guest, s.mem, root, v) == (0, ZERO)
    ensures forall v :: IsPage(v) ==> !PoolFrame(s.pool, Leaf(Guest, s.mem, root, v).1.frame)
  {
    hide Leaf;
  }

  /** The addresses of the process that the guest sees: the low 4 GB, 1.75 GB of mappings
      and 256 MB of stack. */
  predicate OfProcess(l: Layout, x: nat) {
    x < 0x1_0000_0000 || l.mapStart <= x < l.mapStart + 0x7000_0000 || l.stackStart <= x < l.stackStart + 0x1000_0000
  }

  /** The 4 GB from PAGEBASE on, where libdune keeps its pages. */
  predicate OfPool(x: nat) {
    0x2_0000_0000 <= x < 0x3_0000_0000
  }

  /** The processor lets the guest kernel write at address `x`; and user code also, and
      execute, as the booleans say. */
  predicate Writable(s: Vm, root: nat, x: nat, user: bool, exec: bool) {
    var a := HardwareWalk(s.mem, root, TOP, PageOfVa(x), true, true, false);
    a.Some? && a.value.writable && a.value.user == user && a.value.noExec == !exec
  }

  lemma PlanGrants(s: Vm, l: Layout, root: nat, x: nat)
    requires Roomy(l) && Mapped4(s, l, root, 4)
    ensures OfProcess(l, x) ==> Identity(s, l, root, x) && Writable(s, root, x, true, true)
    ensures OfPool(x) ==> Identity(s, l, root, x) && Writable(s, root, x, false, false)
  {
    hide Leaf, PageOfVa, Identity, HardwareWalk, GetPtePerm, Sound;
    SoundIsTree(s);
    AddressPage(x);
    if OfPool(x) {
      assert InWindow(Plan(l)[0], x);
      LeafGrants(s, root, PageOfVa(x), POOL_PERM);
    } else if OfProcess(l, x) {
      var j := if x < 0x1_0000_0000 then 1 else if l.mapStart <= x < l.mapStart + 0x7000_0000 then 2 else 3;
      assert InWindow(Plan(l)[j], x);
      LeafGrants(s, root, PageOfVa(x), FULL_PERM);
    }
  }

  /** Nothing else is mapped. */
  lemma PlanOnly(s: Vm, l: Layout, root: nat, v: nat)
    requires Roomy(l) && Mapped4(s, l, root, 4) && IsPage(v) && !OfProcess(l, v * 0x1000) && !OfPool(v * 0x1000)
    ensures Translate(Guest, s.mem, root, v).None?
  {
    hide Leaf, Identity, Sound, Permitted;
    PageRange(v);
    assert PageOfVa(v * 0x1000) == v;
    forall k | 0 <= k < 4
      ensures !WindowHas(Plan(l)[k], v)
    {
      PlanAligned(l, k);
      WindowPage(Plan(l)[k].va, Plan(l)[k].len, v * 0x1000);
      assert !InWindow(Plan(l)[k], v * 0x1000);
    }
  }

  /** __setup_mappings_full, up to the pages it then redirects: every address of
      every window comes back to itself through both stages; it fails only if the
      pool cannot give the tables; and it keeps the reference counts right. */
  method SetupMappingsFull(a: AddressSpace, root: nat, l: Layout) returns (r: Ret)
    requires Roomy(l) && Sound(a.State()) && IsRoot(a.own, root)
    requires forall v :: IsPage(v) ==> Leaf(Guest, a.mem, root, v) == (0, ZERO)
    modifies a, a.pool
    ensures r == OK ==> forall x :: OfProcess(l, x) ==>
              Identity(a.State(), l, root, x) && Writable(a.State(), root, x, true, true)
    ensures r == OK ==> forall x :: OfPool(x) ==>
              Identity(a.State(), l, root, x) && Writable(a.State(), root, x, false, false)
    ensures r == OK ==> forall v: nat :: IsPage(v) && !OfProcess(l, v * 0x1000) && !OfPool(v * 0x1000) ==>
              Translate(Guest, a.mem, root, v).None?
    ensures r == OK || r == Code(ENOMEM)
    ensures r == OK ==> Mapped4(a.State(), l, root, 4)
    ensures Room(old(a.pool.State())) >= 3091 ==>
              r == OK && Room(a.pool.State()) >= Room(old(a.pool.State())) - 3091
    ensures Conserved(old(a.State())) && old(a.State()).pool.cap <= 0x10_0000
            && NoTables(old(a.own), root, 1, 0x1000, 0x17FF)
            ==> Conserved(a.State())
  {
    hide Leaf, PageOfVa, Identity, Sound, Room, Conserved, NoTables, WindowHas, Writable, OfProcess, OfPool, Translate;
    SmallFrames(a.State(), root);
    r := MapWindow(a, root, l, Window(PAGEBASE, POOL_SPAN, DuneVaToPa(l, PAGEBASE), POOL_PERM), 0);
    if r != OK {
      return;
    }
    r := MapWindow(a, root, l, Window(0, LOW_SPAN, 0, FULL_PERM), 1);
    if r != OK {
      return;
    }
    r := MapWindow(a, root, l, Window(l.mapStart, GPA_MAP_SIZE, LowEnd(l), FULL_PERM), 2);
    if r != OK {
      return;
    }
    r := MapWindow(a, root, l, Window(l.stackStart, GPA_STACK_SIZE, l.physEnd - GPA_STACK_SIZE, FULL_PERM), 3);
    if r == OK {
      forall x: nat
        ensures OfProcess(l, x) ==> Identity(a.State(), l, root, x) && Writable(a.State(), root, x, true, true)
        ensures OfPool(x) ==> Identity(a.State(), l, root, x) && Writable(a.State(), root, x, false, false)
      {
        PlanGrants(a.State(), l, root, x);
      }
      forall v: nat | IsPage(v) && !OfProcess(l, v * 0x1000) && !OfPool(v * 0x1000)
        ensures Translate(Guest, a.mem, root, v).None?
      {
        PlanOnly(a.State(), l, root, v);
      }
    }
  }

  /** Both stages together: where an address is its own image, and the EPT agrees with
      the process page table, the guest sees at the address the very frame that the
      process has there. */
  lemma GuestSeesProcess(s: Vm, l: Layout, root: nat, x: nat, shadow: EptTables.Shadow, host: EptRuns.Host)
    requires Roomy(l) && Identity(s, l, root, x)
    requires var (level, w) := Leaf(Guest, s.mem, root, PageOfVa(x));
             var page := PageOfVa(PhysicalAddress(level, w, x));
             EptRuns.AgreesAt(shadow, l, host, page) && Translate(Ept, shadow.mem, shadow.root, page).Some?
    ensures var (level, w) := Leaf(Guest, s.mem, root, PageOfVa(x));
            var (ept, e) := Translate(Ept, shadow.mem, shadow.root, PageOfVa(PhysicalAddress(level, w, x))).value;
            && ept == 0 && x / PAGE_SIZE in host && e.frame == host[x / PAGE_SIZE].frame
  {
    hide Leaf, Translate, PhysicalAddress, GpaToHva, EptRuns.Behind, PageOfVa;
    var (level, w) := Leaf(Guest, s.mem, root, PageOfVa(x));
    var gpa := PhysicalAddress(level, w, x);
    AddressPage(gpa);
    EptRuns.BehindFault(l, gpa);
  }
}
