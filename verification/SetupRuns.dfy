/** The set-up of a whole process from its start, and a clone of it. */
module SetupRuns {
  import opened Radix
  import opened PagePool
  import opened Callbacks
  import opened GuestVm
  import opened VmInvariants
  import opened WalkTheorems
  import opened WalkRoom
  import opened CloneTheorems
  import opened CloneRoom
  import opened GuestWalker
  import opened GuestCalls
  import opened Windows
  import opened Conservation
  import opened PoolRuns
  import opened TwoStage
  import VmRuns

  /** A new process meets what the set-up needs. */
  lemma NewProcessReady(m: Vm, root: nat)
    requires VmRuns.NewProcess(m, root)
    ensures Conserved(m) && Sound(m) && IsRoot(m.own, root) && NoTables(m.own, root, 1, 0x1000, 0x17FF)
    ensures forall v :: IsPage(v) ==> Leaf(Guest, m.mem, root, v) == (0, ZERO)
  {
    hide Conserved, Leaf, VmRuns.NewProcess;
    VmRuns.NewProcessConserved(m, root);
    ConservedSound(m);
    NewProcessEmpty(m, root);
  }

  lemma NewProcessEmpty(m: Vm, root: nat)
    requires VmRuns.NewProcess(m, root)
    ensures IsRoot(m.own, root) && NoTables(m.own, root, 1, 0x1000, 0x17FF)
    ensures forall v :: IsPage(v) ==> Leaf(Guest, m.mem, root, v) == (0, ZERO)
  {
    hide FreeOk;
    forall v | IsPage(v)
      ensures Leaf(Guest, m.mem, root, v) == (0, ZERO)
    {
      assert Rd(m.mem, root, Up(v, TOP) % ENTRIES) == ZERO;
    }
  }

  // ----- the tables of a clone -----

  /** The level-`m` entries over window `k`. */
  ghost function Over(l: Layout, k: nat, m: nat): set<nat>
    requires Roomy(l) && k < 4
  {
    var w := Plan(l)[k]; Range(Up(PageOfVa(w.va), m), Up(PageOfVa(w.va + w.len - 1), m))
  }

  function Range(a: nat, b: nat): set<nat> {
    set q: nat | q <= b && AtLeast(q, a)
  }

  predicate AtLeast(q: nat, a: nat) {
    a <= q
  }

  lemma {:induction false} RangeCard(a: nat, b: nat)
    requires a <= b + 1
    ensures |Range(a, b)| == b + 1 - a
    decreases b + 1 - a
  {
    if a <= b {
      RangeCard(a + 1, b);
      assert Range(a, b) == Range(a + 1, b) + {a};
    } else {
      assert Range(a, b) == {};
    }
  }

  /** The pages of window `k`, and how many entries lie over them. */
  lemma OverBound(l: Layout, k: nat)
    requires Roomy(l) && k < 4
    ensures |Over(l, k, 1)| + |Over(l, k, 2)| + |Over(l, k, 3)| <= CloneWindow(k)
  {
    hide PageOfVa, Up, LowEnd, Range;
    var w := Plan(l)[k];
    PlanAligned(l, k);
    WindowPage(w.va, w.len, 0);
    var u, last := PageOfVa(w.va), PageOfVa(w.va + w.len - 1);
    UpMonotone(u, last, 1);
    UpMonotone(u, last, 2);
    UpMonotone(u, last, 3);
    RangeCard(Up(u, 1), Up(last, 1));
    RangeCard(Up(u, 2), Up(last, 2));
    RangeCard(Up(u, 3), Up(last, 3));
    if k == 0 {
      PoolOver();
    } else if k == 1 {
      LowSpread();
    } else {
      HighPages(w.va, w.len);
      SmallSpread(w.va / 0x1000, (w.va + w.len) / 0x1000 - 1, w.len / LG);
    }
  }

  lemma PoolOver()
    ensures Spread(0, 0x20_0000, 0x2F_FFFF) == 2053
  {
    hide Up;
    UpThrice(0x20_0000);
    UpThrice(0x2F_FFFF);
  }

  /** At most so many tables of a clone lie over window `k`, */
  function CloneWindow(k: nat): nat {
    match k
    case 0 => 2053
    case 1 => 2053
    case 2 => 901
    case _ => 132
  }

  /** and so many with its root. */
  const CLONE_TABLES := 5140

  lemma SpannedOver(s: Vm, l: Layout, root: nat, m: nat)
    requires Roomy(l) && Mapped4(s, l, root, 4)
    ensures |Spanned(s.mem, root, m)| <= |Over(l, 0, m)| + |Over(l, 1, m)| + |Over(l, 2, m)| + |Over(l, 3, m)|
  {
    hide Leaf, Up, Sound, Identity, Over, Cloned, InPlan;
    var all := Over(l, 0, m) + Over(l, 1, m) + Over(l, 2, m) + Over(l, 3, m);
    forall q | q in Spanned(s.mem, root, m)
      ensures q in all
    {
      var v :| IsPage(v) && Cloned(s.mem, root, v) && Up(v, m) == q;
      ClonedPlan(s, l, root, v);
      InPlanOver(l, v, m);
    }
    SubsetCard(Spanned(s.mem, root, m), all);
  }

  lemma ClonedPlan(s: Vm, l: Layout, root: nat, v: nat)
    requires Roomy(l) && Mapped4(s, l, root, 4) && IsPage(v) && Cloned(s.mem, root, v)
    ensures InPlan(l, 4, v)
  {
    hide Leaf, Sound, Identity, InPlan;
  }

  lemma InPlanOver(l: Layout, v: nat, m: nat)
    requires Roomy(l) && InPlan(l, 4, v)
    ensures Up(v, m) in Over(l, 0, m) + Over(l, 1, m) + Over(l, 2, m) + Over(l, 3, m)
  {
    hide Up, PageOfVa, LowEnd;
    var k :| 0 <= k < 4 && WindowHas(Plan(l)[k], v);
    UpMonotone(PageOfVa(Plan(l)[k].va), v, m);
    UpMonotone(v, PageOfVa(Plan(l)[k].va + Plan(l)[k].len - 1), m);
    assert Up(v, m) in Over(l, k, m);
  }

  lemma {:induction false} SubsetCard(a: set<nat>, b: set<nat>)
    requires a <= b
    ensures |a| <= |b|
  {
    if a != {} {
      var x :| x in a;
      SubsetCard(a - {x}, b - {x});
    }
  }

  lemma CloneBound(s: Vm, l: Layout, root: nat)
    requires Roomy(l) && Mapped4(s, l, root, 4)
    ensures CloneTables(s.mem, root) <= CLONE_TABLES
  {
    hide Mapped4, Over, Spanned;
    SpannedOver(s, l, root, 1);
    SpannedOver(s, l, root, 2);
    SpannedOver(s, l, root, 3);
    OverBound(l, 0);
    OverBound(l, 1);
    OverBound(l, 2);
    OverBound(l, 3);
  }

  // ----- set-up, then clone -----

  /** A page of the pool's window is present under the root. */
  lemma PoolPresent(s: Vm, l: Layout, root: nat, v: nat)
    requires Roomy(l) && Mapped4(s, l, root, 4) && PoolPage(v)
    ensures IsPage(v) && Translate(Guest, s.mem, root, v).Some? && Leaf(Guest, s.mem, root, v).0 == 1
  {
    hide Leaf, GpaToHva, PhysicalAddress;
    PageRange(v);
    assert InWindow(Plan(l)[0], v * 0x1000);
    assert PageOfVa(v * 0x1000) == v;
    assert Identity(s, l, root, v * 0x1000);
  }

  /** The entry of a page of the pool's window names the page itself. */
  lemma PoolEntry(s: Vm, l: Layout, root: nat, v: nat)
    requires Roomy(l) && Mapped4(s, l, root, 4) && PoolPage(v) && v % ENTRIES == 0
    ensures Leaf(Guest, s.mem, root, v).1.frame == v
  {
    hide Leaf;
    assert InWindow(Plan(l)[0], v * 0x1000);
    assert PageOfVa(v * 0x1000) == v;
    assert Identity(s, l, root, v * 0x1000);
    UnitStart(v);
  }

  lemma UnitStart(v: nat)
    requires v % ENTRIES == 0
    ensures v * 0x1000 % 0x20_0000 == 0
  {
    assert v * 0x1000 == v / ENTRIES * 0x20_0000;
  }

  /** A present 4 KB entry for a page that the pool does not have yet: its count is 0. */
  lemma StrayEntry(s: Vm, root: nat, v: nat)
    requires Sound(s) && IsRoot(s.own, root) && IsPage(v) && Translate(Guest, s.mem, root, v).Some?
    requires var (level, w) := Leaf(Guest, s.mem, root, v);
             level == 0 && PoolFrame(s.pool, w.frame) && !InPool(s.pool, w.frame)
    ensures !Conserved(s)
  {
    hide Stop, Tree, Apart, FreeOk, Clean, Linked, Names;
    RootAt(s.own, root, 0, v);
    StopAt(Guest, s.mem, s.own, root, root, TOP, 0, v);
    UpZero(v);
    var h := Stop(Guest, s.mem, root, TOP, 0, v);
    NamedSlot(s, h.table, v % ENTRIES);
  }

  lemma NamedSlot(s: Vm, t: nat, i: nat)
    requires t in s.own && s.own[t].level == 0 && i < ENTRIES
    ensures |Names(s.mem, s.own, Rd(s.mem, t, i).frame)| > 0
  {
    assert (t, i) in Names(s.mem, s.own, Rd(s.mem, t, i).frame);
  }

  /** The first page of the last 2 MB that the host can back. */
  function LastUnit(p: Pool): nat
    requires p.cap > 0
  {
    PAGEBASE_FRAME + (p.cap - 1) / ENTRIES * ENTRIES
  }

  lemma LastUnitPage(p: Pool)
    requires 0 < p.cap <= POOL_PAGES
    ensures PoolPage(LastUnit(p)) && LastUnit(p) % ENTRIES == 0 && PoolFrame(p, LastUnit(p))
  {
    assert LastUnit(p) == (PAGEBASE_FRAME / ENTRIES + (p.cap - 1) / ENTRIES) * ENTRIES;
  }

  /** The clone of a process as the set-up leaves it: with room for 8231 pages both
      calls succeed; the reference counts are right when the clone is made; and of the
      pool's direct map, which is made of 2 MB entries, the clone has exactly the first
      page of each. That is a 4 KB entry, for which no reference is taken if the pool does
      not reach that far yet: then the counts are no longer right. */
  method SetupThenClone(a: AddressSpace, root: nat, l: Layout) returns (r: Ret, newRoot: nat, ghost mid: Vm)
    requires Roomy(l) && VmRuns.NewProcess(a.State(), root) && a.State().pool.cap <= POOL_PAGES
    requires Room(a.pool.State()) >= 8231
    modifies a, a.pool
    ensures r == OK && Conserved(mid) && IsRoot(mid.own, root) && newRoot !in mid.own && IsRoot(a.own, newRoot)
    ensures forall v: nat :: PoolPage(v) ==>
              && Translate(Guest, a.mem, root, v).Some?
              && (Translate(Guest, a.mem, newRoot, v).Some? <==> v % ENTRIES == 0)
    ensures var p := a.State().pool; p.cap > 0 && !InPool(p, LastUnit(p)) ==> !Conserved(a.State())
  {
    hide Leaf, Sound, Conserved, Mapped4, Room, NoTables, VmRuns.NewProcess, FirstPage, Translate, Rooted,
      CloneTables, Roomy;
    NewProcessReady(a.State(), root);
    r := SetupMappingsFull(a, root, l);
    mid := a.State();
    ConservedSound(mid);
    MappedRoot(mid, l, root);
    CloneBound(mid, l, root);
    r, newRoot := VmClone(a, root);
    forall v: nat | PoolPage(v)
      ensures Translate(Guest, a.mem, root, v).Some?
      ensures Translate(Guest, a.mem, newRoot, v).Some? <==> v % ENTRIES == 0
    {
      PoolPresent(mid, l, root, v);
      SeenThrough(mid.mem, root, a.mem, root, newRoot, v);
    }
    ghost var p := a.State().pool;
    if 0 < p.cap <= POOL_PAGES && !InPool(p, LastUnit(p)) {
      var v := LastUnit(p);
      LastUnitPage(p);
      PoolPresent(mid, l, root, v);
      PoolEntry(mid, l, root, v);
      SeenThrough(mid.mem, root, a.mem, root, newRoot, v);
      StrayEntry(a.State(), newRoot, v);
    }
  }

  lemma MappedRoot(s: Vm, l: Layout, root: nat)
    requires Roomy(l) && Mapped4(s, l, root, 4)
    ensures IsRoot(s.own, root)
  {
  }

  /** What the leaves say of a pool page and its clone. */
  lemma SeenThrough(mem: Mem, root: nat, mem1: Mem, r: nat, c: nat, v: nat)
    requires Translate(Guest, mem, root, v).Some? && Leaf(Guest, mem, root, v).0 == 1
    requires Leaf(Guest, mem1, r, v) == Leaf(Guest, mem, root, v)
    requires Leaf(Guest, mem1, c, v) == if FirstPage(mem, root, v) then (0, Leaf(Guest, mem, root, v).1) else (0, ZERO)
    ensures v % ENTRIES == 0 ==> Leaf(Guest, mem1, c, v) == (0, Leaf(Guest, mem, root, v).1)
    ensures Translate(Guest, mem1, r, v).Some?
    ensures Translate(Guest, mem1, c, v).Some? <==> v % ENTRIES == 0
  {
    hide Leaf;
    assert Up(v, 0) == v && Lo(v / 512 * 512, 0) == v / 512 * 512;
    assert Lo(Up(v, 1), 1) == v / 512 * 512;
  }
}
