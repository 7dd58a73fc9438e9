/** What walks over ranges do to translations: dune_vm_map_phys,
    dune_vm_mprotect and dune_vm_unmap. */
module WalkTheorems {
  import opened Radix
  import opened Callbacks
  import opened GuestVm
  import opened VmInvariants
  import opened WalkRanges
  import opened Addresses

  // ----- dune_vm_map_phys -----

  /** The entry map_phys stores in the slot of unit `u`. */
  function MapWord(job: Job, u: nat): Word
    requires job.cb.MapPhys?
  {
    Word(FrameOfPa(SlotVa(job, Gran(job.create), u) - job.cb.vaBase + job.cb.paBase), job.cb.perm)
  }

  /** A creating walk over the whole range meets no entry that covers more than one
      of its units. */
  ghost predicate Creates(s: Vm, root: nat, job: Job, u: nat, last: nat) {
    && job.create != CreateNone && RangeFits(s, root, root, TOP, job, u, last)
    && forall v :: IsPage(v) && u <= Up(v, Gran(job.create)) <= last
         ==> Leaf(Guest, s.mem, root, v).0 <= Gran(job.create)
  }

  ghost predicate MapFits(s: Vm, root: nat, job: Job, u: nat, last: nat) {
    job.cb.MapPhys? && Creates(s, root, job, u, last)
  }

  /** One visit of a mapping job: the unit is mapped, nothing else changes. */
  lemma MapVisit(s: Vm, root: nat, job: Job, u: nat, last: nat, r: nat, v: nat)
    requires MapFits(s, root, job, u, last) && u <= last && IsRoot(s.own, r) && IsPage(v)
    requires Visit(s, root, TOP, job, u).Went?
    ensures var step := Visit(s, root, TOP, job, u);
            && step.level == Gran(job.create)
            && Leaf(Guest, step.s.mem, r, v)
                 == if r == root && Up(v, Gran(job.create)) == u then Norm(Gran(job.create), MapWord(job, u))
                    else Leaf(Guest, s.mem, r, v)
  {
    hide Leaf, Reach, Visit, Locate, SlotVa, FrameOfPa, Up;
    var g := Gran(job.create);
    RangeVisit(s, root, root, TOP, job, u, last);
    VisitFinds(s, root, root, TOP, job, u);
    VisitLeaf(s, root, root, TOP, job, u, r, v);
    FoundLevel(s, root, job, u, last);
    VisitLevel(s, root, TOP, job, u);
    UpZero(u);
  }

  lemma UpZero(u: nat)
    ensures Up(u, 0) == u
  {
  }

  lemma VisitLevel(s: Vm, f: nat, L: nat, job: Job, u: nat)
    requires Gran(job.create) <= L && Visit(s, f, L, job, u).Went?
    ensures var r := Locate(s, f, L, Gran(job.create), u, job.create != CreateNone, false);
            (r.Found? || r.Absent?) && Visit(s, f, L, job, u).level == r.level
  {
    hide Locate, CallBack;
  }

  /** The slot found for a unit of a mapping job is the unit's own. */
  lemma FoundLevel(s: Vm, root: nat, job: Job, u: nat, last: nat)
    requires MapFits(s, root, job, u, last) && u <= last
    requires Visit(s, root, TOP, job, u).Went?
    ensures var r := Locate(s, root, TOP, Gran(job.create), u, true, false); r.Found? && r.level == Gran(job.create)
  {
    hide Leaf, Reach, Visit, Locate, Up;
    var g := Gran(job.create);
    RangeVisit(s, root, root, TOP, job, u, last);
    VisitFinds(s, root, root, TOP, job, u);
    VisitLevel(s, root, TOP, job, u);
    var r := Locate(s, root, TOP, g, u, true, false);
    var v := Lo(u, g);
    LoPage(u, g);
    if r.level > g {
      VisitAt(s, root, root, TOP, job, u);
      LocateLeaf(s, root, root, TOP, g, u, true, false, root, v);
      FoundLeaf(r.s, root, r.table, r.level, Up(u, r.level - g), v, g, u);
    }
  }

  lemma LoPage(u: nat, g: nat)
    requires g <= 4 && Up(u, 4 - g) == 0
    ensures IsPage(Lo(u, g)) && Up(Lo(u, g), g) == u
  {
    UpLo(u, Lo(u, g), g);
    UpLo(u + 1, Lo(u, g), g);
    LoStrict(u, g);
    UpAdd(Lo(u, g), g, 4 - g);
  }

  /** A big entry that a walk reaches decides the pages it covers. */
  lemma FoundLeaf(s: Vm, root: nat, t: nat, l: nat, p: nat, v: nat, g: nat, u: nat)
    requires Reach(Guest, s.mem, root, t, l, p) && g <= l < TOP && Big(Rd(s.mem, t, p % ENTRIES))
    requires p == Up(u, l - g) && Up(v, g) == u && l > 0
    ensures Leaf(Guest, s.mem, root, v) == (l, Rd(s.mem, t, p % ENTRIES))
  {
    hide Up;
    UpAdd(v, g, l - g);
    StopVia(Guest, s.mem, root, TOP, l, 0, v);
    StopStep(Guest, s.mem, t, l, 0, v);
    UpZero(p);
  }

  /** map_phys: over a range with no larger entry in it, every page of the range is
      decided by the entry for its unit, and no other page of any root changes. */
  lemma {:induction false} MapPhysMaps(s: Vm, root: nat, job: Job, u: nat, last: nat, r: nat, v: nat)
    requires MapFits(s, root, job, u, last) && IsRoot(s.own, r) && IsPage(v)
    requires Flat(s, root, TOP, job, u, last).Done?
    ensures var s1 := Flat(s, root, TOP, job, u, last).s;
            Leaf(Guest, s1.mem, r, v)
              == if r == root && u <= Up(v, Gran(job.create)) <= last
                 then Norm(Gran(job.create), MapWord(job, Up(v, Gran(job.create))))
                 else Leaf(Guest, s.mem, r, v)
    decreases last + 1 - u
  {
    hide Leaf, Reach, Visit, Up, MapWord, Fits;
    if u <= last {
      MapVisit(s, root, job, u, last, r, v);
      RangeNext(s, root, root, TOP, job, u, last);
      var s1 := Visit(s, root, TOP, job, u).s;
      forall x | IsPage(x) && u + 1 <= Up(x, Gran(job.create)) <= last
        ensures Leaf(Guest, s1.mem, root, x).0 <= Gran(job.create)
      {
        FitsRoot(s, root, job);
        MapVisit(s, root, job, u, last, root, x);
      }
      KeepsRoot(s, s1, job, r);
      MapPhysMaps(s1, root, job, u + 1, last, r, v);
    }
  }

  lemma FitsRoot(s: Vm, root: nat, job: Job)
    requires Fits(s, root, job)
    ensures IsRoot(s.own, root)
  {
  }

  lemma KeepsRoot(s: Vm, s1: Vm, job: Job, r: nat)
    requires Keeps(s, s1, Gran(job.create)) && IsRoot(s.own, r)
    ensures IsRoot(s1.own, r)
  {
  }

  /** The create argument dune_vm_map_phys derives from its permissions. */
  function CreateFor(perm: set<nat>): Create {
    if PERM_BIG in perm then CreateBig else if PERM_BIG_1GB in perm then CreateBig1GB else CreateNormal
  }

  function MapPhysJob(va: nat, pa: nat, perm: set<nat>): Job {
    Job(CreateFor(perm), MapPhys(GetPtePerm(perm), va, pa), High(va))
  }

  /** The physical address that an entry of level `l` gives for address `x`. */
  function PhysicalAddress(l: nat, w: Word, x: nat): nat {
    w.frame * 0x1000 + x % Span(l)
  }

  /** dune_vm_map_phys over an aligned range sends address `x` to `pa + (x - va)`
      with exactly the entry bits of the permissions asked for. */
  lemma MapPhysSends(s: Vm, root: nat, va: nat, len: nat, pa: nat, perm: set<nat>, x: nat)
    requires var job := MapPhysJob(va, pa, perm); var g := Gran(job.create);
             && 0 < len && va % Span(g) == 0 && len % Span(g) == 0 && pa % Span(g) == 0
             && High(va) == High(va + len - 1) && pa + len <= 0x10_0000_0000_0000
             && MapFits(s, root, job, Up(PageOfVa(va), g), Up(PageOfVa(va + len - 1), g))
             && Flat(s, root, TOP, job, Up(PageOfVa(va), g), Up(PageOfVa(va + len - 1), g)).Done?
    requires va <= x < va + len
    ensures var job := MapPhysJob(va, pa, perm); var g := Gran(job.create);
            var s1 := Flat(s, root, TOP, job, Up(PageOfVa(va), g), Up(PageOfVa(va + len - 1), g)).s;
            var (l, w) := Leaf(Guest, s1.mem, root, PageOfVa(x));
            l == g && w.bits == GetPtePerm(perm) && PhysicalAddress(l, w, x) == pa + (x - va)
  {
    hide Leaf, Reach, Flat, RangeFits, GetPtePerm, Up;
    var job := MapPhysJob(va, pa, perm);
    var g := Gran(job.create);
    var v := PageOfVa(x);
    HighBits(x);
    HighBits(va);
    HighBits(va + len - 1);
    HighBetween(va, x, va + len - 1);
    PageMonotone(va, x);
    PageMonotone(x, va + len - 1);
    UpMonotone(PageOfVa(va), v, g);
    UpMonotone(v, PageOfVa(va + len - 1), g);
    MapFitsRoot(s, root, job, Up(PageOfVa(va), g), Up(PageOfVa(va + len - 1), g));
    MapPhysMaps(s, root, job, Up(PageOfVa(va), g), Up(PageOfVa(va + len - 1), g), root, v);
    BigBit(perm);
    SlotAddress(x, va, pa, len, g);
  }

  /** The processor lets an access to a page through exactly as `perm` says: not at
      all without PERM_R, and else by PERM_W, PERM_U and PERM_X. */
  predicate Grants(mem: Mem, root: nat, v: nat, perm: set<nat>) {
    var a := HardwareWalk(mem, root, TOP, v, true, true, false);
    if PERM_R in perm
    then
      && a.Some? && a.value.writable == (PERM_W in perm) && a.value.user == (PERM_U in perm)
      && a.value.noExec == (PERM_X !in perm)
    else a.None?
  }

  /** An entry with the bits of get_pte_perm grants what was asked for. */
  lemma LeafGrants(s: Vm, root: nat, v: nat, perm: set<nat>)
    requires Tree(Guest, s.mem, s.own) && IsRoot(s.own, root) && IsPage(v)
    requires var (l, w) := Leaf(Guest, s.mem, root, v);
             w.bits == GetPtePerm(perm) || w.bits == GetPtePerm(perm) + {PTE_PS}
    ensures Grants(s.mem, root, v, perm)
  {
    hide Stop, HardwareWalk;
    RootAt(s.own, root, 0, v);
    HardwareAgrees(s.mem, s.own, root, root, TOP, v);
    PermBits(perm);
  }

  /** What the processor makes of a page with a present 4 KB entry: it goes by that entry
      alone, by its bits 1, 2 and 63. */
  lemma SmallAccess(s: Vm, root: nat, v: nat)
    requires Tree(Guest, s.mem, s.own) && IsRoot(s.own, root) && IsPage(v)
    requires Leaf(Guest, s.mem, root, v).0 == 0 && 0 in Leaf(Guest, s.mem, root, v).1.bits
    ensures var w := Leaf(Guest, s.mem, root, v).1;
            HardwareWalk(s.mem, root, TOP, v, true, true, false)
            == Some(Access(0, w, 1 in w.bits, 2 in w.bits, 63 in w.bits))
  {
    hide Stop, HardwareWalk;
    RootAt(s.own, root, 0, v);
    HardwareAgrees(s.mem, s.own, root, root, TOP, v);
  }

  /** When a bit is in an entry that get_pte_perm makes. */
  lemma PermBit(perm: set<nat>, bit: nat)
    ensures bit in GetPtePerm(perm)
            <==> || (bit == PTE_P && PERM_R in perm) || (bit == PTE_W && PERM_W in perm)
                 || (bit == PTE_NX && PERM_X !in perm) || (bit == PTE_U && PERM_U in perm)
                 || (bit == PTE_PCD && PERM_UC in perm) || (bit == PTE_COW && PERM_COW in perm)
                 || (bit == PTE_USR1 && PERM_USR1 in perm) || (bit == PTE_USR2 && PERM_USR2 in perm)
                 || (bit == PTE_USR3 && (PERM_USR1 in perm || PERM_USR2 in perm))
                 || (bit == PTE_PS && (PERM_BIG in perm || PERM_BIG_1GB in perm))
  {
  }

  /** Each permission sets its own bit, except that PERM_USR3 is both other user
      permissions together, so that either of them sets its bit too. */
  lemma PermBits(perm: set<nat>)
    ensures var bits := GetPtePerm(perm);
            && (PTE_P in bits <==> PERM_R in perm) && (PTE_W in bits <==> PERM_W in perm)
            && (PTE_U in bits <==> PERM_U in perm) && (PTE_NX in bits <==> PERM_X !in perm)
            && (PTE_PCD in bits <==> PERM_UC in perm) && (PTE_COW in bits <==> PERM_COW in perm)
            && (PTE_USR1 in bits <==> PERM_USR1 in perm) && (PTE_USR2 in bits <==> PERM_USR2 in perm)
            && (PTE_USR3 in bits <==> PTE_USR1 in bits || PTE_USR2 in bits)
  {
    hide GetPtePerm;
    PermBit(perm, PTE_P);
    PermBit(perm, PTE_W);
    PermBit(perm, PTE_U);
    PermBit(perm, PTE_NX);
    PermBit(perm, PTE_PCD);
    PermBit(perm, PTE_COW);
    PermBit(perm, PTE_USR1);
    PermBit(perm, PTE_USR2);
    PermBit(perm, PTE_USR3);
  }

  lemma MapFitsRoot(s: Vm, root: nat, job: Job, u: nat, last: nat)
    requires MapFits(s, root, job, u, last)
    ensures IsRoot(s.own, root)
  {
  }

  lemma BigBit(perm: set<nat>)
    ensures PTE_PS in GetPtePerm(perm) <==> Gran(CreateFor(perm)) > 0
  {
    hide GetPtePerm;
    PermBit(perm, PTE_PS);
  }

  lemma HighBetween(a: nat, x: nat, b: nat)
    requires a <= x <= b && High(a) == High(b)
    ensures High(x) == High(a)
  {
  }

  lemma PageMonotone(a: nat, b: nat)
    requires a <= b && High(a) == High(b)
    ensures PageOfVa(a) <= PageOfVa(b)
  {
  }

  /** The slot of `x` starts `x % Span(g)` bytes before `x`. */
  lemma SlotAddress(x: nat, va: nat, pa: nat, len: nat, g: nat)
    requires g <= 2 && va % Span(g) == 0 && pa % Span(g) == 0 && High(x) == High(va)
    requires va <= x < va + len && pa + len <= 0x10_0000_0000_0000
    ensures var slot := High(va) + Lo(Up(PageOfVa(x), g), g) * 0x1000;
            FrameOfPa(slot - va + pa) * 0x1000 + x % Span(g) == pa + (x - va)
  {
    hide Up, Lo, High, Span, FrameOfPa, PageOfVa;
    SlotStart(x, g);
    var d: nat := x - x % Span(g);
    PageAligned(d, g);
    PageAligned(va, g);
    PageAligned(pa, g);
    SpanFloor(va, x, g);
    SumAligned(d, va, pa);
    Frame(d - va + pa);
  }

  lemma SumAligned(d: nat, va: nat, pa: nat)
    requires d % 0x1000 == 0 && va % 0x1000 == 0 && pa % 0x1000 == 0
    ensures (d - va + pa) % 0x1000 == 0
  {
  }

  lemma Frame(a: int)
    requires 0 <= a < 0x10_0000_0000_0000 && a % 0x1000 == 0
    ensures FrameOfPa(a) * 0x1000 == a
  {
  }

  lemma SlotStart(x: nat, g: nat)
    requires g <= 2
    ensures High(x) + Lo(Up(PageOfVa(x), g), g) * 0x1000 == x - x % Span(g)
    ensures (x - x % Span(g)) % Span(g) == 0
  {
    hide Up, Lo, PageOfVa, High;
    if g == 0 {
      SmallStart(x);
      UpZero(PageOfVa(x));
      LoZero(PageOfVa(x));
    } else {
      BaseIsPrefix(g - 1, x);
    }
    FloorAligned(x, g);
  }

  lemma SmallStart(x: nat)
    ensures High(x) + PageOfVa(x) * 0x1000 == x - x % 0x1000
  {
    Quotients(x / TWO48, x % TWO48);
    assert x - x % 0x1000 == x / 0x1000 * 0x1000;
  }

  lemma FloorAligned(x: nat, g: nat)
    requires g <= 2
    ensures x >= x % Span(g) && (x - x % Span(g)) % Span(g) == 0
  {
    if g == 0 {
      Floor4K(x);
    } else if g == 1 {
      Floor2M(x);
    } else {
      Floor1G(x);
    }
  }

  lemma Floor4K(x: nat)
    ensures (x - x % 0x1000) % 0x1000 == 0
  {
    assert x - x % 0x1000 == x / 0x1000 * 0x1000;
  }

  lemma Floor2M(x: nat)
    ensures (x - x % 0x20_0000) % 0x20_0000 == 0
  {
    assert x - x % 0x20_0000 == x / 0x20_0000 * 0x20_0000;
  }

  lemma Floor1G(x: nat)
    ensures (x - x % 0x4000_0000) % 0x4000_0000 == 0
  {
    assert x - x % 0x4000_0000 == x / 0x4000_0000 * 0x4000_0000;
  }

  lemma PageAligned(d: nat, g: nat)
    requires g <= 2 && d % Span(g) == 0
    ensures d % 0x1000 == 0
  {
    if g == 1 {
      assert d == d / 0x20_0000 * 512 * 0x1000;
    } else if g == 2 {
      assert d == d / 0x4000_0000 * 0x4_0000 * 0x1000;
    }
  }

  lemma SpanFloor(va: nat, x: nat, g: nat)
    requires g <= 2 && va % Span(g) == 0 && va <= x
    ensures va <= x - x % Span(g)
  {
    if g == 0 {
    } else if g == 1 {
    } else {
    }
  }
}
