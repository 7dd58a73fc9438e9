/** Reference counting over whole walks, and over every run of the routines. */
module PoolRuns {
  import opened Radix
  import opened PagePool
  import opened Callbacks
  import opened GuestVm
  import opened VmInvariants
  import opened WalkRanges
  import opened WalkTheorems
  import opened WalkNone
  import opened CloneTheorems
  import opened Conservation

  /** What a walk over the units `u` to `last` must respect for the counts to stay
      right: map_phys stores no frame of the pool in a 4 KB entry, and no big entry over
      a table; map_phys and map_pages overwrite no entry that names a frame of the pool,
      unmap meets no big entry that names one, and clone meets no big entry and fills an
      empty table. */
  ghost predicate RangeConserves(s: Vm, root: nat, job: Job, u: nat, last: nat) {
    match job.cb
    case Mprotect(_) => true
    case MapPhys(_, vaBase, paBase) =>
      if Gran(job.create) > 0 then
        NoTables(s.own, root, Gran(job.create), u, last)
      else
        && job.create == CreateNormal
        && (forall v :: u <= v <= last ==> !PoolFrame(s.pool, Leaf(Guest, s.mem, root, v).1.frame))
        && (forall v :: u <= v <= last ==> !PoolFrame(s.pool, FrameOfPa(SlotVa(job, 0, v) - vaBase + paBase)))
    case MapPages(_) =>
      job.create == CreateNormal
      && (forall v :: u <= v <= last ==> !PoolFrame(s.pool, Leaf(Guest, s.mem, root, v).1.frame))
    case Free =>
      forall v {:trigger Leaf(Guest, s.mem, root, v)} :: IsPage(v) ==>
        var e := Leaf(Guest, s.mem, root, v);
        Touched(e.0, v, u, last) && e.0 > 0 ==> !PoolFrame(s.pool, e.1.frame)
    case Remap(copy) =>
      && (forall v :: u <= v <= last ==> !PoolFrame(s.pool, Leaf(Guest, s.mem, root, v).1.frame))
      && (forall k :: 0 <= k < |copy| ==> !PoolFrame(s.pool, copy[k]))
    case Recycle(_, _) => true
    case RecycleStack(_) => true
    case Clone(newRoot) =>
      && (forall v {:trigger Leaf(Guest, s.mem, root, v)} :: IsPage(v) ==>
            var e := Leaf(Guest, s.mem, root, v); Touched(e.0, v, u, last) ==> e.0 == 0)
      && (forall v :: u <= v <= last ==> Leaf(Guest, s.mem, newRoot, v).1 == ZERO)
  }

  /** No entry for the level-`g` units `u` to `last` links a table. */
  ghost predicate NoTables(own: Own, root: nat, g: nat, u: nat, last: nat) {
    forall c {:trigger own[c].prefix} :: c in own && own[c].root == root && own[c].level + 1 == g
      ==> !(u <= own[c].prefix <= last)
  }

  // ----- one visit -----

  /** A descent to level `g` makes no table below that level. */
  lemma {:induction false} LocateTables(s: Vm, root: nat, f: nat, L: nat, g: nat, u: nat, create: bool, strict: bool)
    requires Tree(Guest, s.mem, s.own) && (create ==> Sound(s)) && g <= L && Radix.At(s.own, f, root, L, g, u)
    ensures var own1 := Locate(s, f, L, g, u, create, strict).s.own;
            forall c :: c in own1 && own1[c].level < g ==> c in s.own && s.own[c] == own1[c]
    decreases L
  {
    hide Alloc, NewTable, Tree, Up, LinkMem, Sound;
    var i := Up(u, L - g) % ENTRIES;
    var w := Rd(s.mem, f, i);
    if L == g || (L < TOP && Big(w) && (PTE_P in w.bits || !strict)) {
    } else if PTE_P in w.bits {
      ChildAt(Guest, s.mem, s.own, root, f, L, g, u);
      LocateTables(s, root, w.frame, L - 1, g, u, create, strict);
    } else if create && NewTable(s, f, i).Some? {
      NewTableSound(s, f, i);
      var (s1, c) := NewTable(s, f, i).value;
      NewTableOwn(s, f, i);
      ChildAt(Guest, s1.mem, s1.own, root, f, L, g, u);
      LocateTables(s1, root, c, L - 1, g, u, create, strict);
    }
  }

  lemma NewTableOwn(s: Vm, f: nat, i: nat)
    requires i < ENTRIES && f in s.own && s.own[f].level > 0 && NewTable(s, f, i).Some?
    ensures var (s1, c) := NewTable(s, f, i).value;
            forall c' :: c' in s1.own && s1.own[c'].level < s.own[f].level - 1 ==>
              c' in s.own && s.own[c'] == s1.own[c']
  {
    hide Alloc;
  }

  /** What links a table at level `g` is the entry for that table's prefix. */
  lemma BigSlot(s: Vm, root: nat, t: nat, l: nat, job: Job, p: nat, g: nat, u: nat, last: nat)
    requires SlotFits(s, root, t, l, job, p) && Tree(Guest, s.mem, s.own) && IsRoot(s.own, root)
    requires g == Gran(job.create) && 0 < g && (l == g ==> u <= p <= last) && NoTables(s.own, root, g, u, last)
    ensures !IsLink(Guest, Rd(s.mem, t, p % ENTRIES), l)
  {
    hide Reach, Up;
    ReachAt(Guest, s.mem, s.own, root, t, l, p);
  }

  lemma FoundSmall(s: Vm, root: nat, t: nat, u: nat)
    requires Reach(Guest, s.mem, root, t, 0, u)
    ensures Leaf(Guest, s.mem, root, u) == (0, Rd(s.mem, t, u % ENTRIES))
  {
    UpZero(u);
  }

  /** The slot a visit finds meets the callback's condition. */
  lemma VisitSlot(s: Vm, root: nat, job: Job, u: nat, last: nat)
    requires RangeFits(s, root, root, TOP, job, u, last) && u <= last && RangeConserves(s, root, job, u, last)
    ensures var g := Gran(job.create); var r := Locate(s, root, TOP, g, u, job.create != CreateNone, false);
            r.Found? && r.s.pool.cap == s.pool.cap ==> SlotConserves(r.s, r.table, r.level, job, Up(u, r.level - g))
  {
    hide Reach, Leaf, Locate, Fits, Up, FrameOfPa, Lo;
    var g := Gran(job.create);
    RangeVisit(s, root, root, TOP, job, u, last);
    VisitFinds(s, root, root, TOP, job, u);
    VisitAt(s, root, root, TOP, job, u);
    UpZero(u);
    var r := Locate(s, root, TOP, g, u, job.create != CreateNone, false);
    if r.Found? {
      if g > 0 {
        BigFound(s, root, job, u, last);
      } else if job.create == CreateNone {
        NoneSlot(s, root, job, u, last);
      } else {
        FitsNormal(s, root, job);
        LocateLeaf(s, root, root, TOP, 0, u, true, false, root, u);
        FoundSmall(r.s, root, r.table, u);
      }
    }
  }

  lemma FitsNormal(s: Vm, root: nat, job: Job)
    requires Fits(s, root, job) && job.create == CreateNormal
    ensures Sound(s) && Tree(Guest, s.mem, s.own) && IsRoot(s.own, root) && (job.cb.MapPhys? || job.cb.MapPages?)
  {
  }

  lemma FitsBig(s: Vm, root: nat, job: Job)
    requires Fits(s, root, job) && Gran(job.create) > 0
    ensures Sound(s) && Tree(Guest, s.mem, s.own) && IsRoot(s.own, root) && job.cb.MapPhys?
  {
  }

  /** A descent of a big map_phys finds no link to overwrite. */
  lemma BigFound(s: Vm, root: nat, job: Job, u: nat, last: nat)
    requires RangeFits(s, root, root, TOP, job, u, last) && u <= last && RangeConserves(s, root, job, u, last)
    requires Gran(job.create) > 0
    ensures var g := Gran(job.create); var r := Locate(s, root, TOP, g, u, true, false);
            r.Found? ==> SlotConserves(r.s, r.table, r.level, job, Up(u, r.level - g))
  {
    hide Reach, Leaf, Locate, Fits, Up, FrameOfPa, Lo, Tree, Sound, IsLink;
    var g := Gran(job.create);
    FitsBig(s, root, job);
    RangeVisit(s, root, root, TOP, job, u, last);
    VisitFinds(s, root, root, TOP, job, u);
    VisitAt(s, root, root, TOP, job, u);
    UpZero(u);
    var r := Locate(s, root, TOP, g, u, true, false);
    if r.Found? {
      FitsBig(r.s, root, job);
      LocateTables(s, root, root, TOP, g, u, true, false);
      BigSlot(r.s, root, r.table, r.level, job, Up(u, r.level - g), g, u, last);
      BigLevel(r.s, root, r.table, r.level, job, Up(u, r.level - g));
    }
  }

  lemma BigLevel(s: Vm, root: nat, t: nat, l: nat, job: Job, p: nat)
    requires SlotFits(s, root, t, l, job, p)
    ensures l >= Gran(job.create)
  {
  }

  lemma NoneSlot(s: Vm, root: nat, job: Job, u: nat, last: nat)
    requires RangeFits(s, root, root, TOP, job, u, last) && u <= last && job.create == CreateNone
    requires RangeConserves(s, root, job, u, last)
    ensures var r := Locate(s, root, TOP, 0, u, false, false);
            r.Found? ==> SlotConserves(r.s, r.table, r.level, job, Up(u, r.level))
  {
    hide Reach, Locate, Stop, Up, FrameOfPa, Lo;
    RangeVisit(s, root, root, TOP, job, u, last);
    NonePlace(s, root, job, u);
    var r := Locate(s, root, TOP, 0, u, false, false);
    if r.Found? {
      UpMonotone(u, last, r.level);
      UpZero(u);
      assert Touched(r.level, u, u, last);
      assert Leaf(Guest, s.mem, root, u) == (r.level, Rd(s.mem, r.table, Up(u, r.level) % ENTRIES));
      LoZero(u);
    }
  }

  // ----- cloning an entry -----

  /** dune_page_get on the page of a 4 KB entry, as a second entry for it is made. */
  lemma GetConserves(s: Vm, s1: Vm, t: nat, i: nat, t1: nat, i1: nat)
    requires Conserved(s) && t in s.own && s.own[t].level == 0 && i < ENTRIES
    requires var w := Rd(s.mem, t, i);
             && SmallWrite(s, s1, t1, i1, w) && Rd(s.mem, t1, i1) == ZERO
             && s1.pool == if InPool(s.pool, w.frame) then Get(s.pool, PageOf(s.pool, w.frame)) else s.pool
    ensures Conserved(s1)
  {
    hide Tree, Count, Linked, Clean;
    var w := Rd(s.mem, t, i);
    PoolFrames(s);
    if PoolFrame(s.pool, w.frame) {
      NamedInUse(s, t, i);
      GetOk(s.pool, PageOf(s.pool, w.frame));
      GetApart(s, PageOf(s.pool, w.frame));
    }
    WriteConserves(s, s1, t1, i1, w);
  }

  lemma GetApart(s: Vm, k: nat)
    requires Apart(s.own, s.pool) && k < |s.pool.refs|
    ensures Apart(s.own, Get(s.pool, k))
  {
  }

  lemma LocateCap(s: Vm, f: nat, L: nat, g: nat, u: nat, create: bool, strict: bool)
    requires g <= L
    ensures Locate(s, f, L, g, u, create, strict).s.pool.cap == s.pool.cap
    decreases L
  {
    hide Alloc;
    AllocCap(s.pool);
  }

  lemma CloneConserves(s: Vm, root: nat, t: nat, job: Job, p: nat)
    requires Conserved(s) && Fits(s, root, job) && SlotFits(s, root, t, 0, job, p) && job.cb.Clone?
    requires SlotConserves(s, t, 0, job, p) && !Skips(s, t, 0, job, p)
    ensures match Touch(s, t, 0, job, p)
            case Went(s1, _) => Conserved(s1)
            case Stopped(o) => o.Crash?
  {
    hide Conserved, Alloc, Reach, Locate, PageOfVa, Leaf;
    var s0 := s.(log := s.log + [Slot(0, p)]);
    LogConserves(s, s0.log);
    LoZero(p);
    PageOfSlotVa(job, 0, p);
    var newRoot := job.cb.newRoot;
    RootAt(s0.own, newRoot, 0, p);
    LocateConserves(s0, newRoot, newRoot, TOP, 0, p, true, true);
    LocateCap(s0, newRoot, TOP, 0, p, true, true);
    CloneTarget(s0, newRoot, p);
    var q := Locate(s0, newRoot, TOP, 0, p, true, true);
    if q.Found? {
      ReachAt(Guest, s.mem, s.own, root, t, 0, p);
      LocateOther(s0, newRoot, newRoot, TOP, 0, p, true, true, t, p % ENTRIES);
      LocateLeaf(s0, newRoot, newRoot, TOP, 0, p, true, true, newRoot, p);
      FoundSmall(q.s, newRoot, q.table, p);
      UpZero(p);
      GetConserves(q.s, Touch(s, t, 0, job, p).s, t, p % ENTRIES, q.table, p % ENTRIES);
    }
  }

  // ----- whole walks -----

  lemma VisitConserves(s: Vm, root: nat, job: Job, u: nat, last: nat)
    requires Conserved(s) && RangeFits(s, root, root, TOP, job, u, last) && u <= last
    requires RangeConserves(s, root, job, u, last)
    ensures match Visit(s, root, TOP, job, u)
            case Went(s1, _) => Conserved(s1)
            case Stopped(o) => o.Crash? || (o.Fail? && Conserved(o.s))
  {
    hide Conserved, Alloc, Reach, Locate, Touch, Fits, RangeConserves, SlotConserves;
    RangeVisit(s, root, root, TOP, job, u, last);
    VisitFinds(s, root, root, TOP, job, u);
    VisitAt(s, root, root, TOP, job, u);
    var g := Gran(job.create);
    LocateConserves(s, root, root, TOP, g, u, job.create != CreateNone, false);
    LocateCap(s, root, TOP, g, u, job.create != CreateNone, false);
    VisitSlot(s, root, job, u, last);
    var r := Locate(s, root, TOP, g, u, job.create != CreateNone, false);
    if r.Found? {
      if !job.cb.Clone? {
        TouchConserves(r.s, root, r.table, r.level, job, Up(u, r.level - g));
      } else {
        CloneSmall(s, root, job);
        SmallSlot(r.s, r.table, r.level, job, Up(u, r.level));
        if !Skips(r.s, r.table, 0, job, Up(u, r.level)) {
          CloneConserves(r.s, root, r.table, job, Up(u, r.level));
        } else {
          TouchSkips(r.s, r.table, job, Up(u, r.level));
        }
      }
    }
  }

  lemma CloneSmall(s: Vm, root: nat, job: Job)
    requires Fits(s, root, job) && job.cb.Clone?
    ensures Gran(job.create) == 0
  {
  }

  lemma SmallSlot(s: Vm, t: nat, l: nat, job: Job, p: nat)
    requires SlotConserves(s, t, l, job, p) && job.cb.Clone?
    ensures l == 0
  {
  }

  lemma TouchSkips(s: Vm, t: nat, job: Job, p: nat)
    requires Skips(s, t, 0, job, p)
    ensures Touch(s, t, 0, job, p) == Went(s, 0)
  {
  }

  lemma VisitCap(s: Vm, f: nat, L: nat, job: Job, u: nat)
    requires Gran(job.create) <= L
    ensures match Visit(s, f, L, job, u)
            case Went(s1, _) => s1.pool.cap == s.pool.cap
            case Stopped(o) => o.Fail? ==> o.s.pool.cap == s.pool.cap
  {
    hide Alloc, Locate, Up, Lo, PageOfVa;
    var g := Gran(job.create);
    LocateCap(s, f, L, g, u, job.create != CreateNone, false);
    var r := Locate(s, f, L, g, u, job.create != CreateNone, false);
    if r.Found? {
      AllocCap(r.s.pool);
      if job.cb.Clone? {
        var s0 := r.s.(log := r.s.log + [Slot(r.level, Up(u, r.level - g))]);
        LocateCap(s0, job.cb.newRoot, TOP, 0, PageOfVa(SlotVa(job, r.level, Up(u, r.level - g))), true, true);
      }
    }
  }

  /** The pages still to come are as they were. */
  lemma CreateRest(s: Vm, root: nat, job: Job, u: nat, last: nat, v: nat)
    requires RangeFits(s, root, root, TOP, job, u, last) && job.create == CreateNormal && u < v <= last
    requires Visit(s, root, TOP, job, u).Went?
    ensures Leaf(Guest, Visit(s, root, TOP, job, u).s.mem, root, v) == Leaf(Guest, s.mem, root, v)
    ensures Visit(s, root, TOP, job, u).level == 0
  {
    hide Visit, Reach, Leaf, Locate, Up;
    RangeVisit(s, root, root, TOP, job, u, last);
    CreateLog(s, root, job, u);
    VisitLevel(s, root, TOP, job, u);
    FitsNormal(s, root, job);
    UpMonotone(v, last, 4);
    VisitLeaf(s, root, root, TOP, job, u, root, v);
    UpZero(u);
    UpZero(v);
  }

  lemma RestConserves(s: Vm, root: nat, job: Job, u: nat, last: nat)
    requires RangeFits(s, root, root, TOP, job, u, last) && u <= last
    requires RangeConserves(s, root, job, u, last) && Visit(s, root, TOP, job, u).Went?
    ensures var step := Visit(s, root, TOP, job, u);
            RangeConserves(step.s, root, job, Next(u, step.level - Gran(job.create)), last)
  {
    hide Visit, Reach, Leaf, Fits, Up, Touched, FrameOfPa, SlotVa, Next;
    VisitCap(s, root, TOP, job, u);
    var Went(s1, m) := Visit(s, root, TOP, job, u);
    if Gran(job.create) > 0 {
      BigRest(s, root, job, u, last);
    } else if job.create == CreateNormal {
      forall v | u < v <= last
        ensures Leaf(Guest, s1.mem, root, v) == Leaf(Guest, s.mem, root, v)
      {
        CreateRest(s, root, job, u, last, v);
      }
      NotNone(s, root, job);
    } else {
      RangeVisit(s, root, root, TOP, job, u, last);
      VisitLog(s, root, job, u);
      forall v | IsPage(v)
        ensures Touched(Leaf(Guest, s1.mem, root, v).0, v, Next(u, m), last) ==>
                  Leaf(Guest, s1.mem, root, v) == Leaf(Guest, s.mem, root, v)
                  && Touched(Leaf(Guest, s.mem, root, v).0, v, u, last)
      {
        VisitRest(s, root, job, u, last, v);
      }
      if job.cb.Remap? {
        forall v | Next(u, m) <= v <= last
          ensures Leaf(Guest, s1.mem, root, v) == Leaf(Guest, s.mem, root, v)
        {
          RestSame(s, root, job, u, last, v);
        }
      }
      if job.cb.Clone? {
        FitsClone(s, root, job);
        forall v | Next(u, m) <= v <= last
          ensures Leaf(Guest, s1.mem, job.cb.newRoot, v) == Leaf(Guest, s.mem, job.cb.newRoot, v)
        {
          CloneRest(s, root, job, u, last, v);
        }
      }
    }
  }

  /** A big map_phys makes no table below its own level. */
  lemma BigRest(s: Vm, root: nat, job: Job, u: nat, last: nat)
    requires RangeFits(s, root, root, TOP, job, u, last) && u <= last && Gran(job.create) > 0
    requires RangeConserves(s, root, job, u, last) && Visit(s, root, TOP, job, u).Went?
    ensures var step := Visit(s, root, TOP, job, u);
            RangeConserves(step.s, root, job, Next(u, step.level - Gran(job.create)), last)
  {
    hide Reach, Leaf, Locate, Fits, Up, FrameOfPa, Lo, Tree, Sound;
    var g := Gran(job.create);
    RangeVisit(s, root, root, TOP, job, u, last);
    VisitAt(s, root, root, TOP, job, u);
    FitsBig(s, root, job);
    LocateTables(s, root, root, TOP, g, u, true, false);
  }

  /** The pages behind the entry just visited are as they were. */
  lemma RestSame(s: Vm, root: nat, job: Job, u: nat, last: nat, v: nat)
    requires RangeFits(s, root, root, TOP, job, u, last) && job.create == CreateNone && u <= last
    requires Visit(s, root, TOP, job, u).Went? && Next(u, Visit(s, root, TOP, job, u).level) <= v <= last
    ensures Leaf(Guest, Visit(s, root, TOP, job, u).s.mem, root, v) == Leaf(Guest, s.mem, root, v)
  {
    hide Visit, Reach, Leaf, Fits, Up, Next;
    UpMonotone(v, last, 4);
    VisitRest(s, root, job, u, last, v);
    NextPrefix(u, v, Visit(s, root, TOP, job, u).level);
  }

  lemma NotNone(s: Vm, root: nat, job: Job)
    requires Fits(s, root, job) && job.create == CreateNormal
    ensures job.cb.MapPhys? || job.cb.MapPages?
  {
  }

  lemma FitsClone(s: Vm, root: nat, job: Job)
    requires Fits(s, root, job) && job.cb.Clone?
    ensures job.create == CreateNone && IsRoot(s.own, job.cb.newRoot)
  {
  }

  lemma CloneRest(s: Vm, root: nat, job: Job, u: nat, last: nat, v: nat)
    requires RangeFits(s, root, root, TOP, job, u, last) && job.cb.Clone? && u <= last
    requires Visit(s, root, TOP, job, u).Went? && Next(u, Visit(s, root, TOP, job, u).level) <= v <= last
    ensures Leaf(Guest, Visit(s, root, TOP, job, u).s.mem, job.cb.newRoot, v) == Leaf(Guest, s.mem, job.cb.newRoot, v)
  {
    hide Visit, Reach, Leaf, Fits, Up, Next;
    RangeVisit(s, root, root, TOP, job, u, last);
    FitsClone(s, root, job);
    UpMonotone(v, last, 4);
    CloneVisit(s, root, job, u, job.cb.newRoot, v);
    NextPrefix(u, v, Visit(s, root, TOP, job, u).level);
  }

  /** What the host can back does not change. */
  lemma {:induction false} FlatCap(s: Vm, f: nat, L: nat, job: Job, u: nat, last: nat)
    requires Gran(job.create) <= L
    ensures var o := Flat(s, f, L, job, u, last); o.Crash? || o.s.pool.cap == s.pool.cap
    decreases last + 1 - u
  {
    hide Visit, Next;
    if u <= last {
      VisitCap(s, f, L, job, u);
      if Visit(s, f, L, job, u).Went? {
        var Went(s1, m) := Visit(s, f, L, job, u);
        FlatCap(s1, f, L, job, Next(u, m - Gran(job.create)), last);
      }
    }
  }

  /** The walks of mprotect, map_phys, map_pages, unmap and clone keep every count
      right, also when they stop for want of memory. */
  lemma {:induction false} FlatConserves(s: Vm, root: nat, job: Job, u: nat, last: nat)
    requires Conserved(s) && RangeFits(s, root, root, TOP, job, u, last) && RangeConserves(s, root, job, u, last)
    ensures var o := Flat(s, root, TOP, job, u, last); o.Crash? || Conserved(o.s)
    decreases last + 1 - u
  {
    hide Conserved, Visit, RangeFits, RangeConserves, Next;
    if u <= last {
      VisitConserves(s, root, job, u, last);
      if Visit(s, root, TOP, job, u).Went? {
        RangeNext(s, root, root, TOP, job, u, last);
        RestConserves(s, root, job, u, last);
        var Went(s1, m) := Visit(s, root, TOP, job, u);
        FlatConserves(s1, root, job, Next(u, m - Gran(job.create)), last);
      }
    }
  }
}
