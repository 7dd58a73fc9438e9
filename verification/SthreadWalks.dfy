/** The page walks of sthread.c over ranges in which every page has a 4 KB entry: the
    callback is called for each page in turn, so its counter says which page it is. */
module SthreadWalks {
  import opened Radix
  import opened PagePool
  import opened Callbacks
  import opened GuestVm
  import opened VmInvariants
  import opened WalkRanges
  import opened WalkTheorems
  import opened WalkNone

  /** The callbacks of vm.c leave the contents of memory and the counter alone. */
  lemma {:induction false} LocateData(s: Vm, f: nat, L: nat, g: nat, u: nat, create: bool, strict: bool)
    requires g <= L
    ensures var s1 := Locate(s, f, L, g, u, create, strict).s; s1.data == s.data && s1.walk == s.walk
    decreases L
  {
    hide Up, Alloc, LinkMem;
    var i := Up(u, L - g) % ENTRIES;
    var w := Rd(s.mem, f, i);
    if L == g || (L < TOP && Big(w) && (PTE_P in w.bits || !strict)) {
    } else if PTE_P in w.bits {
      LocateData(s, w.frame, L - 1, g, u, create, strict);
    } else if create && NewTable(s, f, i).Some? {
      var (s1, c) := NewTable(s, f, i).value;
      LocateData(s1, c, L - 1, g, u, create, strict);
    }
  }

  lemma VisitData(s: Vm, f: nat, L: nat, job: Job, u: nat)
    requires Gran(job.create) <= L && !OfSthread(job.cb)
    ensures match Visit(s, f, L, job, u)
            case Went(s1, _) => s1.data == s.data && s1.walk == s.walk
            case Stopped(o) => o.Fail? ==> o.s.data == s.data && o.s.walk == s.walk
  {
    hide Up, Alloc, Locate, PageOfVa, Lo;
    var g := Gran(job.create);
    LocateData(s, f, L, g, u, job.create != CreateNone, false);
    var r := Locate(s, f, L, g, u, job.create != CreateNone, false);
    if r.Found? && job.cb.Clone? {
      var p := Up(u, r.level - g);
      var s0 := r.s.(log := r.s.log + [Slot(r.level, p)]);
      LocateData(s0, job.cb.newRoot, TOP, 0, PageOfVa(SlotVa(job, r.level, p)), true, true);
    }
  }

  lemma {:induction false} FlatData(s: Vm, f: nat, L: nat, job: Job, u: nat, last: nat)
    requires Gran(job.create) <= L && !OfSthread(job.cb)
    ensures var o := Flat(s, f, L, job, u, last); o.Crash? || (o.s.data == s.data && o.s.walk == s.walk)
    decreases last + 1 - u
  {
    hide Visit, Next;
    if u <= last {
      VisitData(s, f, L, job, u);
      var step := Visit(s, f, L, job, u);
      if step.Went? {
        FlatData(step.s, f, L, job, Next(u, step.level - Gran(job.create)), last);
      }
    }
  }

  // ----- one page -----

  /** A walk of sthread.c. */
  predicate Passes(job: Job) {
    job.create == CreateNone && OfSthread(job.cb)
  }

  /** The entry that its callback leaves. */
  function PassWord(cb: Callback, w: Word, walk: nat): Word {
    match cb
    case Remap(copy) => Word(Nth(copy, walk, 0), REMAP_BITS)
    case Recycle(_, _) => Word(w.frame, w.bits - {PTE_D})
    case _ => w
  }

  predicate Small4K(mem: Mem, root: nat, v: nat) {
    Leaf(Guest, mem, root, v).0 == 0 && Leaf(Guest, mem, root, v).1 != ZERO
  }

  /** What one call does: the page's entry, its contents and the counter; nothing else. */
  ghost predicate Passed(s: Vm, s1: Vm, root: nat, cb: Callback, v: nat) {
    var w := Leaf(Guest, s.mem, root, v).1;
    && s1.walk == s.walk + PAGE_SIZE && s1.data == DataAfter(cb, w, s.data, s.walk)
    && s1.log == s.log + [Slot(0, v)]
    && (forall r, x :: IsRoot(s.own, r) && IsPage(x) ==>
          Leaf(Guest, s1.mem, r, x)
          == if r == root && x == v then (0, PassWord(cb, w, s.walk)) else Leaf(Guest, s.mem, r, x))
  }

  lemma PassVisit(s: Vm, root: nat, job: Job, u: nat)
    requires VisitFits(s, root, root, TOP, job, u) && Passes(job) && Small4K(s.mem, root, u)
    ensures var step := Visit(s, root, TOP, job, u); step.Went? && step.level == 0 && Passed(s, step.s, root, job.cb, u)
  {
    hide Reach, Locate, Leaf, Visit, Touch, TouchWord, Stop;
    PassTouch(s, root, job, u);
    var step := Visit(s, root, TOP, job, u);
    forall r, x | IsRoot(s.own, r) && IsPage(x)
      ensures Leaf(Guest, step.s.mem, r, x)
                == if r == root && x == u then (0, PassWord(job.cb, Leaf(Guest, s.mem, root, u).1, s.walk))
                   else Leaf(Guest, s.mem, r, x)
    {
      VisitLeaf(s, root, root, TOP, job, u, r, x);
      UpZero(x);
      UpZero(u);
    }
  }

  lemma PassTouch(s: Vm, root: nat, job: Job, u: nat)
    requires VisitFits(s, root, root, TOP, job, u) && Passes(job) && Small4K(s.mem, root, u)
    ensures var step := Visit(s, root, TOP, job, u); var w := Leaf(Guest, s.mem, root, u).1;
            var found := Locate(s, root, TOP, 0, u, false, false);
            && step.Went? && step.level == 0 && step.s.walk == s.walk + PAGE_SIZE
            && step.s.data == DataAfter(job.cb, w, s.data, s.walk) && step.s.log == s.log + [Slot(0, u)]
            && found.Found? && found.level == 0 && found.s == s
            && TouchWord(s, found.table, 0, job, u) == PassWord(job.cb, w, s.walk)
  {
    hide Reach, Locate, Stop;
    NonePlace(s, root, job, u);
    LeafIs(s.mem, root, u);
    UpZero(u);
    VisitFinds(s, root, root, TOP, job, u);
  }

  // ----- a range of pages -----

  /** Every page of the range has a 4 KB entry. */
  ghost predicate Full(mem: Mem, root: nat, u: nat, last: nat) {
    forall v :: u <= v <= last ==> Small4K(mem, root, v)
  }

  lemma FullRange(s: Vm, root: nat, job: Job, u: nat, last: nat)
    requires Passes(job) && Tree(Guest, s.mem, s.own) && IsRoot(s.own, root) && job.high % TWO48 == 0
    requires u <= last && IsPage(last) && Full(s.mem, root, u, last)
    ensures RangeFits(s, root, root, TOP, job, u, last)
  {
    hide Tree, Leaf;
    UpMonotone(u, last, 4);
    StopStep(Guest, s.mem, root, TOP, TOP, Up(u, TOP));
    forall v | u <= v <= last
      ensures Leaf(Guest, s.mem, root, v).0 == 0
    {
      assert Small4K(s.mem, root, v);
    }
  }

  lemma PassNext(s: Vm, root: nat, job: Job, u: nat, last: nat)
    requires RangeFits(s, root, root, TOP, job, u, last) && Passes(job) && u <= last && Full(s.mem, root, u, last)
    ensures var step := Visit(s, root, TOP, job, u);
            && step.Went? && step.level == 0 && Passed(s, step.s, root, job.cb, u)
            && RangeFits(step.s, root, root, TOP, job, u + 1, last) && Goes(s, step.s, root, job)
            && Full(step.s.mem, root, u + 1, last)
  {
    hide Reach, Leaf, Visit, Fits, Goes, Up;
    RangeVisit(s, root, root, TOP, job, u, last);
    assert Small4K(s.mem, root, u);
    PassVisit(s, root, job, u);
    RangeNext(s, root, root, TOP, job, u, last);
    FitsRoot(s, root, job);
    var s1 := Visit(s, root, TOP, job, u).s;
    forall v | u + 1 <= v <= last
      ensures Small4K(s1.mem, root, v)
    {
      assert Small4K(s.mem, root, v);
      UpMonotone(v, last, 4);
    }
  }

  /** Where every page of a range has a 4 KB entry, a walk of sthread.c calls back for
      exactly the pages of the range, one after the other, and cannot fail. */
  lemma {:induction false} WalkEveryPage(s: Vm, root: nat, job: Job, u: nat, last: nat)
    requires RangeFits(s, root, root, TOP, job, u, last) && Passes(job) && u <= last + 1 && Full(s.mem, root, u, last)
    ensures var o := Flat(s, root, TOP, job, u, last);
            && o.Done? && o.s.walk == s.walk + (last + 1 - u) * PAGE_SIZE
            && o.s.log == s.log + seq(last + 1 - u, i requires 0 <= i => Slot(0, u + i))
    decreases last + 1 - u
  {
    hide Visit, RangeFits, Full, Goes;
    if u <= last {
      PassNext(s, root, job, u, last);
      var s1 := Visit(s, root, TOP, job, u).s;
      WalkEveryPage(s1, root, job, u + 1, last);
      assert [Slot(0, u)] + seq(last - u, i requires 0 <= i => Slot(0, u + 1 + i))
          == seq(last + 1 - u, i requires 0 <= i => Slot(0, u + i));
    }
  }
}
