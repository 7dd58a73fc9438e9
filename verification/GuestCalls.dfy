/** The entry points of libdune/vm.c, with what each does to translations. */
module GuestCalls {
  import opened Radix
  import opened PagePool
  import opened Callbacks
  import opened GuestVm
  import opened VmInvariants
  import opened WalkRanges
  import opened WalkTheorems
  import opened WalkNone
  import opened WalkRoom
  import opened CloneRoom
  import opened SthreadWalks
  import opened CloneTheorems
  import opened Addresses
  import opened GuestWalker
  import opened Conservation
  import opened CowFault
  import opened CowTheorems
  import opened PoolRuns
  import opened RoundTrip

  /** A root whose tables form a tree, and a nonempty run of addresses. */
  ghost predicate Callable(s: Vm, root: nat, va: nat, len: nat) {
    Tree(Guest, s.mem, s.own) && IsRoot(s.own, root) && len > 0 && PageOfVa(va) <= PageOfVa(va + len - 1)
  }

  lemma CallFits(s: Vm, root: nat, va: nat, len: nat, job: Job)
    requires Callable(s, root, va, len) && job.high == High(va)
    requires Fits(s, root, job)
    requires OnlySmall(job) ==>
               forall v :: PageOfVa(va) <= v <= PageOfVa(va + len - 1) ==> Leaf(Guest, s.mem, root, v).0 == 0
    ensures var g := Gran(job.create);
            && RangeFits(s, root, root, TOP, job, Up(PageOfVa(va), g), Up(PageOfVa(va + len - 1), g))
            && Up(PageOfVa(va), g) <= Up(PageOfVa(va + len - 1), g)
  {
    hide PageOfVa, Leaf, Fits, Up, Tree;
    var g := Gran(job.create);
    AddressPage(va);
    AddressPage(va + len - 1);
    UpMonotone(PageOfVa(va), PageOfVa(va + len - 1), g);
    UpAdd(PageOfVa(va), g, 4 - g);
    UpAdd(PageOfVa(va + len - 1), g, 4 - g);
    StopStep(Guest, s.mem, root, TOP, TOP, Up(Up(PageOfVa(va), g), TOP - g));
    UpZero(PageOfVa(va));
    UpZero(PageOfVa(va + len - 1));
  }

  /** What dune_vm_mprotect makes of the permissions it is given. */
  function ProtBits(perm: set<nat>): set<nat> {
    GetPtePerm(if PERM_R in perm then perm else {})
  }

  /** Every page whose entry lies, at least in part, in the range has `after` of
      what it had; every other page of every root is as it was. */
  ghost predicate Rewritten(s: Vm, s1: Vm, root: nat, u: nat, last: nat, cb: Callback) {
    forall r, v :: IsRoot(s.own, r) && IsPage(v) ==>
      var e := Leaf(Guest, s.mem, r, v);
      Leaf(Guest, s1.mem, r, v) == if r == root && Touched(e.0, v, u, last) then Norm(e.0, NoneWord(cb, e.1)) else e
  }

  lemma RewrittenBy(s: Vm, root: nat, va: nat, len: nat, job: Job)
    requires Callable(s, root, va, len) && Rewrites(job) && job.high == High(va)
    ensures RangeFits(s, root, root, TOP, job, PageOfVa(va), PageOfVa(va + len - 1))
    ensures var o := Flat(s, root, TOP, job, PageOfVa(va), PageOfVa(va + len - 1));
            o.Done? && Rewritten(s, o.s, root, PageOfVa(va), PageOfVa(va + len - 1), job.cb)
  {
    hide Flat, Leaf, RangeFits, Tree, PageOfVa, Callable, NoneWord;
    CallableRange(s, root, va, len);
    HighZero(va);
    RewriteFits(s, root, va, len, job);
    CallFits(s, root, va, len, job);
    UpZero(PageOfVa(va));
    UpZero(PageOfVa(va + len - 1));
    var o := Flat(s, root, TOP, job, PageOfVa(va), PageOfVa(va + len - 1));
    NoneWalk(s, root, job, PageOfVa(va), PageOfVa(va + len - 1), root, PageOfVa(va));
    forall r, v | IsRoot(s.own, r) && IsPage(v)
      ensures var e := Leaf(Guest, s.mem, r, v);
              Leaf(Guest, o.s.mem, r, v) == if r == root && Touched(e.0, v, PageOfVa(va), PageOfVa(va + len - 1))
                                            then Norm(e.0, NoneWord(job.cb, e.1)) else e
    {
      NoneWalk(s, root, job, PageOfVa(va), PageOfVa(va + len - 1), r, v);
    }
  }

  lemma RewriteFits(s: Vm, root: nat, va: nat, len: nat, job: Job)
    requires Callable(s, root, va, len) && Rewrites(job) && job.high % TWO48 == 0
    ensures Fits(s, root, job) && IsRoot(s.own, root) && IsPage(PageOfVa(va))
  {
    AddressPage(va);
  }

  lemma HighZero(va: nat)
    ensures High(va) % TWO48 == 0
  {
    HighBits(va);
  }

  /** Every page whose entry lies in the range and is not empty is granted what
      `perm` says. */
  ghost predicate Granted(s: Vm, s1: Vm, root: nat, u: nat, last: nat, perm: set<nat>) {
    forall v :: IsPage(v) ==>
      var e := Leaf(Guest, s.mem, root, v);
      Touched(e.0, v, u, last) && e.1 != ZERO ==> Grants(s1.mem, root, v, perm)
  }

  lemma ProtectGrants(s: Vm, s1: Vm, root: nat, u: nat, last: nat, perm: set<nat>)
    requires Rewritten(s, s1, root, u, last, Mprotect(GetPtePerm(perm))) && IsRoot(s.own, root)
    requires Tree(Guest, s1.mem, s1.own) && IsRoot(s1.own, root)
    ensures Granted(s, s1, root, u, last, perm)
  {
    hide Leaf, Touched, Grants, Tree;
    forall v | IsPage(v) && Touched(Leaf(Guest, s.mem, root, v).0, v, u, last) && Leaf(Guest, s.mem, root, v).1 != ZERO
      ensures Grants(s1.mem, root, v, perm)
    {
      LeafShape(s.mem, root, v);
      LeafGrants(s1, root, v, perm);
    }
  }

  /** Above level 0 a deciding entry has PS set. */
  lemma LeafShape(mem: Mem, root: nat, v: nat)
    ensures var e := Leaf(Guest, mem, root, v); e.0 > 0 ==> e.0 < TOP && Big(e.1)
  {
  }

  /** Entries that lie, at least in part, in the range keep their frame and their size;
      all others keep everything. */
  ghost predicate FramesKept(s: Vm, s1: Vm, root: nat, u: nat, last: nat) {
    forall r, v :: IsRoot(s.own, r) && IsPage(v) ==>
      var (e, e1) := (Leaf(Guest, s.mem, r, v), Leaf(Guest, s1.mem, r, v));
      e1.0 == e.0 && e1.1.frame == e.1.frame
      && (r != root || !(u <= last && Up(u, e.0) <= Up(v, e.0) <= Up(last, e.0)) ==> e1 == e)
  }

  /** The pages of the range, and those that share an entry with one, are translated no
      more; all others keep their entries. */
  ghost predicate Unmapped(s: Vm, s1: Vm, root: nat, u: nat, last: nat) {
    forall r, v :: IsRoot(s.own, r) && IsPage(v) ==>
      var (e, e1) := (Leaf(Guest, s.mem, r, v), Leaf(Guest, s1.mem, r, v));
      if r == root && u <= last && Up(u, e.0) <= Up(v, e.0) <= Up(last, e.0)
      then Translate(Guest, s1.mem, r, v).None?
      else e1 == e
  }

  lemma ProtectKeeps(s: Vm, s1: Vm, root: nat, u: nat, last: nat, perm: set<nat>)
    requires Rewritten(s, s1, root, u, last, Mprotect(perm))
    ensures FramesKept(s, s1, root, u, last)
  {
    hide Leaf;
    forall r, v | IsRoot(s.own, r) && IsPage(v)
      ensures var (e, e1) := (Leaf(Guest, s.mem, r, v), Leaf(Guest, s1.mem, r, v));
              e1.0 == e.0 && e1.1.frame == e.1.frame
              && (r != root || !(u <= last && Up(u, e.0) <= Up(v, e.0) <= Up(last, e.0)) ==> e1 == e)
    {
      LeafShape(s.mem, r, v);
    }
  }

  lemma FreeUnmaps(s: Vm, s1: Vm, root: nat, u: nat, last: nat)
    requires Rewritten(s, s1, root, u, last, Free)
    ensures Unmapped(s, s1, root, u, last)
  {
    hide Leaf;
  }

  method VmMprotect(a: AddressSpace, root: nat, va: nat, len: nat, perm: set<nat>) returns (r: Ret)
    requires Callable(a.State(), root, va, len)
    modifies a, a.pool
    ensures PERM_R !in perm && PERM_W in perm ==> r == Code(EINVAL) && a.State() == old(a.State())
    ensures PERM_R in perm || PERM_W !in perm ==>
              var u, last := PageOfVa(va), PageOfVa(va + len - 1);
              && r == OK && Rewritten(old(a.State()), a.State(), root, u, last, Mprotect(ProtBits(perm)))
              && Granted(old(a.State()), a.State(), root, u, last, if PERM_R in perm then perm else {})
              && FramesKept(old(a.State()), a.State(), root, u, last)
              && a.own == old(a.own) && a.data == old(a.data) && a.walk == old(a.walk)
              && a.pool.State() == old(a.pool.State())
  {
    hide Flat, Leaf, Tree, RangeFits, Rewritten, GetPtePerm, PageOfVa, Callable, Granted, FramesKept;
    var perm1 := perm;
    if PERM_R !in perm {
      if PERM_W in perm {
        return Code(EINVAL);
      }
      perm1 := {};
    }
    var cb := Mprotect(GetPtePerm(perm1));
    ghost var job := Job(CreateNone, cb, High(va));
    CallableRange(a.State(), root, va, len);
    RewrittenBy(a.State(), root, va, len, job);
    UpZero(PageOfVa(va));
    UpZero(PageOfVa(va + len - 1));
    ghost var s := a.State();
    FlatGoes(s, root, root, TOP, job, PageOfVa(va), PageOfVa(va + len - 1));
    r := a.PageWalk(root, va, va + len - 1, cb, TOP, CreateNone, root, job, PageOfVa(va), PageOfVa(va + len - 1));
    CallableRoot(s, root, va, len);
    KeepsRoot(s, a.State(), job, root);
    ProtectGrants(s, a.State(), root, PageOfVa(va), PageOfVa(va + len - 1), perm1);
    ProtectKeeps(s, a.State(), root, PageOfVa(va), PageOfVa(va + len - 1), GetPtePerm(perm1));
    FlatData(s, root, TOP, job, PageOfVa(va), PageOfVa(va + len - 1));
    NoneOwn(s, root, TOP, job, PageOfVa(va), PageOfVa(va + len - 1));
  }

  /** mprotect and unmap make no table; mprotect takes no page and gives none back. */
  lemma {:induction false} NoneOwn(s: Vm, f: nat, L: nat, job: Job, u: nat, last: nat)
    requires job.create == CreateNone && !job.cb.Clone?
    ensures var o := Flat(s, f, L, job, u, last);
            o.Done? ==> o.s.own == s.own && (job.cb.Mprotect? ==> o.s.pool == s.pool)
    decreases last + 1 - u
  {
    hide Locate, Next, Up;
    if u <= last {
      LookupStays(s, f, L, 0, u, false);
      var step := Visit(s, f, L, job, u);
      if step.Went? {
        NoneOwn(step.s, f, L, job, Next(u, step.level), last);
      }
    }
  }

  lemma CallableRoot(s: Vm, root: nat, va: nat, len: nat)
    requires Callable(s, root, va, len)
    ensures IsRoot(s.own, root)
  {
  }

  lemma CallableRange(s: Vm, root: nat, va: nat, len: nat)
    requires Callable(s, root, va, len)
    ensures len > 0 && PageOfVa(va) <= PageOfVa(va + len - 1)
  {
  }

  method VmUnmap(a: AddressSpace, root: nat, va: nat, len: nat)
    requires Callable(a.State(), root, va, len)
    modifies a, a.pool
    ensures Rewritten(old(a.State()), a.State(), root, PageOfVa(va), PageOfVa(va + len - 1), Free)
    ensures Unmapped(old(a.State()), a.State(), root, PageOfVa(va), PageOfVa(va + len - 1))
    ensures Keeps(old(a.State()), a.State(), 0) && a.own == old(a.own) && a.data == old(a.data)
            && a.walk == old(a.walk)
    ensures forall r :: IsRoot(old(a.own), r) ==> IsRoot(a.own, r)
    ensures Conserved(old(a.State()))
            && RangeConserves(old(a.State()), root, Job(CreateNone, Free, High(va)),
                              PageOfVa(va), PageOfVa(va + len - 1))
            ==> Conserved(a.State())
  {
    hide Flat, Leaf, Tree, RangeFits, Rewritten, PageOfVa, Callable, Conserved, RangeConserves, Unmapped;
    ghost var s := a.State();
    ghost var job := Job(CreateNone, Free, High(va));
    CallableRange(s, root, va, len);
    ghost var u, last := PageOfVa(va), PageOfVa(va + len - 1);
    RewrittenBy(s, root, va, len, job);
    UpZero(u);
    UpZero(last);
    FlatGoes(s, root, root, TOP, job, u, last);
    if Conserved(s) && RangeConserves(s, root, job, u, last) {
      FlatConserves(s, root, job, u, last);
    }
    var r := a.PageWalk(root, va, va + len - 1, Free, TOP, CreateNone, root, job, u, last);
    FlatData(s, root, TOP, job, u, last);
    NoneOwn(s, root, TOP, job, u, last);
    FreeUnmaps(s, a.State(), root, u, last);
    forall r1 | IsRoot(s.own, r1)
      ensures IsRoot(a.own, r1)
    {
      KeepsRoot(s, a.State(), job, r1);
    }
  }

  /** Unit `Up(v, g)` of every page `v` between the units `u` and `last` has the
      entry that map_phys makes for it; all else is as it was. */
  ghost predicate Mapped(s: Vm, s1: Vm, root: nat, job: Job, u: nat, last: nat)
    requires job.cb.MapPhys?
  {
    var g := Gran(job.create);
    forall r, v :: IsRoot(s.own, r) && IsPage(v) ==>
      Leaf(Guest, s1.mem, r, v) == if r == root && u <= Up(v, g) <= last then Norm(g, MapWord(job, Up(v, g)))
                                   else Leaf(Guest, s.mem, r, v)
  }

  /** Every address of the range goes to `pa + (x - va)` with the bits `perm`, and
      the processor grants there what `perm` says. */
  ghost predicate Sent(s1: Vm, root: nat, va: nat, len: nat, pa: nat, perm: set<nat>) {
    forall x :: va <= x < va + len ==>
      var (l, w) := Leaf(Guest, s1.mem, root, PageOfVa(x));
      l == (if 8 in perm then 1 else if 9 in perm then 2 else 0) && w.bits == GetPtePerm(perm)
      && PhysicalAddress(l, w, x) == pa + (x - va) && Grants(s1.mem, root, PageOfVa(x), perm)
  }

  /** Everything aligned to the entries asked for, within 48 bits of address. */
  predicate Aligned(va: nat, len: nat, pa: nat, g: nat)
    requires len > 0 && g <= 2
  {
    && va % Span(g) == 0 && len % Span(g) == 0 && pa % Span(g) == 0
    && High(va) == High(va + len - 1) && pa + len <= 0x10_0000_0000_0000
  }

  lemma MapFitsSound(s: Vm, root: nat, job: Job, u: nat, last: nat)
    requires MapFits(s, root, job, u, last)
    ensures Sound(s) && RangeFits(s, root, root, TOP, job, u, last) && job.create != CreateNone
  {
  }

  /** No page outside the level-`g` units `u` to `last`, and none of another root, has
      changed. */
  ghost predicate Outside(s: Vm, s1: Vm, root: nat, g: nat, u: nat, last: nat) {
    forall r, v :: IsRoot(s.own, r) && IsPage(v) && !(r == root && u <= Up(v, g) <= last) ==>
      Leaf(Guest, s1.mem, r, v) == Leaf(Guest, s.mem, r, v)
  }

  lemma CreatesOutside(s: Vm, root: nat, job: Job, u: nat, last: nat)
    requires Creates(s, root, job, u, last)
    ensures var o := Flat(s, root, TOP, job, u, last);
            o.Crash? || Outside(s, o.s, root, Gran(job.create), u, last)
  {
    hide Flat, Leaf, RangeFits, Up, Creates;
    var o := Flat(s, root, TOP, job, u, last);
    if !o.Crash? {
      forall r, v | IsRoot(s.own, r) && IsPage(v) && !(r == root && u <= Up(v, Gran(job.create)) <= last)
        ensures Leaf(Guest, o.s.mem, r, v) == Leaf(Guest, s.mem, r, v)
      {
        CreatesElse(s, root, job, u, last, r, v);
      }
    }
  }

  method VmMapPhys(a: AddressSpace, root: nat, va: nat, len: nat, pa: nat, perm: set<nat>) returns (r: Ret)
    requires len > 0 && PageOfVa(va) <= PageOfVa(va + len - 1)
    requires var job := MapPhysJob(va, pa, perm); var g := Gran(job.create);
             MapFits(a.State(), root, job, Up(PageOfVa(va), g), Up(PageOfVa(va + len - 1), g))
    modifies a, a.pool
    ensures r == OK || r == Code(ENOMEM)
    ensures var job := MapPhysJob(va, pa, perm); var g := Gran(job.create);
            var n := Missing(old(a.mem), root, g, Up(PageOfVa(va), g), Up(PageOfVa(va + len - 1), g));
            var room := Room(old(a.pool.State()));
            (r == OK <==> n <= room) && (r == OK ==> Room(a.pool.State()) == room - n)
    ensures Sound(a.State()) && forall r1 :: IsRoot(old(a.own), r1) ==> IsRoot(a.own, r1)
    ensures a.State().pool.cap == old(a.State()).pool.cap && a.data == old(a.data) && a.walk == old(a.walk)
    ensures var g := Gran(CreateFor(perm));
            Outside(old(a.State()), a.State(), root, g, Up(PageOfVa(va), g), Up(PageOfVa(va + len - 1), g))
    ensures var job := MapPhysJob(va, pa, perm); var g := Gran(job.create);
            Conserved(old(a.State()))
            && RangeConserves(old(a.State()), root, job, Up(PageOfVa(va), g), Up(PageOfVa(va + len - 1), g))
            ==> Conserved(a.State())
    ensures var job := MapPhysJob(va, pa, perm); var g := Gran(job.create);
            r == OK ==> Mapped(old(a.State()), a.State(), root, job, Up(PageOfVa(va), g), Up(PageOfVa(va + len - 1), g))
                        && (Aligned(va, len, pa, g) ==> Sent(a.State(), root, va, len, pa, perm))
  {
    hide Flat, Leaf, GetPtePerm, PageOfVa, RangeFits, Norm, MapWord, PhysicalAddress, High, Span, Grants, Tree,
      Missing, Room, Up, Creates, Conserved, RangeConserves, Outside;
    var create := CreateFor(perm);
    var cb := MapPhys(GetPtePerm(perm), va, pa);
    ghost var job := MapPhysJob(va, pa, perm);
    ghost var g := Gran(create);
    ghost var u, last := Up(PageOfVa(va), g), Up(PageOfVa(va + len - 1), g);
    ghost var s := a.State();
    UpMonotone(PageOfVa(va), PageOfVa(va + len - 1), g);
    MapFitsSound(s, root, job, u, last);
    FlatGoes(s, root, root, TOP, job, u, last);
    FlatRoom(s, root, job, u, last);
    FlatCap(s, root, TOP, job, u, last);
    FlatData(s, root, TOP, job, u, last);
    CreatesOutside(s, root, job, u, last);
    if Conserved(s) && RangeConserves(s, root, job, u, last) {
      FlatConserves(s, root, job, u, last);
    }
    r := a.PageWalk(root, va, va + len - 1, cb, TOP, create, root, job, u, last);
    forall r1 | IsRoot(s.own, r1)
      ensures IsRoot(a.own, r1)
    {
      KeepsRoot(s, a.State(), job, r1);
    }
    ghost var o := Flat(s, root, TOP, job, u, last);
    if r == OK {
      forall r1, v | IsRoot(s.own, r1) && IsPage(v)
        ensures Leaf(Guest, o.s.mem, r1, v)
                == if r1 == root && u <= Up(v, g) <= last then Norm(g, MapWord(job, Up(v, g)))
                                               else Leaf(Guest, s.mem, r1, v)
      {
        MapPhysMaps(s, root, job, u, last, r1, v);
      }
      forall x | Aligned(va, len, pa, g) && va <= x < va + len
        ensures var (l, w) := Leaf(Guest, o.s.mem, root, PageOfVa(x));
                l == (if 8 in perm then 1 else if 9 in perm then 2 else 0) && w.bits == GetPtePerm(perm)
                && PhysicalAddress(l, w, x) == pa + (x - va) && Grants(o.s.mem, root, PageOfVa(x), perm)
      {
        MapPhysSends(s, root, va, len, pa, perm, x);
        AddressPage(x);
        SoundTree(o.s);
        MapFitsRoot(s, root, job, u, last);
        LeafGrants(o.s, root, PageOfVa(x), perm);
      }
    }
  }

  /** dune_vm_map_pages. What it overwrites is not put back, so the counts are right
      afterwards where the range had no entry for a page of the pool. */
  method VmMapPages(a: AddressSpace, root: nat, va: nat, len: nat, perm: set<nat>) returns (r: Ret)
    requires Sound(a.State()) && Callable(a.State(), root, va, len)
    requires forall v :: PageOfVa(va) <= v <= PageOfVa(va + len - 1) ==> Leaf(Guest, a.State().mem, root, v).0 == 0
    modifies a, a.pool
    ensures PERM_R !in perm && perm != {} ==> r == Code(EINVAL) && a.State() == old(a.State())
    ensures PERM_R in perm || perm == {} ==>
              && (r == OK || r == Code(ENOMEM)) && Sound(a.State()) && a.data == old(a.data) && a.walk == old(a.walk)
              && Outside(old(a.State()), a.State(), root, 0, PageOfVa(va), PageOfVa(va + len - 1))
              && (r == OK <==> var (u, last) := (PageOfVa(va), PageOfVa(va + len - 1));
                               Missing(old(a.mem), root, 0, u, last) + (last + 1 - u) <= Room(old(a.pool.State())))
    ensures (PERM_R in perm || perm == {}) && Conserved(old(a.State()))
            && NoneOfPool(old(a.State()), root, PageOfVa(va), PageOfVa(va + len - 1)) ==>
              && Conserved(a.State())
              && (r == OK ==> Fresh(old(a.State()), a.State(), root, va, len, perm))
    ensures r == OK ==> MappedPages(old(a.State()), a.State(), root, va, len, perm)
  {
    hide Flat, Leaf, Tree, RangeFits, Given, Referred, GetPtePerm, PageOfVa, Callable, Conserved, Missing, Room,
      NoneOfPool, MappedPages, Outside;
    if PERM_R !in perm && perm != {} {
      return Code(EINVAL);
    }
    var cb := MapPages(GetPtePerm(perm));
    ghost var job := Job(CreateNormal, cb, High(va));
    ghost var s := a.State();
    CallableRange(s, root, va, len);
    ghost var u, last := PageOfVa(va), PageOfVa(va + len - 1);
    MapPagesFit(s, root, va, len, job);
    UpZero(u);
    UpZero(last);
    FlatGoes(s, root, root, TOP, job, u, last);
    FlatRoom(s, root, job, u, last);
    FlatData(s, root, TOP, job, u, last);
    CreatesOutside(s, root, job, u, last);
    if Conserved(s) && NoneOfPool(s, root, u, last) {
      NoneConserves(s, root, job, u, last);
      FlatConserves(s, root, job, u, last);
      if Flat(s, root, TOP, job, u, last).Done? {
        MapPagesGives(s, root, job, u, last);
      }
    }
    r := a.PageWalk(root, va, va + len - 1, cb, TOP, CreateNormal, root, job, u, last);
    if r == OK {
      MappedBy(s, root, va, len, perm, job);
    }
  }

  /** The pages of the range have entries with the bits asked for, and all else is as
      it was. */
  ghost predicate MappedPages(s: Vm, s1: Vm, root: nat, va: nat, len: nat, perm: set<nat>)
    requires len > 0
  {
    forall r: nat, v: nat :: IsRoot(s.own, r) && IsPage(v) ==>
      if r == root && PageOfVa(va) <= v <= PageOfVa(va + len - 1)
      then Leaf(Guest, s1.mem, r, v).0 == 0 && Leaf(Guest, s1.mem, r, v).1.bits == GetPtePerm(perm)
           && Grants(s1.mem, root, v, perm)
      else Leaf(Guest, s1.mem, r, v) == Leaf(Guest, s.mem, r, v)
  }

  /** Every page of the range has a frame of its own, fresh and counted once. */
  ghost predicate Fresh(s: Vm, s1: Vm, root: nat, va: nat, len: nat, perm: set<nat>)
    requires len > 0
  {
    && Given(s, s1, root, GetPtePerm(perm), PageOfVa(va), PageOfVa(va + len - 1))
    && Referred(s, s1, root, PageOfVa(va), PageOfVa(va + len - 1))
  }

  lemma MappedBy(s: Vm, root: nat, va: nat, len: nat, perm: set<nat>, job: Job)
    requires len > 0 && MapsPages(job) && job.cb.perm == GetPtePerm(perm) && PageOfVa(va) <= PageOfVa(va + len - 1)
    requires RangeFits(s, root, root, TOP, job, PageOfVa(va), PageOfVa(va + len - 1))
    requires Flat(s, root, TOP, job, PageOfVa(va), PageOfVa(va + len - 1)).Done?
    ensures MappedPages(s, Flat(s, root, TOP, job, PageOfVa(va), PageOfVa(va + len - 1)).s, root, va, len, perm)
  {
    hide Flat, Leaf, RangeFits, PageOfVa, GetPtePerm;
    var u, last := PageOfVa(va), PageOfVa(va + len - 1);
    var s1 := Flat(s, root, TOP, job, u, last).s;
    forall r: nat, v: nat | IsRoot(s.own, r) && IsPage(v)
      ensures if r == root && u <= v <= last
              then Leaf(Guest, s1.mem, r, v).0 == 0 && Leaf(Guest, s1.mem, r, v).1.bits == GetPtePerm(perm)
                   && Grants(s1.mem, root, v, perm)
              else Leaf(Guest, s1.mem, r, v) == Leaf(Guest, s.mem, r, v)
    {
      if r == root && u <= v <= last {
        MapPagesHere(s, root, job, u, last, v);
        FlatGoes(s, root, root, TOP, job, u, last);
        KeepsRoot(s, s1, job, root);
        SoundTree(s1);
        LeafGrants(s1, root, v, perm);
      } else {
        MapPagesElse(s, root, job, u, last, r, v);
      }
    }
  }

  /** No entry for the pages `u` to `last` names a page of the pool. */
  ghost predicate NoneOfPool(s: Vm, root: nat, u: nat, last: nat) {
    forall v :: u <= v <= last ==> !PoolFrame(s.pool, Leaf(Guest, s.mem, root, v).1.frame)
  }

  lemma NoneConserves(s: Vm, root: nat, job: Job, u: nat, last: nat)
    requires MapsPages(job) && NoneOfPool(s, root, u, last)
    ensures RangeConserves(s, root, job, u, last)
  {
  }

  lemma MapPagesFit(s: Vm, root: nat, va: nat, len: nat, job: Job)
    requires Sound(s) && Callable(s, root, va, len) && MapsPages(job) && job.high == High(va)
    requires forall v :: PageOfVa(va) <= v <= PageOfVa(va + len - 1) ==> Leaf(Guest, s.mem, root, v).0 == 0
    ensures RangeFits(s, root, root, TOP, job, PageOfVa(va), PageOfVa(va + len - 1))
    ensures Creates(s, root, job, PageOfVa(va), PageOfVa(va + len - 1))
  {
    hide Leaf, Tree, PageOfVa;
    HighZero(va);
    forall v
      ensures Up(v, 0) == v
    {
      UpZero(v);
    }
    CallFits(s, root, va, len, job);
    UpZero(PageOfVa(va));
    UpZero(PageOfVa(va + len - 1));
  }

  /** dune_vm_clone; the process dies exactly if the pool has too little room. */
  method VmClone(a: AddressSpace, root: nat) returns (r: Ret, newRoot: nat)
    requires Sound(a.State()) && Rooted(a.State().own) && IsRoot(a.State().own, root)
    modifies a, a.pool
    ensures r == OK || r == Died
    ensures r == OK <==> CloneTables(old(a.State()).mem, root) <= Room(old(a.State()).pool)
    ensures r == OK ==> Sound(a.State()) && a.data == old(a.data) && a.walk == old(a.walk)
                        && forall r1 :: IsRoot(old(a.own), r1) ==> IsRoot(a.own, r1)
    ensures r == OK ==>
              && newRoot !in old(a.State()).own && IsRoot(a.State().own, newRoot)
              && forall r1, v :: IsRoot(old(a.State()).own, r1) && IsPage(v) ==>
                   var e := Leaf(Guest, old(a.State()).mem, root, v);
                   && Leaf(Guest, a.State().mem, newRoot, v)
                        == (if FirstPage(old(a.State()).mem, root, v) then (0, e.1) else (0, ZERO))
                   && Leaf(Guest, a.State().mem, r1, v) == Leaf(Guest, old(a.State()).mem, r1, v)
  {
    hide Flat, Leaf, Tree, Up, Alloc, FirstPage, NoBigUnder, CloneTables, Room, Rooted;
    ghost var s := a.State();
    CloneRoomIff(s, root);
    var pg := a.pool.AllocPage();
    if pg.None? {
      return Died, 0;
    }
    newRoot := FrameOf(pg.value);
    a.mem := a.mem[newRoot := EMPTY_TABLE];
    a.own := a.own[newRoot := Node(newRoot, TOP, 0, 0)];
    ghost var s1 := a.State();
    assert NewRoot(s) == Some((s1, newRoot));
    ghost var job := CloneJob(newRoot);
    PageRange(0);
    NewRootOk(s, root, root, 0);
    FlatGoes(s1, root, root, TOP, job, 0, LAST_PAGE);
    CloneNeverFails(s1, root, job, 0, LAST_PAGE);
    WholeSpace();
    UpZero(0);
    UpZero(LAST_PAGE);
    r := a.PageWalk(root, 0, TWO64 - 1, Clone(newRoot), TOP, CreateNone, root, job, 0, LAST_PAGE);
    if r == OK {
      KeepsRoot(s1, a.State(), job, newRoot);
      FlatData(s1, root, TOP, job, 0, LAST_PAGE);
      forall r1 | IsRoot(s.own, r1)
        ensures IsRoot(a.own, r1)
      {
        NewRootKeeps(s, r1);
        KeepsRoot(s1, a.State(), job, r1);
      }
      forall r1, v | IsRoot(s.own, r1) && IsPage(v)
        ensures var e := Leaf(Guest, s.mem, root, v);
                && Leaf(Guest, a.State().mem, newRoot, v) == (if FirstPage(s.mem, root, v) then (0, e.1) else (0, ZERO))
                && Leaf(Guest, a.State().mem, r1, v) == Leaf(Guest, s.mem, r1, v)
      {
        CloneMaps(s, root, r1, v);
      }
    }
  }

  lemma NewRootKeeps(s: Vm, r: nat)
    requires Sound(s) && Rooted(s.own) && IsRoot(s.own, r) && NewRoot(s).Some?
    ensures IsRoot(NewRoot(s).value.0.own, r)
  {
    hide NewRoot;
    PageRange(0);
    NewRootOk(s, r, r, 0);
  }

  /** A clone's walk ends well or kills the process; its error path is dead. */
  lemma {:induction false} CloneNeverFails(s: Vm, root: nat, job: Job, u: nat, last: nat)
    requires job.create == CreateNone && job.cb.Clone?
    ensures !Flat(s, root, TOP, job, u, last).Fail?
    decreases last + 1 - u
  {
    hide Locate, Next, Up;
    if u <= last {
      LookupFinds(s, root, TOP, 0, u);
      var step := Visit(s, root, TOP, job, u);
      if step.Went? {
        CloneNeverFails(step.s, root, job, Next(u, step.level), last);
      }
    }
  }

  lemma LookupFinds(s: Vm, f: nat, L: nat, g: nat, u: nat)
    requires g <= L
    ensures !Locate(s, f, L, g, u, false, false).NoMem?
  {
    LookupStays(s, f, L, g, u, false);
  }

  /** VA_START and VA_END. */
  lemma WholeSpace()
    ensures PageOfVa(0) == 0 && PageOfVa(TWO64 - 1) == LAST_PAGE && High(0) == 0
  {
  }

  /** dune_vm_default_pgflt_handler; false if the process dies. */
  method PageFault(a: AddressSpace, root: nat, addr: nat, fec: set<nat>, checked: bool) returns (ok: bool)
    modifies a, a.pool
    ensures match HandleFault(old(a.State()), root, addr, fec, checked)
            case Dies => !ok
            case Handled(s) => ok && a.State() == s
    ensures ok ==> LeftAlone(old(a.State()), a.State(), root, addr, fec)
  {
    hide PageOfVa, Up, Locate, HardwareWalk, FrameAt, LeftAlone;
    ghost var s := a.State();
    if HandleFault(s, root, addr, fec, checked).Handled? {
      OthersKept(s, root, addr, fec, checked);
    }
    LookupStays(s, root, TOP, 0, PageOfVa(addr), true);
    if checked && (FEC_P in fec || FEC_RSV in fec) {
      return false;
    }
    var ret, t, i, level := a.Lookup(root, addr, false);
    if ret != OK {
      return false;
    }
    var w := Rd(a.mem, t, i);
    if FEC_W !in fec || PTE_COW !in w.bits {
      return true;
    }
    var perm := w.bits - {PTE_COW} + {PTE_W};
    if InPool(a.pool.State(), w.frame) && a.pool.refs[w.frame - PAGEBASE_FRAME] == 1 {
      a.Store(t, i, Word(w.frame, perm));
      return true;
    }
    var pg := a.pool.AllocPage();
    if pg.None? || PTE_P !in w.bits {
      return false;
    }
    // memcpy reads through the faulting address, as the processor translates it.
    LookupSees(s, root, TOP, PageOfVa(addr), true, true, false);
    var access := HardwareWalk(a.mem, root, TOP, PageOfVa(addr), true, true, false).value;
    a.data := a.data[FrameOf(pg.value) := Bytes(a.data, FrameAt(access.level, access.word, PageOfVa(addr)))];
    if InPool(a.pool.State(), w.frame) {
      a.pool.PutPage(PageOf(a.pool.State(), w.frame));
    }
    a.Store(t, i, Word(FrameOf(pg.value), perm));
    ok := true;
  }

  lemma {:induction false} LookupStays(s: Vm, f: nat, L: nat, g: nat, u: nat, strict: bool)
    requires g <= L
    ensures Locate(s, f, L, g, u, false, strict).s == s && !Locate(s, f, L, g, u, false, strict).NoMem?
    decreases L
  {
    var w := Rd(s.mem, f, Up(u, L - g) % ENTRIES);
    if L > g && !(L < TOP && Big(w) && (PTE_P in w.bits || !strict)) && PTE_P in w.bits {
      LookupStays(s, w.frame, L - 1, g, u, strict);
    }
  }

  /** A present entry that lookup returns is the one the processor uses. */
  lemma {:induction false} LookupSees(s: Vm, f: nat, L: nat, v: nat, w: bool, u: bool, nx: bool)
    requires var r := Locate(s, f, L, 0, v, false, true);
             r.Found? && PTE_P in Rd(s.mem, r.table, Up(v, r.level) % ENTRIES).bits && L <= TOP
    ensures var r := Locate(s, f, L, 0, v, false, true); var a := HardwareWalk(s.mem, f, L, v, w, u, nx);
            a.Some? && a.value.level == r.level && a.value.word == Rd(s.mem, r.table, Up(v, r.level) % ENTRIES)
    decreases L
  {
    var e := Rd(s.mem, f, Up(v, L) % ENTRIES);
    if L > 0 && !(L < TOP && Big(e) && PTE_P in e.bits) {
      LookupSees(s, e.frame, L - 1, v, w && 1 in e.bits, u && 2 in e.bits, nx || 63 in e.bits);
    }
  }
}
