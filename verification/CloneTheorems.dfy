/** dune_vm_lookup and dune_vm_clone. */
module CloneTheorems {
  import opened Radix
  import opened PagePool
  import opened Callbacks
  import opened GuestVm
  import opened VmInvariants
  import opened WalkRanges
  import opened WalkTheorems
  import opened WalkNone

  // ----- lookup -----

  /** Looking again, creating or not, finds the same slot and changes nothing. */
  lemma {:induction false} LocateAgain(s: Vm, root: nat, f: nat, L: nat, u: nat, create: bool, again: bool)
    requires Tree(Guest, s.mem, s.own) && (create ==> Sound(s)) && Radix.At(s.own, f, root, L, 0, u)
    requires Locate(s, f, L, 0, u, create, true).Found?
    ensures var r := Locate(s, f, L, 0, u, create, true); Locate(r.s, f, L, 0, u, again, true) == r
    decreases L
  {
    hide Alloc, NewTable, Tree, Sound, Keeps, NoBigUnder, IsRoot, LinkMem, Up;
    var i := Up(u, L) % ENTRIES;
    var w := Rd(s.mem, f, i);
    var r := Locate(s, f, L, 0, u, create, true);
    if L == 0 || (L < TOP && Big(w) && PTE_P in w.bits) {
    } else if PTE_P in w.bits {
      ChildAt(Guest, s.mem, s.own, root, f, L, 0, u);
      LocateExtends(s, root, w.frame, L - 1, 0, u, create, true);
      LinkStays(s, r.s, 0, f, i);
      LocateAgain(s, root, w.frame, L - 1, u, create, again);
    } else {
      NewTableSound(s, f, i);
      var (s1, c) := NewTable(s, f, i).value;
      ChildAt(Guest, s1.mem, s1.own, root, f, L, 0, u);
      LocateExtends(s1, root, c, L - 1, 0, u, create, true);
      LinkStays(s1, r.s, 0, f, i);
      LocateAgain(s1, root, c, L - 1, u, create, again);
    }
  }

  /** dune_vm_lookup returns the entry at which the hardware's walk for the page
      ends; looking changes no translation under any root, and looking again finds
      the same entry and changes nothing at all. */
  lemma LookupIsHardware(s: Vm, root: nat, u: nat, create: bool, again: bool, r: nat, v: nat)
    requires Sound(s) && IsRoot(s.own, root) && IsPage(u) && IsRoot(s.own, r) && IsPage(v)
    ensures var q := Locate(s, root, TOP, 0, u, create, true);
            Translate(Guest, q.s.mem, r, v) == Translate(Guest, s.mem, r, v)
    ensures var q := Locate(s, root, TOP, 0, u, create, true);
            q.Found? ==> var w := Rd(q.s.mem, q.table, Up(u, q.level) % ENTRIES);
              && Locate(q.s, root, TOP, 0, u, again, true) == q
              && HardwareWalk(q.s.mem, root, TOP, u, true, true, false)
                   == if PTE_P in w.bits
                      then Some(Access(q.level, w, PTE_W in w.bits, PTE_U in w.bits, PTE_NX in w.bits)) else None
  {
    hide Locate, Stop, HardwareWalk, Leaf, Translate, NoBigUnder;
    RootAt(s.own, root, 0, u);
    var q := Locate(s, root, TOP, 0, u, create, true);
    LocateLeaf(s, root, root, TOP, 0, u, create, true, r, v);
    if q.Found? {
      LocateAgain(s, root, root, TOP, u, create, again);
      LocateExtends(s, root, root, TOP, 0, u, create, true);
      LocateStop(s, root, root, TOP, 0, u, create, true);
      RootAt(q.s.own, root, 0, u);
      HardwareAgrees(q.s.mem, q.s.own, root, root, TOP, u);
    }
  }

  // ----- clone -----

  /** dune_vm_clone up to its walk: a cleared page becomes the new root. */
  function NewRoot(s: Vm): Option<(Vm, nat)> {
    match Alloc(s.pool)
    case None => None
    case Some((pool, k)) =>
      var c := FrameOf(k);
      Some((s.(mem := s.mem[c := EMPTY_TABLE], own := s.own[c := Node(c, TOP, 0, 0)], pool := pool), c))
  }

  const LAST_PAGE := 0xF_FFFF_FFFF

  function CloneJob(newRoot: nat): Job {
    Job(CreateNone, Clone(newRoot), 0)
  }

  /** dune_vm_clone: the outcome, and the new root. */
  function CloneAll(s: Vm, root: nat): (Outcome, nat) {
    match NewRoot(s)
    case None => (Crash, 0)
    case Some((s1, c)) => (Flat(s1, root, TOP, CloneJob(c), 0, LAST_PAGE), c)
  }

  predicate FirstPage(mem: Mem, root: nat, v: nat) {
    var l := Leaf(Guest, mem, root, v).0; v == Lo(Up(v, l), l)
  }

  lemma NewRootSound(s: Vm)
    requires Sound(s) && Rooted(s.own) && NewRoot(s).Some?
    ensures var (s1, c) := NewRoot(s).value;
            && Sound(s1) && c !in s.own && IsRoot(s1.own, c) && NoBigUnder(s1, c) && s1.log == s.log
            && s1.mem == s.mem[c := EMPTY_TABLE] && s1.own == s.own[c := Node(c, TOP, 0, 0)]
  {
    hide Alloc, FreeOk;
    AllocList(s.pool);
    var (s1, c) := NewRoot(s).value;
    forall f, i | f in s1.own && 0 <= i < ENTRIES && s1.own[f].root == c && s1.own[f].level > 0
      ensures !Big(Rd(s1.mem, f, i))
    {
      assert f == c;
    }
    forall f, i | f in s1.own && 0 <= i < ENTRIES && IsLink(Guest, Rd(s1.mem, f, i), s1.own[f].level)
      ensures LinkOk(s1.own, f, i, Rd(s1.mem, f, i))
    {
      assert f != c && Rd(s1.mem, f, i) == Rd(s.mem, f, i);
    }
  }

  /** A fresh root has nothing mapped and changes nothing for the others. */
  lemma NewRootOk(s: Vm, root: nat, r: nat, v: nat)
    requires Sound(s) && Rooted(s.own) && IsRoot(s.own, root) && IsRoot(s.own, r) && IsPage(v) && NewRoot(s).Some?
    ensures var (s1, c) := NewRoot(s).value;
            && RangeFits(s1, root, root, TOP, CloneJob(c), 0, LAST_PAGE) && Sound(s1)
            && c !in s.own && IsRoot(s1.own, c) && IsRoot(s1.own, r) && c != root && c != r
            && Leaf(Guest, s1.mem, c, v) == (0, ZERO) && Leaf(Guest, s1.mem, r, v) == Leaf(Guest, s.mem, r, v)
  {
    hide NewRoot, Sound, Up, NoBigUnder, Stop, Tree;
    NewRootSound(s);
    var (s1, c) := NewRoot(s).value;
    SoundTree(s);
    SoundTree(s1);
    RootAt(s.own, r, 0, v);
    SameTables(s.mem, s.own, s1.mem, r, r, TOP, 0, v);
    StopStep(Guest, s1.mem, c, TOP, 0, v);
    assert Rd(s1.mem, c, Up(v, TOP) % ENTRIES) == ZERO;
    PageRange(LAST_PAGE);
    UpMonotone(0, LAST_PAGE, 4);
    StopStep(Guest, s1.mem, root, TOP, TOP, Up(0, TOP));
  }

  lemma SoundTree(s: Vm)
    requires Sound(s)
    ensures Tree(Guest, s.mem, s.own)
  {
  }

  /** A walk sees only the tables annotated for its root. */
  lemma {:induction false} SameTables(mem: Mem, own: Own, mem1: Mem, root: nat, f: nat, L: nat, g: nat, u: nat)
    requires Tree(Guest, mem, own) && g <= L && Radix.At(own, f, root, L, g, u)
    requires forall f', i' :: f' in own && own[f'].root == root && 0 <= i' < ENTRIES
               ==> Rd(mem1, f', i') == Rd(mem, f', i')
    ensures Stop(Guest, mem1, f, L, g, u) == Stop(Guest, mem, f, L, g, u)
    decreases L
  {
    hide Stop, Tree, Up;
    StopStep(Guest, mem, f, L, g, u);
    StopStep(Guest, mem1, f, L, g, u);
    var w := Rd(mem, f, Up(u, L - g) % ENTRIES);
    assert Rd(mem1, f, Up(u, L - g) % ENTRIES) == w;
    if L > g && IsLink(Guest, w, L) {
      ChildAt(Guest, mem, own, root, f, L, g, u);
      SameTables(mem, own, mem1, root, w.frame, L - 1, g, u);
    }
  }

  /** One visit of a clone: the first page of the entry, under the new root. */
  lemma CloneVisit(s: Vm, root: nat, job: Job, u: nat, r: nat, v: nat)
    requires VisitFits(s, root, root, TOP, job, u) && job.create == CreateNone && job.cb.Clone?
    requires IsRoot(s.own, r) && IsPage(v) && Visit(s, root, TOP, job, u).Went?
    ensures var step := Visit(s, root, TOP, job, u); var e := Leaf(Guest, s.mem, root, v);
            && step.level == Stop(Guest, s.mem, root, TOP, 0, u).level
            && Leaf(Guest, step.s.mem, r, v)
                 == if r == job.cb.newRoot && Up(v, step.level) == Up(u, step.level) && e.1 != ZERO
                       && FirstPage(s.mem, root, v)
                    then (0, e.1) else Leaf(Guest, s.mem, r, v)
  {
    hide Locate, Stop, Reach, Visit, Leaf, Lo, Up;
    VisitClone(s, root, root, TOP, job, u, r, v);
    VisitLevel(s, root, TOP, job, u);
    NonePlace(s, root, job, u);
    var m := Stop(Guest, s.mem, root, TOP, 0, u).level;
    LeafIs(s.mem, root, v);
    UpAdd(u, m, 4 - m);
    SlotPage(m, Up(u, m));
    if Up(v, m) == Up(u, m) {
      SameEntry(s.mem, root, u, v);
    }
  }

  lemma {:induction false} CloneWalk(s: Vm, root: nat, job: Job, u: nat, last: nat, r: nat, v: nat)
    requires RangeFits(s, root, root, TOP, job, u, last) && job.create == CreateNone && job.cb.Clone?
    requires IsRoot(s.own, r) && IsPage(v) && Flat(s, root, TOP, job, u, last).Done?
    ensures var s1 := Flat(s, root, TOP, job, u, last).s; var e := Leaf(Guest, s.mem, root, v);
            Leaf(Guest, s1.mem, r, v)
              == if r == job.cb.newRoot && Touched(e.0, v, u, last) && e.1 != ZERO && FirstPage(s.mem, root, v)
                 then (0, e.1) else Leaf(Guest, s.mem, r, v)
    decreases last + 1 - u
  {
    hide Visit, Reach, Fits, Up, Next, Stop, Keeps, Sound, Leaf, Lo;
    if u <= last {
      RangeVisit(s, root, root, TOP, job, u, last);
      CloneVisit(s, root, job, u, r, v);
      FitsRoot(s, root, job);
      FitsNewRoot(s, root, job);
      CloneVisit(s, root, job, u, root, v);
      RangeNext(s, root, root, TOP, job, u, last);
      var step := Visit(s, root, TOP, job, u);
      KeepsRoot(s, step.s, job, r);
      CloneWalk(step.s, root, job, Next(u, step.level), last, r, v);
      TouchedNext(s.mem, root, u, last, v);
      LeafIs(s.mem, root, v);
      if Up(v, step.level) == Up(u, step.level) {
        SameEntry(s.mem, root, u, v);
        UpMonotone(u, last, step.level);
      }
    }
  }

  lemma FitsNewRoot(s: Vm, root: nat, job: Job)
    requires Fits(s, root, job) && job.create == CreateNone && job.cb.Clone?
    ensures job.cb.newRoot != root
  {
  }

  lemma CloneRoots(s: Vm, root: nat, r: nat)
    requires Sound(s) && Rooted(s.own) && IsRoot(s.own, root) && IsRoot(s.own, r) && CloneAll(s, root).0.Done?
    ensures var (o, c) := CloneAll(s, root);
            c !in s.own && Tree(Guest, o.s.mem, o.s.own) && IsRoot(o.s.own, c) && IsRoot(o.s.own, r)
  {
    hide Flat, Keeps, Alloc, Leaf, Lo;
    PageRange(0);
    NewRootOk(s, root, r, 0);
    var (s1, c) := NewRoot(s).value;
    FlatGoes(s1, root, root, TOP, CloneJob(c), 0, LAST_PAGE);
    KeepsRoot(s1, CloneAll(s, root).0.s, CloneJob(c), c);
    KeepsRoot(s1, CloneAll(s, root).0.s, CloneJob(c), r);
  }

  /** dune_vm_clone: under the new root the first page of every entry has that
      entry, as a 4 KB entry, and every other root is as before. */
  lemma CloneMaps(s: Vm, root: nat, r: nat, v: nat)
    requires Sound(s) && Rooted(s.own) && IsRoot(s.own, root) && IsRoot(s.own, r) && IsPage(v)
             && CloneAll(s, root).0.Done?
    ensures var (o, c) := CloneAll(s, root); var e := Leaf(Guest, s.mem, root, v);
            && c !in s.own && Tree(Guest, o.s.mem, o.s.own)
            && Leaf(Guest, o.s.mem, c, v) == (if FirstPage(s.mem, root, v) then (0, e.1) else (0, ZERO))
            && Leaf(Guest, o.s.mem, r, v) == Leaf(Guest, s.mem, r, v)
  {
    hide Flat, Reach, Keeps, Alloc, Leaf, Lo;
    NewRootOk(s, root, r, v);
    NewRootOk(s, root, root, v);
    var (s1, c) := NewRoot(s).value;
    CloneWalk(s1, root, CloneJob(c), 0, LAST_PAGE, c, v);
    CloneWalk(s1, root, CloneJob(c), 0, LAST_PAGE, r, v);
    CloneRoots(s, root, r);
    var l := Leaf(Guest, s.mem, root, v).0;
    PageRange(v);
    UpMonotone(v, LAST_PAGE, l);
    UpMonotone(0, v, l);
    LeafIs(s.mem, root, v);
  }

  /** ... and the clone shares no table with another root: whatever table a walk from
      the one gets to, at any level and for any prefix, no walk from the other does. */
  lemma CloneApart(s: Vm, root: nat, r: nat, l: nat, p: nat, k: nat, q: nat)
    requires Sound(s) && Rooted(s.own) && IsRoot(s.own, root) && IsRoot(s.own, r) && CloneAll(s, root).0.Done?
    requires l <= TOP && k <= TOP && Up(p, 4 - l) == 0 && Up(q, 4 - k) == 0
    ensures var (o, c) := CloneAll(s, root);
            Stop(Guest, o.s.mem, c, TOP, l, p).table != Stop(Guest, o.s.mem, r, TOP, k, q).table
  {
    hide CloneAll, Sound, Rooted, Stop, Tree, Up;
    CloneRoots(s, root, r);
    var (o, c) := CloneAll(s, root);
    RootAt(o.s.own, c, l, p);
    RootAt(o.s.own, r, k, q);
    StopAt(Guest, o.s.mem, o.s.own, c, c, TOP, l, p);
    StopAt(Guest, o.s.mem, o.s.own, r, r, TOP, k, q);
    assert IsRoot(s.own, r) && c != r;
  }

  /** The clone translates every page exactly as the original does if and only if
      the original has no present big entry. */
  lemma CloneExact(s: Vm, root: nat)
    requires Sound(s) && Rooted(s.own) && IsRoot(s.own, root) && CloneAll(s, root).0.Done?
    ensures var (o, c) := CloneAll(s, root);
            (forall v :: IsPage(v) ==> Translate(Guest, o.s.mem, c, v) == Translate(Guest, s.mem, root, v))
            <==> (forall v :: IsPage(v) && Leaf(Guest, s.mem, root, v).0 > 0 ==> Translate(Guest, s.mem, root, v).None?)
  {
    hide CloneAll, Sound, Stop, Leaf;
    var (o, c) := CloneAll(s, root);
    forall v | IsPage(v)
      ensures Translate(Guest, o.s.mem, c, v) == Translate(Guest, s.mem, root, v)
              <==> (Leaf(Guest, s.mem, root, v).0 > 0 ==> Translate(Guest, s.mem, root, v).None?)
    {
      CloneMaps(s, root, root, v);
      FirstPageSmall(s.mem, root, v);
    }
  }

  lemma FirstPageSmall(mem: Mem, root: nat, v: nat)
    ensures Leaf(Guest, mem, root, v).0 == 0 ==> FirstPage(mem, root, v)
  {
    UpZero(v);
  }
}
