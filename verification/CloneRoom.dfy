/** When dune_vm_clone succeeds: exactly if the pool has room for the new tables. */
module CloneRoom {
  import opened Radix
  import opened PagePool
  import opened Callbacks
  import opened GuestVm
  import opened VmInvariants
  import opened WalkRanges
  import opened WalkTheorems
  import opened WalkNone
  import opened CloneTheorems
  import opened WalkRoom

  /** The first page of an entry that is not empty: the clone gets an entry for it. */
  predicate Cloned(mem: Mem, root: nat, v: nat) {
    FirstPage(mem, root, v) && Leaf(Guest, mem, root, v).1 != ZERO
  }

  /** Page `v` is cloned by the walk over the pages `u` to `last`. */
  predicate ToClone(mem: Mem, root: nat, v: nat, u: nat, last: nat) {
    IsPage(v) && Cloned(mem, root, v) && Touched(Leaf(Guest, mem, root, v).0, v, u, last)
  }

  /** The level-`m` entries of the new root that the walk over the pages `u` to `last`
      has yet to link. */
  ghost function Pending(mem: Mem, root: nat, newRoot: nat, u: nat, last: nat, m: nat): set<nat> {
    set q | 0 <= q <= LAST_PAGE && Unlinked(mem, newRoot, m, q) && PendingFor(mem, root, u, last, m, q)
  }

  ghost predicate PendingFor(mem: Mem, root: nat, u: nat, last: nat, m: nat, q: nat) {
    exists v :: ToClone(mem, root, v, u, last) && Up(v, m) == q
  }

  ghost function PendingAll(mem: Mem, root: nat, newRoot: nat, u: nat, last: nat): nat {
    |Pending(mem, root, newRoot, u, last, 1)| + |Pending(mem, root, newRoot, u, last, 2)|
    + |Pending(mem, root, newRoot, u, last, 3)|
  }

  /** The first page of the entry that the visit of `u` comes to. */
  function First(mem: Mem, root: nat, u: nat): nat {
    var l := Stop(Guest, mem, root, TOP, 0, u).level; Lo(Up(u, l), l)
  }

  /** What the entry of `u` has to do with its first page. */
  lemma FirstFacts(mem: Mem, root: nat, u: nat)
    requires IsPage(u)
    ensures var x := First(mem, root, u); var l := Stop(Guest, mem, root, TOP, 0, u).level;
            && IsPage(x) && Up(x, l) == Up(u, l) && Leaf(Guest, mem, root, x) == Leaf(Guest, mem, root, u)
            && (Leaf(Guest, mem, root, u).1 != ZERO ==> Leaf(Guest, mem, root, u).0 == l && Cloned(mem, root, x))
  {
    hide Stop, Up, Lo;
    var l := Stop(Guest, mem, root, TOP, 0, u).level;
    UpAdd(u, l, 4 - l);
    SlotPage(l, Up(u, l));
    SameEntry(mem, root, u, First(mem, root, u));
    LeafIs(mem, root, u);
  }

  /** No other page of that entry is cloned. */
  lemma OnlyFirst(mem: Mem, root: nat, u: nat, v: nat)
    requires Cloned(mem, root, v)
    requires Up(v, Stop(Guest, mem, root, TOP, 0, u).level) == Up(u, Stop(Guest, mem, root, TOP, 0, u).level)
    ensures v == First(mem, root, u) && Leaf(Guest, mem, root, u).1 != ZERO
  {
    hide Stop, Up, Lo;
    SameEntry(mem, root, u, v);
    LeafIs(mem, root, v);
  }

  /** The descent of the clone callback meets no big entry. */
  lemma NewRootClear(s: Vm, newRoot: nat, x: nat)
    requires Sound(s) && IsRoot(s.own, newRoot) && NoBigUnder(s, newRoot) && IsPage(x)
    ensures Lacks(s.mem, newRoot, TOP, 0, x, true) == Stop(Guest, s.mem, newRoot, TOP, 0, x).level
  {
    hide Stop;
    SoundIsTree(s);
    RootAt(s.own, newRoot, 0, x);
    StopAt(Guest, s.mem, s.own, newRoot, newRoot, TOP, 0, x);
  }

  /** The clone callback takes as many pages as tables are missing on its way. */
  lemma CallRoom(s: Vm, job: Job, t: nat, i: nat, va: nat)
    requires Sound(s) && job.cb.Clone? && i < ENTRIES && IsPage(PageOfVa(va))
    requires IsRoot(s.own, job.cb.newRoot) && NoBigUnder(s, job.cb.newRoot)
    ensures var x := PageOfVa(va); var o := CallBack(s, job.cb, t, i, va);
            var n := Stop(Guest, s.mem, job.cb.newRoot, TOP, 0, x).level;
            && (o.Done? <==> n <= Room(s.pool)) && !o.Fail?
            && (o.Done? ==> Room(o.s.pool) == Room(s.pool) - n && Paved(s.mem, o.s.mem, job.cb.newRoot, 0, x))
  {
    hide Alloc, Room, Locate, Up, Stop, PageOfVa, Unlinked, Lacks, NoBigUnder, Sound, IsLink;
    var nr, x := job.cb.newRoot, PageOfVa(va);
    NewRootClear(s, nr, x);
    RootAt(s.own, nr, 0, x);
    LocateRoom(s, nr, nr, TOP, 0, x, true);
    CloneTarget(s, nr, x);
    var r := Locate(s, nr, TOP, 0, x, true, true);
    if r.Found? {
      var o := CallBack(s, job.cb, t, i, va);
      assert o.s.mem == Wr(r.s.mem, r.table, Up(x, 0) % ENTRIES, Rd(r.s.mem, t, i));
      GetRoom(r.s.pool, Rd(s.mem, t, i).frame);
      forall m, q | 0 < m <= TOP && Up(q, 4 - m) == 0
        ensures Unlinked(o.s.mem, nr, m, q) <==> Unlinked(s.mem, nr, m, q) && q != Up(x, m)
      {
        CallUnlinked(s, nr, x, Rd(r.s.mem, t, i), m, q);
      }
    }
  }

  lemma GetRoom(p: Pool, frame: nat)
    ensures InPool(p, frame) ==> Room(Get(p, PageOf(p, frame))) == Room(p)
  {
  }

  lemma CallUnlinked(s: Vm, nr: nat, x: nat, w: Word, m: nat, q: nat)
    requires Sound(s) && IsRoot(s.own, nr) && NoBigUnder(s, nr) && IsPage(x)
    requires 0 < m <= TOP && Up(q, 4 - m) == 0 && Locate(s, nr, TOP, 0, x, true, true).Found?
    ensures var r := Locate(s, nr, TOP, 0, x, true, true);
            Unlinked(Wr(r.s.mem, r.table, Up(x, 0) % ENTRIES, w), nr, m, q)
            <==> Unlinked(s.mem, nr, m, q) && q != Up(x, m)
  {
    hide Alloc, Locate, Up, Stop, NoBigUnder, IsLink;
    var r := Locate(s, nr, TOP, 0, x, true, true);
    CloneTarget(s, nr, x);
    RootAt(s.own, nr, 0, x);
    RootAt(r.s.own, nr, m, q);
    StopWrite(Guest, r.s.mem, r.s.own, r.table, Up(x, 0) % ENTRIES, w, nr, nr, TOP, m, q);
    if q == Up(x, m) {
      ReachStop(r.s.mem, nr, r.table, x);
      UnlinkedIff(r.s.mem, nr, 0, x, m);
    } else {
      LocateElse(s, nr, nr, TOP, 0, x, true, nr, m, q);
    }
  }

  lemma ReachStop(mem: Mem, root: nat, t: nat, x: nat)
    requires Reach(Guest, mem, root, t, 0, x)
    ensures Stop(Guest, mem, root, TOP, 0, x).level == 0
  {
  }

  /** One visit of a clone's walk. */
  lemma VisitCloneRoom(s: Vm, root: nat, job: Job, u: nat)
    requires VisitFits(s, root, root, TOP, job, u) && job.create == CreateNone && job.cb.Clone?
    ensures var x := First(s.mem, root, u); var step := Visit(s, root, TOP, job, u);
            if Leaf(Guest, s.mem, root, u).1 == ZERO
            then step.Went? && step.s == s
            else var n := Stop(Guest, s.mem, job.cb.newRoot, TOP, 0, x).level;
                 && (step.Went? <==> n <= Room(s.pool)) && (step.Stopped? ==> step.o.Crash?)
                 && (step.Went? ==>
                       Room(step.s.pool) == Room(s.pool) - n && Paved(s.mem, step.s.mem, job.cb.newRoot, 0, x))
  {
    hide Alloc, Room, Locate, Up, Stop, PageOfVa, Unlinked, Lo, CallBack, Reach, Paved;
    NonePlace(s, root, job, u);
    VisitFinds(s, root, root, TOP, job, u);
    UpZero(u);
    var r := Locate(s, root, TOP, 0, u, false, false);
    if r.Found? {
      var p := Up(u, r.level);
      PageOfSlotVa(job, r.level, p);
      var s0 := s.(log := s.log + [Slot(r.level, p)]);
      CallRoom(s0, job, r.table, p % ENTRIES, SlotVa(job, r.level, p));
    }
  }

  // ----- the tables that are still due -----

  lemma PendingStep(s: Vm, root: nat, job: Job, u: nat, last: nat, m: nat, q: nat)
    requires VisitFits(s, root, root, TOP, job, u) && job.create == CreateNone && job.cb.Clone? && u <= last
    requires Visit(s, root, TOP, job, u).Went? && IsRoot(s.own, root)
    requires q != Up(First(s.mem, root, u), m) || Leaf(Guest, s.mem, root, u).1 == ZERO
    ensures var s1 := Visit(s, root, TOP, job, u).s; var u1 := Next(u, Visit(s, root, TOP, job, u).level);
            PendingFor(s1.mem, root, u1, last, m, q) <==> PendingFor(s.mem, root, u, last, m, q)
  {
    hide Visit, Up, Stop, Leaf, Lo, Next, Touched, First;
    var s1 := Visit(s, root, TOP, job, u).s;
    var u1 := Next(u, Visit(s, root, TOP, job, u).level);
    forall v | IsPage(v)
      ensures Up(v, m) == q ==> (ToClone(s1.mem, root, v, u1, last) <==> ToClone(s.mem, root, v, u, last))
    {
      PendingPage(s, root, job, u, last, v);
    }
  }

  lemma PendingPage(s: Vm, root: nat, job: Job, u: nat, last: nat, v: nat)
    requires VisitFits(s, root, root, TOP, job, u) && job.create == CreateNone && job.cb.Clone? && u <= last
    requires Visit(s, root, TOP, job, u).Went? && IsRoot(s.own, root) && IsPage(v)
    ensures var s1 := Visit(s, root, TOP, job, u).s; var u1 := Next(u, Visit(s, root, TOP, job, u).level);
            var visited := v == First(s.mem, root, u) && Leaf(Guest, s.mem, root, u).1 != ZERO;
            ToClone(s1.mem, root, v, u1, last) <==> ToClone(s.mem, root, v, u, last) && !visited
  {
    hide Visit, Up, Stop, Leaf, Lo, Next, Touched;
    CloneVisit(s, root, job, u, root, v);
    FitsNewRoot(s, root, job);
    TouchedNext(s.mem, root, u, last, v);
    LeafIs(s.mem, root, v);
    VisitIsPage(s, root, job, u);
    FirstFacts(s.mem, root, u);
    if Cloned(s.mem, root, v)
       && Up(v, Stop(Guest, s.mem, root, TOP, 0, u).level) == Up(u, Stop(Guest, s.mem, root, TOP, 0, u).level) {
      OnlyFirst(s.mem, root, u, v);
    }
  }

  lemma VisitIsPage(s: Vm, root: nat, job: Job, u: nat)
    requires VisitFits(s, root, root, TOP, job, u) && job.create == CreateNone
    ensures IsPage(u) && Fits(s, root, job)
  {
  }

  /** Every visited entry takes what is due for it, and nothing else. */
  lemma PendingCount(s: Vm, root: nat, job: Job, u: nat, last: nat, m: nat)
    requires VisitFits(s, root, root, TOP, job, u) && job.create == CreateNone && job.cb.Clone? && u <= last
    requires Visit(s, root, TOP, job, u).Went? && IsRoot(s.own, root) && 0 < m <= TOP
    ensures var x := First(s.mem, root, u); var nr := job.cb.newRoot;
            var s1 := Visit(s, root, TOP, job, u).s; var u1 := Next(u, Visit(s, root, TOP, job, u).level);
            |Pending(s.mem, root, nr, u, last, m)|
              == |Pending(s1.mem, root, nr, u1, last, m)|
                 + One(Leaf(Guest, s.mem, root, u).1 != ZERO && Unlinked(s.mem, nr, m, Up(x, m)))
  {
    hide Visit, Up, Stop, Leaf, Next, First, Unlinked, PendingFor, Room;
    var x, nr := First(s.mem, root, u), job.cb.newRoot;
    var s1, u1 := Visit(s, root, TOP, job, u).s, Next(u, Visit(s, root, TOP, job, u).level);
    var A, B := Pending(s.mem, root, nr, u, last, m), Pending(s1.mem, root, nr, u1, last, m);
    VisitCloneRoom(s, root, job, u);
    if Leaf(Guest, s.mem, root, u).1 == ZERO {
      forall q
        ensures q in A <==> q in B
      {
        PendingStep(s, root, job, u, last, m, q);
      }
      assert A == B;
    } else {
      forall q
        ensures q in B <==> q in A && q != Up(x, m)
      {
        PendingOther(s, root, job, u, last, m, q);
      }
      PendingFirst(s, root, job, u, last, m);
      assert B == A - {Up(x, m)};
      CardMinus(A, Up(x, m));
    }
  }

  lemma PendingOther(s: Vm, root: nat, job: Job, u: nat, last: nat, m: nat, q: nat)
    requires VisitFits(s, root, root, TOP, job, u) && job.create == CreateNone && job.cb.Clone? && u <= last
    requires Visit(s, root, TOP, job, u).Went? && IsRoot(s.own, root) && 0 < m <= TOP
    requires Leaf(Guest, s.mem, root, u).1 != ZERO
    ensures var x := First(s.mem, root, u); var nr := job.cb.newRoot;
            var s1 := Visit(s, root, TOP, job, u).s; var u1 := Next(u, Visit(s, root, TOP, job, u).level);
            q in Pending(s1.mem, root, nr, u1, last, m) <==> q in Pending(s.mem, root, nr, u, last, m) && q != Up(x, m)
  {
    hide Visit, Up, Stop, Leaf, Next, First, Unlinked, Room, ToClone;
    VisitCloneRoom(s, root, job, u);
    var s1, u1 := Visit(s, root, TOP, job, u).s, Next(u, Visit(s, root, TOP, job, u).level);
    PendingPrefix(s.mem, root, u, last, m, q);
    PendingPrefix(s1.mem, root, u1, last, m, q);
    if q != Up(First(s.mem, root, u), m) {
      PendingStep(s, root, job, u, last, m, q);
    }
  }

  lemma PendingPrefix(mem: Mem, root: nat, u: nat, last: nat, m: nat, q: nat)
    requires 0 < m <= TOP
    ensures PendingFor(mem, root, u, last, m, q) ==> Up(q, 4 - m) == 0 && q <= LAST_PAGE
  {
    hide Up, Leaf, Cloned, Touched;
    if PendingFor(mem, root, u, last, m, q) {
      var v :| ToClone(mem, root, v, u, last) && Up(v, m) == q;
      UpAdd(v, m, 4 - m);
      PageRange(v);
      UpSmaller(v, m);
    }
  }

  lemma {:induction false} UpSmaller(v: nat, n: nat)
    ensures Up(v, n) <= v
  {
    if n > 0 {
      UpSmaller(v, n - 1);
    }
  }

  /** What an occupied entry needs is due until it is visited. */
  lemma PendingFirst(s: Vm, root: nat, job: Job, u: nat, last: nat, m: nat)
    requires VisitFits(s, root, root, TOP, job, u) && job.create == CreateNone && job.cb.Clone? && u <= last
    requires Leaf(Guest, s.mem, root, u).1 != ZERO && 0 < m <= TOP
    ensures var x := First(s.mem, root, u);
            Up(x, m) in Pending(s.mem, root, job.cb.newRoot, u, last, m)
            <==> Unlinked(s.mem, job.cb.newRoot, m, Up(x, m))
  {
    hide Up, Leaf, Stop, First, Unlinked;
    var x := First(s.mem, root, u);
    VisitIsPage(s, root, job, u);
    FirstFacts(s.mem, root, u);
    UpMonotone(u, last, Leaf(Guest, s.mem, root, u).0);
    assert ToClone(s.mem, root, x, u, last);
    PageRange(x);
    UpSmaller(x, m);
    assert PendingFor(s.mem, root, u, last, m, Up(x, m));
  }

  /** A visit that finds too little room leaves more due than there is. */
  lemma PendingEnough(s: Vm, root: nat, job: Job, u: nat, last: nat)
    requires VisitFits(s, root, root, TOP, job, u) && job.create == CreateNone && job.cb.Clone? && u <= last
    requires Leaf(Guest, s.mem, root, u).1 != ZERO
    ensures Stop(Guest, s.mem, job.cb.newRoot, TOP, 0, First(s.mem, root, u)).level
              <= PendingAll(s.mem, root, job.cb.newRoot, u, last)
  {
    hide Up, Leaf, Stop, First, Unlinked, Pending;
    EnoughAt(s, root, job, u, last, 1);
    EnoughAt(s, root, job, u, last, 2);
    EnoughAt(s, root, job, u, last, 3);
  }

  lemma EnoughAt(s: Vm, root: nat, job: Job, u: nat, last: nat, m: nat)
    requires VisitFits(s, root, root, TOP, job, u) && job.create == CreateNone && job.cb.Clone? && u <= last
    requires Leaf(Guest, s.mem, root, u).1 != ZERO && 0 < m <= TOP
    ensures One(m <= Stop(Guest, s.mem, job.cb.newRoot, TOP, 0, First(s.mem, root, u)).level)
              <= |Pending(s.mem, root, job.cb.newRoot, u, last, m)|
  {
    hide Up, Leaf, Stop, First, Unlinked, Pending;
    var x := First(s.mem, root, u);
    PendingFirst(s, root, job, u, last, m);
    UnlinkedIff(s.mem, job.cb.newRoot, 0, x, m);
    CardMinus(Pending(s.mem, root, job.cb.newRoot, u, last, m), Up(x, m));
  }

  lemma PendingAllStep(s: Vm, root: nat, job: Job, u: nat, last: nat)
    requires VisitFits(s, root, root, TOP, job, u) && job.create == CreateNone && job.cb.Clone? && u <= last
    requires Visit(s, root, TOP, job, u).Went? && IsRoot(s.own, root)
    ensures var nr := job.cb.newRoot; var step := Visit(s, root, TOP, job, u);
            PendingAll(s.mem, root, nr, u, last)
              == PendingAll(step.s.mem, root, nr, Next(u, step.level), last)
                 + if Leaf(Guest, s.mem, root, u).1 == ZERO then 0
                   else Stop(Guest, s.mem, nr, TOP, 0, First(s.mem, root, u)).level
  {
    hide Up, Leaf, Stop, First, Unlinked, Pending, Visit, Next;
    var x := First(s.mem, root, u);
    PendingCount(s, root, job, u, last, 1);
    PendingCount(s, root, job, u, last, 2);
    PendingCount(s, root, job, u, last, 3);
    UnlinkedIff(s.mem, job.cb.newRoot, 0, x, 1);
    UnlinkedIff(s.mem, job.cb.newRoot, 0, x, 2);
    UnlinkedIff(s.mem, job.cb.newRoot, 0, x, 3);
  }

  lemma PendingNone(mem: Mem, root: nat, newRoot: nat, u: nat, last: nat)
    requires u > last
    ensures PendingAll(mem, root, newRoot, u, last) == 0
  {
    hide Leaf, Unlinked, Up;
    assert forall m :: Pending(mem, root, newRoot, u, last, m) == {};
  }

  /** The walk of a clone succeeds exactly if there is room for the tables due. */
  lemma {:induction false} CloneWalkRoom(s: Vm, root: nat, job: Job, u: nat, last: nat)
    requires RangeFits(s, root, root, TOP, job, u, last) && job.create == CreateNone && job.cb.Clone?
    ensures var o := Flat(s, root, TOP, job, u, last);
            (o.Done? <==> PendingAll(s.mem, root, job.cb.newRoot, u, last) <= Room(s.pool)) && !o.Fail?
    decreases last + 1 - u
  {
    hide Room, Stop, Up, Visit, Reach, Leaf, Fits, Next, PendingAll, First, Keeps, Sound;
    if u <= last {
      RangeVisit(s, root, root, TOP, job, u, last);
      VisitCloneRoom(s, root, job, u);
      FitsRoot(s, root, job);
      var step := Visit(s, root, TOP, job, u);
      if step.Went? {
        RangeNext(s, root, root, TOP, job, u, last);
        PendingAllStep(s, root, job, u, last);
        CloneWalkRoom(step.s, root, job, Next(u, step.level), last);
      } else {
        PendingEnough(s, root, job, u, last);
      }
    } else {
      PendingNone(s.mem, root, job.cb.newRoot, u, last);
    }
  }

  // ----- the whole clone -----

  /** The level-`m` entries over the pages that are cloned. */
  ghost function Spanned(mem: Mem, root: nat, m: nat): set<nat> {
    set q | 0 <= q <= LAST_PAGE && Spans(mem, root, m, q)
  }

  ghost predicate Spans(mem: Mem, root: nat, m: nat, q: nat) {
    exists v :: IsPage(v) && Cloned(mem, root, v) && Up(v, m) == q
  }

  /** The new root, and a table for each of those entries. */
  ghost function CloneTables(mem: Mem, root: nat): nat {
    1 + |Spanned(mem, root, 1)| + |Spanned(mem, root, 2)| + |Spanned(mem, root, 3)|
  }

  lemma NewRootUnlinked(s: Vm, m: nat, q: nat)
    requires NewRoot(s).Some? && 0 < m <= TOP
    ensures Unlinked(NewRoot(s).value.0.mem, NewRoot(s).value.1, m, q)
  {
    hide Alloc, Up, Stop;
    var (s1, c) := NewRoot(s).value;
    StopStep(Guest, s1.mem, c, TOP, m, q);
    assert Rd(s1.mem, c, Up(q, TOP - m) % ENTRIES) == ZERO;
  }

  lemma NewRootDue(s: Vm, root: nat, m: nat)
    requires Sound(s) && Rooted(s.own) && IsRoot(s.own, root) && NewRoot(s).Some? && 0 < m <= TOP
    ensures var (s1, c) := NewRoot(s).value; Pending(s1.mem, root, c, 0, LAST_PAGE, m) == Spanned(s.mem, root, m)
  {
    hide NewRoot, Sound, Unlinked, Up, Leaf;
    var (s1, c) := NewRoot(s).value;
    forall v | IsPage(v)
      ensures Leaf(Guest, s1.mem, root, v) == Leaf(Guest, s.mem, root, v)
      ensures Touched(Leaf(Guest, s.mem, root, v).0, v, 0, LAST_PAGE)
    {
      NewRootOk(s, root, root, v);
      PageRange(v);
      UpMonotone(0, v, Leaf(Guest, s.mem, root, v).0);
      UpMonotone(v, LAST_PAGE, Leaf(Guest, s.mem, root, v).0);
    }
    forall v
      ensures ToClone(s1.mem, root, v, 0, LAST_PAGE) <==> IsPage(v) && Cloned(s.mem, root, v)
    {
    }
    forall q
      ensures Unlinked(s1.mem, c, m, q)
    {
      NewRootUnlinked(s, m, q);
    }
  }

  /** dune_vm_clone succeeds exactly if the pool has room for the new root and for one
      table over each 2 MB, 1 GB and 512 GB in which an entry begins. */
  lemma CloneRoomIff(s: Vm, root: nat)
    requires Sound(s) && Rooted(s.own) && IsRoot(s.own, root)
    ensures CloneAll(s, root).0.Done? <==> CloneTables(s.mem, root) <= Room(s.pool)
  {
    hide Room, Flat, Pending, Spanned, Alloc, Sound, RangeFits, Leaf;
    AllocRoom(s.pool);
    if NewRoot(s).Some? {
      var (s1, c) := NewRoot(s).value;
      PageRange(0);
      NewRootOk(s, root, root, 0);
      NewRootDue(s, root, 1);
      NewRootDue(s, root, 2);
      NewRootDue(s, root, 3);
      CloneWalkRoom(s1, root, CloneJob(c), 0, LAST_PAGE);
    }
  }
}
