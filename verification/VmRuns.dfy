/** Every run of the guest's memory routines keeps the reference counts exact. */
module VmRuns {
  import opened Radix
  import opened PagePool
  import opened Callbacks
  import opened GuestVm
  import opened VmInvariants
  import opened WalkRanges
  import opened WalkTheorems
  import opened Addresses
  import opened WalkNone
  import opened CloneTheorems
  import opened Conservation
  import opened PoolRuns
  import opened CowFault
  import opened CowTheorems
  import opened Accesses

  /** A new root is counted by its handle. */
  lemma NewRootConserves(s: Vm)
    requires Conserved(s) && NewRoot(s).Some?
    ensures Conserved(NewRoot(s).value.0)
  {
    hide Alloc, FreeOk, Apart, Tree;
    AllocCounts(s);
    NewRootSound(s);
    var (s1, c) := NewRoot(s).value;
    forall frame | PoolFrame(s1.pool, frame)
      ensures RefOf(s1.pool, frame) == Count(s1, frame)
    {
      NamesEmpty(s.mem, s.own, c, Node(c, TOP, 0, 0), frame);
    }
    assert forall i :: Rd(s1.mem, c, i) == ZERO;
    assert forall f: nat, i :: f != c ==> Rd(s1.mem, f, i) == Rd(s.mem, f, i);
  }

  /** The calls a process makes: a lookup that creates, a walk of mprotect,
      map_phys, map_pages or unmap over units, a clone, a handled fault; and what
      the processor writes when it accesses a page. */
  datatype Call =
    | LookupCall(root: nat, page: nat)
    | WalkCall(root: nat, job: Job, u: nat, last: nat)
    | CloneCall(root: nat)
    | FaultCall(root: nat, addr: nat, fec: set<nat>, checked: bool)
    | AccessCall(root: nat, page: nat, write: bool)

  /** What a call needs besides a valid root: see `RangeConserves`. A clone needs
      a root without big entries, a write fault a page without a big entry. */
  ghost predicate Ready(m: Vm, call: Call) {
    var s := m;
    match call
    case LookupCall(root, page) => IsRoot(s.own, root) && IsPage(page)
    case WalkCall(root, job, u, last) =>
      RangeFits(s, root, root, TOP, job, u, last) && !job.cb.Clone?
      && RangeConserves(s, root, job, u, last)
    case CloneCall(root) =>
      IsRoot(s.own, root) && forall v :: IsPage(v) ==> Leaf(Guest, s.mem, root, v).0 == 0
    case FaultCall(root, addr, fec, _) =>
      IsRoot(s.own, root)
      && (FEC_W in fec ==> Leaf(Guest, s.mem, root, PageOfVa(addr)).0 == 0)
    case AccessCall(root, page, _) => IsRoot(s.own, root) && IsPage(page)
  }

  /** The state after a call; none if the process dies in it. */
  function Perform(m: Vm, call: Call): Option<Vm> {
    match call
    case LookupCall(root, page) => Some(Locate(m, root, TOP, 0, page, true, true).s)
    case WalkCall(root, job, u, last) =>
      if Gran(job.create) > TOP then None
      else (match Flat(m, root, TOP, job, u, last)
            case Crash => None
            case o => Some(o.s))
    case CloneCall(root) =>
      (match CloneAll(m, root).0
       case Crash => None
       case o => Some(o.s))
    case FaultCall(root, addr, fec, checked) =>
      (match HandleFault(m, root, addr, fec, checked)
       case Dies => None
       case Handled(m1) => Some(m1))
    case AccessCall(root, page, write) => Some(m.(mem := AfterAccess(Guest, m.mem, root, TOP, page, write)))
  }

  lemma CloneReady(s: Vm, root: nat)
    requires Conserved(s) && IsRoot(s.own, root) && NewRoot(s).Some?
    requires forall v :: IsPage(v) ==> Leaf(Guest, s.mem, root, v).0 == 0
    ensures var (s1, c) := NewRoot(s).value;
            RangeFits(s1, root, root, TOP, CloneJob(c), 0, LAST_PAGE)
            && RangeConserves(s1, root, CloneJob(c), 0, LAST_PAGE)
  {
    hide NewRoot, Leaf, RangeFits, Tree, Apart, Clean, Linked, Counted, FreeOk, NoBigUnder, Touched;
    var (s1, c) := NewRoot(s).value;
    forall v | IsPage(v)
      ensures Leaf(Guest, s1.mem, root, v).0 == 0 && Leaf(Guest, s1.mem, c, v).1 == ZERO
    {
      NewRootOk(s, root, root, v);
    }
    PageRange(0);
    NewRootOk(s, root, root, 0);
    forall v | 0 <= v <= LAST_PAGE
      ensures IsPage(v)
    {
      PageRange(v);
    }
  }

  /** One call keeps the invariant, whatever it returns. */
  lemma PerformConserves(m: Vm, call: Call)
    requires Conserved(m) && Ready(m, call) && Perform(m, call).Some?
    ensures Conserved(Perform(m, call).value)
  {
    hide Conserved, Locate, Flat, NewRoot, HandleFault, Leaf, RangeConserves, RangeFits;
    ConservedSound(m);
    match call
    case LookupCall(root, page) =>
      RootAt(m.own, root, 0, page);
      LocateConserves(m, root, root, TOP, 0, page, true, true);
    case WalkCall(root, job, u, last) =>
      FlatConserves(m, root, job, u, last);
    case CloneCall(root) =>
      NewRootConserves(m);
      CloneReady(m, root);
      var (s1, c) := NewRoot(m).value;
      FlatConserves(s1, root, CloneJob(c), 0, LAST_PAGE);
    case FaultCall(root, addr, fec, checked) =>
      FaultConserves(m, root, addr, fec, checked);
    case AccessCall(root, page, write) =>
      RootAt(m.own, root, 0, page);
      AccessConserves(m, root, root, TOP, page, write);
  }

  /** A mark in an entry changes neither what it names nor what it counts for. */
  lemma MarkConserves(s: Vm, f: nat, i: nat, marks: set<nat>)
    requires Conserved(s) && f in s.own && i < ENTRIES && Present(Guest, Rd(s.mem, f, i)) && marks <= Marks(Guest)
    requires IsLink(Guest, Rd(s.mem, f, i), s.own[f].level) ==> marks <= LINK_MARKS
    ensures Conserved(s.(mem := Marked(s.mem, f, i, marks)))
  {
    hide FreeOk, Apart, Tree, Rooted, Names, Clean, Linked;
    MarkTree(Guest, s.mem, s.own, f, i, marks);
    MarkShape(s, f, i, marks);
    forall frame
      ensures Names(Marked(s.mem, f, i, marks), s.own, frame) == Names(s.mem, s.own, frame)
    {
      MarkNames(s.mem, s.own, f, i, marks, frame);
    }
  }

  lemma MarkNames(mem: Mem, own: Own, f: nat, i: nat, marks: set<nat>, frame: nat)
    requires i < ENTRIES && marks <= Marks(Guest)
    ensures Names(Marked(mem, f, i, marks), own, frame) == Names(mem, own, frame)
  {
    forall f', i'
      ensures Counts(Rd(Marked(mem, f, i, marks), f', i'), if f' in own then own[f'].level else 0, frame)
              == Counts(Rd(mem, f', i'), if f' in own then own[f'].level else 0, frame)
    {
      MarkRead(mem, f, i, marks, f', i');
      MarkWord(Guest, Rd(mem, f, i), marks, 0);
    }
  }

  lemma MarkShape(s: Vm, f: nat, i: nat, marks: set<nat>)
    requires Clean(s) && Linked(s) && f in s.own && i < ENTRIES && Present(Guest, Rd(s.mem, f, i))
             && marks <= Marks(Guest)
    requires IsLink(Guest, Rd(s.mem, f, i), s.own[f].level) ==> marks <= LINK_MARKS
    ensures var s1 := s.(mem := Marked(s.mem, f, i, marks)); Clean(s1) && Linked(s1)
  {
    hide IsLink, Big, Marked, Rd, Mark;
    var s1 := s.(mem := Marked(s.mem, f, i, marks));
    var w := Rd(s.mem, f, i);
    MarkWord(Guest, w, marks, s.own[f].level);
    forall f', i' | f' in s1.own && 0 <= i' < ENTRIES && s1.own[f'].level > 0
      ensures var w := Rd(s1.mem, f', i');
              w == ZERO || IsLink(Guest, w, s1.own[f'].level) || (s1.own[f'].level < TOP && Big(w))
    {
      MarkRead(s.mem, f, i, marks, f', i');
    }
    forall c {:trigger s1.own[c].parent} | c in s1.own && s1.own[c].level < TOP
      ensures Links(Rd(s1.mem, s1.own[c].parent, s1.own[c].prefix % ENTRIES), c)
    {
      var n := s.own[c];
      MarkRead(s.mem, f, i, marks, n.parent, n.prefix % ENTRIES);
      LinkWord(Rd(s.mem, n.parent, n.prefix % ENTRIES), c, n.level + 1);
      if n.parent == f && n.prefix % ENTRIES == i {
        MarkLinks(w, marks, c);
      }
    }
  }

  lemma MarkLinks(w: Word, marks: set<nat>, c: nat)
    requires Links(w, c) && marks <= LINK_MARKS
    ensures Links(Mark(w, marks), c)
  {
  }

  lemma {:induction false} AccessConserves(s: Vm, root: nat, f: nat, L: nat, v: nat, write: bool)
    requires Conserved(s) && Radix.At(s.own, f, root, L, 0, v)
    ensures Conserved(s.(mem := AfterAccess(Guest, s.mem, f, L, v, write)))
    decreases L
  {
    hide Conserved, Tree, Up, Marked, AfterAccess, IsLink;
    ConservedSound(s);
    var i := Up(v, L) % ENTRIES;
    var w := Rd(s.mem, f, i);
    AccessStep(Guest, s.mem, f, L, v, write);
    if IsLink(Guest, w, L) {
      MarkConserves(s, f, i, {AccessedBit(Guest)});
      MarkTree(Guest, s.mem, s.own, f, i, {AccessedBit(Guest)});
      ChildAt(Guest, s.mem, s.own, root, f, L, 0, v);
      AccessConserves(s.(mem := Marked(s.mem, f, i, {AccessedBit(Guest)})), root, w.frame, L - 1, v, write);
    } else if Present(Guest, w) {
      MarkConserves(s, f, i, if write then Marks(Guest) else {AccessedBit(Guest)});
    } else {
      assert s.(mem := s.mem) == s;
    }
  }

  lemma FaultConserves(m: Vm, root: nat, addr: nat, fec: set<nat>, checked: bool)
    requires Conserved(m) && Ready(m, FaultCall(root, addr, fec, checked))
    requires HandleFault(m, root, addr, fec, checked).Handled?
    ensures Conserved(HandleFault(m, root, addr, fec, checked).s)
  {
    hide Conserved, Locate, BreakCow, PageOfVa, Reach;
    ConservedSound(m);
    AddressPage(addr);
    var v := PageOfVa(addr);
    if FEC_W in fec {
      SmallFound(m, root, v);
      var r := Locate(m, root, TOP, 0, v, false, true);
      UpZero(v);
      if PTE_COW in Rd(m.mem, r.table, v % ENTRIES).bits {
        if PTE_P in Rd(m.mem, r.table, v % ENTRIES).bits {
          CowStep(m, root, addr, fec, checked);
        } else {
          NotPresentCow(m, r.table, v % ENTRIES, v);
        }
      }
    }
  }

  /** Without a big entry on the way, a lookup that finds a slot finds the 4 KB one. */
  lemma SmallFound(s: Vm, root: nat, v: nat)
    requires Sound(s) && IsRoot(s.own, root) && IsPage(v) && Leaf(Guest, s.mem, root, v).0 == 0
    ensures var r := Locate(s, root, TOP, 0, v, false, true);
            r.s == s && (r.Found? ==> r.level == 0 && Rd(s.mem, r.table, v % ENTRIES) == Leaf(Guest, s.mem, root, v).1
                                      && r.table in s.own && s.own[r.table].level == 0)
  {
    hide Locate, Stop;
    RootAt(s.own, root, 0, v);
    LocateExtends(s, root, root, TOP, 0, v, false, true);
    LocateStop(s, root, root, TOP, 0, v, false, true);
    StopAt(Guest, s.mem, s.own, root, root, TOP, 0, v);
    UpZero(v);
  }

  /** An entry that is not present can only be changed in place. */
  lemma NotPresentCow(m: Vm, t: nat, i: nat, v: nat)
    requires Conserved(m) && t in m.own && m.own[t].level == 0 && i < ENTRIES
    requires PTE_P !in Rd(m.mem, t, i).bits && BreakCow(m, t, 0, i, v).Handled?
    ensures Conserved(BreakCow(m, t, 0, i, v).s)
  {
    hide Conserved;
    var w := Rd(m.mem, t, i);
    SameNames(m, BreakCow(m, t, 0, i, v).s, t, i, Word(w.frame, w.bits - {PTE_COW} + {PTE_W}));
  }

  /** `m1` is a state that some run of calls, each ready when made, leads to. */
  ghost predicate Runs(m: Vm, calls: seq<Call>, m1: Vm)
    decreases |calls|
  {
    if calls == [] then m1 == m
    else Ready(m, calls[0]) && Perform(m, calls[0]).Some? && Runs(Perform(m, calls[0]).value, calls[1..], m1)
  }

  /** A process before it has any page table: page_init has run, and the root, a
      heap page outside the pool, is cleared. */
  ghost predicate NewProcess(m: Vm, root: nat) {
    var s := m;
    && FreeOk(s.pool) && |s.pool.refs| <= s.pool.cap && (forall k :: 0 <= k < |s.pool.refs| ==> s.pool.refs[k] == 0)
    && !PoolFrame(s.pool, root) && s.own == map[root := Node(root, TOP, 0, 0)] && s.mem == map[root := EMPTY_TABLE]
  }

  lemma NewProcessConserved(m: Vm, root: nat)
    requires NewProcess(m, root)
    ensures Conserved(m)
  {
    var s := m;
    assert forall f, i :: Rd(s.mem, f, i) == ZERO;
    forall frame | PoolFrame(s.pool, frame)
      ensures RefOf(s.pool, frame) == Count(s, frame)
    {
      assert Names(s.mem, s.own, frame) == {};
    }
  }

  /** Over every run, each pool page's count is the number of 4 KB entries and
      links that name it, plus one if it is a root; and the free list holds
      exactly the pages with count 0, once each. */
  lemma {:induction false} RunConserves(m: Vm, root: nat, calls: seq<Call>, m1: Vm)
    requires NewProcess(m, root) && Runs(m, calls, m1)
    ensures var s := m1;
            && (forall frame :: InPool(s.pool, frame) ==>
                  RefOf(s.pool, frame)
                    == |Names(s.mem, s.own, frame)| + if frame in s.own && s.own[frame].level == TOP then 1 else 0)
            && (forall k :: 0 <= k < |s.pool.refs| ==> (k in s.pool.free <==> s.pool.refs[k] == 0))
            && (forall i, j :: 0 <= i < j < |s.pool.free| ==> s.pool.free[i] != s.pool.free[j])
            && Tree(Guest, s.mem, s.own)
  {
    NewProcessConserved(m, root);
    RunKeeps(m, calls, m1);
    PoolFrames(m1);
  }

  lemma {:induction false} RunKeeps(m: Vm, calls: seq<Call>, m1: Vm)
    requires Conserved(m) && Runs(m, calls, m1)
    ensures Conserved(m1)
    decreases |calls|
  {
    hide Conserved, Ready, Perform;
    if calls != [] {
      PerformConserves(m, calls[0]);
      RunKeeps(Perform(m, calls[0]).value, calls[1..], m1);
    }
  }
}
