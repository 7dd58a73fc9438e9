/** When walks that create tables succeed: exactly if the pool has room for the
    tables that are missing. */
module WalkRoom {
  import opened Radix
  import opened PagePool
  import opened Callbacks
  import opened GuestVm
  import opened VmInvariants
  import opened WalkRanges
  import opened WalkTheorems

  // ----- one descent -----

  /** The walk breaks off where the descent would create a table. */
  predicate Breaks(h: Hit, g: nat, strict: bool) {
    h.level > g && !(h.level < TOP && Big(h.word) && (strict ==> PTE_P in h.word.bits))
  }

  /** How many tables a descent creates. */
  function Lacks(mem: Mem, f: nat, L: nat, g: nat, u: nat, strict: bool): nat
    requires g <= L
  {
    var h := Stop(Guest, mem, f, L, g, u);
    if Breaks(h, g, strict) then h.level - g else 0
  }

  ghost predicate Fetches(s: Vm, r: Place, n: nat) {
    && (r.Found? <==> n <= Room(s.pool))
    && (r.Found? ==> Room(r.s.pool) == Room(s.pool) - n && (n == 0 ==> r.s == s))
  }

  /** A descent that may create tables succeeds exactly if there is room for those
      that are missing; if none is, it changes nothing. */
  lemma {:induction false} LocateRoom(s: Vm, root: nat, f: nat, L: nat, g: nat, u: nat, strict: bool)
    requires Sound(s) && g <= L && Radix.At(s.own, f, root, L, g, u)
    ensures Fetches(s, Locate(s, f, L, g, u, true, strict), Lacks(s.mem, f, L, g, u, strict))
    decreases L
  {
    hide Alloc, NewTable, Tree, Up, Stop, Locate, Sound, Room, IsLink;
    var i := Up(u, L - g) % ENTRIES;
    var w := Rd(s.mem, f, i);
    SoundIsTree(s);
    StopStep(Guest, s.mem, f, L, g, u);
    LocateStep(s, f, L, g, u, strict);
    LinkIff(w, L);
    if L == g || (L < TOP && Big(w) && (PTE_P in w.bits || !strict)) {
    } else if PTE_P in w.bits {
      ChildAt(Guest, s.mem, s.own, root, f, L, g, u);
      LocateRoom(s, root, w.frame, L - 1, g, u, strict);
    } else {
      NewRoom(s, f, i);
      if NewTable(s, f, i).Some? {
        NewTableSound(s, f, i);
        var (s1, c) := NewTable(s, f, i).value;
        LinkIff(Rd(s1.mem, f, i), L);
        ChildAt(Guest, s1.mem, s1.own, root, f, L, g, u);
        LocateRoom(s1, root, c, L - 1, g, u, strict);
        EmptyBelow(s, f, i, L, g, u, strict);
      }
    }
  }

  lemma SoundIsTree(s: Vm)
    requires Sound(s)
    ensures Tree(Guest, s.mem, s.own)
  {
  }

  lemma LocateStep(s: Vm, f: nat, L: nat, g: nat, u: nat, strict: bool)
    requires g <= L
    ensures var i := Up(u, L - g) % ENTRIES; var w := Rd(s.mem, f, i);
            Locate(s, f, L, g, u, true, strict)
              == if L == g || (L < TOP && Big(w) && (PTE_P in w.bits || !strict)) then Found(s, f, L)
                 else if PTE_P in w.bits then Locate(s, w.frame, L - 1, g, u, true, strict)
                 else match NewTable(s, f, i)
                   case None => NoMem(s)
                   case Some((s1, c)) => Locate(s1, c, L - 1, g, u, true, strict)
  {
    hide NewTable, Up;
  }

  lemma NewRoom(s: Vm, f: nat, i: nat)
    requires i < ENTRIES
    ensures NewTable(s, f, i).Some? <==> Room(s.pool) > 0
    ensures NewTable(s, f, i).Some? ==> Room(NewTable(s, f, i).value.0.pool) == Room(s.pool) - 1
  {
    hide Alloc, Room;
    AllocRoom(s.pool);
  }

  /** A new table is empty: all that is below it is missing too. */
  lemma EmptyBelow(s: Vm, f: nat, i: nat, L: nat, g: nat, u: nat, strict: bool)
    requires g < L && i < ENTRIES && NewTable(s, f, i).Some? && NewTable(s, f, i).value.1 != f
    ensures var (s1, c) := NewTable(s, f, i).value; Lacks(s1.mem, c, L - 1, g, u, strict) == L - 1 - g
  {
    hide Alloc, Up, LinkMem, Stop;
    var (s1, c) := NewTable(s, f, i).value;
    LinkRead(s.mem, f, i, c, c, Up(u, L - 1 - g) % ENTRIES);
    StopStep(Guest, s1.mem, c, L - 1, g, u);
  }

  // ----- which tables are missing -----

  /** The level-`m` entry with prefix `q` is not reached, or is no link. */
  predicate Unlinked(mem: Mem, root: nat, m: nat, q: nat) {
    m <= TOP && var h := Stop(Guest, mem, root, TOP, m, q); !(h.level == m && IsLink(Guest, h.word, m))
  }

  /** On the way to a unit the tables below the level where the walk breaks off are
      missing, and no others. */
  lemma UnlinkedIff(mem: Mem, root: nat, g: nat, u: nat, m: nat)
    requires g < m <= TOP
    ensures Unlinked(mem, root, m, Up(u, m - g)) <==> m <= Stop(Guest, mem, root, TOP, g, u).level
  {
    hide Stop, Up, IsLink;
    var h := Stop(Guest, mem, root, TOP, g, u);
    StopVia(Guest, mem, root, TOP, m, g, u);
    if h.level == m {
      StopCoarse(Guest, mem, root, TOP, g, u, m);
    }
    var k := Stop(Guest, mem, root, TOP, m, Up(u, m - g));
    if k.level == m {
      StopStep(Guest, mem, k.table, m, g, u);
      UpZero(Up(u, m - g));
    }
  }

  /** Linking a table in a slot that is not on the way changes no walk. */
  lemma {:induction false} StopLinkElse(mem: Mem, own: Own, f0: nat, i0: nat, c: nat, root: nat, f: nat, L: nat, g: nat,
                                        u: nat)
    requires Tree(Guest, mem, own) && g <= L && Radix.At(own, f, root, L, g, u)
    requires f0 in own && i0 < ENTRIES && c !in own && !Covers(own, f0, i0, root, g, u)
    ensures Stop(Guest, LinkMem(mem, f0, i0, c), f, L, g, u) == Stop(Guest, mem, f, L, g, u)
    decreases L
  {
    hide Stop, Tree, Up, LinkMem, Covers, IsLink;
    var i := Up(u, L - g) % ENTRIES;
    var w := Rd(mem, f, i);
    CoversSlot(own, f, i0, root, L, g, u);
    LinkRead(mem, f0, i0, c, f, i);
    StopStep(Guest, mem, f, L, g, u);
    StopStep(Guest, LinkMem(mem, f0, i0, c), f, L, g, u);
    if L > g && IsLink(Guest, w, L) {
      ChildAt(Guest, mem, own, root, f, L, g, u);
      StopLinkElse(mem, own, f0, i0, c, root, w.frame, L - 1, g, u);
    }
  }

  /** A new table on the way to one unit is missing no longer; the others that were
      missing still are. */
  lemma LinkUnlinked(mem: Mem, own: Own, f: nat, i: nat, c: nat, root: nat, L: nat, g: nat, u: nat, r: nat, m: nat,
                     q: nat)
    requires Tree(Guest, mem, own) && g < L <= TOP && Radix.At(own, f, root, L, g, u) && i == Up(u, L - g) % ENTRIES
    requires c !in own && !Present(Guest, Rd(mem, f, i))
    requires IsRoot(own, r) && g < m <= TOP && Up(q, 4 - m) == 0 && (r != root || q != Up(u, m - g))
    ensures Unlinked(LinkMem(mem, f, i, c), r, m, q) == Unlinked(mem, r, m, q)
  {
    hide Stop, Tree, Up, LinkMem, IsLink;
    RootAt(own, r, m, q);
    if m < L {
      StopLink(Guest, mem, own, f, i, c, r, r, TOP, m, q);
      StopAt(Guest, mem, own, r, r, TOP, m, q);
      LinkIff(ZERO, m);
    } else {
      UpZero(q);
      assert Up(u, L - g + 1) == Up(u, L - g) / ENTRIES by {
        UpDivides(u, L - g);
      }
      StopLinkElse(mem, own, f, i, c, r, r, TOP, m, q);
    }
  }

  lemma UpDivides(u: nat, n: nat)
    ensures Up(u, n + 1) == Up(u, n) / ENTRIES
  {
  }

  lemma {:induction false} LocateElse(s: Vm, root: nat, f: nat, L: nat, g: nat, u: nat, strict: bool, r: nat, m: nat,
                                      q: nat)
    requires Sound(s) && g <= L <= TOP && Radix.At(s.own, f, root, L, g, u)
    requires IsRoot(s.own, r) && g < m <= TOP && Up(q, 4 - m) == 0 && (r != root || q != Up(u, m - g))
    ensures Unlinked(Locate(s, f, L, g, u, true, strict).s.mem, r, m, q) == Unlinked(s.mem, r, m, q)
    decreases L
  {
    hide Alloc, NewTable, Tree, Sound, IsRoot, Up, LinkMem, Locate, Unlinked, IsLink;
    var i := Up(u, L - g) % ENTRIES;
    var w := Rd(s.mem, f, i);
    SoundIsTree(s);
    LocateStep(s, f, L, g, u, strict);
    LinkIff(w, L);
    if L == g || (L < TOP && Big(w) && (PTE_P in w.bits || !strict)) {
    } else if PTE_P in w.bits {
      ChildAt(Guest, s.mem, s.own, root, f, L, g, u);
      LocateElse(s, root, w.frame, L - 1, g, u, strict, r, m, q);
    } else if NewTable(s, f, i).Some? {
      NewTableSound(s, f, i);
      var (s1, c) := NewTable(s, f, i).value;
      LinkIff(Rd(s1.mem, f, i), L);
      ChildAt(Guest, s1.mem, s1.own, root, f, L, g, u);
      LinkUnlinked(s.mem, s.own, f, i, c, root, L, g, u, r, m, q);
      LocateElse(s1, root, c, L - 1, g, u, strict, r, m, q);
    }
  }

  /** How many of the level-`m` entries with prefixes `lo` to `hi` are not linked. */
  function Tables(mem: Mem, root: nat, m: nat, lo: nat, hi: nat): nat
    decreases hi + 1 - lo
  {
    if lo > hi then 0 else One(Unlinked(mem, root, m, lo)) + Tables(mem, root, m, lo + 1, hi)
  }

  /** How many tables are missing on the way to the units `u` to `last`. */
  function Missing(mem: Mem, root: nat, g: nat, u: nat, last: nat): nat {
    if u > last then 0
    else MissingAt(mem, root, g, u, last, 1) + MissingAt(mem, root, g, u, last, 2) + MissingAt(mem, root, g, u, last, 3)
  }

  /** ... of which so many are linked from level-`m` entries. */
  function MissingAt(mem: Mem, root: nat, g: nat, u: nat, last: nat, m: nat): nat {
    if m > g then Tables(mem, root, m, Up(u, m - g), Up(last, m - g)) else 0
  }

  lemma {:induction false} TablesSame(mem: Mem, mem1: Mem, root: nat, m: nat, lo: nat, hi: nat)
    requires forall q :: lo <= q <= hi ==> Unlinked(mem1, root, m, q) == Unlinked(mem, root, m, q)
    ensures Tables(mem1, root, m, lo, hi) == Tables(mem, root, m, lo, hi)
    decreases hi + 1 - lo
  {
    hide Unlinked;
    if lo <= hi {
      TablesSame(mem, mem1, root, m, lo + 1, hi);
    }
  }

  lemma TablesStep(mem: Mem, mem1: Mem, root: nat, m: nat, lo: nat, hi: nat, lo1: nat)
    requires lo <= hi && lo <= lo1 <= lo + 1
    requires forall q :: lo <= q <= hi ==> (Unlinked(mem1, root, m, q) <==> Unlinked(mem, root, m, q) && q != lo)
    ensures Tables(mem, root, m, lo, hi) == One(Unlinked(mem, root, m, lo)) + Tables(mem1, root, m, lo1, hi)
  {
    hide Unlinked;
    TablesSame(mem, mem1, root, m, lo + 1, hi);
    assert Tables(mem1, root, m, lo, hi) == One(Unlinked(mem1, root, m, lo)) + Tables(mem1, root, m, lo + 1, hi);
  }

  /** The tables on the way to unit `u` are linked now; all other entries above the
      walk's own level are links exactly if they were. */
  ghost predicate Paved(mem: Mem, mem1: Mem, root: nat, g: nat, u: nat) {
    forall m, q :: g < m <= TOP && Up(q, 4 - m) == 0 ==>
      (Unlinked(mem1, root, m, q) <==> Unlinked(mem, root, m, q) && q != Up(u, m - g))
  }

  lemma UpSucc(u: nat, n: nat)
    ensures Up(u, n) <= Up(u + 1, n) <= Up(u, n) + 1
  {
    hide Up;
    UpMonotone(u, u + 1, n);
    NextPrefix(u, Next(u, n), n);
    UpMonotone(u + 1, Next(u, n), n);
  }

  lemma MissingStepAt(mem: Mem, mem1: Mem, root: nat, g: nat, u: nat, last: nat, m: nat)
    requires g < m <= TOP && u <= last && Up(last, 4 - g) == 0 && Paved(mem, mem1, root, g, u)
    ensures MissingAt(mem, root, g, u, last, m)
              == One(Unlinked(mem, root, m, Up(u, m - g)))
                 + if u < last then MissingAt(mem1, root, g, u + 1, last, m) else 0
  {
    hide Up, Unlinked;
    var lo, hi := Up(u, m - g), Up(last, m - g);
    UpMonotone(u, last, m - g);
    UpAdd(last, m - g, 4 - m);
    forall q | lo <= q <= hi
      ensures Unlinked(mem1, root, m, q) <==> Unlinked(mem, root, m, q) && q != lo
    {
      UpBounded(q, hi, 4 - m);
    }
    if u < last {
      UpSucc(u, m - g);
      TablesStep(mem, mem1, root, m, lo, hi, Up(u + 1, m - g));
    } else {
      assert Tables(mem, root, m, lo + 1, hi) == 0;
    }
  }

  /** Once unit `u` has its tables, so many fewer are missing. */
  lemma MissingStep(mem: Mem, mem1: Mem, root: nat, g: nat, u: nat, last: nat)
    requires g <= 2 && u <= last && Up(last, 4 - g) == 0 && Paved(mem, mem1, root, g, u)
    ensures Missing(mem, root, g, u, last)
              == Stop(Guest, mem, root, TOP, g, u).level - g + Missing(mem1, root, g, u + 1, last)
  {
    hide Up, Unlinked, Tables, Stop, Paved;
    MissingAll(mem, mem1, root, g, u, last, 1);
    MissingAll(mem, mem1, root, g, u, last, 2);
    MissingAll(mem, mem1, root, g, u, last, 3);
  }

  lemma MissingAll(mem: Mem, mem1: Mem, root: nat, g: nat, u: nat, last: nat, m: nat)
    requires 1 <= m <= TOP && u <= last && g <= 2 && Up(last, 4 - g) == 0 && Paved(mem, mem1, root, g, u)
    ensures MissingAt(mem, root, g, u, last, m)
              == One(g < m <= Stop(Guest, mem, root, TOP, g, u).level)
                 + if u < last then MissingAt(mem1, root, g, u + 1, last, m) else 0
  {
    hide Up, Unlinked, Tables, Stop, Paved;
    if g < m {
      MissingStepAt(mem, mem1, root, g, u, last, m);
      UnlinkedIff(mem, root, g, u, m);
    }
  }

  // ----- walks that create -----

  lemma CreatesFacts(s: Vm, root: nat, job: Job, u: nat, last: nat)
    requires Creates(s, root, job, u, last)
    ensures Sound(s) && IsRoot(s.own, root) && !job.cb.Clone? && !job.cb.Free?
    ensures Gran(job.create) <= 2 && Up(last, 4 - Gran(job.create)) == 0
  {
  }

  /** No big entry is in the way. */
  lemma ClearWay(s: Vm, root: nat, job: Job, u: nat, last: nat)
    requires Creates(s, root, job, u, last) && u <= last
    ensures var g := Gran(job.create); var h := Stop(Guest, s.mem, root, TOP, g, u);
            Lacks(s.mem, root, TOP, g, u, false) == h.level - g
  {
    hide Leaf, Up, Stop, Reach, RangeFits;
    var g := Gran(job.create);
    var h := Stop(Guest, s.mem, root, TOP, g, u);
    CreatesFacts(s, root, job, u, last);
    if h.level > g && h.level < TOP && Big(h.word) {
      UpBounded(u, last, 4 - g);
      LoPage(u, g);
      StopReach(s.mem, root, g, u);
      FoundLeaf(s, root, h.table, h.level, Up(u, h.level - g), Lo(u, g), g, u);
    }
  }

  lemma StopReach(mem: Mem, root: nat, g: nat, u: nat)
    requires g <= TOP
    ensures var h := Stop(Guest, mem, root, TOP, g, u); Reach(Guest, mem, root, h.table, h.level, Up(u, h.level - g))
  {
    hide Stop, Up, IsLink, Rd;
    var h := Stop(Guest, mem, root, TOP, g, u);
    StopCoarse(Guest, mem, root, TOP, g, u, h.level);
  }

  /** The pages a callback takes for its entry. */
  function Extra(job: Job): nat {
    One(job.cb.MapPages?)
  }

  /** The callback of a creating walk: it fails exactly if it finds no page. */
  lemma TouchRoom(s: Vm, root: nat, t: nat, job: Job, p: nat)
    requires Fits(s, root, job) && SlotFits(s, root, t, Gran(job.create), job, p) && job.create != CreateNone
             && IsRoot(s.own, root)
    ensures var step := Touch(s, t, Gran(job.create), job, p);
            && (step.Went? <==> Extra(job) <= Room(s.pool)) && (step.Stopped? ==> step.o.Fail?)
            && (step.Went? ==> Room(step.s.pool) == Room(s.pool) - Extra(job)
                               && forall m, q :: Gran(job.create) < m <= TOP && Up(q, 4 - m) == 0
                                    ==> Unlinked(step.s.mem, root, m, q) == Unlinked(s.mem, root, m, q))
  {
    hide Alloc, Room, Reach, SlotVa, FrameOfPa, Stop, Up, IsLink;
    var g := Gran(job.create);
    var w := Rd(s.mem, t, p % ENTRIES);
    AllocRoom(s.pool);
    ReachAt(Guest, s.mem, s.own, root, t, g, p);
    var r := Rewrite(s, job.cb, w, SlotVa(job, g, p));
    if r.Some? {
      forall m, q | g < m <= TOP && Up(q, 4 - m) == 0
        ensures Unlinked(Wr(s.mem, t, p % ENTRIES, r.value.1), root, m, q) == Unlinked(s.mem, root, m, q)
      {
        RootAt(s.own, root, m, q);
        StopWrite(Guest, s.mem, s.own, t, p % ENTRIES, r.value.1, root, root, TOP, m, q);
      }
    }
  }

  /** One visit of a creating walk. */
  lemma VisitRoom(s: Vm, root: nat, job: Job, u: nat, last: nat)
    requires Creates(s, root, job, u, last) && u <= last
    ensures var g := Gran(job.create); var step := Visit(s, root, TOP, job, u);
            var n := Stop(Guest, s.mem, root, TOP, g, u).level - g + Extra(job);
            && (step.Went? <==> n <= Room(s.pool)) && (step.Stopped? ==> step.o.Fail?)
            && (step.Went? ==> step.level == g && Room(step.s.pool) == Room(s.pool) - n
                               && Paved(s.mem, step.s.mem, root, g, u))
  {
    hide Alloc, Room, Reach, Stop, Up, Leaf, Locate, Touch, RangeFits, Unlinked, Lacks;
    var g := Gran(job.create);
    CreatesFacts(s, root, job, u, last);
    CreatesVisit(s, root, job, u, last);
    ClearWay(s, root, job, u, last);
    UpBounded(u, last, 4 - g);
    RootAt(s.own, root, g, u);
    LocateRoom(s, root, root, TOP, g, u, false);
    VisitFinds(s, root, root, TOP, job, u);
    var r := Locate(s, root, TOP, g, u, true, false);
    if r.Found? {
      FoundOwn(s, root, job, u, last);
      UpZero(u);
      TouchRoom(r.s, root, r.table, job, u);
      forall m, q | g < m <= TOP && Up(q, 4 - m) == 0
        ensures Unlinked(r.s.mem, root, m, q) <==> Unlinked(s.mem, root, m, q) && q != Up(u, m - g)
      {
        if q == Up(u, m - g) {
          UnlinkedIff(r.s.mem, root, g, u, m);
        } else {
          LocateElse(s, root, root, TOP, g, u, false, root, m, q);
        }
      }
    }
  }

  lemma CreatesVisit(s: Vm, root: nat, job: Job, u: nat, last: nat)
    requires Creates(s, root, job, u, last) && u <= last
    ensures VisitFits(s, root, root, TOP, job, u)
  {
    hide RangeFits, Leaf, Up;
    RangeVisit(s, root, root, TOP, job, u, last);
  }

  /** The slot found is the unit's own. */
  lemma FoundOwn(s: Vm, root: nat, job: Job, u: nat, last: nat)
    requires Creates(s, root, job, u, last) && u <= last
             && Locate(s, root, TOP, Gran(job.create), u, true, false).Found?
    ensures var g := Gran(job.create); var r := Locate(s, root, TOP, g, u, true, false);
            && r.level == g && Stop(Guest, r.s.mem, root, TOP, g, u).level == g && IsRoot(r.s.own, root)
            && Fits(r.s, root, job) && SlotFits(r.s, root, r.table, g, job, u)
  {
    hide Leaf, Reach, Locate, Up, Stop, RangeFits, Touch;
    var g := Gran(job.create);
    CreatesFacts(s, root, job, u, last);
    CreatesVisit(s, root, job, u, last);
    VisitFinds(s, root, root, TOP, job, u);
    UpZero(u);
    var r := Locate(s, root, TOP, g, u, true, false);
    FitsRoot(r.s, root, job);
    var v := Lo(u, g);
    UpBounded(u, last, 4 - g);
    LoPage(u, g);
    if r.level > g {
      VisitAt(s, root, root, TOP, job, u);
      LocateLeaf(s, root, root, TOP, g, u, true, false, root, v);
      FoundLeaf(r.s, root, r.table, r.level, Up(u, r.level - g), v, g, u);
    }
  }

  /** The next unit of a creating walk finds what the first one found. */
  lemma CreatesNext(s: Vm, root: nat, job: Job, u: nat, last: nat)
    requires Creates(s, root, job, u, last) && u <= last && Visit(s, root, TOP, job, u).Went?
    ensures Creates(Visit(s, root, TOP, job, u).s, root, job, u + 1, last)
  {
    hide Alloc, Room, Reach, Stop, Up, Leaf, Locate, Touch, RangeFits, TouchWord, Visit;
    var g := Gran(job.create);
    CreatesFacts(s, root, job, u, last);
    CreatesVisit(s, root, job, u, last);
    RangeNext(s, root, root, TOP, job, u, last);
    VisitLevel(s, root, TOP, job, u);
    VisitFinds(s, root, root, TOP, job, u);
    FoundOwn(s, root, job, u, last);
    var s1 := Visit(s, root, TOP, job, u).s;
    forall v | IsPage(v) && u + 1 <= Up(v, g) <= last
      ensures Leaf(Guest, s1.mem, root, v).0 <= g
    {
      VisitLeaf(s, root, root, TOP, job, u, root, v);
    }
  }

  /** How many pages a walk over the units `u` to `last` takes from the pool. */
  function Cost(mem: Mem, root: nat, job: Job, u: nat, last: nat): nat {
    Missing(mem, root, Gran(job.create), u, last) + if u <= last then (last + 1 - u) * Extra(job) else 0
  }

  /** A creating walk succeeds exactly if the pool has room for the tables that are
      missing and the pages it maps, and it takes just those. */
  lemma {:induction false} FlatRoom(s: Vm, root: nat, job: Job, u: nat, last: nat)
    requires Creates(s, root, job, u, last)
    ensures var o := Flat(s, root, TOP, job, u, last); var n := Cost(s.mem, root, job, u, last);
            && (o.Done? <==> n <= Room(s.pool)) && (o.Done? || o.Fail?)
            && (o.Done? ==> Room(o.s.pool) == Room(s.pool) - n)
    decreases last + 1 - u
  {
    hide Room, Stop, Up, Visit, Creates, Missing;
    CreatesFacts(s, root, job, u, last);
    if u <= last {
      VisitRoom(s, root, job, u, last);
      var step := Visit(s, root, TOP, job, u);
      if step.Went? {
        CreatesNext(s, root, job, u, last);
        MissingStep(s.mem, step.s.mem, root, Gran(job.create), u, last);
        FlatRoom(step.s, root, job, u + 1, last);
      } else {
        MissingFirst(s.mem, root, Gran(job.create), u, last);
      }
    } else {
      MissingNone(s.mem, root, Gran(job.create), u, last);
    }
  }

  lemma MissingNone(mem: Mem, root: nat, g: nat, u: nat, last: nat)
    requires u > last
    ensures Missing(mem, root, g, u, last) == 0
  {
  }

  /** The first unit alone may lack too many. */
  lemma MissingFirst(mem: Mem, root: nat, g: nat, u: nat, last: nat)
    requires g <= 2 && u <= last
    ensures Stop(Guest, mem, root, TOP, g, u).level - g <= Missing(mem, root, g, u, last)
  {
    hide Up, Unlinked, Stop;
    FirstAt(mem, root, g, u, last, 1);
    FirstAt(mem, root, g, u, last, 2);
    FirstAt(mem, root, g, u, last, 3);
  }

  lemma FirstAt(mem: Mem, root: nat, g: nat, u: nat, last: nat, m: nat)
    requires 1 <= m <= TOP && u <= last
    ensures One(g < m <= Stop(Guest, mem, root, TOP, g, u).level) <= MissingAt(mem, root, g, u, last, m)
  {
    hide Up, Unlinked, Stop;
    if g < m {
      UpMonotone(u, last, m - g);
      UnlinkedIff(mem, root, g, u, m);
    }
  }

  /** At most every table on the way is missing. */
  lemma {:induction false} TablesBound(mem: Mem, root: nat, m: nat, lo: nat, hi: nat)
    requires lo <= hi + 1
    ensures Tables(mem, root, m, lo, hi) <= hi + 1 - lo
    decreases hi + 1 - lo
  {
    hide Unlinked;
    if lo <= hi {
      TablesBound(mem, root, m, lo + 1, hi);
    }
  }

  /** How many tables lie on the way to the units `u` to `last`, at most. */
  function Spread(g: nat, u: nat, last: nat): nat
    requires u <= last && g <= TOP
  {
    SpreadAt(g, u, last, 1) + SpreadAt(g, u, last, 2) + SpreadAt(g, u, last, 3)
  }

  function SpreadAt(g: nat, u: nat, last: nat, m: nat): nat
    requires u <= last
  {
    if m > g then
      UpMonotone(u, last, m - g);
      Up(last, m - g) + 1 - Up(u, m - g)
    else 0
  }

  lemma MissingBound(mem: Mem, root: nat, g: nat, u: nat, last: nat)
    requires u <= last && g <= TOP
    ensures Missing(mem, root, g, u, last) <= Spread(g, u, last)
  {
    hide Up, Tables;
    MissingBoundAt(mem, root, g, u, last, 1);
    MissingBoundAt(mem, root, g, u, last, 2);
    MissingBoundAt(mem, root, g, u, last, 3);
  }

  lemma MissingBoundAt(mem: Mem, root: nat, g: nat, u: nat, last: nat, m: nat)
    requires u <= last
    ensures MissingAt(mem, root, g, u, last, m) <= SpreadAt(g, u, last, m)
  {
    hide Up, Tables;
    if m > g {
      UpMonotone(u, last, m - g);
      TablesBound(mem, root, m, Up(u, m - g), Up(last, m - g));
    }
  }

  // ----- what a failing walk leaves -----

  /** A visit that fails has made tables at most. */
  lemma StoppedLeaf(s: Vm, root: nat, job: Job, u: nat, r: nat, v: nat)
    requires VisitFits(s, root, root, TOP, job, u) && job.create != CreateNone && !job.cb.Clone?
    requires IsRoot(s.own, r) && IsPage(v)
    ensures var step := Visit(s, root, TOP, job, u);
            step.Stopped? && step.o.Fail? ==> Leaf(Guest, step.o.s.mem, r, v) == Leaf(Guest, s.mem, r, v)
  {
    hide Alloc, Locate, Leaf, Reach, Up;
    VisitAt(s, root, root, TOP, job, u);
    FitsSound(s, root, root, TOP, job, u);
    LocateLeaf(s, root, root, TOP, Gran(job.create), u, true, false, r, v);
  }

  lemma FitsSound(s: Vm, root: nat, f: nat, L: nat, job: Job, u: nat)
    requires VisitFits(s, root, f, L, job, u) && job.create != CreateNone
    ensures Sound(s) && Tree(Guest, s.mem, s.own)
  {
  }

  /** Whether map_phys or map_pages succeeds or fails, it changes no page outside its
      range, and none of another root. */
  lemma {:induction false} CreatesElse(s: Vm, root: nat, job: Job, u: nat, last: nat, r: nat, v: nat)
    requires Creates(s, root, job, u, last) && IsRoot(s.own, r) && IsPage(v)
    requires r != root || !(u <= Up(v, Gran(job.create)) <= last)
    ensures var o := Flat(s, root, TOP, job, u, last);
            o.Crash? || Leaf(Guest, o.s.mem, r, v) == Leaf(Guest, s.mem, r, v)
    decreases last + 1 - u
  {
    hide Alloc, Reach, Leaf, Locate, Touch, RangeFits, TouchWord, Visit, Up, Room;
    if u <= last {
      CreatesFacts(s, root, job, u, last);
      CreatesVisit(s, root, job, u, last);
      StoppedLeaf(s, root, job, u, r, v);
      var step := Visit(s, root, TOP, job, u);
      if step.Went? {
        VisitLeaf(s, root, root, TOP, job, u, r, v);
        VisitLevel(s, root, TOP, job, u);
        FoundOwn(s, root, job, u, last);
        UpZero(u);
        CreatesNext(s, root, job, u, last);
        RangeNext(s, root, root, TOP, job, u, last);
        KeepsRoot(s, step.s, job, r);
        CreatesElse(step.s, root, job, u + 1, last, r, v);
      }
    }
  }
}
