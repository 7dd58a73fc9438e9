/** What one visit of the guest page walk keeps and changes. */
module VmInvariants {
  import opened Radix
  import opened PagePool
  import opened Callbacks
  import opened GuestVm

  /** The tables form a tree, and none of them is on the free list. All are pool
      pages, except that the process's own root comes from the heap. */
  ghost predicate Sound(s: Vm) {
    && Tree(Guest, s.mem, s.own)
    && Apart(s.own, s.pool)
  }

  ghost predicate Apart(own: Own, pool: Pool) {
    && ListOk(pool)
    && (forall f :: f in own && PoolFrame(pool, f) ==> InPool(pool, f))
    && (forall k :: k in pool.free ==> FrameOf(k) !in own)
  }

  /** Tables stay where they are, and so do the links above level `g`. */
  ghost predicate Keeps(s: Vm, s1: Vm, g: nat) {
    && (forall f :: f in s.own ==> f in s1.own && s1.own[f] == s.own[f])
    && (forall f, i :: f in s.own && 0 <= i < ENTRIES && s.own[f].level > g
                       && IsLink(Guest, Rd(s.mem, f, i), s.own[f].level)
          ==> Rd(s1.mem, f, i) == Rd(s.mem, f, i))
  }

  /** No table below root `r` has an entry with PS set above level 0. */
  ghost predicate NoBigUnder(s: Vm, r: nat) {
    forall f, i :: f in s.own && 0 <= i < ENTRIES && s.own[f].root == r && s.own[f].level > 0
      ==> !Big(Rd(s.mem, f, i))
  }

  lemma NewTableOk(s: Vm, f: nat, i: nat)
    requires Sound(s) && f in s.own && s.own[f].level > 0 && i < ENTRIES
    requires !Present(Guest, Rd(s.mem, f, i)) && NewTable(s, f, i).Some?
    ensures var (s1, c) := NewTable(s, f, i).value;
            && Sound(s1) && Keeps(s, s1, 0) && c !in s.own && c in s1.own
            && s1.own[c] == Node(s.own[f].root, s.own[f].level - 1, s.own[f].prefix * ENTRIES + i, f)
            && Rd(s1.mem, f, i) == Word(c, LINK_BITS)
            && (forall r :: NoBigUnder(s, r) ==> NoBigUnder(s1, r))
  {
    AllocList(s.pool);
    var (s1, c) := NewTable(s, f, i).value;
    LinkTree(Guest, s.mem, s.own, f, i, c);
    forall f', i' | 0 <= i' < ENTRIES
      ensures Rd(s1.mem, f', i') == if f' == f && i' == i then Word(c, LINK_BITS)
                                    else if f' == c then ZERO else Rd(s.mem, f', i')
    {
      LinkRead(s.mem, f, i, c, f', i');
    }
  }

  lemma NewTableSound(s: Vm, f: nat, i: nat)
    requires Sound(s) && f in s.own && s.own[f].level > 0 && i < ENTRIES
    requires !Present(Guest, Rd(s.mem, f, i)) && NewTable(s, f, i).Some?
    ensures var (s1, c) := NewTable(s, f, i).value;
            Sound(s1) && Tree(Guest, s1.mem, s1.own) && f in s1.own && s1.own[f] == s.own[f]
            && Rd(s1.mem, f, i) == Word(c, LINK_BITS) && s1.mem == LinkMem(s.mem, f, i, c) && c !in s.own
            && (forall r :: IsRoot(s.own, r) ==> IsRoot(s1.own, r))
            && (forall r :: NoBigUnder(s, r) ==> NoBigUnder(s1, r))
  {
    NewTableOk(s, f, i);
  }

  lemma KeepsTrans(s: Vm, s1: Vm, s2: Vm, g: nat)
    requires Keeps(s, s1, g) && Keeps(s1, s2, g)
    ensures Keeps(s, s2, g)
  {
    forall f, i | f in s.own && 0 <= i < ENTRIES && s.own[f].level > g && IsLink(Guest, Rd(s.mem, f, i), s.own[f].level)
      ensures Rd(s2.mem, f, i) == Rd(s.mem, f, i)
    {
      assert Rd(s1.mem, f, i) == Rd(s.mem, f, i);
    }
  }

  /** What any number of descents keep. */
  ghost predicate Extends(s: Vm, s1: Vm) {
    && Tree(Guest, s1.mem, s1.own) && (Sound(s) ==> Sound(s1)) && Keeps(s, s1, 0)
    && s1.log == s.log && s1.data == s.data && (forall r :: NoBigUnder(s, r) ==> NoBigUnder(s1, r))
  }

  lemma ExtendsRefl(s: Vm)
    requires Tree(Guest, s.mem, s.own)
    ensures Extends(s, s)
  {
  }

  lemma ExtendsKeeps(s: Vm, s1: Vm)
    requires Extends(s, s1)
    ensures Keeps(s, s1, 0)
  {
  }

  lemma ExtendsTrans(s: Vm, s1: Vm, s2: Vm)
    requires Extends(s, s1) && Extends(s1, s2)
    ensures Extends(s, s2)
  {
    hide Tree, Sound, NoBigUnder;
    KeepsTrans(s, s1, s2, 0);
  }

  lemma NewTableExtends(s: Vm, f: nat, i: nat)
    requires Sound(s) && f in s.own && s.own[f].level > 0 && i < ENTRIES
    requires !Present(Guest, Rd(s.mem, f, i)) && NewTable(s, f, i).Some?
    ensures Extends(s, NewTable(s, f, i).value.0)
  {
    hide Alloc, Tree;
    NewTableOk(s, f, i);
  }

  lemma {:induction false} LocateExtends(s: Vm, root: nat, f: nat, L: nat, g: nat, u: nat, create: bool, strict: bool)
    requires Tree(Guest, s.mem, s.own) && (create ==> Sound(s))
    requires g <= L && Radix.At(s.own, f, root, L, g, u)
    ensures var r := Locate(s, f, L, g, u, create, strict);
            Extends(s, r.s) && (!create ==> r.s == s) && (r.NoMem? ==> create) && (r.Absent? ==> !create)
    decreases L
  {
    hide Alloc, NewTable, Tree, Sound, Extends, Up, LinkMem, NoBigUnder;
    var i := Up(u, L - g) % ENTRIES;
    var w := Rd(s.mem, f, i);
    ExtendsRefl(s);
    if L == g || (L < TOP && Big(w) && (PTE_P in w.bits || !strict)) {
    } else if PTE_P in w.bits {
      ChildAt(Guest, s.mem, s.own, root, f, L, g, u);
      LocateExtends(s, root, w.frame, L - 1, g, u, create, strict);
    } else if create && NewTable(s, f, i).Some? {
      NewTableSound(s, f, i);
      NewTableExtends(s, f, i);
      var (s1, c) := NewTable(s, f, i).value;
      ChildAt(Guest, s1.mem, s1.own, root, f, L, g, u);
      LocateExtends(s1, root, c, L - 1, g, u, create, strict);
      ExtendsTrans(s, s1, Locate(s1, c, L - 1, g, u, create, strict).s);
    }
  }

  lemma LinkIff(w: Word, level: nat)
    ensures IsLink(Guest, w, level) <==> level > 0 && PTE_P in w.bits && !(level < TOP && Big(w))
  {
  }

  lemma LinkStays(s: Vm, s1: Vm, g: nat, f: nat, i: nat)
    requires Keeps(s, s1, g) && f in s.own && i < ENTRIES && s.own[f].level > g
    requires IsLink(Guest, Rd(s.mem, f, i), s.own[f].level)
    ensures Rd(s1.mem, f, i) == Rd(s.mem, f, i)
  {
  }

  /** The slot found is where the walk of the resulting tables stops; there it has
      either reached its level or met an entry with PS set. If nothing is found,
      the walk breaks off at an entry that is not present. */
  ghost predicate Lands(r: Place, f: nat, L: nat, g: nat, u: nat, strict: bool)
    requires g <= L
  {
    var h := Stop(Guest, r.s.mem, f, L, g, u);
    && (r.Found? ==> h.table == r.table && h.level == r.level && (r.level > g ==> Big(h.word) && r.level < TOP))
    && (r.Absent? ==> h.level == r.level && r.level > g && !Present(Guest, h.word)
                      && (r.level < TOP && !strict ==> !Big(h.word)))
  }

  lemma {:induction false} LocateStop(s: Vm, root: nat, f: nat, L: nat, g: nat, u: nat, create: bool, strict: bool)
    requires Tree(Guest, s.mem, s.own) && (create ==> Sound(s))
    requires g <= L && Radix.At(s.own, f, root, L, g, u)
    ensures Lands(Locate(s, f, L, g, u, create, strict), f, L, g, u, strict)
    decreases L
  {
    hide Alloc, NewTable, Tree, Sound, Keeps, NoBigUnder, Stop, IsRoot, LinkMem, Up, Next, Lands, IsLink, Rd, Extends;
    var i := Up(u, L - g) % ENTRIES;
    var w := Rd(s.mem, f, i);
    var r := Locate(s, f, L, g, u, create, strict);
    LinkIff(w, L);
    if L == g || (L < TOP && Big(w) && (PTE_P in w.bits || !strict)) {
      LandsHere(r, f, L, g, u, strict);
    } else if PTE_P in w.bits {
      ChildAt(Guest, s.mem, s.own, root, f, L, g, u);
      LocateStop(s, root, w.frame, L - 1, g, u, create, strict);
      LocateExtends(s, root, w.frame, L - 1, g, u, create, strict);
      ExtendsKeeps(s, r.s);
      LinkStays(s, r.s, 0, f, i);
      LandsBelow(r, f, L, g, u, strict);
    } else if create && NewTable(s, f, i).Some? {
      NewTableSound(s, f, i);
      var (s1, c) := NewTable(s, f, i).value;
      LinkIff(Rd(s1.mem, f, i), L);
      ChildAt(Guest, s1.mem, s1.own, root, f, L, g, u);
      LocateStop(s1, root, c, L - 1, g, u, create, strict);
      LocateExtends(s1, root, c, L - 1, g, u, create, strict);
      ExtendsKeeps(s1, r.s);
      LinkStays(s1, r.s, 0, f, i);
      LandsBelow(r, f, L, g, u, strict);
    } else {
      LandsHere(r, f, L, g, u, strict);
    }
  }

  lemma LandsHere(r: Place, f: nat, L: nat, g: nat, u: nat, strict: bool)
    requires g <= L
    requires var w := Rd(r.s.mem, f, Up(u, L - g) % ENTRIES);
             || (r.Found? && r.table == f && r.level == L && (L == g || (Big(w) && L < TOP)))
             || (r.Absent? && r.level == L && L > g && !Present(Guest, w) && (L < TOP && !strict ==> !Big(w)))
             || r.NoMem?
    ensures Lands(r, f, L, g, u, strict)
  {
  }

  lemma LandsBelow(r: Place, f: nat, L: nat, g: nat, u: nat, strict: bool)
    requires g < L && IsLink(Guest, Rd(r.s.mem, f, Up(u, L - g) % ENTRIES), L)
    requires Lands(r, Rd(r.s.mem, f, Up(u, L - g) % ENTRIES).frame, L - 1, g, u, strict)
    ensures Lands(r, f, L, g, u, strict)
  {
  }

  /** A descent changes no translation; and no deciding entry either, unless
      dune_vm_lookup replaces an entry that has PS set but is not present. */
  lemma {:induction false} LocateLeaf(s: Vm, root: nat, f: nat, L: nat, g: nat, u: nat, create: bool, strict: bool,
                                      r: nat, v: nat)
    requires Tree(Guest, s.mem, s.own) && (create ==> Sound(s))
    requires g <= L && Radix.At(s.own, f, root, L, g, u)
    requires IsRoot(s.own, r) && IsPage(v)
    ensures var s1 := Locate(s, f, L, g, u, create, strict).s;
            && Translate(Guest, s1.mem, r, v) == Translate(Guest, s.mem, r, v)
            && (!strict || NoBigUnder(s, root) ==> Leaf(Guest, s1.mem, r, v) == Leaf(Guest, s.mem, r, v))
    decreases L
  {
    hide Alloc, NewTable, Tree, Sound, Stop, Leaf, Translate, IsRoot, Up, LinkMem;
    var i := Up(u, L - g) % ENTRIES;
    var w := Rd(s.mem, f, i);
    if L == g || (L < TOP && Big(w) && (PTE_P in w.bits || !strict)) {
    } else if PTE_P in w.bits {
      ChildAt(Guest, s.mem, s.own, root, f, L, g, u);
      LocateLeaf(s, root, w.frame, L - 1, g, u, create, strict, r, v);
    } else if create && NewTable(s, f, i).Some? {
      NewTableSound(s, f, i);
      var (s1, c) := NewTable(s, f, i).value;
      ChildAt(Guest, s1.mem, s1.own, root, f, L, g, u);
      LinkLeaf(Guest, s.mem, s.own, f, i, c, r, v);
      LocateLeaf(s1, root, c, L - 1, g, u, create, strict, r, v);
    }
  }

  // ----- one callback -----

  /** The jobs the source gives its walk, with what the walk needs of the tables:
      a creating walk allocates, so it needs a sound pool; a clone's target must
      be another root without big entries. */
  ghost predicate Fits(s: Vm, root: nat, job: Job) {
    && Tree(Guest, s.mem, s.own) && IsRoot(s.own, root) && job.high % TWO48 == 0
    && match job.create
       case CreateNone =>
         || job.cb.Mprotect? || job.cb.Free? || OfSthread(job.cb)
         || (job.cb.Clone? && Sound(s) && CloneFits(s, root, job.cb.newRoot))
       case CreateNormal => Sound(s) && (job.cb.MapPhys? || job.cb.MapPages?)
       case _ => Sound(s) && job.cb.MapPhys? && PTE_PS in job.cb.perm
  }

  ghost predicate CloneFits(s: Vm, root: nat, newRoot: nat) {
    newRoot != root && IsRoot(s.own, newRoot) && NoBigUnder(s, newRoot)
  }

  /** The walk is for 4 KB entries alone. */
  predicate OnlySmall(job: Job) {
    job.create == CreateNormal || (job.create == CreateNone && job.cb.Remap?)
  }

  /** A slot the walk may hand to its callback. */
  ghost predicate SlotFits(s: Vm, root: nat, t: nat, l: nat, job: Job, p: nat) {
    && Gran(job.create) <= l <= TOP && Up(p, 4 - l) == 0
    && Reach(Guest, s.mem, root, t, l, p)
    && (l > Gran(job.create) ==> l < TOP && Big(Rd(s.mem, t, p % ENTRIES)))
    && (OnlySmall(job) ==> l == 0)
  }

  lemma PageOfSlotVa(job: Job, l: nat, p: nat)
    requires job.high % TWO48 == 0 && l <= TOP && Up(p, 4 - l) == 0
    ensures PageOfVa(SlotVa(job, l, p)) == Lo(p, l) && IsPage(Lo(p, l))
  {
    hide Up, Lo, PageOfVa;
    UpLo(p, Lo(p, l), l);
    UpLo(p + 1, Lo(p, l), l);
    LoStrict(p, l);
    UpAdd(Lo(p, l), l, 4 - l);
    PageRange(Lo(p, l));
    HighPage(job.high, Lo(p, l));
  }

  lemma HighPage(high: nat, v: nat)
    requires high % TWO48 == 0 && v < 0x10_0000_0000
    ensures PageOfVa(high + v * 0x1000) == v
  {
    assert high == high / TWO48 * TWO48;
    assert (high + v * 0x1000) % TWO48 == v * 0x1000;
  }

  /** The entry a callback other than `Clone` stores is never a link. */
  lemma RewriteIsLeaf(s: Vm, root: nat, t: nat, l: nat, job: Job, p: nat, va: nat)
    requires Fits(s, root, job) && SlotFits(s, root, t, l, job, p) && !job.cb.Clone?
    requires Rewrite(s, job.cb, Rd(s.mem, t, p % ENTRIES), va).Some?
    ensures !IsLink(Guest, Rewrite(s, job.cb, Rd(s.mem, t, p % ENTRIES), va).value.1, l)
  {
  }

  lemma RewritePool(s: Vm, job: Job, w: Word, va: nat)
    requires Sound(s) && !job.cb.Clone? && !job.cb.Free?
    requires Rewrite(s, job.cb, w, va).Some?
    ensures Apart(s.own, Rewrite(s, job.cb, w, va).value.0)
  {
    if job.cb.MapPages? {
      AllocList(s.pool);
    }
  }

  /** Writing an entry at or below the walk's granularity, or one that was no
      link, keeps the links above it. */
  lemma WriteKeeps(s: Vm, s1: Vm, g: nat, t: nat, i: nat, w: Word)
    requires t in s.own && i < ENTRIES && s1.own == s.own && s1.mem == Wr(s.mem, t, i, w)
    requires s.own[t].level <= g || !IsLink(Guest, Rd(s.mem, t, i), s.own[t].level)
    ensures Keeps(s, s1, g)
  {
    forall f, i' | f in s.own && 0 <= i' < ENTRIES && s.own[f].level > g
      && IsLink(Guest, Rd(s.mem, f, i'), s.own[f].level)
      ensures Rd(s1.mem, f, i') == Rd(s.mem, f, i')
    {
    }
  }

  lemma WriteNoBig(s: Vm, s1: Vm, r: nat, t: nat, i: nat, w: Word)
    requires NoBigUnder(s, r) && t in s.own && i < ENTRIES && s1.own == s.own && s1.mem == Wr(s.mem, t, i, w)
    requires s.own[t].root != r || s.own[t].level == 0
    ensures NoBigUnder(s1, r)
  {
    forall f, i' | f in s1.own && 0 <= i' < ENTRIES && s1.own[f].root == r && s1.own[f].level > 0
      ensures !Big(Rd(s1.mem, f, i'))
    {
      assert Rd(s1.mem, f, i') == Rd(s.mem, f, i');
    }
  }

  /** What a visit keeps: the job can go on. */
  ghost predicate Goes(s: Vm, s1: Vm, root: nat, job: Job) {
    && Fits(s1, root, job) && Keeps(s, s1, Gran(job.create))
    && (!job.cb.Free? ==> (Sound(s) ==> Sound(s1)))
    && s.log <= s1.log
  }

  lemma TouchGoes(s: Vm, root: nat, t: nat, l: nat, job: Job, p: nat)
    requires Fits(s, root, job) && SlotFits(s, root, t, l, job, p) && !job.cb.Clone?
    ensures match Touch(s, t, l, job, p)
            case Went(s1, _) => Goes(s, s1, root, job)
            case Stopped(o) => o.Fail? && Goes(s, o.s, root, job)
  {
    hide Alloc, Apart, PageOfVa, Reach, Lo;
    if !Skips(s, t, l, job, p) {
      var i, w, va := p % ENTRIES, Rd(s.mem, t, p % ENTRIES), SlotVa(job, l, p);
      ReachAt(Guest, s.mem, s.own, root, t, l, p);
      if Rewrite(s, job.cb, w, va).Some? {
        var (pool, w1) := Rewrite(s, job.cb, w, va).value;
        var s1 := s.(log := s.log + [Slot(l, p)], pool := pool, mem := Wr(s.mem, t, i, w1),
                     data := DataAfter(job.cb, w, s.data, s.walk), walk := WalkAfter(job.cb, s.walk));
        assert Touch(s, t, l, job, p) == Went(s1, l);
        RewriteIsLeaf(s, root, t, l, job, p, va);
        TreeWrite(Guest, s.mem, s.own, t, i, w1);
        WriteKeeps(s, s1, Gran(job.create), t, i, w1);
        if Sound(s) && !job.cb.Free? {
          RewritePool(s, job, w, va);
        }
      }
    }
  }

  lemma CloneTarget(s: Vm, newRoot: nat, v: nat)
    requires Sound(s) && IsRoot(s.own, newRoot) && NoBigUnder(s, newRoot) && IsPage(v)
    ensures var r := Locate(s, newRoot, TOP, 0, v, true, true);
            Extends(s, r.s) && !r.Absent?
            && (r.Found? ==> r.level == 0 && Reach(Guest, r.s.mem, newRoot, r.table, 0, v)
                             && r.table in r.s.own && r.s.own[r.table].level == 0 && r.s.own[r.table].root == newRoot)
  {
    hide Alloc, NewTable;
    RootAt(s.own, newRoot, 0, v);
    var r := Locate(s, newRoot, TOP, 0, v, true, true);
    LocateExtends(s, newRoot, newRoot, TOP, 0, v, true, true);
    LocateStop(s, newRoot, newRoot, TOP, 0, v, true, true);
    if r.Found? {
      StopAt(Guest, r.s.mem, r.s.own, newRoot, newRoot, TOP, 0, v);
    }
  }

  lemma CloneGoes(s: Vm, root: nat, t: nat, l: nat, job: Job, p: nat)
    requires Fits(s, root, job) && SlotFits(s, root, t, l, job, p) && job.cb.Clone?
    ensures match Touch(s, t, l, job, p)
            case Went(s1, _) => Goes(s, s1, root, job)
            case Stopped(o) => o.Crash?
  {
    hide Alloc, NewTable, PageOfVa, Reach, Lo, Locate;
    if !Skips(s, t, l, job, p) {
      var s0, v := s.(log := s.log + [Slot(l, p)]), Lo(p, l);
      PageOfSlotVa(job, l, p);
      CloneTarget(s0, job.cb.newRoot, v);
      var r := Locate(s0, job.cb.newRoot, TOP, 0, v, true, true);
      if r.Found? {
        var w := Rd(r.s.mem, t, p % ENTRIES);
        var s1 := Touch(s, t, l, job, p).s;
        assert s1.mem == Wr(r.s.mem, r.table, v % ENTRIES, w) && s1.own == r.s.own;
        TreeWrite(Guest, r.s.mem, r.s.own, r.table, v % ENTRIES, w);
        WriteKeeps(r.s, s1, 0, r.table, v % ENTRIES, w);
        WriteNoBig(r.s, s1, job.cb.newRoot, r.table, v % ENTRIES, w);
        KeepsTrans(s, r.s, s1, 0);
      }
    }
  }

  lemma KeepsReach(s: Vm, s1: Vm, g: nat, root: nat, f: nat, L: nat, p: nat)
    requires Tree(Guest, s.mem, s.own) && Keeps(s, s1, g) && g <= L <= TOP
    requires IsRoot(s.own, root) && Up(p, 4 - L) == 0 && Reach(Guest, s.mem, root, f, L, p)
    ensures Reach(Guest, s1.mem, root, f, L, p)
  {
    RootAt(s.own, root, L, p);
    KeepsStop(s, s1, g, root, root, TOP, L, p);
  }

  lemma {:induction false} KeepsStop(s: Vm, s1: Vm, g: nat, root: nat, f: nat, L: nat, l: nat, u: nat)
    requires Tree(Guest, s.mem, s.own) && Keeps(s, s1, g) && g <= l <= L
    requires Radix.At(s.own, f, root, L, l, u) && Stop(Guest, s.mem, f, L, l, u).level == l
    ensures var h, h1 := Stop(Guest, s.mem, f, L, l, u), Stop(Guest, s1.mem, f, L, l, u);
            h1.table == h.table && h1.level == h.level
    decreases L
  {
    if L > l {
      LinkStays(s, s1, g, f, Up(u, L - l) % ENTRIES);
      ChildAt(Guest, s.mem, s.own, root, f, L, l, u);
      KeepsStop(s, s1, g, root, Rd(s.mem, f, Up(u, L - l) % ENTRIES).frame, L - 1, l, u);
    }
  }

  // ----- one visit -----

  /** The walk below table `f` may visit unit `u`. */
  ghost predicate VisitFits(s: Vm, root: nat, f: nat, L: nat, job: Job, u: nat) {
    var g := Gran(job.create);
    && Fits(s, root, job) && g <= L <= TOP && Up(u, 4 - g) == 0
    && Reach(Guest, s.mem, root, f, L, Up(u, L - g))
    && (OnlySmall(job) ==> Leaf(Guest, s.mem, root, u).0 == 0)
  }

  lemma VisitAt(s: Vm, root: nat, f: nat, L: nat, job: Job, u: nat)
    requires VisitFits(s, root, f, L, job, u)
    ensures Radix.At(s.own, f, root, L, Gran(job.create), u)
  {
    var g := Gran(job.create);
    UpAdd(u, L - g, 4 - L);
    ReachAt(Guest, s.mem, s.own, root, f, L, Up(u, L - g));
  }

  lemma FitsExtends(s: Vm, s1: Vm, root: nat, job: Job)
    requires Fits(s, root, job) && Extends(s, s1)
    ensures Fits(s1, root, job) && Keeps(s, s1, 0) && Tree(Guest, s1.mem, s1.own)
  {
    hide Tree, Sound, NoBigUnder;
  }

  /** The descent of a visit finds a slot fit for the callback. */
  lemma VisitFinds(s: Vm, root: nat, f: nat, L: nat, job: Job, u: nat)
    requires VisitFits(s, root, f, L, job, u)
    ensures var g := Gran(job.create); var r := Locate(s, f, L, g, u, job.create != CreateNone, false);
            && Extends(s, r.s) && Fits(r.s, root, job) && Lands(r, f, L, g, u, false)
            && (r.Found? ==> SlotFits(r.s, root, r.table, r.level, job, Up(u, r.level - g)))
            && (r.Absent? || r.NoMem? ==> r.Absent? == (job.create == CreateNone))
            && (job.create == CreateNone ==> r.s == s)
  {
    hide Alloc, NewTable, Locate, Reach, Stop, Leaf, Fits, Extends, Tree, Sound, Keeps, Up;
    var g := Gran(job.create);
    FitsTree(s, root, job);
    VisitAt(s, root, f, L, job, u);
    LocateExtends(s, root, f, L, g, u, job.create != CreateNone, false);
    LocateStop(s, root, f, L, g, u, job.create != CreateNone, false);
    var r := Locate(s, f, L, g, u, job.create != CreateNone, false);
    FitsExtends(s, r.s, root, job);
    UpAdd(u, L - g, 4 - L);
    KeepsReach(s, r.s, 0, root, f, L, Up(u, L - g));
    if r.Found? {
      FoundReach(r.s, root, f, L, g, u, r.table, r.level);
      UpAdd(u, r.level - g, 4 - r.level);
      if OnlySmall(job) {
        NotBig(s, r, root, f, L, u, job.create != CreateNone);
      }
    }
  }

  /** Where the deciding entry is at level 0, the slot found is too. */
  lemma NotBig(s: Vm, r: Place, root: nat, f: nat, L: nat, u: nat, create: bool)
    requires Tree(Guest, s.mem, s.own) && (create ==> Sound(s)) && IsRoot(s.own, root) && L <= TOP && IsPage(u)
    requires Radix.At(s.own, f, root, L, 0, u) && r == Locate(s, f, L, 0, u, create, false) && r.Found?
    requires Lands(r, f, L, 0, u, false) && Reach(Guest, r.s.mem, root, f, L, Up(u, L))
    requires Leaf(Guest, s.mem, root, u).0 == 0
    ensures r.level == 0
  {
    hide Locate, Alloc, NewTable, Stop;
    LocateLeaf(s, root, f, L, 0, u, create, false, root, u);
    StopVia(Guest, r.s.mem, root, TOP, L, 0, u);
  }

  lemma FoundReach(s: Vm, root: nat, f: nat, L: nat, g: nat, u: nat, t: nat, l: nat)
    requires g <= l <= L <= TOP && Reach(Guest, s.mem, root, f, L, Up(u, L - g))
    requires Stop(Guest, s.mem, f, L, g, u).table == t && Stop(Guest, s.mem, f, L, g, u).level == l
    ensures Reach(Guest, s.mem, root, t, l, Up(u, l - g))
  {
    StopVia(Guest, s.mem, root, TOP, L, g, u);
    StopCoarse(Guest, s.mem, root, TOP, g, u, l);
  }

  lemma VisitGoes(s: Vm, root: nat, f: nat, L: nat, job: Job, u: nat)
    requires VisitFits(s, root, f, L, job, u)
    ensures match Visit(s, f, L, job, u)
            case Went(s1, _) => Goes(s, s1, root, job)
            case Stopped(o) => (o.Fail? && Goes(s, o.s, root, job)) || (o.Crash? && job.cb.Clone?)
  {
    hide Alloc, NewTable, Locate, Touch, Reach;
    var g := Gran(job.create);
    VisitFinds(s, root, f, L, job, u);
    var r := Locate(s, f, L, g, u, job.create != CreateNone, false);
    if r.Found? {
      var p := Up(u, r.level - g);
      if job.cb.Clone? {
        CloneGoes(r.s, root, r.table, r.level, job, p);
      } else {
        TouchGoes(r.s, root, r.table, r.level, job, p);
      }
      match Touch(r.s, r.table, r.level, job, p)
      case Went(s1, _) => KeepsTrans(s, r.s, s1, g);
      case Stopped(o) =>
        if o.Fail? {
          KeepsTrans(s, r.s, o.s, g);
        }
    }
  }

  // ----- what a visit does to the deciding entries -----

  /** The entry a callback other than `Clone` leaves in the slot. */
  function TouchWord(s: Vm, t: nat, l: nat, job: Job, p: nat): Word
    requires !job.cb.Clone?
  {
    var w := Rd(s.mem, t, p % ENTRIES);
    if Skips(s, t, l, job, p) then w
    else match Rewrite(s, job.cb, w, SlotVa(job, l, p))
      case None => w
      case Some((_, w1)) => w1
  }

  lemma TouchLeaf(s: Vm, root: nat, t: nat, l: nat, job: Job, p: nat, r: nat, v: nat)
    requires Fits(s, root, job) && SlotFits(s, root, t, l, job, p) && !job.cb.Clone?
    requires IsRoot(s.own, r) && IsPage(v) && Touch(s, t, l, job, p).Went?
    ensures Leaf(Guest, Touch(s, t, l, job, p).s.mem, r, v)
              == if r == root && Up(v, l) == p then Norm(l, TouchWord(s, t, l, job, p)) else Leaf(Guest, s.mem, r, v)
  {
    hide Alloc, Leaf, Lo, Reach;
    var w := Rd(s.mem, t, p % ENTRIES);
    if Skips(s, t, l, job, p) {
      assert w == ZERO && l == 0;
      assert !IsLink(Guest, w, l);
      ReachAt(Guest, s.mem, s.own, root, t, l, p);
      WriteSame(s.mem, t, p % ENTRIES);
      WriteLeaf(Guest, s.mem, s.own, root, t, l, p, w, r, v);
      WriteSameLeaf(s.mem, t, p % ENTRIES, s.own, r, v);
    } else {
      RewriteIsLeaf(s, root, t, l, job, p, SlotVa(job, l, p));
      WriteLeaf(Guest, s.mem, s.own, root, t, l, p, TouchWord(s, t, l, job, p), r, v);
    }
  }

  lemma WriteSame(mem: Mem, f: nat, i: nat)
    requires i < ENTRIES
    ensures forall f', i' :: Rd(Wr(mem, f, i, Rd(mem, f, i)), f', i') == Rd(mem, f', i')
  {
  }

  /** Storing what is there already changes no walk. */
  lemma {:induction false} SameStop(mem: Mem, mem': Mem, f: nat, L: nat, g: nat, u: nat)
    requires g <= L && forall f', i' :: Rd(mem', f', i') == Rd(mem, f', i')
    ensures Stop(Guest, mem', f, L, g, u) == Stop(Guest, mem, f, L, g, u)
    decreases L
  {
    var w := Rd(mem, f, Up(u, L - g) % ENTRIES);
    if L > g && IsLink(Guest, w, L) {
      SameStop(mem, mem', w.frame, L - 1, g, u);
    }
  }

  lemma WriteSameLeaf(mem: Mem, f: nat, i: nat, own: Own, r: nat, v: nat)
    requires i < ENTRIES
    ensures Leaf(Guest, Wr(mem, f, i, Rd(mem, f, i)), r, v) == Leaf(Guest, mem, r, v)
  {
    WriteSame(mem, f, i);
    SameStop(mem, Wr(mem, f, i, Rd(mem, f, i)), r, TOP, 0, v);
  }

  lemma VisitIs(s: Vm, f: nat, L: nat, job: Job, u: nat)
    requires Gran(job.create) <= L
    ensures var g := Gran(job.create);
            Visit(s, f, L, job, u)
              == match Locate(s, f, L, g, u, job.create != CreateNone, false)
                 case NoMem(s1) => Stopped(Fail(s1, ENOMEM))
                 case Absent(s1, l) => Went(s1, l)
                 case Found(s1, t, l) => Touch(s1, t, l, job, Up(u, l - g))
  {
    hide Locate, Touch, Up;
  }

  lemma FitsTree(s: Vm, root: nat, job: Job)
    requires Fits(s, root, job)
    ensures Tree(Guest, s.mem, s.own) && IsRoot(s.own, root) && (job.create != CreateNone ==> Sound(s))
  {
  }

  lemma ExtendsRoot(s: Vm, s1: Vm, r: nat)
    requires Extends(s, s1) && IsRoot(s.own, r)
    ensures IsRoot(s1.own, r)
  {
  }

  /** A visit decides the pages of the slot it finds, and no others. */
  lemma VisitLeaf(s: Vm, root: nat, f: nat, L: nat, job: Job, u: nat, r: nat, v: nat)
    requires VisitFits(s, root, f, L, job, u) && !job.cb.Clone?
    requires IsRoot(s.own, r) && IsPage(v) && Visit(s, f, L, job, u).Went?
    ensures var g := Gran(job.create);
            var found := Locate(s, f, L, g, u, job.create != CreateNone, false);
            Leaf(Guest, Visit(s, f, L, job, u).s.mem, r, v)
              == if found.Found? && r == root && Up(v, found.level) == Up(u, found.level - g)
                 then Norm(found.level, TouchWord(found.s, found.table, found.level, job, Up(u, found.level - g)))
                 else Leaf(Guest, s.mem, r, v)
  {
    hide Alloc, NewTable, Locate, Touch, Leaf, Reach, TouchWord, Visit, Extends, Fits, SlotFits, Lands, Up, Norm,
      IsRoot, Tree, Sound;
    var g := Gran(job.create);
    VisitFinds(s, root, f, L, job, u);
    VisitAt(s, root, f, L, job, u);
    VisitIs(s, f, L, job, u);
    FitsTree(s, root, job);
    var found := Locate(s, f, L, g, u, job.create != CreateNone, false);
    LocateLeaf(s, root, f, L, g, u, job.create != CreateNone, false, r, v);
    if found.Found? {
      ExtendsRoot(s, found.s, r);
      TouchLeaf(found.s, root, found.table, found.level, job, Up(u, found.level - g), r, v);
    }
  }

  // ----- what cloning an entry does -----

  /** A descent below one root touches no table of another root. */
  lemma {:induction false} LocateOther(s: Vm, root: nat, f: nat, L: nat, g: nat, u: nat, create: bool, strict: bool,
                                       f': nat, i': nat)
    requires Tree(Guest, s.mem, s.own) && (create ==> Sound(s))
    requires g <= L && Radix.At(s.own, f, root, L, g, u)
    requires f' in s.own && s.own[f'].root != root && i' < ENTRIES
    ensures Rd(Locate(s, f, L, g, u, create, strict).s.mem, f', i') == Rd(s.mem, f', i')
    decreases L
  {
    hide Alloc, NewTable, Tree, Sound, IsRoot, Up, LinkMem;
    var i := Up(u, L - g) % ENTRIES;
    var w := Rd(s.mem, f, i);
    if L == g || (L < TOP && Big(w) && (PTE_P in w.bits || !strict)) {
    } else if PTE_P in w.bits {
      ChildAt(Guest, s.mem, s.own, root, f, L, g, u);
      LocateOther(s, root, w.frame, L - 1, g, u, create, strict, f', i');
    } else if create && NewTable(s, f, i).Some? {
      NewTableSound(s, f, i);
      NewTableExtends(s, f, i);
      var (s1, c) := NewTable(s, f, i).value;
      ChildAt(Guest, s1.mem, s1.own, root, f, L, g, u);
      LinkRead(s.mem, f, i, c, f', i');
      LocateOther(s1, root, c, L - 1, g, u, create, strict, f', i');
    }
  }

  /** Cloning a slot gives its first page, under the new root, the same entry. */
  lemma TouchClone(s: Vm, root: nat, t: nat, l: nat, job: Job, p: nat, r: nat, v: nat)
    requires Fits(s, root, job) && SlotFits(s, root, t, l, job, p) && job.cb.Clone?
    requires IsRoot(s.own, r) && IsPage(v) && Touch(s, t, l, job, p).Went?
    ensures Leaf(Guest, Touch(s, t, l, job, p).s.mem, r, v)
              == if r == job.cb.newRoot && v == Lo(p, l) && !Skips(s, t, l, job, p) then (0, Rd(s.mem, t, p % ENTRIES))
                 else Leaf(Guest, s.mem, r, v)
  {
    hide Alloc, NewTable, PageOfVa, Lo, Locate, Leaf;
    if !Skips(s, t, l, job, p) {
      var s0, x := s.(log := s.log + [Slot(l, p)]), Lo(p, l);
      PageOfSlotVa(job, l, p);
      CloneTarget(s0, job.cb.newRoot, x);
      ReachAt(Guest, s.mem, s.own, root, t, l, p);
      RootAt(s.own, job.cb.newRoot, 0, x);
      LocateOther(s0, job.cb.newRoot, job.cb.newRoot, TOP, 0, x, true, true, t, p % ENTRIES);
      LocateLeaf(s0, job.cb.newRoot, job.cb.newRoot, TOP, 0, x, true, true, r, v);
      CloneWrite(s0, Touch(s, t, l, job, p).s, job.cb.newRoot, x, Rd(s.mem, t, p % ENTRIES), r, v);
    }
  }

  /** The end of a clone callback: the entry is stored in the slot found. */
  lemma CloneWrite(s0: Vm, s1: Vm, newRoot: nat, x: nat, w: Word, r: nat, v: nat)
    requires Sound(s0) && IsRoot(s0.own, newRoot) && NoBigUnder(s0, newRoot) && IsPage(x)
    requires IsRoot(s0.own, r) && IsPage(v)
    requires var q := Locate(s0, newRoot, TOP, 0, x, true, true);
             q.Found? && s1.mem == Wr(q.s.mem, q.table, Up(x, q.level) % ENTRIES, w)
    ensures var q := Locate(s0, newRoot, TOP, 0, x, true, true);
            Leaf(Guest, s1.mem, r, v) == if r == newRoot && v == x then (0, w) else Leaf(Guest, q.s.mem, r, v)
  {
    hide Alloc, NewTable, Locate, Leaf, Sound, NoBigUnder;
    CloneTarget(s0, newRoot, x);
    var q := Locate(s0, newRoot, TOP, 0, x, true, true);
    assert Up(x, 0) == x && Up(v, 0) == v;
    WriteLeaf(Guest, q.s.mem, q.s.own, newRoot, q.table, 0, x, w, r, v);
  }

  lemma VisitClone(s: Vm, root: nat, f: nat, L: nat, job: Job, u: nat, r: nat, v: nat)
    requires VisitFits(s, root, f, L, job, u) && job.cb.Clone?
    requires IsRoot(s.own, r) && IsPage(v) && Visit(s, f, L, job, u).Went?
    ensures var found := Locate(s, f, L, 0, u, false, false);
            Leaf(Guest, Visit(s, f, L, job, u).s.mem, r, v)
              == if found.Found? && r == job.cb.newRoot && v == Lo(Up(u, found.level), found.level)
                    && !Skips(s, found.table, found.level, job, Up(u, found.level))
                 then (0, Rd(s.mem, found.table, Up(u, found.level) % ENTRIES))
                 else Leaf(Guest, s.mem, r, v)
  {
    hide Alloc, NewTable, Locate, Touch, Leaf, Reach, Lo, Skips;
    VisitFinds(s, root, f, L, job, u);
    var found := Locate(s, f, L, 0, u, false, false);
    if found.Found? {
      TouchClone(s, root, found.table, found.level, job, Up(u, found.level), r, v);
    }
  }
}
