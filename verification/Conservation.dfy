/** Reference counting: the count of every pool page is the number of page-table
    entries and links that name it, plus one if it is a root. */
module Conservation {
  import opened Radix
  import opened PagePool
  import opened Callbacks
  import opened GuestVm
  import opened VmInvariants

  /** A big entry holds no reference on the frame it names. */
  predicate Counts(w: Word, level: nat, frame: nat) {
    w.frame == frame && !(0 < level < TOP && Big(w))
  }

  /** The 4 KB entries and the links that name a frame. */
  ghost function Names(mem: Mem, own: Own, frame: nat): set<(nat, nat)> {
    set f, i | f in own && 0 <= i < ENTRIES && Counts(Rd(mem, f, i), own[f].level, frame) :: (f, i)
  }

  ghost function Count(s: Vm, frame: nat): nat {
    |Names(s.mem, s.own, frame)| + if frame in s.own && s.own[frame].level == TOP then 1 else 0
  }

  ghost predicate Counted(s: Vm) {
    forall frame :: PoolFrame(s.pool, frame) ==> RefOf(s.pool, frame) == Count(s, frame)
  }

  /** Above level 0 an entry is empty, a link, or big. */
  ghost predicate Clean(s: Vm) {
    forall f, i :: f in s.own && 0 <= i < ENTRIES && s.own[f].level > 0
      ==> var w := Rd(s.mem, f, i);
          w == ZERO || IsLink(Guest, w, s.own[f].level) || (s.own[f].level < TOP && Big(w))
  }

  /** Every table but a root is linked from its parent. */
  ghost predicate Linked(s: Vm) {
    forall c {:trigger s.own[c].parent} :: c in s.own && s.own[c].level < TOP
      ==> var n := s.own[c];
          n.parent in s.own && s.own[n.parent].level == n.level + 1
          && Links(Rd(s.mem, n.parent, n.prefix % ENTRIES), c)
  }

  /** The invariant of the guest page tables and the pool together. */
  ghost predicate Conserved(s: Vm) {
    && Sound(s) && Rooted(s.own) && FreeOk(s.pool) && |s.pool.refs| <= s.pool.cap
    && Clean(s) && Linked(s) && Counted(s)
  }

  // ----- counting -----

  lemma NamesWrite(mem: Mem, own: Own, t: nat, i: nat, w: Word, frame: nat)
    requires t in own && i < ENTRIES
    ensures |Names(Wr(mem, t, i, w), own, frame)|
              == |Names(mem, own, frame)| - (if Counts(Rd(mem, t, i), own[t].level, frame) then 1 else 0)
                 + (if Counts(w, own[t].level, frame) then 1 else 0)
  {
    var mem' := Wr(mem, t, i, w);
    var A, B := Names(mem, own, frame), Names(mem', own, frame);
    NamesElse(mem, own, t, i, w, frame);
    assert Rd(mem', t, i) == w;
    assert (t, i) in A <==> Counts(Rd(mem, t, i), own[t].level, frame);
    assert (t, i) in B <==> Counts(w, own[t].level, frame);
    CardMinus(A, (t, i));
    CardMinus(B, (t, i));
  }

  lemma NamesElse(mem: Mem, own: Own, t: nat, i: nat, w: Word, frame: nat)
    requires i < ENTRIES
    ensures Names(Wr(mem, t, i, w), own, frame) - {(t, i)} == Names(mem, own, frame) - {(t, i)}
  {
    hide Counts;
    assert forall f', i' :: f' != t || i' != i ==> Rd(Wr(mem, t, i, w), f', i') == Rd(mem, f', i');
  }

  /** A cleared table names nothing (but frame 0). */
  lemma NamesEmpty(mem: Mem, own: Own, c: nat, n: Node, frame: nat)
    requires c !in own && frame != 0
    ensures Names(mem[c := EMPTY_TABLE], own[c := n], frame) == Names(mem, own, frame)
  {
    var mem', own' := mem[c := EMPTY_TABLE], own[c := n];
    assert forall i :: Rd(mem', c, i) == ZERO;
    assert forall f, i :: f != c ==> Rd(mem', f, i) == Rd(mem, f, i);
  }

  lemma NamesLink(mem: Mem, own: Own, f: nat, i: nat, c: nat, frame: nat)
    requires f in own && own[f].level > 0 && i < ENTRIES && c !in own && frame != 0
    requires !Counts(Rd(mem, f, i), own[f].level, frame)
    ensures |Names(LinkMem(mem, f, i, c), LinkOwn(own, f, i, c), frame)|
              == |Names(mem, own, frame)| + if frame == c then 1 else 0
  {
    var n := Node(own[f].root, own[f].level - 1, own[f].prefix * ENTRIES + i, f);
    NamesEmpty(mem, own, c, n, frame);
    NamesWrite(mem[c := EMPTY_TABLE], own[c := n], f, i, Word(c, LINK_BITS), frame);
    assert Rd(mem[c := EMPTY_TABLE], f, i) == Rd(mem, f, i);
  }

  // ----- allocation -----

  lemma AllocCounts(s: Vm)
    requires Conserved(s) && Alloc(s.pool).Some?
    ensures var (p, k) := Alloc(s.pool).value;
            && FreeOk(p) && |p.refs| <= p.cap && p.cap == s.pool.cap && Apart(s.own, p) && InPool(p, FrameOf(k))
            && PoolFrame(p, FrameOf(k)) && FrameOf(k) !in s.own && k !in p.free && Count(s, FrameOf(k)) == 0
            && (forall frame :: PoolFrame(p, frame) ==>
                  RefOf(p, frame) == Count(s, frame) + if frame == FrameOf(k) then 1 else 0)
  {
    hide Names, Tree, Clean, Linked, Rooted, Alloc;
    AllocOk(s.pool);
    AllocList(s.pool);
  }

  lemma NewTableConserves(s: Vm, f: nat, i: nat)
    requires Conserved(s) && f in s.own && s.own[f].level > 0 && i < ENTRIES
    requires !Present(Guest, Rd(s.mem, f, i)) && NewTable(s, f, i).Some?
    ensures Conserved(NewTable(s, f, i).value.0)
  {
    hide Alloc, FreeOk, Apart, Tree;
    AllocCounts(s);
    NewTableSound(s, f, i);
    var (s1, c) := NewTable(s, f, i).value;
    forall frame | PoolFrame(s1.pool, frame)
      ensures RefOf(s1.pool, frame) == Count(s1, frame)
    {
      NamesLink(s.mem, s.own, f, i, c, frame);
    }
    forall f', i' | 0 <= i' < ENTRIES
      ensures Rd(s1.mem, f', i') == if f' == f && i' == i then Word(c, LINK_BITS)
                                    else if f' == c then ZERO else Rd(s.mem, f', i')
    {
      LinkRead(s.mem, f, i, c, f', i');
    }
  }

  // ----- the steps -----

  lemma {:induction false} LocateConserves(s: Vm, root: nat, f: nat, L: nat, g: nat, u: nat, create: bool, strict: bool)
    requires Conserved(s) && g <= L && Radix.At(s.own, f, root, L, g, u)
    ensures Conserved(Locate(s, f, L, g, u, create, strict).s)
    decreases L
  {
    hide Alloc, NewTable, Conserved, Tree, Up, LinkMem;
    ConservedSound(s);
    var i := Up(u, L - g) % ENTRIES;
    var w := Rd(s.mem, f, i);
    if L == g || (L < TOP && Big(w) && (PTE_P in w.bits || !strict)) {
    } else if PTE_P in w.bits {
      ChildAt(Guest, s.mem, s.own, root, f, L, g, u);
      LocateConserves(s, root, w.frame, L - 1, g, u, create, strict);
    } else if create && NewTable(s, f, i).Some? {
      NewTableSound(s, f, i);
      NewTableConserves(s, f, i);
      var (s1, c) := NewTable(s, f, i).value;
      ChildAt(Guest, s1.mem, s1.own, root, f, L, g, u);
      LocateConserves(s1, root, c, L - 1, g, u, create, strict);
    }
  }

  lemma ConservedSound(s: Vm)
    requires Conserved(s)
    ensures Sound(s) && Tree(Guest, s.mem, s.own) && Rooted(s.own)
  {
  }

  /** Storing a word in a level-0 slot. */
  predicate SmallWrite(s: Vm, s1: Vm, t: nat, i: nat, w: Word) {
    && t in s.own && s.own[t].level == 0 && i < ENTRIES
    && s1.own == s.own && s1.mem == Wr(s.mem, t, i, w) && s1.pool.cap == s.pool.cap
  }

  /** A write to a level-0 slot conserves if the pool's counts move with it. */
  lemma WriteConserves(s: Vm, s1: Vm, t: nat, i: nat, w: Word)
    requires Conserved(s) && SmallWrite(s, s1, t, i, w)
    requires FreeOk(s1.pool) && Apart(s1.own, s1.pool) && |s1.pool.refs| <= s1.pool.cap
    requires forall frame :: PoolFrame(s.pool, frame) ==>
               RefOf(s1.pool, frame) == Count(s, frame) - (if Rd(s.mem, t, i).frame == frame then 1 else 0)
                                        + (if w.frame == frame then 1 else 0)
    ensures Conserved(s1)
  {
    hide FreeOk, Apart, Names, Clean, Linked, Tree;
    TreeWrite(Guest, s.mem, s.own, t, i, w);
    WriteShape(s, s1, t, i, w);
    forall frame | PoolFrame(s1.pool, frame)
      ensures RefOf(s1.pool, frame) == Count(s1, frame)
    {
      NamesWrite(s.mem, s.own, t, i, w, frame);
    }
  }

  /** Overwriting what is no link, by nothing, by a big entry or at level 0. */
  lemma WriteShape(s: Vm, s1: Vm, t: nat, i: nat, w: Word)
    requires Clean(s) && Linked(s) && t in s.own && i < ENTRIES && s1.own == s.own && s1.mem == Wr(s.mem, t, i, w)
    requires !IsLink(Guest, Rd(s.mem, t, i), s.own[t].level)
    requires s.own[t].level == 0 || w == ZERO || (s.own[t].level < TOP && Big(w))
    ensures Clean(s1) && Linked(s1)
  {
    hide IsLink;
    assert forall f: nat, i': nat :: i' < ENTRIES ==>
             Rd(s1.mem, f, i') == if f == t && i' == i then w else Rd(s.mem, f, i');
    forall c {:trigger s.own[c].parent} | c in s.own && s.own[c].level < TOP
      ensures Links(Rd(s1.mem, s.own[c].parent, s.own[c].prefix % ENTRIES), c)
    {
      LinkWord(Rd(s.mem, s.own[c].parent, s.own[c].prefix % ENTRIES), c, s.own[c].level + 1);
    }
  }

  lemma LinkWord(w: Word, c: nat, level: nat)
    requires level > 0 && Links(w, c)
    ensures IsLink(Guest, w, level)
  {
  }

  /** A pool frame that an entry names is in use, and is no table if the entry is
      a 4 KB entry. */
  lemma NamedInUse(s: Vm, t: nat, i: nat)
    requires Conserved(s) && t in s.own && s.own[t].level == 0 && i < ENTRIES
             && PoolFrame(s.pool, Rd(s.mem, t, i).frame)
    ensures var frame := Rd(s.mem, t, i).frame;
            InPool(s.pool, frame) && RefOf(s.pool, frame) > 0 && (RefOf(s.pool, frame) == 1 ==> frame !in s.own)
  {
    hide FreeOk, Apart, Tree, Clean;
    var frame := Rd(s.mem, t, i).frame;
    var A := Names(s.mem, s.own, frame);
    assert (t, i) in A;
    CardMinus(A, (t, i));
    if frame in s.own && s.own[frame].level < TOP {
      NamedByParent(s, frame);
      var n := s.own[frame];
      CardMinus(A - {(t, i)}, (n.parent, n.prefix % ENTRIES));
    } else if frame in s.own {
      LevelTop(s.mem, s.own, frame);
    }
  }

  lemma LevelTop(mem: Mem, own: Own, f: nat)
    requires Tree(Guest, mem, own) && f in own
    ensures own[f].level <= TOP
  {
  }

  lemma NamedByParent(s: Vm, c: nat)
    requires Linked(s) && c in s.own && s.own[c].level < TOP
    ensures var n := s.own[c];
            (n.parent, n.prefix % ENTRIES) in Names(s.mem, s.own, c) && s.own[n.parent].level == n.level + 1
  {
  }

  /** dune_page_put on the page that a 4 KB entry names, as the entry goes. */
  lemma PutConserves(s: Vm, s1: Vm, t: nat, i: nat, w: Word)
    requires Conserved(s) && SmallWrite(s, s1, t, i, w) && !PoolFrame(s.pool, w.frame)
    requires var old_ := Rd(s.mem, t, i);
             s1.pool == if InPool(s.pool, old_.frame) then Put(s.pool, PageOf(s.pool, old_.frame)) else s.pool
    ensures Conserved(s1)
  {
    hide Tree, Count, Linked, Clean;
    var frame := Rd(s.mem, t, i).frame;
    if PoolFrame(s.pool, frame) {
      NamedInUse(s, t, i);
      PutOk(s.pool, PageOf(s.pool, frame));
      PutApart(s, frame);
    }
    WriteConserves(s, s1, t, i, w);
  }

  lemma PutApart(s: Vm, frame: nat)
    requires Apart(s.own, s.pool) && FreeOk(s.pool) && InPool(s.pool, frame) && RefOf(s.pool, frame) > 0
    requires RefOf(s.pool, frame) == 1 ==> frame !in s.own
    ensures Apart(s.own, Put(s.pool, PageOf(s.pool, frame)))
  {
    PutOk(s.pool, PageOf(s.pool, frame));
  }

  /** What a walk must respect for the counts to stay right: map_phys stores no
      frame of the pool in a 4 KB entry, and no big entry over a link; map_phys and
      map_pages overwrite no 4 KB entry that names a frame of the pool; and unmap meets
      no big entry that names one. */
  ghost predicate SlotConserves(s: Vm, t: nat, l: nat, job: Job, p: nat) {
    var w := Rd(s.mem, t, p % ENTRIES);
    match job.cb
    case Mprotect(_) => true
    case MapPhys(_, vaBase, paBase) =>
      if l == 0 then
        !PoolFrame(s.pool, w.frame) && !PoolFrame(s.pool, FrameOfPa(SlotVa(job, l, p) - vaBase + paBase))
      else !IsLink(Guest, w, l)
    case MapPages(_) => l == 0 && !PoolFrame(s.pool, w.frame)
    case Free => l == 0 || !PoolFrame(s.pool, w.frame)
    case Remap(copy) => l == 0 && !PoolFrame(s.pool, w.frame) && !PoolFrame(s.pool, Nth(copy, s.walk, 0))
    case Recycle(_, _) => true
    case RecycleStack(_) => true
    case Clone(newRoot) =>
      l == 0 && Leaf(Guest, s.mem, newRoot, Lo(p, l)).1 == ZERO
  }

  /** dune_vm_mprotect keeps the frame, and a big entry big. */
  lemma MprotectConserves(s: Vm, s1: Vm, t: nat, i: nat, perm: set<nat>)
    requires Conserved(s) && t in s.own && i < ENTRIES
    requires s.own[t].level == 0 || (s.own[t].level < TOP && Big(Rd(s.mem, t, i)))
    requires var w := Rd(s.mem, t, i);
             var w1 := Word(w.frame, perm + When(PTE_PS in w.bits, PTE_PS));
             s1 == s.(log := s1.log, mem := Wr(s.mem, t, i, w1))
    ensures Conserved(s1)
  {
    var w := Rd(s.mem, t, i);
    var w1 := Word(w.frame, perm + When(PTE_PS in w.bits, PTE_PS));
    SameNames(s, s1, t, i, w1);
  }

  /** The callbacks of sthread.c that clear marks keep the frame, and a big entry big. */
  lemma MarksConserve(s: Vm, s1: Vm, t: nat, i: nat, marks: set<nat>)
    requires Conserved(s) && t in s.own && i < ENTRIES && marks <= {PTE_D}
    requires s.own[t].level == 0 || (s.own[t].level < TOP && Big(Rd(s.mem, t, i)))
    requires var w := Rd(s.mem, t, i);
             s1.own == s.own && s1.pool == s.pool && s1.mem == Wr(s.mem, t, i, Word(w.frame, w.bits - marks))
    ensures Conserved(s1)
  {
    var w := Rd(s.mem, t, i);
    SameNames(s, s1, t, i, Word(w.frame, w.bits - marks));
  }

  /** Replacing an entry by one that counts for the same frame, or for none. */
  lemma SameNames(s: Vm, s1: Vm, t: nat, i: nat, w: Word)
    requires Conserved(s) && t in s.own && i < ENTRIES
    requires s1.own == s.own && s1.pool == s.pool && s1.mem == Wr(s.mem, t, i, w)
    requires s.own[t].level == 0
             || (s.own[t].level < TOP && !IsLink(Guest, Rd(s.mem, t, i), s.own[t].level) && (w == ZERO || Big(w)))
    requires s.own[t].level == 0 ==> w.frame == Rd(s.mem, t, i).frame
    ensures Conserved(s1)
  {
    hide FreeOk, Apart, Names, Clean, Linked, Tree, Rooted;
    if s.own[t].level > 0 {
      NotCounted(s, t, i);
    }
    TreeWrite(Guest, s.mem, s.own, t, i, w);
    WriteShape(s, s1, t, i, w);
    forall frame | PoolFrame(s1.pool, frame)
      ensures RefOf(s1.pool, frame) == Count(s1, frame)
    {
      NamesWrite(s.mem, s.own, t, i, w, frame);
    }
  }

  /** Above level 0, only links count. */
  lemma NotCounted(s: Vm, t: nat, i: nat)
    requires Clean(s) && t in s.own && i < ENTRIES && 0 < s.own[t].level < TOP
    requires !IsLink(Guest, Rd(s.mem, t, i), s.own[t].level)
    ensures forall frame :: frame != 0 ==> !Counts(Rd(s.mem, t, i), s.own[t].level, frame)
  {
  }

  /** A page taken from the pool for a 4 KB entry. */
  lemma TakeConserves(s: Vm, s1: Vm, t: nat, i: nat, w: Word)
    requires Conserved(s) && SmallWrite(s, s1, t, i, w) && !PoolFrame(s.pool, Rd(s.mem, t, i).frame)
    requires Alloc(s.pool).Some? && s1.pool == Alloc(s.pool).value.0 && w.frame == FrameOf(Alloc(s.pool).value.1)
    ensures Conserved(s1)
  {
    hide Tree, Count, Linked, Clean, Alloc;
    AllocCounts(s);
    WriteConserves(s, s1, t, i, w);
  }

  lemma LogConserves(s: Vm, log: seq<Slot>)
    requires Conserved(s)
    ensures Conserved(s.(log := log))
  {
    hide Tree, Apart, FreeOk, Names, Clean, Linked, Rooted;
    LogShape(s, log);
    assert forall frame :: Count(s.(log := log), frame) == Count(s, frame);
  }

  lemma LogShape(s: Vm, log: seq<Slot>)
    requires Clean(s) && Linked(s)
    ensures Clean(s.(log := log)) && Linked(s.(log := log))
  {
    hide IsLink, Big;
  }

  /** Above level 0 map_phys stores big entries. */
  lemma BigFits(s: Vm, root: nat, t: nat, l: nat, job: Job, p: nat)
    requires Fits(s, root, job) && SlotFits(s, root, t, l, job, p) && job.cb.MapPhys? && l > 0
    ensures PTE_PS in job.cb.perm && l < TOP
  {
    hide Tree, Reach, Sound;
  }

  /** One callback keeps the counts. */
  lemma TouchConserves(s: Vm, root: nat, t: nat, l: nat, job: Job, p: nat)
    requires Conserved(s) && Fits(s, root, job) && SlotFits(s, root, t, l, job, p) && !job.cb.Clone?
    requires SlotConserves(s, t, l, job, p)
    ensures match Touch(s, t, l, job, p)
            case Went(s1, _) => Conserved(s1)
            case Stopped(o) => o.Fail? && Conserved(o.s)
  {
    hide Conserved, Alloc, Reach, SlotVa, FrameOfPa;
    ReachAt(Guest, s.mem, s.own, root, t, l, p);
    if !Skips(s, t, l, job, p) {
      var i, w := p % ENTRIES, Rd(s.mem, t, p % ENTRIES);
      LogConserves(s, s.log + [Slot(l, p)]);
      var s0 := s.(log := s.log + [Slot(l, p)]);
      var r := Rewrite(s, job.cb, w, SlotVa(job, l, p));
      if r.Some? {
        var s1 := s0.(pool := r.value.0, mem := Wr(s.mem, t, i, r.value.1),
                      data := DataAfter(job.cb, w, s.data, s.walk), walk := WalkAfter(job.cb, s.walk));
        assert Touch(s, t, l, job, p) == Went(s1, l);
        match job.cb
        case Mprotect(perm) => MprotectConserves(s0, s1, t, i, perm);
        case MapPhys(_, _, _) =>
          if l == 0 {
            PlainConserves(s0, s1, t, i, r.value.1);
          } else {
            BigFits(s, root, t, l, job, p);
            SameNames(s0, s1, t, i, r.value.1);
          }
        case MapPages(_) => AllocCap(s.pool); TakeConserves(s0, s1, t, i, r.value.1);
        case Free =>
          if l == 0 {
            PutConserves(s0, s1, t, i, ZERO);
          } else {
            PoolFrames(s0);
            SameNames(s0, s1, t, i, ZERO);
          }
        case Remap(_) => PlainConserves(s0, s1, t, i, r.value.1);
        case Recycle(_, _) => MarksConserve(s0, s1, t, i, {PTE_D});
        case RecycleStack(_) => SameNames(s0, s1, t, i, w);
      }
    }
  }

  lemma AllocCap(p: Pool)
    ensures Alloc(p).Some? ==> Alloc(p).value.0.cap == p.cap
  {
  }

  lemma PoolFrames(s: Vm)
    requires Conserved(s)
    ensures forall frame :: InPool(s.pool, frame) ==> PoolFrame(s.pool, frame)
  {
  }

  lemma PlainConserves(s: Vm, s1: Vm, t: nat, i: nat, w: Word)
    requires Conserved(s) && SmallWrite(s, s1, t, i, w) && s1.pool == s.pool
    requires !PoolFrame(s.pool, Rd(s.mem, t, i).frame) && !PoolFrame(s.pool, w.frame)
    ensures Conserved(s1)
  {
    hide Tree, Count, Linked, Clean;
    WriteConserves(s, s1, t, i, w);
  }
}
