/** What breaking copy-on-write keeps. */
module CowTheorems {
  import opened Radix
  import opened PagePool
  import opened Callbacks
  import opened GuestVm
  import opened VmInvariants
  import opened WalkTheorems
  import opened Addresses
  import opened Conservation
  import opened CowFault

  /** The slot of a page that has a 4 KB entry. */
  lemma CowPlace(s: Vm, root: nat, v: nat)
    requires Sound(s) && IsRoot(s.own, root) && IsPage(v)
    requires Leaf(Guest, s.mem, root, v).0 == 0 && Present(Guest, Leaf(Guest, s.mem, root, v).1)
    ensures var r := Locate(s, root, TOP, 0, v, false, true);
            && r.Found? && r.level == 0 && r.s == s && Reach(Guest, s.mem, root, r.table, 0, v)
            && Rd(s.mem, r.table, v % ENTRIES) == Leaf(Guest, s.mem, root, v).1
            && r.table in s.own && s.own[r.table].level == 0 && s.own[r.table].root == root
  {
    hide Locate, Stop;
    RootAt(s.own, root, 0, v);
    LocateExtends(s, root, root, TOP, 0, v, false, true);
    LocateStop(s, root, root, TOP, 0, v, false, true);
    var r := Locate(s, root, TOP, 0, v, false, true);
    StopStep(Guest, s.mem, root, TOP, TOP, Up(v, TOP));
    FoundReach(s, root, root, TOP, 0, v, r.table, r.level);
    ReachAt(Guest, s.mem, s.own, root, r.table, 0, v);
    UpZero(v);
  }

  /** The copying branch: the counts follow the entry to its new page. */
  lemma CopyConserves(s: Vm, s1: Vm, t: nat, i: nat, bits: set<nat>)
    requires Conserved(s) && t in s.own && s.own[t].level == 0 && i < ENTRIES && Alloc(s.pool).Some?
    requires var (q, k) := Alloc(s.pool).value;
             var w := Rd(s.mem, t, i);
             && s1.own == s.own && s1.mem == Wr(s.mem, t, i, Word(FrameOf(k), bits))
             && s1.pool == if InPool(q, w.frame) then Put(q, PageOf(q, w.frame)) else q
    ensures Conserved(s1)
    ensures FrameOf(Alloc(s.pool).value.1) != Rd(s.mem, t, i).frame
  {
    hide Tree, Linked, Clean, Alloc, Names;
    var (q, k) := Alloc(s.pool).value;
    var w := Rd(s.mem, t, i);
    AllocCounts(s);
    InUse(s, t, i);
    if PoolFrame(s.pool, w.frame) {
      NamedInUse(s, t, i);
      assert RefOf(q, w.frame) == RefOf(s.pool, w.frame);
      PutOk(q, PageOf(q, w.frame));
      PutApart(s.(pool := q), w.frame);
    }
    WriteConserves(s, s1, t, i, Word(FrameOf(k), bits));
  }

  lemma InUse(s: Vm, t: nat, i: nat)
    requires t in s.own && s.own[t].level == 0 && i < ENTRIES
    ensures Count(s, Rd(s.mem, t, i).frame) > 0 && |Names(s.mem, s.own, Rd(s.mem, t, i).frame)| > 0
  {
    assert (t, i) in Names(s.mem, s.own, Rd(s.mem, t, i).frame);
  }

  /** What one handled write fault does to the entry of page `v`: `w1` for `w`. */
  predicate Broken(m: Vm, m1: Vm, w: Word, w1: Word) {
    && w1.bits == w.bits - {PTE_COW} + {PTE_W}
    && (w1.frame == w.frame <==> Unshared(m.pool, w.frame))
    && m1.data == (if w1.frame == w.frame then m.data else m.data[w1.frame := Bytes(m.data, w.frame)])
  }

  lemma CowStep(m: Vm, root: nat, addr: nat, fec: set<nat>, checked: bool)
    requires Conserved(m) && IsRoot(m.own, root) && FEC_W in fec && HandleFault(m, root, addr, fec, checked).Handled?
    requires var e := Leaf(Guest, m.mem, root, PageOfVa(addr)); e.0 == 0 && PTE_P in e.1.bits && PTE_COW in e.1.bits
    ensures Locate(m, root, TOP, 0, PageOfVa(addr), false, true).Found?
    ensures var v := PageOfVa(addr);
            var t := Locate(m, root, TOP, 0, v, false, true).table;
            var m1 := HandleFault(m, root, addr, fec, checked).s;
            && Reach(Guest, m.mem, root, t, 0, v) && t in m.own && m.own[t].level == 0
            && m1.own == m.own && Conserved(m1) && IsPage(v)
            && exists w1 :: Broken(m, m1, Rd(m.mem, t, v % ENTRIES), w1)
                 && m1.mem == Wr(m.mem, t, v % ENTRIES, w1)
                 && Rd(m.mem, t, v % ENTRIES) == Leaf(Guest, m.mem, root, v).1
                 && (w1.frame != Rd(m.mem, t, v % ENTRIES).frame ==>
                      Count(m, w1.frame) == 0 && w1.frame !in m.own && PoolFrame(m.pool, w1.frame))
                 && m1.pool.cap == m.pool.cap
  {
    hide Conserved, Alloc, Locate, Leaf, Reach, PageOfVa, Count;
    AllocCap(m.pool);
    var s, v := m, PageOfVa(addr);
    AddressPage(addr);
    ConservedSound(s);
    CowPlace(s, root, v);
    var t, i := Locate(s, root, TOP, 0, v, false, true).table, v % ENTRIES;
    var w := Rd(s.mem, t, i);
    UpZero(v);
    var m1 := HandleFault(m, root, addr, fec, checked).s;
    assert HandleFault(m, root, addr, fec, checked) == BreakCow(m, t, 0, i, v);
    if Unshared(s.pool, w.frame) {
      var w1 := Word(w.frame, w.bits - {PTE_COW} + {PTE_W});
      SameNames(s, m1, t, i, w1);
      assert Broken(m, m1, w, w1);
    } else {
      var w1 := Word(FrameOf(Alloc(s.pool).value.1), w.bits - {PTE_COW} + {PTE_W});
      AllocCounts(s);
      CopyConserves(s, m1, t, i, w1.bits);
      assert Broken(m, m1, w, w1);
    }
  }

  /** Breaking copy-on-write: the page keeps its bytes and becomes writable. It
      stays in its frame exactly when the pool counts one reference; and then no
      other entry of any table names the frame, while a fresh frame was named by
      none at all. */
  lemma CowKeepsBytes(m: Vm, root: nat, addr: nat, fec: set<nat>, checked: bool)
    requires Conserved(m) && IsRoot(m.own, root) && FEC_W in fec && HandleFault(m, root, addr, fec, checked).Handled?
    requires var e := Leaf(Guest, m.mem, root, PageOfVa(addr)); e.0 == 0 && PTE_P in e.1.bits && PTE_COW in e.1.bits
    ensures var v := PageOfVa(addr);
            var m1 := HandleFault(m, root, addr, fec, checked).s;
            var w := Leaf(Guest, m.mem, root, v).1;
            var (l1, w1) := Leaf(Guest, m1.mem, root, v);
            && l1 == 0 && w1.bits == w.bits - {PTE_COW} + {PTE_W}
            && Bytes(m1.data, w1.frame) == Bytes(m.data, w.frame)
            && (w1.frame == w.frame <==> Unshared(m.pool, w.frame))
            && (w1.frame == w.frame ==> |Names(m.mem, m.own, w.frame)| == 1)
            && (w1.frame != w.frame ==> Names(m.mem, m.own, w1.frame) == {} && RefOf(m1.pool, w1.frame) == 1)
            && Conserved(m1)
  {
    hide Locate, Leaf, Reach, PageOfVa, Put, HandleFault, Clean, Linked, Apart, FreeOk;
    CowStep(m, root, addr, fec, checked);
    var s, v := m, PageOfVa(addr);
    var t := Locate(s, root, TOP, 0, v, false, true).table;
    var m1 := HandleFault(m, root, addr, fec, checked).s;
    var w := Rd(s.mem, t, v % ENTRIES);
    var w1 :| Broken(m, m1, w, w1) && m1.mem == Wr(s.mem, t, v % ENTRIES, w1)
              && (w1.frame != w.frame ==> Count(s, w1.frame) == 0 && w1.frame !in s.own && PoolFrame(s.pool, w1.frame));
    UpZero(v);
    WriteLeaf(Guest, s.mem, s.own, root, t, 0, v, w1, root, v);
    InUse(s, t, v % ENTRIES);
    if w1.frame != w.frame {
      NamesWrite(s.mem, s.own, t, v % ENTRIES, w1, w1.frame);
      assert RefOf(m1.pool, w1.frame) == Count(m1, w1.frame);
    } else {
      assert RefOf(s.pool, w.frame) == Count(s, w.frame);
    }
  }

  /** ... and every other page, under every root, keeps its entry and its bytes. */
  lemma CowIsolates(m: Vm, root: nat, addr: nat, fec: set<nat>, checked: bool, r: nat, x: nat)
    requires Conserved(m) && IsRoot(m.own, root) && FEC_W in fec && HandleFault(m, root, addr, fec, checked).Handled?
    requires var e := Leaf(Guest, m.mem, root, PageOfVa(addr)); e.0 == 0 && PTE_P in e.1.bits && PTE_COW in e.1.bits
    requires IsRoot(m.own, r) && IsPage(x) && (r != root || x != PageOfVa(addr))
    ensures var m1 := HandleFault(m, root, addr, fec, checked).s;
            var e := Leaf(Guest, m.mem, r, x);
            && Leaf(Guest, m1.mem, r, x) == e
            && (e.0 == 0 && Present(Guest, e.1) ==> Bytes(m1.data, e.1.frame) == Bytes(m.data, e.1.frame))
  {
    hide Locate, Leaf, Reach, PageOfVa, Put, HandleFault, Clean, Linked, Apart, FreeOk, Names;
    CowStep(m, root, addr, fec, checked);
    var s, v := m, PageOfVa(addr);
    var t := Locate(s, root, TOP, 0, v, false, true).table;
    var m1 := HandleFault(m, root, addr, fec, checked).s;
    var w := Rd(s.mem, t, v % ENTRIES);
    var w1 :| Broken(m, m1, w, w1) && m1.mem == Wr(s.mem, t, v % ENTRIES, w1)
              && (w1.frame != w.frame ==> Count(s, w1.frame) == 0 && w1.frame !in s.own && PoolFrame(s.pool, w1.frame));
    UpZero(x);
    WriteLeaf(Guest, s.mem, s.own, root, t, 0, v, w1, r, x);
    var e := Leaf(Guest, s.mem, r, x);
    if e.0 == 0 && Present(Guest, e.1) {
      CowPlace(s, r, x);
      InUse(s, Locate(s, r, TOP, 0, x, false, true).table, x % ENTRIES);
    }
  }

  /** The fault the processor reports for a page that is present carries FEC_P;
      compiled with its assertions the handler dies of every such fault, so it
      never breaks copy-on-write for anyone: whenever it returns from a fault that
      the processor reported, it has copied nothing, and the page was not
      present. */
  lemma CheckedNeverCopies(m: Vm, root: nat, addr: nat, write: bool, user: bool)
    requires Sound(m) && IsRoot(m.own, root)
    requires FaultCode(m.mem, root, PageOfVa(addr), write, user).Some?
    requires HandleFault(m, root, addr, FaultCode(m.mem, root, PageOfVa(addr), write, user).value, true).Handled?
    ensures var m1 := HandleFault(m, root, addr, FaultCode(m.mem, root, PageOfVa(addr), write, user).value, true).s;
            m1.data == m.data && m1.pool == m.pool
            && Translate(Guest, m.mem, root, PageOfVa(addr)).None?
  {
    hide Locate, PageOfVa, Stop;
    var v := PageOfVa(addr);
    AddressPage(addr);
    RootAt(m.own, root, 0, v);
    HardwareAgrees(m.mem, m.own, root, root, TOP, v);
    LocateExtends(m, root, root, TOP, 0, v, false, true);
    LocateStop(m, root, root, TOP, 0, v, false, true);
    var r := Locate(m, root, TOP, 0, v, false, true);
    assert !Present(Guest, Rd(r.s.mem, r.table, Up(v, r.level) % ENTRIES));
  }

  /** The handler has no business with a fault that is no write (bit 1 of the error code),
      or where the entry at which the processor's walk for the page ends does not have
      bit 9; then everything is as it was. */
  ghost predicate LeftAlone(s: Vm, s1: Vm, root: nat, addr: nat, fec: set<nat>) {
    && (1 !in fec ==> s1 == s)
    && (Sound(s) && IsRoot(s.own, root) && 9 !in Stop(Guest, s.mem, root, TOP, 0, PageOfVa(addr)).word.bits ==> s1 == s)
  }

  /** ... whenever it returns, with any error code and in any build. */
  lemma OthersKept(m: Vm, root: nat, addr: nat, fec: set<nat>, checked: bool)
    requires HandleFault(m, root, addr, fec, checked).Handled?
    ensures LeftAlone(m, HandleFault(m, root, addr, fec, checked).s, root, addr, fec)
  {
    hide Locate, PageOfVa, Stop, BreakCow;
    var v := PageOfVa(addr);
    if Sound(m) && IsRoot(m.own, root) {
      AddressPage(addr);
      RootAt(m.own, root, 0, v);
      LocateExtends(m, root, root, TOP, 0, v, false, true);
      LocateStop(m, root, root, TOP, 0, v, false, true);
      LookupSame(m, root, TOP, 0, v);
    }
  }

  lemma {:induction false} LookupSame(s: Vm, f: nat, L: nat, g: nat, u: nat)
    requires g <= L
    ensures Locate(s, f, L, g, u, false, true).s == s
    decreases L
  {
    var w := Rd(s.mem, f, Up(u, L - g) % ENTRIES);
    if L > g && !(L < TOP && Big(w) && PTE_P in w.bits) && PTE_P in w.bits {
      LookupSame(s, w.frame, L - 1, g, u);
    }
  }

  /** What a handled write does to a copy-on-write entry of any size, present or not: it
      loses bit 9 and gets bit 1, and no other bit; and no other entry changes. */
  lemma CowEntry(m: Vm, root: nat, addr: nat, fec: set<nat>, checked: bool, r: nat, x: nat)
    requires Sound(m) && IsRoot(m.own, root) && IsRoot(m.own, r) && IsPage(x)
    requires HandleFault(m, root, addr, fec, checked).Handled? && 1 in fec
    requires 9 in Stop(Guest, m.mem, root, TOP, 0, PageOfVa(addr)).word.bits
    ensures var m1 := HandleFault(m, root, addr, fec, checked).s;
            var h := Stop(Guest, m.mem, root, TOP, 0, PageOfVa(addr));
            var (e, e1) := (Leaf(Guest, m.mem, r, x), Leaf(Guest, m1.mem, r, x));
            if r == root && Up(x, h.level) == Up(PageOfVa(addr), h.level)
            then e1.0 == h.level && e1.1.bits == h.word.bits - {9} + {1}
            else e1 == e
  {
    hide Locate, PageOfVa, Stop, Leaf, Reach, Up, Sound;
    var v := PageOfVa(addr);
    AddressPage(addr);
    SoundTables(m);
    RootAt(m.own, root, 0, v);
    LocateExtends(m, root, root, TOP, 0, v, false, true);
    LocateStop(m, root, root, TOP, 0, v, false, true);
    LookupSame(m, root, TOP, 0, v);
    var q := Locate(m, root, TOP, 0, v, false, true);
    StopStep(Guest, m.mem, root, TOP, TOP, Up(v, TOP));
    CowSlot(m, root, addr, fec, checked);
    FoundReach(m, root, root, TOP, 0, v, q.table, q.level);
    UpAdd(v, q.level, 4 - q.level);
    var w1 := Rd(HandleFault(m, root, addr, fec, checked).s.mem, q.table, Up(v, q.level) % ENTRIES);
    WriteLeaf(Guest, m.mem, m.own, root, q.table, q.level, Up(v, q.level), w1, r, x);
  }

  /** ... and what is copied, unless the frame is kept, is what the processor sees at the
      page, which lies within the frames of a big entry. */
  lemma CowCopies(m: Vm, root: nat, addr: nat, fec: set<nat>, checked: bool)
    requires Sound(m) && IsRoot(m.own, root) && HandleFault(m, root, addr, fec, checked).Handled? && 1 in fec
    requires var w := Stop(Guest, m.mem, root, TOP, 0, PageOfVa(addr)).word; 0 in w.bits && 9 in w.bits
    ensures var m1 := HandleFault(m, root, addr, fec, checked).s;
            var (v, h) := (PageOfVa(addr), Stop(Guest, m.mem, root, TOP, 0, PageOfVa(addr)));
            var frame := Rd(m1.mem, h.table, Up(v, h.level) % ENTRIES).frame;
            if Unshared(m.pool, h.word.frame) then frame == h.word.frame && m1.data == m.data
            else m1.data == m.data[frame := Bytes(m.data, h.word.frame
                                                            + if h.level == 0 then 0 else if h.level == 1 then v % 512
                                                              else v % 0x4_0000)]
  {
    hide Locate, PageOfVa, Stop, Up, Sound, Alloc;
    var v := PageOfVa(addr);
    AddressPage(addr);
    SoundTables(m);
    RootAt(m.own, root, 0, v);
    LocateExtends(m, root, root, TOP, 0, v, false, true);
    LocateStop(m, root, root, TOP, 0, v, false, true);
    LookupSame(m, root, TOP, 0, v);
  }

  lemma SoundTables(m: Vm)
    requires Sound(m)
    ensures Tree(Guest, m.mem, m.own)
  {
  }

  lemma CowSlot(m: Vm, root: nat, addr: nat, fec: set<nat>, checked: bool)
    requires HandleFault(m, root, addr, fec, checked).Handled? && 1 in fec
    requires var q := Locate(m, root, TOP, 0, PageOfVa(addr), false, true);
             q.Found? ==> PTE_COW in Rd(m.mem, q.table, Up(PageOfVa(addr), q.level) % ENTRIES).bits
    ensures var q := Locate(m, root, TOP, 0, PageOfVa(addr), false, true);
            var m1 := HandleFault(m, root, addr, fec, checked).s;
            var i := Up(PageOfVa(addr), q.level) % ENTRIES;
            && q.Found? && m1.mem == Wr(m.mem, q.table, i, Rd(m1.mem, q.table, i))
            && Rd(m1.mem, q.table, i).bits == Rd(m.mem, q.table, i).bits - {9} + {1}
  {
    hide Locate, PageOfVa, Up;
  }

  /** When the handler returns, for any error code. */
  lemma HandledIff(m: Vm, root: nat, addr: nat, fec: set<nat>, checked: bool)
    requires Sound(m) && IsRoot(m.own, root)
    requires Leaf(Guest, m.mem, root, PageOfVa(addr)).0 == 0 && Translate(Guest, m.mem, root, PageOfVa(addr)).Some?
    ensures var w := Leaf(Guest, m.mem, root, PageOfVa(addr)).1;
            HandleFault(m, root, addr, fec, checked).Handled?
            <==> ((checked ==> FEC_P !in fec && FEC_RSV !in fec)
                  && (FEC_W in fec && PTE_COW in w.bits && !Unshared(m.pool, w.frame)
                      ==> m.pool.free != [] || |m.pool.refs| + 512 <= m.pool.cap))
  {
    hide Locate, PageOfVa, Leaf, Reach;
    AddressPage(addr);
    CowPlace(m, root, PageOfVa(addr));
    AllocFails(m.pool);
    UpZero(PageOfVa(addr));
  }
}
