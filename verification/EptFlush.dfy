/** The EPT callbacks of kern/ept.c together with the flushes of kern/vmx.c: the EPT of a
    vCPU changes as the steps of module Migration say, and a flush is due whenever a
    translation is gone. */
module EptFlush {
  import opened Radix
  import opened Windows
  import opened Callbacks
  import opened GuestVm
  import opened WalkTheorems
  import opened Addresses
  import opened EptTables
  import opened EptWalk
  import opened EptDevice
  import opened EptNotifiers
  import M = Migration

  const PAGES := 0x10_0000_0000

  /** The 4 KB frame that an entry of level `l` gives to page `x`. */
  function FrameIn(l: nat, w: Word, x: nat): nat {
    w.frame + (if l == 0 then 0 else if l == 1 then x % 512 else x % 0x4_0000)
  }

  /** What an EPT translates, page by page. */
  function View(s: Shadow): map<nat, nat> {
    map x: nat | x < PAGES && Translate(Ept, s.mem, s.root, x).Some? ::
      var (l, w) := Translate(Ept, s.mem, s.root, x).value; FrameIn(l, w, x)
  }

  /** The pages that lose their translation. */
  function Gone(s: Shadow, s1: Shadow): set<nat> {
    View(s).Keys - View(s1).Keys
  }

  /** Erasing entries takes pages out of the view, and changes no other. */
  lemma ErasedView(s: Shadow, s1: Shadow, pages: iset<nat>)
    requires Erased(s, s1, pages)
    ensures View(s1) == View(s) - Gone(s, s1) && s1.root == s.root
    ensures forall x :: x in Gone(s, s1) ==>
              IsPage(x) && x in pages && Translate(Ept, s1.mem, s1.root, x) != Translate(Ept, s.mem, s.root, x)
  {
    hide Good, Leaf, Pages, FrameIn, Translate, Erased;
    forall x: nat | x < PAGES
      ensures IsPage(x)
      ensures Translate(Ept, s1.mem, s1.root, x) == Translate(Ept, s.mem, s.root, x)
              || (x in pages && Translate(Ept, s1.mem, s1.root, x).None?)
    {
      PageRange(x);
      ErasedPage(s, s1, pages, x);
    }
    ErasedRoot(s, s1, pages);
  }

  lemma ErasedPage(s: Shadow, s1: Shadow, pages: iset<nat>, x: nat)
    requires Erased(s, s1, pages) && IsPage(x)
    ensures Translate(Ept, s1.mem, s1.root, x) == Translate(Ept, s.mem, s.root, x)
            || (x in pages && Translate(Ept, s1.mem, s1.root, x).None?)
  {
    hide Good, Leaf, Pages;
  }

  lemma ErasedRoot(s: Shadow, s1: Shadow, pages: iset<nat>)
    requires Erased(s, s1, pages)
    ensures s1.root == s.root
  {
  }

  /** invalidate_range_start and its flush: what the vCPU's EPT translates afterwards is
      what the step of unmapping the pages that are gone makes of it, and that step makes
      a flush of the whole EPT due; where none is asked for, nothing has changed. */
  method RangeSync(e: EptMap, l: Layout, start: nat, end: nat, ghost w: M.World, ghost v: nat)
    returns (sync: bool, ghost w1: M.World)
    requires Good(e.State(), {}) && Reachable(l) && start % PAGE_SIZE == 0
    requires M.Inv(w) && v in w.vcpus && w.vcpus[v].ept == View(e.State())
    modifies e
    ensures w1 == if sync then M.Next(w, M.UnmapRange(v, Gone(old(e.State()), e.State()))) else w
    ensures M.Inv(w1) && v in w1.vcpus && w1.vcpus[v].ept == View(e.State())
    ensures forall x, c :: x in Gone(old(e.State()), e.State()) ==> M.Pending(w1, v, x, c)
  {
    hide Good, Swept, AnySlot, View, M.Inv, Erased, M.Pending, Translate;
    ghost var s := e.State();
    sync := InvalidateRange(e, l, start, end);
    ErasedView(s, e.State(), Swept(l, start, end));
    if sync {
      w1 := M.Next(w, M.UnmapRange(v, Gone(s, e.State())));
      M.InvStep(w, M.UnmapRange(v, Gone(s, e.State())));
      forall x: nat, c: nat
        ensures M.Pending(w1, v, x, c)
      {
        M.PendingNext(w, M.UnmapRange(v, Gone(s, e.State())), v, x, c);
      }
    } else {
      w1 := w;
      assert forall x :: x in Gone(s, e.State()) ==> sync;
      assert Gone(s, e.State()) == {};
    }
  }

  /** ept_invalidate_page and its flush, of the one address. */
  method PageSync(e: EptMap, l: Layout, addr: nat, ghost w: M.World, ghost v: nat)
    returns (removed: bool, ghost w1: M.World)
    requires Good(e.State(), {}) && Reachable(l)
    requires M.Inv(w) && v in w.vcpus && w.vcpus[v].ept == View(e.State())
    modifies e
    ensures removed ==> HvaToGpa(l, addr).Some? && w1 == M.Next(w, M.Unmap(v, PageOfVa(HvaToGpa(l, addr).value)))
    ensures !removed ==> w1 == w
    ensures M.Inv(w1) && v in w1.vcpus && w1.vcpus[v].ept == View(e.State())
    ensures forall x, c :: x in Gone(old(e.State()), e.State()) ==> M.Pending(w1, v, x, c)
  {
    hide Good, View, M.Inv, Erased, M.Pending, Translate, Leaf, PageOfVa, HvaToGpa;
    ghost var s := e.State();
    removed := InvalidatePage(e, l, addr);
    w1 := w;
    if HvaToGpa(l, addr).Some? {
      ghost var x := PageOfVa(HvaToGpa(l, addr).value);
      AddressPage(HvaToGpa(l, addr).value);
      ErasedView(s, e.State(), iset{x});
      PageView(s, e.State(), x, removed);
      if removed {
        w1 := M.Next(w, M.Unmap(v, x));
        M.InvStep(w, M.Unmap(v, x));
        forall c: nat
          ensures M.Pending(w1, v, x, c)
        {
          M.PendingNext(w, M.Unmap(v, x), v, x, c);
        }
      }
    } else {
      assert Gone(s, e.State()) == {};
    }
  }

  /** The page leaves the view exactly if the callback says that it has removed it. */
  lemma PageView(s: Shadow, s1: Shadow, x: nat, removed: bool)
    requires Erased(s, s1, iset{x}) && Good(s, {}) && IsPage(x)
    requires removed == (Leaf(Ept, s.mem, s.root, x).0 == 0 && Leaf(Ept, s.mem, s.root, x).1 != ZERO)
    ensures View(s1) == if removed then View(s) - {x} else View(s)
    ensures Gone(s, s1) <= {x} && (!removed ==> Gone(s, s1) == {})
  {
    hide Good, Leaf, View, Erased, Translate, FrameIn;
    ErasedView(s, s1, iset{x});
    PageGoes(s, s1, x, removed);
    PageRange(x);
    InView(s, x);
    InView(s1, x);
    assert forall y :: y in Gone(s, s1) ==> y == x;
    if x !in View(s) || x in View(s1) {
      assert Gone(s, s1) == {};
    } else {
      assert Gone(s, s1) == {x};
    }
  }

  lemma InView(s: Shadow, x: nat)
    ensures x in View(s) <==> x < PAGES && Translate(Ept, s.mem, s.root, x).Some?
  {
    hide Translate;
  }

  lemma PageGoes(s: Shadow, s1: Shadow, x: nat, removed: bool)
    requires Erased(s, s1, iset{x}) && Good(s, {}) && IsPage(x)
    requires removed == (Leaf(Ept, s.mem, s.root, x).0 == 0 && Leaf(Ept, s.mem, s.root, x).1 != ZERO)
    ensures removed ==> Translate(Ept, s.mem, s.root, x).Some? && Translate(Ept, s1.mem, s1.root, x).None?
    ensures !removed ==> Translate(Ept, s1.mem, s1.root, x) == Translate(Ept, s.mem, s.root, x)
  {
    hide Good, Pages, Stop, Reach;
    SeekLeaf(s, x);
    var h := Stop(Ept, s.mem, s.root, TOP, 0, x);
    GoodTree(s);
    RootAt(s.own, s.root, 0, x);
    StopAt(Ept, s.mem, s.own, s.root, s.root, TOP, 0, x);
    if !Present(Ept, h.word) {
      NotPresent(s, h.table, Up(x, h.level) % ENTRIES);
    }
  }
}
