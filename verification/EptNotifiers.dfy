/** The notifier callbacks of kern/ept.c, through which the host tells the EPT that
    a mapping of the process changes. */
module EptNotifiers {
  import opened Radix
  import opened Windows
  import opened Callbacks
  import opened GuestVm
  import opened WalkTheorems
  import opened Addresses
  import opened EptTables
  import opened EptWalk
  import opened EptDevice

  const HUGE_PAGE_SIZE := 0x20_0000

  /** Guest-physical addresses within the reach of four levels. */
  predicate Reachable(l: Layout) {
    Valid(l) && l.physEnd <= TWO48
  }

  /** The 4 KB entries of the pages in `pages` are gone, and nothing else is. */
  ghost predicate Erased(s: Shadow, s1: Shadow, pages: iset<nat>) {
    && Good(s1, {}) && s1.root == s.root && s1.pins == s.pins && Pages(s1) == Pages(s)
    && forall x :: IsPage(x) ==>
         Leaf(Ept, s1.mem, s.root, x)
           == if x in pages && Leaf(Ept, s.mem, s.root, x).0 == 0 then (0, ZERO) else Leaf(Ept, s.mem, s.root, x)
  }

  /** Where a lookup that creates nothing ends, the deciding entry is. */
  lemma SeekLeaf(s: Shadow, v: nat)
    requires Good(s, {}) && IsPage(v)
    ensures var r := Seek(s, s.root, TOP, 0, v, false); var e := Leaf(Ept, s.mem, s.root, v);
            && r.s == s && !r.NoPage?
            && (r.Spot? ==> e == (0, Rd(s.mem, r.table, v % ENTRIES)) && r.table in s.own && s.own[r.table].level == 0
                            && Reach(Ept, s.mem, s.root, r.table, 0, v))
            && (r.Missing? ==> e == (0, ZERO))
            && (r.BelowBig? ==> e.0 > 0)
            && (r.Spot? <==> Stop(Ept, s.mem, s.root, TOP, 0, v).level == 0)
  {
    hide Good, Seek, Stop;
    UpZero(v);
    SeekPage(s, v, 0, false);
    GoodTree(s);
    RootAt(s.own, s.root, 0, v);
    StopAt(Ept, s.mem, s.own, s.root, s.root, TOP, 0, v);
    var h := Stop(Ept, s.mem, s.root, TOP, 0, v);
    if !Present(Ept, h.word) {
      NotPresent(s, h.table, Up(v, h.level) % ENTRIES);
    }
  }

  lemma NotPresent(s: Shadow, f: nat, i: nat)
    requires Good(s, {}) && f in s.own && i < ENTRIES && !Present(Ept, Rd(s.mem, f, i))
    ensures Rd(s.mem, f, i) == ZERO
  {
    assert EntryOk(s.own, f, i, Rd(s.mem, f, i));
  }

  /** Storing zero in the level-0 slot of page `v`. */
  lemma ZeroErases(s: Shadow, s1: Shadow, t: nat, v: nat)
    requires Good(s, {}) && Good(s1, {}) && IsPage(v) && s1.root == s.root && s1.pins == s.pins
    requires s1.own == s.own && s1.free == s.free && s1.mem == Wr(s.mem, t, v % ENTRIES, ZERO)
    requires Reach(Ept, s.mem, s.root, t, 0, v) && Leaf(Ept, s.mem, s.root, v).0 == 0
    ensures Erased(s, s1, iset{v})
  {
    hide Good, Leaf, Reach;
    GoodTree(s);
    PagesHeld(s, s1);
    forall x | IsPage(x)
      ensures Leaf(Ept, s1.mem, s.root, x) == if x == v then (0, ZERO) else Leaf(Ept, s.mem, s.root, x)
    {
      UpZero(x);
      WriteLeaf(Ept, s.mem, s.own, s.root, t, 0, v, ZERO, s.root, x);
    }
  }

  lemma NothingErased(s: Shadow, v: nat)
    requires Good(s, {}) && (Leaf(Ept, s.mem, s.root, v) == (0, ZERO) || Leaf(Ept, s.mem, s.root, v).0 > 0)
    ensures Erased(s, s, iset{v})
  {
  }

  /** ept_invalidate_page: the page's 4 KB entry goes. An entry for a huge page
      that covers it stays. */
  method InvalidatePage(e: EptMap, l: Layout, addr: nat) returns (removed: bool)
    requires Good(e.State(), {}) && Reachable(l)
    modifies e
    ensures match HvaToGpa(l, addr)
            case None => !removed && e.State() == old(e.State())
            case Some(gpa) =>
              && Erased(old(e.State()), e.State(), iset{PageOfVa(gpa)})
              && removed == (Leaf(Ept, old(e.mem), e.root, PageOfVa(gpa)).0 == 0
                             && Leaf(Ept, old(e.mem), e.root, PageOfVa(gpa)).1 != ZERO)
              && e.own == old(e.own) && e.free == old(e.free)
  {
    hide Good, Leaf, Seek, PageOfVa, Erased, HvaToGpa;
    ghost var s := e.State();
    var image := HvaToGpa(l, addr);
    if image.None? {
      return false;
    }
    var gpa := image.value;
    ghost var v := PageOfVa(gpa);
    AddressPage(gpa);
    UpZero(v);
    SeekLeaf(s, v);
    var ret, t, i := e.LookupGpa(gpa, 0, false);
    if ret != OK {
      NothingErased(s, v);
      return false;
    }
    SlotAny(s, t, i);
    removed := e.ClearEpte(t, i);
    ZeroErases(s, e.State(), t, v);
  }

  /** That does happen: after a fault on a 2 MB page of the host, by an EPT of three
      pages, its pages stay mapped when they are invalidated. */
  method HugeStays(pages: seq<nat>, ad: bool, l: Layout, hva: nat, write: bool, page: nat, head: nat)
    returns (e: EptMap)
    requires |pages| >= TOP && forall i, j :: 0 <= i < j < |pages| ==> pages[i] != pages[j]
    requires Reachable(l) && HvaToGpa(l, hva).Some?
    ensures var t := Translate(Ept, e.mem, e.root, PageOfVa(HvaToGpa(l, hva).value));
            t.Some? && t.value.0 == 1 && t.value.1.frame == head
  {
    hide Good, Leaf, PageOfVa, HvaToGpa, Pages, SeekCode, Up;
    e := new EptMap(pages, ad);
    var gpa := HvaToGpa(l, hva).value;
    AddressPage(gpa);
    EmptySeek(e.State(), PageOfVa(gpa));
    var r := e.SetEpte(gpa, write, Page(page, head, 21), PfnError(EINVAL));
    assert Leaf(Ept, e.mem, e.root, PageOfVa(gpa)).0 == 1;
    var removed := InvalidatePage(e, l, hva);
    assert !removed;
  }

  /** Nothing is in the way of a 2 MB entry in an EPT that translates nothing. */
  lemma EmptySeek(s: Shadow, v: nat)
    requires IsPage(v) && |s.free| + 1 >= TOP && forall x :: IsPage(x) ==> Translate(Ept, s.mem, s.root, x).None?
    ensures SeekCode(s, 1, Up(v, 1)) == OK
  {
    hide Leaf, Up, Stop;
    StopVia(Ept, s.mem, s.root, TOP, 1, 0, v);
    assert Translate(Ept, s.mem, s.root, v).None?;
  }

  /** The pages whose host address, as hva_to_gpa accepts it, is in the range. */
  ghost function Swept(l: Layout, start: nat, end: nat): iset<nat>
    requires Valid(l)
  {
    iset v: nat | GpaToHva(l, v * PAGE_SIZE).Some? && start <= GpaToHva(l, v * PAGE_SIZE).value < end
                  && HvaToGpa(l, GpaToHva(l, v * PAGE_SIZE).value) == Some(v * PAGE_SIZE)
  }

  /** A page's host address is a page address. */
  lemma HostAligned(l: Layout, v: nat)
    requires Valid(l) && GpaToHva(l, v * PAGE_SIZE).Some?
    requires HvaToGpa(l, GpaToHva(l, v * PAGE_SIZE).value) == Some(v * PAGE_SIZE)
    ensures GpaToHva(l, v * PAGE_SIZE).value % PAGE_SIZE == 0
  {
    hide HvaToGpa, GpaToHva;
    GpaInverts(l, GpaToHva(l, v * PAGE_SIZE).value);
    LgPage(GpaToHva(l, v * PAGE_SIZE).value, v * PAGE_SIZE);
  }

  /** ... and a page address has a page for its image. */
  lemma ImagePage(l: Layout, pos: nat)
    requires Reachable(l) && pos % PAGE_SIZE == 0 && HvaToGpa(l, pos).Some?
    ensures HvaToGpa(l, pos).value == PageOfVa(HvaToGpa(l, pos).value) * PAGE_SIZE
    ensures GpaToHva(l, HvaToGpa(l, pos).value) == Some(pos)
  {
    hide GpaToHva;
    GpaInverts(l, pos);
    LgPage(HvaToGpa(l, pos).value, pos);
  }

  lemma SweptNext(l: Layout, start: nat, pos: nat)
    requires Reachable(l) && start % PAGE_SIZE == 0 && pos % PAGE_SIZE == 0 && start <= pos
    ensures Swept(l, start, pos + PAGE_SIZE)
              == Swept(l, start, pos) + match HvaToGpa(l, pos) case None => iset{} case Some(gpa) => iset{PageOfVa(gpa)}
  {
    hide HvaToGpa, GpaToHva, PageOfVa;
    if HvaToGpa(l, pos).Some? {
      ImagePage(l, pos);
    }
    forall v: nat
      ensures v in Swept(l, start, pos + PAGE_SIZE)
              <==> v in Swept(l, start, pos) || HvaToGpa(l, pos) == Some(v * PAGE_SIZE)
    {
      if v in Swept(l, start, pos + PAGE_SIZE) {
        HostAligned(l, v);
      }
    }
  }

  lemma SweptEnd(l: Layout, start: nat, pos: nat, end: nat)
    requires Valid(l) && pos % PAGE_SIZE == 0 && end <= pos && (pos < end + PAGE_SIZE || pos == start)
    ensures Swept(l, start, pos) == Swept(l, start, end)
  {
    hide HvaToGpa, GpaToHva;
    forall v: nat
      ensures v in Swept(l, start, pos) <==> v in Swept(l, start, end)
    {
      if v in Swept(l, start, pos) {
        HostAligned(l, v);
      }
    }
  }

  lemma ErasedMore(s: Shadow, s1: Shadow, s2: Shadow, a: iset<nat>, b: iset<nat>)
    requires Erased(s, s1, a) && Erased(s1, s2, b)
    ensures Erased(s, s2, a + b)
  {
    hide Good, Leaf, Pages;
  }

  lemma ErasedNone(s: Shadow)
    requires Good(s, {})
    ensures Erased(s, s, iset{})
  {
  }

  /** Where no table comes or goes, walks stop where they did. */
  lemma {:induction false} SameDepth(s: Shadow, s1: Shadow, f: nat, L: nat, u: nat)
    requires Good(s, {}) && Good(s1, {}) && s1.own == s.own && s1.root == s.root && Radix.At(s.own, f, s.root, L, 0, u)
    ensures Stop(Ept, s1.mem, f, L, 0, u).level == Stop(Ept, s.mem, f, L, 0, u).level
    decreases L
  {
    hide Good, Up, Stop, IsLink, Tree;
    var i := Up(u, L) % ENTRIES;
    StopStep(Ept, s.mem, f, L, 0, u);
    StopStep(Ept, s1.mem, f, L, 0, u);
    LinkBoth(s, s1, f, i);
    LinkBoth(s1, s, f, i);
    if L > 0 && IsLink(Ept, Rd(s.mem, f, i), L) {
      GoodTree(s);
      ChildAt(Ept, s.mem, s.own, s.root, f, L, 0, u);
      SameDepth(s, s1, Rd(s.mem, f, i).frame, L - 1, u);
    }
  }

  lemma LinkBoth(s: Shadow, s1: Shadow, f: nat, i: nat)
    requires Good(s, {}) && Good(s1, {}) && s1.own == s.own && s1.root == s.root && f in s.own && i < ENTRIES
    ensures var (w, w1, level) := (Rd(s.mem, f, i), Rd(s1.mem, f, i), s.own[f].level);
            IsLink(Ept, w, level) ==> IsLink(Ept, w1, level) && w1.frame == w.frame
  {
    hide Balanced, FreeApart;
    var w := Rd(s.mem, f, i);
    assert EntryOk(s.own, f, i, w);
    if IsLink(Ept, w, s.own[f].level) {
      RootIs(s, {});
      assert LinkedFrom(s1, {}, w.frame);
      LinkIsLink(Rd(s1.mem, f, i), w.frame, s.own[f].level);
    }
  }

  lemma SamePlace(s: Shadow, s1: Shadow, v: nat)
    requires Good(s, {}) && Good(s1, {}) && s1.own == s.own && s1.root == s.root && IsPage(v)
    ensures Stop(Ept, s1.mem, s.root, TOP, 0, v).level == Stop(Ept, s.mem, s.root, TOP, 0, v).level
  {
    hide Good, Stop;
    GoodTree(s);
    RootAt(s.own, s.root, 0, v);
    SameDepth(s, s1, s.root, TOP, v);
  }

  /** The walk for some page of `pages` gets to a level-0 table: there may be an entry. */
  ghost predicate AnySlot(s: Shadow, pages: iset<nat>) {
    exists v {:trigger Slotted(s, v)} :: v in pages && Slotted(s, v)
  }

  ghost predicate Slotted(s: Shadow, v: nat) {
    IsPage(v) && Stop(Ept, s.mem, s.root, TOP, 0, v).level == 0
  }

  lemma AnyMore(s: Shadow, pages: iset<nat>, v: nat)
    ensures AnySlot(s, pages + iset{v}) <==> AnySlot(s, pages) || Slotted(s, v)
    ensures !AnySlot(s, iset{})
  {
    hide Slotted;
    if AnySlot(s, pages) {
      var x :| x in pages && Slotted(s, x);
      assert x in pages + iset{v} && Slotted(s, x);
    }
    if Slotted(s, v) {
      assert v in pages + iset{v} && Slotted(s, v);
    }
  }

  /** A translation that goes was in such a table. */
  lemma GoneSlot(s: Shadow, s1: Shadow, pages: iset<nat>, x: nat)
    requires Erased(s, s1, pages) && IsPage(x)
    requires Translate(Ept, s1.mem, s1.root, x) != Translate(Ept, s.mem, s.root, x)
    ensures AnySlot(s, pages)
  {
    hide Good, Pages;
    assert x in pages && Slotted(s, x);
  }

  /** invalidate_range_start: every 4 KB entry of the range goes; and the CPU is told to
      flush if there was room for one, so whenever a translation has changed. */
  method InvalidateRange(e: EptMap, l: Layout, start: nat, end: nat) returns (sync: bool)
    requires Good(e.State(), {}) && Reachable(l) && start % PAGE_SIZE == 0
    modifies e
    ensures Erased(old(e.State()), e.State(), Swept(l, start, end))
    ensures e.own == old(e.own) && e.free == old(e.free)
    ensures sync <==> AnySlot(old(e.State()), Swept(l, start, end))
    ensures forall x {:trigger Translate(Ept, e.mem, e.root, x)} | IsPage(x) ::
              Translate(Ept, e.mem, e.root, x) != Translate(Ept, old(e.mem), e.root, x) ==> sync
  {
    hide Good, Leaf, Seek, PageOfVa, Erased, HvaToGpa, GpaToHva, Swept, Stop, Wr, IsLeaf, Reach, Drop, AnySlot,
      Slotted, Translate;
    ghost var s0 := e.State();
    var pos := start;
    sync := false;
    SweptNone(l, start);
    ErasedNone(s0);
    AnyMore(s0, iset{}, 0);
    while pos < end
      invariant start <= pos && pos % PAGE_SIZE == 0 && (pos < end + PAGE_SIZE || pos == start)
      invariant Good(e.State(), {}) && Erased(s0, e.State(), Swept(l, start, pos))
      invariant e.own == s0.own && e.free == s0.free && e.root == s0.root
      invariant sync <==> AnySlot(s0, Swept(l, start, pos))
    {
      SweptNext(l, start, pos);
      ghost var s := e.State();
      var image := HvaToGpa(l, pos);
      if image.Some? {
        ghost var v := PageOfVa(image.value);
        AddressPage(image.value);
        UpZero(v);
        SeekLeaf(s, v);
        SlottedStays(s0, s, v);
        AnyMore(s0, Swept(l, start, pos), v);
        var ret, t, i := e.LookupGpa(image.value, 0, false);
        if ret == OK {
          SlotAny(s, t, i);
          pos := pos + if Big(Rd(e.mem, t, i)) then HUGE_PAGE_SIZE else PAGE_SIZE;
          var _ := e.ClearEpte(t, i);
          sync := true;
          ZeroErases(s, e.State(), t, v);
        } else {
          pos := pos + PAGE_SIZE;
          NothingErased(s, v);
        }
        ErasedMore(s0, s, e.State(), Swept(l, start, pos - PAGE_SIZE), iset{v});
      } else {
        pos := pos + PAGE_SIZE;
        assert Swept(l, start, pos - PAGE_SIZE) + iset{} == Swept(l, start, pos - PAGE_SIZE);
      }
    }
    SweptEnd(l, start, pos, end);
    forall x | IsPage(x) && Translate(Ept, e.mem, e.root, x) != Translate(Ept, s0.mem, e.root, x)
      ensures sync
    {
      GoneSlot(s0, e.State(), Swept(l, start, end), x);
    }
  }

  lemma SlottedStays(s: Shadow, s1: Shadow, v: nat)
    requires Good(s, {}) && Good(s1, {}) && s1.own == s.own && s1.root == s.root && IsPage(v)
    ensures Slotted(s, v) <==> Stop(Ept, s1.mem, s1.root, TOP, 0, v).level == 0
  {
    hide Good, Stop;
    SamePlace(s, s1, v);
  }

  lemma SweptNone(l: Layout, start: nat)
    requires Valid(l)
    ensures Swept(l, start, start) == iset{}
  {
  }

  /** What `flush & accessed` comes to in ept_check_page_accessed, where `accessed`
      is the A bit in its place, 0x100, and `flush` is 0 or 1. */
  function FlushMask(flush: bool, accessed: bv32): bv32 {
    (if flush then 1 else 0) & accessed
  }

  /** It is zero in every case: no A bit is ever cleared. */
  lemma FlushMaskZero(flush: bool, accessed: bv32)
    requires accessed == 0 || accessed == 0x100
    ensures FlushMask(flush, accessed) == 0
  {
  }

  function Flushed(mem: Mem, t: nat, i: nat, mask: bv32): Mem
    requires i < ENTRIES
  {
    if mask != 0 then Wr(mem, t, i, Word(Rd(mem, t, i).frame, Rd(mem, t, i).bits - {EPTE_A})) else mem
  }

  /** ept_check_page_accessed: whether the page's 4 KB entry has its A bit set.
      Asking to clear the bit clears nothing. */
  method CheckPageAccessed(e: EptMap, l: Layout, addr: nat, flush: bool) returns (accessed: bv32)
    requires Good(e.State(), {}) && Reachable(l)
    modifies e
    ensures e.State() == old(e.State())
    ensures match HvaToGpa(l, addr)
            case None => accessed == 0
            case Some(gpa) =>
              var leaf := Leaf(Ept, e.mem, e.root, PageOfVa(gpa));
              accessed == if leaf.0 == 0 && EPTE_A in leaf.1.bits then 0x100 else 0
  {
    hide Good, Leaf, Seek, PageOfVa, HvaToGpa;
    var image := HvaToGpa(l, addr);
    if image.None? {
      return 0;
    }
    AddressPage(image.value);
    UpZero(PageOfVa(image.value));
    SeekLeaf(e.State(), PageOfVa(image.value));
    var ret, t, i := e.LookupGpa(image.value, 0, false);
    if ret != OK {
      return 0;
    }
    accessed := if EPTE_A in Rd(e.mem, t, i).bits then 0x100 else 0;
    FlushMaskZero(flush, accessed);
    e.mem := Flushed(e.mem, t, i, FlushMask(flush, accessed));
  }

  /** ept_check_page_mapped: whether the walk for the page gets as far as a level-0
      table, not whether the page is mapped in it. */
  method CheckPageMapped(e: EptMap, l: Layout, addr: nat) returns (mapped: bool)
    requires Good(e.State(), {}) && Reachable(l)
    modifies e
    ensures e.State() == old(e.State())
    ensures match HvaToGpa(l, addr)
            case None => !mapped
            case Some(gpa) => mapped <==> Stop(Ept, e.mem, e.root, TOP, 0, PageOfVa(gpa)).level == 0
  {
    hide Good, Leaf, Seek, PageOfVa, HvaToGpa, Stop;
    var image := HvaToGpa(l, addr);
    if image.None? {
      return false;
    }
    AddressPage(image.value);
    UpZero(PageOfVa(image.value));
    SeekLeaf(e.State(), PageOfVa(image.value));
    var ret, t, i := e.LookupGpa(image.value, 0, false);
    mapped := ret == OK;
  }

  /** Whether the page at a host address has a 4 KB entry with its accessed bit, 8, set. */
  predicate HasAccessed(s: Shadow, l: Layout, addr: nat)
    requires Valid(l)
  {
    match HvaToGpa(l, addr)
    case None => false
    case Some(gpa) => var e := Leaf(Ept, s.mem, s.root, PageOfVa(gpa)); e.0 == 0 && 8 in e.1.bits
  }

  /** clear_flush_young: with accessed bits it reports the page's, which stays; without, it
      takes the page's entry away, and reports whether there was one. */
  method ClearFlushYoung(e: EptMap, l: Layout, addr: nat) returns (young: bool)
    requires Good(e.State(), {}) && Reachable(l)
    modifies e
    ensures e.ad ==> e.State() == old(e.State()) && young == HasAccessed(old(e.State()), l, addr)
    ensures !e.ad ==>
              match HvaToGpa(l, addr)
              case None => !young && e.State() == old(e.State())
              case Some(gpa) =>
                && Erased(old(e.State()), e.State(), iset{PageOfVa(gpa)})
                && young == (Leaf(Ept, old(e.mem), e.root, PageOfVa(gpa)).0 == 0
                             && Leaf(Ept, old(e.mem), e.root, PageOfVa(gpa)).1 != ZERO)
  {
    hide Good, Leaf, PageOfVa, HvaToGpa, Erased;
    if e.ad {
      var accessed := CheckPageAccessed(e, l, addr, true);
      young := accessed != 0;
    } else {
      young := InvalidatePage(e, l, addr);
    }
  }

  /** test_young, which changes nothing: the accessed bit, or without accessed bits
      whether the walk for the page gets to a level-0 table. */
  method TestYoung(e: EptMap, l: Layout, addr: nat) returns (young: bool)
    requires Good(e.State(), {}) && Reachable(l)
    modifies e
    ensures e.State() == old(e.State())
    ensures e.ad ==> young == HasAccessed(e.State(), l, addr)
    ensures !e.ad ==> young == (HvaToGpa(l, addr).Some? && Slotted(e.State(), PageOfVa(HvaToGpa(l, addr).value)))
  {
    hide Good, Leaf, PageOfVa, HvaToGpa, Stop;
    if HvaToGpa(l, addr).Some? {
      AddressPage(HvaToGpa(l, addr).value);
    }
    if e.ad {
      var accessed := CheckPageAccessed(e, l, addr, false);
      young := accessed != 0;
    } else {
      young := CheckPageMapped(e, l, addr);
    }
  }
}
