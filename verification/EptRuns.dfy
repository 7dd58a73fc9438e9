/** The EPT against the process page table it shadows, over every run. */
module EptRuns {
  import opened Radix
  import opened Windows
  import opened Callbacks
  import opened GuestVm
  import opened WalkTheorems
  import opened Addresses
  import opened EptTables
  import opened EptWalk
  import opened EptDevice
  import opened EptNotifiers
  import opened Accesses

  /** A 4 KB page of the process. PFN mappings have no page behind them. */
  datatype HostPage = HostPage(frame: nat, writable: bool, pfnMap: bool)

  /** The process page table, by page number. */
  type Host = map<nat, HostPage>

  /** The host page behind guest-physical page `v`. */
  function Behind(l: Layout, v: nat): Option<nat>
    requires Valid(l)
  {
    match GpaToHva(l, v * PAGE_SIZE)
    case None => None
    case Some(hva) => Some(hva / PAGE_SIZE)
  }

  /** Page `v` is the image of the page behind it, so notices about that page reach
      `v`. Where windows overlap, some pages are not. */
  predicate IsImage(l: Layout, v: nat)
    requires Valid(l) && Behind(l, v).Some?
  {
    HvaToGpa(l, Behind(l, v).value * PAGE_SIZE) == Some(v * PAGE_SIZE)
  }

  /** An entry for a page of the process: its frame, and writable only if that is
      writable. (A PFN mapping is the exception: nobody checks whether it may be
      written.) */
  predicate Shows(host: Host, page: nat, w: Word) {
    page in host && host[page].frame == w.frame
    && (EPTE_WRITE in w.bits ==> host[page].writable || host[page].pfnMap)
  }

  /** What the EPT translates page `v` to, if anything, is what the process page
      table gives. */
  ghost predicate AgreesAt(s: Shadow, l: Layout, host: Host, v: nat)
    requires Valid(l)
  {
    var t := Translate(Ept, s.mem, s.root, v);
    t.Some? ==> t.value.0 == 0 && Behind(l, v).Some? && Shows(host, Behind(l, v).value, t.value.1)
  }

  /** Whatever the EPT translates, it translates by a 4 KB entry for a page that the
      windows cover; and where the page is an image, as the process page table does. */
  ghost predicate Agrees(s: Shadow, l: Layout, host: Host)
    requires Valid(l)
  {
    forall v {:trigger Translate(Ept, s.mem, s.root, v)} :: IsPage(v) && Translate(Ept, s.mem, s.root, v).Some? ==>
      var (level, w) := Translate(Ept, s.mem, s.root, v).value;
      level == 0 && Behind(l, v).Some? && (IsImage(l, v) ==> Shows(host, Behind(l, v).value, w))
  }

  /** The page behind an image has one image only. */
  lemma ImagePage(l: Layout, v: nat)
    requires Reachable(l) && Behind(l, v).Some? && IsImage(l, v)
    ensures PageOfVa(v * PAGE_SIZE) == v
  {
    hide HvaToGpa, GpaToHva;
    GpaBounded(l, v * PAGE_SIZE);
  }

  /** With the windows in order, every page is an image. */
  lemma OrderedImage(l: Layout, v: nat)
    requires Reachable(l) && Ordered(l) && Behind(l, v).Some?
    ensures IsImage(l, v)
  {
    hide HvaToGpa, GpaToHva;
    GpaBounded(l, v * PAGE_SIZE);
    AllInvertIff(l);
    assert HvaToGpa(l, GpaToHva(l, v * PAGE_SIZE).value) == Some(v * PAGE_SIZE);
    HostAligned(l, v);
  }

  /** Out of order, the last page of the identity window or of the map window is none:
      its host page is tested for a window above it first. */
  function OverlapPage(l: Layout): (v: nat)
    requires Reachable(l) && !Ordered(l)
    ensures IsPage(v) && Behind(l, v).Some? && !IsImage(l, v)
  {
    Bounds(l);
    if l.stackStart < l.mapStart + GPA_MAP_SIZE then
      PageGap(l.stackStart, l.mapStart + GPA_MAP_SIZE);
      PageGap(0, l.physEnd - GPA_STACK_SIZE);
      PageRange((l.physEnd - GPA_STACK_SIZE - PAGE_SIZE) / PAGE_SIZE);
      (l.physEnd - GPA_STACK_SIZE - PAGE_SIZE) / PAGE_SIZE
    else
      PageGap(l.mapStart, LowEnd(l));
      PageRange((LowEnd(l) - PAGE_SIZE) / PAGE_SIZE);
      (LowEnd(l) - PAGE_SIZE) / PAGE_SIZE
  }

  lemma PageGap(x: nat, y: nat)
    requires x % PAGE_SIZE == 0 && y % PAGE_SIZE == 0 && x < y
    ensures x <= y - PAGE_SIZE && (y - PAGE_SIZE) / PAGE_SIZE * PAGE_SIZE == y - PAGE_SIZE
  {
  }

  lemma GpaBounded(l: Layout, gpa: nat)
    requires Valid(l)
    ensures GpaToHva(l, gpa).Some? <==> gpa < l.physEnd
  {
  }

  /** A change of the host's table that the EPT does not hear of is harmless if and
      only if the EPT does not translate the page. */
  lemma SilentChange(s: Shadow, l: Layout, host: Host, v: nat, other: HostPage)
    requires Reachable(l) && Agrees(s, l, host) && IsPage(v) && Behind(l, v).Some? && IsImage(l, v)
    requires Behind(l, v).value in host && other.frame != host[Behind(l, v).value].frame
    ensures Agrees(s, l, host[Behind(l, v).value := other]) <==> Translate(Ept, s.mem, s.root, v).None?
  {
    hide Translate, HvaToGpa;
    var p := Behind(l, v).value;
    if Translate(Ept, s.mem, s.root, v).None? {
      forall x | IsPage(x) && Translate(Ept, s.mem, s.root, x).Some?
        ensures Behind(l, x).Some? && (IsImage(l, x) ==> Behind(l, x).value != p)
      {
      }
    }
  }

  /** A notified change keeps the agreement. */
  lemma EraseAgrees(s: Shadow, s1: Shadow, l: Layout, host: Host, host1: Host, pages: iset<nat>)
    requires Reachable(l) && Agrees(s, l, host) && Erased(s, s1, pages)
    requires forall v :: v !in pages && Behind(l, v).Some? && IsImage(l, v) ==>
               (Behind(l, v).value in host <==> Behind(l, v).value in host1)
               && (Behind(l, v).value in host ==> host1[Behind(l, v).value] == host[Behind(l, v).value])
    ensures Agrees(s1, l, host1)
  {
    hide Leaf, Behind, Translate, Good;
    forall v | IsPage(v) && Translate(Ept, s1.mem, s1.root, v).Some?
      ensures v !in pages && Translate(Ept, s1.mem, s1.root, v) == Translate(Ept, s.mem, s.root, v)
    {
      assert Translate(Ept, s.mem, s.root, v).Some? ==> Leaf(Ept, s.mem, s.root, v).0 == 0;
    }
  }

  /** A fault that stores the entry of the page behind keeps the agreement. */
  lemma FaultAgrees(s: Shadow, s1: Shadow, l: Layout, host: Host, v: nat, w: Word)
    requires Valid(l) && Agrees(s, l, host) && Remapped(s, s1, 0, v, w) && IsPage(v)
    requires Behind(l, v).Some? && Shows(host, Behind(l, v).value, w)
    ensures Agrees(s1, l, host)
  {
    hide Leaf, Behind, Good, Translate;
    forall x | IsPage(x) && Translate(Ept, s1.mem, s1.root, x).Some?
      ensures x != v ==> Translate(Ept, s1.mem, s1.root, x) == Translate(Ept, s.mem, s.root, x)
      ensures x == v ==> Translate(Ept, s1.mem, s1.root, x).value == (0, w)
    {
      UpZero(x);
    }
  }

  lemma UnmovedAgrees(s: Shadow, s1: Shadow, l: Layout, host: Host)
    requires Valid(l) && Agrees(s, l, host) && Unmoved(s, s1)
    ensures Agrees(s1, l, host)
  {
    hide Leaf, Behind, Good, Translate;
    forall x | IsPage(x)
      ensures Translate(Ept, s1.mem, s1.root, x) == Translate(Ept, s.mem, s.root, x)
    {
    }
  }

  /** What the kernel and the hardware do to an EPT in the course of a run. `Use` is
      an access of the guest, which marks the entries on its way. */
  datatype Event =
    | Fault(gpa: nat, write: bool)
    | ChangePage(page: nat, to: HostPage)
    | DropPage(page: nat)
    | ChangeRange(start: nat, end: nat, changes: Host)
    | Young(addr: nat)
    | Use(gpa: nat, write: bool)

  predicate Legal(ev: Event) {
    match ev
    case ChangeRange(start, end, changes) =>
      start % PAGE_SIZE == 0 && forall p :: p in changes ==> start <= p * PAGE_SIZE < end
    case _ => true
  }

  /** get_user_pages_fast and follow_pfn on a 4 KB page of the process. */
  function GupOf(host: Host, page: nat, write: bool): Gup {
    if page in host && !host[page].pfnMap && (write ==> host[page].writable)
    then Page(host[page].frame, host[page].frame, 12) else Refused
  }

  function PfnOf(host: Host, page: nat): Pfn {
    if page in host && host[page].pfnMap then Frame(host[page].frame) else PfnError(EFAULT)
  }

  /** The access that faulted goes through next time, and where accessed and dirty
      bits are in use they are set already. A page can be executed, a PFN mapping
      cannot. */
  predicate Permits(w: Word, write: bool, ad: bool) {
    && EPTE_READ in w.bits && (write ==> EPTE_WRITE in w.bits) && (EPTE_EXEC in w.bits <==> EPTE_PFNMAP !in w.bits)
    && (ad ==> EPTE_A in w.bits && (write ==> EPTE_D in w.bits))
  }

  /** The 4 KB entry for a page of the host, bit by bit. */
  predicate PageEntry(page: HostPage, w: Word, write: bool, ad: bool) {
    && w.frame == page.frame
    && if page.pfnMap then PfnBits(w.bits, write, ad) else PageBits(w.bits, write, ad, false)
  }

  /** The host lets the access to this page through. */
  predicate Allowed(host: Host, page: nat, write: bool) {
    page in host && (host[page].pfnMap || (write ==> host[page].writable))
  }

  /** What vmx_do_ept_fault returns: success exactly if the address has a host page,
      the host allows the access, and the kernel has the pages for the tables that
      are missing. */
  function FaultReturn(s: Shadow, l: Layout, host: Host, gpa: nat, write: bool): int
    requires Valid(l)
  {
    match GpaToHva(l, gpa)
    case None => EINVAL
    case Some(hva) =>
      if !Allowed(host, hva / PAGE_SIZE, write) then EFAULT
      else if Stop(Ept, s.mem, s.root, TOP, 0, PageOfVa(gpa)).level > |s.free| then ENOMEM
      else OK
  }

  /** Where the EPT agrees with a process of 4 KB pages, no big entry is in the way. */
  lemma AgreesSeek(s: Shadow, l: Layout, host: Host, v: nat)
    requires Valid(l) && Agrees(s, l, host) && IsPage(v)
    ensures SeekCode(s, 0, v) == if Stop(Ept, s.mem, s.root, TOP, 0, v).level > |s.free| then ENOMEM else OK
  {
    hide Behind, Stop, Leaf;
    assert Translate(Ept, s.mem, s.root, v).Some? ==> Translate(Ept, s.mem, s.root, v).value.0 == 0;
  }

  /** vmx_do_ept_fault. */
  method DoFault(e: EptMap, l: Layout, host: Host, gpa: nat, write: bool) returns (r: int)
    requires Good(e.State(), {}) && Reachable(l) && Agrees(e.State(), l, host)
    modifies e
    ensures Good(e.State(), {}) && Agrees(e.State(), l, host)
    ensures e.pins == old(e.pins) && Pages(e.State()) == Pages(old(e.State()))
    ensures r == FaultReturn(old(e.State()), l, host, gpa, write)
    ensures r != OK ==> Unmoved(old(e.State()), e.State())
    ensures r == 0 || r == -22 || r == -14 || r == -12
    ensures r == -22 <==> GpaToHva(l, gpa).None?
    ensures r == -14 <==> GpaToHva(l, gpa).Some? && !Allowed(host, GpaToHva(l, gpa).value / PAGE_SIZE, write)
    ensures var hva := GpaToHva(l, gpa);
            r == OK ==> hva.Some? && hva.value / PAGE_SIZE in host
                        && Translate(Ept, e.mem, e.root, PageOfVa(gpa))
                             == Some((0, FaultWord(host, hva.value / PAGE_SIZE, write, e.ad)))
                        && (write && !host[hva.value / PAGE_SIZE].pfnMap ==> host[hva.value / PAGE_SIZE].writable)
                        && Permits(FaultWord(host, hva.value / PAGE_SIZE, write, e.ad), write, e.ad)
                        && PageEntry(host[hva.value / PAGE_SIZE],
                                     FaultWord(host, hva.value / PAGE_SIZE, write, e.ad), write, e.ad)
  {
    hide Good, Leaf, Agrees, Unmoved, Remapped, PageOfVa, Behind, HvaToGpa, GpaToHva, SeekCode, Stop, Pages, Permits,
      PageEntry, BroughtIn;
    ghost var s := e.State();
    var hva := GpaToHva(l, gpa);
    if hva.None? {
      UnmovedRefl(s);
      UnmovedAgrees(s, s, l, host);
      return EINVAL;
    }
    var page := hva.value / PAGE_SIZE;
    AddressPage(gpa);
    AgreesSeek(s, l, host, PageOfVa(gpa));
    UpZero(PageOfVa(gpa));
    r := e.SetEpte(gpa, write, GupOf(host, page, write), PfnOf(host, page));
    if r != OK {
      UnmovedAgrees(s, e.State(), l, host);
      UnmovedKeeps(s, e.State());
    } else {
      ghost var v := PageOfVa(gpa);
      ghost var w := FaultWord(host, page, write, e.ad);
      BehindFault(l, gpa);
      FaultPermits(host, page, write, e.ad);
      FaultAgrees(s, e.State(), l, host, v, w);
      RemappedKeeps(s, e.State(), v, w);
    }
  }

  function FaultWord(host: Host, page: nat, write: bool, ad: bool): Word
    requires page in host
  {
    if GupOf(host, page, write).Page? then Word(host[page].frame, SetFlags(write, ad, 0))
    else Word(host[page].frame, PfnFlags(write, ad))
  }

  lemma FaultPermits(host: Host, page: nat, write: bool, ad: bool)
    requires Allowed(host, page, write)
    ensures var w := FaultWord(host, page, write, ad);
            && Permits(w, write, ad) && w.frame == host[page].frame && PageEntry(host[page], w, write, ad)
            && (EPTE_WRITE in w.bits <==> write) && EPTE_READ in w.bits
  {
  }

  lemma BehindFault(l: Layout, gpa: nat)
    requires Reachable(l) && GpaToHva(l, gpa).Some?
    ensures Behind(l, PageOfVa(gpa)) == Some(GpaToHva(l, gpa).value / PAGE_SIZE)
  {
    hide LgAlign;
    var v := PageOfVa(gpa);
    Bounds(l);
    assert v == gpa / PAGE_SIZE;
    SameSide(gpa, LowEnd(l));
    SameSide(gpa, l.physEnd - GPA_STACK_SIZE);
    SameSide(gpa, l.physEnd);
    if gpa < LowEnd(l) {
      SamePage(gpa, 0, 0);
    } else if gpa < l.physEnd - GPA_STACK_SIZE {
      SamePage(gpa, LowEnd(l), l.mapStart);
    } else {
      SamePage(gpa, l.physEnd - GPA_STACK_SIZE, l.stackStart);
    }
  }

  lemma Bounds(l: Layout)
    requires Valid(l)
    ensures LowEnd(l) % PAGE_SIZE == 0 && (l.physEnd - GPA_STACK_SIZE) % PAGE_SIZE == 0 && l.physEnd % PAGE_SIZE == 0
    ensures l.mapStart % PAGE_SIZE == 0 && l.stackStart % PAGE_SIZE == 0
  {
    LgPage(l.mapStart, 0);
    LgPage(l.stackStart, 0);
    LgPage(l.physEnd, 0);
    assert GPA_STACK_SIZE == 0x1_0000 * PAGE_SIZE && GPA_MAP_SIZE == 0x7_0000 * PAGE_SIZE;
    assert l.physEnd - GPA_STACK_SIZE == (l.physEnd / PAGE_SIZE - 0x1_0000) * PAGE_SIZE;
    assert LowEnd(l) == (l.physEnd / PAGE_SIZE - 0x8_0000) * PAGE_SIZE;
  }

  lemma SameSide(gpa: nat, bound: nat)
    requires bound % PAGE_SIZE == 0
    ensures gpa < bound <==> gpa / PAGE_SIZE * PAGE_SIZE < bound
  {
    assert bound == bound / PAGE_SIZE * PAGE_SIZE;
  }

  lemma SamePage(gpa: nat, from: nat, to: nat)
    requires from % PAGE_SIZE == 0 && to % PAGE_SIZE == 0 && from <= gpa
    ensures from <= gpa / PAGE_SIZE * PAGE_SIZE
    ensures (gpa - from + to) / PAGE_SIZE == (gpa / PAGE_SIZE * PAGE_SIZE - from + to) / PAGE_SIZE
  {
    var q := gpa / PAGE_SIZE - from / PAGE_SIZE + to / PAGE_SIZE;
    assert from == from / PAGE_SIZE * PAGE_SIZE && to == to / PAGE_SIZE * PAGE_SIZE;
    assert gpa / PAGE_SIZE * PAGE_SIZE - from + to == q * PAGE_SIZE;
    assert gpa - from + to == q * PAGE_SIZE + gpa % PAGE_SIZE;
  }

  lemma RemappedKeeps(s: Shadow, s1: Shadow, v: nat, w: Word)
    requires Remapped(s, s1, 0, v, w) && EPTE_READ in w.bits && IsPage(v)
    ensures Good(s1, {}) && s1.pins == s.pins && Pages(s1) == Pages(s)
            && Translate(Ept, s1.mem, s1.root, v) == Some((0, w))
  {
    hide Good, Leaf;
    UpZero(v);
  }

  /** The host's table after an event. */
  function HostAfter(host: Host, ev: Event): Host {
    match ev
    case ChangePage(page, to) => host[page := to]
    case DropPage(page) => host - {page}
    case ChangeRange(_, _, changes) => host + changes
    case _ => host
  }

  /** One event: a fault, or a change of the host's table together with the
      callback that announces it, as one step. */
  method React(e: EptMap, l: Layout, host: Host, ev: Event) returns (host1: Host)
    requires Good(e.State(), {}) && Reachable(l) && Agrees(e.State(), l, host) && Legal(ev)
    modifies e
    ensures host1 == HostAfter(host, ev) && Good(e.State(), {}) && Agrees(e.State(), l, host1)
  {
    hide Good, Leaf, Agrees, Erased, PageOfVa, Behind, HvaToGpa, GpaToHva, Swept;
    ghost var s := e.State();
    host1 := HostAfter(host, ev);
    match ev {
      case Fault(gpa, write) =>
        var _ := DoFault(e, l, host, gpa, write);
      case ChangePage(page, _) =>
        var _ := InvalidatePage(e, l, page * PAGE_SIZE);
        PageGone(s, e.State(), l, host, host1, page);
      case DropPage(page) =>
        var _ := InvalidatePage(e, l, page * PAGE_SIZE);
        PageGone(s, e.State(), l, host, host1, page);
      case ChangeRange(start, end, changes) =>
        var _ := InvalidateRange(e, l, start, end);
        RangeGone(s, e.State(), l, host, host1, start, end);
      case Young(addr) =>
        var _ := ClearFlushYoung(e, l, addr);
        if !e.ad {
          YoungGone(s, e.State(), l, host, addr);
        }
      case Use(gpa, write) =>
        if e.ad {
          AddressPage(gpa);
          UseAgrees(s, l, host, PageOfVa(gpa), write);
          e.mem := AfterAccess(Ept, e.mem, e.root, TOP, PageOfVa(gpa), write);
        }
    }
  }

  /** Marks are no matter for the agreement. */
  lemma UseAgrees(s: Shadow, l: Layout, host: Host, v: nat, write: bool)
    requires Good(s, {}) && Valid(l) && Agrees(s, l, host) && IsPage(v)
    ensures var s1 := s.(mem := AfterAccess(Ept, s.mem, s.root, TOP, v, write)); Good(s1, {}) && Agrees(s1, l, host)
  {
    hide Good, Behind, Leaf, Translate, Tree;
    GoodTree(s);
    RootAt(s.own, s.root, 0, v);
    AccessGood(s, s.root, TOP, v, write);
    var s1 := s.(mem := AfterAccess(Ept, s.mem, s.root, TOP, v, write));
    forall x | IsPage(x) && Translate(Ept, s1.mem, s1.root, x).Some?
      ensures Translate(Ept, s.mem, s.root, x).Some?
      ensures var (e, e1) := (Translate(Ept, s.mem, s.root, x).value, Translate(Ept, s1.mem, s1.root, x).value);
              e1.0 == e.0 && e1.1.frame == e.1.frame && (EPTE_WRITE in e1.1.bits <==> EPTE_WRITE in e.1.bits)
    {
      AccessAlike(Ept, s.mem, s.own, s.root, s.root, TOP, v, write, s.root, x);
    }
  }

  lemma ErasedGood(s: Shadow, s1: Shadow, pages: iset<nat>)
    requires Erased(s, s1, pages)
    ensures Good(s1, {})
  {
  }

  lemma PageGone(s: Shadow, s1: Shadow, l: Layout, host: Host, host1: Host, page: nat)
    requires Good(s, {}) && Reachable(l) && Agrees(s, l, host)
    requires forall p :: p != page ==> (p in host <==> p in host1) && (p in host ==> host1[p] == host[p])
    requires match HvaToGpa(l, page * PAGE_SIZE)
             case None => s1 == s
             case Some(gpa) => Erased(s, s1, iset{PageOfVa(gpa)})
    ensures Good(s1, {}) && Agrees(s1, l, host1)
  {
    hide Good, Leaf, Behind, PageOfVa, HvaToGpa;
    var pages := match HvaToGpa(l, page * PAGE_SIZE) case None => iset{} case Some(gpa) => iset{PageOfVa(gpa)};
    ErasedNone(s);
    ErasedGood(s, s1, pages);
    forall v | v !in pages && Behind(l, v).Some? && IsImage(l, v)
      ensures Behind(l, v).value != page
    {
      ImagePage(l, v);
    }
    EraseAgrees(s, s1, l, host, host1, pages);
  }

  lemma RangeGone(s: Shadow, s1: Shadow, l: Layout, host: Host, host1: Host, start: nat, end: nat)
    requires Reachable(l) && Agrees(s, l, host) && Erased(s, s1, Swept(l, start, end))
    requires forall p :: !(start <= p * PAGE_SIZE < end) ==>
               (p in host <==> p in host1) && (p in host ==> host1[p] == host[p])
    ensures Good(s1, {}) && Agrees(s1, l, host1)
  {
    hide Good, Leaf, HvaToGpa, GpaToHva;
    ErasedGood(s, s1, Swept(l, start, end));
    forall v | v !in Swept(l, start, end) && Behind(l, v).Some? && IsImage(l, v)
      ensures !(start <= Behind(l, v).value * PAGE_SIZE < end)
    {
      GpaInverts(l, Behind(l, v).value * PAGE_SIZE);
    }
    EraseAgrees(s, s1, l, host, host1, Swept(l, start, end));
  }

  lemma YoungGone(s: Shadow, s1: Shadow, l: Layout, host: Host, addr: nat)
    requires Good(s, {}) && Reachable(l) && Agrees(s, l, host)
    requires match HvaToGpa(l, addr)
             case None => s1 == s
             case Some(gpa) => Erased(s, s1, iset{PageOfVa(gpa)})
    ensures Good(s1, {}) && Agrees(s1, l, host)
  {
    hide Good, Leaf, Behind, PageOfVa, HvaToGpa;
    if HvaToGpa(l, addr).Some? {
      var pages := iset{PageOfVa(HvaToGpa(l, addr).value)};
      ErasedGood(s, s1, pages);
      EraseAgrees(s, s1, l, host, host, pages);
    }
  }

  /** Shadow agreement: after every event of every run from an empty EPT, whatever
      the EPT maps it maps as the process page table does, wherever hva_to_gpa gives
      the page; and so everywhere, if the windows are in order. */
  method RunShadow(pages: seq<nat>, ad: bool, l: Layout, host0: Host, events: seq<Event>)
    returns (e: EptMap, host: Host)
    requires pages != [] && forall i, j :: 0 <= i < j < |pages| ==> pages[i] != pages[j]
    requires Reachable(l) && forall k :: 0 <= k < |events| ==> Legal(events[k])
    ensures Good(e.State(), {}) && Agrees(e.State(), l, host) && host == HostTrace(host0, events)
    ensures Ordered(l) ==> forall v :: IsPage(v) ==> AgreesAt(e.State(), l, host, v)
  {
    hide Good, HostAfter, Translate, IsImage, AgreesAt;
    e := new EptMap(pages, ad);
    host := host0;
    assert events[..0] == [];
    for k := 0 to |events|
      invariant fresh(e) && Good(e.State(), {}) && Agrees(e.State(), l, host) && host == HostTrace(host0, events[..k])
    {
      host := React(e, l, host, events[k]);
      assert events[..k + 1][..k] == events[..k];
    }
    assert events[..|events|] == events;
    if Ordered(l) {
      OrderedAgrees(e.State(), l, host);
    }
  }

  lemma OrderedAgrees(s: Shadow, l: Layout, host: Host)
    requires Reachable(l) && Ordered(l) && Agrees(s, l, host)
    ensures forall v :: IsPage(v) ==> AgreesAt(s, l, host, v)
  {
    hide Translate, IsImage, Behind;
    forall v | IsPage(v)
      ensures AgreesAt(s, l, host, v)
    {
      if Translate(Ept, s.mem, s.root, v).Some? {
        OrderedImage(l, v);
      }
    }
  }

  /** Out of order, not everywhere: the page that is no image can be faulted in from a
      new EPT with four pages, and then the announced change of the page behind it does
      not reach it. */
  method OverlapStale(pages: seq<nat>, ad: bool, l: Layout, host: Host, write: bool, other: HostPage)
    returns (e: EptMap)
    requires |pages| > TOP && forall i, j :: 0 <= i < j < |pages| ==> pages[i] != pages[j]
    requires Reachable(l) && !Ordered(l) && Allowed(host, Behind(l, OverlapPage(l)).value, write)
    requires other.frame != host[Behind(l, OverlapPage(l)).value].frame
    ensures var p := Behind(l, OverlapPage(l)).value; !AgreesAt(e.State(), l, host[p := other], OverlapPage(l))
  {
    hide Good, Leaf, GpaToHva, HvaToGpa, Pages, PageOfVa, Behind, Permits, FaultWord, Unmoved, OverlapPage, Translate,
      Erased, Agrees;
    e := new EptMap(pages, ad);
    NothingAgrees(e.State(), l, host);
    var v := OverlapPage(l);
    var p := Behind(l, v).value;
    PageStart(l, v);
    var r := DoFault(e, l, host, v * PAGE_SIZE, write);
    ghost var s := e.State();
    FaultPermits(host, p, write, e.ad);
    var _ := InvalidatePage(e, l, p * PAGE_SIZE);
    MissedPage(s, e.State(), l, v);
  }

  lemma PageStart(l: Layout, v: nat)
    requires Reachable(l) && Behind(l, v).Some?
    ensures GpaToHva(l, v * PAGE_SIZE).Some? && Behind(l, v).value == GpaToHva(l, v * PAGE_SIZE).value / PAGE_SIZE
    ensures PageOfVa(v * PAGE_SIZE) == v && IsPage(v)
  {
    hide GpaToHva;
    GpaBounded(l, v * PAGE_SIZE);
    PageRange(v);
  }

  /** Invalidating the page behind a page that is no image leaves that one alone. */
  lemma MissedPage(s: Shadow, s1: Shadow, l: Layout, v: nat)
    requires Reachable(l) && IsPage(v) && Behind(l, v).Some? && !IsImage(l, v)
    requires match HvaToGpa(l, Behind(l, v).value * PAGE_SIZE)
             case None => s1 == s
             case Some(gpa) => Erased(s, s1, iset{PageOfVa(gpa)})
    ensures Translate(Ept, s1.mem, s1.root, v) == Translate(Ept, s.mem, s.root, v)
  {
    hide Leaf, Good, HvaToGpa, GpaToHva, PageOfVa;
    var pos := Behind(l, v).value * PAGE_SIZE;
    AlignedPage(Behind(l, v).value);
    if HvaToGpa(l, pos).Some? {
      EptNotifiers.ImagePage(l, pos);
    }
  }

  function HostTrace(host: Host, events: seq<Event>): Host {
    if events == [] then host else HostAfter(HostTrace(host, events[..|events| - 1]), events[|events| - 1])
  }

  /** A page whose host address is in the range is swept. */
  lemma SweptPage(l: Layout, start: nat, end: nat, gpa: nat)
    requires Reachable(l) && GpaToHva(l, gpa).Some? && start % PAGE_SIZE == 0 && start <= GpaToHva(l, gpa).value < end
    requires Behind(l, PageOfVa(gpa)).Some? && IsImage(l, PageOfVa(gpa))
    ensures PageOfVa(gpa) in Swept(l, start, end)
  {
    hide HvaToGpa, GpaToHva, PageOfVa;
    var v := PageOfVa(gpa);
    BehindFault(l, gpa);
    GpaInverts(l, Behind(l, v).value * PAGE_SIZE);
    assert start == start / PAGE_SIZE * PAGE_SIZE;
  }

  /** Where the entries are gone, nothing is translated. */
  lemma ErasedNowhere(s: Shadow, s1: Shadow, l: Layout, host: Host, pages: iset<nat>, v: nat)
    requires Erased(s, s1, pages) && Valid(l) && Agrees(s, l, host) && v in pages && IsPage(v)
    ensures Translate(Ept, s1.mem, s1.root, v).None?
  {
    hide Good, Leaf, Behind;
    assert Translate(Ept, s.mem, s.root, v).Some? ==> Leaf(Ept, s.mem, s.root, v).0 == 0;
  }

  lemma UnmovedPage(s: Shadow, s1: Shadow, v: nat)
    requires Unmoved(s, s1) && IsPage(v)
    ensures Translate(Ept, s1.mem, s1.root, v) == Translate(Ept, s.mem, s.root, v)
  {
    hide Leaf, Good;
  }

  /** The gap of range invalidation: the host changes the range's pages only after
      range_start has emptied the range, and range_end does nothing. A fault in
      between that succeeds brings the old mapping back, and the EPT keeps it; after one
      that fails the change is harmless. And the fault succeeds as it would have without
      the invalidation, which removes no table. */
  method RangeGap(e: EptMap, l: Layout, host: Host, start: nat, end: nat, gpa: nat, write: bool, other: HostPage)
    returns (r: int)
    requires Good(e.State(), {}) && Reachable(l) && Agrees(e.State(), l, host) && start % PAGE_SIZE == 0
    requires GpaToHva(l, gpa).Some? && start <= GpaToHva(l, gpa).value < end
    requires Behind(l, PageOfVa(gpa)).Some? && IsImage(l, PageOfVa(gpa))
    requires var p := GpaToHva(l, gpa).value / PAGE_SIZE; p in host && other.frame != host[p].frame
    modifies e
    ensures Good(e.State(), {}) && Agrees(e.State(), l, host)
    ensures r == OK <==> !Agrees(e.State(), l, host[GpaToHva(l, gpa).value / PAGE_SIZE := other])
    ensures r == FaultReturn(old(e.State()), l, host, gpa, write)
  {
    hide Good, Leaf, Agrees, Erased, PageOfVa, Behind, GpaToHva, HvaToGpa, Swept, Translate, Stop, Pages, FaultWord,
      Permits, Unmoved, IsImage;
    ghost var s := e.State();
    var _ := InvalidateRange(e, l, start, end);
    ghost var s1 := e.State();
    RangeGone(s, s1, l, host, host, start, end);
    ErasedGood(s, s1, Swept(l, start, end));
    AddressPage(gpa);
    SweptPage(l, start, end, gpa);
    ErasedNowhere(s, s1, l, host, Swept(l, start, end), PageOfVa(gpa));
    SamePlace(s, s1, PageOfVa(gpa));
    r := DoFault(e, l, host, gpa, write);
    if r != OK {
      UnmovedPage(s1, e.State(), PageOfVa(gpa));
    }
    BehindFault(l, gpa);
    SilentChange(e.State(), l, host, PageOfVa(gpa), other);
  }

  /** It does happen: from a new EPT with four pages, the page is faulted in, the range
      is invalidated, the page is faulted in again, and the host changes it. */
  method GapFromStart(pages: seq<nat>, ad: bool, l: Layout, host: Host, gpa: nat, write: bool, other: HostPage)
    returns (e: EptMap)
    requires |pages| > TOP && forall i, j :: 0 <= i < j < |pages| ==> pages[i] != pages[j]
    requires Reachable(l) && GpaToHva(l, gpa).Some? && Allowed(host, GpaToHva(l, gpa).value / PAGE_SIZE, write)
    requires Behind(l, PageOfVa(gpa)).Some? && IsImage(l, PageOfVa(gpa))
    requires other.frame != host[GpaToHva(l, gpa).value / PAGE_SIZE].frame
    ensures Good(e.State(), {}) && !Agrees(e.State(), l, host[GpaToHva(l, gpa).value / PAGE_SIZE := other])
  {
    hide Good, Leaf, GpaToHva, HvaToGpa, Pages, Stop, PageOfVa, Behind, Permits, FaultWord, Unmoved, IsImage;
    e := new EptMap(pages, ad);
    NothingAgrees(e.State(), l, host);
    var p := GpaToHva(l, gpa).value / PAGE_SIZE;
    assert p * PAGE_SIZE <= GpaToHva(l, gpa).value < (p + 1) * PAGE_SIZE;
    AlignedPage(p);
    var r := DoFault(e, l, host, gpa, write);
    TranslatedPlace(e.State(), PageOfVa(gpa));
    r := RangeGap(e, l, host, p * PAGE_SIZE, (p + 1) * PAGE_SIZE, gpa, write, other);
  }

  /** A write fault on a PFN mapping grants the write without asking the host: from a
      new EPT with four pages, on every page mapped so, writable or not. */
  method PfnWriteGranted(pages: seq<nat>, ad: bool, l: Layout, host: Host, gpa: nat) returns (e: EptMap)
    requires |pages| > TOP && forall i, j :: 0 <= i < j < |pages| ==> pages[i] != pages[j]
    requires Reachable(l) && GpaToHva(l, gpa).Some?
    requires var p := GpaToHva(l, gpa).value / PAGE_SIZE; p in host && host[p].pfnMap
    ensures var t := Translate(Ept, e.mem, e.root, PageOfVa(gpa));
            t.Some? && t.value.1.frame == host[GpaToHva(l, gpa).value / PAGE_SIZE].frame && EPTE_WRITE in t.value.1.bits
  {
    hide Good, Leaf, GpaToHva, HvaToGpa, Pages, Stop, PageOfVa, Behind, Permits, FaultWord, Unmoved, Translate;
    e := new EptMap(pages, ad);
    NothingAgrees(e.State(), l, host);
    AddressPage(gpa);
    var r := DoFault(e, l, host, gpa, true);
    FaultPermits(host, GpaToHva(l, gpa).value / PAGE_SIZE, true, e.ad);
  }

  lemma TranslatedPlace(s: Shadow, v: nat)
    ensures var t := Translate(Ept, s.mem, s.root, v);
            t.Some? ==> t.value.0 == Stop(Ept, s.mem, s.root, TOP, 0, v).level
  {
  }

  lemma NothingAgrees(s: Shadow, l: Layout, host: Host)
    requires Valid(l) && forall v :: IsPage(v) ==> Translate(Ept, s.mem, s.root, v).None?
    ensures Agrees(s, l, host)
  {
    hide Translate, Behind;
  }

  lemma AlignedPage(p: nat)
    ensures p * PAGE_SIZE % PAGE_SIZE == 0
  {
  }

  // ----- conservation -----

  /** What can happen to an EPT, with any answers the host may give: pages of any
      size, PFN mappings, refusals. */
  datatype Work =
    | FaultWork(gpa: nat, write: bool, gup: Gup, pfn: Pfn)
    | PageWork(addr: nat)
    | RangeWork(start: nat, end: nat)
    | YoungWork(at: nat)
    | UseWork(to: nat, write: bool)

  predicate Possible(w: Work) {
    match w
    case FaultWork(_, _, _, pfn) => pfn.PfnError? ==> pfn.err != OK
    case RangeWork(start, _) => start % PAGE_SIZE == 0
    case _ => true
  }

  /** The translation `t` of page `x` is what the fault `w` brought, but for accessed and
      dirty marks: for the page of the host that the fault is answered with, at its size;
      readable; writable exactly if the fault was a write; and executable unless it is a
      PFN mapping. */
  predicate StoredBy(w: Work, x: nat, t: (nat, Word)) {
    && w.FaultWork? && Up(x, t.0) == Up(PageOfVa(w.gpa), t.0)
    && 0 in t.1.bits && (1 in t.1.bits <==> w.write) && (2 in t.1.bits <==> w.gup.Page?)
    && match w.gup
       case Page(page, head, shift) =>
         && t.0 == (if shift == 30 then 2 else if shift == 21 then 1 else 0)
         && t.1.frame == if shift == 30 || shift == 21 then head else page
       case Refused => t.0 == 0 && w.pfn.Frame? && t.1.frame == w.pfn.pfn
  }

  /** Two translations that differ in accessed and dirty marks at most. */
  ghost predicate SameButMarks(t: (nat, Word), t1: (nat, Word)) {
    t1.0 == t.0 && t1.1.frame == t.1.frame && forall b :: b != 8 && b != 9 ==> (b in t1.1.bits <==> b in t.1.bits)
  }

  /** What is translated after `w` is translated as before, or as the fault `w` brings. */
  ghost predicate Changed(s: Shadow, s1: Shadow, w: Work) {
    forall x {:trigger Translate(Ept, s1.mem, s1.root, x)} :: IsPage(x) && Translate(Ept, s1.mem, s1.root, x).Some? ==>
      var t1 := Translate(Ept, s1.mem, s1.root, x).value;
      var t := Translate(Ept, s.mem, s.root, x);
      StoredBy(w, x, t1) || (t.Some? && SameButMarks(t.value, t1))
  }

  lemma Unchanged(s: Shadow, w: Work)
    ensures Changed(s, s, w)
  {
    hide Translate;
  }

  lemma ErasedChanges(s: Shadow, s1: Shadow, pages: iset<nat>, w: Work)
    requires Erased(s, s1, pages)
    ensures Good(s1, {}) && s1.pins == s.pins && Pages(s1) == Pages(s) && Changed(s, s1, w)
  {
    hide Good, Leaf, Pages;
  }

  lemma FaultChanges(s: Shadow, s1: Shadow, gpa: nat, write: bool, ad: bool, gup: Gup, pfn: Pfn, w: Word)
    requires BroughtIn(s1, gpa, write, ad, gup, pfn)
    requires Remapped(s, s1, SizeLevel(gup), Up(PageOfVa(gpa), SizeLevel(gup)), w)
    ensures Good(s1, {}) && s1.pins == s.pins && Pages(s1) == Pages(s)
    ensures Changed(s, s1, FaultWork(gpa, write, gup, pfn))
  {
    hide Good, Leaf, Pages, PageOfVa, Up;
    var g := SizeLevel(gup);
    forall x | IsPage(x) && Translate(Ept, s1.mem, s1.root, x).Some?
      ensures var t1 := Translate(Ept, s1.mem, s1.root, x).value;
              StoredBy(FaultWork(gpa, write, gup, pfn), x, t1) || Translate(Ept, s.mem, s.root, x) == Some(t1)
    {
      if Up(x, g) != Up(PageOfVa(gpa), g) {
        assert Leaf(Ept, s1.mem, s.root, x) == Leaf(Ept, s.mem, s.root, x);
      }
    }
  }

  lemma UnmovedChanges(s: Shadow, s1: Shadow, w: Work)
    requires Unmoved(s, s1)
    ensures Good(s1, {}) && s1.pins == s.pins && Pages(s1) == Pages(s) && Changed(s, s1, w)
  {
    hide Good, Leaf, Pages;
  }

  /** The entry of a fault that succeeds. */
  function SetWord(gup: Gup, pfn: Pfn, write: bool, ad: bool): Word {
    match (gup, pfn)
    case (Page(page, head, shift), _) =>
      Word(if LevelOf(shift) > 0 then head else page, SetFlags(write, ad, LevelOf(shift)))
    case (_, Frame(frame)) => Word(frame, PfnFlags(write, ad))
    case _ => ZERO
  }

  lemma UseChanges(s: Shadow, v: nat, write: bool, w: Work)
    requires Good(s, {}) && IsPage(v)
    ensures Changed(s, s.(mem := AfterAccess(Ept, s.mem, s.root, TOP, v, write)), w)
  {
    hide Good, Leaf, Translate, Tree;
    GoodTree(s);
    RootAt(s.own, s.root, 0, v);
    var s1 := s.(mem := AfterAccess(Ept, s.mem, s.root, TOP, v, write));
    forall x | IsPage(x) && Translate(Ept, s1.mem, s1.root, x).Some?
      ensures Translate(Ept, s.mem, s.root, x).Some?
      ensures SameButMarks(Translate(Ept, s.mem, s.root, x).value, Translate(Ept, s1.mem, s1.root, x).value)
    {
      AccessAlike(Ept, s.mem, s.own, s.root, s.root, TOP, v, write, s.root, x);
    }
  }

  method DoWork(e: EptMap, l: Layout, w: Work)
    requires Good(e.State(), {}) && Reachable(l) && Possible(w)
    modifies e
    ensures Good(e.State(), {}) && e.pins == old(e.pins) && Pages(e.State()) == Pages(old(e.State()))
    ensures Changed(old(e.State()), e.State(), w)
  {
    hide Good, Leaf, Pages, PageOfVa, HvaToGpa, Swept, Changed, Erased, Unmoved, Remapped, BroughtIn;
    ghost var s := e.State();
    Unchanged(s, w);
    match w {
      case FaultWork(gpa, write, gup, pfn) =>
        var r := e.SetEpte(gpa, write, gup, pfn);
        if r == OK {
          FaultChanges(s, e.State(), gpa, write, e.ad, gup, pfn, SetWord(gup, pfn, write, e.ad));
        } else {
          UnmovedChanges(s, e.State(), w);
        }
      case PageWork(addr) =>
        var _ := InvalidatePage(e, l, addr);
        if HvaToGpa(l, addr).Some? {
          ErasedChanges(s, e.State(), iset{PageOfVa(HvaToGpa(l, addr).value)}, w);
        }
      case RangeWork(start, end) =>
        var _ := InvalidateRange(e, l, start, end);
        ErasedChanges(s, e.State(), Swept(l, start, end), w);
      case YoungWork(addr) =>
        var _ := ClearFlushYoung(e, l, addr);
        if !e.ad && HvaToGpa(l, addr).Some? {
          ErasedChanges(s, e.State(), iset{PageOfVa(HvaToGpa(l, addr).value)}, w);
        }
      case UseWork(gpa, write) =>
        if e.ad {
          AddressPage(gpa);
          UseGood(e.State(), PageOfVa(gpa), write);
          UseChanges(s, PageOfVa(gpa), write, w);
          e.mem := AfterAccess(Ept, e.mem, e.root, TOP, PageOfVa(gpa), write);
        }
    }
  }

  lemma UseGood(s: Shadow, v: nat, write: bool)
    requires Good(s, {}) && IsPage(v)
    ensures var s1 := s.(mem := AfterAccess(Ept, s.mem, s.root, TOP, v, write)); Good(s1, {}) && Pages(s1) == Pages(s)
  {
    hide Good;
    GoodTree(s);
    RootAt(s.own, s.root, 0, v);
    AccessGood(s, s.root, TOP, v, write);
  }

  /** Over every run, with pages of any size, PFN mappings and refusals: whatever the EPT
      translates was brought by a fault of the run, for the page that the host gave it;
      and it may be written exactly if that fault was a write. */
  method RunStored(pages: seq<nat>, ad: bool, l: Layout, work: seq<Work>) returns (e: EptMap)
    requires pages != [] && forall i, j :: 0 <= i < j < |pages| ==> pages[i] != pages[j]
    requires Reachable(l) && forall k :: 0 <= k < |work| ==> Possible(work[k])
    ensures Good(e.State(), {})
    ensures forall x :: IsPage(x) && Translate(Ept, e.mem, e.root, x).Some? ==>
              exists k :: 0 <= k < |work| && StoredBy(work[k], x, Translate(Ept, e.mem, e.root, x).value)
  {
    hide Good, Pages, Changed, StoredBy, Translate;
    e := new EptMap(pages, ad);
    for k := 0 to |work|
      invariant fresh(e) && Good(e.State(), {}) && Stored(e.State(), work[..k])
    {
      ghost var s := e.State();
      DoWork(e, l, work[k]);
      StoredMore(s, e.State(), work[..k], work[k]);
      assert work[..k] + [work[k]] == work[..k + 1];
    }
    assert work[..|work|] == work;
  }

  ghost predicate Stored(s: Shadow, work: seq<Work>) {
    forall x {:trigger Translate(Ept, s.mem, s.root, x)} :: IsPage(x) && Translate(Ept, s.mem, s.root, x).Some? ==>
      exists k :: 0 <= k < |work| && StoredBy(work[k], x, Translate(Ept, s.mem, s.root, x).value)
  }

  lemma StoredMore(s: Shadow, s1: Shadow, work: seq<Work>, w: Work)
    requires Stored(s, work) && Changed(s, s1, w)
    ensures Stored(s1, work + [w])
  {
    hide Translate;
    forall x | IsPage(x) && Translate(Ept, s1.mem, s1.root, x).Some?
      ensures exists k :: 0 <= k < |work + [w]|
                && StoredBy((work + [w])[k], x, Translate(Ept, s1.mem, s1.root, x).value)
    {
      var t1 := Translate(Ept, s1.mem, s1.root, x).value;
      if StoredBy(w, x, t1) {
        assert (work + [w])[|work|] == w;
      } else {
        var t := Translate(Ept, s.mem, s.root, x).value;
        var k :| 0 <= k < |work| && StoredBy(work[k], x, t);
        assert (work + [w])[k] == work[k];
      }
    }
  }

  /** Conservation: over every run ended by vmx_free_ept, every page reference taken
      has been dropped, and the kernel has every one of its pages back, once. */
  method RunToEnd(pages: seq<nat>, ad: bool, l: Layout, work: seq<Work>) returns (e: EptMap)
    requires pages != [] && forall i, j :: 0 <= i < j < |pages| ==> pages[i] != pages[j]
    requires Reachable(l) && forall k :: 0 <= k < |work| ==> Possible(work[k])
    ensures e.held == multiset{} && multiset(e.free) == multiset(pages) && e.own == map[]
  {
    hide Good, Pages;
    e := new EptMap(pages, ad);
    for k := 0 to |work|
      invariant fresh(e) && Good(e.State(), {}) && e.pins == multiset{} && Pages(e.State()) == multiset(pages)
    {
      DoWork(e, l, work[k]);
    }
    e.FreeEpt();
  }
}
