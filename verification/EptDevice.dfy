/** kern/ept.c in its own form: tables read and written in place, page references
    taken and dropped one by one. */
module EptDevice {
  import opened Radix
  import opened Addresses
  import opened Callbacks
  import opened GuestVm
  import opened WalkTheorems
  import opened EptTables
  import opened EptWalk

  const EFAULT := -14
  const OK := 0

  /** get_user_pages_fast: a page, the head of its compound page and that one's
      size; or a refusal. */
  datatype Gup = Page(page: nat, head: nat, shift: nat) | Refused

  /** find_vma and follow_pfn: the frame of a PFN mapping, or an error. */
  datatype Pfn = Frame(pfn: nat) | PfnError(err: int)

  /** The flags of a new entry. */
  function SetFlags(write: bool, ad: bool, level: nat): set<nat> {
    {EPTE_READ, EPTE_EXEC, EPTE_IPAT} + TYPE_WB + When(write, EPTE_WRITE) + When(ad, EPTE_A)
    + When(ad && write, EPTE_D) + When(level > 0, EPTE_SZ)
  }

  function PfnFlags(write: bool, ad: bool): set<nat> {
    {EPTE_READ, EPTE_IPAT, EPTE_PFNMAP} + When(write, EPTE_WRITE) + When(ad, EPTE_A) + When(ad && write, EPTE_D)
  }

  /** What an entry for a page must say to the processor, bit by bit (section 28.2.2 of
      the Intel manual, volume 3C): it may be read (0) and executed (2), and written (1)
      if a write asked for it; bits 5:3 are memory type 6, write-back, which bit 6 makes
      the processor ignore PAT for; bit 7 is set in an entry for a huge page; and bits 8
      and 9 are set beforehand where accessed and dirty bits are in use. */
  predicate PageBits(bits: set<nat>, write: bool, ad: bool, huge: bool) {
    && 0 in bits && (1 in bits <==> write) && 2 in bits
    && 3 !in bits && 4 in bits && 5 in bits && 6 in bits && (7 in bits <==> huge)
    && (8 in bits <==> ad) && (9 in bits <==> ad && write) && 10 !in bits
  }

  /** ... and an entry for a PFN mapping: it cannot be executed, its memory type is 0,
      uncachable, and bit 10, which the processor ignores, tells what it is. */
  predicate PfnBits(bits: set<nat>, write: bool, ad: bool) {
    && 0 in bits && (1 in bits <==> write) && 2 !in bits
    && 3 !in bits && 4 !in bits && 5 !in bits && 6 in bits && 7 !in bits
    && (8 in bits <==> ad) && (9 in bits <==> ad && write) && 10 in bits
  }

  /** The frame of the entry that a fault brings, and what its bits say: a 1 GB or a
      2 MB page is mapped as such, from its head on. */
  predicate Brought(w: Word, write: bool, ad: bool, gup: Gup, pfn: Pfn) {
    match gup
    case Page(page, head, shift) =>
      && w.frame == (if shift == 30 || shift == 21 then head else page)
      && PageBits(w.bits, write, ad, shift == 30 || shift == 21)
    case Refused => pfn.Frame? && w.frame == pfn.pfn && PfnBits(w.bits, write, ad)
  }

  /** The level of that entry. */
  function SizeLevel(gup: Gup): nat {
    if gup.Page? && gup.shift == 30 then 2 else if gup.Page? && gup.shift == 21 then 1 else 0
  }

  /** Every page in the unit of `gpa` is translated by the entry that the fault brings. */
  ghost predicate BroughtIn(s: Shadow, gpa: nat, write: bool, ad: bool, gup: Gup, pfn: Pfn) {
    forall x {:trigger Translate(Ept, s.mem, s.root, x)} ::
      IsPage(x) && Up(x, SizeLevel(gup)) == Up(PageOfVa(gpa), SizeLevel(gup)) ==>
        var t := Translate(Ept, s.mem, s.root, x);
        t.Some? && t.value.0 == SizeLevel(gup) && Brought(t.value.1, write, ad, gup, pfn)
  }

  lemma RemappedBrings(s: Shadow, s1: Shadow, gpa: nat, write: bool, ad: bool, gup: Gup, pfn: Pfn, level: nat, w: Word)
    requires Remapped(s, s1, level, Up(PageOfVa(gpa), level), w) && level == SizeLevel(gup)
    requires Brought(w, write, ad, gup, pfn)
    ensures BroughtIn(s1, gpa, write, ad, gup, pfn)
  {
    hide Good, Leaf, Pages, PageOfVa, Up;
    forall x | IsPage(x) && Up(x, level) == Up(PageOfVa(gpa), level)
      ensures Translate(Ept, s1.mem, s1.root, x) == Some((level, w))
    {
      assert Leaf(Ept, s1.mem, s.root, x) == Norm(level, w);
    }
  }

  lemma SetBrings(write: bool, ad: bool, page: nat, head: nat, shift: nat, pfn: Pfn)
    ensures var level := LevelOf(shift);
            Brought(Word(if level > 0 then head else page, SetFlags(write, ad, level)), write, ad,
                    Page(page, head, shift), pfn)
  {
  }

  lemma PfnBrings(write: bool, ad: bool, frame: nat)
    ensures Brought(Word(frame, PfnFlags(write, ad)), write, ad, Refused, Frame(frame))
  {
  }

  function LevelOf(shift: nat): nat {
    if shift == 30 then 2 else if shift == 21 then 1 else 0
  }

  /** What disposing of the tables below table `c` leaves alone. */
  ghost predicate Pruned(s: Shadow, s1: Shadow, level: int) {
    && s1.mem == s.mem && s1.root == s.root && s1.pins == s.pins && Pages(s1) == Pages(s)
    && (forall f :: f in s1.own ==> f in s.own && s1.own[f] == s.own[f])
    && (forall f :: f in s.own && s.own[f].level > level ==> f in s1.own)
  }

  /** What ept_lookup_gpa returns when it may create tables: -EINVAL if a big entry
      lies above the slot, -ENOMEM if the kernel has too few pages for the tables
      that are missing, and else success. */
  function SeekCode(s: Shadow, g: nat, u: nat): int
    requires g <= TOP
  {
    var n := Lacking(s, s.root, TOP, g, u);
    if n > 0 && Present(Ept, Stop(Ept, s.mem, s.root, TOP, g, u).word) then EINVAL
    else if n > |s.free| then ENOMEM
    else OK
  }

  /** What ept_set_epte returns, given the host's answers. */
  function SetCode(s: Shadow, gpa: nat, gup: Gup, pfn: Pfn): int {
    match gup
    case Page(_, _, shift) => SeekCode(s, LevelOf(shift), Up(PageOfVa(gpa), LevelOf(shift)))
    case Refused => PfnCode(s, gpa, pfn)
  }

  function PfnCode(s: Shadow, gpa: nat, pfn: Pfn): int {
    match pfn
    case PfnError(err) => err
    case Frame(_) => SeekCode(s, 0, PageOfVa(gpa))
  }

  /** Nothing happened, but for tables that a lookup may have created. */
  ghost predicate Unmoved(s: Shadow, s1: Shadow) {
    && Good(s1, {}) && s1.root == s.root && s1.pins == s.pins && s1.held == s.held && Pages(s1) == Pages(s)
    && forall x :: IsPage(x) ==> Leaf(Ept, s1.mem, s.root, x) == Leaf(Ept, s.mem, s.root, x)
  }

  /** The pages of level-`level` unit `u` are decided by `w`, all others as before. */
  ghost predicate Remapped(s: Shadow, s1: Shadow, level: nat, u: nat, w: Word) {
    && Good(s1, {}) && s1.root == s.root && s1.pins == s.pins && Pages(s1) == Pages(s)
    && forall x :: IsPage(x) ==>
         Leaf(Ept, s1.mem, s.root, x) == if Up(x, level) == u then Norm(level, w) else Leaf(Ept, s.mem, s.root, x)
  }

  class EptMap {
    var mem: Mem
    const root: nat
    const ad: bool
    /** The kernel's free pages. */
    var free: seq<nat>
    /** The references on user pages taken and not yet dropped. */
    var held: multiset<nat>
    ghost var own: Own
    ghost var pins: multiset<nat>

    ghost function State(): Shadow
      reads this
    {
      Shadow(mem, own, root, free, held, pins)
    }

    /** vmx_init_ept, where the kernel has a page to give. */
    constructor (pages: seq<nat>, adEnabled: bool)
      requires pages != [] && forall i, j :: 0 <= i < j < |pages| ==> pages[i] != pages[j]
      ensures Good(State(), {}) && held == multiset{} && pins == multiset{} && root == pages[0]
      ensures Pages(State()) == multiset(pages) && free == pages[1..]
      ensures forall v :: IsPage(v) ==> Translate(Ept, mem, root, v).None?
    {
      root, ad := pages[0], adEnabled;
      mem := map[pages[0] := EMPTY_TABLE];
      free := pages[1..];
      held, pins := multiset{}, multiset{};
      own := map[pages[0] := Node(pages[0], TOP, 0, 0)];
      new;
      InitGood(pages);
    }

    /** __get_free_page, memset, and the link to the new page. */
    method NewTable(dir: nat, idx: nat) returns (page: nat)
      requires free != [] && idx < ENTRIES
      modifies this`mem, this`own, this`free
      ensures page == old(free)[0] && State() == NewEptTable(old(State()), dir, idx)
    {
      page := free[0];
      free := free[1..];
      mem := mem[page := EMPTY_TABLE];
      mem := Wr(mem, dir, idx, Word(page, LINK_BITS));
      own := LinkOwn(own, dir, idx, page);
    }

    /** ept_lookup_gpa. */
    method LookupGpa(gpa: nat, level: nat, create: bool) returns (r: int, table: nat, index: nat)
      requires level <= TOP
      modifies this`mem, this`own, this`free
      ensures index < ENTRIES
      ensures match Seek(old(State()), root, TOP, level, Up(PageOfVa(gpa), level), create)
              case Spot(s, t) => r == OK && State() == s && table == t && index == Up(PageOfVa(gpa), level) % ENTRIES
              case Missing(s) => r == ENOENT && State() == s
              case NoPage(s) => r == ENOMEM && State() == s
              case BelowBig(s) => r == EINVAL && State() == s
    {
      hide Up, PageOfVa, Pdx, NewEptTable;
      ghost var u := Up(PageOfVa(gpa), level);
      var dir := root;
      var i := TOP;
      UpAdd(PageOfVa(gpa), level, TOP - level);
      while i > level
        invariant level <= i <= TOP
        invariant Seek(State(), dir, i, level, u, create) == Seek(old(State()), root, TOP, level, u, create)
      {
        PdxIsIndex(i, gpa);
        UpAdd(PageOfVa(gpa), level, i - level);
        var idx := Pdx(i, gpa);
        if !Present(Ept, Rd(mem, dir, idx)) {
          if !create {
            return ENOENT, dir, 0;
          }
          if free == [] {
            return ENOMEM, dir, 0;
          }
          dir := NewTable(dir, idx);
        } else {
          if Big(Rd(mem, dir, idx)) {
            return EINVAL, dir, 0;
          }
          dir := Rd(mem, dir, idx).frame;
        }
        i := i - 1;
      }
      PdxIsIndex(level, gpa);
      return OK, dir, Pdx(level, gpa);
    }

    /** free_ept_page. */
    method FreeEptPage(w: Word)
      requires EPTE_PFNMAP !in w.bits ==> w.frame in held
      modifies this`held
      ensures held == Drop(old(held), w)
    {
      if EPTE_PFNMAP in w.bits {
        return;
      }
      held := held - multiset{w.frame};
    }

    /** ept_clear_epte, on a slot that holds no link. */
    method ClearEpte(t: nat, i: nat) returns (cleared: bool)
      requires Good(State(), {}) && t in own && i < ENTRIES && !IsLink(Ept, Rd(mem, t, i), own[t].level)
      modifies this`mem, this`held
      ensures Good(State(), {}) && mem == Wr(old(mem), t, i, ZERO) && cleared == (Rd(old(mem), t, i) != ZERO)
      ensures held == if cleared then Drop(old(held), Rd(old(mem), t, i)) else old(held)
    {
      hide Shape, Hung, FreeApart, Balanced;
      ghost var s := State();
      SlotKind(s, t, i);
      ghost var one: Done := {(t, i)};
      assert {} + {(t, i)} == one && one - {(t, i)} == {};
      cleared := Rd(mem, t, i) != ZERO;
      if cleared {
        DropLeaf(s, {}, t, i);
        FreeEptPage(Rd(mem, t, i));
      } else {
        SkipEmpty(s, {}, t, i);
      }
      StoreEntry(State(), one, t, i, ZERO);
      NoDue(State().pins);
      mem := Wr(mem, t, i, ZERO);
    }

    /** The loops of ept_clear_l1_epte, ept_clear_l2_epte and vmx_free_ept: drop
        what a table's leaves hold, do the same for the tables below it, and free
        the table. The entries stay in the freed pages. */
    method FreeTable(c: nat, level: nat, ghost done: Done) returns (ghost done1: Done)
      requires Good(State(), done) && c in own && c != root && own[c].level == level
      requires forall f, i :: f in own && own[f].level <= level ==> (f, i) !in done
      modifies this`free, this`held, this`own
      ensures Good(State(), done1) && Pruned(old(State()), State(), level) && c !in own
      ensures var n := old(own)[c];
              forall f, i :: f in own ==>
                ((f, i) in done1 <==> (f, i) in done || (f == n.parent && i == n.prefix % ENTRIES))
      decreases level, 1
    {
      hide Shape, Hung, FreeApart, Balanced, Pages, IsLeaf, IsLink, Good;
      ghost var s0 := State();
      done1 := done;
      PrunedRefl(s0, level - 1);
      var j := 0;
      while j < ENTRIES
        invariant 0 <= j <= ENTRIES
        invariant Good(State(), done1) && Pruned(s0, State(), level - 1) && c in own
        invariant forall f, i :: f in own ==> ((f, i) in done1 <==> (f, i) in done || (f == c && 0 <= i < j))
      {
        ghost var s1 := State();
        done1 := FreeEntry(c, j, level, done1);
        PrunedTrans(s0, s1, State(), level);
        j := j + 1;
      }
      DropTable(State(), done1, c);
      ghost var s2 := State();
      own := own - {c};
      free := [c] + free;
      done1 := done1 + {(s0.own[c].parent, s0.own[c].prefix % ENTRIES)};
      DropPruned(s0, s2, State(), c, level);
    }

    /** One round of those loops. */
    method FreeEntry(c: nat, j: nat, level: nat, ghost done: Done) returns (ghost done1: Done)
      requires Good(State(), done) && c in own && c != root && own[c].level == level && j < ENTRIES
      requires forall f, i :: f in own && own[f].level < level ==> (f, i) !in done
      requires (c, j) !in done
      modifies this`free, this`held, this`own
      ensures Good(State(), done1) && Pruned(old(State()), State(), level - 1) && c in own
      ensures forall f, i :: f in own ==> ((f, i) in done1 <==> (f, i) in done || (f == c && i == j))
      decreases level, 0
    {
      hide Shape, Hung, FreeApart, Balanced, IsLeaf, IsLink, Good;
      ghost var s := State();
      var w := Rd(mem, c, j);
      if !Present(Ept, w) {
        SkipEmpty(s, done, c, j);
        done1 := done + {(c, j)};
        PrunedHeld(s, held, level - 1);
      } else {
        PresentKind(s, done, c, j);
        if level == 0 || Big(w) {
          DropLeaf(s, done, c, j);
          FreeEptPage(w);
          done1 := done + {(c, j)};
          PrunedHeld(s, held, level - 1);
        } else {
          done1 := FreeTable(w.frame, level - 1, done);
        }
      }
    }

    /** ept_clear_l1_epte and ept_clear_l2_epte, on a slot that holds a link. */
    method ClearTable(t: nat, i: nat, level: nat)
      requires Good(State(), {}) && t in own && own[t].level == level && i < ENTRIES
               && IsLink(Ept, Rd(mem, t, i), level)
      modifies this`mem, this`free, this`held, this`own
      ensures Good(State(), {}) && mem == Wr(old(mem), t, i, ZERO) && Pages(State()) == Pages(old(State()))
      ensures t in own && own[t] == old(own)[t]
    {
      hide Shape, Hung, FreeApart, Balanced, IsLeaf, Pages;
      ghost var s := State();
      ChildKind(s, t, i);
      ghost var done := FreeTable(Rd(mem, t, i).frame, level - 1, {});
      PagesMem(State(), Wr(mem, t, i, ZERO));
      StoreEntry(State(), done, t, i, ZERO);
      NoDue(pins);
      mem := Wr(mem, t, i, ZERO);
      Forget(State(), done - {(t, i)}, {});
    }

    /** vmx_free_ept: every reference is dropped, every table freed, each once. */
    method FreeEpt()
      requires Good(State(), {})
      modifies this`free, this`held, this`own
      ensures held == pins && own == map[] && multiset(free) == Pages(old(State()))
    {
      hide Shape, Hung, FreeApart, Balanced, IsLeaf, Pages, Good;
      ghost var s0 := State();
      ghost var done: Done := {};
      GoodTree(s0);
      PrunedRefl(s0, 2);
      var i := 0;
      while i < ENTRIES
        invariant 0 <= i <= ENTRIES
        invariant Good(State(), done) && Pruned(s0, State(), 2) && root in own
        invariant forall f, j :: f in own ==> ((f, j) in done <==> f == root && 0 <= j < i)
      {
        ghost var s1 := State();
        RootIs(s1, done);
        if !Present(Ept, Rd(mem, root, i)) {
          SkipEmpty(s1, done, root, i);
          done := done + {(root, i)};
        } else {
          RootKind(s1, done, i);
          done := FreeTable(Rd(mem, root, i).frame, 2, done);
          PrunedTrans(s0, s1, State(), 3);
        }
        i := i + 1;
      }
      OnlyRoot(State(), done);
      LastPage(State());
      own := map[];
      free := [root] + free;
    }

    /** Storing an entry in an empty slot; its reference has been taken. */
    method PutEntry(t: nat, i: nat, w: Word)
      requires Good(State(), {}) && t in own && i < ENTRIES && Rd(mem, t, i) == ZERO
      requires IsLeaf(w, own[t].level) && Due(w) <= pins
      modifies this`mem, this`pins
      ensures Good(State(), {}) && mem == Wr(old(mem), t, i, w) && pins == old(pins) - Due(w)
      ensures Pages(State()) == Pages(old(State()))
    {
      hide Shape, Hung, FreeApart, Balanced;
      ghost var one: Done := {(t, i)};
      assert {} + {(t, i)} == one && one - {(t, i)} == {};
      SkipEmpty(State(), {}, t, i);
      StoreEntry(State(), one, t, i, w);
      mem := Wr(mem, t, i, w);
      pins := pins - Due(w);
    }

    /** Making room for an entry. */
    method ClearSlot(t: nat, i: nat, level: nat)
      requires Good(State(), {}) && t in own && own[t].level == level < TOP && i < ENTRIES
      modifies this`mem, this`free, this`held, this`own
      ensures Good(State(), {}) && Pages(State()) == Pages(old(State()))
      ensures t in own && own[t] == old(own)[t]
      ensures Rd(mem, t, i) == ZERO && forall w :: Wr(mem, t, i, w) == Wr(old(mem), t, i, w)
    {
      hide Shape, Hung, FreeApart, Balanced, Good, Pages;
      ghost var s := State();
      SlotAny(s, t, i);
      if Present(Ept, Rd(mem, t, i)) {
        if !Big(Rd(mem, t, i)) && (level == 1 || level == 2) {
          ClearTable(t, i, level);
          WrTwice(s.mem, t, i, ZERO);
        } else {
          var _ := ClearEpte(t, i);
          PagesHeld(s, State());
          WrTwice(s.mem, t, i, ZERO);
        }
      }
    }

    /** ept_set_pfnmap_epte. */
    method SetPfnmap(gpa: nat, write: bool, pfn: Pfn) returns (r: int)
      requires Good(State(), {}) && (pfn.PfnError? ==> pfn.err != OK)
      modifies this`mem, this`free, this`held, this`own, this`pins
      ensures r == PfnCode(old(State()), gpa, pfn)
      ensures r != OK ==> Unmoved(old(State()), State())
      ensures r == OK ==>
                pfn.Frame? && Remapped(old(State()), State(), 0, PageOfVa(gpa), Word(pfn.pfn, PfnFlags(write, ad)))
      ensures r == OK ==> BroughtIn(State(), gpa, write, ad, Refused, pfn)
    {
      hide Shape, Hung, FreeApart, Balanced, Good, Pages, PageOfVa, Leaf, Seek, Up, Grown, Sought, Remapped, Reach,
        Unmoved, Wr, SeekCode, SeeksAs, Brought, BroughtIn, PfnFlags;
      ghost var s := State();
      match pfn
      case PfnError(err) =>
        UnmovedRefl(s);
        return err;
      case Frame(frame) =>
        ghost var v := PageOfVa(gpa);
        AddressPage(gpa);
        SeekPage(s, v, 0, true);
        UpZero(v);
        SeekReturns(s, v, 0);
        var ret, t, i := LookupGpa(gpa, 0, true);
        if ret != OK {
          return ret;
        }
        ghost var s1 := State();
        ClearSlot(t, i, 0);
        var w := Word(frame, PfnFlags(write, ad));
        PfnLeaf(frame, write, ad);
        NoneDue(w, s1.pins);
        PutEntry(t, i, w);
        SetRemapped(s, s, s1, State(), t, 0, v, w);
        PfnBrings(write, ad, frame);
        RemappedBrings(s, State(), gpa, write, ad, Refused, pfn, 0, w);
        r := OK;
    }

    /** get_page, and the reference that get_user_pages_fast takes. */
    method TakeRef(page: nat)
      requires Good(State(), {})
      modifies this`held, this`pins
      ensures held == old(held) + multiset{page} && pins == old(pins) + multiset{page} && Good(State(), {})
      ensures Pages(State()) == Pages(old(State()))
    {
      hide Good;
      Pinned(State(), {}, held + multiset{page}, pins + multiset{page});
      held := held + multiset{page};
      pins := pins + multiset{page};
    }

    /** put_page on a page that no entry has taken over. */
    method DropRef(page: nat)
      requires Good(State(), {}) && page in pins
      modifies this`held, this`pins
      ensures held == old(held) - multiset{page} && pins == old(pins) - multiset{page} && Good(State(), {})
      ensures Pages(State()) == Pages(old(State()))
    {
      hide Good;
      PinsHeld(State(), {});
      Pinned(State(), {}, held - multiset{page}, pins - multiset{page});
      held := held - multiset{page};
      pins := pins - multiset{page};
    }

    /** ept_set_epte, with the host's answers. */
    method SetEpte(gpa: nat, write: bool, gup: Gup, pfn: Pfn) returns (r: int)
      requires Good(State(), {}) && (pfn.PfnError? ==> pfn.err != OK)
      modifies this`mem, this`free, this`held, this`own, this`pins
      ensures r == SetCode(old(State()), gpa, gup, pfn)
      ensures r != OK ==> Unmoved(old(State()), State())
      ensures r == OK && gup.Refused? ==>
                pfn.Frame? && Remapped(old(State()), State(), 0, PageOfVa(gpa), Word(pfn.pfn, PfnFlags(write, ad)))
      ensures r == OK && gup.Page? ==>
                var level := LevelOf(gup.shift);
                Remapped(old(State()), State(), level, Up(PageOfVa(gpa), level),
                         Word(if level > 0 then gup.head else gup.page, SetFlags(write, ad, level)))
      ensures r == OK ==> BroughtIn(State(), gpa, write, ad, gup, pfn)
    {
      hide Shape, Hung, FreeApart, Balanced, Good, Pages, PageOfVa, Leaf, Seek, Up, Grown, Sought, Remapped, Reach,
        Unmoved, Wr, SeekCode, SeeksAs, Brought, BroughtIn, SetFlags;
      ghost var s0 := State();
      if gup.Refused? {
        r := SetPfnmap(gpa, write, pfn);
        return;
      }
      var page := gup.page;
      TakeRef(page);
      ghost var s := State();
      var level := LevelOf(gup.shift);
      AddressPage(gpa);
      SeekPage(s, PageOfVa(gpa), level, true);
      SeekReturns(s, PageOfVa(gpa), level);
      CodeSame(s0, s, level, Up(PageOfVa(gpa), level));
      var ret, t, i := LookupGpa(gpa, level, true);
      if ret != OK {
        UnmovedKeeps(s, State());
        UnmovedPins(s0, s, State(), held - multiset{page}, pins - multiset{page}, page);
        DropRef(page);
        return ret;
      }
      ghost var s1 := State();
      UnmovedKeeps(s, s1);
      SetSlot(t, i, level, page, gup.head, write);
      TakenOver(s0.pins, page);
      SetLeaf(if level > 0 then gup.head else page, write, ad, level);
      SetRemapped(s0, s, s1, State(), t, level, Up(PageOfVa(gpa), level),
                  Word(if level > 0 then gup.head else page, SetFlags(write, ad, level)));
      SetBrings(write, ad, page, gup.head, gup.shift, pfn);
      RemappedBrings(s0, State(), gpa, write, ad, gup, pfn, level,
                     Word(if level > 0 then gup.head else page, SetFlags(write, ad, level)));
      r := OK;
    }

    /** The second half of ept_set_epte: the slot gets an entry for the page, or
        for the head of a huge page. */
    method SetSlot(t: nat, i: nat, level: nat, tmp: nat, head: nat, write: bool)
      requires Good(State(), {}) && t in own && own[t].level == level <= 2 && i < ENTRIES && tmp in pins
      modifies this`mem, this`free, this`held, this`own, this`pins
      ensures Good(State(), {}) && Pages(State()) == Pages(old(State())) && pins == old(pins) - multiset{tmp}
      ensures mem == Wr(old(mem), t, i, Word(if level > 0 then head else tmp, SetFlags(write, ad, level)))
    {
      hide Shape, Hung, FreeApart, Balanced, Good, Pages, SetFlags, Wr;
      ClearSlot(t, i, level);
      ghost var was := pins;
      var page := tmp;
      if level > 0 {
        page := head;
        TakeRef(page);
        DropRef(tmp);
        assert pins - multiset{head} == was - multiset{tmp};
      }
      var w := Word(page, SetFlags(write, ad, level));
      SetLeaf(page, write, ad, level);
      PutEntry(t, i, w);
    }
  }

  lemma NoDue(pins: multiset<nat>)
    ensures pins - Due(ZERO) == pins
  {
  }

  lemma PrunedRefl(s: Shadow, level: int)
    ensures Pruned(s, s, level)
  {
  }

  lemma PrunedHeld(s: Shadow, held: multiset<nat>, level: int)
    ensures Pruned(s, s.(held := held), level)
  {
  }

  lemma SlotKind(s: Shadow, t: nat, i: nat)
    requires Good(s, {}) && t in s.own && i < ENTRIES && !IsLink(Ept, Rd(s.mem, t, i), s.own[t].level)
    ensures var w := Rd(s.mem, t, i); IsLeaf(w, s.own[t].level) || (w == ZERO && !Present(Ept, w))
  {
    assert EntryOk(s.own, t, i, Rd(s.mem, t, i));
  }

  lemma PresentKind(s: Shadow, done: Done, c: nat, j: nat)
    requires Good(s, done) && c in s.own && c != s.root && j < ENTRIES && (c, j) !in done
             && Present(Ept, Rd(s.mem, c, j))
    ensures var w := Rd(s.mem, c, j); var level := s.own[c].level;
            if level == 0 || Big(w) then IsLeaf(w, level)
            else && LinkOk(s.own, c, j, w) && w.frame != s.root && s.own[w.frame].level == level - 1
                 && s.own[w.frame].parent == c && s.own[w.frame].prefix % ENTRIES == j
    ensures s.own[c].level < TOP
  {
    assert EntryOk(s.own, c, j, Rd(s.mem, c, j)) && LinkedFrom(s, done, c);
  }

  lemma PrunedTrans(s: Shadow, s1: Shadow, s2: Shadow, level: nat)
    requires Pruned(s, s1, level - 1) && Pruned(s1, s2, level - 1)
    ensures Pruned(s, s2, level - 1)
  {
    hide Pages;
  }

  lemma DropPruned(s: Shadow, s1: Shadow, s2: Shadow, c: nat, level: nat)
    requires c in s.own && c in s1.own && s.own[c].level == level
    requires Pruned(s, s1, level - 1) && s2 == s1.(own := s1.own - {c}, free := [c] + s1.free)
    ensures Pruned(s, s2, level)
  {
    assert s1.own.Keys == s2.own.Keys + {c};
  }

  function InitState(pages: seq<nat>): Shadow
    requires pages != []
  {
    var r := pages[0];
    Shadow(map[r := EMPTY_TABLE], map[r := Node(r, TOP, 0, 0)], r, pages[1..], multiset{}, multiset{})
  }

  lemma InitGood(pages: seq<nat>)
    requires pages != [] && forall i, j :: 0 <= i < j < |pages| ==> pages[i] != pages[j]
    ensures var s := InitState(pages); Good(s, {}) && Pages(s) == multiset(pages)
    ensures forall v :: IsPage(v) ==> Translate(Ept, InitState(pages).mem, pages[0], v).None?
  {
    hide Up, Shape, Hung, FreeApart, Balanced;
    var s := InitState(pages);
    assert pages == [pages[0]] + pages[1..];
    InitShape(pages);
    InitBalanced(pages);
    assert forall f, i :: Rd(s.mem, f, i) == ZERO;
  }

  lemma InitShape(pages: seq<nat>)
    requires pages != [] && forall i, j :: 0 <= i < j < |pages| ==> pages[i] != pages[j]
    ensures var s := InitState(pages); Shape(s, {}) && Hung(s, {}) && FreeApart(s)
  {
    assert forall f, i :: Rd(InitState(pages).mem, f, i) == ZERO;
  }

  lemma InitBalanced(pages: seq<nat>)
    requires pages != []
    ensures Balanced(InitState(pages), {})
  {
    var s := InitState(pages);
    assert forall f, i :: Rd(s.mem, f, i) == ZERO;
    assert forall frame :: Leaves(s.mem, s.own, {}, frame) == {};
  }

  lemma ChildKind(s: Shadow, t: nat, i: nat)
    requires Good(s, {}) && t in s.own && i < ENTRIES && IsLink(Ept, Rd(s.mem, t, i), s.own[t].level)
    ensures var c := Rd(s.mem, t, i).frame;
            && s.own[t].level > 0 && c in s.own && c != s.root && s.own[c].level == s.own[t].level - 1
            && s.own[c].parent == t && s.own[c].prefix % ENTRIES == i
  {
    assert EntryOk(s.own, t, i, Rd(s.mem, t, i));
  }

  lemma RootIs(s: Shadow, done: Done)
    requires Good(s, done)
    ensures IsRoot(s.own, s.root) && forall c :: c in s.own && c != s.root ==> s.own[c].level < TOP
  {
    assert forall c :: c in s.own && c != s.root ==> LinkedFrom(s, done, c);
  }

  lemma RootKind(s: Shadow, done: Done, i: nat)
    requires Good(s, done) && i < ENTRIES && (s.root, i) !in done && Present(Ept, Rd(s.mem, s.root, i))
    ensures var c := Rd(s.mem, s.root, i).frame;
            && c in s.own && c != s.root && s.own[c].level == 2 && s.own[c].parent == s.root
            && s.own[c].prefix % ENTRIES == i
  {
    assert EntryOk(s.own, s.root, i, Rd(s.mem, s.root, i));
  }

  lemma PagesMem(s: Shadow, mem: Mem)
    ensures Pages(s.(mem := mem)) == Pages(s)
  {
  }

  lemma LastPage(s: Shadow)
    requires s.own.Keys == {s.root}
    ensures multiset([s.root] + s.free) == Pages(s)
  {
  }

  lemma SlotAny(s: Shadow, t: nat, i: nat)
    requires Good(s, {}) && t in s.own && s.own[t].level < TOP && i < ENTRIES
    ensures var w := Rd(s.mem, t, i);
            && (!Present(Ept, w) ==> w == ZERO)
            && (Present(Ept, w) && s.own[t].level == 0 ==> !Big(w))
            && (IsLink(Ept, w, s.own[t].level) <==> Present(Ept, w) && !Big(w) && s.own[t].level > 0)
  {
    assert EntryOk(s.own, t, i, Rd(s.mem, t, i));
  }

  lemma WrTwice(mem: Mem, t: nat, i: nat, w0: Word)
    requires i < ENTRIES
    ensures forall w :: Wr(Wr(mem, t, i, w0), t, i, w) == Wr(mem, t, i, w)
  {
    forall w
      ensures Wr(Wr(mem, t, i, w0), t, i, w) == Wr(mem, t, i, w)
    {
      var a, b := Wr(Wr(mem, t, i, w0), t, i, w), Wr(mem, t, i, w);
      assert a[t] == b[t];
    }
  }

  lemma PagesHeld(s: Shadow, s1: Shadow)
    requires s1.own == s.own && s1.free == s.free
    ensures Pages(s1) == Pages(s)
  {
  }

  lemma UnmovedRefl(s: Shadow)
    requires Good(s, {})
    ensures Unmoved(s, s)
  {
  }

  lemma NoneDue(w: Word, pins: multiset<nat>)
    requires EPTE_PFNMAP in w.bits
    ensures pins - Due(w) == pins && Due(w) <= pins
  {
  }

  lemma PfnLeaf(frame: nat, write: bool, ad: bool)
    ensures var w := Word(frame, PfnFlags(write, ad)); IsLeaf(w, 0) && EPTE_PFNMAP in w.bits
  {
  }

  /** Looking up the slot of page `v` at level `g`, from the root. */
  lemma SeekPage(s: Shadow, v: nat, g: nat, create: bool)
    requires Good(s, {}) && g <= TOP && IsPage(v)
    ensures var u := Up(v, g); var r := Seek(s, s.root, TOP, g, u, create);
            && Grown(s, r.s) && Unmoved(s, r.s) && (!create ==> r.s == s) && (r.Missing? ==> !create)
            && (r.NoPage? ==> create)
            && Sought(r, s.root, TOP, g, u) && Up(u, 4 - g) == 0 && r.s.pins == s.pins && Good(r.s, {})
            && (r.Spot? ==> r.table in r.s.own && r.s.own[r.table].level == g
                            && Reach(Ept, r.s.mem, s.root, r.table, g, u))
            && SeeksAs(s, r, s.root, TOP, g, u, create)
  {
    hide Good, Leaf, Pages, Seek, Up, Stop, SeeksAs;
    var u := Up(v, g);
    UpAdd(v, g, 4 - g);
    GoodTree(s);
    RootAt(s.own, s.root, g, u);
    SeekOk(s, s.root, TOP, g, u, create);
    SeekExact(s, s.root, TOP, g, u, create);
  }

  lemma SeekReturns(s: Shadow, v: nat, g: nat)
    requires Good(s, {}) && g <= TOP && IsPage(v)
    ensures match Seek(s, s.root, TOP, g, Up(v, g), true)
            case Spot(_, _) => SeekCode(s, g, Up(v, g)) == OK
            case Missing(_) => false
            case NoPage(_) => SeekCode(s, g, Up(v, g)) == ENOMEM
            case BelowBig(_) => SeekCode(s, g, Up(v, g)) == EINVAL
  {
    hide Good, Leaf, Pages, Seek, Up, Stop;
    SeekPage(s, v, g, true);
  }

  lemma CodeSame(s: Shadow, s1: Shadow, g: nat, u: nat)
    requires g <= TOP && s1.mem == s.mem && s1.root == s.root && s1.free == s.free
    ensures SeekCode(s1, g, u) == SeekCode(s, g, u)
  {
  }

  lemma UnmovedKeeps(s: Shadow, s1: Shadow)
    requires Unmoved(s, s1)
    ensures s1.pins == s.pins && s1.held == s.held && s1.root == s.root && Pages(s1) == Pages(s) && Good(s1, {})
  {
  }

  /** A reference taken and put back. */
  lemma UnmovedPins(s0: Shadow, s: Shadow, s1: Shadow, held: multiset<nat>, pins: multiset<nat>, page: nat)
    requires Unmoved(s, s1) && s == s0.(held := s0.held + multiset{page}, pins := s0.pins + multiset{page})
    requires held == s1.held - multiset{page} && pins == s1.pins - multiset{page}
    ensures Unmoved(s0, s1.(held := held, pins := pins))
  {
    hide Shape, Hung, Leaf, Balanced, FreeApart;
    PinsHeld(s1, {});
    Pinned(s1, {}, held, pins);
    assert held == s0.held && pins == s0.pins;
  }

  lemma SetLeaf(page: nat, write: bool, ad: bool, level: nat)
    requires level <= 2
    ensures var w := Word(page, SetFlags(write, ad, level)); IsLeaf(w, level) && Due(w) == multiset{page}
  {
  }

  lemma TakenOver(pins: multiset<nat>, page: nat)
    ensures pins + multiset{page} - multiset{page} == pins
  {
  }

  lemma SetRemapped(s0: Shadow, s: Shadow, s1: Shadow, s2: Shadow, t: nat, g: nat, u: nat, w: Word)
    requires s0.mem == s.mem && s0.root == s.root && s0.own == s.own && s0.free == s.free && s2.pins == s0.pins
    requires Unmoved(s, s1) && Good(s1, {}) && Good(s2, {}) && s2.root == s1.root && Pages(s2) == Pages(s1)
    requires g < TOP && Up(u, 4 - g) == 0 && Reach(Ept, s1.mem, s.root, t, g, u) && IsLeaf(w, g)
    requires s2.mem == Wr(s1.mem, t, u % ENTRIES, w)
    ensures Remapped(s0, s2, g, u, w)
  {
    hide Good, Leaf, Pages, Up, Reach;
    PagesHeld(s0, s);
    GoodTree(s1);
    forall x | IsPage(x)
      ensures Leaf(Ept, s2.mem, s.root, x) == if Up(x, g) == u then Norm(g, w) else Leaf(Ept, s.mem, s.root, x)
    {
      WriteLeaf(Ept, s1.mem, s1.own, s.root, t, g, u, w, s.root, x);
    }
  }
}
