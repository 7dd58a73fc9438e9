/** The extended page table of kern/ept.c as an ownership tree: which kernel pages
    its tables are, and which page references its leaves hold. */
module EptTables {
  import opened Radix
  import opened Accesses

  // Bits of an EPT entry (kern/ept.c).
  const EPTE_READ := 0
  const EPTE_WRITE := 1
  const EPTE_EXEC := 2
  const EPTE_IPAT := 6
  const EPTE_SZ := 7
  const EPTE_A := 8
  const EPTE_D := 9
  const EPTE_PFNMAP := 10

  /** EPTE_TYPE_WB is 6 in bits 3 to 5; EPTE_TYPE_UC is 0. */
  const TYPE_WB := {4, 5}

  /** `free` is the kernel's list of free pages; `held` counts the references on
      user pages that the EPT has taken and not yet dropped, of which `pins` are
      not, or not yet, due to an entry. */
  datatype Shadow =
    Shadow(mem: Mem, own: Own, root: nat, free: seq<nat>, held: multiset<nat>, pins: multiset<nat>)

  /** Entries already disposed of by a loop that leaves them in the table. */
  type Done = set<(nat, nat)>

  predicate IsLeaf(w: Word, level: nat) {
    Present(Ept, w) && level < TOP && (Big(w) <==> level > 0)
  }

  /** A leaf that holds a reference; PFN mappings are not backed by pages. */
  predicate Holds(w: Word, level: nat, frame: nat) {
    IsLeaf(w, level) && EPTE_PFNMAP !in w.bits && w.frame == frame
  }

  ghost function Leaves(mem: Mem, own: Own, done: Done, frame: nat): set<(nat, nat)> {
    set f, i | f in own && 0 <= i < ENTRIES && Holds(Rd(mem, f, i), own[f].level, frame) && (f, i) !in done :: (f, i)
  }

  /** An entry is empty, a link to its own child, or a leaf. */
  predicate EntryOk(own: Own, f: nat, i: nat, w: Word)
    requires f in own
  {
    w == ZERO || (IsLink(Ept, w, own[f].level) && LinkOk(own, f, i, w)) || IsLeaf(w, own[f].level)
  }

  ghost predicate Shape(s: Shadow, done: Done) {
    && (forall f :: f in s.own ==> s.own[f].level <= TOP)
    && (forall f, i :: f in s.own && 0 <= i < ENTRIES && (f, i) !in done ==> EntryOk(s.own, f, i, Rd(s.mem, f, i)))
  }

  predicate LinkedFrom(s: Shadow, done: Done, c: nat)
    requires c in s.own
  {
    var n := s.own[c];
    && n.root == s.root && n.level < TOP && n.parent in s.own && s.own[n.parent].level == n.level + 1
    && (n.parent, n.prefix % ENTRIES) !in done && Links(Rd(s.mem, n.parent, n.prefix % ENTRIES), c)
  }

  /** Every table but the root is linked from its parent. */
  ghost predicate Hung(s: Shadow, done: Done) {
    && IsRoot(s.own, s.root)
    && (forall c {:trigger s.own[c]} :: c in s.own && c != s.root ==> LinkedFrom(s, done, c))
  }

  ghost predicate FreeApart(s: Shadow) {
    && (forall i, j :: 0 <= i < j < |s.free| ==> s.free[i] != s.free[j])
    && (forall c :: c in s.free ==> c !in s.own)
  }

  ghost predicate Balanced(s: Shadow, done: Done) {
    forall frame :: s.held[frame] == |Leaves(s.mem, s.own, done, frame)| + s.pins[frame]
  }

  /** The tables form an unaliased tree of kernel pages that are not free, and the
      references held are those of the leaves not yet disposed of. */
  ghost predicate Good(s: Shadow, done: Done) {
    Shape(s, done) && Hung(s, done) && FreeApart(s) && Balanced(s, done)
  }

  lemma GoodTree(s: Shadow)
    requires Good(s, {})
    ensures Tree(Ept, s.mem, s.own) && IsRoot(s.own, s.root)
  {
    forall f, i | f in s.own && 0 <= i < ENTRIES && IsLink(Ept, Rd(s.mem, f, i), s.own[f].level)
      ensures LinkOk(s.own, f, i, Rd(s.mem, f, i))
    {
      assert EntryOk(s.own, f, i, Rd(s.mem, f, i));
    }
  }

  // ----- counting -----

  lemma LeavesDone(mem: Mem, own: Own, done: Done, f: nat, i: nat, frame: nat)
    requires f in own && i < ENTRIES && (f, i) !in done
    ensures |Leaves(mem, own, done + {(f, i)}, frame)|
              == |Leaves(mem, own, done, frame)| - if Holds(Rd(mem, f, i), own[f].level, frame) then 1 else 0
  {
    assert Leaves(mem, own, done + {(f, i)}, frame) == Leaves(mem, own, done, frame) - {(f, i)};
    CardMinus(Leaves(mem, own, done, frame), (f, i));
  }

  /** Storing `w` in a disposed-of slot takes the slot back into the count. */
  lemma LeavesStore(mem: Mem, own: Own, done: Done, f: nat, i: nat, w: Word, frame: nat)
    requires f in own && i < ENTRIES && (f, i) in done
    ensures |Leaves(Wr(mem, f, i, w), own, done - {(f, i)}, frame)|
              == |Leaves(mem, own, done, frame)| + if Holds(w, own[f].level, frame) then 1 else 0
  {
    var A, B := Leaves(mem, own, done, frame), Leaves(Wr(mem, f, i, w), own, done - {(f, i)}, frame);
    StoreElse(mem, own, done, f, i, w, frame);
    assert Rd(Wr(mem, f, i, w), f, i) == w;
    assert (f, i) in B <==> Holds(w, own[f].level, frame);
    CardMinus(B, (f, i));
  }

  lemma StoreElse(mem: Mem, own: Own, done: Done, f: nat, i: nat, w: Word, frame: nat)
    requires i < ENTRIES && (f, i) in done
    ensures Leaves(Wr(mem, f, i, w), own, done - {(f, i)}, frame) - {(f, i)} == Leaves(mem, own, done, frame)
  {
    hide Holds;
    assert forall f': nat, i': nat :: f' != f || i' != i ==> Rd(Wr(mem, f, i, w), f', i') == Rd(mem, f', i');
  }

  /** A table all of whose entries are disposed of counts for nothing. */
  lemma LeavesDrop(mem: Mem, own: Own, done: Done, c: nat, frame: nat)
    requires forall j :: 0 <= j < ENTRIES ==> (c, j) in done
    ensures Leaves(mem, own - {c}, done, frame) == Leaves(mem, own, done, frame)
  {
  }

  // ----- steps of disposal -----

  function Drop(held: multiset<nat>, w: Word): multiset<nat> {
    if EPTE_PFNMAP in w.bits then held else held - multiset{w.frame}
  }

  /** free_ept_page on a leaf: its reference is there to drop, and dropping it
      disposes of the entry. */
  lemma DropLeaf(s: Shadow, done: Done, f: nat, i: nat)
    requires Good(s, done) && f in s.own && i < ENTRIES && (f, i) !in done
    requires IsLeaf(Rd(s.mem, f, i), s.own[f].level)
    ensures var w := Rd(s.mem, f, i);
            && (EPTE_PFNMAP !in w.bits ==> w.frame in s.held)
            && Good(s.(held := Drop(s.held, w)), done + {(f, i)})
  {
    hide Leaves, Shape, Hung, FreeApart;
    var w := Rd(s.mem, f, i);
    LeavesDone(s.mem, s.own, done, f, i, w.frame);
    var s1 := s.(held := Drop(s.held, w));
    forall frame
      ensures s1.held[frame] == |Leaves(s.mem, s.own, done + {(f, i)}, frame)| + s.pins[frame]
    {
      LeavesDone(s.mem, s.own, done, f, i, frame);
    }
    NotParent(s, done, f, i);
    OtherHeld(s, done + {(f, i)}, s1.held);
    MoreDone(s, done, f, i);
  }

  lemma OtherHeld(s: Shadow, done: Done, held: multiset<nat>)
    ensures Shape(s.(held := held), done) == Shape(s, done)
    ensures Hung(s.(held := held), done) == Hung(s, done)
    ensures FreeApart(s.(held := held)) == FreeApart(s)
  {
    assert forall c :: c in s.own ==> LinkedFrom(s.(held := held), done, c) == LinkedFrom(s, done, c);
  }

  lemma MoreDone(s: Shadow, done: Done, f: nat, i: nat)
    requires Shape(s, done)
    ensures Shape(s, done + {(f, i)})
  {
  }

  /** Only a link has a table below it. */
  lemma NotParent(s: Shadow, done: Done, f: nat, i: nat)
    requires Hung(s, done) && f in s.own && i < ENTRIES && !IsLink(Ept, Rd(s.mem, f, i), s.own[f].level)
    ensures Hung(s, done + {(f, i)})
  {
    forall c {:trigger s.own[c]} | c in s.own && c != s.root
      ensures LinkedFrom(s, done + {(f, i)}, c)
    {
      assert LinkedFrom(s, done, c);
    }
  }

  /** Passing over an empty entry. */
  lemma SkipEmpty(s: Shadow, done: Done, f: nat, i: nat)
    requires Good(s, done) && f in s.own && i < ENTRIES && (f, i) !in done && !Present(Ept, Rd(s.mem, f, i))
    ensures Good(s, done + {(f, i)})
  {
    hide Leaves;
    NotParent(s, done, f, i);
    forall frame
      ensures s.held[frame] == |Leaves(s.mem, s.own, done + {(f, i)}, frame)| + s.pins[frame]
    {
      LeavesDone(s.mem, s.own, done, f, i, frame);
    }
  }

  /** free_page on a table whose entries are all disposed of; the entry that
      linked it counts as disposed of from then on. */
  lemma DropTable(s: Shadow, done: Done, c: nat)
    requires Good(s, done) && c in s.own && c != s.root && forall j :: 0 <= j < ENTRIES ==> (c, j) in done
    ensures c !in s.free
    ensures Good(s.(own := s.own - {c}, free := [c] + s.free), done + {(s.own[c].parent, s.own[c].prefix % ENTRIES)})
  {
    hide Leaves, IsLink, IsLeaf;
    var n := s.own[c];
    var done1 := done + {(n.parent, n.prefix % ENTRIES)};
    var s1 := s.(own := s.own - {c}, free := [c] + s.free);
    assert LinkedFrom(s, done, c);
    LinkIsLink(Rd(s.mem, n.parent, n.prefix % ENTRIES), c, s.own[n.parent].level);
    forall frame
      ensures s1.held[frame] == |Leaves(s1.mem, s1.own, done1, frame)| + s1.pins[frame]
    {
      LeavesDone(s.mem, s.own, done, n.parent, n.prefix % ENTRIES, frame);
      LeavesDrop(s.mem, s.own, done1, c, frame);
    }
    DropShape(s, done, c);
    DropHung(s, done, c);
  }

  lemma LinkIsLink(w: Word, c: nat, level: nat)
    requires 0 < level && Links(w, c)
    ensures IsLink(Ept, w, level) && !IsLeaf(w, level)
  {
  }

  lemma DropShape(s: Shadow, done: Done, c: nat)
    requires Shape(s, done) && Hung(s, done) && c in s.own && c != s.root
    requires forall j :: 0 <= j < ENTRIES ==> (c, j) in done
    ensures Shape(s.(own := s.own - {c}, free := [c] + s.free), done + {(s.own[c].parent, s.own[c].prefix % ENTRIES)})
  {
    hide IsLink, IsLeaf;
    var n := s.own[c];
    var done1 := done + {(n.parent, n.prefix % ENTRIES)};
    var own1 := s.own - {c};
    forall f, i | f in own1 && 0 <= i < ENTRIES && (f, i) !in done1
      ensures EntryOk(own1, f, i, Rd(s.mem, f, i))
    {
      assert EntryOk(s.own, f, i, Rd(s.mem, f, i));
      LevelPositive(Rd(s.mem, f, i), s.own[f].level);
    }
  }

  lemma LevelPositive(w: Word, level: nat)
    ensures IsLink(Ept, w, level) ==> level > 0
  {
  }

  lemma DropHung(s: Shadow, done: Done, c: nat)
    requires Hung(s, done) && c in s.own && c != s.root && forall j :: 0 <= j < ENTRIES ==> (c, j) in done
    ensures Hung(s.(own := s.own - {c}, free := [c] + s.free), done + {(s.own[c].parent, s.own[c].prefix % ENTRIES)})
  {
    var n := s.own[c];
    var done1 := done + {(n.parent, n.prefix % ENTRIES)};
    var s1 := s.(own := s.own - {c}, free := [c] + s.free);
    forall x {:trigger s1.own[x]} | x in s1.own && x != s1.root
      ensures LinkedFrom(s1, done1, x)
    {
      assert LinkedFrom(s, done, x) && LinkedFrom(s, done, c);
    }
  }

  /** The references that an entry takes over when it is stored. */
  function Due(w: Word): multiset<nat> {
    if w == ZERO || EPTE_PFNMAP in w.bits then multiset{} else multiset{w.frame}
  }

  /** Storing an entry that is empty, or a leaf whose reference is pinned. */
  lemma StoreEntry(s: Shadow, done: Done, f: nat, i: nat, w: Word)
    requires Good(s, done) && f in s.own && i < ENTRIES && (f, i) in done
    requires (w == ZERO || IsLeaf(w, s.own[f].level)) && Due(w) <= s.pins
    ensures Good(s.(mem := Wr(s.mem, f, i, w), pins := s.pins - Due(w)), done - {(f, i)})
  {
    hide Leaves, Shape, Hung;
    var s1 := s.(mem := Wr(s.mem, f, i, w), pins := s.pins - Due(w));
    forall frame
      ensures s1.held[frame] == |Leaves(s1.mem, s1.own, done - {(f, i)}, frame)| + s1.pins[frame]
    {
      LeavesStore(s.mem, s.own, done, f, i, w, frame);
    }
    StoreShape(s, done, f, i, w);
    StoreHung(s, done, f, i, w);
    OtherPins(s.(mem := Wr(s.mem, f, i, w)), done - {(f, i)}, s1.pins);
  }

  lemma OtherPins(s: Shadow, done: Done, pins: multiset<nat>)
    ensures Shape(s.(pins := pins), done) == Shape(s, done)
    ensures Hung(s.(pins := pins), done) == Hung(s, done)
  {
    assert forall c :: c in s.own ==> LinkedFrom(s.(pins := pins), done, c) == LinkedFrom(s, done, c);
  }

  /** Taking or dropping a reference that is due to no entry. */
  lemma Pinned(s: Shadow, done: Done, held: multiset<nat>, pins: multiset<nat>)
    requires Good(s, done) && forall frame :: held[frame] + s.pins[frame] == pins[frame] + s.held[frame]
    ensures Good(s.(held := held, pins := pins), done)
  {
    hide Leaves, Shape, Hung;
    OtherHeld(s, done, held);
    OtherPins(s.(held := held), done, pins);
  }

  lemma PinsHeld(s: Shadow, done: Done)
    requires Good(s, done)
    ensures s.pins <= s.held
  {
  }

  /** Disposed-of entries of tables that are gone are no matter. */
  lemma Forget(s: Shadow, done: Done, keep: Done)
    requires Good(s, done) && keep <= done && forall f, i :: (f, i) in done - keep ==> f !in s.own
    ensures Good(s, keep)
  {
    forall frame
      ensures Leaves(s.mem, s.own, keep, frame) == Leaves(s.mem, s.own, done, frame)
    {
    }
    assert forall c :: c in s.own && LinkedFrom(s, done, c) ==> LinkedFrom(s, keep, c);
  }

  lemma StoreShape(s: Shadow, done: Done, f: nat, i: nat, w: Word)
    requires Shape(s, done) && f in s.own && i < ENTRIES && (w == ZERO || IsLeaf(w, s.own[f].level))
    ensures Shape(s.(mem := Wr(s.mem, f, i, w)), done - {(f, i)})
  {
    hide IsLink, IsLeaf;
    var mem1 := Wr(s.mem, f, i, w);
    forall f', i' | f' in s.own && 0 <= i' < ENTRIES && (f', i') !in done - {(f, i)}
      ensures EntryOk(s.own, f', i', Rd(mem1, f', i'))
    {
      assert Rd(mem1, f', i') == if f' == f && i' == i then w else Rd(s.mem, f', i');
      assert (f', i') != (f, i) ==> EntryOk(s.own, f', i', Rd(s.mem, f', i'));
    }
  }

  lemma StoreHung(s: Shadow, done: Done, f: nat, i: nat, w: Word)
    requires Hung(s, done) && f in s.own && i < ENTRIES && (f, i) in done
    ensures Hung(s.(mem := Wr(s.mem, f, i, w)), done - {(f, i)})
  {
    var s1 := s.(mem := Wr(s.mem, f, i, w));
    forall c {:trigger s1.own[c]} | c in s1.own && c != s1.root
      ensures LinkedFrom(s1, done - {(f, i)}, c)
    {
      assert LinkedFrom(s, done, c);
    }
  }

  /** What the processor writes changes nothing of all this. */
  lemma MarkGood(s: Shadow, f: nat, i: nat, marks: set<nat>)
    requires Good(s, {}) && f in s.own && i < ENTRIES && Present(Ept, Rd(s.mem, f, i)) && marks <= Marks(Ept)
    requires IsLink(Ept, Rd(s.mem, f, i), s.own[f].level) ==> marks <= LINK_MARKS
    ensures Good(s.(mem := Marked(s.mem, f, i, marks)), {})
  {
    hide Leaves, Rd, Marked, Mark, IsLink, IsLeaf, Present;
    var s1 := s.(mem := Marked(s.mem, f, i, marks));
    forall f', i' | f' in s1.own && 0 <= i' < ENTRIES
      ensures EntryOk(s1.own, f', i', Rd(s1.mem, f', i'))
    {
      assert EntryOk(s.own, f', i', Rd(s.mem, f', i'));
      MarkRead(s.mem, f, i, marks, f', i');
      MarkEntry(s.own, f, i, Rd(s.mem, f, i), marks);
    }
    forall c {:trigger s1.own[c]} | c in s1.own && c != s1.root
      ensures LinkedFrom(s1, {}, c)
    {
      assert LinkedFrom(s, {}, c);
      var n := s.own[c];
      MarkRead(s.mem, f, i, marks, n.parent, n.prefix % ENTRIES);
      LinkIsLink(Rd(s.mem, n.parent, n.prefix % ENTRIES), c, n.level + 1);
      MarkedLink(Rd(s.mem, f, i), marks, c);
    }
    forall frame
      ensures Leaves(s1.mem, s1.own, {}, frame) == Leaves(s.mem, s.own, {}, frame)
    {
      MarkLeaves(s.mem, s.own, f, i, marks, frame);
    }
  }

  lemma MarkEntry(own: Own, f: nat, i: nat, w: Word, marks: set<nat>)
    requires f in own && EntryOk(own, f, i, w) && Present(Ept, w) && marks <= Marks(Ept)
    requires IsLink(Ept, w, own[f].level) ==> marks <= LINK_MARKS
    ensures EntryOk(own, f, i, Mark(w, marks))
  {
  }

  lemma MarkedLink(w: Word, marks: set<nat>, c: nat)
    ensures Links(w, c) && marks <= LINK_MARKS ==> Links(Mark(w, marks), c)
  {
  }

  lemma MarkLeaves(mem: Mem, own: Own, f: nat, i: nat, marks: set<nat>, frame: nat)
    requires i < ENTRIES && marks <= Marks(Ept)
    ensures Leaves(Marked(mem, f, i, marks), own, {}, frame) == Leaves(mem, own, {}, frame)
  {
    hide Rd, Marked;
    forall f', i' | f' in own
      ensures Holds(Rd(Marked(mem, f, i, marks), f', i'), own[f'].level, frame)
              == Holds(Rd(mem, f', i'), own[f'].level, frame)
    {
      MarkRead(mem, f, i, marks, f', i');
    }
  }

  lemma {:induction false} AccessGood(s: Shadow, f: nat, L: nat, v: nat, write: bool)
    requires Good(s, {}) && Radix.At(s.own, f, s.root, L, 0, v)
    ensures Good(s.(mem := AfterAccess(Ept, s.mem, f, L, v, write)), {})
    decreases L
  {
    hide Good, Up, Marked, AfterAccess, IsLink, Tree;
    GoodTree(s);
    var i := Up(v, L) % ENTRIES;
    var w := Rd(s.mem, f, i);
    AccessStep(Ept, s.mem, f, L, v, write);
    if IsLink(Ept, w, L) {
      MarkGood(s, f, i, {AccessedBit(Ept)});
      ChildAt(Ept, s.mem, s.own, s.root, f, L, 0, v);
      AccessGood(s.(mem := Marked(s.mem, f, i, {AccessedBit(Ept)})), w.frame, L - 1, v, write);
    } else if Present(Ept, w) {
      MarkGood(s, f, i, if write then Marks(Ept) else {AccessedBit(Ept)});
    } else {
      assert s.(mem := s.mem) == s;
    }
  }

  /** When every entry of the root is disposed of, no other table is left. */
  lemma OnlyRoot(s: Shadow, done: Done)
    requires Good(s, done) && forall j :: 0 <= j < ENTRIES ==> (s.root, j) in done
    ensures s.own.Keys == {s.root} && s.held == s.pins
  {
    hide Leaves;
    forall c | c in s.own
      ensures c == s.root
    {
      if c != s.root {
        var j := RootLeads(s, done, c);
      }
    }
    forall frame
      ensures s.held[frame] == s.pins[frame]
    {
      LeavesRoot(s, done, frame);
    }
  }

  /** Below the root some entry leads to table `c`. */
  lemma RootLeads(s: Shadow, done: Done, c: nat) returns (j: nat)
    requires Hung(s, done) && c in s.own && c != s.root
    ensures j < ENTRIES && (s.root, j) !in done
    decreases TOP - s.own[c].level
  {
    assert LinkedFrom(s, done, c);
    var p := s.own[c].parent;
    if p == s.root {
      j := s.own[c].prefix % ENTRIES;
    } else {
      assert LinkedFrom(s, done, p);
      j := RootLeads(s, done, p);
    }
  }

  lemma LeavesRoot(s: Shadow, done: Done, frame: nat)
    requires s.own.Keys <= {s.root} && forall j :: 0 <= j < ENTRIES ==> (s.root, j) in done
    ensures Leaves(s.mem, s.own, done, frame) == {}
  {
    assert forall f :: f in s.own ==> f == s.root;
  }
}
