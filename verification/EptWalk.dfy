/** ept_lookup_gpa of kern/ept.c. */
module EptWalk {
  import opened Radix
  import opened EptTables

  /** The lookup's slot, -ENOENT, -ENOMEM, or -EINVAL: an entry on the way has SZ
      set. The source means to stop at such an entry on levels 1 and 2, but its
      test is always true, so it never does. */
  datatype Seeking = Spot(s: Shadow, table: nat) | Missing(s: Shadow) | NoPage(s: Shadow) | BelowBig(s: Shadow)

  function NewEptTable(s: Shadow, f: nat, i: nat): Shadow
    requires s.free != [] && i < ENTRIES
  {
    var c := s.free[0];
    s.(mem := LinkMem(s.mem, f, i, c), own := LinkOwn(s.own, f, i, c), free := s.free[1..])
  }

  function Seek(s: Shadow, f: nat, L: nat, g: nat, u: nat, create: bool): Seeking
    requires g <= L
    decreases L
  {
    var i := Up(u, L - g) % ENTRIES;
    var w := Rd(s.mem, f, i);
    if L == g then Spot(s, f)
    else if !Present(Ept, w) then
      if !create then Missing(s)
      else if s.free == [] then NoPage(s)
      else Seek(NewEptTable(s, f, i), s.free[0], L - 1, g, u, create)
    else if Big(w) then BelowBig(s)
    else Seek(s, w.frame, L - 1, g, u, create)
  }

  /** The kernel pages the EPT has to do with: its tables and the free ones. */
  ghost function Pages(s: Shadow): multiset<nat> {
    multiset(s.free) + multiset(s.own.Keys)
  }

  lemma NewEptOk(s: Shadow, f: nat, i: nat)
    requires Good(s, {}) && f in s.own && s.own[f].level > 0 && i < ENTRIES && s.free != []
    requires !Present(Ept, Rd(s.mem, f, i))
    ensures var s1 := NewEptTable(s, f, i); var c := s.free[0];
            && Good(s1, {}) && s1.root == s.root && c !in s.own
            && s1.own == s.own[c := Node(s.own[f].root, s.own[f].level - 1, s.own[f].prefix * ENTRIES + i, f)]
            && s1.mem == LinkMem(s.mem, f, i, c) && Rd(s1.mem, f, i) == Word(c, LINK_BITS) && Pages(s1) == Pages(s)
  {
    hide Leaves, Shape, Hung;
    var s1 := NewEptTable(s, f, i);
    var c := s.free[0];
    NewShape(s, f, i);
    NewHung(s, f, i);
    forall frame
      ensures s1.held[frame] == |Leaves(s1.mem, s1.own, {}, frame)| + s1.pins[frame]
    {
      NewLeaves(s, f, i, frame);
    }
    LinkRead(s.mem, f, i, c, f, i);
    assert s.free == [c] + s.free[1..];
    assert s1.own.Keys == s.own.Keys + {c};
  }

  lemma NewShape(s: Shadow, f: nat, i: nat)
    requires Good(s, {}) && f in s.own && s.own[f].level > 0 && i < ENTRIES && s.free != []
    ensures Shape(NewEptTable(s, f, i), {})
  {
    hide IsLeaf, Hung, Balanced;
    var s1 := NewEptTable(s, f, i);
    var c := s.free[0];
    forall f', i' | f' in s1.own && 0 <= i' < ENTRIES
      ensures EntryOk(s1.own, f', i', Rd(s1.mem, f', i'))
    {
      LinkRead(s.mem, f, i, c, f', i');
      if f' != c {
        assert EntryOk(s.own, f', i', Rd(s.mem, f', i'));
      }
    }
  }

  lemma NewHung(s: Shadow, f: nat, i: nat)
    requires Good(s, {}) && f in s.own && s.own[f].level > 0 && i < ENTRIES && s.free != []
    requires !Present(Ept, Rd(s.mem, f, i))
    ensures Hung(NewEptTable(s, f, i), {})
  {
    hide Balanced;
    var s1 := NewEptTable(s, f, i);
    var c := s.free[0];
    forall x {:trigger s1.own[x]} | x in s1.own && x != s1.root
      ensures LinkedFrom(s1, {}, x)
    {
      LinkRead(s.mem, f, i, c, s1.own[x].parent, s1.own[x].prefix % ENTRIES);
      if x != c {
        assert LinkedFrom(s, {}, x);
      } else if f != s.root {
        assert LinkedFrom(s, {}, f);
      }
    }
  }

  lemma NewLeaves(s: Shadow, f: nat, i: nat, frame: nat)
    requires f in s.own && s.own[f].level > 0 && i < ENTRIES && s.free != [] && s.free[0] !in s.own
    requires !Present(Ept, Rd(s.mem, f, i))
    ensures Leaves(NewEptTable(s, f, i).mem, NewEptTable(s, f, i).own, {}, frame) == Leaves(s.mem, s.own, {}, frame)
  {
    var s1 := NewEptTable(s, f, i);
    var c := s.free[0];
    assert forall i' :: !IsLeaf(Rd(s1.mem, c, i'), s1.own[c].level) by {
      assert forall i' :: Rd(s1.mem, c, i') == ZERO;
    }
    assert forall f': nat, i': nat :: f' != c && (f' != f || i' != i) ==> Rd(s1.mem, f', i') == Rd(s.mem, f', i');
    assert Rd(s1.mem, f, i) == Word(c, LINK_BITS);
  }

  /** What a lookup keeps of the state it starts from. */
  ghost predicate Grown(s: Shadow, s1: Shadow) {
    && Good(s1, {}) && s1.held == s.held && s1.pins == s.pins && s1.root == s.root && Pages(s1) == Pages(s)
    && (forall f :: f in s.own ==> f in s1.own && s1.own[f] == s.own[f])
    && (forall f, i :: f in s.own && 0 <= i < ENTRIES && Present(Ept, Rd(s.mem, f, i))
          ==> Rd(s1.mem, f, i) == Rd(s.mem, f, i))
    && (forall v :: IsPage(v) ==> Leaf(Ept, s1.mem, s.root, v) == Leaf(Ept, s.mem, s.root, v))
  }

  lemma GrownRefl(s: Shadow)
    requires Good(s, {})
    ensures Grown(s, s)
  {
  }

  lemma GrownTrans(s: Shadow, s1: Shadow, s2: Shadow)
    requires Grown(s, s1) && Grown(s1, s2)
    ensures Grown(s, s2)
  {
    hide Good, Pages, Leaf;
  }

  lemma NewEptGrown(s: Shadow, f: nat, i: nat)
    requires Good(s, {}) && f in s.own && s.own[f].level > 0 && i < ENTRIES && s.free != []
    requires !Present(Ept, Rd(s.mem, f, i))
    ensures Grown(s, NewEptTable(s, f, i))
  {
    hide Pages, Leaf, Balanced, Hung;
    NewEptOk(s, f, i);
    GoodTree(s);
    var s1 := NewEptTable(s, f, i);
    var c := s.free[0];
    assert EntryOk(s.own, f, i, Rd(s.mem, f, i));
    forall v | IsPage(v)
      ensures Leaf(Ept, s1.mem, s.root, v) == Leaf(Ept, s.mem, s.root, v)
    {
      LinkLeaf(Ept, s.mem, s.own, f, i, c, s.root, v);
    }
    forall f', i' | f' in s.own && 0 <= i' < ENTRIES && Present(Ept, Rd(s.mem, f', i'))
      ensures Rd(s1.mem, f', i') == Rd(s.mem, f', i')
    {
      LinkRead(s.mem, f, i, c, f', i');
    }
  }

  /** The lookup goes where the walk of the hardware goes, as far as level `g`. */
  ghost predicate Sought(r: Seeking, f: nat, L: nat, g: nat, u: nat)
    requires g <= L
  {
    var h := Stop(Ept, r.s.mem, f, L, g, u);
    && (r.Spot? ==> h.table == r.table && h.level == g)
    && (r.Missing? ==> h.level > g && !Present(Ept, h.word))
    && (r.BelowBig? ==> g < h.level < TOP && IsLeaf(h.word, h.level))
  }

  lemma {:induction false} SeekOk(s: Shadow, f: nat, L: nat, g: nat, u: nat, create: bool)
    requires Good(s, {}) && g <= L && Radix.At(s.own, f, s.root, L, g, u)
    ensures var r := Seek(s, f, L, g, u, create);
            && Grown(s, r.s) && Sought(r, f, L, g, u) && (!create ==> r.s == s)
            && (r.Spot? ==> Radix.At(r.s.own, r.table, s.root, g, g, u))
            && (r.Missing? ==> !create) && (r.NoPage? ==> create)
    decreases L
  {
    hide Good, Grown, Stop, Up, Seek, NewEptTable, Tree, Sought;
    var i := Up(u, L - g) % ENTRIES;
    var w := Rd(s.mem, f, i);
    GrownRefl(s);
    GoodTree(s);
    SeekStep(s, f, L, g, u, create);
    if L == g {
      SoughtHere(s, f, L, g, u, Spot(s, f));
      assert Up(u, 1) == Up(u, g - g + 1);
    } else if !Present(Ept, w) {
      if create && s.free != [] {
        NewEptOk(s, f, i);
        NewEptGrown(s, f, i);
        var s1 := NewEptTable(s, f, i);
        GoodTree(s1);
        ChildAt(Ept, s1.mem, s1.own, s1.root, f, L, g, u);
        SeekOk(s1, s.free[0], L - 1, g, u, create);
        var r := Seek(s1, s.free[0], L - 1, g, u, create);
        GrownTrans(s, s1, r.s);
        GrownLink(s1, r.s, f, i);
        SoughtBelow(r, f, L, g, u);
      } else {
        SoughtHere(s, f, L, g, u, Missing(s));
        SoughtNone(s, f, L, g, u);
      }
    } else if Big(w) {
      BigLeaf(s, f, i);
      SoughtHere(s, f, L, g, u, BelowBig(s));
    } else {
      ChildAt(Ept, s.mem, s.own, s.root, f, L, g, u);
      SeekOk(s, w.frame, L - 1, g, u, create);
      var r := Seek(s, w.frame, L - 1, g, u, create);
      GrownLink(s, r.s, f, i);
      SoughtBelow(r, f, L, g, u);
    }
  }

  lemma SeekStep(s: Shadow, f: nat, L: nat, g: nat, u: nat, create: bool)
    requires g <= L
    ensures var i := Up(u, L - g) % ENTRIES; var w := Rd(s.mem, f, i);
            Seek(s, f, L, g, u, create)
              == if L == g then Spot(s, f)
                 else if !Present(Ept, w) then
                   if !create then Missing(s)
                   else if s.free == [] then NoPage(s)
                   else Seek(NewEptTable(s, f, i), s.free[0], L - 1, g, u, create)
                 else if Big(w) then BelowBig(s)
                 else Seek(s, w.frame, L - 1, g, u, create)
  {
  }

  lemma BigLeaf(s: Shadow, f: nat, i: nat)
    requires Good(s, {}) && f in s.own && i < ENTRIES && s.own[f].level > 0 && Big(Rd(s.mem, f, i))
    ensures s.own[f].level < TOP && IsLeaf(Rd(s.mem, f, i), s.own[f].level)
  {
    assert EntryOk(s.own, f, i, Rd(s.mem, f, i));
  }

  lemma GrownLink(s: Shadow, s1: Shadow, f: nat, i: nat)
    requires Grown(s, s1) && f in s.own && i < ENTRIES && Present(Ept, Rd(s.mem, f, i))
    ensures Rd(s1.mem, f, i) == Rd(s.mem, f, i)
  {
  }

  lemma SoughtHere(s: Shadow, f: nat, L: nat, g: nat, u: nat, r: Seeking)
    requires g <= L && r.s == s
    requires var w := Rd(s.mem, f, Up(u, L - g) % ENTRIES);
             || (r.Spot? && r.table == f && L == g)
             || (r.Missing? && L > g && !Present(Ept, w))
             || (r.BelowBig? && g < L < TOP && IsLeaf(w, L))
    ensures Sought(r, f, L, g, u)
  {
  }

  lemma SoughtNone(s: Shadow, f: nat, L: nat, g: nat, u: nat)
    requires g <= L
    ensures Sought(NoPage(s), f, L, g, u)
  {
  }

  lemma SoughtBelow(r: Seeking, f: nat, L: nat, g: nat, u: nat)
    requires g < L && IsLink(Ept, Rd(r.s.mem, f, Up(u, L - g) % ENTRIES), L)
    requires Sought(r, Rd(r.s.mem, f, Up(u, L - g) % ENTRIES).frame, L - 1, g, u)
    ensures Sought(r, f, L, g, u)
  {
  }

  /** How many tables are missing on the way to the level-`g` entry of unit `u`; none
      can be added below a big entry. */
  function Lacking(s: Shadow, f: nat, L: nat, g: nat, u: nat): nat
    requires g <= L
  {
    Stop(Ept, s.mem, f, L, g, u).level - g
  }

  /** Exactly what a lookup returns: -EINVAL below a big entry, and else the slot if
      the missing tables may be created and the kernel has the pages for them. */
  ghost predicate SeeksAs(s: Shadow, r: Seeking, f: nat, L: nat, g: nat, u: nat, create: bool)
    requires g <= L
  {
    var n := Lacking(s, f, L, g, u);
    if n > 0 && Present(Ept, Stop(Ept, s.mem, f, L, g, u).word) then r.BelowBig? && r.s == s
    else if n == 0 then r.Spot? && r.s == s
    else if !create then r.Missing?
    else if n > |s.free| then r.NoPage?
    else r.Spot? && |r.s.free| == |s.free| - n
  }

  lemma {:induction false} SeekExact(s: Shadow, f: nat, L: nat, g: nat, u: nat, create: bool)
    requires Good(s, {}) && g <= L && Radix.At(s.own, f, s.root, L, g, u)
    ensures SeeksAs(s, Seek(s, f, L, g, u, create), f, L, g, u, create)
    decreases L
  {
    hide Good, Stop, Up, Seek, NewEptTable, Tree, SeeksAs, IsLink;
    var i := Up(u, L - g) % ENTRIES;
    var w := Rd(s.mem, f, i);
    GoodTree(s);
    SeekStep(s, f, L, g, u, create);
    if L > g && Present(Ept, w) {
      if Big(w) {
        BigLeaf(s, f, i);
        ExactHere(s, f, L, g, u, create);
      } else {
        LinkHere(w, L);
        ChildAt(Ept, s.mem, s.own, s.root, f, L, g, u);
        SeekExact(s, w.frame, L - 1, g, u, create);
        ExactBelow(s, f, L, g, u, create);
      }
    } else if L > g && create && s.free != [] {
      NewEptOk(s, f, i);
      var s1 := NewEptTable(s, f, i);
      GoodTree(s1);
      LinkHere(Rd(s1.mem, f, i), L);
      ChildAt(Ept, s1.mem, s1.own, s1.root, f, L, g, u);
      SeekExact(s1, s.free[0], L - 1, g, u, create);
      ExactNew(s, f, L, g, u);
    } else {
      ExactHere(s, f, L, g, u, create);
    }
  }

  lemma LinkHere(w: Word, level: nat)
    requires level > 0 && Present(Ept, w) && !Big(w)
    ensures IsLink(Ept, w, level)
  {
  }

  lemma ExactHere(s: Shadow, f: nat, L: nat, g: nat, u: nat, create: bool)
    requires g <= L
    requires var w := Rd(s.mem, f, Up(u, L - g) % ENTRIES);
             L == g || !Present(Ept, w) || (Big(w) && L < TOP)
    requires L > g && !Present(Ept, Rd(s.mem, f, Up(u, L - g) % ENTRIES)) ==> !create || s.free == []
    ensures SeeksAs(s, Seek(s, f, L, g, u, create), f, L, g, u, create)
  {
    hide Up, NewEptTable;
  }

  lemma ExactBelow(s: Shadow, f: nat, L: nat, g: nat, u: nat, create: bool)
    requires g < L
    requires var w := Rd(s.mem, f, Up(u, L - g) % ENTRIES);
             && Present(Ept, w) && !Big(w)
             && SeeksAs(s, Seek(s, w.frame, L - 1, g, u, create), w.frame, L - 1, g, u, create)
    ensures SeeksAs(s, Seek(s, f, L, g, u, create), f, L, g, u, create)
  {
    hide Up, NewEptTable;
  }

  /** A new table is empty: all that is below it is missing too. */
  lemma ExactNew(s: Shadow, f: nat, L: nat, g: nat, u: nat)
    requires g < L && s.free != [] && s.free[0] != f
    requires var i := Up(u, L - g) % ENTRIES;
             && !Present(Ept, Rd(s.mem, f, i))
             && SeeksAs(NewEptTable(s, f, i), Seek(NewEptTable(s, f, i), s.free[0], L - 1, g, u, true),
                        s.free[0], L - 1, g, u, true)
    ensures SeeksAs(s, Seek(s, f, L, g, u, true), f, L, g, u, true)
  {
    hide Up, LinkMem, Seek;
    SeekStep(s, f, L, g, u, true);
    LinkRead(s.mem, f, Up(u, L - g) % ENTRIES, s.free[0], s.free[0], Up(u, L - 1 - g) % ENTRIES);
  }
}
