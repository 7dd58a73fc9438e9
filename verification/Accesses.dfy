/** What the processor itself writes into page tables: the accessed bit of every
    entry that it uses, and the dirty bit of the last one on a write. */
module Accesses {
  import opened Radix

  function AccessedBit(k: Kind): nat {
    match k
    case Guest => 5
    case Ept => 8
  }

  function DirtyBit(k: Kind): nat {
    match k
    case Guest => 6
    case Ept => 9
  }

  function Marks(k: Kind): set<nat> {
    {AccessedBit(k), DirtyBit(k)}
  }

  function Mark(w: Word, marks: set<nat>): Word {
    w.(bits := w.bits + marks)
  }

  function Marked(mem: Mem, f: nat, i: nat, marks: set<nat>): Mem
    requires i < 512
  {
    Wr(mem, f, i, Mark(Rd(mem, f, i), marks))
  }

  /** The tables after an access to page `v`, from the level-`L` table `f` on. */
  function AfterAccess(k: Kind, mem: Mem, f: nat, L: nat, v: nat, write: bool): Mem
    decreases L
  {
    var i := Up(v, L) % 512;
    var w := Rd(mem, f, i);
    if !Present(k, w) then mem
    else if IsLink(k, w, L) then AfterAccess(k, Marked(mem, f, i, {AccessedBit(k)}), w.frame, L - 1, v, write)
    else Marked(mem, f, i, if write then Marks(k) else {AccessedBit(k)})
  }

  lemma MarkWord(k: Kind, w: Word, marks: set<nat>, level: nat)
    requires marks <= Marks(k)
    ensures Mark(w, marks).frame == w.frame && Big(Mark(w, marks)) == Big(w)
    ensures Present(k, Mark(w, marks)) == Present(k, w) && IsLink(k, Mark(w, marks), level) == IsLink(k, w, level)
  {
  }

  lemma MarkRead(mem: Mem, f: nat, i: nat, marks: set<nat>, f': nat, i': nat)
    requires i < 512
    ensures Rd(Marked(mem, f, i, marks), f', i')
              == if f' == f && i' == i then Mark(Rd(mem, f, i), marks) else Rd(mem, f', i')
  {
  }

  /** A mark moves no walk. */
  lemma {:induction false} MarkStop(k: Kind, mem: Mem, f0: nat, i0: nat, marks: set<nat>, f: nat, L: nat, g: nat,
                                    u: nat)
    requires g <= L && i0 < 512 && marks <= Marks(k)
    ensures var h, h1 := Stop(k, mem, f, L, g, u), Stop(k, Marked(mem, f0, i0, marks), f, L, g, u);
            && h1.table == h.table && h1.level == h.level
            && h1.word == if h.table == f0 && Up(u, h.level - g) % 512 == i0 then Mark(h.word, marks) else h.word
    decreases L
  {
    hide Stop, Up, Rd, Marked, Mark, IsLink, Marks;
    var mem1 := Marked(mem, f0, i0, marks);
    var w := Rd(mem, f, Up(u, L - g) % 512);
    StopStep(k, mem, f, L, g, u);
    StopStep(k, mem1, f, L, g, u);
    MarkRead(mem, f0, i0, marks, f, Up(u, L - g) % 512);
    MarkWord(k, w, marks, L);
    if L > g && IsLink(k, w, L) {
      MarkStop(k, mem, f0, i0, marks, w.frame, L - 1, g, u);
    }
  }

  lemma MarkTree(k: Kind, mem: Mem, own: Own, f: nat, i: nat, marks: set<nat>)
    requires Tree(k, mem, own) && f in own && i < 512 && marks <= Marks(k)
    requires IsLink(k, Rd(mem, f, i), own[f].level) ==> marks <= LINK_MARKS
    ensures Tree(k, Marked(mem, f, i, marks), own)
  {
    var mem1 := Marked(mem, f, i, marks);
    forall f', i' | f' in own && 0 <= i' < 512 && IsLink(k, Rd(mem1, f', i'), own[f'].level)
      ensures LinkOk(own, f', i', Rd(mem1, f', i'))
    {
      assert Rd(mem1, f', i') == if f' == f && i' == i then Mark(Rd(mem, f', i'), marks) else Rd(mem, f', i');
      assert LinkOk(own, f', i', Rd(mem, f', i'));
    }
  }

  /** The same entry, but for marks. */
  predicate Alike(k: Kind, e: (nat, Word), e1: (nat, Word)) {
    e1.0 == e.0 && e1.1.frame == e.1.frame && e.1.bits <= e1.1.bits <= e.1.bits + Marks(k)
  }

  lemma MarkAlike(k: Kind, mem: Mem, f: nat, i: nat, marks: set<nat>, r: nat, x: nat)
    requires i < 512 && marks <= Marks(k)
    ensures var mem1 := Marked(mem, f, i, marks);
            && Alike(k, Leaf(k, mem, r, x), Leaf(k, mem1, r, x))
            && Stop(k, mem1, r, TOP, 0, x).table == Stop(k, mem, r, TOP, 0, x).table
            && Stop(k, mem1, r, TOP, 0, x).level == Stop(k, mem, r, TOP, 0, x).level
  {
    hide Stop, Up, Rd, Marked, IsLink;
    MarkStop(k, mem, f, i, marks, r, TOP, 0, x);
  }

  lemma AlikeSame(k: Kind, mem: Mem, r: nat, x: nat)
    ensures Alike(k, Leaf(k, mem, r, x), Leaf(k, mem, r, x))
  {
  }

  lemma AccessStep(k: Kind, mem: Mem, f: nat, L: nat, v: nat, write: bool)
    ensures var i := Up(v, L) % 512; var w := Rd(mem, f, i);
            AfterAccess(k, mem, f, L, v, write)
              == if !Present(k, w) then mem
                 else if IsLink(k, w, L) then
                   AfterAccess(k, Marked(mem, f, i, {AccessedBit(k)}), w.frame, L - 1, v, write)
                 else Marked(mem, f, i, if write then Marks(k) else {AccessedBit(k)})
    ensures var w := Rd(mem, f, Up(v, L) % 512); IsLink(k, w, L) ==> Present(k, w) && L > 0
  {
  }

  /** An access changes marks only: no page gets another frame, level or permission,
      and no table moves. */
  lemma {:induction false} AccessAlike(k: Kind, mem: Mem, own: Own, root: nat, f: nat, L: nat, v: nat, write: bool,
                                       r: nat, x: nat)
    requires Tree(k, mem, own) && At(own, f, root, L, 0, v)
    ensures var mem1 := AfterAccess(k, mem, f, L, v, write);
            && Tree(k, mem1, own) && Alike(k, Leaf(k, mem, r, x), Leaf(k, mem1, r, x))
            && Stop(k, mem1, r, TOP, 0, x).table == Stop(k, mem, r, TOP, 0, x).table
            && Stop(k, mem1, r, TOP, 0, x).level == Stop(k, mem, r, TOP, 0, x).level
    decreases L
  {
    hide Stop, Tree, Up, Rd, Marked, Mark, IsLink;
    var i := Up(v, L) % 512;
    var w := Rd(mem, f, i);
    AlikeSame(k, mem, r, x);
    AccessStep(k, mem, f, L, v, write);
    if Present(k, w) {
      if IsLink(k, w, L) {
        var mem1 := Marked(mem, f, i, {AccessedBit(k)});
        ChildAt(k, mem, own, root, f, L, 0, v);
        MarkTree(k, mem, own, f, i, {AccessedBit(k)});
        MarkAlike(k, mem, f, i, {AccessedBit(k)}, r, x);
        AccessAlike(k, mem1, own, root, w.frame, L - 1, v, write, r, x);
      } else {
        var marks := if write then Marks(k) else {AccessedBit(k)};
        MarkTree(k, mem, own, f, i, marks);
        MarkAlike(k, mem, f, i, marks, r, x);
      }
    }
  }

  /** ... and the page that is accessed has its marks from then on. */
  lemma {:induction false} AccessMarks(k: Kind, mem: Mem, own: Own, root: nat, f: nat, L: nat, v: nat, write: bool)
    requires Tree(k, mem, own) && At(own, f, root, L, 0, v) && Present(k, Stop(k, mem, f, L, 0, v).word)
    ensures Stop(k, AfterAccess(k, mem, f, L, v, write), f, L, 0, v).word.bits
            == Stop(k, mem, f, L, 0, v).word.bits
               + match (k, write)
                 case (Guest, false) => {5}
                 case (Guest, true) => {5, 6}
                 case (Ept, false) => {8}
                 case (Ept, true) => {8, 9}
    decreases L
  {
    hide Tree, Up, Rd, Marked, Mark, IsLink, Stop, AfterAccess;
    var i := Up(v, L) % 512;
    var w := Rd(mem, f, i);
    var mem2 := AfterAccess(k, mem, f, L, v, write);
    AccessStep(k, mem, f, L, v, write);
    StopStep(k, mem, f, L, 0, v);
    StopStep(k, mem2, f, L, 0, v);
    if IsLink(k, w, L) {
      var mem1 := Marked(mem, f, i, {AccessedBit(k)});
      ChildAt(k, mem, own, root, f, L, 0, v);
      MarkTree(k, mem, own, f, i, {AccessedBit(k)});
      MarkStop(k, mem, f, i, {AccessedBit(k)}, w.frame, L - 1, 0, v);
      MarkRead(mem, f, i, {AccessedBit(k)}, f, i);
      MarkWord(k, w, {AccessedBit(k)}, L);
      MarkPresent(k, mem, f, i, {AccessedBit(k)}, w.frame, L - 1, v);
      AccessMarks(k, mem1, own, root, w.frame, L - 1, v, write);
      AccessAbove(k, mem1, own, root, w.frame, L - 1, v, write, f, i);
      StopAt(k, mem, own, root, w.frame, L - 1, 0, v);
      var h := Stop(k, mem, w.frame, L - 1, 0, v);
      assert h.table != f;
    } else {
      MarkRead(mem, f, i, if write then Marks(k) else {AccessedBit(k)}, f, i);
      MarkWord(k, w, if write then Marks(k) else {AccessedBit(k)}, L);
      MarkBits(w, if write then Marks(k) else {AccessedBit(k)});
    }
  }

  lemma MarkBits(w: Word, marks: set<nat>)
    ensures Mark(w, marks).bits == w.bits + marks
  {
  }

  lemma MarkPresent(k: Kind, mem: Mem, f0: nat, i0: nat, marks: set<nat>, f: nat, L: nat, u: nat)
    requires i0 < 512 && marks <= Marks(k)
    ensures Present(k, Stop(k, Marked(mem, f0, i0, marks), f, L, 0, u).word)
            == Present(k, Stop(k, mem, f, L, 0, u).word)
  {
    hide Stop, Up, Mark, Marks;
    MarkStop(k, mem, f0, i0, marks, f, L, 0, u);
    MarkWord(k, Stop(k, mem, f, L, 0, u).word, marks, 0);
  }

  /** An access below `f` leaves the entries of higher tables alone. */
  lemma {:induction false} AccessAbove(k: Kind, mem: Mem, own: Own, root: nat, f: nat, L: nat, v: nat, write: bool,
                                       f0: nat, i0: nat)
    requires Tree(k, mem, own) && At(own, f, root, L, 0, v) && f0 in own && own[f0].level > L
    ensures Rd(AfterAccess(k, mem, f, L, v, write), f0, i0) == Rd(mem, f0, i0)
    decreases L
  {
    hide Tree, Up;
    var i := Up(v, L) % 512;
    var w := Rd(mem, f, i);
    if IsLink(k, w, L) {
      ChildAt(k, mem, own, root, f, L, 0, v);
      MarkTree(k, mem, own, f, i, {AccessedBit(k)});
      AccessAbove(k, Marked(mem, f, i, {AccessedBit(k)}), own, root, w.frame, L - 1, v, write, f0, i0);
    }
  }
}
