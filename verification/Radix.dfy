/** The 64-bit entries and four-level 512-way tables that the guest page table
    (libdune/vm.c) and the extended page table (kern/ept.c) have in common, and
    the theory of walking them.

    Memory is a flat heap of tables: nothing in the representation prevents two
    entries from naming one table. That they do not is the invariant `Tree`,
    which ties every link to an annotation saying where the linked table sits. */
module Radix {

  datatype Option<+T> = None | Some(value: T)

  /** Guest entries follow the Intel paging format, EPT entries the EPT format. */
  datatype Kind = Guest | Ept

  /** A 64-bit entry: the 40-bit frame number in bits 12..51, and the set of the
      other bits (0..11 and 52..63) that are 1. The all-zero word is `ZERO`. */
  datatype Word = Word(frame: nat, bits: set<nat>)

  const ZERO := Word(0, {})

  /** What a link to a lower table carries: P|W|U in a guest entry, R|W|X in an
      EPT entry; both are bits 0, 1 and 2. */
  const LINK_BITS := {0, 1, 2}

  /** The accessed bit, which the processor may set in a link that it follows: bit 5
      of a guest entry, bit 8 of an EPT entry. */
  const LINK_MARKS := {5, 8}

  predicate LinkBits(bits: set<nat>) {
    LINK_BITS <= bits <= LINK_BITS + LINK_MARKS
  }

  /** `w` is a link to table `c`, marked or not. */
  predicate Links(w: Word, c: nat) {
    w.frame == c && LinkBits(w.bits)
  }

  /** Bit 7 is PS in a guest entry and SZ in an EPT entry. */
  const BIG_BIT := 7

  const PAGE_SIZE := 0x1000
  const ENTRIES := 512
  const TOP := 3

  function EmptyEntries(): (t: seq<Word>)
    ensures |t| == ENTRIES && forall i :: 0 <= i < ENTRIES ==> t[i] == ZERO
  {
    seq(ENTRIES, i => ZERO)
  }

  type Table = t: seq<Word> | |t| == ENTRIES witness EmptyEntries()
  type Mem = map<nat, Table>

  const EMPTY_TABLE: Table := EmptyEntries()

  function Rd(mem: Mem, f: nat, i: nat): Word {
    if f in mem && i < 512 then mem[f][i] else ZERO
  }

  function Wr(mem: Mem, f: nat, i: nat, w: Word): Mem
    requires i < 512
  {
    mem[f := (if f in mem then mem[f] else EMPTY_TABLE)[i := w]]
  }

  predicate Present(k: Kind, w: Word) {
    match k
    case Guest => 0 in w.bits
    case Ept => 0 in w.bits || 1 in w.bits || 2 in w.bits
  }

  predicate Big(w: Word) {
    BIG_BIT in w.bits
  }

  /** An entry of a level-`level` table through which a walk goes on. */
  predicate IsLink(k: Kind, w: Word, level: nat) {
    level > 0 && Present(k, w) && !(level < TOP && Big(w))
  }

  function One(c: bool): nat {
    if c then 1 else 0
  }

  lemma CardMinus<T>(s: set<T>, x: T)
    ensures |s - {x}| == |s| - if x in s then 1 else 0
  {
    if x !in s {
      assert s - {x} == s;
    }
  }

  // ----- index arithmetic -----

  /** The prefix of `u` that is left when the lowest `n` indices are dropped. */
  function Up(u: nat, n: nat): nat {
    if n == 0 then u else Up(u, n - 1) / 512
  }

  /** The least number whose prefix, `n` indices shorter, is `p`. */
  function Lo(p: nat, n: nat): nat
    decreases n
  {
    if n == 0 then p else Lo(p * 512, n - 1)
  }

  lemma LoZero(u: nat)
    ensures Lo(u, 0) == u
  {
  }

  /** `Lo` and `Up` are adjoint: the numbers with prefix `p` are the interval
      from `Lo(p, n)` up to `Lo(p + 1, n)`. */
  lemma {:induction false} UpLo(p: nat, u: nat, n: nat)
    ensures p <= Up(u, n) <==> Lo(p, n) <= u
    decreases n
  {
    if n > 0 {
      UpLo(p * 512, u, n - 1);
    }
  }

  lemma {:induction false} UpAdd(u: nat, m: nat, n: nat)
    ensures Up(Up(u, m), n) == Up(u, m + n)
  {
    if n > 0 {
      UpAdd(u, m, n - 1);
    }
  }

  lemma {:induction false} UpMonotone(u: nat, v: nat, n: nat)
    requires u <= v
    ensures Up(u, n) <= Up(v, n)
  {
    if n > 0 {
      UpMonotone(u, v, n - 1);
    }
  }

  /** The first number after every number that shares `u`'s prefix. */
  function Next(u: nat, n: nat): (r: nat)
    ensures u < r
    ensures n == 0 ==> r == u + 1
  {
    UpLo(Up(u, n) + 1, u, n);
    Lo(Up(u, n) + 1, n)
  }

  lemma NextPrefix(u: nat, v: nat, n: nat)
    ensures u <= v < Next(u, n) ==> Up(v, n) == Up(u, n)
    ensures v >= u && Up(v, n) == Up(u, n) ==> v < Next(u, n)
    ensures Up(Next(u, n), n) == Up(u, n) + 1
  {
    hide Up, Lo;
    var p := Up(u, n) + 1;
    UpLo(p, v, n);
    if u <= v {
      UpMonotone(u, v, n);
    }
    UpLo(p, Next(u, n), n);
    UpLo(p + 1, Next(u, n), n);
    LoStrict(p, n);
  }

  lemma {:induction false} LoStrict(p: nat, n: nat)
    ensures Lo(p, n) < Lo(p + 1, n)
    decreases n
  {
    if n > 0 {
      LoMonotone(p * 512 + 1, (p + 1) * 512, n - 1);
      LoStrict(p * 512, n - 1);
    }
  }

  lemma {:induction false} LoMonotone(p: nat, q: nat, n: nat)
    requires p <= q
    ensures Lo(p, n) <= Lo(q, n)
    decreases n
  {
    if n > 0 {
      LoMonotone(p * 512, q * 512, n - 1);
    }
  }

  // ----- walking -----

  /** Where a walk stops: in which table, at which level, on which word. */
  datatype Hit = Hit(table: nat, level: nat, word: Word)

  /** Walk down from the level-`L` table `f` towards the level-`g` entry of unit
      `u` (a unit is what one level-`g` entry covers) while entries are links. */
  function Stop(k: Kind, mem: Mem, f: nat, L: nat, g: nat, u: nat): (h: Hit)
    requires g <= L
    ensures g <= h.level <= L
    ensures h.word == Rd(mem, h.table, Up(u, h.level - g) % 512)
    ensures h.level > g ==> !IsLink(k, h.word, h.level)
    decreases L
  {
    var w := Rd(mem, f, Up(u, L - g) % 512);
    if L > g && IsLink(k, w, L) then Stop(k, mem, w.frame, L - 1, g, u) else Hit(f, L, w)
  }

  // ----- the tree invariant -----

  /** Where a table sits: under which root, at which level, for which prefix of
      the page number, and below which parent table. */
  datatype Node = Node(root: nat, level: nat, prefix: nat, parent: nat)

  type Own = map<nat, Node>

  predicate LinkOk(own: Own, f: nat, i: nat, w: Word)
    requires f in own && own[f].level > 0
  {
    && LinkBits(w.bits)
    && w.frame in own
    && own[w.frame] == Node(own[f].root, own[f].level - 1, own[f].prefix * 512 + i, f)
  }

  /** Every link leads to the one table annotated as its child. Since the
      annotation names the parent and the slot, no table has two links to it. */
  ghost predicate Tree(k: Kind, mem: Mem, own: Own) {
    && (forall f :: f in own ==> own[f].level <= TOP)
    && (forall f, i :: f in own && 0 <= i < 512 && IsLink(k, Rd(mem, f, i), own[f].level)
          ==> LinkOk(own, f, i, Rd(mem, f, i)))
  }

  /** Every table is annotated with a root that exists. */
  ghost predicate Rooted(own: Own) {
    forall f {:trigger own[f].root} :: f in own ==> own[f].root in own
  }

  predicate IsRoot(own: Own, r: nat) {
    r in own && own[r] == Node(r, TOP, 0, 0)
  }

  /** `f` is the level-`L` table on the way to unit `u` of root `root`. */
  predicate At(own: Own, f: nat, root: nat, L: nat, g: nat, u: nat)
    requires g <= L
  {
    f in own && own[f].root == root && own[f].level == L && own[f].prefix == Up(u, L - g + 1)
  }

  /** Slot `i` of table `f` is on the way to unit `u` of root `root`. */
  predicate Covers(own: Own, f: nat, i: nat, root: nat, g: nat, u: nat)
    requires f in own
  {
    && own[f].root == root
    && g <= own[f].level
    && Up(u, own[f].level - g) == own[f].prefix * 512 + i
  }

  lemma RootAt(own: Own, root: nat, g: nat, u: nat)
    requires IsRoot(own, root) && g <= TOP && Up(u, 4 - g) == 0
    ensures At(own, root, root, TOP, g, u)
  {
  }

  lemma StopStep(k: Kind, mem: Mem, f: nat, L: nat, g: nat, u: nat)
    requires g <= L
    ensures var w := Rd(mem, f, Up(u, L - g) % 512);
            Stop(k, mem, f, L, g, u)
              == if L > g && IsLink(k, w, L) then Stop(k, mem, w.frame, L - 1, g, u) else Hit(f, L, w)
  {
  }

  lemma ChildAt(k: Kind, mem: Mem, own: Own, root: nat, f: nat, L: nat, g: nat, u: nat)
    requires Tree(k, mem, own) && g < L && At(own, f, root, L, g, u)
    requires IsLink(k, Rd(mem, f, Up(u, L - g) % 512), L)
    ensures At(own, Rd(mem, f, Up(u, L - g) % 512).frame, root, L - 1, g, u)
  {
    assert LinkOk(own, f, Up(u, L - g) % 512, Rd(mem, f, Up(u, L - g) % 512));
  }

  /** A walk stays inside the tables annotated for its root and unit. */
  lemma {:induction false} StopAt(k: Kind, mem: Mem, own: Own, root: nat, f: nat, L: nat, g: nat, u: nat)
    requires Tree(k, mem, own) && g <= L && At(own, f, root, L, g, u)
    ensures var h := Stop(k, mem, f, L, g, u); At(own, h.table, root, h.level, g, u)
    decreases L
  {
    hide Stop, Tree, Up;
    var w := Rd(mem, f, Up(u, L - g) % 512);
    StopStep(k, mem, f, L, g, u);
    if L > g && IsLink(k, w, L) {
      ChildAt(k, mem, own, root, f, L, g, u);
      StopAt(k, mem, own, root, w.frame, L - 1, g, u);
    }
  }

  lemma CoversSlot(own: Own, f: nat, i: nat, root: nat, L: nat, g: nat, u: nat)
    requires g <= L && At(own, f, root, L, g, u)
    ensures Covers(own, f, i, root, g, u) <==> i == Up(u, L - g) % 512
  {
    assert Up(u, L - g + 1) == Up(u, L - g) / 512;
  }

  /** A write to a slot that is not on the way leaves the walk as it was. */
  lemma {:induction false} StopWrite(k: Kind, mem: Mem, own: Own, f0: nat, i0: nat, w0: Word,
                                     root: nat, f: nat, L: nat, g: nat, u: nat)
    requires Tree(k, mem, own) && g <= L && At(own, f, root, L, g, u)
    requires f0 in own && i0 < 512 && !Covers(own, f0, i0, root, g, u)
    ensures Stop(k, Wr(mem, f0, i0, w0), f, L, g, u) == Stop(k, mem, f, L, g, u)
    decreases L
  {
    hide Stop, Tree, Up, Covers;
    var i := Up(u, L - g) % 512;
    var w := Rd(mem, f, i);
    CoversSlot(own, f, i0, root, L, g, u);
    assert Rd(Wr(mem, f0, i0, w0), f, i) == w;
    StopStep(k, mem, f, L, g, u);
    StopStep(k, Wr(mem, f0, i0, w0), f, L, g, u);
    if L > g && IsLink(k, w, L) {
      ChildAt(k, mem, own, root, f, L, g, u);
      StopWrite(k, mem, own, f0, i0, w0, root, w.frame, L - 1, g, u);
    }
  }

  /** A write at or below the walk's target level, or anywhere in a slot that the
      walk does not pass as a link, does not move the place where it stops. */
  lemma {:induction false} StopPlace(k: Kind, mem: Mem, own: Own, f0: nat, i0: nat, w0: Word,
                                     root: nat, f: nat, L: nat, g: nat, u: nat)
    requires Tree(k, mem, own) && g <= L && At(own, f, root, L, g, u)
    requires f0 in own && i0 < 512
    requires own[f0].level <= g || (!IsLink(k, Rd(mem, f0, i0), own[f0].level) && !IsLink(k, w0, own[f0].level))
    ensures var h, h' := Stop(k, mem, f, L, g, u), Stop(k, Wr(mem, f0, i0, w0), f, L, g, u);
            h'.table == h.table && h'.level == h.level
    decreases L
  {
    hide Stop, Tree, Up;
    var i := Up(u, L - g) % 512;
    var w := Rd(mem, f, i);
    var mem' := Wr(mem, f0, i0, w0);
    assert Rd(mem', f, i) == if f == f0 && i == i0 then w0 else w;
    StopStep(k, mem, f, L, g, u);
    StopStep(k, mem', f, L, g, u);
    if L > g && IsLink(k, w, L) {
      ChildAt(k, mem, own, root, f, L, g, u);
      StopPlace(k, mem, own, f0, i0, w0, root, w.frame, L - 1, g, u);
    }
  }

  /** Writing a word that is not a link keeps the tree. */
  lemma TreeWrite(k: Kind, mem: Mem, own: Own, f: nat, i: nat, w: Word)
    requires Tree(k, mem, own) && f in own && i < 512
    requires !IsLink(k, w, own[f].level)
    ensures Tree(k, Wr(mem, f, i, w), own)
  {
    forall f', i' | f' in own && 0 <= i' < 512 && IsLink(k, Rd(Wr(mem, f, i, w), f', i'), own[f'].level)
      ensures LinkOk(own, f', i', Rd(Wr(mem, f, i, w), f', i'))
    {
      assert Rd(mem, f', i') == Rd(Wr(mem, f, i, w), f', i');
    }
  }

  // ----- linking a new, empty table -----

  function LinkMem(mem: Mem, f: nat, i: nat, c: nat): Mem
    requires i < 512
  {
    Wr(mem[c := EMPTY_TABLE], f, i, Word(c, LINK_BITS))
  }

  function LinkOwn(own: Own, f: nat, i: nat, c: nat): Own {
    if f in own && own[f].level > 0
    then own[c := Node(own[f].root, own[f].level - 1, own[f].prefix * 512 + i, f)]
    else own
  }

  lemma LinkRead(mem: Mem, f: nat, i: nat, c: nat, f': nat, i': nat)
    requires f != c && i < 512
    ensures Rd(LinkMem(mem, f, i, c), f', i')
              == if f' == f && i' == i then Word(c, LINK_BITS)
                 else if f' == c then ZERO else Rd(mem, f', i')
  {
  }

  lemma LinkTree(k: Kind, mem: Mem, own: Own, f: nat, i: nat, c: nat)
    requires Tree(k, mem, own) && f in own && own[f].level > 0 && i < 512 && c !in own
    ensures Tree(k, LinkMem(mem, f, i, c), LinkOwn(own, f, i, c))
  {
    var mem', own' := LinkMem(mem, f, i, c), LinkOwn(own, f, i, c);
    forall f', i' | f' in own' && 0 <= i' < 512 && IsLink(k, Rd(mem', f', i'), own'[f'].level)
      ensures LinkOk(own', f', i', Rd(mem', f', i'))
    {
      LinkRead(mem, f, i, c, f', i');
    }
  }

  /** After linking a new table in an entry that was not present, a walk that
      came by that entry stops on an empty entry of the new table, and every
      other walk stops where it did. */
  lemma {:induction false} StopLink(k: Kind, mem: Mem, own: Own, f0: nat, i0: nat, c: nat,
                                    root: nat, f: nat, L: nat, g: nat, u: nat)
    requires Tree(k, mem, own) && g <= L && At(own, f, root, L, g, u)
    requires f0 in own && g < own[f0].level && i0 < 512 && c !in own
    requires !Present(k, Rd(mem, f0, i0))
    ensures var h := Stop(k, mem, f, L, g, u);
            Stop(k, LinkMem(mem, f0, i0, c), f, L, g, u)
              == if h.table == f0 && Up(u, h.level - g) % 512 == i0
                 then Hit(c, own[f0].level - 1, ZERO) else h
    decreases L
  {
    hide Stop, Tree, Up, LinkMem;
    var i := Up(u, L - g) % 512;
    var w := Rd(mem, f, i);
    var mem' := LinkMem(mem, f0, i0, c);
    LinkRead(mem, f0, i0, c, f, i);
    StopStep(k, mem, f, L, g, u);
    StopStep(k, mem', f, L, g, u);
    if f == f0 && i == i0 {
      LinkRead(mem, f0, i0, c, c, Up(u, L - 1 - g) % 512);
      StopStep(k, mem', c, L - 1, g, u);
    } else if L > g && IsLink(k, w, L) {
      ChildAt(k, mem, own, root, f, L, g, u);
      StopLink(k, mem, own, f0, i0, c, root, w.frame, L - 1, g, u);
    }
  }

  // ----- what an address maps to -----

  /** The entry that decides about page `v` and its level: a level-0 entry or an
      entry marked big. A path that breaks off counts as an empty level-0 entry. */
  function Leaf(k: Kind, mem: Mem, root: nat, v: nat): (nat, Word) {
    var h := Stop(k, mem, root, TOP, 0, v);
    Norm(h.level, h.word)
  }

  function Norm(level: nat, w: Word): (nat, Word) {
    if level == 0 || (level < TOP && Big(w)) then (level, w) else (0, ZERO)
  }

  /** The entry that translates page `v`, with its level; a fault otherwise. */
  function Translate(k: Kind, mem: Mem, root: nat, v: nat): (r: Option<(nat, Word)>)
    ensures r == if Present(k, Leaf(k, mem, root, v).1) then Some(Leaf(k, mem, root, v)) else None
  {
    var h := Stop(k, mem, root, TOP, 0, v);
    if Present(k, h.word) then Some((h.level, h.word)) else None
  }

  /** Pages are the 36-bit page numbers of 48-bit addresses. */
  predicate IsPage(v: nat) {
    Up(v, 4) == 0
  }

  lemma PageRange(v: nat)
    ensures IsPage(v) <==> v < 0x10_0000_0000
  {
    assert Up(v, 0) == v && Up(v, 1) == v / 512 && Up(v, 2) == v / 512 / 512;
    assert Up(v, 4) == v / 512 / 512 / 512 / 512;
  }

  /** The walk to prefix `p` at level `l` gets as far as table `t`. */
  predicate Reach(k: Kind, mem: Mem, root: nat, t: nat, l: nat, p: nat) {
    l <= TOP && var h := Stop(k, mem, root, TOP, l, p); h.table == t && h.level == l
  }

  /** A fine walk follows the coarse one and goes on from where that one ends. */
  lemma {:induction false} StopVia(k: Kind, mem: Mem, f: nat, L: nat, l: nat, g: nat, u: nat)
    requires g <= l <= L
    ensures var h := Stop(k, mem, f, L, l, Up(u, l - g));
            Stop(k, mem, f, L, g, u) == if h.level == l then Stop(k, mem, h.table, l, g, u) else h
    decreases L
  {
    hide Stop, Up;
    UpAdd(u, l - g, L - l);
    var w := Rd(mem, f, Up(u, L - g) % 512);
    StopStep(k, mem, f, L, g, u);
    StopStep(k, mem, f, L, l, Up(u, l - g));
    if L > l && IsLink(k, w, L) {
      StopVia(k, mem, w.frame, L - 1, l, g, u);
    }
  }

  /** A coarser walk reaches every table that a finer one stops at. */
  lemma {:induction false} StopCoarse(k: Kind, mem: Mem, f: nat, L: nat, g: nat, u: nat, l: nat)
    requires g <= l <= L && Stop(k, mem, f, L, g, u).level == l
    ensures Stop(k, mem, f, L, l, Up(u, l - g)) == Stop(k, mem, f, L, g, u)
    decreases L
  {
    hide Stop, Up;
    UpAdd(u, l - g, L - l);
    var w := Rd(mem, f, Up(u, L - g) % 512);
    StopStep(k, mem, f, L, g, u);
    StopStep(k, mem, f, L, l, Up(u, l - g));
    if L > l {
      StopCoarse(k, mem, w.frame, L - 1, g, u, l);
    }
  }

  lemma ReachAt(k: Kind, mem: Mem, own: Own, root: nat, t: nat, l: nat, p: nat)
    requires Tree(k, mem, own) && IsRoot(own, root) && Reach(k, mem, root, t, l, p) && Up(p, 4 - l) == 0
    ensures At(own, t, root, l, l, p)
    ensures own[t].prefix == p / 512
  {
    RootAt(own, root, l, p);
    StopAt(k, mem, own, root, root, TOP, l, p);
    assert Up(p, 1) == Up(p, 0) / 512;
  }

  /** Writing an entry that is not a link decides the pages of that entry under
      its own root, and changes nothing for any other page or any other root. */
  lemma WriteLeaf(k: Kind, mem: Mem, own: Own, root: nat, t: nat, l: nat, p: nat, w: Word, r: nat, v: nat)
    requires Tree(k, mem, own) && IsRoot(own, root) && Reach(k, mem, root, t, l, p) && Up(p, 4 - l) == 0
    requires !IsLink(k, w, l)
    requires IsRoot(own, r) && IsPage(v)
    ensures Leaf(k, Wr(mem, t, p % 512, w), r, v)
              == if r == root && Up(v, l) == p then Norm(l, w) else Leaf(k, mem, r, v)
  {
    var mem' := Wr(mem, t, p % 512, w);
    ReachAt(k, mem, own, root, t, l, p);
    RootAt(own, r, 0, v);
    if r == root && Up(v, l) == p {
      RootAt(own, root, l, p);
      StopPlace(k, mem, own, t, p % 512, w, root, root, TOP, l, p);
      StopVia(k, mem', root, TOP, l, 0, v);
      assert Rd(mem', t, p % 512) == w;
      assert Stop(k, mem', t, l, 0, v) == Hit(t, l, w);
    } else {
      assert p == p / 512 * 512 + p % 512;
      StopWrite(k, mem, own, t, p % 512, w, r, r, TOP, 0, v);
    }
  }

  /** Linking an empty table where nothing was present changes no translation,
      and no deciding entry unless a big entry is overwritten. (At the top level
      the big bit means nothing.) */
  lemma LinkLeaf(k: Kind, mem: Mem, own: Own, f: nat, i: nat, c: nat, r: nat, v: nat)
    requires Tree(k, mem, own) && IsRoot(own, r) && IsPage(v)
    requires f in own && own[f].level > 0 && i < 512 && c !in own && !Present(k, Rd(mem, f, i))
    ensures Translate(k, LinkMem(mem, f, i, c), r, v) == Translate(k, mem, r, v)
    ensures !Big(Rd(mem, f, i)) || own[f].level == TOP ==> Leaf(k, LinkMem(mem, f, i, c), r, v) == Leaf(k, mem, r, v)
  {
    RootAt(own, r, 0, v);
    StopLink(k, mem, own, f, i, c, r, r, TOP, 0, v);
  }

  /** The walk of the hardware, which also combines the permissions it meets on
      the way: writable and user only if every entry is, executable unless some
      entry forbids it. */
  datatype Access = Access(level: nat, word: Word, writable: bool, user: bool, noExec: bool)

  function HardwareWalk(mem: Mem, f: nat, L: nat, v: nat, w: bool, u: bool, nx: bool): Option<Access>
    decreases L
  {
    var e := Rd(mem, f, Up(v, L) % 512);
    var w', u', nx' := w && 1 in e.bits, u && 2 in e.bits, nx || 63 in e.bits;
    if !Present(Guest, e) then None
    else if L == 0 || (L < TOP && Big(e)) then Some(Access(L, e, w', u', nx'))
    else HardwareWalk(mem, e.frame, L - 1, v, w', u', nx')
  }

  /** In a tree whose links carry P|W|U, the hardware grants exactly what the
      translating entry grants. */
  lemma {:induction false} HardwareAgrees(mem: Mem, own: Own, root: nat, f: nat, L: nat, v: nat)
    requires Tree(Guest, mem, own) && L <= TOP && At(own, f, root, L, 0, v)
    ensures var h := Stop(Guest, mem, f, L, 0, v);
            HardwareWalk(mem, f, L, v, true, true, false)
              == if Present(Guest, h.word)
                 then Some(Access(h.level, h.word, 1 in h.word.bits, 2 in h.word.bits, 63 in h.word.bits))
                 else None
    decreases L
  {
    var e := Rd(mem, f, Up(v, L) % 512);
    if IsLink(Guest, e, L) {
      assert LinkOk(own, f, Up(v, L) % 512, e);
      HardwareAgrees(mem, own, root, e.frame, L - 1, v);
    }
  }
}
