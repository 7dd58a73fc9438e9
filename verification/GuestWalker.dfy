/** The routines of libdune/vm.c in their own form: a recursive walk whose loop
    reads and writes the entries of a table in place. */
module GuestWalker {
  import opened Radix
  import opened PagePool
  import opened Callbacks
  import opened GuestVm
  import opened WalkRanges
  import opened Addresses

  /** A routine's return value, or the end of the process. */
  datatype Ret = Code(err: int) | Died

  const OK := Code(0)

  /** `r` and the state `s` are what the specification's outcome `o` says. */
  predicate Meets(r: Ret, s: Vm, o: Outcome) {
    match o
    case Done(s1) => r == OK && s == s1
    case Fail(s1, err) => r == Code(err) && s == s1
    case Crash => r.Died?
  }

  class AddressSpace {
    /** Physical memory, as far as it is read as page tables (PA == VA). */
    var mem: Mem
    const pool: PageAllocator
    /** The bytes of the frames that are no tables. */
    var data: Data
    var walk: nat
    /** Where each table sits, and the slots handed to callbacks so far. */
    ghost var own: Own
    ghost var log: seq<Slot>

    ghost function State(): Vm
      reads this, pool
    {
      Vm(mem, own, pool.State(), log, data, walk)
    }

    constructor (p: PageAllocator)
      ensures pool == p && mem == map[] && own == map[] && log == [] && data == map[] && walk == 0
    {
      mem, pool, own, log, data, walk := map[], p, map[], [], map[], 0;
    }

    method Store(f: nat, i: nat, w: Word)
      requires i < ENTRIES
      modifies this`mem
      ensures mem == Wr(old(mem), f, i, w)
    {
      mem := Wr(mem, f, i, w);
    }

    /** alloc_page, memset, and the link to the new page. */
    method LinkTable(f: nat, i: nat) returns (c: Option<nat>)
      requires i < ENTRIES
      modifies this`mem, this`own, pool
      ensures c.Some? == NewTable(old(State()), f, i).Some?
      ensures c.Some? ==> State() == NewTable(old(State()), f, i).value.0
                          && c.value == NewTable(old(State()), f, i).value.1
      ensures c.None? ==> State() == old(State())
    {
      var pg := pool.AllocPage();
      if pg.None? {
        return None;
      }
      var page := FrameOf(pg.value);
      mem := mem[page := EMPTY_TABLE];
      Store(f, i, Word(page, LINK_BITS));
      own := LinkOwn(own, f, i, page);
      c := Some(page);
    }

    /** dune_vm_lookup: the slot is returned as its table and index. */
    method Lookup(root: nat, va: nat, create: bool) returns (r: Ret, table: nat, index: nat, ghost level: nat)
      modifies this`mem, this`own, pool
      ensures index < ENTRIES
      ensures match Locate(old(State()), root, TOP, 0, PageOfVa(va), create, true)
              case Found(s, t, l) => r == OK && State() == s && table == t && level == l
                && index == Up(PageOfVa(va), l) % ENTRIES
              case Absent(s, _) => r == Code(ENOENT) && State() == s
              case NoMem(_) => r == Died
    {
      hide Up, NewTable, PageOfVa;
      ghost var v := PageOfVa(va);
      PdxIsIndex(3, va);
      PdxIsIndex(2, va);
      PdxIsIndex(1, va);
      PdxIsIndex(0, va);
      var i, j, k, l := Pdx(3, va), Pdx(2, va), Pdx(1, va), Pdx(0, va);
      table, index, level := root, i, 3;
      var pdpt: nat;
      if PTE_P !in Rd(mem, root, i).bits {
        if !create {
          return Code(ENOENT), table, index, level;
        }
        var c := LinkTable(root, i);
        if c.None? {
          return Died, table, index, level;
        }
        pdpt := c.value;
      } else {
        pdpt := Rd(mem, root, i).frame;
      }
      ghost var s2 := State();
      assert Locate(old(State()), root, TOP, 0, v, create, true) == Locate(s2, pdpt, 2, 0, v, create, true);
      var pd: nat;
      if PTE_P !in Rd(mem, pdpt, j).bits {
        if !create {
          return Code(ENOENT), table, index, level;
        }
        var c := LinkTable(pdpt, j);
        if c.None? {
          return Died, table, index, level;
        }
        pd := c.value;
      } else if Big(Rd(mem, pdpt, j)) {
        return OK, pdpt, j, 2;
      } else {
        pd := Rd(mem, pdpt, j).frame;
      }
      ghost var s1 := State();
      assert Locate(s2, pdpt, 2, 0, v, create, true) == Locate(s1, pd, 1, 0, v, create, true);
      var pt: nat;
      if PTE_P !in Rd(mem, pd, k).bits {
        if !create {
          return Code(ENOENT), table, index, level;
        }
        var c := LinkTable(pd, k);
        if c.None? {
          return Died, table, index, level;
        }
        pt := c.value;
      } else if Big(Rd(mem, pd, k)) {
        return OK, pd, k, 1;
      } else {
        pt := Rd(mem, pd, k).frame;
      }
      return OK, pt, l, 0;
    }

    /** The callbacks: the helper functions of vm.c. */
    method Call(cb: Callback, f: nat, i: nat, va: nat) returns (r: Ret)
      requires i < ENTRIES
      modifies this`mem, this`own, this`data, this`walk, pool
      ensures log == old(log)
      ensures Meets(r, State(), CallBack(old(State()), cb, f, i, va))
    {
      hide Locate, PageOfVa, FrameOfPa;
      var w := Rd(mem, f, i);
      match cb {
        case Mprotect(perm) =>
          Store(f, i, Word(w.frame, perm + When(PTE_PS in w.bits, PTE_PS)));
        case MapPhys(perm, vaBase, paBase) =>
          Store(f, i, Word(FrameOfPa(va - vaBase + paBase), perm));
        case MapPages(perm) =>
          var pg := pool.AllocPage();
          if pg.None? {
            return Code(ENOMEM);
          }
          Store(f, i, Word(FrameOf(pg.value), perm));
        case Free =>
          if InPool(pool.State(), w.frame) {
            pool.PutPage(PageOf(pool.State(), w.frame));
          }
          Store(f, i, ZERO);
        case Clone(newRoot) =>
          var ret, t, j, _ := Lookup(newRoot, va, true);
          if ret != OK {
            return ret;
          }
          if InPool(pool.State(), w.frame) {
            pool.GetPage(PageOf(pool.State(), w.frame));
          }
          Store(t, j, Rd(mem, f, i));
        case Remap(copy) =>
          var frame := Nth(copy, walk, 0);
          walk := walk + PAGE_SIZE;
          Store(f, i, Word(frame, REMAP_BITS));
        case Recycle(copy, saved) =>
          var pa, orig := Nth(copy, walk, 0), Nth(saved, walk, []);
          walk := walk + PAGE_SIZE;
          if PTE_D in w.bits {
            data := data[pa := orig];
          }
          Store(f, i, Word(w.frame, w.bits - {PTE_D}));
        case RecycleStack(stack) =>
          var pa := Nth(stack, walk, 0);
          walk := walk + PAGE_SIZE;
          if PTE_D in w.bits {
            data := data[pa := ZeroPage()];
          }
          Store(f, i, w);
      }
      r := OK;
    }

    /** The call `cb(arg, pte, cur_va)` inside the walk: afterwards the rest of the
        range is what is left of the walk, unless the callback ended it. */
    method CallSlot(dir: nat, i: nat, va: nat, cb: Callback,
                    ghost root: nat, ghost level: nat, ghost job: Job, ghost u: nat, ghost last: nat) returns (r: Ret)
      requires RangeFits(State(), root, dir, level, job, u, last) && u <= last && cb == job.cb
      requires var P := Up(u, level - Gran(job.create));
               && i == P % ENTRIES && va == SlotVa(job, level, P)
               && (level == 0 && job.create == CreateNone ==> Rd(mem, dir, i) != ZERO)
               && (level == Gran(job.create) || (level < TOP && Big(Rd(mem, dir, i))))
      modifies this, pool
      ensures var u1 := Next(u, level - Gran(job.create));
              if r == OK
              then RangeFits(State(), root, dir, level, job, u1, last)
                   && Flat(State(), dir, level, job, u1, last) == Flat(old(State()), dir, level, job, u, last)
              else Meets(r, State(), Flat(old(State()), dir, level, job, u, last))
    {
      hide Flat, RangeFits, Up, CallBack, Next;
      RangeFacts(State(), root, dir, level, job, u, last);
      ghost var slot := Slot(level, Up(u, level - Gran(job.create)));
      ghost var o := CallBack(State().(log := log + [slot]), cb, dir, i, va);
      RoundSlot(State(), root, dir, level, job, u, last, o);
      log := log + [slot];
      r := Call(cb, dir, i, va);
    }

    /** Linking a missing table inside the walk. */
    method EnterTable(dir: nat, i: nat,
                      ghost root: nat, ghost level: nat, ghost job: Job, ghost u: nat, ghost last: nat)
      returns (ok: bool)
      requires RangeFits(State(), root, dir, level, job, u, last) && u <= last
      requires Gran(job.create) < level && job.create != CreateNone && i == Up(u, level - Gran(job.create)) % ENTRIES
      requires var w := Rd(mem, dir, i); !Present(Guest, w) && !(level < TOP && Big(w))
      modifies this`mem, this`own, pool
      ensures if ok
              then RangeFits(State(), root, dir, level, job, u, last) && IsLink(Guest, Rd(mem, dir, i), level)
                   && Flat(State(), dir, level, job, u, last) == Flat(old(State()), dir, level, job, u, last)
              else Flat(old(State()), dir, level, job, u, last) == Fail(State(), ENOMEM)
    {
      hide Flat, RangeFits, Up, NewTable;
      ghost var s := State();
      var c := LinkTable(dir, i);
      ok := c.Some?;
      if ok {
        RangeCreated(s, root, dir, level, job, u, last);
      } else {
        RoundNoMem(s, dir, level, job, u, last);
      }
    }

    /** The recursive call of the walk, on the table that entry `i` links to. */
    method WalkEntry(dir: nat, i: nat, startVa: nat, endVa: nat, cb: Callback, level: nat, create: Create,
                     ghost root: nat, ghost job: Job, ghost u: nat, ghost ce: nat, ghost last: nat) returns (r: Ret)
      requires job == Job(create, cb, High(startVa)) && Gran(create) < level <= TOP
      requires u == Up(PageOfVa(startVa), Gran(create)) && ce == Up(PageOfVa(endVa), Gran(create)) && u <= ce <= last
      requires RangeFits(State(), root, dir, level, job, u, last)
      requires var P := Up(u, level - Gran(create));
               && i == P % ENTRIES && Up(ce, level - Gran(create)) == P
               && (ce == last || Up(ce + 1, level - Gran(create)) == P + 1)
      requires IsLink(Guest, Rd(mem, dir, i), level)
      modifies this, pool
      ensures if r == OK
              then RangeFits(State(), root, dir, level, job, ce + 1, last)
                   && Flat(State(), dir, level, job, ce + 1, last) == Flat(old(State()), dir, level, job, u, last)
              else Meets(r, State(), Flat(old(State()), dir, level, job, u, last))
      decreases level, 0
    {
      hide Flat, RangeFits, Up, PageOfVa, High;
      RoundLink(State(), root, dir, level, job, u, ce, last);
      r := PageWalk(Rd(mem, dir, i).frame, startVa, endVa, cb, level - 1, create, root, job, u, ce);
    }

    /** One round of the walk's loop: entry `i`, whose first address is `curVa`,
        whose part of the range has the addresses `startVa` to `endVa`. */
    method WalkRound(dir: nat, i: nat, curVa: nat, startVa: nat, endVa: nat, cb: Callback, level: nat, create: Create,
                     ghost root: nat, ghost job: Job, ghost u: nat, ghost ce: nat, ghost last: nat)
      returns (r: Ret, ghost u1: nat)
      requires job == Job(create, cb, job.high) && Gran(create) <= level <= TOP
      requires RoundFits(job, i, level, curVa, startVa, endVa, u, ce, last)
      requires RangeFits(State(), root, dir, level, job, u, last)
      modifies this, pool
      ensures u1 == Next(u, level - Gran(create)) || u1 == ce + 1
      ensures if r == OK
              then RangeFits(State(), root, dir, level, job, u1, last)
                   && Flat(State(), dir, level, job, u1, last) == Flat(old(State()), dir, level, job, u, last)
              else Meets(r, State(), Flat(old(State()), dir, level, job, u, last))
      decreases level, 1
    {
      hide Flat, RangeFits, Locate, NewTable, Up, Lo, Next, PageOfVa, High, CallBack, Skips, SlotVa;
      var w := Rd(mem, dir, i);
      u1 := Next(u, level - Gran(create));
      if level == 0 {
        if create == CreateNormal || w != ZERO {
          r := CallSlot(dir, i, curVa, cb, root, level, job, u, last);
          return;
        }
        RoundSkip(State(), root, dir, level, job, u, last);
        return OK, u1;
      }
      if level == 1 {
        if create == CreateBig || Big(w) {
          r := CallSlot(dir, i, curVa, cb, root, level, job, u, last);
          return;
        }
      }
      if level == 2 {
        if create == CreateBig1GB || Big(w) {
          r := CallSlot(dir, i, curVa, cb, root, level, job, u, last);
          return;
        }
      }
      if PTE_P !in w.bits {
        if create == CreateNone {
          RoundSkip(State(), root, dir, level, job, u, last);
          return OK, u1;
        }
        var linked := EnterTable(dir, i, root, level, job, u, last);
        if !linked {
          return Code(ENOMEM), u1;
        }
      }
      u1 := ce + 1;
      r := WalkEntry(dir, i, startVa, endVa, cb, level, create, root, job, u, ce, last);
    }

    /** __dune_vm_page_walk: what it does is `Flat`, the plain walk over the slots
        of the range in ascending order. */
    method PageWalk(dir: nat, startVa: nat, endVa: nat, cb: Callback, level: nat, create: Create,
                    ghost root: nat, ghost job: Job, ghost lo: nat, ghost hi: nat) returns (r: Ret)
      requires job == Job(create, cb, High(startVa)) && Gran(create) <= level <= TOP
      requires lo == Up(PageOfVa(startVa), Gran(create)) && hi == Up(PageOfVa(endVa), Gran(create)) && lo <= hi
      requires RangeFits(State(), root, dir, level, job, lo, hi)
      modifies this, pool
      ensures Meets(r, State(), Flat(old(State()), dir, level, job, lo, hi))
      decreases level, 2
    {
      hide Flat, RangeFits, Up, Lo, Next, Pdx, BaseVa, PageOfVa, High, EntryLast, Span, SlotVa, Meets, State, RoundFits;
      RangeFacts(State(), root, dir, level, job, lo, hi);
      ghost var g := Gran(create);
      ghost var n := level - g;
      ghost var T := Up(PageOfVa(startVa), level + 1);
      RangeIndices(startVa, endVa, level, g);
      var startIdx, endIdx := Pdx(level, startVa), Pdx(level, endVa);
      var baseVa := BaseVa(level, startVa);
      ghost var cur := lo;
      var i := startIdx;
      while i <= endIdx
        invariant startIdx <= i <= endIdx + 1
        invariant i <= endIdx ==> cur == if i == startIdx then lo else Lo(T * ENTRIES + i, n)
        invariant i > endIdx ==> cur > hi
        invariant RangeFits(State(), root, dir, level, job, cur, hi)
        invariant Flat(State(), dir, level, job, cur, hi) == Flat(old(State()), dir, level, job, lo, hi)
      {
        ghost var P := T * ENTRIES + i;
        ghost var ce := EntryLast(P, n, hi);
        CurVa(level, startVa, i);
        IndexOf(T, i);
        var curVa := baseVa + Span(level) * i;
        var nStartVa := if i == startIdx then startVa else curVa;
        var nEndVa := if i == endIdx then endVa else curVa + Span(level) - 1;
        RoundArgs(startVa, endVa, level, job, lo, hi, i, P, cur, curVa, nStartVa, nEndVa);
        var ret, cur1 := WalkRound(dir, i, curVa, nStartVa, nEndVa, cb, level, create, root, job, cur, ce, hi);
        if ret != OK {
          return ret;
        }
        cur := cur1;
        i := i + 1;
      }
      FlatEmpty(State(), dir, level, job, cur, hi);
      MeetsDone(State());
      r := OK;
    }
  }

  /** Entry `i` of a level-`level` table, whose first address is `curVa`: the addresses
      from `startVa` to `endVa` are its share, the units `u` to `ce`, of the range. */
  ghost predicate RoundFits(job: Job, i: nat, level: nat, curVa: nat, startVa: nat, endVa: nat, u: nat, ce: nat,
                            last: nat)
    requires Gran(job.create) <= level
  {
    var g := Gran(job.create);
    var P := Up(u, level - g);
    && High(startVa) == job.high && u == Up(PageOfVa(startVa), g) && ce == Up(PageOfVa(endVa), g) && u <= ce <= last
    && i == P % ENTRIES && curVa == SlotVa(job, level, P)
    && Up(ce, level - g) == P && (ce == last || Up(ce + 1, level - g) == P + 1)
  }

  lemma IndexOf(T: nat, i: nat)
    requires i < ENTRIES
    ensures (T * ENTRIES + i) % ENTRIES == i
  {
  }

  /** The arguments of the round for the entry with prefix `P` are those of the entry's
      share of the range, and the next round begins where it ends. */
  lemma RoundArgs(startVa: nat, endVa: nat, level: nat, job: Job, lo: nat, hi: nat, i: nat, P: nat, cur: nat,
                  curVa: nat, start: nat, end: nat)
    requires i == P % ENTRIES && job.high == High(startVa) && Gran(job.create) <= level <= TOP
    requires lo == Up(PageOfVa(startVa), Gran(job.create)) && hi == Up(PageOfVa(endVa), Gran(job.create)) && lo <= hi
    requires Up(hi, 4 - Gran(job.create)) == 0
    requires Up(lo, level - Gran(job.create)) <= P <= Up(hi, level - Gran(job.create))
    requires cur == if P == Up(lo, level - Gran(job.create)) then lo else Lo(P, level - Gran(job.create))
    requires curVa == High(startVa) + Lo(P, level) * 0x1000
    requires start == if P == Up(lo, level - Gran(job.create)) then startVa else curVa
    requires end == if P == Up(hi, level - Gran(job.create)) then endVa else curVa + Span(level) - 1
    ensures var n := level - Gran(job.create); var ce := EntryLast(P, n, hi);
            && RoundFits(job, i, level, curVa, start, end, cur, ce, hi)
            && (P < Up(hi, n) ==> Next(cur, n) == Lo(P + 1, n) == ce + 1)
            && (P == Up(hi, n) ==> Next(cur, n) > hi && ce == hi)
  {
    hide Up, Lo, Next, PageOfVa, High, EntryLast, Span, SlotVa;
    var g := Gran(job.create);
    PositionEnd(level, g, hi, P);
    PositionStart(level - g, lo, hi, P, cur);
    SlotVaIs(job, level, P);
    EntryRange(startVa, level, g, P);
  }

  lemma MeetsDone(s: Vm)
    ensures Meets(OK, s, Done(s))
  {
  }

  lemma SlotVaIs(job: Job, l: nat, p: nat)
    ensures SlotVa(job, l, p) == job.high + Lo(p, l) * 0x1000
  {
  }

  lemma RangeFacts(s: Vm, root: nat, f: nat, L: nat, job: Job, u: nat, last: nat)
    requires RangeFits(s, root, f, L, job, u, last)
    ensures Gran(job.create) <= L <= TOP && Up(last, 4 - Gran(job.create)) == 0
    ensures u <= last ==> Up(u, L - Gran(job.create) + 1) == Up(last, L - Gran(job.create) + 1)
  {
  }

  lemma FlatEmpty(s: Vm, f: nat, L: nat, job: Job, u: nat, last: nat)
    requires Gran(job.create) <= L && u > last
    ensures Flat(s, f, L, job, u, last) == Done(s)
  {
  }

  /** Where the share of the entry with prefix `P` ends. */
  lemma PositionEnd(level: nat, g: nat, hi: nat, P: nat)
    requires g <= level <= TOP && Up(hi, 4 - g) == 0 && P <= Up(hi, level - g)
    ensures var n := level - g; var ce := EntryLast(P, n, hi);
            && ce <= hi && Up(ce, n) == P && (ce == hi || Up(ce + 1, n) == P + 1)
            && (ce < hi ==> ce + 1 == Lo(P + 1, n)) && (ce < hi <==> P < Up(hi, n)) && Up(P, 4 - level) == 0
  {
    hide Up, Lo;
    var n := level - g;
    EntryEnd(P, n, hi);
    UpLo(P + 1, hi, n);
    UpAdd(hi, n, 4 - level);
    UpMonotone(P, Up(hi, n), 4 - level);
    UpAdd(P, 0, 4 - level);
  }

  /** Where the loop stands when it looks at that entry. */
  lemma PositionStart(n: nat, lo: nat, hi: nat, P: nat, cur: nat)
    requires lo <= hi && Up(lo, n) <= P <= Up(hi, n) && cur == if P == Up(lo, n) then lo else Lo(P, n)
    ensures Up(cur, n) == P && cur <= EntryLast(P, n, hi) && Next(cur, n) == Lo(P + 1, n)
    ensures P == Up(hi, n) ==> Next(cur, n) > hi
  {
    hide Up, Lo;
    UpLo(P, cur, n);
    UpLo(P + 1, cur, n);
    LoStrict(P, n);
    UpLo(P, hi, n);
    UpLo(P + 1, hi, n);
  }
}
