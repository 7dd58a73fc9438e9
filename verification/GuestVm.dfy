/** What the routines of libdune/vm.c do, as functions on values.

    The walk is specified by `Flat`: one slot after the other in ascending
    order, each found by its own descent from the top. The recursive walk of the
    source is proved to do the same in module GuestWalker. */
module GuestVm {
  import opened Radix
  import opened PagePool
  import opened Callbacks

  // Bits of a permission argument (libdune/dune.h). PERM_USR3 is 0x3000, the
  // union of PERM_USR1 (0x1000) and PERM_USR2 (0x2000).
  const PERM_R := 0
  const PERM_W := 1
  const PERM_X := 2
  const PERM_U := 3
  const PERM_UC := 4
  const PERM_COW := 5
  const PERM_BIG := 8
  const PERM_BIG_1GB := 9
  const PERM_USR1 := 12
  const PERM_USR2 := 13

  const ENOENT := -2
  const ENOMEM := -12
  const EINVAL := -22

  const TWO64 := 0x1_0000_0000_0000_0000
  const TWO48 := 0x1_0000_0000_0000

  function When(c: bool, bit: nat): set<nat> {
    if c then {bit} else {}
  }

  /** get_pte_perm. */
  function GetPtePerm(perm: set<nat>): set<nat> {
    When(PERM_R in perm, PTE_P) + When(PERM_W in perm, PTE_W) + When(PERM_X !in perm, PTE_NX)
    + When(PERM_U in perm, PTE_U) + When(PERM_UC in perm, PTE_PCD) + When(PERM_COW in perm, PTE_COW)
    + When(PERM_USR1 in perm, PTE_USR1) + When(PERM_USR2 in perm, PTE_USR2)
    + When(PERM_USR1 in perm || PERM_USR2 in perm, PTE_USR3)
    + When(PERM_BIG in perm || PERM_BIG_1GB in perm, PTE_PS)
  }

  datatype Create = CreateNone | CreateNormal | CreateBig | CreateBig1GB

  /** The level of the slots that a walk with this argument hands to its callback. */
  function Gran(create: Create): nat {
    match create
    case CreateBig => 1
    case CreateBig1GB => 2
    case _ => 0
  }

  /** A slot is named by its level and by the number that the prefix of its
      addresses has at that level. */
  datatype Slot = Slot(level: nat, prefix: nat)

  /** `log` lists the slots handed to callbacks, oldest first; `data` is the memory
      behind the frames that are no tables; `walk` is st_walk of sthread.c. */
  datatype Vm = Vm(mem: Mem, own: Own, pool: Pool, log: seq<Slot>, data: Data, walk: nat)

  datatype Outcome = Done(s: Vm) | Fail(s: Vm, err: int) | Crash

  // ----- one slot -----

  /** Allocate a page, clear it, and link it as a table. */
  function NewTable(s: Vm, f: nat, i: nat): Option<(Vm, nat)>
    requires i < ENTRIES
  {
    match Alloc(s.pool)
    case None => None
    case Some((pool, k)) =>
      var c := FrameOf(k);
      Some((s.(mem := LinkMem(s.mem, f, i, c), own := LinkOwn(s.own, f, i, c), pool := pool), c))
  }

  datatype Place = Found(s: Vm, table: nat, level: nat) | Absent(s: Vm, level: nat) | NoMem(s: Vm)

  /** Descend from the level-`L` table `f` to the slot of unit `u`, creating
      missing tables on the way if `create`. The walker stops on any entry with
      PS set; dune_vm_lookup (`strict`) only on a present one. */
  function Locate(s: Vm, f: nat, L: nat, g: nat, u: nat, create: bool, strict: bool): (r: Place)
    requires g <= L
    ensures r.Found? || r.Absent? ==> g <= r.level <= L
    ensures create ==> !r.Absent?
    decreases L
  {
    var i := Up(u, L - g) % ENTRIES;
    var w := Rd(s.mem, f, i);
    if L == g then Found(s, f, L)
    else if L < TOP && Big(w) && (PTE_P in w.bits || !strict) then Found(s, f, L)
    else if PTE_P in w.bits then Locate(s, w.frame, L - 1, g, u, create, strict)
    else if !create then Absent(s, L)
    else match NewTable(s, f, i)
      case None => NoMem(s)
      case Some((s1, c)) => Locate(s1, c, L - 1, g, u, create, strict)
  }

  /** The page number of an address, as far as the page table looks at it. */
  function PageOfVa(va: nat): nat {
    va % TWO48 / 0x1000
  }

  /** The frame number that PTE_ADDR leaves of a 64-bit address. */
  function FrameOfPa(pa: int): nat {
    pa % TWO64 % 0x10_0000_0000_0000 / 0x1000
  }

  /** The entry that a callback other than `Clone` stores over `w`, and the pool
      afterwards; none when the pool has no page to give. `va` is the first
      address of the slot. */
  function Rewrite(s: Vm, cb: Callback, w: Word, va: nat): Option<(Pool, Word)>
    requires !cb.Clone?
  {
    var pool := s.pool;
    match cb
    case Mprotect(perm) => Some((pool, Word(w.frame, perm + When(PTE_PS in w.bits, PTE_PS))))
    case MapPhys(perm, vaBase, paBase) => Some((pool, Word(FrameOfPa(va - vaBase + paBase), perm)))
    case MapPages(perm) =>
      (match Alloc(pool)
       case None => None
       case Some((q, k)) => Some((q, Word(FrameOf(k), perm))))
    case Free =>
      Some((if InPool(pool, w.frame) then Put(pool, PageOf(pool, w.frame)) else pool, ZERO))
    case Remap(copy) => Some((pool, Word(Nth(copy, s.walk, 0), REMAP_BITS)))
    case Recycle(_, _) => Some((pool, Word(w.frame, w.bits - {PTE_D})))
    case RecycleStack(_) => Some((pool, w))
  }

  /** The callbacks, called on slot `i` of table `f`. */
  function CallBack(s: Vm, cb: Callback, f: nat, i: nat, va: nat): (o: Outcome)
    requires i < ENTRIES
    ensures o.Fail? ==> o.err == ENOMEM
  {
    var w := Rd(s.mem, f, i);
    if cb.Clone? then
      match Locate(s, cb.newRoot, TOP, 0, PageOfVa(va), true, true)
      case Found(s1, t, l) =>
        var pool := if InPool(s1.pool, w.frame) then Get(s1.pool, PageOf(s1.pool, w.frame)) else s1.pool;
        Done(s1.(pool := pool, mem := Wr(s1.mem, t, Up(PageOfVa(va), l) % ENTRIES, Rd(s1.mem, f, i))))
      case _ => Crash
    else
      match Rewrite(s, cb, w, va)
      case None => Fail(s, ENOMEM)
      case Some((pool, w1)) =>
        Done(s.(pool := pool, mem := Wr(s.mem, f, i, w1),
                data := DataAfter(cb, w, s.data, s.walk), walk := WalkAfter(cb, s.walk)))
  }

  // ----- the walk -----

  /** A walk's create argument, its callback, and the bits of its start address
      above bit 47, which every address handed to the callback carries. */
  datatype Job = Job(create: Create, cb: Callback, high: nat)

  datatype Step = Went(s: Vm, level: nat) | Stopped(o: Outcome)

  /** Go to the slot of unit `u` and hand it to the callback, if there is one. */
  function Visit(s: Vm, f: nat, L: nat, job: Job, u: nat): (r: Step)
    requires Gran(job.create) <= L
    ensures r.Went? ==> Gran(job.create) <= r.level <= L
    ensures r.Stopped? ==> !r.o.Done? && (r.o.Fail? ==> r.o.err == ENOMEM)
  {
    var g := Gran(job.create);
    match Locate(s, f, L, g, u, job.create != CreateNone, false)
    case NoMem(s1) => Stopped(Fail(s1, ENOMEM))
    case Absent(s1, l) => Went(s1, l)
    case Found(s1, t, l) => Touch(s1, t, l, job, Up(u, l - g))
  }

  predicate Skips(s: Vm, t: nat, l: nat, job: Job, p: nat) {
    l == 0 && job.create == CreateNone && Rd(s.mem, t, p % ENTRIES) == ZERO
  }

  /** The first address of a slot. */
  function SlotVa(job: Job, l: nat, p: nat): nat {
    job.high + Lo(p, l) * 0x1000
  }

  /** Hand the slot with prefix `p` in the level-`l` table `t` to the callback;
      an empty level-0 slot only if the walk creates. */
  function Touch(s: Vm, t: nat, l: nat, job: Job, p: nat): (r: Step)
    ensures r.Went? ==> r.level == l
    ensures r.Stopped? ==> !r.o.Done? && (r.o.Fail? ==> r.o.err == ENOMEM)
  {
    if Skips(s, t, l, job, p) then Went(s, l)
    else
      match CallBack(s.(log := s.log + [Slot(l, p)]), job.cb, t, p % ENTRIES, SlotVa(job, l, p))
      case Done(s1) => Went(s1, l)
      case o => Stopped(o)
  }

  /** Visit the slots of the units `u` to `last`, each slot once. */
  function Flat(s: Vm, f: nat, L: nat, job: Job, u: nat, last: nat): (o: Outcome)
    requires Gran(job.create) <= L
    ensures o.Fail? ==> o.err == ENOMEM
    decreases last + 1 - u
  {
    if u > last then Done(s)
    else match Visit(s, f, L, job, u)
      case Stopped(o) => o
      case Went(s1, l) => Flat(s1, f, L, job, Next(u, l - Gran(job.create)), last)
  }
}
