/** Entries of the guest page table (libdune/mmu-x86.h), and the callbacks that page
    walks are called with: those of libdune/vm.c and those of wedge/sthread.c. */
module Callbacks {
  import opened Radix

  // Bits of a guest entry (libdune/mmu-x86.h).
  const PTE_P := 0
  const PTE_W := 1
  const PTE_U := 2
  const PTE_PCD := 4
  const PTE_D := 6
  const PTE_PS := 7
  const PTE_COW := 9
  const PTE_USR3 := 60
  const PTE_USR2 := 61
  const PTE_USR1 := 62
  const PTE_NX := 63

  /** What a walk is asked to do with each slot. The first five are the callbacks of
      vm.c. The others are those of sthread.c, which know by a counter how many pages
      they have been called for: `copy` and `stack` are the frames behind an sthread's
      private memory and its stack, page by page, and `saved` is the checkpoint. */
  datatype Callback =
    | Mprotect(perm: set<nat>)
    | MapPhys(perm: set<nat>, vaBase: nat, paBase: nat)
    | MapPages(perm: set<nat>)
    | Free
    | Clone(newRoot: nat)
    | Remap(copy: seq<nat>)
    | Recycle(copy: seq<nat>, saved: seq<seq<nat>>)
    | RecycleStack(stack: seq<nat>)

  /** The bytes of each 4 KB frame. */
  type Data = map<nat, seq<nat>>

  function Bytes(data: Data, frame: nat): seq<nat> {
    if frame in data then data[frame] else []
  }

  // ----- the callbacks of sthread.c -----

  /** What an sthread maps its private copy with. */
  const REMAP_BITS := {PTE_P, PTE_W, PTE_U}

  function ZeroPage(): seq<nat> {
    seq(PAGE_SIZE, i => 0)
  }

  /** The element for the page that `walk` has reached. */
  function Nth<T>(s: seq<T>, walk: nat, none: T): T {
    if walk / PAGE_SIZE < |s| then s[walk / PAGE_SIZE] else none
  }

  /** The callbacks of sthread.c, and what they do besides the entry: they count on,
      and put the contents of dirty pages back. */
  predicate OfSthread(cb: Callback) {
    cb.Remap? || cb.Recycle? || cb.RecycleStack?
  }

  function WalkAfter(cb: Callback, walk: nat): nat {
    if OfSthread(cb) then walk + PAGE_SIZE else walk
  }

  function DataAfter(cb: Callback, w: Word, data: Data, walk: nat): Data {
    match cb
    case Recycle(copy, saved) => if PTE_D in w.bits then data[Nth(copy, walk, 0) := Nth(saved, walk, [])] else data
    case RecycleStack(stack) => if PTE_D in w.bits then data[Nth(stack, walk, 0) := ZeroPage()] else data
    case _ => data
  }
}
