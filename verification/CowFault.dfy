/** The default page-fault handler of libdune/vm.c, which breaks copy-on-write. */
module CowFault {
  import opened Radix
  import opened PagePool
  import opened Callbacks
  import opened GuestVm

  // Bits of a page-fault error code (libdune/mmu-x86.h).
  const FEC_P := 0
  const FEC_W := 1
  const FEC_U := 2
  const FEC_RSV := 3

  /** The handler returns, or the process dies in it. */
  datatype Reaction = Handled(s: Vm) | Dies

  /** The 4 KB frame that a level-`l` entry gives to page `v`. */
  function FrameAt(l: nat, w: Word, v: nat): nat {
    w.frame + (if l == 0 then 0 else if l == 1 then v % 512 else v % 0x4_0000)
  }

  predicate Unshared(p: Pool, frame: nat) {
    InPool(p, frame) && RefOf(p, frame) == 1
  }

  /** The second half of the handler: what it does to a copy-on-write entry `w`
      in slot `i` of table `t`. */
  function BreakCow(s: Vm, t: nat, l: nat, i: nat, v: nat): Reaction
    requires i < ENTRIES
  {
    var w := Rd(s.mem, t, i);
    var perm := w.bits - {PTE_COW} + {PTE_W};
    if Unshared(s.pool, w.frame) then Handled(s.(mem := Wr(s.mem, t, i, Word(w.frame, perm))))
    else match Alloc(s.pool)
      case None => Dies
      case Some((q, k)) =>
        // The copy reads the page through the faulting address.
        if PTE_P !in w.bits then Dies
        else
          var q' := if InPool(q, w.frame) then Put(q, PageOf(q, w.frame)) else q;
          Handled(s.(pool := q', mem := Wr(s.mem, t, i, Word(FrameOf(k), perm)),
                     data := s.data[FrameOf(k) := Bytes(s.data, FrameAt(l, w, v))]))
  }

  /** dune_vm_default_pgflt_handler. `checked` says whether assertions are
      compiled in, as they are in the default build. */
  function HandleFault(s: Vm, root: nat, addr: nat, fec: set<nat>, checked: bool): Reaction {
    var v := PageOfVa(addr);
    if checked && (FEC_P in fec || FEC_RSV in fec) then Dies
    else match Locate(s, root, TOP, 0, v, false, true)
      case Found(_, t, l) =>
        var i := Up(v, l) % ENTRIES;
        if FEC_W in fec && PTE_COW in Rd(s.mem, t, i).bits then BreakCow(s, t, l, i, v) else Handled(s)
      case _ => Dies
  }

  /** The error code with which the processor reports a data access to page `v`;
      none if the access goes through. */
  function FaultCode(mem: Mem, root: nat, v: nat, write: bool, user: bool): Option<set<nat>> {
    match HardwareWalk(mem, root, TOP, v, true, true, false)
    case None => Some(When(write, 1) + When(user, 2))
    case Some(a) =>
      if (write ==> a.writable) && (user ==> a.user) then None
      else Some({0} + When(write, 1) + When(user, 2))
  }
}
