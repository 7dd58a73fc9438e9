/** The two-ended memory arena of the sandbox (umm.c): the break grows up from its
    start, unhinted mappings and stacks are taken off its end. */
module Arena {
  const UMM_ADDR_START := 0x3_0000_0000
  const UMM_ADDR_END := 0x7_0000_0000
  const APP_STACK_SIZE := 0x80_0000
  const ARENA := UMM_ADDR_END - UMM_ADDR_START
  const PAGE := 0x1000
  const TWO64 := 0x1_0000_0000_0000_0000
  const ENOMEM := -12
  const EACCES := -13
  const EINVAL := -22

  /** What the host answers when it does not map. */
  const HOST_ERROR := -1

  /** Addresses below this are a process's own. */
  const USER_END := 0x8000_0000_0000

  /** PGADDR(len + PGSIZE - 1) on 64-bit numbers. */
  function PageUp(len: nat): (r: nat)
    ensures r % PAGE == 0
    ensures len + PAGE <= TWO64 ==> len <= r < len + PAGE
  {
    (len + PAGE - 1) % TWO64 / PAGE * PAGE
  }

  /** A reserved address range. */
  datatype Region = Region(start: nat, len: nat)

  predicate Apart(a: Region, b: Region) {
    a.start + a.len <= b.start || b.start + b.len <= a.start
  }

  class Arena {
    var brkLen: nat
    var mmapLen: nat
    /** What unhinted calls have been given, oldest first. */
    ghost var given: seq<Region>

    /** The break area, and what has been given, are page-aligned, inside the arena
        and pairwise disjoint. */
    ghost predicate Valid()
      reads this
    {
      && brkLen % PAGE == 0 && mmapLen % PAGE == 0 && brkLen + mmapLen <= ARENA
      && (forall i :: 0 <= i < |given| ==>
            && given[i].start % PAGE == 0 && given[i].len % PAGE == 0
            && UMM_ADDR_END - mmapLen <= given[i].start && given[i].start + given[i].len <= UMM_ADDR_END)
      && (forall i, j :: 0 <= i < j < |given| ==> Apart(given[i], given[j]))
      && (forall i :: 0 <= i < |given| ==> Apart(Region(UMM_ADDR_START, brkLen), given[i]))
    }

    constructor ()
      ensures Valid() && brkLen == 0 && mmapLen == 0 && given == []
    {
      brkLen, mmapLen, given := 0, 0, [];
    }

    /** umm_space_left, in 64-bit arithmetic. */
    function SpaceLeft(len: nat): bool
      reads this
    {
      (brkLen + mmapLen + len) % TWO64 < ARENA
    }

    function MapPos(): int
      reads this
    {
      UMM_ADDR_END - mmapLen
    }

    /** umm_brk. `hostOk` says whether the host maps or unmaps as asked, which it
        does only below `USER_END`. The call succeeds exactly if the old and the new
        break area and the mappings would fit side by side; so even shrinking the
        break can fail. */
    method Brk(brk: nat, hostOk: bool) returns (r: int)
      requires Valid() && brk < TWO64
      requires hostOk ==> brk <= USER_END
      modifies this`brkLen
      ensures Valid()
      ensures brk == 0 ==> r == 0x3_0000_0000 && brkLen == old(brkLen)
      ensures 0 < brk < UMM_ADDR_START ==> r == EINVAL && brkLen == old(brkLen)
      ensures brk >= UMM_ADDR_START ==>
                var len := PageUp(brk - UMM_ADDR_START);
                && (r == brk ==> brkLen == len && UMM_ADDR_START + brkLen >= brk && brkLen + mmapLen <= ARENA)
                && (r != brk ==> brkLen == old(brkLen))
                && (hostOk ==> (r == brk <==> old(brkLen) + mmapLen + len < ARENA))
                && (!hostOk ==> (r == brk <==> len == old(brkLen) && old(brkLen) + mmapLen + len < ARENA))
                && (ARENA <= old(brkLen) + mmapLen + len < TWO64 ==> r == ENOMEM)
      ensures r >= 0 ==> r == brk || (brk == 0 && r == UMM_ADDR_START)
    {
      if brk == 0 {
        return UMM_ADDR_START;
      }
      if brk < UMM_ADDR_START {
        return EINVAL;
      }
      var len := PageUp(brk - UMM_ADDR_START);
      if !SpaceLeft(len) {
        return ENOMEM;
      }
      if len == brkLen {
        return brk;
      }
      if !hostOk {
        return HOST_ERROR;
      }
      brkLen := len;
      r := brk;
    }

    /** Taking `len` bytes, a multiple of the page size, off the end. */
    ghost method Give(len: nat)
      requires Valid() && len % PAGE == 0 && brkLen + mmapLen + len <= ARENA
      modifies this`given
      ensures given == old(given) + [Region(UMM_ADDR_END - mmapLen - len, len)]
      ensures forall i :: 0 <= i < |given| ==>
                && given[i].start % PAGE == 0 && given[i].len % PAGE == 0
                && UMM_ADDR_END - mmapLen - len <= given[i].start && given[i].start + given[i].len <= UMM_ADDR_END
      ensures forall i, j :: 0 <= i < j < |given| ==> Apart(given[i], given[j])
      ensures forall i :: 0 <= i < |given| ==> Apart(Region(UMM_ADDR_START, brkLen), given[i])
    {
      AlignedBelow(mmapLen, len);
      given := given + [Region(UMM_ADDR_END - mmapLen - len, len)];
    }

    /** umm_mmap without a hint. The check uses the length as it is given, the
        reservation the length rounded up; since everything else is in whole pages,
        the reservation fits all the same. */
    method Mmap(len: nat, prepared: bool, hostOk: bool) returns (r: int)
      requires Valid() && len < TWO64
      requires hostOk ==> 0 < len <= USER_END
      modifies this`mmapLen, this`given
      ensures Valid()
      ensures r < 0 ==> mmapLen == old(mmapLen) && given == old(given)
      ensures r >= 0 ==>
                && r == UMM_ADDR_END - mmapLen && mmapLen == old(mmapLen) + PageUp(len) && PageUp(len) >= len
                && given == old(given) + [Region(r, PageUp(len))]
      ensures hostOk && prepared ==> (r >= 0 <==> brkLen + old(mmapLen) + len < ARENA)
      ensures !hostOk || !prepared ==> r < 0
      ensures ARENA <= brkLen + old(mmapLen) + len < TWO64 ==> r == ENOMEM
      ensures brkLen + old(mmapLen) + len < ARENA && !prepared ==> r == EINVAL
    {
      if !SpaceLeft(len) {
        return ENOMEM;
      }
      var addr := MapPos() - PageUp(len);
      if !prepared {
        // Neither anonymous nor a file.
        return EINVAL;
      }
      if !hostOk {
        return HOST_ERROR;
      }
      RoundedFits(brkLen, mmapLen, len);
      Give(PageUp(len));
      AlignedSum(mmapLen, PageUp(len));
      mmapLen := mmapLen + PageUp(len);
      r := addr;
    }

    /** umm_mremap without MREMAP_FIXED: `safe` says whether the old range is the
        application's, `mayMove` whether the flag is set. */
    method Mremap(newSize: nat, safe: bool, mayMove: bool, hostOk: bool) returns (r: int)
      requires Valid() && newSize < TWO64
      requires hostOk ==> 0 < newSize <= USER_END
      modifies this`mmapLen, this`given
      ensures Valid()
      ensures r < 0 ==> mmapLen == old(mmapLen) && given == old(given)
      ensures r >= 0 ==>
                && safe && mayMove && r == UMM_ADDR_END - mmapLen && mmapLen == old(mmapLen) + PageUp(newSize)
                && given == old(given) + [Region(r, PageUp(newSize))]
      ensures hostOk && safe && mayMove ==> (r >= 0 <==> brkLen + old(mmapLen) + newSize < ARENA)
      ensures !hostOk ==> r < 0
      ensures !safe ==> r == EACCES
      ensures safe && ARENA <= brkLen + old(mmapLen) + newSize < TWO64 ==> r == ENOMEM
      ensures safe && !mayMove && brkLen + old(mmapLen) + newSize < ARENA ==> r == EINVAL
    {
      if !safe {
        return EACCES;
      }
      if !SpaceLeft(newSize) {
        return ENOMEM;
      }
      var addr := MapPos() - PageUp(newSize);
      if !mayMove {
        return EINVAL;
      }
      if !hostOk {
        return HOST_ERROR;
      }
      RoundedFits(brkLen, mmapLen, newSize);
      Give(PageUp(newSize));
      AlignedSum(mmapLen, PageUp(newSize));
      mmapLen := mmapLen + PageUp(newSize);
      r := addr;
    }

    /** umm_alloc_stack: the whole of the stack's range is reserved, its lowest page
        left unmapped. */
    method AllocStack(hostOk: bool) returns (r: int, top: int)
      requires Valid()
      modifies this`mmapLen, this`given
      ensures Valid()
      ensures r != 0 ==> mmapLen == old(mmapLen) && given == old(given)
      ensures r == 0 ==>
                && top == UMM_ADDR_END - old(mmapLen) && mmapLen == old(mmapLen) + APP_STACK_SIZE
                && given == old(given) + [Region(top - 0x80_0000, 0x80_0000)]
      ensures r == 0 <==> hostOk && brkLen + old(mmapLen) + APP_STACK_SIZE < ARENA
      ensures brkLen + old(mmapLen) + APP_STACK_SIZE >= ARENA ==> r == ENOMEM
    {
      var base := MapPos();
      top := 0;
      if !SpaceLeft(APP_STACK_SIZE) {
        return ENOMEM, top;
      }
      if !hostOk {
        return HOST_ERROR, top;
      }
      StackAligned(mmapLen);
      Give(APP_STACK_SIZE);
      mmapLen := mmapLen + APP_STACK_SIZE + base % PAGE;
      return 0, base / PAGE * PAGE;
    }
  }

  lemma AlignedSum(a: nat, b: nat)
    requires a % PAGE == 0 && b % PAGE == 0
    ensures (a + b) % PAGE == 0
  {
  }

  lemma AlignedBelow(a: nat, b: nat)
    requires a % PAGE == 0 && b % PAGE == 0 && a + b <= ARENA
    ensures (UMM_ADDR_END - a - b) % PAGE == 0
  {
  }

  lemma StackAligned(a: nat)
    requires a % PAGE == 0 && a <= ARENA
    ensures (UMM_ADDR_END - a) % PAGE == 0 && (UMM_ADDR_END - a) / PAGE * PAGE == UMM_ADDR_END - a
    ensures APP_STACK_SIZE % PAGE == 0 && (a + APP_STACK_SIZE) % PAGE == 0
  {
  }

  /** A length that passes the check fits rounded up, too. */
  lemma RoundedFits(brkLen: nat, mmapLen: nat, len: nat)
    requires brkLen % PAGE == 0 && mmapLen % PAGE == 0 && brkLen + mmapLen + len < ARENA
    ensures brkLen + mmapLen + PageUp(len) <= ARENA
  {
    var a := (ARENA - brkLen - mmapLen) / PAGE;
    assert ARENA - brkLen - mmapLen == a * PAGE;
    assert PageUp(len) == (len + PAGE - 1) / PAGE * PAGE;
  }

  /** The check in 64-bit arithmetic lets through what fits, and also what is so
      large that the sum wraps round; that the host then refuses. */
  lemma CheckWraps(a: Arena, len: nat)
    requires a.Valid() && len < TWO64
    ensures a.SpaceLeft(len) <==> a.brkLen + a.mmapLen + len < ARENA || a.brkLen + a.mmapLen + len >= TWO64
  {
    var sum := a.brkLen + a.mmapLen + len;
    if sum >= TWO64 {
      assert sum % TWO64 == sum - TWO64;
    } else {
      assert sum % TWO64 == sum;
    }
  }

  /** Shrinking the break fails where the old and the new area do not both fit: with
      the break at three quarters of an arena that is otherwise empty, it cannot be
      brought back to half. */
  method ShrinkFails(grow: nat, to: nat) returns (a: Arena, grown: int, shrunk: int)
    requires grow % PAGE == 0 && to % PAGE == 0 && 0 < to < grow < ARENA
    ensures grown == UMM_ADDR_START + grow && (shrunk == UMM_ADDR_START + to <==> grow + to < ARENA)
    ensures a.brkLen == if grow + to < ARENA then to else grow
    ensures grow == ARENA / 4 * 3 && to == ARENA / 2 ==> shrunk != UMM_ADDR_START + to && a.brkLen == grow
  {
    a := new Arena();
    WholePages(grow);
    WholePages(to);
    grown := a.Brk(UMM_ADDR_START + grow, true);
    shrunk := a.Brk(UMM_ADDR_START + to, true);
  }

  lemma WholePages(len: nat)
    requires len % PAGE == 0 && len < ARENA
    ensures PageUp(len) == len
  {
    assert len == len / PAGE * PAGE;
    assert (len + PAGE - 1) / PAGE == len / PAGE;
  }

  // ----- every run -----

  datatype Call =
    | BrkCall(brk: nat, host: bool)
    | MmapCall(len: nat, prepared: bool, host: bool)
    | MremapCall(size: nat, safe: bool, mayMove: bool, host: bool)
    | StackCall(host: bool)

  /** The host maps only what lies in user space, and nothing of length 0. */
  predicate Sensible(c: Call) {
    match c
    case BrkCall(brk, host) => brk < TWO64 && (host ==> brk <= USER_END)
    case MmapCall(len, _, host) => len < TWO64 && (host ==> 0 < len <= USER_END)
    case MremapCall(size, _, _, host) => size < TWO64 && (host ==> 0 < size <= USER_END)
    case StackCall(_) => true
  }

  /** Over any mix of calls, the break area and all that was ever handed out stay
      page-aligned and pairwise disjoint. */
  method RunArena(calls: seq<Call>) returns (a: Arena)
    requires forall k :: 0 <= k < |calls| ==> Sensible(calls[k])
    ensures a.Valid() && a.brkLen % 0x1000 == 0 && a.brkLen <= 0x4_0000_0000
    ensures forall i :: 0 <= i < |a.given| ==>
              && a.given[i].start % 0x1000 == 0 && a.given[i].len % 0x1000 == 0
              && 0x3_0000_0000 + a.brkLen <= a.given[i].start
              && a.given[i].start + a.given[i].len <= 0x7_0000_0000
    ensures forall i, j :: 0 <= i < j < |a.given| ==>
              || a.given[i].start + a.given[i].len <= a.given[j].start
              || a.given[j].start + a.given[j].len <= a.given[i].start
  {
    a := new Arena();
    for k := 0 to |calls|
      invariant fresh(a) && a.Valid()
    {
      match calls[k] {
        case BrkCall(brk, host) =>
          var _ := a.Brk(brk, host);
        case MmapCall(len, prepared, host) =>
          var _ := a.Mmap(len, prepared, host);
        case MremapCall(size, safe, mayMove, host) =>
          var _ := a.Mremap(size, safe, mayMove, host);
        case StackCall(host) =>
          var _, _ := a.AllocStack(host);
      }
    }
  }
}
