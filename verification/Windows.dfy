/** The three windows of a process's address space that a guest can see, and the
    two translations between host-virtual and guest-physical addresses
    (kern/ept.c, kern/core.c, libdune/dune.h). */
module Windows {
  import opened Radix

  const GPA_STACK_SIZE := 0x1000_0000
  const GPA_MAP_SIZE := 0x7000_0000
  const LG := 0x20_0000

  /** LG_ALIGN: up to the next multiple of 2 MB. */
  function LgAlign(addr: nat): (r: nat)
    ensures r % LG == 0 && addr <= r < addr + LG
  {
    AlignFacts(addr);
    (addr + LG - 1) / LG * LG
  }

  lemma AlignFacts(addr: nat)
    ensures var r := (addr + LG - 1) / LG * LG; r % LG == 0 && addr <= r < addr + LG
  {
  }

  /** The layout as dune_dev_ioctl hands it out: the end of guest-physical memory
      and where the two high windows begin. */
  datatype Layout = Layout(physEnd: nat, mapStart: nat, stackStart: nat)

  /** The kernel's layout of a process: `mmapBase` and `startStack` lie high
      enough for the windows below them, and guest-physical memory has at least
      32 address bits. The windows end with the first 2 MB that reach over them. */
  function LayoutOf(physBits: nat, mmapBase: nat, startStack: nat): (l: Layout)
    requires 32 <= physBits && GPA_MAP_SIZE <= mmapBase && GPA_STACK_SIZE <= startStack
    ensures Valid(l) && l.physEnd == Power(physBits)
    ensures mmapBase <= l.mapStart + 0x7000_0000 < mmapBase + 0x20_0000
    ensures startStack <= l.stackStart + 0x1000_0000 < startStack + 0x20_0000
  {
    AlignedDown(mmapBase, GPA_MAP_SIZE);
    AlignedDown(startStack, GPA_STACK_SIZE);
    PowerOk(physBits);
    Layout(Power(physBits), LgAlign(mmapBase) - GPA_MAP_SIZE, LgAlign(startStack) - GPA_STACK_SIZE)
  }

  function Power(n: nat): nat {
    if n == 0 then 1 else 2 * Power(n - 1)
  }

  lemma {:induction false} PowerOk(n: nat)
    requires n >= 32
    ensures Power(n) % LG == 0 && Power(n) >= 0x1_0000_0000
  {
    hide Power;
    if n > 32 {
      PowerOk(n - 1);
      PowerStep(n - 1);
      assert Power(n) == 2 * (Power(n - 1) / LG) * LG;
    } else {
      Power16(0);
      Power16(4);
      Power16(8);
      Power16(12);
      Power16(16);
      Power16(20);
      Power16(24);
      Power16(28);
      assert Power(0) == 1 by {
        PowerZero();
      }
    }
  }

  lemma {:induction false} PowerMonotone(m: nat, n: nat)
    requires m <= n
    ensures Power(m) <= Power(n)
  {
    if m < n {
      PowerMonotone(m, n - 1);
    }
  }

  lemma PowerZero()
    ensures Power(0) == 1
  {
  }

  lemma PowerStep(n: nat)
    ensures Power(n + 1) == 2 * Power(n)
  {
  }

  lemma Power16(n: nat)
    ensures Power(n + 4) == 16 * Power(n)
  {
    PowerStep(n);
    PowerStep(n + 1);
    PowerStep(n + 2);
    PowerStep(n + 3);
  }

  lemma AlignedDown(addr: nat, size: nat)
    requires size <= addr && (size == GPA_MAP_SIZE || size == GPA_STACK_SIZE)
    ensures size <= LgAlign(addr) && (LgAlign(addr) - size) % LG == 0
  {
    var k := LgAlign(addr) / LG;
    assert LgAlign(addr) == k * LG;
    if size == GPA_MAP_SIZE {
      assert LgAlign(addr) - size == (k - 896) * LG;
    } else {
      assert LgAlign(addr) - size == (k - 128) * LG;
    }
  }

  predicate Valid(l: Layout) {
    && l.physEnd % LG == 0 && l.mapStart % LG == 0 && l.stackStart % LG == 0
    && GPA_STACK_SIZE + GPA_MAP_SIZE <= l.physEnd
  }

  /** Where the identity window ends and the others' guest-physical images begin. */
  function LowEnd(l: Layout): nat
    requires Valid(l)
  {
    l.physEnd - GPA_STACK_SIZE - GPA_MAP_SIZE
  }

  function HvaToGpa(l: Layout, hva: nat): (r: Option<nat>)
    requires Valid(l)
    ensures r.Some? ==> r.value < l.physEnd
  {
    if hva >= l.stackStart then
      if hva - l.stackStart >= GPA_STACK_SIZE then None
      else Some(hva - l.stackStart + l.physEnd - GPA_STACK_SIZE)
    else if hva >= l.mapStart then
      if hva - l.mapStart >= GPA_MAP_SIZE then None
      else Some(hva - l.mapStart + LowEnd(l))
    else
      if hva >= LowEnd(l) then None else Some(hva)
  }

  function GpaToHva(l: Layout, gpa: nat): Option<nat>
    requires Valid(l)
  {
    if gpa < LowEnd(l) then Some(gpa)
    else if gpa < l.physEnd - GPA_STACK_SIZE then Some(gpa - LowEnd(l) + l.mapStart)
    else if gpa < l.physEnd then Some(gpa - (l.physEnd - GPA_STACK_SIZE) + l.stackStart)
    else None
  }

  /** dune_va_to_pa, which checks no bounds. */
  function DuneVaToPa(l: Layout, ptr: nat): nat
    requires Valid(l)
  {
    if ptr >= l.stackStart then ptr - l.stackStart + l.physEnd - GPA_STACK_SIZE
    else if ptr >= l.mapStart then ptr - l.mapStart + LowEnd(l)
    else ptr
  }

  /** The windows lie one above the other, in the order the code tests for them. */
  predicate Ordered(l: Layout)
    requires Valid(l)
  {
    LowEnd(l) <= l.mapStart && l.mapStart + GPA_MAP_SIZE <= l.stackStart
  }

  /** Every address that hva_to_gpa accepts comes back from gpa_to_hva, and
      dune_va_to_pa agrees on it; so no two addresses have one image. */
  lemma GpaInverts(l: Layout, hva: nat)
    requires Valid(l) && HvaToGpa(l, hva).Some?
    ensures GpaToHva(l, HvaToGpa(l, hva).value) == Some(hva)
    ensures HvaToGpa(l, hva).value == DuneVaToPa(l, hva)
    ensures HvaToGpa(l, hva).value % LG == hva % LG
  {
    if hva >= l.stackStart {
      LgShift(hva, l.stackStart, l.physEnd - GPA_STACK_SIZE);
    } else if hva >= l.mapStart {
      LgShift(hva, l.mapStart, LowEnd(l));
    }
  }

  lemma LgShift(x: nat, from: nat, to: nat)
    requires from % LG == 0 && from <= x
    requires (to + GPA_STACK_SIZE) % LG == 0 || (to + GPA_STACK_SIZE + GPA_MAP_SIZE) % LG == 0
    ensures (x - from + to) % LG == x % LG
  {
    var k := from / LG;
    var m := (to + GPA_STACK_SIZE + GPA_MAP_SIZE) / LG;
    var n := (to + GPA_STACK_SIZE) / LG;
    var q := if (to + GPA_STACK_SIZE) % LG == 0 then n - 128 else m - 1024;
    assert to == q * LG;
    assert x - from + to == (x / LG - k + q) * LG + x % LG;
  }

  /** One guest-physical address comes back from hva_to_gpa if and only if its
      host address lies below every window tested before its own. */
  lemma HvaInverts(l: Layout, gpa: nat)
    requires Valid(l) && gpa < l.physEnd
    ensures HvaToGpa(l, GpaToHva(l, gpa).value) == Some(gpa)
            <==> (gpa < LowEnd(l) ==> gpa < l.mapStart && gpa < l.stackStart)
                 && (LowEnd(l) <= gpa < l.physEnd - GPA_STACK_SIZE ==> gpa - LowEnd(l) + l.mapStart < l.stackStart)
  {
  }

  /** They all do if and only if the windows are in order. */
  lemma AllInvertIff(l: Layout)
    requires Valid(l)
    ensures (forall gpa :: 0 <= gpa < l.physEnd ==> HvaToGpa(l, GpaToHva(l, gpa).value) == Some(gpa)) <==> Ordered(l)
  {
    if forall gpa :: 0 <= gpa < l.physEnd ==> HvaToGpa(l, GpaToHva(l, gpa).value) == Some(gpa) {
      var top := l.physEnd - GPA_STACK_SIZE - 1;
      HvaInverts(l, top);
      assert HvaToGpa(l, GpaToHva(l, top).value) == Some(top);
      if LowEnd(l) > 0 {
        HvaInverts(l, LowEnd(l) - 1);
        assert HvaToGpa(l, GpaToHva(l, LowEnd(l) - 1).value) == Some(LowEnd(l) - 1);
      }
    } else {
      var gpa: nat :| gpa < l.physEnd && HvaToGpa(l, GpaToHva(l, gpa).value) != Some(gpa);
      HvaInverts(l, gpa);
    }
  }

  /** What agrees modulo 2 MB agrees modulo a page. */
  lemma LgPage(x: nat, y: nat)
    requires x % LG == y % LG && y % PAGE_SIZE == 0
    ensures x % PAGE_SIZE == 0
  {
    var a, b, k := x / LG, y / LG, y / PAGE_SIZE;
    assert x == LG * a + x % LG && y == LG * b + y % LG && y == PAGE_SIZE * k;
    var q := 512 * a - 512 * b + k;
    assert x == PAGE_SIZE * q;
  }
}
