/** The address arithmetic of the page walk (PDX, PDADDR, base_va), tied to the
    prefixes that the walk's specification is written in. */
module Addresses {
  import opened Radix
  import opened Callbacks
  import opened GuestVm

  /** How many bytes one entry of a level-`n` table covers: 1 << PDSHIFT(n). */
  function Span(n: nat): (r: nat)
    ensures r > 0
  {
    if n == 0 then 0x1000 else if n == 1 then 0x20_0000 else if n == 2 then 0x4000_0000
    else if n == 3 then 0x80_0000_0000 else TWO48
  }

  /** The index of an address at a level: PDX(n, va). */
  function Pdx(n: nat, va: nat): nat {
    va / Span(n) % 512
  }

  /** The first address of the level-`n` table that `va` falls in. */
  function BaseVa(n: nat, va: nat): int {
    va - va % Span(n + 1)
  }

  function High(va: nat): nat {
    va - va % TWO48
  }

  lemma Ups(v: nat)
    ensures Up(v, 0) == v && Up(v, 1) == v / 512 && Up(v, 2) == v / 0x4_0000
    ensures Up(v, 3) == v / 0x800_0000 && Up(v, 4) == v / 0x10_0000_0000
  {
    assert Up(v, 1) == Up(v, 0) / 512 && Up(v, 2) == Up(v, 1) / 512;
    assert Up(v, 3) == Up(v, 2) / 512 && Up(v, 4) == Up(v, 3) / 512;
  }

  lemma Los(p: nat)
    ensures Lo(p, 0) == p && Lo(p, 1) == p * 512 && Lo(p, 2) == p * 0x4_0000
    ensures Lo(p, 3) == p * 0x800_0000 && Lo(p, 4) == p * 0x10_0000_0000
  {
    assert Lo(p, 1) == Lo(p * 512, 0);
    assert Lo(p, 2) == Lo(p * 512, 1) == Lo(p * 512 * 512, 0);
    assert Lo(p, 3) == Lo(p * 512, 2) == Lo(p * 512 * 512, 1) == Lo(p * 512 * 512 * 512, 0);
    assert Lo(p, 4) == Lo(p * 512, 3) == Lo(p * 512 * 512, 2) == Lo(p * 512 * 512 * 512, 1)
           == Lo(p * 512 * 512 * 512 * 512, 0);
  }

  lemma HighBits(va: nat)
    ensures High(va) % TWO48 == 0 && va == High(va) + va % TWO48
    ensures IsPage(PageOfVa(va))
  {
    PageRange(PageOfVa(va));
  }

  /** PDX reads the index off the page number. */
  lemma PdxIsIndex(n: nat, va: nat)
    requires n <= TOP
    ensures Pdx(n, va) == Up(PageOfVa(va), n) % 512
  {
    hide Up;
    Ups(PageOfVa(va));
    Quotients(va / TWO48, va % TWO48);
    Digits(va / TWO48, PageOfVa(va));
    if n == 0 {
      assert Span(n) == 0x1000;
    } else if n == 1 {
      assert Span(n) == 0x20_0000;
    } else if n == 2 {
      assert Span(n) == 0x4000_0000;
    } else {
      assert n == 3 && Span(n) == 0x80_0000_0000;
    }
  }

  lemma Quotients(h: nat, x: nat)
    requires x < TWO48
    ensures var va := h * TWO48 + x;
            && va / 0x1000 == h * 0x10_0000_0000 + x / 0x1000
            && va / 0x20_0000 == h * 0x800_0000 + x / 0x1000 / 512
            && va / 0x4000_0000 == h * 0x4_0000 + x / 0x1000 / 0x4_0000
            && va / 0x80_0000_0000 == h * 512 + x / 0x1000 / 0x800_0000
  {
  }

  lemma Digits(h: nat, v: nat)
    ensures (h * 0x10_0000_0000 + v) % 512 == v % 512
    ensures (h * 0x800_0000 + v / 512) % 512 == v / 512 % 512
    ensures (h * 0x4_0000 + v / 0x4_0000) % 512 == v / 0x4_0000 % 512
    ensures (h * 512 + v / 0x800_0000) % 512 == v / 0x800_0000 % 512
  {
    Digit(h * 0x800_0000, v);
    Digit(h * 0x4_0000, v / 512);
    Digit(h * 512, v / 0x4_0000);
    Digit(h, v / 0x800_0000);
  }

  lemma Digit(k: nat, y: nat)
    ensures (k * 512 + y) % 512 == y % 512
  {
  }

  lemma Remainders(h: nat, x: nat)
    requires x < TWO48
    ensures var va := h * TWO48 + x;
            && va - va % 0x20_0000 == h * TWO48 + x / 0x1000 / 512 * 0x20_0000
            && va - va % 0x4000_0000 == h * TWO48 + x / 0x1000 / 0x4_0000 * 0x4000_0000
            && va - va % 0x80_0000_0000 == h * TWO48 + x / 0x1000 / 0x800_0000 * 0x80_0000_0000
            && va - va % TWO48 == h * TWO48
  {
    var va := h * TWO48 + x;
    Quotients(h, x);
    assert va - va % 0x20_0000 == va / 0x20_0000 * 0x20_0000;
    assert va - va % 0x4000_0000 == va / 0x4000_0000 * 0x4000_0000;
    assert va - va % 0x80_0000_0000 == va / 0x80_0000_0000 * 0x80_0000_0000;
    ModAdd(h * TWO48, x);
  }

  /** base_va has the table's prefix. */
  lemma BaseIsPrefix(n: nat, va: nat)
    requires n <= TOP
    ensures BaseVa(n, va) == High(va) + Lo(Up(PageOfVa(va), n + 1), n + 1) * 0x1000
  {
    hide Up, Lo;
    var x := va % TWO48;
    Remainders(va / TWO48, x);
    HighBits(va);
    Ups(x / 0x1000);
    Los(Up(PageOfVa(va), n + 1));
  }

  /** The address of slot `i`: base_va + PDADDR(n, i). */
  lemma CurVa(n: nat, va: nat, i: nat)
    requires n <= TOP
    ensures BaseVa(n, va) + Span(n) * i == High(va) + Lo(Up(PageOfVa(va), n + 1) * 512 + i, n) * 0x1000
  {
    BaseIsPrefix(n, va);
    var T := Up(PageOfVa(va), n + 1);
    Los(T);
    Los(T * 512 + i);
    if n == 0 {
    } else if n == 1 {
    } else if n == 2 {
    } else {
    }
  }

  /** A slot is as large as its entry's share, and lies within the 48 bits. */
  lemma SlotSpan(n: nat, p: nat)
    requires n <= TOP && Up(p, 4 - n) == 0
    ensures Lo(p + 1, n) * 0x1000 == Lo(p, n) * 0x1000 + Span(n) && Lo(p + 1, n) * 0x1000 <= TWO48
  {
    hide Up, Lo;
    Los(p);
    Los(p + 1);
    Ups(p);
    if n == 0 {
    } else if n == 1 {
    } else if n == 2 {
    } else {
    }
  }

  /** The pages of a slot's first and last byte. */
  lemma SlotEnds(n: nat, high: nat, p: nat)
    requires n <= TOP && high % TWO48 == 0 && Up(p, 4 - n) == 0
    ensures var a := high + Lo(p, n) * 0x1000; var b := a + Span(n) - 1;
            High(a) == high && PageOfVa(a) == Lo(p, n) && PageOfVa(b) == Lo(p + 1, n) - 1
  {
    hide Up, Lo, Span;
    SlotSpan(n, p);
    ModAdd(high, Lo(p, n) * 0x1000);
    ModAdd(high, Lo(p, n) * 0x1000 + Span(n) - 1);
  }

  lemma ModAdd(high: nat, x: nat)
    requires high % TWO48 == 0 && x < TWO48
    ensures (high + x) % TWO48 == x
  {
  }

  /** The loop bounds: the first and the last index are those of the range's first
      and last unit, and both lie in the table with prefix `T`. */
  lemma RangeIndices(startVa: nat, endVa: nat, level: nat, g: nat)
    requires g <= level <= TOP
    requires var lo, hi := Up(PageOfVa(startVa), g), Up(PageOfVa(endVa), g);
             lo <= hi && Up(lo, level - g + 1) == Up(hi, level - g + 1)
    ensures var lo, hi, T := Up(PageOfVa(startVa), g), Up(PageOfVa(endVa), g), Up(PageOfVa(startVa), level + 1);
            && Up(lo, level - g) == T * 512 + Pdx(level, startVa) && Up(hi, level - g) == T * 512 + Pdx(level, endVa)
            && Pdx(level, startVa) <= Pdx(level, endVa) < 512
  {
    hide Pdx, PageOfVa;
    var v, w := PageOfVa(startVa), PageOfVa(endVa);
    PdxIsIndex(level, startVa);
    PdxIsIndex(level, endVa);
    UpAdd(v, g, level - g);
    UpAdd(w, g, level - g);
    UpAdd(v, g, level - g + 1);
    UpAdd(w, g, level - g + 1);
    UpMonotone(Up(v, g), Up(w, g), level - g);
    assert Up(v, level + 1) == Up(v, level) / 512 && Up(w, level + 1) == Up(w, level) / 512;
  }

  /** The addresses the loop hands down for the entry with prefix `P`: n_start_va
      and n_end_va have the units of the range's part under that entry. */
  lemma EntryRange(startVa: nat, level: nat, g: nat, P: nat)
    requires g <= level <= TOP && Up(P, 4 - level) == 0
    ensures var a := High(startVa) + Lo(P, level) * 0x1000; var b := a + Span(level) - 1;
            && High(a) == High(startVa) && Up(PageOfVa(a), g) == Lo(P, level - g)
            && Lo(P + 1, level - g) > 0 && Up(PageOfVa(b), g) == Lo(P + 1, level - g) - 1
  {
    hide Lo, Up, Span, PageOfVa, High;
    HighBits(startVa);
    SlotEnds(level, High(startVa), P);
    LoSplit(P, level - g, g);
    LoSplit(P + 1, level - g, g);
    LoStrict(P, level - g);
    UpOfLo(Lo(P, level - g), g);
    UpOfLo(Lo(P + 1, level - g), g);
  }

  lemma UpOfLo(q: nat, n: nat)
    ensures Up(Lo(q, n), n) == q
    ensures q > 0 ==> Lo(q, n) > 0 && Up(Lo(q, n) - 1, n) == q - 1
  {
    hide Lo, Up;
    UpLo(q, Lo(q, n), n);
    UpLo(q + 1, Lo(q, n), n);
    LoStrict(q, n);
    if q > 0 {
      LoStrict(q - 1, n);
      UpLo(q, Lo(q, n) - 1, n);
      UpLo(q - 1, Lo(q, n) - 1, n);
    }
  }

  lemma {:induction false} LoSplit(p: nat, m: nat, n: nat)
    ensures Lo(p, m + n) == Lo(Lo(p, m), n)
    decreases m
  {
    if m > 0 {
      assert Lo(p, m + n) == Lo(p * 512, m - 1 + n);
      LoSplit(p * 512, m - 1, n);
    }
  }

  lemma AddressPage(addr: nat)
    ensures IsPage(PageOfVa(addr))
  {
    PageRange(PageOfVa(addr));
  }
}
