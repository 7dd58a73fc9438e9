/** Walks that create nothing: dune_vm_mprotect, dune_vm_unmap, and the order in
    which any walk calls its callback. */
module WalkNone {
  import opened Radix
  import opened PagePool
  import opened Callbacks
  import opened GuestVm
  import opened VmInvariants
  import opened WalkRanges
  import opened WalkTheorems

  /** What dune_vm_mprotect, dune_vm_unmap or a recycling sthread makes of an entry. */
  function NoneWord(cb: Callback, w: Word): Word {
    if w == ZERO then ZERO
    else match cb
      case Mprotect(perm) => Word(w.frame, perm + When(PTE_PS in w.bits, PTE_PS))
      case Recycle(_, _) => Word(w.frame, w.bits - {PTE_D})
      case RecycleStack(_) => w
      case _ => ZERO
  }

  predicate Rewrites(job: Job) {
    job.create == CreateNone && (job.cb.Mprotect? || job.cb.Free? || job.cb.Recycle? || job.cb.RecycleStack?)
  }

  /** Pages under one entry stop their walks at that entry. */
  lemma SameEntry(mem: Mem, root: nat, u: nat, v: nat)
    requires var l := Stop(Guest, mem, root, TOP, 0, u).level; Up(v, l) == Up(u, l)
    ensures Stop(Guest, mem, root, TOP, 0, v) == Stop(Guest, mem, root, TOP, 0, u)
  {
    hide Stop;
    var h := Stop(Guest, mem, root, TOP, 0, u);
    StopCoarse(Guest, mem, root, TOP, 0, u, h.level);
    StopVia(Guest, mem, root, TOP, h.level, 0, v);
    StopStep(Guest, mem, h.table, h.level, 0, v);
  }

  /** Where a visit of a walk that creates nothing goes. */
  lemma NonePlace(s: Vm, root: nat, job: Job, u: nat)
    requires VisitFits(s, root, root, TOP, job, u) && job.create == CreateNone
    ensures var r := Locate(s, root, TOP, 0, u, false, false);
            var h := Stop(Guest, s.mem, root, TOP, 0, u);
            && !r.NoMem? && r.s == s && r.level == h.level
            && (r.Found? ==> r.table == h.table && Norm(h.level, h.word) == (h.level, h.word))
            && (r.Absent? ==> Norm(h.level, h.word) == (0, ZERO))
  {
    hide Locate, Stop, Reach;
    VisitFinds(s, root, root, TOP, job, u);
  }

  /** One visit rewrites the entry it comes to and leaves all other pages alone. */
  lemma NoneVisit(s: Vm, root: nat, job: Job, u: nat, r: nat, v: nat)
    requires VisitFits(s, root, root, TOP, job, u) && Rewrites(job)
    requires IsRoot(s.own, r) && IsPage(v) && Visit(s, root, TOP, job, u).Went?
    ensures var step := Visit(s, root, TOP, job, u); var e := Leaf(Guest, s.mem, root, v);
            && step.level == Stop(Guest, s.mem, root, TOP, 0, u).level
            && Leaf(Guest, step.s.mem, r, v)
                 == if r == root && Up(v, step.level) == Up(u, step.level) then Norm(e.0, NoneWord(job.cb, e.1))
                    else Leaf(Guest, s.mem, r, v)
  {
    hide Locate, Stop, Reach, Visit, Touch;
    VisitLeaf(s, root, root, TOP, job, u, r, v);
    VisitLevel(s, root, TOP, job, u);
    NonePlace(s, root, job, u);
    var found := Locate(s, root, TOP, 0, u, false, false);
    if Up(v, found.level) == Up(u, found.level) {
      SameEntry(s.mem, root, u, v);
    }
  }

  /** A visit of a walk that rewrites cannot fail. */
  lemma NoneWent(s: Vm, root: nat, job: Job, u: nat)
    requires VisitFits(s, root, root, TOP, job, u) && Rewrites(job)
    ensures Visit(s, root, TOP, job, u).Went?
  {
    hide Locate, Reach, Stop;
    NonePlace(s, root, job, u);
  }

  /** The entry that decides `v` lies, at least in part, between `u` and `last`. */
  predicate Touched(l: nat, v: nat, u: nat, last: nat) {
    u <= last && Up(u, l) <= Up(v, l) <= Up(last, l)
  }

  /** After the entry of `u` the walk goes on at `u1`: the entries still to come
      are those that were to come, except the one just visited. */
  lemma TouchedNext(mem: Mem, root: nat, u: nat, last: nat, v: nat)
    requires u <= last
    ensures var m := Stop(Guest, mem, root, TOP, 0, u).level;
            var h := Stop(Guest, mem, root, TOP, 0, v);
            var l := Norm(h.level, h.word).0;
            var u1 := Next(u, m);
            && (Up(v, m) == Up(u, m) ==>
                  !Touched(l, v, u1, last) && !Touched(0, v, u1, last) && !Touched(m, v, u1, last))
            && (Up(v, m) != Up(u, m) ==> (Touched(l, v, u1, last) <==> Touched(l, v, u, last)))
  {
    hide Stop, Up, Next;
    var m := Stop(Guest, mem, root, TOP, 0, u).level;
    var h := Stop(Guest, mem, root, TOP, 0, v);
    var l := Norm(h.level, h.word).0;
    var u1 := Next(u, m);
    NextPrefix(u, v, m);
    UpZero(v);
    UpZero(u);
    UpZero(u1);
    if Up(v, m) == Up(u, m) {
      SameEntry(mem, root, u, v);
    } else {
      UpMonotone(u, u1, l);
      if Up(v, l) == Up(u, l) && l > 0 {
        SameEntry(mem, root, v, u);
      }
      if Up(u, l) < Up(v, l) {
        if Up(v, l) < Up(u1, l) {
          LaterPage(u, v, l);
          LaterPage(v, u1, l);
        }
        if u1 > last {
          TouchedEnd(u, last, v, l, m);
        }
      }
    }
  }

  /** When the range ends inside the entry of `u`, no later entry is left in it. */
  lemma TouchedEnd(u: nat, last: nat, v: nat, l: nat, m: nat)
    requires u <= last < Next(u, m) && Up(v, m) != Up(u, m) && Up(u, l) < Up(v, l)
    ensures Up(last, l) < Up(v, l)
  {
    hide Up, Next;
    LaterPage(u, v, l);
    NextPrefix(u, last, m);
    NextPrefix(u, v, m);
    UpMonotone(last, v, l);
    if Up(last, l) == Up(v, l) {
      if l <= m {
        Coarser(last, v, l, m);
      } else {
        Coarser(u, last, m, l);
      }
      assert false;
    }
  }

  lemma LaterPage(u: nat, v: nat, l: nat)
    requires Up(u, l) < Up(v, l)
    ensures u < v
  {
    if v <= u {
      UpMonotone(v, u, l);
    }
  }

  lemma Coarser(x: nat, y: nat, l: nat, m: nat)
    requires l <= m && Up(x, l) == Up(y, l)
    ensures Up(x, m) == Up(y, m)
  {
    UpAdd(x, l, m - l);
    UpAdd(y, l, m - l);
  }

  /** These walks rewrite exactly the entries that lie, at
      least in part, in the range; all other pages keep what decided them. */
  lemma {:induction false} NoneWalk(s: Vm, root: nat, job: Job, u: nat, last: nat, r: nat, v: nat)
    requires RangeFits(s, root, root, TOP, job, u, last) && Rewrites(job) && IsRoot(s.own, r) && IsPage(v)
    ensures var o := Flat(s, root, TOP, job, u, last); var e := Leaf(Guest, s.mem, root, v);
            && o.Done?
            && Leaf(Guest, o.s.mem, r, v)
                 == if r == root && Touched(e.0, v, u, last) then Norm(e.0, NoneWord(job.cb, e.1))
                    else Leaf(Guest, s.mem, r, v)
    decreases last + 1 - u
  {
    hide Visit, Reach, Fits, Up, Next, Stop, Keeps, Sound;
    if u <= last {
      RangeVisit(s, root, root, TOP, job, u, last);
      NoneWent(s, root, job, u);
      NoneVisit(s, root, job, u, r, v);
      RangeNext(s, root, root, TOP, job, u, last);
      var Went(s1, m) := Visit(s, root, TOP, job, u);
      KeepsRoot(s, s1, job, r);
      NoneWalk(s1, root, job, Next(u, m), last, r, v);
      TouchedNext(s.mem, root, u, last, v);
      NoneRest(s, root, job, u, last, v);
    }
  }

  /** The page's entry after a visit is touched by the rest of the walk if it was
      to be touched and has not been yet. */
  lemma NoneRest(s: Vm, root: nat, job: Job, u: nat, last: nat, v: nat)
    requires RangeFits(s, root, root, TOP, job, u, last) && Rewrites(job) && IsPage(v) && u <= last
    requires Visit(s, root, TOP, job, u).Went?
    ensures var step := Visit(s, root, TOP, job, u);
            var e, e1 := Leaf(Guest, s.mem, root, v), Leaf(Guest, step.s.mem, root, v);
            if Up(v, step.level) == Up(u, step.level)
            then e1 == Norm(e.0, NoneWord(job.cb, e.1)) && !Touched(e1.0, v, Next(u, step.level), last)
                 && (e.1 == ZERO || Touched(e.0, v, u, last))
            else e1 == e && (Touched(e.0, v, Next(u, step.level), last) <==> Touched(e.0, v, u, last))
  {
    hide Visit, Reach, Fits, Up, Next, Stop, Locate;
    FitsRoot(s, root, job);
    RangeVisit(s, root, root, TOP, job, u, last);
    NoneVisit(s, root, job, u, root, v);
    NonePlace(s, root, job, u);
    TouchedNext(s.mem, root, u, last, v);
    var m := Stop(Guest, s.mem, root, TOP, 0, u).level;
    if Up(v, m) == Up(u, m) {
      SameEntry(s.mem, root, u, v);
      UpMonotone(u, last, m);
    }
  }

  // ----- the order of the calls -----

  /** The slot has an entry, and lies, at least in part, in the range. */
  predicate Occupied(mem: Mem, root: nat, slot: Slot, u: nat, last: nat) {
    var x := Lo(slot.prefix, slot.level);
    && slot.level <= TOP && Up(slot.prefix, 4 - slot.level) == 0
    && Leaf(Guest, mem, root, x).0 == slot.level && Leaf(Guest, mem, root, x).1 != ZERO
    && Touched(slot.level, x, u, last)
  }

  /** Slots one behind the other, without overlap. */
  ghost predicate Ascending(t: seq<Slot>) {
    forall j, k :: 0 <= j < k < |t| ==> Lo(t[j].prefix + 1, t[j].level) <= Lo(t[k].prefix, t[k].level)
  }

  lemma VisitLog(s: Vm, root: nat, job: Job, u: nat)
    requires VisitFits(s, root, root, TOP, job, u) && job.create == CreateNone && Visit(s, root, TOP, job, u).Went?
    ensures var step := Visit(s, root, TOP, job, u); var h := Stop(Guest, s.mem, root, TOP, 0, u);
            && step.level == h.level
            && step.s.log == s.log + (if Norm(h.level, h.word).1 != ZERO then [Slot(h.level, Up(u, h.level))] else [])
  {
    hide Locate, Stop, Reach, Up;
    NonePlace(s, root, job, u);
    VisitLevel(s, root, TOP, job, u);
    var found := Locate(s, root, TOP, 0, u, false, false);
    if found.Found? {
      VisitFinds(s, root, root, TOP, job, u);
      var p := Up(u, found.level);
      CallLog(found.s.(log := s.log + [Slot(found.level, p)]), root, job, found.table, found.level, p);
    }
  }

  lemma CallLog(s: Vm, root: nat, job: Job, t: nat, l: nat, p: nat)
    requires Fits(s, root, job) && SlotFits(s, root, t, l, job, p)
    ensures var o := CallBack(s, job.cb, t, p % ENTRIES, SlotVa(job, l, p)); o.Done? ==> o.s.log == s.log
  {
    hide Locate, Reach, Lo, PageOfVa, Alloc;
    if job.cb.Clone? {
      PageOfSlotVa(job, l, p);
      CloneTarget(s, job.cb.newRoot, Lo(p, l));
    }
  }

  /** One visit of a walk that remaps. */
  lemma RemapRest(s: Vm, root: nat, job: Job, u: nat, last: nat, v: nat)
    requires RangeFits(s, root, root, TOP, job, u, last) && job.create == CreateNone && job.cb.Remap? && IsPage(v)
             && u <= last
    requires Visit(s, root, TOP, job, u).Went?
    ensures var step := Visit(s, root, TOP, job, u);
            var e, e1 := Leaf(Guest, s.mem, root, v), Leaf(Guest, step.s.mem, root, v);
            if Up(v, step.level) == Up(u, step.level)
            then !Touched(e1.0, v, Next(u, step.level), last)
            else e1 == e && (Touched(e.0, v, Next(u, step.level), last) <==> Touched(e.0, v, u, last))
  {
    hide Visit, Reach, Up, Next, Stop, Locate, TouchWord;
    RangeVisit(s, root, root, TOP, job, u, last);
    VisitLeaf(s, root, root, TOP, job, u, root, v);
    VisitLog(s, root, job, u);
    VisitLevel(s, root, TOP, job, u);
    NonePlace(s, root, job, u);
    TouchedNext(s.mem, root, u, last, v);
    UpZero(u);
    UpZero(v);
    if Up(v, Stop(Guest, s.mem, root, TOP, 0, u).level) == Up(u, Stop(Guest, s.mem, root, TOP, 0, u).level) {
      SameEntry(s.mem, root, u, v);
    }
  }

  /** What one visit of any walk that creates nothing leaves for the rest of it. */
  lemma VisitRest(s: Vm, root: nat, job: Job, u: nat, last: nat, v: nat)
    requires RangeFits(s, root, root, TOP, job, u, last) && job.create == CreateNone && IsPage(v) && u <= last
    requires Visit(s, root, TOP, job, u).Went?
    ensures var step := Visit(s, root, TOP, job, u);
            var e, e1 := Leaf(Guest, s.mem, root, v), Leaf(Guest, step.s.mem, root, v);
            if Up(v, step.level) == Up(u, step.level)
            then !Touched(e1.0, v, Next(u, step.level), last)
            else e1 == e && (Touched(e.0, v, Next(u, step.level), last) <==> Touched(e.0, v, u, last))
  {
    hide Visit, Reach, Up, Next, Stop, Locate, Leaf, NoneWord;
    RangeVisit(s, root, root, TOP, job, u, last);
    if Rewrites(job) {
      NoneRest(s, root, job, u, last, v);
    } else if job.cb.Remap? {
      RemapRest(s, root, job, u, last, v);
    } else {
      VisitClone(s, root, root, TOP, job, u, root, v);
      VisitLog(s, root, job, u);
      TouchedNext(s.mem, root, u, last, v);
      LeafIs(s.mem, root, v);
    }
  }

  lemma LeafIs(mem: Mem, root: nat, v: nat)
    ensures var h := Stop(Guest, mem, root, TOP, 0, v); Leaf(Guest, mem, root, v) == Norm(h.level, h.word)
  {
  }

  /** A slot that is still to come starts behind the entry just visited. */
  lemma SlotAfter(mem: Mem, mem1: Mem, root: nat, u: nat, last: nat, slot: Slot)
    requires u <= last
    requires var m := Stop(Guest, mem, root, TOP, 0, u).level; var x := Lo(slot.prefix, slot.level);
             && Occupied(mem1, root, slot, Next(u, m), last)
             && Up(x, m) != Up(u, m) && Leaf(Guest, mem1, root, x) == Leaf(Guest, mem, root, x)
    ensures var m := Stop(Guest, mem, root, TOP, 0, u).level; Next(u, m) <= Lo(slot.prefix, slot.level)
  {
    hide Stop, Next, Lo, Up;
    var m := Stop(Guest, mem, root, TOP, 0, u).level;
    var l, x, u1 := slot.level, Lo(slot.prefix, slot.level), Next(u, m);
    if x < u1 {
      NextPrefix(u, x, m);
      LeafIs(mem, root, x);
      UpMonotone(x, u, l);
      UpMonotone(u, u1, l);
      UpMonotone(x, u1, l);
      UpZero(x);
      UpZero(u1);
      SameEntry(mem, root, x, u);
      assert false;
    }
  }

  /** The slots `t` are those occupied in the range, in ascending order. */
  ghost predicate Complete(mem: Mem, root: nat, t: seq<Slot>, u: nat, last: nat) {
    Ascending(t) && forall slot :: slot in t <==> Occupied(mem, root, slot, u, last)
  }

  lemma SlotPage(l: nat, p: nat)
    requires l <= TOP && Up(p, 4 - l) == 0
    ensures IsPage(Lo(p, l)) && Up(Lo(p, l), l) == p
  {
    LoPage(p, l);
  }

  /** Membership in the calls still to come. */
  lemma OccupiedNext(s: Vm, root: nat, job: Job, u: nat, last: nat, slot: Slot)
    requires RangeFits(s, root, root, TOP, job, u, last) && job.create == CreateNone && u <= last
    requires Visit(s, root, TOP, job, u).Went?
    ensures var step := Visit(s, root, TOP, job, u); var h := Stop(Guest, s.mem, root, TOP, 0, u);
            && (Occupied(s.mem, root, slot, u, last)
                <==> (Norm(h.level, h.word).1 != ZERO && slot == Slot(h.level, Up(u, h.level)))
                     || Occupied(step.s.mem, root, slot, Next(u, h.level), last))
            && (Occupied(step.s.mem, root, slot, Next(u, h.level), last)
                ==> Next(u, h.level) <= Lo(slot.prefix, slot.level))
  {
    hide Visit, Reach, Up, Next, Stop, Locate, Leaf, Lo, Touched;
    var h := Stop(Guest, s.mem, root, TOP, 0, u);
    RangeVisit(s, root, root, TOP, job, u, last);
    VisitLog(s, root, job, u);
    EntryPage(s, root, job, u, last);
    if slot.level <= TOP && Up(slot.prefix, 4 - slot.level) == 0 {
      var x := Lo(slot.prefix, slot.level);
      SlotPage(slot.level, slot.prefix);
      VisitRest(s, root, job, u, last, x);
      LeafIs(s.mem, root, x);
      if Up(x, h.level) == Up(u, h.level) {
        SameEntry(s.mem, root, u, x);
      } else if Occupied(Visit(s, root, TOP, job, u).s.mem, root, slot, Next(u, h.level), last) {
        SlotAfter(s.mem, Visit(s, root, TOP, job, u).s.mem, root, u, last, slot);
      }
    }
  }

  /** The entry a visit comes to is itself occupied, if it is not empty. */
  lemma EntryPage(s: Vm, root: nat, job: Job, u: nat, last: nat)
    requires VisitFits(s, root, root, TOP, job, u) && job.create == CreateNone && u <= last
    ensures var h := Stop(Guest, s.mem, root, TOP, 0, u);
            Norm(h.level, h.word).1 != ZERO ==> Occupied(s.mem, root, Slot(h.level, Up(u, h.level)), u, last)
  {
    hide Stop, Reach, Lo;
    var h := Stop(Guest, s.mem, root, TOP, 0, u);
    var p := Up(u, h.level);
    UpAdd(u, h.level, 4 - h.level);
    SlotPage(h.level, p);
    SameEntry(s.mem, root, u, Lo(p, h.level));
    LeafIs(s.mem, root, Lo(p, h.level));
    UpMonotone(u, last, h.level);
  }

  /** A walk that creates nothing calls back exactly once for every occupied slot
      in the range, in ascending order, as the tables were when it started. */
  lemma {:induction false} WalkComplete(s: Vm, root: nat, job: Job, u: nat, last: nat)
    requires RangeFits(s, root, root, TOP, job, u, last) && job.create == CreateNone
    requires Flat(s, root, TOP, job, u, last).Done?
    ensures var s1 := Flat(s, root, TOP, job, u, last).s;
            s.log <= s1.log && Complete(s.mem, root, s1.log[|s.log|..], u, last)
    decreases last + 1 - u
  {
    hide Visit, Reach, Fits, Up, Next, Stop, Keeps, Sound, Complete, Leaf;
    var s1 := Flat(s, root, TOP, job, u, last).s;
    if u <= last {
      RangeVisit(s, root, root, TOP, job, u, last);
      VisitLog(s, root, job, u);
      RangeNext(s, root, root, TOP, job, u, last);
      var step := Visit(s, root, TOP, job, u);
      var h := Stop(Guest, s.mem, root, TOP, 0, u);
      var u1 := Next(u, h.level);
      WalkComplete(step.s, root, job, u1, last);
      var here := if Norm(h.level, h.word).1 != ZERO then [Slot(h.level, Up(u, h.level))] else [];
      var rest := s1.log[|step.s.log|..];
      assert s1.log[|s.log|..] == here + rest;
      CompleteCons(s, root, job, u, last, here, rest);
    } else {
      CompleteNone(s.mem, root, u, last);
      assert s1.log[|s.log|..] == [];
    }
  }

  lemma CompleteNone(mem: Mem, root: nat, u: nat, last: nat)
    requires u > last
    ensures Complete(mem, root, [], u, last)
  {
    hide Occupied;
    forall slot
      ensures !Occupied(mem, root, slot, u, last)
    {
      OccupiedNone(mem, root, slot, u, last);
    }
  }

  /** The slot visited and those of the rest of the walk are those of the walk. */
  lemma CompleteCons(s: Vm, root: nat, job: Job, u: nat, last: nat, here: seq<Slot>, rest: seq<Slot>)
    requires RangeFits(s, root, root, TOP, job, u, last) && job.create == CreateNone && u <= last
    requires Visit(s, root, TOP, job, u).Went?
    requires var h := Stop(Guest, s.mem, root, TOP, 0, u);
             && here == (if Norm(h.level, h.word).1 != ZERO then [Slot(h.level, Up(u, h.level))] else [])
             && Complete(Visit(s, root, TOP, job, u).s.mem, root, rest, Next(u, h.level), last)
    ensures Complete(s.mem, root, here + rest, u, last)
  {
    hide Visit, Reach, RangeFits, Up, Next, Stop, Occupied, Lo;
    var h := Stop(Guest, s.mem, root, TOP, 0, u);
    forall slot
      ensures Occupied(s.mem, root, slot, u, last) <==> slot in here || slot in rest
      ensures slot in rest ==> Next(u, h.level) <= Lo(slot.prefix, slot.level)
    {
      OccupiedNext(s, root, job, u, last, slot);
    }
    AscendingCons(here, rest, u, h.level);
  }

  lemma OccupiedNone(mem: Mem, root: nat, slot: Slot, u: nat, last: nat)
    requires u > last
    ensures !Occupied(mem, root, slot, u, last)
  {
  }

  lemma AscendingCons(here: seq<Slot>, rest: seq<Slot>, u: nat, m: nat)
    requires Ascending(rest) && (here == [] || here == [Slot(m, Up(u, m))])
    requires forall slot :: slot in rest ==> Next(u, m) <= Lo(slot.prefix, slot.level)
    ensures Ascending(here + rest)
  {
    hide Lo, Up;
    var t := here + rest;
    forall j, k | 0 <= j < k < |t|
      ensures Lo(t[j].prefix + 1, t[j].level) <= Lo(t[k].prefix, t[k].level)
    {
      if j < |here| {
        assert t[k] in rest;
      } else {
        assert t[j] == rest[j - |here|] && t[k] == rest[k - |here|];
      }
    }
  }

  /** A walk that creates 4 KB slots calls back exactly once for every page of the
      range, in ascending order, whatever was mapped there. */
  lemma {:induction false} WalkCreates(s: Vm, root: nat, job: Job, u: nat, last: nat)
    requires RangeFits(s, root, root, TOP, job, u, last) && job.create == CreateNormal && u <= last + 1
    requires Flat(s, root, TOP, job, u, last).Done?
    ensures Flat(s, root, TOP, job, u, last).s.log == s.log + seq(last + 1 - u, i requires 0 <= i => Slot(0, u + i))
    decreases last + 1 - u
  {
    hide Visit, Reach, Fits, Up, Stop, Keeps, Sound, Leaf;
    if u <= last {
      RangeVisit(s, root, root, TOP, job, u, last);
      CreateLog(s, root, job, u);
      RangeNext(s, root, root, TOP, job, u, last);
      var s1 := Visit(s, root, TOP, job, u).s;
      WalkCreates(s1, root, job, u + 1, last);
      assert [Slot(0, u)] + seq(last - u, i requires 0 <= i => Slot(0, u + 1 + i))
          == seq(last + 1 - u, i requires 0 <= i => Slot(0, u + i));
    }
  }

  lemma CreateLog(s: Vm, root: nat, job: Job, u: nat)
    requires VisitFits(s, root, root, TOP, job, u) && job.create == CreateNormal && Visit(s, root, TOP, job, u).Went?
    ensures Visit(s, root, TOP, job, u).level == 0 && Visit(s, root, TOP, job, u).s.log == s.log + [Slot(0, u)]
  {
    hide Locate, Stop, Reach, Leaf, Alloc;
    VisitFinds(s, root, root, TOP, job, u);
    VisitLevel(s, root, TOP, job, u);
    UpZero(u);
  }
}
