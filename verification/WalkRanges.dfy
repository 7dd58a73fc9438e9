/** How the walk over a range of units splits at the entries of one table. */
module WalkRanges {
  import opened Radix
  import opened PagePool
  import opened Callbacks
  import opened GuestVm
  import opened VmInvariants

  /** The walk below table `f` may visit the units `u` to `last`, all of which lie
      in that table. */
  ghost predicate RangeFits(s: Vm, root: nat, f: nat, L: nat, job: Job, u: nat, last: nat) {
    var g := Gran(job.create);
    && Fits(s, root, job) && g <= L <= TOP && Up(last, 4 - g) == 0
    && (u <= last ==> Up(u, L - g + 1) == Up(last, L - g + 1) && Reach(Guest, s.mem, root, f, L, Up(u, L - g)))
    && (OnlySmall(job) ==> forall v :: u <= v <= last ==> Leaf(Guest, s.mem, root, v).0 == 0)
  }

  lemma UpBounded(u: nat, last: nat, n: nat)
    requires u <= last && Up(last, n) == 0
    ensures Up(u, n) == 0
  {
    UpMonotone(u, last, n);
  }

  lemma RangeVisit(s: Vm, root: nat, f: nat, L: nat, job: Job, u: nat, last: nat)
    requires RangeFits(s, root, f, L, job, u, last) && u <= last
    ensures VisitFits(s, root, f, L, job, u)
  {
    hide Reach, Leaf, Fits;
    UpBounded(u, last, 4 - Gran(job.create));
  }

  /** Reaching a table does not depend on which of its entries is meant. */
  lemma ReachSibling(mem: Mem, root: nat, f: nat, L: nat, p: nat, q: nat)
    requires Reach(Guest, mem, root, f, L, p) && p / ENTRIES == q / ENTRIES
    ensures Reach(Guest, mem, root, f, L, q)
  {
    SiblingStop(mem, root, TOP, L, p, q);
  }

  lemma {:induction false} SiblingUp(p: nat, q: nat, n: nat)
    requires p / ENTRIES == q / ENTRIES && n > 0
    ensures Up(p, n) == Up(q, n)
  {
    if n > 1 {
      SiblingUp(p, q, n - 1);
    } else {
      assert Up(p, 0) == p && Up(q, 0) == q;
    }
  }

  lemma {:induction false} SiblingStop(mem: Mem, f: nat, L: nat, l: nat, p: nat, q: nat)
    requires l <= L && p / ENTRIES == q / ENTRIES
    ensures var h, k := Stop(Guest, mem, f, L, l, p), Stop(Guest, mem, f, L, l, q);
            h.table == k.table && h.level == k.level
    decreases L
  {
    hide Stop, Up;
    StopStep(Guest, mem, f, L, l, p);
    StopStep(Guest, mem, f, L, l, q);
    if L > l {
      SiblingUp(p, q, L - l);
      var w := Rd(mem, f, Up(p, L - l) % ENTRIES);
      if IsLink(Guest, w, L) {
        SiblingStop(mem, w.frame, L - 1, l, p, q);
      }
    }
  }

  lemma NextNested(u: nat, m: nat, n: nat)
    requires m <= n
    ensures Next(u, m) <= Next(u, n)
  {
    NextPrefix(u, Next(u, m) - 1, m);
    UpAdd(u, m, n - m);
    UpAdd(Next(u, m) - 1, m, n - m);
    NextPrefix(u, Next(u, m) - 1, n);
  }

  /** After a visit the rest of the range may still be visited. */
  lemma RangeNext(s: Vm, root: nat, f: nat, L: nat, job: Job, u: nat, last: nat)
    requires RangeFits(s, root, f, L, job, u, last) && u <= last && Visit(s, f, L, job, u).Went?
    ensures var r := Visit(s, f, L, job, u);
            RangeFits(r.s, root, f, L, job, Next(u, r.level - Gran(job.create)), last) && Goes(s, r.s, root, job)
  {
    hide Reach, Leaf, Fits, Visit, Keeps, Up, Sound, Next;
    var g := Gran(job.create);
    RangeVisit(s, root, f, L, job, u, last);
    VisitGoes(s, root, f, L, job, u);
    var Went(s1, l) := Visit(s, f, L, job, u);
    var u1 := Next(u, l - g);
    RangeReach(s, s1, root, f, L, job, u, u1, last);
    if OnlySmall(job) {
      forall v | u1 <= v <= last
        ensures Leaf(Guest, s1.mem, root, v).0 == 0
      {
        VisitSmall(s, root, f, L, job, u, v, last);
      }
    }
  }

  lemma RangeReach(s: Vm, s1: Vm, root: nat, f: nat, L: nat, job: Job, u: nat, u1: nat, last: nat)
    requires RangeFits(s, root, f, L, job, u, last) && Goes(s, s1, root, job) && u <= u1 && u <= last
    ensures u1 <= last ==> Up(u1, L - Gran(job.create) + 1) == Up(last, L - Gran(job.create) + 1)
                           && Reach(Guest, s1.mem, root, f, L, Up(u1, L - Gran(job.create)))
  {
    hide Reach, Leaf;
    var g := Gran(job.create);
    if u1 <= last {
      UpMonotone(u, u1, L - g + 1);
      UpMonotone(u1, last, L - g + 1);
      ReachSibling(s.mem, root, f, L, Up(u, L - g), Up(u1, L - g));
      UpBounded(u1, last, 4 - g);
      UpAdd(u1, L - g, 4 - L);
      KeepsReach(s, s1, g, root, f, L, Up(u1, L - g));
    }
  }

  /** A creating walk over 4 KB pages makes no big entries. */
  lemma VisitSmall(s: Vm, root: nat, f: nat, L: nat, job: Job, u: nat, v: nat, last: nat)
    requires VisitFits(s, root, f, L, job, u) && OnlySmall(job)
    requires u <= v <= last && Up(last, 4) == 0 && Leaf(Guest, s.mem, root, v).0 == 0
    requires Visit(s, f, L, job, u).Went?
    ensures Leaf(Guest, Visit(s, f, L, job, u).s.mem, root, v).0 == 0
  {
    hide Reach, Leaf, Visit, Locate, TouchWord;
    UpBounded(v, last, 4);
    VisitLeaf(s, root, f, L, job, u, root, v);
    VisitFinds(s, root, f, L, job, u);
  }

  // ----- splitting at an entry -----

  /** Through an entry that links to `c`, a visit from `f` is a visit from `c`. */
  lemma VisitThrough(s: Vm, f: nat, L: nat, job: Job, u: nat, c: nat)
    requires Gran(job.create) < L
    requires var w := Rd(s.mem, f, Up(u, L - Gran(job.create)) % ENTRIES); w.frame == c && IsLink(Guest, w, L)
    ensures Visit(s, f, L, job, u) == Visit(s, c, L - 1, job, u)
  {
    hide Touch, Up, NewTable;
  }

  /** Walking on from inside an entry that links to `c` is walking in `c` up to
      the entry's end `ce`, and then going on in `f`. */
  lemma {:induction false} Bridge(s: Vm, root: nat, f: nat, L: nat, c: nat, P: nat, job: Job, u: nat, ce: nat,
                                  last: nat)
    requires Gran(job.create) < L
    requires RangeFits(s, root, f, L, job, u, last) && RangeFits(s, root, c, L - 1, job, u, ce)
    requires IsLink(Guest, Rd(s.mem, f, P % ENTRIES), L)
    requires Rd(s.mem, f, P % ENTRIES).frame == c && f in s.own && s.own[f].level == L
    requires ce <= last && Up(ce, L - Gran(job.create)) == P
    requires ce == last || Up(ce + 1, L - Gran(job.create)) == P + 1
    requires u <= ce ==> Up(u, L - Gran(job.create)) == P
    requires u <= ce + 1 || ce == last
    ensures Flat(s, f, L, job, u, last)
              == match Flat(s, c, L - 1, job, u, ce)
                 case Done(s1) => Flat(s1, f, L, job, ce + 1, last)
                 case o => o
    decreases ce + 1 - u
  {
    hide Visit, Reach, Leaf, Fits, Keeps, Up, Next, Sound;
    if u <= ce {
      var g := Gran(job.create);
      VisitThrough(s, f, L, job, u, c);
      match Visit(s, f, L, job, u)
      case Stopped(_) => VisitDepth(s, c, L - 1, job, u);
      case Went(s1, l) =>
        var u1 := Next(u, l - g);
        RangeNext(s, root, f, L, job, u, last);
        RangeNext(s, root, c, L - 1, job, u, ce);
        LinkStays(s, s1, g, f, P % ENTRIES);
        VisitDepth(s, c, L - 1, job, u);
        NextInside(u, l - g, L - g, ce, last, P);
        KeepsLevel(s, s1, g, f);
        Bridge(s1, root, f, L, c, P, job, u1, ce, last);
    }
  }

  lemma KeepsLevel(s: Vm, s1: Vm, g: nat, f: nat)
    requires Keeps(s, s1, g) && f in s.own
    ensures f in s1.own && s1.own[f] == s.own[f]
  {
  }

  lemma VisitDepth(s: Vm, f: nat, L: nat, job: Job, u: nat)
    requires Gran(job.create) <= L
    ensures Visit(s, f, L, job, u).Went? ==> Gran(job.create) <= Visit(s, f, L, job, u).level <= L
    ensures Visit(s, f, L, job, u).Stopped? ==> !Visit(s, f, L, job, u).o.Done?
  {
  }

  lemma NextInside(u: nat, m: nat, n: nat, ce: nat, last: nat, P: nat)
    requires m <= n && u <= ce <= last && Up(u, n) == P && Up(ce, n) == P
    requires ce == last || Up(ce + 1, n) == P + 1
    ensures Next(u, m) <= ce + 1 || ce == last
    ensures Next(u, m) <= ce ==> Up(Next(u, m), n) == P
  {
    hide Up, Next;
    var x := Next(u, m);
    NextNested(u, m, n);
    if x <= ce {
      UpMonotone(u, x, n);
      UpMonotone(x, ce, n);
    }
    if ce < last {
      NextPrefix(u, ce + 1, n);
    }
  }

  // ----- the steps of the loop over a table's entries -----

  /** The last unit, up to `hi`, under the entry with prefix `P`. */
  function EntryLast(P: nat, n: nat, hi: nat): nat {
    if P == Up(hi, n) then hi
    else
      LoStrict(P, n);
      Lo(P + 1, n) - 1
  }

  lemma EntryEnd(P: nat, n: nat, hi: nat)
    requires P <= Up(hi, n)
    ensures var ce := EntryLast(P, n, hi);
            && ce <= hi && Up(ce, n) == P && (ce == hi || Up(ce + 1, n) == P + 1)
            && Lo(P, n) <= ce && (ce < hi ==> ce + 1 == Lo(P + 1, n))
  {
    hide Up, Lo;
    UpLo(P, hi, n);
    UpLo(P + 1, hi, n);
    LoStrict(P, n);
    var ce := EntryLast(P, n, hi);
    UpLo(P, ce, n);
    UpLo(P + 1, ce, n);
    UpLo(P + 1, ce + 1, n);
    UpLo(P + 2, ce + 1, n);
    LoStrict(P + 1, n);
  }

  /** At a slot of the walk's own level, or a big entry, the visit is the callback. */
  lemma VisitHere(s: Vm, f: nat, L: nat, job: Job, u: nat)
    requires Gran(job.create) <= L
    requires var w := Rd(s.mem, f, Up(u, L - Gran(job.create)) % ENTRIES);
             L == Gran(job.create) || (L < TOP && Big(w))
    ensures Visit(s, f, L, job, u) == Touch(s, f, L, job, Up(u, L - Gran(job.create)))
  {
    hide Touch, Up;
  }

  /** At an entry that is not present, a walk that does not create goes on. */
  lemma VisitAbsent(s: Vm, f: nat, L: nat, job: Job, u: nat)
    requires Gran(job.create) < L
    requires var w := Rd(s.mem, f, Up(u, L - Gran(job.create)) % ENTRIES);
             !Present(Guest, w) && !(L < TOP && Big(w))
    ensures job.create == CreateNone ==> Visit(s, f, L, job, u) == Went(s, L)
    ensures (job.create != CreateNone && NewTable(s, f, Up(u, L - Gran(job.create)) % ENTRIES).None?)
              ==> Visit(s, f, L, job, u) == Stopped(Fail(s, ENOMEM))
  {
    hide Touch, Up, NewTable;
  }

  /** A creating walk may as well find the table it would create. */
  lemma VisitCreated(s: Vm, f: nat, L: nat, job: Job, u: nat)
    requires Gran(job.create) < L && job.create != CreateNone
    requires var i := Up(u, L - Gran(job.create)) % ENTRIES;
             !Present(Guest, Rd(s.mem, f, i)) && !(L < TOP && Big(Rd(s.mem, f, i)))
             && NewTable(s, f, i).Some? && NewTable(s, f, i).value.1 != f
    ensures Visit(s, f, L, job, u)
              == Visit(NewTable(s, f, Up(u, L - Gran(job.create)) % ENTRIES).value.0, f, L, job, u)
  {
    hide Touch, Up, Alloc, LinkMem;
    var g := Gran(job.create);
    var i := Up(u, L - g) % ENTRIES;
    var (s1, c) := NewTable(s, f, i).value;
    LinkRead(s.mem, f, i, c, f, i);
    var w := Rd(s1.mem, f, i);
    assert IsLink(Guest, w, L) && w.frame == c;
    assert Locate(s, f, L, g, u, true, false) == Locate(s1, c, L - 1, g, u, true, false);
    assert Locate(s1, f, L, g, u, true, false) == Locate(s1, c, L - 1, g, u, true, false);
  }

  lemma RangeCreated(s: Vm, root: nat, f: nat, L: nat, job: Job, u: nat, last: nat)
    requires RangeFits(s, root, f, L, job, u, last) && u <= last
    requires Gran(job.create) < L && job.create != CreateNone
    requires var i := Up(u, L - Gran(job.create)) % ENTRIES;
             !Present(Guest, Rd(s.mem, f, i)) && !(L < TOP && Big(Rd(s.mem, f, i))) && NewTable(s, f, i).Some?
    ensures var (s1, c) := NewTable(s, f, Up(u, L - Gran(job.create)) % ENTRIES).value;
            && RangeFits(s1, root, f, L, job, u, last) && c != f
            && Flat(s1, f, L, job, u, last) == Flat(s, f, L, job, u, last)
            && IsLink(Guest, Rd(s1.mem, f, Up(u, L - Gran(job.create)) % ENTRIES), L)
            && Rd(s1.mem, f, Up(u, L - Gran(job.create)) % ENTRIES).frame == c
  {
    hide Reach, Leaf, Visit, Up, NewTable, LinkMem, Keeps, Alloc;
    var g := Gran(job.create);
    var i := Up(u, L - g) % ENTRIES;
    var (s1, c) := NewTable(s, f, i).value;
    RangeVisit(s, root, f, L, job, u, last);
    VisitAt(s, root, f, L, job, u);
    NewTableSound(s, f, i);
    NewTableExtends(s, f, i);
    VisitCreated(s, f, L, job, u);
    UpBounded(u, last, 4 - g);
    UpAdd(u, L - g, 4 - L);
    KeepsReach(s, s1, 0, root, f, L, Up(u, L - g));
    if OnlySmall(job) {
      forall v | u <= v <= last
        ensures Leaf(Guest, s1.mem, root, v).0 == 0
      {
        UpBounded(v, last, 4);
        LinkLeaf(Guest, s.mem, s.own, f, i, c, root, v);
      }
    }
  }

  /** The part of the range under an entry that links to `c`. */
  lemma RangeChild(s: Vm, root: nat, f: nat, L: nat, job: Job, u: nat, ce: nat, last: nat)
    requires RangeFits(s, root, f, L, job, u, last) && u <= ce <= last && Gran(job.create) < L
    requires Up(u, L - Gran(job.create)) == Up(ce, L - Gran(job.create))
    requires IsLink(Guest, Rd(s.mem, f, Up(u, L - Gran(job.create)) % ENTRIES), L)
    ensures RangeFits(s, root, Rd(s.mem, f, Up(u, L - Gran(job.create)) % ENTRIES).frame, L - 1, job, u, ce)
  {
    hide Leaf, Fits, Stop, Up;
    var g := Gran(job.create);
    var P := Up(u, L - g);
    var c := Rd(s.mem, f, P % ENTRIES).frame;
    UpBounded(ce, last, 4 - g);
    var q := Up(u, L - 1 - g);
    UpAdd(u, L - 1 - g, 1);
    StopVia(Guest, s.mem, root, TOP, L, L - 1, q);
    StopStep(Guest, s.mem, f, L, L - 1, q);
    StopStep(Guest, s.mem, c, L - 1, L - 1, q);
    assert Up(q, L - (L - 1)) == P;
  }

  /** Pages decided by a 4 KB entry stay so. */
  ghost predicate SmallKept(s: Vm, s1: Vm, root: nat) {
    forall v :: IsPage(v) && Leaf(Guest, s.mem, root, v).0 == 0 ==> Leaf(Guest, s1.mem, root, v).0 == 0
  }

  lemma GoesTrans(s: Vm, s1: Vm, s2: Vm, root: nat, job: Job)
    requires Goes(s, s1, root, job) && Goes(s1, s2, root, job)
    ensures Goes(s, s2, root, job)
  {
    hide Fits, Sound;
    KeepsTrans(s, s1, s2, Gran(job.create));
  }

  lemma VisitSmallKept(s: Vm, root: nat, f: nat, L: nat, job: Job, u: nat)
    requires VisitFits(s, root, f, L, job, u) && OnlySmall(job) && Visit(s, f, L, job, u).Went?
    ensures SmallKept(s, Visit(s, f, L, job, u).s, root)
  {
    hide Reach, Leaf, Visit, Locate, TouchWord;
    VisitFinds(s, root, f, L, job, u);
    forall v | IsPage(v) && Leaf(Guest, s.mem, root, v).0 == 0
      ensures Leaf(Guest, Visit(s, f, L, job, u).s.mem, root, v).0 == 0
    {
      VisitLeaf(s, root, f, L, job, u, root, v);
    }
  }

  /** What a visit keeps, a walk keeps. */
  lemma {:induction false} FlatGoes(s: Vm, root: nat, f: nat, L: nat, job: Job, u: nat, last: nat)
    requires RangeFits(s, root, f, L, job, u, last)
    ensures var o := Flat(s, f, L, job, u, last);
            && (o.Done? ==> Goes(s, o.s, root, job) && (OnlySmall(job) ==> SmallKept(s, o.s, root)))
            && (o.Fail? ==> Goes(s, o.s, root, job))
            && (o.Crash? ==> job.cb.Clone?)
    decreases last + 1 - u
  {
    hide Visit, Reach, Leaf, Fits, Keeps, Up, Next, Sound;
    if u <= last {
      RangeVisit(s, root, f, L, job, u, last);
      VisitGoes(s, root, f, L, job, u);
      VisitDepth(s, f, L, job, u);
      match Visit(s, f, L, job, u)
      case Stopped(_) =>
      case Went(s1, l) =>
        RangeNext(s, root, f, L, job, u, last);
        var u1 := Next(u, l - Gran(job.create));
        FlatGoes(s1, root, f, L, job, u1, last);
        var o := Flat(s1, f, L, job, u1, last);
        if !o.Crash? {
          GoesTrans(s, s1, o.s, root, job);
        }
        if OnlySmall(job) {
          VisitSmallKept(s, root, f, L, job, u);
        }
    } else {
      KeepsRefl(s, Gran(job.create));
    }
  }

  lemma KeepsRefl(s: Vm, g: nat)
    ensures Keeps(s, s, g)
  {
  }

  /** A walk over part of the range leaves the rest walkable. */
  lemma RangeRest(s: Vm, s1: Vm, root: nat, f: nat, L: nat, job: Job, u: nat, u1: nat, last: nat)
    requires RangeFits(s, root, f, L, job, u, last) && u <= last && u <= u1
    requires Goes(s, s1, root, job) && (OnlySmall(job) ==> SmallKept(s, s1, root))
    ensures RangeFits(s1, root, f, L, job, u1, last)
  {
    hide Reach, Leaf, Fits, Keeps, Sound, Up;
    RangeReach(s, s1, root, f, L, job, u, u1, last);
    if OnlySmall(job) {
      forall v | u1 <= v <= last
        ensures Leaf(Guest, s1.mem, root, v).0 == 0
      {
        UpBounded(v, last, 4);
      }
    }
  }

  /** One round of the loop at a slot that goes to the callback. */
  lemma RoundSlot(s: Vm, root: nat, f: nat, L: nat, job: Job, u: nat, last: nat, o: Outcome)
    requires RangeFits(s, root, f, L, job, u, last) && u <= last
    requires var P := Up(u, L - Gran(job.create)); var w := Rd(s.mem, f, P % ENTRIES);
             && (L == Gran(job.create) || (L < TOP && Big(w))) && !Skips(s, f, L, job, P)
             && o == CallBack(s.(log := s.log + [Slot(L, P)]), job.cb, f, P % ENTRIES, SlotVa(job, L, P))
    ensures if o.Done?
            then var u1 := Next(u, L - Gran(job.create));
                 Flat(s, f, L, job, u, last) == Flat(o.s, f, L, job, u1, last)
                 && RangeFits(o.s, root, f, L, job, u1, last)
            else Flat(s, f, L, job, u, last) == o
  {
    hide CallBack, Visit, Locate, Fits, Reach, Leaf, Up, Next, Skips;
    VisitHere(s, f, L, job, u);
    if o.Done? {
      RangeNext(s, root, f, L, job, u, last);
    }
  }

  /** One round at an entry that the walk passes over. */
  lemma RoundSkip(s: Vm, root: nat, f: nat, L: nat, job: Job, u: nat, last: nat)
    requires RangeFits(s, root, f, L, job, u, last) && u <= last
    requires var P := Up(u, L - Gran(job.create)); var w := Rd(s.mem, f, P % ENTRIES);
             || (L == 0 && job.create == CreateNone && w == ZERO)
             || (L > 0 && job.create == CreateNone && !Present(Guest, w) && !(L < TOP && Big(w)))
    ensures var u1 := Next(u, L - Gran(job.create));
            Flat(s, f, L, job, u, last) == Flat(s, f, L, job, u1, last) && RangeFits(s, root, f, L, job, u1, last)
  {
    hide CallBack, Visit, Locate, Fits, Reach, Up, Next, Leaf;
    if L == 0 {
      VisitHere(s, f, L, job, u);
    } else {
      VisitAbsent(s, f, L, job, u);
    }
    RangeNext(s, root, f, L, job, u, last);
  }

  /** One round at an entry that cannot get the table it needs. */
  lemma RoundNoMem(s: Vm, f: nat, L: nat, job: Job, u: nat, last: nat)
    requires Gran(job.create) < L && u <= last && job.create != CreateNone
    requires var i := Up(u, L - Gran(job.create)) % ENTRIES; var w := Rd(s.mem, f, i);
             !Present(Guest, w) && !(L < TOP && Big(w)) && NewTable(s, f, i).None?
    ensures Flat(s, f, L, job, u, last) == Fail(s, ENOMEM)
  {
    hide Visit, Locate, Up, NewTable;
    VisitAbsent(s, f, L, job, u);
  }

  /** One round at an entry that links to a table. */
  lemma RoundLink(s: Vm, root: nat, f: nat, L: nat, job: Job, u: nat, ce: nat, last: nat)
    requires Gran(job.create) < L && u <= ce <= last
    requires RangeFits(s, root, f, L, job, u, last)
    requires var P := Up(u, L - Gran(job.create));
             && Up(ce, L - Gran(job.create)) == P
             && (ce == last || Up(ce + 1, L - Gran(job.create)) == P + 1)
             && IsLink(Guest, Rd(s.mem, f, P % ENTRIES), L)
    ensures var c := Rd(s.mem, f, Up(u, L - Gran(job.create)) % ENTRIES).frame;
            var o := Flat(s, c, L - 1, job, u, ce);
            && RangeFits(s, root, c, L - 1, job, u, ce)
            && if o.Done?
               then Flat(s, f, L, job, u, last) == Flat(o.s, f, L, job, ce + 1, last)
                    && RangeFits(o.s, root, f, L, job, ce + 1, last)
               else Flat(s, f, L, job, u, last) == o
  {
    hide Flat, Reach, Leaf, Keeps, Sound, Up, Visit;
    RangeVisit(s, root, f, L, job, u, last);
    VisitAt(s, root, f, L, job, u);
    RangeChild(s, root, f, L, job, u, ce, last);
    var c := Rd(s.mem, f, Up(u, L - Gran(job.create)) % ENTRIES).frame;
    Bridge(s, root, f, L, c, Up(u, L - Gran(job.create)), job, u, ce, last);
    FlatGoes(s, root, c, L - 1, job, u, ce);
    var o := Flat(s, c, L - 1, job, u, ce);
    if o.Done? {
      RangeRest(s, o.s, root, f, L, job, u, ce + 1, last);
    }
  }
}
