/** dune_vm_map_pages on an empty range, undone by dune_vm_unmap. */
module RoundTrip {
  import opened Radix
  import opened PagePool
  import opened Callbacks
  import opened GuestVm
  import opened VmInvariants
  import opened WalkRanges
  import opened WalkTheorems
  import opened WalkNone
  import opened Conservation
  import opened PoolRuns

  /** The frame that decides page `v`. */
  ghost function PageFrame(s: Vm, root: nat, v: nat): nat {
    Leaf(Guest, s.mem, root, v).1.frame
  }

  ghost function DataFrames(s: Vm, root: nat, u: nat, last: nat): set<nat> {
    set v | u <= v <= last :: PageFrame(s, root, v)
  }

  // ----- map_pages -----

  /** A descent counts one reference for each table it creates. */
  lemma {:induction false} LocateRefs(s: Vm, root: nat, f: nat, L: nat, g: nat, u: nat, create: bool, strict: bool,
                                      frame: nat)
    requires Conserved(s) && g <= L && Radix.At(s.own, f, root, L, g, u)
    ensures var q := Locate(s, f, L, g, u, create, strict).s;
            RefOf(q.pool, frame) == RefOf(s.pool, frame) + One(frame in q.own && frame !in s.own)
    ensures RefOf(s.pool, frame) > 0 && frame !in s.own ==> frame !in Locate(s, f, L, g, u, create, strict).s.own
    ensures frame in s.own ==> frame in Locate(s, f, L, g, u, create, strict).s.own
    decreases L
  {
    hide Alloc, NewTable, Conserved, Tree, Up, LinkMem, RefOf;
    ConservedSound(s);
    var i := Up(u, L - g) % ENTRIES;
    var w := Rd(s.mem, f, i);
    if L == g || (L < TOP && Big(w) && (PTE_P in w.bits || !strict)) {
    } else if PTE_P in w.bits {
      ChildAt(Guest, s.mem, s.own, root, f, L, g, u);
      LocateRefs(s, root, w.frame, L - 1, g, u, create, strict, frame);
    } else if create && NewTable(s, f, i).Some? {
      NewTableSound(s, f, i);
      NewTableConserves(s, f, i);
      NewTableRefs(s, f, i, frame);
      var (s1, c) := NewTable(s, f, i).value;
      ChildAt(Guest, s1.mem, s1.own, root, f, L, g, u);
      LocateRefs(s1, root, c, L - 1, g, u, create, strict, frame);
    }
  }

  lemma NewTableRefs(s: Vm, f: nat, i: nat, frame: nat)
    requires Conserved(s) && f in s.own && s.own[f].level > 0 && i < ENTRIES && NewTable(s, f, i).Some?
    ensures var (s1, c) := NewTable(s, f, i).value;
            && RefOf(s1.pool, frame) == RefOf(s.pool, frame) + One(frame == c)
            && (frame in s1.own <==> frame in s.own || frame == c) && c !in s.own && RefOf(s.pool, c) == 0
  {
    hide Alloc, Names;
    AllocCounts(s);
    AllocOk(s.pool);
  }

  /** What one visit of map_pages does to an empty page. */
  lemma MapVisitPages(s: Vm, root: nat, job: Job, u: nat, last: nat)
    requires Conserved(s) && RangeFits(s, root, root, TOP, job, u, last) && u <= last
    requires job.create == CreateNormal && job.cb.MapPages? && RangeConserves(s, root, job, u, last)
    requires Visit(s, root, TOP, job, u).Went?
    ensures var s1 := Visit(s, root, TOP, job, u).s; var new_ := PageFrame(s1, root, u);
            && Leaf(Guest, s1.mem, root, u) == (0, Word(new_, job.cb.perm))
            && (forall frame :: RefOf(s1.pool, frame)
                  == RefOf(s.pool, frame) + One(frame in s1.own && frame !in s.own) + One(frame == new_))
            && RefOf(s.pool, new_) == 0 && new_ !in s1.own && InPool(s1.pool, new_)
            && (forall frame :: RefOf(s.pool, frame) > 0 && frame !in s.own ==> frame !in s1.own)
            && (forall frame :: frame in s.own ==> frame in s1.own)
  {
    hide Conserved, Alloc, Reach, Leaf, Locate, Up, RefOf, RangeConserves, SlotVa;
    RangeVisit(s, root, root, TOP, job, u, last);
    VisitFinds(s, root, root, TOP, job, u);
    VisitAt(s, root, root, TOP, job, u);
    FitsNormal(s, root, job);
    UpZero(u);
    VisitLeaf(s, root, root, TOP, job, u, root, u);
    var q := Locate(s, root, TOP, 0, u, true, false);
    LocateConserves(s, root, root, TOP, 0, u, true, false);
    forall frame
      ensures RefOf(q.s.pool, frame) == RefOf(s.pool, frame) + One(frame in q.s.own && frame !in s.own)
      ensures RefOf(s.pool, frame) > 0 && frame !in s.own ==> frame !in q.s.own
      ensures frame in s.own ==> frame in q.s.own
    {
      LocateRefs(s, root, root, TOP, 0, u, true, false, frame);
    }
    FreshPage(q.s);
  }

  lemma FreshPage(s: Vm)
    requires Conserved(s)
    ensures Alloc(s.pool).Some? ==> var (p, k) := Alloc(s.pool).value;
              && RefOf(s.pool, FrameOf(k)) == 0 && FrameOf(k) !in s.own && InPool(p, FrameOf(k))
              && forall frame :: RefOf(p, frame) == RefOf(s.pool, frame) + One(frame == FrameOf(k))
  {
    hide Alloc, Names;
    if Alloc(s.pool).Some? {
      AllocCounts(s);
      AllocOk(s.pool);
    }
  }

  predicate MapsPages(job: Job) {
    job.create == CreateNormal && job.cb.MapPages?
  }

  /** map_pages changes nothing outside its range. */
  lemma {:induction false} MapPagesElse(s: Vm, root: nat, job: Job, u: nat, last: nat, r: nat, v: nat)
    requires RangeFits(s, root, root, TOP, job, u, last) && MapsPages(job) && IsRoot(s.own, r) && IsPage(v)
    requires (r != root || v < u || v > last) && Flat(s, root, TOP, job, u, last).Done?
    ensures Leaf(Guest, Flat(s, root, TOP, job, u, last).s.mem, r, v) == Leaf(Guest, s.mem, r, v)
    decreases last + 1 - u
  {
    hide Visit, Reach, Fits, Up, Stop, Keeps, Sound, Leaf, Locate;
    if u <= last {
      RangeVisit(s, root, root, TOP, job, u, last);
      CreateLog(s, root, job, u);
      VisitLevel(s, root, TOP, job, u);
      VisitLeaf(s, root, root, TOP, job, u, r, v);
      UpZero(u);
      UpZero(v);
      RangeNext(s, root, root, TOP, job, u, last);
      var s1 := Visit(s, root, TOP, job, u).s;
      KeepsRoot(s, s1, job, r);
      MapPagesElse(s1, root, job, u + 1, last, r, v);
    }
  }

  /** ... and gives every page of the range a 4 KB entry with the bits asked for. */
  lemma {:induction false} MapPagesHere(s: Vm, root: nat, job: Job, u: nat, last: nat, v: nat)
    requires RangeFits(s, root, root, TOP, job, u, last) && MapsPages(job) && u <= v <= last
    requires Flat(s, root, TOP, job, u, last).Done?
    ensures var e := Leaf(Guest, Flat(s, root, TOP, job, u, last).s.mem, root, v); e.0 == 0 && e.1.bits == job.cb.perm
    decreases last + 1 - u
  {
    hide Visit, Reach, Fits, Up, Stop, Keeps, Sound, Leaf, Locate;
    RangeVisit(s, root, root, TOP, job, u, last);
    CreateLog(s, root, job, u);
    VisitLevel(s, root, TOP, job, u);
    RangeNext(s, root, root, TOP, job, u, last);
    var s1 := Visit(s, root, TOP, job, u).s;
    UpZero(u);
    if v > u {
      MapPagesHere(s1, root, job, u + 1, last, v);
    } else {
      MapVisitBits(s, root, job, u, last);
      FitsRoot(s1, root, job);
      UpMonotone(u, last, 4);
      MapPagesElse(s1, root, job, u + 1, last, root, u);
    }
  }

  lemma MapVisitBits(s: Vm, root: nat, job: Job, u: nat, last: nat)
    requires RangeFits(s, root, root, TOP, job, u, last) && MapsPages(job) && u <= last
    requires Visit(s, root, TOP, job, u).Went?
    ensures var e := Leaf(Guest, Visit(s, root, TOP, job, u).s.mem, root, u); e.0 == 0 && e.1.bits == job.cb.perm
  {
    hide Alloc, Reach, Leaf, Locate, Up, SlotVa;
    RangeVisit(s, root, root, TOP, job, u, last);
    VisitFinds(s, root, root, TOP, job, u);
    FitsNormal(s, root, job);
    UpZero(u);
    UpMonotone(u, last, 4);
    VisitLeaf(s, root, root, TOP, job, u, root, u);
  }

  /** The pages of a range have frames of their own, fresh from the pool `s` had. */
  ghost predicate Given(s: Vm, s1: Vm, root: nat, perm: set<nat>, u: nat, last: nat) {
    && (forall v :: u <= v <= last ==>
          var frame := PageFrame(s1, root, v);
          && Leaf(Guest, s1.mem, root, v) == (0, Word(frame, perm))
          && RefOf(s.pool, frame) == 0 && frame !in s1.own && InPool(s1.pool, frame))
    && (forall v, x :: u <= v < x <= last ==> PageFrame(s1, root, v) != PageFrame(s1, root, x))
  }

  ghost predicate Referred(s: Vm, s1: Vm, root: nat, u: nat, last: nat) {
    && (forall frame :: RefOf(s1.pool, frame) == RefOf(s.pool, frame) + One(frame in s1.own && frame !in s.own)
                                                 + One(frame in DataFrames(s1, root, u, last)))
    && (forall frame :: RefOf(s.pool, frame) > 0 && frame !in s.own ==> frame !in s1.own)
    && (forall frame :: frame in s.own ==> frame in s1.own)
  }

  lemma DataHead(s: Vm, root: nat, u: nat, last: nat)
    requires u <= last
    ensures DataFrames(s, root, u, last) == DataFrames(s, root, u + 1, last) + {PageFrame(s, root, u)}
  {
    hide PageFrame;
    var A, B := DataFrames(s, root, u, last), DataFrames(s, root, u + 1, last);
    forall frame | frame in A
      ensures frame in B + {PageFrame(s, root, u)}
    {
      var v :| u <= v <= last && PageFrame(s, root, v) == frame;
      assert v == u || u + 1 <= v <= last;
    }
  }

  lemma GivenNext(s: Vm, s1: Vm, s2: Vm, root: nat, perm: set<nat>, u: nat, last: nat)
    requires u <= last && Given(s1, s2, root, perm, u + 1, last) && Referred(s1, s2, root, u + 1, last)
    requires Leaf(Guest, s2.mem, root, u) == Leaf(Guest, s1.mem, root, u)
    requires var new_ := PageFrame(s1, root, u);
             && Leaf(Guest, s1.mem, root, u) == (0, Word(new_, perm))
             && (forall frame :: RefOf(s1.pool, frame)
                   == RefOf(s.pool, frame) + One(frame in s1.own && frame !in s.own) + One(frame == new_))
             && RefOf(s.pool, new_) == 0 && new_ !in s1.own && InPool(s1.pool, new_)
             && (forall frame :: RefOf(s.pool, frame) > 0 && frame !in s.own ==> frame !in s1.own)
             && (forall frame :: frame in s.own ==> frame in s1.own)
    ensures Given(s, s2, root, perm, u, last) && Referred(s, s2, root, u, last)
  {
    hide Leaf;
    var new_ := PageFrame(s1, root, u);
    assert RefOf(s1.pool, new_) > 0 && RefOf(s2.pool, new_) > 0;
    DataHead(s2, root, u, last);
    assert forall v :: u < v <= last ==> RefOf(s1.pool, PageFrame(s2, root, v)) == 0;
  }

  lemma GivenNone(s: Vm, root: nat, perm: set<nat>, u: nat, last: nat)
    requires u > last
    ensures Given(s, s, root, perm, u, last) && Referred(s, s, root, u, last)
  {
    assert DataFrames(s, root, u, last) == {};
  }

  /** map_pages gives every page of an empty range a frame that was free, no two
      the same, and counts one reference for each of them and each new table. */
  lemma {:induction false} MapPagesGives(s: Vm, root: nat, job: Job, u: nat, last: nat)
    requires Conserved(s) && RangeFits(s, root, root, TOP, job, u, last) && MapsPages(job)
    requires RangeConserves(s, root, job, u, last) && Flat(s, root, TOP, job, u, last).Done?
    ensures var s1 := Flat(s, root, TOP, job, u, last).s;
            Given(s, s1, root, job.cb.perm, u, last) && Referred(s, s1, root, u, last) && Conserved(s1)
    decreases last + 1 - u
  {
    hide Conserved, Visit, Reach, Leaf, Fits, Given, Referred, RangeConserves, RefOf;
    if u <= last {
      MapVisitPages(s, root, job, u, last);
      CreateLevel(s, root, job, u, last);
      var s1 := Visit(s, root, TOP, job, u).s;
      VisitConserves(s, root, job, u, last);
      RangeNext(s, root, root, TOP, job, u, last);
      RestConserves(s, root, job, u, last);
      MapPagesGives(s1, root, job, u + 1, last);
      var s2 := Flat(s, root, TOP, job, u, last).s;
      FitsRoot(s1, root, job);
      UpMonotone(u, last, 4);
      MapPagesElse(s1, root, job, u + 1, last, root, u);
      GivenNext(s, s1, s2, root, job.cb.perm, u, last);
    } else {
      GivenNone(s, root, job.cb.perm, u, last);
    }
  }

  lemma CreateLevel(s: Vm, root: nat, job: Job, u: nat, last: nat)
    requires RangeFits(s, root, root, TOP, job, u, last) && u <= last && job.create == CreateNormal
    requires Visit(s, root, TOP, job, u).Went?
    ensures Visit(s, root, TOP, job, u).level == 0
  {
    RangeVisit(s, root, root, TOP, job, u, last);
    CreateLog(s, root, job, u);
  }

  // ----- unmap -----

  predicate Unmaps(job: Job) {
    job.create == CreateNone && job.cb.Free?
  }

  /** Pages with a 4 KB entry each, naming frames of the pool, no two the same. */
  ghost predicate Held(s: Vm, root: nat, u: nat, last: nat) {
    && (forall v :: u <= v <= last ==>
          && Leaf(Guest, s.mem, root, v).0 == 0 && Leaf(Guest, s.mem, root, v).1 != ZERO
          && InPool(s.pool, PageFrame(s, root, v)) && RefOf(s.pool, PageFrame(s, root, v)) > 0)
    && (forall v, x :: u <= v < x <= last ==> PageFrame(s, root, v) != PageFrame(s, root, x))
  }

  /** An entry that lies, in part, in a range decides some page of the range. */
  lemma TouchedPage(mem: Mem, root: nat, v: nat, u: nat, last: nat) returns (x: nat)
    requires Touched(Leaf(Guest, mem, root, v).0, v, u, last)
    ensures u <= x <= last && Leaf(Guest, mem, root, x).0 == Leaf(Guest, mem, root, v).0
  {
    hide Stop, Up, Lo;
    var l := Leaf(Guest, mem, root, v).0;
    var p := Up(v, l);
    LeafIs(mem, root, v);
    UpZero(u);
    UpZero(v);
    UpZero(last);
    if l == 0 {
      return v;
    }
    x := if Lo(p, l) >= u then Lo(p, l) else u;
    UpLo(p, x, l);
    UpLo(p, last, l);
    UpLo(p + 1, x, l);
    LoStrict(p, l);
    UpLo(p + 1, u, l);
    SameEntry(mem, root, v, x);
  }

  lemma FreeReady(s: Vm, root: nat, job: Job, u: nat, last: nat)
    requires Unmaps(job) && forall v :: u <= v <= last ==> Leaf(Guest, s.mem, root, v).0 == 0
    ensures RangeConserves(s, root, job, u, last)
  {
    hide Leaf;
    forall v | IsPage(v) && Touched(Leaf(Guest, s.mem, root, v).0, v, u, last)
      ensures Leaf(Guest, s.mem, root, v).0 == 0
    {
      var x := TouchedPage(s.mem, root, v, u, last);
    }
  }

  /** One visit of unmap gives the page's reference back. */
  lemma FreeVisit(s: Vm, root: nat, job: Job, u: nat, last: nat)
    requires Conserved(s) && RangeFits(s, root, root, TOP, job, u, last) && u <= last && Unmaps(job)
    requires Held(s, root, u, last)
    ensures Visit(s, root, TOP, job, u).Went?
    ensures var step := Visit(s, root, TOP, job, u);
            && step.level == 0 && step.s.own == s.own
            && (forall frame :: RefOf(step.s.pool, frame) == RefOf(s.pool, frame) - One(frame == PageFrame(s, root, u)))
            && (forall v :: u < v <= last ==> Leaf(Guest, step.s.mem, root, v) == Leaf(Guest, s.mem, root, v))
            && |step.s.pool.refs| == |s.pool.refs|
  {
    hide Conserved, Reach, Stop, Up, Leaf, Visit, Fits;
    RangeVisit(s, root, root, TOP, job, u, last);
    FitsRoot(s, root, job);
    FreeStep(s, root, job, u);
    forall v | u < v <= last
      ensures Leaf(Guest, Visit(s, root, TOP, job, u).s.mem, root, v) == Leaf(Guest, s.mem, root, v)
    {
      UpMonotone(v, last, 4);
      NoneVisit(s, root, job, u, root, v);
      UpZero(v);
      UpZero(u);
    }
    FreeOkOf(s);
    PutOk(s.pool, PageOf(s.pool, PageFrame(s, root, u)));
  }

  /** unmap on a page with a 4 KB entry that names a pool frame. */
  lemma FreeStep(s: Vm, root: nat, job: Job, u: nat)
    requires VisitFits(s, root, root, TOP, job, u) && Unmaps(job) && InPool(s.pool, PageFrame(s, root, u))
    requires Leaf(Guest, s.mem, root, u).0 == 0 && Leaf(Guest, s.mem, root, u).1 != ZERO
    ensures var step := Visit(s, root, TOP, job, u);
            step.Went? && step.level == 0 && step.s.own == s.own
            && step.s.pool == Put(s.pool, PageOf(s.pool, PageFrame(s, root, u)))
  {
    hide Reach, Stop, Locate, Up, Put;
    NonePlace(s, root, job, u);
    NoneWent(s, root, job, u);
    VisitFinds(s, root, root, TOP, job, u);
    UpZero(u);
  }

  lemma FreeOkOf(s: Vm)
    requires Conserved(s)
    ensures FreeOk(s.pool)
  {
  }

  /** unmap drops exactly one reference of each frame in its range. */
  lemma {:induction false} FreeDrops(s: Vm, root: nat, job: Job, u: nat, last: nat)
    requires Conserved(s) && RangeFits(s, root, root, TOP, job, u, last) && Unmaps(job) && Held(s, root, u, last)
    ensures var o := Flat(s, root, TOP, job, u, last);
            && o.Done? && Conserved(o.s) && o.s.own == s.own
            && forall frame ::
                 RefOf(o.s.pool, frame) == RefOf(s.pool, frame) - One(frame in DataFrames(s, root, u, last))
    decreases last + 1 - u
  {
    hide Conserved, Visit, Reach, Fits, RangeConserves, RefOf, Leaf;
    if u <= last {
      FreeVisit(s, root, job, u, last);
      FreeReady(s, root, job, u, last);
      VisitConserves(s, root, job, u, last);
      RangeNext(s, root, root, TOP, job, u, last);
      var s1 := Visit(s, root, TOP, job, u).s;
      HeldNext(s, s1, root, u, last);
      FreeDrops(s1, root, job, u + 1, last);
      DataHead(s, root, u, last);
      SameData(s, s1, root, u + 1, last);
    } else {
      assert DataFrames(s, root, u, last) == {};
    }
  }

  lemma SameData(s: Vm, s1: Vm, root: nat, u: nat, last: nat)
    requires forall v :: u <= v <= last ==> Leaf(Guest, s1.mem, root, v) == Leaf(Guest, s.mem, root, v)
    ensures DataFrames(s1, root, u, last) == DataFrames(s, root, u, last)
  {
    hide Leaf;
    assert forall v :: u <= v <= last ==> PageFrame(s1, root, v) == PageFrame(s, root, v);
  }

  lemma HeldNext(s: Vm, s1: Vm, root: nat, u: nat, last: nat)
    requires Held(s, root, u, last) && u <= last && |s1.pool.refs| == |s.pool.refs|
    requires forall frame :: RefOf(s1.pool, frame) == RefOf(s.pool, frame) - One(frame == PageFrame(s, root, u))
    requires forall v :: u < v <= last ==> Leaf(Guest, s1.mem, root, v) == Leaf(Guest, s.mem, root, v)
    ensures Held(s1, root, u + 1, last)
    ensures PageFrame(s, root, u) !in DataFrames(s, root, u + 1, last)
  {
    hide Leaf, RefOf;
  }

  lemma GivenHeld(s: Vm, s1: Vm, root: nat, perm: set<nat>, u: nat, last: nat)
    requires Given(s, s1, root, perm, u, last) && Referred(s, s1, root, u, last)
    ensures Held(s1, root, u, last)
    ensures forall v :: u <= v <= last ==> RefOf(s1.pool, PageFrame(s1, root, v)) == 1
    ensures forall v :: u <= v <= last ==> PageFrame(s1, root, v) in DataFrames(s1, root, u, last)
  {
    hide Leaf, RefOf, PageFrame;
    forall v | u <= v <= last
      ensures PageFrame(s1, root, v) in DataFrames(s1, root, u, last)
      ensures Leaf(Guest, s1.mem, root, v).1 != ZERO
    {
      assert Leaf(Guest, s1.mem, root, v).1.frame != 0;
    }
  }

  lemma UnmapFits(s: Vm, s1: Vm, root: nat, map_: Job, unmap: Job, u: nat, last: nat)
    requires MapsPages(map_) && Unmaps(unmap) && unmap.high % TWO48 == 0
    requires RangeFits(s, root, root, TOP, map_, u, last) && Flat(s, root, TOP, map_, u, last) == Done(s1)
    ensures RangeFits(s1, root, root, TOP, unmap, u, last) && Keeps(s, s1, 0)
  {
    hide Leaf, Flat, Up, Keeps;
    FlatGoes(s, root, root, TOP, map_, u, last);
    StopStep(Guest, s1.mem, root, TOP, TOP, Up(u, TOP));
  }

  lemma NotTouched(s: Vm, root: nat, u: nat, last: nat, v: nat)
    requires forall x :: u <= x <= last ==> Leaf(Guest, s.mem, root, x) == (0, ZERO)
    requires v < u || v > last
    ensures !Touched(Leaf(Guest, s.mem, root, v).0, v, u, last)
  {
    hide Leaf;
    if Touched(Leaf(Guest, s.mem, root, v).0, v, u, last) {
      var x := TouchedPage(s.mem, root, v, u, last);
      UpZero(u);
      UpZero(v);
      UpZero(last);
    }
  }

  /** Mapping an empty range and unmapping it again restores every translation
      under every root; every count is as before, except that the new tables
      stay, and each data page is back on the free list. */
  lemma MapUnmapRestores(s: Vm, root: nat, map_: Job, unmap: Job, u: nat, last: nat, r: nat, v: nat)
    requires Conserved(s) && MapsPages(map_) && Unmaps(unmap) && unmap.high % TWO48 == 0
    requires RangeFits(s, root, root, TOP, map_, u, last) && Flat(s, root, TOP, map_, u, last).Done?
    requires forall x :: u <= x <= last ==> Leaf(Guest, s.mem, root, x) == (0, ZERO)
    requires IsRoot(s.own, r) && IsPage(v)
    ensures var s1 := Flat(s, root, TOP, map_, u, last).s;
            var o := Flat(s1, root, TOP, unmap, u, last);
            && o.Done? && Conserved(o.s)
            && Leaf(Guest, o.s.mem, r, v) == Leaf(Guest, s.mem, r, v)
            && (forall frame ::
                  RefOf(o.s.pool, frame) == RefOf(s.pool, frame) + One(frame in o.s.own && frame !in s.own))
            && forall x :: u <= x <= last ==>
                 && PageFrame(s1, root, x) !in s.own
                 && RefOf(s1.pool, PageFrame(s1, root, x)) == 1 && RefOf(o.s.pool, PageFrame(s1, root, x)) == 0
  {
    hide Conserved, Leaf, Reach, Flat, RefOf, Keeps;
    MapPagesGives(s, root, map_, u, last);
    var s1 := Flat(s, root, TOP, map_, u, last).s;
    GivenHeld(s, s1, root, map_.cb.perm, u, last);
    UnmapFits(s, s1, root, map_, unmap, u, last);
    FreeDrops(s1, root, unmap, u, last);
    KeepsRoot(s, s1, map_, r);
    NoneWalk(s1, root, unmap, u, last, r, v);
    if r == root && u <= v <= last {
      UpZero(u);
      UpZero(v);
      UpZero(last);
    } else {
      MapPagesElse(s, root, map_, u, last, r, v);
      if r == root {
        NotTouched(s, root, u, last, v);
      }
    }
  }
}
