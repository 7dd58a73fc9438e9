/** The checkpoint of sthread.c: the writable memory of the process is saved once;
    every sthread gets a private copy behind the same addresses, in a page table of its
    own; and when it ends, the pages it has written are restored. */
module Sthread {
  import opened Radix
  import PagePool
  import opened Callbacks
  import opened GuestVm
  import opened VmInvariants
  import opened WalkRanges
  import opened WalkTheorems
  import opened WalkRoom
  import opened CloneTheorems
  import opened CloneRoom
  import opened Addresses
  import opened GuestWalker
  import opened GuestCalls
  import opened Windows
  import opened Paging
  import opened Accesses
  import opened SthreadWalks

  // ----- the segments -----

  /** A segment of the process, from its page `first` on. */
  datatype Segment = Segment(first: nat, count: nat, writable: bool)

  function SegPages(seg: Segment): seq<nat> {
    if seg.writable then seq(seg.count, i requires 0 <= i => seg.first + i) else []
  }

  /** The writable pages, segment by segment: the order of the checkpoint. */
  function PagesOf(segs: seq<Segment>): seq<nat> {
    if segs == [] then [] else PagesOf(segs[..|segs| - 1]) + SegPages(segs[|segs| - 1])
  }

  lemma PagesNext(segs: seq<Segment>, i: nat)
    requires i < |segs|
    ensures PagesOf(segs[..i + 1]) == PagesOf(segs[..i]) + SegPages(segs[i])
  {
    assert segs[..i + 1][..i] == segs[..i];
  }

  lemma {:induction false} PagesPrefix(segs: seq<Segment>, i: nat)
    requires i <= |segs|
    ensures PagesOf(segs[..i]) <= PagesOf(segs)
    decreases |segs| - i
  {
    if i < |segs| {
      PagesNext(segs, i);
      PagesPrefix(segs, i + 1);
    } else {
      assert segs[..i] == segs;
    }
  }

  lemma OwnNone(seg: Segment)
    requires !seg.writable
    ensures SegPages(seg) == []
  {
  }

  lemma OwnCount(seg: Segment)
    requires seg.writable
    ensures |SegPages(seg)| == seg.count && forall j :: 0 <= j < seg.count ==> SegPages(seg)[j] == seg.first + j
  {
  }

  lemma PagesNone(segs: seq<Segment>)
    ensures PagesOf(segs[..0]) == []
  {
  }

  /** The pages of segment `i` in their place among all. */
  lemma OwnIn(segs: seq<Segment>, i: nat)
    requires i < |segs|
    ensures var before := |PagesOf(segs[..i])|;
            before + |SegPages(segs[i])| <= |PagesOf(segs)|
            && forall j :: 0 <= j < |SegPages(segs[i])| ==> SegPages(segs[i])[j] == PagesOf(segs)[before + j]
  {
    hide PagesOf, SegPages;
    PagesNext(segs, i);
    PagesPrefix(segs, i + 1);
    var all, before, own := PagesOf(segs), |PagesOf(segs[..i])|, SegPages(segs[i]);
    assert all[..|PagesOf(segs[..i + 1])|] == PagesOf(segs[..i]) + own;
    forall j | 0 <= j < |own|
      ensures own[j] == all[before + j]
    {
      assert all[..|PagesOf(segs[..i + 1])|][before + j] == own[j];
    }
  }

  /** What a process sees at each of the pages, in their order. */
  ghost function Sights(s: Vm, root: nat, pages: seq<nat>): seq<seq<nat>> {
    seq(|pages|, k requires 0 <= k < |pages| => Seen(s.mem, s.data, root, pages[k]))
  }

  lemma SightsMore(s: Vm, root: nat, p: seq<nat>, q: seq<nat>)
    ensures Sights(s, root, p + q) == Sights(s, root, p) + Sights(s, root, q)
  {
  }

  /** memcpy of one segment. */
  method CopySegment(a: AddressSpace, root: nat, seg: Segment) returns (c: seq<seq<nat>>)
    requires seg.writable
    ensures c == Sights(a.State(), root, SegPages(seg))
  {
    hide Seen;
    c := [];
    for j := 0 to seg.count
      invariant c == Sights(a.State(), root, SegPages(seg)[..j])
    {
      assert SegPages(seg)[..j + 1] == SegPages(seg)[..j] + [seg.first + j];
      c := c + [Seen(a.mem, a.data, root, seg.first + j)];
    }
    assert SegPages(seg)[..seg.count] == SegPages(seg);
  }

  /** checkpoint_do: the k-th page of the checkpoint is the k-th writable page. */
  method CheckpointDo(a: AddressSpace, root: nat, segs: seq<Segment>) returns (saved: seq<seq<nat>>)
    ensures saved == Sights(a.State(), root, PagesOf(segs))
  {
    hide PagesOf, SegPages, Seen, Sights;
    saved := [];
    PagesNone(segs);
    SightsMore(a.State(), root, [], []);
    assert Sights(a.State(), root, []) == [] by {
      NoSights(a.State(), root);
    }
    var i := 0;
    while i < |segs|
      invariant i <= |segs| && saved == Sights(a.State(), root, PagesOf(segs[..i]))
    {
      PagesNext(segs, i);
      SightsMore(a.State(), root, PagesOf(segs[..i]), SegPages(segs[i]));
      if segs[i].writable {
        var c := CopySegment(a, root, segs[i]);
        saved := saved + c;
      } else {
        OwnNone(segs[i]);
        assert PagesOf(segs[..i]) + [] == PagesOf(segs[..i]);
      }
      i := i + 1;
    }
    assert segs[..|segs|] == segs;
  }

  lemma NoSights(s: Vm, root: nat)
    ensures Sights(s, root, []) == []
  {
  }

  // ----- an sthread -----

  /** What does not change about an sthread: the layout of the process, the
      checkpoint, and where its private copy and its stack are. */
  datatype Plan = Plan(l: Layout, segs: seq<Segment>, saved: seq<seq<nat>>, copyAt: nat, stackAt: nat, stackPages: nat)

  function Pages(plan: Plan): seq<nat> {
    PagesOf(plan.segs)
  }

  function StackPage(plan: Plan, j: nat): nat {
    plan.stackAt / PAGE_SIZE + j
  }

  /** The frame behind page `k` of the private copy, or of the stack. */
  function CopyFrame(plan: Plan, k: nat): nat
    requires Valid(plan.l)
  {
    FrameOfPa(DuneVaToPa(plan.l, plan.copyAt + k * PAGE_SIZE))
  }

  function StackFrame(plan: Plan, j: nat): nat
    requires Valid(plan.l)
  {
    FrameOfPa(DuneVaToPa(plan.l, plan.stackAt + j * PAGE_SIZE))
  }

  function CopyFrames(plan: Plan): seq<nat>
    requires Valid(plan.l)
  {
    seq(|Pages(plan)|, k requires 0 <= k => CopyFrame(plan, k))
  }

  function StackFrames(plan: Plan): seq<nat>
    requires Valid(plan.l)
  {
    seq(plan.stackPages, j requires 0 <= j => StackFrame(plan, j))
  }

  lemma NthCopy(plan: Plan, k: nat)
    requires Valid(plan.l) && k < |Pages(plan)| == |plan.saved|
    ensures Nth(CopyFrames(plan), k * PAGE_SIZE, 0) == CopyFrame(plan, k)
            && Nth(plan.saved, k * PAGE_SIZE, []) == plan.saved[k]
  {
    hide CopyFrame, PagesOf;
    assert k * PAGE_SIZE / PAGE_SIZE == k;
  }

  lemma NthStack(plan: Plan, j: nat)
    requires Valid(plan.l) && j < plan.stackPages
    ensures Nth(StackFrames(plan), j * PAGE_SIZE, 0) == StackFrame(plan, j)
  {
    hide StackFrame;
    assert j * PAGE_SIZE / PAGE_SIZE == j;
  }

  /** The frames that are the sthread's own. */
  ghost predicate Private(plan: Plan, frame: nat)
    requires Valid(plan.l)
  {
    || (exists k {:trigger CopyFrame(plan, k)} :: 0 <= k < |Pages(plan)| && frame == CopyFrame(plan, k))
    || (exists j {:trigger StackFrame(plan, j)} :: 0 <= j < plan.stackPages && frame == StackFrame(plan, j))
  }

  /** Copy and stack lie in the windows, apart from each other; no page is in two
      segments, or in a segment and the stack. */
  ghost predicate Laid(plan: Plan) {
    var n := |Pages(plan)|;
    && Valid(plan.l) && plan.l.physEnd <= TWO48
    && plan.copyAt % PAGE_SIZE == 0 && plan.stackAt % PAGE_SIZE == 0
    && (plan.copyAt + n * PAGE_SIZE <= plan.stackAt || plan.stackAt + plan.stackPages * PAGE_SIZE <= plan.copyAt)
    && (forall k :: 0 <= k < n ==> HvaToGpa(plan.l, plan.copyAt + k * PAGE_SIZE).Some?)
    && (forall j :: 0 <= j < plan.stackPages ==> HvaToGpa(plan.l, plan.stackAt + j * PAGE_SIZE).Some?)
    && (forall i, k :: 0 <= i < k < n ==> Pages(plan)[i] != Pages(plan)[k])
    && (forall k, j :: 0 <= k < n && 0 <= j < plan.stackPages ==> Pages(plan)[k] != StackPage(plan, j))
    && (forall k :: 0 <= k < n ==> IsPage(Pages(plan)[k]))
    && (forall j :: 0 <= j < plan.stackPages ==> IsPage(StackPage(plan, j)))
    && (forall i :: 0 <= i < |plan.segs| ==> plan.segs[i].count > 0)
  }

  ghost predicate Sane(plan: Plan) {
    Laid(plan) && |Pages(plan)| == |plan.saved|
  }

  predicate CopySaved(plan: Plan, data: Data, k: nat)
    requires Valid(plan.l) && k < |plan.saved|
  {
    Bytes(data, CopyFrame(plan, k)) == plan.saved[k]
  }

  predicate StackZero(plan: Plan, data: Data, j: nat)
    requires Valid(plan.l)
  {
    Bytes(data, StackFrame(plan, j)) == ZeroPage()
  }

  /** The sthread's k-th writable page is mapped, for reading and writing, to page k of
      its copy; and if it is not dirty it holds what the checkpoint holds. */
  ghost predicate CopyOk(plan: Plan, s: Vm, root: nat, k: nat)
    requires Valid(plan.l) && k < |Pages(plan)| == |plan.saved|
  {
    var (l, w) := Leaf(Guest, s.mem, root, Pages(plan)[k]);
    && l == 0 && w.frame == CopyFrame(plan, k) && REMAP_BITS <= w.bits
    && (PTE_D !in w.bits ==> CopySaved(plan, s.data, k))
  }

  ghost predicate StackOk(plan: Plan, s: Vm, root: nat, j: nat)
    requires Valid(plan.l)
  {
    var (l, w) := Leaf(Guest, s.mem, root, StackPage(plan, j));
    && l == 0 && w.frame == StackFrame(plan, j) && {PTE_P, PTE_W} <= w.bits
    && (PTE_D !in w.bits ==> StackZero(plan, s.data, j))
  }

  ghost predicate HasTable(s: Vm, root: nat) {
    Tree(Guest, s.mem, s.own) && IsRoot(s.own, root)
  }

  /** Every page is well; the first `k` of the copy and the first `j` of the stack
      are as they were at the start. */
  ghost predicate Recycled(plan: Plan, s: Vm, root: nat, k: nat, j: nat) {
    && Sane(plan) && HasTable(s, root) && k <= |Pages(plan)| && j <= plan.stackPages
    && (forall i {:trigger CopyOk(plan, s, root, i)} :: 0 <= i < |Pages(plan)| ==> CopyOk(plan, s, root, i))
    && (forall i {:trigger StackOk(plan, s, root, i)} :: 0 <= i < plan.stackPages ==> StackOk(plan, s, root, i))
    && (forall i {:trigger CopySaved(plan, s.data, i)} :: 0 <= i < k ==> CopySaved(plan, s.data, i))
    && (forall i {:trigger StackZero(plan, s.data, i)} :: 0 <= i < j ==> StackZero(plan, s.data, i))
  }

  /** While the copy is being mapped: the first `k` pages are, and the copy and the stack
      hold what they should. */
  ghost predicate Remapped(plan: Plan, s: Vm, root: nat, k: nat) {
    && Sane(plan) && HasTable(s, root) && k <= |Pages(plan)|
    && (forall i {:trigger CopyOk(plan, s, root, i)} :: 0 <= i < k ==> CopyOk(plan, s, root, i))
    && (forall i {:trigger StackOk(plan, s, root, i)} :: 0 <= i < plan.stackPages ==> StackOk(plan, s, root, i))
    && (forall i {:trigger CopySaved(plan, s.data, i)} :: 0 <= i < |Pages(plan)| ==> CopySaved(plan, s.data, i))
    && (forall i {:trigger StackZero(plan, s.data, i)} :: 0 <= i < plan.stackPages ==> StackZero(plan, s.data, i))
  }

  /** What the rest of the process notices: nothing. Under every other root the pages have
      the frames they had, and frames that are not the sthread's keep their contents. */
  ghost predicate Others(plan: Plan, s: Vm, s1: Vm, root: nat)
    requires Valid(plan.l)
  {
    && (forall r :: r != root && IsRoot(s.own, r) ==> IsRoot(s1.own, r))
    && (forall r, x :: r != root && IsRoot(s.own, r) && IsPage(x) ==>
          Alike(Guest, Leaf(Guest, s.mem, r, x), Leaf(Guest, s1.mem, r, x)))
    && (forall f :: !Private(plan, f) ==> Bytes(s1.data, f) == Bytes(s.data, f))
  }

  lemma OthersRefl(plan: Plan, s: Vm, root: nat)
    requires Valid(plan.l)
    ensures Others(plan, s, s, root)
  {
    hide Leaf;
  }

  lemma OthersTrans(plan: Plan, s: Vm, s1: Vm, s2: Vm, root: nat)
    requires Valid(plan.l) && Others(plan, s, s1, root) && Others(plan, s1, s2, root)
    ensures Others(plan, s, s2, root)
  {
    hide Leaf, Private, IsRoot;
    forall r, x | r != root && IsRoot(s.own, r) && IsPage(x)
      ensures Alike(Guest, Leaf(Guest, s.mem, r, x), Leaf(Guest, s2.mem, r, x))
    {
      AlikeTrans(Leaf(Guest, s.mem, r, x), Leaf(Guest, s1.mem, r, x), Leaf(Guest, s2.mem, r, x));
    }
  }

  lemma AlikeTrans(e: (nat, Word), e1: (nat, Word), e2: (nat, Word))
    requires Alike(Guest, e, e1) && Alike(Guest, e1, e2)
    ensures Alike(Guest, e, e2)
  {
  }

  // ----- the frames differ -----

  lemma CopyFrameDiffers(plan: Plan, i: nat, k: nat)
    requires Sane(plan) && i < |Pages(plan)| && k < |Pages(plan)| && i != k
    ensures CopyFrame(plan, i) != CopyFrame(plan, k)
  {
    hide HvaToGpa, DuneVaToPa, FrameOfPa, PagesOf;
    Shifted(plan.copyAt, i);
    Shifted(plan.copyAt, k);
    FramesDiffer(plan.l, plan.copyAt + i * PAGE_SIZE, plan.copyAt + k * PAGE_SIZE);
  }

  lemma StackFrameDiffers(plan: Plan, i: nat, j: nat)
    requires Sane(plan) && i < plan.stackPages && j < plan.stackPages && i != j
    ensures StackFrame(plan, i) != StackFrame(plan, j)
  {
    hide HvaToGpa, DuneVaToPa, FrameOfPa, PagesOf;
    Shifted(plan.stackAt, i);
    Shifted(plan.stackAt, j);
    FramesDiffer(plan.l, plan.stackAt + i * PAGE_SIZE, plan.stackAt + j * PAGE_SIZE);
  }

  lemma CopyStackDiffer(plan: Plan, k: nat, j: nat)
    requires Sane(plan) && k < |Pages(plan)| && j < plan.stackPages
    ensures CopyFrame(plan, k) != StackFrame(plan, j)
  {
    hide HvaToGpa, DuneVaToPa, FrameOfPa, PagesOf;
    Shifted(plan.copyAt, k);
    Shifted(plan.stackAt, j);
    FramesDiffer(plan.l, plan.copyAt + k * PAGE_SIZE, plan.stackAt + j * PAGE_SIZE);
  }

  // ----- one call of a callback -----

  lemma CopyStep(plan: Plan, s: Vm, s1: Vm, root: nat, k: nat)
    requires Recycled(plan, s, root, k, 0) && k < |Pages(plan)| && s.walk == k * PAGE_SIZE && HasTable(s1, root)
    requires Passed(s, s1, root, Recycle(CopyFrames(plan), plan.saved), Pages(plan)[k])
    ensures Recycled(plan, s1, root, k + 1, 0) && s1.walk == (k + 1) * PAGE_SIZE
  {
    hide Leaf, Tree, CopyFrame, StackFrame, StackPage, CopyFrames, PagesOf, ZeroPage, Nth;
    NthCopy(plan, k);
    assert CopyOk(plan, s, root, k);
    forall i | 0 <= i < |Pages(plan)|
      ensures CopyOk(plan, s1, root, i) && (i <= k ==> CopySaved(plan, s1.data, i))
    {
      assert CopyOk(plan, s, root, i) && (i < k ==> CopySaved(plan, s.data, i));
      if i != k {
        CopyFrameDiffers(plan, i, k);
      }
    }
    forall j | 0 <= j < plan.stackPages
      ensures StackOk(plan, s1, root, j)
    {
      assert StackOk(plan, s, root, j);
      CopyStackDiffer(plan, k, j);
    }
  }

  lemma StackStep(plan: Plan, s: Vm, s1: Vm, root: nat, j: nat)
    requires Recycled(plan, s, root, |Pages(plan)|, j) && j < plan.stackPages && s.walk == j * PAGE_SIZE
             && HasTable(s1, root)
    requires Passed(s, s1, root, RecycleStack(StackFrames(plan)), StackPage(plan, j))
    ensures Recycled(plan, s1, root, |Pages(plan)|, j + 1) && s1.walk == (j + 1) * PAGE_SIZE
  {
    hide Leaf, Tree, CopyFrame, StackFrame, StackFrames, PagesOf, ZeroPage, Nth;
    NthStack(plan, j);
    assert StackOk(plan, s, root, j);
    forall i | 0 <= i < |Pages(plan)|
      ensures CopyOk(plan, s1, root, i) && CopySaved(plan, s1.data, i)
    {
      assert CopyOk(plan, s, root, i) && CopySaved(plan, s.data, i);
      CopyStackDiffer(plan, i, j);
    }
    forall i | 0 <= i < plan.stackPages
      ensures StackOk(plan, s1, root, i) && (i <= j ==> StackZero(plan, s1.data, i))
    {
      assert StackOk(plan, s, root, i) && (i < j ==> StackZero(plan, s.data, i));
      if i != j {
        StackFrameDiffers(plan, i, j);
      }
    }
  }

  lemma RemapStep(plan: Plan, s: Vm, s1: Vm, root: nat, k: nat)
    requires Remapped(plan, s, root, k) && k < |Pages(plan)| && s.walk == k * PAGE_SIZE && HasTable(s1, root)
    requires Passed(s, s1, root, Remap(CopyFrames(plan)), Pages(plan)[k])
    ensures Remapped(plan, s1, root, k + 1) && s1.walk == (k + 1) * PAGE_SIZE
  {
    hide Leaf, Tree, CopyFrame, StackFrame, StackPage, CopyFrames, PagesOf, ZeroPage, Nth;
    NthCopy(plan, k);
    assert s1.data == s.data;
    forall i | 0 <= i < k + 1
      ensures CopyOk(plan, s1, root, i)
    {
      assert CopySaved(plan, s.data, i) && (i < k ==> CopyOk(plan, s, root, i));
    }
    forall j | 0 <= j < plan.stackPages
      ensures StackOk(plan, s1, root, j)
    {
      assert StackOk(plan, s, root, j);
    }
    assert forall i :: 0 <= i < |Pages(plan)| ==> CopySaved(plan, s.data, i) ==> CopySaved(plan, s1.data, i);
    assert forall j :: 0 <= j < plan.stackPages ==> StackZero(plan, s.data, j) ==> StackZero(plan, s1.data, j);
  }

  /** The frame that a callback may write to, if any, is the sthread's own. */
  ghost predicate Confined(plan: Plan, s: Vm, cb: Callback)
    requires Valid(plan.l)
  {
    match cb
    case Remap(_) => true
    case Recycle(copy, _) => Private(plan, Nth(copy, s.walk, 0))
    case RecycleStack(stack) => Private(plan, Nth(stack, s.walk, 0))
    case _ => false
  }

  lemma PassOthers(plan: Plan, s: Vm, s1: Vm, root: nat, job: Job, v: nat)
    requires Valid(plan.l) && Passed(s, s1, root, job.cb, v) && Goes(s, s1, root, job) && Confined(plan, s, job.cb)
    ensures Others(plan, s, s1, root)
  {
    hide Leaf, Private, Nth, Fits, Sound;
    forall r | IsRoot(s.own, r)
      ensures IsRoot(s1.own, r)
    {
      KeepsRoot(s, s1, job, r);
    }
  }

  // ----- a walk over a segment -----

  function CountUp(u: nat, n: nat): seq<nat> {
    seq(n, i requires 0 <= i => u + i)
  }

  /** From the k-th on, the writable pages are `u`, `u + 1`, up to `last`. */
  predicate InPlace(plan: Plan, k: nat, u: nat, last: nat) {
    u <= last + 1 && k + (last + 1 - u) <= |Pages(plan)|
    && Pages(plan)[k..k + (last + 1 - u)] == CountUp(u, last + 1 - u)
  }

  lemma InPlaceHead(plan: Plan, k: nat, u: nat, last: nat)
    requires InPlace(plan, k, u, last) && u <= last
    ensures k < |Pages(plan)| && Pages(plan)[k] == u && InPlace(plan, k + 1, u + 1, last)
  {
    hide PagesOf;
    var all := Pages(plan)[k..k + (last + 1 - u)];
    assert all[0] == u && all[1..] == CountUp(u + 1, last - u);
  }

  lemma InPlaceEnd(plan: Plan, k: nat, u: nat, last: nat)
    requires InPlace(plan, k, u, last)
    ensures u <= last + 1 && k + (last + 1 - u) <= |Pages(plan)|
  {
  }

  lemma InPlaceAt(plan: Plan, k: nat, u: nat, last: nat, v: nat)
    requires InPlace(plan, k, u, last) && u <= v <= last
    ensures Pages(plan)[k + (v - u)] == v
  {
    hide PagesOf;
    assert Pages(plan)[k..k + (last + 1 - u)][v - u] == CountUp(u, last + 1 - u)[v - u];
  }

  lemma CopyFull(plan: Plan, s: Vm, root: nat, k: nat, u: nat, last: nat)
    requires Sane(plan) && InPlace(plan, k, u, last)
    requires forall i {:trigger CopyOk(plan, s, root, i)} :: 0 <= i < |Pages(plan)| ==> CopyOk(plan, s, root, i)
    ensures Full(s.mem, root, u, last)
  {
    hide Leaf, PagesOf, CopyFrame;
    forall v | u <= v <= last
      ensures Small4K(s.mem, root, v)
    {
      InPlaceAt(plan, k, u, last, v);
      assert CopyOk(plan, s, root, k + (v - u));
    }
  }

  lemma RangeTable(s: Vm, root: nat, job: Job, u: nat, last: nat)
    requires RangeFits(s, root, root, TOP, job, u, last)
    ensures HasTable(s, root)
  {
  }

  lemma RecycledRoot(plan: Plan, s: Vm, root: nat, k: nat, j: nat)
    requires Recycled(plan, s, root, k, j)
    ensures Sane(plan) && Valid(plan.l) && |plan.saved| == |Pages(plan)| && HasTable(s, root)
    ensures forall i {:trigger CopyOk(plan, s, root, i)} :: 0 <= i < |Pages(plan)| ==> CopyOk(plan, s, root, i)
    ensures forall i {:trigger StackOk(plan, s, root, i)} :: 0 <= i < plan.stackPages ==> StackOk(plan, s, root, i)
  {
  }

  function RecycleJob(plan: Plan): Job
    requires Valid(plan.l)
  {
    Job(CreateNone, Recycle(CopyFrames(plan), plan.saved), 0)
  }

  function StackJob(plan: Plan): Job
    requires Valid(plan.l)
  {
    Job(CreateNone, RecycleStack(StackFrames(plan)), 0)
  }

  function RemapJob(plan: Plan): Job
    requires Valid(plan.l)
  {
    Job(CreateNone, Remap(CopyFrames(plan)), 0)
  }

  lemma {:induction false} RecycleWalk(plan: Plan, s: Vm, root: nat, u: nat, last: nat, k: nat)
    requires Recycled(plan, s, root, k, 0) && s.walk == k * PAGE_SIZE && InPlace(plan, k, u, last)
    requires RangeFits(s, root, root, TOP, RecycleJob(plan), u, last)
    ensures var o := Flat(s, root, TOP, RecycleJob(plan), u, last); var n := k + (last + 1 - u);
            o.Done? && Recycled(plan, o.s, root, n, 0) && o.s.walk == n * PAGE_SIZE && Others(plan, s, o.s, root)
    decreases last + 1 - u
  {
    hide Visit, RangeFits, Full, Goes, Recycled, Others, Sane, CopyFrames, PagesOf, InPlace, Passed, HasTable;
    RecycledRoot(plan, s, root, k, 0);
    InPlaceEnd(plan, k, u, last);
    var job := RecycleJob(plan);
    if u <= last {
      InPlaceHead(plan, k, u, last);
      CopyFull(plan, s, root, k, u, last);
      PassNext(s, root, job, u, last);
      var s1 := Visit(s, root, TOP, job, u).s;
      RangeTable(s1, root, job, u + 1, last);
      CopyStep(plan, s, s1, root, k);
      NthCopy(plan, k);
      PassOthers(plan, s, s1, root, job, u);
      RecycleWalk(plan, s1, root, u + 1, last, k + 1);
      OthersTrans(plan, s, s1, Flat(s, root, TOP, job, u, last).s, root);
    } else {
      OthersRefl(plan, s, root);
    }
  }

  lemma {:induction false} RemapWalk(plan: Plan, s: Vm, root: nat, u: nat, last: nat, k: nat)
    requires Remapped(plan, s, root, k) && s.walk == k * PAGE_SIZE && InPlace(plan, k, u, last)
    requires RangeFits(s, root, root, TOP, RemapJob(plan), u, last) && Full(s.mem, root, u, last)
    ensures var o := Flat(s, root, TOP, RemapJob(plan), u, last); var n := k + (last + 1 - u);
            && o.Done? && Remapped(plan, o.s, root, n) && o.s.walk == n * PAGE_SIZE && Others(plan, s, o.s, root)
            && forall v :: IsPage(v) && Small4K(s.mem, root, v) ==> Small4K(o.s.mem, root, v)
    decreases last + 1 - u
  {
    hide Visit, RangeFits, Full, Goes, Remapped, Others, Sane, CopyFrames, PagesOf, InPlace, Passed, HasTable;
    RemappedSane(plan, s, root, k);
    InPlaceEnd(plan, k, u, last);
    var job := RemapJob(plan);
    if u <= last {
      InPlaceHead(plan, k, u, last);
      PassNext(s, root, job, u, last);
      var s1 := Visit(s, root, TOP, job, u).s;
      RangeTable(s1, root, job, u + 1, last);
      RemapStep(plan, s, s1, root, k);
      PassOthers(plan, s, s1, root, job, u);
      RangeTable(s, root, job, u, last);
      RemapSmall(s, s1, root, job.cb, u);
      RemapWalk(plan, s1, root, u + 1, last, k + 1);
      OthersTrans(plan, s, s1, Flat(s, root, TOP, job, u, last).s, root);
    } else {
      OthersRefl(plan, s, root);
    }
  }

  lemma RemappedSane(plan: Plan, s: Vm, root: nat, k: nat)
    requires Remapped(plan, s, root, k)
    ensures Sane(plan) && Valid(plan.l) && |plan.saved| == |Pages(plan)| && HasTable(s, root)
  {
  }

  lemma RemapSmall(s: Vm, s1: Vm, root: nat, cb: Callback, u: nat)
    requires Passed(s, s1, root, cb, u) && cb.Remap? && HasTable(s, root)
    ensures forall v :: IsPage(v) && Small4K(s.mem, root, v) ==> Small4K(s1.mem, root, v)
  {
    hide Leaf, Tree, Nth;
  }

  lemma {:induction false} StackWalk(plan: Plan, s: Vm, root: nat, j: nat)
    requires Recycled(plan, s, root, |Pages(plan)|, j) && s.walk == j * PAGE_SIZE && plan.stackPages > 0
    requires RangeFits(s, root, root, TOP, StackJob(plan), StackPage(plan, j), StackPage(plan, plan.stackPages - 1))
    ensures var o := Flat(s, root, TOP, StackJob(plan), StackPage(plan, j), StackPage(plan, plan.stackPages - 1));
            o.Done? && Recycled(plan, o.s, root, |Pages(plan)|, plan.stackPages) && Others(plan, s, o.s, root)
    decreases plan.stackPages - j
  {
    hide Visit, RangeFits, Full, Goes, Recycled, Others, Sane, StackFrames, PagesOf, Passed, HasTable;
    RecycledRoot(plan, s, root, |Pages(plan)|, j);
    var job := StackJob(plan);
    RecycledBound(plan, s, root, |Pages(plan)|, j);
    var u, last := StackPage(plan, j), StackPage(plan, plan.stackPages - 1);
    if j < plan.stackPages {
      StackFull(plan, s, root, j);
      PassNext(s, root, job, u, last);
      var s1 := Visit(s, root, TOP, job, u).s;
      RangeTable(s1, root, job, u + 1, last);
      StackStep(plan, s, s1, root, j);
      NthStack(plan, j);
      PassOthers(plan, s, s1, root, job, u);
      assert StackPage(plan, j + 1) == u + 1;
      StackWalk(plan, s1, root, j + 1);
      OthersTrans(plan, s, s1, Flat(s, root, TOP, job, u, last).s, root);
    } else {
      OthersRefl(plan, s, root);
    }
  }

  lemma RecycledBound(plan: Plan, s: Vm, root: nat, k: nat, j: nat)
    requires Recycled(plan, s, root, k, j)
    ensures j <= plan.stackPages
  {
  }

  lemma StackFull(plan: Plan, s: Vm, root: nat, j: nat)
    requires Valid(plan.l) && j < plan.stackPages
    requires forall i {:trigger StackOk(plan, s, root, i)} :: 0 <= i < plan.stackPages ==> StackOk(plan, s, root, i)
    ensures Full(s.mem, root, StackPage(plan, j), StackPage(plan, plan.stackPages - 1))
  {
    hide Leaf, StackFrame;
    forall v | StackPage(plan, j) <= v <= StackPage(plan, plan.stackPages - 1)
      ensures Small4K(s.mem, root, v)
    {
      assert v == StackPage(plan, v - StackPage(plan, 0));
      assert StackOk(plan, s, root, v - StackPage(plan, 0));
    }
  }

  // ----- a store of the sthread -----

  /** The sthread may write to the page: it is in a writable segment or its stack. */
  ghost predicate Mine(plan: Plan, page: nat) {
    || (exists k :: 0 <= k < |Pages(plan)| && Pages(plan)[k] == page)
    || (exists j {:trigger StackPage(plan, j)} :: 0 <= j < plan.stackPages && page == StackPage(plan, j))
  }

  /** The state after the processor has let a store to the page through. */
  function AfterStore(s: Vm, root: nat, page: nat, content: seq<nat>): Vm {
    s.(mem := AfterAccess(Guest, s.mem, root, TOP, page, true),
       data := s.data[Leaf(Guest, s.mem, root, page).1.frame := content])
  }

  lemma StoreMarks(s: Vm, root: nat, page: nat, content: seq<nat>)
    requires HasTable(s, root) && IsPage(page)
    requires Leaf(Guest, s.mem, root, page).0 == 0 && PTE_P in Leaf(Guest, s.mem, root, page).1.bits
    ensures var s1 := AfterStore(s, root, page, content);
            && HasTable(s1, root) && PTE_D in Leaf(Guest, s1.mem, root, page).1.bits
            && forall r, x :: Alike(Guest, Leaf(Guest, s.mem, r, x), Leaf(Guest, s1.mem, r, x))
    ensures HardwareWalk(s.mem, root, TOP, page, true, true, false).Some?
            && HardwareWalk(s.mem, root, TOP, page, true, true, false).value.word == Leaf(Guest, s.mem, root, page).1
  {
    hide Tree, Stop, AfterAccess, HardwareWalk;
    RootAt(s.own, root, 0, page);
    HardwareAgrees(s.mem, s.own, root, root, TOP, page);
    AccessMarks(Guest, s.mem, s.own, root, root, TOP, page, true);
    AccessAlike(Guest, s.mem, s.own, root, root, TOP, page, true, root, page);
    forall r, x
      ensures Alike(Guest, Leaf(Guest, s.mem, r, x), Leaf(Guest, AfterStore(s, root, page, content).mem, r, x))
    {
      AccessAlike(Guest, s.mem, s.own, root, root, TOP, page, true, r, x);
    }
  }

  /** The page has a frame of the sthread's own, behind no other of its pages. */
  lemma MineFrame(plan: Plan, s: Vm, root: nat, page: nat)
    requires Recycled(plan, s, root, 0, 0) && Mine(plan, page)
    ensures var (l, w) := Leaf(Guest, s.mem, root, page);
            && l == 0 && PTE_P in w.bits && PTE_W in w.bits && Private(plan, w.frame) && IsPage(page)
            && (forall i :: 0 <= i < |Pages(plan)| && Pages(plan)[i] != page ==> CopyFrame(plan, i) != w.frame)
            && (forall j :: 0 <= j < plan.stackPages && StackPage(plan, j) != page ==> StackFrame(plan, j) != w.frame)
  {
    hide Leaf, Tree, CopyFrame, StackFrame, StackPage, PagesOf;
    if k :| 0 <= k < |Pages(plan)| && Pages(plan)[k] == page {
      assert CopyOk(plan, s, root, k);
      forall i | 0 <= i < |Pages(plan)| && i != k
        ensures CopyFrame(plan, i) != CopyFrame(plan, k)
      {
        CopyFrameDiffers(plan, i, k);
      }
      forall j | 0 <= j < plan.stackPages
        ensures StackFrame(plan, j) != CopyFrame(plan, k)
      {
        CopyStackDiffer(plan, k, j);
      }
    } else {
      var m :| 0 <= m < plan.stackPages && page == StackPage(plan, m);
      assert StackOk(plan, s, root, m);
      forall i | 0 <= i < |Pages(plan)|
        ensures CopyFrame(plan, i) != StackFrame(plan, m)
      {
        CopyStackDiffer(plan, i, m);
      }
      forall j | 0 <= j < plan.stackPages && j != m
        ensures StackFrame(plan, j) != StackFrame(plan, m)
      {
        StackFrameDiffers(plan, j, m);
      }
    }
  }

  lemma StoreStep(plan: Plan, s: Vm, root: nat, page: nat, content: seq<nat>)
    requires Recycled(plan, s, root, 0, 0) && Mine(plan, page)
    ensures Recycled(plan, AfterStore(s, root, page, content), root, 0, 0)
            && Others(plan, s, AfterStore(s, root, page, content), root)
  {
    hide Leaf, Tree, CopyFrame, StackFrame, StackPage, PagesOf, AfterAccess, Private, Mine;
    var s1 := AfterStore(s, root, page, content);
    MineFrame(plan, s, root, page);
    StoreMarks(s, root, page, content);
    forall i | 0 <= i < |Pages(plan)|
      ensures CopyOk(plan, s1, root, i)
    {
      assert CopyOk(plan, s, root, i);
    }
    forall j | 0 <= j < plan.stackPages
      ensures StackOk(plan, s1, root, j)
    {
      assert StackOk(plan, s, root, j);
    }
  }

  // ----- in place -----

  lemma PageAddress(page: nat)
    requires IsPage(page)
    ensures PageOfVa(page * PAGE_SIZE) == page && High(page * PAGE_SIZE) == 0 && Up(page, 0) == page
  {
    PageRange(page);
  }

  /** A writable segment in its place. */
  lemma SegmentInPlace(plan: Plan, i: nat)
    requires Laid(plan) && i < |plan.segs| && plan.segs[i].writable
    ensures var seg := plan.segs[i]; var k, last := |PagesOf(plan.segs[..i])|, seg.first + seg.count - 1;
            && InPlace(plan, k, seg.first, last) && seg.first <= last && IsPage(seg.first) && IsPage(last)
            && |PagesOf(plan.segs[..i + 1])| == k + (last + 1 - seg.first)
  {
    hide PagesOf, SegPages;
    var seg := plan.segs[i];
    var k := |PagesOf(plan.segs[..i])|;
    OwnIn(plan.segs, i);
    OwnCount(seg);
    PagesNext(plan.segs, i);
    forall j | 0 <= j < seg.count
      ensures Pages(plan)[k..k + seg.count][j] == CountUp(seg.first, seg.count)[j]
    {
      assert SegPages(seg)[j] == Pages(plan)[k + j];
    }
    assert Pages(plan)[k..k + seg.count] == CountUp(seg.first, seg.count);
    assert Pages(plan)[k] == seg.first && Pages(plan)[k + (seg.count - 1)] == seg.first + (seg.count - 1);
  }

  lemma SegmentFull(plan: Plan, s: Vm, root: nat, k: nat, u: nat, last: nat)
    requires InPlace(plan, k, u, last) && forall i :: 0 <= i < |Pages(plan)| ==> Small4K(s.mem, root, Pages(plan)[i])
    ensures Full(s.mem, root, u, last)
  {
    hide Leaf, PagesOf, Small4K;
    forall v | u <= v <= last
      ensures Small4K(s.mem, root, v)
    {
      InPlaceAt(plan, k, u, last, v);
      assert Small4K(s.mem, root, Pages(plan)[k + (v - u)]);
    }
  }

  lemma SmallKept4K(plan: Plan, s: Vm, s1: Vm, root: nat)
    requires Laid(plan) && forall v :: IsPage(v) && Small4K(s.mem, root, v) ==> Small4K(s1.mem, root, v)
    requires forall i :: 0 <= i < |Pages(plan)| ==> Small4K(s.mem, root, Pages(plan)[i])
    ensures forall i :: 0 <= i < |Pages(plan)| ==> Small4K(s1.mem, root, Pages(plan)[i])
  {
    hide Small4K, PagesOf;
  }

  /** The counter is set back. */
  lemma ResetRecycled(plan: Plan, s: Vm, root: nat, k: nat, j: nat)
    requires Recycled(plan, s, root, k, j)
    ensures Recycled(plan, s.(walk := 0), root, k, j) && Others(plan, s, s.(walk := 0), root)
  {
    hide Leaf, CopyFrame, StackFrame, PagesOf, Sane, Tree;
    RecycledRoot(plan, s, root, k, j);
    OthersRefl(plan, s, root);
    forall i | 0 <= i < |Pages(plan)|
      ensures CopyOk(plan, s.(walk := 0), root, i)
    {
      assert CopyOk(plan, s, root, i);
    }
    forall i | 0 <= i < plan.stackPages
      ensures StackOk(plan, s.(walk := 0), root, i)
    {
      assert StackOk(plan, s, root, i);
    }
  }

  lemma RecycledLess(plan: Plan, s: Vm, root: nat, k: nat, j: nat)
    requires Recycled(plan, s, root, k, j)
    ensures Recycled(plan, s, root, k, 0) && Recycled(plan, s, root, 0, 0)
  {
  }

  /** What create_new_sthread finds: under the process's root `main` every writable page
      has a 4 KB entry, and the new stack is mapped where it lies, and empty. */
  ghost predicate Prepared(plan: Plan, s: Vm, main: nat)
    requires Valid(plan.l)
  {
    && (forall k :: 0 <= k < |Pages(plan)| ==> Small4K(s.mem, main, Pages(plan)[k]))
    && (forall j :: 0 <= j < plan.stackPages ==>
          StackOk(plan, s, main, j) && StackZero(plan, s.data, j))
  }

  /** After the copy has been filled and the table cloned. */
  lemma ClonedReady(plan: Plan, s: Vm, s1: Vm, main: nat, root: nat)
    requires Sane(plan) && Prepared(plan, s, main) && IsRoot(s.own, main) && HasTable(s1, root)
    requires forall k :: 0 <= k < |Pages(plan)| ==> CopySaved(plan, s1.data, k)
    requires forall j :: 0 <= j < plan.stackPages ==> StackZero(plan, s1.data, j)
    requires forall v :: IsPage(v) ==>
               Leaf(Guest, s1.mem, root, v)
                 == if FirstPage(s.mem, main, v) then (0, Leaf(Guest, s.mem, main, v).1) else (0, ZERO)
    ensures Remapped(plan, s1, root, 0)
    ensures forall k :: 0 <= k < |Pages(plan)| ==> Small4K(s1.mem, root, Pages(plan)[k])
  {
    hide Leaf, Tree, FirstPage, PagesOf, CopyFrame, StackFrame, StackPage, ZeroPage;
    forall k | 0 <= k < |Pages(plan)|
      ensures Small4K(s1.mem, root, Pages(plan)[k])
    {
      assert Small4K(s.mem, main, Pages(plan)[k]);
      FirstPageSmall(s.mem, main, Pages(plan)[k]);
    }
    forall j | 0 <= j < plan.stackPages
      ensures StackOk(plan, s1, root, j)
    {
      assert StackZero(plan, s.data, j) && StackOk(plan, s, main, j);
      FirstPageSmall(s.mem, main, StackPage(plan, j));
    }
  }

  lemma RemappedDone(plan: Plan, s: Vm, root: nat)
    requires Remapped(plan, s, root, |Pages(plan)|)
    ensures Recycled(plan, s, root, |Pages(plan)|, plan.stackPages)
  {
  }

  class Sthread {
    const a: AddressSpace
    const plan: Plan
    /** st_pgroot. */
    var root: nat

    constructor (space: AddressSpace, p: Plan)
      ensures a == space && plan == p
    {
      a, plan, root := space, p, 0;
    }

    /** memcpy of the checkpoint to st_writable. */
    method FillCopy()
      requires Sane(plan)
      modifies a`data
      ensures forall k :: 0 <= k < |Pages(plan)| ==> CopySaved(plan, a.data, k)
      ensures forall f :: !Private(plan, f) ==> Bytes(a.data, f) == Bytes(old(a.data), f)
      ensures forall j :: 0 <= j < plan.stackPages ==> StackZero(plan, old(a.data), j) ==> StackZero(plan, a.data, j)
    {
      hide Sane, CopyFrame, StackFrame, PagesOf, ZeroPage;
      SaneFacts(plan);
      for k := 0 to |plan.saved|
        invariant forall i :: 0 <= i < k ==> CopySaved(plan, a.data, i)
        invariant forall f :: !Private(plan, f) ==> Bytes(a.data, f) == Bytes(old(a.data), f)
        invariant forall j :: 0 <= j < plan.stackPages && StackZero(plan, old(a.data), j) ==>
                    StackZero(plan, a.data, j)
      {
        forall i | 0 <= i < k
          ensures CopyFrame(plan, i) != CopyFrame(plan, k)
        {
          CopyFrameDiffers(plan, i, k);
        }
        forall j | 0 <= j < plan.stackPages
          ensures StackFrame(plan, j) != CopyFrame(plan, k)
        {
          CopyStackDiffer(plan, k, j);
        }
        ghost var was := a.data;
        a.data := a.data[CopyFrame(plan, k) := plan.saved[k]];
        forall i | 0 <= i < k + 1
          ensures CopySaved(plan, a.data, i)
        {
          assert i < k ==> CopySaved(plan, was, i);
        }
      }
    }

    /** create_new_sthread, but for walk_protect, which only says who may use a page. It
        fails exactly if the pool has no room for the cloned tables. */
    method Create(main: nat) returns (r: Ret)
      requires Sane(plan) && Sound(a.State()) && Rooted(a.own) && IsRoot(a.own, main) && Prepared(plan, a.State(), main)
      modifies this, a, a.pool
      ensures r == OK || r == Died
      ensures r == OK <==> CloneTables(old(a.mem), main) <= PagePool.Room(old(a.pool.State()))
      ensures r == OK ==> root !in old(a.own) && Others(plan, old(a.State()), a.State(), root)
      ensures r == OK ==> Recycled(plan, a.State(), root, |Pages(plan)|, plan.stackPages)
    {
      hide Sane, Laid, Sound, Prepared, Leaf, FirstPage, CopySaved, StackZero, PagesOf, CloneTables, PagePool.Room,
        Private, Rooted, Tree, Remapped, Recycled;
      ghost var s := a.State();
      SaneFacts(plan);
      PreparedZero(plan, s, main);
      FillCopy();
      SoundData(s, a.data);
      ghost var s1 := a.State();
      r, root := VmClone(a, main);
      if r != OK {
        return;
      }
      SoundIsTree(a.State());
      a.walk := 0;
      ClonedReady(plan, s, a.State(), main, root);
      CreatedOthers(plan, s, a.State(), root);
      RemapAll();
    }

    /** The passes of create_new_sthread that map the private copy, segment by segment. */
    method RemapAll()
      requires Remapped(plan, a.State(), root, 0) && a.walk == 0
      requires forall k :: 0 <= k < |Pages(plan)| ==> Small4K(a.mem, root, Pages(plan)[k])
      modifies a, a.pool
      ensures Recycled(plan, a.State(), root, |Pages(plan)|, plan.stackPages)
              && Others(plan, old(a.State()), a.State(), root)
    {
      hide Sane, Laid, Remapped, Recycled, Others, PagesOf, SegPages, Small4K, CopyFrames, InPlace, Flat, RangeFits,
        HasTable;
      RemappedSane(plan, a.State(), root, 0);
      OthersRefl(plan, a.State(), root);
      ghost var k := 0;
      var i := 0;
      PagesNone(plan.segs);
      while i < |plan.segs|
        invariant i <= |plan.segs| && k == |PagesOf(plan.segs[..i])| && a.walk == k * PAGE_SIZE
        invariant Remapped(plan, a.State(), root, k) && Others(plan, old(a.State()), a.State(), root)
        invariant forall q :: 0 <= q < |Pages(plan)| ==> Small4K(a.mem, root, Pages(plan)[q])
      {
        if plan.segs[i].writable {
          ghost var s1 := a.State();
          k := RemapSegment(i, k);
          OthersTrans(plan, old(a.State()), s1, a.State(), root);
        } else {
          PagesNext(plan.segs, i);
          OwnNone(plan.segs[i]);
        }
        i := i + 1;
      }
      assert plan.segs[..|plan.segs|] == plan.segs;
      RemappedDone(plan, a.State(), root);
    }

    /** The sthread writes to one of its pages: the store goes where its page table says,
        and marks the entry dirty. */
    method Store(page: nat, content: seq<nat>)
      requires Recycled(plan, a.State(), root, 0, 0) && Mine(plan, page)
      modifies a`mem, a`data
      ensures Recycled(plan, a.State(), root, 0, 0) && Others(plan, old(a.State()), a.State(), root)
    {
      hide Recycled, Others, HardwareWalk, AfterAccess, Leaf, Mine, HasTable;
      ghost var s := a.State();
      StoreStep(plan, s, root, page, content);
      MineFrame(plan, s, root, page);
      RecycledRoot(plan, s, root, 0, 0);
      StoreMarks(s, root, page, content);
      var frame := HardwareWalk(a.mem, root, TOP, page, true, true, false).value.word.frame;
      a.mem := AfterAccess(Guest, a.mem, root, TOP, page, true);
      a.data := a.data[frame := content];
    }

    /** recycle: after the passes over the writable segments and the stack, private
        memory is the checkpoint again and the stack is zero, whatever was written. */
    method Recycle()
      requires Recycled(plan, a.State(), root, 0, 0) && plan.stackPages > 0
      modifies a, a.pool
      ensures Recycled(plan, a.State(), root, |Pages(plan)|, plan.stackPages)
              && Others(plan, old(a.State()), a.State(), root)
    {
      hide Sane, Laid, Recycled, Others, PagesOf, SegPages, StackFrames, Flat, RangeFits, HasTable, PageOfVa, High,
        Full, Tree;
      ghost var s0 := a.State();
      RecycledRoot(plan, s0, root, 0, 0);
      ResetRecycled(plan, s0, root, 0, 0);
      a.walk := 0;
      ghost var k := 0;
      var i := 0;
      PagesNone(plan.segs);
      while i < |plan.segs|
        invariant i <= |plan.segs| && k == |PagesOf(plan.segs[..i])| && a.walk == k * PAGE_SIZE
        invariant Recycled(plan, a.State(), root, k, 0) && Others(plan, s0, a.State(), root)
      {
        if plan.segs[i].writable {
          ghost var s1 := a.State();
          k := RecycleSegment(i, k);
          OthersTrans(plan, s0, s1, a.State(), root);
        } else {
          PagesNext(plan.segs, i);
          OwnNone(plan.segs[i]);
        }
        i := i + 1;
      }
      assert plan.segs[..|plan.segs|] == plan.segs;
      ghost var s2 := a.State();
      ResetRecycled(plan, s2, root, k, 0);
      OthersTrans(plan, s0, s2, s2.(walk := 0), root);
      a.walk := 0;
      RecycleStackPages();
      OthersTrans(plan, s0, s2.(walk := 0), a.State(), root);
    }

    /** The walk over one writable segment. */
    method RecycleSegment(i: nat, ghost k: nat) returns (ghost k1: nat)
      requires i < |plan.segs| && plan.segs[i].writable && k == |PagesOf(plan.segs[..i])| && a.walk == k * PAGE_SIZE
      requires Recycled(plan, a.State(), root, k, 0)
      modifies a, a.pool
      ensures k1 == |PagesOf(plan.segs[..i + 1])| && a.walk == k1 * PAGE_SIZE && Recycled(plan, a.State(), root, k1, 0)
      ensures Sane(plan) && Others(plan, old(a.State()), a.State(), root)
    {
      hide Sane, Laid, Recycled, Others, PagesOf, SegPages, CopyFrames, InPlace, Flat, RangeFits, HasTable, PageOfVa,
        High, Full, Tree;
      ghost var s := a.State();
      RecycledRoot(plan, s, root, k, 0);
      SaneFacts(plan);
      SegmentInPlace(plan, i);
      var first, last := plan.segs[i].first, plan.segs[i].first + plan.segs[i].count - 1;
      CopyFull(plan, s, root, k, first, last);
      TableFacts(s, root);
      FullRange(s, root, RecycleJob(plan), first, last);
      RecycleWalk(plan, s, root, first, last, k);
      PageAddress(first);
      PageAddress(last);
      k1 := k + (last + 1 - first);
      var cb := Callbacks.Recycle(CopyFrames(plan), plan.saved);
      var _ := a.PageWalk(root, first * PAGE_SIZE, last * PAGE_SIZE, cb, TOP, CreateNone, root,
                          RecycleJob(plan), first, last);
    }

    /** The walk over the stack, which leaves the dirty bits set. */
    method RecycleStackPages()
      requires Recycled(plan, a.State(), root, |Pages(plan)|, 0) && plan.stackPages > 0 && a.walk == 0
      modifies a, a.pool
      ensures Recycled(plan, a.State(), root, |Pages(plan)|, plan.stackPages)
              && Others(plan, old(a.State()), a.State(), root)
    {
      hide Sane, Laid, Recycled, Others, PagesOf, StackFrames, Flat, RangeFits, HasTable, PageOfVa, High, Full, Tree;
      ghost var s := a.State();
      RecycledRoot(plan, s, root, |Pages(plan)|, 0);
      SaneFacts(plan);
      StackPlace(plan);
      var first, last := StackPage(plan, 0), StackPage(plan, plan.stackPages - 1);
      StackFull(plan, s, root, 0);
      TableFacts(s, root);
      FullRange(s, root, StackJob(plan), first, last);
      StackWalk(plan, s, root, 0);
      PageAddress(first);
      PageAddress(last);
      var _ := a.PageWalk(root, first * PAGE_SIZE, last * PAGE_SIZE, RecycleStack(StackFrames(plan)), TOP, CreateNone,
                          root, StackJob(plan), first, last);
    }

    /** Any number of lives: whatever each sthread writes to its pages, after each
        recycle the next one finds the checkpoint and an empty stack. */
    method Lives(lives: seq<seq<(nat, seq<nat>)>>)
      requires Recycled(plan, a.State(), root, |Pages(plan)|, plan.stackPages) && plan.stackPages > 0
      requires forall n, m :: 0 <= n < |lives| && 0 <= m < |lives[n]| ==> Mine(plan, lives[n][m].0)
      modifies a, a.pool
      ensures Recycled(plan, a.State(), root, |Pages(plan)|, plan.stackPages)
              && Others(plan, old(a.State()), a.State(), root)
    {
      hide Recycled, StackPage, Others, PagesOf, Mine, Sane;
      ghost var s0 := a.State();
      RecycledRoot(plan, s0, root, |Pages(plan)|, plan.stackPages);
      OthersRefl(plan, s0, root);
      for n := 0 to |lives|
        invariant Recycled(plan, a.State(), root, |Pages(plan)|, plan.stackPages) && Others(plan, s0, a.State(), root)
      {
        RecycledLess(plan, a.State(), root, |Pages(plan)|, plan.stackPages);
        for m := 0 to |lives[n]|
          invariant Recycled(plan, a.State(), root, 0, 0) && Others(plan, s0, a.State(), root)
        {
          ghost var s1 := a.State();
          Store(lives[n][m].0, lives[n][m].1);
          OthersTrans(plan, s0, s1, a.State(), root);
        }
        ghost var s2 := a.State();
        Recycle();
        OthersTrans(plan, s0, s2, a.State(), root);
      }
    }

    /** The walk over one of them. */
    method RemapSegment(i: nat, ghost k: nat) returns (ghost k1: nat)
      requires i < |plan.segs| && plan.segs[i].writable && k == |PagesOf(plan.segs[..i])| && a.walk == k * PAGE_SIZE
      requires Remapped(plan, a.State(), root, k)
      requires forall q :: 0 <= q < |Pages(plan)| ==> Small4K(a.mem, root, Pages(plan)[q])
      modifies a, a.pool
      ensures k1 == |PagesOf(plan.segs[..i + 1])| && a.walk == k1 * PAGE_SIZE && Remapped(plan, a.State(), root, k1)
      ensures Sane(plan) && Others(plan, old(a.State()), a.State(), root)
      ensures forall q :: 0 <= q < |Pages(plan)| ==> Small4K(a.mem, root, Pages(plan)[q])
    {
      hide Sane, Laid, Remapped, Others, PagesOf, SegPages, Small4K, CopyFrames, InPlace, Flat, RangeFits, HasTable,
        PageOfVa, High, Full, Tree;
      ghost var s := a.State();
      RemappedSane(plan, s, root, k);
      SaneFacts(plan);
      SegmentInPlace(plan, i);
      var first, last := plan.segs[i].first, plan.segs[i].first + plan.segs[i].count - 1;
      SegmentFull(plan, s, root, k, first, last);
      TableFacts(s, root);
      FullRange(s, root, RemapJob(plan), first, last);
      RemapWalk(plan, s, root, first, last, k);
      PageAddress(first);
      PageAddress(last);
      k1 := k + (last + 1 - first);
      var _ := a.PageWalk(root, first * PAGE_SIZE, last * PAGE_SIZE, Remap(CopyFrames(plan)), TOP, CreateNone,
                          root, RemapJob(plan), first, last);
      SmallKept4K(plan, s, a.State(), root);
    }
  }

  lemma StackPlace(plan: Plan)
    requires Laid(plan) && plan.stackPages > 0
    ensures IsPage(StackPage(plan, 0)) && IsPage(StackPage(plan, plan.stackPages - 1))
    ensures StackPage(plan, 0) <= StackPage(plan, plan.stackPages - 1)
  {
    hide PagesOf;
  }

  lemma TableFacts(s: Vm, root: nat)
    requires HasTable(s, root)
    ensures Tree(Guest, s.mem, s.own) && IsRoot(s.own, root)
  {
  }

  lemma SaneFacts(plan: Plan)
    requires Sane(plan)
    ensures Valid(plan.l) && Laid(plan) && |Pages(plan)| == |plan.saved|
  {
  }

  lemma PreparedZero(plan: Plan, s: Vm, main: nat)
    requires Valid(plan.l) && Prepared(plan, s, main)
    ensures forall j :: 0 <= j < plan.stackPages ==> StackZero(plan, s.data, j)
  {
  }

  lemma SoundData(s: Vm, data: Data)
    requires Sound(s)
    ensures Sound(s.(data := data))
  {
  }

  /** Cloning, and filling the copy, is nothing to the other roots. */
  lemma CreatedOthers(plan: Plan, s: Vm, s1: Vm, root: nat)
    requires Valid(plan.l)
    requires forall r :: IsRoot(s.own, r) ==> IsRoot(s1.own, r)
    requires forall r, v :: IsRoot(s.own, r) && IsPage(v) ==> Leaf(Guest, s1.mem, r, v) == Leaf(Guest, s.mem, r, v)
    requires forall f :: !Private(plan, f) ==> Bytes(s1.data, f) == Bytes(s.data, f)
    ensures Others(plan, s, s1, root)
  {
    hide Leaf, Private;
  }

  // ----- the whole story -----

  /** The processor finds these bytes at the page, and lets the sthread's code write there;
      also in user mode, if `user`. */
  ghost predicate Reads(s: Vm, root: nat, v: nat, user: bool, bytes: seq<nat>) {
    var access := HardwareWalk(s.mem, root, TOP, v, true, true, false);
    access.Some? && access.value.level == 0 && access.value.writable && (user ==> access.value.user)
    && Bytes(s.data, access.value.word.frame) == bytes
  }

  lemma RecycledReads(plan: Plan, s: Vm, root: nat)
    requires Recycled(plan, s, root, |Pages(plan)|, plan.stackPages)
    ensures |plan.saved| == |Pages(plan)|
    ensures forall k :: 0 <= k < |Pages(plan)| ==> Reads(s, root, Pages(plan)[k], true, plan.saved[k])
    ensures forall j {:trigger StackPage(plan, j)} :: 0 <= j < plan.stackPages ==>
              Reads(s, root, StackPage(plan, j), false, ZeroPage())
  {
    hide Leaf, Tree, CopyFrame, StackFrame, StackPage, PagesOf, ZeroPage, HardwareWalk, Mine;
    forall k | 0 <= k < |Pages(plan)|
      ensures Reads(s, root, Pages(plan)[k], true, plan.saved[k])
    {
      assert CopyOk(plan, s, root, k) && CopySaved(plan, s.data, k);
      CopyIsPage(plan, s, root, k);
      SmallAccess(s, root, Pages(plan)[k]);
    }
    forall j {:trigger StackPage(plan, j)} | 0 <= j < plan.stackPages
      ensures Reads(s, root, StackPage(plan, j), false, ZeroPage())
    {
      assert StackOk(plan, s, root, j) && StackZero(plan, s.data, j);
      StackIsPage(plan, s, root, j);
      SmallAccess(s, root, StackPage(plan, j));
    }
  }

  lemma CopyIsPage(plan: Plan, s: Vm, root: nat, k: nat)
    requires Recycled(plan, s, root, |Pages(plan)|, plan.stackPages) && k < |Pages(plan)|
    ensures IsPage(Pages(plan)[k])
  {
    RecycledLess(plan, s, root, |Pages(plan)|, plan.stackPages);
    assert Mine(plan, Pages(plan)[k]);
    MineFrame(plan, s, root, Pages(plan)[k]);
  }

  lemma StackIsPage(plan: Plan, s: Vm, root: nat, j: nat)
    requires Recycled(plan, s, root, |Pages(plan)|, plan.stackPages) && j < plan.stackPages
    ensures IsPage(StackPage(plan, j))
  {
    hide StackPage;
    RecycledLess(plan, s, root, |Pages(plan)|, plan.stackPages);
    assert Mine(plan, StackPage(plan, j));
    MineFrame(plan, s, root, StackPage(plan, j));
  }

  lemma StackSame(plan: Plan, saved: seq<seq<nat>>, s: Vm, root: nat, j: nat)
    requires Valid(plan.l)
    ensures var p := plan.(saved := saved);
            && StackPage(p, j) == StackPage(plan, j) && StackFrame(p, j) == StackFrame(plan, j)
            && StackOk(p, s, root, j) == StackOk(plan, s, root, j)
            && StackZero(p, s.data, j) == StackZero(plan, s.data, j)
  {
    hide Leaf, DuneVaToPa, FrameOfPa, ZeroPage;
  }

  lemma SavedPrepared(plan: Plan, saved: seq<seq<nat>>, s: Vm, main: nat)
    requires Valid(plan.l) && Prepared(plan, s, main)
    ensures Prepared(plan.(saved := saved), s, main)
  {
    hide Small4K, PagesOf, StackOk, StackZero;
    var p := plan.(saved := saved);
    assert Pages(p) == Pages(plan);
    forall k | 0 <= k < |Pages(p)|
      ensures Small4K(s.mem, main, Pages(p)[k])
    {
      assert Small4K(s.mem, main, Pages(plan)[k]);
    }
    forall j | 0 <= j < p.stackPages
      ensures StackOk(p, s, main, j) && StackZero(p, s.data, j)
    {
      StackSame(plan, saved, s, main, j);
      assert StackZero(plan, s.data, j);
    }
  }

  /** Where things are does not depend on what has been saved. */
  lemma SavedNoMatter(plan: Plan, saved: seq<seq<nat>>, s: Vm, main: nat)
    requires Laid(plan) && Prepared(plan, s, main) && |saved| == |Pages(plan)|
    ensures var p := plan.(saved := saved);
            && Sane(p) && Prepared(p, s, main) && Pages(p) == Pages(plan)
            && (forall f :: Private(p, f) <==> Private(plan, f)) && (forall x :: Mine(p, x) <==> Mine(plan, x))
            && forall j :: StackPage(p, j) == StackPage(plan, j)
  {
    hide Prepared, PagesOf, DuneVaToPa, FrameOfPa, HvaToGpa;
    var p := plan.(saved := saved);
    SavedPrepared(plan, saved, s, main);
    assert forall k :: CopyFrame(p, k) == CopyFrame(plan, k);
    assert forall j :: StackFrame(p, j) == StackFrame(plan, j) && StackPage(p, j) == StackPage(plan, j);
  }

  lemma MainUnharmed(plan: Plan, s: Vm, s1: Vm, main: nat, root: nat)
    requires Valid(plan.l) && Others(plan, s, s1, root) && IsRoot(s.own, main) && main != root
    ensures forall x :: IsPage(x) && !Private(plan, Leaf(Guest, s.mem, main, x).1.frame) ==>
              Seen(s1.mem, s1.data, main, x) == Seen(s.mem, s.data, main, x)
  {
    hide Leaf, Private;
  }

  /** From the checkpoint to the end of any number of lives: at the addresses of the
      process's writable pages an sthread finds what the process had there when the
      checkpoint was taken, and an empty stack; and nothing that sthreads do changes any
      page of the process outside the private copy and the stack. */
  method CheckpointAndLives(a: AddressSpace, main: nat, plan: Plan, lives: seq<seq<(nat, seq<nat>)>>)
    returns (r: Ret, root: nat)
    requires Laid(plan) && plan.stackPages > 0 && Sound(a.State()) && Rooted(a.own) && IsRoot(a.own, main)
    requires Prepared(plan, a.State(), main)
    requires forall n, m :: 0 <= n < |lives| && 0 <= m < |lives[n]| ==> Mine(plan, lives[n][m].0)
    modifies a, a.pool
    ensures r == OK <==> CloneTables(old(a.mem), main) <= PagePool.Room(old(a.pool.State()))
    ensures r == OK ==> forall k :: 0 <= k < |Pages(plan)| ==>
              Reads(a.State(), root, Pages(plan)[k], true, Seen(old(a.mem), old(a.data), main, Pages(plan)[k]))
    ensures r == OK ==> forall j {:trigger StackPage(plan, j)} :: 0 <= j < plan.stackPages ==>
              Reads(a.State(), root, StackPage(plan, j), false, seq(0x1000, i => 0))
    ensures r == OK ==> forall x :: IsPage(x) && !Private(plan, Leaf(Guest, old(a.mem), main, x).1.frame) ==>
              Seen(a.mem, a.data, main, x) == Seen(old(a.mem), old(a.data), main, x)
  {
    hide Laid, Prepared, Sound, Rooted, PagesOf, Leaf, Mine, Private, Recycled, Others, Seen, CloneTables,
      PagePool.Room, StackPage, ZeroPage, Tree, Reads;
    ghost var s := a.State();
    var saved := CheckpointDo(a, main, plan.segs);
    SavedNoMatter(plan, saved, s, main);
    LaidValid(plan);
    var st := new Sthread(a, plan.(saved := saved));
    r := st.Create(main);
    root := st.root;
    if r == OK {
      ghost var s1 := a.State();
      st.Lives(lives);
      OthersTrans(st.plan, s, s1, a.State(), root);
      RecycledReads(st.plan, a.State(), root);
      ZeroBytes();
      MainUnharmed(st.plan, s, a.State(), main, root);
    }
  }

  lemma ZeroBytes()
    ensures ZeroPage() == seq(0x1000, i => 0)
  {
  }

  lemma LaidValid(plan: Plan)
    requires Laid(plan)
    ensures Valid(plan.l)
  {
  }
}
