/** Paging to a remote machine (page.c): pages are written out, unmapped, and read
    back one by one as they are touched, over a connection on which the NIC, the peer
    and the poller act whenever they like. */
module Paging {
  import opened Radix
  import opened PagePool
  import opened Callbacks
  import opened GuestVm
  import opened VmInvariants
  import opened WalkTheorems
  import opened WalkRoom
  import opened Addresses
  import opened GuestWalker
  import opened GuestCalls
  import opened Windows
  import opened Conservation
  import opened PoolRuns
  import opened RemoteMemory
  import RdmaChannel
  import ChannelRuns
  import RemotePages
  import RoundTrip

  /** What happens on the connection while one call is served. */
  type Run = seq<RdmaChannel.Step>

  /** The bytes a process sees at page `v`. */
  function Seen(mem: Mem, data: Data, root: nat, v: nat): seq<nat> {
    Bytes(data, Leaf(Guest, mem, root, v).1.frame)
  }

  // ----- the fault handler -----

  /** On the way to a page without a big entry, dune_vm_lookup and the walk agree. */
  lemma {:induction false} SmallStrict(s: Vm, root: nat, f: nat, L: nat, u: nat, create: bool)
    requires Tree(Guest, s.mem, s.own) && (create ==> Sound(s)) && Radix.At(s.own, f, root, L, 0, u)
    requires var h := Stop(Guest, s.mem, f, L, 0, u); !(0 < h.level < TOP && Big(h.word))
    ensures Locate(s, f, L, 0, u, create, true) == Locate(s, f, L, 0, u, create, false)
    decreases L
  {
    hide Alloc, NewTable, Tree, Sound, IsRoot, LinkMem, Up, Stop;
    var i := Up(u, L) % ENTRIES;
    var w := Rd(s.mem, f, i);
    StopStep(Guest, s.mem, f, L, 0, u);
    if L == 0 || (L < TOP && Big(w)) {
    } else if PTE_P in w.bits {
      ChildAt(Guest, s.mem, s.own, root, f, L, 0, u);
      SmallStrict(s, root, w.frame, L - 1, u, create);
    } else if create && NewTable(s, f, i).Some? {
      NewTableSound(s, f, i);
      var (s1, c) := NewTable(s, f, i).value;
      ChildAt(Guest, s1.mem, s1.own, root, f, L, 0, u);
      StopStep(Guest, s1.mem, c, L - 1, 0, u);
      LinkRead(s.mem, f, i, c, c, Up(u, L - 1) % ENTRIES);
      SmallStrict(s1, root, c, L - 1, u, create);
    }
  }

  /** Looking up a page without a big entry, creating tables for it. */
  lemma SmallLookup(s: Vm, root: nat, v: nat)
    requires Sound(s) && IsRoot(s.own, root) && IsPage(v) && Leaf(Guest, s.mem, root, v).0 == 0
    ensures var r := Locate(s, root, TOP, 0, v, true, true);
            && !r.Absent? && Sound(r.s) && (forall x :: IsRoot(s.own, x) ==> IsRoot(r.s.own, x))
            && (forall r1, x :: IsRoot(s.own, r1) && IsPage(x) ==>
                  Leaf(Guest, r.s.mem, r1, x) == Leaf(Guest, s.mem, r1, x))
            && (r.Found? ==> r.level == 0 && Reach(Guest, r.s.mem, root, r.table, 0, v)
                             && r.table in r.s.own && r.s.own[r.table].level == 0)
            && Fetches(s, r, Stop(Guest, s.mem, root, TOP, 0, v).level)
  {
    hide Locate, Stop, NoBigUnder, Leaf, Up, Room;
    RootAt(s.own, root, 0, v);
    NotBigStop(s.mem, root, v);
    LocateRoom(s, root, root, TOP, 0, v, false);
    SmallStrict(s, root, root, TOP, v, true);
    LocateExtends(s, root, root, TOP, 0, v, true, false);
    LocateStop(s, root, root, TOP, 0, v, true, false);
    var r := Locate(s, root, TOP, 0, v, true, false);
    forall r1, x | IsRoot(s.own, r1) && IsPage(x)
      ensures Leaf(Guest, r.s.mem, r1, x) == Leaf(Guest, s.mem, r1, x)
    {
      LocateLeaf(s, root, root, TOP, 0, v, true, false, r1, x);
    }
    if r.Found? {
      StopStep(Guest, r.s.mem, root, TOP, TOP, Up(v, TOP));
      NotBig(s, r, root, root, TOP, v, true);
      FoundReach(r.s, root, root, TOP, 0, v, r.table, 0);
      UpZero(v);
      ReachAt(Guest, r.s.mem, r.s.own, root, r.table, 0, v);
    }
  }

  lemma NotBigStop(mem: Mem, root: nat, v: nat)
    requires Leaf(Guest, mem, root, v).0 == 0
    ensures var h := Stop(Guest, mem, root, TOP, 0, v); !(0 < h.level < TOP && Big(h.word))
  {
  }

  const IN_BITS := {PTE_P, PTE_W}

  /** The table of a page is there: its walk gets down to level 0. */
  predicate Tabled(mem: Mem, root: nat, v: nat) {
    Stop(Guest, mem, root, TOP, 0, v).level == 0
  }

  /** pgflt_handler of page.c on a page-aligned address: the page is mapped to its
      own frame again and filled from the peer. The process dies, at the handler's
      assertion, exactly if the pool has no room for the page's missing tables. */
  method PageIn(a: AddressSpace, remote: Connection, l: Layout, root: nat, page: nat, addr: nat, run: Run)
    returns (ok: bool)
    requires Sound(a.State()) && IsRoot(a.own, root) && Valid(l) && Leaf(Guest, a.mem, root, PageOfVa(addr)).0 == 0
    requires remote.Valid() && RdmaChannel.Size(remote.chan) == PAGE_SIZE
    requires page <= addr && Serves(remote.chan, ReadOp(addr - page), run)
    modifies a, a.pool, remote
    ensures ok <==> Stop(Guest, old(a.mem), root, TOP, 0, PageOfVa(addr)).level <= Room(old(a.pool.State()))
    ensures ok ==>
              var frame := FrameOfPa(DuneVaToPa(l, addr)); var off := addr - page;
              && Sound(a.State()) && IsRoot(a.own, root)
              && (forall r, x :: IsRoot(old(a.own), r) && IsPage(x) ==>
                    Leaf(Guest, a.mem, r, x) == if r == root && x == PageOfVa(addr) then (0, Word(frame, IN_BITS))
                                                else Leaf(Guest, old(a.mem), r, x))
              && off + PAGE_SIZE <= |old(remote.chan.plain)|
              && a.data == old(a.data)[frame := old(remote.chan.plain)[off..off + PAGE_SIZE]]
              && remote.Valid() && remote.chan == RemoteMemory.After(old(remote.chan), run)
              && remote.chan.plain == old(remote.chan.plain) && RdmaChannel.Size(remote.chan) == PAGE_SIZE
              && var access := HardwareWalk(a.mem, root, TOP, PageOfVa(addr), true, true, false);
                 access.Some? && access.value.word.frame == frame && access.value.level == 0
                 && access.value.writable && !access.value.user && !access.value.noExec
    ensures Tabled(old(a.mem), root, PageOfVa(addr)) ==>
              a.own == old(a.own) && forall x :: IsPage(x) && Tabled(old(a.mem), root, x) ==> Tabled(a.mem, root, x)
  {
    hide Locate, Leaf, PageOfVa, Reach, DuneVaToPa, FrameOfPa, Tree, Up, Stop, Room, Serves, RemoteMemory.After,
      RdmaChannel.Inv;
    ghost var s := a.State();
    ghost var v := PageOfVa(addr);
    AddressPage(addr);
    SmallLookup(s, root, v);
    var ret, t, i, _ := a.Lookup(root, addr, true);
    if ret != OK {
      return false;
    }
    ghost var s1 := a.State();
    UpZero(v);
    var frame := FrameOfPa(DuneVaToPa(l, addr));
    a.Store(t, i, Word(frame, IN_BITS));
    StoreSmall(s1, a.State(), root, t, v, Word(frame, IN_BITS));
    // The data land at the address, which the new entry sends to the frame.
    SoundIsTree(a.State());
    SmallAccess(a.State(), root, v);
    var buf := remote.ReadOffset(addr - page, run);
    a.data := a.data[frame := buf];
    ok := true;
  }

  lemma StoreSmall(s: Vm, s1: Vm, root: nat, t: nat, v: nat, w: Word)
    requires Sound(s) && IsRoot(s.own, root) && IsPage(v) && Reach(Guest, s.mem, root, t, 0, v)
    requires t in s.own && s.own[t].level == 0
    requires s1 == s.(mem := Wr(s.mem, t, v % ENTRIES, w))
    ensures Sound(s1)
    ensures forall r, x :: IsRoot(s.own, r) && IsPage(x) ==>
              Leaf(Guest, s1.mem, r, x) == if r == root && x == v then (0, w) else Leaf(Guest, s.mem, r, x)
    ensures forall x :: IsPage(x) && Tabled(s.mem, root, x) ==> Tabled(s1.mem, root, x)
  {
    hide Leaf, Reach, Stop;
    forall x | IsPage(x) && Tabled(s.mem, root, x)
      ensures Tabled(s1.mem, root, x)
    {
      RootAt(s.own, root, 0, x);
      StopPlace(Guest, s.mem, s.own, t, v % ENTRIES, w, root, root, TOP, 0, x);
    }
    TreeWrite(Guest, s.mem, s.own, t, v % ENTRIES, w);
    forall r, x | IsRoot(s.own, r) && IsPage(x)
      ensures Leaf(Guest, s1.mem, r, x) == if r == root && x == v then (0, w) else Leaf(Guest, s.mem, r, x)
    {
      UpZero(x);
      WriteLeaf(Guest, s.mem, s.own, root, t, 0, v, w, r, x);
    }
  }

  // ----- the program -----

  /** Page `i` of a buffer. */
  function PageNo(page: nat, i: nat): nat {
    page / PAGE_SIZE + i
  }

  /** Page `i` of the buffer has a table for its 4 KB entry, as it must once it has been
      written; no big entry covers it. */
  predicate Small(s: Vm, root: nat, page: nat, i: nat) {
    Tabled(s.mem, root, PageNo(page, i))
  }

  lemma SmallLeaf(mem: Mem, root: nat, v: nat)
    requires Tabled(mem, root, v)
    ensures Leaf(Guest, mem, root, v).0 == 0
  {
  }

  /** The frame that the fault handler gives page `i` of the buffer. */
  function InFrame(l: Layout, page: nat, i: nat): nat
    requires Valid(l)
  {
    FrameOfPa(DuneVaToPa(l, page + i * PAGE_SIZE))
  }

  lemma InFramesDiffer(l: Layout, page: nat, i: nat, j: nat)
    requires Valid(l) && l.physEnd <= TWO48 && page % PAGE_SIZE == 0 && i != j
    requires HvaToGpa(l, page + i * PAGE_SIZE).Some? && HvaToGpa(l, page + j * PAGE_SIZE).Some?
    ensures InFrame(l, page, i) != InFrame(l, page, j)
  {
    hide HvaToGpa, DuneVaToPa, GpaToHva, FrameOfPa;
    Shifted(page, i);
    Shifted(page, j);
    FramesDiffer(l, page + i * PAGE_SIZE, page + j * PAGE_SIZE);
  }

  lemma Shifted(page: nat, i: nat)
    requires page % PAGE_SIZE == 0
    ensures (page + i * PAGE_SIZE) % PAGE_SIZE == 0
  {
    assert page + i * PAGE_SIZE == (page / PAGE_SIZE + i) * PAGE_SIZE;
  }

  lemma FramesDiffer(l: Layout, x: nat, y: nat)
    requires Valid(l) && l.physEnd <= TWO48 && x % PAGE_SIZE == 0 && y % PAGE_SIZE == 0 && x != y
    requires HvaToGpa(l, x).Some? && HvaToGpa(l, y).Some?
    ensures FrameOfPa(DuneVaToPa(l, x)) != FrameOfPa(DuneVaToPa(l, y))
  {
    hide HvaToGpa, DuneVaToPa, GpaToHva, FrameOfPa;
    GpaInverts(l, x);
    GpaInverts(l, y);
    PageImage(l, x);
    PageImage(l, y);
  }

  lemma PageImage(l: Layout, hva: nat)
    requires Valid(l) && l.physEnd <= TWO48 && hva % PAGE_SIZE == 0 && HvaToGpa(l, hva).Some?
    ensures FrameOfPa(HvaToGpa(l, hva).value) * PAGE_SIZE == HvaToGpa(l, hva).value
  {
    hide HvaToGpa;
    GpaInverts(l, hva);
    LgPage(HvaToGpa(l, hva).value, hva);
  }

  /** Where the buffer lies: page-aligned, and all of it in the windows. */
  predicate Placed(l: Layout, page: nat, n: nat) {
    && Valid(l) && l.physEnd <= TWO48 && page % PAGE_SIZE == 0 && n > 0 && page + n * PAGE_SIZE <= TWO48
    && forall i :: 0 <= i < n ==> HvaToGpa(l, page + i * PAGE_SIZE).Some?
  }

  /** A buffer of `n` pages that have been written. The frames that the handler maps
      them to hold no page tables: data and tables do not overlap. */
  ghost predicate BufferOk(s: Vm, l: Layout, root: nat, page: nat, n: nat) {
    && Placed(l, page, n)
    && forall i :: 0 <= i < n ==>
         && Small(s, root, page, i)
         && |Seen(s.mem, s.data, root, PageNo(page, i))| == PAGE_SIZE
         && InFrame(l, page, i) !in s.own
  }

  /** Page `i` of the buffer is back: mapped to its own frame, with its old bytes. */
  ghost predicate Back(s: Vm, l: Layout, root: nat, page: nat, i: nat, orig: seq<seq<nat>>)
    requires Valid(l) && i < |orig|
  {
    Leaf(Guest, s.mem, root, PageNo(page, i)) == (0, Word(InFrame(l, page, i), IN_BITS))
    && Bytes(s.data, InFrame(l, page, i)) == orig[i]
  }

  lemma BufferPages(page: nat, n: nat)
    requires page % PAGE_SIZE == 0 && n > 0 && page + n * PAGE_SIZE <= TWO48
    ensures PageOfVa(page) == page / PAGE_SIZE && PageOfVa(page + n * PAGE_SIZE - 1) == page / PAGE_SIZE + n - 1
    ensures forall i :: 0 <= i < n ==> PageOfVa(page + i * PAGE_SIZE) == PageNo(page, i) && IsPage(PageNo(page, i))
  {
    var k := page / PAGE_SIZE;
    assert page == k * PAGE_SIZE;
    assert page + n * PAGE_SIZE - 1 == (k + n - 1) * PAGE_SIZE + 0xfff;
    forall i | 0 <= i < n
      ensures PageOfVa(page + i * PAGE_SIZE) == k + i && IsPage(k + i)
    {
      assert page + i * PAGE_SIZE == (k + i) * PAGE_SIZE;
      PageRange(k + i);
    }
  }

  /** Unmapping the buffer is a call that keeps the reference counts. */
  lemma BufferFits(s: Vm, l: Layout, root: nat, page: nat, n: nat)
    requires Conserved(s) && IsRoot(s.own, root) && BufferOk(s, l, root, page, n)
    ensures Callable(s, root, page, n * PAGE_SIZE)
    ensures RangeConserves(s, root, Job(CreateNone, Free, High(page)),
                           PageOfVa(page), PageOfVa(page + n * PAGE_SIZE - 1))
  {
    hide Leaf, PageOfVa, Conserved, RangeConserves, Seen, Tabled, InFrame, HvaToGpa;
    ConservedSound(s);
    BufferPages(page, n);
    var v := page / PAGE_SIZE;
    forall x | v <= x <= v + n - 1
      ensures Leaf(Guest, s.mem, root, x).0 == 0
    {
      assert x == PageNo(page, x - v);
      assert Small(s, root, page, x - v);
      SmallLeaf(s.mem, root, x);
    }
    RoundTrip.FreeReady(s, root, Job(CreateNone, Free, High(page)), v, v + n - 1);
  }

  /** Unmapping leaves the tables where they are. */
  lemma TablesStay(s: Vm, s1: Vm, root: nat, page: nat, n: nat)
    requires Sound(s) && IsRoot(s.own, root) && page % PAGE_SIZE == 0 && n > 0 && page + n * PAGE_SIZE <= TWO48
    requires Keeps(s, s1, 0) && forall i :: 0 <= i < n ==> Small(s, root, page, i)
    ensures forall i :: 0 <= i < n ==> Small(s1, root, page, i)
  {
    hide Keeps, Stop, PageOfVa, Tree;
    SoundIsTree(s);
    BufferPages(page, n);
    forall i | 0 <= i < n
      ensures Small(s1, root, page, i)
    {
      assert Small(s, root, page, i);
      RootAt(s.own, root, 0, PageNo(page, i));
      KeepsStop(s, s1, 0, root, root, TOP, 0, PageNo(page, i));
    }
  }

  /** What page-in keeps up: the buffer's tables, and the pages `done` that are back. */
  ghost predicate Paged(s: Vm, l: Layout, root: nat, page: nat, orig: seq<seq<nat>>, done: seq<nat>)
    requires Valid(l)
  {
    && Sound(s) && IsRoot(s.own, root)
    && (forall j :: 0 <= j < |orig| ==> Small(s, root, page, j))
    && (forall j :: j in done ==> j < |orig| && Back(s, l, root, page, j, orig))
  }

  /** Paging in one page brings it back and leaves those that are back alone. */
  lemma OneBack(s: Vm, s1: Vm, l: Layout, root: nat, page: nat, i: nat,
                orig: seq<seq<nat>>, done: seq<nat>)
    requires Placed(l, page, |orig|) && i < |orig| && Paged(s, l, root, page, orig, done)
    requires Sound(s1) && IsRoot(s1.own, root)
    requires forall r, x :: IsRoot(s.own, r) && IsPage(x) ==>
               Leaf(Guest, s1.mem, r, x)
               == if r == root && x == PageNo(page, i) then (0, Word(InFrame(l, page, i), IN_BITS))
                                            else Leaf(Guest, s.mem, r, x)
    requires forall x :: IsPage(x) && Tabled(s.mem, root, x) ==> Tabled(s1.mem, root, x)
    requires s1.data == s.data[InFrame(l, page, i) := orig[i]]
    ensures Paged(s1, l, root, page, orig, done + [i])
  {
    hide Leaf, PageOfVa, InFrame, HvaToGpa, Sound, Tabled;
    BufferPages(page, |orig|);
    forall j | 0 <= j < |orig|
      ensures Small(s1, root, page, j)
      ensures j in done || j == i ==> Back(s1, l, root, page, j, orig)
    {
      assert Small(s, root, page, j) && IsPage(PageNo(page, j));
      if j != i {
        InFramesDiffer(l, page, j, i);
      }
    }
  }

  /** The peer holds every page of the buffer at the page's offset. */
  ghost predicate Stored(plain: seq<nat>, orig: seq<seq<nat>>) {
    |orig| * PAGE_SIZE <= |plain|
    && forall i :: 0 <= i < |orig| ==> plain[i * PAGE_SIZE..i * PAGE_SIZE + PAGE_SIZE] == orig[i]
  }

  /** The page's first touch: the fault, and the handler, which succeeds. */
  method TouchPage(a: AddressSpace, remote: Connection, l: Layout, root: nat,
                   page: nat, i: nat, run: Run, ghost orig: seq<seq<nat>>, ghost done: seq<nat>)
    requires Placed(l, page, |orig|) && i < |orig| && Paged(a.State(), l, root, page, orig, done)
    requires remote.Valid() && RdmaChannel.Size(remote.chan) == PAGE_SIZE && Stored(remote.chan.plain, orig)
    requires Serves(remote.chan, ReadOp(i * PAGE_SIZE), run)
    modifies a, a.pool, remote
    ensures Paged(a.State(), l, root, page, orig, done + [i]) && a.own == old(a.own)
    ensures remote.Valid() && RdmaChannel.Size(remote.chan) == PAGE_SIZE && Stored(remote.chan.plain, orig)
    ensures remote.chan == RemoteMemory.After(old(remote.chan), run)
  {
    hide Leaf, Tree, PageOfVa, HvaToGpa, DuneVaToPa, FrameOfPa, Seen, Stop, Room, Serves, RemoteMemory.After,
      RdmaChannel.Inv;
    ghost var s := a.State();
    BufferPages(page, |orig|);
    assert Small(s, root, page, i) && PageOfVa(page + i * PAGE_SIZE) == PageNo(page, i);
    SmallLeaf(s.mem, root, PageNo(page, i));
    assert page + i * PAGE_SIZE - page == i * PAGE_SIZE;
    var ok := PageIn(a, remote, l, root, page, page + i * PAGE_SIZE, run);
    assert ok;
    OneBack(s, a.State(), l, root, page, i, orig, done);
  }

  // ----- the calls on the connection -----

  /** The writes of the page-out loop, and the reads of pages touched in some order. */
  ghost function OutOps(orig: seq<seq<nat>>): seq<Op> {
    seq(|orig|, i requires 0 <= i < |orig| => WriteOp(orig[i], i * PAGE_SIZE))
  }

  function InOps(order: seq<nat>): seq<Op> {
    seq(|order|, k requires 0 <= k < |order| => ReadOp(order[k] * PAGE_SIZE))
  }

  lemma ScheduleStep(w: RdmaChannel.Channel, ops: seq<Op>, runs: seq<Run>)
    requires Schedule(w, ops, runs) && ops != []
    ensures |runs| == |ops| && Serves(w, ops[0], runs[0])
            && Schedule(RemoteMemory.After(w, runs[0]), ops[1..], runs[1..])
  {
  }

  /** Such a schedule exists as long as the peer does not say DONE. */
  lemma CallsServable(w: RdmaChannel.Channel, orig: seq<seq<nat>>, order: seq<nat>)
    requires Quiet(w) && RdmaChannel.Size(w) == PAGE_SIZE && |orig| * PAGE_SIZE <= |w.plain|
    requires forall i :: 0 <= i < |orig| ==> |orig[i]| == PAGE_SIZE
    requires forall k :: 0 <= k < |order| ==> order[k] < |orig|
    ensures exists runs :: Schedule(w, OutOps(orig) + InOps(order), runs)
  {
    hide Quiet, Schedule;
    var ops := OutOps(orig) + InOps(order);
    forall k | 0 <= k < |ops|
      ensures InBounds(w, ops[k])
    {
      if k < |orig| {
        PageFits(k, |orig|);
      } else {
        PageFits(order[k - |orig|], |orig|);
      }
    }
    Schedulable(w, ops);
  }

  /** And so on every connection from its start: the peer's region arrives, the client
      goes on, and the calls of the page-out and of any touches can be served. */
  lemma StartServable(w: RdmaChannel.Channel, orig: seq<seq<nat>>, order: seq<nat>)
    requires RdmaChannel.Init(w) && RdmaChannel.Size(w) == PAGE_SIZE && |orig| * PAGE_SIZE <= |w.plain|
    requires forall i :: 0 <= i < |orig| ==> |orig[i]| == PAGE_SIZE
    requires forall k :: 0 <= k < |order| ==> order[k] < |orig|
    ensures RdmaChannel.Runs(w, ChannelRuns.OPENING, ChannelRuns.Opened(w))
    ensures RdmaChannel.Inv(ChannelRuns.Opened(w)) && ChannelRuns.Opened(w).client.Ready?
    ensures exists runs :: Schedule(ChannelRuns.Opened(w), OutOps(orig) + InOps(order), runs)
  {
    hide RdmaChannel.Init, Quiet, ChannelRuns.Opened, OutOps, InOps, RdmaChannel.Inv, RdmaChannel.Runs, Schedule;
    OpenedQuiet(w);
    var o := ChannelRuns.Opened(w);
    QuietReady(o);
    CallsServable(o, orig, order);
  }

  lemma PageFits(i: nat, n: nat)
    requires i < n
    ensures i * PAGE_SIZE + PAGE_SIZE <= n * PAGE_SIZE
  {
  }

  ghost function BufferData(mem: Mem, data: Data, root: nat, page: nat, n: nat): seq<seq<nat>> {
    seq(n, i requires 0 <= i < n => Seen(mem, data, root, PageNo(page, i)))
  }

  /** The page-out loop of main. */
  method PageOut(a: AddressSpace, remote: Connection, root: nat, page: nat, n: nat,
                 runs: seq<Run>, ghost rest: seq<Op>)
    requires forall i :: 0 <= i < n ==> |Seen(a.mem, a.data, root, PageNo(page, i))| == PAGE_SIZE
    requires remote.Valid() && RdmaChannel.Size(remote.chan) == PAGE_SIZE && n * PAGE_SIZE <= |remote.chan.plain|
    requires Schedule(remote.chan, OutOps(BufferData(a.mem, a.data, root, page, n)) + rest, runs)
    modifies remote
    ensures remote.Valid() && RdmaChannel.Size(remote.chan) == PAGE_SIZE
    ensures Stored(remote.chan.plain, BufferData(a.mem, a.data, root, page, n))
    ensures n <= |runs| && Schedule(remote.chan, rest, runs[n..])
  {
    hide Seen, Serves, RemoteMemory.After, RdmaChannel.Inv, Schedule;
    ghost var orig := BufferData(a.mem, a.data, root, page, n);
    ghost var ops := OutOps(orig) + rest;
    assert ops[0..] == ops && runs[0..] == runs;
    ScheduleLength(remote.chan, ops, runs);
    for i := 0 to n
      invariant remote.Valid() && RdmaChannel.Size(remote.chan) == PAGE_SIZE
                && |remote.chan.plain| == |old(remote.chan.plain)|
      invariant Schedule(remote.chan, ops[i..], runs[i..])
      invariant forall j :: 0 <= j < i ==> remote.chan.plain[j * PAGE_SIZE..j * PAGE_SIZE + PAGE_SIZE] == orig[j]
    {
      ScheduleStep(remote.chan, ops[i..], runs[i..]);
      assert ops[i..][1..] == ops[i + 1..] && runs[i..][1..] == runs[i + 1..];
      ghost var was := remote.chan.plain;
      remote.WriteOffset(Seen(a.mem, a.data, root, PageNo(page, i)), i * PAGE_SIZE, runs[i]);
      forall j | 0 <= j < i + 1
        ensures remote.chan.plain[j * PAGE_SIZE..j * PAGE_SIZE + PAGE_SIZE] == orig[j]
      {
        RemotePages.PageWritten(was, orig[i], i, j);
      }
    }
    assert ops[n..] == rest;
  }

  lemma ScheduleLength(w: RdmaChannel.Channel, ops: seq<Op>, runs: seq<Run>)
    requires Schedule(w, ops, runs)
    ensures |ops| == |runs|
  {
  }

  /** What the processor reads and may write at a page that is back. */
  lemma BackAccess(s: Vm, l: Layout, root: nat, page: nat, i: nat, orig: seq<seq<nat>>)
    requires Valid(l) && i < |orig| && Back(s, l, root, page, i, orig) && Sound(s) && IsRoot(s.own, root)
    requires IsPage(PageNo(page, i))
    ensures Reads(s, root, PageNo(page, i), orig[i])
  {
    hide Leaf, Tree, HardwareWalk;
    SoundIsTree(s);
    SmallAccess(s, root, PageNo(page, i));
  }

  /** The processor finds these bytes at the page, and may write there. */
  ghost predicate Reads(s: Vm, root: nat, v: nat, bytes: seq<nat>) {
    var access := HardwareWalk(s.mem, root, TOP, v, true, true, false);
    access.Some? && access.value.level == 0 && access.value.writable && Bytes(s.data, access.value.word.frame) == bytes
  }

  /** Page-out, unmap, and page-in in the order in which the pages are touched, over
      every schedule of the connection that lets the calls return. Whatever has become
      of the local frames meanwhile (`junk`), every page that has been touched reads as
      it did before; no fault handler fails. */
  method PageOutAndIn(a: AddressSpace, remote: Connection, l: Layout, root: nat,
                      page: nat, n: nat, junk: Data, order: seq<nat>, runs: seq<Run>)
    requires Conserved(a.State()) && IsRoot(a.own, root) && BufferOk(a.State(), l, root, page, n)
    requires remote.Valid() && RdmaChannel.Size(remote.chan) == PAGE_SIZE && n * PAGE_SIZE <= |remote.chan.plain|
    requires forall k :: 0 <= k < |order| ==> order[k] < n
    requires Schedule(remote.chan, OutOps(BufferData(a.mem, a.data, root, page, n)) + InOps(order), runs)
    modifies a, a.pool, remote
    ensures forall i :: i in order ==>
              Reads(a.State(), root, PageNo(page, i), Seen(old(a.mem), old(a.data), root, PageNo(page, i)))
  {
    hide Leaf, Tree, Conserved, Rewritten, PageOfVa, HvaToGpa, DuneVaToPa, FrameOfPa, Seen, Back, Sound, Tabled,
      Serves, RemoteMemory.After, RdmaChannel.Inv, Schedule, Keeps, InFrame;
    ghost var s := a.State();
    ghost var orig := BufferData(a.mem, a.data, root, page, n);
    PageOut(a, remote, root, page, n, runs, InOps(order));
    BufferPages(page, n);
    BufferFits(s, l, root, page, n);
    ConservedSound(s);
    VmUnmap(a, root, page, n * PAGE_SIZE);
    ConservedSound(a.State());
    TablesStay(s, a.State(), root, page, n);
    StartPaged(a.State(), junk, l, root, page, orig);
    a.data := junk;
    ghost var ops := InOps(order);
    ScheduleLength(remote.chan, ops, runs[n..]);
    assert ops[0..] == ops && runs[n + 0..] == runs[n..] && order[..0] == [];
    for k := 0 to |order|
      invariant remote.Valid() && RdmaChannel.Size(remote.chan) == PAGE_SIZE && Stored(remote.chan.plain, orig)
      invariant Schedule(remote.chan, ops[k..], runs[n + k..])
      invariant Paged(a.State(), l, root, page, orig, order[..k])
    {
      ScheduleStep(remote.chan, ops[k..], runs[n + k..]);
      assert ops[k..][1..] == ops[k + 1..] && runs[n + k..][1..] == runs[n + k + 1..];
      TouchPage(a, remote, l, root, page, order[k], runs[n + k], orig, order[..k]);
      assert order[..k + 1] == order[..k] + [order[k]];
    }
    assert order[..|order|] == order;
    forall i | i in order
      ensures Reads(a.State(), root, PageNo(page, i), orig[i])
    {
      PagedPage(a.State(), l, root, page, i, orig, order);
      BackAccess(a.State(), l, root, page, i, orig);
    }
  }

  /** Before the first touch nothing has to be back. */
  lemma StartPaged(s: Vm, data: Data, l: Layout, root: nat, page: nat, orig: seq<seq<nat>>)
    requires Valid(l) && Sound(s) && IsRoot(s.own, root) && forall j :: 0 <= j < |orig| ==> Small(s, root, page, j)
    ensures Paged(s.(data := data), l, root, page, orig, [])
  {
    hide Tabled;
    assert forall j :: Small(s, root, page, j) == Small(s.(data := data), root, page, j);
  }

  lemma PagedPage(s: Vm, l: Layout, root: nat, page: nat, i: nat, orig: seq<seq<nat>>, done: seq<nat>)
    requires Valid(l) && Paged(s, l, root, page, orig, done) && i in done
    ensures Sound(s) && IsRoot(s.own, root) && i < |orig| && Back(s, l, root, page, i, orig)
  {
  }
}
