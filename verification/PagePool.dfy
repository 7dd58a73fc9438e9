/** The reference-counted page pool of libdune/page.c and dune.h. */
module PagePool {
  import opened Radix

  /** PAGEBASE (0x200000000) as a frame number. */
  const PAGEBASE_FRAME := 0x200000
  const GROW_SIZE := 512

  /** `refs[k]` is `pages[k].ref` for k below `num_pages`; `free` is the list
      `pages_free`, head first. The host can back `cap` pages; asking it for more
      fails. */
  datatype Pool = Pool(refs: seq<nat>, free: seq<nat>, cap: nat)

  /** The free list holds exactly the pages with count 0, without repeats. */
  ghost predicate FreeOk(p: Pool) {
    && (forall j :: 0 <= j < |p.free| ==> p.free[j] < |p.refs| && p.refs[p.free[j]] == 0)
    && (forall k :: 0 <= k < |p.refs| && p.refs[k] == 0 ==> k in p.free)
    && (forall i, j :: 0 <= i < j < |p.free| ==> p.free[i] != p.free[j])
  }

  /** dune_page_isfrompool, on frame numbers. */
  predicate InPool(p: Pool, frame: nat) {
    PAGEBASE_FRAME <= frame < PAGEBASE_FRAME + |p.refs|
  }

  /** The frames the pool has or may grow to have. */
  predicate PoolFrame(p: Pool, frame: nat) {
    PAGEBASE_FRAME <= frame < PAGEBASE_FRAME + p.cap
  }

  /** dune_page2pa and dune_pa2page, on frame numbers. */
  function FrameOf(k: nat): nat {
    PAGEBASE_FRAME + k
  }

  function PageOf(p: Pool, frame: nat): nat
    requires InPool(p, frame)
  {
    frame - PAGEBASE_FRAME
  }

  /** The count of the page behind a frame; 0 when there is no such page. */
  function RefOf(p: Pool, frame: nat): nat {
    if InPool(p, frame) then p.refs[PageOf(p, frame)] else 0
  }

  function Grown(p: Pool): Option<Pool> {
    if |p.refs| + GROW_SIZE <= p.cap
    then Some(p.(refs := p.refs + seq(GROW_SIZE, i => 0),
                 free := seq(GROW_SIZE, i requires 0 <= i < GROW_SIZE => |p.refs| + GROW_SIZE - 1 - i) + p.free))
    else None
  }

  function Taken(p: Pool): (Pool, nat)
    requires p.free != []
  {
    var k := p.free[0];
    (p.(refs := if k < |p.refs| then p.refs[k := p.refs[k] + 1] else p.refs, free := p.free[1..]), k)
  }

  /** dune_page_alloc: the pool afterwards and the page's number. */
  function Alloc(p: Pool): Option<(Pool, nat)> {
    if p.free != [] then Some(Taken(p))
    else match Grown(p)
      case None => None
      case Some(q) => if q.free == [] then None else Some(Taken(q))
  }

  function Get(p: Pool, k: nat): Pool
    requires k < |p.refs|
  {
    p.(refs := p.refs[k := p.refs[k] + 1])
  }

  /** dune_page_put; the counter is 64 bits wide, so a put at 0 wraps. */
  function Put(p: Pool, k: nat): Pool
    requires k < |p.refs|
  {
    var n := if p.refs[k] == 0 then 0xffff_ffff_ffff_ffff else p.refs[k] - 1;
    p.(refs := p.refs[k := n], free := if n == 0 then [k] + p.free else p.free)
  }

  lemma GrownOk(p: Pool)
    requires FreeOk(p) && Grown(p).Some?
    ensures FreeOk(Grown(p).value)
    ensures forall k :: 0 <= k < |p.refs| ==> Grown(p).value.refs[k] == p.refs[k]
  {
    var q := Grown(p).value;
    forall k | 0 <= k < |q.refs| && q.refs[k] == 0
      ensures k in q.free
    {
      if k < |p.refs| {
        assert p.refs[k] == 0;
        var j :| 0 <= j < |p.free| && p.free[j] == k;
        assert q.free[GROW_SIZE + j] == k;
      } else {
        assert q.free[|q.refs| - 1 - k] == k;
      }
    }
  }

  lemma TakenOk(p: Pool)
    requires FreeOk(p) && p.free != []
    ensures var (q, k) := Taken(p);
            && FreeOk(q) && k < |p.refs| && p.refs[k] == 0
            && q == p.(refs := p.refs[k := 1], free := p.free[1..])
  {
    var (q, k) := Taken(p);
    forall m | 0 <= m < |q.refs| && q.refs[m] == 0
      ensures m in q.free
    {
      var j :| 0 <= j < |p.free| && p.free[j] == m;
      assert q.free[j - 1] == m;
    }
  }

  /** An allocation hands out a page whose count was 0, leaves it at 1, touches no
      other count, and keeps the free list exact. */
  lemma AllocOk(p: Pool)
    requires FreeOk(p) && Alloc(p).Some?
    ensures var (q, k) := Alloc(p).value;
            && FreeOk(q) && k < |q.refs| && |p.refs| <= |q.refs| && q.cap == p.cap
            && (|p.refs| <= p.cap ==> |q.refs| <= q.cap)
            && RefOf(p, FrameOf(k)) == 0 && q.refs[k] == 1
            && forall f :: f != FrameOf(k) ==> RefOf(q, f) == RefOf(p, f)
  {
    if p.free != [] {
      TakenOk(p);
    } else {
      GrownOk(p);
      TakenOk(Grown(p).value);
    }
  }

  /** The part of `FreeOk` that does not depend on the counts. */
  ghost predicate ListOk(p: Pool) {
    && (forall j :: 0 <= j < |p.free| ==> p.free[j] < |p.refs|)
    && (forall i, j :: 0 <= i < j < |p.free| ==> p.free[i] != p.free[j])
  }

  lemma AllocList(p: Pool)
    requires ListOk(p) && Alloc(p).Some?
    ensures var (q, k) := Alloc(p).value;
            && ListOk(q) && k < |q.refs| && |p.refs| <= |q.refs| && k !in q.free
            && (k in p.free || |p.refs| <= k < p.cap) && q.cap == p.cap
            && forall j :: j in q.free ==> j in p.free || |p.refs| <= j < p.cap
  {
  }

  /** Allocation fails only when the list is empty and the host refuses to grow. */
  lemma AllocFails(p: Pool)
    ensures Alloc(p).None? <==> p.free == [] && p.cap < |p.refs| + GROW_SIZE
  {
  }

  /** How many pages the pool can still give: those on the list, and the whole blocks
      that the host will back. */
  function Room(p: Pool): nat {
    |p.free| + if |p.refs| <= p.cap then (p.cap - |p.refs|) / GROW_SIZE * GROW_SIZE else 0
  }

  /** Allocation succeeds exactly if there is room, and takes one page of it. */
  lemma AllocRoom(p: Pool)
    ensures Alloc(p).Some? <==> Room(p) > 0
    ensures Alloc(p).Some? ==> Room(Alloc(p).value.0) == Room(p) - 1
  {
  }

  lemma GetOk(p: Pool, k: nat)
    requires FreeOk(p) && k < |p.refs| && p.refs[k] > 0
    ensures FreeOk(Get(p, k))
    ensures forall f :: RefOf(Get(p, k), f) == RefOf(p, f) + if f == FrameOf(k) then 1 else 0
  {
  }

  lemma PutOk(p: Pool, k: nat)
    requires FreeOk(p) && k < |p.refs| && p.refs[k] > 0
    ensures FreeOk(Put(p, k))
    ensures forall f :: RefOf(Put(p, k), f) == RefOf(p, f) - if f == FrameOf(k) then 1 else 0
  {
    var q := Put(p, k);
    assert k !in p.free;
    assert q.refs == p.refs[k := p.refs[k] - 1];
    forall m | 0 <= m < |q.refs| && q.refs[m] == 0
      ensures m in q.free
    {
      assert m == k || m in p.free;
    }
    if p.refs[k] == 1 {
      assert q.free == [k] + p.free;
    }
  }

  /** The pool as page.c keeps it. */
  class PageAllocator {
    var refs: seq<nat>
    var free: seq<nat>
    const cap: nat

    function State(): Pool
      reads this
    {
      Pool(refs, free, cap)
    }

    /** dune_page_init, with the host's answer to the first mapping. */
    constructor (hostPages: nat)
      requires GROW_SIZE <= hostPages
      ensures State().cap == hostPages && |refs| == GROW_SIZE && FreeOk(State())
      ensures free == seq(GROW_SIZE, i requires 0 <= i < GROW_SIZE => GROW_SIZE - 1 - i)
    {
      cap := hostPages;
      refs := [];
      free := [];
      new;
      Extend();
      assert |free| == GROW_SIZE;
      forall k | 0 <= k < GROW_SIZE
        ensures k in free
      {
        assert free[GROW_SIZE - 1 - k] == k;
      }
    }

    /** The loop shared by dune_page_init and grow_size. */
    method Extend()
      modifies this`refs, this`free
      ensures refs == old(refs) + seq(512, i => 0)
      ensures free == seq(GROW_SIZE, i requires 0 <= i < GROW_SIZE => |old(refs)| + GROW_SIZE - 1 - i) + old(free)
    {
      ghost var n := |refs|;
      var i := 0;
      while i < GROW_SIZE
        invariant 0 <= i <= GROW_SIZE
        invariant refs == old(refs) + seq(i, j => 0)
        invariant |free| == i + |old(free)| && free[i..] == old(free)
        invariant forall j :: 0 <= j < i ==> free[j] == n + i - 1 - j
      {
        refs := refs + [0];
        free := [|refs| - 1] + free;
        i := i + 1;
      }
    }

    method Grow() returns (ok: bool)
      modifies this`refs, this`free
      ensures ok == Grown(old(State())).Some?
      ensures State() == if ok then Grown(old(State())).value else old(State())
    {
      ok := |refs| + GROW_SIZE <= cap;
      if ok {
        Extend();
      }
    }

    method AllocPage() returns (r: Option<nat>)
      modifies this`refs, this`free
      ensures r.Some? == Alloc(old(State())).Some?
      ensures r.Some? ==> State() == Alloc(old(State())).value.0 && r.value == Alloc(old(State())).value.1
      ensures r.None? ==> State() == old(State())
    {
      if free == [] {
        var ok := Grow();
        if !ok {
          return None;
        }
      }
      var k := free[0];
      free := free[1..];
      if k < |refs| {
        refs := refs[k := refs[k] + 1];
      }
      r := Some(k);
    }

    /** dune_page_get; its assertion is the precondition. */
    method GetPage(k: nat)
      requires k < |refs|
      modifies this`refs
      ensures State() == Get(old(State()), k)
    {
      refs := refs[k := refs[k] + 1];
    }

    /** dune_page_put and dune_page_free. */
    method PutPage(k: nat)
      requires k < |refs|
      modifies this`refs, this`free
      ensures State() == Put(old(State()), k)
    {
      refs := refs[k := if refs[k] == 0 then 0xffff_ffff_ffff_ffff else refs[k] - 1];
      if refs[k] == 0 {
        free := [k] + free;
      }
    }
  }
}
