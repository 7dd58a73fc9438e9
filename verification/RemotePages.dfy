/** Page-out and page-in over the protocol itself: whatever the NIC, the peer and the
    poller do in between, a read of a page that was written out returns the page. */
module RemotePages {
  import opened RdmaChannel
  import Radix

  /** The offset writes among the calls. */
  function WritesIn(steps: seq<Step>): seq<(seq<nat>, nat)> {
    if steps == [] then []
    else match steps[0]
      case CallWrite(buf, off) => [(buf, off)] + WritesIn(steps[1..])
      case _ => WritesIn(steps[1..])
  }

  /** The page-out loop: page after page, each at its own offset. */
  predicate PagesOut(writes: seq<(seq<nat>, nat)>, pages: seq<seq<nat>>) {
    |writes| == |pages| && forall i :: 0 <= i < |pages| ==>
      writes[i] == (pages[i], i * Radix.PAGE_SIZE) && |pages[i]| == Radix.PAGE_SIZE
  }

  function Apply(p: seq<nat>, writes: seq<(seq<nat>, nat)>): (r: seq<nat>)
    ensures |r| == |p|
    decreases |writes|
  {
    if writes == [] then p
    else
      var (buf, off) := writes[0];
      Apply(if off + |buf| <= |p| then Overwrite(p, off, buf) else p, writes[1..])
  }

  /** What the calls of a run make of the array depends on its writes alone. */
  lemma {:induction false} CallsApply(p: seq<nat>, steps: seq<Step>)
    ensures AfterCalls(p, steps) == Apply(p, WritesIn(steps))
    decreases |steps|
  {
    hide Overwrite;
    if steps != [] {
      match steps[0]
      case CallWrite(buf, off) =>
        CallsApply(if off + |buf| <= |p| then Overwrite(p, off, buf) else p, steps[1..]);
        assert WritesIn(steps)[1..] == WritesIn(steps[1..]);
      case _ =>
        CallsApply(p, steps[1..]);
    }
  }

  /** The pages from `k` on do not disturb what lies before them. */
  lemma {:induction false} ApplyPages(p: seq<nat>, pages: seq<seq<nat>>, writes: seq<(seq<nat>, nat)>, k: nat, i: nat)
    requires PagesOut(writes, pages) && |pages| * Radix.PAGE_SIZE <= |p| && k <= |pages| && i < |pages|
    requires i < k ==> p[i * Radix.PAGE_SIZE..i * Radix.PAGE_SIZE + Radix.PAGE_SIZE] == pages[i]
    ensures Apply(p, writes[k..])[i * Radix.PAGE_SIZE..i * Radix.PAGE_SIZE + Radix.PAGE_SIZE] == pages[i]
    decreases |pages| - k
  {
    if k < |pages| {
      assert writes[k..][0] == (pages[k], k * Radix.PAGE_SIZE) && writes[k..][1..] == writes[k + 1..];
      var q := Overwrite(p, k * Radix.PAGE_SIZE, pages[k]);
      if i <= k {
        PageWritten(p, pages[k], k, i);
      }
      ApplyPages(q, pages, writes, k + 1, i);
    }
  }

  lemma PageWritten(p: seq<nat>, page: seq<nat>, k: nat, i: nat)
    requires |page| == Radix.PAGE_SIZE && (k + 1) * Radix.PAGE_SIZE <= |p| && i <= k
    ensures var q := Overwrite(p, k * Radix.PAGE_SIZE, page);
            q[i * Radix.PAGE_SIZE..i * Radix.PAGE_SIZE + Radix.PAGE_SIZE]
            == if i == k then page else p[i * Radix.PAGE_SIZE..i * Radix.PAGE_SIZE + Radix.PAGE_SIZE]
  {
  }

  /** In every run whose writes are a page-out, any later read at page i's offset
      returns page i, in whatever order the pages are read back. */
  lemma PageReadBack(w: Channel, steps: seq<Step>, w1: Channel, pages: seq<seq<nat>>, i: nat)
    requires Init(w) && Size(w1) == Radix.PAGE_SIZE && |pages| * Radix.PAGE_SIZE <= |w.remote|
    requires Runs(w, steps, w1) && Enabled(w1, AcquireRead)
    requires PagesOut(WritesIn(steps), pages) && i < |pages| && w1.client.from == i * Radix.PAGE_SIZE
    ensures Next(w1, AcquireRead).result == pages[i]
  {
    hide Init, Runs, Enabled, Next, AfterCalls, WritesIn, Apply, PagesOut;
    ReadsArePlain(w, steps, w1);
    CallsApply(w.remote, steps);
    var writes := WritesIn(steps);
    assert writes[0..] == writes;
    ApplyPages(w.remote, pages, writes, 0, i);
  }
}
