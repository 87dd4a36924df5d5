/** `steppersync`: the MCU move-queue slots kept as a min-heap of the
    clocks at which each slot becomes free, and the loop of
    `steppersync_flush` that merges the message queues of all step
    compressors into one batch ordered by `req_clock`. */
module StepperSync {
  import opened Ints
  import opened StepCompressQueue

  /** `MAX_CLOCK`: no message with this `req_clock` or later is sent. */
  const MAX_CLOCK: int := 0x7fff_ffff_ffff_ffff

  /** `UINT64_MAX`: the clock of a missing heap child. */
  const UINT64_MAX: int := 0xffff_ffff_ffff_ffff

  /** The parent of slot `i` in the implicit binary tree. */
  function Parent(i: int): int
  {
    (i - 1) / 2
  }

  /** Every slot is no earlier than its parent slot. */
  predicate IsMinHeap(s: seq<int>)
  {
    forall i {:trigger Parent(i)} :: 0 < i < |s| ==> s[Parent(i)] <= s[i]
  }

  /** The root of a min-heap is its earliest slot. */
  lemma {:induction false} HeapRootMin(s: seq<int>)
    requires IsMinHeap(s) && |s| > 0
    ensures forall i :: 0 <= i < |s| ==> s[0] <= s[i]
  {
    forall i | 0 <= i < |s|
      ensures s[0] <= s[i]
    {
      RootBelow(s, i);
    }
  }

  lemma {:induction false} RootBelow(s: seq<int>, i: nat)
    requires IsMinHeap(s) && i < |s|
    ensures s[0] <= s[i]
    decreases i
  {
    if i > 0 {
      RootBelow(s, Parent(i));
    }
  }

  /** The head of every non-empty queue is due at `MAX_CLOCK` or later. */
  predicate NoneDue(queues: seq<seq<QueueMessage>>)
  {
    forall j :: 0 <= j < |queues| && queues[j] != [] ==> queues[j][0].reqClock >= MAX_CLOCK
  }

  /** Queue `idx` holds the message the search picks: a head with the
      smallest `req_clock` below `MAX_CLOCK`, the first such on a tie. */
  predicate IsLowest(queues: seq<seq<QueueMessage>>, idx: int)
  {
    && 0 <= idx < |queues| && queues[idx] != [] && queues[idx][0].reqClock < MAX_CLOCK
    && (forall j :: 0 <= j < |queues| && queues[j] != [] ==> queues[idx][0].reqClock <= queues[j][0].reqClock)
    && (forall j :: 0 <= j < idx && queues[j] != [] ==> queues[idx][0].reqClock < queues[j][0].reqClock)
  }

  /** The search loop of `steppersync_flush`: the head with the lowest
      `req_clock`, or none when every head is due at `MAX_CLOCK` or later. */
  method FindLowest(queues: seq<seq<QueueMessage>>) returns (found: bool, idx: int)
    ensures found ==> IsLowest(queues, idx)
    ensures !found ==> NoneDue(queues)
  {
    var reqClock := MAX_CLOCK;
    found, idx := false, 0;
    for i := 0 to |queues|
      invariant found ==> 0 <= idx < i && queues[idx] != [] && reqClock == queues[idx][0].reqClock
      invariant reqClock <= MAX_CLOCK
      invariant !found ==> reqClock == MAX_CLOCK
      invariant found ==> reqClock < MAX_CLOCK
      invariant forall j :: 0 <= j < i && queues[j] != [] ==> reqClock <= queues[j][0].reqClock
      invariant found ==> forall j :: 0 <= j < idx && queues[j] != [] ==> reqClock < queues[j][0].reqClock
    {
      if queues[i] != [] && queues[i][0].reqClock < reqClock {
        found, idx, reqClock := true, i, queues[i][0].reqClock;
      }
    }
  }

  /** Every queue is ordered by `req_clock`. */
  predicate SortedByReq(q: seq<QueueMessage>)
  {
    forall i, k :: 0 <= i < k < |q| ==> q[i].reqClock <= q[k].reqClock
  }

  predicate AllSorted(queues: seq<seq<QueueMessage>>)
  {
    forall j :: 0 <= j < |queues| ==> SortedByReq(queues[j])
  }

  /** The messages of `taken` that came from queue `j`, in order. */
  function Picked(taken: seq<QueueMessage>, src: seq<int>, j: int): (r: seq<QueueMessage>)
    requires |taken| == |src|
    ensures |r| <= |taken|
  {
    if taken == [] then []
    else
      var n := |taken| - 1;
      Picked(taken[..n], src[..n], j) + (if src[n] == j then [taken[n]] else [])
  }

  /** The clocks claimed in the move queue: the `min_clock` of every message
      that uses it. */
  function Claimed(taken: seq<QueueMessage>): multiset<int>
  {
    if taken == [] then multiset{}
    else
      var n := |taken| - 1;
      Claimed(taken[..n]) + (if taken[n].minClock != 0 then multiset{taken[n].minClock} else multiset{})
  }

  /** The slots those messages took: the heap root each one found. */
  function Freed(taken: seq<QueueMessage>, batch: seq<QueueMessage>): multiset<int>
    requires |taken| == |batch|
  {
    if taken == [] then multiset{}
    else
      var n := |taken| - 1;
      Freed(taken[..n], batch[..n]) + (if taken[n].minClock != 0 then multiset{batch[n].minClock} else multiset{})
  }

  /** The parent of `i` is `pos` only for the two children of `pos`. */
  lemma {:induction false} ChildIndex(i: int, pos: int)
    requires 0 < i && Parent(i) == pos
    ensures i == 2 * pos + 1 || i == 2 * pos + 2
  {
  }

  predicate AllU64(s: seq<int>)
  {
    forall i :: 0 <= i < |s| ==> IsU64(s[i])
  }

  /** The state of the sift of `x` down from the root of `orig`: `s` is
      still a heap of uint64 clocks whose slot `pos` is the hole, every
      ancestor of the hole is no later than `x`, and putting `x` in the
      hole gives the slots of `orig` with its root replaced by `x`. */
  predicate SiftInv(s: seq<int>, pos: int, x: int, orig: seq<int>)
  {
    && 0 <= pos < |s| && |orig| > 0 && IsU64(x)
    && IsMinHeap(s) && AllU64(s)
    && (pos > 0 ==> s[Parent(pos)] <= x)
    && multiset(s[pos := x]) == multiset(orig[0 := x])
  }

  /** Moving the smaller child of the hole up into it, when `x` is later
      than that child, moves the hole down one level. */
  lemma {:induction false} SiftStep(s: seq<int>, pos: int, next: int, x: int, orig: seq<int>)
    requires SiftInv(s, pos, x, orig)
    requires next == 2 * pos + 1 || next == 2 * pos + 2
    requires next < |s| && s[next] < x
    requires 2 * pos + 1 < |s| ==> s[next] <= s[2 * pos + 1]
    requires 2 * pos + 2 < |s| ==> s[next] <= s[2 * pos + 2]
    ensures SiftInv(s[pos := s[next]], next, x, orig)
  {
    assert Parent(next) == pos;
    MoveUpHeap(s, pos, next);
    SwapMultiset(s, pos, next, x);
  }

  /** Copying the smaller child into its parent keeps the heap order. */
  lemma {:induction false} MoveUpHeap(s: seq<int>, pos: int, next: int)
    requires IsMinHeap(s) && 0 <= pos < next < |s| && Parent(next) == pos
    requires 2 * pos + 1 < |s| ==> s[next] <= s[2 * pos + 1]
    requires 2 * pos + 2 < |s| ==> s[next] <= s[2 * pos + 2]
    ensures IsMinHeap(s[pos := s[next]])
  {
    var t := s[pos := s[next]];
    forall i | 0 < i < |t|
      ensures t[Parent(i)] <= t[i]
    {
      if Parent(i) == pos {
        ChildIndex(i, pos);
      } else if i == pos {
        assert s[Parent(i)] <= s[i];
      }
    }
  }

  /** Moving the hole from `pos` down to `next` keeps the same multiset
      once `x` fills it. */
  lemma {:induction false} SwapMultiset(s: seq<int>, pos: int, next: int, x: int)
    requires 0 <= pos < |s| && 0 <= next < |s| && pos != next
    ensures multiset(s[pos := s[next]][next := x]) == multiset(s[pos := x])
  {
    assert s[pos := s[next]][next := x] == s[pos := x][pos := s[next]][next := x];
  }

  /** A value between the hole's parent and its children fills the hole. */
  lemma {:induction false} SiftPlace(s: seq<int>, pos: int, x: int, orig: seq<int>)
    requires SiftInv(s, pos, x, orig)
    requires 2 * pos + 1 < |s| ==> x <= s[2 * pos + 1]
    requires 2 * pos + 2 < |s| ==> x <= s[2 * pos + 2]
    ensures IsMinHeap(s[pos := x]) && AllU64(s[pos := x])
  {
    var t := s[pos := x];
    forall i | 0 < i < |t|
      ensures t[Parent(i)] <= t[i]
    {
      if Parent(i) == pos {
        ChildIndex(i, pos);
      }
    }
  }

  /** The number of messages waiting in all queues. */
  function Total(queues: seq<seq<QueueMessage>>): nat
  {
    if queues == [] then 0 else |queues[0]| + Total(queues[1..])
  }

  /** Taking the head of one queue leaves one message fewer in all. */
  lemma {:induction false} TotalTakeHead(queues: seq<seq<QueueMessage>>, idx: int)
    requires 0 <= idx < |queues| && queues[idx] != []
    ensures Total(queues[idx := queues[idx][1..]]) == Total(queues) - 1
  {
    var r := queues[idx := queues[idx][1..]];
    if idx > 0 {
      assert r[1..] == queues[1..][idx - 1 := queues[1..][idx - 1][1..]];
      TotalTakeHead(queues[1..], idx - 1);
    } else {
      assert r[1..] == queues[1..];
    }
  }

  /** Appending a message taken from queue `idx` extends what was picked
      from that queue and from no other. */
  lemma {:induction false} PickedSnoc(taken: seq<QueueMessage>, src: seq<int>, m: QueueMessage, idx: int, j: int)
    requires |taken| == |src|
    ensures Picked(taken + [m], src + [idx], j)
            == Picked(taken, src, j) + (if idx == j then [m] else [])
  {
    assert (taken + [m])[..|taken|] == taken;
    assert (src + [idx])[..|src|] == src;
  }

  /** Replacing slot `i` by `x` swaps one `s[i]` for one `x` in the multiset. */
  lemma {:induction false} MultisetUpdate(s: seq<int>, i: int, x: int)
    requires 0 <= i < |s|
    ensures multiset(s[i := x]) + multiset{s[i]} == multiset(s) + multiset{x}
  {
  }

  /** The heap of move-queue slots of one MCU. */
  class StepperSync {
    const moveClocks: array<int>

    predicate Valid()
      reads this, moveClocks
    {
      && moveClocks.Length >= 1
      && IsMinHeap(moveClocks[..])
      && AllU64(moveClocks[..])
    }

    /** `steppersync_alloc`: `moveNum` slots, all free from clock 0. */
    constructor (moveNum: int)
      requires moveNum >= 1
      ensures Valid() && fresh(moveClocks)
      ensures moveClocks[..] == seq(moveNum, _ => 0)
    {
      moveClocks := new int[moveNum](_ => 0);
    }

    /** `heap_replace`: take the earliest slot and put `reqClock` in its
        place, sifting it down so the slots stay a min-heap. */
    method HeapReplace(reqClock: int)
      requires Valid() && IsU64(reqClock)
      modifies moveClocks
      ensures Valid()
      ensures multiset(moveClocks[..]) == multiset(old(moveClocks[..])[0 := reqClock])
    {
      var mc := moveClocks;
      var nmc := mc.Length;
      var pos := 0;
      while true
        invariant 0 <= pos < nmc
        invariant SiftInv(mc[..], pos, reqClock, old(mc[..]))
        decreases nmc - pos
      {
        var child1Pos, child2Pos := 2 * pos + 1, 2 * pos + 2;
        var child2Clock := if child2Pos < nmc then mc[child2Pos] else UINT64_MAX;
        var child1Clock := if child1Pos < nmc then mc[child1Pos] else UINT64_MAX;
        ghost var before := mc[..];
        if reqClock <= child1Clock && reqClock <= child2Clock {
          mc[pos] := reqClock;
          assert mc[..] == before[pos := reqClock];
          SiftPlace(before, pos, reqClock, old(mc[..]));
          return;
        }
        var next := if child1Clock < child2Clock then child1Pos else child2Pos;
        mc[pos] := mc[next];
        assert mc[..] == before[pos := before[next]];
        SiftStep(before, pos, next, reqClock, old(mc[..]));
        pos := next;
      }
    }

    /** The ordering loop of `steppersync_flush`: repeatedly take the
        queue head with the lowest `req_clock` into the batch, stopping
        when no head is due before `MAX_CLOCK` or the lowest one needs a
        move-queue slot (`min_clock` non-zero) and is due after
        `moveClock`.  A message that needs a slot takes the earliest one
        and books it until its own `min_clock`; every batched message gets
        the earliest slot clock as its new `min_clock`.  `taken` are the
        messages as they left their queues and `src` the queue of each. */
    method FlushOrder(queues: seq<seq<QueueMessage>>, moveClock: int)
      returns (batch: seq<QueueMessage>, rest: seq<seq<QueueMessage>>,
               ghost taken: seq<QueueMessage>, ghost src: seq<int>)
      requires Valid()
      requires forall j, k :: 0 <= j < |queues| && 0 <= k < |queues[j]| ==> IsU64(queues[j][k].minClock)
      modifies moveClocks
      ensures Valid()
      ensures |rest| == |queues| && |taken| == |src| == |batch|
      ensures forall j :: 0 <= j < |queues| ==> queues[j] == Picked(taken, src, j) + rest[j]
      ensures forall i :: 0 <= i < |batch| ==> batch[i] == taken[i].(minClock := batch[i].minClock)
      ensures forall i :: 0 <= i < |taken| ==>
                taken[i].reqClock < MAX_CLOCK && (taken[i].minClock != 0 ==> taken[i].reqClock <= moveClock)
      ensures NoneDue(rest) || exists j :: IsLowest(rest, j) && rest[j][0].minClock != 0 && rest[j][0].reqClock > moveClock
      ensures AllSorted(queues) ==> SortedByReq(batch)
      ensures multiset(moveClocks[..]) + Freed(taken, batch) == multiset(old(moveClocks[..])) + Claimed(taken)
    {
      batch, rest, taken, src := [], queues, [], [];
      while true
        invariant Valid()
        invariant FlushInv(queues, moveClock, batch, rest, taken, src)
        invariant multiset(moveClocks[..]) + Freed(taken, batch) == multiset(old(moveClocks[..])) + Claimed(taken)
        decreases Total(rest)
      {
        var found, idx := FindLowest(rest);
        if !found || (rest[idx][0].minClock != 0 && rest[idx][0].reqClock > moveClock) {
          break;
        }
        var qm := rest[idx][0];
        var nextAvail := moveClocks[0];
        ghost var slots := moveClocks[..];
        assert slots[0] == nextAvail;
        var sent := qm.(minClock := nextAvail);
        LedgerSnoc(taken, batch, qm, sent);
        if qm.minClock != 0 {
          HeapReplace(qm.minClock);
          MultisetUpdate(slots, 0, qm.minClock);
          LedgerBalance(multiset(slots), multiset(moveClocks[..]), multiset(old(moveClocks[..])),
                        Freed(taken, batch), Claimed(taken), nextAvail, qm.minClock);
        } else {
          assert Freed(taken + [qm], batch + [sent]) == Freed(taken, batch);
          assert Claimed(taken + [qm]) == Claimed(taken);
        }
        FlushInvStep(queues, moveClock, batch, rest, taken, src, idx, nextAvail);
        TotalTakeHead(rest, idx);
        batch, taken, src := batch + [sent], taken + [qm], src + [idx];
        rest := rest[idx := rest[idx][1..]];
      }
    }
  }

  /** What the ordering loop keeps true of the messages: each queue is what
      was picked from it followed by what is left, every batched message is
      the taken one with only `min_clock` changed, nothing due at
      `MAX_CLOCK` was taken nor any move-queue message due after
      `moveClock`, and sorted queues give a sorted batch. */
  predicate FlushInv(queues: seq<seq<QueueMessage>>, moveClock: int, batch: seq<QueueMessage>,
                     rest: seq<seq<QueueMessage>>, taken: seq<QueueMessage>, src: seq<int>)
  {
    && |rest| == |queues| && |taken| == |src| == |batch|
    && (forall j, k :: 0 <= j < |rest| && 0 <= k < |rest[j]| ==> IsU64(rest[j][k].minClock))
    && (forall j :: 0 <= j < |queues| ==> queues[j] == Picked(taken, src, j) + rest[j])
    && (forall i :: 0 <= i < |batch| ==> batch[i] == taken[i].(minClock := batch[i].minClock))
    && (forall i :: 0 <= i < |taken| ==>
          taken[i].reqClock < MAX_CLOCK && (taken[i].minClock != 0 ==> taken[i].reqClock <= moveClock))
    && (AllSorted(queues) ==> AllSorted(rest) && SortedByReq(batch) && BatchBeforeHeads(batch, rest))
  }

  /** One turn of the ordering loop keeps `FlushInv`. */
  lemma {:induction false} FlushInvStep(queues: seq<seq<QueueMessage>>, moveClock: int, batch: seq<QueueMessage>,
                     rest: seq<seq<QueueMessage>>, taken: seq<QueueMessage>, src: seq<int>,
                     idx: int, nextAvail: int)
    requires FlushInv(queues, moveClock, batch, rest, taken, src) && IsLowest(rest, idx)
    requires rest[idx][0].minClock != 0 ==> rest[idx][0].reqClock <= moveClock
    ensures FlushInv(queues, moveClock, batch + [rest[idx][0].(minClock := nextAvail)],
                     rest[idx := rest[idx][1..]], taken + [rest[idx][0]], src + [idx])
  {
    var qm := rest[idx][0];
    var sent := qm.(minClock := nextAvail);
    OrderStep(batch, rest, idx, sent);
    forall j | 0 <= j < |queues|
      ensures queues[j] == Picked(taken + [qm], src + [idx], j) + rest[idx := rest[idx][1..]][j]
    {
      PickedSnoc(taken, src, qm, idx, j);
      if j == idx {
        assert rest[idx] == [qm] + rest[idx][1..];
      }
    }
    var r: seq<seq<QueueMessage>> := rest[idx := rest[idx][1..]];
    forall j: int, k: int | 0 <= j < |r| && 0 <= k < |r[j]|
      ensures IsU64(r[j][k].minClock)
    {
      if j == idx {
        assert r[j][k] == rest[idx][k + 1];
      }
    }
  }

  /** The slot ledger stays balanced when one slot is swapped for another. */
  lemma {:induction false} LedgerBalance(before: multiset<int>, after: multiset<int>, orig: multiset<int>,
                      freed: multiset<int>, claimed: multiset<int>, root: int, req: int)
    requires before + freed == orig + claimed
    requires after + multiset{root} == before + multiset{req}
    ensures after + (freed + multiset{root}) == orig + (claimed + multiset{req})
  {
    calc {
      after + (freed + multiset{root});
      (after + multiset{root}) + freed;
      (before + freed) + multiset{req};
      orig + (claimed + multiset{req});
    }
  }

  /** Appending one message adds its slot to the ledgers of claimed and
      freed slots exactly when it uses the move queue. */
  lemma {:induction false} LedgerSnoc(taken: seq<QueueMessage>, batch: seq<QueueMessage>, qm: QueueMessage, sent: QueueMessage)
    requires |taken| == |batch|
    ensures Claimed(taken + [qm]) == Claimed(taken) + (if qm.minClock != 0 then multiset{qm.minClock} else multiset{})
    ensures Freed(taken + [qm], batch + [sent]) == Freed(taken, batch) + (if qm.minClock != 0 then multiset{sent.minClock} else multiset{})
  {
    assert (taken + [qm])[..|taken|] == taken;
    assert (batch + [sent])[..|batch|] == batch;
  }

  /** Everything batched so far is due no later than any queue head. */
  predicate BatchBeforeHeads(batch: seq<QueueMessage>, rest: seq<seq<QueueMessage>>)
  {
    batch != [] ==>
      forall j :: 0 <= j < |rest| && rest[j] != [] ==> batch[|batch| - 1].reqClock <= rest[j][0].reqClock
  }

  /** Taking the lowest head keeps the batch ordered and before the new heads. */
  lemma {:induction false} OrderStep(batch: seq<QueueMessage>, rest: seq<seq<QueueMessage>>, idx: int, sent: QueueMessage)
    requires IsLowest(rest, idx) && sent.reqClock == rest[idx][0].reqClock
    ensures AllSorted(rest) && SortedByReq(batch) && BatchBeforeHeads(batch, rest) ==>
              && AllSorted(rest[idx := rest[idx][1..]])
              && SortedByReq(batch + [sent])
              && BatchBeforeHeads(batch + [sent], rest[idx := rest[idx][1..]])
  {
    if AllSorted(rest) && SortedByReq(batch) && BatchBeforeHeads(batch, rest) {
      var r := rest[idx := rest[idx][1..]];
      forall j | 0 <= j < |r|
        ensures SortedByReq(r[j])
      {
        assert SortedByReq(rest[j]);
      }
      var b := batch + [sent];
      forall i, k | 0 <= i < k < |b|
        ensures b[i].reqClock <= b[k].reqClock
      {
        if k == |batch| && i < |batch| {
          assert batch[i].reqClock <= batch[|batch| - 1].reqClock;
        }
      }
      forall j | 0 <= j < |r| && r[j] != []
        ensures sent.reqClock <= r[j][0].reqClock
      {
        if j == idx {
          assert SortedByReq(rest[idx]);
          assert rest[idx][1..][0] == rest[idx][1];
        }
      }
    }
  }
}
