/** One stepper's step compressor: the growable buffer of pending step
    times, the queue of `queue_step` messages produced from it, and the
    history of sent moves (newest first) used to answer position queries. */
module StepCompressQueue {
  import opened Ints
  import opened StepCompressMath

  /** `QUEUE_START_SIZE`: the first allocation of the step buffer. */
  const QUEUE_START_SIZE: int := 1024

  /** `CLOCK_DIFF_MAX`: the largest gap between consecutive messages. */
  const CLOCK_DIFF_MAX: int := 0x3000_0000

  /** A message for the MCU: its encoded words, and the clocks it may not be
      sent before (`minClock`) and must be sent by (`reqClock`). */
  datatype QueueMessage = QueueMessage(data: seq<int>, minClock: int, reqClock: int)

  /** One sent `queue_step`: the clocks of its first and last steps, the
      position before it and the signed number of steps it moved. */
  datatype HistorySteps = HistorySteps(
    firstClock: int, lastClock: int, startPosition: int,
    stepCount: int, interval: int, add: int)

  /** `step_count`: any known-or-unknown direction other than 0 counts up. */
  function StepCount(sdir: int, count: int): int
  {
    if sdir != 0 then count else -count
  }

  /** `sdir ^= 1` on a non-negative direction. */
  function FlipLowBit(x: int): int
    requires x >= 0
  {
    if x % 2 == 0 then x + 1 else x - 1
  }

  /** The direction bit sent to the MCU by `set_next_step_dir`: `sdir ^ invert_sdir`. */
  function McuDir(sdir: int, invert: int): int
    requires 0 <= sdir <= 1 && 0 <= invert <= 1
  {
    if sdir == invert then 0 else 1
  }

  /** The ticks from the first to the last step of a step_move, as uint32. */
  function AddMoveTicks(mv: StepMove): int
  {
    U32(mv.add * (mv.count * (mv.count - 1) / 2) + mv.interval * (mv.count - 1))
  }

  /** `add_move`'s bookkeeping describes the move's last step: when the
      first step is at `first_clock`, the last one is `ticks` later at the
      running total of all `count` gaps, and the last gap is
      `interval + add*(count-1)`. */
  lemma {:induction false} AddMoveLastStep(mv: StepMove)
    requires mv.count >= 1
    requires 0 <= Accumulated(mv.interval, mv.add, mv.count) - mv.interval < TWO_32
    ensures mv.interval + AddMoveTicks(mv) == Accumulated(mv.interval, mv.add, mv.count)
    ensures Accumulated(mv.interval, mv.add, mv.count) - Accumulated(mv.interval, mv.add, mv.count - 1)
            == mv.interval + mv.add * (mv.count - 1)
  {
    AccumulatedClosedForm(mv.interval, mv.add, mv.count);
    assert mv.interval * mv.count == mv.interval * (mv.count - 1) + mv.interval;
  }

  /** The `queue_step` message of `add_move`. */
  function QueueStepMessage(tag: int, oid: int, mv: StepMove, firstClock: int, lastStepClock: int): QueueMessage
  {
    var req := if mv.count == 1 && firstClock >= U64(lastStepClock + CLOCK_DIFF_MAX)
               then firstClock else lastStepClock;
    QueueMessage([U32(tag), U32(oid), mv.interval, mv.count, U32(mv.add)], lastStepClock, req)
  }

  /** `free_history`'s result: drop the oldest entries while they ended by
      `endClock`. */
  function TrimHistory(h: seq<HistorySteps>, endClock: int): (r: seq<HistorySteps>)
    ensures |r| <= |h| && r == h[..|r|]
    ensures r != [] ==> r[|r| - 1].lastClock > endClock
    ensures forall i :: |r| <= i < |h| ==> h[i].lastClock <= endClock
  {
    if h != [] && h[|h| - 1].lastClock <= endClock then TrimHistory(h[..|h| - 1], endClock)
    else h
  }

  /** `stepcompress_extract_old`'s result: walking from the newest entry,
      stop at the first one that ended by `startClock` or once `max`
      entries are taken, and skip those that start at or after `endClock`. */
  function Extract(h: seq<HistorySteps>, max: int, startClock: int, endClock: int): (r: seq<HistorySteps>)
    ensures |r| <= |h| && (max >= 0 ==> |r| <= max)
  {
    if h == [] || startClock >= h[0].lastClock || max <= 0 then []
    else if endClock <= h[0].firstClock then Extract(h[1..], max, startClock, endClock)
    else [h[0]] + Extract(h[1..], max - 1, startClock, endClock)
  }

  /** Extract returns only entries of the history that overlap
      [startClock, endClock). */
  lemma {:induction false} ExtractSound(h: seq<HistorySteps>, max: int, startClock: int, endClock: int)
    ensures forall x :: x in Extract(h, max, startClock, endClock) ==>
              x in h && startClock < x.lastClock && x.firstClock < endClock
  {
    if h != [] && startClock < h[0].lastClock && max > 0 {
      assert h == [h[0]] + h[1..];
      if endClock <= h[0].firstClock {
        ExtractSound(h[1..], max, startClock, endClock);
      } else {
        ExtractSound(h[1..], max - 1, startClock, endClock);
      }
    }
  }

  /** A history list as `add_move` builds it: newest first, each entry's
      clock range ending no later than the newer one starts. */
  predicate NewestFirst(h: seq<HistorySteps>)
  {
    && (forall i, j :: 0 <= i < j < |h| ==> h[j].lastClock <= h[i].firstClock)
    && (forall i :: 0 <= i < |h| ==> h[i].firstClock <= h[i].lastClock)
  }

  lemma {:induction false} NewestFirstTail(h: seq<HistorySteps>)
    requires NewestFirst(h) && h != []
    ensures NewestFirst(h[1..])
  {
    var t := h[1..];
    forall i, j | 0 <= i < j < |t| ensures t[j].lastClock <= t[i].firstClock {
      assert t[j] == h[j + 1] && t[i] == h[i + 1];
    }
  }

  /** Extract misses nothing: on a newest-first history, every entry that
      overlaps [startClock, endClock) is returned unless `max` entries
      were returned first. */
  lemma {:induction false} ExtractComplete(h: seq<HistorySteps>, max: int, startClock: int, endClock: int, k: nat)
    requires NewestFirst(h) && k < |h|
    requires startClock < h[k].lastClock && h[k].firstClock < endClock
    requires |Extract(h, max, startClock, endClock)| < max
    ensures h[k] in Extract(h, max, startClock, endClock)
  {
    if k > 0 {
      assert h[k].lastClock <= h[0].firstClock <= h[0].lastClock;
      NewestFirstTail(h);
      assert h[1..][k - 1] == h[k];
      if endClock <= h[0].firstClock {
        ExtractComplete(h[1..], max, startClock, endClock, k - 1);
      } else {
        ExtractComplete(h[1..], max - 1, startClock, endClock, k - 1);
      }
    }
  }

  /** The doubling of `queue_append_extend`: the first size reached by
      doubling `alloc` that exceeds the steps in use. */
  function GrowAlloc(alloc: int, inUse: int): (r: int)
    requires alloc >= 1
    ensures r > inUse && r >= alloc
    ensures r == alloc || r <= 2 * inUse
    decreases if inUse >= alloc then inUse - alloc + 1 else 0
  {
    if inUse >= alloc then GrowAlloc(alloc * 2, inUse) else alloc
  }

  /** The number of steps a run of history entries moved, ignoring direction. */
  function StepsIn(h: seq<HistorySteps>): int
  {
    if h == [] then 0
    else (if h[0].stepCount < 0 then -h[0].stepCount else h[0].stepCount) + StepsIn(h[1..])
  }

  predicate IsSuffix<T(==)>(a: seq<T>, b: seq<T>)
  {
    |a| <= |b| && a == b[|b| - |a|..]
  }

  lemma {:induction false} SuffixOfTail<T>(q: seq<T>, from: nat, pos: nat, next: nat)
    requires from <= pos <= next <= |q|
    ensures IsSuffix(q[pos..next], q[from..next])
  {
  }

  /** Prepending a history entry of `count` steps. */
  lemma {:induction false} StepsInCons(e: HistorySteps, h: seq<HistorySteps>, count: int) returns (r: seq<HistorySteps>)
    requires (if e.stepCount < 0 then -e.stepCount else e.stepCount) == count
    ensures r == [e] + h && StepsIn(r) == count + StepsIn(h)
  {
    r := [e] + h;
    assert r[1..] == h;
  }

  /** The compressor (`wrap_compress`) is a function of the queue view; like
      the least-squares search behind it, it schedules at most the steps
      in view and returns values of the C field types. */
  ghost predicate CompressorBounded(compress: QueueRef -> StepMove)
  {
    forall qr :: QueueRefTyped(qr) && qr.pos < qr.end ==>
      StepMoveTyped(compress(qr)) && compress(qr).count <= qr.end - qr.pos
  }

  /** `memmove(queue, queue_pos, in_use)`: slide the pending steps to the
      front of the buffer, copying forward. */
  method Shuffle(a: array<int>, from: nat, n: nat)
    requires from + n <= a.Length
    modifies a
    ensures a[..n] == old(a[from..from + n])
    ensures a[n..] == old(a[n..])
    ensures forall j :: 0 <= j < n ==> a[j] == old(a[from + j])
    ensures forall j :: n <= j < a.Length ==> a[j] == old(a[j])
  {
    var i := 0;
    while i < n
      invariant 0 <= i <= n
      invariant a[..i] == old(a[from..from + i])
      invariant forall j :: i <= j < a.Length ==> a[j] == old(a[j])
    {
      a[i] := a[from + i];
      i := i + 1;
    }
  }

  /** `realloc`: a larger buffer holding the old contents; the new tail is
      zero here (C leaves it indeterminate, and it is written before it
      is read). */
  method Realloc(a: array<int>, size: nat) returns (b: array<int>)
    requires size >= a.Length
    ensures fresh(b) && b.Length == size
    ensures b[..a.Length] == a[..]
    ensures forall j :: 0 <= j < a.Length ==> b[j] == a[j]
    ensures forall j :: a.Length <= j < size ==> b[j] == 0
  {
    b := new int[size](_ => 0);
    for i := 0 to a.Length
      invariant b[..i] == a[..i]
      invariant forall j :: a.Length <= j < size ==> b[j] == 0
      invariant forall j :: 0 <= j < i ==> b[j] == a[j]
    {
      b[i] := a[i];
    }
  }

  class StepCompress {
    /** The buffer (`queue` .. `queue_end`) and the pending steps in it
        (`queue_pos` .. `queue_next`), each the low 32 bits of a clock. */
    var queue: array<int>
    var queuePos: nat
    var queueNext: nat
    var maxError: int
    var lastInterval: int
    var lastIdealStepClock: int
    var lastStepClock: int
    var msgQueue: seq<QueueMessage>
    const oid: int
    var queueStepMsgtag: int
    /** The direction of the last steps (-1 until known) and the inversion flag. */
    var sdir: int
    var invertSdir: int
    var nextStepClock: int
    var lastPosition: int
    /** `history_list`, newest entry first. */
    var history: seq<HistorySteps>

    predicate Valid()
      reads this, queue
    {
      BufferValid() && StateValid()
    }

    /** The pending window lies in the buffer, which holds uint32 values. */
    predicate BufferValid()
      reads this`queue, this`queuePos, this`queueNext, queue
    {
      && queuePos <= queueNext <= queue.Length
      && (forall i :: 0 <= i < queue.Length ==> IsU32(queue[i]))
    }

    /** Clock fields hold their C types, the direction is -1, 0 or 1, and
        `last_position` is where the newest history entry ended. */
    predicate StateValid()
      reads this`lastStepClock, this`lastIdealStepClock, this`nextStepClock, this`lastInterval,
            this`maxError, this`sdir, this`invertSdir, this`history, this`lastPosition
    {
      && IsU64(lastStepClock) && IsU64(lastIdealStepClock) && IsU64(nextStepClock)
      && IsU32(lastInterval) && IsU32(maxError)
      && -1 <= sdir <= 1 && 0 <= invertSdir <= 1
      && (history != [] ==> lastPosition == history[0].startPosition + history[0].stepCount)
    }

    /** The steps waiting to be compressed. */
    function Pending(): seq<int>
      reads this, queue
      requires queuePos <= queueNext <= queue.Length
    {
      queue[queuePos..queueNext]
    }

    /** `stepcompress_alloc`: everything zero, direction unknown. */
    constructor (oid: int)
      ensures Valid() && this.oid == oid
      ensures queue.Length == 0 && queuePos == 0 && queueNext == 0
      ensures sdir == -1 && invertSdir == 0 && lastPosition == 0
      ensures lastStepClock == 0 && lastInterval == 0 && maxError == 0
      ensures msgQueue == [] && history == []
    {
      queue := new int[0];
      queuePos, queueNext := 0, 0;
      maxError, lastInterval, lastIdealStepClock, lastStepClock := 0, 0, 0, 0;
      msgQueue := [];
      this.oid := oid;
      queueStepMsgtag := 0;
      sdir, invertSdir := -1, 0;
      nextStepClock, lastPosition := 0, 0;
      history := [];
    }

    /** `stepcompress_fill`. */
    method Fill(maxError: int, queueStepMsgtag: int)
      requires Valid() && IsU32(maxError)
      modifies this`maxError, this`queueStepMsgtag
      ensures Valid() && this.maxError == maxError && this.queueStepMsgtag == queueStepMsgtag
    {
      this.maxError := maxError;
      this.queueStepMsgtag := queueStepMsgtag;
    }

    /** `stepcompress_set_invert_sdir`: store the normalised flag and, when it
        changed and the direction is known, flip the cached direction so
        that the direction already sent to the MCU keeps its meaning. */
    method SetInvertSdir(invert: int)
      requires Valid()
      modifies this`invertSdir, this`sdir
      ensures Valid()
      ensures invertSdir == (if invert != 0 then 1 else 0)
      ensures sdir == if invertSdir != old(invertSdir) && old(sdir) >= 0
                      then FlipLowBit(old(sdir)) else old(sdir)
      ensures old(sdir) >= 0 ==> McuDir(sdir, invertSdir) == McuDir(old(sdir), old(invertSdir))
    {
      var inv := if invert != 0 then 1 else 0;
      if inv != invertSdir {
        invertSdir := inv;
        if sdir >= 0 {
          sdir := FlipLowBit(sdir);
        }
      }
    }

    /** `free_history`: drop the oldest entries that ended by `endClock`. */
    method FreeHistory(endClock: int)
      requires Valid()
      modifies this`history
      ensures Valid()
      ensures history == TrimHistory(old(history), endClock)
    {
      while history != []
        invariant TrimHistory(history, endClock) == TrimHistory(old(history), endClock)
        invariant |history| <= |old(history)| && history == old(history)[..|history|]
        decreases |history|
      {
        if history[|history| - 1].lastClock > endClock {
          break;
        }
        history := history[..|history| - 1];
      }
      assert history != [] ==> history[0] == old(history)[0];
    }

    /** `add_move`: queue the `queue_step` message, advance the clock state
        to the move's last step and record the move in the history. */
    method AddMove(firstClock: int, mv: StepMove)
      requires Valid() && StepMoveTyped(mv) && IsU64(firstClock)
      modifies this`lastStepClock, this`lastInterval, this`msgQueue, this`history, this`lastPosition
      ensures Valid()
      ensures lastStepClock == U64(firstClock + AddMoveTicks(mv))
      ensures lastInterval == U32(mv.interval + mv.add * (mv.count - 1))
      ensures msgQueue == old(msgQueue) + [QueueStepMessage(queueStepMsgtag, oid, mv, firstClock, old(lastStepClock))]
      ensures history == [HistorySteps(firstClock, lastStepClock, old(lastPosition),
                                       StepCount(sdir, mv.count), mv.interval, mv.add)] + old(history)
      ensures lastPosition == old(lastPosition) + StepCount(sdir, mv.count)
    {
      var lastClock := U64(firstClock + AddMoveTicks(mv));
      lastInterval := U32(mv.interval + mv.add * (mv.count - 1));
      msgQueue := msgQueue + [QueueStepMessage(queueStepMsgtag, oid, mv, firstClock, lastStepClock)];
      lastStepClock := lastClock;
      var hs := HistorySteps(firstClock, lastClock, lastPosition, StepCount(sdir, mv.count), mv.interval, mv.add);
      lastPosition := lastPosition + hs.stepCount;
      history := [hs] + history;
    }

    /** The queue view `wrap_compress` (46000 steps) and `check_line`
        (65535 steps) take of the pending steps. */
    function View(maxCount: nat): (qr: QueueRef)
      reads this, queue
      requires Valid()
      ensures QueueRefTyped(qr) && qr.pos == queuePos && qr.queue == queue[..]
      ensures qr.end <= queueNext && (queuePos < queueNext && maxCount > 0 ==> qr.pos < qr.end)
    {
      QrInit(queue[..], queuePos, queueNext, lastStepClock, lastIdealStepClock,
             lastInterval, maxError, maxCount)
    }

    /** One round of `queue_flush`'s loop: compress the pending steps, check
        the result with `check_line` and, when it passes, record the new
        ideal step clock and emit the move.  The queue position is left to
        the caller. */
    method FlushStep(compress: QueueRef -> StepMove) returns (ok: bool, mv: StepMove)
      requires Valid() && CompressorBounded(compress) && queuePos < queueNext
      modifies this`lastIdealStepClock, this`lastStepClock, this`lastInterval,
               this`msgQueue, this`history, this`lastPosition
      ensures Valid()
      ensures mv == compress(old(View(46000))) && StepMoveTyped(mv) && mv.count <= queueNext - queuePos
      ensures ok <==> LineValid(old(View(65535)), mv)
      // A rejected move changes nothing.
      ensures !ok ==> lastIdealStepClock == old(lastIdealStepClock) && lastStepClock == old(lastStepClock)
                      && lastInterval == old(lastInterval) && lastPosition == old(lastPosition)
      ensures !ok ==> msgQueue == old(msgQueue) && history == old(history)
      ensures !ok ==> !LineValid(View(65535), compress(View(46000)))
      // An accepted move fixes the ideal clock of its last step and is
      // emitted by `add_move` one interval after the last step clock.
      ensures ok ==> 1 <= mv.count
      ensures ok ==> lastIdealStepClock == U64(U32(old(queue[queuePos + mv.count - 1]) - U32(old(lastStepClock))) + old(lastStepClock))
      ensures ok ==> var firstClock := U64(old(lastStepClock) + mv.interval);
                     && lastStepClock == U64(firstClock + AddMoveTicks(mv))
                     && lastInterval == U32(mv.interval + mv.add * (mv.count - 1))
                     && msgQueue == old(msgQueue) + [QueueStepMessage(queueStepMsgtag, oid, mv, firstClock, old(lastStepClock))]
                     && history == [HistorySteps(firstClock, lastStepClock, old(lastPosition),
                                                 StepCount(sdir, mv.count), mv.interval, mv.add)] + old(history)
                     && lastPosition == old(lastPosition) + StepCount(sdir, mv.count)
    {
      mv := compress(View(46000));
      // The state `check_line` sees, which the accepted branch starts from.
      ghost var lastQueued := if 1 <= mv.count then queue[queuePos + mv.count - 1] else 0;
      ghost var clock0, position0, msgs0, history0 := lastStepClock, lastPosition, msgQueue, history;
      ok := CheckLine(View(65535), mv);
      if ok {
        EmitMove(mv, lastQueued, clock0, position0, msgs0, history0);
      }
    }

    /** The accepted branch of a `queue_flush` round, from the state with
        last step clock `clock0`, position `position0`, messages `msgs0` and
        history `history0`, whose last pending step is `lastQueued`. */
    method EmitMove(mv: StepMove, ghost lastQueued: int, ghost clock0: int, ghost position0: int,
                    ghost msgs0: seq<QueueMessage>, ghost history0: seq<HistorySteps>)
      requires Valid() && StepMoveTyped(mv) && 1 <= mv.count && queuePos + mv.count <= queueNext
      requires lastQueued == queue[queuePos + mv.count - 1] && clock0 == lastStepClock
      requires position0 == lastPosition && msgs0 == msgQueue && history0 == history
      modifies this`lastIdealStepClock, this`lastStepClock, this`lastInterval,
               this`msgQueue, this`history, this`lastPosition
      ensures Valid()
      ensures lastIdealStepClock == U64(U32(lastQueued - U32(clock0)) + clock0)
      ensures var firstClock := U64(clock0 + mv.interval);
              && lastStepClock == U64(firstClock + AddMoveTicks(mv))
              && lastInterval == U32(mv.interval + mv.add * (mv.count - 1))
              && msgQueue == msgs0 + [QueueStepMessage(queueStepMsgtag, oid, mv, firstClock, clock0)]
              && history == [HistorySteps(firstClock, lastStepClock, position0,
                                          StepCount(sdir, mv.count), mv.interval, mv.add)] + history0
              && lastPosition == position0 + StepCount(sdir, mv.count)
    {
      var ideal := U64(U32(queue[queuePos + mv.count - 1] - U32(lastStepClock)) + lastStepClock);
      AddMove(U64(lastStepClock + mv.interval), mv);
      lastIdealStepClock := ideal;
    }

    /** `queue_flush`: compress pending steps into `queue_step` messages
        until the last step clock reaches `moveClock` or the queue is empty;
        `err` when `check_line` rejects the compressor's output.  `added`
        are the new history entries, one per message sent, and together
        they move exactly the steps taken off the front of the queue. */
    method QueueFlush(moveClock: int, compress: QueueRef -> StepMove)
      returns (err: bool, ghost added: seq<HistorySteps>)
      requires Valid() && CompressorBounded(compress)
      modifies this`queuePos, this`queueNext, this`lastIdealStepClock, this`lastStepClock,
               this`lastInterval, this`msgQueue, this`history, this`lastPosition
      ensures Valid()
      ensures history == added + old(history)
      ensures |msgQueue| == |old(msgQueue)| + |added| && msgQueue[..|old(msgQueue)|] == old(msgQueue)
      ensures old(queuePos) >= old(queueNext) ==> !err && added == [] && lastStepClock == old(lastStepClock)
      ensures (queuePos == 0 && queueNext == 0) || (queueNext == old(queueNext) && old(queuePos) <= queuePos)
      ensures StepsIn(added) == if queueNext == old(queueNext) then queuePos - old(queuePos)
                                else old(queueNext) - old(queuePos)
      ensures !err && old(queuePos) < old(queueNext) ==> queuePos == queueNext || lastStepClock >= moveClock
      // An error stops the loop at a round whose compressed move fails
      // `check_line`; that round emitted nothing.
      ensures err ==> queuePos < queueNext && lastStepClock < moveClock
                      && !LineValid(View(65535), compress(View(46000)))
    {
      err, added := false, [];
      if queuePos >= queueNext {
        return;
      }
      ghost var pos0 := queuePos;
      while lastStepClock < moveClock
        invariant Valid() && queuePos < queueNext
        invariant queueNext == old(queueNext) && pos0 <= queuePos
        invariant history == added + old(history)
        invariant |msgQueue| == |old(msgQueue)| + |added| && msgQueue[..|old(msgQueue)|] == old(msgQueue)
        invariant StepsIn(added) == queuePos - pos0
        decreases queueNext - queuePos
      {
        var ok, emptied;
        ok, emptied, added := FlushRound(compress, pos0, old(history), old(msgQueue), added);
        if !ok {
          return true, added;
        }
        if emptied {
          return;
        }
      }
    }

    /** One pass of `queue_flush`'s loop body: `FlushStep`, then advance the
        queue position past the emitted steps, or reset the queue when they
        were the last pending ones.  The flush invariant over the history
        entries added so far is kept. */
    method FlushRound(compress: QueueRef -> StepMove, ghost pos0: int, ghost history0: seq<HistorySteps>,
                      ghost msgs0: seq<QueueMessage>, ghost added: seq<HistorySteps>)
      returns (ok: bool, emptied: bool, ghost added': seq<HistorySteps>)
      requires Valid() && CompressorBounded(compress) && queuePos < queueNext && pos0 <= queuePos
      requires history == added + history0 && StepsIn(added) == queuePos - pos0
      requires |msgQueue| == |msgs0| + |added| && msgQueue[..|msgs0|] == msgs0
      modifies this`queuePos, this`queueNext, this`lastIdealStepClock, this`lastStepClock,
               this`lastInterval, this`msgQueue, this`history, this`lastPosition
      ensures Valid() && history == added' + history0
      ensures |msgQueue| == |msgs0| + |added'| && msgQueue[..|msgs0|] == msgs0
      ensures !ok ==> added' == added && queuePos == old(queuePos) && queueNext == old(queueNext)
                      && lastStepClock == old(lastStepClock)
                      && !LineValid(View(65535), compress(View(46000)))
      ensures ok && emptied ==> queuePos == 0 && queueNext == 0 && StepsIn(added') == old(queueNext) - pos0
      ensures ok && !emptied ==> old(queuePos) < queuePos < queueNext == old(queueNext)
                                 && StepsIn(added') == queuePos - pos0
    {
      ghost var msgsBefore := msgQueue;
      var mv;
      ok, mv := FlushStep(compress);
      if !ok {
        return false, false, added;
      }
      var count := mv.count;
      added' := StepsInCons(history[0], added, count);
      assert msgQueue[..|msgs0|] == msgsBefore[..|msgs0|];
      emptied := queuePos + count >= queueNext;
      if emptied {
        queuePos, queueNext := 0, 0;
      } else {
        queuePos := queuePos + count;
      }
    }

    /** Make room for one more step: slide the pending steps to the front
        when the buffer has a free prefix, otherwise grow it by doubling
        (from `QUEUE_START_SIZE` when it was never allocated). */
    method MakeRoom()
      requires Valid()
      modifies this`queue, this`queuePos, this`queueNext, queue
      ensures Valid() && queueNext < queue.Length
      ensures Pending() == old(Pending())
      ensures old(queueNext) < old(queue.Length) ==> queue == old(queue) && queuePos == old(queuePos)
      ensures old(queueNext) >= old(queue.Length) ==> queuePos == 0
      ensures old(queuePos) > 0 ==> queue == old(queue)
      ensures queue != old(queue) ==>
                fresh(queue) && queue.Length == GrowAlloc(
                  if old(queue.Length) == 0 then QUEUE_START_SIZE else old(queue.Length), |Pending()|)
    {
      if queueNext < queue.Length {
        return;
      }
      var inUse := queueNext - queuePos;
      if queuePos > 0 {
        Shuffle(queue, queuePos, inUse);
      } else {
        var alloc := queue.Length;
        if alloc == 0 {
          alloc := QUEUE_START_SIZE;
        }
        ghost var start := alloc;
        while inUse >= alloc
          invariant alloc >= 1 && GrowAlloc(alloc, inUse) == GrowAlloc(start, inUse)
          decreases inUse - alloc
        {
          alloc := alloc * 2;
        }
        queue := Realloc(queue, alloc);
      }
      queuePos, queueNext := 0, inUse;
    }

    /** Append `next_step_clock` (as uint32) after making room for it. */
    method Push()
      requires Valid()
      modifies this`queue, this`queuePos, this`queueNext, this`nextStepClock, queue
      ensures Valid() && nextStepClock == 0
      ensures Pending() == old(Pending()) + [U32(old(nextStepClock))]
      ensures queue != old(queue) ==>
                fresh(queue) && queue.Length == GrowAlloc(
                  if old(queue.Length) == 0 then QUEUE_START_SIZE else old(queue.Length), |Pending()| - 1)
    {
      MakeRoom();
      ghost var kept := Pending();
      queue[queueNext] := U32(nextStepClock);
      queueNext := queueNext + 1;
      nextStepClock := 0;
      assert Pending() == kept + [queue[queueNext - 1]];
    }

    /** `queue_append_extend`: keep at most about 64K pending steps by
        flushing the older ones, then make room and append the next step. */
    method QueueAppendExtend(compress: QueueRef -> StepMove) returns (err: bool)
      requires Valid() && CompressorBounded(compress)
      modifies this`queuePos, this`queueNext, this`lastIdealStepClock, this`lastStepClock,
               this`lastInterval, this`msgQueue, this`history, this`lastPosition,
               this`queue, this`nextStepClock, queue
      ensures Valid()
      ensures !err ==> nextStepClock == 0 && |Pending()| >= 1
      ensures !err ==> Pending()[|Pending()| - 1] == U32(old(nextStepClock))
      ensures !err ==> IsSuffix(Pending()[..|Pending()| - 1], old(Pending()))
      ensures !err && old(queueNext) - old(queuePos) <= 65535 + 2000 ==>
                Pending() == old(Pending()) + [U32(old(nextStepClock))]
    {
      err := false;
      if queueNext - queuePos > 65535 + 2000 {
        var flush := U32(queue[queueNext - 65535] - U32(lastStepClock));
        ghost var added;
        err, added := QueueFlush(U64(lastStepClock + flush), compress);
        if err {
          return;
        }
        if queueNext != 0 {
          SuffixOfTail(queue[..], old(queuePos), queuePos, queueNext);
        }
      }
      ghost var kept := Pending();
      assert IsSuffix(kept, old(Pending()));
      Push();
      assert Pending()[..|Pending()| - 1] == kept;
    }

    /** `stepcompress_extract_old`: copy into `p` the history entries
        overlapping [startClock, endClock), newest first, at most `max`. */
    method ExtractOld(p: array<HistorySteps>, max: int, startClock: int, endClock: int) returns (res: int)
      requires max <= p.Length
      modifies p
      ensures 0 <= res <= p.Length && p[..res] == Extract(history, max, startClock, endClock)
      ensures forall j :: res <= j < p.Length ==> p[j] == old(p[j])
    {
      res := 0;
      var i := 0;
      while i < |history|
        invariant 0 <= i <= |history| && 0 <= res <= i && res <= p.Length && (max >= 0 ==> res <= max)
        invariant p[..res] + Extract(history[i..], max - res, startClock, endClock)
                  == Extract(history, max, startClock, endClock)
        invariant forall j :: res <= j < p.Length ==> p[j] == old(p[j])
      {
        var hs := history[i];
        if startClock >= hs.lastClock || res >= max {
          break;
        }
        ghost var rest := history[i + 1..];
        assert history[i..] == [hs] + rest;
        if endClock <= hs.firstClock {
          i := i + 1;
          continue;
        }
        ghost var before := p[..res];
        p[res] := hs;
        assert p[..res + 1] == before + [hs];
        res := res + 1;
        i := i + 1;
      }
    }
  }
}
