/** The integer core of step compression: a queued run of step times is
    approximated by a `queue_step` schedule (interval, count, add), where
    step k after the last sent step lands `interval*k + add*k*(k-1)/2`
    ticks later.  Step times are stored as the low 32 bits of the MCU
    clock, so every subtraction below is uint32 arithmetic. */
module StepCompressMath {
  import opened Ints
  import opened Wrappers

  /** `idiv_up`: n/d rounded up, for either sign of n. */
  function IdivUp(n: int, d: int): (r: int)
    requires d > 0
    ensures (r - 1) * d < n <= r * d
  {
    if n >= 0 then
      var q := CDiv(n + d - 1, d);
      assert (q - 1) * d == q * d - d;
      q
    else CDiv(n, d)
  }

  /** `idiv_down`: n/d rounded down, for either sign of n. */
  function IdivDown(n: int, d: int): (r: int)
    requires d > 0
    ensures r * d <= n < (r + 1) * d
  {
    if n >= 0 then CDiv(n, d)
    else
      var q := CDiv(n - d + 1, d);
      assert (q + 1) * d == q * d + d;
      q
  }

  /** The ceiling and the floor are unique: any other integer with the same
      bracketing property is the same number. */
  lemma {:induction false} IdivUnique(n: int, d: int, c: int, f: int)
    requires d > 0
    requires (c - 1) * d < n <= c * d
    requires f * d <= n < (f + 1) * d
    ensures IdivUp(n, d) == c && IdivDown(n, d) == f
  {
    var u, w := IdivUp(n, d), IdivDown(n, d);
    if u < c { MulMono(u, c - 1, d); }
    if u > c { MulMono(c, u - 1, d); }
    if w < f { MulMono(w + 1, f, d); }
    if w > f { MulMono(f + 1, w, d); }
  }

  lemma {:induction false} MulMono(a: int, b: int, d: int)
    requires a <= b && d > 0
    ensures a * d <= b * d
  {
    assert b * d - a * d == (b - a) * d;
  }

  /** A `step_move`: `count` steps, the first `interval` ticks after the
      previous step, each later gap `add` ticks longer than the one before. */
  datatype StepMove = StepMove(interval: int, count: int, add: int)

  /** The C field types: uint32 interval, uint16 count, int16 add. */
  predicate StepMoveTyped(mv: StepMove)
  {
    IsU32(mv.interval) && 0 <= mv.count < TWO_16 && -0x8000 <= mv.add < 0x8000
  }

  /** A `struct queue_ref`: the step queue (low 32 bits of each step
      clock), the window `[pos, end)` of steps still to schedule, and the
      clock state of the last scheduled step.  `maxError` is the owning
      compressor's `max_error`. */
  datatype QueueRef = QueueRef(
    queue: seq<int>, pos: nat, end: nat,
    lastStepClock: int, lastIdealStepClock: int, lastInterval: int,
    maxError: int)

  predicate QueueRefTyped(qr: QueueRef)
  {
    && qr.pos <= qr.end <= |qr.queue|
    && (forall i :: 0 <= i < |qr.queue| ==> IsU32(qr.queue[i]))
    && IsU64(qr.lastStepClock) && IsU64(qr.lastIdealStepClock)
    && IsU32(qr.lastInterval) && IsU32(qr.maxError)
  }

  /** `qr_init`: a view of at most `maxCount` of the pending steps. */
  function QrInit(queue: seq<int>, pos: nat, next: nat, lastStepClock: int,
                  lastIdealStepClock: int, lastInterval: int, maxError: int,
                  maxCount: nat): (qr: QueueRef)
    requires pos <= next <= |queue|
    ensures qr.pos == pos && qr.queue == queue
    ensures qr.end - qr.pos == if next - pos <= maxCount then next - pos else maxCount
  {
    var end := if next > pos + maxCount then pos + maxCount else next;
    QueueRef(queue, pos, end, lastStepClock, lastIdealStepClock, lastInterval, maxError)
  }

  /** The acceptable times `[minp, maxp]` of one step, relative to the
      last step clock, as two int32 values. */
  datatype Points = Points(minp: int, maxp: int)

  /** Time of queued step `i` relative to the last step clock, mod 2^32. */
  function Rel(qr: QueueRef, i: nat): int
    requires i < |qr.queue|
  {
    U32(qr.queue[i] - U32(qr.lastStepClock))
  }

  /** `minmax_point`: a step may move up to `max_error` ticks earlier, and
      never by more than half the gap to the previous step. */
  function MinmaxPoint(qr: QueueRef, i: nat): (p: Points)
    requires qr.pos <= i < |qr.queue|
    ensures IsI32(p.minp) && IsI32(p.maxp)
    ensures p.maxp == I32(Rel(qr, i))
  {
    var point := Rel(qr, i);
    var prevpoint := if i > qr.pos then Rel(qr, i - 1) else 0;
    var halfGap := U32(point - prevpoint) / 2;
    var maxError := if halfGap > qr.maxError then qr.maxError else halfGap;
    Points(I32(point - maxError), I32(point))
  }

  /** Without wrap-around (the step lies less than 2^31 ticks ahead and no
      earlier than the previous one), the window ends at the requested
      time, is `min(max_error, half the gap)` wide, and never reaches back
      past the previous step. */
  lemma {:induction false} MinmaxPointWindow(qr: QueueRef, i: nat)
    requires QueueRefTyped(qr) && qr.pos <= i < |qr.queue|
    requires Rel(qr, i) < TWO_31
    requires i > qr.pos ==> Rel(qr, i - 1) <= Rel(qr, i)
    ensures var p := MinmaxPoint(qr, i);
            var prev := if i > qr.pos then Rel(qr, i - 1) else 0;
            var half := (Rel(qr, i) - prev) / 2;
            && p.maxp == Rel(qr, i)
            && p.minp == Rel(qr, i) - (if half > qr.maxError then qr.maxError else half)
            && prev <= p.minp <= p.maxp
  {
  }

  /** Time of the k-th step (k >= 1) after the last step clock when the
      previous gap was `interval` and each gap grows by `add`, in the
      closed form `add_range_update` and `qr_after_move` use. */
  function StepTime(interval: int, k: int, add: int): int
  {
    interval * k + add * (k * (k + 1) / 2)
  }

  /** The sum of the first `n` gaps `first, first+add, first+2*add, ...`:
      the running total `p` of `check_line`. */
  function Accumulated(first: int, add: int, n: nat): int
  {
    if n == 0 then 0 else Accumulated(first, add, n - 1) + first + (n - 1) * add
  }

  lemma {:induction false} HalfConsecutive(m: int)
    ensures (m * (m + 1)) % 2 == 0
    ensures (m + 1) * (m + 2) / 2 == m * (m + 1) / 2 + (m + 1)
  {
    var q := m / 2;
    if m % 2 == 0 {
      assert m * (m + 1) == 2 * (q * (m + 1));
    } else {
      assert m + 1 == 2 * (q + 1);
      assert m * (m + 1) == 2 * (m * (q + 1));
    }
    assert (m + 1) * (m + 2) == m * (m + 1) + 2 * (m + 1);
  }

  /** Summing the gaps one by one (as `check_line` does) gives the closed
      form `first*n + add*n*(n-1)/2` (as `add_move` computes). */
  lemma {:induction false} AccumulatedClosedForm(first: int, add: int, n: nat)
    ensures Accumulated(first, add, n) == first * n + add * (n * (n - 1) / 2)
  {
    if n > 0 {
      AccumulatedClosedForm(first, add, n - 1);
      HalfConsecutive(n - 2);
      assert n * (n - 1) / 2 == (n - 1) * (n - 2) / 2 + (n - 1);
      assert add * (n * (n - 1) / 2) == add * ((n - 1) * (n - 2) / 2) + add * (n - 1);
      assert first * n == first * (n - 1) + first;
    }
  }

  /** A `step_move` whose first gap is `last_interval + add` (how
      `wrap_compress` converts an add_move) reaches the k-th step at
      exactly the time `add_range_update` reasons about. */
  lemma {:induction false} AccumulatedIsStepTime(lastInterval: int, add: int, k: nat)
    ensures Accumulated(lastInterval + add, add, k) == StepTime(lastInterval, k, add)
  {
    AccumulatedClosedForm(lastInterval + add, add, k);
    HalfConsecutive(k - 1);
    assert k * (k + 1) / 2 == k * (k - 1) / 2 + k;
    assert add * (k * (k + 1) / 2) == add * (k * (k - 1) / 2) + add * k;
    assert (lastInterval + add) * k == lastInterval * k + add * k;
  }

  /** The search range of `add` values and how many steps all of them fit. */
  datatype AddRange = AddRange(minadd: int, maxadd: int, count: int)

  /** `add_range_init`: every int16 `add`, no step yet. */
  const AddRangeInit: AddRange := AddRange(-0x8000, 0x7fff, 0)

  /** With this `add`, queued step `k` (0-based) lands inside its window. */
  predicate InWindow(qr: QueueRef, k: nat, add: int)
    requires qr.pos + k < |qr.queue|
  {
    var pt := MinmaxPoint(qr, qr.pos + k);
    pt.minp <= StepTime(I32(qr.lastInterval), k + 1, add) <= pt.maxp
  }

  /** With this `add`, the first `n` queued steps all land in their windows. */
  predicate AllInWindow(qr: QueueRef, n: nat, add: int)
  {
    qr.pos + n <= |qr.queue| && forall k :: 0 <= k < n ==> InWindow(qr, k, add)
  }

  lemma {:induction false} AllInWindowSnoc(qr: QueueRef, n: nat, add: int)
    requires qr.pos + n < |qr.queue|
    ensures AllInWindow(qr, n + 1, add) <==> AllInWindow(qr, n, add) && InWindow(qr, n, add)
  {
  }

  /** `add_range_update`: try to fit one more step. */
  function AddRangeUpdate(ar: AddRange, qr: QueueRef): (r: Option<AddRange>)
    requires QueueRefTyped(qr) && ar.count >= 0
    ensures r.Some? ==> qr.pos + ar.count < qr.end && r.value.count == ar.count + 1
  {
    if qr.pos + ar.count >= qr.end then None
    else
      var np := MinmaxPoint(qr, qr.pos + ar.count);
      var nextCount := ar.count + 1;
      var nextAddFactor := nextCount * (nextCount + 1) / 2;
      var interval := I32(qr.lastInterval);
      var nextMinAdd :=
        if interval * nextCount + ar.minadd * nextAddFactor < np.minp
        then IdivUp(np.minp - interval * nextCount, nextAddFactor)
        else ar.minadd;
      var nextMaxAdd :=
        if interval * nextCount + ar.maxadd * nextAddFactor > np.maxp
        then IdivDown(np.maxp - interval * nextCount, nextAddFactor)
        else ar.maxadd;
      if nextMinAdd > nextMaxAdd then None
      else Some(AddRange(nextMinAdd, nextMaxAdd, nextCount))
  }

  lemma {:induction false} AddFactorPositive(c: int)
    requires c >= 0
    ensures (c + 1) * (c + 2) / 2 >= 1
  {
    assert (c + 1) * (c + 2) >= 2 by { MulMono(1, c + 2, c + 1); }
  }

  /** On success, the new range is non-empty, lies inside the old one, and
      every `add` in it lands the newly added step inside its window. */
  lemma {:induction false} AddRangeUpdateSound(ar: AddRange, qr: QueueRef)
    requires QueueRefTyped(qr) && ar.count >= 0
    requires AddRangeUpdate(ar, qr).Some?
    ensures var n := AddRangeUpdate(ar, qr).value;
            && ar.minadd <= n.minadd <= n.maxadd <= ar.maxadd
            && forall add :: n.minadd <= add <= n.maxadd ==> InWindow(qr, ar.count, add)
  {
    var n := AddRangeUpdate(ar, qr).value;
    var np := MinmaxPoint(qr, qr.pos + ar.count);
    var c := ar.count + 1;
    var f := c * (c + 1) / 2;
    var interval := I32(qr.lastInterval);
    AddFactorPositive(ar.count);
    if interval * c + ar.minadd * f < np.minp {
      var u := n.minadd;
      assert (u - 1) * f < np.minp - interval * c;
      if u <= ar.minadd {
        MulMono(u, ar.minadd, f);
      }
    }
    if interval * c + ar.maxadd * f > np.maxp {
      var w := n.maxadd;
      assert (w + 1) * f > np.maxp - interval * c;
      if w >= ar.maxadd {
        MulMono(ar.maxadd, w, f);
      }
    }
    forall add | n.minadd <= add <= n.maxadd
      ensures InWindow(qr, ar.count, add)
    {
      MulMono(n.minadd, add, f);
      MulMono(add, n.maxadd, f);
      assert StepTime(interval, ar.count + 1, add) == interval * c + add * f;
    }
  }

  /** On success nothing that fit is lost: every `add` of the old range
      that lands the new step in its window is in the new range. */
  lemma {:induction false} AddRangeUpdateComplete(ar: AddRange, qr: QueueRef, add: int)
    requires QueueRefTyped(qr) && ar.count >= 0
    requires AddRangeUpdate(ar, qr).Some?
    requires ar.minadd <= add <= ar.maxadd && InWindow(qr, ar.count, add)
    ensures AddRangeUpdate(ar, qr).value.minadd <= add <= AddRangeUpdate(ar, qr).value.maxadd
  {
    AddRangeUpdateRejects(ar, qr, add);
  }

  /** The core of both directions: an `add` of the old range outside the
      computed bounds misses the new step's window. */
  lemma {:induction false} AddRangeUpdateRejects(ar: AddRange, qr: QueueRef, add: int)
    requires QueueRefTyped(qr) && ar.count >= 0 && qr.pos + ar.count < qr.end
    requires ar.minadd <= add <= ar.maxadd && InWindow(qr, ar.count, add)
    ensures var np := MinmaxPoint(qr, qr.pos + ar.count);
            var c := ar.count + 1;
            var f := c * (c + 1) / 2;
            var interval := I32(qr.lastInterval);
            && (interval * c + ar.minadd * f < np.minp ==> IdivUp(np.minp - interval * c, f) <= add)
            && (interval * c + ar.maxadd * f > np.maxp ==> add <= IdivDown(np.maxp - interval * c, f))
  {
    var np := MinmaxPoint(qr, qr.pos + ar.count);
    var c := ar.count + 1;
    var f := c * (c + 1) / 2;
    var interval := I32(qr.lastInterval);
    AddFactorPositive(ar.count);
    assert StepTime(interval, c, add) == interval * c + add * f;
    if interval * c + ar.minadd * f < np.minp {
      var u := IdivUp(np.minp - interval * c, f);
      if add < u { MulMono(add, u - 1, f); }
    }
    if interval * c + ar.maxadd * f > np.maxp {
      var w := IdivDown(np.maxp - interval * c, f);
      if add > w { MulMono(w + 1, add, f); }
    }
  }

  /** When a step remains but the update fails, no `add` of the current
      range lands it in its window: the window would have become empty. */
  lemma {:induction false} AddRangeUpdateFails(ar: AddRange, qr: QueueRef)
    requires QueueRefTyped(qr) && ar.count >= 0 && qr.pos + ar.count < qr.end
    requires AddRangeUpdate(ar, qr).None?
    ensures forall add :: ar.minadd <= add <= ar.maxadd ==> !InWindow(qr, ar.count, add)
  {
    forall add | ar.minadd <= add <= ar.maxadd && InWindow(qr, ar.count, add)
      ensures false
    {
      AddRangeUpdateRejects(ar, qr, add);
    }
  }

  /** With this `add`, one more queued step than the range holds would fit. */
  predicate FitsOneMore(qr: QueueRef, ar: AddRange, add: int)
    requires ar.count >= 0
  {
    AllInWindow(qr, ar.count + 1, add)
  }

  /** Every `add` of the range fits all `count` steps so far. */
  predicate RangeFits(qr: QueueRef, ar: AddRange)
  {
    && ar.count >= 0 && qr.pos + ar.count <= qr.end && qr.end <= |qr.queue|
    && forall add :: ar.minadd <= add <= ar.maxadd ==> AllInWindow(qr, ar.count, add)
  }

  /** `add_range_scan`: extend the range one step at a time until it fails.
      The result is the longest run of queued steps that a single int16
      `add` can fit, and exactly the set of such `add` values. */
  method AddRangeScan(qr: QueueRef) returns (ar: AddRange)
    requires QueueRefTyped(qr)
    ensures RangeFits(qr, ar)
    ensures forall add :: AddRangeInit.minadd <= add <= AddRangeInit.maxadd && AllInWindow(qr, ar.count, add)
              ==> ar.minadd <= add <= ar.maxadd
    ensures AddRangeUpdate(ar, qr).None?
    ensures qr.pos + ar.count < qr.end ==>
              forall add :: AddRangeInit.minadd <= add <= AddRangeInit.maxadd ==> !FitsOneMore(qr, ar, add)
  {
    ar := AddRangeInit;
    while true
      invariant RangeFits(qr, ar)
      invariant ar.count == 0 ==> ar == AddRangeInit
      invariant forall add :: AddRangeInit.minadd <= add <= AddRangeInit.maxadd && AllInWindow(qr, ar.count, add)
                  ==> ar.minadd <= add <= ar.maxadd
      decreases qr.end - qr.pos - ar.count
    {
      var r := AddRangeUpdate(ar, qr);
      if r.None? {
        if qr.pos + ar.count < qr.end {
          AddRangeUpdateFails(ar, qr);
          forall add | AddRangeInit.minadd <= add <= AddRangeInit.maxadd
            ensures !FitsOneMore(qr, ar, add)
          {
            AllInWindowSnoc(qr, ar.count, add);
          }
        }
        return;
      }
      AddRangeUpdateSound(ar, qr);
      var n := ar.count + 1;
      forall add | r.value.minadd <= add <= r.value.maxadd
        ensures AllInWindow(qr, n, add)
      {
        AllInWindowSnoc(qr, ar.count, add);
      }
      forall add | AddRangeInit.minadd <= add <= AddRangeInit.maxadd && AllInWindow(qr, n, add)
        ensures r.value.minadd <= add <= r.value.maxadd
      {
        AllInWindowSnoc(qr, ar.count, add);
        AddRangeUpdateComplete(ar, qr, add);
      }
      ar := r.value;
    }
  }

  /** An `add_move`: `count` steps whose gaps grow by `add` each. */
  datatype AddMove = AddMove(add: int, count: int)

  /** `qr_after_move`: the queue view once an add_move is scheduled.  The
      uint32 and uint64 wrap of the C fields is explicit. */
  function QrAfterMove(qr: QueueRef, am: AddMove): (r: QueueRef)
    requires QueueRefTyped(qr) && 1 <= am.count && qr.pos + am.count <= qr.end
    ensures QueueRefTyped(r)
    ensures r.queue == qr.queue && r.end == qr.end && r.maxError == qr.maxError
    ensures r.pos == qr.pos + am.count
  {
    var addFactor := am.count * (am.count + 1) / 2;
    var lastIdeal := U64(U32(qr.queue[qr.pos + am.count - 1] - U32(qr.lastStepClock))
                         + qr.lastStepClock);
    var lastStep := U64(qr.lastStepClock + U32(qr.lastInterval * am.count + addFactor * am.add));
    qr.(pos := qr.pos + am.count,
        lastIdealStepClock := lastIdeal,
        lastStepClock := lastStep,
        lastInterval := U32(qr.lastInterval + am.count * am.add))
  }

  /** After the move the clock state describes its last step: the last
      step clock is the time of step `count`, the last interval is the gap
      just before it, and the last ideal clock is that step's requested
      time (when nothing wraps). */
  lemma {:induction false} QrAfterMoveLastStep(qr: QueueRef, am: AddMove)
    requires QueueRefTyped(qr) && 1 <= am.count && qr.pos + am.count <= qr.end
    requires 0 <= StepTime(qr.lastInterval, am.count, am.add) < TWO_32
    requires qr.lastStepClock + StepTime(qr.lastInterval, am.count, am.add) < TWO_64
    requires 0 <= qr.lastInterval + am.count * am.add < TWO_32
    requires qr.lastStepClock + Rel(qr, qr.pos + am.count - 1) < TWO_64
    ensures var r := QrAfterMove(qr, am);
            && r.lastStepClock == qr.lastStepClock + StepTime(qr.lastInterval, am.count, am.add)
            && r.lastInterval == StepTime(qr.lastInterval, am.count, am.add)
                                 - StepTime(qr.lastInterval, am.count - 1, am.add)
            && r.lastIdealStepClock == qr.lastStepClock + Rel(qr, qr.pos + am.count - 1)
  {
    var c := am.count;
    assert (c * (c + 1) / 2) * am.add == am.add * (c * (c + 1) / 2);
    StepTimeSnoc(qr.lastInterval, c, am.add);
  }

  /** Consecutive steps of the closed form are one gap apart, and the
      k-th gap is `interval + k*add`. */
  lemma {:induction false} StepTimeSnoc(interval: int, k: int, add: int)
    requires k >= 1
    ensures StepTime(interval, k, add) == StepTime(interval, k - 1, add) + interval + k * add
  {
    HalfConsecutive(k - 1);
    assert add * (k * (k + 1) / 2) == add * ((k - 1) * k / 2) + add * k;
    assert interval * k == interval * (k - 1) + interval;
  }

  /** The accepted sequences: a valid header and, step by step, a running
      time inside the window and a gap below 2^31.  The comparisons are
      those of `check_line`: uint32 `p` against int32 window ends, which C
      converts to uint32. */
  predicate HeaderValid(mv: StepMove)
  {
    !(mv.count == 0 || (mv.interval == 0 && mv.add == 0 && mv.count > 1) || mv.interval >= TWO_31)
  }

  /** The gap before step `i + 1` of a step_move, before uint32 wrap. */
  function Gap(mv: StepMove, i: nat): int
  {
    mv.interval + i * mv.add
  }

  predicate StepChecks(qr: QueueRef, mv: StepMove, i: nat)
    requires qr.pos + i < |qr.queue|
  {
    var pt := MinmaxPoint(qr, qr.pos + i);
    var p := U32(Accumulated(mv.interval, mv.add, i + 1));
    && U32(pt.minp) <= p <= U32(pt.maxp)
    && U32(Gap(mv, i)) < TWO_31
  }

  predicate LineValid(qr: QueueRef, mv: StepMove)
    requires qr.pos + mv.count <= |qr.queue|
  {
    HeaderValid(mv) && forall i :: 0 <= i < mv.count ==> StepChecks(qr, mv, i)
  }

  /** One iteration of `check_line` in uint32 arithmetic advances the
      running time and the gap exactly as the unbounded sums do, mod 2^32. */
  lemma {:induction false} CheckLineStep(mv: StepMove, i: nat)
    ensures U32(U32(Accumulated(mv.interval, mv.add, i)) + U32(Gap(mv, i)))
            == U32(Accumulated(mv.interval, mv.add, i + 1))
    ensures U32(U32(Gap(mv, i)) + mv.add) == U32(Gap(mv, i + 1))
  {
    U32AddBoth(Accumulated(mv.interval, mv.add, i), Gap(mv, i));
    U32Add(Gap(mv, i), mv.add);
    assert Gap(mv, i) + mv.add == Gap(mv, i + 1);
  }

  /** `StepChecks` in terms of the loop's running time and gap. */
  lemma {:induction false} StepChecksAt(qr: QueueRef, mv: StepMove, i: nat, point: Points, p: int, interval: int)
    requires qr.pos + i < |qr.queue| && point == MinmaxPoint(qr, qr.pos + i)
    requires p == U32(Accumulated(mv.interval, mv.add, i + 1)) && interval == U32(Gap(mv, i))
    ensures StepChecks(qr, mv, i) <==> U32(point.minp) <= p <= U32(point.maxp) && interval < TWO_31
  {
  }

  /** `check_line`: reject a malformed header, then replay the sequence. */
  method CheckLine(qr: QueueRef, mv: StepMove) returns (ok: bool)
    requires QueueRefTyped(qr) && StepMoveTyped(mv) && qr.pos + mv.count <= |qr.queue|
    ensures ok <==> LineValid(qr, mv)
  {
    if mv.count == 0 || (mv.interval == 0 && mv.add == 0 && mv.count > 1) || mv.interval >= TWO_31 {
      return false;
    }
    ok := CheckSteps(qr, mv);
  }

  /** The loop of `check_line`: replay the sequence with uint32 arithmetic
      and compare each step with its window. */
  method CheckSteps(qr: QueueRef, mv: StepMove) returns (ok: bool)
    requires QueueRefTyped(qr) && StepMoveTyped(mv) && qr.pos + mv.count <= |qr.queue|
    ensures ok <==> forall i :: 0 <= i < mv.count ==> StepChecks(qr, mv, i)
  {
    var interval := mv.interval;
    var p := 0;
    var i := 0;
    while i < mv.count
      invariant 0 <= i <= mv.count
      invariant p == U32(Accumulated(mv.interval, mv.add, i))
      invariant interval == U32(Gap(mv, i))
      invariant forall j :: 0 <= j < i ==> StepChecks(qr, mv, j)
    {
      var point := MinmaxPoint(qr, qr.pos + i);
      CheckLineStep(mv, i);
      p := U32(p + interval);
      StepChecksAt(qr, mv, i, point, p, interval);
      if p < U32(point.minp) || p > U32(point.maxp) {
        return false;
      }
      if interval >= TWO_31 {
        return false;
      }
      interval := U32(interval + mv.add);
      i := i + 1;
    }
    return true;
  }

  /** The window of queued step `k` starts at a non-negative offset. */
  predicate WindowNonNegative(qr: QueueRef, k: nat)
    requires qr.pos + k < |qr.queue|
  {
    MinmaxPoint(qr, qr.pos + k).minp >= 0
  }

  /** One step of the agreement below: an `add` that puts step `i` inside
      a non-negative window passes `check_line`'s tests for that step. */
  lemma {:induction false} ScannedStepChecks(qr: QueueRef, mv: StepMove, i: nat)
    requires QueueRefTyped(qr) && qr.pos + i < |qr.queue| && qr.lastInterval < TWO_31
    requires mv.interval == qr.lastInterval + mv.add
    requires InWindow(qr, i, mv.add) && WindowNonNegative(qr, i)
    requires 0 <= Gap(mv, i) < TWO_31
    ensures StepChecks(qr, mv, i)
  {
    AccumulatedIsStepTime(qr.lastInterval, mv.add, i + 1);
    var pt := MinmaxPoint(qr, qr.pos + i);
    assert I32(qr.lastInterval) == qr.lastInterval;
    assert 0 <= pt.minp <= Accumulated(mv.interval, mv.add, i + 1) <= pt.maxp < TWO_31;
  }

  /** The compressor and the checker agree: the step_move built from an
      add value that `add_range_scan` accepted for `count` steps passes
      `check_line`, as long as the windows stay in [0, 2^31) and no gap
      reaches 2^31. */
  lemma {:induction false} ScannedScheduleChecks(qr: QueueRef, ar: AddRange, mv: StepMove)
    requires QueueRefTyped(qr) && RangeFits(qr, ar)
    requires ar.minadd <= mv.add <= ar.maxadd && 1 <= mv.count <= ar.count
    requires qr.lastInterval < TWO_31 && mv.interval == qr.lastInterval + mv.add
    requires forall k :: 0 <= k < mv.count ==> WindowNonNegative(qr, k)
    requires forall k :: 0 <= k < mv.count ==> 0 <= Gap(mv, k) < TWO_31
    requires mv.count > 1 ==> mv.interval != 0 || mv.add != 0
    ensures LineValid(qr, mv)
  {
    assert Gap(mv, 0) == mv.interval;
    assert AllInWindow(qr, ar.count, mv.add);
    forall i | 0 <= i < mv.count
      ensures StepChecks(qr, mv, i)
    {
      ScannedStepChecks(qr, mv, i);
    }
  }
}
