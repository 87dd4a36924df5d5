/** The step-time expansion of `scripts/graph_steps.py`: the `queue_step`
    commands of one stepper, read from a log, become the absolute step
    times they encode, after skipping a number of leading steps and
    keeping at most a given number. Each log line is given as its
    whitespace-separated tokens. */
module GraphSteps {
  import opened Wrappers
  import Ints

  // ---------------------------------------------------------------
  // Decimal integers: `"oid=%d" % oid` and `int(v)`
  // ---------------------------------------------------------------

  predicate IsDigits(s: string)
  {
    |s| > 0 && forall i :: 0 <= i < |s| ==> '0' <= s[i] <= '9'
  }

  /** The value of a run of decimal digits. */
  function DigitsValue(s: string): nat
    requires IsDigits(s)
  {
    var d := s[|s| - 1] as int - '0' as int;
    if |s| == 1 then d
    else
      assert IsDigits(s[..|s| - 1]);
      DigitsValue(s[..|s| - 1]) * 10 + d
  }

  /** `int(v)` on a token: an optional sign and decimal digits. */
  function ParseInt(s: string): Option<int>
  {
    if |s| > 0 && (s[0] == '-' || s[0] == '+') then
      if IsDigits(s[1..]) then
        Some(if s[0] == '-' then -(DigitsValue(s[1..]) as int) else DigitsValue(s[1..]))
      else None
    else if IsDigits(s) then Some(DigitsValue(s))
    else None
  }

  function DecimalDigit(d: int): char
    requires 0 <= d < 10
  {
    ('0' as int + d) as char
  }

  /** `"%d" % n` for a non-negative `n`. */
  function DecimalText(n: nat): string
  {
    if n < 10 then [DecimalDigit(n)] else DecimalText(n / 10) + [DecimalDigit(n % 10)]
  }

  /** `"%d" % n`. */
  function FormatInt(n: int): string
  {
    if n < 0 then "-" + DecimalText(-n) else DecimalText(n)
  }

  /** The token that names the stepper: `"oid=%d" % (oid,)`. */
  function OidStr(oid: int): string
  {
    "oid=" + FormatInt(oid)
  }

  lemma {:induction false} DecimalTextValue(n: nat)
    ensures IsDigits(DecimalText(n)) && DigitsValue(DecimalText(n)) == n
  {
    if n >= 10 {
      DecimalTextValue(n / 10);
      var t := DecimalText(n / 10);
      var s := t + [DecimalDigit(n % 10)];
      assert s[..|s| - 1] == t;
      assert IsDigits(s) by {
        forall i | 0 <= i < |s| ensures '0' <= s[i] <= '9' {
          if i < |t| {
            assert s[i] == t[i];
          }
        }
      }
    }
  }

  /** `int()` reads back what `"%d"` writes. */
  lemma {:induction false} ParseFormatInt(n: int)
    ensures ParseInt(FormatInt(n)) == Some(n)
  {
    if n < 0 {
      DecimalTextValue(-n);
      var s := FormatInt(n);
      assert s[0] == '-' && s[1..] == DecimalText(-n);
    } else {
      DecimalTextValue(n);
      assert DecimalText(n)[0] != '-' && DecimalText(n)[0] != '+';
    }
  }

  // ---------------------------------------------------------------
  // One log line
  // ---------------------------------------------------------------

  /** The index of the first `=` in `p`, or `|p|` when there is none. */
  function EqIndex(p: string): (i: nat)
    ensures i <= |p| && (i < |p| ==> p[i] == '=')
    ensures forall j :: 0 <= j < i ==> p[j] != '='
  {
    if p == [] then 0
    else if p[0] == '=' then 0
    else 1 + EqIndex(p[1..])
  }

  /** `{k: int(v) for k, v in [p.split('=', 1) for p in ps]}`: `None` when
      a token has no `=` or its value is not an integer (both a
      `ValueError`); a later key overrides an earlier one. */
  function KeyParts(ps: seq<string>): Option<map<string, int>>
  {
    if ps == [] then Some(map[])
    else
      var p := ps[|ps| - 1];
      var i := EqIndex(p);
      var earlier := KeyParts(ps[..|ps| - 1]);
      if i == |p| || earlier.None? then None
      else
        var v := ParseInt(p[i + 1..]);
        if v.None? then None else Some(earlier.value[p[..i] := v.value])
  }

  /** The exception `parse_log` would raise on a line. */
  datatype LogError = IndexError | ValueError | KeyError

  /** The three numbers of a `queue_step` command. */
  datatype Command = Command(interval: int, add: int, count: int)

  /** What one line is to `parse_log`: skipped (`None`), a command of the
      stepper, or the exception its parsing raises. A lone `queue_step`
      token passes the first test and fails on `parts[1]`. */
  function LineCommand(parts: seq<string>, oidstr: string): Result<Option<Command>, LogError>
  {
    if parts == [] || parts[0] != "queue_step" then Ok(None)
    else if |parts| < 2 then Err(IndexError)
    else if parts[1] != oidstr then Ok(None)
    else
      var kp := KeyParts(parts[2..]);
      if kp.None? then Err(ValueError)
      else if "interval" !in kp.value || "add" !in kp.value || "count" !in kp.value then Err(KeyError)
      else Ok(Some(Command(kp.value["interval"], kp.value["add"], kp.value["count"])))
  }

  /** Only `queue_step` lines whose second token names the stepper, that
      is, whose number after `oid=` reads back as `oid`, contribute. */
  lemma {:induction false} LineOfStepper(parts: seq<string>, oid: int)
    requires LineCommand(parts, OidStr(oid)) != Ok(None)
    ensures |parts| >= 1 && parts[0] == "queue_step"
    ensures LineCommand(parts, OidStr(oid)).Ok? ==>
              |parts| >= 2 && |parts[1]| >= 4 && parts[1][..4] == "oid=" && ParseInt(parts[1][4..]) == Some(oid)
  {
    if LineCommand(parts, OidStr(oid)).Ok? {
      ParseFormatInt(oid);
      assert parts[1] == OidStr(oid);
      assert parts[1][4..] == FormatInt(oid);
    }
  }

  // ---------------------------------------------------------------
  // Step times
  // ---------------------------------------------------------------

  /** The time after `n` steps of a command starting at time `t`: each
      step waits `interval`, and the interval grows by `add` after every
      step. */
  function Advance(t: int, interval: int, add: int, n: nat): int
  {
    if n == 0 then t else Advance(t, interval, add, n - 1) + interval + add * (n - 1)
  }

  /** The times of the `n` steps of a command starting at time `t`. */
  function Emit(t: int, interval: int, add: int, n: nat): (r: seq<int>)
    ensures |r| == n
  {
    seq(n, k requires 0 <= k < n => Advance(t, interval, add, k + 1))
  }

  /** `count * (count - 1) // 2`; the product is always even. */
  function AddFactor(n: int): int
  {
    n * (n - 1) / 2
  }

  lemma {:induction false} AddFactorStep(n: int)
    ensures AddFactor(n + 1) == AddFactor(n) + n
  {
    var h := n * (n - 1) / 2;
    if n % 2 == 0 {
      Ints.ModUnique(n * (n - 1), 2, (n / 2) * (n - 1), 0);
    } else {
      Ints.ModUnique(n * (n - 1), 2, n * ((n - 1) / 2), 0);
    }
    assert n * (n - 1) == 2 * h;
    assert (n + 1) * n == 2 * (h + n);
    Ints.ModUnique((n + 1) * n, 2, h + n, 0);
  }

  /** The closed form used for skipped steps,
      `interval * n + add * (n * (n - 1) // 2)`, is the sum of the steps'
      waits. */
  lemma {:induction false} AdvanceClosedForm(t: int, interval: int, add: int, n: nat)
    ensures Advance(t, interval, add, n) == t + interval * n + add * AddFactor(n)
  {
    if n > 0 {
      AdvanceClosedForm(t, interval, add, n - 1);
      AddFactorStep(n - 1);
      assert add * AddFactor(n) == add * AddFactor(n - 1) + add * (n - 1);
    }
  }

  /** Stepping `a` then `b` steps is stepping `a + b`, the second part
      starting with the interval grown by `add * a`. */
  lemma {:induction false} AdvanceSplit(t: int, interval: int, add: int, a: nat, b: nat)
    ensures Advance(t, interval, add, a + b) == Advance(Advance(t, interval, add, a), interval + add * a, add, b)
  {
    if b > 0 {
      AdvanceSplit(t, interval, add, a, b - 1);
      assert add * (a + b - 1) == add * a + add * (b - 1);
    }
  }

  /** Dropping the first `s` steps of a command leaves the command that
      starts at the `s`-th step time with the grown interval. */
  lemma {:induction false} EmitDrop(t: int, interval: int, add: int, n: nat, s: nat)
    requires s <= n
    ensures Emit(t, interval, add, n)[s..] ==
              Emit(Advance(t, interval, add, s), interval + add * s, add, n - s)
  {
    var a := Emit(t, interval, add, n)[s..];
    var b := Emit(Advance(t, interval, add, s), interval + add * s, add, n - s);
    forall k | 0 <= k < n - s
      ensures a[k] == b[k]
    {
      AdvanceSplit(t, interval, add, s, k + 1);
    }
  }

  // ---------------------------------------------------------------
  // parse_log
  // ---------------------------------------------------------------

  /** `del out[k:]`, negative `k` counting from the end. */
  function Truncate(out: seq<int>, k: int): (r: seq<int>)
    ensures |r| == if k >= 0 then (if k <= |out| then k else |out|)
                   else (if |out| + k >= 0 then |out| + k else 0)
    ensures r == out[..|r|]
  {
    if k >= 0 then (if k <= |out| then out[..k] else out)
    else if |out| + k >= 0 then out[..|out| + k]
    else []
  }

  /** The state of `parse_log` after one command of the stepper: the
      steps still to skip, `step_time`, the output, and whether the loop
      stops here. */
  datatype Progress = Progress(skip: int, stepTime: int, out: seq<int>, done: bool)

  /** One command of the stepper. A command entirely inside the skip only
      moves the time on, in closed form; a partly skipped one is shortened
      and its interval grown; the remaining steps are emitted one at a
      time; the loop stops as soon as the output has `stepCount`
      entries. */
  function Consume(skip: int, stepTime: int, out: seq<int>, c: Command, stepCount: int): Progress
  {
    if skip >= c.count then
      Progress(skip - c.count, stepTime + c.interval * c.count + c.add * AddFactor(c.count), out, false)
    else
      var t1 := if skip != 0 then stepTime + c.interval * skip + c.add * AddFactor(skip) else stepTime;
      var iv1 := if skip != 0 then c.interval + c.add * skip else c.interval;
      var n := if skip != 0 then c.count - skip else c.count;
      var out1 := out + Emit(t1, iv1, c.add, n);
      if |out1| >= stepCount then Progress(0, Advance(t1, iv1, c.add, n), Truncate(out1, stepCount), true)
      else Progress(0, Advance(t1, iv1, c.add, n), out1, false)
  }

  /** The rest of `parse_log` from the given state: lines of other
      steppers are passed over, the first exception ends the run. */
  function Run(lines: seq<seq<string>>, oidstr: string, skip: int, stepTime: int, out: seq<int>,
               stepCount: int): Result<seq<int>, LogError>
    decreases |lines|
  {
    if lines == [] then Ok(out)
    else
      var line := LineCommand(lines[0], oidstr);
      if line.Err? then Err(line.error)
      else if line.value.None? then Run(lines[1..], oidstr, skip, stepTime, out, stepCount)
      else
        var p := Consume(skip, stepTime, out, line.value.value, stepCount);
        if p.done then Ok(p.out) else Run(lines[1..], oidstr, p.skip, p.stepTime, p.out, stepCount)
  }

  /** `parse_log(lines, oid, skip, step_count)`. */
  function ParseLogSpec(lines: seq<seq<string>>, oid: int, skip: int, stepCount: int): Result<seq<int>, LogError>
  {
    Run(lines, OidStr(oid), skip, 0, [], stepCount)
  }

  /** `parse_log`, line by line and step by step. */
  method ParseLog(lines: seq<seq<string>>, oid: int, skip0: int, stepCount: int)
    returns (r: Result<seq<int>, LogError>)
    ensures r == ParseLogSpec(lines, oid, skip0, stepCount)
  {
    var oidstr := OidStr(oid);
    var skip, stepTime, out := skip0, 0, [];
    var i := 0;
    while i < |lines|
      invariant 0 <= i <= |lines|
      invariant ParseLogSpec(lines, oid, skip0, stepCount) == Run(lines[i..], oidstr, skip, stepTime, out, stepCount)
    {
      assert lines[i..][1..] == lines[i + 1..];
      var line := LineCommand(lines[i], oidstr);
      if line.Err? {
        return Err(line.error);
      }
      if line.value.Some? {
        var done;
        skip, stepTime, out, done := QueueStep(skip, stepTime, out, line.value.value, stepCount);
        if done {
          return Ok(out);
        }
      }
      i := i + 1;
    }
    r := Ok(out);
  }

  /** The body of `parse_log`'s loop for one command of the stepper. */
  method QueueStep(skip0: int, stepTime0: int, out0: seq<int>, c: Command, stepCount: int)
    returns (skip: int, stepTime: int, out: seq<int>, done: bool)
    ensures Progress(skip, stepTime, out, done) == Consume(skip0, stepTime0, out0, c, stepCount)
  {
    skip, stepTime, out, done := skip0, stepTime0, out0, false;
    var interval, add, count := c.interval, c.add, c.count;
    if skip >= count {
      skip := skip - count;
      stepTime := stepTime + interval * count + add * AddFactor(count);
      return;
    }
    if skip != 0 {
      stepTime := stepTime + interval * skip + add * AddFactor(skip);
      interval := interval + add * skip;
      count := count - skip;
      skip := 0;
    }
    ghost var t1, iv1 := stepTime, interval;
    for k := 0 to count
      invariant stepTime == Advance(t1, iv1, add, k)
      invariant interval == iv1 + add * k
      invariant out == out0 + Emit(t1, iv1, add, k)
    {
      stepTime := stepTime + interval;
      out := out + [stepTime];
      interval := interval + add;
    }
    if |out| >= stepCount {
      out := Truncate(out, stepCount);
      done := true;
    }
  }

  // ---------------------------------------------------------------
  // What the output means
  // ---------------------------------------------------------------

  /** The commands of the stepper in log order, or the first exception. */
  function Commands(lines: seq<seq<string>>, oidstr: string): Result<seq<Command>, LogError>
    decreases |lines|
  {
    if lines == [] then Ok([])
    else
      var line := LineCommand(lines[0], oidstr);
      if line.Err? then Err(line.error)
      else
        var rest := Commands(lines[1..], oidstr);
        if rest.Err? then rest
        else if line.value.None? then rest
        else Ok([line.value.value] + rest.value)
  }

  predicate CountsNonNegative(cmds: seq<Command>)
  {
    forall i :: 0 <= i < |cmds| ==> cmds[i].count >= 0
  }

  /** Every step time of the commands, one after another, each command
      starting where the previous one ended. */
  function Expand(cmds: seq<Command>, t: int): seq<int>
    requires CountsNonNegative(cmds)
    decreases |cmds|
  {
    if cmds == [] then []
    else
      var c := cmds[0];
      Emit(t, c.interval, c.add, c.count) + Expand(cmds[1..], Advance(t, c.interval, c.add, c.count))
  }

  function Drop(s: seq<int>, n: nat): seq<int>
  {
    if n <= |s| then s[n..] else []
  }

  function Take(s: seq<int>, n: nat): seq<int>
  {
    if n <= |s| then s[..n] else s
  }

  /** A command entirely inside the skip consumes its steps from the
      skip and ends where its last step would be. */
  lemma {:induction false} ConsumeSkipped(skip: nat, t: int, out: seq<int>, c: Command, after: seq<int>, stepCount: nat)
    requires 0 <= c.count <= skip
    ensures var p := Consume(skip, t, out, c, stepCount);
            !p.done && p.out == out && p.skip == skip - c.count && p.stepTime == Advance(t, c.interval, c.add, c.count)
            && Drop(Emit(t, c.interval, c.add, c.count) + after, skip) == Drop(after, p.skip)
  {
    AdvanceClosedForm(t, c.interval, c.add, c.count);
  }

  /** A command reaching past the skip emits its steps after the skip,
      and either stops the run with the output cut at `stepCount` or
      continues from its last step time. */
  lemma {:induction false} ConsumeEmitted(skip: nat, t: int, out: seq<int>, c: Command, after: seq<int>, stepCount: nat)
    requires skip < c.count
    requires out == [] || (skip == 0 && |out| < stepCount)
    ensures var p := Consume(skip, t, out, c, stepCount);
            var rest := out + Drop(Emit(t, c.interval, c.add, c.count) + after, skip);
            p.skip == 0 && p.stepTime == Advance(t, c.interval, c.add, c.count)
            && (p.done ==> p.out == Take(rest, stepCount))
            && (!p.done ==> |p.out| < stepCount && rest == p.out + after)
  {
    var t1 := Advance(t, c.interval, c.add, skip);
    var iv1 := c.interval + c.add * skip;
    var n: nat := c.count - skip;
    AdvanceClosedForm(t, c.interval, c.add, skip);
    AdvanceSplit(t, c.interval, c.add, skip, n);
    assert skip + n == c.count;
    EmitDrop(t, c.interval, c.add, c.count, skip);
    var e := Emit(t, c.interval, c.add, c.count);
    var e1 := Emit(t1, iv1, c.add, n);
    assert Drop(e + after, skip) == e1 + after;
    var out1 := out + e1;
    assert out + (e1 + after) == out1 + after;
    var p := Consume(skip, t, out, c, stepCount);
    assert p.out == (if |out1| >= stepCount then Truncate(out1, stepCount) else out1);
    if |out1| >= stepCount {
      assert (out1 + after)[..stepCount] == out1[..stepCount];
    }
  }

  /** From any state that has not yet stopped, the rest of the run outputs
      the steps still to come after the skip, cut at `stepCount`. */
  lemma {:induction false} RunMeaning(lines: seq<seq<string>>, oidstr: string, skip: nat, t: int,
                                      out: seq<int>, stepCount: nat)
    requires Commands(lines, oidstr).Ok? && CountsNonNegative(Commands(lines, oidstr).value)
    requires out == [] || (skip == 0 && |out| < stepCount)
    ensures Run(lines, oidstr, skip, t, out, stepCount) ==
              Ok(Take(out + Drop(Expand(Commands(lines, oidstr).value, t), skip), stepCount))
    decreases |lines|
  {
    if lines == [] {
      assert Commands(lines, oidstr).value == [];
      assert Drop([], skip) == [] && out + [] == out;
    } else {
      var line := LineCommand(lines[0], oidstr);
      var cmds := Commands(lines, oidstr).value;
      var rest := Commands(lines[1..], oidstr).value;
      assert CountsNonNegative(rest) by {
        if line.value.Some? {
          assert forall i :: 0 <= i < |rest| ==> rest[i] == cmds[i + 1];
        }
      }
      if line.value.None? {
        RunMeaning(lines[1..], oidstr, skip, t, out, stepCount);
      } else {
        var c := line.value.value;
        assert cmds == [c] + rest && c == cmds[0];
        var tEnd := Advance(t, c.interval, c.add, c.count);
        var after := Expand(rest, tEnd);
        assert Expand(cmds, t) == Emit(t, c.interval, c.add, c.count) + after;
        var p := Consume(skip, t, out, c, stepCount);
        if skip >= c.count {
          ConsumeSkipped(skip, t, out, c, after, stepCount);
          RunMeaning(lines[1..], oidstr, p.skip, tEnd, out, stepCount);
        } else {
          ConsumeEmitted(skip, t, out, c, after, stepCount);
          if !p.done {
            RunMeaning(lines[1..], oidstr, 0, tEnd, p.out, stepCount);
          }
        }
      }
    }
  }

  /** The output of `parse_log` is the stepper's step times with the first
      `skip` left out, at most `stepCount` of them. */
  lemma {:induction false} ParseLogMeaning(lines: seq<seq<string>>, oid: int, skip: nat, stepCount: nat)
    requires Commands(lines, OidStr(oid)).Ok? && CountsNonNegative(Commands(lines, OidStr(oid)).value)
    ensures ParseLogSpec(lines, oid, skip, stepCount) ==
              Ok(Take(Drop(Expand(Commands(lines, OidStr(oid)).value, 0), skip), stepCount))
  {
    var d := Drop(Expand(Commands(lines, OidStr(oid)).value, 0), skip);
    RunMeaning(lines, OidStr(oid), skip, 0, [], stepCount);
    assert [] + d == d;
  }

  /** The output never has more than `stepCount` entries, whatever the
      commands. */
  lemma {:induction false} RunBound(lines: seq<seq<string>>, oidstr: string, skip: int, t: int,
                                    out: seq<int>, stepCount: nat)
    requires |out| <= stepCount
    ensures Run(lines, oidstr, skip, t, out, stepCount).Ok? ==> |Run(lines, oidstr, skip, t, out, stepCount).value| <= stepCount
    decreases |lines|
  {
    if lines != [] {
      var line := LineCommand(lines[0], oidstr);
      if line.Ok? && line.value.Some? {
        var p := Consume(skip, t, out, line.value.value, stepCount);
        if !p.done {
          RunBound(lines[1..], oidstr, p.skip, p.stepTime, p.out, stepCount);
        }
      } else if line.Ok? {
        RunBound(lines[1..], oidstr, skip, t, out, stepCount);
      }
    }
  }

  lemma {:induction false} ParseLogBound(lines: seq<seq<string>>, oid: int, skip: int, stepCount: nat)
    ensures ParseLogSpec(lines, oid, skip, stepCount).Ok? ==> |ParseLogSpec(lines, oid, skip, stepCount).value| <= stepCount
  {
    RunBound(lines, OidStr(oid), skip, 0, [], stepCount);
  }
}
