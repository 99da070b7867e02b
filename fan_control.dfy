/** The fan controller of dell-temp-control.py: each tick queries `i8kfan`,
    reads the package temperature, pushes it into a five-slot rolling buffer,
    takes an integer weighted average that favours the newest readings, and
    asks `i8kfan` for OFF, LOW or HIGH by comparing the reading and the
    average with the thresholds, without repeating the last request.

    The `i8kfan` tool is an external `FanTool` (an exit code and standard
    output per command after the commands so far); the temperature is a
    parameter of each tick. Every command handed to `subprocess.run` is
    recorded in `FanController.trace`. */
module FanControl {
  import opened Common

  // ================================================================ constants and data

  const TempHist: nat := 5
  const TempWeightFactor: nat := 5
  const I8kfan: string := "/usr/bin/i8kfan"

  /** Thresholds in millidegrees, as the sensor reports temperatures. */
  datatype Thresholds = Thresholds(lower: int, upper: int, buffer: int)

  /** `Thresholds.from_input` on the whole degrees argparse delivers. */
  function FromInput(lower: int, upper: int, buffer: int): Thresholds
  {
    Thresholds(lower * 1000, upper * 1000, buffer * 1000)
  }

  datatype FanState = UNKNOWN | OFF | LOW | HIGH | SYSTEM

  function Value(s: FanState): int
  {
    match s
    case UNKNOWN => -1
    case OFF => 0
    case LOW => 1
    case HIGH => 2
    case SYSTEM => 3
  }

  /** Python's `==` between an `int` and a member of a plain `Enum`: never
      equal, whatever the member's value. */
  predicate IntEqualsMember(i: int, s: FanState) { false }

  /** A finished command: its exit code and standard output. */
  datatype Completed = Completed(code: int, stdout: string)

  type FanTool = (seq<seq<string>>, seq<string>) -> Completed

  const QueryArgv: seq<string> := [I8kfan]

  function SetArgv(s: FanState): seq<string> { [I8kfan, "-", IntStr(Value(s))] }

  // ================================================================ integers as text

  /** The value of a string of decimal digits. */
  function DecimalValue(d: string): nat
    requires AllDigits(d)
    decreases |d|
  {
    if d == [] then 0 else DecimalValue(d[..|d| - 1]) * 10 + (d[|d| - 1] as int - '0' as int)
  }

  /** `str(n)` for a natural number. */
  function NatStr(n: nat): (s: string)
    ensures |s| > 0 && AllDigits(s)
  {
    if n < 10 then [DigitChar(n)] else NatStr(n / 10) + [DigitChar(n % 10)]
  }

  /** `str(v)`. */
  function IntStr(v: int): string
  {
    if v < 0 then "-" + NatStr(-v) else NatStr(v)
  }

  /** `int(s)`: surrounding whitespace, an optional sign, then one or more
      ASCII digits; anything else raises `ValueError`, given as `None`. */
  function ParseInt(s: string): Option<int>
  {
    var t := Strip(s);
    if |t| > 1 && (t[0] == '-' || t[0] == '+') && AllDigits(t[1..]) then
      Some(if t[0] == '-' then -(DecimalValue(t[1..]) as int) else DecimalValue(t[1..]) as int)
    else if |t| > 0 && AllDigits(t) then Some(DecimalValue(t))
    else None
  }

  /** `s.split(" ")[-1]`: what follows the last space, or all of `s`. */
  function LastField(s: string): (r: string)
    ensures |r| <= |s| && r == s[|s| - |r|..] && ' ' !in r
    ensures |r| == |s| || s[|s| - |r| - 1] == ' '
  {
    if s == [] || s[|s| - 1] == ' ' then []
    else
      var f := LastField(s[..|s| - 1]);
      SuffixStep(s, f);
      f + [s[|s| - 1]]
  }

  /** A suffix of all but the last character, extended by that character,
      is a suffix. */
  lemma SuffixStep(s: string, f: string)
    requires s != [] && |f| <= |s| - 1 && f == s[..|s| - 1][|s| - 1 - |f|..]
    ensures s[|s| - |f| - 1..] == f + [s[|s| - 1]]
  {
    var k := |s| - 1 - |f|;
    assert forall i :: 0 <= i < |f| ==> f[i] == s[k + i];
  }

  /** `get_fan_state` on the output of a successful `i8kfan` query. */
  function FanStateOf(stdout: string): Option<int>
  {
    ParseInt(LastField(Strip(stdout)))
  }

  // ================================================================ the rolling buffer

  /** `deque.appendleft` on a deque bounded by `maxlen`: when full, the
      rightmost (oldest) entry drops out. */
  function AppendLeft(d: seq<int>, x: int, maxlen: nat): (r: seq<int>)
    requires 0 < maxlen && |d| <= maxlen
    ensures |r| <= maxlen
  {
    if |d| == maxlen then [x] + d[..maxlen - 1] else [x] + d
  }

  /** `deque.extendleft`: `appendleft` of each element in turn. */
  function ExtendLeft(d: seq<int>, xs: seq<int>, maxlen: nat): (r: seq<int>)
    requires 0 < maxlen && |d| <= maxlen
    ensures |r| <= maxlen
    decreases |xs|
  {
    if xs == [] then d else ExtendLeft(AppendLeft(d, xs[0], maxlen), xs[1..], maxlen)
  }

  function Repeat(x: int, n: nat): (r: seq<int>)
    ensures |r| == n && forall i :: 0 <= i < n ==> r[i] == x
  {
    if n == 0 then [] else [x] + Repeat(x, n - 1)
  }

  /** The buffer after a reading: an empty buffer is first filled with
      copies of it, then the reading is pushed at the left. */
  function Record(readings: seq<int>, temp: int): (r: seq<int>)
    requires |readings| <= TempHist
    ensures |r| <= TempHist
  {
    var filled := if readings == [] then ExtendLeft(readings, Repeat(temp, TempHist), TempHist) else readings;
    AppendLeft(filled, temp, TempHist)
  }

  // ================================================================ the weighted average

  /** `range(start, stop, -step)`. */
  function RangeDown(start: int, stop: int, step: nat): seq<int>
    requires step > 0
    decreases start - stop
  {
    if start <= stop then [] else [start] + RangeDown(start - step, stop, step)
  }

  const Weights: seq<int> := RangeDown(TempHist * TempWeightFactor, 1, TempWeightFactor)

  function Sum(s: seq<int>): int
  {
    if s == [] then 0 else s[0] + Sum(s[1..])
  }

  /** `sum(w * v for w, v in zip(ws, vs))`: `zip` stops at the shorter. */
  function WeightedSum(ws: seq<int>, vs: seq<int>): int
  {
    if ws == [] || vs == [] then 0 else ws[0] * vs[0] + WeightedSum(ws[1..], vs[1..])
  }

  /** `int(x / y)` for a positive `y`: the quotient truncated toward zero. */
  function TruncDiv(x: int, y: int): int
    requires y > 0
  {
    if x >= 0 then x / y else -((-x) / y)
  }

  function WeightedAverage(readings: seq<int>): int
  {
    WeightsShape();
    TruncDiv(WeightedSum(Weights, readings), Sum(Weights))
  }

  // ================================================================ the decision

  function Min(a: int, b: int): int { if a <= b then a else b }

  function Max(a: int, b: int): int { if a >= b then a else b }

  /** `statistics.mean((a, b))`, exactly. */
  function Mean(a: int, b: int): real { (a + b) as real / 2.0 }

  datatype Decision = Request(state: FanState) | Keep

  /** The branches of `fancontrol`, the first that holds winning. */
  function Decide(th: Thresholds, fanState: int, wa: int, temp: int): Decision
  {
    if Min(wa, temp) < th.lower && !IntEqualsMember(fanState, LOW) then Request(OFF)
    else if Mean(temp, wa) < th.upper as real && th.lower as real < Mean(temp, wa) &&
            !IntEqualsMember(fanState, UNKNOWN) then Request(LOW)
    else if Max(wa, temp) > th.upper && !IntEqualsMember(fanState, HIGH) then Request(HIGH)
    else Keep
  }

  // ================================================================ one tick

  datatype SetRun = SetRun(result: Result<FanState, int>, trace: seq<seq<string>>)

  /** `set_fan_state`: a request equal to the last one is not repeated; under
      dry-run nothing is executed; otherwise `i8kfan - <value>` runs and a
      non-zero exit raises `CalledProcessError`, given as its code. */
  function SetSpec(tool: FanTool, dryRun: bool, trace: seq<seq<string>>, req: FanState,
                   last: Option<FanState>): SetRun
  {
    if last == Some(req) then SetRun(Ok(last.value), trace)
    else if dryRun then SetRun(Ok(req), trace)
    else
      var c := tool(trace, SetArgv(req));
      SetRun(if c.code != 0 then Err(c.code) else Ok(req), trace + [SetArgv(req)])
  }

  /** The exceptions a tick can raise: the query fails, its output is not a
      number, the sensor cannot be read, or the set command fails. */
  datatype FanError = QueryFailed(code: int) | BadFanState | ReadFailed | SetFailed(code: int)

  datatype ControlRun = ControlRun(result: Result<Option<FanState>, FanError>, readings: seq<int>,
                                   trace: seq<seq<string>>)

  /** `fancontrol`: query the fan, read the temperature (`None` when the
      sensor cannot be read), record it, decide, and request. */
  function ControlSpec(tool: FanTool, th: Thresholds, dryRun: bool, trace: seq<seq<string>>,
                       readings: seq<int>, last: Option<FanState>, temp: Option<int>): ControlRun
    requires |readings| <= TempHist
  {
    var q := tool(trace, QueryArgv);
    var t1 := trace + [QueryArgv];
    if q.code != 0 then ControlRun(Err(QueryFailed(q.code)), readings, t1)
    else if FanStateOf(q.stdout).None? then ControlRun(Err(BadFanState), readings, t1)
    else if temp.None? then ControlRun(Err(ReadFailed), readings, t1)
    else
      var r := Record(readings, temp.value);
      match Decide(th, FanStateOf(q.stdout).value, WeightedAverage(r), temp.value)
      case Keep => ControlRun(Ok(last), r, t1)
      case Request(s) =>
        var sr := SetSpec(tool, dryRun, t1, s, last);
        if sr.result.Err? then ControlRun(Err(SetFailed(sr.result.error)), r, sr.trace)
        else ControlRun(Ok(Some(sr.result.value)), r, sr.trace)
  }

  /** The controller state `main` keeps between ticks: the deque of readings,
      the last requested state, and the commands run. */
  class FanController {
    const tool: FanTool
    const thresholds: Thresholds
    const dryRun: bool
    var readings: seq<int>
    var lastRequested: Option<FanState>
    var trace: seq<seq<string>>

    /** The buffer is empty before the first tick and full after it. */
    predicate Valid()
      reads this
    {
      |readings| == 0 || |readings| == TempHist
    }

    constructor (tool: FanTool, thresholds: Thresholds, dryRun: bool)
      ensures Valid()
      ensures this.tool == tool && this.thresholds == thresholds && this.dryRun == dryRun
      ensures readings == [] && lastRequested == None && trace == []
    {
      this.tool := tool;
      this.thresholds := thresholds;
      this.dryRun := dryRun;
      readings := [];
      lastRequested := None;
      trace := [];
    }

    /** `get_fan_state`: `None` when the query's output is not a number. */
    method GetFanState() returns (code: int, state: Option<int>)
      modifies this`trace
      ensures var q := tool(old(trace), QueryArgv);
        code == q.code && (code == 0 ==> state == FanStateOf(q.stdout))
      ensures trace == old(trace) + [QueryArgv]
    {
      var res := tool(trace, QueryArgv);
      trace := trace + [QueryArgv];
      code := res.code;
      if code != 0 {
        return code, None;
      }
      var output := Strip(res.stdout);
      var fanStatus := LastField(output);
      state := ParseInt(fanStatus);
    }

    method SetFanState(req: FanState, last: Option<FanState>) returns (r: Result<FanState, int>)
      modifies this`trace
      ensures SetRun(r, trace) == SetSpec(tool, dryRun, old(trace), req, last)
    {
      if last == Some(req) && last.Some? {
        return Ok(last.value);
      }
      var cmd := SetArgv(req);
      if dryRun {
        return Ok(req);
      }
      var res := tool(trace, cmd);
      trace := trace + [cmd];
      if res.code != 0 {
        return Err(res.code);
      }
      return Ok(req);
    }

    /** `fancontrol`, with the deque updated in place. */
    method Control(temp: Option<int>, last: Option<FanState>) returns (r: Result<Option<FanState>, FanError>)
      requires Valid()
      modifies this`trace, this`readings
      ensures Valid()
      ensures ControlRun(r, readings, trace) ==
        ControlSpec(tool, thresholds, dryRun, old(trace), old(readings), last, temp)
    {
      var code, fanState := GetFanState();
      if code != 0 {
        return Err(QueryFailed(code));
      }
      if fanState.None? {
        return Err(BadFanState);
      }
      if temp.None? {
        return Err(ReadFailed);
      }
      RecordShape(readings, temp.value);
      if readings == [] {
        readings := ExtendLeft(readings, Repeat(temp.value, TempHist), TempHist);
      }
      readings := AppendLeft(readings, temp.value, TempHist);
      var weightedAverage := WeightedAverage(readings);
      var decision := Decide(thresholds, fanState.value, weightedAverage, temp.value);
      if decision.Keep? {
        return Ok(last);
      }
      var sr := SetFanState(decision.state, last);
      if sr.Err? {
        return Err(SetFailed(sr.error));
      }
      return Ok(Some(sr.value));
    }

    /** One pass of `main`'s loop: an exception is logged and the last
        request stays as it was. */
    method Tick(temp: Option<int>)
      requires Valid()
      modifies this`trace, this`readings, this`lastRequested
      ensures Valid()
      ensures var c := ControlSpec(tool, thresholds, dryRun, old(trace), old(readings), old(lastRequested), temp);
        readings == c.readings && trace == c.trace &&
        lastRequested == (if c.result.Ok? then c.result.value else old(lastRequested))
    {
      var r := Control(temp, lastRequested);
      if r.Ok? {
        lastRequested := r.value;
      }
    }
  }

  // ================================================================ properties

  /** `range(25, 1, -5)` is [25, 20, 15, 10, 5]: decreasing weights, the
      largest on the newest reading, summing to 75. */
  lemma WeightsShape()
    ensures Weights == [25, 20, 15, 10, 5] && Sum(Weights) == 75
  {
    assert RangeDown(0, 1, 5) == [];
    assert RangeDown(5, 1, 5) == [5] + RangeDown(0, 1, 5);
    assert RangeDown(10, 1, 5) == [10] + RangeDown(5, 1, 5);
    assert RangeDown(15, 1, 5) == [15] + RangeDown(10, 1, 5);
    assert RangeDown(20, 1, 5) == [20] + RangeDown(15, 1, 5);
    assert RangeDown(25, 1, 5) == [25] + RangeDown(20, 1, 5);
    assert Sum([5]) == 5;
    assert Sum([10, 5]) == 10 + Sum([5]);
    assert Sum([15, 10, 5]) == 15 + Sum([10, 5]);
    assert Sum([20, 15, 10, 5]) == 20 + Sum([15, 10, 5]);
    assert Sum([25, 20, 15, 10, 5]) == 25 + Sum([20, 15, 10, 5]);
  }

  lemma {:induction false} RepeatFill(d: seq<int>, x: int, k: nat, maxlen: nat)
    requires 0 < maxlen && |d| <= maxlen && forall i :: 0 <= i < |d| ==> d[i] == x
    ensures var r := ExtendLeft(d, Repeat(x, k), maxlen);
      |r| == Min(|d| + k, maxlen) && forall i :: 0 <= i < |r| ==> r[i] == x
    decreases k
  {
    if k > 0 {
      assert Repeat(x, k)[1..] == Repeat(x, k - 1);
      RepeatFill(AppendLeft(d, x, maxlen), x, k - 1, maxlen);
    }
  }

  /** The rolling buffer after a reading holds exactly five readings, the
      new one first. On the first reading all five equal it; afterwards the
      older four move one place right and the oldest is dropped. */
  lemma RecordShape(readings: seq<int>, temp: int)
    requires |readings| == 0 || |readings| == TempHist
    ensures var r := Record(readings, temp);
      |r| == TempHist && r[0] == temp &&
      (readings == [] ==> forall i :: 0 <= i < |r| ==> r[i] == temp) &&
      (readings != [] ==> r[1..] == readings[..TempHist - 1])
  {
    if readings == [] {
      RepeatFill([], temp, TempHist, TempHist);
    }
  }

  lemma {:induction false} WeightedSumBounds(ws: seq<int>, vs: seq<int>, lo: int, hi: int)
    requires |ws| <= |vs| && forall i :: 0 <= i < |ws| ==> ws[i] >= 0
    requires forall i :: 0 <= i < |vs| ==> lo <= vs[i] <= hi
    ensures Sum(ws) * lo <= WeightedSum(ws, vs) <= Sum(ws) * hi
  {
    if ws != [] {
      WeightedSumBounds(ws[1..], vs[1..], lo, hi);
      BoundsStep(ws[0], vs[0], Sum(ws[1..]), WeightedSum(ws[1..], vs[1..]), lo, hi);
    }
  }

  /** One more non-negative weight keeps a weighted sum between the bounds. */
  lemma BoundsStep(w: int, v: int, rest: int, sum: int, lo: int, hi: int)
    requires w >= 0 && lo <= v <= hi && rest * lo <= sum <= rest * hi
    ensures (w + rest) * lo <= w * v + sum <= (w + rest) * hi
  {
    MulMonotone(w, lo, v);
    MulMonotone(w, v, hi);
    assert (w + rest) * lo == w * lo + rest * lo;
    assert (w + rest) * hi == w * hi + rest * hi;
  }

  lemma MulMonotone(w: int, a: int, b: int)
    requires w >= 0 && a <= b
    ensures w * a <= w * b
  {
    assert w * b - w * a == w * (b - a);
  }

  lemma DivBounds(x: nat, y: int, lo: int, hi: int)
    requires y > 0 && y * lo <= x <= y * hi
    ensures lo <= x / y <= hi
  {
    var q, r := x / y, x % y;
    assert x == y * q + r && 0 <= r < y;
    assert y * (q + 1) == y * q + y && y * (hi + 1) == y * hi + y;
    if q < lo {
      MulMonotone(y, q + 1, lo);
      assert false;
    } else if q > hi {
      MulMonotone(y, hi + 1, q);
      assert false;
    }
  }

  lemma TruncDivBounds(x: int, y: int, lo: int, hi: int)
    requires y > 0 && y * lo <= x <= y * hi
    ensures lo <= TruncDiv(x, y) <= hi
  {
    if x >= 0 {
      DivBounds(x, y, lo, hi);
    } else {
      assert y * -hi == -(y * hi) && y * -lo == -(y * lo);
      DivBounds(-x, y, -hi, -lo);
    }
  }

  /** The weighted average of a full buffer lies between its smallest and
      largest readings. */
  lemma WeightedAverageBounds(readings: seq<int>, lo: int, hi: int)
    requires |readings| == TempHist && forall i :: 0 <= i < |readings| ==> lo <= readings[i] <= hi
    ensures lo <= WeightedAverage(readings) <= hi
  {
    WeightsShape();
    WeightedSumBounds(Weights, readings, lo, hi);
    TruncDivBounds(WeightedSum(Weights, readings), 75, lo, hi);
  }

  /** A buffer of equal readings averages to that reading; in particular the
      buffer filled by the first reading does. */
  lemma SteadyAverage(temp: int)
    ensures WeightedAverage(Record([], temp)) == temp
  {
    RecordShape([], temp);
    WeightedAverageBounds(Record([], temp), temp, temp);
  }

  lemma {:induction false} WeightedSumMonotone(ws: seq<int>, vs: seq<int>, us: seq<int>)
    requires |vs| == |us| && forall i :: 0 <= i < |ws| ==> ws[i] >= 0
    requires forall i :: 0 <= i < |vs| ==> vs[i] <= us[i]
    ensures WeightedSum(ws, vs) <= WeightedSum(ws, us)
  {
    if ws != [] && vs != [] {
      WeightedSumMonotone(ws[1..], vs[1..], us[1..]);
      MulMonotone(ws[0], vs[0], us[0]);
    }
  }

  lemma TruncDivMonotone(x: int, z: int, y: int)
    requires y > 0 && x <= z
    ensures TruncDiv(x, y) <= TruncDiv(z, y)
  {
    if x >= 0 {
      DivMonotone(x, z, y);
    } else if z < 0 {
      DivMonotone(-z, -x, y);
    } else {
      DivMonotone(0, -x, y);
      DivMonotone(0, z, y);
    }
  }

  /** Euclidean division by a positive divisor is monotone on naturals. */
  lemma DivMonotone(a: int, b: int, y: int)
    requires 0 <= a <= b && y > 0
    ensures a / y <= b / y
  {
    var qa, qb := a / y, b / y;
    assert a == y * qa + a % y && b == y * qb + b % y;
    assert y * (qb + 1) == y * qb + y;
    if qa > qb {
      MulMonotone(y, qb + 1, qa);
      assert false;
    }
  }


  /** A buffer whose every reading is no higher than another's has no higher
      average. */
  lemma WeightedAverageMonotone(vs: seq<int>, us: seq<int>)
    requires |vs| == |us| && forall i :: 0 <= i < |vs| ==> vs[i] <= us[i]
    ensures WeightedAverage(vs) <= WeightedAverage(us)
  {
    WeightsShape();
    WeightedSumMonotone(Weights, vs, us);
    TruncDivMonotone(WeightedSum(Weights, vs), WeightedSum(Weights, us), 75);
  }

  /** The mean is strictly between the thresholds exactly when the sum of the
      reading and the average is strictly between twice each. */
  lemma MeanBetween(th: Thresholds, temp: int, wa: int)
    ensures (Mean(temp, wa) < th.upper as real && th.lower as real < Mean(temp, wa)) <==>
            2 * th.lower < temp + wa < 2 * th.upper
  {
  }

  /** The decision in integer terms, each branch exactly when the earlier
      ones fail. The reported fan state never matters. */
  lemma DecideMeaning(th: Thresholds, fanState: int, wa: int, temp: int)
    ensures var d := Decide(th, fanState, wa, temp);
      var off := Min(wa, temp) < th.lower;
      var low := 2 * th.lower < temp + wa < 2 * th.upper;
      var high := Max(wa, temp) > th.upper;
      (d == Request(OFF) <==> off) &&
      (d == Request(LOW) <==> !off && low) &&
      (d == Request(HIGH) <==> !off && !low && high) &&
      (d == Keep <==> !off && !low && !high)
    ensures forall f :: Decide(th, f, wa, temp) == Decide(th, fanState, wa, temp)
  {
    MeanBetween(th, temp, wa);
  }

  /** For a steady temperature t (the average equal to the reading) and
      thresholds of whole degrees `lower < upper`: OFF below `lower`, LOW
      strictly between, HIGH above `upper`, and no change at either
      threshold. */
  lemma SteadyDecision(lower: int, upper: int, buffer: int, fanState: int, temp: int)
    requires lower < upper
    ensures var th, d := FromInput(lower, upper, buffer), Decide(FromInput(lower, upper, buffer), fanState, temp, temp);
      (d == Request(OFF) <==> temp < 1000 * lower) &&
      (d == Request(LOW) <==> 1000 * lower < temp < 1000 * upper) &&
      (d == Request(HIGH) <==> temp > 1000 * upper) &&
      (d == Keep <==> temp == 1000 * lower || temp == 1000 * upper)
  {
    DecideMeaning(FromInput(lower, upper, buffer), fanState, temp, temp);
  }

  /** `set_fan_state` returns the requested state unless it raised; it runs
      `i8kfan - <value>` exactly when the request differs from the last one
      and dry-run is off, and raises exactly when that command fails. */
  lemma SetFanStateMeaning(tool: FanTool, dryRun: bool, trace: seq<seq<string>>, req: FanState,
                           last: Option<FanState>)
    ensures var s := SetSpec(tool, dryRun, trace, req, last);
      var issued := last != Some(req) && !dryRun;
      (s.result.Ok? ==> s.result.value == req) &&
      s.trace == trace + (if issued then [SetArgv(req)] else []) &&
      (s.result.Err? <==> issued && tool(trace, SetArgv(req)).code != 0)
  {
  }

  /** A request repeated after it succeeded runs nothing and returns the
      same state. */
  lemma SetFanStateIdempotent(tool: FanTool, dryRun: bool, trace: seq<seq<string>>, req: FanState,
                              last: Option<FanState>)
    requires SetSpec(tool, dryRun, trace, req, last).result.Ok?
    ensures var s := SetSpec(tool, dryRun, trace, req, last);
      SetSpec(tool, dryRun, s.trace, req, Some(s.result.value)) == SetRun(Ok(req), s.trace)
  {
  }

  /** What a tick does. The query always runs first. A failed query, an
      unreadable fan state or temperature leave the buffer as it was. Once
      the temperature is read the buffer is `Record`ed whatever follows, and
      the result is the last request when no branch fires. On a request the
      set command runs exactly when the request is new and dry-run is off,
      and the result is the requested state unless that command fails, which
      raises with its exit code. Under dry-run only the query runs. */
  lemma ControlMeaning(tool: FanTool, th: Thresholds, dryRun: bool, trace: seq<seq<string>>,
                       readings: seq<int>, last: Option<FanState>, temp: Option<int>)
    requires |readings| <= TempHist
    ensures var c := ControlSpec(tool, th, dryRun, trace, readings, last, temp);
      var q := tool(trace, QueryArgv);
      trace + [QueryArgv] <= c.trace && |c.trace| <= |trace| + 2 &&
      (dryRun ==> c.trace == trace + [QueryArgv]) &&
      (q.code != 0 || FanStateOf(q.stdout).None? || temp.None? ==>
         c.readings == readings && c.result.Err? && c.trace == trace + [QueryArgv]) &&
      (q.code == 0 && FanStateOf(q.stdout).Some? && temp.Some? ==>
         var r := Record(readings, temp.value);
         var d := Decide(th, FanStateOf(q.stdout).value, WeightedAverage(r), temp.value);
         c.readings == r &&
         (d == Keep ==> c.result == Ok(last) && c.trace == trace + [QueryArgv]) &&
         (d.Request? ==>
            var issued := last != Some(d.state) && !dryRun;
            var code := tool(trace + [QueryArgv], SetArgv(d.state)).code;
            c.trace == trace + [QueryArgv] + (if issued then [SetArgv(d.state)] else []) &&
            (c.result.Err? <==> issued && code != 0) &&
            (c.result.Err? ==> c.result.error == SetFailed(code)) &&
            (c.result.Ok? ==> c.result == Ok(Some(d.state)))))
  {
    var q := tool(trace, QueryArgv);
    if q.code == 0 && FanStateOf(q.stdout).Some? && temp.Some? {
      var r := Record(readings, temp.value);
      var d := Decide(th, FanStateOf(q.stdout).value, WeightedAverage(r), temp.value);
      if d.Request? {
        SetFanStateMeaning(tool, dryRun, trace + [QueryArgv], d.state, last);
      }
    }
  }

  lemma {:induction false} NatStrValue(n: nat)
    ensures DecimalValue(NatStr(n)) == n
  {
    if n >= 10 {
      var s := NatStr(n);
      assert s[..|s| - 1] == NatStr(n / 10);
      NatStrValue(n / 10);
    }
  }

  lemma {:induction false} TrimStartBeforeWord(p: string, d: string)
    requires d != [] && !IsSpace(d[0])
    ensures TrimStart(p + " " + d) == (if TrimStart(p) == [] then d else TrimStart(p) + " " + d)
  {
    if p == [] {
      assert p + " " + d == [' '] + d && ([' '] + d)[1..] == d;
    } else if IsSpace(p[0]) {
      assert (p + " " + d)[1..] == p[1..] + " " + d;
      TrimStartBeforeWord(p[1..], d);
    }
  }

  lemma {:induction false} TrimEndAfterWord(x: string, w: string)
    requires x != [] && !IsSpace(x[|x| - 1]) && forall i :: 0 <= i < |w| ==> IsSpace(w[i])
    ensures TrimEnd(x + w) == x
  {
    if w != [] {
      assert (x + w)[..|x + w| - 1] == x + w[..|w| - 1];
      TrimEndAfterWord(x, w[..|w| - 1]);
    } else {
      assert x + w == x;
    }
  }

  lemma {:induction false} LastFieldAfterSpace(q: string, d: string)
    requires ' ' !in d
    ensures LastField(q + " " + d) == d
  {
    if d == [] {
      assert q + " " + d == q + " ";
    } else {
      assert (q + " " + d)[..|q + " " + d| - 1] == q + " " + d[..|d| - 1];
      LastFieldAfterSpace(q, d[..|d| - 1]);
    }
  }

  lemma {:induction false} LastFieldWhole(d: string)
    requires ' ' !in d
    ensures LastField(d) == d
  {
    if d != [] {
      LastFieldWhole(d[..|d| - 1]);
    }
  }

  lemma IntStrShape(v: int)
    ensures var d := IntStr(v);
      d != [] && !IsSpace(d[0]) && !IsSpace(d[|d| - 1]) && ' ' !in d && ParseInt(d) == Some(v)
  {
    var d := IntStr(v);
    var n: nat := if v < 0 then -v else v;
    NatStrValue(n);
    assert d[|d| - 1] == NatStr(n)[|NatStr(n)| - 1];
    assert ' ' !in d by {
      if v < 0 { assert d == ['-'] + NatStr(n); }
    }
    assert Strip(d) == d by {
      TrimEndAfterWord(d, []);
      assert d + [] == d;
    }
    if v < 0 {
      assert d[1..] == NatStr(n);
    }
  }

  lemma StripAround(p: string, d: string, w: string)
    requires d != [] && !IsSpace(d[0]) && !IsSpace(d[|d| - 1])
    requires forall i :: 0 <= i < |w| ==> IsSpace(w[i])
    ensures Strip(p + " " + d + w) == (if TrimStart(p) == [] then d else TrimStart(p) + " " + d)
  {
    assert p + " " + d + w == p + " " + (d + w);
    TrimStartBeforeWord(p, d + w);
    if TrimStart(p) == [] {
      TrimEndAfterWord(d, w);
    } else {
      assert TrimStart(p) + " " + (d + w) == (TrimStart(p) + " " + d) + w;
      TrimEndAfterWord(TrimStart(p) + " " + d, w);
    }
  }

  /** `get_fan_state` reads back the number `i8kfan` prints as its last
      space-separated word, whatever comes before it and whatever trailing
      whitespace follows. */
  lemma FanStateRoundTrip(p: string, v: int, w: string)
    requires forall i :: 0 <= i < |w| ==> IsSpace(w[i])
    ensures FanStateOf(p + " " + IntStr(v) + w) == Some(v)
  {
    var d := IntStr(v);
    IntStrShape(v);
    StripAround(p, d, w);
    if TrimStart(p) == [] {
      LastFieldWhole(d);
    } else {
      LastFieldAfterSpace(TrimStart(p), d);
    }
  }
}
