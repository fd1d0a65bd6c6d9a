/**
 Baselines of the anomaly detector (anomaly_detector.c): for each event type the last 1000
 values with a running sum and sum of squares, from which mean and standard deviation are
 taken. Doubles are real numbers here; the square root is a parameter.
 */
module AnomalyBaseline {
  import opened Common

  const CAPACITY := 1000
  const MAX_EVENT_TYPES := 256

  // ----- sums -----

  function Sum(v: seq<real>): real {
    if v == [] then 0.0 else Sum(v[..|v| - 1]) + v[|v| - 1]
  }

  function SumSquares(v: seq<real>): real {
    if v == [] then 0.0 else SumSquares(v[..|v| - 1]) + v[|v| - 1] * v[|v| - 1]
  }

  lemma SumSnoc(v: seq<real>, x: real)
    ensures Sum(v + [x]) == Sum(v) + x && SumSquares(v + [x]) == SumSquares(v) + x * x
  {
    assert (v + [x])[..|v|] == v;
  }

  lemma {:induction false} SumTail(v: seq<real>)
    requires v != []
    ensures Sum(v[1..]) == Sum(v) - v[0] && SumSquares(v[1..]) == SumSquares(v) - v[0] * v[0]
  {
    var n := |v| - 1;
    if n > 0 {
      SumTail(v[..n]);
      assert v[1..][..n - 1] == v[..n][1..];
    }
  }

  // ----- the variance -----

  function Abs(x: real): real {
    if x < 0.0 then -x else x
  }

  lemma Positive(p: real, x: real)
    ensures p > 0.0 ==> (p * x >= 0.0 <==> x >= 0.0) && (p * x == 0.0 <==> x == 0.0)
  {
  }

  /** Sum of the squared distances to x. */
  function Spread(v: seq<real>, x: real): real {
    if v == [] then 0.0 else Spread(v[..|v| - 1], x) + Square(v[|v| - 1] - x)
  }

  function Square(x: real): (r: real)
    ensures r >= 0.0 && (r == 0.0 <==> x == 0.0)
  {
    Positive(Abs(x), x);
    Positive(Abs(x), Abs(x));
    x * x
  }

  lemma {:induction false} SpreadSums(v: seq<real>, x: real)
    ensures Spread(v, x) == SumSquares(v) - 2.0 * x * Sum(v) + |v| as real * Square(x)
  {
    hide Square;
    if v != [] {
      var n := |v| - 1;
      SpreadSums(v[..n], x);
      SpreadStep(SumSquares(v[..n]), Sum(v[..n]), n as real, v[n], x);
    }
  }

  lemma SpreadStep(q: real, s: real, n: real, y: real, x: real)
    ensures q - 2.0 * x * s + n * Square(x) + Square(y - x) == q + y * y - 2.0 * x * (s + y) + (n + 1.0) * Square(x)
  {
    var u := x * x;
    assert (y - x) * (y - x) == y * y - 2.0 * (x * y) + u;
    assert (n + 1.0) * u == n * u + u;
    assert 2.0 * x * (s + y) == 2.0 * x * s + 2.0 * (x * y);
  }

  lemma {:induction false} SpreadZero(v: seq<real>, x: real)
    ensures Spread(v, x) >= 0.0
    ensures Spread(v, x) == 0.0 <==> forall i :: 0 <= i < |v| ==> v[i] == x
  {
    if v != [] {
      var n := |v| - 1;
      SpreadZero(v[..n], x);
      assert (forall i :: 0 <= i < |v| ==> v[i] == x) <==> (forall i :: 0 <= i < n ==> v[..n][i] == x) && v[n] == x;
    }
  }

  /** n times the sum of squares, less the square of the sum. */
  function Scatter(v: seq<real>): real {
    |v| as real * SumSquares(v) - Square(Sum(v))
  }

  lemma ScatterSnoc(v: seq<real>, x: real)
    ensures Scatter(v + [x]) == Scatter(v) + Spread(v, x)
  {
    hide Sum, SumSquares, Spread, Square;
    SumSnoc(v, x);
    SpreadSums(v, x);
    ScatterStep(SumSquares(v), Sum(v), |v| as real, x);
    assert |v + [x]| as real == |v| as real + 1.0;
  }

  lemma ScatterStep(q: real, s: real, n: real, x: real)
    ensures (n + 1.0) * (q + x * x) - Square(s + x) == n * q - Square(s) + (q - 2.0 * x * s + n * Square(x))
  {
    var u := x * x;
    assert (n + 1.0) * (q + u) == n * q + n * u + q + u;
    assert (s + x) * (s + x) == s * s + 2.0 * x * s + u;
  }

  predicate AllEqual(v: seq<real>) {
    forall i :: 0 <= i < |v| ==> v[i] == v[0]
  }

  lemma {:induction false} ScatterSign(v: seq<real>)
    ensures Scatter(v) >= 0.0 && (Scatter(v) == 0.0 <==> AllEqual(v))
  {
    if v != [] {
      var n := |v| - 1;
      ScatterSign(v[..n]);
      assert v == v[..n] + [v[n]];
      ScatterSnoc(v[..n], v[n]);
      SpreadZero(v[..n], v[n]);
      assert AllEqual(v) <==> AllEqual(v[..n]) && forall i :: 0 <= i < n ==> v[..n][i] == v[n];
    }
  }

  /** The expression of calculate_statistics. */
  function Variance(sum: real, squares: real, n: nat): real
    requires n > 0
  {
    squares / n as real - (sum / n as real) * (sum / n as real)
  }

  /** Over the reals the expression is never negative, and zero exactly when all values are
      the same: taking its absolute value changes nothing. */
  lemma VarianceSign(v: seq<real>)
    requires v != []
    ensures Variance(Sum(v), SumSquares(v), |v|) >= 0.0
    ensures Variance(Sum(v), SumSquares(v), |v|) == 0.0 <==> AllEqual(v)
  {
    hide AllEqual, Sum, SumSquares;
    ScatterSign(v);
    VarianceScatter(Sum(v), SumSquares(v), |v|);
  }

  lemma VarianceScatter(s: real, q: real, n: nat)
    requires n > 0
    ensures var d := n as real * q - Square(s);
            && (Variance(s, q, n) >= 0.0 <==> d >= 0.0)
            && (Variance(s, q, n) == 0.0 <==> d == 0.0)
  {
    var m := n as real;
    var a, b := s / m, q / m;
    assert s == a * m && q == b * m;
    assert m * q - s * s == m * m * (b - a * a);
    Positive(m * m, b - a * a);
  }

  // ----- one baseline -----

  /** The last CAPACITY values of a log. */
  function Latest(log: seq<real>): (r: seq<real>)
    ensures |r| == Min(|log|, CAPACITY)
  {
    if |log| <= CAPACITY then log else log[|log| - CAPACITY..]
  }

  lemma LatestSnoc(log: seq<real>, x: real)
    ensures Latest(log + [x]) == (if |log| < CAPACITY then Latest(log) else Latest(log)[1..]) + [x]
  {
  }

  class Baseline {
    const eventType: nat
    const root: real -> real
    const values: array<real>
    var valueCount: nat
    var mean: real
    var stddev: real
    var sum: real
    var sumSquares: real
    var initialized: bool
    ghost var log: seq<real>  // every value ever added

    constructor (eventType: nat, root: real -> real)
      ensures Valid() && log == [] && this.eventType == eventType && this.root == root && fresh(values)
    {
      this.eventType := eventType;
      this.root := root;
      values := new real[CAPACITY](_ => 0.0);
      valueCount, mean, stddev, sum, sumSquares := 0, 0.0, 0.0, 0.0, 0.0;
      initialized, log := false, [];
    }

    /** The buffer has the latest values and the running sums are theirs. */
    ghost predicate Buffered()
      reads this, values
    {
      && values.Length == CAPACITY
      && valueCount == Min(|log|, CAPACITY)
      && values[..valueCount] == Latest(log)
      && sum == Sum(Latest(log))
      && sumSquares == SumSquares(Latest(log))
    }

    /** Mean and deviation are those of the latest values; no absolute value is needed. */
    ghost predicate Valid()
      reads this, values
    {
      && Buffered()
      && (initialized <==> log != [])
      && (initialized ==>
            var v := Latest(log);
            && mean == Sum(v) / |v| as real
            && Variance(Sum(v), SumSquares(v), |v|) >= 0.0
            && stddev == root(Variance(Sum(v), SumSquares(v), |v|)))
    }

    /** calculate_statistics; without values it only clears mean and deviation. */
    method CalculateStatistics()
      requires Buffered()
      modifies `mean, `stddev, `initialized
      ensures log != [] ==> Valid()
      ensures log == [] ==> mean == 0.0 && stddev == 0.0 && initialized == old(initialized)
    {
      if valueCount == 0 {
        mean, stddev := 0.0, 0.0;
        return;
      }
      mean := sum / valueCount as real;
      var variance := sumSquares / valueCount as real - mean * mean;
      assert variance == Variance(sum, sumSquares, valueCount);
      VarianceSign(Latest(log));
      stddev := root(Abs(variance));
      initialized := true;
    }

    /** Drops the first value, moves the others down and puts the new one last. */
    method Shift(value: real)
      requires values.Length == CAPACITY
      modifies values
      ensures values[..] == old(values[..])[1..] + [value]
    {
      forall i | 0 <= i < values.Length - 1 {
        values[i] := values[i + 1];
      }
      values[values.Length - 1] := value;
    }

    /** Appends a value, or shifts the oldest out. */
    method Append(value: real)
      requires Buffered()
      modifies this`valueCount, this`sum, this`sumSquares, this`log, values
      ensures Buffered() && log == old(log) + [value]
    {
      hide Sum, SumSquares, Latest;
      LatestSnoc(log, value);
      ghost var v := Latest(log);
      if valueCount < values.Length {
        values[valueCount] := value;
        assert values[..valueCount + 1] == v + [value];
        valueCount := valueCount + 1;
        sum := sum + value;
        sumSquares := sumSquares + value * value;
        SumSnoc(v, value);
      } else {
        assert values[..] == v;
        var oldest := values[0];
        Shift(value);
        assert values[..valueCount] == values[..];
        sum := sum - oldest + value;
        sumSquares := sumSquares - oldest * oldest + value * value;
        SumTail(v);
        SumSnoc(v[1..], value);
      }
      log := log + [value];
    }

    method Add(value: real)
      requires Valid()
      modifies this, values
      ensures Valid() && log == old(log) + [value]
    {
      Append(value);
      CalculateStatistics();
    }
  }

  // ----- all event types -----

  datatype Observation = Observation(eventType: nat, value: real)

  /** The values kept of each type; a new type is taken up while there is room. */
  function Learned(logs: map<nat, seq<real>>, o: Observation): map<nat, seq<real>> {
    if o.eventType in logs then logs[o.eventType := logs[o.eventType] + [o.value]]
    else if |logs| < MAX_EVENT_TYPES then logs[o.eventType := [o.value]]
    else logs
  }

  function LearnedAll(os: seq<Observation>): map<nat, seq<real>> {
    if os == [] then map[] else Learned(LearnedAll(os[..|os| - 1]), os[|os| - 1])
  }

  function ValuesOf(os: seq<Observation>, t: nat): seq<real> {
    if os == [] then [] else
      var n := |os| - 1;
      ValuesOf(os[..n], t) + if os[n].eventType == t then [os[n].value] else []
  }

  /** After any observations, each type taken up has all its values in order, and a type not
      taken up was never seen or came when all places were taken. */
  lemma {:induction false} LearnedInOrder(os: seq<Observation>, t: nat)
    ensures var logs := LearnedAll(os);
            && |logs| <= MAX_EVENT_TYPES
            && (t in logs ==> logs[t] == ValuesOf(os, t) && logs[t] != [])
            && (t !in logs ==> ValuesOf(os, t) == [] || |logs| == MAX_EVENT_TYPES)
  {
    if os != [] {
      var n := |os| - 1;
      LearnedInOrder(os[..n], t);
      var before, o := LearnedAll(os[..n]), os[n];
      LearnedSize(before, o);
    }
  }

  lemma LearnedSize(logs: map<nat, seq<real>>, o: Observation)
    ensures |Learned(logs, o)| == if o.eventType !in logs && |logs| < MAX_EVENT_TYPES then |logs| + 1 else |logs|
  {
    assert |logs| == |logs.Keys| && |Learned(logs, o)| == |Learned(logs, o).Keys|;
    assert Learned(logs, o).Keys == if o.eventType !in logs && |logs| < MAX_EVENT_TYPES then logs.Keys + {o.eventType} else logs.Keys;
  }

  ghost function Types(bs: seq<Baseline>): set<nat> {
    if bs == [] then {} else Types(bs[..|bs| - 1]) + {bs[|bs| - 1].eventType}
  }

  lemma TypesSnoc(bs: seq<Baseline>, i: nat)
    requires i < |bs|
    ensures Types(bs[..i + 1]) == Types(bs[..i]) + {bs[i].eventType}
  {
    assert bs[..i + 1][..i] == bs[..i];
  }

  class Detector {
    const root: real -> real
    var baselines: seq<Baseline>
    ghost var logs: map<nat, seq<real>>

    constructor (root: real -> real)
      ensures Valid() && logs == map[] && baselines == []
    {
      this.root := root;
      baselines, logs := [], map[];
    }

    ghost predicate Separate()
      reads this
    {
      forall i, j :: 0 <= i < j < |baselines| ==>
        baselines[i] != baselines[j] && baselines[i].values != baselines[j].values && baselines[i].eventType != baselines[j].eventType
    }

    ghost predicate Valid()
      reads this, baselines, set b | b in baselines :: b.values
    {
      && Separate()
      && |baselines| == |logs| <= MAX_EVENT_TYPES
      && logs.Keys == Types(baselines)
      && (forall i :: 0 <= i < |baselines| ==>
            baselines[i].Valid() && baselines[i].eventType in logs && baselines[i].log == logs[baselines[i].eventType])
    }

    method Find(eventType: nat) returns (i: nat)
      requires Valid()
      ensures i <= |baselines|
      ensures i < |baselines| ==> baselines[i].eventType == eventType
      ensures i == |baselines| ==> eventType !in logs && forall j :: 0 <= j < |baselines| ==> baselines[j].eventType != eventType
    {
      hide Baseline.Valid, Types;
      i := 0;
      assert Types(baselines[..0]) == {} by { NoTypes(); }
      while i < |baselines|
        invariant i <= |baselines|
        invariant eventType !in Types(baselines[..i])
        invariant forall j :: 0 <= j < i ==> baselines[j].eventType != eventType
      {
        if baselines[i].eventType == eventType {
          return;
        }
        TypesSnoc(baselines, i);
        i := i + 1;
      }
      assert baselines[..i] == baselines;
    }

    /** A baseline for a new type, when there is room. */
    method Create(eventType: nat)
      requires Valid() && eventType !in logs && |baselines| < MAX_EVENT_TYPES
      requires forall j :: 0 <= j < |baselines| ==> baselines[j].eventType != eventType
      modifies this
      ensures Valid() && logs == old(logs)[eventType := []]
      ensures |baselines| == |old(baselines)| + 1 && baselines[..|old(baselines)|] == old(baselines)
      ensures var b := baselines[|old(baselines)|]; fresh(b) && fresh(b.values) && b.eventType == eventType
    {
      hide Baseline.Valid, Types;
      ghost var n := |baselines|;
      var b := new Baseline(eventType, root);
      baselines := baselines + [b];
      TypesSnoc(baselines, n);
      assert baselines[..n] == old(baselines) && baselines[..n + 1] == baselines;
      logs := logs[eventType := []];
    }

    /** The value goes to one baseline and leaves the others as they are. */
    method AddAt(i: nat, value: real)
      requires Valid() && i < |baselines|
      modifies `logs, baselines[i], baselines[i].values
      ensures Valid()
      ensures logs == old(logs)[baselines[i].eventType := old(logs)[baselines[i].eventType] + [value]]
    {
      hide Baseline.Valid, Types;
      baselines[i].Add(value);
      logs := logs[baselines[i].eventType := logs[baselines[i].eventType] + [value]];
    }

    /** anomaly_detector_update_baseline: the observation is learned, in its own baseline. */
    method Update(eventType: nat, value: real)
      requires Valid()
      modifies this, baselines, set b | b in baselines :: b.values
      ensures Valid() && logs == Learned(old(logs), Observation(eventType, value))
      ensures old(baselines) <= baselines
    {
      hide Baseline.Valid, Types, Separate;
      var i := Find(eventType);
      if i == |baselines| {
        if i == MAX_EVENT_TYPES {
          return;
        }
        Create(eventType);
      }
      AddAt(i, value);
      assert [] + [value] == [value];
      assert logs == Learned(old(logs), Observation(eventType, value));
    }
  }

  lemma NoTypes()
    ensures Types([]) == {}
  {
  }
}
