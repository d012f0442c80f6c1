/** The sensitivity sweep: for each decision key, twenty evenly spaced values
    from its session minimum to its session maximum, each written over that
    one key of the session values and evaluated, giving a (value, NPV)
    series. Bounds are not validated: inverted bounds give a descending grid. */
module Sensitivity {
  import opened Engine
  import opened Registry

  /** The number of grid points per decision key. */
  const SampleCount: nat := 20

  /** `np.linspace(lo, hi, 20)` over exact reals: twenty points, the first
      exactly `lo` and the last exactly `hi`. */
  function Linspace(lo: real, hi: real): (s: seq<real>)
    ensures |s| == SampleCount
    ensures s[0] == lo && s[SampleCount - 1] == hi
  {
    seq(SampleCount, i requires 0 <= i < SampleCount => lo + (i as real) * (hi - lo) / 19.0)
  }

  /** Consecutive grid points are one nineteenth of the interval apart. */
  lemma LinspaceEvenlySpaced(lo: real, hi: real, i: nat)
    requires i < SampleCount - 1
    ensures Linspace(lo, hi)[i + 1] - Linspace(lo, hi)[i] == (hi - lo) / 19.0
  {
    var s := Linspace(lo, hi);
    assert (i + 1) as real * (hi - lo) == (i as real) * (hi - lo) + (hi - lo);
  }

  /** One chart point. */
  datatype Row = Row(paramValue: real, npv: real)

  /** One chart: the swept key and its points. */
  datatype Series = Series(key: string, rows: seq<Row>)

  /** The sweep's outcome: the informational branch taken when nothing is
      marked for optimization, or one series per decision key. */
  datatype SweepView = NoDecisionVariables | Charts(series: seq<Series>)

  /** Writing one key over a complete assignment keeps it complete. */
  lemma OverrideKeepsComplete(userValues: map<string, real>, k: string, v: real)
    requires Complete(userValues)
    ensures Complete(userValues[k := v])
  {
  }

  /** The NPV of the session values with `k` set to `v`, all else as it was. */
  function NpvAt(userValues: map<string, real>, k: string, v: real): (npv: real)
    requires Complete(userValues)
  {
    OverrideKeepsComplete(userValues, k, v);
    Evaluate(InputsOf(userValues[k := v])).npv
  }

  /** The series for key `k` over `[lo, hi]`: one row per grid point,
      pairing it with the NPV of the session values with `k` set to it. */
  function SweepRows(userValues: map<string, real>, k: string, lo: real, hi: real): (rows: seq<Row>)
    requires Complete(userValues)
  {
    var steps := Linspace(lo, hi);
    seq(SampleCount, i requires 0 <= i < SampleCount => Row(steps[i], NpvAt(userValues, k, steps[i])))
  }

  /** A series starts at `lo`, ends at `hi`, is equally spaced, and every
      NPV is that of the session values differing only at `k`. */
  lemma SweepRowsShape(userValues: map<string, real>, k: string, lo: real, hi: real)
    requires Complete(userValues)
    ensures var rows := SweepRows(userValues, k, lo, hi);
      && rows[0].paramValue == lo && rows[SampleCount - 1].paramValue == hi
      && (forall i | 0 <= i < SampleCount - 1 ::
            rows[i + 1].paramValue - rows[i].paramValue == (hi - lo) / 19.0)
      && (forall i | 0 <= i < SampleCount ::
            rows[i].npv == Evaluate(InputsOf(userValues[k := rows[i].paramValue])).npv)
  {
    forall i | 0 <= i < SampleCount - 1
      ensures Linspace(lo, hi)[i + 1] - Linspace(lo, hi)[i] == (hi - lo) / 19.0
    {
      LinspaceEvenlySpaced(lo, hi, i);
    }
  }

  /** One grid point: a fresh copy of the session values with `k` set to
      `val`, evaluated. */
  method SamplePoint(userValues: map<string, real>, k: string, val: real) returns (row: Row)
    requires Complete(userValues)
    ensures row == Row(val, NpvAt(userValues, k, val))
  {
    var tempParams := userValues[k := val];
    OverrideKeepsComplete(userValues, k, val);
    var out := CalculateModel(tempParams);
    row := Row(val, out.value.npv);
  }

  /** The inner loop: a fresh copy of the session values per grid point, the
      one key overridden, the NPV recorded. */
  method SweepKey(userValues: map<string, real>, k: string, lo: real, hi: real) returns (rows: seq<Row>)
    requires Complete(userValues)
    ensures rows == SweepRows(userValues, k, lo, hi)
  {
    var steps := Linspace(lo, hi);
    rows := [];
    for i := 0 to |steps|
      invariant |rows| == i
      invariant forall j | 0 <= j < i :: rows[j] == Row(steps[j], NpvAt(userValues, k, steps[j]))
    {
      var row := SamplePoint(userValues, k, steps[i]);
      rows := rows + [row];
    }
    ghost var spec := SweepRows(userValues, k, lo, hi);
    assert forall j | 0 <= j < SampleCount :: rows[j] == spec[j];
  }

  /** The whole sweep: no series and the informational branch when the
      decision set is empty; otherwise one series per decision key, in order,
      over that key's session bounds. */
  method Sweep(userValues: map<string, real>, optFlags: map<string, Flag>, decisionKeys: seq<string>)
    returns (view: SweepView)
    requires Complete(userValues)
    requires forall j | 0 <= j < |decisionKeys| :: decisionKeys[j] in optFlags
    ensures view == NoDecisionVariables <==> decisionKeys == []
    ensures view.Charts? ==>
      && |view.series| == |decisionKeys|
      && forall j | 0 <= j < |decisionKeys| ::
           var f := optFlags[decisionKeys[j]];
           view.series[j] == Series(decisionKeys[j], SweepRows(userValues, decisionKeys[j], f.min, f.max))
  {
    if |decisionKeys| == 0 {
      return NoDecisionVariables;
    }
    var series: seq<Series> := [];
    for j := 0 to |decisionKeys|
      invariant |series| == j
      invariant forall i | 0 <= i < j ::
        var f := optFlags[decisionKeys[i]];
        series[i] == Series(decisionKeys[i], SweepRows(userValues, decisionKeys[i], f.min, f.max))
    {
      var k := decisionKeys[j];
      var rows := SweepKey(userValues, k, optFlags[k].min, optFlags[k].max);
      series := series + [Series(k, rows)];
    }
    view := Charts(series);
  }

  /** Sweeping a key whose value enters no output (the plant size, which the
      engine never reads, or the plant life, discount rate and capacity
      factor, which it reads and ignores) gives a flat NPV series. */
  lemma SweepOfIgnoredKeyIsFlat(userValues: map<string, real>, k: string, v: real)
    requires Complete(userValues)
    requires k in ["plant_size_mw", "plant_life", "discount_rate", "capacity_factor"]
    ensures NpvAt(userValues, k, v) == Evaluate(InputsOf(userValues)).npv
  {
    var vals := userValues[k := v];
    OverrideKeepsComplete(userValues, k, v);
    forall i | 0 <= i < |EngineKeys| && i != 3 && i != 4 && i != 5
      ensures Read(vals, i) == Read(userValues, i)
    {
      assert EngineKeys[i] != k;
    }
    var a, b := InputsOf(userValues), InputsOf(vals);
    assert b == a.(plantLife := b.plantLife, discountRate := b.discountRate, capFactor := b.capFactor);
    UnusedInputsIgnored(a, b.plantLife, b.discountRate, b.capFactor);
  }
}
