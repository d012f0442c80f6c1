/** The optimizer adapter: the decision set (the registry keys whose
    "in the optimization" box is ticked, with start values and bounds), the
    objective and the feasibility constraint handed to the solver, and the
    decoding of the solver's answer. The solver itself is not modelled: its
    answer is an input. */
module Optimizer {
  import opened Support
  import opened Engine
  import opened Overlays
  import opened Registry

  // ---------------------------------------------------------------------------
  // Decision set
  // ---------------------------------------------------------------------------

  /** `a` is `b` with some elements dropped, the rest kept in order. */
  ghost predicate Subsequence(a: seq<string>, b: seq<string>)
    decreases |b|
  {
    if a == [] then true
    else if b == [] then false
    else (a[0] == b[0] && Subsequence(a[1..], b[1..])) || Subsequence(a, b[1..])
  }

  /** Every key of `ps` has optimization settings. */
  predicate FlagsCover(ps: seq<Param>, optFlags: map<string, Flag>)
  {
    forall i | 0 <= i < |ps| :: ps[i].key in optFlags
  }

  /** The keys of `ps`, in order, whose session flag is ticked. */
  function DecisionKeys(ps: seq<Param>, optFlags: map<string, Flag>): (keys: seq<string>)
    requires FlagsCover(ps, optFlags)
    ensures forall j | 0 <= j < |keys| :: keys[j] in optFlags && optFlags[keys[j]].inOpt
    ensures forall i | 0 <= i < |ps| && optFlags[ps[i].key].inOpt :: ps[i].key in keys
    ensures forall j | 0 <= j < |keys| :: keys[j] in KeysOf(ps)
    ensures Subsequence(keys, KeysOf(ps))
    decreases |ps|
  {
    if ps == [] then []
    else
      var rest := DecisionKeys(ps[1..], optFlags);
      assert KeysOf(ps)[1..] == KeysOf(ps[1..]);
      assert forall i | 1 <= i < |ps| :: ps[i] == ps[1..][i - 1];
      if optFlags[ps[0].key].inOpt then [ps[0].key] + rest else rest
  }

  lemma {:induction false} SubsequenceOfDistinct(a: seq<string>, b: seq<string>)
    requires Subsequence(a, b) && Distinct(b)
    ensures Distinct(a)
    ensures forall k | k in a :: k in b
    decreases |b|
  {
    if a == [] {
    } else if a[0] == b[0] && Subsequence(a[1..], b[1..]) {
      SubsequenceOfDistinct(a[1..], b[1..]);
      forall j | 0 < j < |a|
        ensures a[j] != a[0]
      {
        assert a[j] == a[1..][j - 1];
        assert a[j] in b[1..];
      }
      forall k | k in a
        ensures k in b
      {
        if k != a[0] {
          assert k in a[1..];
        }
      }
    } else {
      SubsequenceOfDistinct(a, b[1..]);
    }
  }

  /** Decision keys drawn from a registry without repeated keys never repeat, so each one's
      solver variable is written under its own key. */
  lemma DecisionKeysDistinct(ps: seq<Param>, optFlags: map<string, Flag>)
    requires FlagsCover(ps, optFlags) && Distinct(KeysOf(ps))
    ensures Distinct(DecisionKeys(ps, optFlags))
  {
    SubsequenceOfDistinct(DecisionKeys(ps, optFlags), KeysOf(ps));
  }

  /** The keys of `ps`, in order, whose registry default ticks "in the
      optimization". */
  function RegistryFlagged(ps: seq<Param>): seq<string>
  {
    if ps == [] then []
    else (if ps[0].inOptimization then [ps[0].key] else []) + RegistryFlagged(ps[1..])
  }

  /** When the session flags are the registry defaults, the decision keys
      are the registry's flagged keys. */
  lemma {:induction false} DecisionKeysFollowDefaults(ps: seq<Param>, optFlags: map<string, Flag>)
    requires FlagsCover(ps, optFlags)
    requires forall i | 0 <= i < |ps| :: optFlags[ps[i].key].inOpt == ps[i].inOptimization
    ensures DecisionKeys(ps, optFlags) == RegistryFlagged(ps)
    decreases |ps|
  {
    if ps != [] {
      assert forall i | 1 <= i < |ps| :: ps[i] == ps[1..][i - 1];
      DecisionKeysFollowDefaults(ps[1..], optFlags);
    }
  }

  /** The decision set handed to the solver (and to the sweep): the decision
      keys, the start vector `x0` holding each key's current value, and the
      bounds list holding each key's session (min, max), index-aligned. The
      registry is passed in; the source reads it as a global. */
  method BuildDecisionSet(registry: seq<Param>, userValues: map<string, real>, optFlags: map<string, Flag>)
    returns (keys: seq<string>, x0: seq<real>, bounds: seq<(real, real)>)
    requires Distinct(KeysOf(registry))
    requires SessionCovers(registry, userValues, optFlags)
    ensures keys == DecisionKeys(registry, optFlags) && Distinct(keys)
    ensures |x0| == |keys| && |bounds| == |keys|
    ensures forall j | 0 <= j < |keys| ::
      && keys[j] in userValues && keys[j] in optFlags
      && x0[j] == userValues[keys[j]]
      && bounds[j] == (optFlags[keys[j]].min, optFlags[keys[j]].max)
  {
    keys := DecisionKeys(registry, optFlags);
    DecisionKeysDistinct(registry, optFlags);
    assert forall j | 0 <= j < |keys| :: keys[j] in userValues by {
      forall j | 0 <= j < |keys| ensures keys[j] in userValues {
        var i :| 0 <= i < |registry| && KeysOf(registry)[i] == keys[j];
      }
    }
    x0, bounds := [], [];
    for j := 0 to |keys|
      invariant |x0| == j && |bounds| == j
      invariant forall i | 0 <= i < j ::
        x0[i] == userValues[keys[i]] && bounds[i] == (optFlags[keys[i]].min, optFlags[keys[i]].max)
    {
      var k := keys[j];
      x0 := x0 + [userValues[k]];
      bounds := bounds + [(optFlags[k].min, optFlags[k].max)];
    }
  }

  // ---------------------------------------------------------------------------
  // Objective and constraint
  // ---------------------------------------------------------------------------

  /** A candidate overlay keeps every key of the fixed assignment, so it is
      complete whenever the fixed assignment is. */
  lemma OverlayKeepsComplete(fixedParams: map<string, real>, dvKeys: seq<string>, x: seq<real>)
    requires |dvKeys| <= |x|
    requires Complete(fixedParams)
    ensures Complete(Overlaid(fixedParams, dvKeys, x))
  {
    OverlaidKeys(fixedParams, dvKeys, x);
  }

  /** The value minimised by the solver: the negated NPV of the fixed
      assignment with the candidate written over the decision keys. */
  method Objective(x: seq<real>, fixedParams: map<string, real>, dvKeys: seq<string>) returns (r: Result<real>)
    requires |dvKeys| <= |x|
    ensures var vals := Overlaid(fixedParams, dvKeys, x);
      && (r.Success? <==> Complete(vals))
      && (r.Success? ==> r.value == -Evaluate(InputsOf(vals)).npv)
      && (r.Failure? ==> r.error in EngineKeys && r.error !in vals)
  {
    var newVals := Overlay(fixedParams, dvKeys, x);
    var out :- CalculateModel(newVals);
    r := Success(-out.npv);
  }

  /** The solver's inequality (feasible when the value is >= 0): selling
      price minus LCOH of the same overlay. It is positive exactly when that
      overlay's flag is "Money". */
  method MoneyConstraint(x: seq<real>, fixedParams: map<string, real>, dvKeys: seq<string>) returns (r: Result<real>)
    requires |dvKeys| <= |x|
    ensures var vals := Overlaid(fixedParams, dvKeys, x);
      && (r.Success? <==> Complete(vals))
      && (r.Success? ==> var inp := InputsOf(vals); var m := Evaluate(inp);
            && r.value == inp.h2Price - m.lcoh
            && (r.value > 0.0 <==> m.moneyCheck == Money)
            && (r.value >= 0.0 <==> m.lcoh <= inp.h2Price))
      && (r.Failure? ==> r.error in EngineKeys && r.error !in vals)
  {
    var newVals := Overlay(fixedParams, dvKeys, x);
    var out :- CalculateModel(newVals);
    assert EngineKeys[11] == "h2_selling_price";
    r := Success(newVals["h2_selling_price"] - out.lcoh);
  }

  /** The constraint is not strict: a break-even candidate (selling price
      equal to LCOH) satisfies it while its flag reads "No Money". */
  lemma BreakEvenSatisfiesConstraint(inp: Inputs)
    requires Evaluate(inp).lcoh == inp.h2Price
    ensures inp.h2Price - Evaluate(inp).lcoh >= 0.0
    ensures Evaluate(inp).moneyCheck == NoMoney
    ensures Evaluate(inp).npv == 0.0 && Evaluate(inp).payback == 0.0
  {
    NpvIsMarginTimesVolume(inp);
  }

  // ---------------------------------------------------------------------------
  // Decoding the solver's answer
  // ---------------------------------------------------------------------------

  /** What the solver reports: whether it converged, and its point. */
  datatype SolverAnswer = SolverAnswer(success: bool, x: seq<real>)

  /** The adapter's outcome: the final assignment and its metrics, or the
      failure branch. */
  datatype Outcome = Converged(finalParams: map<string, real>, finalMetrics: Metrics) | NotConverged

  /** On success, the final assignment is the session values with the
      solver's point written over the decision keys, and its metrics are the
      engine's; on failure nothing is computed. The reported flag agrees with
      the constraint value at the solver's point: "Money" exactly when the
      final selling price minus the final LCOH is positive. */
  method DecodeAnswer(userValues: map<string, real>, dvKeys: seq<string>, res: SolverAnswer) returns (o: Result<Outcome>)
    requires res.success ==> |dvKeys| <= |res.x|
    ensures !res.success ==> o == Success(NotConverged)
    ensures res.success ==> var fp := Overlaid(userValues, dvKeys, res.x);
      && (o.Success? <==> Complete(fp))
      && (o.Success? ==> o.value == Converged(fp, Evaluate(InputsOf(fp))))
    ensures res.success && Complete(userValues) ==> o.Success? && o.value.Converged?
    ensures res.success && o.Success? && o.value.Converged? ==>
      && Framed(userValues, dvKeys, res.x, o.value.finalParams)
      && (dvKeys == [] ==> o.value.finalParams == userValues)
    ensures res.success && o.Success? && o.value.Converged? ==>
      var fp, m := o.value.finalParams, o.value.finalMetrics;
      && "h2_selling_price" in fp
      && (m.moneyCheck == Money <==> fp["h2_selling_price"] - m.lcoh > 0.0)
  {
    if !res.success {
      return Success(NotConverged);
    }
    var finalParams := Overlay(userValues, dvKeys, res.x);
    var finalRes :- CalculateModel(finalParams);
    assert EngineKeys[11] == "h2_selling_price";
    o := Success(Converged(finalParams, finalRes));
  }
}
