/** The static parameter registry (key, caption, default, range, default
    "in the optimization" flag) and the session it seeds: one current value
    and one (min, max, in-optimization) record per registry key. */
module Registry {
  import opened Support
  import opened Engine
  import opened Overlays

  datatype Param = Param(
    key: string, caption: string,
    defaultValue: real, minValue: real, maxValue: real,
    inOptimization: bool)

  /** The per-key optimization settings the session keeps (`opt_flags`). */
  datatype Flag = Flag(min: real, max: real, inOpt: bool)

  /** What the parameter table hands back for one registry row: the current
      value, the bounds and the checkbox. */
  datatype Reading = Reading(value: real, min: real, max: real, inOpt: bool)

  const Parameters: seq<Param> := [
    Param("capex_mw_yr", "CAPEX [$/Mw/yr]", 3242.0, 0.0, 999999999.0, true),
    Param("opex_mw_yr", "OPEX [$/Mw/yr]", 90000.0, 0.0, 999999999.0, true),
    Param("annual_h2_prod", "Annual H2 Production [Kg/yr]", 876000.0, 0.0, 999999999.0, false),
    Param("plant_size_mw", "Plant Size [Mw]", 100.0, 0.0, 999999.0, false),
    Param("plant_life", "Plant Lifetime [yr]", 20.0, 1.0, 30.0, false),
    Param("discount_rate", "Discount rate [%]", 5.0, 0.0, 15.0, false),
    Param("capacity_factor", "Capacity Factor [%]", 90.0, 0.0, 100.0, true),
    Param("h2_efficiency_1", "H2 Efficiency [kWh/kg] (1)", 50.0, 0.0, 9999.0, false),
    Param("h2_efficiency_2", "H2 Efficiency [kWh/kg] (2)", 70.0, 0.0, 9999.0, false),
    Param("electricity_cost", "Electricity Cost [$/Mwh]", 3.0, 1.0, 700.0, true),
    Param("crf", "CRF", 0.094392926, 0.0, 1.0, false),
    Param("dcf_factor", "DCF factor", 10.59401425, 0.0, 999999.0, false),
    Param("h2_selling_price", "H2 Selling Price [$/kg]", 3.5, 0.0, 999999.0, true),
    Param("carbon_tax", "Carbon Tax [$/ton co2]", 0.0, 0.0, 999999.0, true),
    Param("tax_credit", "Tax Credit [$/kgH2]", 0.0, 0.0, 999999.0, true),
    Param("h2_storage_cost", "Hydrogen Storage Cost [$/kg]", 1.0, 1.0, 700.0, false),
    Param("h2_transport_cost", "Hydrogen Transportation Cost [$/kg]", 0.0, 0.0, 999999.0, false)
  ]

  /** The keys of `ps`, in order. */
  function KeysOf(ps: seq<Param>): (keys: seq<string>)
    ensures |keys| == |ps|
    ensures forall i | 0 <= i < |ps| :: keys[i] == ps[i].key
  {
    seq(|ps|, i requires 0 <= i < |ps| => ps[i].key)
  }

  /** No two registry entries share a key. */
  lemma RegistryKeysDistinct()
    ensures Distinct(KeysOf(Parameters))
  {
  }

  /** Every default lies within its entry's range. */
  lemma DefaultsInRange()
    ensures forall i | 0 <= i < |Parameters| ::
      Parameters[i].minValue <= Parameters[i].defaultValue <= Parameters[i].maxValue
  {
  }

  /** Every key the engine reads is a registry key: the `i`-th engine key is
      the registry entry at `i`, or at `i + 1` past `plant_size_mw`, the one
      entry the engine never reads. */
  lemma EngineKeysRegistered()
    ensures forall i | 0 <= i < |EngineKeys| ::
      EngineKeys[i] == Parameters[if i < 3 then i else i + 1].key
    ensures forall i | 0 <= i < |EngineKeys| :: EngineKeys[i] in KeysOf(Parameters)
  {
    assert forall i | 0 <= i < |EngineKeys| ::
      EngineKeys[i] == KeysOf(Parameters)[if i < 3 then i else i + 1];
  }

  // ---------------------------------------------------------------------------
  // The session filled from the parameter table
  // ---------------------------------------------------------------------------

  /** The values read from the table, row by row. */
  function ValuesOf(readings: seq<Reading>): (vs: seq<real>)
    ensures |vs| == |readings|
    ensures forall i | 0 <= i < |readings| :: vs[i] == readings[i].value
  {
    seq(|readings|, i requires 0 <= i < |readings| => readings[i].value)
  }

  /** The optimization settings read from the table, row by row. */
  function FlagsOf(readings: seq<Reading>): (fs: seq<Flag>)
    ensures |fs| == |readings|
    ensures forall i | 0 <= i < |readings| ::
      fs[i] == Flag(readings[i].min, readings[i].max, readings[i].inOpt)
  {
    seq(|readings|, i requires 0 <= i < |readings| =>
      Flag(readings[i].min, readings[i].max, readings[i].inOpt))
  }

  /** `user_values` once the table has been read: the row values written
      under the registry keys, in registry order, starting from nothing. */
  function SessionValues(readings: seq<Reading>): (userValues: map<string, real>)
    requires |readings| == |Parameters|
  {
    Overlaid(map[], KeysOf(Parameters), ValuesOf(readings))
  }

  /** `opt_flags` once the table has been read. */
  function SessionFlags(readings: seq<Reading>): (optFlags: map<string, Flag>)
    requires |readings| == |Parameters|
  {
    Overlaid(map[], KeysOf(Parameters), FlagsOf(readings))
  }

  /** The row-by-row loop that fills `user_values` and `opt_flags`. The
      registry is passed in; the source reads it as a global. */
  method CollectSession(registry: seq<Param>, readings: seq<Reading>)
    returns (userValues: map<string, real>, optFlags: map<string, Flag>)
    requires |readings| == |registry|
    ensures userValues == Overlaid(map[], KeysOf(registry), ValuesOf(readings))
    ensures optFlags == Overlaid(map[], KeysOf(registry), FlagsOf(readings))
    ensures registry == Parameters ==>
      userValues == SessionValues(readings) && optFlags == SessionFlags(readings)
  {
    var keys, values, flags := KeysOf(registry), ValuesOf(readings), FlagsOf(readings);
    userValues, optFlags := map[], map[];
    for i := 0 to |keys|
      invariant userValues == Overlaid(map[], keys[..i], values)
      invariant optFlags == Overlaid(map[], keys[..i], flags)
    {
      assert keys[..i + 1][..i] == keys[..i];
      var r := readings[i];
      userValues := userValues[keys[i] := r.value];
      optFlags := optFlags[keys[i] := Flag(r.min, r.max, r.inOpt)];
    }
    assert keys[..|keys|] == keys;
  }

  /** Every key of `ps` has a current value and optimization settings. */
  predicate SessionCovers(ps: seq<Param>, userValues: map<string, real>, optFlags: map<string, Flag>)
  {
    forall i | 0 <= i < |ps| :: ps[i].key in userValues && ps[i].key in optFlags
  }

  /** A filled session holds every registry key, row values under their own
      keys, and is therefore a complete assignment for the engine. */
  lemma SessionIsComplete(readings: seq<Reading>)
    requires |readings| == |Parameters|
    ensures forall i | 0 <= i < |Parameters| ::
      && Parameters[i].key in SessionValues(readings)
      && SessionValues(readings)[Parameters[i].key] == readings[i].value
      && Parameters[i].key in SessionFlags(readings)
      && SessionFlags(readings)[Parameters[i].key] == Flag(readings[i].min, readings[i].max, readings[i].inOpt)
    ensures SessionCovers(Parameters, SessionValues(readings), SessionFlags(readings))
    ensures Complete(SessionValues(readings))
  {
    RegistryKeysDistinct();
    EngineKeysRegistered();
    OverlaidDistinct(map[], KeysOf(Parameters), ValuesOf(readings));
    OverlaidDistinct(map[], KeysOf(Parameters), FlagsOf(readings));
    var vals := SessionValues(readings);
    forall i | 0 <= i < |EngineKeys|
      ensures EngineKeys[i] in vals
    {
      var j := if i < 3 then i else i + 1;
      assert EngineKeys[i] == Parameters[j].key;
    }
  }

  /** The table as first shown: every row at its registry default. */
  function DefaultReadings(): (rs: seq<Reading>)
    ensures |rs| == |Parameters|
  {
    seq(|Parameters|, i requires 0 <= i < |Parameters| =>
      Reading(Parameters[i].defaultValue, Parameters[i].minValue,
              Parameters[i].maxValue, Parameters[i].inOptimization))
  }

  /** The engine inputs of the table as first shown. */
  lemma DefaultInputs()
    ensures Complete(SessionValues(DefaultReadings()))
    ensures InputsOf(SessionValues(DefaultReadings()))
         == DefaultEngineInputs
  {
    var rs := DefaultReadings();
    var vals := SessionValues(rs);
    SessionIsComplete(rs);
    EngineKeysRegistered();
    forall i | 0 <= i < |EngineKeys|
      ensures Read(vals, i) == Parameters[if i < 3 then i else i + 1].defaultValue
    {
      var j := if i < 3 then i else i + 1;
      assert vals[Parameters[j].key] == rs[j].value;
    }
  }

  /** The registry defaults as engine inputs. */
  const DefaultEngineInputs: Inputs :=
    Inputs(3242.0, 90000.0, 876000.0, 20.0, 0.05, 0.9, 50.0, 70.0,
           3.0, 0.094392926, 10.59401425, 3.5, 0.0, 0.0, 1.0, 0.0)

  /** The metrics of the defaults: CAPEX about 0.000349 $/kg, OPEX about
      0.10274 $/kg, electricity exactly 0.36 $/kg and LCOH about 1.4631 $/kg,
      below the 3.5 $/kg selling price. */
  lemma DefaultMetrics()
    ensures var m := Evaluate(DefaultEngineInputs);
      && 0.000349 < m.capexPerKg < 0.000350
      && 0.10273 < m.opexPerKg < 0.10275
      && m.elecPerKg == 0.36
      && 1.4630 < m.lcoh < 1.4632
      && m.moneyCheck == Money
  {
    var inp := DefaultEngineInputs;
    var m := Evaluate(inp);
    assert GuardedProduction(inp.annualProd) == 876000.0;
    assert m.capexPerKg == 306.021866092 / 876000.0;
    assert m.opexPerKg == 90000.0 / 876000.0;
    assert m.elecPerKg == 0.36;
  }

  /** The table as first shown evaluates to the metrics above: "Money". */
  lemma DefaultEvaluation(vals: map<string, real>)
    requires vals == SessionValues(DefaultReadings())
    ensures var r := CalculateModel(vals);
      && r.Success?
      && 0.000349 < r.value.capexPerKg < 0.000350
      && 0.10273 < r.value.opexPerKg < 0.10275
      && r.value.elecPerKg == 0.36
      && 1.4630 < r.value.lcoh < 1.4632
      && r.value.moneyCheck == Money
  {
    assert CalculateModel(vals) == Success(Evaluate(DefaultEngineInputs)) by {
      DefaultInputs();
    }
    DefaultMetrics();
  }
}
