/** The valuation engine `calculate_model`: a total, side-effect-free map from
    a parameter assignment to the per-kg cost components, the levelized cost of
    hydrogen (LCOH), the "Money / No Money" flag and the dollar metrics.
    Arithmetic is over exact reals. */
module Engine {
  import opened Support

  /** The feasibility flag; `Label` is the text the source stores. */
  datatype MoneyCheck = Money | NoMoney {
    function Label(): string
    {
      match this
      case Money => "Money"
      case NoMoney => "No Money"
    }
  }

  /** The values the engine reads, in the units it uses them in.
      `discountRate` and `capFactor` are already divided by 100; `plantLife`,
      `discountRate` and `capFactor` are carried but enter no output. */
  datatype Inputs = Inputs(
    capexYr: real, opexYr: real, annualProd: real, plantLife: real,
    discountRate: real, capFactor: real, eff1: real, eff2: real,
    elecCost: real, crf: real, dcfFactor: real, h2Price: real,
    carbonTaxTon: real, taxCredit: real, storageCost: real, transportCost: real)

  /** The record the engine returns. */
  datatype Metrics = Metrics(
    capexPerKg: real, opexPerKg: real, elecPerKg: real, carbonTaxPerKg: real,
    lcoh: real, moneyCheck: MoneyCheck,
    revenue: real, cost: real, profit: real, npv: real, payback: real, roi: real)

  /** The production volume substituted when the input is not positive. */
  const ProductionFloor: real := 1e-9

  /** The divisor actually used for the per-kg figures and the dollar totals. */
  function GuardedProduction(annualProd: real): (p: real)
    ensures p > 0.0
    ensures p == annualProd || (annualProd <= 0.0 && p == ProductionFloor)
  {
    if annualProd <= 0.0 then ProductionFloor else annualProd
  }

  /** The formulas of `calculate_model`. Every division below is by the
      guarded production (positive) or by a non-zero literal, or sits behind
      the `cost != 0` test; Dafny checks that no divisor can be zero. */
  function Evaluate(inp: Inputs): (m: Metrics)
  {
    var prod := GuardedProduction(inp.annualProd);
    var capexPerKg := (inp.capexYr * inp.crf) / prod;
    var opexPerKg := inp.opexYr / prod;
    var elecPerKg := (inp.eff1 + inp.eff2) * (inp.elecCost / 1000.0);
    var carbonTaxPerKg := inp.carbonTaxTon / 1000.0;
    var lcoh := capexPerKg + opexPerKg + elecPerKg + carbonTaxPerKg
                + inp.storageCost + inp.transportCost - inp.taxCredit;
    var moneyCheck := if lcoh < inp.h2Price then Money else NoMoney;
    var revenue := inp.h2Price * prod;
    var cost := lcoh * prod;
    var profit := revenue - cost;
    var npv := profit * inp.dcfFactor;
    var roi := if cost != 0.0 then (profit / cost) * 100.0 else 0.0;
    var payback := if profit > 0.0 then 5.0 else 0.0;
    Metrics(capexPerKg, opexPerKg, elecPerKg, carbonTaxPerKg, lcoh, moneyCheck,
            revenue, cost, profit, npv, payback, roi)
  }

  // ---------------------------------------------------------------------------
  // Reading the assignment
  // ---------------------------------------------------------------------------

  /** The keys `calculate_model` looks up, in the order it looks them up. */
  const EngineKeys: seq<string> := [
    "capex_mw_yr", "opex_mw_yr", "annual_h2_prod", "plant_life",
    "discount_rate", "capacity_factor", "h2_efficiency_1", "h2_efficiency_2",
    "electricity_cost", "crf", "dcf_factor", "h2_selling_price",
    "carbon_tax", "tax_credit", "h2_storage_cost", "h2_transport_cost"]

  /** The assignment holds every key the engine reads. */
  predicate Complete(vals: map<string, real>)
  {
    forall i | 0 <= i < |EngineKeys| :: EngineKeys[i] in vals
  }

  /** The position of the first key of `keys` that `vals` lacks, if any. */
  function FirstMissing(keys: seq<string>, vals: map<string, real>): (r: Option<nat>)
    ensures r.None? <==> forall i | 0 <= i < |keys| :: keys[i] in vals
    ensures r.Some? ==> r.value < |keys| && keys[r.value] !in vals
    ensures r.Some? ==> forall j | 0 <= j < r.value :: keys[j] in vals
    decreases |keys|
  {
    if keys == [] then None
    else if keys[0] !in vals then Some(0)
    else
      match FirstMissing(keys[1..], vals)
      case None => None
      case Some(i) => Some(i + 1)
  }

  /** The value stored under the `i`-th engine key. */
  function Read(vals: map<string, real>, i: nat): real
    requires Complete(vals) && i < |EngineKeys|
  {
    vals[EngineKeys[i]]
  }

  /** The engine's inputs taken from a complete assignment, with the two
      percentage parameters converted to fractions. */
  function InputsOf(vals: map<string, real>): (inp: Inputs)
    requires Complete(vals)
  {
    Inputs(
      capexYr := Read(vals, 0), opexYr := Read(vals, 1),
      annualProd := Read(vals, 2), plantLife := Read(vals, 3),
      discountRate := Read(vals, 4) / 100.0, capFactor := Read(vals, 5) / 100.0,
      eff1 := Read(vals, 6), eff2 := Read(vals, 7),
      elecCost := Read(vals, 8), crf := Read(vals, 9),
      dcfFactor := Read(vals, 10), h2Price := Read(vals, 11),
      carbonTaxTon := Read(vals, 12), taxCredit := Read(vals, 13),
      storageCost := Read(vals, 14), transportCost := Read(vals, 15))
  }

  /** `calculate_model(vals)`: fails exactly when a key it reads is missing,
      naming the first such key in its reading order; otherwise it yields the
      metrics of the values it read. */
  function CalculateModel(vals: map<string, real>): (r: Result<Metrics>)
    ensures r.Success? <==> Complete(vals)
    ensures r.Failure? ==> exists i | 0 <= i < |EngineKeys| ::
              EngineKeys[i] == r.error && r.error !in vals &&
              forall j | 0 <= j < i :: EngineKeys[j] in vals
    ensures r.Success? ==> r.value == Evaluate(InputsOf(vals))
  {
    match FirstMissing(EngineKeys, vals)
    case Some(i) => Failure(EngineKeys[i])
    case None => Success(Evaluate(InputsOf(vals)))
  }

  // ---------------------------------------------------------------------------
  // Properties of the formulas
  // ---------------------------------------------------------------------------

  lemma SignOfProduct(a: real, p: real)
    requires p > 0.0
    ensures a * p > 0.0 <==> a > 0.0
    ensures a * p == 0.0 <==> a == 0.0
  {
    if a > 0.0 {
      assert a * p > 0.0;
    } else if a < 0.0 {
      assert (-a) * p > 0.0;
    }
  }

  /** Per-kg figures times the guarded production give back the annual
      amounts they were derived from; the production used everywhere is the
      guarded one, which is positive. */
  lemma PerKgRecoversAnnual(inp: Inputs)
    ensures var m, p := Evaluate(inp), GuardedProduction(inp.annualProd);
      && p > 0.0
      && m.capexPerKg * p == inp.capexYr * inp.crf
      && m.opexPerKg * p == inp.opexYr
      && m.revenue == inp.h2Price * p
      && m.cost == m.lcoh * p
  {
  }

  /** A non-positive production volume is treated as the floor value 1e-9. */
  lemma NonPositiveProductionUsesFloor(inp: Inputs)
    requires inp.annualProd <= 0.0
    ensures Evaluate(inp) == Evaluate(inp.(annualProd := ProductionFloor))
  {
  }

  /** The unit conversions of the electricity and carbon-tax components, and
      LCOH as the sum of the per-kg components minus the tax credit. */
  lemma LcohDecomposition(inp: Inputs)
    ensures var m := Evaluate(inp);
      && m.elecPerKg * 1000.0 == (inp.eff1 + inp.eff2) * inp.elecCost
      && m.carbonTaxPerKg * 1000.0 == inp.carbonTaxTon
      && m.lcoh == m.capexPerKg + m.opexPerKg + m.elecPerKg + m.carbonTaxPerKg
                   + inp.storageCost + inp.transportCost - inp.taxCredit
  {
  }

  /** The annual cost splits into the annualised CAPEX, the OPEX, and the
      volume-proportional per-kg costs. */
  lemma CostDecomposition(inp: Inputs)
    ensures var m, p := Evaluate(inp), GuardedProduction(inp.annualProd);
      m.cost == inp.capexYr * inp.crf + inp.opexYr
                + (m.elecPerKg + m.carbonTaxPerKg + inp.storageCost
                   + inp.transportCost - inp.taxCredit) * p
  {
    var m, p := Evaluate(inp), GuardedProduction(inp.annualProd);
    var rest := m.elecPerKg + m.carbonTaxPerKg + inp.storageCost + inp.transportCost - inp.taxCredit;
    PerKgRecoversAnnual(inp);
    calc {
      m.cost;
      (m.capexPerKg + m.opexPerKg + rest) * p;
      m.capexPerKg * p + m.opexPerKg * p + rest * p;
      inp.capexYr * inp.crf + inp.opexYr + rest * p;
    }
  }

  /** Profit is the unit margin times the guarded volume, and NPV is that
      profit scaled by the single DCF factor. */
  lemma NpvIsMarginTimesVolume(inp: Inputs)
    ensures var m, p := Evaluate(inp), GuardedProduction(inp.annualProd);
      && m.profit == m.revenue - m.cost
      && m.profit == (inp.h2Price - m.lcoh) * p
      && m.npv == m.profit * inp.dcfFactor
      && m.npv == (inp.h2Price - m.lcoh) * p * inp.dcfFactor
  {
    var m, p := Evaluate(inp), GuardedProduction(inp.annualProd);
    assert m.profit == inp.h2Price * p - m.lcoh * p;
    assert m.profit == (inp.h2Price - m.lcoh) * p;
  }

  /** "Money" exactly when LCOH is below the selling price, which is exactly
      when the profit is positive, which is exactly when the placeholder
      payback is 5 years; otherwise the payback is 0. */
  lemma MoneyIffProfitable(inp: Inputs)
    ensures var m := Evaluate(inp);
      && (m.moneyCheck == Money <==> m.lcoh < inp.h2Price)
      && (m.moneyCheck == Money <==> m.profit > 0.0)
      && (m.payback == 5.0 <==> m.profit > 0.0)
      && (m.payback == 0.0 || m.payback == 5.0)
  {
    var m, p := Evaluate(inp), GuardedProduction(inp.annualProd);
    NpvIsMarginTimesVolume(inp);
    SignOfProduct(inp.h2Price - m.lcoh, p);
  }

  /** With a positive DCF factor, NPV is positive exactly when the flag says
      "Money". */
  lemma NpvPositiveIffMoney(inp: Inputs)
    requires inp.dcfFactor > 0.0
    ensures var m := Evaluate(inp);
      m.npv > 0.0 <==> m.moneyCheck == Money
  {
    var m, p := Evaluate(inp), GuardedProduction(inp.annualProd);
    MoneyIffProfitable(inp);
    NpvIsMarginTimesVolume(inp);
    SignOfProduct(m.profit, inp.dcfFactor);
  }

  /** ROI is 0 in the `cost == 0` case, which is the `lcoh == 0` case;
      otherwise it is the profit as a percentage of the cost, which is
      the unit margin as a percentage of LCOH, whatever the volume. */
  lemma RoiIsMarginOverLcoh(inp: Inputs)
    ensures var m := Evaluate(inp);
      && (m.cost == 0.0 <==> m.lcoh == 0.0)
      && (m.cost == 0.0 ==> m.roi == 0.0)
      && (m.cost != 0.0 ==> m.roi * m.cost == m.profit * 100.0)
      && (m.lcoh != 0.0 ==> m.roi == (inp.h2Price - m.lcoh) / m.lcoh * 100.0)
  {
    var m, p := Evaluate(inp), GuardedProduction(inp.annualProd);
    SignOfProduct(m.lcoh, p);
    NpvIsMarginTimesVolume(inp);
    if m.lcoh != 0.0 {
      var q := (inp.h2Price - m.lcoh) / m.lcoh;
      assert q * m.lcoh == inp.h2Price - m.lcoh;
      assert m.profit == q * m.cost by {
        calc {
          m.profit;
          (inp.h2Price - m.lcoh) * p;
          (q * m.lcoh) * p;
          q * (m.lcoh * p);
          q * m.cost;
        }
      }
      assert m.profit / m.cost == q;
    }
  }

  /** Plant life, discount rate and capacity factor are read but change no
      output. */
  lemma UnusedInputsIgnored(inp: Inputs, life: real, rate: real, factor: real)
    ensures Evaluate(inp) == Evaluate(inp.(plantLife := life, discountRate := rate, capFactor := factor))
  {
  }
}
