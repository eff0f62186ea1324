/**
 The week-long control comparison of `simulate_control` and the totals of
 `plot_results`: each step's energy is a tenth of the gap between setpoint
 and outdoor temperature, for the MLP's setpoints, the padded LSTM
 setpoints and a constant 22 degree baseline; totals are summed and each
 model's savings are stated as a percentage of the baseline total.
 */
module ControlSimulation {
  import opened Common
  import SequenceAlignment

  const BaselineSetpoint: real := 22.0

  /** Simplified per-step energy: proportional to the setpoint-outdoor gap. */
  function SimplifiedEnergy(setpoint: real, outdoor: real): (e: real)
    ensures e >= 0.0
    ensures e == 0.0 <==> setpoint == outdoor
  {
    Abs(setpoint - outdoor) * 0.1
  }

  /** The column of per-step energies for a column of setpoints. */
  function StepEnergies(setpoints: seq<real>, outdoor: seq<real>): (e: seq<real>)
    requires |setpoints| == |outdoor|
    ensures |e| == |outdoor|
    ensures forall i :: 0 <= i < |e| ==> e[i] == SimplifiedEnergy(setpoints[i], outdoor[i])
    ensures forall i :: 0 <= i < |e| ==> e[i] >= 0.0 && (e[i] == 0.0 <==> setpoints[i] == outdoor[i])
  {
    seq(|outdoor|, i requires 0 <= i < |outdoor| => SimplifiedEnergy(setpoints[i], outdoor[i]))
  }

  /** The columns `simulate_control` adds to the simulation frame. */
  datatype SimulationFrame = SimulationFrame(
    outdoor: seq<real>,
    mlpSetpoint: seq<real>,
    lstmSetpoint: seq<real>,
    mlpEnergy: seq<real>,
    lstmEnergy: seq<real>,
    baselineEnergy: seq<real>
  )

  /** The selected window of outdoor temperatures with both models'
      predictions attached: the MLP predicts one setpoint per row, the LSTM's
      fewer predictions are padded to the window's length. */
  function SimulateControl(outdoor: seq<real>, mlpPreds: seq<real>, lstmPreds: seq<real>): (f: SimulationFrame)
    requires |mlpPreds| == |outdoor|
    requires |lstmPreds| >= 1 || |outdoor| == 0
    ensures f.outdoor == outdoor && f.mlpSetpoint == mlpPreds
    ensures f.lstmSetpoint == SequenceAlignment.PadPredictions(lstmPreds, |outdoor|)
    ensures |f.mlpEnergy| == |f.lstmEnergy| == |f.baselineEnergy| == |outdoor|
    ensures forall i :: 0 <= i < |outdoor| ==>
      f.mlpEnergy[i] == SimplifiedEnergy(mlpPreds[i], outdoor[i]) &&
      f.lstmEnergy[i] == SimplifiedEnergy(f.lstmSetpoint[i], outdoor[i]) &&
      f.baselineEnergy[i] == SimplifiedEnergy(BaselineSetpoint, outdoor[i])
  {
    var lstmSetpoint := SequenceAlignment.PadPredictions(lstmPreds, |outdoor|);
    SimulationFrame(
      outdoor, mlpPreds, lstmSetpoint,
      StepEnergies(mlpPreds, outdoor),
      StepEnergies(lstmSetpoint, outdoor),
      StepEnergies(Constant(|outdoor|, BaselineSetpoint), outdoor))
  }

  datatype EnergyTotals = EnergyTotals(mlp: real, lstm: real, baseline: real)

  /** The three totals `plot_results` returns. A column of non-negative
      energies has a non-negative total, and the baseline total is zero
      exactly when every baseline step is. */
  function Totals(f: SimulationFrame): (t: EnergyTotals)
    ensures (forall i :: 0 <= i < |f.mlpEnergy| ==> f.mlpEnergy[i] >= 0.0) ==> t.mlp >= 0.0
    ensures (forall i :: 0 <= i < |f.lstmEnergy| ==> f.lstmEnergy[i] >= 0.0) ==> t.lstm >= 0.0
    ensures (forall i :: 0 <= i < |f.baselineEnergy| ==> f.baselineEnergy[i] >= 0.0) ==>
      t.baseline >= 0.0 &&
      (t.baseline == 0.0 <==> forall i :: 0 <= i < |f.baselineEnergy| ==> f.baselineEnergy[i] == 0.0)
  {
    SumOfNonNegative(f.mlpEnergy);
    SumOfNonNegative(f.lstmEnergy);
    SumOfNonNegative(f.baselineEnergy);
    EnergyTotals(Sum(f.mlpEnergy), Sum(f.lstmEnergy), Sum(f.baselineEnergy))
  }

  /** Percentage of the baseline total a model saves; not clipped, so a model
      that uses more than the baseline has negative savings. */
  function Savings(modelTotal: real, baselineTotal: real): (r: real)
    requires baselineTotal != 0.0
    ensures r * baselineTotal == (baselineTotal - modelTotal) * 100.0
    ensures r == 0.0 <==> modelTotal == baselineTotal
    ensures modelTotal == 0.0 ==> r == 100.0
  {
    (1.0 - modelTotal / baselineTotal) * 100.0
  }

  // ---------------------------------------------------------------------
  // Properties

  /** Savings are negative exactly when the model uses more than the baseline,
      zero exactly when it uses the same, and never above 100 for a
      non-negative model total. */
  lemma SavingsSign(modelTotal: real, baselineTotal: real)
    requires baselineTotal > 0.0
    ensures Savings(modelTotal, baselineTotal) < 0.0 <==> modelTotal > baselineTotal
    ensures Savings(modelTotal, baselineTotal) == 0.0 <==> modelTotal == baselineTotal
    ensures modelTotal >= 0.0 ==> Savings(modelTotal, baselineTotal) <= 100.0
  {
    var r := Savings(modelTotal, baselineTotal);
    ScaleByPositive(r, 0.0, baselineTotal);
    ScaleByPositive(r, 100.0, baselineTotal);
  }

  /** Multiplying by a positive factor keeps order and equality. */
  lemma ScaleByPositive(x: real, y: real, b: real)
    requires b > 0.0
    ensures x < y <==> x * b < y * b
    ensures x == y <==> x * b == y * b
  {
    assert x * b - y * b == (x - y) * b;
  }

  /** Every energy of a simulated frame is non-negative, so are the totals,
      and the baseline total is positive exactly when some outdoor
      temperature differs from the 22 degree baseline. */
  lemma TotalsNonNegative(outdoor: seq<real>, mlpPreds: seq<real>, lstmPreds: seq<real>)
    requires |mlpPreds| == |outdoor|
    requires |lstmPreds| >= 1 || |outdoor| == 0
    ensures var t := Totals(SimulateControl(outdoor, mlpPreds, lstmPreds));
      t.mlp >= 0.0 && t.lstm >= 0.0 && t.baseline >= 0.0 &&
      (t.baseline > 0.0 <==> exists i :: 0 <= i < |outdoor| && outdoor[i] != BaselineSetpoint)
  {
    var f := SimulateControl(outdoor, mlpPreds, lstmPreds);
    SumNonNegative(f.mlpEnergy);
    SumNonNegative(f.lstmEnergy);
    SumNonNegative(f.baselineEnergy);
    SumZeroIff(f.baselineEnergy);
  }

  /** A model whose every setpoint is at least as close to the outdoor
      temperature as the baseline's never shows negative savings. */
  lemma CloserSetpointsSave(outdoor: seq<real>, setpoints: seq<real>)
    requires |setpoints| == |outdoor|
    requires forall i :: 0 <= i < |outdoor| ==>
      Abs(setpoints[i] - outdoor[i]) <= Abs(BaselineSetpoint - outdoor[i])
    requires exists i :: 0 <= i < |outdoor| && outdoor[i] != BaselineSetpoint
    ensures var baseline := Sum(StepEnergies(Constant(|outdoor|, BaselineSetpoint), outdoor));
      baseline > 0.0 && Savings(Sum(StepEnergies(setpoints, outdoor)), baseline) >= 0.0
  {
    var model := StepEnergies(setpoints, outdoor);
    var base := StepEnergies(Constant(|outdoor|, BaselineSetpoint), outdoor);
    SumNonNegative(base);
    SumZeroIff(base);
    SumMonotone(model, base);
    SumNonNegative(model);
    SavingsSign(Sum(model), Sum(base));
  }
}
