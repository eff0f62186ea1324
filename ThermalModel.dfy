/**
 The single-zone lumped-capacitance energy model of
 `calculate_energy_consumption`: for every time step after the first, the
 indoor temperature drifts toward the outdoor temperature, the HVAC system
 corrects it to the step's setpoint, and the energy charged is the
 correction scaled by the heat capacity and the heating or cooling COP.
 */
module ThermalModel {
  import opened Common

  /** The `building_params` dictionary. */
  datatype BuildingParams = BuildingParams(
    heatCapacity: real,         // kWh per degree
    heatLossCoefficient: real,  // kW per degree
    copHeating: real,
    copCooling: real,
    timeStep: real              // hours
  )

  /** The three quantities the recurrence divides by are non-zero. */
  predicate Divisible(p: BuildingParams)
  {
    p.heatCapacity != 0.0 && p.copHeating != 0.0 && p.copCooling != 0.0
  }

  /** Every building parameter is positive, as a physical building has them. */
  predicate Physical(p: BuildingParams)
  {
    p.heatCapacity > 0.0 && p.heatLossCoefficient > 0.0 &&
    p.copHeating > 0.0 && p.copCooling > 0.0 && p.timeStep > 0.0
  }

  /** Indoor temperature after one step with the HVAC system off. */
  function NaturalIndoor(p: BuildingParams, indoor: real, outdoor: real): (t: real)
    requires p.heatCapacity != 0.0
    ensures Physical(p) && indoor < outdoor ==> indoor < t
    ensures Physical(p) && outdoor < indoor ==> t < indoor
    ensures outdoor == indoor ==> t == indoor
  {
    indoor + (outdoor - indoor) * p.heatLossCoefficient / p.heatCapacity * p.timeStep
  }

  /** Energy charged for a required temperature change `delta`: heating when
      `delta` is strictly positive, cooling otherwise. */
  function ConditioningEnergy(p: BuildingParams, delta: real): (e: real)
    requires Divisible(p)
    ensures Physical(p) ==> e >= 0.0
    ensures Physical(p) ==> (e == 0.0 <==> delta == 0.0)
  {
    if delta > 0.0 then p.heatCapacity * delta / p.copHeating
    else p.heatCapacity * Abs(delta) / p.copCooling
  }

  /** Temperature change the HVAC system must supply at a step whose previous
      indoor temperature was `prevIndoor`. */
  function RequiredChange(p: BuildingParams, prevIndoor: real, prevOutdoor: real, setpoint: real): real
    requires p.heatCapacity != 0.0
  {
    setpoint - NaturalIndoor(p, prevIndoor, prevOutdoor)
  }

  /** What the recurrence's inputs must satisfy: at least one setpoint (step 0
      is read unconditionally) and an outdoor temperature for every step but
      the last. */
  predicate Admissible(setpoints: seq<real>, outdoor: seq<real>, p: BuildingParams)
  {
    |setpoints| >= 1 && |outdoor| >= |setpoints| - 1 && Divisible(p)
  }

  /** The energy of step `i >= 1` in closed form: since the indoor temperature
      of step `i - 1` is that step's setpoint, it depends only on
      `setpoints[i - 1]`, `outdoor[i - 1]` and `setpoints[i]`. */
  function StepEnergy(setpoints: seq<real>, outdoor: seq<real>, p: BuildingParams, i: nat): real
    requires Admissible(setpoints, outdoor, p)
    requires 1 <= i < |setpoints|
  {
    ConditioningEnergy(p, RequiredChange(p, setpoints[i - 1], outdoor[i - 1], setpoints[i]))
  }

  /** The whole energy sequence in closed form; step 0 costs nothing. */
  function EnergyProfile(setpoints: seq<real>, outdoor: seq<real>, p: BuildingParams): (e: seq<real>)
    requires Admissible(setpoints, outdoor, p)
    ensures |e| == |setpoints|
    ensures e[0] == 0.0
  {
    seq(|setpoints|, i requires 0 <= i < |setpoints| =>
      if i == 0 then 0.0 else StepEnergy(setpoints, outdoor, p, i))
  }

  /**
   `calculate_energy_consumption`: the recurrence over the energy and
   indoor-temperature arrays as the source runs it. Each step reads the
   previous indoor temperature from the array; the loop keeps the invariant
   that every indoor temperature written so far equals its setpoint, which
   is what makes the result equal to the closed form.
   */
  method CalculateEnergyConsumption(setpoints: seq<real>, outdoor: seq<real>, p: BuildingParams)
    returns (energy: seq<real>)
    requires Admissible(setpoints, outdoor, p)
    ensures energy == EnergyProfile(setpoints, outdoor, p)
  {
    var n := |setpoints|;
    var e := new real[n](_ => 0.0);
    var indoor := new real[n](_ => setpoints[0]);
    for i := 1 to n
      invariant forall j :: 0 <= j < i ==> indoor[j] == setpoints[j]
      invariant e[0] == 0.0
      invariant forall j :: 1 <= j < i ==> e[j] == StepEnergy(setpoints, outdoor, p, j)
    {
      var naturalChange := (outdoor[i - 1] - indoor[i - 1]) * p.heatLossCoefficient / p.heatCapacity * p.timeStep;
      var naturalIndoor := indoor[i - 1] + naturalChange;
      var required := setpoints[i] - naturalIndoor;
      StepCharges(p, indoor[i - 1], outdoor[i - 1], setpoints[i], required);
      if required > 0.0 {
        e[i] := p.heatCapacity * required / p.copHeating;
      } else {
        e[i] := p.heatCapacity * Abs(required) / p.copCooling;
      }
      indoor[i] := setpoints[i];
    }
    energy := e[..];
    assert forall j :: 0 <= j < n ==> energy[j] == EnergyProfile(setpoints, outdoor, p)[j];
  }

  /** One step of the loop charges the closed-form energy of that step. */
  lemma StepCharges(p: BuildingParams, prevIndoor: real, prevOutdoor: real, setpoint: real, required: real)
    requires Divisible(p)
    requires required == setpoint - (prevIndoor + (prevOutdoor - prevIndoor) * p.heatLossCoefficient / p.heatCapacity * p.timeStep)
    ensures required > 0.0 ==>
      p.heatCapacity * required / p.copHeating == ConditioningEnergy(p, RequiredChange(p, prevIndoor, prevOutdoor, setpoint))
    ensures required <= 0.0 ==>
      p.heatCapacity * Abs(required) / p.copCooling == ConditioningEnergy(p, RequiredChange(p, prevIndoor, prevOutdoor, setpoint))
  {
    assert RequiredChange(p, prevIndoor, prevOutdoor, setpoint) == required;
  }

  // ---------------------------------------------------------------------
  // Properties of the closed form

  /** A single setpoint yields `[0]`: the loop body never runs. */
  lemma SingleStep(setpoint: real, outdoor: seq<real>, p: BuildingParams)
    requires Divisible(p)
    ensures EnergyProfile([setpoint], outdoor, p) == [0.0]
  {
  }

  /** With physical parameters no step has negative energy, and a step is free
      exactly when the natural drift already lands on its setpoint. */
  lemma EnergyNonNegative(setpoints: seq<real>, outdoor: seq<real>, p: BuildingParams)
    requires Admissible(setpoints, outdoor, p) && Physical(p)
    ensures forall i :: 0 <= i < |setpoints| ==> EnergyProfile(setpoints, outdoor, p)[i] >= 0.0
    ensures forall i :: 1 <= i < |setpoints| ==>
      (EnergyProfile(setpoints, outdoor, p)[i] == 0.0 <==>
       setpoints[i] == NaturalIndoor(p, setpoints[i - 1], outdoor[i - 1]))
  {
    var e := EnergyProfile(setpoints, outdoor, p);
    forall i | 1 <= i < |setpoints|
      ensures e[i] >= 0.0
      ensures e[i] == 0.0 <==> setpoints[i] == NaturalIndoor(p, setpoints[i - 1], outdoor[i - 1])
    {
      assert e[i] == StepEnergy(setpoints, outdoor, p, i);
    }
  }

  /** The branch split is strict: positive required change is charged at the
      heating COP, zero or negative at the cooling COP. */
  lemma BranchSplit(setpoints: seq<real>, outdoor: seq<real>, p: BuildingParams, i: nat)
    requires Admissible(setpoints, outdoor, p)
    requires 1 <= i < |setpoints|
    ensures var delta := setpoints[i] - NaturalIndoor(p, setpoints[i - 1], outdoor[i - 1]);
      EnergyProfile(setpoints, outdoor, p)[i] ==
        if delta > 0.0 then p.heatCapacity * delta / p.copHeating
        else p.heatCapacity * (-delta) / p.copCooling
  {
    assert EnergyProfile(setpoints, outdoor, p)[i] == StepEnergy(setpoints, outdoor, p, i);
  }

  /** Holding the setpoint at the outdoor temperature costs nothing. */
  lemma EquilibriumIsFree(t: real, n: nat, p: BuildingParams)
    requires n >= 1 && Divisible(p)
    ensures forall i :: 0 <= i < n ==> EnergyProfile(Constant(n, t), Constant(n, t), p)[i] == 0.0
  {
    var e := EnergyProfile(Constant(n, t), Constant(n, t), p);
    forall i | 1 <= i < n ensures e[i] == 0.0 {
      assert e[i] == StepEnergy(Constant(n, t), Constant(n, t), p, i);
    }
  }

  /** The worked example: C = 10, k = 2, heating COP 3, cooling COP 4, one-hour
      steps, setpoints [21, 21] and outdoor [10, 10]. The drift is -2.2, the
      natural indoor temperature 18.8, the required change +2.2 (heating), so
      the second step costs 22/3 kWh. */
  lemma WorkedExample()
    ensures EnergyProfile([21.0, 21.0], [10.0, 10.0], BuildingParams(10.0, 2.0, 3.0, 4.0, 1.0))
      == [0.0, 22.0 / 3.0]
  {
    var p := BuildingParams(10.0, 2.0, 3.0, 4.0, 1.0);
    assert NaturalIndoor(p, 21.0, 10.0) == 18.8;
    var e := EnergyProfile([21.0, 21.0], [10.0, 10.0], p);
    assert e[1] == StepEnergy([21.0, 21.0], [10.0, 10.0], p, 1) == 22.0 / 3.0;
  }
}
