# HVAC setpoint and energy model

A Dafny model of the deterministic core of `Aida2.py`. That script trains an
MLP and an LSTM to predict energy-optimal HVAC setpoints from a synthetic
year of hourly data. It then compares the energy the predicted setpoints
would use against a constant 22 °C baseline. All arithmetic is over Dafny
`real`.

The model has five modules, one file each:

- `Common`: absolute value, minimum, a constant sequence (`np.full`), summation
  (`Series.sum`), the start index of a Python slice `s[k:]`, and lemmas about sums.
- `ThermalModel`: `calculate_energy_consumption`, the single-zone
  lumped-capacitance recurrence. The method keeps the energy and
  indoor-temperature arrays exactly as the source does, and reads each
  step's previous indoor temperature from the array. Its loop invariant is
  that every indoor temperature written so far equals its setpoint. With
  that invariant the method is proved equal to `EnergyProfile`, a closed form
  in which step `i` depends only on `setpoints[i-1]`, `outdoor[i-1]` and
  `setpoints[i]`. The properties are proved about that closed form:
  - no step has negative energy;
  - a step is free exactly when the natural drift lands on its setpoint;
  - `BranchSplit` states each step's closed form with the code's `> 0` test
    (at a zero change both branches charge 0);
  - a single setpoint gives `[0]`;
  - the worked example gives `[0, 22/3]`.
- `SequenceAlignment`: the LSTM windowing loops of `preprocess_data` and
  `predict`, the trimming of `y_test` in `evaluate`, and the left-padding of
  LSTM predictions in `simulate_control`.
- `SyntheticData`: the occupancy bands of `load_data` and the loop that
  fills them, plus the optimal-setpoint label formula. The random draws are
  explicit inputs.
- `ControlSimulation`: the simplified per-step energy `|setpoint − outdoor|·0.1`
  for the MLP, the padded LSTM and the 22 °C baseline; the totals of
  `plot_results`; and the savings percentage `(1 − model/baseline)·100`.

The model follows the code as written:

- `calculate_energy_consumption` validates nothing. It has no parameter check,
  no length check and no error for empty input: `setpoints[0]` simply fails
  on an empty input. So `CalculateEnergyConsumption`'s precondition asks for:
  - at least one setpoint;
  - at least `len(setpoints) − 1` outdoor temperatures (the last outdoor value
    is never read);
  - non-zero heat capacity and COPs (the divisors).

  Positivity of all parameters is asked only by the lemmas that need it.
- `simulate_control` scores energy with the simplified absolute-difference
  rule, not with `calculate_energy_consumption`. The two are modelled
  separately, as written.
- Padding is not symmetric. A short prediction sequence is padded at the
  front, which aligns it to the end of the window. A long one is cut to its
  first `n` elements, which aligns it to the start (`PadPredictions`).
- `evaluate` slices `y_test[L-1:]` with Python semantics. For `L = 0` that
  keeps only the last target. `AlignTargets` models this through `PySliceStart`.

## Model

| member | source | states |
|---|---|---|
| ThermalModel.CalculateEnergyConsumption | Aida2.py:388-432 | The recurrence over the energy and indoor arrays returns exactly the closed-form profile. This needs the loop invariant that each written indoor temperature equals its setpoint. |
| ThermalModel.EnergyProfile | Aida2.py:408-412 | The energy sequence has the length of `setpoints` and its first entry is 0. |
| ThermalModel.NaturalIndoor | Aida2.py:414-418 | With positive parameters, the undriven indoor temperature moves toward the outdoor temperature, and stays put when the two are equal. |
| ThermalModel.ConditioningEnergy | Aida2.py:424-427 | With positive parameters, the charged energy is non-negative, and zero exactly when the required change is zero. |
| ThermalModel.SingleStep | Aida2.py:408-412 | A one-element setpoint sequence yields `[0]`. |
| ThermalModel.EnergyNonNegative | Aida2.py:414-427 | Every step's energy is non-negative. Step `i` is zero exactly when `setpoints[i]` equals the natural indoor temperature reached from `setpoints[i-1]`. |
| ThermalModel.BranchSplit | Aida2.py:421-427 | Step `i` is charged `C·delta/cop_heating` when `delta > 0` and `C·(−delta)/cop_cooling` otherwise. `delta` is `setpoints[i]` minus the drift from `setpoints[i-1]` toward `outdoor[i-1]`. |
| ThermalModel.EquilibriumIsFree | Aida2.py:414-427 | Holding a constant setpoint equal to a constant outdoor temperature costs nothing at every step. |
| ThermalModel.WorkedExample | Aida2.py:414-427 | With C=10, k=2, COPs 3 and 4, dt=1, setpoints [21,21] and outdoor [10,10], the energy is `[0, 22/3]`. |
| SequenceAlignment.TrainingWindowCount | Aida2.py:31 | `range(n − L)` yields `n − L` windows when `n ≥ L`, none otherwise, and every window fits with a target after it. |
| SequenceAlignment.TrainingWindows | Aida2.py:28-34 | For a non-zero sequence length `L` (the loop's guard), there are `max(0, len(X) − L)` windows. Window `i` is `X[i..i+L]` and its label is `y[i+L]`. |
| SequenceAlignment.PredictionWindows | Aida2.py:103-107 | There are `max(0, len(X) − L + 1)` windows. Window `i` is `X[i..i+L]`, and the last window ends at the last row. |
| SequenceAlignment.PredictionWindowCount | Aida2.py:105 | `range(n − L + 1)` yields `n + 1 − L` windows when `n + 1 ≥ L`, none otherwise, and every window fits inside the rows. |
| SequenceAlignment.WindowCounts | Aida2.py:104-106 | Over the same rows, prediction yields one window more than training. |
| SequenceAlignment.AlignTargets | Aida2.py:126-130 | MLP targets are unchanged. LSTM targets have length `min(len(y_test) − start, len(y_pred))` and are the contiguous slice of `y_test` from `start`, the Python start index of `y_test[L-1:]`. |
| SequenceAlignment.TargetsMatchWindowEnds | Aida2.py:124-130 | For an LSTM over `n ≥ L ≥ 1` rows, the aligned targets are as many as the predictions. Target `i` is the target of the last row of window `i`. |
| SequenceAlignment.PadPredictions | Aida2.py:297-303 | The padded sequence has length exactly `n`. When short, step `i` holds the prediction `n − len(preds)` places earlier, clamped at the first. Otherwise step `i` holds prediction `i`. |
| SequenceAlignment.PaddingKeepsPredictions | Aida2.py:297-303 | Short input: the first `n − len(preds)` entries are `preds[0]` and the suffix is `preds` itself. Long input: the result is `preds[..n]`. |
| SequenceAlignment.PaddedStepUsesWindowEndingThere | Aida2.py:291-303 | After padding `n − L + 1` LSTM predictions to `n` steps, step `i ≥ L − 1` carries the prediction of the window ending at row `i`. Earlier steps repeat the first prediction. |
| SequenceAlignment.PaddingIdempotent | Aida2.py:297-303 | Padding an already padded sequence to the same length changes nothing. |
| SyntheticData.Occupancy | Aida2.py:187-196 | For a draw in [0,1): weekday working hours give [0.7,1.0); weekday hours 7 and 18 give [0.3,0.6); other weekday hours give [0,0.1); weekends give [0,0.2). Every case lies in [0,1). |
| SyntheticData.OccupancyFillsBand | Aida2.py:188-196 | A value is the occupancy of some draw in [0,1) exactly when it lies in its timestamp's band, so the bands are exact. |
| SyntheticData.FillOccupancy | Aida2.py:186-196 | The filled array has one entry per timestamp, each the occupancy of that timestamp's slot and draw. All entries lie in [0,1) when the draws do. |
| SyntheticData.OptimalSetpoint | Aida2.py:199 | For occupancy in [0,1), the label lies within half a degree below the label of an empty building, `21 + 0.01·(outdoor − 20) + 0.2·noise`, and equals it at zero occupancy. |
| SyntheticData.LabelFollowsBand | Aida2.py:186-199 | For a draw in [0,1), a sample's label lies between `b − 0.5·(low + width)` (exclusive) and `b − 0.5·low`, where `b` is the empty-building label and `[low, low + width)` the sample's occupancy band. |
| SyntheticData.SetpointMonotone | Aida2.py:199 | The label rises strictly with outdoor temperature and falls strictly with occupancy. |
| ControlSimulation.SimplifiedEnergy | Aida2.py:307-311 | Per-step simplified energy is non-negative, and zero exactly when setpoint equals outdoor temperature. |
| ControlSimulation.StepEnergies | Aida2.py:307-311 | The energy column has one entry per row, each non-negative and zero exactly on the rows where the setpoint equals the outdoor temperature. |
| ControlSimulation.SimulateControl | Aida2.py:294-311 | The frame keeps the MLP setpoints and holds the padded LSTM setpoints. It has MLP, LSTM and baseline energy columns of the window's length, each row scored against the outdoor temperature. |
| ControlSimulation.Totals | Aida2.py:350-352 | Each total of a non-negative energy column is non-negative. The baseline total is zero exactly when every baseline step is zero. |
| ControlSimulation.Savings | Aida2.py:355-356 | Savings times the baseline total equals 100 times what the model saves against it. Savings are zero exactly when the totals are equal, and 100 when the model uses nothing. |
| ControlSimulation.TotalsNonNegative | Aida2.py:350-352 | All three totals are non-negative. The baseline total is positive exactly when some outdoor temperature differs from 22 °C. |
| ControlSimulation.SavingsSign | Aida2.py:355-356 | For a positive baseline total, savings are negative exactly when the model total exceeds it, zero exactly when they are equal, and never above 100 for a non-negative model total. Nothing is clipped. |
| ControlSimulation.CloserSetpointsSave | Aida2.py:307-356 | A model whose every setpoint is at least as close to the outdoor temperature as 22 °C has a positive baseline (given some outdoor temperature is not 22 °C) and non-negative savings. |

## Left out

- Keras model construction, compilation, training, prediction, saving and loading (Aida2.py:38-97, 112, 145-151): foreign library calls. Predictions enter the model as input sequences.
- `MinMaxScaler` fitting, transforming and inverting, `train_test_split`, and the MAE/MSE/RMSE metrics (Aida2.py:24-25, 73-75, 114-118, 133-135, 263): library numerics. The windowing works on rows that stand for the already-scaled data.
- The non-windowing branches of `preprocess_data` and `predict` (Aida2.py:36, 108-109): they return the scaled data unchanged, so without scaling there is nothing to model.
- `pd.date_range`, calendar extraction and one-hot encoding (Aida2.py:168-183, 215-231): the hour and weekday are given integers (`CalendarSlot`).
- `np.random` (Aida2.py:177-178, 190-196, 199, 282): every draw is an explicit input (`draw` in [0,1), `noise`). The random choice of the simulated week and the slicing of the data and features to it (Aida2.py:282-287) are left to the caller, who passes in the selected outdoor temperatures.
- The sinusoidal outdoor-temperature and humidity series (Aida2.py:177-178): floating-point trigonometry, with no contract beyond their length.
- Plotting, image output and all printed text (Aida2.py:315-348, 354-357, 436-471), including `visualize_performance`. Only the values computed for printing are modelled (`Totals`, `Savings`).
- IEEE floating point: rounding, NaN/Inf propagation, and integer-dtype truncation when `np.zeros_like`/`np.full_like` receive integer arrays (Aida2.py:408-409). The model uses exact reals and assumes float inputs.
- ControlSimulation.Savings: a zero baseline total is excluded by a precondition. numpy would return inf or nan there, which the real-number model cannot express.
- SequenceAlignment.PadPredictions: requires at least one prediction when the window is non-empty. The source raises IndexError at `lstm_predictions[0]` there (Aida2.py:299), and the error path is not modelled.
- ControlSimulation.SimulateControl: requires at least one LSTM prediction for a non-empty window, for the same IndexError (Aida2.py:299). It also requires one MLP prediction per row, since pandas raises ValueError on a column of the wrong length (Aida2.py:294). Neither error path is modelled.
- SequenceAlignment.TrainingWindows: requires a target for every row when any window exists. The source raises IndexError at `y_scaled[i + sequence_length]` otherwise (Aida2.py:33), and that error path is not modelled.
