/**
 The calendar-driven parts of `load_data`'s synthetic dataset: occupancy by
 weekday and hour, and the optimal-setpoint training label. The random
 draws are inputs: `draw` stands for a uniform draw from [0, 1) and `noise`
 for a standard normal draw.
 */
module SyntheticData {

  /** The calendar fields of one hourly timestamp (`dayOfWeek` 0 is Monday). */
  datatype CalendarSlot = CalendarSlot(dayOfWeek: int, hour: int)

  predicate IsWeekday(slot: CalendarSlot) { slot.dayOfWeek < 5 }

  predicate IsUnitDraw(draw: real) { 0.0 <= draw < 1.0 }

  /**
   Occupancy for one timestamp: working hours on weekdays are busy, the hour
   either side is half-busy, other weekday hours are nearly empty and the
   weekend is lightly used. For a draw in [0, 1) the result stays inside its
   band and inside [0, 1).
   */
  function Occupancy(slot: CalendarSlot, draw: real): (o: real)
    ensures IsUnitDraw(draw) ==> 0.0 <= o < 1.0
    ensures IsUnitDraw(draw) && IsWeekday(slot) && 8 <= slot.hour < 18 ==> 0.7 <= o < 1.0
    ensures IsUnitDraw(draw) && IsWeekday(slot) && (slot.hour == 7 || slot.hour == 18) ==> 0.3 <= o < 0.6
    ensures IsUnitDraw(draw) && IsWeekday(slot) && !(7 <= slot.hour < 19) ==> 0.0 <= o < 0.1
    ensures IsUnitDraw(draw) && !IsWeekday(slot) ==> 0.0 <= o < 0.2
  {
    if slot.dayOfWeek < 5 then
      if 8 <= slot.hour < 18 then 0.7 + 0.3 * draw
      else if 7 <= slot.hour < 8 || 18 <= slot.hour < 19 then 0.3 + 0.3 * draw
      else 0.1 * draw
    else 0.2 * draw
  }

  /** The lower end and the width of the band a timestamp falls in. */
  function BandLow(slot: CalendarSlot): real
  {
    if IsWeekday(slot) && 8 <= slot.hour < 18 then 0.7
    else if IsWeekday(slot) && (slot.hour == 7 || slot.hour == 18) then 0.3
    else 0.0
  }

  function BandWidth(slot: CalendarSlot): real
  {
    if IsWeekday(slot) && 7 <= slot.hour < 19 then 0.3
    else if IsWeekday(slot) then 0.1
    else 0.2
  }

  /** The bands are exact: every value of a timestamp's band is the occupancy
      of some draw in [0, 1), and no other value is. */
  lemma OccupancyFillsBand(slot: CalendarSlot, o: real)
    ensures (exists draw :: IsUnitDraw(draw) && Occupancy(slot, draw) == o) <==>
      BandLow(slot) <= o < BandLow(slot) + BandWidth(slot)
  {
    if BandLow(slot) <= o < BandLow(slot) + BandWidth(slot) {
      var draw := (o - BandLow(slot)) / BandWidth(slot);
      assert IsUnitDraw(draw);
      assert Occupancy(slot, draw) == o;
    }
  }

  /**
   The occupancy loop of `load_data`: a zero-filled array of one entry per
   timestamp, each entry set from that timestamp's slot and its own draw.
   */
  method FillOccupancy(slots: seq<CalendarSlot>, draws: seq<real>) returns (occupancy: seq<real>)
    requires |draws| == |slots|
    ensures |occupancy| == |slots|
    ensures forall i :: 0 <= i < |slots| ==> occupancy[i] == Occupancy(slots[i], draws[i])
    ensures (forall i :: 0 <= i < |draws| ==> IsUnitDraw(draws[i])) ==>
      forall i :: 0 <= i < |occupancy| ==> 0.0 <= occupancy[i] < 1.0
  {
    var a := new real[|slots|](_ => 0.0);
    for i := 0 to |slots|
      invariant forall j :: 0 <= j < i ==> a[j] == Occupancy(slots[j], draws[j])
    {
      var slot := slots[i];
      if slot.dayOfWeek < 5 {
        if 8 <= slot.hour < 18 {
          a[i] := 0.7 + 0.3 * draws[i];
        } else if 7 <= slot.hour < 8 || 18 <= slot.hour < 19 {
          a[i] := 0.3 + 0.3 * draws[i];
        } else {
          a[i] := 0.1 * draws[i];
        }
      } else {
        a[i] := 0.2 * draws[i];
      }
    }
    occupancy := a[..];
  }

  /** The label of an unoccupied building: 21 degrees, nudged up by one
      hundredth of the outdoor excess over 20 degrees, plus noise. */
  function EmptyBuildingSetpoint(outdoor: real, noise: real): real
  {
    21.0 + 0.01 * (outdoor - 20.0) + 0.2 * noise
  }

  /** The training label: 21 degrees, nudged up by one hundredth of the outdoor
      excess over 20 degrees, lowered by half the occupancy, plus noise. For an
      occupancy in [0, 1) the label lies at most half a degree below the
      label of an empty building. */
  function OptimalSetpoint(outdoor: real, occupancy: real, noise: real): (r: real)
    ensures 0.0 <= occupancy < 1.0 ==>
      EmptyBuildingSetpoint(outdoor, noise) - 0.5 < r <= EmptyBuildingSetpoint(outdoor, noise)
    ensures occupancy == 0.0 ==> r == EmptyBuildingSetpoint(outdoor, noise)
  {
    21.0 + 0.01 * (outdoor - 20.0) - 0.5 * occupancy + 0.2 * noise
  }

  /** The label of a generated sample follows its occupancy band: it lies
      between half the band's upper end and half its lower end below the
      label of an empty building. */
  lemma LabelFollowsBand(slot: CalendarSlot, draw: real, outdoor: real, noise: real)
    requires IsUnitDraw(draw)
    ensures var b := EmptyBuildingSetpoint(outdoor, noise);
      var y := OptimalSetpoint(outdoor, Occupancy(slot, draw), noise);
      b - 0.5 * (BandLow(slot) + BandWidth(slot)) < y <= b - 0.5 * BandLow(slot)
  {
    OccupancyFillsBand(slot, Occupancy(slot, draw));
  }

  /** The label rises strictly with outdoor temperature and falls strictly
      with occupancy. */
  lemma SetpointMonotone(o1: real, o2: real, occ1: real, occ2: real, noise: real)
    ensures OptimalSetpoint(o1, occ1, noise) < OptimalSetpoint(o2, occ1, noise) <==> o1 < o2
    ensures OptimalSetpoint(o1, occ1, noise) < OptimalSetpoint(o1, occ2, noise) <==> occ2 < occ1
  {
  }
}
