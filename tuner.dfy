/** The capacity tuner: rescales the hourly counts of each neighbourhood from its
    parking capacities, blue zones by an hour-of-day factor, central green zones by a
    shift that brings their peak to the green capacity. */
module Tuner {
  import opened Wrappers
  import opened Calendar
  import opened Preprocessor
  import opened Aggregator

  /** An aggregated row after tuning: the count becomes a real number. */
  datatype TunedRow = TunedRow(hour: int, activeTickets: real, barrioId: int, tipoZona: string)

  /** `spaces_grouped_df[spaces_grouped_df["barrio_id"] == b].iloc[0]`, or nothing. */
  function CapacityOf(groups: seq<SpacesGroup>, b: int): (r: Option<SpacesGroup>)
    ensures r.None? <==> forall i :: 0 <= i < |groups| ==> groups[i].barrioId != b
    ensures r.Some? ==> exists i :: (0 <= i < |groups| && groups[i] == r.value
      && r.value.barrioId == b && forall j :: 0 <= j < i ==> groups[j].barrioId != b)
  {
    if groups == [] then None
    else if groups[0].barrioId == b then Some(groups[0])
    else
      var r := CapacityOf(groups[1..], b);
      assert forall i :: 1 <= i < |groups| ==> groups[1..][i - 1] == groups[i];
      r
  }

  /** `groupby("barrio_id")["active_tickets"].quantile(1).to_dict()`: the largest count
      of each neighbourhood over all its rows, whatever their zone. */
  function MaxActiveTickets(rows: seq<AggRow>): (m: map<int, int>)
    ensures forall i :: 0 <= i < |rows| ==>
      rows[i].barrioId in m && rows[i].activeTickets <= m[rows[i].barrioId]
    ensures forall b :: b in m ==>
      exists i :: 0 <= i < |rows| && rows[i].barrioId == b && rows[i].activeTickets == m[b]
  {
    if rows == [] then map[]
    else
      var init := rows[..|rows| - 1];
      var last := rows[|rows| - 1];
      var m := MaxActiveTickets(init);
      assert forall i :: 0 <= i < |init| ==> init[i] == rows[i];
      if last.barrioId in m && last.activeTickets <= m[last.barrioId] then m
      else m[last.barrioId := last.activeTickets]
  }

  /** The blue-zone factor at 9:00-15:00; it falls as the share of green spaces grows,
      and is at most 0.9. */
  function BaseFactor(verdes: int, azules: int): (f: real)
    requires azules != 0
    ensures verdes >= 0 && azules > 0 ==> f <= 0.9
    ensures verdes == 0 ==> f == 0.9
  {
    0.9 - 0.01084 * (verdes as real / azules as real)
  }

  /** The multiplier for hour of day `hour`: the base factor from 9 to 15, raised by
      0.05, 0.15, 0.2, 0.25 and 0.3 from 16 to 20, and 1.0 at every other hour. */
  function HourlyFactor(base: real, hour: nat): (f: real)
    ensures hour < 9 || 20 < hour ==> f == 1.0
    ensures 9 <= hour <= 20 ==> base <= f <= base + 0.3
  {
    if 9 <= hour <= 15 then base
    else if hour == 16 then base + 0.05
    else if hour == 17 then base + 0.15
    else if hour == 18 then base + 0.2
    else if hour == 19 then base + 0.25
    else if hour == 20 then base + 0.3
    else 1.0
  }

  /** `_fix_active_tickets` for one row; it raises only for a central neighbourhood
      with a capacity record that is missing from the maxima, and then a KeyError. */
  function FixActiveTickets(row: AggRow, groups: seq<SpacesGroup>, maxes: map<int, int>): (r: Result<real>)
    ensures r.Failure? <==>
      row.barrioId in CentralBarrios && CapacityOf(groups, row.barrioId).Some? && row.barrioId !in maxes
    ensures r.Failure? ==> r.error == KeyError
  {
    var active := row.activeTickets as real;
    match CapacityOf(groups, row.barrioId)
    case None => Success(active)
    case Some(cap) =>
      if row.barrioId !in CentralBarrios then
        if cap.numPlazasAzules == 0 then Success(active)
        else Success(active * HourlyFactor(BaseFactor(cap.numPlazasVerdes, cap.numPlazasAzules), HourOfDay(row.hour)))
      else if row.barrioId !in maxes then Failure(KeyError)
      else Success(active + (cap.numPlazasVerdes - maxes[row.barrioId]) as real)
  }

  function Retune(row: AggRow, value: real): TunedRow {
    TunedRow(row.hour, value, row.barrioId, row.tipoZona)
  }

  /** `data_tuner`: every row keeps its hour, barrio and zone; only its count is
      replaced. On a frame without rows the row-wise `apply` never calls the function
      and hands back the frame itself, which `assign` rejects with a ValueError. */
  function DataTuner(rows: seq<AggRow>, groups: seq<SpacesGroup>): (r: Result<seq<TunedRow>>)
    ensures rows == [] ==> r == Failure(ValueError)
    ensures r.Success? ==> |r.value| == |rows| && forall i :: 0 <= i < |rows| ==>
      r.value[i] == Retune(rows[i], FixActiveTickets(rows[i], groups, MaxActiveTickets(rows)).value)
  {
    var maxes := MaxActiveTickets(rows);
    if rows == [] then Failure(ValueError)
    else
      match MapAll(rows, (row: AggRow) => FixActiveTickets(row, groups, maxes))
      case Failure(e) => Failure(e)
      case Success(values) => Success(seq(|rows|, i requires 0 <= i < |rows| => Retune(rows[i], values[i])))
  }

  /** The tuner fails exactly on a frame without rows: the maxima hold every
      neighbourhood of the frame, so no lookup raises. */
  lemma DataTunerSucceeds(rows: seq<AggRow>, groups: seq<SpacesGroup>)
    ensures DataTuner(rows, groups).Success? <==> rows != []
  {
    var maxes := MaxActiveTickets(rows);
    forall i | 0 <= i < |rows|
      ensures FixActiveTickets(rows[i], groups, maxes).Success?
    {
      assert rows[i].barrioId in maxes;
    }
  }

  /** A neighbourhood without a capacity record keeps its count. */
  lemma NoRecordUnchanged(row: AggRow, groups: seq<SpacesGroup>, maxes: map<int, int>)
    requires forall i :: 0 <= i < |groups| ==> groups[i].barrioId != row.barrioId
    ensures FixActiveTickets(row, groups, maxes) == Success(row.activeTickets as real)
  {
  }

  /** A non-central neighbourhood with no blue spaces keeps its count. */
  lemma NoBlueSpacesUnchanged(row: AggRow, groups: seq<SpacesGroup>, maxes: map<int, int>)
    requires row.barrioId !in CentralBarrios
    requires CapacityOf(groups, row.barrioId).Some? && CapacityOf(groups, row.barrioId).value.numPlazasAzules == 0
    ensures FixActiveTickets(row, groups, maxes) == Success(row.activeTickets as real)
  {
  }

  /** Outside 9:00-20:59 a non-central neighbourhood keeps its count. */
  lemma OffHoursUnchanged(row: AggRow, groups: seq<SpacesGroup>, maxes: map<int, int>)
    requires row.barrioId !in CentralBarrios
    requires HourOfDay(row.hour) < 9 || 20 < HourOfDay(row.hour)
    ensures FixActiveTickets(row, groups, maxes) == Success(row.activeTickets as real)
  {
  }

  /** The multiplier never falls from one opening hour to the next. */
  lemma HourlyFactorRises(base: real, hour: nat)
    requires 9 <= hour < 20
    ensures HourlyFactor(base, hour) <= HourlyFactor(base, hour + 1)
  {
  }

  /** A non-central count with blue spaces is multiplied, hour by hour, by the base
      factor from 9 to 15 and by the base factor plus 0.05, 0.15, 0.2, 0.25 and 0.3 at
      16, 17, 18, 19 and 20. */
  lemma BlueScaling(row: AggRow, groups: seq<SpacesGroup>, maxes: map<int, int>)
    requires row.barrioId !in CentralBarrios
    requires CapacityOf(groups, row.barrioId).Some?
    requires CapacityOf(groups, row.barrioId).value.numPlazasAzules != 0
    ensures var cap := CapacityOf(groups, row.barrioId).value;
      var base := BaseFactor(cap.numPlazasVerdes, cap.numPlazasAzules);
      var a := row.activeTickets as real;
      var h := HourOfDay(row.hour);
      var v := FixActiveTickets(row, groups, maxes);
      && v.Success?
      && (9 <= h <= 15 ==> v.value == a * base)
      && (h == 16 ==> v.value == a * (base + 0.05))
      && (h == 17 ==> v.value == a * (base + 0.15))
      && (h == 18 ==> v.value == a * (base + 0.2))
      && (h == 19 ==> v.value == a * (base + 0.25))
      && (h == 20 ==> v.value == a * (base + 0.3))
  {
  }

  /** The tuned counts of a central neighbourhood differ from hour to hour exactly as
      the raw counts do. */
  lemma CentralDifferencesPreserved(rows: seq<AggRow>, groups: seq<SpacesGroup>, i: nat, j: nat)
    requires i < |rows| && j < |rows| && rows[i].barrioId == rows[j].barrioId
    requires rows[i].barrioId in CentralBarrios
    requires CapacityOf(groups, rows[i].barrioId).Some?
    ensures var r := DataTuner(rows, groups);
      r.Success? && r.value[i].activeTickets - r.value[j].activeTickets
        == (rows[i].activeTickets - rows[j].activeTickets) as real
  {
    DataTunerSucceeds(rows, groups);
  }

  /** A central neighbourhood's tuned counts peak at its green capacity: none is above
      it, and the hour of the raw peak reaches it. */
  lemma CentralPeakIsGreenCapacity(rows: seq<AggRow>, groups: seq<SpacesGroup>, b: int)
    requires b in CentralBarrios && CapacityOf(groups, b).Some?
    requires exists i :: 0 <= i < |rows| && rows[i].barrioId == b
    ensures var r := DataTuner(rows, groups);
      var verdes := CapacityOf(groups, b).value.numPlazasVerdes as real;
      && r.Success?
      && (forall i :: 0 <= i < |rows| && rows[i].barrioId == b ==> r.value[i].activeTickets <= verdes)
      && (exists i :: 0 <= i < |rows| && rows[i].barrioId == b && r.value[i].activeTickets == verdes)
  {
    CentralAtMostGreen(rows, groups, b);
    CentralReachesGreen(rows, groups, b);
  }

  lemma CentralAtMostGreen(rows: seq<AggRow>, groups: seq<SpacesGroup>, b: int)
    requires b in CentralBarrios && CapacityOf(groups, b).Some? && rows != []
    ensures var r := DataTuner(rows, groups);
      && r.Success?
      && forall i :: (0 <= i < |rows| && rows[i].barrioId == b ==>
        r.value[i].activeTickets <= CapacityOf(groups, b).value.numPlazasVerdes as real)
  {
    DataTunerSucceeds(rows, groups);
  }

  lemma CentralReachesGreen(rows: seq<AggRow>, groups: seq<SpacesGroup>, b: int)
    requires b in CentralBarrios && CapacityOf(groups, b).Some?
    requires exists i :: 0 <= i < |rows| && rows[i].barrioId == b
    ensures var r := DataTuner(rows, groups);
      && r.Success?
      && exists i :: (0 <= i < |rows| && rows[i].barrioId == b
        && r.value[i].activeTickets == CapacityOf(groups, b).value.numPlazasVerdes as real)
  {
    DataTunerSucceeds(rows, groups);
    var maxes := MaxActiveTickets(rows);
    var i0 :| 0 <= i0 < |rows| && rows[i0].barrioId == b;
    assert b in maxes;
    var k :| 0 <= k < |rows| && rows[k].barrioId == b && rows[k].activeTickets == maxes[b];
    CentralPeakRow(rows[k], groups, maxes);
  }

  /** The row holding a central neighbourhood's largest count is moved to its green
      capacity. */
  lemma CentralPeakRow(row: AggRow, groups: seq<SpacesGroup>, maxes: map<int, int>)
    requires row.barrioId in CentralBarrios && CapacityOf(groups, row.barrioId).Some?
    requires row.barrioId in maxes && row.activeTickets == maxes[row.barrioId]
    ensures FixActiveTickets(row, groups, maxes)
      == Success(CapacityOf(groups, row.barrioId).value.numPlazasVerdes as real)
  {
  }
}
