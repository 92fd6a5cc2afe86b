/** `data_aggregator`: tickets crossing midnight split at the evening cutoff, the
    sweep-line hourly count per (barrio, zone) group, the schedule masks and the
    per-barrio zone selection. */
module Aggregator {
  import opened Wrappers
  import opened Seqs
  import opened Calendar
  import opened Sweep
  import opened Preprocessor

  /** A row of `pre_agg_ser_df`: an interval tagged with its neighbourhood and zone. */
  datatype Segment = Segment(start: Timestamp, end: Timestamp, barrioId: Option<int>, tipoZona: string)

  /** A row of `agg_ser_df`: the hour index, the count and the group tags. */
  datatype AggRow = AggRow(hour: int, activeTickets: int, barrioId: int, tipoZona: string)

  /** The four kept columns of a ticket. */
  function Project(t: ParkingTicket): Segment {
    Segment(t.start, t.end, t.barrioId, t.tipoZona)
  }

  // ---------------------------------------------------------------- splitting

  /** The split test compares the day of the month only. */
  predicate CrossesDay(t: ParkingTicket) {
    DayOfMonth(t.start) != DayOfMonth(t.end)
  }

  /** Paid parking stops at 15:00 in August and on Saturdays, at 21:00 otherwise. */
  function NoParkingStartHour(start: Timestamp): (h: nat)
    ensures h == 14 || h == 20
    ensures h == 14 <==> Month(start) == 8 || DayOfWeek(start) == 5
  {
    if Month(start) == 8 || DayOfWeek(start) == 5 then 14 else 20
  }

  /** `process_parking_dates`: the part up to the cutoff minute on the start's day, and
      the part from 09:00 on the end's day. */
  function ProcessParkingDates(t: ParkingTicket): (segments: seq<Segment>)
    ensures |segments| == 2
    ensures segments[0].start == t.start && segments[1].end == t.end
    ensures DayIndex(segments[0].end) == DayIndex(t.start)
    ensures segments[0].end - StartOfDay(t.start) == NoParkingStartHour(t.start) * SecondsPerHour + 59 * SecondsPerMinute
    ensures DayIndex(segments[1].start) == DayIndex(t.end)
    ensures segments[1].start - StartOfDay(t.end) == 9 * SecondsPerHour
    ensures forall i :: 0 <= i < 2 ==> segments[i].barrioId == t.barrioId && segments[i].tipoZona == t.tipoZona
  {
    [Segment(t.start, OnDayOf(t.start, NoParkingStartHour(t.start), 59), t.barrioId, t.tipoZona),
     Segment(OnDayOf(t.end, 9, 0), t.end, t.barrioId, t.tipoZona)]
  }

  /** `[item for sublist in expanded_rows for item in sublist]`. */
  function ExpandAll(ts: seq<ParkingTicket>): (r: seq<Segment>)
    ensures |r| == 2 * |ts|
    ensures forall i :: 0 <= i < |ts| ==>
      r[2 * i] == ProcessParkingDates(ts[i])[0] && r[2 * i + 1] == ProcessParkingDates(ts[i])[1]
  {
    if ts == [] then []
    else
      var head := ProcessParkingDates(ts[0]);
      var rest := ExpandAll(ts[1..]);
      PairsAppend(head, rest, ts);
      head + rest
  }

  /** Two halves in front of the halves of the remaining tickets. */
  lemma PairsAppend(head: seq<Segment>, rest: seq<Segment>, ts: seq<ParkingTicket>)
    requires ts != [] && |head| == 2 && head == ProcessParkingDates(ts[0])
    requires |rest| == 2 * (|ts| - 1)
    requires forall i :: 0 <= i < |ts| - 1 ==>
      rest[2 * i] == ProcessParkingDates(ts[1..][i])[0] && rest[2 * i + 1] == ProcessParkingDates(ts[1..][i])[1]
    ensures forall i :: 0 <= i < |ts| ==>
      (head + rest)[2 * i] == ProcessParkingDates(ts[i])[0] && (head + rest)[2 * i + 1] == ProcessParkingDates(ts[i])[1]
  {
    var r := head + rest;
    forall i | 0 <= i < |ts|
      ensures r[2 * i] == ProcessParkingDates(ts[i])[0] && r[2 * i + 1] == ProcessParkingDates(ts[i])[1]
    {
      if i > 0 {
        assert ts[1..][i - 1] == ts[i];
        assert r[2 * i] == rest[2 * (i - 1)];
        assert r[2 * i + 1] == rest[2 * (i - 1) + 1];
      }
    }
  }

  predicate InZone(s: Segment) {
    s.tipoZona == "AZUL" || s.tipoZona == "VERDE"
  }

  predicate StaysOnDay(t: ParkingTicket) { !CrossesDay(t) }

  /** The tickets that are not split, reduced to their four columns. */
  function Unsplit(ts: seq<ParkingTicket>): (r: seq<Segment>)
    ensures |r| == |ts| && forall i :: 0 <= i < |ts| ==> r[i] == Project(ts[i])
  {
    seq(|ts|, i requires 0 <= i < |ts| => Project(ts[i]))
  }

  /** `pre_agg_ser_df` after the zone filter: the unsplit tickets first, then the
      segments of the split ones, keeping only blue and green zones. */
  function PreAggregate(ts: seq<ParkingTicket>): (pre: seq<Segment>)
    ensures forall i :: 0 <= i < |pre| ==> InZone(pre[i])
  {
    Filter(Unsplit(Filter(ts, StaysOnDay)) + ExpandAll(Filter(ts, CrossesDay)), InZone)
  }

  /** A segment of the expansion is a half of one of the expanded tickets. */
  lemma {:induction false} ExpandAllSound(ts: seq<ParkingTicket>, s: Segment)
    requires s in ExpandAll(ts)
    ensures exists t :: t in ts && s in ProcessParkingDates(t)
  {
    if s !in ProcessParkingDates(ts[0]) {
      ExpandAllSound(ts[1..], s);
      var t :| t in ts[1..] && s in ProcessParkingDates(t);
      assert t in ts;
    }
  }

  /** Both halves of every expanded ticket are in the expansion. */
  lemma {:induction false} ExpandAllComplete(ts: seq<ParkingTicket>, t: ParkingTicket)
    requires t in ts
    ensures forall s :: s in ProcessParkingDates(t) ==> s in ExpandAll(ts)
  {
    if t != ts[0] {
      assert t in ts[1..];
      ExpandAllComplete(ts[1..], t);
    }
  }

  /** Every segment is in a blue or green zone and comes either from a ticket that stays
      on its day, unchanged, or from one of the two halves of a ticket that crosses. */
  lemma PreAggregateSound(ts: seq<ParkingTicket>, s: Segment)
    requires s in PreAggregate(ts)
    ensures InZone(s)
    ensures (exists t :: t in ts && !CrossesDay(t) && s == Project(t))
      || (exists t :: t in ts && CrossesDay(t) && s in ProcessParkingDates(t))
  {
    var stay := Filter(ts, StaysOnDay);
    var cross := Filter(ts, CrossesDay);
    var u := Unsplit(stay);
    var e := ExpandAll(cross);
    assert s in u + e;
    if s in u {
      var i :| 0 <= i < |u| && u[i] == s;
      assert stay[i] in ts && !CrossesDay(stay[i]);
    } else {
      ExpandAllSound(cross, s);
    }
  }

  /** Conversely, a blue or green ticket that stays on its day is kept unchanged. */
  lemma PreAggregateKeepsUnsplit(ts: seq<ParkingTicket>, t: ParkingTicket)
    requires t in ts && (t.tipoZona == "AZUL" || t.tipoZona == "VERDE") && !CrossesDay(t)
    ensures Project(t) in PreAggregate(ts)
  {
    UnsplitKeeps(ts, t);
    FilterConcatKeeps(Unsplit(Filter(ts, StaysOnDay)), ExpandAll(Filter(ts, CrossesDay)), InZone, Project(t));
  }

  /** A ticket that stays on its day is among the unsplit tickets. */
  lemma UnsplitKeeps(ts: seq<ParkingTicket>, t: ParkingTicket)
    requires t in ts && !CrossesDay(t)
    ensures Project(t) in Unsplit(Filter(ts, StaysOnDay))
  {
    var stay := Filter(ts, StaysOnDay);
    var i :| 0 <= i < |stay| && stay[i] == t;
    assert Unsplit(stay)[i] == Project(t);
  }

  /** Both halves of a blue or green ticket that crosses are kept. */
  lemma PreAggregateKeepsHalves(ts: seq<ParkingTicket>, t: ParkingTicket, s: Segment)
    requires t in ts && (t.tipoZona == "AZUL" || t.tipoZona == "VERDE") && CrossesDay(t)
    requires s in ProcessParkingDates(t)
    ensures s in PreAggregate(ts)
  {
    var cross := Filter(ts, CrossesDay);
    assert t in cross;
    ExpandAllComplete(cross, t);
    assert InZone(s) by {
      var k :| 0 <= k < 2 && ProcessParkingDates(t)[k] == s;
    }
    ExpandedInPre(ts, s);
  }

  /** A blue or green segment of the expansion survives the zone filter. */
  lemma ExpandedInPre(ts: seq<ParkingTicket>, s: Segment)
    requires s in ExpandAll(Filter(ts, CrossesDay)) && InZone(s)
    ensures s in PreAggregate(ts)
  {
    FilterConcatKeeps(Unsplit(Filter(ts, StaysOnDay)), ExpandAll(Filter(ts, CrossesDay)), InZone, s);
  }

  // ---------------------------------------------------------------- hourly grid

  /** `fecha_inicio_dt.dt.floor("h")`. */
  function StartHour(s: Segment): int { HourIndex(s.start) }

  /** `(fecha_fin_dt + 1h).dt.floor("h")`: the first hour no longer counted. */
  function EndHour(s: Segment): int { HourIndex(s.end + SecondsPerHour) }

  function StartHours(g: seq<Segment>): (xs: seq<int>)
    ensures |xs| == |g| && forall i :: 0 <= i < |g| ==> xs[i] == StartHour(g[i])
  {
    seq(|g|, i requires 0 <= i < |g| => StartHour(g[i]))
  }

  function EndHours(g: seq<Segment>): (ys: seq<int>)
    ensures |ys| == |g| && forall i :: 0 <= i < |g| ==> ys[i] == EndHour(g[i])
  {
    seq(|g|, i requires 0 <= i < |g| => EndHour(g[i]))
  }

  /** The intended meaning of the count at hour `h`: segments already started minus
      segments already over. */
  function ActiveAt(g: seq<Segment>, h: int): int {
    CountUpTo(StartHours(g), h) - CountUpTo(EndHours(g), h)
  }

  /** `df["fecha_inicio_dt"].min()`. */
  function MinStart(g: seq<Segment>): (m: Timestamp)
    requires g != []
    ensures forall i :: 0 <= i < |g| ==> m <= g[i].start
    ensures exists i :: 0 <= i < |g| && g[i].start == m
  {
    if |g| == 1 then g[0].start
    else
      var m := MinStart(g[1..]);
      assert forall i :: 1 <= i < |g| ==> g[1..][i - 1] == g[i];
      if g[0].start <= m then g[0].start else m
  }

  /** `df["fecha_fin_dt"].max()`. */
  function MaxEnd(g: seq<Segment>): (m: Timestamp)
    requires g != []
    ensures forall i :: 0 <= i < |g| ==> g[i].end <= m
    ensures exists i :: 0 <= i < |g| && g[i].end == m
  {
    if |g| == 1 then g[0].end
    else
      var m := MaxEnd(g[1..]);
      assert forall i :: 1 <= i < |g| ==> g[1..][i - 1] == g[i];
      if g[0].end >= m then g[0].end else m
  }

  /** First and last hour of the group's grid (`date_range` bounds). */
  function GridStart(g: seq<Segment>): int requires g != [] { HourIndex(MinStart(g)) }
  function GridEnd(g: seq<Segment>): int requires g != [] { HourIndex(MaxEnd(g) + SecondsPerHour) }

  /** A grid row before it is tagged with its group. */
  datatype HourValue = HourValue(hour: int, activeTickets: int)

  /** `create_barrio_agg_ser_df`: per-hour start counts minus end counts, summed
      cumulatively over the sorted hours where either changes, and looked up with
      forward fill on every hour from the first start to the last end plus one hour.
      The result is the count of active segments at each grid hour. */
  function CreateBarrioAgg(g: seq<Segment>): (rows: seq<HourValue>)
    requires g != []
    ensures |rows| == if GridStart(g) <= GridEnd(g) then GridEnd(g) - GridStart(g) + 1 else 0
    ensures forall i :: 0 <= i < |rows| ==>
      rows[i].hour == GridStart(g) + i && rows[i].activeTickets == ActiveAt(g, GridStart(g) + i)
  {
    var lo := GridStart(g);
    var hi := GridEnd(g);
    var n := if lo <= hi then hi - lo + 1 else 0;
    var v := SweepGrid(StartHours(g), EndHours(g), lo, n);
    seq(n, i requires 0 <= i < n => HourValue(lo + i, v[i]))
  }

  /** Segments that start no later than they end never make the count negative. */
  lemma ActiveNonNegative(g: seq<Segment>, h: int)
    requires forall i :: 0 <= i < |g| ==> g[i].start <= g[i].end
    ensures ActiveAt(g, h) >= 0
  {
    forall i | 0 <= i < |g| ensures StartHours(g)[i] <= EndHours(g)[i] {
      HourIndexMonotone(g[i].start, g[i].end + SecondsPerHour);
    }
    CountUpToMonotone(StartHours(g), EndHours(g), h);
  }

  /** With every segment ordered, every start hour and end hour lies within the grid's
      last hour. */
  lemma HoursWithinGrid(g: seq<Segment>)
    requires g != []
    requires forall i :: 0 <= i < |g| ==> g[i].start <= g[i].end
    ensures forall i :: 0 <= i < |g| ==> StartHours(g)[i] <= GridEnd(g) && EndHours(g)[i] <= GridEnd(g)
  {
    forall i | 0 <= i < |g| ensures StartHours(g)[i] <= GridEnd(g) && EndHours(g)[i] <= GridEnd(g) {
      HourIndexMonotone(g[i].start, MaxEnd(g) + SecondsPerHour);
      HourIndexMonotone(g[i].end + SecondsPerHour, MaxEnd(g) + SecondsPerHour);
    }
  }

  /** With every segment ordered, the grid is not empty and its last hour counts 0:
      every start and every end lies at or before it. */
  lemma LastHourZero(g: seq<Segment>)
    requires g != []
    requires forall i :: 0 <= i < |g| ==> g[i].start <= g[i].end
    ensures GridStart(g) <= GridEnd(g)
    ensures var rows := CreateBarrioAgg(g); rows[|rows| - 1].activeTickets == 0
  {
    GridNotEmpty(g);
    ActiveAtGridEnd(g);
    LastRowZero(g);
  }

  lemma LastRowZero(g: seq<Segment>)
    requires g != [] && GridStart(g) <= GridEnd(g)
    requires ActiveAt(g, GridEnd(g)) == 0
    ensures var rows := CreateBarrioAgg(g); rows[|rows| - 1].activeTickets == 0
  {
    GridRowAt(g, GridEnd(g));
  }

  lemma GridNotEmpty(g: seq<Segment>)
    requires g != []
    requires forall i :: 0 <= i < |g| ==> g[i].start <= g[i].end
    ensures GridStart(g) <= GridEnd(g)
  {
    assert MinStart(g) <= MaxEnd(g) by {
      assert MinStart(g) <= g[0].start <= g[0].end <= MaxEnd(g);
    }
    HourIndexMonotone(MinStart(g), MaxEnd(g) + SecondsPerHour);
  }

  lemma ActiveAtGridEnd(g: seq<Segment>)
    requires g != []
    requires forall i :: 0 <= i < |g| ==> g[i].start <= g[i].end
    ensures ActiveAt(g, GridEnd(g)) == 0
  {
    HoursWithinGrid(g);
    CountUpToAll(StartHours(g), GridEnd(g));
    CountUpToAll(EndHours(g), GridEnd(g));
  }

  /** One more segment adds 1 at the hours from its start hour on, and takes 1 away
      at the hours from its end hour on. */
  lemma ActiveAppend(g: seq<Segment>, s: Segment, h: int)
    ensures ActiveAt(g + [s], h) == ActiveAt(g, h)
      + (if StartHour(s) <= h then 1 else 0) - (if EndHour(s) <= h then 1 else 0)
  {
    assert StartHours(g + [s]) == StartHours(g) + [StartHour(s)];
    assert EndHours(g + [s]) == EndHours(g) + [EndHour(s)];
    CountUpToAppend(StartHours(g), StartHour(s), h);
    CountUpToAppend(EndHours(g), EndHour(s), h);
  }

  /** A ticket 09:00-11:00 on its own counts 1, 1, 1 and 0 at 09:00, 10:00, 11:00
      and 12:00. */
  lemma SingleTicketGrid(day: int, barrioId: Option<int>, zone: string)
    ensures var g := [Segment(day * SecondsPerDay + 9 * SecondsPerHour, day * SecondsPerDay + 11 * SecondsPerHour, barrioId, zone)];
      CreateBarrioAgg(g) == [HourValue(day * 24 + 9, 1), HourValue(day * 24 + 10, 1),
                             HourValue(day * 24 + 11, 1), HourValue(day * 24 + 12, 0)]
  {
    var g := [Segment(day * SecondsPerDay + 9 * SecondsPerHour, day * SecondsPerDay + 11 * SecondsPerHour, barrioId, zone)];
    assert StartHours(g) == [day * 24 + 9];
    assert EndHours(g) == [day * 24 + 12];
    assert GridStart(g) == day * 24 + 9 && GridEnd(g) == day * 24 + 12;
  }

  /** As written, the first half of a ticket that starts two or more hours after the
      cutoff hour ends before it starts; at the hour after the cutoff it then counts -1
      against its group instead of 0. */
  lemma LateStartSegment(t: ParkingTicket, g: seq<Segment>)
    requires Hour(t.start) >= NoParkingStartHour(t.start) + 2
    ensures var s0 := ProcessParkingDates(t)[0];
      && s0.end < s0.start
      && EndHour(s0) == DayIndex(t.start) * 24 + NoParkingStartHour(t.start) + 1
      && EndHour(s0) < StartHour(s0)
      && ActiveAt(g + [s0], EndHour(s0)) == ActiveAt(g, EndHour(s0)) - 1
  {
    var s0 := ProcessParkingDates(t)[0];
    var c := NoParkingStartHour(t.start);
    HourIndexSplit(t.start);
    assert s0.end == DayIndex(t.start) * SecondsPerDay + c * SecondsPerHour + 59 * SecondsPerMinute;
    assert s0.end + SecondsPerHour == (DayIndex(t.start) * 24 + c + 1) * SecondsPerHour + 59 * SecondsPerMinute;
    ActiveAppend(g, s0, EndHour(s0));
  }

  // ---------------------------------------------------------------- groups

  /** `pre_agg_ser_df[(barrio_id == b) & (tipo_zona == z)]`: a NaN id equals nothing, so
      its group is empty. */
  function GroupOf(pre: seq<Segment>, b: Option<int>, z: string): seq<Segment> {
    if b.None? then [] else Filter(pre, (s: Segment) => s.barrioId == b && s.tipoZona == z)
  }

  /** A non-empty group holds exactly the segments with its barrio and zone. */
  lemma GroupOfMembers(pre: seq<Segment>, b: Option<int>, z: string)
    ensures GroupOf(pre, b, z) != [] ==> b.Some?
    ensures forall s :: s in GroupOf(pre, b, z) <==> s in pre && b.Some? && s.barrioId == b && s.tipoZona == z
  {
  }

  /** `barrio_zona_agg_ser_df["barrio_id"] = b; ["tipo_zona"] = z`. */
  function Tag(rows: seq<HourValue>, b: int, z: string): (r: seq<AggRow>)
    ensures |r| == |rows|
    ensures forall i :: 0 <= i < |rows| ==> r[i] == AggRow(rows[i].hour, rows[i].activeTickets, b, z)
  {
    seq(|rows|, i requires 0 <= i < |rows| => AggRow(rows[i].hour, rows[i].activeTickets, b, z))
  }

  /** The tagged grid of one group; the group's computation fails (ValueError from
      `date_range` on NaT bounds) when the group is empty. */
  function GroupFrame(pre: seq<Segment>, b: Option<int>, z: string): (r: Result<seq<AggRow>>)
    ensures r.Failure? <==> GroupOf(pre, b, z) == []
    ensures r.Failure? ==> r.error == ValueError
  {
    var g := GroupOf(pre, b, z);
    if g == [] then Failure(ValueError) else Success(Tag(CreateBarrioAgg(g), b.value, z))
  }

  /** The computation of one (barrio, zone) frame. */
  type FrameOf = (Option<int>, string) -> Result<seq<AggRow>>

  /** The frames of barrio `b` for the zones `zones`, in order, up to the first failure. */
  function ZoneRows(frame: FrameOf, b: Option<int>, zones: seq<string>): (r: Result<seq<AggRow>>)
    ensures r.Failure? <==> exists j :: 0 <= j < |zones| && frame(b, zones[j]).Failure?
  {
    if zones == [] then Success([])
    else
      var init := ZoneRows(frame, b, zones[..|zones| - 1]);
      assert forall j :: 0 <= j < |zones| - 1 ==> zones[..|zones| - 1][j] == zones[j];
      match init
      case Failure(e) => Failure(e)
      case Success(rows) =>
        match frame(b, zones[|zones| - 1])
        case Failure(e) => Failure(e)
        case Success(more) => Success(rows + more)
  }

  /** The frames of every barrio of `barrios` and zone of `zones`, barrio by barrio. */
  function GroupRows(frame: FrameOf, barrios: seq<Option<int>>, zones: seq<string>): (r: Result<seq<AggRow>>)
    ensures r.Failure? <==> exists i :: 0 <= i < |barrios| && ZoneRows(frame, barrios[i], zones).Failure?
  {
    if barrios == [] then Success([])
    else
      var init := GroupRows(frame, barrios[..|barrios| - 1], zones);
      assert forall i :: 0 <= i < |barrios| - 1 ==> barrios[..|barrios| - 1][i] == barrios[i];
      match init
      case Failure(e) => Failure(e)
      case Success(rows) =>
        match ZoneRows(frame, barrios[|barrios| - 1], zones)
        case Failure(e) => Failure(e)
        case Success(more) => Success(rows + more)
  }

  /** `pre_agg_ser_df["barrio_id"].unique()` and `["tipo_zona"].unique()`. */
  function Barrios(pre: seq<Segment>): seq<Option<int>> {
    Dedup(seq(|pre|, i requires 0 <= i < |pre| => pre[i].barrioId))
  }

  function Zones(pre: seq<Segment>): seq<string> {
    Dedup(seq(|pre|, i requires 0 <= i < |pre| => pre[i].tipoZona))
  }

  /** There are barrios and zones to loop over exactly when there are segments. */
  lemma BarriosZonesNonEmpty(pre: seq<Segment>)
    ensures Barrios(pre) == [] <==> pre == []
    ensures Zones(pre) == [] <==> pre == []
  {
    if pre != [] {
      var ids := seq(|pre|, i requires 0 <= i < |pre| => pre[i].barrioId);
      var zs := seq(|pre|, i requires 0 <= i < |pre| => pre[i].tipoZona);
      assert ids[0] in Barrios(pre);
      assert zs[0] in Zones(pre);
    }
  }

  /** Once a prefix of the zones fails, all of them fail with the same error. */
  lemma {:induction false} ZoneRowsPrefixFails(frame: FrameOf, b: Option<int>, zones: seq<string>, k: nat)
    requires k <= |zones| && ZoneRows(frame, b, zones[..k]).Failure?
    ensures ZoneRows(frame, b, zones) == ZoneRows(frame, b, zones[..k])
    decreases |zones| - k
  {
    if k < |zones| {
      assert zones[..k + 1][..k] == zones[..k];
      ZoneRowsPrefixFails(frame, b, zones, k + 1);
    } else {
      assert zones[..k] == zones;
    }
  }

  /** Once a prefix of the barrios fails, all of them fail with the same error. */
  lemma {:induction false} GroupRowsPrefixFails(frame: FrameOf, barrios: seq<Option<int>>, zones: seq<string>, k: nat)
    requires k <= |barrios| && GroupRows(frame, barrios[..k], zones).Failure?
    ensures GroupRows(frame, barrios, zones) == GroupRows(frame, barrios[..k], zones)
    decreases |barrios| - k
  {
    if k < |barrios| {
      assert barrios[..k + 1][..k] == barrios[..k];
      GroupRowsPrefixFails(frame, barrios, zones, k + 1);
    } else {
      assert barrios[..k] == barrios;
    }
  }

  /** One more zone appends that group's frame. */
  lemma ZoneRowsStep(frame: FrameOf, b: Option<int>, zones: seq<string>, j: nat)
    requires j < |zones| && ZoneRows(frame, b, zones[..j]).Success? && frame(b, zones[j]).Success?
    ensures ZoneRows(frame, b, zones[..j + 1])
      == Success(ZoneRows(frame, b, zones[..j]).value + frame(b, zones[j]).value)
  {
    assert zones[..j + 1][..j] == zones[..j];
  }

  /** The inner loop of the barrio x zone iteration: the frames of barrio `b`, zone by
      zone, appended to the rows gathered so far; `None` when a frame's computation
      raises. */
  method AppendZoneFrames(frame: FrameOf, b: Option<int>, zones: seq<string>, rows: seq<AggRow>)
    returns (r: Option<seq<AggRow>>)
    ensures ZoneRows(frame, b, zones).Failure? <==> r.None?
    ensures r.Some? ==> r.value == rows + ZoneRows(frame, b, zones).value
  {
    var allRows := rows;
    for j := 0 to |zones|
      invariant ZoneRows(frame, b, zones[..j]).Success?
      invariant allRows == rows + ZoneRows(frame, b, zones[..j]).value
    {
      var f := frame(b, zones[j]);
      if f.Failure? {
        assert zones[..j + 1][..j] == zones[..j];
        ZoneRowsPrefixFails(frame, b, zones, j + 1);
        return None;
      }
      ZoneRowsStep(frame, b, zones, j);
      allRows := allRows + f.value;
    }
    assert zones[..|zones|] == zones;
    r := Some(allRows);
  }

  /** The barrio x zone loop: each group's frame appended in turn (`frames` counts the
      frames handed to `pd.concat`); a frame that raises stops the loop with its error,
      and the final concatenation raises ValueError when there is no frame at all. */
  method AggregateGroups(frame: FrameOf, barrios: seq<Option<int>>, zones: seq<string>)
    returns (r: Result<seq<AggRow>>)
    ensures barrios == [] || zones == [] ==> r == Failure(ValueError)
    ensures barrios != [] && zones != [] ==> r == GroupRows(frame, barrios, zones)
  {
    var allRows: seq<AggRow> := [];
    var frames: nat := 0;
    for i := 0 to |barrios|
      invariant GroupRows(frame, barrios[..i], zones) == Success(allRows)
      invariant frames == 0 <==> i == 0 || zones == []
    {
      assert barrios[..i + 1][..i] == barrios[..i];
      var next := AppendZoneFrames(frame, barrios[i], zones, allRows);
      if next.None? {
        GroupRowsPrefixFails(frame, barrios, zones, i + 1);
        return GroupRows(frame, barrios, zones);
      }
      allRows := next.value;
      frames := frames + |zones|;
    }
    assert barrios[..|barrios|] == barrios;
    if frames == 0 {
      return Failure(ValueError);
    }
    r := Success(allRows);
  }

  /** Every row gathered comes from the frame of some barrio and zone of the loop. */
  lemma {:induction false} ZoneRowsSound(frame: FrameOf, b: Option<int>, zones: seq<string>, r: AggRow)
    requires ZoneRows(frame, b, zones).Success? && r in ZoneRows(frame, b, zones).value
    ensures exists j :: 0 <= j < |zones| && frame(b, zones[j]).Success? && r in frame(b, zones[j]).value
  {
    var init := zones[..|zones| - 1];
    if r !in frame(b, zones[|zones| - 1]).value {
      ZoneRowsSound(frame, b, init, r);
      var j :| 0 <= j < |init| && frame(b, init[j]).Success? && r in frame(b, init[j]).value;
      assert init[j] == zones[j];
    }
  }

  lemma {:induction false} GroupRowsSound(frame: FrameOf, barrios: seq<Option<int>>, zones: seq<string>, r: AggRow)
    requires GroupRows(frame, barrios, zones).Success? && r in GroupRows(frame, barrios, zones).value
    ensures exists i, j :: (0 <= i < |barrios| && 0 <= j < |zones|
      && frame(barrios[i], zones[j]).Success? && r in frame(barrios[i], zones[j]).value)
  {
    var init := barrios[..|barrios| - 1];
    var last := barrios[|barrios| - 1];
    if r in ZoneRows(frame, last, zones).value {
      ZoneRowsSound(frame, last, zones, r);
    } else {
      GroupRowsSound(frame, init, zones, r);
      var i, j :| 0 <= i < |init| && 0 <= j < |zones|
        && frame(init[i], zones[j]).Success? && r in frame(init[i], zones[j]).value;
      assert init[i] == barrios[i];
    }
  }

  /** Conversely every row of every frame is gathered. */
  lemma {:induction false} ZoneRowsComplete(frame: FrameOf, b: Option<int>, zones: seq<string>, j: nat, r: AggRow)
    requires ZoneRows(frame, b, zones).Success? && j < |zones|
    requires frame(b, zones[j]).Success? && r in frame(b, zones[j]).value
    ensures r in ZoneRows(frame, b, zones).value
  {
    var init := zones[..|zones| - 1];
    if j < |zones| - 1 {
      assert init[j] == zones[j];
      ZoneRowsComplete(frame, b, init, j, r);
    }
  }

  lemma {:induction false} GroupRowsComplete(frame: FrameOf, barrios: seq<Option<int>>, zones: seq<string>, i: nat, j: nat, r: AggRow)
    requires GroupRows(frame, barrios, zones).Success? && i < |barrios| && j < |zones|
    requires frame(barrios[i], zones[j]).Success? && r in frame(barrios[i], zones[j]).value
    ensures r in GroupRows(frame, barrios, zones).value
  {
    var init := barrios[..|barrios| - 1];
    if i < |barrios| - 1 {
      assert init[i] == barrios[i];
      GroupRowsComplete(frame, init, zones, i, j, r);
    } else {
      ZoneRowsComplete(frame, barrios[i], zones, j, r);
    }
  }

  /** The error raised is that of a failing frame. */
  lemma {:induction false} ZoneRowsError(frame: FrameOf, b: Option<int>, zones: seq<string>)
    requires ZoneRows(frame, b, zones).Failure?
    ensures exists j :: 0 <= j < |zones| && frame(b, zones[j]) == Failure(ZoneRows(frame, b, zones).error)
  {
    var init := zones[..|zones| - 1];
    if ZoneRows(frame, b, init).Failure? {
      ZoneRowsError(frame, b, init);
      var j :| 0 <= j < |init| && frame(b, init[j]) == Failure(ZoneRows(frame, b, init).error);
      assert init[j] == zones[j];
    }
  }

  lemma {:induction false} GroupRowsError(frame: FrameOf, barrios: seq<Option<int>>, zones: seq<string>)
    requires GroupRows(frame, barrios, zones).Failure?
    ensures exists i, j :: (0 <= i < |barrios| && 0 <= j < |zones|
      && frame(barrios[i], zones[j]) == Failure(GroupRows(frame, barrios, zones).error))
  {
    var init := barrios[..|barrios| - 1];
    var last := barrios[|barrios| - 1];
    if GroupRows(frame, init, zones).Failure? {
      GroupRowsError(frame, init, zones);
      var i, j :| 0 <= i < |init| && 0 <= j < |zones|
        && frame(init[i], zones[j]) == Failure(GroupRows(frame, init, zones).error);
      assert init[i] == barrios[i];
    } else {
      ZoneRowsError(frame, last, zones);
    }
  }

  /** A row of a group's frame carries the group's tags, lies on the group's grid and
      counts the group's active segments at its hour. */
  predicate RowOfGroup(pre: seq<Segment>, r: AggRow) {
    var g := GroupOf(pre, Some(r.barrioId), r.tipoZona);
    g != [] && GridStart(g) <= r.hour <= GridEnd(g) && r.activeTickets == ActiveAt(g, r.hour)
  }

  lemma GroupFrameRows(pre: seq<Segment>, b: Option<int>, z: string, r: AggRow)
    requires GroupFrame(pre, b, z).Success? && r in GroupFrame(pre, b, z).value
    ensures b == Some(r.barrioId) && r.tipoZona == z && RowOfGroup(pre, r)
  {
    var g := GroupOf(pre, b, z);
    var rows := CreateBarrioAgg(g);
    var k :| 0 <= k < |rows| && Tag(rows, b.value, z)[k] == r;
  }

  /** Every hour of a grid has its row in the tagged grid. */
  lemma TaggedGridHasHour(g: seq<Segment>, b: int, z: string, h: int)
    requires g != [] && GridStart(g) <= h <= GridEnd(g)
    ensures AggRow(h, ActiveAt(g, h), b, z) in Tag(CreateBarrioAgg(g), b, z)
  {
    GridRowAt(g, h);
    TagHasRow(CreateBarrioAgg(g), b, z, h - GridStart(g));
  }

  /** The grid row of hour `h`. */
  lemma GridRowAt(g: seq<Segment>, h: int)
    requires g != [] && GridStart(g) <= h <= GridEnd(g)
    ensures var rows := CreateBarrioAgg(g);
      && |rows| == GridEnd(g) - GridStart(g) + 1
      && rows[h - GridStart(g)] == HourValue(h, ActiveAt(g, h))
  {
  }

  lemma TagHasRow(rows: seq<HourValue>, b: int, z: string, k: nat)
    requires k < |rows|
    ensures AggRow(rows[k].hour, rows[k].activeTickets, b, z) in Tag(rows, b, z)
  {
    assert Tag(rows, b, z)[k] == AggRow(rows[k].hour, rows[k].activeTickets, b, z);
  }

  /** Conversely, every hour of a non-empty group's grid has its row. */
  lemma GroupFrameHasHour(pre: seq<Segment>, b: int, z: string, h: int)
    requires var g := GroupOf(pre, Some(b), z); g != [] && GridStart(g) <= h <= GridEnd(g)
    ensures GroupFrame(pre, Some(b), z).Success?
    ensures AggRow(h, ActiveAt(GroupOf(pre, Some(b), z), h), b, z) in GroupFrame(pre, Some(b), z).value
  {
    TaggedGridHasHour(GroupOf(pre, Some(b), z), b, z, h);
  }

  // ---------------------------------------------------------------- masks

  /** The hours whose count is overwritten with 0: 21:00 every day, 15:00 on Saturdays,
      and 15:00 on August weekdays (Monday to Friday). */
  predicate MaskedHour(h: int): (masked: bool)
    ensures masked ==> HourOfDay(h) == 15 || HourOfDay(h) == 21
  {
    HourOfDay(h) == 21
    || (HourOfDay(h) == 15 && DayOfWeekOfHour(h) == 5)
    || (HourOfDay(h) == 15 && MonthOfHour(h) == 8 && DayOfWeekOfHour(h) < 5)
  }

  function MaskRow(r: AggRow): AggRow {
    if MaskedHour(r.hour) then r.(activeTickets := 0) else r
  }

  /** The three `.loc[...] = 0` assignments, as one function of the rows. */
  function MaskRows(rows: seq<AggRow>): (r: seq<AggRow>)
    ensures |r| == |rows| && forall i :: 0 <= i < |rows| ==> r[i] == MaskRow(rows[i])
  {
    seq(|rows|, i requires 0 <= i < |rows| => MaskRow(rows[i]))
  }

  /** Masking twice is masking once. */
  lemma MaskRowsIdempotent(rows: seq<AggRow>)
    ensures MaskRows(MaskRows(rows)) == MaskRows(rows)
  {
  }

  /** `agg_ser_df.loc[mask, "active_tickets"] = 0` for the hours `p` selects, in place. */
  method ZeroWhere(a: array<AggRow>, p: int -> bool)
    modifies a
    ensures forall i :: 0 <= i < a.Length ==>
      a[i] == if p(old(a[i]).hour) then old(a[i]).(activeTickets := 0) else old(a[i])
  {
    for i := 0 to a.Length
      invariant forall k :: 0 <= k < i ==>
        a[k] == if p(old(a[k]).hour) then old(a[k]).(activeTickets := 0) else old(a[k])
      invariant forall k :: i <= k < a.Length ==> a[k] == old(a[k])
    {
      if p(a[i].hour) {
        a[i] := a[i].(activeTickets := 0);
      }
    }
  }

  /** The three masks applied one after the other: no row is added or removed, and only
      the counts at masked hours change, to 0. */
  method ApplyScheduleMasks(a: array<AggRow>)
    modifies a
    ensures a[..] == MaskRows(old(a[..]))
  {
    ZeroWhere(a, h => HourOfDay(h) == 21);
    ZeroWhere(a, h => HourOfDay(h) == 15 && DayOfWeekOfHour(h) == 5);
    ZeroWhere(a, h => HourOfDay(h) == 15 && MonthOfHour(h) == 8 && DayOfWeekOfHour(h) < 5);
  }

  // ---------------------------------------------------------------- zone selection

  /** The six central neighbourhoods, whose green zone is kept. */
  const CentralBarrios: set<int> := {101, 102, 103, 104, 105, 106}

  predicate Selected(r: AggRow) {
    (r.barrioId in CentralBarrios && r.tipoZona == "VERDE")
    || (r.barrioId !in CentralBarrios && r.tipoZona == "AZUL")
  }

  /** Exactly one zone per neighbourhood: green for the central ones, blue elsewhere. */
  function SelectZones(rows: seq<AggRow>): (r: seq<AggRow>)
    ensures |r| <= |rows|
    ensures forall i :: 0 <= i < |r| ==> r[i] in rows && Selected(r[i])
    ensures forall i :: 0 <= i < |rows| && Selected(rows[i]) ==> rows[i] in r
  {
    Filter(rows, Selected)
  }

  /** Masking and selecting commute: the masks depend on the hour alone and selection
      on the tags alone. */
  lemma {:induction false} MaskSelectCommute(rows: seq<AggRow>)
    ensures SelectZones(MaskRows(rows)) == MaskRows(SelectZones(rows))
  {
    if rows != [] {
      var m := MaskRows(rows);
      assert m[1..] == MaskRows(rows[1..]);
      MaskSelectCommute(rows[1..]);
      assert Selected(m[0]) == Selected(rows[0]);
      var tail := SelectZones(rows[1..]);
      if Selected(rows[0]) {
        assert MaskRows([rows[0]] + tail) == [m[0]] + MaskRows(tail);
      }
    }
  }

  // ---------------------------------------------------------------- the step

  /** The per-group computation the loop runs. */
  function GroupFrameOf(pre: seq<Segment>): FrameOf {
    (b, z) => GroupFrame(pre, b, z)
  }

  /** The aggregation proper, from the split and filtered segments. */
  function AggregateFrom(pre: seq<Segment>): (r: Result<seq<AggRow>>)
    ensures pre == [] ==> r == Failure(ValueError)
    ensures r.Success? ==> forall i :: 0 <= i < |r.value| ==> Selected(r.value[i])
  {
    if pre == [] then Failure(ValueError)
    else
      match GroupRows(GroupFrameOf(pre), Barrios(pre), Zones(pre))
      case Failure(e) => Failure(e)
      case Success(rows) => Success(SelectZones(MaskRows(rows)))
  }

  /** The rows `data_aggregator` returns, or the error it raises. */
  function Aggregated(ts: seq<ParkingTicket>): Result<seq<AggRow>> {
    AggregateFrom(PreAggregate(ts))
  }

  /** `data_aggregator`: split, filter, aggregate group by group, mask in place, select. */
  method DataAggregator(ts: seq<ParkingTicket>) returns (r: Result<seq<AggRow>>)
    ensures r == Aggregated(ts)
  {
    r := AggregateSegments(PreAggregate(ts));
  }

  /** The part of `data_aggregator` after the split: group, mask, select. */
  method AggregateSegments(pre: seq<Segment>) returns (r: Result<seq<AggRow>>)
    ensures r == AggregateFrom(pre)
  {
    BarriosZonesNonEmpty(pre);
    var grouped := AggregateGroups(GroupFrameOf(pre), Barrios(pre), Zones(pre));
    if grouped.Failure? {
      return Failure(grouped.error);
    }
    var selected := MaskAndSelect(grouped.value);
    r := Success(selected);
  }

  /** The concatenated frame masked in place, then reduced to the selected zones. */
  method MaskAndSelect(rows: seq<AggRow>) returns (selected: seq<AggRow>)
    ensures selected == SelectZones(MaskRows(rows))
  {
    var aggSerDf := new AggRow[|rows|](i requires 0 <= i < |rows| => rows[i]);
    assert aggSerDf[..] == rows;
    ApplyScheduleMasks(aggSerDf);
    selected := SelectZones(aggSerDf[..]);
  }

  /** Some barrio and zone seen in the segments have no segment together. */
  predicate HasEmptyGroup(pre: seq<Segment>) {
    exists i, j :: (0 <= i < |Barrios(pre)| && 0 <= j < |Zones(pre)|
      && GroupOf(pre, Barrios(pre)[i], Zones(pre)[j]) == [])
  }

  /** A failing frame makes the whole step fail, with that frame's ValueError. */
  lemma GroupRowsFailsOnEmpty(pre: seq<Segment>)
    requires GroupRows(GroupFrameOf(pre), Barrios(pre), Zones(pre)).Failure?
    ensures HasEmptyGroup(pre)
    ensures GroupRows(GroupFrameOf(pre), Barrios(pre), Zones(pre)).error == ValueError
  {
    var f := GroupFrameOf(pre);
    var bs, zs := Barrios(pre), Zones(pre);
    GroupRowsError(f, bs, zs);
    var i, j :| 0 <= i < |bs| && 0 <= j < |zs| && f(bs[i], zs[j]) == Failure(GroupRows(f, bs, zs).error);
    assert GroupFrame(pre, bs[i], zs[j]).Failure?;
  }

  lemma EmptyGroupFails(pre: seq<Segment>)
    requires HasEmptyGroup(pre)
    ensures GroupRows(GroupFrameOf(pre), Barrios(pre), Zones(pre)).Failure?
  {
    var f := GroupFrameOf(pre);
    var bs, zs := Barrios(pre), Zones(pre);
    var i, j :| 0 <= i < |bs| && 0 <= j < |zs| && GroupOf(pre, bs[i], zs[j]) == [];
    assert f(bs[i], zs[j]).Failure?;
    assert ZoneRows(f, bs[i], zs).Failure?;
  }

  /** The step raises exactly when no segment survives, or when some barrio and zone
      seen in the data have no segment together (a NaN barrio always counts as such),
      and what it raises is a ValueError. */
  lemma AggregateFromFails(pre: seq<Segment>)
    ensures AggregateFrom(pre).Failure? <==> pre == [] || HasEmptyGroup(pre)
    ensures AggregateFrom(pre).Failure? ==> AggregateFrom(pre).error == ValueError
  {
    if pre != [] {
      if GroupRows(GroupFrameOf(pre), Barrios(pre), Zones(pre)).Failure? {
        GroupRowsFailsOnEmpty(pre);
      }
      if HasEmptyGroup(pre) {
        EmptyGroupFails(pre);
      }
    }
  }

  /** Every returned row has its neighbourhood's zone and lies on its group's grid; it
      counts 0 at a masked hour, and otherwise the active segments of its group at its
      hour. */
  lemma AggregateFromRows(pre: seq<Segment>, r: AggRow)
    requires AggregateFrom(pre).Success? && r in AggregateFrom(pre).value
    ensures r.barrioId in CentralBarrios ==> r.tipoZona == "VERDE"
    ensures r.barrioId !in CentralBarrios ==> r.tipoZona == "AZUL"
    ensures MaskedHour(r.hour) ==> r.activeTickets == 0
    ensures !MaskedHour(r.hour) ==> RowOfGroup(pre, r)
    ensures RowOfGroup(pre, r.(activeTickets := ActiveAt(GroupOf(pre, Some(r.barrioId), r.tipoZona), r.hour)))
  {
    var f := GroupFrameOf(pre);
    var bs, zs := Barrios(pre), Zones(pre);
    var rows := GroupRows(f, bs, zs).value;
    assert AggregateFrom(pre).value == SelectZones(MaskRows(rows));
    var k := SelectedSource(rows, r);
    var src := rows[k];
    GroupRowsSound(f, bs, zs, src);
    var i, j :| 0 <= i < |bs| && 0 <= j < |zs| && f(bs[i], zs[j]).Success? && src in f(bs[i], zs[j]).value;
    GroupFrameRows(pre, bs[i], zs[j], src);
    assert src == r.(activeTickets := ActiveAt(GroupOf(pre, Some(r.barrioId), r.tipoZona), r.hour));
  }

  /** A row that survives masking and selection is a selected row of the input, masked. */
  lemma SelectedSource(rows: seq<AggRow>, r: AggRow) returns (k: nat)
    requires r in SelectZones(MaskRows(rows))
    ensures k < |rows| && r == MaskRow(rows[k]) && Selected(r)
  {
    var masked := MaskRows(rows);
    k :| 0 <= k < |masked| && masked[k] == r;
  }

  /** A non-empty group's barrio and zone are among those the loop visits. */
  lemma GroupIsVisited(pre: seq<Segment>, b: int, z: string)
    requires GroupOf(pre, Some(b), z) != []
    ensures exists i, j :: (0 <= i < |Barrios(pre)| && 0 <= j < |Zones(pre)|
      && Barrios(pre)[i] == Some(b) && Zones(pre)[j] == z)
  {
    var g := GroupOf(pre, Some(b), z);
    GroupOfMembers(pre, Some(b), z);
    assert g[0] in pre;
    var k :| 0 <= k < |pre| && pre[k] == g[0];
    var ids := seq(|pre|, i requires 0 <= i < |pre| => pre[i].barrioId);
    var zs := seq(|pre|, i requires 0 <= i < |pre| => pre[i].tipoZona);
    assert ids[k] == Some(b) && zs[k] == z;
    assert Some(b) in Barrios(pre) && z in Zones(pre);
  }

  /** A kept row survives masking and selection, masked. */
  lemma MaskedSelectedIn(rows: seq<AggRow>, row: AggRow)
    requires row in rows && Selected(row)
    ensures MaskRow(row) in SelectZones(MaskRows(rows))
  {
    var k :| 0 <= k < |rows| && rows[k] == row;
    assert MaskRows(rows)[k] == MaskRow(row);
  }

  /** Conversely, every hour of every non-empty group's grid whose zone is the one kept
      for its neighbourhood appears in the output, masked. */
  lemma AggregateFromComplete(pre: seq<Segment>, b: int, z: string, h: int)
    requires AggregateFrom(pre).Success?
    requires var g := GroupOf(pre, Some(b), z); g != [] && GridStart(g) <= h <= GridEnd(g)
    requires Selected(AggRow(h, 0, b, z))
    ensures MaskRow(AggRow(h, ActiveAt(GroupOf(pre, Some(b), z), h), b, z)) in AggregateFrom(pre).value
  {
    var f := GroupFrameOf(pre);
    var bs, zs := Barrios(pre), Zones(pre);
    var row := AggRow(h, ActiveAt(GroupOf(pre, Some(b), z), h), b, z);
    GroupFrameHasHour(pre, b, z, h);
    GroupIsVisited(pre, b, z);
    var i, j :| 0 <= i < |bs| && 0 <= j < |zs| && bs[i] == Some(b) && zs[j] == z;
    assert f(bs[i], zs[j]) == GroupFrame(pre, Some(b), z);
    GroupRowsComplete(f, bs, zs, i, j, row);
    var rows := GroupRows(f, bs, zs).value;
    assert AggregateFrom(pre).value == SelectZones(MaskRows(rows));
    MaskedSelectedIn(rows, row);
  }
}
