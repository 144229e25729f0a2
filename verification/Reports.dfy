/** platform/linux/input.c (clamp_abs, consume_surface_report): what a multi-touch device reports, told
    from the events alone. */
module Reports {
  import opened Common
  import opened Surface

  // ---------------------------------------------------------------------------------------
  // Coordinates

  /** The value nearest to `value` in the range of the axis. */
  function Nearest(value: int, axis: Axis): int {
    Max(axis.minimum, Min(axis.maximum, value))
  }

  /** How far it lies from the end of the axis that counts as zero. */
  function Offset(value: int, axis: Axis, invert: bool): int {
    if invert then axis.maximum - Nearest(value, axis) else Nearest(value, axis) - axis.minimum
  }

  /** `clamp_abs` measures from the minimum, or from the maximum when the axis is inverted. */
  lemma ClampIsOffset(value: int, axis: Axis, invert: bool)
    requires axis.minimum <= axis.maximum
    ensures Clamp(value, axis, invert) == Offset(value, axis, invert)
  {
  }

  /** The reported coordinate: the ends give 0 and the span, steps inside the range are kept, a value
      outside gives the nearer end, and the two directions add up to the span. */
  lemma ClampLaws(value: int, axis: Axis)
    requires axis.minimum <= axis.maximum
    ensures Clamp(value, axis, false) + Clamp(value, axis, true) == axis.maximum - axis.minimum == Span(axis)
    ensures value <= axis.minimum ==> Clamp(value, axis, false) == 0
    ensures value >= axis.maximum ==> Clamp(value, axis, false) == Span(axis)
    ensures axis.minimum <= value < axis.maximum ==>
              Clamp(value + 1, axis, false) == Clamp(value, axis, false) + 1
  {
  }

  // ---------------------------------------------------------------------------------------
  // Contacts

  /** The last event of `items` changes the axis `code` of slot `s`, which has a finger. */
  predicate Changes(items: seq<Item>, s: int, code: int)
    requires items != []
  {
    var rest, item := items[..|items| - 1], items[|items| - 1];
    && item.Ev? && item.e.code == code && Consumed(RouteOf(rest), item.e)
    && RouteOf(rest).active == s >= 0 && IdOf(rest, s) >= 0
  }

  function XOf(cfg: Config, items: seq<Item>, s: int): int {
    if items == [] then 0
    else if Changes(items, s, ABS_MT_POSITION_X) then Offset(items[|items| - 1].e.value, cfg.x, cfg.invertX)
    else XOf(cfg, items[..|items| - 1], s)
  }

  function YOf(cfg: Config, items: seq<Item>, s: int): int {
    if items == [] then 0
    else if Changes(items, s, ABS_MT_POSITION_Y) then Offset(items[|items| - 1].e.value, cfg.y, cfg.invertY)
    else YOf(cfg, items[..|items| - 1], s)
  }

  /** The axis magnitudes are measured on, and the code of its events. */
  function MagAxis(cfg: Config): Axis
    requires ProperAxes(cfg)
  {
    if cfg.hasPressure then cfg.pressure else Axis(1, 1 + cfg.major.maximum / 3)
  }

  function MagCode(cfg: Config): int {
    if cfg.hasPressure then ABS_MT_PRESSURE else ABS_MT_TOUCH_MAJOR
  }

  /** The last event selects slot `s`; the last event lifts its finger. */
  predicate Selects(items: seq<Item>, s: int)
    requires items != []
  {
    var rest, item := items[..|items| - 1], items[|items| - 1];
    item.Ev? && item.e.code == ABS_MT_SLOT && item.e.value == s && Consumed(RouteOf(rest), item.e)
  }

  predicate Lifts(items: seq<Item>, s: int)
    requires items != []
  {
    var rest, item := items[..|items| - 1], items[|items| - 1];
    && item.Ev? && item.e.code == ABS_MT_TRACKING_ID && item.e.value < 0 && Consumed(RouteOf(rest), item.e)
    && Aimed(RouteOf(rest)) == s
  }

  /** A lifted finger has magnitude 0, and a selected slot at least 1. */
  function MagOf(cfg: Config, items: seq<Item>, s: int): int
    requires ProperAxes(cfg)
  {
    if items == [] then 0
    else
      var was := MagOf(cfg, items[..|items| - 1], s);
      if Changes(items, s, MagCode(cfg)) then Offset(items[|items| - 1].e.value, MagAxis(cfg), false)
      else if Lifts(items, s) then 0
      else if Selects(items, s) && was == 0 then 1
      else was
  }

  /** An axis event for some slot has been taken. */
  predicate Measured(items: seq<Item>, code: int) {
    items != [] &&
    (Changes(items, RouteOf(items[..|items| - 1]).active, code) || Measured(items[..|items| - 1], code))
  }

  function Extent(axis: Axis): int {
    axis.maximum - axis.minimum
  }

  function XMaxOf(cfg: Config, items: seq<Item>): int {
    if Measured(items, ABS_MT_POSITION_X) then Extent(cfg.x) else 0
  }

  function YMaxOf(cfg: Config, items: seq<Item>): int {
    if Measured(items, ABS_MT_POSITION_Y) then Extent(cfg.y) else 0
  }

  function MagMaxOf(cfg: Config, items: seq<Item>): int
    requires ProperAxes(cfg)
  {
    if Measured(items, MagCode(cfg)) then Extent(MagAxis(cfg)) else cfg.magmax
  }

  /** One item, for the position of slot `s`. */
  lemma PositionStep(cfg: Config, m: Machine, items: seq<Item>, s: nat)
    requires ProperAxes(cfg) && ValidMachine(m) && s < CONTACTS && items != []
    requires var rest := items[..|items| - 1];
             && Route(m.pad.active, m.inside) == RouteOf(rest)
             && (m.pad.contacts[s].id >= 0 <==> IdOf(rest, s) >= 0)
    ensures var n, c, e := Next(cfg, m, items[|items| - 1]), m.pad.contacts[s], items[|items| - 1];
            && n.pad.contacts[s].x ==
               (if Changes(items, s, ABS_MT_POSITION_X) then Offset(e.e.value, cfg.x, cfg.invertX) else c.x)
            && n.pad.contacts[s].y ==
               (if Changes(items, s, ABS_MT_POSITION_Y) then Offset(e.e.value, cfg.y, cfg.invertY) else c.y)
  {
    var item := items[|items| - 1];
    if item.Ev? {
      ClampIsOffset(item.e.value, cfg.x, cfg.invertX);
      ClampIsOffset(item.e.value, cfg.y, cfg.invertY);
    }
    hide Clamp, Offset, RouteOf, IdOf;
  }

  /** And for its magnitude. */
  lemma MagnitudeStep(cfg: Config, m: Machine, items: seq<Item>, s: nat)
    requires ProperAxes(cfg) && ValidMachine(m) && s < CONTACTS && items != []
    requires var rest := items[..|items| - 1];
             && Route(m.pad.active, m.inside) == RouteOf(rest)
             && (m.pad.contacts[s].id >= 0 <==> IdOf(rest, s) >= 0)
    ensures var n, c, e := Next(cfg, m, items[|items| - 1]), m.pad.contacts[s], items[|items| - 1];
            n.pad.contacts[s].mag ==
            (if Changes(items, s, MagCode(cfg)) then Offset(e.e.value, MagAxis(cfg), false)
             else if Lifts(items, s) then 0
             else if Selects(items, s) && c.mag == 0 then 1
             else c.mag)
  {
    var item := items[|items| - 1];
    if item.Ev? {
      ClampIsOffset(item.e.value, MagAxis(cfg), false);
    }
    hide Clamp, Offset, RouteOf, IdOf;
  }

  /** One item, for the extents. */
  lemma ExtentStep(cfg: Config, m: Machine, items: seq<Item>)
    requires ProperAxes(cfg) && ValidMachine(m) && items != []
    requires var rest := items[..|items| - 1];
             && Route(m.pad.active, m.inside) == RouteOf(rest)
             && (m.pad.active >= 0 ==> (ActiveId(m.pad) >= 0 <==> IdOf(rest, m.pad.active) >= 0))
    ensures var n, a := Next(cfg, m, items[|items| - 1]), m.pad.active;
            && n.pad.xmax == (if Changes(items, a, ABS_MT_POSITION_X) then Extent(cfg.x) else m.pad.xmax)
            && n.pad.ymax == (if Changes(items, a, ABS_MT_POSITION_Y) then Extent(cfg.y) else m.pad.ymax)
            && n.pad.magmax == (if Changes(items, a, MagCode(cfg)) then Extent(MagAxis(cfg)) else m.pad.magmax)
  {
    hide Clamp, RouteOf, IdOf;
  }

  /** After any stream, every slot's contact and the extents are those the events give. */
  lemma {:induction false} ContactsAre(cfg: Config, items: seq<Item>, s: nat)
    requires ProperAxes(cfg) && s < CONTACTS
    ensures var p := Run(cfg, Fresh(cfg), items).pad;
            && p.contacts[s].x == XOf(cfg, items, s) && p.contacts[s].y == YOf(cfg, items, s)
            && p.contacts[s].mag == MagOf(cfg, items, s)
            && p.xmax == XMaxOf(cfg, items) && p.ymax == YMaxOf(cfg, items) && p.magmax == MagMaxOf(cfg, items)
  {
    if items != [] {
      hide Changes, Lifts, Selects, Next, Offset, RouteOf, IdOf;
      var rest := items[..|items| - 1];
      var m := Run(cfg, Fresh(cfg), rest);
      ContactsAre(cfg, rest, s);
      SlotsAreIndependent(cfg, rest, s);
      IdsFollow(cfg, rest, s);
      if m.pad.active >= 0 {
        IdsFollow(cfg, rest, m.pad.active);
      }
      PositionStep(cfg, m, items, s);
      MagnitudeStep(cfg, m, items, s);
      ExtentStep(cfg, m, items);
    }
  }

  // ---------------------------------------------------------------------------------------
  // Reports

  /** The report for slot `s` that `items` leave. */
  function ReportFor(cfg: Config, items: seq<Item>, s: int): Report
    requires ProperAxes(cfg)
  {
    Report(s, MagOf(cfg, items, s), XOf(cfg, items, s), YOf(cfg, items, s),
           MagMaxOf(cfg, items), XMaxOf(cfg, items), YMaxOf(cfg, items))
  }

  /** What the last item makes the device send: a report of magnitude 0 for a finger that lifts; the report
      due, when another slot is selected or the multi-touch events end. */
  ghost function Sends(cfg: Config, items: seq<Item>): seq<Report>
    requires ProperAxes(cfg) && items != []
  {
    var rest, item := items[..|items| - 1], items[|items| - 1];
    var r := RouteOf(rest);
    if item.BatchEnd? then []
    else if Lifts(items, Aimed(r)) then [ReportFor(cfg, rest, Aimed(r)).(mag := 0)]
    else if Due(cfg, rest) && (item.e.code == ABS_MT_SLOT || !Consumed(r, item.e)) then [ReportFor(cfg, rest, r.active)]
    else []
  }

  ghost function ReportsOf(cfg: Config, items: seq<Item>): seq<Report>
    requires ProperAxes(cfg)
  {
    if items == [] then [] else ReportsOf(cfg, items[..|items| - 1]) + Sends(cfg, items)
  }

  lemma SendStep(cfg: Config, m: Machine, items: seq<Item>)
    requires ProperAxes(cfg) && ValidMachine(m) && items != []
    requires var rest := items[..|items| - 1];
             && Route(m.pad.active, m.inside) == RouteOf(rest) && (m.pad.pending <==> Due(cfg, rest))
             && (m.pad.active >= 0 ==> ReportOf(m.pad, m.pad.active) == ReportFor(cfg, rest, m.pad.active))
             && (m.pad.active < 0 ==> ReportOf(m.pad, 0) == ReportFor(cfg, rest, 0))
    ensures Next(cfg, m, items[|items| - 1]).pad.out == m.pad.out + Sends(cfg, items)
  {
    hide Clamp, RouteOf, Due, ReportFor;
  }

  /** Over every stream, the reports sent are exactly those the events call for, each with the position,
      magnitude and extents that the events give its slot. */
  lemma {:induction false} ReportsAre(cfg: Config, items: seq<Item>)
    requires ProperAxes(cfg)
    ensures Run(cfg, Fresh(cfg), items).pad.out == ReportsOf(cfg, items)
  {
    if items != [] {
      hide Next, RouteOf, Due, Sends, XOf, YOf, MagOf, XMaxOf, YMaxOf, MagMaxOf;
      var rest := items[..|items| - 1];
      var m := Run(cfg, Fresh(cfg), rest);
      ReportsAre(cfg, rest);
      DueIsPending(cfg, rest);
      SlotsAreIndependent(cfg, rest, 0);
      ContactsAre(cfg, rest, if m.pad.active >= 0 then m.pad.active else 0);
      SendStep(cfg, m, items);
    }
  }
}
